/** What survives a crash: logs, tables and the manifest, and the steps that write and delete them.

    The crash model: appends are kept in order, and a crash may cut off only the tail of the newest log
    that was not synced, and the manifest record whose append had not returned. */
module Durability {
  import opened Options
  import opened InternalKeys
  import opened Files
  import opened InputSelection
  import opened TreeSteps
  import Lsm = LsmMachine

  /** The entries of one log record: a group of writes. */
  type Group = seq<Entry>
  type Log = seq<Group>

  ghost function EntriesIn(groups: seq<Group>): set<Entry> {
    set i, e | 0 <= i < |groups| && e in groups[i] :: e
  }

  /** The database a manifest describes after one of its records.  `covered` counts the groups whose
      entries its tables hold; the manifest itself only says from which log on to replay. */
  datatype Record = Record(version: Version, logNumber: nat, nextFile: nat, lastSequence: Sequence, covered: nat)

  /** `record` is the last synced manifest record, `inflight` one whose append has not returned. */
  datatype Disk = Disk(
    logs: map<nat, Log>,
    tables: map<nat, seq<Entry>>,
    manifests: set<nat>,
    current: nat,              // the manifest that CURRENT names
    record: Record,
    inflight: Option<Record>)

  /** What LogAndApply is called for. */
  datatype Job =
    | FlushJob(file: File, level: nat)
    | FlushEmptyJob
    | InstallJob(input: seq<Entry>, outs: seq<File>)
    | MoveJob(inputs: Inputs)

  datatype Memory = Memory(
    lsm: Lsm.State,
    log: nat,                  // logfile_number_
    synced: nat,               // how much of that log is synced
    unapplied: Option<Group>,  // logged, not yet in the memtable
    job: Option<Job>,          // LogAndApply is writing this edit
    pending: set<nat>,         // pending_outputs_
    pinned: set<Version>,      // versions that readers and iterators hold
    failed: bool)              // bg_error_

  /** `groups` is the history of logged groups, `sealed` how many of them precede the current log. */
  datatype State = State(disk: Disk, memory: Option<Memory>, groups: seq<Group>, sealed: nat)

  /** The groups of the logs numbered from `from` up to but excluding `top`, in order. */
  function Between(logs: map<nat, Log>, from: nat, top: nat): seq<Group>
    decreases top
  {
    if top <= from then []
    else Between(logs, from, top - 1) + if top - 1 in logs then logs[top - 1] else []
  }

  ghost predicate AllBelow(logs: map<nat, Log>, top: nat) { forall n :: n in logs ==> n < top }

  function NumbersIn(v: Version): set<nat> { set l, f | 0 <= l < NUM_LEVELS && f in v[l] :: f.number }

  /** The versions in the list of the version set. */
  function Live(m: Memory): set<Version> {
    {m.lsm.current} + m.pinned + if m.lsm.running.Some? then {m.lsm.running.value.base} else {}
  }

  /** AddLiveFiles, and the outputs still being written. */
  ghost predicate IsLive(m: Memory, n: nat) {
    n in m.pending || exists v :: v in Live(m) && n in NumbersIn(v)
  }

  // ---------- the effect of an edit ----------

  function AfterEdit(lsm: Lsm.State, job: Job): Lsm.State {
    match job
    case FlushJob(f, level) =>
      if level < NUM_LEVELS then lsm.(imm := None, current := AddFile(lsm.current, level, f),
          nextFile := lsm.nextFile + 1) else lsm
    case FlushEmptyJob => lsm.(imm := None, nextFile := lsm.nextFile + 1)
    case InstallJob(_, outs) =>
      if lsm.running.Some? && lsm.running.value.inputs.level + 1 < NUM_LEVELS
      then lsm.(running := None, current := Replace(lsm.current, lsm.running.value.inputs, outs)) else lsm
    case MoveJob(c) => if c.level + 1 < NUM_LEVELS then lsm.(current := Replace(lsm.current, c, c.in0)) else lsm
  }

  function StepOf(job: Job): Lsm.Step {
    match job
    case FlushJob(f, level) => Lsm.FlushStep(f, level)
    case FlushEmptyJob => Lsm.FlushEmptyStep
    case InstallJob(input, outs) => Lsm.InstallStep(input, outs)
    case MoveJob(c) => Lsm.MoveStep(c)
  }

  ghost predicate Enabled(lsm: Lsm.State, job: Job) { Lsm.Takes(lsm, AfterEdit(lsm, job), StepOf(job)) }

  function NewFiles(job: Job): seq<File> {
    match job
    case FlushJob(f, _) => [f]
    case FlushEmptyJob => []
    case InstallJob(_, outs) => outs
    case MoveJob(_) => []
  }

  predicate IsFlush(job: Job) { job.FlushJob? || job.FlushEmptyJob? }

  ghost predicate OnDisk(tables: map<nat, seq<Entry>>, f: Table) { f.number in tables && tables[f.number] == f.entries }

  ghost predicate TablesHold(tables: map<nat, seq<Entry>>, v: Version) {
    forall l, f :: 0 <= l < NUM_LEVELS && f in v[l] ==> OnDisk(tables, f)
  }

  /** The record LogAndApply appends: a flush makes the logs before the current one unnecessary. */
  function RecordOf(s: State, m: Memory, job: Job): Record {
    var after := AfterEdit(m.lsm, job);
    Record(after.current, if IsFlush(job) then m.log else s.disk.record.logNumber, after.nextFile, after.lastSequence,
           if IsFlush(job) then s.sealed else s.disk.record.covered)
  }

  // ---------- steps while the database is open ----------

  ghost predicate LogGroup(s: State, m: Memory, s': State, group: Group) {
    && !m.failed && m.unapplied.None? && m.log in s.disk.logs
    && m.lsm.lastSequence + |group| < MAX_SEQUENCE
    && (forall i :: 0 <= i < |group| ==> group[i].key.sequence == m.lsm.lastSequence + 1 + i)
    && s' == s.(disk := s.disk.(logs := s.disk.logs[m.log := s.disk.logs[m.log] + [group]]),
                memory := Some(m.(unapplied := Some(group))), groups := s.groups + [group])
  }

  ghost predicate SyncLog(s: State, m: Memory, s': State) {
    m.log in s.disk.logs && s' == s.(memory := Some(m.(synced := |s.disk.logs[m.log]|)))
  }

  ghost predicate ApplyGroup(s: State, m: Memory, s': State, lsm: Lsm.State) {
    && m.unapplied.Some? && Lsm.Write(m.lsm, lsm, m.unapplied.value)
    && s' == s.(memory := Some(m.(lsm := lsm, unapplied := None)))
  }

  /** MakeRoomForWrite: a new log takes the next file number. */
  ghost predicate SwitchLog(s: State, m: Memory, s': State, lsm: Lsm.State) {
    && !m.failed && m.unapplied.None? && Lsm.SwitchMemtable(m.lsm, lsm)
    && s' == s.(disk := s.disk.(logs := s.disk.logs[m.lsm.nextFile := []]),
                memory := Some(m.(lsm := lsm, log := m.lsm.nextFile, synced := 0)), sealed := |s.groups|)
  }

  /** WriteLevel0Table. */
  ghost predicate BuildTable(s: State, m: Memory, s': State, f: File) {
    && !m.failed && m.job.None? && m.lsm.imm.Some? && f.number == m.lsm.nextFile
    && s' == s.(disk := s.disk.(tables := s.disk.tables[f.number := f.entries]),
       memory := Some(m.(pending := m.pending + {f.number})))
  }

  /** OpenCompactionOutputFile up to FinishCompactionOutputFile. */
  ghost predicate WriteOutput(s: State, m: Memory, s': State, lsm: Lsm.State, entries: seq<Entry>) {
    && !m.failed && m.job.None? && m.lsm.running.Some? && Lsm.TakeFileNumber(m.lsm, lsm)
    && s' == s.(disk := s.disk.(tables := s.disk.tables[m.lsm.nextFile := entries]),
                memory := Some(m.(lsm := lsm, pending := m.pending + {m.lsm.nextFile})))
  }

  /** LogAndApply appends its record; the mutex is released while the manifest is written. */
  ghost predicate AppendEdit(s: State, m: Memory, s': State, job: Job) {
    && !m.failed && m.job.None? && s.disk.inflight.None? && Enabled(m.lsm, job)
    && (forall f :: f in NewFiles(job) ==> OnDisk(s.disk.tables, f))
    && s' == s.(disk := s.disk.(inflight := Some(RecordOf(s, m, job))),
                memory := Some(m.(job := Some(job), pending := m.pending - Numbers(NewFiles(job)))))
  }

  /** The manifest is synced and the new version becomes current. */
  ghost predicate InstallEdit(s: State, m: Memory, s': State) {
    && m.job.Some? && s.disk.inflight.Some?
    && s' == s.(disk := s.disk.(record := s.disk.inflight.value, inflight := None),
                memory := Some(m.(lsm := AfterEdit(m.lsm, m.job.value), job := None)))
  }

  /** LogAndApply fails: the old version stays current and the record may or may not be in the manifest. */
  ghost predicate FailEdit(s: State, m: Memory, s': State) {
    m.job.Some? && s' == s.(memory := Some(m.(job := None, failed := true)))
  }

  ghost predicate StartCompaction(s: State, m: Memory, s': State, lsm: Lsm.State, c: Inputs) {
    !m.failed && m.job.None? && Lsm.StartCompaction(m.lsm, lsm, c) && s' == s.(memory := Some(m.(lsm := lsm)))
  }

  /** CleanupCompaction after a compaction that did not install. */
  ghost predicate AbandonCompaction(s: State, m: Memory, s': State, lsm: Lsm.State) {
    m.job.None? && Lsm.AbandonCompaction(m.lsm, lsm) && s' == s.(memory := Some(m.(lsm := lsm, pending := {})))
  }

  ghost predicate GetSnapshot(s: State, m: Memory, s': State, lsm: Lsm.State) {
    Lsm.GetSnapshot(m.lsm, lsm) && s' == s.(memory := Some(m.(lsm := lsm)))
  }

  ghost predicate ReleaseSnapshot(s: State, m: Memory, s': State, lsm: Lsm.State, i: nat) {
    Lsm.ReleaseSnapshot(m.lsm, lsm, i) && s' == s.(memory := Some(m.(lsm := lsm)))
  }

  ghost predicate Pin(s: State, m: Memory, s': State) {
    s' == s.(memory := Some(m.(pinned := m.pinned + {m.lsm.current})))
  }

  ghost predicate Unpin(s: State, m: Memory, s': State, v: Version) {
    s' == s.(memory := Some(m.(pinned := m.pinned - {v})))
  }

  // DeleteObsoleteFiles, one file at a time.  It runs between edits, also inside a compaction.

  ghost predicate DeleteLog(s: State, m: Memory, s': State, n: nat) {
    && !m.failed && m.job.None? && n < s.disk.record.logNumber
    && s' == s.(disk := s.disk.(logs := s.disk.logs - {n}))
  }

  ghost predicate DeleteTable(s: State, m: Memory, s': State, n: nat) {
    && !m.failed && m.job.None? && !IsLive(m, n)
    && s' == s.(disk := s.disk.(tables := s.disk.tables - {n}))
  }

  ghost predicate DeleteManifest(s: State, m: Memory, s': State, n: nat) {
    && !m.failed && m.job.None? && n < s.disk.current
    && s' == s.(disk := s.disk.(manifests := s.disk.manifests - {n}))
  }

  // ---------- crash and recovery ----------

  /** `kept` groups of the newest log survive; the record in flight may or may not. */
  ghost predicate Crash(s: State, m: Memory, s': State, kept: nat, landed: bool) {
    && m.log in s.disk.logs && m.synced <= kept <= |s.disk.logs[m.log]| && s.sealed + kept <= |s.groups|
    && (landed ==> s.disk.inflight.Some?)
    && s' == s.(disk := s.disk.(logs := s.disk.logs[m.log := s.disk.logs[m.log][..kept]],
                                record := if landed then s.disk.inflight.value else s.disk.record, inflight := None),
                memory := None, groups := s.groups[..s.sealed + kept])
  }

  // What a recovery that itself crashes may leave behind.

  ghost predicate LeaveTable(s: State, s': State, n: nat, entries: seq<Entry>) {
    s.memory.None? && n > s.disk.record.nextFile && s' == s.(disk := s.disk.(tables := s.disk.tables[n := entries]))
  }

  ghost predicate LeaveLog(s: State, s': State, n: nat) {
    && s.memory.None? && AllBelow(s.disk.logs, n) && n > s.disk.record.logNumber
    && s' == s.(disk := s.disk.(logs := s.disk.logs[n := []]))
  }

  ghost predicate LeaveManifest(s: State, s': State) {
    s.memory.None? && s' == s.(disk := s.disk.(manifests := s.disk.manifests + {s.disk.record.nextFile}))
  }

  function MaxSequence(es: seq<Entry>, low: Sequence): (m: Sequence) {
    if es == [] then low
    else
      var rest := MaxSequence(es[..|es| - 1], low);
      var e := es[|es| - 1];
      if e.key.sequence > rest then e.key.sequence else rest
  }

  function HighestSequence(groups: seq<Group>, low: Sequence): (m: Sequence) {
    if groups == [] then low else MaxSequence(groups[|groups| - 1], HighestSequence(groups[..|groups| - 1], low))
  }

  /** Level-0 tables written while replaying, added in order. */
  function Load(v: Version, files: seq<Option<File>>): Version {
    if files == [] then v
    else
      var before := Load(v, files[..|files| - 1]);
      if files[|files| - 1].Some? then AddFile(before, 0, files[|files| - 1].value) else before
  }

  function Part(groups: seq<Group>, cuts: seq<nat>, i: nat): seq<Group>
    requires i + 1 < |cuts|
  {
    if cuts[i] <= cuts[i + 1] <= |groups| then groups[cuts[i]..cuts[i + 1]] else []
  }

  /** Replayed groups go to memtables that are written out whenever one is full and at the end of each
      log: table `i` holds the groups from `cuts[i]` up to `cuts[i + 1]`.  An empty memtable gives no file. */
  ghost predicate TablesFit(groups: seq<Group>, cuts: seq<nat>, files: seq<Option<File>>, low: nat, next: nat) {
    && |cuts| == |files| + 1 && (forall i, j :: 0 <= i <= j < |cuts| ==> cuts[i] <= cuts[j] <= |groups|)
    && (forall i :: 0 <= i < |files| ==>
          if EntriesIn(Part(groups, cuts, i)) == {} then files[i].None?
          else
            && files[i].Some? && Held(files[i].value) == EntriesIn(Part(groups, cuts, i))
            && low < files[i].value.number < next)
    && (forall i, j ::
        0 <= i < j < |files| && files[i].Some? && files[j].Some? ==> files[i].value.number < files[j].value.number)
  }

  function Written(tables: map<nat, seq<Entry>>, files: seq<Option<File>>): map<nat, seq<Entry>> {
    if files == [] then tables
    else
      var before := Written(tables, files[..|files| - 1]);
      var last := files[|files| - 1];
      if last.Some? then before[last.value.number := last.value.entries] else before
  }

  /** What Recover reads back: the groups the manifest's tables cover, then those of the logs. */
  ghost function Replayed(s: State, top: nat): seq<Group>
    requires s.disk.record.covered <= |s.groups|
  {
    s.groups[..s.disk.record.covered] + Between(s.disk.logs, s.disk.record.logNumber, top)
  }

  /** DBImpl::Recover and the end of DB::Open: everything below is computed from the disk alone. */
  ghost predicate Reopen(s: State, s': State, top: nat, cuts: seq<nat>, files: seq<Option<File>>, log: nat, next: nat) {
    && s.memory.None? && AllBelow(s.disk.logs, top) && s.disk.record.logNumber <= top
       && s.disk.record.covered <= |s.groups|
    && var r, groups := s.disk.record, Replayed(s, top);
       && TablesFit(groups, cuts, files, r.nextFile, next) && cuts[0] == r.covered && cuts[|files|] == |groups|
       && AllBelow(s.disk.logs, log) && r.nextFile < log < next && r.logNumber <= log
       && var v, last := Load(r.version, files), HighestSequence(groups[r.covered..], r.lastSequence);
          s' == State(
            Disk(s.disk.logs[log := []], Written(s.disk.tables, files), s.disk.manifests + {r.nextFile}, r.nextFile,
                 Record(v, log, next, last, |groups|), None),
            Some(Memory(Lsm.State({}, None, v, last, [], next, None, EntriesIn(groups)),
                        log, 0, None, None, {}, {}, false)),
            groups, |groups|)
  }

  // ---------- runs ----------

  /** NewDB: an empty manifest. */
  ghost predicate Init(s: State) {
    s == State(Disk(map[], map[], {1}, 1, Record(seq(NUM_LEVELS, _ => []), 0, 2, 0, 0), None), None, [], 0)
  }

  datatype Step =
    | LogStep(group: Group)
    | SyncStep
    | ApplyStep(lsm: Lsm.State)
    | SwitchStep(lsm: Lsm.State)
    | BuildStep(file: File)
    | OutputStep(lsm: Lsm.State, entries: seq<Entry>)
    | AppendStep(job: Job)
    | InstallStep
    | FailStep
    | StartStep(lsm: Lsm.State, inputs: Inputs)
    | AbandonStep(lsm: Lsm.State)
    | SnapshotStep(lsm: Lsm.State)
    | ReleaseStep(lsm: Lsm.State, index: nat)
    | PinStep
    | UnpinStep(version: Version)
    | DeleteLogStep(number: nat)
    | DeleteTableStep(number: nat)
    | DeleteManifestStep(number: nat)
    | CrashStep(kept: nat, landed: bool)
    | LeaveTableStep(number: nat, entries: seq<Entry>)
    | LeaveLogStep(number: nat)
    | LeaveManifestStep
    | ReopenStep(top: nat, cuts: seq<nat>, files: seq<Option<File>>, log: nat, next: nat)

  ghost predicate OpenStep(s: State, m: Memory, s': State, step: Step) {
    match step
    case LogStep(group) => LogGroup(s, m, s', group)
    case SyncStep => SyncLog(s, m, s')
    case ApplyStep(lsm) => ApplyGroup(s, m, s', lsm)
    case SwitchStep(lsm) => SwitchLog(s, m, s', lsm)
    case BuildStep(f) => BuildTable(s, m, s', f)
    case OutputStep(lsm, entries) => WriteOutput(s, m, s', lsm, entries)
    case AppendStep(job) => AppendEdit(s, m, s', job)
    case InstallStep => InstallEdit(s, m, s')
    case FailStep => FailEdit(s, m, s')
    case StartStep(lsm, c) => StartCompaction(s, m, s', lsm, c)
    case AbandonStep(lsm) => AbandonCompaction(s, m, s', lsm)
    case SnapshotStep(lsm) => GetSnapshot(s, m, s', lsm)
    case ReleaseStep(lsm, i) => ReleaseSnapshot(s, m, s', lsm, i)
    case PinStep => Pin(s, m, s')
    case UnpinStep(v) => Unpin(s, m, s', v)
    case DeleteLogStep(n) => DeleteLog(s, m, s', n)
    case DeleteTableStep(n) => DeleteTable(s, m, s', n)
    case DeleteManifestStep(n) => DeleteManifest(s, m, s', n)
    case CrashStep(kept, landed) => Crash(s, m, s', kept, landed)
    case _ => false
  }

  ghost predicate Takes(s: State, s': State, step: Step) {
    match step
    case LeaveTableStep(n, entries) => LeaveTable(s, s', n, entries)
    case LeaveLogStep(n) => LeaveLog(s, s', n)
    case LeaveManifestStep => LeaveManifest(s, s')
    case ReopenStep(top, cuts, files, log, next) => Reopen(s, s', top, cuts, files, log, next)
    case _ => s.memory.Some? && OpenStep(s, s.memory.value, s', step)
  }

  /** The hypothesis on picked inputs: no boundary file is left behind. */
  ghost predicate Closes(s: State, step: Step) {
    match step
    case StartStep(_, c) => s.memory.Some? ==> Lsm.Closes(s.memory.value.lsm, Lsm.StartStep(c))
    case AppendStep(job) => s.memory.Some? ==> Lsm.Closes(s.memory.value.lsm, StepOf(job))
    case _ => true
  }

  ghost predicate IsRun(states: seq<State>, steps: seq<Step>) {
    && |states| == |steps| + 1 && Init(states[0])
    && forall i {:trigger steps[i]} :: 0 <= i < |steps| ==> Takes(states[i], states[i + 1], steps[i])
  }

  ghost predicate ClosedRun(states: seq<State>, steps: seq<Step>) {
    IsRun(states, steps) && forall i {:trigger steps[i]} :: 0 <= i < |steps| ==> Closes(states[i], steps[i])
  }
}
