/** Every step of an open database, and a crash, keep the invariant. */
module DurabilitySteps {
  import opened Options
  import opened InternalKeys
  import opened Files
  import opened TreeSteps
  import opened Durability
  import opened DurableTrees
  import opened DurabilityInvariant
  import InputSelection
  import VersionBuilder
  import Lsm = LsmMachine

  // ---------- group writes ----------

  lemma Grown(groups: seq<Group>, group: Group, i: nat, j: nat)
    requires i <= j <= |groups|
    ensures (groups + [group])[i..j] == groups[i..j] && (groups + [group])[..j] == groups[..j]
  {
  }

  lemma GrownRecord(r: Record, logs: map<nat, Log>, log: nat, groups: seq<Group>, sealed: nat, group: Group,
                    closed: bool)
    requires RecordOk(r, groups, closed) && LogsMatch(logs, r, log, groups, sealed) && log in logs
    ensures RecordOk(r, groups + [group], closed)
            && LogsMatch(logs[log := logs[log] + [group]], r, log, groups + [group], sealed)
  {
    Grown(groups, group, 0, r.covered);
    Grown(groups, group, r.covered, sealed);
    RecordKeeps(r, groups, groups + [group], closed);
    BetweenSame(logs, logs[log := logs[log] + [group]], r.logNumber, log);
  }

  lemma GrownHistory(lsm: Lsm.State, groups: seq<Group>, covered: nat, sealed: nat, group: Group, closed: bool)
    requires Lsm.Ok(lsm, closed) && HistoryOk(lsm, None, groups, covered, sealed)
    requires lsm.lastSequence + |group| < MAX_SEQUENCE
    requires forall i :: 0 <= i < |group| ==> group[i].key.sequence == lsm.lastSequence + 1 + i
    ensures HistoryOk(lsm, Some(group), groups + [group], covered, sealed)
  {
    hide GroupsOk;
    hide ShapeOk;
    hide Lsm.SameReads;
    assert groups[..|groups|] == groups;
    AppendIsOk(groups, group, lsm.lastSequence);
    Grown(groups, group, covered, sealed);
    Grown(groups, group, sealed, |groups|);
  }

  lemma LogKeeps(s: State, m: Memory, s': State, group: Group, closed: bool)
    requires OpenOk(s, m, closed) && LogGroup(s, m, s', group)
    ensures Inv(s', closed)
  {
    hide Lsm.Ok;
    hide HistoryOk;
    hide RecordOk;
    hide LogsMatch;
    hide LiveFilesOk;
    hide TablesHold;
    hide Enabled;
    GrownHistory(m.lsm, s.groups, s.disk.record.covered, s.sealed, group, closed);
    GrownRecord(s.disk.record, s.disk.logs, m.log, s.groups, s.sealed, group, closed);
    if s.disk.inflight.Some? {
      GrownRecord(s.disk.inflight.value, s.disk.logs, m.log, s.groups, s.sealed, group, closed);
    }
    Grown(s.groups, group, 0, s.disk.record.covered);
    LogKeepsRest(s, m, s', group, closed);
  }

  lemma LogKeepsRest(s: State, m: Memory, s': State, group: Group, closed: bool)
    requires OpenOk(s, m, closed) && LogGroup(s, m, s', group)
    ensures s'.memory.Some? && LiveFilesOk(s'.disk.tables, s'.memory.value)
            && NewestLogOk(s'.disk.logs, s'.memory.value, s'.groups, s'.sealed)
  {
    hide Lsm.Ok;
    hide HistoryOk;
    hide RecordOk;
    hide LogsMatch;
    hide FilesOk;
  }

  lemma SyncKeeps(s: State, m: Memory, s': State, closed: bool)
    requires OpenOk(s, m, closed) && SyncLog(s, m, s')
    ensures Inv(s', closed)
  {
    hide Lsm.Ok;
    hide HistoryOk;
    hide RecordOk;
    hide LogsMatch;
    hide FilesOk;
    hide TablesHold;
    hide Enabled;
  }

  lemma AppliedHistory(lsm: Lsm.State, lsm': Lsm.State, groups: seq<Group>, covered: nat, sealed: nat, group: Group)
    requires HistoryOk(lsm, Some(group), groups, covered, sealed) && Lsm.Write(lsm, lsm', group)
    ensures HistoryOk(lsm', None, groups, covered, sealed)
  {
    hide GroupsOk;
    var n := |groups| - 1;
    EntriesOfPart(groups, n, |groups|);
    EntriesOfPart(groups[sealed..], n - sealed, |groups| - sealed);
    assert groups[n..|groups|] == [group] && groups[..|groups|] == groups;
    assert groups[sealed..][..n - sealed] == groups[sealed..n]
           && groups[sealed..][n - sealed..|groups| - sealed] == [group];
    assert groups[sealed..][..|groups| - sealed] == groups[sealed..|groups|];
    SingleGroup(group);
  }

  lemma WriteKeepsJob(lsm: Lsm.State, lsm': Lsm.State, group: Group, job: Job, closed: bool)
    requires Lsm.Write(lsm, lsm', group) && Enabled(lsm, job) && (closed ==> Lsm.Closes(lsm, StepOf(job)))
    ensures Enabled(lsm', job) && (closed ==> Lsm.Closes(lsm', StepOf(job)))
            && AfterEdit(lsm', job).current == AfterEdit(lsm, job).current
  {
    hide AddFile;
    hide Replace;
    hide Held;
    hide TreeSteps.BoundaryClosed;
  }

  lemma ApplyKeeps(s: State, m: Memory, s': State, lsm: Lsm.State, closed: bool)
    requires OpenOk(s, m, closed) && ApplyGroup(s, m, s', lsm)
    ensures Inv(s', closed)
  {
    hide Lsm.Ok;
    hide HistoryOk;
    hide RecordOk;
    hide LogsMatch;
    hide FilesOk;
    hide TablesHold;
    hide Enabled;
    hide Lsm.Closes;
    ClosesAlways(m.lsm, Lsm.WriteStep(m.unapplied.value), closed);
    Lsm.StepKeepsOk(m.lsm, lsm, Lsm.WriteStep(m.unapplied.value), closed);
    TreeWrite(m.lsm, lsm, EntriesIn(s.groups[..s.disk.record.covered]), m.unapplied.value, closed);
    AppliedHistory(m.lsm, lsm, s.groups, s.disk.record.covered, s.sealed, m.unapplied.value);
    if m.job.Some? { WriteKeepsJob(m.lsm, lsm, m.unapplied.value, m.job.value, closed); }
  }

  // ---------- switching logs ----------

  lemma SwitchedRecord(r: Record, logs: map<nat, Log>, m: Memory, groups: seq<Group>, sealed: nat)
    requires LogsMatch(logs, r, m.log, groups, sealed) && NewestLogOk(logs, m, groups, sealed)
    ensures LogsMatch(logs[m.lsm.nextFile := []], r, m.lsm.nextFile, groups, |groups|)
  {
    var next := m.lsm.nextFile;
    BetweenEnds(logs, r.logNumber, m.log, next);
    BetweenSame(logs, logs[next := []], r.logNumber, next);
    assert groups[r.covered..sealed] + groups[sealed..] == groups[r.covered..];
  }

  lemma SwitchedHistory(lsm: Lsm.State, lsm': Lsm.State, groups: seq<Group>, covered: nat, sealed: nat)
    requires HistoryOk(lsm, None, groups, covered, sealed) && Lsm.SwitchMemtable(lsm, lsm')
    ensures HistoryOk(lsm', None, groups, covered, |groups|)
  {
    hide GroupsOk;
    EntriesOfPart(groups[covered..], sealed - covered, |groups| - covered);
    assert groups[covered..][..sealed - covered] == groups[covered..sealed]
           && groups[covered..][sealed - covered..|groups| - covered] == groups[sealed..];
    assert groups[covered..][..|groups| - covered] == groups[covered..|groups|]
           && groups[sealed..] == groups[sealed..|groups|];
    assert groups[|groups|..|groups|] == [];
    assert Lsm.Imm(lsm) == {};
  }

  /** Only an edit that is not a flush can be in flight while logs switch: the flush owns the immutable memtable. */
  lemma SwitchKeepsJob(lsm: Lsm.State, lsm': Lsm.State, job: Job, closed: bool)
    requires Lsm.SwitchMemtable(lsm, lsm') && Enabled(lsm, job) && (closed ==> Lsm.Closes(lsm, StepOf(job)))
    ensures !IsFlush(job) && Enabled(lsm', job) && (closed ==> Lsm.Closes(lsm', StepOf(job)))
            && AfterEdit(lsm', job).current == AfterEdit(lsm, job).current
  {
    hide AddFile;
    hide Replace;
    hide Held;
    hide TreeSteps.BoundaryClosed;
  }

  lemma HigherFiles(tables: map<nat, seq<Entry>>, v: Version, next: nat, next': nat)
    requires FilesOk(tables, v, next) && next <= next'
    ensures FilesOk(tables, v, next')
  {
    hide TablesHold;
  }

  lemma SameLiveFiles(tables: map<nat, seq<Entry>>, m: Memory, m': Memory)
    requires LiveFilesOk(tables, m) && m'.pending <= m.pending && Live(m') <= Live(m)
             && m.lsm.nextFile <= m'.lsm.nextFile
    ensures LiveFilesOk(tables, m')
  {
    hide FilesOk;
    forall v | v in Live(m') ensures FilesOk(tables, v, m'.lsm.nextFile) {
      HigherFiles(tables, v, m.lsm.nextFile, m'.lsm.nextFile);
    }
  }

  lemma SwitchKeeps(s: State, m: Memory, s': State, lsm: Lsm.State, closed: bool)
    requires OpenOk(s, m, closed) && SwitchLog(s, m, s', lsm)
    ensures Inv(s', closed)
  {
    hide Lsm.Ok;
    hide HistoryOk;
    hide RecordOk;
    hide LogsMatch;
    hide LiveFilesOk;
    hide TablesHold;
    hide Enabled;
    hide Lsm.Closes;
    ClosesAlways(m.lsm, Lsm.SwitchStep, closed);
    Lsm.StepKeepsOk(m.lsm, lsm, Lsm.SwitchStep, closed);
    TreeSwitch(m.lsm, lsm, EntriesIn(s.groups[..s.disk.record.covered]), closed);
    SwitchedHistory(m.lsm, lsm, s.groups, s.disk.record.covered, s.sealed);
    SwitchedRecord(s.disk.record, s.disk.logs, m, s.groups, s.sealed);
    if s.disk.inflight.Some? { SwitchedRecord(s.disk.inflight.value, s.disk.logs, m, s.groups, s.sealed); }
    if m.job.Some? { SwitchKeepsJob(m.lsm, lsm, m.job.value, closed); }
    SameLiveFiles(s.disk.tables, m, s'.memory.value);
  }

  // ---------- writing tables ----------

  lemma NewTableKeeps(tables: map<nat, seq<Entry>>, v: Version, next: nat, entries: seq<Entry>)
    requires FilesOk(tables, v, next)
    ensures FilesOk(tables[next := entries], v, next)
  {
    forall l, f | 0 <= l < NUM_LEVELS && f in v[l] ensures OnDisk(tables[next := entries], f) {
      assert f.number in NumbersIn(v);
      assert OnDisk(tables, f);
    }
  }

  lemma NewTableLive(tables: map<nat, seq<Entry>>, m: Memory, entries: seq<Entry>)
    requires LiveFilesOk(tables, m)
    ensures LiveFilesOk(tables[m.lsm.nextFile := entries], m.(pending := m.pending + {m.lsm.nextFile}))
  {
    hide FilesOk;
    var m' := m.(pending := m.pending + {m.lsm.nextFile});
    assert Live(m') == Live(m);
    forall v | v in Live(m') ensures FilesOk(tables[m.lsm.nextFile := entries], v, m.lsm.nextFile) {
      NewTableKeeps(tables, v, m.lsm.nextFile, entries);
    }
  }

  lemma BuildKeeps(s: State, m: Memory, s': State, f: File, closed: bool)
    requires OpenOk(s, m, closed) && BuildTable(s, m, s', f)
    ensures Inv(s', closed)
  {
    hide Lsm.Ok;
    hide HistoryOk;
    hide RecordOk;
    hide LogsMatch;
    hide LiveFilesOk;
    hide TablesHold;
    hide Enabled;
    NewTableLive(s.disk.tables, m, f.entries);
  }

  lemma OutputKeeps(s: State, m: Memory, s': State, lsm: Lsm.State, entries: seq<Entry>, closed: bool)
    requires OpenOk(s, m, closed) && WriteOutput(s, m, s', lsm, entries)
    ensures Inv(s', closed)
  {
    hide Lsm.Ok;
    hide HistoryOk;
    hide RecordOk;
    hide LogsMatch;
    hide LiveFilesOk;
    hide TablesHold;
    hide Enabled;
    Lsm.StepKeepsOk(m.lsm, lsm, Lsm.NumberStep, closed);
    TreeStep(m.lsm, lsm, EntriesIn(s.groups[..s.disk.record.covered]), Lsm.NumberStep, closed);
    NewTableLive(s.disk.tables, m, entries);
    SameLiveFiles(s'.disk.tables, m.(pending := m.pending + {m.lsm.nextFile}), s'.memory.value);
    SameHistory(m.lsm, lsm, m.unapplied, s.groups, s.disk.record.covered, s.sealed);
  }

  lemma SameHistory(lsm: Lsm.State, lsm': Lsm.State, unapplied: Option<Group>, groups: seq<Group>, covered: nat,
                    sealed: nat)
    requires HistoryOk(lsm, unapplied, groups, covered, sealed)
    requires lsm'.mem == lsm.mem && lsm'.imm == lsm.imm && lsm'.written == lsm.written
    ensures HistoryOk(lsm', unapplied, groups, covered, sealed)
  {
    hide GroupsOk;
  }

  // ---------- edits ----------

  lemma EditTree(s: State, m: Memory, job: Job, closed: bool)
    requires Lsm.Ok(m.lsm, closed) && TreeOfGroups(m.lsm, s.groups, s.disk.record.covered, closed)
             && Enabled(m.lsm, job) && (closed ==> Lsm.Closes(m.lsm, StepOf(job)))
    requires HistoryOk(m.lsm, m.unapplied, s.groups, s.disk.record.covered, s.sealed)
    ensures TreeOfGroups(AfterEdit(m.lsm, job), s.groups, if IsFlush(job) then s.sealed else s.disk.record.covered,
            closed)
    ensures Lsm.Ok(AfterEdit(m.lsm, job), closed)
  {
    hide Lsm.Ok;
    hide AddFile;
    hide Replace;
    hide Enabled;
    EnabledStep(m.lsm, job);
    Lsm.StepKeepsOk(m.lsm, AfterEdit(m.lsm, job), StepOf(job), closed);
    if IsFlush(job) {
      FlushTree(m.lsm, m.unapplied, s.groups, s.disk.record.covered, s.sealed, job, closed);
    } else {
      TreeStep(m.lsm, AfterEdit(m.lsm, job), EntriesIn(s.groups[..s.disk.record.covered]), StepOf(job), closed);
    }
  }

  lemma EnabledStep(lsm: Lsm.State, job: Job)
    requires Enabled(lsm, job)
    ensures Lsm.Takes(lsm, AfterEdit(lsm, job), StepOf(job))
  {
  }

  lemma FlushTree(lsm: Lsm.State, unapplied: Option<Group>, groups: seq<Group>, covered: nat, sealed: nat, job: Job,
                  closed: bool)
    requires Lsm.Ok(lsm, closed) && TreeOfGroups(lsm, groups, covered, closed) && Enabled(lsm, job) && IsFlush(job)
    requires HistoryOk(lsm, unapplied, groups, covered, sealed)
    ensures TreeOfGroups(AfterEdit(lsm, job), groups, sealed, closed)
  {
    hide Lsm.Ok;
    hide Enabled;
    hide GroupsOk;
    var n := Applied(groups, unapplied);
    PartIsNewer(groups, covered, sealed);
    EntriesOfPart(groups, covered, sealed);
    EntriesOfPart(groups[..n], sealed, n);
    assert groups[..n][..sealed] == groups[..sealed] && groups[..n][..n] == groups[..n];
    TreeFlush(lsm, EntriesIn(groups[..covered]), job, closed);
  }

  lemma EditRecord(s: State, m: Memory, job: Job, closed: bool)
    requires OpenOk(s, m, closed) && Enabled(m.lsm, job) && (closed ==> Lsm.Closes(m.lsm, StepOf(job)))
    ensures RecordOk(RecordOf(s, m, job), s.groups, closed)
            && LogsMatch(s.disk.logs, RecordOf(s, m, job), m.log, s.groups, s.sealed)
    ensures s.disk.current < RecordOf(s, m, job).nextFile
  {
    hide Lsm.Ok;
    hide RecordOk;
    hide Enabled;
    hide AddFile;
    hide Replace;
    hide LiveFilesOk;
    hide TablesHold;
    hide GroupsOk;
    EditTree(s, m, job, closed);
    var r := RecordOf(s, m, job);
    var tree := Tree(AfterEdit(m.lsm, job), EntriesIn(s.groups[..r.covered]));
    TreeIsBare(tree, r, s.groups, closed);
    if IsFlush(job) { assert s.groups[s.sealed..s.sealed] == []; }
  }

  lemma EditFiles(lsm: Lsm.State, job: Job, l: nat, f: File)
    requires Enabled(lsm, job) && l < NUM_LEVELS && f in AfterEdit(lsm, job).current[l]
    ensures f in NewFiles(job) || exists k :: 0 <= k < NUM_LEVELS && f in lsm.current[k]
  {
    hide VersionBuilder.SaveLevel;
    hide Held;
    var v := lsm.current;
    match job
    case FlushJob(g, level) =>
      VersionBuilder.SaveLevelContents(v[level], {}, [g], f);
    case FlushEmptyJob =>
    case InstallJob(_, outs) =>
      ReplacedFiles(v, lsm.running.value.inputs, outs, l, f);
    case MoveJob(c) =>
      ReplacedFiles(v, c, c.in0, l, f);
  }

  lemma ReplacedFiles(v: Version, c: InputSelection.Inputs, outs: seq<File>, l: nat, f: File)
    requires c.level + 1 < NUM_LEVELS && l < NUM_LEVELS && f in Replace(v, c, outs)[l]
    ensures f in v[l] || f in outs
  {
    hide VersionBuilder.SaveLevel;
    VersionBuilder.SaveLevelContents(v[c.level], NumbersOf(c.in0), [], f);
    VersionBuilder.SaveLevelContents(v[c.level + 1], NumbersOf(c.in1), outs, f);
  }

  lemma EditTables(tables: map<nat, seq<Entry>>, lsm: Lsm.State, job: Job)
    requires Enabled(lsm, job) && TablesHold(tables, lsm.current)
    requires forall f :: f in NewFiles(job) ==> OnDisk(tables, f)
    ensures TablesHold(tables, AfterEdit(lsm, job).current)
  {
    hide Enabled;
    hide AfterEdit;
    forall l, f | 0 <= l < NUM_LEVELS && f in AfterEdit(lsm, job).current[l] ensures OnDisk(tables, f) {
      EditFiles(lsm, job, l, f);
    }
  }

  lemma CurrentOnDisk(tables: map<nat, seq<Entry>>, m: Memory)
    requires LiveFilesOk(tables, m)
    ensures TablesHold(tables, m.lsm.current)
  {
    hide TablesHold;
    assert m.lsm.current in Live(m);
  }

  lemma AppendKeeps(s: State, m: Memory, s': State, job: Job, closed: bool)
    requires OpenOk(s, m, closed) && AppendEdit(s, m, s', job) && (closed ==> Lsm.Closes(m.lsm, StepOf(job)))
    ensures Inv(s', closed)
  {
    hide Lsm.Ok;
    hide HistoryOk;
    hide RecordOk;
    hide TreeOfGroups;
    hide NewestLogOk;
    hide LogsMatch;
    hide LiveFilesOk;
    hide TablesHold;
    hide Numbers;
    hide Enabled;
    hide Lsm.Closes;
    hide AfterEdit;
    EditRecord(s, m, job, closed);
    CurrentOnDisk(s.disk.tables, m);
    EditTables(s.disk.tables, m.lsm, job);
    AppendLive(s.disk.tables, m, s'.memory.value);
    AppendRest(s, m, s', job, closed);
  }

  lemma AppendRest(s: State, m: Memory, s': State, job: Job, closed: bool)
    requires OpenOk(s, m, closed) && AppendEdit(s, m, s', job) && (closed ==> Lsm.Closes(m.lsm, StepOf(job)))
    ensures s'.memory.Some? && JobOk(s', s'.memory.value, closed)
            && NewestLogOk(s'.disk.logs, s'.memory.value, s'.groups, s'.sealed)
  {
    hide Lsm.Ok;
    hide HistoryOk;
    hide RecordOk;
    hide TreeOfGroups;
    hide LogsMatch;
    hide LiveFilesOk;
    hide TablesHold;
    hide Numbers;
    hide Enabled;
    hide Lsm.Closes;
    hide AfterEdit;
  }

  lemma AppendLive(tables: map<nat, seq<Entry>>, m: Memory, m': Memory)
    requires LiveFilesOk(tables, m) && m'.lsm == m.lsm && m'.pinned == m.pinned && m'.pending <= m.pending
    ensures LiveFilesOk(tables, m')
  {
    assert Live(m') == Live(m);
    SameLiveFiles(tables, m, m');
  }

  lemma EditHistory(lsm: Lsm.State, unapplied: Option<Group>, groups: seq<Group>, covered: nat, sealed: nat, job: Job)
    requires HistoryOk(lsm, unapplied, groups, covered, sealed) && Enabled(lsm, job)
    ensures HistoryOk(AfterEdit(lsm, job), unapplied, groups, if IsFlush(job) then sealed else covered, sealed)
  {
    hide GroupsOk;
    hide AddFile;
    hide Replace;
    if IsFlush(job) { assert groups[sealed..sealed] == []; }
  }

  lemma EditLive(tables: map<nat, seq<Entry>>, m: Memory, job: Job, closed: bool)
    requires LiveFilesOk(tables, m) && TablesHold(tables, AfterEdit(m.lsm, job).current)
    requires Lsm.Ok(AfterEdit(m.lsm, job), closed) && Enabled(m.lsm, job)
    ensures LiveFilesOk(tables, m.(lsm := AfterEdit(m.lsm, job), job := None))
  {
    hide Lsm.Ok;
    hide TablesHold;
    hide AddFile;
    hide Replace;
    var m' := m.(lsm := AfterEdit(m.lsm, job), job := None);
    TreeNumbers(m'.lsm, closed);
    NextGrows(m.lsm, job);
    forall v | v in Live(m') ensures FilesOk(tables, v, m'.lsm.nextFile) {
      if v in Live(m) {
        HigherFiles(tables, v, m.lsm.nextFile, m'.lsm.nextFile);
      }
    }
  }

  lemma NextGrows(lsm: Lsm.State, job: Job)
    ensures lsm.nextFile <= AfterEdit(lsm, job).nextFile
    ensures AfterEdit(lsm, job).running.Some? ==> AfterEdit(lsm, job).running == lsm.running
  {
    hide AddFile;
    hide Replace;
  }

  lemma InstallKeeps(s: State, m: Memory, s': State, closed: bool)
    requires OpenOk(s, m, closed) && InstallEdit(s, m, s')
    ensures Inv(s', closed)
  {
    hide Lsm.Ok;
    hide HistoryOk;
    hide RecordOk;
    hide TreeOfGroups;
    hide LogsMatch;
    hide LiveFilesOk;
    hide TablesHold;
    hide Enabled;
    hide Lsm.Closes;
    hide AfterEdit;
    EditTree(s, m, m.job.value, closed);
    EditHistory(m.lsm, m.unapplied, s.groups, s.disk.record.covered, s.sealed, m.job.value);
    EditLive(s.disk.tables, m, m.job.value, closed);
    NextGrows(m.lsm, m.job.value);
  }

  lemma FailKeeps(s: State, m: Memory, s': State, closed: bool)
    requires OpenOk(s, m, closed) && FailEdit(s, m, s')
    ensures Inv(s', closed)
  {
    hide Lsm.Ok;
    hide HistoryOk;
    hide RecordOk;
    hide LogsMatch;
    hide TablesHold;
    hide LiveFilesOk;
    hide Enabled;
    AppendLive(s.disk.tables, m, s'.memory.value);
  }

  // ---------- compactions, snapshots and readers ----------

  lemma StartKeeps(s: State, m: Memory, s': State, lsm: Lsm.State, c: InputSelection.Inputs, closed: bool)
    requires OpenOk(s, m, closed) && StartCompaction(s, m, s', lsm, c)
             && (closed ==> Lsm.Closes(m.lsm, Lsm.StartStep(c)))
    ensures Inv(s', closed)
  {
    hide Lsm.Ok;
    hide HistoryOk;
    hide RecordOk;
    hide LogsMatch;
    hide TablesHold;
    hide LiveFilesOk;
    hide Enabled;
    hide Lsm.Closes;
    Lsm.StepKeepsOk(m.lsm, lsm, Lsm.StartStep(c), closed);
    TreeStep(m.lsm, lsm, EntriesIn(s.groups[..s.disk.record.covered]), Lsm.StartStep(c), closed);
    SameHistory(m.lsm, lsm, m.unapplied, s.groups, s.disk.record.covered, s.sealed);
    SameLiveFiles(s.disk.tables, m, s'.memory.value);
  }

  lemma AbandonKeeps(s: State, m: Memory, s': State, lsm: Lsm.State, closed: bool)
    requires OpenOk(s, m, closed) && AbandonCompaction(s, m, s', lsm)
    ensures Inv(s', closed)
  {
    hide Lsm.Ok;
    hide HistoryOk;
    hide RecordOk;
    hide LogsMatch;
    hide TablesHold;
    hide LiveFilesOk;
    hide Enabled;
    hide Lsm.Closes;
    ClosesAlways(m.lsm, Lsm.AbandonStep, closed);
    Lsm.StepKeepsOk(m.lsm, lsm, Lsm.AbandonStep, closed);
    TreeStep(m.lsm, lsm, EntriesIn(s.groups[..s.disk.record.covered]), Lsm.AbandonStep, closed);
    SameHistory(m.lsm, lsm, m.unapplied, s.groups, s.disk.record.covered, s.sealed);
    SameLiveFiles(s.disk.tables, m, s'.memory.value);
  }

  lemma SnapshotsKeepJob(lsm: Lsm.State, lsm': Lsm.State, job: Job, closed: bool)
    requires lsm' == lsm.(snapshots := lsm'.snapshots) && Enabled(lsm, job) && (closed ==> Lsm.Closes(lsm, StepOf(job)))
    ensures Enabled(lsm', job) && (closed ==> Lsm.Closes(lsm', StepOf(job)))
            && AfterEdit(lsm', job).current == AfterEdit(lsm, job).current
  {
    hide AddFile;
    hide Replace;
    hide Held;
    hide TreeSteps.BoundaryClosed;
  }

  lemma SnapshotKeeps(s: State, m: Memory, s': State, lsm: Lsm.State, closed: bool)
    requires OpenOk(s, m, closed) && GetSnapshot(s, m, s', lsm)
    ensures Inv(s', closed)
  {
    hide Lsm.Ok;
    hide HistoryOk;
    hide RecordOk;
    hide LogsMatch;
    hide TablesHold;
    hide LiveFilesOk;
    hide Enabled;
    hide Lsm.Closes;
    ClosesAlways(m.lsm, Lsm.SnapshotStep, closed);
    Lsm.StepKeepsOk(m.lsm, lsm, Lsm.SnapshotStep, closed);
    TreeStep(m.lsm, lsm, EntriesIn(s.groups[..s.disk.record.covered]), Lsm.SnapshotStep, closed);
    SameHistory(m.lsm, lsm, m.unapplied, s.groups, s.disk.record.covered, s.sealed);
    SameLiveFiles(s.disk.tables, m, s'.memory.value);
    if m.job.Some? { SnapshotsKeepJob(m.lsm, lsm, m.job.value, closed); }
  }

  lemma ReleaseKeeps(s: State, m: Memory, s': State, lsm: Lsm.State, i: nat, closed: bool)
    requires OpenOk(s, m, closed) && ReleaseSnapshot(s, m, s', lsm, i)
    ensures Inv(s', closed)
  {
    hide Lsm.Ok;
    hide HistoryOk;
    hide RecordOk;
    hide LogsMatch;
    hide TablesHold;
    hide LiveFilesOk;
    hide Enabled;
    hide Lsm.Closes;
    ClosesAlways(m.lsm, Lsm.ReleaseStep(i), closed);
    Lsm.StepKeepsOk(m.lsm, lsm, Lsm.ReleaseStep(i), closed);
    TreeStep(m.lsm, lsm, EntriesIn(s.groups[..s.disk.record.covered]), Lsm.ReleaseStep(i), closed);
    SameHistory(m.lsm, lsm, m.unapplied, s.groups, s.disk.record.covered, s.sealed);
    SameLiveFiles(s.disk.tables, m, s'.memory.value);
    if m.job.Some? { SnapshotsKeepJob(m.lsm, lsm, m.job.value, closed); }
  }

  lemma PinKeeps(s: State, m: Memory, s': State, closed: bool)
    requires OpenOk(s, m, closed) && Pin(s, m, s')
    ensures Inv(s', closed)
  {
    hide Lsm.Ok;
    hide HistoryOk;
    hide RecordOk;
    hide LogsMatch;
    hide TablesHold;
    hide LiveFilesOk;
    hide Enabled;
    hide Lsm.Closes;
    SameLiveFiles(s.disk.tables, m, s'.memory.value);
  }

  lemma UnpinKeeps(s: State, m: Memory, s': State, v: Version, closed: bool)
    requires OpenOk(s, m, closed) && Unpin(s, m, s', v)
    ensures Inv(s', closed)
  {
    hide Lsm.Ok;
    hide HistoryOk;
    hide RecordOk;
    hide LogsMatch;
    hide TablesHold;
    hide LiveFilesOk;
    hide Enabled;
    hide Lsm.Closes;
    SameLiveFiles(s.disk.tables, m, s'.memory.value);
  }

  // ---------- garbage collection ----------

  lemma DeleteLogKeeps(s: State, m: Memory, s': State, n: nat, closed: bool)
    requires s.memory == Some(m) && OpenOk(s, m, closed) && DeleteLog(s, m, s', n)
    ensures Inv(s', closed)
  {
    hide Lsm.Ok;
    hide HistoryOk;
    hide RecordOk;
    hide TablesHold;
    hide LiveFilesOk;
    hide Enabled;
    hide Lsm.Closes;
    BetweenSame(s.disk.logs, s'.disk.logs, s.disk.record.logNumber, m.log);
  }

  lemma DeletedTableKeeps(tables: map<nat, seq<Entry>>, v: Version, n: nat)
    requires TablesHold(tables, v) && n !in NumbersIn(v)
    ensures TablesHold(tables - {n}, v)
  {
    forall l, f | 0 <= l < NUM_LEVELS && f in v[l] ensures OnDisk(tables - {n}, f) {
      assert f.number in NumbersIn(v);
      assert OnDisk(tables, f);
    }
  }

  lemma DeletedTableLive(tables: map<nat, seq<Entry>>, m: Memory, n: nat)
    requires LiveFilesOk(tables, m) && !IsLive(m, n)
    ensures LiveFilesOk(tables - {n}, m)
  {
    hide TablesHold;
    hide NumbersIn;
    forall v | v in Live(m) ensures FilesOk(tables - {n}, v, m.lsm.nextFile) {
      DeletedTableKeeps(tables, v, n);
    }
  }

  lemma DeleteTableKeeps(s: State, m: Memory, s': State, n: nat, closed: bool)
    requires s.memory == Some(m) && OpenOk(s, m, closed) && DeleteTable(s, m, s', n)
    ensures Inv(s', closed)
  {
    hide Lsm.Ok;
    hide HistoryOk;
    hide RecordOk;
    hide LogsMatch;
    hide TablesHold;
    hide LiveFilesOk;
    hide Enabled;
    hide Lsm.Closes;
    DeletedTableLive(s.disk.tables, m, n);
  }

  lemma DeleteManifestKeeps(s: State, m: Memory, s': State, n: nat, closed: bool)
    requires s.memory == Some(m) && OpenOk(s, m, closed) && DeleteManifest(s, m, s', n)
    ensures Inv(s', closed)
  {
    hide Lsm.Ok;
    hide HistoryOk;
    hide RecordOk;
    hide LogsMatch;
    hide TablesHold;
    hide LiveFilesOk;
    hide Enabled;
    hide Lsm.Closes;
  }

  // ---------- crash ----------

  lemma CutRecord(r: Record, logs: map<nat, Log>, m: Memory, groups: seq<Group>, sealed: nat, kept: nat, closed: bool)
    requires RecordOk(r, groups, closed) && LogsMatch(logs, r, m.log, groups, sealed)
             && NewestLogOk(logs, m, groups, sealed)
    requires kept <= |logs[m.log]|
    ensures sealed + kept <= |groups| && RecordOk(r, groups[..sealed + kept], closed)
    ensures LogsComplete(logs[m.log := logs[m.log][..kept]], r, groups[..sealed + kept])
  {
    hide Lsm.Ok;
    var cut, groups' := logs[m.log := logs[m.log][..kept]], groups[..sealed + kept];
    assert groups'[..r.covered] == groups[..r.covered];
    RecordKeeps(r, groups, groups', closed);
    BetweenSame(logs, cut, r.logNumber, m.log);
    assert groups[r.covered..sealed] + groups[sealed..][..kept] == groups'[r.covered..];
    forall top | AllBelow(cut, top) && r.logNumber <= top
        ensures Between(cut, r.logNumber, top) == groups'[r.covered..] {
      assert m.log in cut;
      BetweenEnds(cut, r.logNumber, m.log, top);
    }
  }

  lemma CrashKeeps(s: State, m: Memory, s': State, kept: nat, landed: bool, closed: bool)
    requires OpenOk(s, m, closed) && Crash(s, m, s', kept, landed)
    ensures Inv(s', closed)
  {
    hide Lsm.Ok;
    hide RecordOk;
    hide LogsMatch;
    hide LogsComplete;
    hide NewestLogOk;
    hide TablesHold;
    hide GroupsOk;
    hide LiveFilesOk;
    hide Enabled;
    PrefixIsOk(s.groups, s.sealed + kept);
    CurrentOnDisk(s.disk.tables, m);
    CutRecord(if landed then s.disk.inflight.value else s.disk.record, s.disk.logs, m, s.groups, s.sealed, kept,
        closed);
  }
}
