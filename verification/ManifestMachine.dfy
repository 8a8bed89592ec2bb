/** The durable database with its manifest as bytes.  `Durability` says what the manifest means as one record;
    here the manifest is the list of records that were really appended, each an encoded edit, and recovery
    decodes and replays them.  Every run of this machine is a run of that one. */
module ManifestMachine {
  import opened Options
  import opened Coding
  import opened InternalKeys
  import opened Files
  import opened TreeSteps
  import opened PointLookup
  import opened VersionBuilder
  import opened ManifestReplay
  import opened Journals
  import opened ManifestRecovery
  import D = Durability
  import Inv = DurabilityInvariant
  import Recovery = CrashRecovery
  import R = ManifestRecords
  import E = VersionEdits
  import Lsm = LsmMachine

  /** `manifest` holds the synced records of the current manifest, `inflight` one whose append has not
      returned.  `journal` is the history of what they say. */
  datatype State = State(d: D.State, manifest: seq<Buffer>, inflight: Option<Buffer>, journal: seq<TreeEdit>)

  // ---------- steps ----------

  /** What the records of LogAndApply say for a job. */
  function JobEdit(lsm: Lsm.State, job: D.Job): TreeEdit { EditOf(lsm, D.StepOf(job)) }

  ghost predicate Append(c: State, c': State, job: D.Job, record: Buffer, pointers: seq<(nat, Buffer)>) {
    && D.Takes(c.d, c'.d, D.AppendStep(job))
    && var m := c.d.memory.value;
       var r := D.RecordOf(c.d, m, job);
       && EditNamed(JobEdit(m.lsm, job))
       && IsEncoded(record, EditRecord(JobEdit(m.lsm, job), r.logNumber, r.nextFile, r.lastSequence, pointers))
       && c'.manifest == c.manifest && c'.inflight == Some(record) && c'.journal == c.journal
  }

  ghost predicate Install(c: State, c': State) {
    && D.Takes(c.d, c'.d, D.InstallStep) && c.inflight.Some?
    && var m := c.d.memory.value;
       && c'.manifest == c.manifest + [c.inflight.value] && c'.inflight.None?
       && c'.journal == c.journal + [JobEdit(m.lsm, m.job.value)]
  }

  ghost predicate Crash(c: State, c': State, kept: nat, landed: bool) {
    && D.Takes(c.d, c'.d, D.CrashStep(kept, landed)) && (landed ==> c.inflight.Some?)
    && c'.manifest == (if landed then c.manifest + [c.inflight.value] else c.manifest) && c'.inflight.None?
       && c'.journal == []
  }

  function Present(files: seq<Option<File>>): seq<File> {
    if files == [] then []
    else Present(files[..|files| - 1]) + if files[|files| - 1].Some? then [files[|files| - 1].value] else []
  }

  /** The edit that recovery logs: the tables written while replaying the logs. */
  function LoadEdit(files: seq<Option<File>>): TreeEdit { TreeEdit({}, OnLevel(0, Present(files))) }

  /** What the manifest's bytes say, with the contents of the tables it names; how many groups those hold
      is history. */
  function ReadRecord(found: R.Found, v: Version, covered: nat): D.Record
    requires found.lastSequence <= MAX_SEQUENCE
  {
    D.Record(v, found.logNumber, found.nextFile, found.lastSequence, covered)
  }

  /** Recovery replays the manifest's bytes, finds the tables they name, and goes on from there.  The new
      manifest starts with a snapshot of the version so recovered, and the edit with the new tables follows. */
  ghost predicate Open(c: State, c': State, v: Version, step: D.Step, snapshot: Buffer, edit: Buffer,
                       pointers: seq<(nat, Buffer)>) {
    && step.ReopenStep? && R.Recovered(c.manifest).Ok?
    && var found := R.Recovered(c.manifest).value;
       && MetaLevels(v) == found.levels && D.TablesHold(c.d.disk.tables, v) && EditNamed(Snapshot(v))
       && found.lastSequence <= MAX_SEQUENCE
       && var read := ReadRecord(found, v, c.d.disk.record.covered);
          && D.Takes(c.d.(disk := c.d.disk.(record := read)), c'.d, step)
          && EditNamed(LoadEdit(step.files)) && IsEncoded(snapshot, SnapshotRecord(v, pointers))
          && var r := c'.d.disk.record;
             && IsEncoded(edit, EditRecord(LoadEdit(step.files), r.logNumber, r.nextFile, r.lastSequence, pointers))
             && c'.manifest == [snapshot, edit] && c'.inflight.None?
                && c'.journal == [Snapshot(v), LoadEdit(step.files)]
  }

  predicate IsPlain(step: D.Step) { !step.AppendStep? && !step.InstallStep? && !step.CrashStep? && !step.ReopenStep? }

  ghost predicate Plain(c: State, c': State, step: D.Step) {
    IsPlain(step) && D.Takes(c.d, c'.d, step) && c' == c.(d := c'.d)
  }

  datatype Step =
    | PlainStep(step: D.Step)
    | AppendStep(job: D.Job, record: Buffer, pointers: seq<(nat, Buffer)>)
    | InstallStep
    | CrashStep(kept: nat, landed: bool)
    | OpenStep(version: Version, reopen: D.Step, snapshot: Buffer, edit: Buffer, pointers: seq<(nat, Buffer)>)

  ghost predicate Takes(c: State, c': State, step: Step) {
    match step
    case PlainStep(step) => Plain(c, c', step)
    case AppendStep(job, record, pointers) => Append(c, c', job, record, pointers)
    case InstallStep => Install(c, c')
    case CrashStep(kept, landed) => Crash(c, c', kept, landed)
    case OpenStep(v, reopen, snapshot, edit, pointers) => Open(c, c', v, reopen, snapshot, edit, pointers)
  }

  /** The step of `Durability` that it is. */
  function Abstract(step: Step): D.Step {
    match step
    case PlainStep(step) => step
    case AppendStep(job, _, _) => D.AppendStep(job)
    case InstallStep => D.InstallStep
    case CrashStep(kept, landed) => D.CrashStep(kept, landed)
    case OpenStep(_, reopen, _, _, _) => reopen
  }

  /** NewDB's one record. */
  const NEW_DB: E.Edit := E.Edit(Some(R.COMPARATOR), Some(0), None, Some(2), Some(0), [], {}, [])

  ghost predicate Init(c: State) {
    D.Init(c.d) && |c.manifest| == 1 && IsEncoded(c.manifest[0], NEW_DB) && c.inflight.None? && c.journal == []
  }

  ghost predicate IsRun(states: seq<State>, steps: seq<Step>) {
    && |states| == |steps| + 1 && Init(states[0])
    && forall i {:trigger steps[i]} :: 0 <= i < |steps| ==> Takes(states[i], states[i + 1], steps[i])
  }

  // ---------- invariant ----------

  /** Recovering the records gives what the record stands for, and every level of it is in order. */
  ghost predicate Says(records: seq<Buffer>, r: D.Record) {
    Describes(records, r.version, r.logNumber, r.nextFile, r.lastSequence) && Listed(r.version)
  }

  ghost predicate CountsOf(records: seq<Buffer>, r: D.Record) {
    Counts(records, r.logNumber, r.nextFile, r.lastSequence)
  }

  ghost predicate LsmJournal(journal: seq<TreeEdit>, lsm: Lsm.State) {
    JournalOk(journal, lsm.current, lsm.nextFile, From(lsm)) && FromOk(lsm)
  }

  ghost predicate OpenOk(c: State, m: D.Memory) {
    && LsmJournal(c.journal, m.lsm) && Recorded(c.manifest, c.journal) && CountsOf(c.manifest, c.d.disk.record)
    && (c.inflight.Some? <==> c.d.disk.inflight.Some?)
    && (c.inflight.Some? ==> Says(c.manifest + [c.inflight.value], c.d.disk.inflight.value))
    && (c.inflight.Some? && m.job.Some? ==>
          Carries(c.inflight.value, JobEdit(m.lsm, m.job.value))
              && CountsOf([c.inflight.value], c.d.disk.inflight.value))
  }

  ghost predicate DownOk(c: State) { Says(c.manifest, c.d.disk.record) && c.inflight.None? }

  ghost predicate Ok(c: State) {
    Inv.Inv(c.d, false) && if c.d.memory.Some? then OpenOk(c, c.d.memory.value) else DownOk(c)
  }

  // ---------- steps that leave the manifest alone ----------

  /** What a plain step does to the tree and the memtables; None if it leaves them alone. */
  function LsmStep(m: D.Memory, step: D.Step): Option<Lsm.Step> {
    match step
    case ApplyStep(_) => if m.unapplied.Some? then Some(Lsm.WriteStep(m.unapplied.value)) else None
    case SwitchStep(_) => Some(Lsm.SwitchStep)
    case OutputStep(_, _) => Some(Lsm.NumberStep)
    case StartStep(_, c) => Some(Lsm.StartStep(c))
    case AbandonStep(_) => Some(Lsm.AbandonStep)
    case SnapshotStep(_) => Some(Lsm.SnapshotStep)
    case ReleaseStep(_, i) => Some(Lsm.ReleaseStep(i))
    case _ => None
  }

  ghost predicate PlainEffect(s: D.State, s': D.State, step: D.Step)
    requires s.memory.Some?
  {
    var m := s.memory.value;
    && s'.memory.Some? && s'.disk.record == s.disk.record && s'.disk.inflight == s.disk.inflight
    && var m' := s'.memory.value;
       && (m'.job.Some? ==> m'.job == m.job && !step.StartStep? && !step.AbandonStep?)
       && match LsmStep(m, step)
          case None => m'.lsm == m.lsm
          case Some(lstep) => Lsm.Takes(m.lsm, m'.lsm, lstep) && !IsEdit(lstep)
  }

  lemma PlainOutside(s: D.State, s': D.State, step: D.Step)
    requires D.Takes(s, s', step) && IsPlain(step) && s.memory.Some? && LsmStep(s.memory.value, step).None?
    ensures PlainEffect(s, s', step)
  {
    hide D.Reopen;
    hide Lsm.Flush;
    hide Lsm.InstallCompaction;
    hide Lsm.Write;
    hide Lsm.SwitchMemtable;
    hide Lsm.StartCompaction;
    hide Lsm.AbandonCompaction;
    hide Lsm.GetSnapshot;
    hide Lsm.ReleaseSnapshot;
    hide Lsm.TakeFileNumber;
    hide D.IsLive;
    hide D.AllBelow;
  }

  lemma PlainInside(s: D.State, s': D.State, step: D.Step)
    requires D.Takes(s, s', step) && IsPlain(step) && s.memory.Some? && LsmStep(s.memory.value, step).Some?
    ensures PlainEffect(s, s', step)
  {
    hide D.Reopen;
    hide Lsm.Flush;
    hide Lsm.InstallCompaction;
    hide Lsm.Write;
    hide Lsm.SwitchMemtable;
    hide Lsm.StartCompaction;
    hide Lsm.AbandonCompaction;
    hide Lsm.GetSnapshot;
    hide Lsm.ReleaseSnapshot;
    hide Lsm.TakeFileNumber;
    hide D.IsLive;
    hide D.AllBelow;
  }

  lemma PlainLsm(s: D.State, s': D.State, step: D.Step)
    requires D.Takes(s, s', step) && IsPlain(step) && s.memory.Some?
    ensures PlainEffect(s, s', step)
  {
    hide D.Takes;
    hide PlainEffect;
    hide LsmStep;
    if LsmStep(s.memory.value, step).None? {
      PlainOutside(s, s', step);
    } else {
      PlainInside(s, s', step);
    }
  }

  lemma PlainDown(s: D.State, s': D.State, step: D.Step)
    requires D.Takes(s, s', step) && IsPlain(step) && s.memory.None?
    ensures s'.memory.None? && s'.disk.record == s.disk.record
  {
    hide D.OpenStep;
  }

  lemma JournalStays(journal: seq<TreeEdit>, lsm: Lsm.State, lsm': Lsm.State, step: Lsm.Step)
    requires LsmJournal(journal, lsm) && Lsm.ShapeInv(lsm) && Lsm.Takes(lsm, lsm', step) && !IsEdit(step)
    ensures LsmJournal(journal, lsm')
  {
    hide JournalOk;
    hide Lsm.Takes;
    hide Lsm.ShapeInv;
    StepKeepsJournal(journal, lsm, lsm', step);
  }

  lemma OpenShape(s: D.State, m: D.Memory)
    requires Inv.OpenOk(s, m, false)
    ensures Lsm.ShapeInv(m.lsm) && m.lsm.current == s.disk.record.version
    ensures m.job.Some? ==>
            s.disk.inflight.Some? && D.Enabled(m.lsm, m.job.value)
            && s.disk.inflight.value.version == D.AfterEdit(m.lsm, m.job.value).current
  {
    hide Inv.TreeOfGroups;
    hide Inv.HistoryOk;
    hide Inv.NewestLogOk;
    hide Inv.LogsMatch;
    hide Inv.InflightOk;
    hide Inv.LiveFilesOk;
    hide Inv.ManifestOk;
    hide Lsm.ShapeInv;
    hide Lsm.RecencyInv;
    hide D.Enabled;
    hide D.AfterEdit;
  }

  lemma SameJobEdit(s: D.State, s': D.State, step: D.Step, job: D.Job)
    requires s.memory.Some? && PlainEffect(s, s', step) && !step.StartStep? && !step.AbandonStep?
    ensures JobEdit(s'.memory.value.lsm, job) == JobEdit(s.memory.value.lsm, job)
  {
    hide SwapEdit;
  }

  lemma PlainKeeps(c: State, c': State, step: D.Step)
    requires Ok(c) && Plain(c, c', step) && Inv.Inv(c'.d, false)
    ensures Ok(c')
  {
    hide D.Takes;
    hide Inv.OpenOk;
    hide Inv.DownOk;
    hide LsmJournal;
    hide Recorded;
    hide Says;
    hide CountsOf;
    hide Carries;
    hide JobEdit;
    if c.d.memory.Some? {
      var m := c.d.memory.value;
      PlainLsm(c.d, c'.d, step);
      var m' := c'.d.memory.value;
      OpenShape(c.d, m);
      if LsmStep(m, step).Some? { JournalStays(c.journal, m.lsm, m'.lsm, LsmStep(m, step).value); }
      if m'.job.Some? { SameJobEdit(c.d, c'.d, step, m.job.value); }
    } else {
      PlainDown(c.d, c'.d, step);
    }
  }

  // ---------- edits ----------

  lemma RecordedNext(records: seq<Buffer>, journal: seq<TreeEdit>, record: Buffer, e: TreeEdit, r: D.Record)
    requires Recorded(records, journal) && Carries(record, e) && CountsOf([record], r)
    ensures Recorded(records + [record], journal + [e]) && CountsOf(records + [record], r)
  {
    hide Carries;
    forall i | 0 <= i < |records| + 1 ensures Carries((records + [record])[i], (journal + [e])[i]) {
      if i < |records| { assert Carries(records[i], journal[i]); }
    }
  }

  lemma JournalSays(records: seq<Buffer>, journal: seq<TreeEdit>, lsm: Lsm.State, r: D.Record)
    requires Recorded(records, journal) && LsmJournal(journal, lsm) && CountsOf(records, r) && r.version == lsm.current
    ensures Says(records, r)
  {
    hide Recorded;
    hide JournalOk;
    hide Describes;
    hide Listed;
    LiveListed(journal, lsm.current, lsm.nextFile, From(lsm));
    JournalRecovers(records, journal, lsm.current, lsm.nextFile, From(lsm), r.logNumber, r.nextFile, r.lastSequence);
  }

  lemma EditJournal(journal: seq<TreeEdit>, lsm: Lsm.State, job: D.Job)
    requires LsmJournal(journal, lsm) && Lsm.ShapeInv(lsm) && D.Enabled(lsm, job)
    ensures LsmJournal(journal + [JobEdit(lsm, job)], D.AfterEdit(lsm, job))
  {
    hide JournalOk;
    hide Lsm.Takes;
    hide Lsm.ShapeInv;
    hide D.AfterEdit;
    StepKeepsJournal(journal, lsm, D.AfterEdit(lsm, job), D.StepOf(job));
  }

  lemma AppendFacts(s: D.State, s': D.State, job: D.Job)
    requires D.Takes(s, s', D.AppendStep(job))
    ensures s.memory.Some? && s'.memory.Some? && s.disk.inflight.None? && D.Enabled(s.memory.value.lsm, job)
    ensures s'.disk.record == s.disk.record && s'.disk.inflight == Some(D.RecordOf(s, s.memory.value, job))
    ensures s'.memory.value.lsm == s.memory.value.lsm && s'.memory.value.job == Some(job)
  {
    hide D.Enabled;
    hide D.RecordOf;
  }

  lemma AppendKeeps(c: State, c': State, job: D.Job, record: Buffer, pointers: seq<(nat, Buffer)>)
    requires Ok(c) && Append(c, c', job, record, pointers) && Inv.Inv(c'.d, false)
    ensures Ok(c')
  {
    hide D.Takes;
    hide D.Enabled;
    hide Inv.OpenOk;
    hide LsmJournal;
    hide Recorded;
    hide Says;
    hide JobEdit;
    hide D.AfterEdit;
    AppendFacts(c.d, c'.d, job);
    var m := c.d.memory.value;
    var r := D.RecordOf(c.d, m, job);
    OpenShape(c.d, m);
    EditCarries(record, JobEdit(m.lsm, job), r.logNumber, r.nextFile, r.lastSequence, pointers);
    EditJournal(c.journal, m.lsm, job);
    RecordedNext(c.manifest, c.journal, record, JobEdit(m.lsm, job), r);
    JournalSays(c.manifest + [record], c.journal + [JobEdit(m.lsm, job)], D.AfterEdit(m.lsm, job), r);
  }

  lemma InstallFacts(s: D.State, s': D.State)
    requires D.Takes(s, s', D.InstallStep)
    ensures s.memory.Some? && s'.memory.Some? && s.memory.value.job.Some? && s.disk.inflight.Some?
    ensures s'.disk.record == s.disk.inflight.value && s'.disk.inflight.None? && s'.memory.value.job.None?
    ensures s'.memory.value.lsm == D.AfterEdit(s.memory.value.lsm, s.memory.value.job.value)
  {
    hide D.AfterEdit;
  }

  lemma InstallKeeps(c: State, c': State)
    requires Ok(c) && Install(c, c') && Inv.Inv(c'.d, false)
    ensures Ok(c')
  {
    hide D.Takes;
    hide D.Enabled;
    hide Inv.OpenOk;
    hide LsmJournal;
    hide Recorded;
    hide Says;
    hide JobEdit;
    hide Carries;
    hide D.AfterEdit;
    InstallFacts(c.d, c'.d);
    var m := c.d.memory.value;
    OpenShape(c.d, m);
    EditJournal(c.journal, m.lsm, m.job.value);
    RecordedNext(c.manifest, c.journal, c.inflight.value, JobEdit(m.lsm, m.job.value), c.d.disk.inflight.value);
  }

  lemma CrashFacts(s: D.State, s': D.State, kept: nat, landed: bool)
    requires D.Takes(s, s', D.CrashStep(kept, landed))
    ensures s.memory.Some? && s'.memory.None? && (landed ==> s.disk.inflight.Some?)
    ensures s'.disk.record == if landed then s.disk.inflight.value else s.disk.record
  {
  }

  lemma CrashKeeps(c: State, c': State, kept: nat, landed: bool)
    requires Ok(c) && Crash(c, c', kept, landed) && Inv.Inv(c'.d, false)
    ensures Ok(c')
  {
    hide D.Takes;
    hide D.Enabled;
    hide Inv.OpenOk;
    hide Inv.DownOk;
    hide LsmJournal;
    hide Recorded;
    hide Says;
    hide JobEdit;
    hide CountsOf;
    hide Carries;
    hide D.AfterEdit;
    CrashFacts(c.d, c'.d, kept, landed);
    var m := c.d.memory.value;
    OpenShape(c.d, m);
    if !landed { JournalSays(c.manifest, c.journal, m.lsm, c.d.disk.record); }
  }

  // ---------- opening ----------

  lemma SnapshotNames(v: Version, l: nat)
    requires EditNamed(Snapshot(v)) && l < NUM_LEVELS
    ensures AllNamed(v[l])
  {
    hide Named;
    ListingAt(v, NUM_LEVELS, l);
    AddedOnAgrees(Snapshot(v).added, l);
  }

  /** A file is known by what the manifest says of it and the table on disk. */
  lemma FileFromMeta(tables: map<nat, seq<Entry>>, f: File, g: File)
    requires MetaOf(f) == MetaOf(g) && Named(f) && D.OnDisk(tables, f) && D.OnDisk(tables, g)
    ensures f == g
  {
    KeyBytesParse(f.smallest);
    KeyBytesParse(f.largest);
    assert IsKey(g.smallest) && IsKey(g.largest);
    KeyBytesOrder(f.smallest, g.smallest);
    KeyBytesOrder(f.largest, g.largest);
  }

  lemma VersionFromMeta(tables: map<nat, seq<Entry>>, v: Version, w: Version)
    requires MetaLevels(v) == MetaLevels(w) && EditNamed(Snapshot(v)) && D.TablesHold(tables, v)
             && D.TablesHold(tables, w)
    ensures v == w
  {
    hide MetaOf;
    hide Named;
    hide EditNamed;
    hide D.OnDisk;
    forall l | 0 <= l < NUM_LEVELS ensures v[l] == w[l] {
      SnapshotNames(v, l);
      assert MetaLevels(v)[l] == MetasOf(v[l]) && MetaLevels(w)[l] == MetasOf(w[l]);
      assert |MetasOf(v[l])| == |v[l]| && |MetasOf(w[l])| == |w[l]|;
      forall i | 0 <= i < |v[l]| ensures v[l][i] == w[l][i] {
        assert MetasOf(v[l])[i] == MetaOf(v[l][i]) && MetasOf(w[l])[i] == MetaOf(w[l][i]);
        assert v[l][i] in v[l] && w[l][i] in w[l];
        assert D.OnDisk(tables, v[l][i]) && D.OnDisk(tables, w[l][i]);
        FileFromMeta(tables, v[l][i], w[l][i]);
      }
    }
  }

  lemma DownRecord(s: D.State)
    requires Inv.DownOk(s, false)
    ensures D.TablesHold(s.disk.tables, s.disk.record.version) && s.disk.inflight.None?
  {
    hide Inv.LogsComplete;
    hide D.TablesHold;
  }

  /** What is read from the bytes is what the record stands for. */
  lemma ReadsRecord(c: State, v: Version)
    requires Ok(c) && c.d.memory.None? && R.Recovered(c.manifest).Ok?
             && R.Recovered(c.manifest).value.lastSequence <= MAX_SEQUENCE
    requires MetaLevels(v) == R.Recovered(c.manifest).value.levels && D.TablesHold(c.d.disk.tables, v)
             && EditNamed(Snapshot(v))
    ensures ReadRecord(R.Recovered(c.manifest).value, v, c.d.disk.record.covered) == c.d.disk.record
  {
    hide Inv.DownOk;
    hide D.TablesHold;
    hide MetaLevels;
    hide EditNamed;
    hide Listed;
    hide R.Recovered;
    DownRecord(c.d);
    VersionFromMeta(c.d.disk.tables, v, c.d.disk.record.version);
  }

  // ---------- the tables of a recovery, as one edit ----------

  /** One edit for each file. */
  function Singles(files: seq<File>): seq<LevelEdit> {
    seq(|files|, i requires 0 <= i < |files| => LevelEdit({}, [files[i]]))
  }

  lemma SinglesNext(files: seq<File>)
    requires files != []
    ensures Singles(files) == Singles(files[..|files| - 1]) + [LevelEdit({}, [files[|files| - 1]])]
  {
  }

  lemma {:induction false} SinglesApply(files: seq<File>)
    ensures ApplyAll(Singles(files)) == LevelState({}, InsertAll([], files))
  {
    hide Apply;
    hide InsertSorted;
    if files != [] {
      var n := |files| - 1;
      SinglesApply(files[..n]);
      SinglesNext(files);
      LiveNext([], Singles(files[..n]), LevelEdit({}, [files[n]]));
      ApplyAdd(LevelState({}, InsertAll([], files[..n])), files[n]);
      NoneLess({files[n].number});
    }
  }

  lemma NoneLess(numbers: set<nat>)
    ensures {} - numbers == {}
  {
  }

  lemma {:induction false} SinglesNeverReadd(base: seq<File>, files: seq<File>)
    requires OneEach(files) && Numbers(files) !! Numbers(base)
    ensures NeverReadds(base, Singles(files)) && EverHeld(base, Singles(files)) == Numbers(base) + Numbers(files)
  {
    if files == [] {
      assert Numbers(files) == {};
    } else {
      var n := |files| - 1;
      SinglesNext(files);
      FewerDistinct(files);
      SinglesNeverReadd(base, files[..n]);
      OneFile(files[n]);
      assert files[n].number in Numbers(files);
      assert Singles(files)[..n] == Singles(files[..n]);
      NumbersLast(files);
    }
  }

  lemma NumbersLast(files: seq<File>)
    requires files != []
    ensures Numbers(files) == Numbers(files[..|files| - 1]) + {files[|files| - 1].number}
  {
    assert files == files[..|files| - 1] + [files[|files| - 1]];
  }

  /** Adding the tables one by one is the chain of their single edits. */
  lemma {:induction false} LoadIsLive(v: Version, files: seq<Option<File>>)
    ensures D.Load(v, files)[0] == Live(v[0], Singles(Present(files)))
    ensures forall l :: 1 <= l < NUM_LEVELS ==> D.Load(v, files)[l] == v[l]
  {
    hide Live;
    hide SaveLevel;
    hide Table.Valid;
    if files == [] {
      NothingLive(v[0]);
    } else {
      var n := |files| - 1;
      LoadIsLive(v, files[..n]);
      if files[n].Some? {
        OneMoreLive(v[0], Present(files[..n]), files[n].value);
      } else {
        assert Present(files) == Present(files[..n]);
      }
    }
  }

  lemma NothingLive(files: seq<File>)
    ensures Live(files, Singles([])) == files
  {
  }

  lemma OneMoreLive(base: seq<File>, files: seq<File>, f: File)
    ensures Live(base, Singles(files + [f])) == SaveLevel(Live(base, Singles(files)), {}, [f])
  {
    hide Live;
    hide SaveLevel;
    hide Save;
    hide Apply;
    SinglesNext(files + [f]);
    assert (files + [f])[..|files|] == files;
    LiveNext(base, Singles(files), LevelEdit({}, [f]));
    OneAdded(Live(base, Singles(files)), f);
  }

  lemma OneAdded(files: seq<File>, f: File)
    ensures Save(files, Apply(LevelState({}, []), LevelEdit({}, [f]))) == SaveLevel(files, {}, [f])
  {
    ApplyAdd(LevelState({}, []), f);
    NoneLess({f.number});
    assert InsertSorted([], f) == [f];
  }

  lemma {:induction false} PresentIs(files: seq<Option<File>>, f: File)
    ensures f in Present(files) <==> Some(f) in files
  {
    if files != [] {
      var n := |files| - 1;
      assert files == files[..n] + [files[n]];
      PresentIs(files[..n], f);
    }
  }

  ghost predicate Increasing(files: seq<Option<File>>, low: nat, next: nat) {
    && (forall i :: 0 <= i < |files| && files[i].Some? ==> low < files[i].value.number < next)
    && (forall i, j ::
        0 <= i < j < |files| && files[i].Some? && files[j].Some? ==> files[i].value.number < files[j].value.number)
  }

  lemma {:induction false} PresentOneEach(files: seq<Option<File>>, low: nat, next: nat)
    requires Increasing(files, low, next)
    ensures OneEach(Present(files)) && forall f :: f in Present(files) ==> low < f.number < next
  {
    hide OneEach;
    hide Table.Valid;
    if files == [] {
      NoneTwice();
    } else {
      var n := |files| - 1;
      PresentOneEach(files[..n], low, next);
      if files[n].Some? {
        PresentBelow(files, low, next);
        OneEachNext(Present(files[..n]), files[n].value);
      } else {
        assert Present(files) == Present(files[..n]);
      }
    }
  }

  lemma PresentBelow(files: seq<Option<File>>, low: nat, next: nat)
    requires Increasing(files, low, next) && files != [] && files[|files| - 1].Some?
    ensures forall g :: g in Present(files[..|files| - 1]) ==> g.number < files[|files| - 1].value.number
  {
    hide Present;
    hide Table.Valid;
    var n := |files| - 1;
    forall g | g in Present(files[..n]) ensures g.number < files[n].value.number {
      PresentIs(files[..n], g);
      var i :| 0 <= i < n && files[..n][i] == Some(g);
    }
  }

  lemma OneEachNext(files: seq<File>, f: File)
    requires OneEach(files) && forall g :: g in files ==> g.number < f.number
    ensures OneEach(files + [f])
  {
    forall i | 0 <= i < |files| ensures files[i].number != f.number { assert files[i] in files; }
  }

  /** The edit that recovery logs makes of the recovered version what adding its tables one by one does. */
  lemma LoadApplies(v: Version, files: seq<Option<File>>, low: nat, next: nat)
    requires Listed(v) && NumbersOk(v, low) && Increasing(files, low, next)
    ensures Applies(LoadEdit(files), v, D.Load(v, files))
  {
    hide Apply;
    hide Save;
    hide InOrder;
    hide OneEach;
    hide NeverReadds;
    hide InsertAll;
    var present := Present(files);
    PresentOneEach(files, low, next);
    LoadIsLive(v, files);
    LowNumbers(v, present, low);
    SinglesNeverReadd(v[0], present);
    ReplayIsLive(v[0], Singles(present));
    SinglesApply(present);
    AllAtOnce(v[0], present);
    forall l | 0 <= l < NUM_LEVELS
        ensures D.Load(v, files)[l] == Save(v[l], Apply(LevelState({}, []), At(LoadEdit(files), l))) {
      FilesAtLevel(0, present, l);
      assert DeletedAt({}, l) == {};
      if l > 0 { SaveSame(v[l]); }
    }
  }

  lemma LowNumbers(v: Version, files: seq<File>, low: nat)
    requires NumbersOk(v, low) && Listed(v) && forall f :: f in files ==> low < f.number
    ensures InOrder(v[0]) && NumbersDistinct(v[0]) && Numbers(files) !! Numbers(v[0])
  {
    hide InOrder;
    hide OneEach;
  }

  lemma AllAtOnce(base: seq<File>, files: seq<File>)
    ensures Save(base, Apply(LevelState({}, []), LevelEdit({}, files))) ==
            Save(base, LevelState({}, InsertAll([], files)))
  {
    NoneLess(NumbersOf(files));
    var none: set<nat> := {};
    assert none + none == none;
  }

  lemma {:induction false} LoadHolds(v: Version, files: seq<Option<File>>, l: nat, f: File)
    requires l < NUM_LEVELS && (f in v[l] || (l == 0 && Some(f) in files))
    ensures f in D.Load(v, files)[l]
  {
    hide SaveLevel;
    if files != [] {
      var n := |files| - 1;
      assert files == files[..n] + [files[n]];
      if f in v[l] || Some(f) in files[..n] { LoadHolds(v, files[..n], l, f); }
      if files[n].Some? { SaveLevelContents(D.Load(v, files[..n])[0], {}, [files[n].value], f); }
    }
  }

  lemma LoadPast(v: Version, files: seq<Option<File>>, next: nat, l: nat, n: nat)
    requires Listed(v) && NumbersOk(D.Load(v, files), next) && l < NUM_LEVELS
    requires n in Past([Snapshot(v)], l) || n in Numbers(FilesAt(LoadEdit(files).added, l))
    ensures n < next && PastNumber(D.Load(v, files), None, l, n)
  {
    hide Past;
    hide PastNumber;
    hide NumbersOk;
    hide InOrder;
    hide OneEach;
    SnapshotLevel(v, l);
    FilesAtLevel(0, Present(files), l);
    var f :| (f in v[l] || (l == 0 && f in Present(files))) && f.number == n;
    PresentIs(files, f);
    LoadHolds(v, files, l, f);
    HeldNumber(D.Load(v, files), next, None, l, n);
  }

  /** After recovery the journal is the snapshot and the edit with the new tables. */
  lemma LoadJournal(v: Version, files: seq<Option<File>>, low: nat, next: nat)
    requires Listed(v) && NumbersOk(v, low) && Increasing(files, low, next) && low <= next
             && NumbersOk(D.Load(v, files), next)
    ensures JournalOk([Snapshot(v)] + [LoadEdit(files)], D.Load(v, files), next, None)
  {
    hide Past;
    hide PastNumber;
    hide NumbersOk;
    hide OneEach;
    hide InOrder;
    hide JournalOk;
    hide Increasing;
    SnapshotStarts(v, low, None);
    LoadApplies(v, files, low, next);
    forall l | 0 <= l < NUM_LEVELS
      ensures OneEach(FilesAt(LoadEdit(files).added, l))
              && Numbers(FilesAt(LoadEdit(files).added, l)) !! Past([Snapshot(v)], l)
    {
      LoadIsFresh(v, files, low, next, l);
    }
    forall l, n | 0 <= l < NUM_LEVELS
        && (n in Past([Snapshot(v)], l) || n in Numbers(FilesAt(LoadEdit(files).added, l)))
      ensures n < next && PastNumber(D.Load(v, files), None, l, n)
    {
      LoadPast(v, files, next, l, n);
    }
    JournalNext([Snapshot(v)], LoadEdit(files), v, D.Load(v, files), low, next, None, None);
  }

  lemma LoadIsFresh(v: Version, files: seq<Option<File>>, low: nat, next: nat, l: nat)
    requires Listed(v) && NumbersOk(v, low) && Increasing(files, low, next) && l < NUM_LEVELS
    ensures OneEach(FilesAt(LoadEdit(files).added, l))
            && Numbers(FilesAt(LoadEdit(files).added, l)) !! Past([Snapshot(v)], l)
  {
    hide Past;
    hide InOrder;
    hide OneEach;
    hide Increasing;
    SnapshotLevel(v, l);
    FilesAtLevel(0, Present(files), l);
    PresentOneEach(files, low, next);
    NoneTwice();
  }

  lemma OpenFacts(s: D.State, s': D.State, step: D.Step)
    requires D.Takes(s, s', step) && step.ReopenStep?
    ensures s.memory.None? && s'.memory.Some? && s'.memory.value.job.None? && s'.disk.inflight.None?
    ensures var r, m := s'.disk.record, s'.memory.value;
            && Increasing(step.files, s.disk.record.nextFile, step.next) && s.disk.record.nextFile <= step.next
            && m.lsm.current == D.Load(s.disk.record.version, step.files) && m.lsm.nextFile == step.next
               && m.lsm.running.None?
  {
    hide D.Load;
    hide D.Written;
    hide D.HighestSequence;
    hide D.Replayed;
    hide EntriesOf;
    hide Held;
  }

  lemma RecordShape(s: D.State)
    requires Inv.DownOk(s, false)
    ensures NumbersOk(s.disk.record.version, s.disk.record.nextFile)
  {
    hide Inv.LogsComplete;
    hide D.TablesHold;
    hide NumbersOk;
    hide Lsm.LayersOk;
  }

  lemma LsmNumbers(lsm: Lsm.State)
    requires Lsm.ShapeInv(lsm)
    ensures NumbersOk(lsm.current, lsm.nextFile)
  {
    hide Lsm.LayersOk;
  }

  /** Opening from the bytes is opening from the record they stand for. */
  lemma OpenRefines(c: State, c': State, v: Version, step: D.Step, snapshot: Buffer, edit: Buffer,
                    pointers: seq<(nat, Buffer)>)
    requires Ok(c) && Open(c, c', v, step, snapshot, edit, pointers)
    ensures D.Takes(c.d, c'.d, step) && c.d.memory.None? && v == c.d.disk.record.version
  {
    hide Inv.DownOk;
    hide Inv.OpenOk;
    hide Says;
    hide D.TablesHold;
    hide EditNamed;
    hide IsEncoded;
    hide R.Recovered;
    hide D.Takes;
    var found := R.Recovered(c.manifest).value;
    var read := ReadRecord(found, v, c.d.disk.record.covered);
    OpenFacts(c.d.(disk := c.d.disk.(record := read)), c'.d, step);
    ReadsRecord(c, v);
    assert c.d.(disk := c.d.disk.(record := read)) == c.d;
  }

  lemma OpenKeeps(c: State, c': State, v: Version, step: D.Step, snapshot: Buffer, edit: Buffer,
                  pointers: seq<(nat, Buffer)>)
    requires Ok(c) && Open(c, c', v, step, snapshot, edit, pointers) && Inv.Inv(c'.d, false)
    ensures Ok(c')
  {
    hide Inv.DownOk;
    hide Inv.OpenOk;
    hide D.TablesHold;
    hide EditNamed;
    hide IsEncoded;
    hide R.Recovered;
    hide D.Takes;
    hide JournalOk;
    hide Describes;
    hide Listed;
    hide Carries;
    hide NumbersOk;
    hide Increasing;
    hide D.Load;
    hide Snapshot;
    hide LoadEdit;
    OpenRefines(c, c', v, step, snapshot, edit, pointers);
    OpenFacts(c.d, c'.d, step);
    RecordShape(c.d);
    var m := c'.d.memory.value;
    OpenShape(c'.d, m);
    LsmNumbers(m.lsm);
    LoadJournal(v, step.files, c.d.disk.record.nextFile, step.next);
    OpenRecords(c', v, step.files, snapshot, edit, pointers);
    assert [Snapshot(v)] + [LoadEdit(step.files)] == c'.journal;
  }

  lemma OpenRecords(c: State, v: Version, files: seq<Option<File>>, snapshot: Buffer, edit: Buffer,
                    pointers: seq<(nat, Buffer)>)
    requires EditNamed(Snapshot(v)) && EditNamed(LoadEdit(files)) && IsEncoded(snapshot, SnapshotRecord(v, pointers))
    requires IsEncoded(edit,
             EditRecord(LoadEdit(files), c.d.disk.record.logNumber, c.d.disk.record.nextFile,
                 c.d.disk.record.lastSequence, pointers))
    requires c.manifest == [snapshot, edit] && c.journal == [Snapshot(v), LoadEdit(files)]
    ensures Recorded(c.manifest, c.journal) && CountsOf(c.manifest, c.d.disk.record)
  {
    hide IsEncoded;
    hide EditNamed;
    hide Carries;
    hide Snapshot;
    hide LoadEdit;
    var r := c.d.disk.record;
    SnapshotCarries(snapshot, v, pointers);
    EditCarries(edit, LoadEdit(files), r.logNumber, r.nextFile, r.lastSequence, pointers);
  }

  // ---------- all runs ----------

  lemma StepTakes(c: State, c': State, step: Step)
    requires Ok(c) && Takes(c, c', step)
    ensures D.Takes(c.d, c'.d, Abstract(step))
  {
    hide Ok;
    hide D.Takes;
    hide Open;
    match step
    case OpenStep(v, reopen, snapshot, edit, pointers) => OpenRefines(c, c', v, reopen, snapshot, edit, pointers);
    case _ =>
  }

  lemma StepKeepsOk(c: State, c': State, step: Step)
    requires Ok(c) && Takes(c, c', step)
    ensures D.Takes(c.d, c'.d, Abstract(step)) && Ok(c')
  {
    hide Inv.Inv;
    hide D.Takes;
    hide Plain;
    hide Append;
    hide Install;
    hide Crash;
    hide Open;
    hide OpenOk;
    hide DownOk;
    StepTakes(c, c', step);
    Recovery.StepKeepsInv(c.d, c'.d, Abstract(step), false);
    match step
    case PlainStep(step) => PlainKeeps(c, c', step);
    case AppendStep(job, record, pointers) => AppendKeeps(c, c', job, record, pointers);
    case InstallStep => InstallKeeps(c, c');
    case CrashStep(kept, landed) => CrashKeeps(c, c', kept, landed);
    case OpenStep(v, reopen, snapshot, edit, pointers) => OpenKeeps(c, c', v, reopen, snapshot, edit, pointers);
  }

  lemma EmptyVersion(v: Version)
    requires v == seq(NUM_LEVELS, _ => [])
    ensures Listed(v) && NumbersOk(v, 0) && Snapshot(v) == NOTHING
  {
    assert Numbers([]) == {};
    NoneTwice();
    InOrderNothing();
    forall l | 0 <= l <= NUM_LEVELS ensures Listing(v, l) == [] { EmptyListing(v, l); }
  }

  lemma {:induction false} EmptyListing(v: Version, l: nat)
    requires v == seq(NUM_LEVELS, _ => []) && l <= NUM_LEVELS
    ensures Listing(v, l) == []
  {
    if l > 0 { EmptyListing(v, l - 1); }
  }

  lemma InitOk(c: State)
    requires Init(c)
    ensures Ok(c)
  {
    hide IsEncoded;
    hide Inv.Inv;
    hide Says;
    Recovery.InitInv(c.d, false);
    NewDbSays(c.manifest[0], c.d.disk.record.version);
    assert c.manifest == [c.manifest[0]];
  }

  lemma NewDbSays(record: Buffer, v: Version)
    requires IsEncoded(record, NEW_DB) && v == seq(NUM_LEVELS, _ => [])
    ensures Says([record], D.Record(v, 0, 2, 0, 0))
  {
    hide IsEncoded;
    hide Listed;
    hide JournalOk;
    hide NumbersOk;
    hide R.Recovered;
    EmptyVersion(v);
    SnapshotStarts(v, 0, None);
    EncodedReads(record, NEW_DB);
    assert Carries(record, NOTHING);
    assert Recorded([record], [NOTHING]);
    JournalRecovers([record], [NOTHING], v, 0, None, 0, 2, 0);
  }

  function DurableStates(states: seq<State>): seq<D.State> {
    seq(|states|, i requires 0 <= i < |states| => states[i].d)
  }

  function DurableSteps(steps: seq<Step>): seq<D.Step> {
    seq(|steps|, i requires 0 <= i < |steps| => Abstract(steps[i]))
  }

  lemma {:induction false} RunKeepsOk(states: seq<State>, steps: seq<Step>, n: nat)
    requires IsRun(states, steps) && n < |states|
    ensures Ok(states[n])
  {
    hide Ok;
    hide Takes;
    hide Init;
    if n == 0 {
      InitOk(states[0]);
    } else {
      RunKeepsOk(states, steps, n - 1);
      StepKeepsOk(states[n - 1], states[n], steps[n - 1]);
    }
  }

  /** Every run over bytes is a run of `Durability`, whose theorems therefore hold of it. */
  lemma RunRefines(states: seq<State>, steps: seq<Step>)
    requires IsRun(states, steps)
    ensures D.IsRun(DurableStates(states), DurableSteps(steps))
  {
    hide Ok;
    hide Takes;
    hide D.Takes;
    hide D.Init;
    hide IsEncoded;
    forall i | 0 <= i < |steps|
        ensures D.Takes(DurableStates(states)[i], DurableStates(states)[i + 1], DurableSteps(steps)[i]) {
      RunKeepsOk(states, steps, i);
      StepKeepsOk(states[i], states[i + 1], steps[i]);
    }
  }

  /** In every run, whenever the database is down, decoding and replaying the bytes of the manifest gives
      exactly the files of the last version whose record reached the disk, and its counters. */
  lemma ReplayIsExact(states: seq<State>, steps: seq<Step>, n: nat)
    requires IsRun(states, steps) && n < |states| && states[n].d.memory.None?
    ensures var r := states[n].d.disk.record;
            R.Recovered(states[n].manifest) ==
                R.Ok(R.Found(MetaLevels(r.version), r.logNumber, r.nextFile, r.lastSequence))
    ensures forall k, f ::
            0 <= k < NUM_LEVELS && f in states[n].d.disk.record.version[k] ==> D.OnDisk(states[n].d.disk.tables, f)
  {
    hide IsRun;
    RunKeepsOk(states, steps, n);
    hide Listed;
    hide R.Recovered;
    DownRecord(states[n].d);
  }

  /** While it is open, the synced records alone say what the current version is. */
  lemma ManifestIsAhead(states: seq<State>, steps: seq<Step>, n: nat)
    requires IsRun(states, steps) && n < |states| && states[n].d.memory.Some?
    ensures var r := states[n].d.disk.record;
            && R.Recovered(states[n].manifest) ==
               R.Ok(R.Found(MetaLevels(r.version), r.logNumber, r.nextFile, r.lastSequence))
            && r.version == states[n].d.memory.value.lsm.current
  {
    hide IsRun;
    hide Inv.OpenOk;
    hide Recorded;
    hide JournalOk;
    hide Listed;
    hide R.Recovered;
    hide Carries;
    RunKeepsOk(states, steps, n);
    var c, m := states[n], states[n].d.memory.value;
    OpenShape(c.d, m);
    JournalSays(c.manifest, c.journal, m.lsm, c.d.disk.record);
  }

  predicate IsLeftover(step: Step) { step.PlainStep? && Recovery.IsLeftover(step.step) }

  /** Crash recovery from the bytes on disk: a crash at any point, any number of interrupted recoveries, and
      an open give back exactly a prefix of the logged groups, and no file that is still needed is missing. */
  lemma RecoveryFromBytes(states: seq<State>, steps: seq<Step>, i: nat, kept: nat, landed: bool, n: nat)
    requires IsRun(states, steps) && i < n < |steps| && steps[i] == CrashStep(kept, landed)
    requires steps[n].OpenStep? && steps[n].reopen.ReopenStep? && forall j :: i < j < n ==> IsLeftover(steps[j])
    ensures |states| == |steps| + 1 && Recovery.IsPrefix(states[i].d, kept, states[n + 1].d)
    ensures states[n + 1].d.memory.Some? && Recovery.NothingMissing(states[n + 1].d, states[n + 1].d.memory.value)
  {
    hide Takes;
    hide Init;
    hide D.IsRun;
    hide Recovery.NothingMissing;
    RunRefines(states, steps);
    var ds, ts := DurableStates(states), DurableSteps(steps);
    assert ds[i] == states[i].d && ds[n + 1] == states[n + 1].d && ts[n] == steps[n].reopen;
    forall j | i < j < n ensures Recovery.IsLeftover(ts[j]) { assert IsLeftover(steps[j]); }
    Recovery.RecoveryIsExact(ds, ts, i, kept, landed, n);
    Recovery.CollectionIsSafe(ds, ts, n + 1);
  }
}
