/** Recovery after a crash, and what holds in every state of every run with any number of crashes. */
module CrashRecovery {
  import opened Options
  import opened InternalKeys
  import opened Files
  import opened TreeSteps
  import opened Durability
  import opened DurableTrees
  import opened DurabilityInvariant
  import opened DurabilitySteps
  import VersionBuilder
  import Lsm = LsmMachine

  // ---------- what an interrupted recovery leaves behind ----------

  lemma LeaveTableKeeps(s: State, s': State, n: nat, entries: seq<Entry>, closed: bool)
    requires s.memory.None? && DownOk(s, closed) && LeaveTable(s, s', n, entries)
    ensures Inv(s', closed)
  {
    hide Lsm.Ok;
    hide LogsComplete;
    hide GroupsOk;
    RecordNumbers(s.disk.record, s.groups, closed);
    UnrelatedTable(s.disk.tables, s.disk.record.version, n, entries);
  }

  lemma UnrelatedTable(tables: map<nat, seq<Entry>>, v: Version, n: nat, entries: seq<Entry>)
    requires TablesHold(tables, v) && n !in NumbersIn(v)
    ensures TablesHold(tables[n := entries], v)
  {
    forall l, f | 0 <= l < NUM_LEVELS && f in v[l] ensures OnDisk(tables[n := entries], f) {
      assert f.number in NumbersIn(v);
      assert OnDisk(tables, f);
    }
  }

  lemma EmptyLogAdded(logs: map<nat, Log>, r: Record, groups: seq<Group>, n: nat)
    requires LogsComplete(logs, r, groups) && AllBelow(logs, n) && n > r.logNumber
    ensures LogsComplete(logs[n := []], r, groups)
  {
    var logs' := logs[n := []];
    forall top | AllBelow(logs', top) && r.logNumber <= top
        ensures Between(logs', r.logNumber, top) == groups[r.covered..] {
      assert n in logs';
      BetweenEnds(logs', r.logNumber, n, top);
      BetweenSame(logs, logs', r.logNumber, n);
    }
  }

  lemma LeaveLogKeeps(s: State, s': State, n: nat, closed: bool)
    requires s.memory.None? && DownOk(s, closed) && LeaveLog(s, s', n)
    ensures Inv(s', closed)
  {
    hide RecordOk;
    hide LogsComplete;
    hide GroupsOk;
    hide TablesHold;
    EmptyLogAdded(s.disk.logs, s.disk.record, s.groups, n);
  }

  lemma LeaveManifestKeeps(s: State, s': State, closed: bool)
    requires s.memory.None? && DownOk(s, closed) && LeaveManifest(s, s')
    ensures Inv(s', closed)
  {
    hide RecordOk;
    hide LogsComplete;
    hide GroupsOk;
    hide TablesHold;
  }

  // ---------- replaying ----------

  lemma {:induction false} HighestOf(es: seq<Entry>, low: Sequence)
    requires low < MAX_SEQUENCE && forall e :: e in es ==> e.key.sequence < MAX_SEQUENCE
    ensures low <= MaxSequence(es, low) < MAX_SEQUENCE && forall e :: e in es ==> e.key.sequence <= MaxSequence(es, low)
  {
    if es != [] {
      HighestOf(es[..|es| - 1], low);
      assert es == es[..|es| - 1] + [es[|es| - 1]];
    }
  }

  lemma {:induction false} HighestBounds(groups: seq<Group>, low: Sequence)
    requires low < MAX_SEQUENCE && forall e :: e in EntriesIn(groups) ==> e.key.sequence < MAX_SEQUENCE
    ensures low <= HighestSequence(groups, low) < MAX_SEQUENCE
    ensures forall e :: e in EntriesIn(groups) ==> e.key.sequence <= HighestSequence(groups, low)
  {
    if groups != [] {
      var n := |groups| - 1;
      EntriesOfPart(groups, n, |groups|);
      assert groups[..|groups|] == groups && groups[n..|groups|] == [groups[n]];
      SingleGroup(groups[n]);
      HighestBounds(groups[..n], low);
      HighestOf(groups[n], HighestSequence(groups[..n], low));
    }
  }

  /** The database after the first `n` tables of a replay. */
  ghost function Loaded(v: Version, groups: seq<Group>, cuts: seq<nat>, files: seq<Option<File>>, n: nat,
                        last: Sequence, next: nat): Lsm.State
    requires n < |cuts| && n <= |files| && cuts[n] <= |groups|
  {
    Lsm.State({}, None, Load(v, files[..n]), last, [], next, None, EntriesIn(groups[..cuts[n]]))
  }

  lemma LoadOne(v: Version, files: seq<Option<File>>, n: nat)
    requires n < |files|
    ensures Load(v, files[..n + 1]) ==
            if files[n].Some? then AddFile(Load(v, files[..n]), 0, files[n].value) else Load(v, files[..n])
  {
    assert files[..n + 1][..n] == files[..n];
  }

  /** A full memtable of replayed groups becomes the newest level-0 table. */
  lemma LoadTable(p: Lsm.State, g: set<Entry>, f: File, q: Lsm.State, closed: bool)
    requires Lsm.Ok(p, closed) && p.mem == {} && p.imm == None && Unique(p.written + g) && Held(f) == g
             && p.nextFile <= f.number
    requires forall a, b :: a in p.written && b in g ==> a.key.sequence < b.key.sequence
    requires forall b :: b in g ==> b.key.sequence <= p.lastSequence
    requires q == p.(current := AddFile(p.current, 0, f), nextFile := f.number + 1, written := p.written + g)
    ensures Lsm.Ok(q, closed)
  {
    hide Lsm.Ok;
    hide AddFile;
    hide Held;
    var p' := p.(nextFile := f.number);
    RaiseNext(p, f.number, closed);
    HoldNewer(p', g, closed);
    FlushNewer(p', f, 0, q, closed);
  }

  lemma {:induction false} LoadKeeps(r: Record, groups: seq<Group>, cuts: seq<nat>, files: seq<Option<File>>, n: nat,
                                     last: Sequence, next: nat, closed: bool)
    returns (low: nat)
    requires RecordOk(r, groups, closed) && GroupsOk(groups) && TablesFit(groups, cuts, files, r.nextFile, next)
             && n <= |files| && cuts[0] == r.covered
    requires r.lastSequence <= last < MAX_SEQUENCE && forall e :: e in EntriesIn(groups) ==> e.key.sequence <= last
    ensures Lsm.Ok(Loaded(r.version, groups, cuts, files, n, last, low), closed) && (r.nextFile < next ==> low <= next)
    ensures forall i :: n <= i < |files| && files[i].Some? ==> low <= files[i].value.number
    decreases n
  {
    hide Lsm.Ok;
    hide GroupsOk;
    hide AddFile;
    hide Held;
    if n == 0 {
      low := r.nextFile;
      RaiseLast(Bare(r, groups), last, closed);
      assert files[..0] == [];
    } else {
      low := LoadKeeps(r, groups, cuts, files, n - 1, last, next, closed);
      low := LoadNext(r, groups, cuts, files, n - 1, last, low, next, closed);
    }
  }

  lemma LoadNext(r: Record, groups: seq<Group>, cuts: seq<nat>, files: seq<Option<File>>, n: nat, last: Sequence,
                 low: nat, next: nat, closed: bool)
    returns (low': nat)
    requires GroupsOk(groups) && TablesFit(groups, cuts, files, r.nextFile, next) && n < |files|
             && (r.nextFile < next ==> low <= next)
    requires forall e :: e in EntriesIn(groups) ==> e.key.sequence <= last
    requires Lsm.Ok(Loaded(r.version, groups, cuts, files, n, last, low), closed)
    requires forall i :: n <= i < |files| && files[i].Some? ==> low <= files[i].value.number
    ensures Lsm.Ok(Loaded(r.version, groups, cuts, files, n + 1, last, low'), closed)
            && (r.nextFile < next ==> low' <= next)
    ensures forall i :: n + 1 <= i < |files| && files[i].Some? ==> low' <= files[i].value.number
  {
    hide Lsm.Ok;
    hide GroupsOk;
    hide AddFile;
    hide Held;
    hide Load;
    hide EntriesIn;
    var p, part := Loaded(r.version, groups, cuts, files, n, last, low), EntriesIn(groups[cuts[n]..cuts[n + 1]]);
    LoadOne(r.version, files, n);
    EntriesOfPart(groups, cuts[n], cuts[n + 1]);
    EntriesOfPart(groups, 0, cuts[n + 1]);
    assert EntriesIn(groups[..cuts[n + 1]]) == p.written + part;
    low' := low;
    if files[n].Some? {
      var f := files[n].value;
      PartIsNewer(groups, cuts[n], cuts[n + 1]);
      low' := f.number + 1;
      LoadTable(p, part, f, Loaded(r.version, groups, cuts, files, n + 1, last, low'), closed);
    } else {
      assert part == {};
      assert Loaded(r.version, groups, cuts, files, n + 1, last, low) == p;
    }
  }

  // ---------- the tables a replay writes ----------

  lemma {:induction false} WrittenHas(tables: map<nat, seq<Entry>>, files: seq<Option<File>>, k: nat)
    requires forall i :: 0 <= i < |files| && files[i].Some? ==> files[i].value.number != k
    ensures k in Written(tables, files) <==> k in tables
    ensures k in tables ==> Written(tables, files)[k] == tables[k]
  {
    if files != [] { WrittenHas(tables, files[..|files| - 1], k); }
  }

  lemma {:induction false} WrittenHolds(tables: map<nat, seq<Entry>>, files: seq<Option<File>>, i: nat)
    requires i < |files| && files[i].Some?
    requires forall i, j ::
              0 <= i < j < |files| && files[i].Some? && files[j].Some? ==> files[i].value.number < files[j].value.number
    ensures OnDisk(Written(tables, files), files[i].value)
  {
    var n := |files| - 1;
    if i < n { WrittenHolds(tables, files[..n], i); }
  }

  lemma {:induction false} LoadFiles(v: Version, files: seq<Option<File>>, l: nat, f: File)
    requires l < NUM_LEVELS && f in Load(v, files)[l]
    ensures f in v[l] || Some(f) in files
  {
    if files != [] {
      var n := |files| - 1;
      var before := Load(v, files[..n]);
      assert files == files[..n] + [files[n]];
      if files[n].Some? { VersionBuilder.SaveLevelContents(before[0], {}, [files[n].value], f); }
      if f in before[l] { LoadFiles(v, files[..n], l, f); }
    }
  }

  lemma LoadOnDisk(tables: map<nat, seq<Entry>>, r: Record, groups: seq<Group>, cuts: seq<nat>,
                   files: seq<Option<File>>, next: nat, closed: bool)
    requires RecordOk(r, groups, closed) && TablesHold(tables, r.version)
             && TablesFit(groups, cuts, files, r.nextFile, next)
    ensures TablesHold(Written(tables, files), Load(r.version, files))
  {
    hide RecordOk;
    RecordNumbers(r, groups, closed);
    forall l, f | 0 <= l < NUM_LEVELS && f in Load(r.version, files)[l] ensures OnDisk(Written(tables, files), f) {
      LoadFiles(r.version, files, l, f);
      if Some(f) in files {
        var i :| 0 <= i < |files| && files[i] == Some(f);
        WrittenHolds(tables, files, i);
      } else {
        assert f.number in NumbersIn(r.version) && OnDisk(tables, f);
        WrittenHas(tables, files, f.number);
      }
    }
  }

  // ---------- reopening ----------

  /** What the disk alone gives back is the whole surviving history. */
  lemma ReplayedIsHistory(s: State, top: nat, closed: bool)
    requires DownOk(s, closed) && AllBelow(s.disk.logs, top) && s.disk.record.logNumber <= top
    ensures Replayed(s, top) == s.groups
  {
    hide RecordOk;
    hide GroupsOk;
    hide TablesHold;
    var r := s.disk.record;
    assert Between(s.disk.logs, r.logNumber, top) == s.groups[r.covered..];
  }

  lemma ReopenedTree(s: State, s': State, top: nat, cuts: seq<nat>, files: seq<Option<File>>, log: nat, next: nat,
                     closed: bool)
    requires DownOk(s, closed) && Reopen(s, s', top, cuts, files, log, next)
    ensures s'.groups == s.groups && s'.memory.Some? && Lsm.Ok(s'.memory.value.lsm, closed)
    ensures forall e :: e in EntriesIn(s.groups) ==> e.key.sequence <= s'.memory.value.lsm.lastSequence
  {
    hide Lsm.Ok;
    hide LogsComplete;
    hide TablesHold;
    hide Load;
    hide Written;
    hide HighestSequence;
    ReplayedIsHistory(s, top, closed);
    var r, groups := s.disk.record, s.groups;
    var last := HighestSequence(groups[r.covered..], r.lastSequence);
    LastIsHighest(r, groups, closed);
    var low := LoadKeeps(r, groups, cuts, files, |files|, last, next, closed);
    assert files[..|files|] == files && groups[..|groups|] == groups;
    RaiseNext(Loaded(r.version, groups, cuts, files, |files|, last, low), next, closed);
  }

  lemma LastIsHighest(r: Record, groups: seq<Group>, closed: bool)
    requires RecordOk(r, groups, closed) && GroupsOk(groups)
    ensures var last := HighestSequence(groups[r.covered..], r.lastSequence);
            r.lastSequence <= last < MAX_SEQUENCE && forall e :: e in EntriesIn(groups) ==> e.key.sequence <= last
  {
    hide ShapeOk;
    hide Lsm.SameReads;
    EntriesOfPart(groups, r.covered, |groups|);
    assert groups[..|groups|] == groups && groups[r.covered..|groups|] == groups[r.covered..];
    HighestBounds(groups[r.covered..], r.lastSequence);
  }

  lemma ReopenKeeps(s: State, s': State, top: nat, cuts: seq<nat>, files: seq<Option<File>>, log: nat, next: nat,
                    closed: bool)
    requires DownOk(s, closed) && Reopen(s, s', top, cuts, files, log, next)
    ensures Inv(s', closed)
  {
    hide Lsm.Ok;
    hide LogsComplete;
    hide RecordOk;
    hide TablesHold;
    hide GroupsOk;
    hide Load;
    hide Written;
    hide HighestSequence;
    hide TablesFit;
    ReopenedTree(s, s', top, cuts, files, log, next, closed);
    LoadOnDisk(s.disk.tables, s.disk.record, s.groups, cuts, files, next, closed);
    ReplayedIsHistory(s, top, closed);
    ReopenedOk(s', s'.memory.value, closed);
  }

  /** The state right after opening, with empty memtables and a fresh log. */
  lemma ReopenedOk(s: State, m: Memory, closed: bool)
    requires GroupsOk(s.groups) && Lsm.Ok(m.lsm, closed) && TablesHold(s.disk.tables, m.lsm.current)
             && ManifestOk(s.disk)
    requires m.lsm == Lsm.State({}, None, s.disk.record.version, s.disk.record.lastSequence, [],
             s.disk.record.nextFile, None, EntriesIn(s.groups))
    requires s.disk.record.covered == s.sealed == |s.groups| && s.disk.record.logNumber == m.log
             && s.disk.inflight.None?
    requires m.log in s.disk.logs && s.disk.logs[m.log] == [] && AllBelow(s.disk.logs, m.log + 1)
             && m.log < m.lsm.nextFile
    requires m == Memory(m.lsm, m.log, 0, None, None, {}, {}, false)
    ensures OpenOk(s, m, closed)
  {
    hide Lsm.Ok;
    hide TablesHold;
    hide GroupsOk;
    var n := |s.groups|;
    assert s.groups[..n] == s.groups && s.groups[n..n] == [] && s.groups[n..] == [];
    assert Between(s.disk.logs, m.log, m.log) == [];
    TreeNumbers(m.lsm, closed);
    assert m.lsm == Tree(m.lsm, EntriesIn(s.groups[..n])) == Bare(s.disk.record, s.groups);
  }

  // ---------- all runs ----------

  lemma InitInv(s: State, closed: bool)
    requires Init(s)
    ensures Inv(s, closed)
  {
    var r := s.disk.record;
    EmptyTree(r, closed);
    forall top | AllBelow(s.disk.logs, top) && r.logNumber <= top ensures Between(s.disk.logs, r.logNumber, top) == [] {
      BetweenNone(s.disk.logs, r.logNumber, top);
    }
  }

  lemma EmptyTree(r: Record, closed: bool)
    requires r == Record(seq(NUM_LEVELS, _ => []), 0, 2, 0, 0)
    ensures RecordOk(r, [], closed) && GroupsOk([])
  {
    hide Lsm.ShapeInv;
    hide Lsm.RecencyInv;
    var none: seq<Group> := [];
    assert none[..0] == [];
    var p := Bare(r, []).(nextFile := 0);
    Lsm.InitInv(p);
    RaiseNext(p, 2, closed);
  }

  lemma OpenKeeps(s: State, m: Memory, s': State, step: Step, closed: bool)
    requires s.memory == Some(m) && OpenOk(s, m, closed) && OpenStep(s, m, s', step) && (closed ==> Closes(s, step))
    ensures Inv(s', closed)
  {
    hide OpenOk;
    hide Inv;
    hide LogGroup; hide SyncLog; hide ApplyGroup; hide SwitchLog; hide BuildTable; hide WriteOutput; hide AppendEdit;
    hide InstallEdit; hide FailEdit; hide StartCompaction; hide AbandonCompaction;
    hide GetSnapshot; hide ReleaseSnapshot;
    hide Pin; hide Unpin; hide DeleteLog; hide DeleteTable; hide DeleteManifest; hide Crash;
    match step
    case LogStep(group) => LogKeeps(s, m, s', group, closed);
    case SyncStep => SyncKeeps(s, m, s', closed);
    case ApplyStep(lsm) => ApplyKeeps(s, m, s', lsm, closed);
    case SwitchStep(lsm) => SwitchKeeps(s, m, s', lsm, closed);
    case BuildStep(f) => BuildKeeps(s, m, s', f, closed);
    case OutputStep(lsm, entries) => OutputKeeps(s, m, s', lsm, entries, closed);
    case AppendStep(job) => AppendKeeps(s, m, s', job, closed);
    case InstallStep => InstallKeeps(s, m, s', closed);
    case FailStep => FailKeeps(s, m, s', closed);
    case StartStep(lsm, c) => StartKeeps(s, m, s', lsm, c, closed);
    case AbandonStep(lsm) => AbandonKeeps(s, m, s', lsm, closed);
    case SnapshotStep(lsm) => SnapshotKeeps(s, m, s', lsm, closed);
    case ReleaseStep(lsm, i) => ReleaseKeeps(s, m, s', lsm, i, closed);
    case PinStep => PinKeeps(s, m, s', closed);
    case UnpinStep(v) => UnpinKeeps(s, m, s', v, closed);
    case DeleteLogStep(n) => DeleteLogKeeps(s, m, s', n, closed);
    case DeleteTableStep(n) => DeleteTableKeeps(s, m, s', n, closed);
    case DeleteManifestStep(n) => DeleteManifestKeeps(s, m, s', n, closed);
    case CrashStep(kept, landed) => CrashKeeps(s, m, s', kept, landed, closed);
    case _ =>
  }

  lemma StepKeepsInv(s: State, s': State, step: Step, closed: bool)
    requires Inv(s, closed) && Takes(s, s', step) && (closed ==> Closes(s, step))
    ensures Inv(s', closed)
  {
    hide OpenOk;
    hide DownOk;
    hide OpenStep;
    hide Closes;
    match step
    case LeaveTableStep(n, entries) => LeaveTableKeeps(s, s', n, entries, closed);
    case LeaveLogStep(n) => LeaveLogKeeps(s, s', n, closed);
    case LeaveManifestStep => LeaveManifestKeeps(s, s', closed);
    case ReopenStep(top, cuts, files, log, next) => ReopenKeeps(s, s', top, cuts, files, log, next, closed);
    case _ => OpenKeeps(s, s.memory.value, s', step, closed);
  }

  /** In a run, the invariant without what reads need; in a closed run, all of it. */
  lemma {:induction false} RunKeepsInv(states: seq<State>, steps: seq<Step>, n: nat, closed: bool)
    requires IsRun(states, steps) && n < |states| && (closed ==> ClosedRun(states, steps))
    ensures Inv(states[n], closed)
  {
    hide Inv;
    hide Takes;
    hide Closes;
    if n == 0 {
      InitInv(states[0], closed);
    } else {
      RunKeepsInv(states, steps, n - 1, closed);
      StepKeepsInv(states[n - 1], states[n], steps[n - 1], closed);
    }
  }

  predicate IsLeftover(step: Step) { step.LeaveTableStep? || step.LeaveLogStep? || step.LeaveManifestStep? }

  lemma {:induction false} LeftoversKeepHistory(states: seq<State>, steps: seq<Step>, i: nat, n: nat)
    requires IsRun(states, steps) && i <= n < |states| && states[i].memory.None?
    requires forall j :: i <= j < n ==> IsLeftover(steps[j])
    ensures states[n].memory.None? && states[n].groups == states[i].groups
  {
    hide Takes;
    hide Closes;
    if i < n {
      LeftoversKeepHistory(states, steps, i, n - 1);
      assert Takes(states[n - 1], states[n - 1 + 1], steps[n - 1]);
      LeftoverStep(states[n - 1], states[n], steps[n - 1]);
    }
  }

  lemma LeftoverStep(s: State, s': State, step: Step)
    requires Takes(s, s', step) && IsLeftover(step)
    ensures s'.memory.None? && s'.groups == s.groups
  {
    hide OpenStep;
  }

  lemma RunShape(states: seq<State>, steps: seq<Step>)
    requires IsRun(states, steps)
    ensures |states| == |steps| + 1
  {
    hide Takes;
    hide Closes;
    hide Init;
  }

  lemma TakenAt(states: seq<State>, steps: seq<Step>, i: nat)
    requires IsRun(states, steps) && i < |steps|
    ensures Takes(states[i], states[i + 1], steps[i])
  {
    hide Takes;
    hide Closes;
  }

  /** Crash recovery refines a prefix: a crash at any point, any number of interrupted recoveries, and then
      an open give back the state after a prefix of the logged groups: every group of the older logs, every
      synced group of the newest one, and no group in part or twice.  This needs no hypothesis on picked
      inputs. */
  lemma RecoveryIsExact(states: seq<State>, steps: seq<Step>, i: nat, kept: nat, landed: bool, n: nat)
    requires IsRun(states, steps) && i < n < |steps| && steps[i] == CrashStep(kept, landed)
    requires steps[n].ReopenStep? && forall j :: i < j < n ==> IsLeftover(steps[j])
    ensures |states| == |steps| + 1 && IsPrefix(states[i], kept, states[n + 1])
  {
    hide IsRun;
    hide Inv;
    hide Takes;
    hide IsPrefix;
    RunShape(states, steps);
    TakenAt(states, steps, i);
    TakenAt(states, steps, n);
    RunKeepsInv(states, steps, n, false);
    CrashedDown(states[i], states[i + 1], kept, landed);
    LeftoversKeepHistory(states, steps, i + 1, n);
    RecoveredPrefix(states[i], states[i + 1], states[n], states[n + 1], kept, landed, steps[n]);
  }

  /** In a boundary-closed run, a read right after recovery says exactly that prefix. */
  lemma RecoveredReads(states: seq<State>, steps: seq<Step>, n: nat, user: UserKey, t: Sequence)
    requires ClosedRun(states, steps) && n < |steps| && steps[n].ReopenStep?
    ensures |states| == |steps| + 1 && ReadsItsHistory(states[n + 1], user, t)
  {
    hide IsRun;
    hide Inv;
    hide Takes;
    hide EntriesIn;
    hide Lsm.ReadAt;
    hide Visible;
    RunShape(states, steps);
    TakenAt(states, steps, n);
    RunKeepsInv(states, steps, n, true);
    RunKeepsInv(states, steps, n + 1, true);
    ReopenedHistory(states[n], states[n + 1], steps[n], true);
    OpenReads(states[n + 1], user, t);
  }

  lemma CrashedDown(s: State, s': State, kept: nat, landed: bool)
    requires Takes(s, s', CrashStep(kept, landed))
    ensures s'.memory.None?
  {
  }

  lemma RecoveredPrefix(before: State, crashed: State, down: State, after: State, kept: nat, landed: bool, reopen: Step)
    requires Takes(before, crashed, CrashStep(kept, landed)) && down.memory.None? && down.groups == crashed.groups
    requires Inv(down, false) && Takes(down, after, reopen) && reopen.ReopenStep?
    ensures IsPrefix(before, kept, after)
  {
    hide Inv;
    hide Takes;
    hide EntriesIn;
    CrashedHistory(before, crashed, CrashStep(kept, landed));
    StepKeepsInv(down, after, reopen, false);
    ReopenedHistory(down, after, reopen, false);
    OpenHistory(after, false);
  }

  ghost predicate IsPrefix(before: State, kept: nat, after: State) {
    && before.memory.Some? && after.memory.Some? && before.memory.value.synced <= kept
       && before.sealed + kept <= |before.groups|
    && after.groups == before.groups[..before.sealed + kept]
       && after.memory.value.lsm.written == EntriesIn(after.groups)
    && forall e :: e in after.memory.value.lsm.written ==> e.key.sequence <= after.memory.value.lsm.lastSequence
  }

  /** A read at the last sequence returns what the surviving groups say. */
  ghost predicate ReadsItsHistory(s: State, user: UserKey, t: Sequence) {
    s.memory.Some? && t == s.memory.value.lsm.lastSequence ==>
      Lsm.ReadAt(s.memory.value.lsm, user, t) == Visible(EntriesIn(s.groups), user, t)
  }

  lemma CrashedHistory(s: State, s': State, step: Step)
    requires Takes(s, s', step) && step.CrashStep?
    ensures s.memory.Some? && s.sealed + step.kept <= |s.groups| && s.memory.value.synced <= step.kept
    ensures s'.memory.None? && s'.groups == s.groups[..s.sealed + step.kept]
  {
  }

  lemma ReopenedHistory(s: State, s': State, step: Step, closed: bool)
    requires Inv(s, closed) && Takes(s, s', step) && step.ReopenStep?
    ensures s'.memory.Some? && s'.memory.value.unapplied.None? && s'.groups == s.groups
  {
    hide OpenOk;
    hide Lsm.Inv;
    hide Lsm.Takes;
    hide RecordOk;
    hide TablesHold;
    hide GroupsOk;
    hide LogsComplete;
    hide TablesFit;
    ReplayedIsHistory(s, step.top, closed);
  }

  /** The memory of an open database has seen exactly the applied groups. */
  lemma OpenHistory(s: State, closed: bool)
    requires Inv(s, closed) && s.memory.Some?
    ensures var m := s.memory.value;
            && 0 <= Applied(s.groups, m.unapplied)
               && m.lsm.written == EntriesIn(s.groups[..Applied(s.groups, m.unapplied)])
            && (forall e :: e in m.lsm.written ==> e.key.sequence <= m.lsm.lastSequence)
            && (m.unapplied.None? ==> m.lsm.written == EntriesIn(s.groups))
  {
    hide RecordsOk;
    hide JobOk;
    hide InflightOk;
    hide LiveFilesOk;
    hide NewestLogOk;
    hide TreeOfGroups;
    hide GroupsOk;
    hide ShapeOk;
    hide Lsm.RecencyInv;
    assert s.groups[..|s.groups|] == s.groups;
  }

  /** In every reachable open state of a closed run reads return the history of applied groups. */
  lemma OpenReads(s: State, user: UserKey, t: Sequence)
    requires Inv(s, true) && s.memory.Some?
    ensures var m := s.memory.value;
            && 0 <= Applied(s.groups, m.unapplied)
               && m.lsm.written == EntriesIn(s.groups[..Applied(s.groups, m.unapplied)])
            && (t == m.lsm.lastSequence || t in m.lsm.snapshots
               ==> Lsm.ReadAt(m.lsm, user, t) == Visible(m.lsm.written, user, t))
            && (m.unapplied.None? ==> m.lsm.written == EntriesIn(s.groups))
  {
    OpenHistory(s, true);
    OpenIsInv(s);
    hide Inv;
    hide EntriesIn;
    var m := s.memory.value;
    hide ShapeOk;
    Lsm.GetReadsStored(m.lsm, user, t);
    if t == m.lsm.lastSequence || t in m.lsm.snapshots { Lsm.OldestIsLow(m.lsm, t); }
  }

  lemma OpenIsInv(s: State)
    requires Inv(s, true) && s.memory.Some?
    ensures Lsm.Inv(s.memory.value.lsm)
  {
    hide RecordsOk;
    hide JobOk;
    hide InflightOk;
    hide LiveFilesOk;
    hide NewestLogOk;
    hide TreeOfGroups;
    hide HistoryOk;
    hide Lsm.ShapeInv;
    hide Lsm.RecencyInv;
  }

  /** In every open state of every boundary-closed run with any number of crashes, reads return what the
      surviving applied groups say. */
  lemma ReadsSurvive(states: seq<State>, steps: seq<Step>, n: nat, user: UserKey, t: Sequence)
    requires ClosedRun(states, steps) && n < |states| && states[n].memory.Some?
    requires t == states[n].memory.value.lsm.lastSequence || t in states[n].memory.value.lsm.snapshots
    ensures 0 <= Applied(states[n].groups, states[n].memory.value.unapplied)
    ensures Lsm.ReadAt(states[n].memory.value.lsm, user, t) ==
            Visible(EntriesIn(states[n].groups[..Applied(states[n].groups, states[n].memory.value.unapplied)]), user, t)
  {
    hide Inv;
    RunKeepsInv(states, steps, n, true);
    OpenReads(states[n], user, t);
  }

  // ---------- garbage collection ----------

  /** Every table that a live version, a running compaction or the manifest names, every output in
      progress, and every log the manifest asks for. */
  ghost predicate NothingMissing(s: State, m: Memory) {
    && (forall v :: v in Live(m) ==> TablesHold(s.disk.tables, v)) && TablesHold(s.disk.tables, s.disk.record.version)
    && (s.disk.inflight.Some? ==> TablesHold(s.disk.tables, s.disk.inflight.value.version))
    && (m.lsm.running.Some? ==>
        forall f :: f in m.lsm.running.value.inputs.in0 + m.lsm.running.value.inputs.in1 ==> OnDisk(s.disk.tables, f))
    && m.pending <= s.disk.tables.Keys && s.disk.current in s.disk.manifests
    && s.disk.record.covered <= |s.groups|
    && Between(s.disk.logs, s.disk.record.logNumber, m.log + 1) == s.groups[s.disk.record.covered..]
  }

  /** Garbage collection, also in the middle of a compaction, never removes a file that is still needed. */
  lemma CollectionIsSafe(states: seq<State>, steps: seq<Step>, n: nat)
    requires IsRun(states, steps) && n < |states| && states[n].memory.Some?
    ensures NothingMissing(states[n], states[n].memory.value)
  {
    hide IsRun;
    hide OpenOk;
    hide NothingMissing;
    RunKeepsInv(states, steps, n, false);
    NothingIsMissing(states[n], states[n].memory.value, false);
  }

  lemma NothingIsMissing(s: State, m: Memory, closed: bool)
    requires OpenOk(s, m, closed)
    ensures NothingMissing(s, m)
  {
    hide Lsm.Ok;
    hide HistoryOk;
    hide TreeOfGroups;
    hide RecordOk;
    hide TablesHold;
    hide JobOk;
    CurrentOnDisk(s.disk.tables, m);
    if m.lsm.running.Some? { InputsOnDisk(s.disk.tables, m.lsm, closed); }
    NeededLogs(s.disk.logs, s.disk.record, m, s.groups, s.sealed);
  }

  lemma NeededLogs(logs: map<nat, Log>, r: Record, m: Memory, groups: seq<Group>, sealed: nat)
    requires LogsMatch(logs, r, m.log, groups, sealed) && NewestLogOk(logs, m, groups, sealed)
    ensures Between(logs, r.logNumber, m.log + 1) == groups[r.covered..]
  {
    BetweenEnds(logs, r.logNumber, m.log, m.log + 1);
    assert groups[r.covered..sealed] + groups[sealed..] == groups[r.covered..];
  }

  lemma InputsOnDisk(tables: map<nat, seq<Entry>>, lsm: Lsm.State, closed: bool)
    requires Lsm.Ok(lsm, closed) && TablesHold(tables, lsm.current) && lsm.running.Some?
    ensures forall f :: f in lsm.running.value.inputs.in0 + lsm.running.value.inputs.in1 ==> OnDisk(tables, f)
  {
    hide ShapeOk;
    hide Lsm.SameReads;
  }

  /** A recovery never finds a file missing, and new tables overwrite none that the manifest names. */
  lemma RecoverFindsEveryFile(states: seq<State>, steps: seq<Step>, n: nat)
    requires IsRun(states, steps) && n < |states| && states[n].memory.None?
    ensures TablesHold(states[n].disk.tables, states[n].disk.record.version)
    ensures forall k :: k in NumbersIn(states[n].disk.record.version) ==> k < states[n].disk.record.nextFile
    ensures states[n].disk.current in states[n].disk.manifests
            && states[n].disk.current != states[n].disk.record.nextFile
  {
    RunKeepsInv(states, steps, n, false);
    hide IsRun;
    hide RecordOk;
    RecordNumbers(states[n].disk.record, states[n].groups, false);
  }
}
