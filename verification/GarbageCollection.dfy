/** DeleteObsoleteFiles (db_impl.cc): one sweep over the names in the directory.  It leaves exactly the files that are
    still needed. */
module GarbageCollection {
  import opened Options
  import opened Files
  import opened Durability
  import opened DurableTrees
  import opened DurabilityInvariant
  import opened CrashRecovery
  import Lsm = LsmMachine

  /** A name in the directory, as ParseFileName reads it.  CURRENT, LOCK, the info log and foreign names are kept. */
  datatype Name = LogName(number: nat) | TableName(number: nat) | DescriptorName(number: nat) | OtherName

  /** AddLiveFiles, and the outputs still being written. */
  function LiveNumbers(m: Memory): set<nat> {
    m.pending + set v, n | v in Live(m) && n in NumbersIn(v) :: n
  }

  lemma LiveNumbersAreLive(m: Memory, n: nat)
    ensures n in LiveNumbers(m) <==> IsLive(m, n)
  {
  }

  /** Is the file kept? */
  predicate Keeps(s: State, m: Memory, name: Name) {
    match name
    case LogName(n) => n >= s.disk.record.logNumber
    case TableName(n) => n in LiveNumbers(m)
    case DescriptorName(n) => n >= s.disk.current
    case OtherName => true
  }

  /** The state without a file. */
  function Without(s: State, name: Name): State {
    match name
    case LogName(n) => s.(disk := s.disk.(logs := s.disk.logs - {n}))
    case TableName(n) => s.(disk := s.disk.(tables := s.disk.tables - {n}))
    case DescriptorName(n) => s.(disk := s.disk.(manifests := s.disk.manifests - {n}))
    case OtherName => s
  }

  /** What is left of the directory of `s` when these names have been looked at. */
  ghost predicate LeftBy(s: State, m: Memory, names: seq<Name>, t: State) {
    && t == s.(disk := s.disk.(logs := t.disk.logs, tables := t.disk.tables, manifests := t.disk.manifests))
    && t.disk.logs == (map n | n in s.disk.logs && (LogName(n) in names ==> n >= s.disk.record.logNumber) ::
                         s.disk.logs[n])
    && t.disk.tables == (map n | n in s.disk.tables && (TableName(n) in names ==> IsLive(m, n)) :: s.disk.tables[n])
    && t.disk.manifests == set n | n in s.disk.manifests && (DescriptorName(n) in names ==> n >= s.disk.current)
  }

  lemma NothingYet(s: State, m: Memory)
    ensures LeftBy(s, m, [], s)
  {
    hide IsLive;
    assert s.disk.logs == map n | n in s.disk.logs :: s.disk.logs[n];
    assert s.disk.tables == map n | n in s.disk.tables :: s.disk.tables[n];
  }

  lemma KeptNext(s: State, m: Memory, names: seq<Name>, name: Name, t: State)
    requires LeftBy(s, m, names, t) && Keeps(s, m, name)
    ensures LeftBy(s, m, names + [name], t)
  {
    if name.TableName? { LiveNumbersAreLive(m, name.number); }
    hide IsLive;
    hide LiveNumbers;
  }

  lemma DroppedNext(s: State, m: Memory, names: seq<Name>, name: Name, t: State)
    requires LeftBy(s, m, names, t) && !Keeps(s, m, name)
    ensures LeftBy(s, m, names + [name], Without(t, name))
  {
    if name.TableName? { LiveNumbersAreLive(m, name.number); }
    hide IsLive;
    hide LiveNumbers;
  }

  ghost predicate IsSweep(path: seq<State>, steps: seq<Step>) {
    && |path| == |steps| + 1
    && forall i {:trigger steps[i]} :: 0 <= i < |steps| ==>
         && Takes(path[i], path[i + 1], steps[i])
         && (steps[i].DeleteLogStep? || steps[i].DeleteTableStep? || steps[i].DeleteManifestStep?)
  }

  lemma DropIsStep(s: State, m: Memory, name: Name, path: seq<State>, steps: seq<Step>) returns (step: Step)
    requires s.memory == Some(m) && m.job.None? && !m.failed && !Keeps(s, m, name)
    requires IsSweep(path, steps) && path[|steps|] == s
    ensures IsSweep(path + [Without(s, name)], steps + [step])
  {
    if name.TableName? { LiveNumbersAreLive(m, name.number); }
    hide LiveNumbers;
    hide IsLive;
    step := match name
      case LogName(n) => DeleteLogStep(n)
      case TableName(n) => DeleteTableStep(n)
      case DescriptorName(n) => DeleteManifestStep(n)
      case OtherName => SyncStep;
    assert Takes(s, Without(s, name), step);
    hide Takes;
  }

  lemma KeepsSame(s: State, m: Memory, names: seq<Name>, name: Name, t: State)
    requires LeftBy(s, m, names, t)
    ensures Keeps(t, m, name) == Keeps(s, m, name)
  {
    hide LiveNumbers;
  }

  method DeleteObsoleteFiles(s: State, names: seq<Name>)
    returns (s': State, ghost path: seq<State>, ghost steps: seq<Step>)
    requires s.memory.Some? && s.memory.value.job.None?
    ensures if s.memory.value.failed then s' == s else LeftBy(s, s.memory.value, names, s')
    ensures IsSweep(path, steps) && path[0] == s && path[|steps|] == s'
  {
    hide Keeps;
    hide Takes;
    hide IsLive;
    hide LiveNumbers;
    var m := s.memory.value;
    s', path, steps := s, [s], [];
    if m.failed {
      return;
    }
    NothingYet(s, m);
    for i := 0 to |names|
      invariant s'.memory == s.memory && LeftBy(s, m, names[..i], s')
      invariant IsSweep(path, steps) && path[0] == s && path[|steps|] == s'
    {
      var name := names[i];
      assert names[..i + 1] == names[..i] + [name];
      KeepsSame(s, m, names[..i], name, s');
      if Keeps(s', m, name) {
        KeptNext(s, m, names[..i], name, s');
      } else {
        DroppedNext(s, m, names[..i], name, s');
        ghost var step := DropIsStep(s', m, name, path, steps);
        s', path, steps := Without(s', name), path + [Without(s', name)], steps + [step];
      }
    }
    assert names[..|names|] == names;
  }

  // ---------- what is left ----------

  ghost predicate Lists(names: seq<Name>, disk: Disk) {
    && (forall n :: n in disk.logs ==> LogName(n) in names)
    && (forall n :: n in disk.tables ==> TableName(n) in names)
    && (forall n :: n in disk.manifests ==> DescriptorName(n) in names)
  }

  /** No manifest is newer than the current one, except what an interrupted recovery has left. */
  ghost predicate ManifestsOld(s: State) {
    forall k :: k in s.disk.manifests ==> k <= s.disk.current || (s.memory.None? && k == s.disk.record.nextFile)
  }

  lemma {:induction false} ManifestsAreOld(states: seq<State>, steps: seq<Step>, n: nat)
    requires IsRun(states, steps) && n < |states|
    ensures ManifestsOld(states[n])
  {
    hide Takes;
    hide Inv;
    hide ManifestsOld;
    if n == 0 {
      FirstIsOld(states, steps);
    } else {
      ManifestsAreOld(states, steps, n - 1);
      hide IsRun;
      RunShape(states, steps);
      TakenAt(states, steps, n - 1);
      RunKeepsInv(states, steps, n - 1, false);
      ManifestsNext(states[n - 1], states[n], steps[n - 1]);
    }
  }

  lemma FirstIsOld(states: seq<State>, steps: seq<Step>)
    requires IsRun(states, steps)
    ensures states != [] && ManifestsOld(states[0])
  {
    hide Takes;
  }

  lemma ManifestsNext(s: State, s': State, step: Step)
    requires Takes(s, s', step) && Inv(s, false) && ManifestsOld(s)
    ensures ManifestsOld(s')
  {
    hide OpenOk;
    hide ManifestsOld;
    if step.ReopenStep? {
      Reopened(s, s', step);
      DownIsOk(s);
      hide Takes;
      hide Inv;
      ReopenedOld(s, s');
    } else if IsLeftover(step) {
      LeftoverOld(s, s', step);
    } else {
      hide Inv;
      OpenOld(s, s.memory.value, s', step);
    }
  }

  lemma DownIsOk(s: State)
    requires Inv(s, false) && s.memory.None?
    ensures s.disk.current < s.disk.record.nextFile
  {
    hide RecordOk;
    hide LogsComplete;
    hide TablesHold;
    hide GroupsOk;
  }

  lemma ReopenedOld(s: State, s': State)
    requires ManifestsOld(s) && s.disk.current < s.disk.record.nextFile
    requires s'.disk.current == s.disk.record.nextFile
    requires s'.disk.manifests == s.disk.manifests + {s.disk.record.nextFile}
    ensures ManifestsOld(s')
  {
  }

  lemma LeftoverOld(s: State, s': State, step: Step)
    requires Takes(s, s', step) && IsLeftover(step) && ManifestsOld(s)
    ensures ManifestsOld(s')
  {
  }

  lemma OpenOld(s: State, m: Memory, s': State, step: Step)
    requires s.memory == Some(m) && OpenStep(s, m, s', step) && ManifestsOld(s)
    ensures ManifestsOld(s')
  {
    hide Enabled;
    hide RecordOf;
    hide AfterEdit;
    hide IsLive;
    hide Lsm.Write;
    hide Lsm.SwitchMemtable;
    hide Lsm.StartCompaction;
    hide Lsm.AbandonCompaction;
  }

  lemma Reopened(s: State, s': State, step: Step)
    requires Takes(s, s', step) && step.ReopenStep?
    ensures s.memory.None? && s'.disk.current == s.disk.record.nextFile
    ensures s'.disk.manifests == s.disk.manifests + {s.disk.record.nextFile}
  {
    hide TablesFit;
    hide Replayed;
    hide Load;
    hide Written;
  }

  /** The directory holds exactly what is needed: the tables that a live version names or that are being written,
      with all their contents, the manifest in use, and the logs from the log number on. */
  ghost predicate NothingElse(s: State, m: Memory) {
    && NothingMissing(s, m)
    && (forall n :: n in s.disk.tables <==> IsLive(m, n))
    && s.disk.manifests == {s.disk.current}
    && (forall n :: n in s.disk.logs ==> n >= s.disk.record.logNumber)
  }

  lemma {:induction false} SweepKeepsInv(path: seq<State>, steps: seq<Step>, n: nat)
    requires IsSweep(path, steps) && Inv(path[0], false) && n < |path|
    ensures Inv(path[n], false)
  {
    hide Inv;
    hide Takes;
    if n > 0 {
      SweepKeepsInv(path, steps, n - 1);
      StepKeepsInv(path[n - 1], path[n], steps[n - 1], false);
    }
  }

  lemma LiveIsOnDisk(s: State, m: Memory, n: nat)
    requires NothingMissing(s, m) && IsLive(m, n)
    ensures n in s.disk.tables
  {
    if n !in m.pending {
      var v :| v in Live(m) && n in NumbersIn(v);
      var l, f: File :| 0 <= l < NUM_LEVELS && f in v[l] && f.number == n;
      assert TablesHold(s.disk.tables, v) && OnDisk(s.disk.tables, f);
    }
  }

  lemma LeftIsNeeded(s: State, m: Memory, names: seq<Name>, t: State)
    requires LeftBy(s, m, names, t) && Lists(names, s.disk) && ManifestsOld(s) && s.memory == Some(m)
    requires NothingMissing(t, m)
    ensures NothingElse(t, m)
  {
    hide IsLive;
    forall n ensures n in t.disk.tables <==> IsLive(m, n) {
      if IsLive(m, n) { LiveIsOnDisk(t, m, n); }
    }
    hide NothingMissing;
  }

  /** A sweep in any reachable state leaves the directory with exactly what is needed. */
  lemma CollectionIsExact(states: seq<State>, steps: seq<Step>, n: nat, names: seq<Name>, t: State,
                          path: seq<State>, sweep: seq<Step>)
    requires IsRun(states, steps) && n < |states| && states[n].memory.Some?
    requires Lists(names, states[n].disk) && LeftBy(states[n], states[n].memory.value, names, t)
    requires IsSweep(path, sweep) && path[0] == states[n] && path[|sweep|] == t
    ensures t.memory == states[n].memory && NothingElse(t, t.memory.value)
  {
    hide IsRun;
    hide Inv;
    hide IsSweep;
    hide LeftBy;
    hide Lists;
    hide ManifestsOld;
    hide NothingMissing;
    hide NothingElse;
    SweptShape(path, sweep);
    RunKeepsInv(states, steps, n, false);
    SweepKeepsInv(path, sweep, |sweep|);
    ManifestsAreOld(states, steps, n);
    MemoryStays(states[n], states[n].memory.value, names, t);
    OpenIsOk(t);
    NothingIsMissing(t, t.memory.value, false);
    LeftIsNeeded(states[n], states[n].memory.value, names, t);
  }

  lemma SweptShape(path: seq<State>, steps: seq<Step>)
    requires IsSweep(path, steps)
    ensures |path| == |steps| + 1
  {
    hide Takes;
  }

  lemma MemoryStays(s: State, m: Memory, names: seq<Name>, t: State)
    requires LeftBy(s, m, names, t)
    ensures t.memory == s.memory
  {
    hide IsLive;
  }

  lemma OpenIsOk(s: State)
    requires Inv(s, false) && s.memory.Some?
    ensures OpenOk(s, s.memory.value, false)
  {
    hide OpenOk;
  }
}
