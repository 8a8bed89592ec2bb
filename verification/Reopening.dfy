/** A database that is down can be opened: whatever a run has left on disk, there is a way to replay it. */
module Reopening {
  import opened Options
  import opened InternalKeys
  import opened Files
  import opened Durability
  import opened DurableTrees
  import opened DurabilityInvariant
  import opened CrashRecovery
  import Lsm = LsmMachine
  import Progress

  lemma {:induction false} Bound(numbers: set<nat>, low: nat) returns (top: nat)
    ensures low <= top && forall n :: n in numbers ==> n < top
  {
    if numbers == {} {
      top := low;
    } else {
      var n :| n in numbers;
      top := Bound(numbers - {n}, low);
      if n >= top { top := n + 1; }
      forall m | m in numbers ensures m < top { assert m == n || m in numbers - {n}; }
    }
  }

  /** One table, or none if there is nothing to write. */
  lemma OneFits(groups: seq<Group>, from: nat, low: nat, f: Option<File>)
    requires from <= |groups|
    requires if EntriesIn(groups[from..]) == {} then f.None?
             else f.Some? && Held(f.value) == EntriesIn(groups[from..]) && low < f.value.number
    ensures TablesFit(groups, [from, |groups|], [f], low, if f.Some? then f.value.number + 1 else 0)
  {
    hide EntriesIn;
    hide Held;
    assert groups[from..|groups|] == groups[from..];
    assert Part(groups, [from, |groups|], 0) == groups[from..];
  }

  lemma FitsBelow(groups: seq<Group>, cuts: seq<nat>, files: seq<Option<File>>, low: nat, next: nat, next': nat)
    requires TablesFit(groups, cuts, files, low, next) && next <= next'
    ensures TablesFit(groups, cuts, files, low, next')
  {
    hide EntriesIn;
    hide Part;
    hide Held;
  }

  /** All replayed groups as one table. */
  lemma OneTable(groups: seq<Group>, from: nat, low: nat, number: nat)
    returns (cuts: seq<nat>, files: seq<Option<File>>)
    requires from <= |groups| && GroupsOk(groups) && low < number
    ensures TablesFit(groups, cuts, files, low, number + 1) && cuts[0] == from && cuts[|files|] == |groups|
  {
    PartIsIn(groups, from);
    var es := EntriesIn(groups[from..]);
    assert Unique(es);
    hide GroupsOk;
    hide EntriesIn;
    hide TablesFit;
    hide Unique;
    hide Held;
    var f: Option<File> := None;
    if es != {} {
      var table := Progress.TableHolds(number, es);
      f := Some(table);
    }
    cuts, files := [from, |groups|], [f];
    OneFits(groups, from, low, f);
    FitsBelow(groups, cuts, files, low, if f.Some? then f.value.number + 1 else 0, number + 1);
  }

  lemma PartIsIn(groups: seq<Group>, n: nat)
    requires n <= |groups|
    ensures EntriesIn(groups[n..]) <= EntriesIn(groups)
  {
    forall e | e in EntriesIn(groups[n..]) ensures e in EntriesIn(groups) {
      var i :| 0 <= i < |groups| - n && e in groups[n..][i];
      assert e in groups[n + i];
    }
  }

  lemma Opened(s: State, top: nat, cuts: seq<nat>, files: seq<Option<File>>) returns (s': State, step: Step)
    requires s.memory.None? && s.disk.record.covered <= |s.groups| && Replayed(s, top) == s.groups
    requires AllBelow(s.disk.logs, top) && s.disk.record.logNumber <= top && s.disk.record.nextFile < top
    requires TablesFit(s.groups, cuts, files, s.disk.record.nextFile, top + 2)
    requires cuts[0] == s.disk.record.covered && cuts[|files|] == |s.groups|
    ensures step.ReopenStep? && Takes(s, s', step)
  {
    hide TablesFit;
    hide Load;
    hide Written;
    hide Replayed;
    hide HighestSequence;
    hide EntriesIn;
    var r := s.disk.record;
    var v, last := Load(r.version, files), HighestSequence(s.groups[r.covered..], r.lastSequence);
    s' := State(
      Disk(s.disk.logs[top := []], Written(s.disk.tables, files), s.disk.manifests + {r.nextFile}, r.nextFile,
           Record(v, top, top + 2, last, |s.groups|), None),
      Some(Memory(Lsm.State({}, None, v, last, [], top + 2, None, EntriesIn(s.groups)), top, 0, None, None, {}, {},
                  false)),
      s.groups, |s.groups|);
    step := ReopenStep(top, cuts, files, top, top + 2);
  }

  /** In every run, a database that is down can be opened. */
  lemma ReopenIsPossible(states: seq<State>, steps: seq<Step>, n: nat) returns (s': State, step: Step)
    requires IsRun(states, steps) && n < |states| && states[n].memory.None?
    ensures step.ReopenStep? && Takes(states[n], s', step)
  {
    hide Takes;
    hide TablesFit;
    hide RecordOk;
    hide Replayed;
    hide TablesHold;
    hide Between;
    var s := states[n];
    RunKeepsInv(states, steps, n, false);
    hide IsRun;
    hide GroupsOk;
    var top := Bound(s.disk.logs.Keys, s.disk.record.logNumber + s.disk.record.nextFile + 1);
    ReplayedIsHistory(s, top, false);
    hide LogsComplete;
    var cuts, files := OneTable(s.groups, s.disk.record.covered, s.disk.record.nextFile, top + 1);
    s', step := Opened(s, top, cuts, files);
  }
}
