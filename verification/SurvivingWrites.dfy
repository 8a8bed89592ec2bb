/** Writes that outlive crashes.  What was synced once stays in every later state, through any number of crashes and
    recoveries, and a read in an open database returns the last write among those that are left. */
module SurvivingWrites {
  import opened Options
  import opened InternalKeys
  import opened LastWrites
  import opened Durability
  import opened DurableTrees
  import opened DurabilityInvariant
  import opened CrashRecovery
  import Lsm = LsmMachine

  // ---------- how the history of groups changes ----------

  /** The groups that no crash can take away: those of older logs and the synced ones of the current log. */
  function Safe(s: State): nat {
    if s.memory.Some? then s.sealed + s.memory.value.synced else |s.groups|
  }

  /** Logging adds one group, a crash leaves a prefix with all safe groups, and nothing else changes the history. */
  lemma GroupsChange(s: State, s': State, step: Step)
    requires Inv(s, false) && Takes(s, s', step)
    ensures match step
            case LogStep(group) => s'.groups == s.groups + [group]
            case CrashStep(kept, _) => s'.groups <= s.groups && Safe(s) <= |s'.groups|
            case _ => s'.groups == s.groups
  {
    hide Inv;
    hide OpenStep;
    hide Safe;
    hide Reopen;
    match step
    case ReopenStep(_, _, _, _, _) => ReopenedHistory(s, s', step, false);
    case LeaveTableStep(_, _) => LeftoverStep(s, s', step);
    case LeaveLogStep(_) => LeftoverStep(s, s', step);
    case LeaveManifestStep => LeftoverStep(s, s', step);
    case _ => OpenGroups(s, s.memory.value, s', step);
  }

  lemma OpenGroups(s: State, m: Memory, s': State, step: Step)
    requires s.memory == Some(m) && OpenStep(s, m, s', step)
    ensures match step
            case LogStep(group) => s'.groups == s.groups + [group]
            case CrashStep(kept, _) => s'.groups <= s.groups && Safe(s) <= |s'.groups|
            case _ => s'.groups == s.groups
  {
    hide Enabled;
    hide Lsm.Write;
    hide Lsm.SwitchMemtable;
    hide Lsm.StartCompaction;
    hide Lsm.AbandonCompaction;
    hide RecordOf;
    hide IsLive;
  }

  /** What is safe stays safe, and syncing makes everything logged so far safe. */
  lemma SafeGrows(s: State, s': State, step: Step)
    requires Inv(s, false) && Takes(s, s', step)
    ensures Safe(s) <= |s.groups| && Safe(s) <= Safe(s')
    ensures step.SyncStep? ==> Safe(s') == |s.groups|
  {
    hide Inv;
    hide OpenStep;
    hide Safe;
    hide Reopen;
    SafeIsPart(s);
    GroupsChange(s, s', step);
    match step
    case ReopenStep(_, _, _, _, _) => ReopenedSafe(s, s', step);
    case LeaveTableStep(_, _) => LeftoverSafe(s, s', step);
    case LeaveLogStep(_) => LeftoverSafe(s, s', step);
    case LeaveManifestStep => LeftoverSafe(s, s', step);
    case _ => OpenSafe(s, s.memory.value, s', step);
  }

  lemma LeftoverSafe(s: State, s': State, step: Step)
    requires Takes(s, s', step) && IsLeftover(step)
    ensures Safe(s') == |s'.groups|
  {
    hide Takes;
    LeftoverStep(s, s', step);
  }

  lemma SafeIsPart(s: State)
    requires Inv(s, false)
    ensures Safe(s) <= |s.groups|
    ensures s.memory.Some? ==>
              var m := s.memory.value;
              && m.log in s.disk.logs && s.sealed <= |s.groups| && s.disk.logs[m.log] == s.groups[s.sealed..]
  {
    hide HistoryOk;
    hide RecordsOk;
    hide JobOk;
    hide InflightOk;
    hide LiveFilesOk;
    hide TreeOfGroups;
    hide Lsm.Ok;
  }

  lemma ReopenedSafe(s: State, s': State, step: Step)
    requires Takes(s, s', step) && step.ReopenStep? && s'.groups == s.groups
    ensures Safe(s') == |s.groups|
  {
    hide TablesFit;
    hide Replayed;
    hide Written;
    hide Load;
  }

  lemma OpenSafe(s: State, m: Memory, s': State, step: Step)
    requires s.memory == Some(m) && OpenStep(s, m, s', step) && Safe(s) <= |s.groups|
    requires m.log in s.disk.logs && s.sealed <= |s.groups| && s.disk.logs[m.log] == s.groups[s.sealed..]
    requires step.CrashStep? ==> Safe(s) <= |s'.groups|
    ensures Safe(s) <= Safe(s') && (step.SyncStep? ==> Safe(s') == |s.groups|)
  {
    hide Enabled;
    hide Lsm.Write;
    hide Lsm.SwitchMemtable;
    hide Lsm.StartCompaction;
    hide Lsm.AbandonCompaction;
    hide RecordOf;
    hide IsLive;
  }

  lemma {:induction false} SafeStays(states: seq<State>, steps: seq<Step>, i: nat, n: nat)
    requires IsRun(states, steps) && i <= n < |states|
    ensures Safe(states[i]) <= |states[i].groups| && Safe(states[i]) <= Safe(states[n]) <= |states[n].groups|
    ensures states[i].groups[..Safe(states[i])] <= states[n].groups
    decreases n
  {
    hide Takes;
    hide Inv;
    hide Safe;
    hide Init;
    RunKeepsInv(states, steps, n, false);
    SafeIsPart(states[n]);
    if i < n {
      SafeStays(states, steps, i, n - 1);
      RunKeepsInv(states, steps, n - 1, false);
      TakenAt(states, steps, n - 1);
      GroupsChange(states[n - 1], states[n], steps[n - 1]);
      SafeGrows(states[n - 1], states[n], steps[n - 1]);
    }
  }

  /** A sync is forever: all groups logged before it are in every later state, whatever crashes in between. */
  lemma SyncedSurvives(states: seq<State>, steps: seq<Step>, i: nat, n: nat)
    requires IsRun(states, steps) && i < |steps| && steps[i].SyncStep? && i < n < |states|
    ensures states[i].groups <= states[n].groups
  {
    hide Takes;
    hide Inv;
    hide Safe;
    hide Init;
    RunKeepsInv(states, steps, i, false);
    TakenAt(states, steps, i);
    GroupsChange(states[i], states[i + 1], steps[i]);
    SafeGrows(states[i], states[i + 1], steps[i]);
    SafeStays(states, steps, i + 1, n);
  }

  // ---------- reads ----------

  /** The writes of groups, in order. */
  function Join(groups: seq<Group>): seq<Entry> {
    if groups == [] then [] else Join(groups[..|groups| - 1]) + groups[|groups| - 1]
  }

  ghost predicate EachRises(groups: seq<Group>) {
    forall i {:trigger groups[i]} :: 0 <= i < |groups| ==> Rising(groups[i])
  }

  lemma {:induction false} JoinHolds(groups: seq<Group>)
    ensures SetOf(Join(groups)) == EntriesIn(groups)
  {
    if groups != [] {
      var n := |groups| - 1;
      JoinHolds(groups[..n]);
      EntriesOfPart(groups, n, n + 1);
      assert groups[..n + 1] == groups && groups[n..n + 1] == [groups[n]];
      OneGroupHolds(groups[n]);
    }
  }

  lemma OneGroupHolds(group: Group)
    ensures EntriesIn([group]) == SetOf(group)
  {
    forall e | e in group ensures e in EntriesIn([group]) { assert e in [group][0]; }
  }

  lemma {:induction false} JoinRises(groups: seq<Group>)
    requires GroupsOk(groups) && EachRises(groups)
    ensures Rising(Join(groups))
  {
    if groups != [] {
      var n := |groups| - 1;
      PrefixIsOk(groups, n);
      JoinRises(groups[..n]);
      JoinHolds(groups[..n]);
      RisesOn(Join(groups[..n]), groups, n);
    }
  }

  lemma RisesOn(before: seq<Entry>, groups: seq<Group>, n: nat)
    requires n < |groups| && GroupsOk(groups) && Rising(groups[n]) && Rising(before)
    requires SetOf(before) == EntriesIn(groups[..n])
    ensures Rising(before + groups[n])
  {
    hide GroupsOk;
    hide EntriesIn;
    PartIsNewer(groups, n, n + 1);
    OneGroupHolds(groups[n]);
    assert groups[n..n + 1] == [groups[n]];
    var all := before + groups[n];
    forall i, j | 0 <= i < j < |all| ensures all[i].key.sequence < all[j].key.sequence {
      if i < |before| <= j { assert all[i] in SetOf(before) && all[j] in SetOf(groups[n]); }
    }
  }

  lemma {:induction false} GroupsRise(states: seq<State>, steps: seq<Step>, n: nat)
    requires IsRun(states, steps) && n < |states|
    ensures EachRises(states[n].groups)
  {
    hide IsRun;
    hide Takes;
    hide Inv;
    hide EachRises;
    RunShape(states, steps);
    if n == 0 {
      NothingRises(states, steps);
    } else {
      GroupsRise(states, steps, n - 1);
      RunKeepsInv(states, steps, n - 1, false);
      TakenAt(states, steps, n - 1);
      GroupsRiseNext(states[n - 1], states[n], steps[n - 1]);
    }
  }

  lemma GroupsRiseNext(s: State, s': State, step: Step)
    requires Inv(s, false) && Takes(s, s', step) && EachRises(s.groups)
    ensures EachRises(s'.groups)
  {
    hide Takes;
    hide Inv;
    hide Rising;
    GroupsChange(s, s', step);
    if step.LogStep? { LoggedRises(s, s', step); }
  }

  lemma NothingRises(states: seq<State>, steps: seq<Step>)
    requires IsRun(states, steps)
    ensures states != [] && EachRises(states[0].groups)
  {
    hide Takes;
    hide Rising;
  }

  lemma LoggedRises(s: State, s': State, step: Step)
    requires Takes(s, s', step) && step.LogStep?
    ensures Rising(step.group)
  {
  }

  /** In every open state of every boundary-closed run, with any crashes before it, a read at the latest sequence
      returns the last write among the groups that survived and are applied. */
  lemma ReadsAreLastWrites(states: seq<State>, steps: seq<Step>, n: nat, user: UserKey)
    requires ClosedRun(states, steps) && n < |states| && states[n].memory.Some?
    ensures var m := states[n].memory.value;
            && 0 <= Applied(states[n].groups, m.unapplied)
            && Lsm.ReadAt(m.lsm, user, m.lsm.lastSequence) ==
               LastWrite(Join(states[n].groups[..Applied(states[n].groups, m.unapplied)]), user)
  {
    hide Takes;
    hide Inv;
    hide Closes;
    hide Rising;
    hide Visible;
    hide Init;
    var s, m := states[n], states[n].memory.value;
    RunKeepsInv(states, steps, n, true);
    OpenHistory(s, true);
    OpenReads(s, user, m.lsm.lastSequence);
    GroupsRise(states, steps, n);
    var applied := s.groups[..Applied(s.groups, m.unapplied)];
    HistoryIsOk(s);
    PrefixIsOk(s.groups, |applied|);
    JoinRises(applied);
    JoinHolds(applied);
    AllBelowLast(Join(applied), m.lsm.written, m.lsm.lastSequence);
    LastWriteIsVisible(Join(applied), user, m.lsm.lastSequence);
  }

  lemma AllBelowLast(writes: seq<Entry>, written: set<Entry>, last: Sequence)
    requires SetOf(writes) == written && forall e :: e in written ==> e.key.sequence <= last
    ensures forall i :: 0 <= i < |writes| ==> writes[i].key.sequence <= last
  {
    forall i | 0 <= i < |writes| ensures writes[i].key.sequence <= last { assert writes[i] in SetOf(writes); }
  }

  lemma HistoryIsOk(s: State)
    requires Inv(s, true) && s.memory.Some?
    ensures GroupsOk(s.groups)
  {
    hide RecordsOk;
    hide JobOk;
    hide InflightOk;
    hide LiveFilesOk;
    hide NewestLogOk;
    hide TreeOfGroups;
    hide Lsm.Ok;
    hide GroupsOk;
  }
}
