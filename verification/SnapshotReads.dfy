/** Snapshots and the moments they were taken.  In every state of every boundary-closed run, a read at a snapshot
    that is still held returns the last write before the snapshot was taken, and a read at the latest sequence the
    last write of all. */
module SnapshotReads {
  import opened Options
  import opened InternalKeys
  import opened LastWrites
  import opened LsmMachine
  import DbIterators

  // ---------- the history of a run ----------

  /** All writes of the steps, in order. */
  function Writes(steps: seq<Step>): seq<Entry> {
    if steps == [] then []
    else
      var n := |steps| - 1;
      Writes(steps[..n]) + if steps[n].WriteStep? then steps[n].group else []
  }

  /** The sequence numbers of a history count its writes from one. */
  ghost predicate Counted(writes: seq<Entry>) {
    forall i :: 0 <= i < |writes| ==> writes[i].key.sequence == i + 1
  }

  lemma StepWrites(s: State, s': State, step: Step, writes: seq<Entry>)
    requires Takes(s, s', step) && Counted(writes) && s.written == SetOf(writes) && s.lastSequence == |writes|
    ensures var more := writes + if step.WriteStep? then step.group else [];
            Counted(more) && s'.written == SetOf(more) && s'.lastSequence == |more|
  {
    hide Flush;
    hide InstallCompaction;
    hide StartCompaction;
    hide TrivialMove;
    if step.WriteStep? {
      WrittenMore(writes, step.group);
    } else {
      assert writes + [] == writes;
      Untouched(s, s', step);
    }
  }

  lemma WrittenMore(writes: seq<Entry>, group: seq<Entry>)
    ensures SetOf(writes + group) == SetOf(writes) + SetOf(group)
  {
  }

  lemma Untouched(s: State, s': State, step: Step)
    requires Takes(s, s', step) && !step.WriteStep?
    ensures s'.written == s.written && s'.lastSequence == s.lastSequence
  {
  }

  /** In every run, the history is what the steps wrote, each write once, at its place in the order. */
  lemma {:induction false} HistoryIsTheWrites(states: seq<State>, steps: seq<Step>, n: nat)
    requires IsRun(states, steps) && n < |states|
    ensures Counted(Writes(steps[..n])) && states[n].written == SetOf(Writes(steps[..n]))
    ensures states[n].lastSequence == |Writes(steps[..n])|
  {
    hide Takes;
    if n > 0 {
      HistoryIsTheWrites(states, steps, n - 1);
      assert steps[..n][..n - 1] == steps[..n - 1];
      StepWrites(states[n - 1], states[n], steps[n - 1], Writes(steps[..n - 1]));
    }
  }

  lemma {:induction false} EarlierWrites(steps: seq<Step>, i: nat, n: nat)
    requires i <= n <= |steps|
    ensures Writes(steps[..i]) <= Writes(steps[..n])
    decreases n
  {
    if i < n {
      EarlierWrites(steps, i, n - 1);
      assert steps[..n][..n - 1] == steps[..n - 1];
    }
  }

  // ---------- which snapshots are held ----------

  /** The steps that took the snapshots still held, oldest first.  A release names a snapshot by its place in the
      list. */
  function Holders(steps: seq<Step>): seq<nat> {
    if steps == [] then []
    else
      var n := |steps| - 1;
      var before := Holders(steps[..n]);
      match steps[n]
      case SnapshotStep => before + [n]
      case ReleaseStep(k) => if k < |before| then before[..k] + before[k + 1..] else before
      case _ => before
  }

  lemma {:induction false} HoldersAreInOrder(steps: seq<Step>)
    ensures forall k :: 0 <= k < |Holders(steps)| ==> Holders(steps)[k] < |steps| &&
                                                      steps[Holders(steps)[k]].SnapshotStep?
    ensures forall j, k :: 0 <= j < k < |Holders(steps)| ==> Holders(steps)[j] < Holders(steps)[k]
  {
    if steps != [] { HoldersAreInOrder(steps[..|steps| - 1]); }
  }

  lemma Places(a: seq<nat>, k: nat, x: nat)
    requires k < |a| && forall i, j :: 0 <= i < j < |a| ==> a[i] < a[j]
    ensures x in a[..k] + a[k + 1..] <==> x in a && x != a[k]
  {
    var rest := a[..k] + a[k + 1..];
    if x in rest {
      var i :| 0 <= i < |rest| && rest[i] == x;
      assert x == a[if i < k then i else i + 1];
    }
    if x in a && x != a[k] {
      var i :| 0 <= i < |a| && a[i] == x;
      assert rest[if i < k then i else i - 1] == x;
    }
  }

  /** Step m releases the snapshot that step i took. */
  ghost predicate Releases(steps: seq<Step>, m: nat, i: nat) {
    && m < |steps| && steps[m].ReleaseStep?
    && var held := Holders(steps[..m]);
       steps[m].index < |held| && held[steps[m].index] == i
  }

  /** A release takes out the snapshot released, and all others stay held. */
  lemma ReleaseIsExact(steps: seq<Step>, n: nat, i: nat)
    requires n < |steps| && steps[n].ReleaseStep?
    ensures i in Holders(steps[..n + 1]) <==> i in Holders(steps[..n]) && !Releases(steps, n, i)
  {
    assert steps[..n + 1][..n] == steps[..n];
    HoldersAreInOrder(steps[..n]);
    var held, k := Holders(steps[..n]), steps[n].index;
    if k < |held| { Places(held, k, i); }
  }

  /** A snapshot is held from the step that takes it until a step that releases it. */
  lemma {:induction false} HeldUntilReleased(steps: seq<Step>, i: nat, n: nat)
    requires n <= |steps|
    ensures i in Holders(steps[..n]) <==>
            i < n && steps[i].SnapshotStep? && forall m :: i < m < n ==> !Releases(steps, m, i)
    decreases n
  {
    hide Releases;
    if n > 0 {
      HeldUntilReleased(steps, i, n - 1);
      assert steps[..n][..n - 1] == steps[..n - 1];
      if steps[n - 1].ReleaseStep? {
        ReleaseIsExact(steps, n - 1, i);
      } else {
        NoRelease(steps, n - 1, i);
      }
    }
  }

  lemma NoRelease(steps: seq<Step>, m: nat, i: nat)
    requires m < |steps| && !steps[m].ReleaseStep?
    ensures !Releases(steps, m, i)
  {
  }

  /** The numbers in the list are those of the moments the snapshots were taken. */
  lemma {:induction false} NumbersAreTheirs(states: seq<State>, steps: seq<Step>, n: nat)
    requires IsRun(states, steps) && n < |states|
    ensures |states[n].snapshots| == |Holders(steps[..n])|
    ensures forall k :: 0 <= k < |states[n].snapshots| ==>
                          Holders(steps[..n])[k] < n &&
                          states[n].snapshots[k] == states[Holders(steps[..n])[k]].lastSequence
  {
    hide Takes;
    if n > 0 {
      NumbersAreTheirs(states, steps, n - 1);
      assert steps[..n][..n - 1] == steps[..n - 1];
      SnapshotsNext(states[n - 1], states[n], steps[n - 1]);
    }
  }

  lemma SnapshotsNext(s: State, s': State, step: Step)
    requires Takes(s, s', step)
    ensures match step
            case SnapshotStep => s'.snapshots == s.snapshots + [s.lastSequence]
            case ReleaseStep(k) => k < |s.snapshots| && s'.snapshots == s.snapshots[..k] + s.snapshots[k + 1..]
            case _ => s'.snapshots == s.snapshots
  {
  }

  // ---------- reads ----------

  lemma RisingWrites(writes: seq<Entry>)
    requires Counted(writes)
    ensures Rising(writes) && forall i :: 0 <= i < |writes| ==> writes[i].key.sequence <= |writes|
  {
  }

  /** What a reader at the number of an earlier moment sees is the last write before that moment. */
  lemma VisibleThen(states: seq<State>, steps: seq<Step>, i: nat, n: nat, user: UserKey)
    requires IsRun(states, steps) && i <= n < |states|
    ensures Visible(states[n].written, user, states[i].lastSequence) == LastWrite(Writes(steps[..i]), user)
  {
    hide Takes;
    hide Visible;
    var before, all := Writes(steps[..i]), Writes(steps[..n]);
    HistoryIsTheWrites(states, steps, i);
    HistoryIsTheWrites(states, steps, n);
    EarlierWrites(steps, i, n);
    RisingWrites(all);
    RisingWrites(before);
    RisingIsUnique(all);
    WrittenMore(before, all[|before|..]);
    assert before + all[|before|..] == all;
    LastWriteIsVisible(before, user, |before|);
    LaterIsInvisible(SetOf(before), SetOf(all[|before|..]), user, |before|);
  }

  /** A read at the latest sequence returns the last write of the run. */
  lemma LatestReads(states: seq<State>, steps: seq<Step>, n: nat, user: UserKey)
    requires ClosedRun(states, steps) && n < |states|
    ensures ReadAt(states[n], user, states[n].lastSequence) == LastWrite(Writes(steps[..n]), user)
  {
    ReadsAreExact(states, steps, n, user, states[n].lastSequence);
    VisibleThen(states, steps, n, n, user);
  }

  /** A read at a held snapshot returns the last write before the step that took it, whatever was written,
      flushed, compacted or released since. */
  lemma SnapshotReads(states: seq<State>, steps: seq<Step>, n: nat, k: nat, user: UserKey)
    requires ClosedRun(states, steps) && n < |states| && k < |Holders(steps[..n])|
    ensures k < |states[n].snapshots| && Holders(steps[..n])[k] < n
    ensures ReadAt(states[n], user, states[n].snapshots[k]) ==
            LastWrite(Writes(steps[..Holders(steps[..n])[k]]), user)
  {
    hide ReadAt;
    NumbersAreTheirs(states, steps, n);
    ReadsAreExact(states, steps, n, user, states[n].snapshots[k]);
    VisibleThen(states, steps, Holders(steps[..n])[k], n, user);
  }

  /** So does an iterator at a held snapshot: it walks the keys whose last write before then is not a deletion. */
  lemma SnapshotScans(states: seq<State>, steps: seq<Step>, n: nat, k: nat, merged: seq<Entry>, user: UserKey,
                      value: Bytes)
    requires ClosedRun(states, steps) && n < |states| && k < |Holders(steps[..n])|
    requires Sorted(merged) && SetOf(merged) == Stored(states[n])
    ensures k < |states[n].snapshots| && Holders(steps[..n])[k] < n
    ensures (user, value) in DbIterators.Map(merged, states[n].snapshots[k]) <==>
            LastWrite(Writes(steps[..Holders(steps[..n])[k]]), user) == Some(value)
  {
    hide Stored;
    hide Sorted;
    NumbersAreTheirs(states, steps, n);
    ScansAreExact(states, steps, n, merged, user, value, states[n].snapshots[k]);
    VisibleThen(states, steps, Holders(steps[..n])[k], n, user);
  }
}
