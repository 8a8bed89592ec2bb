/** Runs in which no snapshot is held when a compaction starts.  There, files below level 0 never share
    a user key, so no boundary file can be left behind and every read is exact without a hypothesis. */
module QuietRuns {
  import opened Options
  import opened InternalKeys
  import opened Files
  import opened PointLookup
  import opened InputSelection
  import opened VersionBuilder
  import opened CompactionWork
  import opened TreeSteps
  import opened LsmMachine

  ghost predicate KeysApart(f: Table, g: Table) { f.largest.user < g.smallest.user || g.largest.user < f.smallest.user }

  ghost predicate LevelKeysApart(files: seq<File>) {
    forall f, g {:trigger KeysApart(f, g)} :: f in files && g in files && f != g ==> KeysApart(f, g)
  }

  ghost predicate TreeKeysApart(v: Version) {
    forall l :: 1 <= l < NUM_LEVELS ==> LevelKeysApart(v[l])
  }

  ghost predicate KeysBeside(g: File, files: seq<File>) {
    (forall f :: f in files ==> f.largest.user < g.smallest.user)
        || (forall f :: f in files ==> g.largest.user < f.smallest.user)
  }

  ghost predicate RestKeysBeside(v: Version, c: Inputs)
    requires c.level + 1 < NUM_LEVELS
  {
    forall g {:trigger KeysBeside(g, c.in0 + c.in1)} :: g in v[c.level + 1] && g !in c.in1
        ==> KeysBeside(g, c.in0 + c.in1)
  }

  /** Every input is visible at the bound of the compaction, and what stays on its output level shares
      no user key with the span of its inputs. */
  ghost predicate QuietRunning(v: Version, r: Running)
    requires r.inputs.level + 1 < NUM_LEVELS
  {
    && (forall e :: e in InputEntries(r.inputs) ==> e.key.sequence <= r.smallest)
    && RestKeysBeside(v, r.inputs)
  }

  ghost predicate QuietInv(s: State) {
    && TreeKeysApart(s.current)
    && (s.running.Some? ==> s.running.value.inputs.level + 1 < NUM_LEVELS && QuietRunning(s.current, s.running.value))
  }

  ghost predicate Quiet(s: State, step: Step) { step.StartStep? ==> s.snapshots == [] }

  lemma ApartHasNoBoundary(files: seq<File>, chosen: seq<File>)
    requires LevelKeysApart(files) && forall f :: f in chosen ==> f in files
    ensures NoBoundaryFile(files, chosen)
  {
    forall f: File, g: File | g in files ensures !BoundaryFile(chosen, f, g) {
      FileIsOrdered(f);
      FileIsOrdered(g);
      assert f in files && f != g ==> KeysApart(f, g);
    }
  }

  lemma QuietCloses(s: State, s': State, step: Step)
    requires QuietInv(s) && Takes(s, s', step)
    ensures Closes(s, step)
  {
    if step.StartStep? || step.MoveStep? {
      var c := step.inputs;
      if c.level > 0 { ApartHasNoBoundary(s.current[c.level], c.in0); }
      ApartHasNoBoundary(s.current[c.level + 1], c.in1);
    }
  }

  // ---------- steps ----------

  lemma OverlapFreeIsApart(f: File, g: File)
    requires !g.Overlaps(Some(f.smallest.user), Some(f.largest.user))
    ensures KeysApart(f, g) && KeysApart(g, f)
  {
    NoOverlapMeansApart(f, g);
  }

  lemma FlushKeepsApart(s: State, s': State, f: File, level: nat)
    requires TreeKeysApart(s.current) && Flush(s, s', f, level)
    ensures TreeKeysApart(s'.current)
  {
    forall l, g, h | 1 <= l < NUM_LEVELS && g in s'.current[l] && h in s'.current[l] && g != h ensures KeysApart(g, h) {
      AddContents(s.current, level, f, l, g);
      AddContents(s.current, level, f, l, h);
      if g !in s.current[l] { OverlapFreeIsApart(f, h); }
      if h !in s.current[l] { OverlapFreeIsApart(f, g); }
    }
  }

  lemma FlushIsKeysBeside(v: Version, c: Inputs, level: nat, f: File)
    requires InputsIn(v, c) && Connected(c.in0 + c.in1) && level == c.level + 1
    requires forall l, g :: 0 <= l <= level && g in v[l] ==> !g.Overlaps(Some(f.smallest.user), Some(f.largest.user))
    ensures KeysBeside(f, c.in0 + c.in1)
  {
    var all := c.in0 + c.in1;
    forall g | g in all ensures !g.Covers(f.smallest.user) && KeysApart(f, g) && g.smallest.user <= g.largest.user {
      assert g in v[c.level] || g in v[c.level + 1];
      OverlapFreeIsApart(f, g);
      FileIsOrdered(f);
      FileIsOrdered(g);
    }
    FileIsOrdered(f);
    assert !Covered(all, f.smallest.user);
    assert !ReachesDown(all, f.smallest.user) || !ReachesUp(all, f.smallest.user);
  }

  lemma FlushKeepsQuiet(s: State, s': State, f: File, level: nat)
    requires Inv(s) && QuietInv(s) && Flush(s, s', f, level)
    ensures QuietInv(s')
  {
    FlushKeepsApart(s, s', f, level);
    if s.running.Some? { FlushKeepsQuietRunning(s, s', f, level); }
  }

  lemma AddKeepsKeysBeside(v: Version, c: Inputs, level: nat, f: File)
    requires InputsIn(v, c) && Connected(c.in0 + c.in1) && RestKeysBeside(v, c) && level < NUM_LEVELS
    requires level > 0 ==>
              forall l, g :: 0 <= l <= level && g in v[l] ==> !g.Overlaps(Some(f.smallest.user), Some(f.largest.user))
    ensures RestKeysBeside(AddFile(v, level, f), c)
  {
    forall g | g in AddFile(v, level, f)[c.level + 1] && g !in c.in1 ensures KeysBeside(g, c.in0 + c.in1) {
      AddContents(v, level, f, c.level + 1, g);
      if g !in v[c.level + 1] { FlushIsKeysBeside(v, c, level, f); }
    }
  }

  lemma RunningInputs(v: Version, r: Running, oldest: Sequence)
    requires RunningOk(v, r, oldest)
    ensures InputsIn(v, r.inputs) && Connected(r.inputs.in0 + r.inputs.in1)
  {
  }

  lemma FlushKeepsQuietRunning(s: State, s': State, f: File, level: nat)
    requires Inv(s) && QuietInv(s) && Flush(s, s', f, level) && s.running.Some?
    ensures QuietRunning(s'.current, s.running.value)
  {
    RunningInputs(s.current, s.running.value, Oldest(s));
    AddKeepsKeysBeside(s.current, s.running.value.inputs, level, f);
  }

  lemma InputsAreSeen(v: Version, c: Inputs, e: Entry)
    requires InputsIn(v, c) && e in InputEntries(c)
    ensures e in AllEntries(v)
  {
    InputLevels(v, c, e);
  }

  lemma TreeIsOld(s: State, e: Entry)
    requires Inv(s) && e in AllEntries(s.current)
    ensures e.key.sequence <= s.lastSequence
  {
  }

  lemma StartIsQuiet(s: State, s': State, c: Inputs)
    requires Inv(s) && TreeKeysApart(s.current) && StartCompaction(s, s', c) && s.snapshots == []
    ensures QuietRunning(s'.current, s'.running.value)
  {
    GoodInputsAreIn(s.current, c);
    forall e | e in InputEntries(c) ensures e.key.sequence <= s.lastSequence {
      InputsAreSeen(s.current, c, e);
      TreeIsOld(s, e);
    }
    PickedIsKeysBeside(s.current, c);
  }

  lemma PickedIsKeysBeside(v: Version, c: Inputs)
    requires GoodInputs(v, c) && TreeShape(v) && TreeKeysApart(v)
    ensures RestKeysBeside(v, c)
  {
    forall g | g in v[c.level + 1] && g !in c.in1
      ensures KeysBeside(g, c.in0 + c.in1)
    {
      LeftBehindIsKeysBeside(v, c, g);
    }
  }

  lemma LeftBehindIsKeysBeside(v: Version, c: Inputs, g: File)
    requires GoodInputs(v, c) && TreeShape(v) && TreeKeysApart(v) && g in v[c.level + 1] && g !in c.in1
    ensures KeysBeside(g, c.in0 + c.in1)
  {
    var all := c.in0 + c.in1;
    LeftBehindIsBeside(v, c, g);
    forall f | f in all ensures KeysApart(f, g) && f.smallest.user <= f.largest.user {
      if f in c.in0 { UntouchedIsApart(v, c, g, f); } else { assert LevelKeysApart(v[c.level + 1]); }
      FileIsOrdered(f);
    }
    FileIsOrdered(g);
  }

  lemma {:induction false} KeptIsOnePerKey(v: Version, level: nat, smallest: Sequence, input: seq<Entry>, i: nat,
                                           j: nat)
    requires Sorted(input) && i < j < |input| && input[i].key.user == input[j].key.user
    requires forall e :: e in input ==> e.key.sequence <= smallest
    ensures Dropped(v, level, smallest, input, j)
  {
    SortedUserKeysAreContiguous(input, i, j);
    assert input[j - 1] in input;
  }

  lemma OrderedOutputsAreApart(r: Running, input: seq<Entry>, outs: seq<File>, f: File, g: File)
    requires Sorted(input) && Flatten(outs) == Kept(r.base, r.inputs.level, r.smallest, input, |input|)
    requires forall e :: e in input ==> e.key.sequence <= r.smallest
    requires f in outs && g in outs && Before(f.largest, g.smallest)
    ensures f.largest.user < g.smallest.user
  {
    var a, b := f.entries[|f.entries| - 1], g.entries[0];
    assert a in f.entries && b in g.entries;
    FlattenHolds(outs, a);
    FlattenHolds(outs, b);
    var i :| 0 <= i < |input| && input[i] == a && !Dropped(r.base, r.inputs.level, r.smallest, input, i);
    var j :| 0 <= j < |input| && input[j] == b && !Dropped(r.base, r.inputs.level, r.smallest, input, j);
    assert j < i ==> Before(input[j].key, input[i].key);
    if a.key.user == b.key.user { KeptIsOnePerKey(r.base, r.inputs.level, r.smallest, input, i, j); }
  }

  /** With every input visible at the bound, at most one entry per user key is kept. */
  lemma OutputsAreKeysApart(r: Running, input: seq<Entry>, outs: seq<File>)
    requires Sorted(input) && Flatten(outs) == Kept(r.base, r.inputs.level, r.smallest, input, |input|)
    requires LevelSorted(outs) && forall e :: e in input ==> e.key.sequence <= r.smallest
    ensures LevelKeysApart(outs)
  {
    forall f, g | f in outs && g in outs && f != g ensures KeysApart(f, g) {
      SortedIsApart(outs, f, g);
      if Before(f.largest, g.smallest) {
        OrderedOutputsAreApart(r, input, outs, f, g);
      } else {
        OrderedOutputsAreApart(r, input, outs, g, f);
      }
    }
  }

  lemma OutputBesideRest(c: Inputs, outs: seq<File>, o: File, g: File)
    requires EntriesOf(outs) <= InputEntries(c) && o in outs && KeysBeside(g, c.in0 + c.in1)
    ensures KeysApart(o, g) && KeysApart(g, o)
  {
    var a, b := OutputIsInside(c, outs, o);
  }

  lemma MixedPair(files: seq<File>, c: Inputs, outs: seq<File>, g: File, h: File)
    requires LevelKeysApart(files) && LevelKeysApart(outs) && g != h && EntriesOf(outs) <= InputEntries(c)
    requires g in outs || (g in files && KeysBeside(g, c.in0 + c.in1))
    requires h in outs || (h in files && KeysBeside(h, c.in0 + c.in1))
    ensures KeysApart(g, h)
  {
    if g in outs && h !in outs {
      OutputBesideRest(c, outs, g, h);
    } else if h in outs && g !in outs {
      OutputBesideRest(c, outs, h, g);
    }
  }

  lemma ReplaceKeepsApart(v: Version, next: nat, c: Inputs, outs: seq<File>)
    requires TreeKeysApart(v) && NumbersOk(v, next) && InputsIn(v, c) && OutputsOk(v, c, outs) && LevelKeysApart(outs)
    requires RestKeysBeside(v, c)
    ensures TreeKeysApart(Replace(v, c, outs))
  {
    var v' := Replace(v, c, outs);
    forall l | 1 <= l < NUM_LEVELS ensures LevelKeysApart(v'[l]) {
      forall g, h | g in v'[l] && h in v'[l] && g != h ensures KeysApart(g, h) {
        assert LevelKeysApart(v[l]);
        ReplaceContents(v, next, c, outs, l, g);
        ReplaceContents(v, next, c, outs, l, h);
        if l == c.level + 1 { MixedPair(v[l], c, outs, g, h); }
      }
    }
  }

  lemma InstalledAreKeysApart(s: State, s': State, input: seq<Entry>, outs: seq<File>)
    requires InstallCompaction(s, s', input, outs) && QuietRunning(s.current, s.running.value)
    ensures LevelKeysApart(outs)
  {
    forall e | e in input ensures e.key.sequence <= s.running.value.smallest { assert e in SetOf(input); }
    OutputsAreKeysApart(s.running.value, input, outs);
  }

  lemma InstallKeepsQuiet(s: State, s': State, input: seq<Entry>, outs: seq<File>)
    requires NumbersOk(s.current, s.nextFile) && TreeKeysApart(s.current) && InstallCompaction(s, s', input, outs)
    requires InputsIn(s.current, s.running.value.inputs) && QuietRunning(s.current, s.running.value)
    ensures QuietInv(s')
  {
    InstalledAreKeysApart(s, s', input, outs);
    OutputsAreOk(s, s', input, outs);
    QuietReplace(s.current, s.nextFile, s.running.value, outs);
  }

  lemma QuietReplace(v: Version, next: nat, r: Running, outs: seq<File>)
    requires TreeKeysApart(v) && NumbersOk(v, next) && InputsIn(v, r.inputs) && OutputsOk(v, r.inputs, outs)
             && LevelKeysApart(outs)
    requires QuietRunning(v, r)
    ensures TreeKeysApart(Replace(v, r.inputs, outs))
  {
    ReplaceKeepsApart(v, next, r.inputs, outs);
  }

  lemma MoveKeepsQuiet(s: State, s': State, c: Inputs)
    requires Inv(s) && QuietInv(s) && TrivialMove(s, s', c)
    ensures QuietInv(s')
  {
    var v := s.current;
    GoodInputsAreIn(v, c);
    MoveOutputsOk(v, s.nextFile, c);
    forall f, g | f in c.in0 && g in c.in0 ensures f == g { }
    PickedIsKeysBeside(v, c);
    ReplaceKeepsApart(v, s.nextFile, c, c.in0);
  }

  lemma StepKeepsQuiet(s: State, s': State, step: Step)
    requires Inv(s) && QuietInv(s) && Takes(s, s', step) && Quiet(s, step)
    ensures QuietInv(s')
  {
    match step
    case FlushStep(f, level) => FlushKeepsQuiet(s, s', f, level);
    case StartStep(c) => StartIsQuiet(s, s', c);
    case InstallStep(input, outs) => InstallKeepsQuiet(s, s', input, outs);
    case MoveStep(c) => MoveKeepsQuiet(s, s', c);
    case _ =>
  }

  // ---------- all quiet runs ----------

  ghost predicate QuietRun(states: seq<State>, steps: seq<Step>) {
    IsRun(states, steps) && forall i {:trigger steps[i]} :: 0 <= i < |steps| ==> Quiet(states[i], steps[i])
  }

  lemma QuietStep(s: State, s': State, step: Step)
    requires Inv(s) && QuietInv(s) && Takes(s, s', step) && Quiet(s, step)
    ensures Inv(s') && QuietInv(s')
  {
    QuietCloses(s, s', step);
    StepKeepsInv(s, s', step);
    StepKeepsQuiet(s, s', step);
  }

  lemma {:induction false} QuietRunKeepsInv(states: seq<State>, steps: seq<Step>, n: nat)
    requires QuietRun(states, steps) && n < |states|
    ensures Inv(states[n]) && QuietInv(states[n])
  {
    if n == 0 {
      InitInv(states[0]);
    } else {
      QuietRunKeepsInv(states, steps, n - 1);
      QuietStep(states[n - 1], states[n], steps[n - 1]);
    }
  }

  lemma QuietRunIsClosed(states: seq<State>, steps: seq<Step>)
    requires QuietRun(states, steps)
    ensures ClosedRun(states, steps)
  {
    forall i | 0 <= i < |steps| ensures Closes(states[i], steps[i]) {
      QuietRunKeepsInv(states, steps, i);
      QuietCloses(states[i], states[i + 1], steps[i]);
    }
  }

  /** Without snapshots at compaction starts, the hypothesis of the main theorem always holds: files
      below level 0 never share a user key, and every read is exact. */
  lemma QuietReadsAreExact(states: seq<State>, steps: seq<Step>, n: nat, user: UserKey, t: Sequence)
    requires QuietRun(states, steps) && n < |states|
    requires t == states[n].lastSequence || t in states[n].snapshots
    ensures TreeKeysApart(states[n].current)
    ensures ReadAt(states[n], user, t) == Visible(states[n].written, user, t)
  {
    QuietRunKeepsInv(states, steps, n);
    QuietRunIsClosed(states, steps);
    ReadsAreExact(states, steps, n, user, t);
  }
}
