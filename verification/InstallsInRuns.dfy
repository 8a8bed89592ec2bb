/** The exact conditions of `BoundaryMerges`, for every install of every run: flushes that came in between leave
    the inputs of the running compaction standing, and put nothing under their keys. */
module InstallsInRuns {
  import opened InternalKeys
  import opened Files
  import opened PointLookup
  import opened InputSelection
  import opened CompactionWork
  import opened TreeSteps
  import opened LsmMachine
  import opened BoundaryMerges

  /** What holds while a compaction runs. */
  ghost predicate Standing(current: Version, r: Running) {
    InputsStand(current, r.inputs) && SameBelow(r.base, current, r.inputs)
  }

  ghost predicate StandingOk(s: State) { s.running.Some? ==> Standing(s.current, s.running.value) }

  /** A flushed table stays clear of the inputs on every level but 0. */
  lemma FlushMissesInputs(v: Version, c: Inputs, level: nat, f: File, g: File)
    requires Slots(v, c) && FlushOk(v, level, f) && g in c.in0 + c.in1
    requires level > 0 && (if g in c.in0 then c.level else c.level + 1) <= level
    ensures g.largest.user < f.smallest.user || f.largest.user < g.smallest.user
  {
    var k := if g in c.in0 then c.level else c.level + 1;
    assert g in v[k];
    NoOverlapMeansApart(f, g);
  }

  lemma FlushDoesNotTouch(v: Version, c: Inputs, level: nat, f: File)
    requires Slots(v, c) && FlushOk(v, level, f) && level == c.level + 1
    ensures !Touches(f, c.in0)
  {
    FlushIsBeside(v, c, level, f);
    FileIsOrdered(f);
    var before := forall g :: g in c.in0 + c.in1 ==> Before(g.largest, f.smallest);
    forall g | g in c.in0
      ensures if before then g.largest.user < f.smallest.user else f.largest.user < g.smallest.user
    {
      assert g in c.in0 + c.in1;
      FlushMissesInputs(v, c, level, f, g);
      FileIsOrdered(g);
    }
    if before {
      assert !ReachesUp(c.in0, f.smallest.user);
    } else {
      assert !ReachesDown(c.in0, f.largest.user);
    }
  }

  lemma AddKeepsStanding(v: Version, c: Inputs, level: nat, f: File)
    requires Slots(v, c) && InputsStand(v, c) && FlushOk(v, level, f)
    ensures InputsStand(AddFile(v, level, f), c)
  {
    var v' := AddFile(v, level, f);
    forall l, g | 0 <= l < NUM_LEVELS ensures g in v'[l] <==> g in v[l] || (l == level && g == f) {
      AddContents(v, level, f, l, g);
    }
    if level == c.level + 1 { FlushDoesNotTouch(v, c, level, f); }
    forall g | g in c.in0 ensures AllNewer(Held(f), Held(g)) {
      FlushedIsNewer(v, level, f, c.level, g);
    }
  }

  /** A table flushed two levels down or more covers no key of the inputs. */
  lemma AddKeepsBelow(base: Version, v: Version, c: Inputs, level: nat, f: File)
    requires Slots(v, c) && SameBelow(base, v, c) && FlushOk(v, level, f)
    ensures SameBelow(base, AddFile(v, level, f), c)
  {
    var v' := AddFile(v, level, f);
    forall e | e in InputEntries(c)
      ensures NoFileCovers(v', c.level + 2, e.key.user) <==> NoFileCovers(v, c.level + 2, e.key.user)
    {
      forall l, g | 0 <= l < NUM_LEVELS ensures g in v'[l] <==> g in v[l] || (l == level && g == f) {
        AddContents(v, level, f, l, g);
      }
      if level >= c.level + 2 {
        var g := HolderOf(c, e);
        FlushMissesInputs(v, c, level, f, g);
        EntryInRange(g, e);
      }
    }
  }

  lemma FlushKeepsStanding(s: State, s': State, f: File, level: nat)
    requires ShapeInv(s) && StandingOk(s) && Flush(s, s', f, level)
    ensures StandingOk(s')
  {
    hide InputsStand;
    hide SameBelow;
    hide AddFile;
    FlushIsOk(s, s', f, level);
    if s.running.Some? {
      var r := s.running.value;
      AddKeepsStanding(s.current, r.inputs, level, f);
      AddKeepsBelow(r.base, s.current, r.inputs, level, f);
    }
  }

  lemma StepKeepsStanding(s: State, s': State, step: Step)
    requires ShapeInv(s) && StandingOk(s) && Takes(s, s', step)
    ensures StandingOk(s')
  {
    hide InputsStand;
    hide ShapeInv;
    hide Replace;
    match step
    case FlushStep(f, level) => FlushKeepsStanding(s, s', f, level);
    case StartStep(c) => GoodInputsStand(s.current, c);
    case _ =>
  }

  lemma {:induction false} RunKeepsStanding(states: seq<State>, steps: seq<Step>, n: nat)
    requires IsRun(states, steps) && n < |states|
    ensures ShapeInv(states[n]) && StandingOk(states[n])
  {
    hide ShapeInv;
    hide Standing;
    hide Takes;
    hide Init;
    RunKeepsShape(states, steps, n);
    if n > 0 {
      RunKeepsStanding(states, steps, n - 1);
      StepKeepsStanding(states[n - 1], states[n], steps[n - 1]);
    } else {
      assert StandingOk(states[0]) by { NothingRuns(states[0]); }
    }
  }

  lemma NothingRuns(s: State)
    requires Init(s)
    ensures s.running.None?
  {
  }

  /** In every run, also with flushes since the compaction began, and as long as the tree was in order before it:
      after an install lookups find the newest stored version if and only if nothing sinks below a boundary file,
      and reads at the snapshot bound and above are unchanged if and only if no dropped deletion uncovers a put
      in one. */
  lemma InstallsAreSafeIff(states: seq<State>, steps: seq<Step>, n: nat)
    requires IsRun(states, steps) && n < |steps| && steps[n].InstallStep?
    requires TreeOk(states[n].current, states[n].nextFile)
    ensures |states| == |steps| + 1 && states[n].running.Some?
    ensures var v, v', r := states[n].current, states[n + 1].current, states[n].running.value;
            && r.inputs.level + 1 < NUM_LEVELS
            && (LevelsNewer(v') <==> NothingSinks(v, r.inputs, r.smallest))
            && (LookupIsExact(v') <==> NothingSinks(v, r.inputs, r.smallest))
            && (SameReads(AllEntries(v'), AllEntries(v), r.smallest) <==>
                forall user :: !Uncovers(v, r.inputs, r.smallest, user))
  {
    hide NothingSinks;
    hide Uncovers;
    hide LevelsNewer;
    hide LookupIsExact;
    hide SameReads;
    hide Replace;
    hide MergesInto;
    var s, s' := states[n], states[n + 1];
    var input, outs := steps[n].input, steps[n].outs;
    RunKeepsStanding(states, steps, n);
    assert Takes(s, s', steps[n]);
    InstallMerges(s, s', input, outs);
    var r := s.running.value;
    InstallNewerIff(r.base, s.current, s.nextFile, r.inputs, r.smallest, input, outs);
    InstallIsSafeIff(r.base, s.current, s.nextFile, r.inputs, r.smallest, input, outs);
  }

  lemma InstallMerges(s: State, s': State, input: seq<Entry>, outs: seq<File>)
    requires ShapeInv(s) && StandingOk(s) && InstallCompaction(s, s', input, outs)
    requires TreeOk(s.current, s.nextFile)
    ensures var r := s.running.value; MergesInto(r.base, s.current, s.nextFile, r.inputs, r.smallest, input, outs)
  {
    hide InputsStand;
    hide SameBelow;
    hide OutputsOk;
    hide TreeOk;
    hide Replace;
    OutputsAreOk(s, s', input, outs);
  }
}
