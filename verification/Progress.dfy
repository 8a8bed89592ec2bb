/** Nothing gets stuck: what was picked can be compacted, an immutable memtable can always be written out, and a
    running compaction can always be finished. */
module Progress {
  import opened Options
  import opened InternalKeys
  import opened Files
  import opened PointLookup
  import opened InputSelection
  import opened CompactionWork
  import opened TreeSteps
  import opened LsmMachine
  import MergingIterators
  import Journals

  // ---------- tables ----------

  /** Entries with distinct sequence numbers can be listed in order. */
  lemma {:induction false} InOrderExists(es: set<Entry>) returns (list: seq<Entry>)
    requires Unique(es)
    ensures Sorted(list) && SetOf(list) == es
    decreases |es|
  {
    if es == {} {
      list := [];
    } else {
      var e :| e in es;
      var rest := InOrderExists(es - {e});
      forall x | x in rest ensures x.key != e.key { assert x in SetOf(rest); }
      list := MergingIterators.InsertOne(rest, e);
      forall x ensures x in SetOf(list) <==> x in es { assert x in rest <==> x in SetOf(rest); }
    }
  }

  function TableOf(number: nat, entries: seq<Entry>): File
    requires entries != [] && Sorted(entries)
  {
    Table(number, 0, entries[0].key, entries[|entries| - 1].key, entries)
  }

  lemma TableHolds(number: nat, es: set<Entry>) returns (f: File)
    requires Unique(es) && es != {}
    ensures f.number == number && Held(f) == es
  {
    var list := InOrderExists(es);
    assert SetOf(list) != {};
    f := TableOf(number, list);
    assert Held(f) == SetOf(list);
  }

  // ---------- flushes and compactions ----------

  lemma EmptyFlush(s: State) returns (s': State)
    requires s.imm == Some({})
    ensures Takes(s, s', FlushEmptyStep) && s'.imm.None? && Stored(s') == Stored(s)
  {
    s' := s.(imm := None, nextFile := s.nextFile + 1);
    hide AllEntries;
  }

  lemma TableFlush(s: State, f: File) returns (s': State)
    requires s.imm.Some? && Held(f) == s.imm.value && f.number == s.nextFile
    ensures Takes(s, s', FlushStep(f, 0)) && s'.imm.None? && Stored(s') == Stored(s)
  {
    hide AllEntries;
    hide Held;
    hide AddFile;
    s' := s.(imm := None, current := AddFile(s.current, 0, f), nextFile := s.nextFile + 1);
    AddEntries(s.current, 0, f);
  }

  /** In every run, an immutable memtable can be written out. */
  lemma FlushIsPossible(states: seq<State>, steps: seq<Step>, n: nat)
    returns (s': State, step: Step)
    requires IsRun(states, steps) && n < |states| && states[n].imm.Some?
    ensures Takes(states[n], s', step) && s'.imm.None? && Stored(s') == Stored(states[n])
  {
    hide Takes;
    hide Stored;
    var s := states[n];
    if s.imm.value == {} {
      hide IsRun;
      s' := EmptyFlush(s);
      step := FlushEmptyStep;
    } else {
      RunKeepsShape(states, steps, n);
      hide IsRun;
      ImmIsUnique(s);
      hide ShapeInv;
      hide Unique;
      hide Held;
      var f := TableHolds(s.nextFile, s.imm.value);
      s' := TableFlush(s, f);
      step := FlushStep(f, 0);
    }
  }

  lemma ImmIsUnique(s: State)
    requires ShapeInv(s) && s.imm.Some?
    ensures Unique(s.imm.value)
  {
    hide ShapeOk;
    hide Slots;
  }

  lemma {:induction false} KeptIsSorted(v: Version, level: nat, smallest: Sequence, input: seq<Entry>, n: nat)
    requires Sorted(input) && n <= |input|
    ensures Sorted(Kept(v, level, smallest, input, n))
  {
    hide Dropped;
    if n > 0 {
      KeptIsSorted(v, level, smallest, input, n - 1);
      var rest := Kept(v, level, smallest, input, n - 1);
      forall i | 0 <= i < |rest| ensures Before(rest[i].key, input[n - 1].key) { assert rest[i] in rest; }
    }
  }

  lemma {:induction false} FromIsBelow(states: seq<State>, steps: seq<Step>, n: nat)
    requires IsRun(states, steps) && n < |states|
    ensures Journals.FromOk(states[n])
  {
    hide Takes;
    if n > 0 {
      FromIsBelow(states, steps, n - 1);
      assert Takes(states[n - 1], states[n - 1 + 1], steps[n - 1]);
      FromNext(states[n - 1], states[n], steps[n - 1]);
    }
  }

  lemma FromNext(s: State, s': State, step: Step)
    requires Takes(s, s', step) && Journals.FromOk(s)
    ensures Journals.FromOk(s')
  {
    hide Kept;
    hide Replace;
    hide AddFile;
    hide GoodInputs;
    hide Connected;
  }

  /** The kept entries as one output, or none. */
  lemma OneOutput(number: nat, kept: seq<Entry>) returns (outs: seq<File>)
    requires Sorted(kept)
    ensures LevelSorted(outs) && Flatten(outs) == kept && Numbers(outs) <= {number} && |outs| <= 1
  {
    if kept == [] {
      outs := [];
    } else {
      outs := [TableOf(number, kept)];
      assert outs[..0] == [] && Flatten([]) + kept == kept;
    }
  }

  lemma NumberTaken(s: State) returns (s': State)
    ensures Takes(s, s', NumberStep) && s' == s.(nextFile := s.nextFile + 1)
  {
    s' := s.(nextFile := s.nextFile + 1);
  }

  /** In every run, a running compaction can be finished, when an output has taken a file number. */
  lemma FinishIsPossible(states: seq<State>, steps: seq<Step>, n: nat)
    returns (s1: State, s2: State, step: Step)
    requires IsRun(states, steps) && n < |states| && states[n].running.Some?
    ensures Takes(states[n], s1, NumberStep) && Takes(s1, s2, step) && step.InstallStep? && s2.running.None?
  {
    RunKeepsShape(states, steps, n);
    FromIsBelow(states, steps, n);
    hide IsRun;
    hide Takes;
    hide ShapeInv;
    s1 := NumberTaken(states[n]);
    s2, step := CanFinish(states[n], states[n].running.value, s1);
  }

  lemma CanFinish(s: State, r: Running, s1: State) returns (s2: State, step: Step)
    requires ShapeInv(s) && Journals.FromOk(s) && s.running == Some(r) && s1 == s.(nextFile := s.nextFile + 1)
    ensures Takes(s1, s2, step) && step.InstallStep? && s2.running.None?
  {
    hide Takes;
    InputsAreUnique(s, r);
    NumbersAreBelow(s);
    hide ShapeInv;
    hide Sorted;
    hide Unique;
    hide InputEntries;
    hide Kept;
    hide Flatten;
    hide LevelSorted;
    hide NumbersBelow;
    hide NumbersDistinct;
    var input := InOrderExists(InputEntries(r.inputs));
    var kept := Kept(r.base, r.inputs.level, r.smallest, input, |input|);
    KeptIsSorted(r.base, r.inputs.level, r.smallest, input, |input|);
    var outs := OneOutput(s.nextFile, kept);
    OutputsAreNew(s.current, outs, s.nextFile);
    s2, step := Finished(s1, r, input, outs);
  }

  ghost predicate NumbersBelow(v: Version, next: nat) {
    forall l, k {:trigger k in Numbers(v[l])} :: 0 <= l < NUM_LEVELS && k in Numbers(v[l]) ==> k < next
  }

  lemma OutputsAreNew(v: Version, outs: seq<File>, next: nat)
    requires |outs| <= 1 && Numbers(outs) <= {next} && NumbersBelow(v, next)
    ensures NumbersDistinct(outs)
    ensures forall l {:trigger Numbers(v[l])} :: 0 <= l < NUM_LEVELS ==> Numbers(outs) !! Numbers(v[l])
  {
    forall l | 0 <= l < NUM_LEVELS ensures Numbers(outs) !! Numbers(v[l]) {
      assert next !in Numbers(v[l]);
    }
  }

  lemma Finished(s: State, r: Running, input: seq<Entry>, outs: seq<File>) returns (s': State, step: Step)
    requires s.running == Some(r) && r.from < s.nextFile && r.inputs.level + 1 < NUM_LEVELS
    requires Sorted(input) && SetOf(input) == InputEntries(r.inputs)
    requires LevelSorted(outs) && Flatten(outs) == Kept(r.base, r.inputs.level, r.smallest, input, |input|)
    requires NumbersDistinct(outs) && Numbers(outs) <= {s.nextFile - 1}
    requires forall l {:trigger Numbers(s.current[l])} :: 0 <= l < NUM_LEVELS ==> Numbers(outs) !! Numbers(s.current[l])
    ensures Takes(s, s', step) && step.InstallStep? && s'.running.None?
  {
    hide Kept;
    hide Replace;
    hide InputEntries;
    hide Flatten;
    hide LevelSorted;
    hide SetOf;
    hide Sorted;
    hide Numbers;
    hide NumbersDistinct;
    s' := s.(running := None, current := Replace(s.current, r.inputs, outs));
    step := InstallStep(input, outs);
  }

  lemma InputsAreUnique(s: State, r: Running)
    requires ShapeInv(s) && s.running == Some(r)
    ensures Unique(InputEntries(r.inputs)) && r.inputs.level + 1 < NUM_LEVELS
  {
    hide ShapeOk;
    hide RestIsBeside;
    hide Connected;
    EntriesSplit(s.current, r.inputs);
    assert Unique(s.written);
    hide InputEntries;
    hide AllEntries;
    hide InputsIn;
  }

  lemma NumbersAreBelow(s: State)
    requires ShapeInv(s)
    ensures NumbersBelow(s.current, s.nextFile)
  {
    hide LayersOk;
    hide Slots;
  }

  /** Whatever is picked can be compacted, or moved if it is one file with nothing below. */
  lemma PickedIsPossible(s: State, c: Inputs) returns (s': State)
    requires s.running.None? && GoodInputs(s.current, c) && Connected(c.in0 + c.in1)
    ensures Takes(s, s', StartStep(c)) && s'.running == Some(Running(c, Oldest(s), s.current, s.nextFile))
    ensures |c.in0| == 1 && c.in1 == [] ==> Takes(s, s.(current := Replace(s.current, c, c.in0)), MoveStep(c))
  {
    hide Connected;
    hide Replace;
    s' := s.(running := Some(Running(c, Oldest(s), s.current, s.nextFile)));
  }
}
