/** A run in which a compaction leaves a boundary file behind on its lower level, drops a deletion, and so brings
    a deleted value back.

    It begins as the run of `StraddlingRun` does, with values and file sizes as parameters: a table with another
    key is moved to level 3, and a CompactRange with no bounds merges the lone table on level 2, whose output a
    large key or value cuts after the deletion.  The second compaction is one that is picked: its input on
    level 2 overlaps the first of the two tables. */
module UncoveredRun {
  import opened Options
  import opened InternalKeys
  import opened Files
  import opened PointLookup
  import opened InputSelection
  import opened VersionBuilder
  import opened CompactionWork
  import opened TreeSteps
  import opened LsmMachine
  import opened StraddlingRun

  // A key that is put and deleted, and one before it that is put twice.
  function Put(x: Values): Entry { Entry(InternalKey(1.0, 2, Value), x.value(2)) }

  function First(x: Values): Entry { Entry(InternalKey(0.0, 3, Value), x.value(3)) }

  function Gone(): Entry { Entry(InternalKey(1.0, 4, Deletion), []) }

  function Second(x: Values): Entry { Entry(InternalKey(0.0, 5, Value), x.value(5)) }

  ghost function Deleting(x: Values): File {
    assert Sorted([First(x), Gone(), Put(x)]);
    Holding(x, 3, [First(x), Gone(), Put(x)])
  }

  ghost function Lower(x: Values): File { assert Sorted([First(x), Gone()]); Holding(x, 4, [First(x), Gone()]) }

  ghost function Left(x: Values): File { assert Sorted([Put(x)]); Holding(x, 5, [Put(x)]) }

  ghost function Upper(x: Values): File { assert Sorted([Second(x)]); Holding(x, 7, [Second(x)]) }

  ghost function Merged(x: Values): File { assert Sorted([Second(x)]); Holding(x, 8, [Second(x)]) }

  ghost function Cutting(x: Values): Inputs { Inputs(2, [Deleting(x)], [], []) }

  ghost function Dropping(x: Values): Inputs { Inputs(2, [Upper(x)], [Lower(x)], []) }

  ghost function One(x: Values): Version { Settled(x)[2 := [Deleting(x)]] }

  ghost function Two(x: Values): Version { OneLevel(3, [Lower(x), Left(x), Base(x)]) }

  ghost function Three(x: Values): Version { Two(x)[2 := [Upper(x)]] }

  ghost function Four(x: Values): Version { OneLevel(3, [Merged(x), Left(x), Base(x)]) }

  ghost function Lost(x: Values): set<Entry> { {Other(x), Put(x), First(x), Gone()} }

  ghost function History(x: Values): set<Entry> { Lost(x) + {Second(x)} }

  ghost function Early(x: Values, mem: set<Entry>, imm: Option<set<Entry>>, v: Version, snapshots: seq<Sequence>,
                       next: nat, running: Option<Running>): State {
    State(mem, imm, v, 4, snapshots, next, running, Lost(x))
  }

  ghost function Late(x: Values, mem: set<Entry>, imm: Option<set<Entry>>, v: Version, next: nat,
                      running: Option<Running>): State {
    State(mem, imm, v, 5, [], next, running, History(x))
  }

  ghost function FirstMerge(x: Values): Option<Running> { Some(Running(Cutting(x), 2, One(x), 4)) }

  ghost function SecondMerge(x: Values): Option<Running> { Some(Running(Dropping(x), 5, Three(x), 8)) }

  ghost function StepOf(x: Values, i: nat): Step {
    if i < 4 then StepAt(x, i)
    else if i == 4 then WriteStep([Put(x)])
    else if i == 5 then SnapshotStep
    else if i == 6 then WriteStep([First(x), Gone()])
    else if i == 7 then SwitchStep
    else if i == 8 then FlushStep(Deleting(x), 2)
    else if i == 9 then StartStep(Cutting(x))
    else if i <= 11 then NumberStep
    else if i == 12 then InstallStep([First(x), Gone(), Put(x)], [Lower(x), Left(x)])
    else if i == 13 then ReleaseStep(0)
    else if i == 14 then WriteStep([Second(x)])
    else if i == 15 then SwitchStep
    else if i == 16 then FlushStep(Upper(x), 2)
    else if i == 17 then StartStep(Dropping(x))
    else if i == 18 then NumberStep
    else InstallStep([Second(x), First(x), Gone()], [Merged(x)])
  }

  ghost function StateOf(x: Values, i: nat): State {
    if i <= 4 then StateAt(x, i)
    else if i == 5 then State({Put(x)}, None, Settled(x), 2, [], 2, None, {Other(x), Put(x)})
    else if i == 6 then State({Put(x)}, None, Settled(x), 2, [2], 2, None, {Other(x), Put(x)})
    else if i == 7 then Early(x, {Put(x), First(x), Gone()}, None, Settled(x), [2], 2, None)
    else if i == 8 then Early(x, {}, Some({Put(x), First(x), Gone()}), Settled(x), [2], 3, None)
    else if i == 9 then Early(x, {}, None, One(x), [2], 4, None)
    else if i <= 12 then Early(x, {}, None, One(x), [2], i - 6, FirstMerge(x))
    else if i == 13 then Early(x, {}, None, Two(x), [2], 6, None)
    else if i == 14 then Early(x, {}, None, Two(x), [], 6, None)
    else if i == 15 then Late(x, {Second(x)}, None, Two(x), 6, None)
    else if i == 16 then Late(x, {}, Some({Second(x)}), Two(x), 7, None)
    else if i == 17 then Late(x, {}, None, Three(x), 8, None)
    else if i <= 19 then Late(x, {}, None, Three(x), i - 10, SecondMerge(x))
    else Late(x, {}, None, Four(x), 9, None)
  }

  ghost predicate TakesOf(x: Values, i: nat) { Takes(StateOf(x, i), StateOf(x, i + 1), StepOf(x, i)) }

  ghost function Uncovering(x: Values): seq<State> { seq(21, i requires 0 <= i => StateOf(x, i)) }

  ghost function UncoveringSteps(x: Values): seq<Step> { seq(20, i requires 0 <= i => StepOf(x, i)) }

  // ---------- the first compaction ----------

  lemma EarlyTakes(x: Values)
    ensures TakesOf(x, 0) && TakesOf(x, 1) && TakesOf(x, 2) && TakesOf(x, 3)
  {
    hide Takes;
    hide StateAt;
    hide StepAt;
    FirstWritesTake(x);
    SettlingTakes(x);
  }

  lemma PutTakes(x: Values)
    ensures TakesOf(x, 4) && TakesOf(x, 5)
  {
    hide Table.Valid;
    hide Holding;
    assert SetOf([Put(x)]) == {Put(x)};
  }

  lemma EarlyWritesTake(x: Values)
    ensures TakesOf(x, 6) && TakesOf(x, 7)
  {
    hide Table.Valid;
    hide Holding;
    assert SetOf([First(x), Gone()]) == {First(x), Gone()};
  }

  lemma FirstFlushTakes(x: Values)
    ensures TakesOf(x, 8)
  {
    hide Table.Valid;
    hide SaveLevel;
    assert Held(Deleting(x)) == {Put(x), First(x), Gone()};
    OneAdded(Deleting(x));
  }

  lemma FirstStartTakes(x: Values)
    ensures TakesOf(x, 9) && TakesOf(x, 10) && TakesOf(x, 11)
  {
    hide Table.Valid;
    var v := One(x);
    var all := Cutting(x).in0 + Cutting(x).in1;
    assert v[2] == [Deleting(x)] && v[3] == [Base(x)];
    forall y | ReachesDown(all, y) && ReachesUp(all, y) ensures Covered(all, y) {
      assert Deleting(x) in all && Deleting(x).Covers(y);
    }
  }

  lemma AllAreKept(x: Values, v: Version)
    ensures Kept(v, 2, 2, [First(x), Gone(), Put(x)], 3) == [First(x), Gone(), Put(x)]
  {
    var input := [First(x), Gone(), Put(x)];
    assert Kept(v, 2, 2, input, 0) == [];
    assert Kept(v, 2, 2, input, 1) == [First(x)];
    assert Kept(v, 2, 2, input, 2) == [First(x), Gone()];
  }

  lemma FirstInstallFiles(x: Values)
    ensures Replace(One(x), Cutting(x), [Lower(x), Left(x)]) == Two(x)
  {
    hide Table.Valid;
    hide SaveLevel;
    OneTaken(Deleting(x));
    FirstLevels(x);
    assert One(x)[2 := []][3 := [Lower(x), Left(x), Base(x)]] == Two(x);
  }

  lemma FirstLevels(x: Values)
    ensures SaveLevel([Base(x)], {}, [Lower(x), Left(x)]) == [Lower(x), Left(x), Base(x)]
  {
    hide Table.Valid;
    assert Merge([Base(x)], [Left(x)]) == [Left(x), Base(x)];
    assert Merge([Base(x)], [Lower(x), Left(x)]) == [Lower(x), Left(x), Base(x)];
    KeepAll([Lower(x), Left(x), Base(x)], {});
  }

  lemma FirstNumbers(x: Values)
    ensures Numbers([Lower(x), Left(x)]) == {4, 5}
    ensures forall l {:trigger Numbers(One(x)[l])} ::
            0 <= l < NUM_LEVELS ==> Numbers([Lower(x), Left(x)]) !! Numbers(One(x)[l])
  {
    hide Table.Valid;
    var outs := [Lower(x), Left(x)];
    assert outs[0] in outs && outs[1] in outs;
  }

  lemma FirstInstallTakes(x: Values)
    ensures TakesOf(x, 12)
  {
    hide Replace;
    hide Table.Valid;
    hide Kept;
    hide Flatten;
    AllAreKept(x, One(x));
    FlattenPair(Lower(x), Left(x));
    assert Lower(x).entries + Left(x).entries == [First(x), Gone(), Put(x)];
    FirstNumbers(x);
    assert SetOf([First(x), Gone(), Put(x)]) == InputEntries(Cutting(x));
    FirstInstallFiles(x);
  }

  // ---------- the second compaction ----------

  lemma SecondWriteTakes(x: Values)
    ensures TakesOf(x, 13) && TakesOf(x, 14) && TakesOf(x, 15)
  {
    hide Table.Valid;
    hide Holding;
    assert [2][..0] + [2][1..] == [];
    assert SetOf([Second(x)]) == {Second(x)};
  }

  lemma LaterFlushTakes(x: Values)
    ensures TakesOf(x, 16)
  {
    hide Table.Valid;
    hide SaveLevel;
    assert Held(Upper(x)) == {Second(x)};
    OneAdded(Upper(x));
  }

  lemma DroppingIsGood(x: Values)
    ensures GoodInputs(Three(x), Dropping(x))
  {
    hide Table.Valid;
    var c := Dropping(x);
    assert Three(x)[2] == [Upper(x)] && Three(x)[3] == [Lower(x), Left(x), Base(x)];
    assert Upper(x) in c.in0;
    assert Touches(Lower(x), c.in0) && !Touches(Left(x), c.in0) && !Touches(Base(x), c.in0);
  }

  lemma DroppingIsConnected(x: Values)
    ensures Connected(Dropping(x).in0 + Dropping(x).in1)
  {
    hide Table.Valid;
    var all := Dropping(x).in0 + Dropping(x).in1;
    forall y | ReachesDown(all, y) && ReachesUp(all, y) ensures Covered(all, y) {
      assert Lower(x) in all && Upper(x) in all && Lower(x).Covers(y);
    }
  }

  lemma LaterStartTakes(x: Values)
    ensures TakesOf(x, 17) && TakesOf(x, 18)
  {
    hide Table.Valid;
    hide GoodInputs;
    hide Connected;
    DroppingIsGood(x);
    DroppingIsConnected(x);
  }

  lemma OneIsKept(x: Values, v: Version)
    requires forall l :: 4 <= l < NUM_LEVELS ==> v[l] == []
    ensures Kept(v, 2, 5, [Second(x), First(x), Gone()], 3) == [Second(x)]
  {
    var input := [Second(x), First(x), Gone()];
    assert NoFileCovers(v, 4, 1.0);
    assert Kept(v, 2, 5, input, 0) == [];
    assert Kept(v, 2, 5, input, 1) == [Second(x)];
    assert Kept(v, 2, 5, input, 2) == [Second(x)];
  }

  lemma SecondInstallFiles(x: Values)
    ensures Replace(Three(x), Dropping(x), [Merged(x)]) == Four(x)
  {
    hide Table.Valid;
    hide SaveLevel;
    OneTaken(Upper(x));
    SecondLevels(x);
    assert Three(x)[2 := []][3 := [Merged(x), Left(x), Base(x)]] == Four(x);
  }

  lemma SecondLevels(x: Values)
    ensures SaveLevel([Lower(x), Left(x), Base(x)], NumbersOf([Lower(x)]), [Merged(x)]) ==
            [Merged(x), Left(x), Base(x)]
  {
    hide Table.Valid;
    hide SaveLevel;
    FirstReplaced(Lower(x), [Left(x), Base(x)], Merged(x));
    assert [Lower(x)] + [Left(x), Base(x)] == [Lower(x), Left(x), Base(x)];
  }

  /** The first file of a level gives way to one that is before it. */
  lemma FirstReplaced(f: File, rest: seq<File>, g: File)
    requires BySmallest(g, f) && g.number != f.number && forall h :: h in rest ==> h.number != f.number
    ensures SaveLevel([f] + rest, NumbersOf([f]), [g]) == [g] + rest
  {
    hide BySmallest;
    var gone, tail := NumbersOf([f]), [f] + rest;
    assert f in [f] && gone == {f.number};
    assert Merge(tail, [g]) == [g] + tail;
    KeepAll(rest, gone);
    assert tail[1..] == rest && ([g] + tail)[1..] == tail;
    assert Undeleted(tail, gone) == rest;
  }

  lemma SecondNumbers(x: Values)
    ensures Numbers([Merged(x)]) == {8}
    ensures forall l {:trigger Numbers(Three(x)[l])} ::
            0 <= l < NUM_LEVELS ==> Numbers([Merged(x)]) !! Numbers(Three(x)[l])
  {
    hide Table.Valid;
    var outs := [Merged(x)];
    assert outs[0] in outs;
  }

  lemma InputsOfSecond(x: Values)
    ensures SetOf([Second(x), First(x), Gone()]) == InputEntries(Dropping(x))
  {
    hide Table.Valid;
    OneFile(Upper(x));
    OneFile(Lower(x));
  }

  lemma OneOutput(x: Values)
    ensures LevelSorted([Merged(x)]) && NumbersDistinct([Merged(x)]) && Sorted([Second(x), First(x), Gone()])
  {
    hide Table.Valid;
  }

  lemma LaterInstallTakes(x: Values)
    ensures TakesOf(x, 19)
  {
    hide Replace;
    hide Table.Valid;
    hide LevelSorted;
    hide NumbersDistinct;
    hide Sorted;
    hide Kept;
    hide Flatten;
    hide SetOf;
    hide InputEntries;
    OneOutput(x);
    OneIsKept(x, Three(x));
    FlattenOne(Merged(x));
    SecondNumbers(x);
    InputsOfSecond(x);
    SecondInstallFiles(x);
  }

  // ---------- the run, and what is read ----------

  lemma EveryTake(x: Values, i: nat)
    requires i < 20
    ensures TakesOf(x, i)
  {
    hide TakesOf;
    EarlyTakes(x);
    PutTakes(x);
    EarlyWritesTake(x);
    FirstFlushTakes(x);
    FirstStartTakes(x);
    FirstInstallTakes(x);
    SecondWriteTakes(x);
    LaterFlushTakes(x);
    LaterStartTakes(x);
    LaterInstallTakes(x);
  }

  lemma UncoveringIsRun(x: Values)
    ensures IsRun(Uncovering(x), UncoveringSteps(x))
  {
    hide Takes;
    hide StateOf;
    hide StepOf;
    assert Init(StateOf(x, 0)) by { UncoveringStarts(x); }
    forall i | 0 <= i < 20 ensures Takes(Uncovering(x)[i], Uncovering(x)[i + 1], UncoveringSteps(x)[i]) {
      EveryTake(x, i);
    }
  }

  lemma UncoveringStarts(x: Values)
    ensures Init(StateOf(x, 0))
  {
  }

  lemma LastStates(x: Values)
    ensures StateOf(x, 19) == Late(x, {}, None, Three(x), 9, SecondMerge(x))
    ensures StateOf(x, 20) == Late(x, {}, None, Four(x), 9, None)
  {
  }

  lemma LastReads(x: Values, s: State, v: Version, e: Entry)
    requires s.mem == {} && s.imm == None && s.current == v && FirstHit(v, 0, 1.0, 5) == Some(e)
    ensures ReadAt(s, 1.0, 5) == Outcome(Some(e))
  {
    hide ReadAt;
    hide FirstHit;
    ReadsTree(s, 1.0, 5);
  }

  /** The compaction leaves a boundary file behind on its lower level, and its install brings the deleted
      value back. */
  lemma DeletedValueComesBack(x: Values)
    ensures IsRun(Uncovering(x), UncoveringSteps(x)) && !Closes(StateOf(x, 17), StepOf(x, 17))
    ensures ReadAt(StateOf(x, 19), 1.0, 5) == None
    ensures ReadAt(StateOf(x, 20), 1.0, 5) == Some(x.value(2))
    ensures Visible(StateOf(x, 20).written, 1.0, 5) == None
  {
    hide IsRun;
    hide ReadAt;
    hide FirstHit;
    hide Closes;
    hide StateOf;
    hide Three;
    hide Four;
    hide Newest;
    UncoveringIsRun(x);
    LeavesBoundary(x);
    LastStates(x);
    ReadBefore(x, Three(x));
    ReadAfter(x, Four(x));
    LastReads(x, StateOf(x, 19), Three(x), Gone());
    LastReads(x, StateOf(x, 20), Four(x), Put(x));
    NewestIs(History(x), 1.0, 5, Gone());
  }

  lemma LeavesBoundary(x: Values)
    ensures !Closes(StateOf(x, 17), StartStep(Dropping(x)))
  {
    hide Table.Valid;
    assert BoundaryFile([Lower(x)], Lower(x), Left(x)) && Left(x) in StateOf(x, 17).current[3];
  }

  lemma ThreeFiles(f: File, g: File, h: File)
    ensures EntriesOf([f, g, h]) == SetOf(f.entries) + SetOf(g.entries) + SetOf(h.entries)
  {
    assert f in [f, g, h] && g in [f, g, h] && h in [f, g, h];
  }

  lemma EntriesBefore(x: Values, v: Version)
    requires v == Three(x)
    ensures EntriesOf(v[0]) == EntriesOf(v[1]) == {} && EntriesOf(v[2]) == {Second(x)} && EntriesOf(v[3]) == Lost(x)
  {
    hide Table.Valid;
    hide EntriesOf;
    OneFile(Upper(x));
    ThreeFiles(Lower(x), Left(x), Base(x));
    NoFiles();
    assert SetOf(Upper(x).entries) == {Second(x)};
    assert SetOf(Lower(x).entries) + SetOf(Left(x).entries) + SetOf(Base(x).entries) == Lost(x);
  }

  lemma NoFiles()
    ensures EntriesOf([]) == {}
  {
  }

  lemma ReadBefore(x: Values, v: Version)
    requires v == Three(x)
    ensures FirstHit(v, 0, 1.0, 5) == Some(Gone())
  {
    hide FirstHit;
    hide EntriesOf;
    hide Holding;
    EntriesBefore(x, v);
    NewestIsNone({Second(x)}, 1.0, 5);
    NewestIs(Lost(x), 1.0, 5, Gone());
    LevelThreeDecides(v, 1.0, 5, Gone());
  }

  lemma ReadAfter(x: Values, v: Version)
    requires v == Four(x)
    ensures FirstHit(v, 0, 1.0, 5) == Some(Put(x))
  {
    hide FirstHit;
    hide Table.Valid;
    hide EntriesOf;
    ThreeFiles(Merged(x), Left(x), Base(x));
    NoFiles();
    assert SetOf(Merged(x).entries) + SetOf(Left(x).entries) + SetOf(Base(x).entries) ==
           {Second(x), Put(x), Other(x)};
    NewestIsNone({}, 1.0, 5);
    NewestIs({Second(x), Put(x), Other(x)}, 1.0, 5, Put(x));
    LevelThreeDecides(v, 1.0, 5, Put(x));
  }
}
