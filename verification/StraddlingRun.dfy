/** A run in which one user key straddles two files and a trivial move then hides its newest value.

    Values and file sizes are parameters, so the run is one that the database can take.  A first table holds
    another key; it fills level 2 and is moved to level 3.  Then CompactRange is called with no bounds: it
    flushes the two versions of the key to level 2 and, since level 3 holds a file, merges level 2 as well.
    A manual compaction merges even a lone table, and a large value cuts its output after the newer version.
    Now level 3 is too full, and its first file is moved on. */
module StraddlingRun {
  import opened Options
  import opened InternalKeys
  import opened Files
  import opened PointLookup
  import opened InputSelection
  import opened VersionBuilder
  import opened CompactionWork
  import opened TreeSteps
  import opened LsmMachine

  /** What the run leaves open: the values that are written, by sequence number, and the sizes of files, by
      file number. */
  datatype Values = Values(value: Sequence -> Bytes, size: nat -> nat)

  function Other(x: Values): Entry { Entry(InternalKey(2.0, 1, Value), x.value(1)) }

  function Older(x: Values): Entry { Entry(InternalKey(0.0, 2, Value), x.value(2)) }

  function Newer(x: Values): Entry { Entry(InternalKey(0.0, 3, Value), x.value(3)) }

  function Nothing(): Version { seq(NUM_LEVELS, _ => []) }

  function OneLevel(level: nat, files: seq<File>): Version
    requires level < NUM_LEVELS
  {
    Nothing()[level := files]
  }

  ghost function Holding(x: Values, number: nat, es: seq<Entry>): File
    requires es != [] && Sorted(es)
  {
    Table(number, x.size(number), es[0].key, es[|es| - 1].key, es)
  }

  ghost function Base(x: Values): File { assert Sorted([Other(x)]); Holding(x, 1, [Other(x)]) }

  // The flushed table, and the two tables it is cut into between the two versions of the key.
  ghost function Both(x: Values): File {
    assert Sorted([Newer(x), Older(x)]);
    Holding(x, 3, [Newer(x), Older(x)])
  }

  ghost function Front(x: Values): File { assert Sorted([Newer(x)]); Holding(x, 4, [Newer(x)]) }

  ghost function Back(x: Values): File { assert Sorted([Older(x)]); Holding(x, 5, [Older(x)]) }

  ghost function All(x: Values): set<Entry> { {Other(x), Older(x), Newer(x)} }

  ghost function Written(x: Values, mem: set<Entry>, imm: Option<set<Entry>>, v: Version, next: nat,
                         running: Option<Running>): State {
    State(mem, imm, v, 3, [2], next, running, All(x))
  }

  ghost function Settling(x: Values): Inputs { Inputs(2, [Base(x)], [], []) }

  ghost function Whole(x: Values): Inputs { Inputs(2, [Both(x)], [], []) }

  ghost function Moved(x: Values): Inputs { Inputs(3, [Front(x)], [], []) }

  ghost function Settled(x: Values): Version { OneLevel(3, [Base(x)]) }

  ghost function Flushed(x: Values): Version { Settled(x)[2 := [Both(x)]] }

  ghost function Split(x: Values): Version { OneLevel(3, [Front(x), Back(x), Base(x)]) }

  ghost function Straddling(x: Values): Version { OneLevel(3, [Back(x), Base(x)])[4 := [Front(x)]] }

  ghost function Merging(x: Values): Option<Running> { Some(Running(Whole(x), 2, Flushed(x), 4)) }

  ghost function StepAt(x: Values, i: nat): Step {
    if i == 0 then WriteStep([Other(x)])
    else if i == 1 then SwitchStep
    else if i == 2 then FlushStep(Base(x), 2)
    else if i == 3 then MoveStep(Settling(x))
    else if i == 4 then WriteStep([Older(x)])
    else if i == 5 then SnapshotStep
    else if i == 6 then WriteStep([Newer(x)])
    else if i == 7 then SwitchStep
    else if i == 8 then FlushStep(Both(x), 2)
    else if i == 9 then StartStep(Whole(x))
    else if i <= 11 then NumberStep
    else if i == 12 then InstallStep([Newer(x), Older(x)], [Front(x), Back(x)])
    else MoveStep(Moved(x))
  }

  ghost function StateAt(x: Values, i: nat): State {
    if i == 0 then State({}, None, Nothing(), 0, [], 0, None, {})
    else if i == 1 then State({Other(x)}, None, Nothing(), 1, [], 0, None, {Other(x)})
    else if i == 2 then State({}, Some({Other(x)}), Nothing(), 1, [], 1, None, {Other(x)})
    else if i == 3 then State({}, None, OneLevel(2, [Base(x)]), 1, [], 2, None, {Other(x)})
    else if i == 4 then State({}, None, Settled(x), 1, [], 2, None, {Other(x)})
    else if i == 5 then State({Older(x)}, None, Settled(x), 2, [], 2, None, {Other(x), Older(x)})
    else if i == 6 then State({Older(x)}, None, Settled(x), 2, [2], 2, None, {Other(x), Older(x)})
    else if i == 7 then Written(x, {Older(x), Newer(x)}, None, Settled(x), 2, None)
    else if i == 8 then Written(x, {}, Some({Older(x), Newer(x)}), Settled(x), 3, None)
    else if i == 9 then Written(x, {}, None, Flushed(x), 4, None)
    else if i <= 12 then Written(x, {}, None, Flushed(x), i - 6, Merging(x))
    else if i == 13 then Written(x, {}, None, Split(x), 6, None)
    else Written(x, {}, None, Straddling(x), 6, None)
  }

  ghost predicate TakesAt(x: Values, i: nat) { Takes(StateAt(x, i), StateAt(x, i + 1), StepAt(x, i)) }

  ghost function States(x: Values): seq<State> { seq(15, i requires 0 <= i => StateAt(x, i)) }

  ghost function Steps(x: Values): seq<Step> { seq(14, i requires 0 <= i => StepAt(x, i)) }

  // ---------- saving a few files ----------

  lemma OneAdded(f: File)
    ensures SaveLevel([], {}, [f]) == [f]
  {
    KeepAll([f], {});
  }

  lemma OneTaken(f: File)
    ensures SaveLevel([f], NumbersOf([f]), []) == []
  {
    var gone := NumbersOf([f]);
    assert f in [f] && f.number in gone;
    assert [f][1..] == [] && Undeleted([], gone) == [];
    assert Undeleted([f], gone) == [] + Undeleted([f][1..], gone);
  }

  // ---------- every step ----------

  lemma FirstWritesTake(x: Values)
    ensures TakesAt(x, 0) && TakesAt(x, 1)
  {
    hide Table.Valid;
    assert SetOf([Other(x)]) == {Other(x)};
  }

  lemma LaterWritesTake(x: Values)
    ensures TakesAt(x, 4) && TakesAt(x, 5) && TakesAt(x, 6) && TakesAt(x, 7)
  {
    hide Table.Valid;
    hide Holding;
    hide OneLevel;
    assert SetOf([Older(x)]) == {Older(x)} && SetOf([Newer(x)]) == {Newer(x)};
  }

  lemma SettlingTakes(x: Values)
    ensures TakesAt(x, 2) && TakesAt(x, 3)
  {
    hide Table.Valid;
    hide SaveLevel;
    assert Held(Base(x)) == {Other(x)};
    OneAdded(Base(x));
    OneTaken(Base(x));
    assert OneLevel(2, [Base(x)])[2 := []][3 := [Base(x)]] == Settled(x);
  }

  lemma FlushTakes(x: Values)
    ensures TakesAt(x, 8)
  {
    hide Table.Valid;
    hide SaveLevel;
    assert Held(Both(x)) == {Older(x), Newer(x)};
    OneAdded(Both(x));
  }

  lemma StartTakes(x: Values)
    ensures TakesAt(x, 9) && TakesAt(x, 10) && TakesAt(x, 11)
  {
    hide Table.Valid;
    var v := Flushed(x);
    var all := Whole(x).in0 + Whole(x).in1;
    assert v[2] == [Both(x)] && v[3] == [Base(x)];
    forall y | ReachesDown(all, y) && ReachesUp(all, y) ensures Covered(all, y) {
      assert Both(x) in all && Both(x).Covers(y);
    }
  }

  lemma BothAreKept(x: Values, v: Version)
    ensures Kept(v, 2, 2, [Newer(x), Older(x)], 2) == [Newer(x), Older(x)]
  {
    assert Kept(v, 2, 2, [Newer(x), Older(x)], 0) == [];
    assert Kept(v, 2, 2, [Newer(x), Older(x)], 1) == [Newer(x)];
  }

  lemma FlattenOne(f: File)
    ensures Flatten([f]) == f.entries
  {
    hide Table.Valid;
    assert [f][..0] == [];
  }

  lemma FlattenPair(f: File, g: File)
    ensures Flatten([f, g]) == f.entries + g.entries
  {
    hide Flatten;
    hide Table.Valid;
    FlattenOne(f);
    FlattenAppend([f], g);
    assert [f] + [g] == [f, g];
  }

  lemma InstallTakes(x: Values)
    ensures TakesAt(x, 12)
  {
    hide Replace;
    hide Table.Valid;
    hide Kept;
    hide Flatten;
    BothAreKept(x, Flushed(x));
    FlattenPair(Front(x), Back(x));
    OutputNumbers(x);
    assert SetOf([Newer(x), Older(x)]) == InputEntries(Whole(x));
    InstalledFiles(x);
  }

  lemma OutputNumbers(x: Values)
    ensures Numbers([Front(x), Back(x)]) == {4, 5}
    ensures forall l {:trigger Numbers(Flushed(x)[l])} ::
            0 <= l < NUM_LEVELS ==> Numbers([Front(x), Back(x)]) !! Numbers(Flushed(x)[l])
  {
    hide Table.Valid;
    var outs := [Front(x), Back(x)];
    assert outs[0] in outs && outs[1] in outs;
  }

  lemma InstalledFiles(x: Values)
    ensures Replace(Flushed(x), Whole(x), [Front(x), Back(x)]) == Split(x)
  {
    hide Table.Valid;
    hide SaveLevel;
    InstalledLevels(x);
    assert Flushed(x)[2 := []][3 := [Front(x), Back(x), Base(x)]] == Split(x);
  }

  lemma InstalledLevels(x: Values)
    ensures SaveLevel([Both(x)], NumbersOf([Both(x)]), []) == []
    ensures SaveLevel([Base(x)], {}, [Front(x), Back(x)]) == [Front(x), Back(x), Base(x)]
  {
    hide Table.Valid;
    OneTaken(Both(x));
    assert Merge([Base(x)], [Back(x)]) == [Back(x), Base(x)];
    assert Merge([Base(x)], [Front(x), Back(x)]) == [Front(x), Back(x), Base(x)];
    KeepAll([Front(x), Back(x), Base(x)], {});
  }

  lemma MoveTakes(x: Values)
    ensures TakesAt(x, 13)
  {
    hide Table.Valid;
    hide SaveLevel;
    var v := Split(x);
    assert v[3] == [Front(x), Back(x), Base(x)] && v[4] == [];
    MovedLevels(x);
    assert v[3 := [Back(x), Base(x)]][4 := [Front(x)]] == Straddling(x);
  }

  lemma MovedLevels(x: Values)
    ensures SaveLevel([Front(x), Back(x), Base(x)], NumbersOf([Front(x)]), []) == [Back(x), Base(x)]
    ensures SaveLevel([], {}, [Front(x)]) == [Front(x)]
  {
    hide Table.Valid;
    OneAdded(Front(x));
    assert NumbersOf([Front(x)]) == {4};
    KeepAll([Back(x), Base(x)], {4});
  }

  lemma AllTake(x: Values, i: nat)
    requires i < 14
    ensures TakesAt(x, i)
  {
    hide TakesAt;
    FirstWritesTake(x);
    SettlingTakes(x);
    LaterWritesTake(x);
    FlushTakes(x);
    StartTakes(x);
    InstallTakes(x);
    MoveTakes(x);
  }

  lemma StraddlingIsRun(x: Values)
    ensures IsRun(States(x), Steps(x))
  {
    hide Takes;
    hide StateAt;
    hide StepAt;
    assert Init(StateAt(x, 0)) by { FirstState(x); }
    forall i | 0 <= i < 14 ensures Takes(States(x)[i], States(x)[i + 1], Steps(x)[i]) { AllTake(x, i); }
  }

  lemma FirstState(x: Values)
    ensures Init(StateAt(x, 0))
  {
  }

  // ---------- what is read ----------

  /** The move leaves a boundary file behind, and the read at the latest sequence number then returns
      the overwritten value. */
  lemma StraddlingKeyReadsStale(x: Values)
    ensures IsRun(States(x), Steps(x)) && !Closes(StateAt(x, 13), StepAt(x, 13))
    ensures ReadAt(StateAt(x, 14), 0.0, 3) == Some(x.value(2))
    ensures Visible(StateAt(x, 14).written, 0.0, 3) == Some(x.value(3))
  {
    hide IsRun;
    hide ReadAt;
    hide FirstHit;
    hide Closes;
    StraddlingIsRun(x);
    MoveLeavesBoundary(x);
    StaleRead(x, Straddling(x));
    ReadsTree(StateAt(x, 14), 0.0, 3);
    NewestIs(All(x), 0.0, 3, Newer(x));
  }

  /** With empty memtables the tree decides. */
  lemma ReadsTree(s: State, user: UserKey, t: Sequence)
    requires s.mem == {} && s.imm == None
    ensures ReadAt(s, user, t) == Outcome(FirstHit(s.current, 0, user, t))
  {
    hide FirstHit;
  }

  lemma MoveLeavesBoundary(x: Values)
    ensures !Closes(StateAt(x, 13), MoveStep(Moved(x)))
  {
    hide Table.Valid;
    assert BoundaryFile([Front(x)], Front(x), Back(x)) && Back(x) in StateAt(x, 13).current[3];
  }

  /** With levels 0 to 2 without the key, level 3 decides. */
  lemma LevelThreeDecides(v: Version, user: UserKey, t: Sequence, e: Entry)
    requires EntriesOf(v[0]) == EntriesOf(v[1]) == {} && Newest(EntriesOf(v[2]), user, t) == None
             && Newest(EntriesOf(v[3]), user, t) == Some(e)
    ensures FirstHit(v, 0, user, t) == Some(e)
  {
    hide EntriesOf;
    NewestIsNone({}, user, t);
    assert FirstHit(v, 3, user, t) == Some(e);
    assert FirstHit(v, 2, user, t) == FirstHit(v, 1, user, t) == FirstHit(v, 0, user, t);
  }

  lemma OneFile(f: File)
    ensures EntriesOf([f]) == SetOf(f.entries)
  {
    assert f in [f];
  }

  lemma TwoFiles(f: File, g: File)
    ensures EntriesOf([f, g]) == SetOf(f.entries) + SetOf(g.entries)
  {
    assert f in [f, g] && g in [f, g];
  }

  lemma StaleRead(x: Values, v: Version)
    requires v == Straddling(x)
    ensures FirstHit(v, 0, 0.0, 3) == Some(Older(x))
  {
    hide FirstHit;
    hide Table.Valid;
    TwoFiles(Back(x), Base(x));
    assert EntriesOf([]) == {};
    assert SetOf(Back(x).entries) + SetOf(Base(x).entries) == {Older(x), Other(x)};
    NewestIsNone({}, 0.0, 3);
    NewestIs({Older(x), Other(x)}, 0.0, 3, Older(x));
    LevelThreeDecides(v, 0.0, 3, Older(x));
  }
}
