/** What one edit does to the tree: adding a flushed table, and replacing compaction inputs by outputs. */
module TreeSteps {
  import opened Options
  import opened InternalKeys
  import opened Files
  import opened PointLookup
  import opened InputSelection
  import opened VersionBuilder
  import opened CompactionWork

  ghost function Numbers(files: seq<File>): set<nat> { set f | f in files :: f.number }

  /** File numbers are unique across the tree and below `next`. */
  ghost predicate NumbersOk(v: Version, next: nat) {
    && (forall l :: 0 <= l < NUM_LEVELS ==> NumbersDistinct(v[l]) && forall n :: n in Numbers(v[l]) ==> n < next)
    && (forall l, m {:trigger Numbers(v[l]), Numbers(v[m])} ::
        0 <= l < m < NUM_LEVELS ==> Numbers(v[l]) !! Numbers(v[m]))
  }

  /** Levels from 1 on sorted with disjoint ranges, level 0 in order, numbers unique. */
  ghost predicate ShapeOk(v: Version, next: nat) { TreeShape(v) && InOrder(v[0]) && NumbersOk(v, next) }

  ghost predicate TreeOk(v: Version, next: nat) { ShapeOk(v, next) && LevelsNewer(v) && NumbersNewer(v[0]) }

  ghost predicate Beside(g: File, files: seq<File>) {
    (forall f :: f in files ==> Before(f.largest, g.smallest))
        || (forall f :: f in files ==> Before(g.largest, f.smallest))
  }

  ghost predicate NewerThanAll(g: File, files: seq<File>) {
    forall f {:trigger AllNewer(Held(g), Held(f))} :: f in files ==> AllNewer(Held(g), Held(f))
  }

  ghost predicate InputsIn(v: Version, c: Inputs) {
    && c.level + 1 < NUM_LEVELS && c.in0 != []
    && (forall f :: f in c.in0 ==> f in v[c.level])
    && (forall f :: f in c.in1 ==> f in v[c.level + 1])
  }

  lemma GoodInputsAreIn(v: Version, c: Inputs)
    requires GoodInputs(v, c)
    ensures InputsIn(v, c)
  {
  }

  ghost predicate RestIsNewer(v: Version, c: Inputs)
    requires c.level + 1 < NUM_LEVELS
  {
    && (forall g {:trigger NewerThanAll(g, c.in0)} :: g in v[c.level] && g !in c.in0 ==> NewerThanAll(g, c.in0))
    && (forall g {:trigger NewerThanAll(g, c.in0 + c.in1)} ::
        g in v[c.level + 1] && g !in c.in1 ==> NewerThanAll(g, c.in0 + c.in1))
  }

  ghost predicate RestIsBeside(v: Version, c: Inputs)
    requires c.level + 1 < NUM_LEVELS
  {
    forall g {:trigger Beside(g, c.in0 + c.in1)} :: g in v[c.level + 1] && g !in c.in1 ==> Beside(g, c.in0 + c.in1)
  }

  /** The inputs leave no gap, and what stays on the lower level lies to one side of them. */
  ghost predicate Slots(v: Version, c: Inputs) {
    InputsIn(v, c) && RestIsBeside(v, c) && Connected(c.in0 + c.in1)
  }

  /** The inputs sit in the tree so that merging them one level down disturbs nothing: what stays on
      their levels is newer, and what stays on the lower level lies to one side. */
  ghost predicate Fits(v: Version, c: Inputs) {
    InputsIn(v, c) && RestIsNewer(v, c) && RestIsBeside(v, c)
  }

  function NumbersOf(files: seq<File>): (r: set<nat>)
    ensures r == Numbers(files)
  {
    if files == [] then {} else
      assert files == [files[0]] + files[1..];
      {files[0].number} + NumbersOf(files[1..])
  }

  function AddFile(v: Version, level: nat, f: File): Version
    requires level < NUM_LEVELS
  {
    v[level := SaveLevel(v[level], {}, [f])]
  }

  /** The edit of an installed compaction: delete all inputs, add the outputs one level down. */
  function Replace(v: Version, c: Inputs, outs: seq<File>): Version
    requires c.level + 1 < NUM_LEVELS
  {
    v[c.level := SaveLevel(v[c.level], NumbersOf(c.in0), [])][c.level + 1 := SaveLevel(v[c.level + 1],
        NumbersOf(c.in1), outs)]
  }

  ghost function InputEntries(c: Inputs): set<Entry> { EntriesOf(c.in0) + EntriesOf(c.in1) }

  /** New files for the lower level: sorted, made of input entries only, and numbered apart from
      every file that stays. */
  ghost predicate OutputsOk(v: Version, c: Inputs, outs: seq<File>) {
    && c.level < NUM_LEVELS
    && LevelSorted(outs) && EntriesOf(outs) <= InputEntries(c) && NumbersDistinct(outs)
    && (forall m {:trigger Numbers(v[m])} :: 0 <= m < NUM_LEVELS && m != c.level ==> Numbers(outs) !! Numbers(v[m]))
    && Numbers(outs) * Numbers(v[c.level]) <= Numbers(c.in0)
  }

  // ---------- contents after a replacement ----------

  lemma LevelContents(files: seq<File>, chosen: seq<File>, added: seq<File>, f: File)
    requires NumbersDistinct(files) && (forall g :: g in chosen ==> g in files)
    requires Numbers(added) !! Numbers(chosen)
    ensures f in SaveLevel(files, NumbersOf(chosen), added) <==> (f in files && f !in chosen) || f in added
  {
    SaveLevelContents(files, NumbersOf(chosen), added, f);
    if f in chosen { assert f.number in Numbers(chosen); }
    if f in added { assert f.number in Numbers(added); }
    if f in files && f.number in Numbers(chosen) {
      var g :| g in chosen && g.number == f.number;
    }
  }

  lemma ReplaceContents(v: Version, next: nat, c: Inputs, outs: seq<File>, l: nat, f: File)
    requires NumbersOk(v, next) && InputsIn(v, c) && OutputsOk(v, c, outs) && l < NUM_LEVELS
    ensures f in Replace(v, c, outs)[l] <==>
              if l == c.level then f in v[l] && f !in c.in0
              else if l == c.level + 1 then (f in v[l] && f !in c.in1) || f in outs
              else f in v[l]
  {
    hide SaveLevel;
    hide LevelSorted;
    hide EntriesOf;
    hide Table.Valid;
    if l == c.level {
      LevelContents(v[l], c.in0, [], f);
    } else if l == c.level + 1 {
      forall n | n in Numbers(c.in1) ensures n in Numbers(v[l]) { }
      LevelContents(v[l], c.in1, outs, f);
    }
  }

  // ---------- shape ----------

  lemma OutputIsInside(c: Inputs, outs: seq<File>, o: File) returns (a: File, b: File)
    requires EntriesOf(outs) <= InputEntries(c) && o in outs
    ensures a in c.in0 + c.in1 && b in c.in0 + c.in1
    ensures AtOrAfter(o.smallest, a.smallest) && AtOrAfter(b.largest, o.largest)
  {
    var first, last := o.entries[0], o.entries[|o.entries| - 1];
    assert first in o.entries && last in o.entries;
    assert first in EntriesOf(outs) && last in EntriesOf(outs);
    a := HolderOf(c, first);
    b := HolderOf(c, last);
    EntryInRange(a, first);
    EntryInRange(b, last);
  }

  lemma HolderOf(c: Inputs, e: Entry) returns (f: File)
    requires e in InputEntries(c)
    ensures f in c.in0 + c.in1 && e in f.entries
    ensures e in EntriesOf(c.in0) && !(e in EntriesOf(c.in1)) ==> f in c.in0
  {
    if e in EntriesOf(c.in0) {
      f :| f in c.in0 && e in f.entries;
    } else {
      f :| f in c.in1 && e in f.entries;
    }
  }

  lemma BesideIsApart(c: Inputs, outs: seq<File>, o: File, g: File)
    requires EntriesOf(outs) <= InputEntries(c) && o in outs && Beside(g, c.in0 + c.in1)
    ensures Apart(o, g)
  {
    var a, b := OutputIsInside(c, outs, o);
  }

  lemma LowerLevelShape(c: Inputs, files: seq<File>, outs: seq<File>)
    requires LevelSorted(files) && LevelSorted(outs) && EntriesOf(outs) <= InputEntries(c)
    requires forall g :: g in files && g !in c.in1 ==> Beside(g, c.in0 + c.in1)
    ensures LevelSorted(SaveLevel(files, NumbersOf(c.in1), outs))
  {
    forall o, g | o in outs && g in files && g.number !in NumbersOf(c.in1) ensures Apart(o, g) {
      assert g in c.in1 ==> g.number in Numbers(c.in1);
      assert Beside(g, c.in0 + c.in1);
      BesideIsApart(c, outs, o, g);
    }
    SaveLevelSorted(files, NumbersOf(c.in1), outs);
  }

  lemma ReplaceShape(v: Version, c: Inputs, outs: seq<File>)
    requires TreeShape(v) && InputsIn(v, c) && RestIsBeside(v, c) && OutputsOk(v, c, outs)
    ensures TreeShape(Replace(v, c, outs))
  {
    hide SaveLevel;
    hide EntriesOf;
    hide Table.Valid;
    var v' := Replace(v, c, outs);
    forall l | 1 <= l < NUM_LEVELS ensures LevelSorted(v'[l]) {
      if l == c.level {
        SaveLevelSorted(v[l], NumbersOf(c.in0), []);
      } else if l == c.level + 1 {
        LowerLevelShape(c, v[l], outs);
      }
    }
  }

  // ---------- recency ----------

  /** Where an entry of the new tree was before: where it is now, or among the inputs. */
  ghost predicate Origin(v: Version, c: Inputs, l: nat, e: Entry)
    requires l < NUM_LEVELS && c.level + 1 < NUM_LEVELS
  {
    || (e in EntriesOf(v[l]) && (l == c.level ==> exists g :: g in v[l] && g !in c.in0 && e in g.entries))
    || (l == c.level + 1 && e in InputEntries(c))
  }

  lemma ReplaceOrigin(v: Version, next: nat, c: Inputs, outs: seq<File>, l: nat, e: Entry)
    requires NumbersOk(v, next) && InputsIn(v, c) && OutputsOk(v, c, outs) && l < NUM_LEVELS
    requires e in EntriesOf(Replace(v, c, outs)[l])
    ensures Origin(v, c, l, e)
  {
    var f :| f in Replace(v, c, outs)[l] && e in f.entries;
    ReplaceContents(v, next, c, outs, l, f);
    if l == c.level + 1 && f in outs { assert e in EntriesOf(outs); }
  }

  lemma InputLevels(v: Version, c: Inputs, e: Entry)
    requires InputsIn(v, c) && e in InputEntries(c)
    ensures e in EntriesOf(c.in0) ==> e in EntriesOf(v[c.level])
    ensures e in EntriesOf(c.in1) ==> e in EntriesOf(v[c.level + 1])
  {
  }

  lemma LevelPair(v: Version, l: nat, m: nat, x: Entry, y: Entry)
    requires LevelsNewer(v) && l < m < NUM_LEVELS && x in EntriesOf(v[l]) && y in EntriesOf(v[m])
             && x.key.user == y.key.user
    ensures x.key.sequence > y.key.sequence
  {
    assert AllNewer(EntriesOf(v[l]), EntriesOf(v[m]));
  }

  lemma StaysNewer(v: Version, c: Inputs, x: Entry, y: Entry)
    requires InputsIn(v, c) && RestIsNewer(v, c) && LevelsNewer(v) && y in InputEntries(c) && x.key.user == y.key.user
    requires exists g :: g in v[c.level] && g !in c.in0 && x in g.entries
    ensures x.key.sequence > y.key.sequence
  {
    var g :| g in v[c.level] && g !in c.in0 && x in g.entries;
    InputLevels(v, c, y);
    assert x in EntriesOf(v[c.level]);
    if y in EntriesOf(c.in1) {
      LevelPair(v, c.level, c.level + 1, x, y);
    } else {
      var f :| f in c.in0 && y in f.entries;
      assert NewerThanAll(g, c.in0);
      assert AllNewer(Held(g), Held(f));
      assert x in Held(g) && y in Held(f);
    }
  }

  lemma OriginPair(v: Version, c: Inputs, l: nat, m: nat, x: Entry, y: Entry)
    requires InputsIn(v, c) && LevelsNewer(v) && l < m < NUM_LEVELS && x.key.user == y.key.user
    requires Origin(v, c, l, x) && Origin(v, c, m, y)
    requires l == c.level && m == c.level + 1 && y in InputEntries(c) ==> x.key.sequence > y.key.sequence
    ensures x.key.sequence > y.key.sequence
  {
    if x in InputEntries(c) { InputLevels(v, c, x); }
    if y in InputEntries(c) { InputLevels(v, c, y); }
    if m == c.level + 1 && y in InputEntries(c) {
      if l != c.level {
        var k := if y in EntriesOf(c.in0) then c.level else c.level + 1;
        LevelPair(v, l, k, x, y);
      }
    } else if l == c.level + 1 && x in InputEntries(c) {
      var k := if x in EntriesOf(c.in0) then c.level else c.level + 1;
      LevelPair(v, k, m, x, y);
    } else {
      LevelPair(v, l, m, x, y);
    }
  }

  lemma ReplaceNewer(v: Version, next: nat, c: Inputs, outs: seq<File>)
    requires NumbersOk(v, next) && InputsIn(v, c) && RestIsNewer(v, c) && OutputsOk(v, c, outs) && LevelsNewer(v)
    ensures LevelsNewer(Replace(v, c, outs))
  {
    var v' := Replace(v, c, outs);
    forall l, m | 0 <= l < m < NUM_LEVELS ensures AllNewer(EntriesOf(v'[l]), EntriesOf(v'[m])) {
      forall x, y | x in EntriesOf(v'[l]) && y in EntriesOf(v'[m]) && x.key.user == y.key.user
        ensures x.key.sequence > y.key.sequence
      {
        ReplaceOrigin(v, next, c, outs, l, x);
        ReplaceOrigin(v, next, c, outs, m, y);
        if l == c.level && m == c.level + 1 && y in InputEntries(c) { StaysNewer(v, c, x, y); }
        OriginPair(v, c, l, m, x, y);
      }
    }
  }

  // ---------- numbers and contents ----------

  lemma ReplaceLevelNumbers(v: Version, next: nat, c: Inputs, outs: seq<File>, l: nat)
    requires NumbersOk(v, next) && InputsIn(v, c) && OutputsOk(v, c, outs) && l < NUM_LEVELS
    ensures Numbers(Replace(v, c, outs)[l]) <= (if l == c.level then Numbers(v[l]) - Numbers(c.in0)
                                 else if l == c.level + 1 then Numbers(v[l]) + Numbers(outs) else Numbers(v[l]))
    ensures NumbersDistinct(Replace(v, c, outs)[l])
  {
    hide SaveLevel;
    hide LevelSorted;
    hide EntriesOf;
    hide Table.Valid;
    var v' := Replace(v, c, outs);
    forall f | f in v'[l]
      ensures if l == c.level then f in v[l] && f.number in Numbers(v[l]) && f.number !in Numbers(c.in0)
              else if l == c.level + 1 then (f in v[l] && f.number in Numbers(v[l]))
                  || (f in outs && f.number in Numbers(outs))
              else f in v[l] && f.number in Numbers(v[l])
    {
      ReplaceContents(v, next, c, outs, l, f);
      if l == c.level {
        forall g | g in c.in0 ensures g.number != f.number { }
      }
    }
  }

  lemma ReplaceNumbersApart(v: Version, next: nat, c: Inputs, outs: seq<File>, l: nat, m: nat)
    requires NumbersOk(v, next) && InputsIn(v, c) && OutputsOk(v, c, outs) && l < m < NUM_LEVELS
    ensures Numbers(Replace(v, c, outs)[l]) !! Numbers(Replace(v, c, outs)[m])
  {
    ReplaceLevelNumbers(v, next, c, outs, l);
    ReplaceLevelNumbers(v, next, c, outs, m);
    assert Numbers(v[l]) !! Numbers(v[m]);
    if l == c.level + 1 { assert Numbers(outs) !! Numbers(v[m]); }
    if m == c.level + 1 && l != c.level { assert Numbers(outs) !! Numbers(v[l]); }
  }

  lemma ReplaceNumbers(v: Version, next: nat, c: Inputs, outs: seq<File>, next': nat)
    requires NumbersOk(v, next) && InputsIn(v, c) && OutputsOk(v, c, outs) && next <= next'
    requires forall n :: n in Numbers(outs) ==> n < next'
    ensures NumbersOk(Replace(v, c, outs), next')
  {
    var v' := Replace(v, c, outs);
    forall l | 0 <= l < NUM_LEVELS
      ensures NumbersDistinct(v'[l]) && forall n :: n in Numbers(v'[l]) ==> n < next'
    {
      ReplaceLevelNumbers(v, next, c, outs, l);
    }
    forall l, m | 0 <= l < m < NUM_LEVELS ensures Numbers(v'[l]) !! Numbers(v'[m]) {
      ReplaceNumbersApart(v, next, c, outs, l, m);
    }
  }

  ghost function RestEntries(v: Version, c: Inputs): set<Entry> {
    set l, f, e | 0 <= l < NUM_LEVELS && f in v[l] && !(l == c.level && f in c.in0)
        && !(l == c.level + 1 && f in c.in1) && e in f.entries :: e
  }

  lemma EntriesSplit(v: Version, c: Inputs)
    requires InputsIn(v, c)
    ensures AllEntries(v) == RestEntries(v, c) + InputEntries(c)
  {
    forall e ensures e in AllEntries(v) <==> e in RestEntries(v, c) + InputEntries(c) {
      if e in AllEntries(v) {
        var l :| 0 <= l < NUM_LEVELS && e in EntriesOf(v[l]);
        var f :| f in v[l] && e in f.entries;
      }
      if e in InputEntries(c) { InputLevels(v, c, e); }
      if e in RestEntries(v, c) {
        var l, f :| 0 <= l < NUM_LEVELS && f in v[l] && e in f.entries;
        assert e in EntriesOf(v[l]);
      }
    }
  }

  lemma EntryStays(v: Version, next: nat, c: Inputs, outs: seq<File>, e: Entry)
    requires NumbersOk(v, next) && InputsIn(v, c) && OutputsOk(v, c, outs)
    requires e in RestEntries(v, c) || e in EntriesOf(outs)
    ensures e in AllEntries(Replace(v, c, outs))
  {
    hide Replace;
    hide NumbersDistinct;
    hide Numbers;
    var v' := Replace(v, c, outs);
    if e in EntriesOf(outs) {
      var f :| f in outs && e in f.entries;
      ReplaceContents(v, next, c, outs, c.level + 1, f);
      assert e in EntriesOf(v'[c.level + 1]);
    } else {
      var l, f :| 0 <= l < NUM_LEVELS && f in v[l] && !(l == c.level && f in c.in0)
          && !(l == c.level + 1 && f in c.in1) && e in f.entries;
      ReplaceContents(v, next, c, outs, l, f);
      assert e in EntriesOf(v'[l]);
    }
  }

  lemma EntryIsOld(v: Version, next: nat, c: Inputs, outs: seq<File>, e: Entry)
    requires NumbersOk(v, next) && InputsIn(v, c) && OutputsOk(v, c, outs)
    requires e in AllEntries(Replace(v, c, outs))
    ensures e in RestEntries(v, c) || e in EntriesOf(outs)
  {
    hide SaveLevel;
    hide LevelSorted;
    hide Table.Valid;
    var v' := Replace(v, c, outs);
    var l :| 0 <= l < NUM_LEVELS && e in EntriesOf(v'[l]);
    var f :| f in v'[l] && e in f.entries;
    ReplaceContents(v, next, c, outs, l, f);
  }

  lemma ReplaceEntries(v: Version, next: nat, c: Inputs, outs: seq<File>)
    requires NumbersOk(v, next) && InputsIn(v, c) && OutputsOk(v, c, outs)
    ensures AllEntries(Replace(v, c, outs)) == RestEntries(v, c) + EntriesOf(outs)
  {
    hide NumbersOf;
    hide InternalKey.Tag;
    hide BySmallest;
    forall e ensures e in AllEntries(Replace(v, c, outs)) <==> e in RestEntries(v, c) + EntriesOf(outs) {
      if e in AllEntries(Replace(v, c, outs)) { EntryIsOld(v, next, c, outs, e); }
      if e in RestEntries(v, c) + EntriesOf(outs) { EntryStays(v, next, c, outs, e); }
    }
  }

  lemma ReplaceLevel0(v: Version, next: nat, c: Inputs, outs: seq<File>)
    requires NumbersOk(v, next) && InputsIn(v, c) && OutputsOk(v, c, outs) && NumbersNewer(v[0])
    ensures NumbersNewer(Replace(v, c, outs)[0])
  {
    var r := Replace(v, c, outs)[0];
    forall f | f in r ensures f in v[0] { ReplaceContents(v, next, c, outs, 0, f); }
  }

  /** Replacing inputs by outputs made of their entries keeps the shape of the tree. */
  lemma ReplaceKeepsShape(v: Version, next: nat, c: Inputs, outs: seq<File>, next': nat)
    requires ShapeOk(v, next) && InputsIn(v, c) && RestIsBeside(v, c) && OutputsOk(v, c, outs) && next <= next'
    requires forall n :: n in Numbers(outs) ==> n < next'
    ensures ShapeOk(Replace(v, c, outs), next')
  {
    hide Undeleted;
    hide Merge;
    hide InternalKey.Tag;
    ReplaceShape(v, c, outs);
    ReplaceNumbers(v, next, c, outs, next');
    if c.level == 0 { SaveLevelInOrder(v[0], NumbersOf(c.in0), []); }
  }

  /** Replacing fitting inputs by proper outputs keeps the tree in order. */
  lemma ReplaceKeepsTree(v: Version, next: nat, c: Inputs, outs: seq<File>, next': nat)
    requires TreeOk(v, next) && Fits(v, c) && OutputsOk(v, c, outs) && next <= next'
    requires forall n :: n in Numbers(outs) ==> n < next'
    ensures TreeOk(Replace(v, c, outs), next')
  {
    ReplaceKeepsShape(v, next, c, outs, next');
    ReplaceNewer(v, next, c, outs);
    ReplaceLevel0(v, next, c, outs);
  }

  // ---------- adding a flushed table ----------

  /** A flushed table: newer than the whole tree and, below level 0, overlapping nothing down to its level. */
  ghost predicate FlushOk(v: Version, level: nat, f: File) {
    && level <= MAX_MEM_COMPACT_LEVEL
    && (forall e, x :: e in f.entries && x in AllEntries(v) ==> e.key.sequence > x.key.sequence)
    && (level > 0 ==>
        forall l, g :: 0 <= l <= level && g in v[l] ==> !g.Overlaps(Some(f.smallest.user), Some(f.largest.user)))
  }

  lemma AddContents(v: Version, level: nat, f: File, l: nat, g: File)
    requires level < NUM_LEVELS && l < NUM_LEVELS
    ensures g in AddFile(v, level, f)[l] <==> g in v[l] || (l == level && g == f)
  {
    SaveLevelContents(v[level], {}, [f], g);
  }

  lemma NoOverlapMeansApart(f: File, g: File)
    requires !g.Overlaps(Some(f.smallest.user), Some(f.largest.user))
    ensures Apart(f, g) && AllNewer(Held(g), Held(f)) && AllNewer(Held(f), Held(g))
    ensures g.largest.user < f.smallest.user || f.largest.user < g.smallest.user
  {
    FileIsOrdered(f);
    FileIsOrdered(g);
    forall x, y | x in Held(g) && y in Held(f) ensures x.key.user != y.key.user {
      EntryInRange(g, x);
      EntryInRange(f, y);
    }
  }

  lemma SharedKeyMeansOverlap(f: File, g: File, x: Entry, y: Entry)
    requires x in f.entries && y in g.entries && x.key.user == y.key.user
    ensures g.Overlaps(Some(f.smallest.user), Some(f.largest.user))
  {
    EntryInRange(f, x);
    EntryInRange(g, y);
  }

  lemma AddShape(v: Version, level: nat, f: File)
    requires TreeShape(v) && InOrder(v[0]) && FlushOk(v, level, f)
    ensures TreeShape(AddFile(v, level, f)) && InOrder(AddFile(v, level, f)[0])
  {
    if level == 0 {
      SaveLevelInOrder(v[0], {}, [f]);
    } else {
      forall a, b | a in [f] && b in v[level] ensures Apart(a, b) { NoOverlapMeansApart(f, b); }
      SaveLevelSorted(v[level], {}, [f]);
    }
  }

  lemma AddEntry'(v: Version, level: nat, f: File, l: nat, e: Entry)
    requires level < NUM_LEVELS && l < NUM_LEVELS
    ensures e in EntriesOf(AddFile(v, level, f)[l]) <==> e in EntriesOf(v[l]) || (l == level && e in f.entries)
  {
    if e in EntriesOf(AddFile(v, level, f)[l]) {
      var g :| g in AddFile(v, level, f)[l] && e in g.entries;
      AddContents(v, level, f, l, g);
    }
    if e in EntriesOf(v[l]) {
      var g :| g in v[l] && e in g.entries;
      AddContents(v, level, f, l, g);
    }
    AddContents(v, level, f, level, f);
  }

  lemma FlushedPair(v: Version, level: nat, f: File, l: nat, m: nat, x: Entry, y: Entry)
    requires LevelsNewer(v) && FlushOk(v, level, f) && l < m < NUM_LEVELS && x.key.user == y.key.user
    requires x in EntriesOf(v[l]) || (l == level && x in f.entries)
    requires y in EntriesOf(v[m]) || (m == level && y in f.entries)
    ensures x.key.sequence > y.key.sequence
  {
    if x in EntriesOf(v[l]) && y in EntriesOf(v[m]) {
      LevelPair(v, l, m, x, y);
    } else if y in EntriesOf(v[m]) {
      assert y in AllEntries(v);
    } else {
      var g :| g in v[l] && x in g.entries;
      SharedKeyMeansOverlap(f, g, y, x);
    }
  }

  lemma AddNewer(v: Version, level: nat, f: File)
    requires LevelsNewer(v) && FlushOk(v, level, f)
    ensures LevelsNewer(AddFile(v, level, f))
  {
    var v' := AddFile(v, level, f);
    forall l, m | 0 <= l < m < NUM_LEVELS ensures AllNewer(EntriesOf(v'[l]), EntriesOf(v'[m])) {
      forall x, y | x in EntriesOf(v'[l]) && y in EntriesOf(v'[m]) && x.key.user == y.key.user
        ensures x.key.sequence > y.key.sequence
      {
        AddEntry'(v, level, f, l, x);
        AddEntry'(v, level, f, m, y);
        FlushedPair(v, level, f, l, m, x, y);
      }
    }
  }

  lemma FlushedIsNewer(v: Version, level: nat, f: File, l: nat, g: File)
    requires FlushOk(v, level, f) && l < NUM_LEVELS && g in v[l]
    ensures AllNewer(Held(f), Held(g))
  {
    forall x, y | x in Held(f) && y in Held(g) ensures x.key.sequence > y.key.sequence {
      assert y in EntriesOf(v[l]);
      assert y in AllEntries(v);
    }
  }

  lemma AddLevelNumbers(v: Version, next: nat, level: nat, f: File, l: nat)
    requires NumbersOk(v, next) && level < NUM_LEVELS && f.number == next && l < NUM_LEVELS
    ensures Numbers(AddFile(v, level, f)[l]) <= Numbers(v[l]) + (if l == level then {next} else {})
    ensures NumbersDistinct(AddFile(v, level, f)[l])
  {
    forall g | g in AddFile(v, level, f)[l]
      ensures (g in v[l] && g.number in Numbers(v[l])) || (l == level && g == f)
    {
      AddContents(v, level, f, l, g);
    }
  }

  lemma AddNumbers(v: Version, next: nat, level: nat, f: File)
    requires NumbersOk(v, next) && level < NUM_LEVELS && f.number == next
    ensures NumbersOk(AddFile(v, level, f), next + 1)
  {
    var v' := AddFile(v, level, f);
    forall l | 0 <= l < NUM_LEVELS
      ensures NumbersDistinct(v'[l]) && forall n :: n in Numbers(v'[l]) ==> n < next + 1
    {
      AddLevelNumbers(v, next, level, f, l);
    }
    forall l, m | 0 <= l < m < NUM_LEVELS ensures Numbers(v'[l]) !! Numbers(v'[m]) {
      AddLevelNumbers(v, next, level, f, l);
      AddLevelNumbers(v, next, level, f, m);
      assert next !in Numbers(v[l]) && next !in Numbers(v[m]);
      assert Numbers(v[l]) !! Numbers(v[m]);
    }
  }

  lemma AddLevel0(v: Version, next: nat, level: nat, f: File)
    requires NumbersOk(v, next) && NumbersNewer(v[0]) && FlushOk(v, level, f) && f.number == next
    ensures NumbersNewer(AddFile(v, level, f)[0])
  {
    var r := AddFile(v, level, f)[0];
    forall g, h | g in r && h in r && g.number > h.number ensures AllNewer(Held(g), Held(h)) {
      AddContents(v, level, f, 0, g);
      AddContents(v, level, f, 0, h);
      assert g in v[0] ==> g.number in Numbers(v[0]);
      if h in v[0] && g !in v[0] { FlushedIsNewer(v, level, f, 0, h); }
    }
  }

  lemma AddEntries(v: Version, level: nat, f: File)
    requires level < NUM_LEVELS
    ensures AllEntries(AddFile(v, level, f)) == AllEntries(v) + Held(f)
  {
    var v' := AddFile(v, level, f);
    forall e ensures e in AllEntries(v') <==> e in AllEntries(v) + Held(f) {
      if e in AllEntries(v') {
        var l :| 0 <= l < NUM_LEVELS && e in EntriesOf(v'[l]);
        AddEntry'(v, level, f, l, e);
      }
      if e in AllEntries(v) {
        var l :| 0 <= l < NUM_LEVELS && e in EntriesOf(v[l]);
        AddEntry'(v, level, f, l, e);
      }
      AddEntry'(v, level, f, level, e);
    }
  }

  lemma AddKeepsShape(v: Version, next: nat, level: nat, f: File)
    requires ShapeOk(v, next) && FlushOk(v, level, f) && f.number == next
    ensures ShapeOk(AddFile(v, level, f), next + 1)
  {
    AddShape(v, level, f);
    AddNumbers(v, next, level, f);
  }

  lemma AddKeepsTree(v: Version, next: nat, level: nat, f: File)
    requires TreeOk(v, next) && FlushOk(v, level, f) && f.number == next
    ensures TreeOk(AddFile(v, level, f), next + 1)
  {
    AddKeepsShape(v, next, level, f);
    AddNewer(v, level, f);
    AddLevel0(v, next, level, f);
  }

  /** A table flushed onto the output level of a running compaction falls to one side of inputs
      that leave no gap. */
  lemma FlushIsBeside(v: Version, c: Inputs, level: nat, f: File)
    requires InputsIn(v, c) && Connected(c.in0 + c.in1) && FlushOk(v, level, f) && level == c.level + 1
    ensures Beside(f, c.in0 + c.in1)
  {
    var all := c.in0 + c.in1;
    forall g | g in all ensures Apart(f, g) && !g.Covers(f.smallest.user)
        && (g.largest.user < f.smallest.user || f.largest.user < g.smallest.user) {
      assert g in v[c.level] || g in v[c.level + 1];
      NoOverlapMeansApart(f, g);
      FileIsOrdered(f);
    }
    assert !Covered(all, f.smallest.user);
    FileIsOrdered(f);
    forall g | g in all ensures g.smallest.user <= g.largest.user { FileIsOrdered(g); }
    assert !ReachesDown(all, f.smallest.user) || !ReachesUp(all, f.smallest.user);
  }

  lemma AddKeepsSlots(v: Version, c: Inputs, level: nat, f: File)
    requires Slots(v, c) && FlushOk(v, level, f)
    ensures Slots(AddFile(v, level, f), c)
  {
    var v' := AddFile(v, level, f);
    forall l, g | 0 <= l < NUM_LEVELS
      ensures g in v'[l] <==> g in v[l] || (l == level && g == f)
    {
      AddContents(v, level, f, l, g);
    }
    if level == c.level + 1 { FlushIsBeside(v, c, level, f); }
  }

  lemma AddKeepsRestNewer(v: Version, c: Inputs, level: nat, f: File)
    requires InputsIn(v, c) && RestIsNewer(v, c) && FlushOk(v, level, f)
    ensures RestIsNewer(AddFile(v, level, f), c)
  {
    var v' := AddFile(v, level, f);
    forall l, g | 0 <= l < NUM_LEVELS
      ensures g in v'[l] <==> g in v[l] || (l == level && g == f)
    {
      AddContents(v, level, f, l, g);
    }
    forall g | g in c.in0 + c.in1 ensures AllNewer(Held(f), Held(g)) {
      FlushedIsNewer(v, level, f, if g in c.in0 then c.level else c.level + 1, g);
    }
    assert NewerThanAll(f, c.in0) && NewerThanAll(f, c.in0 + c.in1);
  }

  /** A flush inside a running compaction leaves its inputs as good as they were. */
  lemma AddKeepsFit(v: Version, c: Inputs, level: nat, f: File)
    requires Fits(v, c) && Connected(c.in0 + c.in1) && FlushOk(v, level, f)
    ensures Fits(AddFile(v, level, f), c)
  {
    AddKeepsSlots(v, c, level, f);
    AddKeepsRestNewer(v, c, level, f);
  }

  // ---------- picked inputs fit ----------

  /** A file left behind that continues, with older entries, the last user key of a chosen one. */
  ghost predicate BoundaryFile(chosen: seq<File>, f: File, g: File) {
    f in chosen && g !in chosen && f.largest.user == g.smallest.user && Before(f.largest, g.smallest)
  }

  ghost predicate NoBoundaryFile(files: seq<File>, chosen: seq<File>) {
    forall f, g :: g in files ==> !BoundaryFile(chosen, f, g)
  }

  lemma SharedKeyAcrossFiles(files: seq<File>, f: File, g: File, x: Entry, y: Entry)
    requires LevelSorted(files) && f in files && g in files && f != g && Unique(EntriesOf(files))
    requires x in f.entries && y in g.entries && x.key.user == y.key.user
    ensures y.key.sequence > x.key.sequence ||
            (f.largest.user == g.smallest.user && Before(f.largest, g.smallest))
  {
    SortedIsApart(files, f, g);
    EntryInRange(f, x);
    EntryInRange(g, y);
    assert x in EntriesOf(files) && y in EntriesOf(files);
  }

  /** On a sorted level, what stays is newer than what is chosen exactly when no boundary file is left
      behind: this is what a caller can check on file metadata alone. */
  lemma StaysNewerIff(files: seq<File>, chosen: seq<File>)
    requires LevelSorted(files) && Unique(EntriesOf(files)) && (forall f :: f in chosen ==> f in files)
    ensures (forall g :: g in files && g !in chosen ==> NewerThanAll(g, chosen)) <==> NoBoundaryFile(files, chosen)
  {
    hide EntriesOf;
    if NoBoundaryFile(files, chosen) {
      forall g, f | g in files && g !in chosen && f in chosen ensures AllNewer(Held(g), Held(f)) {
        forall y, x | y in Held(g) && x in Held(f) && y.key.user == x.key.user ensures y.key.sequence > x.key.sequence {
          assert !BoundaryFile(chosen, f, g);
          SharedKeyAcrossFiles(files, f, g, x, y);
        }
      }
    } else {
      var f, g :| g in files && BoundaryFile(chosen, f, g);
      var x, y := f.entries[|f.entries| - 1], g.entries[0];
      assert x in Held(f) && y in Held(g);
      assert NewerThanAll(g, chosen) ==> AllNewer(Held(g), Held(f));
    }
  }

  /** No boundary file is left behind on either input level.  On level 0, where inputs are closed under
      overlap, there is nothing to check. */
  ghost predicate BoundaryClosed(v: Version, c: Inputs)
    requires c.level + 1 < NUM_LEVELS
  {
    (c.level > 0 ==> NoBoundaryFile(v[c.level], c.in0)) && NoBoundaryFile(v[c.level + 1], c.in1)
  }

  lemma UntouchedIsApart(v: Version, c: Inputs, g: File, f: File)
    requires f in c.in0 && !Touches(g, c.in0)
    ensures Apart(f, g) && AllNewer(Held(g), Held(f))
    ensures g.largest.user < f.smallest.user || f.largest.user < g.smallest.user
  {
    FileIsOrdered(f);
    FileIsOrdered(g);
    if g.Overlaps(Some(f.smallest.user), Some(f.largest.user)) {
      assert ReachesDown(c.in0, g.largest.user) && ReachesUp(c.in0, g.smallest.user);
      assert Touches(g, c.in0);
    } else {
      NoOverlapMeansApart(f, g);
    }
  }

  /** A lower file left behind lies wholly before or wholly after the span of the upper inputs, and
      hence on the same side of every lower input. */
  lemma LeftBehindIsBeside(v: Version, c: Inputs, g: File)
    requires GoodInputs(v, c) && TreeShape(v) && g in v[c.level + 1] && g !in c.in1
    ensures Beside(g, c.in0 + c.in1)
  {
    var all := c.in0 + c.in1;
    forall f | f in c.in0
        ensures Apart(f, g) && (g.largest.user < f.smallest.user || f.largest.user < g.smallest.user) {
      UntouchedIsApart(v, c, g, f);
    }
    FileIsOrdered(g);
    assert !Touches(g, c.in0);
    if !ReachesDown(c.in0, g.largest.user) {
      forall f | f in all ensures Before(g.largest, f.smallest) {
        if f in c.in1 {
          assert Touches(f, c.in0);
          var h :| h in c.in0 && h.smallest.user <= f.largest.user;
          LowerOrder(v[c.level + 1], g, f, h.smallest.user);
        }
      }
    } else {
      forall f | f in all ensures Before(f.largest, g.smallest) {
        if f in c.in1 {
          assert Touches(f, c.in0);
          var h :| h in c.in0 && h.largest.user >= f.smallest.user;
          UpperOrder(v[c.level + 1], g, f, h.largest.user);
        }
      }
    }
  }

  lemma LowerOrder(files: seq<File>, g: File, f: File, k: UserKey)
    requires LevelSorted(files) && g in files && f in files && g != f && g.largest.user < k <= f.largest.user
    ensures Before(g.largest, f.smallest)
  {
    SortedIsApart(files, g, f);
    FileIsOrdered(g);
    FileIsOrdered(f);
  }

  lemma UpperOrder(files: seq<File>, g: File, f: File, k: UserKey)
    requires LevelSorted(files) && g in files && f in files && g != f && f.smallest.user <= k < g.smallest.user
    ensures Before(f.largest, g.smallest)
  {
    SortedIsApart(files, f, g);
    FileIsOrdered(g);
    FileIsOrdered(f);
  }

  lemma PickedRestIsNewer(v: Version, c: Inputs)
    requires GoodInputs(v, c) && TreeShape(v) && Unique(AllEntries(v)) && BoundaryClosed(v, c)
    ensures RestIsNewer(v, c)
  {
    forall g | g in v[c.level] && g !in c.in0 ensures NewerThanAll(g, c.in0) {
      if c.level == 0 {
        forall f | f in c.in0 ensures AllNewer(Held(g), Held(f)) { NoOverlapMeansApart(f, g); }
      } else {
        LevelIsUnique(v, c.level);
        StaysNewerIff(v[c.level], c.in0);
      }
    }
    LevelIsUnique(v, c.level + 1);
    StaysNewerIff(v[c.level + 1], c.in1);
    forall g | g in v[c.level + 1] && g !in c.in1 ensures NewerThanAll(g, c.in0 + c.in1) {
      forall f | f in c.in0 + c.in1 ensures AllNewer(Held(g), Held(f)) {
        if f in c.in0 {
          UntouchedIsApart(v, c, g, f);
        } else {
          assert NewerThanAll(g, c.in1);
        }
      }
    }
  }

  /** What picked inputs leave behind on the lower level lies to one side of them, boundary file or not. */
  lemma PickedRestIsBeside(v: Version, c: Inputs)
    requires GoodInputs(v, c) && TreeShape(v)
    ensures InputsIn(v, c) && RestIsBeside(v, c)
  {
    forall g | g in v[c.level + 1] && g !in c.in1 ensures Beside(g, c.in0 + c.in1) { LeftBehindIsBeside(v, c, g); }
  }

  /** Picked inputs fit the tree they were picked from when no boundary file is left behind. */
  lemma PickedFits(v: Version, c: Inputs)
    requires GoodInputs(v, c) && TreeShape(v) && Unique(AllEntries(v)) && BoundaryClosed(v, c)
    ensures Fits(v, c)
  {
    PickedRestIsNewer(v, c);
    PickedRestIsBeside(v, c);
  }
}
