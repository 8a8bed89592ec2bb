/** What a compaction does to lookups when its inputs leave boundary files behind, exactly. */
module BoundaryMerges {
  import opened Options
  import opened InternalKeys
  import opened Files
  import opened PointLookup
  import opened InputSelection
  import opened VersionBuilder
  import opened CompactionWork
  import opened TreeSteps
  import opened LsmMachine
  import opened BoundaryFiles

  // ---------- what is left behind ----------

  /** A boundary file of the inputs on level `l` that continues `user`. */
  ghost predicate LeftAt(c: Inputs, user: UserKey, l: nat, g: File) {
    && g.smallest.user == user
    && ((l == c.level > 0 && exists f :: BoundaryFile(c.in0, f, g))
       || (l == c.level + 1 && exists f :: BoundaryFile(c.in1, f, g)))
  }

  /** The versions of `user` in boundary files. */
  ghost function LeftEntries(v: Version, c: Inputs, user: UserKey): set<Entry> {
    set l, g, e | 0 <= l < NUM_LEVELS && g in v[l] && LeftAt(c, user, l, g) && e in g.entries && e.key.user == user :: e
  }

  ghost predicate IsNewestInput(c: Inputs, user: UserKey, e: Entry) {
    && e in InputEntries(c) && e.key.user == user
    && forall x :: x in InputEntries(c) && x.key.user == user ==> x.key.sequence <= e.key.sequence
  }

  /** The newest version of `user` among the inputs is a deletion that the compaction drops. */
  ghost predicate DropsDeletion(v: Version, c: Inputs, smallest: Sequence, user: UserKey) {
    exists e :: IsNewestInput(c, user, e) && e.key.kind.Deletion? && e.key.sequence <= smallest
        && NoFileCovers(v, c.level + 2, user)
  }

  /** Wherever a boundary file stays on the upper level, nothing newer of its key moves below it: the compaction
      drops the key from its inputs. */
  ghost predicate NothingSinks(v: Version, c: Inputs, smallest: Sequence)
    requires c.level + 1 < NUM_LEVELS
  {
    c.level > 0 ==>
        forall f, g :: g in v[c.level] && BoundaryFile(c.in0, f, g) ==> DropsDeletion(v, c, smallest, g.smallest.user)
  }

  /** The newest version of `user` at the snapshot bound is a deletion among the inputs, it is dropped, and the
      newest version that a boundary file holds below it is a put. */
  ghost predicate Uncovers(v: Version, c: Inputs, smallest: Sequence, user: UserKey) {
    var d, left := Newest(AllEntries(v), user, smallest), Newest(LeftEntries(v, c, user), user, smallest);
    && d.Some? && d.value in InputEntries(c) && d.value.key.kind.Deletion? && NoFileCovers(v, c.level + 2, user)
    && left.Some? && left.value.key.kind.Value?
  }

  // ---------- which inputs survive ----------

  lemma OlderIsDropped(v: Version, level: nat, smallest: Sequence, input: seq<Entry>, i: nat, j: nat)
    requires Sorted(input) && i < j < |input| && input[i].key.user == input[j].key.user
             && input[i].key.sequence <= smallest
    ensures Dropped(v, level, smallest, input, j)
  {
    SortedUserKeysAreContiguous(input, i, j);
  }

  lemma KeptOlder(v: Version, level: nat, smallest: Sequence, input: seq<Entry>, x: Entry, y: Entry)
    requires Sorted(input) && x in SetOf(input) && y in KeptSet(v, level, smallest, input)
    requires x.key.user == y.key.user && x.key.sequence <= smallest
    ensures x.key.sequence <= y.key.sequence
  {
    var i :| 0 <= i < |input| && input[i] == x;
    var j :| 0 <= j < |input| && input[j] == y && !Dropped(v, level, smallest, input, j);
    if i < j { OlderIsDropped(v, level, smallest, input, i, j); }
    if j < i { assert Before(input[j].key, input[i].key); }
  }

  lemma DeletionIsDropped(v: Version, level: nat, smallest: Sequence, input: seq<Entry>, e: Entry)
    requires Sorted(input) && e in SetOf(input) && e.key.kind.Deletion? && e.key.sequence <= smallest
             && NoFileCovers(v, level + 2, e.key.user)
    ensures e !in KeptSet(v, level, smallest, input)
  {
  }

  lemma NewestInputStays(v: Version, c: Inputs, smallest: Sequence, input: seq<Entry>, e: Entry)
    requires Sorted(input) && SetOf(input) == InputEntries(c) && Unique(InputEntries(c))
             && IsNewestInput(c, e.key.user, e)
    requires !(e.key.kind.Deletion? && e.key.sequence <= smallest && NoFileCovers(v, c.level + 2, e.key.user))
    ensures e in KeptSet(v, c.level, smallest, input)
  {
    assert e in SetOf(input);
    var i :| 0 <= i < |input| && input[i] == e;
    assert i > 0 ==> Before(input[i - 1].key, input[i].key) && input[i - 1] in SetOf(input);
    assert !Dropped(v, c.level, smallest, input, i);
  }

  /** A dropped newest deletion takes all versions of its key among the inputs with it. */
  lemma DeletionLeavesNothing(v: Version, c: Inputs, smallest: Sequence, input: seq<Entry>, user: UserKey, y: Entry)
    requires Sorted(input) && SetOf(input) == InputEntries(c) && DropsDeletion(v, c, smallest, user)
             && Unique(InputEntries(c))
    requires y in KeptSet(v, c.level, smallest, input)
    ensures y.key.user != user
  {
    if y.key.user == user {
      var e :| IsNewestInput(c, user, e) && e.key.kind.Deletion? && e.key.sequence <= smallest
          && NoFileCovers(v, c.level + 2, user);
      assert y in SetOf(input) && e in SetOf(input);
      KeptOlder(v, c.level, smallest, input, e, y);
      DeletionIsDropped(v, c.level, smallest, input, e);
    }
  }

  lemma NewestInputExists(c: Inputs, user: UserKey, x: Entry) returns (e: Entry)
    requires x in InputEntries(c) && x.key.user == user
    ensures IsNewestInput(c, user, e)
  {
    var mine := set y | y in InputEntries(c) && y.key.user == user;
    assert x in mine;
    e := Latest(mine);
    forall y | y in InputEntries(c) && y.key.user == user ensures y.key.sequence <= e.key.sequence { assert y in mine; }
  }

  // ---------- where older versions are ----------

  /** What holds of picked inputs for as long as their compaction runs: of the lower level, what stays does not
      meet the upper inputs, and what stays on level 0 is newer than its inputs. */
  ghost predicate InputsStand(v: Version, c: Inputs) {
    && InputsIn(v, c)
    && (forall g :: g in v[c.level + 1] && g !in c.in1 ==> !Touches(g, c.in0))
    && (c.level == 0 ==>
          forall f, g :: f in c.in0 && g in v[0] && g !in c.in0 ==> AllNewer(Held(g), Held(f)))
  }

  lemma StandingAreIn(v: Version, c: Inputs)
    requires InputsStand(v, c)
    ensures InputsIn(v, c)
  {
  }

  lemma GoodInputsStand(v: Version, c: Inputs)
    requires GoodInputs(v, c)
    ensures InputsStand(v, c)
  {
    if c.level == 0 {
      forall f, g | f in c.in0 && g in v[0] && g !in c.in0 ensures AllNewer(Held(g), Held(f)) {
        NoOverlapMeansApart(f, g);
      }
    }
  }

  lemma SharedIsBoundary(files: seq<File>, chosen: seq<File>, f: File, g: File, d: Entry, e: Entry)
    requires LevelSorted(files) && Unique(EntriesOf(files)) && f in files && f in chosen && g in files && g !in chosen
    requires d in f.entries && e in g.entries && d.key.user == e.key.user && e.key.sequence < d.key.sequence
    ensures BoundaryFile(chosen, f, g) && g.smallest.user == e.key.user
  {
    SharedKeyAcrossFiles(files, f, g, d, e);
    EntryInRange(f, d);
    EntryInRange(g, e);
  }

  /** Under a dropped deletion among the inputs, older versions of its key are in boundary files only. */
  lemma OlderIsLeft(v: Version, c: Inputs, d: Entry, e: Entry)
    requires InputsStand(v, c) && TreeShape(v) && LevelsNewer(v) && Unique(AllEntries(v))
             && NoFileCovers(v, c.level + 2, d.key.user)
    requires d in InputEntries(c) && e in RestEntries(v, c) && e.key.user == d.key.user
             && e.key.sequence < d.key.sequence
    ensures e in LeftEntries(v, c, d.key.user)
  {
    hide BoundaryFile;
    hide InternalKey.Tag;
    hide LeftAt;
    hide InputEntries;
    hide LevelsNewer;
    hide Unique;
    hide AllEntries;
    var l, g :| 0 <= l < NUM_LEVELS && g in v[l] && !(l == c.level && g in c.in0) && !(l == c.level + 1 && g in c.in1)
        && e in g.entries;
    var f := HolderOf(c, d);
    EntryInRange(g, e);
    assert e in EntriesOf(v[l]);
    assert InputsIn(v, c);
    InputLevels(v, c, d);
    LeftLevel(v, c, d, e, l, g, f);
    assert LeftAt(c, d.key.user, l, g);
  }

  lemma LeftLevel(v: Version, c: Inputs, d: Entry, e: Entry, l: nat, g: File, f: File)
    requires InputsStand(v, c) && TreeShape(v) && LevelsNewer(v) && Unique(AllEntries(v))
             && NoFileCovers(v, c.level + 2, d.key.user)
    requires f in c.in0 + c.in1 && d in f.entries && l < NUM_LEVELS && g in v[l] && e in g.entries
    requires !(l == c.level && g in c.in0) && !(l == c.level + 1 && g in c.in1)
    requires e.key.user == d.key.user && e.key.sequence < d.key.sequence
    ensures LeftAt(c, d.key.user, l, g)
  {
    EntryInRange(g, e);
    EntryInRange(f, d);
    assert e in EntriesOf(v[l]);
    var k := if f in c.in0 then c.level else c.level + 1;
    assert f in v[k] && d in EntriesOf(v[k]);
    if l < k {
      LevelPair(v, l, k, e, d);
    } else if l == c.level {
      LeftOnUpper(v, c, d, e, g, f);
    } else if l == c.level + 1 {
      if f in c.in0 {
        UntouchedIsApart(v, c, g, f);
      } else {
        LevelIsUnique(v, l);
        SharedIsBoundary(v[l], c.in1, f, g, d, e);
      }
    }
  }

  lemma LeftOnUpper(v: Version, c: Inputs, d: Entry, e: Entry, g: File, f: File)
    requires InputsStand(v, c) && TreeShape(v) && Unique(AllEntries(v)) && f in c.in0 && d in f.entries
             && g in v[c.level] && g !in c.in0 && e in g.entries
    requires e.key.user == d.key.user && e.key.sequence < d.key.sequence
    ensures c.level > 0 && BoundaryFile(c.in0, f, g) && g.smallest.user == d.key.user
  {
    assert c.level == 0 ==> !AllNewer(Held(g), Held(f));
    if c.level > 0 {
      LevelIsUnique(v, c.level);
      SharedIsBoundary(v[c.level], c.in0, f, g, d, e);
    }
  }

  lemma LeftIsRest(v: Version, c: Inputs, user: UserKey, e: Entry)
    requires InputsStand(v, c) && e in LeftEntries(v, c, user)
    ensures e in RestEntries(v, c) && e.key.user == user
  {
  }

  lemma RestIsNotInput(v: Version, c: Inputs, e: Entry)
    requires InputsStand(v, c) && TreeShape(v) && LevelsNewer(v) && e in InputEntries(c)
    ensures e !in RestEntries(v, c)
  {
    var f := HolderOf(c, e);
    forall l, g | 0 <= l < NUM_LEVELS && g in v[l] && !(l == c.level && g in c.in0)
        && !(l == c.level + 1 && g in c.in1) ensures e !in g.entries {
      NotInBoth(v, c, l, g, f, e);
    }
  }

  lemma NotInBoth(v: Version, c: Inputs, l: nat, g: File, f: File, e: Entry)
    requires InputsStand(v, c) && TreeShape(v) && LevelsNewer(v) && l < NUM_LEVELS && g in v[l] && f in c.in0 + c.in1
    requires !(l == c.level && g in c.in0) && !(l == c.level + 1 && g in c.in1) && e in f.entries
    ensures e !in g.entries
  {
    assert e in g.entries ==> !AllNewer(Held(g), Held(f));
    if e in g.entries {
      var k := if f in c.in0 then c.level else c.level + 1;
      assert f in v[k] && e in EntriesOf(v[k]) && e in EntriesOf(v[l]);
      if l < k {
        LevelPair(v, l, k, e, e);
      } else if k < l {
        LevelPair(v, k, l, e, e);
      } else if l > 0 {
        EntryInRange(f, e);
        EntryInRange(g, e);
        SortedIsApart(v[l], f, g);
      }
    }
  }

  // ---------- reads of what is stored ----------

  lemma NewestAt(es: set<Entry>, user: UserKey, low: Sequence, high: Sequence, e: Entry)
    requires Unique(es) && IsNewest(es, user, high, e) && e.key.sequence <= low <= high
    ensures Newest(es, user, low) == Some(e)
  {
    NewestIs(es, user, low, e);
  }

  /** A read that an install changes was of a dropped deletion, and now finds a put in a boundary file. */
  lemma ChangedReadUncovers(v: Version, c: Inputs, smallest: Sequence, input: seq<Entry>, user: UserKey, t: Sequence)
    requires InputsStand(v, c) && TreeShape(v) && LevelsNewer(v) && Unique(AllEntries(v)) && Sorted(input)
             && SetOf(input) == InputEntries(c)
    requires smallest <= t && !Uncovers(v, c, smallest, user)
    ensures Visible(RestEntries(v, c) + KeptSet(v, c.level, smallest, input), user, t) ==
            Visible(AllEntries(v), user, t)
  {
    hide InputsStand;
    hide InputsIn;
    hide TreeShape;
    hide LevelsNewer;
    hide AllEntries;
    hide RestEntries;
    hide KeptSet;
    hide LeftEntries;
    hide InputEntries;
    var kept := KeptSet(v, c.level, smallest, input);
    var all, rest := AllEntries(v), RestEntries(v, c) + kept;
    StandingAreIn(v, c);
    EntriesSplit(v, c);
    KeptIsInput(v, c.level, smallest, input);
    NewestProperty(all, user, t);
    if Newest(all, user, t).None? {
      NewestIsNone(rest, user, t);
    } else {
      var n := Newest(all, user, t).value;
      if n in rest {
        NewestIs(rest, user, t, n);
      } else {
        DroppedNewest(v, c, smallest, input, user, t, n);
      }
    }
  }

  /** The newest version, if it is dropped, is a deletion, and no reader sees a put below it. */
  lemma DroppedNewest(v: Version, c: Inputs, smallest: Sequence, input: seq<Entry>, user: UserKey, t: Sequence,
                      n: Entry)
    requires InputsStand(v, c) && TreeShape(v) && LevelsNewer(v) && Unique(AllEntries(v)) && Sorted(input)
             && SetOf(input) == InputEntries(c)
    requires smallest <= t && !Uncovers(v, c, smallest, user) && IsNewest(AllEntries(v), user, t, n)
    requires n !in RestEntries(v, c) + KeptSet(v, c.level, smallest, input)
    ensures Outcome(Some(n)) == None
            && Visible(RestEntries(v, c) + KeptSet(v, c.level, smallest, input), user, t) == None
  {
    hide InputsStand;
    hide InputsIn;
    hide TreeShape;
    hide LevelsNewer;
    hide AllEntries;
    hide RestEntries;
    hide KeptSet;
    hide LeftEntries;
    hide InputEntries;
    var kept := KeptSet(v, c.level, smallest, input);
    var rest := RestEntries(v, c) + kept;
    StandingAreIn(v, c);
    EntriesSplit(v, c);
    KeptIsInput(v, c.level, smallest, input);
    NewestIsDeletion(v, c, smallest, input, user, t, n);
    NewestAt(AllEntries(v), user, smallest, t, n);
    NewestProperty(rest, user, t);
    if Newest(rest, user, t).Some? {
      var m := Newest(rest, user, t).value;
      assert m in AllEntries(v);
      if m in kept { KeptOlder(v, c.level, smallest, input, n, m); }
      OlderIsLeft(v, c, n, m);
      LeftNewest(v, c, kept, user, t, smallest, m);
    }
  }

  lemma LeftNewest(v: Version, c: Inputs, kept: set<Entry>, user: UserKey, t: Sequence, smallest: Sequence, m: Entry)
    requires InputsStand(v, c) && Unique(AllEntries(v)) && smallest <= t && m.key.sequence <= smallest
    requires IsNewest(RestEntries(v, c) + kept, user, t, m) && m in LeftEntries(v, c, user)
    ensures Newest(LeftEntries(v, c, user), user, smallest) == Some(m)
  {
    EntriesSplit(v, c);
    forall x | x in LeftEntries(v, c, user)
      ensures x in RestEntries(v, c) && x in AllEntries(v)
    {
      LeftIsRest(v, c, user, x);
    }
    NewestIs(LeftEntries(v, c, user), user, smallest, m);
  }

  lemma NewestIsDeletion(v: Version, c: Inputs, smallest: Sequence, input: seq<Entry>, user: UserKey, t: Sequence,
                         n: Entry)
    requires Sorted(input) && SetOf(input) == InputEntries(c) && c.level + 1 < NUM_LEVELS && smallest <= t
    requires Unique(AllEntries(v)) && InputEntries(c) <= AllEntries(v) && IsNewest(AllEntries(v), user, t, n)
    requires n in InputEntries(c) && n !in KeptSet(v, c.level, smallest, input)
    ensures n.key.kind.Deletion? && n.key.sequence <= smallest && NoFileCovers(v, c.level + 2, user)
  {
    hide AllEntries;
    hide InputEntries;
    assert n in SetOf(input) && forall x :: x in SetOf(input) ==> x in AllEntries(v);
    var i :| 0 <= i < |input| && input[i] == n;
    assert i > 0 ==> Before(input[i - 1].key, input[i].key) && input[i - 1] in SetOf(input);
  }

  /** An uncovered put shows at the snapshot bound, where the deletion showed before. */
  lemma UncoveredShows(v: Version, c: Inputs, smallest: Sequence, input: seq<Entry>, user: UserKey)
    requires InputsStand(v, c) && TreeShape(v) && LevelsNewer(v) && Unique(AllEntries(v)) && Sorted(input)
             && SetOf(input) == InputEntries(c)
    requires Uncovers(v, c, smallest, user)
    ensures Visible(AllEntries(v), user, smallest).None?
    ensures Visible(RestEntries(v, c) + KeptSet(v, c.level, smallest, input), user, smallest).Some?
  {
    hide InputsStand;
    hide InputsIn;
    hide TreeShape;
    hide LevelsNewer;
    hide AllEntries;
    hide RestEntries;
    hide KeptSet;
    hide LeftEntries;
    hide InputEntries;
    var kept := KeptSet(v, c.level, smallest, input);
    var rest := RestEntries(v, c) + kept;
    var d, m := Newest(AllEntries(v), user, smallest).value, Newest(LeftEntries(v, c, user), user, smallest).value;
    StandingAreIn(v, c);
    EntriesSplit(v, c);
    KeptIsInput(v, c.level, smallest, input);
    NewestProperty(AllEntries(v), user, smallest);
    NewestProperty(LeftEntries(v, c, user), user, smallest);
    LeftIsRest(v, c, user, m);
    DeletionIsDropped(v, c.level, smallest, input, d);
    RestIsNotInput(v, c, d);
    forall x | x in rest && x.key.user == user && x.key.sequence <= smallest ensures x.key.sequence <= m.key.sequence {
      UnderDeletion(v, c, smallest, input, user, d, x);
    }
    NewestIs(rest, user, smallest, m);
  }

  lemma UnderDeletion(v: Version, c: Inputs, smallest: Sequence, input: seq<Entry>, user: UserKey, d: Entry, x: Entry)
    requires InputsStand(v, c) && TreeShape(v) && LevelsNewer(v) && Unique(AllEntries(v)) && Sorted(input)
             && SetOf(input) == InputEntries(c)
    requires IsNewest(AllEntries(v), user, smallest, d) && d in InputEntries(c) && d.key.kind.Deletion?
             && NoFileCovers(v, c.level + 2, user)
    requires x in RestEntries(v, c) + KeptSet(v, c.level, smallest, input) && x.key.user == user
             && x.key.sequence <= smallest
    ensures x in LeftEntries(v, c, user)
  {
    hide InputsStand;
    hide InputsIn;
    hide TreeShape;
    hide LevelsNewer;
    hide AllEntries;
    hide RestEntries;
    hide KeptSet;
    hide LeftEntries;
    hide InputEntries;
    StandingAreIn(v, c);
    EntriesSplit(v, c);
    KeptIsInput(v, c.level, smallest, input);
    DeletionIsDropped(v, c.level, smallest, input, d);
    RestIsNotInput(v, c, d);
    assert x in AllEntries(v) && d in AllEntries(v);
    if x in KeptSet(v, c.level, smallest, input) {
      KeptOlder(v, c.level, smallest, input, d, x);
    } else {
      OlderIsLeft(v, c, d, x);
    }
  }

  // ---------- recency after an install ----------

  /** A compaction whose outputs hold exactly what is kept. */
  ghost predicate Merges(v: Version, next: nat, c: Inputs, smallest: Sequence, input: seq<Entry>, outs: seq<File>) {
    && TreeOk(v, next) && Unique(AllEntries(v)) && InputsStand(v, c) && Sorted(input) && SetOf(input) == InputEntries(c)
    && OutputsOk(v, c, outs) && EntriesOf(outs) == KeptSet(v, c.level, smallest, input)
  }

  lemma InputsAreUnique(v: Version, c: Inputs)
    requires InputsStand(v, c) && Unique(AllEntries(v))
    ensures Unique(InputEntries(c)) && InputEntries(c) <= AllEntries(v)
  {
    EntriesSplit(v, c);
  }

  /** What stays above an output of its key is newer than it, if nothing sinks. */
  lemma StayerIsNewer(v: Version, next: nat, c: Inputs, smallest: Sequence, input: seq<Entry>, outs: seq<File>,
                      g: File, x: Entry, y: Entry)
    requires Merges(v, next, c, smallest, input, outs) && NothingSinks(v, c, smallest)
    requires g in v[c.level] && g !in c.in0 && x in g.entries && y in EntriesOf(outs) && x.key.user == y.key.user
    ensures x.key.sequence > y.key.sequence
  {
    KeptIsInput(v, c.level, smallest, input);
    InputsAreUnique(v, c);
    StandingAreIn(v, c);
    InputLevels(v, c, y);
    assert x in EntriesOf(v[c.level]);
    if y in EntriesOf(c.in1) {
      LevelPair(v, c.level, c.level + 1, x, y);
    } else {
      var f :| f in c.in0 && y in f.entries;
      StayerOnLevel(v, c, smallest, input, f, g, x, y);
    }
  }

  lemma StayerOnLevel(v: Version, c: Inputs, smallest: Sequence, input: seq<Entry>, f: File, g: File, x: Entry,
                      y: Entry)
    requires InputsStand(v, c) && TreeShape(v) && Unique(AllEntries(v)) && Unique(InputEntries(c))
             && NothingSinks(v, c, smallest)
    requires Sorted(input) && SetOf(input) == InputEntries(c) && y in KeptSet(v, c.level, smallest, input)
    requires g in v[c.level] && g !in c.in0 && x in g.entries && f in c.in0 && y in f.entries
             && x.key.user == y.key.user
    ensures x.key.sequence > y.key.sequence
  {
    hide KeptSet;
    hide AllEntries;
    hide InputEntries;
    EntryInRange(f, y);
    EntryInRange(g, x);
    if c.level == 0 {
      assert x in Held(g) && y in Held(f);
    } else {
      LevelIsUnique(v, c.level);
      SharedKeyAcrossFiles(v[c.level], f, g, y, x);
      if BoundaryFile(c.in0, f, g) { DeletionLeavesNothing(v, c, smallest, input, g.smallest.user, y); }
    }
  }

  lemma OutputEntries(v: Version, next: nat, c: Inputs, outs: seq<File>, l: nat, y: Entry)
    requires NumbersOk(v, next) && InputsIn(v, c) && OutputsOk(v, c, outs) && l < NUM_LEVELS
             && y in EntriesOf(Replace(v, c, outs)[l])
    ensures y in EntriesOf(outs) || y in RestEntries(v, c)
  {
    hide Merge;
    hide InternalKey.Tag;
    hide BySmallest;
    var f :| f in Replace(v, c, outs)[l] && y in f.entries;
    ReplaceContents(v, next, c, outs, l, f);
  }

  lemma NothingSinksIsNewer(v: Version, next: nat, c: Inputs, smallest: Sequence, input: seq<Entry>, outs: seq<File>)
    requires Merges(v, next, c, smallest, input, outs) && NothingSinks(v, c, smallest)
    ensures LevelsNewer(Replace(v, c, outs))
  {
    hide Replace;
    hide NothingSinks;
    hide KeptSet;
    hide AllEntries;
    hide InputEntries;
    StandingAreIn(v, c);
    var v' := Replace(v, c, outs);
    forall l, m, x, y | 0 <= l < m < NUM_LEVELS && x in EntriesOf(v'[l]) && y in EntriesOf(v'[m])
        && x.key.user == y.key.user
      ensures x.key.sequence > y.key.sequence
    {
      PairIsNewer(v, next, c, smallest, input, outs, l, m, x, y);
    }
  }

  lemma PairIsNewer(v: Version, next: nat, c: Inputs, smallest: Sequence, input: seq<Entry>, outs: seq<File>, l: nat,
                    m: nat, x: Entry, y: Entry)
    requires Merges(v, next, c, smallest, input, outs) && NothingSinks(v, c, smallest) && InputsIn(v, c)
             && l < m < NUM_LEVELS
    requires x in EntriesOf(Replace(v, c, outs)[l]) && y in EntriesOf(Replace(v, c, outs)[m])
             && x.key.user == y.key.user
    ensures x.key.sequence > y.key.sequence
  {
    hide Replace;
    hide NothingSinks;
    hide KeptSet;
    hide AllEntries;
    hide InputEntries;
    hide RestEntries;
    hide EntriesOf;
    hide InputsStand;
    ReplaceOrigin(v, next, c, outs, l, x);
    ReplaceOrigin(v, next, c, outs, m, y);
    if l == c.level && m == c.level + 1 && y in InputEntries(c) {
      OutputEntries(v, next, c, outs, m, y);
      RestIsNotInput(v, c, y);
      var g :| g in v[c.level] && g !in c.in0 && x in g.entries;
      StayerIsNewer(v, next, c, smallest, input, outs, g, x, y);
    }
    OriginPair(v, c, l, m, x, y);
  }

  lemma NewerSinksNothing(v: Version, next: nat, c: Inputs, smallest: Sequence, input: seq<Entry>, outs: seq<File>,
                          f: File, g: File)
    requires Merges(v, next, c, smallest, input, outs) && LevelsNewer(Replace(v, c, outs))
    requires c.level > 0 && g in v[c.level] && BoundaryFile(c.in0, f, g)
    ensures DropsDeletion(v, c, smallest, g.smallest.user)
  {
    hide Replace;
    hide InputsStand;
    hide OutputsOk;
    hide AllEntries;
    StandingAreIn(v, c);
    InputsAreUnique(v, c);
    var x, y := f.entries[|f.entries| - 1], g.entries[0];
    assert x in f.entries && y in g.entries && x in EntriesOf(c.in0);
    var e := NewestInputExists(c, g.smallest.user, x);
    if !(e.key.kind.Deletion? && e.key.sequence <= smallest && NoFileCovers(v, c.level + 2, g.smallest.user)) {
      NewestInputStays(v, c, smallest, input, e);
      SunkPair(v, next, c, outs, g, y, e);
    }
  }

  lemma SunkPair(v: Version, next: nat, c: Inputs, outs: seq<File>, g: File, y: Entry, e: Entry)
    requires NumbersOk(v, next) && InputsIn(v, c) && OutputsOk(v, c, outs) && LevelsNewer(Replace(v, c, outs))
    requires g in v[c.level] && g !in c.in0 && y in g.entries && e in EntriesOf(outs) && y.key.user == e.key.user
    ensures y.key.sequence > e.key.sequence
  {
    hide Replace;
    hide OutputsOk;
    var v' := Replace(v, c, outs);
    ReplaceContents(v, next, c, outs, c.level, g);
    var o :| o in outs && e in o.entries;
    ReplaceContents(v, next, c, outs, c.level + 1, o);
    assert y in EntriesOf(v'[c.level]) && e in EntriesOf(v'[c.level + 1]);
    LevelPair(v', c.level, c.level + 1, y, e);
  }

  lemma NewerIff(v: Version, next: nat, c: Inputs, smallest: Sequence, input: seq<Entry>, outs: seq<File>)
    requires Merges(v, next, c, smallest, input, outs)
    ensures LevelsNewer(Replace(v, c, outs)) <==> NothingSinks(v, c, smallest)
  {
    hide Replace;
    hide OutputsOk;
    hide DropsDeletion;
    if NothingSinks(v, c, smallest) {
      NothingSinksIsNewer(v, next, c, smallest, input, outs);
    }
    if LevelsNewer(Replace(v, c, outs)) && c.level > 0 {
      forall f, g | g in v[c.level] && BoundaryFile(c.in0, f, g)
          ensures DropsDeletion(v, c, smallest, g.smallest.user) {
        NewerSinksNothing(v, next, c, smallest, input, outs, f, g);
      }
    }
  }

  // ---------- the install, exactly ----------

  lemma InstalledEntries(v: Version, next: nat, c: Inputs, smallest: Sequence, input: seq<Entry>, outs: seq<File>)
    requires Merges(v, next, c, smallest, input, outs)
    ensures AllEntries(Replace(v, c, outs)) == RestEntries(v, c) + KeptSet(v, c.level, smallest, input)
    ensures Unique(AllEntries(Replace(v, c, outs)))
  {
    hide Replace;
    hide RestEntries;
    hide KeptSet;
    hide InputEntries;
    StandingAreIn(v, c);
    ReplaceEntries(v, next, c, outs);
    EntriesSplit(v, c);
    KeptIsInput(v, c.level, smallest, input);
  }

  lemma InstalledIsDisjoint(v: Version, next: nat, c: Inputs, smallest: Sequence, input: seq<Entry>, outs: seq<File>)
    requires Merges(v, next, c, smallest, input, outs)
    ensures LevelsDisjoint(Replace(v, c, outs))
  {
    hide Replace;
    hide KeptSet;
    hide EntriesOf;
    hide AllEntries;
    StandingAreIn(v, c);
    NewerIsDisjoint(v);
    var v' := Replace(v, c, outs);
    forall l, m, e | 0 <= l < m < NUM_LEVELS && e in EntriesOf(v'[l]) ensures e !in EntriesOf(v'[m]) {
      if e in EntriesOf(v'[m]) { NotOnBoth(v, next, c, outs, l, m, e); }
    }
  }

  lemma NotOnBoth(v: Version, next: nat, c: Inputs, outs: seq<File>, l: nat, m: nat, e: Entry)
    requires TreeOk(v, next) && InputsStand(v, c) && InputsIn(v, c) && OutputsOk(v, c, outs) && LevelsDisjoint(v)
             && l < m < NUM_LEVELS
    requires e in EntriesOf(Replace(v, c, outs)[l])
    ensures e !in EntriesOf(Replace(v, c, outs)[m])
  {
    hide Replace;
    hide InputsStand;
    hide OutputsOk;
    hide TreeShape;
    if e in EntriesOf(Replace(v, c, outs)[m]) {
      ReplaceOrigin(v, next, c, outs, l, e);
      ReplaceOrigin(v, next, c, outs, m, e);
      if e in InputEntries(c) {
        InputLevels(v, c, e);
        RestIsNotInput(v, c, e);
        StaysOutside(v, c, l, e);
        StaysOutside(v, c, m, e);
      }
    }
  }

  lemma StaysOutside(v: Version, c: Inputs, l: nat, e: Entry)
    requires e !in RestEntries(v, c) && c.level + 1 < NUM_LEVELS && l < NUM_LEVELS && e in EntriesOf(v[l])
    ensures l == c.level || l == c.level + 1
    ensures l == c.level ==> forall g :: g in v[l] && g !in c.in0 ==> e !in g.entries
  {
    var f :| f in v[l] && e in f.entries;
    assert l == c.level || l == c.level + 1 || e in RestEntries(v, c);
  }

  lemma SafeIff(v: Version, next: nat, c: Inputs, smallest: Sequence, input: seq<Entry>, outs: seq<File>)
    requires Merges(v, next, c, smallest, input, outs)
    ensures LookupIsExact(Replace(v, c, outs)) <==> NothingSinks(v, c, smallest)
    ensures SameReads(AllEntries(Replace(v, c, outs)), AllEntries(v), smallest)
            <==> forall user :: !Uncovers(v, c, smallest, user)
  {
    hide Replace;
    hide NothingSinks;
    hide Uncovers;
    hide LookupIsExact;
    hide LevelsNewer;
    hide LevelsDisjoint;
    hide RestEntries;
    hide AllEntries;
    hide KeptSet;
    var v' := Replace(v, c, outs);
    InstalledEntries(v, next, c, smallest, input, outs);
    InstalledIsDisjoint(v, next, c, smallest, input, outs);
    LookupIsExactIff(v');
    NewerIff(v, next, c, smallest, input, outs);
    if forall user :: !Uncovers(v, c, smallest, user) {
      forall user, t: Sequence | t >= smallest
          ensures Visible(AllEntries(v'), user, t) == Visible(AllEntries(v), user, t) {
        ChangedReadUncovers(v, c, smallest, input, user, t);
      }
    } else {
      var user :| Uncovers(v, c, smallest, user);
      UncoveredShows(v, c, smallest, input, user);
    }
  }

  // ---------- a tree that grew since the compaction began ----------

  /** Of the keys of the inputs, none has a file below the output level in one tree and none in the other. */
  ghost predicate SameBelow(base: Version, v: Version, c: Inputs) {
    forall e :: e in InputEntries(c) ==>
      (NoFileCovers(base, c.level + 2, e.key.user) <==> NoFileCovers(v, c.level + 2, e.key.user))
  }

  /** The compaction began from `base`, which it consults for deeper files, and is installed in `v`: tables may
      have been flushed in between. */
  ghost predicate MergesInto(base: Version, v: Version, next: nat, c: Inputs, smallest: Sequence, input: seq<Entry>,
                             outs: seq<File>) {
    && TreeOk(v, next) && Unique(AllEntries(v)) && InputsStand(v, c) && SameBelow(base, v, c)
    && Sorted(input) && SetOf(input) == InputEntries(c)
    && OutputsOk(v, c, outs) && EntriesOf(outs) == KeptSet(base, c.level, smallest, input)
  }

  lemma {:induction false} SameKept(base: Version, v: Version, c: Inputs, smallest: Sequence, input: seq<Entry>, n: nat)
    requires n <= |input| && SetOf(input) == InputEntries(c) && SameBelow(base, v, c)
    ensures Kept(base, c.level, smallest, input, n) == Kept(v, c.level, smallest, input, n)
  {
    hide InputEntries;
    hide NoFileCovers;
    if n > 0 {
      SameKept(base, v, c, smallest, input, n - 1);
      assert input[n - 1] in SetOf(input);
    }
  }

  lemma MergesNow(base: Version, v: Version, next: nat, c: Inputs, smallest: Sequence, input: seq<Entry>,
                  outs: seq<File>)
    requires MergesInto(base, v, next, c, smallest, input, outs)
    ensures Merges(v, next, c, smallest, input, outs)
  {
    SameKept(base, v, c, smallest, input, |input|);
  }

  /** After an install, smaller levels hold only newer versions if and only if nothing sinks below a boundary
      file of the upper inputs. */
  lemma InstallNewerIff(base: Version, v: Version, next: nat, c: Inputs, smallest: Sequence, input: seq<Entry>,
                        outs: seq<File>)
    requires MergesInto(base, v, next, c, smallest, input, outs)
    ensures LevelsNewer(Replace(v, c, outs)) <==> NothingSinks(v, c, smallest)
  {
    hide Merges;
    hide MergesInto;
    hide NothingSinks;
    hide LevelsNewer;
    hide Replace;
    MergesNow(base, v, next, c, smallest, input, outs);
    NewerIff(v, next, c, smallest, input, outs);
  }

  /** After the install of a compaction, point lookups are exact if and only if nothing sinks below a boundary
      file of the upper inputs; and what is stored reads as before, at the snapshot bound and above, if and only
      if no dropped deletion uncovers a put in a boundary file of either level. */
  lemma InstallIsSafeIff(base: Version, v: Version, next: nat, c: Inputs, smallest: Sequence, input: seq<Entry>,
                         outs: seq<File>)
    requires MergesInto(base, v, next, c, smallest, input, outs)
    ensures LookupIsExact(Replace(v, c, outs)) <==> NothingSinks(v, c, smallest)
    ensures SameReads(AllEntries(Replace(v, c, outs)), AllEntries(v), smallest)
            <==> forall user :: !Uncovers(v, c, smallest, user)
  {
    hide Merges;
    hide MergesInto;
    hide NothingSinks;
    hide Uncovers;
    hide SameReads;
    hide LookupIsExact;
    hide Replace;
    MergesNow(base, v, next, c, smallest, input, outs);
    SafeIff(v, next, c, smallest, input, outs);
  }

  /** Closed inputs meet both conditions. */
  lemma ClosedIsSafe(v: Version, c: Inputs, smallest: Sequence, user: UserKey)
    requires GoodInputs(v, c) && BoundaryClosed(v, c)
    ensures NothingSinks(v, c, smallest) && !Uncovers(v, c, smallest, user)
  {
    assert LeftEntries(v, c, user) == {} by {
      forall l, g | 0 <= l < NUM_LEVELS && g in v[l] ensures !LeftAt(c, user, l, g) { }
    }
    assert Candidates({}, user, smallest) == {};
  }
}
