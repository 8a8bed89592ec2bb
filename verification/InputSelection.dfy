/** Choosing the inputs of a compaction (PickCompaction, CompactRange, SetupOtherInputs) and the
    level of a flushed memtable (PickLevelForMemTableOutput). */
module InputSelection {
  import opened Options
  import opened InternalKeys
  import opened Files
  import VersionBuilder

  // ---------- ranges ----------

  ghost predicate InRange(f: File, smallest: InternalKey, largest: InternalKey) {
    AtOrAfter(f.smallest, smallest) && AtOrAfter(largest, f.largest)
  }

  ghost predicate IsRange(files: seq<File>, smallest: InternalKey, largest: InternalKey) {
    && (forall f :: f in files ==> InRange(f, smallest, largest))
    && (exists f :: f in files && f.smallest == smallest)
    && (exists f :: f in files && f.largest == largest)
  }

  /** The minimal range that covers all entries of `inputs`. */
  method GetRange(inputs: seq<File>) returns (smallest: InternalKey, largest: InternalKey)
    requires inputs != []
    ensures IsRange(inputs, smallest, largest)
  {
    smallest, largest := inputs[0].smallest, inputs[0].largest;
    var i := 1;
    while i < |inputs|
      invariant 1 <= i <= |inputs|
      invariant forall j :: 0 <= j < i ==> InRange(inputs[j], smallest, largest)
      invariant exists j :: 0 <= j < i && inputs[j].smallest == smallest
      invariant exists j :: 0 <= j < i && inputs[j].largest == largest
    {
      if Before(inputs[i].smallest, smallest) {
        smallest := inputs[i].smallest;
      }
      if Before(largest, inputs[i].largest) {
        largest := inputs[i].largest;
      }
      i := i + 1;
    }
  }

  lemma RangeIsOrdered(files: seq<File>, smallest: InternalKey, largest: InternalKey)
    requires IsRange(files, smallest, largest)
    ensures smallest.user <= largest.user
  {
    var f :| f in files && f.smallest == smallest;
    FileIsOrdered(f);
  }

  // ---------- connected sets of files ----------

  ghost predicate Covered(files: seq<File>, x: UserKey) { exists f :: f in files && f.Covers(x) }

  ghost predicate ReachesUp(files: seq<File>, x: UserKey) { exists f :: f in files && f.largest.user >= x }

  ghost predicate ReachesDown(files: seq<File>, x: UserKey) { exists f :: f in files && f.smallest.user <= x }

  /** The union of the user-key ranges is one interval. */
  ghost predicate Connected(files: seq<File>) {
    forall x :: ReachesDown(files, x) && ReachesUp(files, x) ==> Covered(files, x)
  }

  /** What the files add beyond [lo, hi] is joined to it without a gap. */
  ghost predicate Anchored(files: seq<File>, lo: UserKey, hi: UserKey) {
    && (forall x :: x > hi && ReachesUp(files, x) ==> Covered(files, x))
    && (forall x :: x < lo && ReachesDown(files, x) ==> Covered(files, x))
  }

  lemma OverlappingIsAnchored(files: seq<File>, lo: UserKey, hi: UserKey)
    ensures Anchored(Overlapping(files, Some(lo), Some(hi)), lo, hi)
  {
  }

  /** The least closed set around [lo, hi] has no gap beyond it: cutting it at a gap leaves a smaller
      closed set. */
  lemma LeastClosureIsAnchored(files: seq<File>, lo: UserKey, hi: UserKey, r: seq<File>)
    requires lo <= hi
    requires ClosedUnderOverlap(files, Some(lo), Some(hi), set f | f in r)
    requires forall t :: ClosedUnderOverlap(files, Some(lo), Some(hi), t) ==> (set f | f in r) <= t
    ensures Anchored(r, lo, hi)
  {
    forall x | x > hi && !Covered(r, x) ensures !ReachesUp(r, x) {
      var t := set f | f in r && f.largest.user < x;
      CutIsClosed(files, lo, hi, r, t, x);
      forall f | f in r ensures f in t { assert f in (set f | f in r); }
    }
    forall x | x < lo && !Covered(r, x) ensures !ReachesDown(r, x) {
      var t := set f | f in r && f.smallest.user > x;
      CutIsClosed(files, lo, hi, r, t, x);
      forall f | f in r ensures f in t { assert f in (set f | f in r); }
    }
  }

  lemma CutIsClosed(files: seq<File>, lo: UserKey, hi: UserKey, r: seq<File>, t: set<File>, x: UserKey)
    requires lo <= hi && ClosedUnderOverlap(files, Some(lo), Some(hi), set f | f in r) && !Covered(r, x)
    requires (x > hi && t == set f | f in r && f.largest.user < x)
             || (x < lo && t == set f | f in r && f.smallest.user > x)
    ensures ClosedUnderOverlap(files, Some(lo), Some(hi), t)
  {
    var all := set f | f in r;
    forall f | f in all ensures !f.Covers(x) { }
    forall f | f in files && f.Overlaps(Some(lo), Some(hi)) ensures f in t {
      assert f in all;
      FileIsOrdered(f);
    }
    forall f, g | f in t && g in files && g.Overlaps(Some(f.smallest.user), Some(f.largest.user)) ensures g in t {
      assert f in all && g in all;
      FileIsOrdered(f);
      FileIsOrdered(g);
    }
  }

  lemma GetOverlappingIsAnchored(level: nat, files: seq<File>, lo: UserKey, hi: UserKey, r: seq<File>)
    requires lo <= hi
    requires level > 0 ==> r == Overlapping(files, Some(lo), Some(hi))
    requires level == 0 ==> ClosedUnderOverlap(files, Some(lo), Some(hi), set f | f in r)
    requires level == 0 ==> forall t :: ClosedUnderOverlap(files, Some(lo), Some(hi), t) ==> (set f | f in r) <= t
    ensures Anchored(r, lo, hi)
  {
    if level == 0 {
      LeastClosureIsAnchored(files, lo, hi, r);
    } else {
      OverlappingIsAnchored(files, lo, hi);
    }
  }

  /** Files anchored to a covered interval extend it to a connected set. */
  lemma AnchoredToCovered(base: seq<File>, more: seq<File>, lo: UserKey, hi: UserKey)
    requires lo <= hi && Anchored(more, lo, hi)
    requires forall x :: lo <= x <= hi ==> Covered(base, x)
    requires forall f :: f in base ==> lo <= f.smallest.user && f.largest.user <= hi
    ensures Connected(base + more)
  {
    forall x | ReachesDown(base + more, x) && ReachesUp(base + more, x)
      ensures Covered(base + more, x)
    {
      if lo <= x <= hi {
        assert Covered(base, x);
        var f :| f in base && f.Covers(x);
        assert f in base + more;
      } else if x > hi {
        var g :| g in base + more && g.largest.user >= x;
        assert g in more && Covered(more, x);
        var f :| f in more && f.Covers(x);
        assert f in base + more;
      } else {
        var g :| g in base + more && g.smallest.user <= x;
        assert g in more && Covered(more, x);
        var f :| f in more && f.Covers(x);
        assert f in base + more;
      }
    }
  }

  // ---------- compaction inputs ----------

  const L0_COMPACTION_TRIGGER: nat := 4

  datatype Inputs = Inputs(level: nat, in0: seq<File>, in1: seq<File>, grandparents: seq<File>)

  /** `g` meets the range of user keys spanned by `files`. */
  ghost predicate Touches(g: File, files: seq<File>) {
    ReachesDown(files, g.largest.user) && ReachesUp(files, g.smallest.user)
  }

  /** Inputs come from two adjacent levels; of the lower one, exactly the files that meet the span of
      the upper inputs; and a level-0 input brings along every level-0 file it overlaps. */
  ghost predicate GoodInputs(v: Version, c: Inputs) {
    && c.level + 1 < NUM_LEVELS && c.in0 != []
    && (forall f :: f in c.in0 ==> f in v[c.level])
    && (forall g :: g in c.in1 <==> g in v[c.level + 1] && Touches(g, c.in0))
    && (c.level == 0 ==> ClosedOnLevel0(v[0], c.in0))
  }

  ghost predicate ClosedOnLevel0(files: seq<File>, chosen: seq<File>) {
    forall f, g :: f in chosen && g in files && g.Overlaps(Some(f.smallest.user), Some(f.largest.user)) ==> g in chosen
  }

  lemma TouchesIsOverlap(files: seq<File>, smallest: InternalKey, largest: InternalKey, g: File)
    requires IsRange(files, smallest, largest)
    ensures Touches(g, files) <==> g.Overlaps(Some(smallest.user), Some(largest.user))
  {
  }

  /** Widening the range of a sorted search can only add files; if it adds none by count, it adds none. */
  lemma {:induction false} WiderFindsMore(files: seq<File>, lo: UserKey, hi: UserKey, lo': UserKey, hi': UserKey)
    requires lo' <= lo && hi <= hi'
    ensures |Overlapping(files, Some(lo), Some(hi))| <= |Overlapping(files, Some(lo'), Some(hi'))|
    ensures |Overlapping(files, Some(lo), Some(hi))| == |Overlapping(files, Some(lo'), Some(hi'))| ==>
              Overlapping(files, Some(lo), Some(hi)) == Overlapping(files, Some(lo'), Some(hi'))
  {
    if files != [] {
      WiderFindsMore(files[..|files| - 1], lo, hi, lo', hi');
    }
  }

  function TotalFileSize(files: seq<File>): nat {
    if files == [] then 0 else TotalFileSize(files[..|files| - 1]) + files[|files| - 1].size
  }

  /** The upper inputs and the lower files they touch have no gap between them. */
  lemma TouchedIsConnected(files: seq<File>, in0: seq<File>, in1: seq<File>, smallest: InternalKey,
                           largest: InternalKey)
    requires IsRange(in0, smallest, largest) && Connected(in0)
    requires in1 == Overlapping(files, Some(smallest.user), Some(largest.user))
    ensures Connected(in0 + in1)
  {
    RangeIsOrdered(in0, smallest, largest);
    forall x | smallest.user <= x <= largest.user ensures Covered(in0, x) {
      assert ReachesDown(in0, x) && ReachesUp(in0, x);
    }
    OverlappingIsAnchored(files, smallest.user, largest.user);
    AnchoredToCovered(in0, in1, smallest.user, largest.user);
  }

  lemma ConnectedCovers(files: seq<File>, smallest: InternalKey, largest: InternalKey)
    requires Connected(files) && IsRange(files, smallest, largest)
    ensures forall x :: smallest.user <= x <= largest.user ==> Covered(files, x)
  {
    forall x | smallest.user <= x <= largest.user ensures Covered(files, x) {
      assert ReachesDown(files, x) && ReachesUp(files, x);
    }
  }

  lemma ConnectedSame(a: seq<File>, b: seq<File>)
    requires Connected(a) && forall f :: f in a <==> f in b
    ensures Connected(b)
  {
    forall x | ReachesDown(b, x) && ReachesUp(b, x) ensures Covered(b, x) {
      assert ReachesDown(a, x) && ReachesUp(a, x);
      assert Covered(a, x);
    }
  }

  /** The least closed set is empty exactly when nothing meets the range. */
  lemma LeastIsClosed(files: seq<File>, lo: Option<UserKey>, hi: Option<UserKey>, all: seq<File>)
    requires ClosedUnderOverlap(files, lo, hi, set f | f in all)
    requires forall t :: ClosedUnderOverlap(files, lo, hi, t) ==> (set f | f in all) <= t
    ensures ClosedOnLevel0(files, all)
    ensures all == [] <==> forall f :: f in files ==> !f.Overlaps(lo, hi)
  {
    var chosen := set f | f in all;
    assert forall f :: f in all <==> f in chosen;
    if forall f :: f in files ==> !f.Overlaps(lo, hi) {
      assert ClosedUnderOverlap(files, lo, hi, {});
      FirstIsIn(all);
    } else {
      var f :| f in files && f.Overlaps(lo, hi);
      assert f in chosen;
    }
  }

  lemma FirstIsIn(files: seq<File>)
    ensures files != [] ==> files[0] in files
  {
  }

  // ---------- what the searches and picks promise ----------

  /** What a search of a level for [lo, hi] finds: below level 0 the files that meet the range, on level 0 the
      least set that also holds every file its own files overlap. */
  ghost predicate IsSearch(level: nat, files: seq<File>, lo: Option<UserKey>, hi: Option<UserKey>, found: seq<File>) {
    if level > 0 then found == Overlapping(files, lo, hi)
    else
      && (exists a, b :: found == Overlapping(files, a, b))
      && ClosedUnderOverlap(files, lo, hi, set f | f in found)
      && forall t :: ClosedUnderOverlap(files, lo, hi, t) ==> (set f | f in found) <= t
  }

  /** The upper inputs grow if that adds something, keeps the compaction small, and brings in no lower file. */
  ghost predicate MayGrow(v: Version, c: Inputs, more: seq<File>, maxFileSize: nat)
    requires c.level + 1 < NUM_LEVELS
  {
    && |more| > |c.in0|
    && TotalFileSize(c.in1) + TotalFileSize(more) < 25 * maxFileSize
    && forall g :: g in v[c.level + 1] && Touches(g, more) ==> g in c.in1
  }

  /** The upper inputs are what a search over everything picked so far finds, where growing is allowed. */
  ghost predicate Grown(v: Version, c: Inputs, in0: seq<File>, maxFileSize: nat)
    requires c.level + 1 < NUM_LEVELS
  {
    exists more, start, limit ::
      && IsRange(c.in0 + c.in1, start, limit)
      && IsSearch(c.level, v[c.level], Some(start.user), Some(limit.user), more)
      && in0 == if MayGrow(v, c, more, maxFileSize) then more else c.in0
  }

  /** Files two levels down that the whole compaction overlaps. */
  ghost predicate AreGrandparents(v: Version, c: Inputs, files: seq<File>) {
    exists start, limit ::
      && IsRange(c.in0 + c.in1, start, limit)
      && files == if c.level + 2 < NUM_LEVELS
                  then Overlapping(v[c.level + 2], Some(start.user), Some(limit.user))
                  else []
  }

  /** The inputs that SetupOtherInputs makes of the upper ones it is given. */
  ghost predicate SetUp(v: Version, in0: seq<File>, c: Inputs, maxFileSize: nat)
    requires c.level + 1 < NUM_LEVELS
  {
    && (if c.in1 == [] then c.in0 == in0 else Grown(v, Inputs(c.level, in0, c.in1, []), c.in0, maxFileSize))
    && AreGrandparents(v, c, c.grandparents)
  }

  ghost predicate EndsAt(files: seq<File>, largest: InternalKey) {
    && (forall f :: f in files ==> AtOrAfter(largest, f.largest))
    && (exists f :: f in files && f.largest == largest)
  }

  /** Files of a level that meet [lo, hi] are more than a table should overlap. */
  ghost predicate Heavy(files: seq<File>, lo: UserKey, hi: UserKey, maxFileSize: nat) {
    TotalFileSize(Overlapping(files, Some(lo), Some(hi))) > 10 * maxFileSize
  }

  /** What a requested range takes of a level: all that its search finds, but below level 0 only the first files that
      reach the size limit together. */
  ghost predicate RangeInputs(v: Version, level: nat, lo: Option<UserKey>, hi: Option<UserKey>, maxFileSize: nat,
                              in0: seq<File>)
    requires level < NUM_LEVELS
  {
    exists all ::
      && IsSearch(level, v[level], lo, hi, all) && in0 <= all
      && (in0 != all ==> level > 0 && TotalFileSize(in0) >= maxFileSize)
      && (level > 0 ==> forall k {:trigger in0[..k]} :: 0 < k < |in0| ==> TotalFileSize(in0[..k]) < maxFileSize)
  }

  /** Bytes a level may hold: ten megabytes on level 1, and ten times more on each level below. */
  function MaxBytes(level: nat): (n: nat)
    ensures n > 0
  {
    if level <= 1 then 10 * 1_048_576 else 10 * MaxBytes(level - 1)
  }

  /** How full a level is: level 0 counts files, the others bytes. */
  function Score(v: Version, level: nat): real
    requires level < NUM_LEVELS
  {
    if level == 0 then |v[0]| as real / L0_COMPACTION_TRIGGER as real
    else TotalFileSize(v[level]) as real / MaxBytes(level) as real
  }

  /** A level overflows: too many files on level 0, too many bytes below. */
  predicate Overflows(v: Version, level: nat)
    requires level < NUM_LEVELS
  {
    if level == 0 then |v[0]| >= L0_COMPACTION_TRIGGER else TotalFileSize(v[level]) >= MaxBytes(level)
  }

  lemma ScoreOverflows(v: Version, level: nat)
    requires level < NUM_LEVELS
    ensures Score(v, level) >= 0.0 && (Score(v, level) >= 1.0 <==> Overflows(v, level))
    ensures Overflows(v, level) ==> v[level] != []
  {
    if level == 0 {
      QuotientAtLeastOne(|v[0]|, L0_COMPACTION_TRIGGER);
    } else {
      QuotientAtLeastOne(TotalFileSize(v[level]), MaxBytes(level));
    }
  }

  lemma SignOfProduct(x: real, d: real)
    requires d > 0.0
    ensures x * d >= 0.0 <==> x >= 0.0
  {
  }

  lemma QuotientAtLeastOne(a: nat, b: nat)
    requires b > 0
    ensures a as real / b as real >= 0.0 && (a as real / b as real >= 1.0 <==> a >= b)
  {
    var q, d := a as real / b as real, b as real;
    assert q * d == a as real;
    SignOfProduct(q, d);
    SignOfProduct(q - 1.0, d);
    assert (q - 1.0) * d == q * d - d;
  }

  predicate PastPointer(pointer: Option<InternalKey>, f: Table) {
    pointer.None? || Before(pointer.value, f.largest)
  }

  /** Where a size compaction starts: at the first file past the pointer, or at the first of all if none is. */
  ghost predicate StartsAt(files: seq<File>, pointer: Option<InternalKey>, start: nat) {
    && start < |files|
    && (forall j :: 0 <= j < start ==> !PastPointer(pointer, files[j]))
    && (PastPointer(pointer, files[start]) || (start == 0 && forall f :: f in files ==> !PastPointer(pointer, f)))
  }

  /** A pick takes its start file, moves the pointer to the end of what it takes, and leaves out nothing from the
      start file up to there. */
  ghost predicate Sweeps(files: seq<File>, start: nat, taken: seq<File>, pointer: Option<InternalKey>) {
    && start < |files| && files[start] in taken && pointer.Some? && EndsAt(taken, pointer.value)
    && forall j :: start <= j < |files| && !PastPointer(pointer, files[j]) ==> files[j] in taken
  }

  /** The inputs that a picked file brings along. */
  ghost predicate PickedAround(v: Version, picked: File, c: Inputs, maxFileSize: nat)
    requires c.level + 1 < NUM_LEVELS
  {
    exists in0 ::
      && (if c.level > 0 then in0 == [picked]
          else IsSearch(0, v[0], Some(picked.smallest.user), Some(picked.largest.user), in0))
      && picked in in0 && SetUp(v, in0, c, maxFileSize)
  }

  lemma SearchIs(level: nat, files: seq<File>, lo: Option<UserKey>, hi: Option<UserKey>, a: Option<UserKey>,
                 b: Option<UserKey>, found: seq<File>)
    requires found == Overlapping(files, a, b) && (level > 0 ==> a == lo && b == hi)
    requires level == 0 ==> ClosedUnderOverlap(files, lo, hi, set f | f in found)
    requires level == 0 ==> forall t :: ClosedUnderOverlap(files, lo, hi, t) ==> (set f | f in found) <= t
    ensures IsSearch(level, files, lo, hi, found)
  {
    hide ClosedUnderOverlap;
  }

  /** What a search finds around a file holds every later file of the level that ends by its own end. */
  lemma SearchSweeps(level: nat, files: seq<File>, start: nat, lo: UserKey, hi: UserKey, found: seq<File>,
                     pointer: InternalKey)
    requires start < |files| && files[start] in found && lo <= hi && lo <= files[start].smallest.user
    requires IsSearch(level, files, Some(lo), Some(hi), found) && EndsAt(found, pointer)
    requires if level == 0 then VersionBuilder.InOrder(files) else LevelSorted(files)
    ensures Sweeps(files, start, found, Some(pointer))
  {
    hide Table.Valid;
    hide ClosedUnderOverlap;
    forall j | start <= j < |files| && !PastPointer(Some(pointer), files[j]) ensures files[j] in found {
      if level == 0 {
        Level0Sweeps(files, start, lo, hi, found, pointer, j);
      } else {
        SortedSweeps(files, start, lo, hi, found, pointer, j);
      }
    }
  }

  lemma SortedSweeps(files: seq<File>, start: nat, lo: UserKey, hi: UserKey, found: seq<File>, pointer: InternalKey,
                     j: nat)
    requires start <= j < |files| && files[start] in found && lo <= files[start].smallest.user
    requires found == Overlapping(files, Some(lo), Some(hi)) && EndsAt(found, pointer)
    requires LevelSorted(files) && AtOrAfter(pointer, files[j].largest)
    ensures files[j] in found
  {
    hide Table.Valid;
    hide Overlapping;
    hide LevelSorted;
    hide Before;
    var f :| f in found && f.largest == pointer;
    var e :| 0 <= e < |files| && files[e] == f;
    LaterFile(files, start, j);
    if j < e {
      LaterFile(files, j, e);
    } else {
      LaterFile(files, e, j);
    }
  }

  /** Files of a sorted level start and end one after the other. */
  lemma LaterFile(files: seq<File>, i: nat, j: nat)
    requires LevelSorted(files) && i <= j < |files|
    ensures files[i].smallest.user <= files[j].smallest.user && files[i].smallest.user <= files[j].largest.user
    ensures i < j ==> Before(files[i].largest, files[j].largest)
  {
    FileIsOrdered(files[i]);
    FileIsOrdered(files[j]);
    assert i < j ==> Before(files[i].largest, files[j].smallest);
  }

  lemma Level0Sweeps(files: seq<File>, start: nat, lo: UserKey, hi: UserKey, found: seq<File>, pointer: InternalKey,
                     j: nat)
    requires start <= j < |files| && lo <= hi && lo <= files[start].smallest.user
    requires ClosedUnderOverlap(files, Some(lo), Some(hi), set f | f in found)
    requires forall t :: ClosedUnderOverlap(files, Some(lo), Some(hi), t) ==> (set f | f in found) <= t
    requires EndsAt(found, pointer) && VersionBuilder.InOrder(files) && AtOrAfter(pointer, files[j].largest)
    ensures files[j] in found
  {
    hide Table.Valid;
    var g := files[j];
    LeastClosureIsAnchored(files, lo, hi, found);
    FileIsOrdered(g);
    assert start < j ==> !VersionBuilder.BySmallest(g, files[start]);
    assert lo <= g.smallest.user;
    var chosen := set f | f in found;
    if g.smallest.user <= hi {
      assert g.Overlaps(Some(lo), Some(hi)) && g in chosen;
    } else {
      assert ReachesUp(found, g.smallest.user);
      var f :| f in found && f.Covers(g.smallest.user);
      assert f in chosen && g.Overlaps(Some(f.smallest.user), Some(f.largest.user));
      assert g in chosen;
    }
  }

  /** Upper inputs that changed are what a search from their start on found. */
  lemma GrownBySearch(v: Version, picked: File, in0: seq<File>, c: Inputs, maxFileSize: nat)
    returns (lo: UserKey, hi: UserKey)
    requires c.level + 1 < NUM_LEVELS && picked in in0 && SetUp(v, in0, c, maxFileSize) && c.in0 != in0
    ensures lo <= hi && lo <= picked.smallest.user && IsSearch(c.level, v[c.level], Some(lo), Some(hi), c.in0)
  {
    hide Table.Valid;
    hide IsSearch;
    hide MayGrow;
    hide AreGrandparents;
    var before := Inputs(c.level, in0, c.in1, []);
    var more, start, limit :|
      && IsRange(in0 + c.in1, start, limit)
      && IsSearch(c.level, v[c.level], Some(start.user), Some(limit.user), more)
      && c.in0 == if MayGrow(v, before, more, maxFileSize) then more else in0;
    RangeIsOrdered(in0 + c.in1, start, limit);
    assert picked in in0 + c.in1;
    lo, hi := start.user, limit.user;
  }

  /** A size compaction takes everything from its start file up to the new pointer. */
  lemma PickSweeps(v: Version, start: nat, c: Inputs, maxFileSize: nat, pointer: InternalKey)
    requires TreeShape(v) && c.level + 1 < NUM_LEVELS && start < |v[c.level]| && EndsAt(c.in0, pointer)
    requires PickedAround(v, v[c.level][start], c, maxFileSize)
    requires v[c.level][start] in c.in0
    requires c.level == 0 ==> VersionBuilder.InOrder(v[0])
    ensures Sweeps(v[c.level], start, c.in0, Some(pointer))
  {
    hide Table.Valid;
    hide IsSearch;
    hide SetUp;
    hide EndsAt;
    hide Sweeps;
    hide VersionBuilder.InOrder;
    hide LevelSorted;
    var picked := v[c.level][start];
    FileIsOrdered(picked);
    var in0 := PickedHolds(v, picked, c, maxFileSize);
    if c.in0 != in0 {
      var lo, hi := GrownBySearch(v, picked, in0, c, maxFileSize);
      SearchSweeps(c.level, v[c.level], start, lo, hi, c.in0, pointer);
    } else if c.level == 0 {
      SearchSweeps(0, v[0], start, picked.smallest.user, picked.largest.user, in0, pointer);
    } else {
      OneFileSweeps(v[c.level], start, pointer);
    }
  }

  lemma PickedHolds(v: Version, picked: File, c: Inputs, maxFileSize: nat) returns (in0: seq<File>)
    requires c.level + 1 < NUM_LEVELS && PickedAround(v, picked, c, maxFileSize)
    ensures picked in in0 && SetUp(v, in0, c, maxFileSize)
    ensures if c.level > 0 then in0 == [picked]
            else IsSearch(0, v[0], Some(picked.smallest.user), Some(picked.largest.user), in0)
  {
    hide IsSearch;
    hide SetUp;
    in0 :|
      && (if c.level > 0 then in0 == [picked]
          else IsSearch(0, v[0], Some(picked.smallest.user), Some(picked.largest.user), in0))
      && picked in in0 && SetUp(v, in0, c, maxFileSize);
  }

  lemma OneFileSweeps(files: seq<File>, start: nat, pointer: InternalKey)
    requires start < |files| && LevelSorted(files) && EndsAt([files[start]], pointer)
    ensures Sweeps(files, start, [files[start]], Some(pointer))
  {
    forall j | start <= j < |files| && !PastPointer(Some(pointer), files[j]) ensures j == start {
      assert files[start] in [files[start]];
      FileIsOrdered(files[j]);
      assert start < j ==> Before(files[start].largest, files[j].smallest);
    }
  }

  lemma WithGrandparents(v: Version, c: Inputs, files: seq<File>)
    requires c.level + 1 < NUM_LEVELS && c.in0 != []
    ensures GoodInputs(v, c) ==> GoodInputs(v, c.(grandparents := files))
    ensures AreGrandparents(v, c, files) ==> AreGrandparents(v, c.(grandparents := files), files)
  {
    hide ClosedOnLevel0;
    hide Touches;
    hide IsRange;
  }

  lemma GrowthKeepsLower(v: Version, c: Inputs, smallest: InternalKey, largest: InternalKey, more: seq<File>,
                         start: InternalKey, limit: InternalKey)
    requires c.level + 1 < NUM_LEVELS && IsRange(c.in0, smallest, largest) && IsRange(more, start, limit)
    requires c.in1 == Overlapping(v[c.level + 1], Some(smallest.user), Some(largest.user))
    requires forall f :: f in c.in0 ==> f in more
    ensures |Overlapping(v[c.level + 1], Some(start.user), Some(limit.user))| == |c.in1| <==>
            forall g :: g in v[c.level + 1] && Touches(g, more) ==> g in c.in1
  {
    hide Touches;
    var lower := v[c.level + 1];
    WiderRange(c.in0, smallest, largest, more, start, limit);
    WiderFindsMore(lower, smallest.user, largest.user, start.user, limit.user);
    forall g: File { TouchesIsOverlap(more, start, limit, g); }
    if forall g :: g in lower && Touches(g, more) ==> g in c.in1 {
      SameOverlapping(lower, Some(smallest.user), Some(largest.user), Some(start.user), Some(limit.user));
    }
  }

  lemma WiderRange(a: seq<File>, smallest: InternalKey, largest: InternalKey, b: seq<File>, start: InternalKey,
                   limit: InternalKey)
    requires IsRange(a, smallest, largest) && IsRange(b, start, limit) && forall f :: f in a ==> f in b
    ensures start.user <= smallest.user && largest.user <= limit.user
  {
  }

  lemma {:induction false} SameOverlapping(files: seq<File>, lo: Option<UserKey>, hi: Option<UserKey>,
                                           lo': Option<UserKey>, hi': Option<UserKey>)
    requires forall f :: f in files ==> (f.Overlaps(lo, hi) <==> f.Overlaps(lo', hi'))
    ensures Overlapping(files, lo, hi) == Overlapping(files, lo', hi')
  {
    if files != [] { SameOverlapping(files[..|files| - 1], lo, hi, lo', hi'); }
  }

  class VersionSet {
    var current: Version
    const compactPointer: array<Option<InternalKey>>
    var fileToCompact: Option<File>      // from seek statistics
    var fileToCompactLevel: nat
    var sizeCompactionLevel: Option<nat> // set when some level's score is at least 1
    const maxFileSize: nat

    ghost predicate Valid()
      reads this, compactPointer
    {
      && compactPointer.Length == NUM_LEVELS && TreeShape(current)
      && (fileToCompact.Some? ==>
          fileToCompactLevel < NUM_LEVELS - 1 && fileToCompact.value in current[fileToCompactLevel])
      && (sizeCompactionLevel.Some? ==>
          sizeCompactionLevel.value < NUM_LEVELS - 1 && current[sizeCompactionLevel.value] != [])
    }

    constructor (v: Version, maxFileSize: nat)
      requires TreeShape(v)
      ensures Valid() && fresh(compactPointer) && current == v
    {
      current, this.maxFileSize := v, maxFileSize;
      compactPointer := new Option<InternalKey>[NUM_LEVELS](_ => None);
      fileToCompact, fileToCompactLevel, sizeCompactionLevel := None, 0, None;
    }

    method MaxBytesForLevel(level: nat) returns (bytes: real)
      ensures bytes == MaxBytes(level) as real
    {
      bytes := 10.0 * 1_048_576.0;
      var l := level;
      while l > 1
        invariant l <= 1 ==> MaxBytes(l) == 10 * 1_048_576
        invariant bytes * MaxBytes(l) as real == MaxBytes(level) as real * (10.0 * 1_048_576.0)
      {
        bytes := bytes * 10.0;
        l := l - 1;
      }
    }

    method LevelScore(level: nat) returns (score: real)
      requires level < NUM_LEVELS
      ensures score == Score(current, level)
    {
      if level == 0 {
        score := |current[0]| as real / L0_COMPACTION_TRIGGER as real;
      } else {
        var limit := MaxBytesForLevel(level);
        score := TotalFileSize(current[level]) as real / limit;
      }
    }

    /** The size trigger: set exactly if some level overflows, and then to the fullest one, the first of these. */
    method Finalize()
      requires Valid()
      modifies this`sizeCompactionLevel
      ensures Valid()
      ensures sizeCompactionLevel.Some? <==> exists l :: 0 <= l < NUM_LEVELS - 1 && Overflows(current, l)
      ensures sizeCompactionLevel.Some? ==>
                var best := sizeCompactionLevel.value;
                && best < NUM_LEVELS - 1 && Overflows(current, best)
                && (forall l :: 0 <= l < NUM_LEVELS - 1 ==> Score(current, l) <= Score(current, best))
                && (forall l :: 0 <= l < best ==> Score(current, l) < Score(current, best))
    {
      hide Score;
      hide Overflows;
      hide TreeShape;
      var best, bestScore := 0, -1.0;
      for level := 0 to NUM_LEVELS - 1
        invariant best <= level && (level > 0 ==> best < level && bestScore == Score(current, best))
        invariant level == 0 ==> bestScore == -1.0
        invariant forall l :: 0 <= l < level ==> Score(current, l) <= bestScore
        invariant forall l :: 0 <= l < best ==> Score(current, l) < bestScore
      {
        var score := LevelScore(level);
        ScoreOverflows(current, level);
        if score > bestScore {
          best, bestScore := level, score;
        }
      }
      forall l | 0 <= l < NUM_LEVELS - 1 ensures Score(current, l) >= 1.0 <==> Overflows(current, l) {
        ScoreOverflows(current, l);
      }
      ScoreOverflows(current, best);
      sizeCompactionLevel := if bestScore >= 1.0 then Some(best) else None;
    }

    /** Look for more inputs on the upper level that leave the lower set unchanged. */
    method GrowInputs(c: Inputs, ghost smallest: InternalKey, ghost largest: InternalKey) returns (r: Inputs)
      requires Valid() && GoodInputs(current, c) && IsRange(c.in0, smallest, largest)
      requires c.in1 == Overlapping(current[c.level + 1], Some(smallest.user), Some(largest.user))
      ensures GoodInputs(current, r) && r.level == c.level
      ensures r.in1 == c.in1 && forall f :: f in c.in0 ==> f in r.in0
      ensures Connected(c.in0 + c.in1) ==> Connected(r.in0 + r.in1)
      ensures Grown(current, c, r.in0, maxFileSize)
    {
      hide Table.Valid;
      hide ClosedUnderOverlap;
      hide IsRange;
      r := c;
      var allStart, allLimit := GetRange(c.in0 + c.in1);
      var more, lo, hi := GetOverlappingInputs(c.level, current[c.level], Some(allStart), Some(allLimit));
      SearchIs(c.level, current[c.level], Some(allStart.user), Some(allLimit.user), lo, hi, more);
      if |more| > |c.in0| && TotalFileSize(c.in1) + TotalFileSize(more) < 25 * maxFileSize {
        var newStart, newLimit := GetRange(more);
        var lower, _, _ := GetOverlappingInputs(c.level + 1, current[c.level + 1], Some(newStart), Some(newLimit));
        ExpandedHoldsAll(current, c, allStart, allLimit, more);
        GrowthKeepsLower(current, c, smallest, largest, more, newStart, newLimit);
        if |lower| == |c.in1| {
          GrowthIsGood(current, c, smallest, largest, more, newStart, newLimit);
          if Connected(c.in0 + c.in1) {
            RangeIsOrdered(c.in0 + c.in1, allStart, allLimit);
            GetOverlappingIsAnchored(c.level, current[c.level], allStart.user, allLimit.user, more);
            GrowthIsConnected(c, allStart, allLimit, more);
          }
          r := Inputs(c.level, more, lower, c.grandparents);
        }
      }
      assert r.in0 == if MayGrow(current, c, more, maxFileSize) then more else c.in0;
    }

    /** The lower files that the span of `in0` touches. */
    method LowerInputs(level: nat, in0: seq<File>) returns (c: Inputs, smallest: InternalKey, largest: InternalKey)
      requires Valid() && level + 1 < NUM_LEVELS && in0 != []
      requires forall f :: f in in0 ==> f in current[level]
      requires level == 0 ==> ClosedOnLevel0(current[0], in0)
      ensures c == Inputs(level, in0, c.in1, []) && GoodInputs(current, c) && IsRange(in0, smallest, largest)
      ensures c.in1 == Overlapping(current[level + 1], Some(smallest.user), Some(largest.user))
      ensures Connected(in0) ==> Connected(in0 + c.in1)
    {
      smallest, largest := GetRange(in0);
      var in1, _, _ := GetOverlappingInputs(level + 1, current[level + 1], Some(smallest), Some(largest));
      forall g: File { TouchesIsOverlap(in0, smallest, largest, g); }
      if Connected(in0) { TouchedIsConnected(current[level + 1], in0, in1, smallest, largest); }
      c := Inputs(level, in0, in1, []);
    }

    method Grandparents(c: Inputs) returns (r: seq<File>)
      requires Valid() && c.in0 != []
      ensures AreGrandparents(current, c, r)
    {
      r := [];
      var allStart, allLimit := GetRange(c.in0 + c.in1);
      if c.level + 2 < NUM_LEVELS {
        var gp, _, _ := GetOverlappingInputs(c.level + 2, current[c.level + 2], Some(allStart), Some(allLimit));
        r := gp;
      }
    }

    /** Both input sets, and the largest key of the upper one. */
    method GrownInputs(level: nat, in0: seq<File>) returns (c: Inputs, largest: InternalKey)
      requires Valid() && level + 1 < NUM_LEVELS && in0 != []
      requires forall f :: f in in0 ==> f in current[level]
      requires level == 0 ==> ClosedOnLevel0(current[0], in0)
      ensures c.level == level && GoodInputs(current, c)
      ensures forall f :: f in in0 ==> f in c.in0
      ensures Connected(in0) ==> Connected(c.in0 + c.in1)
      ensures if c.in1 == [] then c.in0 == in0
              else Grown(current, Inputs(level, in0, c.in1, []), c.in0, maxFileSize)
      ensures EndsAt(c.in0, largest)
    {
      hide GoodInputs;
      hide ClosedOnLevel0;
      hide Connected;
      hide Grown;
      var smallest;
      c, smallest, largest := LowerInputs(level, in0);
      if c.in1 != [] {
        c := GrowInputs(c, smallest, largest);
        smallest, largest := GetRange(c.in0);
      }
    }

    method SetupOtherInputs(level: nat, in0: seq<File>) returns (c: Inputs)
      requires Valid() && level + 1 < NUM_LEVELS && in0 != []
      requires forall f :: f in in0 ==> f in current[level]
      requires level == 0 ==> ClosedOnLevel0(current[0], in0)
      modifies compactPointer
      ensures Valid() && c.level == level && GoodInputs(current, c)
      ensures forall f :: f in in0 ==> f in c.in0
      ensures Connected(in0) ==> Connected(c.in0 + c.in1)
      ensures SetUp(current, in0, c, maxFileSize)
      ensures compactPointer[level].Some? && EndsAt(c.in0, compactPointer[level].value)
      ensures forall l :: 0 <= l < NUM_LEVELS && l != level ==> compactPointer[l] == old(compactPointer[l])
    {
      hide Connected;
      hide Grown;
      hide GoodInputs;
      hide EndsAt;
      hide TreeShape;
      hide AreGrandparents;
      hide ClosedOnLevel0;
      var largest;
      c, largest := GrownInputs(level, in0);
      assert in0[0] in c.in0;
      var gp := Grandparents(c);
      WithGrandparents(current, c, gp);
      c := c.(grandparents := gp);
      compactPointer[level] := Some(largest);
    }

    /** The file a size compaction starts from: the first one past the compaction pointer. */
    method FileAfterPointer(level: nat) returns (f: File, start: nat)
      requires Valid() && level < NUM_LEVELS && current[level] != []
      ensures StartsAt(current[level], compactPointer[level], start) && f == current[level][start]
    {
      var files := current[level];
      for i := 0 to |files|
        invariant forall j :: 0 <= j < i ==> !PastPointer(compactPointer[level], files[j])
      {
        if compactPointer[level].None? || Before(compactPointer[level].value, files[i].largest) {
          return files[i], i;
        }
      }
      return files[0], 0;
    }

    /** The level with the size trigger goes first; its compaction starts at the first file past the pointer and
        takes all files from there to where it moves the pointer.  Otherwise the charged file is taken.  The picked
        inputs never include the bottom level, and leave no gap between them. */
    method PickCompaction() returns (c: Option<Inputs>, ghost start: nat)
      requires Valid()
      modifies compactPointer
      ensures Valid()
      ensures c.None? <==> sizeCompactionLevel.None? && fileToCompact.None?
      ensures c.Some? ==> GoodInputs(current, c.value) && Connected(c.value.in0 + c.value.in1)
      ensures c.Some? ==>
                c.value.level == if sizeCompactionLevel.Some? then sizeCompactionLevel.value else fileToCompactLevel
      ensures sizeCompactionLevel.Some? ==>
                var level := sizeCompactionLevel.value;
                && StartsAt(current[level], old(compactPointer[level]), start)
                && PickedAround(current, current[level][start], c.value, maxFileSize)
                && ((level == 0 ==> VersionBuilder.InOrder(current[0])) ==>
                    Sweeps(current[level], start, c.value.in0, compactPointer[level]))
      ensures sizeCompactionLevel.None? && fileToCompact.Some? ==>
                PickedAround(current, fileToCompact.value, c.value, maxFileSize)
      ensures c.Some? ==>
                compactPointer[c.value.level].Some? && EndsAt(c.value.in0, compactPointer[c.value.level].value)
      ensures forall l :: 0 <= l < NUM_LEVELS && (c.Some? ==> l != c.value.level) ==>
                            compactPointer[l] == old(compactPointer[l])
    {
      hide Connected;
      hide GoodInputs;
      hide IsSearch;
      hide SetUp;
      hide EndsAt;
      hide Sweeps;
      hide StartsAt;
      hide ClosedOnLevel0;
      hide ClosedUnderOverlap;
      hide VersionBuilder.InOrder;
      hide TreeShape;
      var level, picked;
      if sizeCompactionLevel.Some? {
        level := sizeCompactionLevel.value;
        picked, start := FileAfterPointer(level);
      } else if fileToCompact.Some? {
        level, picked, start := fileToCompactLevel, fileToCompact.value, 0;
      } else {
        return None, 0;
      }
      var in0 := [picked];
      FileIsOrdered(picked);
      if level == 0 {
        var smallest, largest := GetRange(in0);
        OneRange(picked, smallest, largest);
        var all0, lo, hi := GetOverlappingInputs(0, current[0], Some(smallest), Some(largest));
        in0 := all0;
        ClosureOfOneFile(current[0], picked, in0);
        SearchIs(0, current[0], Some(smallest.user), Some(largest.user), lo, hi, in0);
      } else {
        OneIsConnected(picked);
      }
      assert picked in in0;
      var inputs := SetupOtherInputs(level, in0);
      c := Some(inputs);
      if sizeCompactionLevel.Some? && (level == 0 ==> VersionBuilder.InOrder(current[0])) {
        PickSweeps(current, start, inputs, maxFileSize, compactPointer[level].value);
      }
    }

    /** Upper inputs for a requested range, cut short on levels where that is safe. */
    method UpperInputs(level: nat, begin: Option<InternalKey>, end: Option<InternalKey>) returns (in0: seq<File>)
      requires Valid() && level + 1 < NUM_LEVELS
      ensures in0 == [] <==> forall f :: f in current[level] ==> !f.Overlaps(UserOf(begin), UserOf(end))
      ensures forall f :: f in in0 ==> f in current[level]
      ensures level == 0 ==> ClosedOnLevel0(current[0], in0)
      ensures RangeInputs(current, level, UserOf(begin), UserOf(end), maxFileSize, in0)
    {
      hide ClosedUnderOverlap;
      hide ClosedOnLevel0;
      hide Overlapping;
      hide UserOf;
      var all, lo, hi := GetOverlappingInputs(level, current[level], begin, end);
      SearchIs(level, current[level], UserOf(begin), UserOf(end), lo, hi, all);
      in0 := all;
      if level == 0 {
        LeastIsClosed(current[0], UserOf(begin), UserOf(end), all);
      } else {
        FirstIsIn(all);
        var i, total := 0, 0;
        while i < |all|
          invariant 0 <= i <= |all|
          invariant total == TotalFileSize(all[..i])
          invariant forall k {:trigger all[..k]} :: 0 < k <= i ==> TotalFileSize(all[..k]) < maxFileSize
        {
          total := total + all[i].size;
          assert all[..i + 1][..i] == all[..i];
          if total >= maxFileSize {
            FirstIsIn(all[..i + 1]);
            assert forall k {:trigger all[..i + 1][..k]} :: 0 <= k <= i ==> all[..i + 1][..k] == all[..k];
            return all[..i + 1];
          }
          i := i + 1;
        }
      }
    }

    /** Inputs for a requested range.  Unlike the picked ones they may leave gaps. */
    method CompactRange(level: nat, begin: Option<InternalKey>, end: Option<InternalKey>) returns (c: Option<Inputs>)
      requires Valid() && level + 1 < NUM_LEVELS
      modifies compactPointer
      ensures Valid()
      ensures c.None? <==> forall f :: f in current[level] ==> !f.Overlaps(UserOf(begin), UserOf(end))
      ensures c.Some? ==> GoodInputs(current, c.value) && c.value.level == level
      ensures c.Some? ==>
                exists in0 ::
                  && RangeInputs(current, level, UserOf(begin), UserOf(end), maxFileSize, in0)
                  && SetUp(current, in0, c.value, maxFileSize)
      ensures c.Some? ==> compactPointer[level].Some? && EndsAt(c.value.in0, compactPointer[level].value)
      ensures forall l :: 0 <= l < NUM_LEVELS && (c.Some? ==> l != level) ==>
                            compactPointer[l] == old(compactPointer[l])
    {
      hide RangeInputs;
      hide SetUp;
      hide GoodInputs;
      hide EndsAt;
      var in0 := UpperInputs(level, begin, end);
      if in0 == [] {
        return None;
      }
      var inputs := SetupOtherInputs(level, in0);
      c := Some(inputs);
    }

    /** A charged file is never on the bottom level, since a deeper file was read after it. */
    method UpdateStats(seekFile: Option<File>, seekLevel: nat, seeksExhausted: bool) returns (schedule: bool)
      requires Valid()
      requires seekFile.Some? ==> seekLevel < NUM_LEVELS - 1 && seekFile.value in current[seekLevel]
      modifies this`fileToCompact, this`fileToCompactLevel
      ensures Valid()
      ensures schedule == (seekFile.Some? && seeksExhausted && old(fileToCompact).None?)
      ensures if schedule then fileToCompact == seekFile && fileToCompactLevel == seekLevel
              else fileToCompact == old(fileToCompact) && fileToCompactLevel == old(fileToCompactLevel)
    {
      if seekFile.Some? && seeksExhausted && fileToCompact.None? {
        fileToCompact, fileToCompactLevel := seekFile, seekLevel;
        return true;
      }
      return false;
    }

    /** The level for a flushed table: the deepest down to which nothing overlaps it, and under which it would not
        meet too many bytes. */
    method PickLevelForMemTableOutput(lo: UserKey, hi: UserKey) returns (level: nat)
      requires Valid()
      ensures level <= MAX_MEM_COMPACT_LEVEL
      ensures level > 0 ==> forall l, f :: 0 <= l <= level && f in current[l] ==> !f.Overlaps(Some(lo), Some(hi))
      ensures forall l :: 2 <= l <= level + 1 ==> !Heavy(current[l], lo, hi, maxFileSize)
      ensures level < MAX_MEM_COMPACT_LEVEL ==>
                || (level == 0 && exists f :: f in current[0] && f.Overlaps(Some(lo), Some(hi)))
                || (exists f :: f in current[level + 1] && f.Overlaps(Some(lo), Some(hi)))
                || Heavy(current[level + 2], lo, hi, maxFileSize)
    {
      hide Table.Valid;
      hide Overlapping;
      level := 0;
      var overlap := SomeFileOverlapsRange(false, current[0], Some(lo), Some(hi));
      if !overlap {
        while level < MAX_MEM_COMPACT_LEVEL
          invariant level <= MAX_MEM_COMPACT_LEVEL
          invariant forall l :: 2 <= l <= level + 1 ==> !Heavy(current[l], lo, hi, maxFileSize)
          invariant forall l, f :: 0 <= l <= level && f in current[l] ==> !f.Overlaps(Some(lo), Some(hi))
        {
          overlap := SomeFileOverlapsRange(true, current[level + 1], Some(lo), Some(hi));
          if overlap {
            break;
          }
          if level + 2 < NUM_LEVELS {
            var start, limit := LookupKey(lo, MAX_SEQUENCE), InternalKey(hi, 0, Deletion);
            var overlaps, _, _ := GetOverlappingInputs(level + 2, current[level + 2], Some(start), Some(limit));
            if TotalFileSize(overlaps) > 10 * maxFileSize {
              break;
            }
          }
          level := level + 1;
        }
      }
    }
  }

  lemma OneRange(f: File, smallest: InternalKey, largest: InternalKey)
    requires IsRange([f], smallest, largest)
    ensures smallest == f.smallest && largest == f.largest
  {
  }

  lemma OneIsConnected(f: File)
    ensures Connected([f])
  {
    forall x | f.smallest.user <= x <= f.largest.user ensures Covered([f], x) {
      assert f in [f] && f.Covers(x);
    }
  }

  lemma ClosureOfOneFile(files: seq<File>, f: File, r: seq<File>)
    requires f in files
    requires ClosedUnderOverlap(files, Some(f.smallest.user), Some(f.largest.user), set g | g in r)
    requires forall t ::
              ClosedUnderOverlap(files, Some(f.smallest.user), Some(f.largest.user), t) ==> (set g | g in r) <= t
    ensures f in r && ClosedOnLevel0(files, r) && Connected(r)
  {
    FileIsOrdered(f);
    assert f.Overlaps(Some(f.smallest.user), Some(f.largest.user));
    assert f in (set g | g in r);
    LeastClosureIsAnchored(files, f.smallest.user, f.largest.user, r);
    forall x | f.smallest.user <= x <= f.largest.user ensures Covered([f], x) { assert f in [f] && f.Covers(x); }
    AnchoredToCovered([f], r, f.smallest.user, f.largest.user);
    ConnectedSame([f] + r, r);
    forall h, g | h in r && g in files && g.Overlaps(Some(h.smallest.user), Some(h.largest.user)) ensures g in r {
      assert h in (set k | k in r);
      assert g in (set k | k in r);
    }
  }

  /** The wider search finds the upper inputs again. */
  lemma ExpandedHoldsAll(v: Version, c: Inputs, allStart: InternalKey, allLimit: InternalKey, expanded: seq<File>)
    requires c.level < NUM_LEVELS && (forall f :: f in c.in0 ==> f in v[c.level])
             && IsRange(c.in0 + c.in1, allStart, allLimit)
    requires c.level > 0 ==> expanded == Overlapping(v[c.level], Some(allStart.user), Some(allLimit.user))
    requires c.level == 0 ==> ClosedUnderOverlap(v[0], Some(allStart.user), Some(allLimit.user), set f | f in expanded)
    ensures forall f :: f in c.in0 ==> f in expanded
    ensures c.level == 0 ==> ClosedOnLevel0(v[0], expanded)
  {
    forall f | f in c.in0 ensures f in expanded {
      assert f in c.in0 + c.in1;
      FileIsOrdered(f);
      assert f.Overlaps(Some(allStart.user), Some(allLimit.user));
      assert c.level == 0 ==> f in (set g | g in expanded);
    }
    if c.level == 0 {
      forall f, g | f in expanded && g in v[0] && g.Overlaps(Some(f.smallest.user), Some(f.largest.user))
          ensures g in expanded {
        assert f in (set h | h in expanded);
        assert g in (set h | h in expanded);
      }
    }
  }

  lemma GrowthIsGood(v: Version, c: Inputs, smallest: InternalKey, largest: InternalKey,
                     expanded0: seq<File>, newStart: InternalKey, newLimit: InternalKey)
    requires GoodInputs(v, c) && IsRange(c.in0, smallest, largest) && IsRange(expanded0, newStart, newLimit)
    requires c.in1 == Overlapping(v[c.level + 1], Some(smallest.user), Some(largest.user))
    requires forall f :: f in c.in0 ==> f in expanded0
    requires forall f :: f in expanded0 ==> f in v[c.level]
    requires c.level == 0 ==> ClosedOnLevel0(v[0], expanded0)
    requires |Overlapping(v[c.level + 1], Some(newStart.user), Some(newLimit.user))| == |c.in1|
    ensures GoodInputs(v, Inputs(c.level, expanded0, c.in1, c.grandparents))
    ensures Overlapping(v[c.level + 1], Some(newStart.user), Some(newLimit.user)) == c.in1
  {
    var s :| s in c.in0 && s.smallest == smallest;
    var l :| l in c.in0 && l.largest == largest;
    assert s in expanded0 && l in expanded0;
    WiderFindsMore(v[c.level + 1], smallest.user, largest.user, newStart.user, newLimit.user);
    forall g | g in v[c.level + 1] ensures g in c.in1 <==> Touches(g, expanded0) {
      TouchesIsOverlap(expanded0, newStart, newLimit, g);
    }
  }

  lemma GrowthIsConnected(c: Inputs, allStart: InternalKey, allLimit: InternalKey, expanded0: seq<File>)
    requires Connected(c.in0 + c.in1) && IsRange(c.in0 + c.in1, allStart, allLimit)
    requires allStart.user <= allLimit.user && Anchored(expanded0, allStart.user, allLimit.user)
    requires forall f :: f in c.in0 ==> f in expanded0
    ensures Connected(expanded0 + c.in1)
  {
    ConnectedCovers(c.in0 + c.in1, allStart, allLimit);
    AnchoredToCovered(c.in0 + c.in1, expanded0, allStart.user, allLimit.user);
    ConnectedSame(c.in0 + c.in1 + expanded0, expanded0 + c.in1);
  }
}
