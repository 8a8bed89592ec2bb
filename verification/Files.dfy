/** Table files, levels of files, and the searches over them (version_set.cc). */
module Files {
  import opened Options
  import opened InternalKeys

  const NUM_LEVELS: nat := 7
  const MAX_MEM_COMPACT_LEVEL: nat := 2

  /** FileMetaData together with the sorted entries the table holds. */
  datatype Table = Table(number: nat, size: nat, smallest: InternalKey, largest: InternalKey, entries: seq<Entry>) {
    ghost predicate Valid() {
      && entries != [] && Sorted(entries)
      && smallest == entries[0].key && largest == entries[|entries| - 1].key
    }

    // Does the file's range of user keys meet [lo, hi]?  None is unbounded.
    predicate Overlaps(lo: Option<UserKey>, hi: Option<UserKey>) {
      !AfterFile(lo, this) && !BeforeFile(hi, this)
    }

    predicate Covers(user: UserKey) { smallest.user <= user <= largest.user }
  }

  type File = t: Table | t.Valid()
    ghost witness Table(0, 0, InternalKey(0.0, 0, Value), InternalKey(0.0, 0, Value),
        [Entry(InternalKey(0.0, 0, Value), [])])

  type Version = v: seq<seq<File>> | |v| == NUM_LEVELS ghost witness seq(NUM_LEVELS, _ => [])

  predicate AfterFile(user: Option<UserKey>, f: Table) { user.Some? && user.value > f.largest.user }

  predicate BeforeFile(user: Option<UserKey>, f: Table) { user.Some? && user.value < f.smallest.user }

  ghost predicate LevelSorted(files: seq<File>) {
    forall i, j {:trigger Before(files[i].largest, files[j].smallest)} ::
      0 <= i < j < |files| ==> Before(files[i].largest, files[j].smallest)
  }

  ghost predicate TreeShape(v: Version) {
    forall l :: 1 <= l < NUM_LEVELS ==> LevelSorted(v[l])
  }

  ghost function Held(f: Table): set<Entry> { set e | e in f.entries }

  ghost function EntriesOf(files: seq<File>): set<Entry> {
    set f, e | f in files && e in f.entries :: e
  }

  ghost function AllEntries(v: Version): set<Entry> {
    set l, e | 0 <= l < NUM_LEVELS && e in EntriesOf(v[l]) :: e
  }

  lemma EntryInRange(f: File, e: Entry)
    requires e in f.entries
    ensures AtOrAfter(e.key, f.smallest) && AtOrAfter(f.largest, e.key)
    ensures f.Covers(e.key.user)
  {
    var i :| 0 <= i < |f.entries| && f.entries[i] == e;
    var last := |f.entries| - 1;
    assert i > 0 ==> Before(f.entries[0].key, f.entries[i].key);
    assert i < last ==> Before(f.entries[i].key, f.entries[last].key);
  }

  lemma FileIsOrdered(f: File)
    ensures f.smallest.user <= f.largest.user && AtOrAfter(f.largest, f.smallest)
  {
    EntryInRange(f, f.entries[0]);
  }

  /** Binary search for the first file whose largest key is at or after `key`. */
  method FindFile(files: seq<File>, key: InternalKey) returns (index: nat)
    requires LevelSorted(files)
    ensures index <= |files|
    ensures forall i :: 0 <= i < index ==> Before(files[i].largest, key)
    ensures forall i :: index <= i < |files| ==> AtOrAfter(files[i].largest, key)
  {
    var left, right := 0, |files|;
    while left < right
      invariant 0 <= left <= right <= |files|
      invariant forall i :: 0 <= i < left ==> Before(files[i].largest, key)
      invariant forall i :: right <= i < |files| ==> AtOrAfter(files[i].largest, key)
    {
      var mid := (left + right) / 2;
      FileIsOrdered(files[mid]);
      if Before(files[mid].largest, key) {
        forall i | 0 <= i < mid ensures Before(files[i].largest, key) {
          assert Before(files[i].largest, files[mid].smallest);
        }
        left := mid + 1;
      } else {
        forall i | mid < i < |files| ensures AtOrAfter(files[i].largest, key) {
          FileIsOrdered(files[i]);
          assert Before(files[mid].largest, files[i].smallest);
        }
        right := mid;
      }
    }
    index := right;
  }

  method SomeFileOverlapsRange(disjointSortedFiles: bool, files: seq<File>, lo: Option<UserKey>, hi: Option<UserKey>)
    returns (overlap: bool)
    requires disjointSortedFiles ==> LevelSorted(files)
    ensures overlap <==> exists f :: f in files && f.Overlaps(lo, hi)
  {
    if !disjointSortedFiles {
      var i := 0;
      while i < |files|
        invariant 0 <= i <= |files|
        invariant forall j :: 0 <= j < i ==> !files[j].Overlaps(lo, hi)
      {
        if AfterFile(lo, files[i]) || BeforeFile(hi, files[i]) {
        } else {
          assert files[i].Overlaps(lo, hi);
          return true;
        }
        i := i + 1;
      }
      return false;
    }
    var index := 0;
    if lo.Some? {
      index := FindFile(files, LookupKey(lo.value, MAX_SEQUENCE));
    }
    assert forall i :: 0 <= i < index ==> AfterFile(lo, files[i]);
    if index >= |files| {
      return false;
    }
    forall i | index <= i < |files|
      ensures !AfterFile(lo, files[i])
      ensures BeforeFile(hi, files[index]) ==> BeforeFile(hi, files[i])
    {
      FileIsOrdered(files[index]);
      assert i > index ==> Before(files[index].largest, files[i].smallest);
    }
    overlap := !BeforeFile(hi, files[index]);
    assert overlap ==> files[index].Overlaps(lo, hi);
  }

  // ---------- input selection ----------

  ghost function Overlapping(files: seq<File>, lo: Option<UserKey>, hi: Option<UserKey>): (r: seq<File>)
    ensures forall f :: f in r <==> f in files && f.Overlaps(lo, hi)
  {
    if files == [] then [] else
      var rest := Overlapping(files[..|files| - 1], lo, hi);
      var last := files[|files| - 1];
      assert files == files[..|files| - 1] + [last];
      if last.Overlaps(lo, hi) then rest + [last] else rest
  }

  lemma OverlappingStep(files: seq<File>, i: nat, lo: Option<UserKey>, hi: Option<UserKey>)
    requires i < |files|
    ensures Overlapping(files[..i + 1], lo, hi) ==
            Overlapping(files[..i], lo, hi) + (if files[i].Overlaps(lo, hi) then [files[i]] else [])
  {
    assert files[..i + 1][..i] == files[..i];
  }

  lemma NoneOverlapping(files: seq<File>, lo: Option<UserKey>, hi: Option<UserKey>)
    ensures Overlapping(files[..0], lo, hi) == []
  {
  }

  /** A set of files that holds all files meeting [lo, hi] and, with a file, all files it overlaps. */
  ghost predicate ClosedUnderOverlap(files: seq<File>, lo: Option<UserKey>, hi: Option<UserKey>, t: set<File>) {
    && (forall f :: f in files && f.Overlaps(lo, hi) ==> f in t)
    && (forall f, g :: f in t && g in files && g.Overlaps(Some(f.smallest.user), Some(f.largest.user)) ==> g in t)
  }

  function UserOf(k: Option<InternalKey>): Option<UserKey> {
    if k.Some? then Some(k.value.user) else None
  }

  predicate Wider(lo: Option<UserKey>, hi: Option<UserKey>, lo': Option<UserKey>, hi': Option<UserKey>) {
    && lo.Some? == lo'.Some? && hi.Some? == hi'.Some?
    && (lo.Some? ==> lo'.value <= lo.value) && (hi.Some? ==> hi.value <= hi'.value)
  }

  /** All files of a level that overlap [begin, end].  At level 0, where files may overlap each other,
      the search restarts with a wider range until nothing new is pulled in. */
  method GetOverlappingInputs(level: nat, files: seq<File>, begin: Option<InternalKey>, end: Option<InternalKey>)
    returns (inputs: seq<File>, ghost lo: Option<UserKey>, ghost hi: Option<UserKey>)
    ensures Wider(UserOf(begin), UserOf(end), lo, hi) && inputs == Overlapping(files, lo, hi)
    ensures level > 0 ==> lo == UserOf(begin) && hi == UserOf(end)
    ensures level == 0 ==> ClosedUnderOverlap(files, UserOf(begin), UserOf(end), set f | f in inputs)
    ensures level == 0 ==>
            forall t :: ClosedUnderOverlap(files, UserOf(begin), UserOf(end), t) ==> (set f | f in inputs) <= t
  {
    hide ClosedUnderOverlap;
    hide InsideEveryClosedSet;
    hide StartsBelow;
    hide EndsAbove;
    hide UserOf;
    hide Overlapping;
    hide LevelSorted;
    var userBegin, userEnd := UserOf(begin), UserOf(end);
    inputs := [];
    var i := 0;
    EveryClosedSetHolds(files, userBegin, userEnd);
    NoneOverlapping(files, userBegin, userEnd);
    while i < |files|
      invariant 0 <= i <= |files|
      invariant level > 0 ==> userBegin == UserOf(begin) && userEnd == UserOf(end)
      invariant Wider(UserOf(begin), UserOf(end), userBegin, userEnd)
      invariant inputs == Overlapping(files[..i], userBegin, userEnd)
      invariant level == 0 ==> forall f :: f in inputs ==> Within(f, userBegin, userEnd)
      invariant level == 0 ==> InsideEveryClosedSet(files, UserOf(begin), UserOf(end), userBegin, userEnd)
      decreases StartsBelow(files, userBegin), EndsAbove(files, userEnd), |files| - i
    {
      var f := files[i];
      OverlappingStep(files, i, userBegin, userEnd);
      i := i + 1;
      if AfterFile(userBegin, f) {
      } else if BeforeFile(userEnd, f) {
      } else {
        inputs := inputs + [f];
        if level == 0 {
          if userBegin.Some? && f.smallest.user < userBegin.value {
            WideningStaysInside(files, UserOf(begin), UserOf(end), userBegin, userEnd, f);
            WideningProgress(files, userBegin, userEnd, i - 1);
            userBegin := Some(f.smallest.user);
            NoneOverlapping(files, userBegin, userEnd);
            inputs := [];
            i := 0;
          } else if userEnd.Some? && f.largest.user > userEnd.value {
            WideningStaysInside(files, UserOf(begin), UserOf(end), userBegin, userEnd, f);
            WideningProgress(files, userBegin, userEnd, i - 1);
            userEnd := Some(f.largest.user);
            NoneOverlapping(files, userBegin, userEnd);
            inputs := [];
            i := 0;
          }
        }
      }
    }
    assert files[..|files|] == files;
    lo, hi := userBegin, userEnd;
    if level == 0 {
      FixpointIsClosed(files, UserOf(begin), UserOf(end), userBegin, userEnd);
    }
  }

  ghost predicate Within(f: File, lo: Option<UserKey>, hi: Option<UserKey>) {
    (lo.Some? ==> lo.value <= f.smallest.user) && (hi.Some? ==> f.largest.user <= hi.value)
  }

  ghost function StartsBelow(files: seq<File>, lo: Option<UserKey>): set<int> {
    set i | 0 <= i < |files| && lo.Some? && files[i].smallest.user < lo.value
  }

  ghost function EndsAbove(files: seq<File>, hi: Option<UserKey>): set<int> {
    set i | 0 <= i < |files| && hi.Some? && files[i].largest.user > hi.value
  }

  /** Every closed set for the requested range holds every file that meets [lo, hi]. */
  ghost predicate InsideEveryClosedSet(files: seq<File>, lo0: Option<UserKey>, hi0: Option<UserKey>,
                                       lo: Option<UserKey>, hi: Option<UserKey>) {
    forall t: set<File> :: ClosedUnderOverlap(files, lo0, hi0, t) ==> (set f | f in files && f.Overlaps(lo, hi)) <= t
  }

  lemma EveryClosedSetHolds(files: seq<File>, lo: Option<UserKey>, hi: Option<UserKey>)
    ensures InsideEveryClosedSet(files, lo, hi, lo, hi)
  {
  }

  lemma WideningProgress(files: seq<File>, lo: Option<UserKey>, hi: Option<UserKey>, i: nat)
    requires i < |files|
    ensures lo.Some? && files[i].smallest.user < lo.value ==>
              StartsBelow(files, Some(files[i].smallest.user)) < StartsBelow(files, lo)
    ensures hi.Some? && files[i].largest.user > hi.value ==>
              EndsAbove(files, Some(files[i].largest.user)) < EndsAbove(files, hi)
  {
    if lo.Some? && files[i].smallest.user < lo.value {
      assert i in StartsBelow(files, lo);
    }
    if hi.Some? && files[i].largest.user > hi.value {
      assert i in EndsAbove(files, hi);
    }
  }

  lemma WideningStaysInside(files: seq<File>, lo0: Option<UserKey>, hi0: Option<UserKey>,
                            lo: Option<UserKey>, hi: Option<UserKey>, f: File)
    requires f in files && f.Overlaps(lo, hi)
    requires InsideEveryClosedSet(files, lo0, hi0, lo, hi)
    ensures InsideEveryClosedSet(files, lo0, hi0, WidenLow(lo, f), hi)
    ensures InsideEveryClosedSet(files, lo0, hi0, lo, WidenHigh(hi, f))
  {
    FileIsOrdered(f);
    forall t, g | ClosedUnderOverlap(files, lo0, hi0, t) && g in files
        && (g.Overlaps(WidenLow(lo, f), hi) || g.Overlaps(lo, WidenHigh(hi, f)))
      ensures g in t
    {
      var met := set f | f in files && f.Overlaps(lo, hi);
      assert met <= t && f in met;
      FileIsOrdered(g);
      assert g in met || g.Overlaps(Some(f.smallest.user), Some(f.largest.user));
    }
  }

  lemma FixpointIsClosed(files: seq<File>, lo0: Option<UserKey>, hi0: Option<UserKey>, lo: Option<UserKey>,
                         hi: Option<UserKey>)
    requires Wider(lo0, hi0, lo, hi)
    requires forall f :: f in Overlapping(files, lo, hi) ==> Within(f, lo, hi)
    requires InsideEveryClosedSet(files, lo0, hi0, lo, hi)
    ensures ClosedUnderOverlap(files, lo0, hi0, set f | f in Overlapping(files, lo, hi))
    ensures forall t :: ClosedUnderOverlap(files, lo0, hi0, t) ==> (set f | f in Overlapping(files, lo, hi)) <= t
  {
    var r := Overlapping(files, lo, hi);
    forall f, g | f in r && g in files && g.Overlaps(Some(f.smallest.user), Some(f.largest.user))
      ensures g in r
    {
      FileIsOrdered(f);
      FileIsOrdered(g);
    }
    assert (set f | f in r) == (set f | f in files && f.Overlaps(lo, hi));
  }

  function WidenLow(lo: Option<UserKey>, f: Table): Option<UserKey> {
    if lo.Some? && f.smallest.user < lo.value then Some(f.smallest.user) else lo
  }

  function WidenHigh(hi: Option<UserKey>, f: Table): Option<UserKey> {
    if hi.Some? && f.largest.user > hi.value then Some(f.largest.user) else hi
  }
}
