/** Version::Get: memtables apart, the levels are searched top down and the first hit is the answer. */
module PointLookup {
  import opened Options
  import opened InternalKeys
  import opened Files

  /** Wherever both hold entries of one user key, those of `a` are the newer ones. */
  ghost predicate AllNewer(a: set<Entry>, b: set<Entry>) {
    forall x, y :: x in a && y in b && x.key.user == y.key.user ==> x.key.sequence > y.key.sequence
  }

  /** For each user key, a smaller level holds only newer entries. */
  ghost predicate LevelsNewer(v: Version) {
    forall l, m {:trigger AllNewer(EntriesOf(v[l]), EntriesOf(v[m]))} ::
      0 <= l < m < NUM_LEVELS ==> AllNewer(EntriesOf(v[l]), EntriesOf(v[m]))
  }

  /** Within level 0, for each user key, a larger file number holds only newer entries. */
  ghost predicate NumbersNewer(files: seq<File>) {
    forall f, g {:trigger AllNewer(Held(f), Held(g))} ::
      f in files && g in files && f.number > g.number ==> AllNewer(Held(f), Held(g))
  }

  ghost predicate NumbersDistinct(files: seq<File>) {
    forall f, g :: f in files && g in files && f.number == g.number ==> f == g
  }

  ghost predicate Searchable(v: Version) {
    TreeShape(v) && NumbersNewer(v[0]) && NumbersDistinct(v[0]) && Unique(AllEntries(v))
  }

  /** No entry is stored on two levels. */
  ghost predicate LevelsDisjoint(v: Version) {
    forall l, m, e :: 0 <= l < m < NUM_LEVELS && e in EntriesOf(v[l]) ==> e !in EntriesOf(v[m])
  }

  /** The newest visible entry of the first level that has one. */
  ghost function FirstHit(v: Version, level: nat, user: UserKey, s: Sequence): Option<Entry>
    requires level <= NUM_LEVELS
    decreases NUM_LEVELS - level
  {
    if level == NUM_LEVELS then None
    else if Newest(EntriesOf(v[level]), user, s).Some? then Newest(EntriesOf(v[level]), user, s)
    else FirstHit(v, level + 1, user, s)
  }

  ghost predicate NoCandidate(es: set<Entry>, user: UserKey, s: Sequence) {
    forall e :: e in es && e.key.user == user ==> e.key.sequence > s
  }

  /** What a table answers: the first entry at or after the target, except that a filter may
      suppress the answer when no such entry has the target's user key. */
  ghost predicate FoundBy(entries: seq<Entry>, target: InternalKey, r: Option<Entry>) {
    match r
    case Some(e) => exists i :: 0 <= i < |entries| && entries[i] == e && AtOrAfter(e.key, target) &&
                                forall j :: 0 <= j < i ==> Before(entries[j].key, target)
    case None => forall e :: e in entries && AtOrAfter(e.key, target) ==> e.key.user != target.user
  }

  /** TableCache::Get; `filtered` stands for the filter's verdict, which is never a false negative. */
  method TableGet(f: File, target: InternalKey, filtered: bool) returns (r: Option<Entry>)
    requires filtered ==> forall e :: e in f.entries ==> e.key.user != target.user
    ensures FoundBy(f.entries, target, r)
  {
    if filtered {
      return None;
    }
    var i := 0;
    while i < |f.entries| && Before(f.entries[i].key, target)
      invariant 0 <= i <= |f.entries|
      invariant forall j :: 0 <= j < i ==> Before(f.entries[j].key, target)
    {
      i := i + 1;
    }
    r := if i < |f.entries| then Some(f.entries[i]) else None;
  }

  lemma FileAnswer(f: File, user: UserKey, s: Sequence, r: Option<Entry>)
    requires FoundBy(f.entries, LookupKey(user, s), r)
    ensures r.Some? && r.value.key.user == user ==> IsNewest(Held(f), user, s, r.value)
    ensures !(r.Some? && r.value.key.user == user) ==> NoCandidate(Held(f), user, s)
  {
    var target := LookupKey(user, s);
    forall e | e in f.entries { LookupKeyIsBoundary(user, s, e.key); }
    if r.Some? {
      var i :| 0 <= i < |f.entries| && f.entries[i] == r.value && AtOrAfter(r.value.key, target) &&
               forall j :: 0 <= j < i ==> Before(f.entries[j].key, target);
      forall x | x in f.entries && x.key.user == user && x.key.sequence <= s
        ensures r.value.key.user == user && x.key.sequence <= r.value.key.sequence
      {
        var j :| 0 <= j < |f.entries| && f.entries[j] == x;
        assert j > i ==> Before(f.entries[i].key, f.entries[j].key);
      }
    }
  }

  lemma NotCovered(f: File, user: UserKey, s: Sequence)
    requires !f.Covers(user)
    ensures NoCandidate(Held(f), user, s)
  {
    forall e | e in f.entries ensures e.key.user != user { EntryInRange(f, e); }
  }

  function InsertByNumber(f: File, sorted: seq<File>): (r: seq<File>)
    ensures |r| == |sorted| + 1 && forall g :: g in r <==> g == f || g in sorted
  {
    if sorted == [] || f.number > sorted[0].number then [f] + sorted
    else
      assert sorted == [sorted[0]] + sorted[1..];
      [sorted[0]] + InsertByNumber(f, sorted[1..])
  }

  ghost predicate NewestFirst(files: seq<File>) {
    forall i, j :: 0 <= i < j < |files| ==> files[i].number >= files[j].number
  }

  lemma {:induction false} InsertKeepsOrder(f: File, sorted: seq<File>)
    requires NewestFirst(sorted)
    ensures NewestFirst(InsertByNumber(f, sorted))
  {
    if sorted != [] && f.number <= sorted[0].number {
      InsertKeepsOrder(f, sorted[1..]);
      var rest := InsertByNumber(f, sorted[1..]);
      forall g | g in rest ensures g.number <= sorted[0].number {
        if g in sorted[1..] {
          var j :| 0 <= j < |sorted[1..]| && sorted[1..][j] == g;
          assert sorted[j + 1] == g;
        }
      }
    }
  }

  function Covering(files: seq<File>, user: UserKey): nat {
    if files == [] then 0 else Covering(files[..|files| - 1], user) + if files[|files| - 1].Covers(user) then 1 else 0
  }

  /** The level-0 files that may hold `user`, newest first. */
  method OverlappingNewestFirst(files: seq<File>, user: UserKey) returns (tmp: seq<File>)
    ensures NewestFirst(tmp) && |tmp| == Covering(files, user)
    ensures forall f :: f in tmp <==> f in files && f.Covers(user)
  {
    tmp := [];
    for i := 0 to |files|
      invariant NewestFirst(tmp) && |tmp| == Covering(files[..i], user)
      invariant forall f :: f in tmp <==> f in files[..i] && f.Covers(user)
    {
      assert files[..i + 1] == files[..i] + [files[i]] && files[..i + 1][..i] == files[..i];
      if user >= files[i].smallest.user && user <= files[i].largest.user {
        InsertKeepsOrder(files[i], tmp);
        tmp := InsertByNumber(files[i], tmp);
      }
    }
    assert files[..|files|] == files;
  }

  /** The files one level contributes to a search: enough to decide the key on that level. */
  ghost predicate Decides(level: nat, files: seq<File>, chosen: seq<File>, user: UserKey, s: Sequence) {
    && (forall f :: f in chosen ==> f in files && f.Covers(user))
    && (forall f :: f in files && f !in chosen ==>
          NoCandidate(Held(f), user, s) || (level > 0 && |chosen| == 1 && Before(chosen[0].largest, f.smallest)))
    && (level > 0 ==> |chosen| <= 1)
    && (level > 0 && |chosen| == 1 ==> AtOrAfter(chosen[0].largest, LookupKey(user, s)))
    && (level == 0 ==> NewestFirst(chosen))
  }

  lemma LaterFilesAreOlder(f: File, g: File, a: Entry, b: Entry)
    requires Before(g.largest, f.smallest) && a in g.entries && b in f.entries && a.key.user == b.key.user
    ensures a.key.sequence >= b.key.sequence
  {
    EntryInRange(g, a);
    EntryInRange(f, b);
  }

  // ---------- which files a search opens ----------

  /** What a binary search of a sorted level says about the file it opens. */
  lemma FoundOpens(files: seq<File>, key: InternalKey, index: nat)
    requires LevelSorted(files) && index <= |files|
    requires forall i :: 0 <= i < index ==> Before(files[i].largest, key)
    requires forall i :: index <= i < |files| ==> AtOrAfter(files[i].largest, key)
    ensures if index < |files| && key.user >= files[index].smallest.user then Opens(files, key, files[index])
            else forall f :: !Opens(files, key, f)
  {
    if index < |files| {
      var f := files[index];
      if key.user < f.smallest.user {
        forall g ensures !Opens(files, key, g) { NoneOpens(files, key, index, g); }
      } else {
        forall g | g in files && Before(g.largest, f.largest) ensures Before(g.largest, key) {
          var j :| 0 <= j < |files| && files[j] == g;
          LaterEndsLater(files, index, j);
        }
      }
    }
  }

  /** The one file of a sorted level that a search for `key` would open. */
  ghost predicate Opens(files: seq<File>, key: InternalKey, f: File) {
    && f in files && f.Covers(key.user) && AtOrAfter(f.largest, key)
    && forall g :: g in files && Before(g.largest, f.largest) ==> Before(g.largest, key)
  }

  /** How many files of a level a search for `key` would open. */
  ghost function OpenedOn(v: Version, l: nat, key: InternalKey): nat
    requires l < NUM_LEVELS
  {
    if l == 0 then Covering(v[0], key.user) else if exists f :: Opens(v[l], key, f) then 1 else 0
  }

  ghost function Opened(v: Version, l: nat, key: InternalKey): nat
    requires l <= NUM_LEVELS
  {
    if l == 0 then 0 else Opened(v, l - 1, key) + OpenedOn(v, l - 1, key)
  }

  /** The file is the first that a search for `key` would open. */
  ghost predicate IsFirst(v: Version, l: nat, key: InternalKey, f: File)
    requires l < NUM_LEVELS
  {
    && Opened(v, l, key) == 0 && f in v[l] && f.Covers(key.user)
    && if l == 0 then forall g :: g in v[0] && g.Covers(key.user) ==> g.number <= f.number else Opens(v[l], key, f)
  }

  lemma LaterEndsLater(files: seq<File>, i: nat, j: nat)
    requires LevelSorted(files) && i < |files| && j < |files| && Before(files[j].largest, files[i].largest)
    ensures j < i
  {
    FileIsOrdered(files[i]);
    FileIsOrdered(files[j]);
    assert i < j ==> Before(files[i].largest, files[j].smallest);
  }

  lemma NoneOpens(files: seq<File>, key: InternalKey, index: nat, g: File)
    requires LevelSorted(files) && index < |files| && key.user < files[index].smallest.user
    requires forall i :: 0 <= i < index ==> Before(files[i].largest, key)
    ensures !Opens(files, key, g)
  {
    if g in files {
      var j :| 0 <= j < |files| && files[j] == g;
      FileIsOrdered(files[index]);
      assert j > index ==> Before(files[index].largest, files[j].smallest);
    }
  }

  lemma NewestIsFirst(v: Version, key: InternalKey, tmp: seq<File>)
    requires NewestFirst(tmp) && tmp != [] && forall f :: f in tmp <==> f in v[0] && f.Covers(key.user)
    ensures IsFirst(v, 0, key, tmp[0])
  {
    forall g | g in v[0] && g.Covers(key.user) ensures g.number <= tmp[0].number {
      var i :| 0 <= i < |tmp| && tmp[i] == g;
    }
    assert tmp[0] in tmp;
  }

  lemma {:induction false} OpenedGrows(v: Version, l: nat, m: nat, key: InternalKey)
    requires l <= m <= NUM_LEVELS
    ensures Opened(v, l, key) <= Opened(v, m, key)
  {
    if l < m { OpenedGrows(v, l, m - 1, key); }
  }

  lemma OpensIsOne(files: seq<File>, key: InternalKey, f: File, g: File)
    requires LevelSorted(files) && Opens(files, key, f) && Opens(files, key, g)
    ensures f == g
  {
    var i :| 0 <= i < |files| && files[i] == f;
    var j :| 0 <= j < |files| && files[j] == g;
    FileIsOrdered(f);
    FileIsOrdered(g);
    assert i < j ==> Before(files[i].largest, files[j].smallest);
    assert j < i ==> Before(files[j].largest, files[i].smallest);
  }

  lemma {:induction false} CoveringCounts(files: seq<File>, user: UserKey, f: File)
    requires f in files && f.Covers(user)
    ensures Covering(files, user) > 0
  {
    var n := |files| - 1;
    if files[n] != f { CoveringCounts(files[..n], user, f); }
  }

  lemma FirstIsOpened(v: Version, l: nat, key: InternalKey, f: File)
    requires l < NUM_LEVELS && IsFirst(v, l, key, f)
    ensures Opened(v, l + 1, key) >= 1
  {
    hide Opens;
    if l == 0 { CoveringCounts(v[0], key.user, f); }
  }

  /** There is one file that a search opens first. */
  lemma FirstIsOne(v: Version, key: InternalKey, l: nat, f: File, m: nat, g: File)
    requires TreeShape(v) && NumbersDistinct(v[0]) && l < NUM_LEVELS && m < NUM_LEVELS
    requires IsFirst(v, l, key, f) && IsFirst(v, m, key, g)
    ensures l == m && f == g
  {
    hide Opens;
    hide LevelSorted;
    hide OpenedOn;
    FirstIsOpened(v, l, key, f);
    FirstIsOpened(v, m, key, g);
    if l < m { OpenedGrows(v, l + 1, m, key); }
    if m < l { OpenedGrows(v, m + 1, l, key); }
    if l == m && l > 0 { OpensIsOne(v[l], key, f, g); }
  }

  /** How many files the level adds to a search, and that a sorted level adds the one it opens. */
  ghost predicate OpensAll(v: Version, level: nat, key: InternalKey, chosen: seq<File>)
    requires level < NUM_LEVELS
  {
    && |chosen| == OpenedOn(v, level, key)
    && (level == 0 ==> NewestFirst(chosen) && forall f :: f in chosen <==> f in v[0] && f.Covers(key.user))
    && (level > 0 && chosen != [] ==> Opens(v[level], key, chosen[0]))
  }

  lemma NoneCounts(v: Version, level: nat, key: InternalKey)
    requires 0 < level < NUM_LEVELS && forall f :: !Opens(v[level], key, f)
    ensures OpensAll(v, level, key, [])
  {
  }

  method FilesToSearch(v: Version, level: nat, user: UserKey, s: Sequence) returns (chosen: seq<File>)
    requires level < NUM_LEVELS && TreeShape(v)
    ensures Decides(level, v[level], chosen, user, s)
    ensures OpensAll(v, level, LookupKey(user, s), chosen)
  {
    hide Opens;
    var files := v[level];
    forall f | f in files && !f.Covers(user) ensures NoCandidate(Held(f), user, s) { NotCovered(f, user, s); }
    if level == 0 {
      chosen := OverlappingNewestFirst(files, user);
    } else {
      var index := FindFile(files, LookupKey(user, s));
      chosen := [];
      FoundOpens(files, LookupKey(user, s), index);
      forall i | 0 <= i < index ensures NoCandidate(Held(files[i]), user, s) {
        forall e | e in files[i].entries && e.key.user == user ensures e.key.sequence > s {
          EntryInRange(files[i], e);
          LookupKeyIsBoundary(user, s, e.key);
          assert Before(files[i].largest, LookupKey(user, s));
        }
      }
      if index < |files| {
        FileIsOrdered(files[index]);
        if user < files[index].smallest.user {
          forall i | index <= i < |files| ensures !files[i].Covers(user) {
            if i > index { assert Before(files[index].largest, files[i].smallest); }
          }
        } else {
          chosen := [files[index]];
        }
      }
    }
  }

  datatype GetStats = GetStats(seekFile: Option<File>, seekLevel: nat)

  lemma HitIsNewestOnLevel0(files: seq<File>, chosen: seq<File>, i: nat, user: UserKey, s: Sequence, e: Entry, g: File,
                            x: Entry)
    requires NumbersNewer(files) && NumbersDistinct(files) && NewestFirst(chosen) && i < |chosen|
    requires chosen[i] in files && g in files && (g !in chosen ==> NoCandidate(Held(g), user, s))
    requires forall j :: 0 <= j < i ==> NoCandidate(Held(chosen[j]), user, s)
    requires IsNewest(Held(chosen[i]), user, s, e)
    requires x in Held(g) && x.key.user == user && x.key.sequence <= s
    ensures x.key.sequence <= e.key.sequence
  {
    var j :| 0 <= j < |chosen| && chosen[j] == g;
    if g != chosen[i] {
      assert chosen[i].number > g.number;
      assert AllNewer(Held(chosen[i]), Held(g));
    }
  }

  lemma HitOnLevel(level: nat, files: seq<File>, chosen: seq<File>, i: nat, user: UserKey, s: Sequence, e: Entry)
    requires level == 0 ==> NumbersNewer(files) && NumbersDistinct(files)
    requires Decides(level, files, chosen, user, s) && i < |chosen|
    requires forall j :: 0 <= j < i ==> NoCandidate(Held(chosen[j]), user, s)
    requires IsNewest(Held(chosen[i]), user, s, e)
    ensures IsNewest(EntriesOf(files), user, s, e)
  {
    assert chosen[i] in chosen;
    forall x | x in EntriesOf(files) && x.key.user == user && x.key.sequence <= s
      ensures x.key.sequence <= e.key.sequence
    {
      HitIsNewestOnLevel(level, files, chosen, i, user, s, e, x);
    }
  }

  lemma MissOnLevel(level: nat, files: seq<File>, chosen: seq<File>, user: UserKey, s: Sequence)
    requires level > 0 && Decides(level, files, chosen, user, s)
    requires forall f :: f in chosen ==> NoCandidate(Held(f), user, s) && Exhausted(f, user, s)
    ensures forall g :: g in files ==> NoCandidate(Held(g), user, s)
  {
    forall g | g in files ensures NoCandidate(Held(g), user, s) {
      if g !in chosen && |chosen| == 1 && Before(chosen[0].largest, g.smallest) {
        assert chosen[0] in chosen;
        NotCovered(g, user, s);
      }
    }
  }

  ghost predicate NoFalseNegative(filtered: File -> bool, user: UserKey) {
    forall f: File :: filtered(f) ==> forall e :: e in f.entries ==> e.key.user != user
  }

  lemma HitIsNewestOnLevel(level: nat, files: seq<File>, chosen: seq<File>, i: nat, user: UserKey, s: Sequence,
                           e: Entry, x: Entry)
    requires level == 0 ==> NumbersNewer(files) && NumbersDistinct(files)
    requires Decides(level, files, chosen, user, s) && i < |chosen|
    requires forall j :: 0 <= j < i ==> NoCandidate(Held(chosen[j]), user, s)
    requires IsNewest(Held(chosen[i]), user, s, e)
    requires x in EntriesOf(files) && x.key.user == user && x.key.sequence <= s
    ensures x.key.sequence <= e.key.sequence
  {
    var g :| g in files && x in g.entries;
    assert x in Held(g);
    if level == 0 {
      assert chosen[i] in chosen;
      HitIsNewestOnLevel0(files, chosen, i, user, s, e, g, x);
    } else if g !in chosen {
      LaterFilesAreOlder(g, chosen[0], e, x);
    }
  }

  /** TableCache::Get with SaveValue as the callback: only an entry of the looked-up user key counts. */
  method Probe(f: File, user: UserKey, s: Sequence, filtered: bool) returns (hit: Option<Entry>)
    requires filtered ==> forall e :: e in f.entries ==> e.key.user != user
    ensures hit.Some? ==> IsNewest(Held(f), user, s, hit.value)
    ensures hit.None? ==> NoCandidate(Held(f), user, s) && Exhausted(f, user, s)
  {
    hit := TableGet(f, LookupKey(user, s), filtered);
    FileAnswer(f, user, s, hit);
    if !(hit.Some? && hit.value.key.user == user) {
      var last := f.entries[|f.entries| - 1];
      assert last in f.entries;
      if hit.Some? { EntryInRange(f, hit.value); }
      hit := None;
    }
  }

  // No later file of a sorted level can hold the key either.
  ghost predicate Exhausted(f: Table, user: UserKey, s: Sequence) {
    AtOrAfter(f.largest, LookupKey(user, s)) ==> f.largest.user > user
  }

  lemma LevelIsDecided(files: seq<File>, user: UserKey, s: Sequence)
    requires forall f :: f in files ==> NoCandidate(Held(f), user, s)
    ensures Newest(EntriesOf(files), user, s).None?
  {
    forall x | x in EntriesOf(files) && x.key.user == user ensures x.key.sequence > s {
      var g :| g in files && x in g.entries;
      assert x in Held(g);
    }
    NewestIsNone(EntriesOf(files), user, s);
  }

  datatype ReadCursor = ReadCursor(stats: GetStats, lastFileRead: Option<File>, lastLevel: nat)

  /** The first file the search opens, which holds no candidate, when it opens a second one. */
  ghost predicate IsCharged(v: Version, user: UserKey, s: Sequence, l: nat, f: File)
    requires l < NUM_LEVELS
  {
    && IsFirst(v, l, LookupKey(user, s), f) && NoCandidate(Held(f), user, s)
    && Opened(v, NUM_LEVELS, LookupKey(user, s)) >= 2
  }

  /** The file to charge, if there is one. */
  ghost predicate ChargesFirst(v: Version, user: UserKey, s: Sequence, stats: GetStats) {
    match stats.seekFile
    case Some(f) => stats.seekLevel < NUM_LEVELS - 1 && IsCharged(v, user, s, stats.seekLevel, f)
    case None => forall l, f :: 0 <= l < NUM_LEVELS && f in v[l] ==> !IsCharged(v, user, s, l, f)
  }

  /** What the cursor holds after `n` files were opened without a hit. */
  ghost predicate Missed(v: Version, user: UserKey, s: Sequence, n: nat, c: ReadCursor) {
    if n == 0 then c.lastFileRead.None? && c.stats.seekFile.None?
    else if n == 1 then
      && c.lastFileRead.Some? && c.stats.seekFile.None? && c.lastLevel < NUM_LEVELS
      && IsFirst(v, c.lastLevel, LookupKey(user, s), c.lastFileRead.value)
      && NoCandidate(Held(c.lastFileRead.value), user, s)
    else
      && c.lastFileRead.Some? && c.stats.seekFile.Some? && c.stats.seekLevel < NUM_LEVELS
      && IsFirst(v, c.stats.seekLevel, LookupKey(user, s), c.stats.seekFile.value)
      && NoCandidate(Held(c.stats.seekFile.value), user, s)
  }

  /** Reading one more file: a charge is noted when it is the second. */
  function ReadNext(c: ReadCursor, f: File, level: nat): ReadCursor {
    var stats :=
      if c.lastFileRead.Some? && c.stats.seekFile.None? then GetStats(c.lastFileRead, c.lastLevel) else c.stats;
    ReadCursor(stats, Some(f), level)
  }

  lemma MissedNext(v: Version, user: UserKey, s: Sequence, level: nat, chosen: seq<File>, i: nat, c: ReadCursor)
    requires level < NUM_LEVELS && i < |chosen| && Missed(v, user, s, Opened(v, level, LookupKey(user, s)) + i, c)
    requires Decides(level, v[level], chosen, user, s) && OpensAll(v, level, LookupKey(user, s), chosen)
    requires NoCandidate(Held(chosen[i]), user, s)
    ensures Missed(v, user, s, Opened(v, level, LookupKey(user, s)) + i + 1, ReadNext(c, chosen[i], level))
  {
    hide Opens;
    hide OpenedOn;
    hide NoCandidate;
    if Opened(v, level, LookupKey(user, s)) + i == 0 { FirstOfLevel(v, user, s, level, chosen); }
  }

  lemma FirstOfLevel(v: Version, user: UserKey, s: Sequence, level: nat, chosen: seq<File>)
    requires level < NUM_LEVELS && chosen != [] && Opened(v, level, LookupKey(user, s)) == 0
    requires Decides(level, v[level], chosen, user, s) && OpensAll(v, level, LookupKey(user, s), chosen)
    ensures IsFirst(v, level, LookupKey(user, s), chosen[0])
  {
    hide Opens;
    hide OpenedOn;
    assert chosen[0] in chosen;
    if level == 0 { NewestIsFirst(v, LookupKey(user, s), chosen); }
  }

  /** A hit in the next file: the charge is what it should be. */
  lemma HitCharges(v: Version, user: UserKey, s: Sequence, level: nat, chosen: seq<File>, i: nat, c: ReadCursor)
    requires Searchable(v) && level < NUM_LEVELS && i < |chosen|
    requires Missed(v, user, s, Opened(v, level, LookupKey(user, s)) + i, c) && ChargeOk(v, c, level + 1)
    requires i == 0 ==> ChargeOk(v, c, level)
    requires Decides(level, v[level], chosen, user, s) && OpensAll(v, level, LookupKey(user, s), chosen)
    requires !NoCandidate(Held(chosen[i]), user, s)
    ensures ChargesFirst(v, user, s, ReadNext(c, chosen[i], level).stats)
  {
    hide Opens;
    hide OpenedOn;
    hide NoCandidate;
    hide Searchable;
    var key := LookupKey(user, s);
    var n := Opened(v, level, key) + i;
    assert Opened(v, level + 1, key) == Opened(v, level, key) + |chosen|;
    OpenedGrows(v, level + 1, NUM_LEVELS, key);
    if n == 0 {
      FirstOfLevel(v, user, s, level, chosen);
      forall l, f | 0 <= l < NUM_LEVELS && f in v[l] ensures !IsCharged(v, user, s, l, f) {
        if IsFirst(v, l, key, f) { OnlyFirst(v, key, level, chosen[0], l, f); }
      }
    }
  }

  lemma OnlyFirst(v: Version, key: InternalKey, l: nat, f: File, m: nat, g: File)
    requires Searchable(v) && l < NUM_LEVELS && m < NUM_LEVELS && IsFirst(v, l, key, f) && IsFirst(v, m, key, g)
    ensures l == m && f == g
  {
    FirstIsOne(v, key, l, f, m, g);
  }

  /** No hit at all. */
  lemma MissCharges(v: Version, user: UserKey, s: Sequence, c: ReadCursor)
    requires Missed(v, user, s, Opened(v, NUM_LEVELS, LookupKey(user, s)), c) && ChargeOk(v, c, NUM_LEVELS)
    ensures ChargesFirst(v, user, s, c.stats)
  {
    hide Opens;
    hide OpenedOn;
    hide NoCandidate;
  }

  // Files are charged only on a level above one where a later file was read.
  ghost predicate ChargeOk(v: Version, c: ReadCursor, limit: nat) {
    && (c.stats.seekFile.Some? ==> c.stats.seekLevel < NUM_LEVELS - 1 && c.stats.seekFile.value in v[c.stats.seekLevel])
    && (c.lastFileRead.Some? ==> c.lastLevel < limit <= NUM_LEVELS && c.lastFileRead.value in v[c.lastLevel])
  }

  method SearchLevel(v: Version, level: nat, chosen: seq<File>, user: UserKey, s: Sequence,
                     filtered: File -> bool, before: ReadCursor)
    returns (hit: Option<Entry>, after: ReadCursor)
    requires level < NUM_LEVELS && (level == 0 ==> NumbersNewer(v[0]) && NumbersDistinct(v[0]))
    requires Decides(level, v[level], chosen, user, s)
    requires NoFalseNegative(filtered, user)
    requires Searchable(v) && OpensAll(v, level, LookupKey(user, s), chosen)
    requires ChargeOk(v, before, level) && Missed(v, user, s, Opened(v, level, LookupKey(user, s)), before)
    ensures hit.Some? ==> ChargesFirst(v, user, s, after.stats)
    ensures hit.None? ==> Missed(v, user, s, Opened(v, level + 1, LookupKey(user, s)), after)
    ensures hit.Some? ==> IsNewest(EntriesOf(v[level]), user, s, hit.value)
    ensures hit.None? ==> forall f :: f in v[level] ==> NoCandidate(Held(f), user, s)
    ensures ChargeOk(v, after, level + 1)
  {
    hide Opens;
    hide OpenedOn;
    hide Missed;
    hide ChargesFirst;
    hide Decides;
    hide OpensAll;
    hide NoCandidate;
    hide IsNewest;
    hide Exhausted;
    hide NumbersNewer;
    hide Unique;
    hide TreeShape;
    hide Held;
    hide Table.Valid;
    hide NoFalseNegative;
    after := before;
    var i := 0;
    while i < |chosen|
      invariant 0 <= i <= |chosen|
      invariant Missed(v, user, s, Opened(v, level, LookupKey(user, s)) + i, after)
      invariant forall j :: 0 <= j < i ==> NoCandidate(Held(chosen[j]), user, s) && Exhausted(chosen[j], user, s)
      invariant if i == 0 then ChargeOk(v, after, level) else ChargeOk(v, after, level + 1) && after.lastLevel == level
    {
      ChosenIsIn(v, level, chosen, i, user, s);
      ghost var cursor := after;
      if after.lastFileRead.Some? && after.stats.seekFile.None? {
        after := after.(stats := GetStats(after.lastFileRead, after.lastLevel));
      }
      after := after.(lastFileRead := Some(chosen[i]), lastLevel := level);
      FilterIsRight(filtered, chosen[i], user);
      hit := Probe(chosen[i], user, s, filtered(chosen[i]));
      if hit.Some? {
        HitOnLevel(level, v[level], chosen, i, user, s, hit.value);
        HitIsCandidate(Held(chosen[i]), user, s, hit.value);
        HitCharges(v, user, s, level, chosen, i, cursor);
        return;
      }
      MissedNext(v, user, s, level, chosen, i, cursor);
      i := i + 1;
    }
    AllCounted(v, level, LookupKey(user, s), chosen);
    if level > 0 { MissOnLevel(level, v[level], chosen, user, s); } else { MissOnLevel0(v[0], chosen, user, s); }
    hit := None;
  }

  lemma ChosenIsIn(v: Version, level: nat, chosen: seq<File>, i: nat, user: UserKey, s: Sequence)
    requires level < NUM_LEVELS && Decides(level, v[level], chosen, user, s) && i < |chosen|
    ensures chosen[i] in v[level] && (level > 0 ==> |chosen| == 1)
  {
    assert chosen[i] in chosen;
  }

  lemma FilterIsRight(filtered: File -> bool, f: File, user: UserKey)
    requires NoFalseNegative(filtered, user)
    ensures filtered(f) ==> forall e :: e in f.entries ==> e.key.user != user
  {
  }

  lemma HitIsCandidate(es: set<Entry>, user: UserKey, s: Sequence, e: Entry)
    requires IsNewest(es, user, s, e)
    ensures !NoCandidate(es, user, s)
  {
  }

  lemma AllCounted(v: Version, level: nat, key: InternalKey, chosen: seq<File>)
    requires level < NUM_LEVELS && OpensAll(v, level, key, chosen)
    ensures Opened(v, level + 1, key) == Opened(v, level, key) + |chosen|
  {
  }

  lemma MissOnLevel0(files: seq<File>, chosen: seq<File>, user: UserKey, s: Sequence)
    requires Decides(0, files, chosen, user, s) && forall f :: f in chosen ==> NoCandidate(Held(f), user, s)
    ensures forall g :: g in files ==> NoCandidate(Held(g), user, s)
  {
    hide NoCandidate;
  }

  lemma LevelIsUnique(v: Version, level: nat)
    requires level < NUM_LEVELS && Unique(AllEntries(v))
    ensures Unique(EntriesOf(v[level]))
  {
    forall e | e in EntriesOf(v[level]) ensures e in AllEntries(v) { }
  }

  /** Search of one version.  When a second file has to be read, the first one is charged. */
  method Get(v: Version, user: UserKey, s: Sequence, filtered: File -> bool)
             returns (value: Option<Bytes>, stats: GetStats)
    requires Searchable(v)
    requires NoFalseNegative(filtered, user)
    ensures value == Outcome(FirstHit(v, 0, user, s))
    ensures stats.seekFile.Some? ==> stats.seekLevel < NUM_LEVELS - 1 && stats.seekFile.value in v[stats.seekLevel]
    ensures ChargesFirst(v, user, s, stats)
  {
    hide Opens;
    hide OpenedOn;
    hide ChargesFirst;
    hide Decides;
    hide OpensAll;
    hide IsFirst;
    var cursor := ReadCursor(GetStats(None, 0), None, 0);
    var level := 0;
    while level < NUM_LEVELS
      invariant level <= NUM_LEVELS && FirstHit(v, 0, user, s) == FirstHit(v, level, user, s)
      invariant ChargeOk(v, cursor, level)
      invariant Missed(v, user, s, Opened(v, level, LookupKey(user, s)), cursor)
    {
      var chosen := FilesToSearch(v, level, user, s);
      var hit;
      hit, cursor := SearchLevel(v, level, chosen, user, s, filtered, cursor);
      if hit.Some? {
        LevelIsUnique(v, level);
        NewestIs(EntriesOf(v[level]), user, s, hit.value);
        return Outcome(hit), cursor.stats;
      }
      LevelIsDecided(v[level], user, s);
      level := level + 1;
    }
    MissCharges(v, user, s, cursor);
    return None, cursor.stats;
  }

  // ---------- when the first hit is the right answer ----------

  ghost function Below(v: Version, level: nat): set<Entry>
    requires level <= NUM_LEVELS
  {
    set l, e | level <= l < NUM_LEVELS && e in EntriesOf(v[l]) :: e
  }

  lemma {:induction false} FirstHitIsNewest(v: Version, level: nat, user: UserKey, s: Sequence)
    requires level <= NUM_LEVELS && LevelsNewer(v) && Unique(AllEntries(v))
    ensures FirstHit(v, level, user, s) == Newest(Below(v, level), user, s)
    decreases NUM_LEVELS - level
  {
    hide Latest;
    hide EntriesOf;
    if level < NUM_LEVELS {
      FirstHitIsNewest(v, level + 1, user, s);
      assert Below(v, level) == EntriesOf(v[level]) + Below(v, level + 1);
      forall e | e in Below(v, level) ensures e in AllEntries(v) { }
      forall a, b | a in EntriesOf(v[level]) && b in Below(v, level + 1) && a.key.user == b.key.user
        ensures a.key.sequence > b.key.sequence
      {
        var m :| level + 1 <= m < NUM_LEVELS && b in EntriesOf(v[m]);
        assert AllNewer(EntriesOf(v[level]), EntriesOf(v[m]));
      }
      NewestOfLayers(EntriesOf(v[level]), Below(v, level + 1), user, s);
    } else {
      assert Below(v, level) == {};
    }
  }

  lemma {:induction false} FirstHitLevel(v: Version, level: nat, l: nat, user: UserKey, s: Sequence, a: Entry)
    requires level <= l < NUM_LEVELS && a in EntriesOf(v[l]) && a.key.user == user && a.key.sequence <= s
    ensures FirstHit(v, level, user, s).Some?
    ensures exists k :: level <= k <= l && FirstHit(v, level, user, s).value in EntriesOf(v[k])
    decreases l - level
  {
    NewestProperty(EntriesOf(v[level]), user, s);
    if Newest(EntriesOf(v[level]), user, s).None? {
      FirstHitLevel(v, level + 1, l, user, s, a);
    }
  }

  lemma OlderAboveIsFoundFirst(v: Version, l: nat, m: nat, a: Entry, b: Entry)
    requires Unique(AllEntries(v)) && LevelsDisjoint(v) && l < m < NUM_LEVELS
    requires a in EntriesOf(v[l]) && b in EntriesOf(v[m]) && a.key.user == b.key.user
             && a.key.sequence <= b.key.sequence
    ensures FirstHit(v, 0, b.key.user, b.key.sequence) != Newest(AllEntries(v), b.key.user, b.key.sequence)
  {
    FirstHitLevel(v, 0, l, b.key.user, b.key.sequence, a);
    assert b in AllEntries(v);
    NewestIs(AllEntries(v), b.key.user, b.key.sequence, b);
  }

  ghost predicate LookupIsExact(v: Version) {
    forall user, s :: FirstHit(v, 0, user, s) == Newest(AllEntries(v), user, s)
  }

  lemma NewerMeansExact(v: Version)
    requires Unique(AllEntries(v)) && LevelsNewer(v)
    ensures LookupIsExact(v)
  {
    assert Below(v, 0) == AllEntries(v);
    forall user, s ensures FirstHit(v, 0, user, s) == Newest(AllEntries(v), user, s) {
      FirstHitIsNewest(v, 0, user, s);
    }
  }

  lemma ExactMeansNewer(v: Version, l: nat, m: nat)
    requires Unique(AllEntries(v)) && LevelsDisjoint(v) && LookupIsExact(v) && l < m < NUM_LEVELS
    ensures AllNewer(EntriesOf(v[l]), EntriesOf(v[m]))
  {
    forall a, b | a in EntriesOf(v[l]) && b in EntriesOf(v[m]) && a.key.user == b.key.user
      ensures a.key.sequence > b.key.sequence
    {
      if a.key.sequence <= b.key.sequence { OlderAboveIsFoundFirst(v, l, m, a, b); }
    }
  }

  /** Point lookup is exact, for every key and sequence, if and only if for each user key a smaller
      level holds only newer entries. */
  lemma LookupIsExactIff(v: Version)
    requires Unique(AllEntries(v)) && LevelsDisjoint(v)
    ensures LookupIsExact(v) <==> LevelsNewer(v)
  {
    if LevelsNewer(v) {
      NewerMeansExact(v);
    }
    if LookupIsExact(v) {
      forall l, m | 0 <= l < m < NUM_LEVELS ensures AllNewer(EntriesOf(v[l]), EntriesOf(v[m])) {
        ExactMeansNewer(v, l, m);
      }
    }
  }
}
