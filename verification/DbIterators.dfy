/** DBIter: a two-direction cursor over internal entries that hides old versions and deletions
    (db_iter.cc).  It refines a plain cursor over the map of visible values. */
module DbIterators {
  import opened Options
  import opened InternalKeys
  import opened Cursors
  import opened MergingIterators

  // ---------- the visible map, as a sorted sequence ----------

  predicate Reaches(es: seq<Entry>, s: Sequence, i: nat)
    requires i < |es|
  {
    es[i].key.sequence <= s
  }

  /** No visible entry of `es[from..i]` has the user key of entry `i`. */
  predicate FirstOfKey(es: seq<Entry>, s: Sequence, from: nat, i: nat)
    requires i < |es|
  {
    forall j :: from <= j < i && es[j].key.user == es[i].key.user ==> !Reaches(es, s, j)
  }

  /** Entry `i` would be shown if the sequence started at `from`. */
  predicate ShownFrom(es: seq<Entry>, s: Sequence, from: nat, i: nat)
    requires i < |es|
  {
    Reaches(es, s, i) && es[i].key.kind.Value? && FirstOfKey(es, s, from, i)
  }

  predicate Shown(es: seq<Entry>, s: Sequence, i: nat)
    requires i < |es|
  {
    ShownFrom(es, s, 0, i)
  }

  type Pair = (UserKey, Bytes)

  /** The visible map: user keys with their visible values, in order. */
  function Pairs(es: seq<Entry>, s: Sequence, n: nat): seq<Pair>
    requires n <= |es|
  {
    if n == 0 then [] else
      var rest := Pairs(es, s, n - 1);
      if Shown(es, s, n - 1) then rest + [(es[n - 1].key.user, es[n - 1].value)] else rest
  }

  function Map(es: seq<Entry>, s: Sequence): seq<Pair> { Pairs(es, s, |es|) }

  ghost predicate NoneShown(es: seq<Entry>, s: Sequence, from: nat, to: nat)
    requires to <= |es|
  {
    forall i :: from <= i < to ==> !Shown(es, s, i)
  }

  lemma {:induction false} NoneShownNoPairs(es: seq<Entry>, s: Sequence, i: nat, n: nat)
    requires i <= n <= |es| && NoneShown(es, s, i, n)
    ensures Pairs(es, s, n) == Pairs(es, s, i)
  {
    if i < n { NoneShownNoPairs(es, s, i, n - 1); }
  }

  lemma {:induction false} PairsPrefix(es: seq<Entry>, s: Sequence, i: nat, n: nat)
    requires i <= n <= |es|
    ensures Pairs(es, s, i) <= Pairs(es, s, n)
  {
    if i < n { PairsPrefix(es, s, i, n - 1); }
  }

  /** A shown entry and its place in the map. */
  lemma PairAt(es: seq<Entry>, s: Sequence, i: nat)
    requires i < |es| && Shown(es, s, i)
    ensures |Pairs(es, s, i)| < |Map(es, s)| && Map(es, s)[|Pairs(es, s, i)|] == (es[i].key.user, es[i].value)
  {
    PairsPrefix(es, s, i + 1, |es|);
    assert Pairs(es, s, i + 1)[|Pairs(es, s, i)|] == (es[i].key.user, es[i].value);
  }

  lemma {:induction false} PairsAreShown(es: seq<Entry>, s: Sequence, n: nat, p: Pair)
    requires n <= |es|
    ensures p in Pairs(es, s, n) <==> exists i :: 0 <= i < n && Shown(es, s, i) && (es[i].key.user, es[i].value) == p
  {
    if n > 0 { PairsAreShown(es, s, n - 1, p); }
  }

  lemma ShownIsNewest(es: seq<Entry>, s: Sequence, i: nat)
    requires Sorted(es) && i < |es| && Reaches(es, s, i) && FirstOfKey(es, s, 0, i)
    ensures IsNewest(SetOf(es), es[i].key.user, s, es[i])
  {
    assert es[i] in es;
    forall x | x in SetOf(es) && x.key.user == es[i].key.user && x.key.sequence <= s
      ensures x.key.sequence <= es[i].key.sequence
    {
      var j :| 0 <= j < |es| && es[j] == x;
      assert i < j ==> Before(es[i].key, es[j].key);
    }
  }

  lemma {:induction false} FirstVisible(es: seq<Entry>, s: Sequence, user: UserKey, n: nat) returns (i: nat)
    requires n < |es| && Reaches(es, s, n) && es[n].key.user == user
    ensures i <= n && Reaches(es, s, i) && es[i].key.user == user && FirstOfKey(es, s, 0, i)
  {
    if FirstOfKey(es, s, 0, n) {
      i := n;
    } else {
      var j :| 0 <= j < n && es[j].key.user == user && Reaches(es, s, j);
      i := FirstVisible(es, s, user, j);
    }
  }

  /** The map holds exactly the visible values, one per user key. */
  lemma MapIsVisible(es: seq<Entry>, s: Sequence, user: UserKey, value: Bytes)
    requires Sorted(es) && Unique(SetOf(es))
    ensures (user, value) in Map(es, s) <==> Visible(SetOf(es), user, s) == Some(value)
  {
    PairsAreShown(es, s, |es|, (user, value));
    if (user, value) in Map(es, s) {
      var i :| 0 <= i < |es| && Shown(es, s, i) && (es[i].key.user, es[i].value) == (user, value);
      ShownIsNewest(es, s, i);
      NewestIs(SetOf(es), user, s, es[i]);
    }
    if Visible(SetOf(es), user, s) == Some(value) {
      NewestProperty(SetOf(es), user, s);
      var e := Newest(SetOf(es), user, s).value;
      var k :| 0 <= k < |es| && es[k] == e;
      var i := FirstVisible(es, s, user, k);
      ShownIsNewest(es, s, i);
      NewestIs(SetOf(es), user, s, es[i]);
    }
  }

  lemma ShownKeysIncrease(es: seq<Entry>, s: Sequence, i: nat, j: nat)
    requires Sorted(es) && i < j < |es| && Shown(es, s, i) && Shown(es, s, j)
    ensures es[i].key.user < es[j].key.user
  {
    assert Before(es[i].key, es[j].key);
  }

  /** Keys of the map strictly increase. */
  lemma {:induction false} MapIsSorted(es: seq<Entry>, s: Sequence, n: nat)
    requires Sorted(es) && n <= |es|
    ensures forall i, j :: 0 <= i < j < |Pairs(es, s, n)| ==> Pairs(es, s, n)[i].0 < Pairs(es, s, n)[j].0
  {
    if n > 0 {
      MapIsSorted(es, s, n - 1);
      if Shown(es, s, n - 1) {
        forall p | p in Pairs(es, s, n - 1) ensures p.0 < es[n - 1].key.user {
          PairsAreShown(es, s, n - 1, p);
          var i :| 0 <= i < n - 1 && Shown(es, s, i) && (es[i].key.user, es[i].value) == p;
          ShownKeysIncrease(es, s, i, n - 1);
        }
      }
    }
  }

  /** How many visible user keys precede `target`. */
  function CountBelow(pairs: seq<Pair>, target: UserKey): nat {
    if pairs == [] then 0 else CountBelow(pairs[..|pairs| - 1], target) + if pairs[|pairs| - 1].0 < target then 1 else 0
  }

  /** `at` separates the keys below the target from the others. */
  lemma {:induction false} SeekIsCount(es: seq<Entry>, s: Sequence, target: UserKey, at: nat, n: nat)
    requires Sorted(es) && at <= n <= |es|
    requires forall i :: 0 <= i < at && Shown(es, s, i) ==> es[i].key.user < target
    requires forall i :: at <= i < n && Shown(es, s, i) ==> es[i].key.user >= target
    ensures CountBelow(Pairs(es, s, n), target) == |Pairs(es, s, at)|
  {
    if n > 0 {
      if at < n {
        SeekIsCount(es, s, target, at, n - 1);
      } else {
        SeekIsCount(es, s, target, n - 1, n - 1);
      }
      if Shown(es, s, n - 1) {
        var p := Pairs(es, s, n);
        assert p[..|p| - 1] == Pairs(es, s, n - 1);
      }
    }
  }

  // ---------- scanning forward ----------

  predicate Above(es: seq<Entry>, skipping: bool, skip: UserKey, i: nat)
    requires i < |es|
  {
    skipping ==> es[i].key.user > skip
  }

  /** A forward scan may start at `from`: nothing before it hides what the scan looks for, and a key
      to skip is not behind it. */
  ghost predicate MayScan(es: seq<Entry>, s: Sequence, from: nat, skipping: bool, skip: UserKey) {
    && (forall i, j ::
        0 <= j < from <= i < |es| && Above(es, skipping, skip, i) && es[j].key.user == es[i].key.user
        ==> !Reaches(es, s, j))
    && (skipping ==> forall i :: from <= i < |es| && Reaches(es, s, i) ==> skip <= es[i].key.user)
  }

  /** The scan is at `at`: it passed nothing it looks for, and `skip` covers every visible entry passed. */
  ghost predicate Scanned(es: seq<Entry>, s: Sequence, from: nat, at: nat,
                          skipping0: bool, skip0: UserKey, skipping: bool, skip: UserKey)
    requires at <= |es|
  {
    && from <= at
    && (forall i :: from <= i < at && Above(es, skipping0, skip0, i) ==> !Shown(es, s, i))
    && (forall i :: from <= i < at && Reaches(es, s, i) ==> skipping && es[i].key.user <= skip)
    && (skipping0 ==> skipping && skip0 <= skip)
    && (skipping ==> (skipping0 && skip == skip0) || exists i ::
        from <= i < at && Reaches(es, s, i) && es[i].key.user == skip)
  }

  lemma PassInvisible(es: seq<Entry>, s: Sequence, from: nat, at: nat, skipping0: bool, skip0: UserKey, skipping: bool,
                      skip: UserKey)
    requires at < |es| && Scanned(es, s, from, at, skipping0, skip0, skipping, skip) && !Reaches(es, s, at)
    ensures Scanned(es, s, from, at + 1, skipping0, skip0, skipping, skip)
  {
  }

  lemma PassDeletion(es: seq<Entry>, s: Sequence, from: nat, at: nat, skipping0: bool, skip0: UserKey, skipping: bool,
                     skip: UserKey)
    requires Sorted(es) && at < |es| && MayScan(es, s, from, skipping0, skip0)
    requires Scanned(es, s, from, at, skipping0, skip0, skipping, skip)
    requires Reaches(es, s, at) && es[at].key.kind.Deletion?
    ensures Scanned(es, s, from, at + 1, skipping0, skip0, true, es[at].key.user)
  {
    forall i | from <= i < at ensures es[i].key.user <= es[at].key.user { assert Before(es[i].key, es[at].key); }
  }

  lemma PassHidden(es: seq<Entry>, s: Sequence, from: nat, at: nat, skipping0: bool, skip0: UserKey, skip: UserKey)
    requires Sorted(es) && at < |es|
    requires Scanned(es, s, from, at, skipping0, skip0, true, skip)
    requires Reaches(es, s, at) && es[at].key.user <= skip
    ensures Scanned(es, s, from, at + 1, skipping0, skip0, true, skip)
  {
    if Above(es, skipping0, skip0, at) {
      var i :| from <= i < at && Reaches(es, s, i) && es[i].key.user == skip;
      assert Before(es[i].key, es[at].key);
    }
  }

  lemma FoundShown(es: seq<Entry>, s: Sequence, from: nat, at: nat, skipping0: bool, skip0: UserKey, skipping: bool,
                   skip: UserKey)
    requires at < |es| && MayScan(es, s, from, skipping0, skip0)
    requires Scanned(es, s, from, at, skipping0, skip0, skipping, skip)
    requires Reaches(es, s, at) && es[at].key.kind.Value? && !(skipping && es[at].key.user <= skip)
    ensures Shown(es, s, at) && Above(es, skipping0, skip0, at)
  {
  }

  lemma ScanStarts(es: seq<Entry>, s: Sequence, from: nat, skipping0: bool, skip0: UserKey)
    requires from <= |es|
    ensures Scanned(es, s, from, from, skipping0, skip0, skipping0, skip0)
  {
  }

  lemma ScanPassed(es: seq<Entry>, s: Sequence, from: nat, at: nat, skipping0: bool, skip0: UserKey, skipping: bool,
                   skip: UserKey)
    requires at <= |es| && Scanned(es, s, from, at, skipping0, skip0, skipping, skip)
    ensures from <= at && forall i :: from <= i < at && Above(es, skipping0, skip0, i) ==> !Shown(es, s, i)
  {
  }

  // ---------- scanning backward ----------

  /** Entries `to..from` were passed backward.  Either none of them would be shown if the sequence
      started at `to`, or exactly one would, the first visible one, and it is saved. */
  ghost predicate BackScanned(es: seq<Entry>, s: Sequence, to: nat, from: nat, found: bool,
                              savedKey: UserKey, savedValue: Bytes, cur: nat)
    requires from <= |es|
  {
    && to <= from
    && if found then
         && to <= cur < from && ShownFrom(es, s, to, cur) && savedKey == es[cur].key.user && savedValue == es[cur].value
         && (forall i :: to <= i < cur ==> !Reaches(es, s, i))
         && (forall i :: cur < i < from ==> !ShownFrom(es, s, to, i))
       else forall i :: to <= i < from ==> !ShownFrom(es, s, to, i)
  }

  lemma NotShownStays(es: seq<Entry>, s: Sequence, at: nat, i: nat)
    requires at < i < |es| && !ShownFrom(es, s, at + 1, i)
    ensures !ShownFrom(es, s, at, i)
  {
    assert FirstOfKey(es, s, at, i) ==> FirstOfKey(es, s, at + 1, i);
  }

  lemma BackInvisible(es: seq<Entry>, s: Sequence, at: nat, from: nat, found: bool, savedKey: UserKey,
                      savedValue: Bytes, cur: nat)
    requires at < from <= |es| && BackScanned(es, s, at + 1, from, found, savedKey, savedValue, cur)
    requires !Reaches(es, s, at)
    ensures BackScanned(es, s, at, from, found, savedKey, savedValue, cur)
  {
    forall i | at <= i < from && !(found && i <= cur) ensures !ShownFrom(es, s, at, i) {
      if i > at { NotShownStays(es, s, at, i); }
    }
    assert found ==> FirstOfKey(es, s, at, cur);
  }

  /** A visible entry of the saved key, or any one when nothing is saved, decides anew. */
  lemma BackVisible(es: seq<Entry>, s: Sequence, at: nat, from: nat, found: bool, savedKey: UserKey, savedValue: Bytes,
                    cur: nat)
    requires Sorted(es) && at < from <= |es| && BackScanned(es, s, at + 1, from, found, savedKey, savedValue, cur)
    requires Reaches(es, s, at) && (found ==> es[at].key.user >= savedKey)
    ensures BackScanned(es, s, at, from, es[at].key.kind.Value?, es[at].key.user, es[at].value, at)
  {
    forall i | at < i < from ensures !ShownFrom(es, s, at, i) {
      if found && i == cur {
        assert Before(es[at].key, es[i].key);
      } else if !found || i > cur {
        NotShownStays(es, s, at, i);
      }
    }
  }

  /** At a visible entry of a smaller key, the saved entry is shown. */
  lemma BackStops(es: seq<Entry>, s: Sequence, to: nat, from: nat, savedKey: UserKey, savedValue: Bytes, cur: nat)
    requires Sorted(es) && from <= |es| && to <= from && BackScanned(es, s, to, from, true, savedKey, savedValue, cur)
    requires to > 0 ==> es[to - 1].key.user < savedKey
    ensures Shown(es, s, cur) && NoneShown(es, s, cur + 1, from)
  {
    forall i | 0 <= i < to
      ensures es[i].key.user < savedKey
    {
      assert i < to - 1 ==> Before(es[i].key, es[to - 1].key);
    }
    forall i | cur < i < from ensures !Shown(es, s, i) {
      if Shown(es, s, i) { assert ShownFrom(es, s, to, i); }
    }
  }

  lemma BackEnds(es: seq<Entry>, s: Sequence, from: nat, savedKey: UserKey, savedValue: Bytes, cur: nat)
    requires from <= |es| && BackScanned(es, s, 0, from, false, savedKey, savedValue, cur)
    ensures NoneShown(es, s, 0, from)
  {
  }

  // ---------- the iterator ----------

  /** In reverse, the inner cursor is before the current user key; what it skipped on the way is
      invisible. */
  ghost predicate InReverse(es: seq<Entry>, s: Sequence, at: nat, savedKey: UserKey, savedValue: Bytes, cur: nat)
    requires cur < |es| && at <= |es|
  {
    && savedKey == es[cur].key.user && savedValue == es[cur].value
    && (at < |es| ==> at < cur && es[at].key.user < savedKey)
    && (forall i :: (if at < |es| then at + 1 else 0) <= i < cur ==> !Reaches(es, s, i))
  }

  ghost predicate Positioned(es: seq<Entry>, s: Sequence, forward: bool, valid: bool, at: nat,
                             savedKey: UserKey, savedValue: Bytes, cur: nat)
  {
    && at <= |es|
    && if valid then cur < |es| && Shown(es, s, cur)
       && (if forward then at == cur else InReverse(es, s, at, savedKey, savedValue, cur))
       else cur == |es|
  }

  lemma NextShown(es: seq<Entry>, s: Sequence, c: nat, d: nat)
    requires c < d <= |es| && Shown(es, s, c) && NoneShown(es, s, c + 1, d)
    ensures |Pairs(es, s, d)| == |Pairs(es, s, c)| + 1
  {
    NoneShownNoPairs(es, s, c + 1, d);
  }

  lemma KeyMayScan(es: seq<Entry>, s: Sequence, from: nat, c: nat)
    requires Sorted(es) && from <= c < |es| && Shown(es, s, c)
    requires forall i :: from <= i < c ==> !Reaches(es, s, i)
    ensures MayScan(es, s, from, true, es[c].key.user)
  {
    forall j | 0 <= j < c ensures es[j].key.user <= es[c].key.user { assert Before(es[j].key, es[c].key); }
    forall i | c < i < |es| ensures es[c].key.user <= es[i].key.user { assert Before(es[c].key, es[i].key); }
  }

  lemma NextAbove(es: seq<Entry>, s: Sequence, c: nat, from: nat, d: nat)
    requires Sorted(es) && from <= c < |es| && from <= d <= |es| && Shown(es, s, c)
    requires forall i :: from <= i < d && Above(es, true, es[c].key.user, i) ==> !Shown(es, s, i)
    requires d < |es| ==> Above(es, true, es[c].key.user, d)
    ensures c < d && NoneShown(es, s, c + 1, d)
  {
    forall i | 0 <= i < c ensures es[i].key.user <= es[c].key.user { assert Before(es[i].key, es[c].key); }
    forall i | c < i < d ensures !Shown(es, s, i) {
      if Shown(es, s, i) { ShownKeysIncrease(es, s, c, i); }
    }
  }

  lemma SeekMayScan(es: seq<Entry>, s: Sequence, target: UserKey, from: nat)
    requires IsSeek(es, LookupKey(target, s), from)
    ensures MayScan(es, s, from, false, target)
  {
    forall i | 0 <= i < |es| { LookupKeyIsBoundary(target, s, es[i].key); }
  }

  lemma SeekLands(es: seq<Entry>, s: Sequence, target: UserKey, from: nat, d: nat)
    requires Sorted(es) && IsSeek(es, LookupKey(target, s), from) && from <= d <= |es| && NoneShown(es, s, from, d)
    ensures CountBelow(Map(es, s), target) == |Pairs(es, s, d)|
  {
    forall i | 0 <= i < |es| { LookupKeyIsBoundary(target, s, es[i].key); }
    SeekIsCount(es, s, target, d, |es|);
  }

  /** Entries of one user key before the one that is shown are not shown. */
  lemma SameKeyGap(es: seq<Entry>, s: Sequence, from: nat, c: nat)
    requires from <= c < |es| && Shown(es, s, c)
    requires forall i :: from <= i < c ==> es[i].key.user == es[c].key.user
    ensures NoneShown(es, s, from, c)
  {
  }

  class DbIter {
    const inner: MergingIterator
    const sequence: Sequence
    var savedKey: UserKey
    var savedValue: Bytes
    var forward: bool
    var valid: bool
    ghost var cur: nat  // the entry that is shown

    ghost predicate Ok()
      reads this, inner, inner.children
    {
      && inner.Ok()
      && Positioned(inner.merged, sequence, forward, valid, inner.place, savedKey, savedValue, cur)
    }

    /** The position in the visible map; the length of the map when invalid. */
    ghost function At(): nat
      reads this, inner, inner.children
      requires Ok()
    {
      |Pairs(inner.merged, sequence, cur)|
    }

    constructor (inner: MergingIterator, sequence: Sequence)
      requires inner.Ok()
      ensures Ok() && !valid && this.inner == inner && this.sequence == sequence
    {
      this.inner, this.sequence := inner, sequence;
      savedKey, savedValue, forward, valid := 0.0, [], true, false;
      cur := |inner.merged|;
    }

    function Key(): UserKey
      reads this, inner, inner.children
      requires Ok() && valid
      ensures At() < |Map(inner.merged, sequence)| && Key() == Map(inner.merged, sequence)[At()].0
    {
      PairAt(inner.merged, sequence, cur);
      if forward then inner.Key().user else savedKey
    }

    function Item(): Bytes
      reads this, inner, inner.children
      requires Ok() && valid
      ensures At() < |Map(inner.merged, sequence)| && Item() == Map(inner.merged, sequence)[At()].1
    {
      PairAt(inner.merged, sequence, cur);
      if forward then inner.Item() else savedValue
    }

    method FindNextUserEntry(skipping0: bool, skip0: UserKey)
      requires inner.Ok() && inner.Valid() && forward
      requires MayScan(inner.merged, sequence, inner.place, skipping0, skip0)
      modifies this, inner, inner.children
      ensures Ok() && forward && inner.place == cur && cur >= old(inner.place)
      ensures forall i ::
              old(inner.place) <= i < cur && Above(inner.merged, skipping0, skip0, i)
              ==> !Shown(inner.merged, sequence, i)
      ensures valid ==> Above(inner.merged, skipping0, skip0, cur)
    {
      hide MergingIterator.Ok;
      hide Scanned;
      hide MayScan;
      hide Shown;
      hide Above;
      ghost var from := inner.place;
      var skipping, skip := skipping0, skip0;
      ScanStarts(inner.merged, sequence, from, skipping0, skip0);
      while inner.Valid()
        invariant inner.Ok() && forward
        invariant Scanned(inner.merged, sequence, from, inner.place, skipping0, skip0, skipping, skip)
        decreases |inner.merged| - inner.place
      {
        var key := inner.Key();
        if key.sequence <= sequence {
          match key.kind
          case Deletion =>
            PassDeletion(inner.merged, sequence, from, inner.place, skipping0, skip0, skipping, skip);
            skip := key.user;
            skipping := true;
          case Value =>
            if skipping && key.user <= skip {
              PassHidden(inner.merged, sequence, from, inner.place, skipping0, skip0, skip);
            } else {
              FoundShown(inner.merged, sequence, from, inner.place, skipping0, skip0, skipping, skip);
              ScanPassed(inner.merged, sequence, from, inner.place, skipping0, skip0, skipping, skip);
              valid := true;
              savedKey := *;
              cur := inner.place;
              return;
            }
        } else {
          PassInvisible(inner.merged, sequence, from, inner.place, skipping0, skip0, skipping, skip);
        }
        inner.Next();
      }
      ScanPassed(inner.merged, sequence, from, inner.place, skipping0, skip0, skipping, skip);
      savedKey := *;
      valid := false;
      cur := inner.place;
    }

    method FindPrevUserEntry(ghost from: nat)
      requires inner.Ok() && !forward && from == if inner.Valid() then inner.place + 1 else 0
      modifies this, inner, inner.children
      ensures Ok() && (valid ==> !forward && cur < from)
      ensures NoneShown(inner.merged, sequence, if valid then cur + 1 else 0, from)
    {
      hide MergingIterator.Ok;
      var valueType := Deletion;
      ghost var bound := from;
      while inner.Valid()
        invariant inner.Ok() && !forward && bound == if inner.Valid() then inner.place + 1 else 0
        invariant BackScanned(inner.merged, sequence, bound, from, valueType.Value?, savedKey, savedValue, cur)
        decreases bound
      {
        var key := inner.Key();
        if key.sequence <= sequence {
          if valueType != Deletion && key.user < savedKey {
            break;
          }
          BackVisible(inner.merged, sequence, inner.place, from, valueType.Value?, savedKey, savedValue, cur);
          valueType := key.kind;
          if valueType == Deletion {
            savedKey, savedValue := *, [];
          } else {
            savedKey, savedValue := key.user, inner.Item();
          }
          cur := inner.place;
        } else {
          BackInvisible(inner.merged, sequence, inner.place, from, valueType.Value?, savedKey, savedValue, cur);
        }
        bound := inner.place;
        inner.Prev();
      }
      if valueType == Deletion {
        BackEnds(inner.merged, sequence, from, savedKey, savedValue, cur);
        savedKey, savedValue := *, [];
        valid, forward := false, true;
        cur := |inner.merged|;
      } else {
        BackStops(inner.merged, sequence, bound, from, savedKey, savedValue, cur);
        valid := true;
      }
    }

    method SeekToFirst()
      requires Ok()
      modifies this, inner, inner.children
      ensures Ok() && At() == 0
    {
      hide MergingIterator.Ok;
      forward := true;
      savedValue := [];
      inner.SeekToFirst();
      if inner.Valid() {
        FindNextUserEntry(false, savedKey);
      } else {
        valid := false;
        cur := |inner.merged|;
      }
      NoneShownNoPairs(inner.merged, sequence, 0, cur);
    }

    method SeekToLast()
      requires Ok()
      modifies this, inner, inner.children
      ensures Ok() && At() == if Map(inner.merged, sequence) == [] then 0 else |Map(inner.merged, sequence)| - 1
    {
      hide MergingIterator.Ok;
      forward := false;
      savedValue := [];
      inner.SeekToLast();
      FindPrevUserEntry(|inner.merged|);
      NoneShownNoPairs(inner.merged, sequence, if valid then cur + 1 else 0, |inner.merged|);
    }

    method Seek(target: UserKey)
      requires Ok()
      modifies this, inner, inner.children
      ensures Ok() && At() == CountBelow(Map(inner.merged, sequence), target)
    {
      hide MergingIterator.Ok;
      forward := true;
      savedValue := [];
      savedKey := target;
      inner.Seek(LookupKey(target, sequence));
      ghost var from := inner.place;
      SeekMayScan(inner.merged, sequence, target, from);
      if inner.Valid() {
        FindNextUserEntry(false, savedKey);
      } else {
        valid := false;
        cur := |inner.merged|;
      }
      SeekLands(inner.merged, sequence, target, from, cur);
    }

    method Next()
      requires Ok() && valid
      modifies this, inner, inner.children
      ensures Ok() && At() == old(At()) + 1
    {
      hide MergingIterator.Ok;
      ghost var c := cur;
      if !forward {
        forward := true;
        if !inner.Valid() {
          inner.SeekToFirst();
        } else {
          inner.Next();
        }
        // The current key lies ahead, so the check for having run off the end never succeeds.
        assert inner.Valid();
      } else {
        savedKey := inner.Key().user;
      }
      ghost var from := inner.place;
      KeyMayScan(inner.merged, sequence, from, c);
      FindNextUserEntry(true, savedKey);
      NextAbove(inner.merged, sequence, c, from, cur);
      NextShown(inner.merged, sequence, c, cur);
    }

    method Prev()
      requires Ok() && valid
      modifies this, inner, inner.children
      ensures Ok() && At() == if old(At()) == 0 then |Map(inner.merged, sequence)| else old(At()) - 1
    {
      hide MergingIterator.Ok;
      ghost var c := cur;
      if forward {
        savedKey := inner.Key().user;
        while true
          invariant inner.Ok() && inner.Valid() && inner.place <= c && forward && cur == c && valid
          invariant savedKey == inner.merged[c].key.user
          invariant forall i :: inner.place <= i < c ==> inner.merged[i].key.user == savedKey
          decreases inner.place
        {
          inner.Prev();
          if !inner.Valid() {
            valid := false;
            savedKey, savedValue := *, [];
            cur := |inner.merged|;
            SameKeyGap(inner.merged, sequence, 0, c);
            NoneShownNoPairs(inner.merged, sequence, 0, c);
            return;
          }
          if inner.Key().user < savedKey {
            break;
          }
          assert Before(inner.merged[inner.place].key, inner.merged[c].key);
        }
        forward := false;
        SameKeyGap(inner.merged, sequence, inner.place + 1, c);
      }
      ghost var from := if inner.Valid() then inner.place + 1 else 0;
      FindPrevUserEntry(from);
      if valid {
        NextShown(inner.merged, sequence, cur, c);
      } else {
        NoneShownNoPairs(inner.merged, sequence, 0, c);
      }
    }
  }

  // ---------- any sequence of calls ----------

  function Step(pairs: seq<Pair>, at: nat, m: Move<UserKey>): nat {
    if Allowed(|pairs|, at, m) then Moved(|pairs|, at, m, if m.Seek? then CountBelow(pairs, m.target) else 0) else at
  }

  function Peek(pairs: seq<Pair>, at: nat): Option<Pair> { if at < |pairs| then Some(pairs[at]) else None }

  /** What a caller of the simple cursor over the visible map sees after each call. */
  function Walk(pairs: seq<Pair>, at: nat, moves: seq<Move<UserKey>>): seq<Option<Pair>>
    decreases |moves|
  {
    if moves == [] then [] else
      var next := Step(pairs, at, moves[0]);
      [Peek(pairs, next)] + Walk(pairs, next, moves[1..])
  }

  /** The keys a call may land on; `before` is what the call before it showed. */
  predicate Admits(m: Move<UserKey>, before: Option<Pair>, key: UserKey) {
    match m
    case SeekToFirst => true
    case SeekToLast => true
    case Seek(target) => key >= target
    case Next => before.Some? && key > before.value.0
    case Prev => before.Some? && key < before.value.0
  }

  /** What a call shows, told by keys alone: the nearest pair it may land on, the first or last of all, or none if
      there is no such pair. */
  ghost predicate Shows(pairs: seq<Pair>, before: Option<Pair>, m: Move<UserKey>, now: Option<Pair>) {
    match now
    case None => forall p :: p in pairs ==> !Admits(m, before, p.0)
    case Some(q) =>
      && q in pairs && Admits(m, before, q.0)
      && forall p :: p in pairs && Admits(m, before, p.0) ==>
           if m.SeekToLast? || m.Prev? then p.0 <= q.0 else q.0 <= p.0
  }

  ghost predicate KeysRise(pairs: seq<Pair>) { forall i, j :: 0 <= i < j < |pairs| ==> pairs[i].0 < pairs[j].0 }

  lemma {:induction false} CountBelowSplits(pairs: seq<Pair>, target: UserKey)
    requires KeysRise(pairs)
    ensures CountBelow(pairs, target) <= |pairs|
    ensures forall i :: 0 <= i < |pairs| ==> (pairs[i].0 < target <==> i < CountBelow(pairs, target))
  {
    if pairs != [] { CountBelowSplits(pairs[..|pairs| - 1], target); }
  }

  lemma StepShows(pairs: seq<Pair>, at: nat, m: Move<UserKey>)
    requires KeysRise(pairs) && at <= |pairs|
    ensures Step(pairs, at, m) <= |pairs| && Shows(pairs, Peek(pairs, at), m, Peek(pairs, Step(pairs, at, m)))
  {
    var before, next := Peek(pairs, at), Step(pairs, at, m);
    if m.Seek? { CountBelowSplits(pairs, m.target); }
    forall p | p in pairs
      ensures Peek(pairs, next).None? ==> !Admits(m, before, p.0)
      ensures Peek(pairs, next).Some? && Admits(m, before, p.0) ==>
                if m.SeekToLast? || m.Prev? then p.0 <= pairs[next].0 else pairs[next].0 <= p.0
    {
      var i :| 0 <= i < |pairs| && pairs[i] == p;
    }
  }

  /** Each call shows what its keys say, after what the call before it showed. */
  ghost predicate AllShow(pairs: seq<Pair>, first: Option<Pair>, moves: seq<Move<UserKey>>, seen: seq<Option<Pair>>) {
    && |seen| == |moves|
    && forall i {:trigger seen[i]} :: 0 <= i < |moves| ==>
         Shows(pairs, if i == 0 then first else seen[i - 1], moves[i], seen[i])
  }

  lemma WalkAllShows(pairs: seq<Pair>, at: nat, moves: seq<Move<UserKey>>)
    requires KeysRise(pairs) && at <= |pairs|
    ensures AllShow(pairs, Peek(pairs, at), moves, Walk(pairs, at, moves))
  {
    hide Peek;
    hide Shows;
    var seen := Walk(pairs, at, moves);
    if moves != [] { WalkShows(pairs, at, moves, 0); }
    hide Walk;
    forall i {:trigger seen[i]} | 0 <= i < |moves|
      ensures Shows(pairs, if i == 0 then Peek(pairs, at) else seen[i - 1], moves[i], seen[i])
    {
      WalkShows(pairs, at, moves, i);
    }
  }

  /** Each call of a walk shows what its keys say, whatever the calls before it. */
  lemma {:induction false} WalkShows(pairs: seq<Pair>, at: nat, moves: seq<Move<UserKey>>, i: nat)
    requires KeysRise(pairs) && at <= |pairs| && i < |moves|
    ensures |Walk(pairs, at, moves)| == |moves|
    ensures var seen := Walk(pairs, at, moves);
            Shows(pairs, if i == 0 then Peek(pairs, at) else seen[i - 1], moves[i], seen[i])
    decreases |moves|
  {
    hide Step;
    hide Peek;
    hide Shows;
    var next := Step(pairs, at, moves[0]);
    StepShows(pairs, at, moves[0]);
    if |moves| > 1 { WalkShows(pairs, next, moves[1..], if i == 0 then 0 else i - 1); }
  }

  method MakeMove(it: DbIter, m: Move<UserKey>) returns (seen: Option<Pair>)
    requires it.Ok()
    modifies it, it.inner, it.inner.children
    ensures it.Ok() && it.At() == Step(Map(it.inner.merged, it.sequence), old(it.At()), m)
    ensures seen == Peek(Map(it.inner.merged, it.sequence), it.At())
  {
    hide CountBelow;
    hide MergingIterator.Key;
    hide MergingIterator.Ok;
    if it.valid { PairAt(it.inner.merged, it.sequence, it.cur); }
    match m {
      case SeekToFirst => it.SeekToFirst();
      case SeekToLast => it.SeekToLast();
      case Seek(target) => it.Seek(target);
      case Next => if it.valid { it.Next(); }
      case Prev => if it.valid { it.Prev(); }
    }
    seen := if it.valid then Some((it.Key(), it.Item())) else None;
  }

  lemma WalkNext(pairs: seq<Pair>, at: nat, moves: seq<Move<UserKey>>, i: nat)
    requires i < |moves|
    ensures var next := Step(pairs, at, moves[i]);
            Walk(pairs, at, moves[i..]) == [Peek(pairs, next)] + Walk(pairs, next, moves[i + 1..])
  {
    hide Step;
    hide Peek;
    assert moves[i..][1..] == moves[i + 1..];
  }

  lemma WalkEnds(pairs: seq<Pair>, at: nat, moves: seq<Move<UserKey>>)
    ensures Walk(pairs, at, moves[|moves|..]) == [] && moves[0..] == moves
  {
  }

  /** Any sequence of calls, with any changes of direction, sees what the simple cursor sees. */
  method Drive(it: DbIter, moves: seq<Move<UserKey>>) returns (seen: seq<Option<Pair>>)
    requires it.Ok()
    modifies it, it.inner, it.inner.children
    ensures it.Ok() && seen == Walk(Map(it.inner.merged, it.sequence), old(it.At()), moves)
  {
    hide Walk;
    hide Map;
    hide Step;
    hide Peek;
    seen := [];
    ghost var pairs, start := Map(it.inner.merged, it.sequence), it.At();
    WalkEnds(pairs, start, moves);
    for i := 0 to |moves|
      invariant it.Ok()
      invariant seen + Walk(pairs, it.At(), moves[i..]) == Walk(pairs, start, moves)
    {
      ghost var before := it.At();
      var one := MakeMove(it, moves[i]);
      seen := seen + [one];
      WalkNext(pairs, before, moves, i);
    }
    WalkEnds(pairs, it.At(), moves);
  }
}
