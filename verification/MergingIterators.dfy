/** MergingIterator: one cursor over the sorted union of its children (merger.cc). */
module MergingIterators {
  import opened Options
  import opened InternalKeys
  import opened Cursors

  // ---------- the sorted union, and where each child stands in it ----------

  /** Keys are distinct across children. */
  ghost predicate DistinctKeys(lists: seq<seq<Entry>>) {
    forall i, j, a, b :: 0 <= i < j < |lists| && a in lists[i] && b in lists[j] ==> a.key != b.key
  }

  ghost predicate AllSorted(lists: seq<seq<Entry>>) {
    forall i :: 0 <= i < |lists| ==> Sorted(lists[i])
  }

  ghost predicate Holds(lists: seq<seq<Entry>>, e: Entry) { exists i :: 0 <= i < |lists| && e in lists[i] }

  ghost predicate IsUnion(merged: seq<Entry>, lists: seq<seq<Entry>>) {
    Sorted(merged) && forall e :: e in merged <==> Holds(lists, e)
  }

  /** How many entries of a sorted list precede `key`. */
  ghost function CountBefore(list: seq<Entry>, key: InternalKey): (at: nat)
    requires Sorted(list)
    ensures IsSeek(list, key, at)
  {
    SomeSeek(list, key);
    var at: nat :| IsSeek(list, key, at);
    at
  }

  lemma SomeSeek(list: seq<Entry>, key: InternalKey)
    requires Sorted(list)
    ensures exists at: nat :: IsSeek(list, key, at)
  {
    var at := SeekExists(list, key);
  }

  /** The part of one child that belongs to the first `q` entries of the union. */
  ghost function Cut(list: seq<Entry>, merged: seq<Entry>, q: nat): (at: nat)
    requires Sorted(list) && q <= |merged|
    ensures at <= |list|
  {
    if q < |merged| then CountBefore(list, merged[q].key) else |list|
  }

  lemma InsertOne(es: seq<Entry>, e: Entry) returns (r: seq<Entry>)
    requires Sorted(es) && forall x :: x in es ==> x.key != e.key
    ensures Sorted(r) && forall x :: x in r <==> x in es || x == e
  {
    var at := SeekExists(es, e.key);
    r := es[..at] + [e] + es[at..];
    forall i | at <= i < |es| ensures Before(e.key, es[i].key) { assert es[i] in es; }
  }

  lemma {:induction false} InsertAll(es: seq<Entry>, more: seq<Entry>) returns (r: seq<Entry>)
    requires Sorted(es) && Sorted(more) && forall x, y :: x in es && y in more ==> x.key != y.key
    ensures Sorted(r) && forall x :: x in r <==> x in es || x in more
  {
    if more == [] {
      r := es;
    } else {
      var init, last := more[..|more| - 1], more[|more| - 1];
      assert more == init + [last];
      r := InsertAll(es, init);
      forall x | x in init ensures x.key != last.key {
        var i :| 0 <= i < |init| && init[i] == x;
        SortedOrder(more, i, |more| - 1);
      }
      r := InsertOne(r, last);
    }
  }

  /** Children with distinct keys always have a sorted union. */
  lemma {:induction false} UnionExists(lists: seq<seq<Entry>>) returns (merged: seq<Entry>)
    requires AllSorted(lists) && DistinctKeys(lists)
    ensures Legal(lists, merged)
  {
    if lists == [] {
      merged := [];
    } else {
      var n := |lists| - 1;
      var init := lists[..n];
      merged := UnionExists(init);
      forall x, y | x in merged && y in lists[n] ensures x.key != y.key {
        assert Holds(init, x);
        var i :| 0 <= i < n && x in init[i];
        assert x in lists[i];
      }
      merged := InsertAll(merged, lists[n]);
      forall e ensures Holds(lists, e) <==> Holds(init, e) || e in lists[n] {
        if Holds(init, e) { var i :| 0 <= i < n && e in init[i]; assert e in lists[i]; }
        if Holds(lists, e) { var i :| 0 <= i <= n && e in lists[i]; if i < n { assert e in init[i]; } }
      }
    }
  }

  function Back(n: nat, at: nat): nat { if at == 0 then n else at - 1 }

  ghost predicate Legal(lists: seq<seq<Entry>>, merged: seq<Entry>) {
    AllSorted(lists) && DistinctKeys(lists) && IsUnion(merged, lists)
  }

  /** Every entry of a child has its place in the union. */
  lemma PlaceOf(lists: seq<seq<Entry>>, merged: seq<Entry>, i: nat, j: nat) returns (r: nat)
    requires Legal(lists, merged) && i < |lists| && j < |lists[i]|
    ensures r < |merged| && merged[r] == lists[i][j]
  {
    assert lists[i][j] in lists[i];
    assert Holds(lists, lists[i][j]);
    assert lists[i][j] in merged;
    r :| 0 <= r < |merged| && merged[r] == lists[i][j];
  }

  /** Exactly the entries before the cut have a place below `q`. */
  lemma CutIsPlace(lists: seq<seq<Entry>>, merged: seq<Entry>, q: nat, i: nat, j: nat, r: nat)
    requires Legal(lists, merged) && q <= |merged| && i < |lists| && j < |lists[i]|
    requires r < |merged| && merged[r] == lists[i][j]
    ensures j < Cut(lists[i], merged, q) <==> r < q
  {
    if q < |merged| { SortedOrder(merged, r, q); }
  }

  /** The child that owns place `q` is cut right at it. */
  lemma CutOfOwner(lists: seq<seq<Entry>>, merged: seq<Entry>, q: nat, c: nat, j: nat)
    requires Legal(lists, merged) && q < |merged| && c < |lists| && j < |lists[c]| && lists[c][j] == merged[q]
    ensures Cut(lists[c], merged, q) == j && Cut(lists[c], merged, q + 1) == j + 1
  {
    CutIsPlace(lists, merged, q, c, j, q);
    CutIsPlace(lists, merged, q + 1, c, j, q);
    if j > 0 {
      var r := PlaceOf(lists, merged, c, j - 1);
      SortedOrder(lists[c], j - 1, j);
      SortedOrder(merged, r, q);
      CutIsPlace(lists, merged, q, c, j - 1, r);
    }
    if j + 1 < |lists[c]| {
      var r := PlaceOf(lists, merged, c, j + 1);
      SortedOrder(lists[c], j, j + 1);
      SortedOrder(merged, q, r);
      CutIsPlace(lists, merged, q + 1, c, j + 1, r);
    }
  }

  /** The cuts of the other children do not move at place `q`. */
  lemma CutOfOther(lists: seq<seq<Entry>>, merged: seq<Entry>, q: nat, c: nat, j: nat, i: nat)
    requires Legal(lists, merged) && q < |merged| && c < |lists| && j < |lists[c]| && lists[c][j] == merged[q]
    requires i < |lists| && i != c
    ensures Cut(lists[i], merged, q + 1) == Cut(lists[i], merged, q)
  {
    var a, b := Cut(lists[i], merged, q), Cut(lists[i], merged, q + 1);
    var k := if a < b then a else b;
    if k < |lists[i]| {
      var r := PlaceOf(lists, merged, i, k);
      CutIsPlace(lists, merged, q, i, k, r);
      CutIsPlace(lists, merged, q + 1, i, k, r);
      assert lists[i][k] in lists[i] && lists[c][j] in lists[c];
    }
  }

  // ---------- the two frontiers ----------

  /** Forward: every child stands at its first entry at or after place `q`. */
  ghost predicate AtFront(lists: seq<seq<Entry>>, merged: seq<Entry>, pos: seq<nat>, q: nat)
    requires AllSorted(lists) && q <= |merged|
  {
    |pos| == |lists| && forall i :: 0 <= i < |lists| ==> pos[i] == Cut(lists[i], merged, q)
  }

  /** Reverse: every child stands at its last entry before place `q`. */
  ghost predicate AtBack(lists: seq<seq<Entry>>, merged: seq<Entry>, pos: seq<nat>, q: nat)
    requires AllSorted(lists) && q <= |merged|
  {
    |pos| == |lists| && forall i :: 0 <= i < |lists| ==> pos[i] == Back(|lists[i]|, Cut(lists[i], merged, q))
  }

  /** Child `c` holds a smallest key among the valid children; none is valid when there is no such child. */
  ghost predicate IsSmallest(lists: seq<seq<Entry>>, pos: seq<nat>, n: nat, c: Option<nat>)
    requires |pos| == |lists| && n <= |lists|
  {
    match c
    case None => forall i :: 0 <= i < n ==> pos[i] >= |lists[i]|
    case Some(c) => c < n && pos[c] < |lists[c]| && forall i :: 0 <= i < n && pos[i] < |lists[i]| ==>
                      AtOrAfter(lists[i][pos[i]].key, lists[c][pos[c]].key)
  }

  ghost predicate IsLargest(lists: seq<seq<Entry>>, pos: seq<nat>, from: nat, c: Option<nat>)
    requires |pos| == |lists|
  {
    match c
    case None => forall i :: from <= i < |lists| ==> pos[i] >= |lists[i]|
    case Some(c) =>
      && from <= c < |lists| && pos[c] < |lists[c]|
      && forall i :: from <= i < |lists| && pos[i] < |lists[i]| ==>
           AtOrAfter(lists[c][pos[c]].key, lists[i][pos[i]].key)
  }

  /** The smallest child of the forward frontier holds the entry at place `q`. */
  lemma SmallestIsNext(lists: seq<seq<Entry>>, merged: seq<Entry>, pos: seq<nat>, q: nat, c: Option<nat>)
    requires Legal(lists, merged) && q <= |merged| && AtFront(lists, merged, pos, q)
             && IsSmallest(lists, pos, |lists|, c)
    ensures c.Some? <==> q < |merged|
    ensures c.Some? ==> lists[c.value][pos[c.value]] == merged[q]
  {
    if q < |merged| {
      var o := OwnerOf(lists, merged, q);
      var j :| 0 <= j < |lists[o]| && lists[o][j] == merged[q];
      CutOfOwner(lists, merged, q, o, j);
      assert pos[o] == j;
      var r := PlaceOf(lists, merged, c.value, pos[c.value]);
      CutIsPlace(lists, merged, q, c.value, pos[c.value], r);
      SortedOrder(merged, q, r);
    }
  }

  lemma OwnerOf(lists: seq<seq<Entry>>, merged: seq<Entry>, q: nat) returns (o: nat)
    requires IsUnion(merged, lists) && q < |merged|
    ensures o < |lists| && merged[q] in lists[o]
  {
    assert merged[q] in merged;
    assert Holds(lists, merged[q]);
    o :| 0 <= o < |lists| && merged[q] in lists[o];
  }

  lemma NothingBeforeFirst(lists: seq<seq<Entry>>, merged: seq<Entry>, i: nat)
    requires Legal(lists, merged) && i < |lists|
    ensures Cut(lists[i], merged, 0) == 0
  {
    if lists[i] != [] {
      var r := PlaceOf(lists, merged, i, 0);
      CutIsPlace(lists, merged, 0, i, 0, r);
    }
  }

  lemma NothingPrevious(lists: seq<seq<Entry>>, merged: seq<Entry>, pos: seq<nat>)
    requires Legal(lists, merged) && AtBack(lists, merged, pos, 0)
    ensures forall i :: 0 <= i < |lists| ==> pos[i] >= |lists[i]|
  {
    forall i | 0 <= i < |lists| ensures pos[i] >= |lists[i]| { NothingBeforeFirst(lists, merged, i); }
  }

  lemma SomethingPrevious(lists: seq<seq<Entry>>, merged: seq<Entry>, pos: seq<nat>, q: nat, c: nat, o: nat, j: nat)
    requires Legal(lists, merged) && 0 < q <= |merged| && AtBack(lists, merged, pos, q)
    requires c < |lists| && pos[c] < |lists[c]| && o < |lists| && j < |lists[o]| && lists[o][j] == merged[q - 1]
    requires pos[o] == j && AtOrAfter(lists[c][pos[c]].key, lists[o][j].key)
    ensures lists[c][pos[c]] == merged[q - 1]
  {
    var r := PlaceOf(lists, merged, c, pos[c]);
    CutIsPlace(lists, merged, q, c, pos[c], r);
    SortedOrder(merged, r, q - 1);
  }

  /** The largest child of the reverse frontier holds the entry just before place `q`. */
  lemma LargestIsPrevious(lists: seq<seq<Entry>>, merged: seq<Entry>, pos: seq<nat>, q: nat, c: Option<nat>)
    requires Legal(lists, merged) && q <= |merged| && AtBack(lists, merged, pos, q) && IsLargest(lists, pos, 0, c)
    ensures c.Some? <==> q > 0
    ensures c.Some? ==> lists[c.value][pos[c.value]] == merged[q - 1]
  {
    if q > 0 {
      var o := OwnerOf(lists, merged, q - 1);
      var j :| 0 <= j < |lists[o]| && lists[o][j] == merged[q - 1];
      CutOfOwner(lists, merged, q - 1, o, j);
      assert pos[o] == j;
      SomethingPrevious(lists, merged, pos, q, c.value, o, j);
    } else {
      NothingPrevious(lists, merged, pos);
    }
  }

  /** Moving the owner of place `q` forward moves the whole frontier forward. */
  lemma FrontAdvances(lists: seq<seq<Entry>>, merged: seq<Entry>, pos: seq<nat>, pos': seq<nat>, q: nat, c: nat)
    requires Legal(lists, merged) && q < |merged| && AtFront(lists, merged, pos, q)
    requires c < |lists| && pos[c] < |lists[c]| && lists[c][pos[c]] == merged[q]
    requires pos' == pos[c := pos[c] + 1]
    ensures AtFront(lists, merged, pos', q + 1)
  {
    forall i | 0 <= i < |lists| ensures pos'[i] == Cut(lists[i], merged, q + 1) {
      if i == c {
        CutOfOwner(lists, merged, q, c, pos[c]);
      } else {
        CutOfOther(lists, merged, q, c, pos[c], i);
      }
    }
  }

  /** Moving the owner of place `q` back moves the whole frontier back. */
  lemma BackRetreats(lists: seq<seq<Entry>>, merged: seq<Entry>, pos: seq<nat>, pos': seq<nat>, q: nat, c: nat)
    requires Legal(lists, merged) && q < |merged| && AtBack(lists, merged, pos, q + 1)
    requires c < |lists| && pos[c] < |lists[c]| && lists[c][pos[c]] == merged[q]
    requires pos' == pos[c := Back(|lists[c]|, pos[c])]
    ensures AtBack(lists, merged, pos', q)
  {
    forall i | 0 <= i < |lists| ensures pos'[i] == Back(|lists[i]|, Cut(lists[i], merged, q)) {
      if i == c {
        CutOfOwner(lists, merged, q, c, pos[c]);
      } else {
        CutOfOther(lists, merged, q, c, pos[c], i);
      }
    }
  }

  // ---------- the iterator ----------

  /** Seek a child past `key`. */
  method PositionAfter(child: Cursor, key: InternalKey)
    requires child.Ok()
    modifies child
    ensures child.Ok()
    ensures var s := CountBefore(child.entries, key);
            child.at == if s < |child.entries| && child.entries[s].key == key then s + 1 else s
  {
    child.Seek(key);
    SeekIsUnique(child.entries, key, child.at, CountBefore(child.entries, key));
    if child.Valid() && child.Key() == key {
      child.Next();
    }
  }

  /** Put a child on its last entry before `key`. */
  method PositionBefore(child: Cursor, key: InternalKey)
    requires child.Ok()
    modifies child
    ensures child.Ok() && child.at == Back(|child.entries|, CountBefore(child.entries, key))
  {
    child.Seek(key);
    SeekIsUnique(child.entries, key, child.at, CountBefore(child.entries, key));
    if child.Valid() {
      child.Prev();
    } else {
      child.SeekToLast();
    }
  }

  ghost function ListsOf(children: seq<Cursor>): seq<seq<Entry>> {
    seq(|children|, i requires 0 <= i < |children| => children[i].entries)
  }

  ghost function PosOf(children: seq<Cursor>): seq<nat>
    reads children
  {
    seq(|children|, i requires 0 <= i < |children| reads children => children[i].at)
  }

  ghost predicate ChildrenOk(children: seq<Cursor>)
    reads children
  {
    && (forall i, j :: 0 <= i < j < |children| ==> children[i] != children[j])
    && (forall i :: 0 <= i < |children| ==> children[i].Ok())
  }

  /** The first smallest child. */
  method SmallestChild(children: seq<Cursor>) returns (smallest: Option<nat>)
    requires forall i :: 0 <= i < |children| ==> children[i].Ok()
    ensures IsSmallest(ListsOf(children), PosOf(children), |children|, smallest)
  {
    smallest := None;
    for i := 0 to |children|
      invariant IsSmallest(ListsOf(children), PosOf(children), i, smallest)
    {
      if children[i].Valid() {
        if smallest.None? {
          smallest := Some(i);
        } else if Before(children[i].Key(), children[smallest.value].Key()) {
          smallest := Some(i);
        }
      }
    }
  }

  /** The last largest child. */
  method LargestChild(children: seq<Cursor>) returns (largest: Option<nat>)
    requires forall i :: 0 <= i < |children| ==> children[i].Ok()
    ensures IsLargest(ListsOf(children), PosOf(children), 0, largest)
  {
    largest := None;
    for i := |children| downto 0
      invariant IsLargest(ListsOf(children), PosOf(children), i, largest)
    {
      if children[i].Valid() {
        if largest.None? {
          largest := Some(i);
        } else if Before(children[largest.value].Key(), children[i].Key()) {
          largest := Some(i);
        }
      }
    }
  }

  /** Where a seek takes the frontier. */
  lemma SeekIsFront(lists: seq<seq<Entry>>, merged: seq<Entry>, pos: seq<nat>, target: InternalKey)
    requires Legal(lists, merged) && |pos| == |lists|
    requires forall i :: 0 <= i < |lists| ==> IsSeek(lists[i], target, pos[i])
    ensures AtFront(lists, merged, pos, CountBefore(merged, target))
  {
    var q := CountBefore(merged, target);
    forall i | 0 <= i < |lists| ensures pos[i] == Cut(lists[i], merged, q) {
      var a, b := pos[i], Cut(lists[i], merged, q);
      var k := if a < b then a else b;
      if k < |lists[i]| {
        var r := PlaceOf(lists, merged, i, k);
        CutIsPlace(lists, merged, q, i, k, r);
      }
    }
  }

  lemma FirstIsFront(lists: seq<seq<Entry>>, merged: seq<Entry>, pos: seq<nat>)
    requires Legal(lists, merged) && |pos| == |lists| && forall i :: 0 <= i < |lists| ==> pos[i] == 0
    ensures AtFront(lists, merged, pos, 0)
  {
    forall i | 0 <= i < |lists| { NothingBeforeFirst(lists, merged, i); }
  }

  method AllToFirst(children: seq<Cursor>)
    requires ChildrenOk(children)
    modifies children
    ensures ChildrenOk(children) && forall i :: 0 <= i < |children| ==> PosOf(children)[i] == 0
  {
    for i := 0 to |children|
      invariant ChildrenOk(children) && forall k :: 0 <= k < i ==> children[k].at == 0
    {
      children[i].SeekToFirst();
    }
  }

  method AllToLast(children: seq<Cursor>)
    requires ChildrenOk(children)
    modifies children
    ensures ChildrenOk(children)
    ensures forall i :: 0 <= i < |children| ==> PosOf(children)[i] == Back(|children[i].entries|, |children[i].entries|)
  {
    for i := 0 to |children|
      invariant ChildrenOk(children)
      invariant forall k :: 0 <= k < i ==> children[k].at == Back(|children[k].entries|, |children[k].entries|)
    {
      children[i].SeekToLast();
    }
  }

  method AllSeek(children: seq<Cursor>, target: InternalKey)
    requires ChildrenOk(children)
    modifies children
    ensures ChildrenOk(children)
    ensures forall i :: 0 <= i < |children| ==> IsSeek(children[i].entries, target, PosOf(children)[i])
  {
    for i := 0 to |children|
      invariant ChildrenOk(children) && forall k :: 0 <= k < i ==> IsSeek(children[k].entries, target, children[k].at)
    {
      children[i].Seek(target);
    }
  }

  /** All children but the current one go past `key`. */
  method OthersAfter(children: seq<Cursor>, c: nat, key: InternalKey)
    requires ChildrenOk(children) && c < |children|
    modifies children
    ensures ChildrenOk(children) && children[c].at == old(children[c].at)
    ensures forall i :: 0 <= i < |children| && i != c ==>
              var s := CountBefore(children[i].entries, key);
              PosOf(children)[i] == if s < |children[i].entries| && children[i].entries[s].key == key then s + 1 else s
  {
    for i := 0 to |children|
      invariant ChildrenOk(children) && children[c].at == old(children[c].at)
      invariant forall k :: 0 <= k < i && k != c ==>
                  var s := CountBefore(children[k].entries, key);
                  children[k].at == if s < |children[k].entries| && children[k].entries[s].key == key then s + 1 else s
    {
      if i != c {
        PositionAfter(children[i], key);
      }
    }
  }

  method OthersBefore(children: seq<Cursor>, c: nat, key: InternalKey)
    requires ChildrenOk(children) && c < |children|
    modifies children
    ensures ChildrenOk(children) && children[c].at == old(children[c].at)
    ensures forall i :: 0 <= i < |children| && i != c ==>
              PosOf(children)[i] == Back(|children[i].entries|, CountBefore(children[i].entries, key))
  {
    for i := 0 to |children|
      invariant ChildrenOk(children) && children[c].at == old(children[c].at)
      invariant forall k :: 0 <= k < i && k != c ==>
                  children[k].at == Back(|children[k].entries|, CountBefore(children[k].entries, key))
    {
      if i != c {
        PositionBefore(children[i], key);
      }
    }
  }

  /** With distinct keys, seeking the others past the current key puts the frontier at its place. */
  lemma SwitchedToFront(lists: seq<seq<Entry>>, merged: seq<Entry>, pos: seq<nat>, place: nat, c: nat)
    requires Legal(lists, merged) && place < |merged| && |pos| == |lists| && c < |lists|
    requires pos[c] < |lists[c]| && lists[c][pos[c]] == merged[place]
    requires forall i :: 0 <= i < |lists| && i != c ==>
                var s := CountBefore(lists[i], merged[place].key);
                pos[i] == if s < |lists[i]| && lists[i][s].key == merged[place].key then s + 1 else s
    ensures AtFront(lists, merged, pos, place)
  {
    CutOfOwner(lists, merged, place, c, pos[c]);
    forall i | 0 <= i < |lists| && i != c ensures pos[i] == Cut(lists[i], merged, place) {
      var s := CountBefore(lists[i], merged[place].key);
      if s < |lists[i]| { assert lists[i][s] in lists[i] && lists[c][pos[c]] in lists[c]; }
    }
  }

  /** Stepping the current child back, with the others before the current key, is the reverse frontier. */
  lemma SwitchedToBack(lists: seq<seq<Entry>>, merged: seq<Entry>, pos: seq<nat>, place: nat, c: nat)
    requires Legal(lists, merged) && place < |merged| && |pos| == |lists| && c < |lists|
    requires pos[c] < |lists[c]| && lists[c][pos[c]] == merged[place]
    requires forall i ::
              0 <= i < |lists| && i != c ==> pos[i] == Back(|lists[i]|, CountBefore(lists[i], merged[place].key))
    ensures AtBack(lists, merged, pos, place + 1)
  {
    CutOfOwner(lists, merged, place, c, pos[c]);
    forall i | 0 <= i < |lists| && i != c ensures pos[i] == Back(|lists[i]|, Cut(lists[i], merged, place + 1)) {
      CutOfOther(lists, merged, place, c, pos[c], i);
    }
  }

  method TurnForward(children: seq<Cursor>, c: nat, ghost merged: seq<Entry>, ghost place: nat)
    requires ChildrenOk(children) && Legal(ListsOf(children), merged) && place < |merged|
    requires c < |children| && children[c].Valid() && children[c].entries[children[c].at] == merged[place]
    modifies children
    ensures ChildrenOk(children) && children[c].at == old(children[c].at)
    ensures AtFront(ListsOf(children), merged, PosOf(children), place)
  {
    OthersAfter(children, c, children[c].Key());
    SwitchedToFront(ListsOf(children), merged, PosOf(children), place, c);
  }

  method TurnBack(children: seq<Cursor>, c: nat, ghost merged: seq<Entry>, ghost place: nat)
    requires ChildrenOk(children) && Legal(ListsOf(children), merged) && place < |merged|
    requires c < |children| && children[c].Valid() && children[c].entries[children[c].at] == merged[place]
    modifies children
    ensures ChildrenOk(children) && children[c].at == old(children[c].at)
    ensures AtBack(ListsOf(children), merged, PosOf(children), place + 1)
  {
    OthersBefore(children, c, children[c].Key());
    SwitchedToBack(ListsOf(children), merged, PosOf(children), place, c);
  }

  method AdvanceChild(children: seq<Cursor>, c: nat, ghost merged: seq<Entry>, ghost place: nat)
    requires ChildrenOk(children) && Legal(ListsOf(children), merged) && place < |merged|
    requires c < |children| && children[c].Valid() && children[c].entries[children[c].at] == merged[place]
    requires AtFront(ListsOf(children), merged, PosOf(children), place)
    modifies children
    ensures ChildrenOk(children) && AtFront(ListsOf(children), merged, PosOf(children), place + 1)
  {
    ghost var pos := PosOf(children);
    children[c].Next();
    assert PosOf(children) == pos[c := pos[c] + 1];
    FrontAdvances(ListsOf(children), merged, pos, PosOf(children), place, c);
  }

  method RetreatChild(children: seq<Cursor>, c: nat, ghost merged: seq<Entry>, ghost place: nat)
    requires ChildrenOk(children) && Legal(ListsOf(children), merged) && place < |merged|
    requires c < |children| && children[c].Valid() && children[c].entries[children[c].at] == merged[place]
    requires AtBack(ListsOf(children), merged, PosOf(children), place + 1)
    modifies children
    ensures ChildrenOk(children) && AtBack(ListsOf(children), merged, PosOf(children), place)
  {
    ghost var pos := PosOf(children);
    children[c].Prev();
    assert PosOf(children) == pos[c := Back(|ListsOf(children)[c]|, pos[c])];
    BackRetreats(ListsOf(children), merged, pos, PosOf(children), place, c);
  }

  ghost predicate Standing(lists: seq<seq<Entry>>, merged: seq<Entry>, pos: seq<nat>, forward: bool,
                           current: Option<nat>, place: nat)
    requires Legal(lists, merged) && |pos| == |lists|
  {
    match current
    case None => place == |merged|
    case Some(c) =>
      && place < |merged| && c < |lists| && pos[c] < |lists[c]| && lists[c][pos[c]] == merged[place]
      && if forward then AtFront(lists, merged, pos, place) else AtBack(lists, merged, pos, place + 1)
  }

  class MergingIterator {
    const children: seq<Cursor>
    ghost const merged: seq<Entry>
    var current: Option<nat>
    var forward: bool
    ghost var place: nat  // position in the union

    ghost predicate Ok()
      reads this, children
      ensures Ok() ==> Sorted(merged) && place <= |merged| && (Valid() <==> place < |merged|)
    {
      && ChildrenOk(children) && Legal(ListsOf(children), merged)
      && Standing(ListsOf(children), merged, PosOf(children), forward, current, place)
    }

    constructor (children: seq<Cursor>, ghost merged: seq<Entry>)
      requires ChildrenOk(children) && Legal(ListsOf(children), merged)
      ensures Ok() && current.None? && this.children == children && this.merged == merged
    {
      this.children, this.merged := children, merged;
      current, forward, place := None, true, |merged|;
    }

    predicate Valid()
      reads this
    {
      current.Some?
    }

    function Key(): InternalKey
      reads this, children
      requires Ok() && Valid()
      ensures place < |merged| && Key() == merged[place].key
    {
      children[current.value].Key()
    }

    function Item(): Bytes
      reads this, children
      requires Ok() && Valid()
      ensures place < |merged| && Item() == merged[place].value
    {
      children[current.value].Item()
    }

    method FindSmallest(ghost q: nat)
      requires ChildrenOk(children) && Legal(ListsOf(children), merged) && q <= |merged|
      requires AtFront(ListsOf(children), merged, PosOf(children), q)
      modifies this
      ensures place == q && Standing(ListsOf(children), merged, PosOf(children), true, current, place)
      ensures forward == old(forward)
    {
      var smallest := SmallestChild(children);
      SmallestIsNext(ListsOf(children), merged, PosOf(children), q, smallest);
      current, place := smallest, q;
    }

    method FindLargest(ghost q: nat)
      requires ChildrenOk(children) && Legal(ListsOf(children), merged) && q <= |merged|
      requires AtBack(ListsOf(children), merged, PosOf(children), q)
      modifies this
      ensures place == Back(|merged|, q) && Standing(ListsOf(children), merged, PosOf(children), false, current, place)
      ensures forward == old(forward)
    {
      var largest := LargestChild(children);
      LargestIsPrevious(ListsOf(children), merged, PosOf(children), q, largest);
      current, place := largest, Back(|merged|, q);
    }

    method SeekToFirst()
      requires Ok()
      modifies this, children
      ensures Ok() && place == 0
    {
      AllToFirst(children);
      FirstIsFront(ListsOf(children), merged, PosOf(children));
      FindSmallest(0);
      forward := true;
    }

    method SeekToLast()
      requires Ok()
      modifies this, children
      ensures Ok() && place == if merged == [] then 0 else |merged| - 1
    {
      AllToLast(children);
      FindLargest(|merged|);
      forward := false;
    }

    method Seek(target: InternalKey)
      requires Ok()
      modifies this, children
      ensures Ok() && IsSeek(merged, target, place)
    {
      hide IsUnion;
      hide DistinctKeys;
      hide AllSorted;
      hide AtFront;
      hide CountBefore;
      AllSeek(children, target);
      SeekIsFront(ListsOf(children), merged, PosOf(children), target);
      FindSmallest(CountBefore(merged, target));
      forward := true;
    }

    // The other children are in place already unless the direction changes.
    method FaceForward()
      requires Ok() && Valid()
      modifies this, children
      ensures Ok() && forward && current == old(current) && place == old(place)
    {
      hide IsUnion;
      hide DistinctKeys;
      hide IsSeek;
      if !forward {
        TurnForward(children, current.value, merged, place);
        forward := true;
      }
    }

    method FaceBack()
      requires Ok() && Valid()
      modifies this, children
      ensures Ok() && !forward && current == old(current) && place == old(place)
    {
      hide AtFront;
      hide Back;
      hide CountBefore;
      hide IsUnion;
      hide DistinctKeys;
      hide IsSeek;
      ghost var p := place;
      if forward {
        TurnBack(children, current.value, merged, p);
        forward := false;
      }
    }

    method Next()
      requires Ok() && Valid()
      modifies this, children
      ensures Ok() && place == old(place) + 1
    {
      hide IsUnion;
      hide DistinctKeys;
      hide IsSeek;
      FaceForward();
      ghost var q := place;
      AdvanceChild(children, current.value, merged, q);
      FindSmallest(q + 1);
    }

    method Prev()
      requires Ok() && Valid()
      modifies this, children
      ensures Ok() && place == if old(place) == 0 then |merged| else old(place) - 1
    {
      hide IsUnion;
      hide DistinctKeys;
      hide IsSeek;
      FaceBack();
      RetreatChild(children, current.value, merged, place);
      FindLargest(place);
    }
  }
}
