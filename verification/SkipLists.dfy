/** SkipList with one thread: searches and Insert (db/skiplist.h), and the memtable on top of it. */
module SkipLists {
  import opened Options
  import opened InternalKeys
  import opened SkipListNodes
  import opened Cursors

  class SkipList {
    var nodes: seq<Node>
    var maxHeight: nat
    ghost var levels: seq<Level>

    ghost predicate Valid()
      reads this
    {
      && WellLinked(nodes, levels) && 1 <= maxHeight <= MAX_HEIGHT
      && forall l :: maxHeight <= l < MAX_HEIGHT ==> levels[l] == []
    }

    /** The entries of the list, in order. */
    ghost function Contents(): (es: seq<Entry>)
      reads this
      requires Valid()
      ensures |es| == |levels[0]| && Sorted(es)
    {
      EntriesAreSorted(nodes, levels[0], 0);
      EntriesOf(nodes, levels[0])
    }

    constructor ()
      ensures Valid() && Contents() == []
    {
      nodes := [Node(Entry(InternalKey(0.0, 0, Value), []), seq(MAX_HEIGHT, _ => None))];
      maxHeight := 1;
      levels := seq(MAX_HEIGHT, _ => []);
    }

    /** Where a search is: before `key`, at some place of a level. */
    ghost predicate SearchAt(x: nat, level: nat, p: nat, key: InternalKey)
      reads this
      requires Valid()
    {
      level < MAX_HEIGHT && IsBefore(nodes, levels[level], x, key) && IsPlace(levels[level], x, p)
    }

    lemma NextOf(x: nat, level: nat, p: nat, key: InternalKey)
      requires Valid() && SearchAt(x, level, p, key)
      ensures level < |nodes[x].next| && nodes[x].next[level] == Link(levels[level], p)
      ensures p < |levels[level]| ==> levels[level][p] < |nodes|
    {
      var q := PlaceExists(nodes, levels[level], level, x);
      SamePlaces(level, x, p, q);
    }

    lemma SamePlaces(level: nat, x: nat, p: nat, q: nat)
      requires Valid() && level < MAX_HEIGHT && IsPlace(levels[level], x, p) && IsPlace(levels[level], x, q)
      ensures p == q
    {
      hide Link;
      hide Before;
      hide InternalKey.Tag;
      if p > 0 && q > 0 { SamePlace(nodes, levels[level], level, p - 1, q - 1); }
    }

    lemma StepDown(x: nat, level: nat, key: InternalKey) returns (p: nat)
      requires Valid() && 0 < level < MAX_HEIGHT && IsBefore(nodes, levels[level], x, key)
      ensures SearchAt(x, level - 1, p, key)
    {
      assert Within(levels[level - 1 + 1], levels[level - 1]);
      p := PlaceExists(nodes, levels[level - 1], level - 1, x);
    }

    lemma Advance(x: nat, level: nat, p: nat, key: InternalKey)
      requires Valid() && SearchAt(x, level, p, key) && p < |levels[level]|
      requires levels[level][p] < |nodes| && Before(KeyOf(nodes, levels[level][p]), key)
      ensures SearchAt(levels[level][p], level, p + 1, key)
    {
    }

    lemma StopHere(x: nat, level: nat, p: nat, key: InternalKey)
      requires Valid() && SearchAt(x, level, p, key)
      requires p < |levels[level]| ==> levels[level][p] < |nodes| && AtOrAfter(KeyOf(nodes, levels[level][p]), key)
      ensures Splits(nodes, levels[level], key, p) && IsPlace(levels[level], x, p)
      ensures IsPrev(nodes, levels[level], x, key)
    {
      SplitsHere(nodes, levels[level], level, x, p, key);
    }

    ghost predicate PrevFrom(from: nat, prev: seq<nat>, key: InternalKey)
      reads this
      requires Valid()
    {
      |prev| == MAX_HEIGHT && forall l :: from <= l < maxHeight ==> IsPrev(nodes, levels[l], prev[l], key)
    }

    /** The previous node on every level in use, and the first node at or after `key` if there is one. */
    method FindGreaterOrEqual(key: InternalKey) returns (next: Option<nat>, prev: seq<nat>, ghost at: nat)
      requires Valid()
      ensures Splits(nodes, levels[0], key, at) && next == Link(levels[0], at)
      ensures PrevFrom(0, prev, key)
    {
      hide WellLinked;
      hide Splits;
      hide IsPrev;
      prev := seq(MAX_HEIGHT, _ => 0);
      var x: nat := 0;
      var level := maxHeight - 1;
      ghost var p: nat := 0;
      StartSearch(key);
      while true
        invariant 0 <= level < maxHeight && SearchAt(x, level, p, key) && PrevFrom(level + 1, prev, key)
        decreases level, |levels[level]| - p
      {
        NextOf(x, level, p, key);
        var n := nodes[x].next[level];
        if KeyIsAfter(nodes, key, n) {
          Advance(x, level, p, key);
          x := n.value;
          p := p + 1;
        } else {
          StopHere(x, level, p, key);
          prev := prev[level := x];
          if level == 0 {
            next, at := n, p;
            return;
          }
          p := StepDown(x, level, key);
          level := level - 1;
        }
      }
    }

    lemma StartSearch(key: InternalKey)
      requires Valid()
      ensures SearchAt(0, maxHeight - 1, 0, key) && |levels| == MAX_HEIGHT
    {
    }

    /** The latest node with a key before `key`; the head if there is none. */
    method FindLessThan(key: InternalKey) returns (x: nat, ghost at: nat)
      requires Valid()
      ensures Splits(nodes, levels[0], key, at) && IsPlace(levels[0], x, at)
    {
      hide WellLinked;
      hide Splits;
      x := 0;
      var level := maxHeight - 1;
      ghost var p: nat := 0;
      StartSearch(key);
      while true
        invariant 0 <= level < maxHeight && SearchAt(x, level, p, key)
        decreases level, |levels[level]| - p
      {
        NextOf(x, level, p, key);
        var n := nodes[x].next[level];
        if n.None? || AtOrAfter(KeyOf(nodes, n.value), key) {
          if level == 0 {
            StopHere(x, 0, p, key);
            at := p;
            return;
          }
          p := StepDown(x, level, key);
          level := level - 1;
        } else {
          Advance(x, level, p, key);
          x := n.value;
          p := p + 1;
        }
      }
    }

    /** The last node; the head if the list is empty. */
    method FindLast() returns (x: nat)
      requires Valid()
      ensures IsPlace(levels[0], x, |levels[0]|)
    {
      x := 0;
      var level := maxHeight - 1;
      ghost var p: nat := 0;
      while true
        invariant 0 <= level < maxHeight && IsPlace(levels[level], x, p)
        decreases level, |levels[level]| - p
      {
        var q := PlaceExists(nodes, levels[level], level, x);
        SamePlaces(level, x, p, q);
        var n := nodes[x].next[level];
        if n.None? {
          if level == 0 {
            return;
          }
          assert Within(levels[level - 1 + 1], levels[level - 1]);
          p := PlaceExists(nodes, levels[level - 1], level - 1, x);
          level := level - 1;
        } else {
          x := n.value;
          p := p + 1;
        }
      }
    }

    ghost predicate HasKey(key: InternalKey)
      reads this
      requires Valid()
    {
      exists e :: e in Contents() && e.key == key
    }

    lemma FoundIsSeek(key: InternalKey, at: nat)
      requires Valid() && Splits(nodes, levels[0], key, at)
      ensures IsSeek(Contents(), key, at)
    {
      hide WellLinked;
      Shape(nodes, levels);
      forall i | 0 <= i < |levels[0]| ensures Contents()[i].key == KeyOf(nodes, levels[0][i]) { }
    }

    method Contains(key: InternalKey) returns (found: bool)
      requires Valid()
      ensures found == HasKey(key)
    {
      var x, _, at := FindGreaterOrEqual(key);
      found := x.Some? && nodes[x.value].entry.key == key;
      KeyIsAtSplit(key, at);
    }

    lemma KeyIsAtSplit(key: InternalKey, at: nat)
      requires Valid() && Splits(nodes, levels[0], key, at)
      ensures HasKey(key) <==> at < |levels[0]| && KeyOf(nodes, levels[0][at]) == key
    {
      FoundIsSeek(key, at);
      var es := Contents();
      if at < |es| && es[at].key == key { assert es[at] in es; }
      forall i | 0 <= i < |es| && es[i].key == key ensures i == at {
        SortedOrder(es, at, i);
      }
    }

    /** One round of Insert's loop: the node first points at its successor, then becomes reachable. */
    method LinkAt(x: nat, prev: seq<nat>, l: nat) returns (ghost p: nat)
      requires WellLinked(nodes, levels) && Inserting(nodes, levels, x, prev, l) && l < |nodes[x].next|
      modifies `nodes, `levels
      ensures WellLinked(nodes, levels) && Inserting(nodes, levels, x, prev, l + 1) && SameEntries(old(nodes), nodes)
      ensures Splits(old(nodes), old(levels[l]), old(KeyOf(nodes, x)), p)
              && levels == old(levels)[l := InsertAt(old(levels[l]), p, x)]
    {
      hide WellLinked;
      hide Splits;
      hide IsPrev;
      PointAhead(nodes, levels, x, prev, l);
      nodes := SetNext(nodes, x, l, nodes[prev[l]].next[l]);
      p := Publish(nodes, levels, x, prev, l);
      KeysDecideSplits(old(nodes), nodes, levels[l], KeyOf(nodes, x), p);
      nodes, levels := SetNext(nodes, prev[l], l, Some(x)), levels[l := InsertAt(levels[l], p, x)];
    }

    static lemma KeysDecideSplits(ns: seq<Node>, ns': seq<Node>, level: Level, key: InternalKey, p: nat)
      requires SameEntries(ns, ns') && Splits(ns', level, key, p)
      ensures Splits(ns, level, key, p)
    {
      SameKeysSplit(ns', ns, level, key, p);
    }

    lemma Predecessors(prev: seq<nat>, key: InternalKey, height: nat) returns (full: seq<nat>)
      requires Valid() && PrevFrom(0, prev, key) && height <= MAX_HEIGHT
      ensures |full| == MAX_HEIGHT && forall l :: 0 <= l < height ==> IsPrev(nodes, levels[l], full[l], key)
      ensures forall l :: 0 <= l < MAX_HEIGHT ==> full[l] == if maxHeight <= l < height then 0 else prev[l]
    {
      hide IsPrev;
      var top := maxHeight;
      full := seq(MAX_HEIGHT, l requires 0 <= l < MAX_HEIGHT => if top <= l < height then 0 else prev[l]);
      forall l | 0 <= l < height ensures IsPrev(nodes, levels[l], full[l], key) {
        if maxHeight <= l { HeadOfEmpty(nodes, levels[l], key); }
      }
    }

    lemma NoSuchKey(key: InternalKey)
      requires Valid() && !HasKey(key)
      ensures forall i :: 0 <= i < |levels[0]| && levels[0][i] < |nodes| ==> KeyOf(nodes, levels[0][i]) != key
    {
      hide WellLinked;
      Shape(nodes, levels);
      forall i | 0 <= i < |levels[0]| && levels[0][i] < |nodes| ensures KeyOf(nodes, levels[0][i]) != key {
        assert Contents()[i] in Contents();
      }
    }

    /** The new node, of any height, is linked level by level from the bottom up. */
    method Insert(e: Entry) returns (ghost at: nat)
      requires Valid() && !HasKey(e.key)
      modifies this
      ensures Valid()
      ensures IsSeek(old(Contents()), e.key, at) && Contents() == old(Contents())[..at] + [e] + old(Contents())[at..]
    {
      hide WellLinked;
      hide Splits;
      hide IsPrev;
      hide Inserting;
      var next, prev;
      next, prev, at := FindGreaterOrEqual(e.key);
      FoundIsSeek(e.key, at);
      NoSuchKey(e.key);
      Shape(nodes, levels);
      var height: nat :| 1 <= height <= MAX_HEIGHT;
      ghost var full := Predecessors(prev, e.key, height);
      ghost var found, before, nodes0, top := prev, levels, nodes, maxHeight;
      assert forall l :: top <= l < MAX_HEIGHT ==> before[l] == [];
      if height > maxHeight {
        for i := maxHeight to height
          invariant |prev| == MAX_HEIGHT && maxHeight == top
          invariant forall l :: 0 <= l < MAX_HEIGHT ==> prev[l] == if top <= l < i then 0 else found[l]
        {
          prev := prev[i := 0];
        }
        maxHeight := height;
      }
      assert prev == full;
      StartInserting(nodes, levels, e, height, prev);
      var x := |nodes|;
      nodes := nodes + [Node(e, seq(height, _ => None))];
      SameKeysSplit(nodes0, nodes, levels[0], e.key, at);
      LinkAll(x, prev, height, at);
      InsertedEntries(nodes0, nodes, before[0], at, e);
    }

    method LinkAll(x: nat, prev: seq<nat>, height: nat, ghost at: nat)
      requires WellLinked(nodes, levels) && Inserting(nodes, levels, x, prev, 0) && height == |nodes[x].next| > 0
      requires at <= |levels[0]| && Splits(nodes, levels[0], KeyOf(nodes, x), at)
      modifies `nodes, `levels
      ensures WellLinked(nodes, levels) && SameEntries(old(nodes), nodes) && |levels| == MAX_HEIGHT
      ensures levels[0] == InsertAt(old(levels[0]), at, x)
      ensures forall m :: height <= m < MAX_HEIGHT ==> levels[m] == old(levels[m])
    {
      hide WellLinked;
      hide Splits;
      hide IsPrev;
      ghost var nodes1 := nodes;
      for i := 0 to height
        invariant WellLinked(nodes, levels) && Inserting(nodes, levels, x, prev, i) && SameEntries(nodes1, nodes)
        invariant |levels| == MAX_HEIGHT && forall m :: i <= m < MAX_HEIGHT ==> levels[m] == old(levels[m])
        invariant i > 0 ==> levels[0] == InsertAt(old(levels[0]), at, x)
      {
        ghost var now := nodes;
        ghost var p := LinkAt(x, prev, i);
        if i == 0 { BottomPlace(nodes1, now, old(levels[0]), KeyOf(nodes1, x), at, p); }
      }
    }

    static lemma BottomPlace(ns: seq<Node>, ns': seq<Node>, level: Level, key: InternalKey, at: nat, p: nat)
      requires Splits(ns, level, key, at) && SameEntries(ns, ns') && Splits(ns', level, key, p)
      ensures p == at
    {
      SameKeysSplit(ns, ns', level, key, at);
      SplitIsUnique(ns', level, key, at, p);
    }
  }
}
