/** The linked levels of a skip list (db/skiplist.h).  Nodes live in an arena and are named by their
    index in it; node 0 is the head. */
module SkipListNodes {
  import opened Options
  import opened InternalKeys

  const MAX_HEIGHT: nat := 12

  datatype Node = Node(entry: Entry, next: seq<Option<nat>>)

  /** The nodes linked at one level, in order. */
  type Level = seq<nat>

  function Link(level: Level, i: nat): Option<nat> { if i < |level| then Some(level[i]) else None }

  function KeyOf(nodes: seq<Node>, id: nat): InternalKey
    requires id < |nodes|
  {
    nodes[id].entry.key
  }

  /** The links at height `l` run through exactly the nodes of `level`, in increasing order of keys. */
  ghost predicate Linked(nodes: seq<Node>, level: Level, l: nat) {
    && nodes != [] && l < |nodes[0].next| && nodes[0].next[l] == Link(level, 0)
    && (forall i :: 0 <= i < |level| ==>
          0 < level[i] < |nodes| && l < |nodes[level[i]].next| && nodes[level[i]].next[l] == Link(level, i + 1))
    && (forall i, j {:trigger KeyOf(nodes, level[i]), KeyOf(nodes, level[j])} :: 0 <= i < j < |level| ==>
          Before(KeyOf(nodes, level[i]), KeyOf(nodes, level[j])))
  }

  ghost predicate Within(a: Level, b: Level) { forall id :: id in a ==> id in b }

  /** Every level is a sorted sublist of the level below. */
  ghost predicate WellLinked(nodes: seq<Node>, levels: seq<Level>) {
    && |levels| == MAX_HEIGHT && nodes != [] && |nodes[0].next| == MAX_HEIGHT
    && (forall l :: 0 <= l < MAX_HEIGHT ==> Linked(nodes, levels[l], l))
    && (forall l :: 0 <= l < MAX_HEIGHT - 1 ==> Within(levels[l + 1], levels[l]))
  }

  /** `x` is the head or a node of the level with a key before `key`. */
  ghost predicate IsBefore(nodes: seq<Node>, level: Level, x: nat, key: InternalKey) {
    x < |nodes| && (x == 0 || (x in level && Before(KeyOf(nodes, x), key)))
  }

  /** KeyIsAfterNode: a missing node is after every key. */
  predicate KeyIsAfter(nodes: seq<Node>, key: InternalKey, n: Option<nat>)
    requires n.Some? ==> n.value < |nodes|
  {
    n.Some? && Before(KeyOf(nodes, n.value), key)
  }

  /** How far along the level `x` is: 0 for the head, one more than its index otherwise. */
  ghost predicate IsPlace(level: Level, x: nat, p: nat) {
    p <= |level| && x == if p == 0 then 0 else level[p - 1]
  }

  lemma PlaceExists(nodes: seq<Node>, level: Level, l: nat, x: nat) returns (p: nat)
    requires Linked(nodes, level, l) && (x == 0 || x in level)
    ensures IsPlace(level, x, p) && x < |nodes| && l < |nodes[x].next| && nodes[x].next[l] == Link(level, p)
  {
    if x == 0 {
      p := 0;
    } else {
      var i :| 0 <= i < |level| && level[i] == x;
      p := i + 1;
    }
  }

  /** The first `p` nodes of the level have keys before `key`, the others do not. */
  ghost predicate Splits(nodes: seq<Node>, level: Level, key: InternalKey, p: nat) {
    && p <= |level| && (forall i :: 0 <= i < |level| ==> level[i] < |nodes|)
    && (forall i :: 0 <= i < p ==> Before(KeyOf(nodes, level[i]), key))
    && (forall i :: p <= i < |level| ==> AtOrAfter(KeyOf(nodes, level[i]), key))
  }

  lemma SplitsHere(nodes: seq<Node>, level: Level, l: nat, x: nat, p: nat, key: InternalKey)
    requires Linked(nodes, level, l) && IsBefore(nodes, level, x, key) && IsPlace(level, x, p)
    requires Link(level, p).Some? ==> !KeyIsAfter(nodes, key, Link(level, p))
    ensures Splits(nodes, level, key, p)
  {
    forall i | 0 <= i < p ensures Before(KeyOf(nodes, level[i]), key) {
      if i < p - 1 { assert Before(KeyOf(nodes, level[i]), KeyOf(nodes, level[p - 1])); }
    }
    forall i | p <= i < |level| ensures AtOrAfter(KeyOf(nodes, level[i]), key) {
      if p < i { assert Before(KeyOf(nodes, level[p]), KeyOf(nodes, level[i])); }
    }
  }

  /** `prev` is the last node of the level with a key before `key`. */
  ghost predicate IsPrev(nodes: seq<Node>, level: Level, prev: nat, key: InternalKey) {
    exists p :: IsPlace(level, prev, p) && Splits(nodes, level, key, p)
  }

  /** The entries of a level, in order. */
  function EntriesOf(nodes: seq<Node>, level: Level): seq<Entry>
    requires forall i :: 0 <= i < |level| ==> level[i] < |nodes|
  {
    seq(|level|, i requires 0 <= i < |level| => nodes[level[i]].entry)
  }

  lemma EntriesAreSorted(nodes: seq<Node>, level: Level, l: nat)
    requires Linked(nodes, level, l)
    ensures Sorted(EntriesOf(nodes, level))
  {
    var es := EntriesOf(nodes, level);
    forall i, j | 0 <= i < j < |es| ensures Before(es[i].key, es[j].key) {
      assert Before(KeyOf(nodes, level[i]), KeyOf(nodes, level[j]));
    }
  }

  // ---------- the two writes that link a node at one level ----------

  function SetNext(nodes: seq<Node>, id: nat, l: nat, n: Option<nat>): (r: seq<Node>)
    requires id < |nodes| && l < |nodes[id].next|
    ensures |r| == |nodes| && r[id].next == nodes[id].next[l := n] && r[id].entry == nodes[id].entry
    ensures forall k :: 0 <= k < |nodes| && k != id ==> r[k] == nodes[k]
  {
    nodes[id := nodes[id].(next := nodes[id].next[l := n])]
  }

  function InsertAt(level: Level, p: nat, x: nat): Level
    requires p <= |level|
  {
    level[..p] + [x] + level[p..]
  }

  /** Links at other heights, and of nodes that are not on the level, do not matter to a level. */
  lemma OtherLinksKeep(nodes: seq<Node>, nodes': seq<Node>, level: Level, l: nat)
    requires Linked(nodes, level, l) && |nodes'| >= |nodes|
    requires forall id :: 0 <= id < |nodes| ==>
              nodes'[id].entry == nodes[id].entry && |nodes'[id].next| == |nodes[id].next|
    requires forall id :: 0 <= id < |nodes| && (id == 0 || id in level) ==>
              l < |nodes[id].next| && nodes'[id].next[l] == nodes[id].next[l]
    ensures Linked(nodes', level, l)
  {
    forall i | 0 <= i < |level|
      ensures 0 < level[i] < |nodes'| && l < |nodes'[level[i]].next| && nodes'[level[i]].next[l] == Link(level, i + 1)
    {
      assert level[i] in level;
    }
    forall i, j | 0 <= i < j < |level| ensures Before(KeyOf(nodes', level[i]), KeyOf(nodes', level[j])) {
      assert Before(KeyOf(nodes, level[i]), KeyOf(nodes, level[j]));
    }
  }

  /** Publishing: the node already points at its successor, and its predecessor is made to point at it. */
  lemma PublishLinks(nodes: seq<Node>, level: Level, l: nat, prev: nat, p: nat, x: nat)
    requires Linked(nodes, level, l) && IsPlace(level, prev, p) && Splits(nodes, level, KeyOf'(nodes, x), p)
    requires 0 < x < |nodes| && l < |nodes[x].next| && x !in level && nodes[x].next[l] == Link(level, p)
    requires forall i :: 0 <= i < |level| ==> KeyOf(nodes, level[i]) != KeyOf(nodes, x)
    ensures prev < |nodes| && l < |nodes[prev].next|
    ensures Linked(SetNext(nodes, prev, l, Some(x)), InsertAt(level, p, x), l)
  {
    assert p > 0 ==> level[p - 1] in level;
    var nodes', level' := SetNext(nodes, prev, l, Some(x)), InsertAt(level, p, x);
    PublishedNext(nodes, level, l, prev, p, x);
    PublishedOrder(nodes, level, l, p, x);
    forall i, j | 0 <= i < j < |level'| ensures Before(KeyOf(nodes', level'[i]), KeyOf(nodes', level'[j])) {
      assert Before(KeyOf(nodes, level'[i]), KeyOf(nodes, level'[j]));
    }
  }

  function KeyOf'(nodes: seq<Node>, id: nat): InternalKey {
    if id < |nodes| then KeyOf(nodes, id) else InternalKey(0.0, 0, Value)
  }

  lemma PublishedNext(nodes: seq<Node>, level: Level, l: nat, prev: nat, p: nat, x: nat)
    requires Linked(nodes, level, l) && IsPlace(level, prev, p) && prev < |nodes| && l < |nodes[prev].next|
    requires 0 < x < |nodes| && l < |nodes[x].next| && x !in level && nodes[x].next[l] == Link(level, p)
    ensures var nodes', level' := SetNext(nodes, prev, l, Some(x)), InsertAt(level, p, x);
            && nodes'[0].next[l] == Link(level', 0)
            && forall i :: 0 <= i < |level'| ==>
                  0 < level'[i] < |nodes'| && l < |nodes'[level'[i]].next|
                     && nodes'[level'[i]].next[l] == Link(level', i + 1)
  {
    hide Before;
    hide Link;
    hide Linked;
    var nodes', level' := SetNext(nodes, prev, l, Some(x)), InsertAt(level, p, x);
    PublishedHead(nodes, level, l, prev, p, x);
    forall i | 0 <= i < |level'|
      ensures 0 < level'[i] < |nodes'| && l < |nodes'[level'[i]].next|
              && nodes'[level'[i]].next[l] == Link(level', i + 1)
    {
      PublishedAt(nodes, level, l, prev, p, x, i);
    }
  }

  lemma PublishedHead(nodes: seq<Node>, level: Level, l: nat, prev: nat, p: nat, x: nat)
    requires Linked(nodes, level, l) && IsPlace(level, prev, p) && prev < |nodes| && l < |nodes[prev].next|
    requires 0 < x < |nodes|
    ensures |SetNext(nodes, prev, l, Some(x))| == |nodes| && l < |SetNext(nodes, prev, l, Some(x))[0].next|
    ensures SetNext(nodes, prev, l, Some(x))[0].next[l] == Link(InsertAt(level, p, x), 0)
  {
    hide Before;
  }

  lemma PublishedAt(nodes: seq<Node>, level: Level, l: nat, prev: nat, p: nat, x: nat, i: nat)
    requires Linked(nodes, level, l) && IsPlace(level, prev, p) && prev < |nodes| && l < |nodes[prev].next|
    requires 0 < x < |nodes| && l < |nodes[x].next| && x !in level && nodes[x].next[l] == Link(level, p)
    requires i < |InsertAt(level, p, x)|
    ensures var nodes', level' := SetNext(nodes, prev, l, Some(x)), InsertAt(level, p, x);
            0 < level'[i] < |nodes'| && l < |nodes'[level'[i]].next|
            && nodes'[level'[i]].next[l] == Link(level', i + 1)
  {
    hide Linked;
    hide Link;
    hide InsertAt;
    InsertedAt(level, p, x, i);
    InsertedLink(level, p, x, i + 1);
    if i < p {
      LinkedAt(nodes, level, l, i);
      if level[i] == prev { SamePlace(nodes, level, l, i, p - 1); }
    } else if i > p {
      LinkedAt(nodes, level, l, i - 1);
      if p > 0 && level[i - 1] == prev { SamePlace(nodes, level, l, i - 1, p - 1); }
    } else if p > 0 {
      assert prev == level[p - 1] && prev in level;
    }
  }

  lemma LinkedAt(nodes: seq<Node>, level: Level, l: nat, i: nat)
    requires Linked(nodes, level, l) && i < |level|
    ensures 0 < level[i] < |nodes| && l < |nodes[level[i]].next| && nodes[level[i]].next[l] == Link(level, i + 1)
  {
  }

  lemma InsertedAt(level: Level, p: nat, x: nat, i: nat)
    requires p <= |level| && i < |InsertAt(level, p, x)|
    ensures i <= |level| && InsertAt(level, p, x)[i] == if i < p then level[i] else if i == p then x else level[i - 1]
  {
  }

  lemma InsertedLink(level: Level, p: nat, x: nat, i: nat)
    requires p <= |level|
    ensures Link(InsertAt(level, p, x), i) ==
            if i < p then Link(level, i) else if i == p then Some(x) else Link(level, i - 1)
  {
  }

  lemma SamePlace(nodes: seq<Node>, level: Level, l: nat, i: nat, j: nat)
    requires Linked(nodes, level, l) && i < |level| && j < |level| && level[i] == level[j]
    ensures i == j
  {
    LevelOrder(nodes, level, l, i, j);
    LevelOrder(nodes, level, l, j, i);
  }

  lemma LevelOrder(nodes: seq<Node>, level: Level, l: nat, i: nat, j: nat)
    requires Linked(nodes, level, l) && i < |level| && j < |level|
    ensures Before(KeyOf(nodes, level[i]), KeyOf(nodes, level[j])) <==> i < j
  {
    assert j < i ==> Before(KeyOf(nodes, level[j]), KeyOf(nodes, level[i]));
  }

  lemma PublishedOrder(nodes: seq<Node>, level: Level, l: nat, p: nat, x: nat)
    requires Linked(nodes, level, l) && 0 < x < |nodes| && Splits(nodes, level, KeyOf(nodes, x), p)
    requires forall i :: 0 <= i < |level| ==> KeyOf(nodes, level[i]) != KeyOf(nodes, x)
    ensures var level' := InsertAt(level, p, x);
            && (forall i :: 0 <= i < |level'| ==> level'[i] < |nodes|)
            && forall i, j {:trigger KeyOf(nodes, level'[i]), KeyOf(nodes, level'[j])} :: 0 <= i < j < |level'| ==>
                  Before(KeyOf(nodes, level'[i]), KeyOf(nodes, level'[j]))
  {
    hide Before;
    hide Link;
    var level' := InsertAt(level, p, x);
    forall i, j | 0 <= i < j < |level'| ensures Before(KeyOf(nodes, level'[i]), KeyOf(nodes, level'[j])) {
      var a, b := if i < p then i else i - 1, if j < p then j else j - 1;
      if i != p && j != p {
        assert Before(KeyOf(nodes, level[a]), KeyOf(nodes, level[b]));
      } else if i == p {
        DistinctOrder(KeyOf(nodes, x), KeyOf(nodes, level[j - 1]));
      }
    }
  }

  lemma DistinctOrder(a: InternalKey, b: InternalKey)
    requires a != b && !Before(b, a)
    ensures Before(a, b)
  {
  }

  // ---------- the same, with all levels in view ----------

  lemma LevelIsLinked(nodes: seq<Node>, levels: seq<Level>, l: nat)
    requires WellLinked(nodes, levels) && l < MAX_HEIGHT
    ensures Linked(nodes, levels[l], l)
  {
  }

  lemma Shape(nodes: seq<Node>, levels: seq<Level>)
    requires WellLinked(nodes, levels)
    ensures |levels| == MAX_HEIGHT && nodes != [] && forall i :: 0 <= i < |levels[0]| ==> 0 < levels[0][i] < |nodes|
  {
    LevelIsLinked(nodes, levels, 0);
  }

  lemma Rebuild(nodes: seq<Node>, levels: seq<Level>)
    requires |levels| == MAX_HEIGHT && nodes != [] && |nodes[0].next| == MAX_HEIGHT
    requires forall l :: 0 <= l < MAX_HEIGHT ==> Linked(nodes, levels[l], l)
    requires forall l :: 0 <= l < MAX_HEIGHT - 1 ==> Within(levels[l + 1], levels[l])
    ensures WellLinked(nodes, levels)
  {
  }

  lemma NewNodeKeeps(nodes: seq<Node>, levels: seq<Level>, node: Node)
    requires WellLinked(nodes, levels)
    ensures WellLinked(nodes + [node], levels)
  {
    hide Linked;
    forall l | 0 <= l < MAX_HEIGHT
      ensures Linked(nodes + [node], levels[l], l)
    {
      NodeStays(nodes, levels[l], l, nodes + [node]);
    }
  }

  lemma NodeStays(nodes: seq<Node>, level: Level, l: nat, more: seq<Node>)
    requires Linked(nodes, level, l) && nodes <= more
    ensures Linked(more, level, l)
  {
    OtherLinksKeep(nodes, more, level, l);
  }

  /** A node's own link may be set while it is not on that level. */
  lemma OwnLinkKeeps(nodes: seq<Node>, levels: seq<Level>, x: nat, l: nat, n: Option<nat>)
    requires WellLinked(nodes, levels) && 0 < x < |nodes| && l < |nodes[x].next| && l < MAX_HEIGHT && x !in levels[l]
    ensures WellLinked(SetNext(nodes, x, l, n), levels)
  {
    hide Linked;
    forall m | 0 <= m < MAX_HEIGHT ensures Linked(SetNext(nodes, x, l, n), levels[m], m) {
      LevelIsLinked(nodes, levels, m);
      OwnLinkKeepsLevel(nodes, levels[m], m, x, l, n);
    }
  }

  lemma OwnLinkKeepsLevel(nodes: seq<Node>, level: Level, m: nat, x: nat, l: nat, n: Option<nat>)
    requires Linked(nodes, level, m) && 0 < x < |nodes| && l < |nodes[x].next| && (m == l ==> x !in level)
    ensures Linked(SetNext(nodes, x, l, n), level, m)
  {
    forall id | 0 <= id < |nodes| && (id == 0 || id in level) ensures m < |nodes[id].next| {
      if id != 0 { var i :| 0 <= i < |level| && level[i] == id; }
    }
    OtherLinksKeep(nodes, SetNext(nodes, x, l, n), level, m);
  }

  lemma OtherLevelKeeps(nodes: seq<Node>, level: Level, m: nat, id: nat, l: nat, n: Option<nat>)
    requires Linked(nodes, level, m) && id < |nodes| && l < |nodes[id].next| && m != l
    ensures Linked(SetNext(nodes, id, l, n), level, m)
  {
    forall k | 0 <= k < |nodes| && (k == 0 || k in level) ensures m < |nodes[k].next| {
      if k != 0 { var i :| 0 <= i < |level| && level[i] == k; }
    }
    OtherLinksKeep(nodes, SetNext(nodes, id, l, n), level, m);
  }

  /** Publishing a node on one level keeps all levels sorted sublists of one another. */
  lemma PublishKeeps(nodes: seq<Node>, levels: seq<Level>, x: nat, l: nat, prev: nat, p: nat)
    requires WellLinked(nodes, levels) && l < MAX_HEIGHT && 0 < x < |nodes| && l < |nodes[x].next|
    requires x !in levels[l] && (l > 0 ==> x in levels[l - 1])
    requires IsPlace(levels[l], prev, p) && Splits(nodes, levels[l], KeyOf(nodes, x), p)
             && nodes[x].next[l] == Link(levels[l], p)
    requires forall i :: 0 <= i < |levels[l]| ==> KeyOf(nodes, levels[l][i]) != KeyOf(nodes, x)
    ensures prev < |nodes| && l < |nodes[prev].next|
    ensures WellLinked(SetNext(nodes, prev, l, Some(x)), levels[l := InsertAt(levels[l], p, x)])
  {
    hide Linked;
    PublishLinks(nodes, levels[l], l, prev, p, x);
    PublishOthers(nodes, levels, x, l, prev, p);
    var nodes', levels' := SetNext(nodes, prev, l, Some(x)), levels[l := InsertAt(levels[l], p, x)];
    forall m | 0 <= m < MAX_HEIGHT - 1 ensures Within(levels'[m + 1], levels'[m]) {
      assert Within(levels[m + 1], levels[m]);
      InsertedHolds(levels[l], p, x);
    }
    Rebuild(nodes', levels');
  }

  lemma PublishOthers(nodes: seq<Node>, levels: seq<Level>, x: nat, l: nat, prev: nat, p: nat)
    requires WellLinked(nodes, levels) && l < MAX_HEIGHT && prev < |nodes| && l < |nodes[prev].next| && p <= |levels[l]|
    ensures forall m {:trigger levels[m]} ::
            0 <= m < MAX_HEIGHT && m != l ==> Linked(SetNext(nodes, prev, l, Some(x)), levels[m], m)
  {
    hide Linked;
    forall m {:trigger levels[m]} | 0 <= m < MAX_HEIGHT && m != l
        ensures Linked(SetNext(nodes, prev, l, Some(x)), levels[m], m) {
      LevelIsLinked(nodes, levels, m);
      OtherLevelKeeps(nodes, levels[m], m, prev, l, Some(x));
    }
  }

  lemma InsertedHolds(level: Level, p: nat, x: nat)
    requires p <= |level|
    ensures forall id :: id in InsertAt(level, p, x) <==> id == x || id in level
  {
    assert level == level[..p] + level[p..];
  }

  // ---------- an insertion in progress ----------

  ghost predicate KeyIsNew(nodes: seq<Node>, level: Level, key: InternalKey) {
    forall i :: 0 <= i < |level| && level[i] < |nodes| ==> KeyOf(nodes, level[i]) != key
  }

  /** Node `x` is linked on the levels below `l` and not on the others, where its predecessors and the
      absence of its key are known. */
  ghost predicate Inserting(nodes: seq<Node>, levels: seq<Level>, x: nat, prev: seq<nat>, l: nat) {
    && |levels| == MAX_HEIGHT && |prev| == MAX_HEIGHT && 0 < x < |nodes| && l <= |nodes[x].next| <= MAX_HEIGHT
    && (forall m :: 0 <= m < MAX_HEIGHT ==> (x in levels[m] <==> m < l))
    && (forall m :: l <= m < |nodes[x].next| ==>
        IsPrev(nodes, levels[m], prev[m], KeyOf(nodes, x)) && KeyIsNew(nodes, levels[m], KeyOf(nodes, x)))
  }

  /** ... and already points at its successor on level `l`. */
  ghost predicate PointsAhead(nodes: seq<Node>, levels: seq<Level>, x: nat, prev: seq<nat>, l: nat) {
    && Inserting(nodes, levels, x, prev, l) && l < |nodes[x].next|
    && exists p ::
         && IsPlace(levels[l], prev[l], p) && Splits(nodes, levels[l], KeyOf(nodes, x), p)
         && nodes[x].next[l] == Link(levels[l], p)
  }

  lemma SameKeysSplit(nodes: seq<Node>, nodes': seq<Node>, level: Level, key: InternalKey, p: nat)
    requires Splits(nodes, level, key, p) && |nodes| <= |nodes'|
    requires forall id :: 0 <= id < |nodes| ==> nodes'[id].entry == nodes[id].entry
    ensures Splits(nodes', level, key, p)
  {
    forall i | 0 <= i < |level| ensures level[i] < |nodes'| && KeyOf(nodes', level[i]) == KeyOf(nodes, level[i]) { }
  }

  lemma SameKeysPrev(nodes: seq<Node>, nodes': seq<Node>, level: Level, prev: nat, key: InternalKey)
    requires IsPrev(nodes, level, prev, key) && |nodes| <= |nodes'|
    requires forall id :: 0 <= id < |nodes| ==> nodes'[id].entry == nodes[id].entry
    ensures IsPrev(nodes', level, prev, key)
  {
    var p :| IsPlace(level, prev, p) && Splits(nodes, level, key, p);
    SameKeysSplit(nodes, nodes', level, key, p);
  }

  lemma PrevInArena(nodes: seq<Node>, levels: seq<Level>, l: nat, prev: nat, key: InternalKey) returns (p: nat)
    requires WellLinked(nodes, levels) && l < MAX_HEIGHT && IsPrev(nodes, levels[l], prev, key)
    ensures IsPlace(levels[l], prev, p) && Splits(nodes, levels[l], key, p)
    ensures prev < |nodes| && l < |nodes[prev].next| && nodes[prev].next[l] == Link(levels[l], p)
  {
    p :| IsPlace(levels[l], prev, p) && Splits(nodes, levels[l], key, p);
    LevelIsLinked(nodes, levels, l);
    if p > 0 { assert levels[l][p - 1] in levels[l]; }
  }

  /** First write: the node's own link, which no reader can see yet. */
  lemma PointAhead(nodes: seq<Node>, levels: seq<Level>, x: nat, prev: seq<nat>, l: nat)
    requires WellLinked(nodes, levels) && Inserting(nodes, levels, x, prev, l) && l < |nodes[x].next|
    ensures prev[l] < |nodes| && l < |nodes[prev[l]].next|
    ensures var nodes' := SetNext(nodes, x, l, nodes[prev[l]].next[l]);
            WellLinked(nodes', levels) && PointsAhead(nodes', levels, x, prev, l)
  {
    hide WellLinked;
    var p := PrevInArena(nodes, levels, l, prev[l], KeyOf(nodes, x));
    var nodes' := SetNext(nodes, x, l, nodes[prev[l]].next[l]);
    OwnLinkKeeps(nodes, levels, x, l, nodes[prev[l]].next[l]);
    SameKeysInserting(nodes, nodes', levels, x, prev, l);
    SameKeysSplit(nodes, nodes', levels[l], KeyOf(nodes, x), p);
  }

  lemma SameKeysInserting(nodes: seq<Node>, nodes': seq<Node>, levels: seq<Level>, x: nat, prev: seq<nat>, l: nat)
    requires Inserting(nodes, levels, x, prev, l) && |nodes| == |nodes'|
    requires forall id :: 0 <= id < |nodes| ==>
              nodes'[id].entry == nodes[id].entry && |nodes'[id].next| == |nodes[id].next|
    ensures Inserting(nodes', levels, x, prev, l)
  {
    hide IsPrev;
    forall m | l <= m < |nodes[x].next|
      ensures IsPrev(nodes', levels[m], prev[m], KeyOf(nodes', x)) && KeyIsNew(nodes', levels[m], KeyOf(nodes', x))
    {
      SameKeysPrev(nodes, nodes', levels[m], prev[m], KeyOf(nodes, x));
      assert KeyIsNew(nodes, levels[m], KeyOf(nodes, x));
    }
  }

  /** Second write: the predecessor's link publishes the node on level `l`. */
  lemma Publish(nodes: seq<Node>, levels: seq<Level>, x: nat, prev: seq<nat>, l: nat) returns (p: nat)
    requires WellLinked(nodes, levels) && PointsAhead(nodes, levels, x, prev, l)
    ensures p <= |levels[l]| && Splits(nodes, levels[l], KeyOf(nodes, x), p)
    ensures prev[l] < |nodes| && l < |nodes[prev[l]].next|
    ensures var nodes', levels' := SetNext(nodes, prev[l], l, Some(x)), levels[l := InsertAt(levels[l], p, x)];
            WellLinked(nodes', levels') && Inserting(nodes', levels', x, prev, l + 1)
  {
    hide WellLinked;
    hide Splits;
    p :| IsPlace(levels[l], prev[l], p) && Splits(nodes, levels[l], KeyOf(nodes, x), p)
        && nodes[x].next[l] == Link(levels[l], p);
    NewKeys(nodes, levels, x, prev, l);
    PublishKeeps(nodes, levels, x, l, prev[l], p);
    PublishedInserting(nodes, levels, x, prev, l, p);
  }

  lemma NewKeys(nodes: seq<Node>, levels: seq<Level>, x: nat, prev: seq<nat>, l: nat)
    requires WellLinked(nodes, levels) && Inserting(nodes, levels, x, prev, l) && l < |nodes[x].next|
    ensures forall i :: 0 <= i < |levels[l]| ==> levels[l][i] < |nodes| && KeyOf(nodes, levels[l][i]) != KeyOf(nodes, x)
  {
    LevelIsLinked(nodes, levels, l);
    assert KeyIsNew(nodes, levels[l], KeyOf(nodes, x));
  }

  lemma PublishedInserting(nodes: seq<Node>, levels: seq<Level>, x: nat, prev: seq<nat>, l: nat, p: nat)
    requires Inserting(nodes, levels, x, prev, l) && l < |nodes[x].next| && p <= |levels[l]|
    requires prev[l] < |nodes| && l < |nodes[prev[l]].next|
    ensures Inserting(SetNext(nodes, prev[l], l, Some(x)), levels[l := InsertAt(levels[l], p, x)], x, prev, l + 1)
  {
    hide IsPrev;
    var nodes', levels' := SetNext(nodes, prev[l], l, Some(x)), levels[l := InsertAt(levels[l], p, x)];
    SameKeysInserting(nodes, nodes', levels, x, prev, l);
    InsertedHolds(levels[l], p, x);
    forall m | l + 1 <= m < |nodes'[x].next|
      ensures IsPrev(nodes', levels'[m], prev[m], KeyOf(nodes', x)) && KeyIsNew(nodes', levels'[m], KeyOf(nodes', x))
    {
      assert levels'[m] == levels[m];
    }
  }

  /** A fresh node is ready to be linked, given its predecessors. */
  lemma StartInserting(nodes: seq<Node>, levels: seq<Level>, e: Entry, height: nat, prev: seq<nat>)
    requires WellLinked(nodes, levels) && 1 <= height <= MAX_HEIGHT && |prev| == MAX_HEIGHT
    requires forall l :: 0 <= l < height ==> IsPrev(nodes, levels[l], prev[l], e.key)
    requires forall i :: 0 <= i < |levels[0]| && levels[0][i] < |nodes| ==> KeyOf(nodes, levels[0][i]) != e.key
    ensures var nodes' := nodes + [Node(e, seq(height, _ => None))];
            WellLinked(nodes', levels) && Inserting(nodes', levels, |nodes|, prev, 0)
  {
    hide Linked;
    var nodes' := nodes + [Node(e, seq(height, _ => None))];
    NewNodeKeeps(nodes, levels, Node(e, seq(height, _ => None)));
    forall m | 0 <= m < MAX_HEIGHT ensures |nodes| !in levels[m] { OldNodes(nodes, levels, m); }
    forall m | 0 <= m < height
      ensures IsPrev(nodes', levels[m], prev[m], e.key) && KeyIsNew(nodes', levels[m], e.key)
    {
      SameKeysPrev(nodes, nodes', levels[m], prev[m], e.key);
      NewOnAll(nodes, levels, m, e.key);
      OldNodes(nodes, levels, m);
    }
  }

  lemma OldNodes(nodes: seq<Node>, levels: seq<Level>, m: nat)
    requires WellLinked(nodes, levels) && m < MAX_HEIGHT
    ensures forall id :: id in levels[m] ==> 0 < id < |nodes|
  {
    LevelIsLinked(nodes, levels, m);
  }

  lemma {:induction false} NewOnAll(nodes: seq<Node>, levels: seq<Level>, m: nat, key: InternalKey)
    requires WellLinked(nodes, levels) && m < MAX_HEIGHT && KeyIsNew(nodes, levels[0], key)
    ensures KeyIsNew(nodes, levels[m], key)
  {
    hide Linked;
    if m > 0 {
      NewOnAll(nodes, levels, m - 1, key);
      assert Within(levels[m - 1 + 1], levels[m - 1]);
      forall i | 0 <= i < |levels[m]| && levels[m][i] < |nodes| ensures KeyOf(nodes, levels[m][i]) != key {
        assert levels[m][i] in levels[m];
        assert levels[m][i] in levels[m - 1];
        var j :| 0 <= j < |levels[m - 1]| && levels[m - 1][j] == levels[m][i];
        assert KeyOf(nodes, levels[m - 1][j]) != key;
      }
    }
  }

  // ---------- what an insertion does to the entries ----------

  ghost predicate SameEntries(nodes: seq<Node>, nodes': seq<Node>) {
    |nodes| == |nodes'| && forall id :: 0 <= id < |nodes| ==>
        nodes'[id].entry == nodes[id].entry && |nodes'[id].next| == |nodes[id].next|
  }

  lemma SplitIsUnique(nodes: seq<Node>, level: Level, key: InternalKey, p: nat, q: nat)
    requires Splits(nodes, level, key, p) && Splits(nodes, level, key, q)
    ensures p == q
  {
    var k := if p < q then p else q;
    if k < |level| {
      assert k < p <==> Before(KeyOf(nodes, level[k]), key);
      assert k < q <==> Before(KeyOf(nodes, level[k]), key);
    }
  }

  lemma InsertedEntries(nodes: seq<Node>, nodes': seq<Node>, level: Level, p: nat, e: Entry)
    requires p <= |level| && (forall i :: 0 <= i < |level| ==> level[i] < |nodes|)
    requires |nodes| < |nodes'| && nodes'[|nodes|].entry == e
    requires forall id :: 0 <= id < |nodes| ==> nodes'[id].entry == nodes[id].entry
    ensures forall i :: 0 <= i < |InsertAt(level, p, |nodes|)| ==> InsertAt(level, p, |nodes|)[i] < |nodes'|
    ensures var es := EntriesOf(nodes, level);
            EntriesOf(nodes', InsertAt(level, p, |nodes|)) == es[..p] + [e] + es[p..]
  {
    var level' := InsertAt(level, p, |nodes|);
    forall i | 0 <= i < |level'| ensures level'[i] < |nodes'| {
      if i < p { assert level'[i] == level[i]; } else if i > p { assert level'[i] == level[i - 1]; }
    }
    var es, es' := EntriesOf(nodes, level), EntriesOf(nodes', level');
    forall i | 0 <= i < |es'| ensures es'[i] == (es[..p] + [e] + es[p..])[i] {
      if i < p { assert level'[i] == level[i]; } else if i > p { assert level'[i] == level[i - 1]; }
    }
  }

  /** The head precedes every key on a level that is still empty. */
  lemma HeadOfEmpty(nodes: seq<Node>, level: Level, key: InternalKey)
    requires level == []
    ensures IsPrev(nodes, level, 0, key)
  {
    assert IsPlace(level, 0, 0) && Splits(nodes, level, key, 0);
  }
}
