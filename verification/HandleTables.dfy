/** HandleTable of util/cache.cc: a growing hash table whose buckets are chains of handles.  Handles are
    named by numbers; their keys and hashes never change. */
module HandleTables {
  import opened Options
  import opened Coding

  datatype Entry = Entry(key: Buffer, hash: nat, charge: nat)

  type Entries = map<nat, Entry>

  predicate Matches(es: Entries, h: nat, key: Buffer, hash: nat) { h in es && es[h].hash == hash && es[h].key == key }

  /** No two handles have the same key and hash. */
  ghost predicate KeysDiffer(es: Entries, ids: set<nat>) {
    forall a, b :: a in ids && b in ids && a in es && b in es && es[a].hash == es[b].hash && es[a].key == es[b].key
        ==> a == b
  }

  type Chain = seq<nat>

  ghost predicate NoRepeat(s: seq<nat>) { forall i, j :: 0 <= i < j < |s| ==> s[i] != s[j] }

  /** The chain holds exactly the handles of `ids` whose hash leads to bucket `b`. */
  ghost predicate ChainOk(es: Entries, ids: set<nat>, chain: Chain, b: nat, length: nat)
    requires length > 0
  {
    && NoRepeat(chain)
    && (forall h :: h in chain ==> h in ids && h in es && es[h].hash % length == b)
    && (forall h :: h in ids && h in es && es[h].hash % length == b ==> h in chain)
  }

  ghost predicate BucketsOk(es: Entries, ids: set<nat>, buckets: seq<Chain>) {
    && |buckets| > 0 && ids <= es.Keys && KeysDiffer(es, ids)
    && forall b :: 0 <= b < |buckets| ==> ChainOk(es, ids, buckets[b], b, |buckets|)
  }

  // ---------- changing one chain ----------

  lemma PushFront(es: Entries, ids: set<nat>, buckets: seq<Chain>, h: nat)
    requires BucketsOk(es, ids, buckets) && h in es && h !in ids && KeysDiffer(es, ids + {h})
    ensures var b := es[h].hash % |buckets|; BucketsOk(es, ids + {h}, buckets[b := [h] + buckets[b]])
  {
    var n, at := |buckets|, es[h].hash % |buckets|;
    var buckets' := buckets[at := [h] + buckets[at]];
    forall b | 0 <= b < n ensures ChainOk(es, ids + {h}, buckets'[b], b, n) {
      assert ChainOk(es, ids, buckets[b], b, n);
      OneMoreInChain(es, ids, buckets[b], b, n, h);
    }
  }

  lemma OneMoreInChain(es: Entries, ids: set<nat>, chain: Chain, b: nat, n: nat, h: nat)
    requires n > 0 && ChainOk(es, ids, chain, b, n) && h in es && h !in ids
    ensures es[h].hash % n != b ==> ChainOk(es, ids + {h}, chain, b, n)
    ensures es[h].hash % n == b ==>
            ChainOk(es, ids + {h}, [h] + chain, b, n) && ChainOk(es, ids + {h}, chain + [h], b, n)
  {
    assert h !in chain;
    if es[h].hash % n == b {
      var front, back := [h] + chain, chain + [h];
      forall i, j | 0 <= i < j < |front|
        ensures front[i] != front[j]
      {
        assert front[j] == chain[j - 1] && chain[j - 1] in chain;
      }
      forall i, j | 0 <= i < j < |back| ensures back[i] != back[j] { assert back[i] == chain[i] && chain[i] in chain; }
    }
  }

  lemma PushBack(es: Entries, ids: set<nat>, buckets: seq<Chain>, h: nat)
    requires BucketsOk(es, ids, buckets) && h in es && h !in ids && KeysDiffer(es, ids + {h})
    ensures var b := es[h].hash % |buckets|; BucketsOk(es, ids + {h}, buckets[b := buckets[b] + [h]])
  {
    var n, at := |buckets|, es[h].hash % |buckets|;
    var buckets' := buckets[at := buckets[at] + [h]];
    forall b | 0 <= b < n ensures ChainOk(es, ids + {h}, buckets'[b], b, n) {
      assert ChainOk(es, ids, buckets[b], b, n);
      OneMoreInChain(es, ids, buckets[b], b, n, h);
    }
  }

  function Swapped(chain: Chain, i: nat, h: nat): Chain
    requires i < |chain|
  {
    chain[i := h]
  }

  function Without(chain: Chain, i: nat): Chain
    requires i < |chain|
  {
    chain[..i] + chain[i + 1..]
  }

  lemma WithoutIs(chain: Chain, i: nat)
    requires NoRepeat(chain) && i < |chain|
    ensures NoRepeat(Without(chain, i)) && forall h :: h in Without(chain, i) <==> h in chain && h != chain[i]
  {
    var rest := Without(chain, i);
    forall j, k | 0 <= j < k < |rest| ensures rest[j] != rest[k] {
      var j', k' := if j < i then j else j + 1, if k < i then k else k + 1;
      assert rest[j] == chain[j'] && rest[k] == chain[k'];
    }
    forall h ensures h in rest <==> h in chain && h != chain[i] {
      if h in rest {
        var j :| 0 <= j < |rest| && rest[j] == h;
        assert rest[j] == chain[if j < i then j else j + 1];
      }
      if h in chain && h != chain[i] {
        var j :| 0 <= j < |chain| && chain[j] == h;
        assert rest[if j < i then j else j - 1] == h;
      }
    }
  }

  lemma DropOne(es: Entries, ids: set<nat>, buckets: seq<Chain>, b: nat, i: nat)
    requires BucketsOk(es, ids, buckets) && b < |buckets| && i < |buckets[b]|
    ensures BucketsOk(es, ids - {buckets[b][i]}, buckets[b := Without(buckets[b], i)]) && buckets[b][i] in ids
  {
    hide Without;
    var n, h := |buckets|, buckets[b][i];
    assert ChainOk(es, ids, buckets[b], b, n) && h in buckets[b];
    WithoutIs(buckets[b], i);
    var buckets' := buckets[b := Without(buckets[b], i)];
    forall c | 0 <= c < n ensures ChainOk(es, ids - {h}, buckets'[c], c, n) {
      assert ChainOk(es, ids, buckets[c], c, n);
    }
  }

  /** The new handle takes the place of the one it displaces. */
  lemma SwapOne(es: Entries, ids: set<nat>, buckets: seq<Chain>, b: nat, i: nat, h: nat)
    requires BucketsOk(es, ids, buckets) && b < |buckets| && i < |buckets[b]| && h in es && h !in ids
    requires Matches(es, buckets[b][i], es[h].key, es[h].hash)
    ensures buckets[b][i] in ids && BucketsOk(es, ids - {buckets[b][i]} + {h}, buckets[b := Swapped(buckets[b], i, h)])
  {
    var n, was := |buckets|, buckets[b][i];
    assert ChainOk(es, ids, buckets[b], b, n) && was in buckets[b];
    var ids', buckets' := ids - {was} + {h}, buckets[b := Swapped(buckets[b], i, h)];
    forall c | 0 <= c < n ensures ChainOk(es, ids', buckets'[c], c, n) {
      assert ChainOk(es, ids, buckets[c], c, n);
      if c == b { SwapInChain(es, ids, buckets[b], b, n, i, h); }
    }
  }

  lemma SwapInChain(es: Entries, ids: set<nat>, chain: Chain, b: nat, n: nat, i: nat, h: nat)
    requires n > 0 && ChainOk(es, ids, chain, b, n) && i < |chain| && h in es && h !in ids && es[h].hash % n == b
    ensures ChainOk(es, ids - {chain[i]} + {h}, Swapped(chain, i, h), b, n)
  {
    var c := Swapped(chain, i, h);
    assert h !in chain;
    forall g ensures g in c <==> g == h || (g in chain && g != chain[i]) {
      if g in c { var j :| 0 <= j < |c| && c[j] == g; }
      if g == h { assert c[i] == h; }
      if g in chain && g != chain[i] {
        var j :| 0 <= j < |chain| && chain[j] == g;
        assert c[j] == g;
      }
    }
  }

  lemma NewKey(es: Entries, ids: set<nat>, h: nat)
    requires KeysDiffer(es, ids) && h in es && forall g :: g in ids ==> !Matches(es, g, es[h].key, es[h].hash)
    ensures KeysDiffer(es, ids + {h})
  {
  }

  lemma SwapCount(ids: set<nat>, a: nat, h: nat)
    requires a in ids && h !in ids
    ensures |ids - {a} + {h}| == |ids|
  {
  }

  class HandleTable {
    var buckets: seq<Chain>
    var elems: nat
    ghost var ids: set<nat>

    ghost predicate Valid(es: Entries)
      reads this
    {
      BucketsOk(es, ids, buckets) && elems == |ids|
    }

    constructor ()
      ensures Valid(map[]) && ids == {}
    {
      buckets := seq(4, _ => []);
      elems, ids := 0, {};
    }

    /** FindPointer. */
    method Find(es: Entries, key: Buffer, hash: nat) returns (b: nat, i: nat)
      requires Valid(es)
      ensures b < |buckets| && b == hash % |buckets| && i <= |buckets[b]|
      ensures i < |buckets[b]| ==> Matches(es, buckets[b][i], key, hash) && buckets[b][i] in ids
      ensures i == |buckets[b]| ==> forall h :: h in ids ==> !Matches(es, h, key, hash)
    {
      b := hash % |buckets|;
      var chain := buckets[b];
      i := 0;
      while i < |chain| && !Matches(es, chain[i], key, hash)
        invariant i <= |chain| && forall j :: 0 <= j < i ==> !Matches(es, chain[j], key, hash)
      {
        i := i + 1;
      }
      assert ChainOk(es, ids, chain, b, |buckets|);
      if i < |chain| { assert chain[i] in chain; }
      if i == |chain| {
        forall h | h in ids ensures !Matches(es, h, key, hash) {
          if h in chain { var j :| 0 <= j < |chain| && chain[j] == h; }
        }
      }
    }

    method Lookup(es: Entries, key: Buffer, hash: nat) returns (r: Option<nat>)
      requires Valid(es)
      ensures r.Some? ==> r.value in ids && Matches(es, r.value, key, hash)
      ensures r.None? ==> forall h :: h in ids ==> !Matches(es, h, key, hash)
    {
      var b, i := Find(es, key, hash);
      r := if i < |buckets[b]| then Some(buckets[b][i]) else None;
    }

    /** Insert: the handle with the same key, if any, is displaced and returned. */
    method Insert(es: Entries, h: nat) returns (was: Option<nat>)
      requires Valid(es) && h in es && h !in ids
      modifies this
      ensures Valid(es)
      ensures was.Some? ==>
              was.value in old(ids) && Matches(es, was.value, es[h].key, es[h].hash)
              && ids == old(ids) - {was.value} + {h}
      ensures was.None? ==>
              (forall g :: g in old(ids) ==> !Matches(es, g, es[h].key, es[h].hash)) && ids == old(ids) + {h}
    {
      hide ChainOk;
      hide KeysDiffer;
      var b, i := Find(es, es[h].key, es[h].hash);
      if i < |buckets[b]| {
        SwapOne(es, ids, buckets, b, i, h);
        SwapCount(ids, buckets[b][i], h);
        was := Some(buckets[b][i]);
        buckets, ids := buckets[b := Swapped(buckets[b], i, h)], ids - {was.value} + {h};
        return;
      }
      was := None;
      NewKey(es, ids, h);
      PushBack(es, ids, buckets, h);
      buckets, ids, elems := buckets[b := buckets[b] + [h]], ids + {h}, elems + 1;
      if elems > |buckets| {
        Resize(es);
      }
    }

    method Remove(es: Entries, key: Buffer, hash: nat) returns (was: Option<nat>)
      requires Valid(es)
      modifies this
      ensures Valid(es)
      ensures was.Some? ==> was.value in old(ids) && Matches(es, was.value, key, hash) && ids == old(ids) - {was.value}
      ensures was.None? ==> (forall h :: h in ids ==> !Matches(es, h, key, hash)) && ids == old(ids)
    {
      var b, i := Find(es, key, hash);
      if i == |buckets[b]| {
        return None;
      }
      DropOne(es, ids, buckets, b, i);
      was := Some(buckets[b][i]);
      buckets, ids, elems := buckets[b := Without(buckets[b], i)], ids - {was.value}, elems - 1;
    }

    /** Resize: every handle moves to the front of its new chain; none is lost or doubled. */
    method Resize(es: Entries)
      requires Valid(es)
      modifies this
      ensures Valid(es) && ids == old(ids) && elems == old(elems) && elems <= |buckets|
    {
      var length := 4;
      while length < elems
        invariant length >= 4
      {
        length := length * 2;
      }
      var list: seq<Chain> := seq(length, _ => []);
      ghost var moved: set<nat> := {};
      NoneMoved(es, list);
      for i := 0 to |buckets|
        invariant Valid(es) && ids == old(ids) && elems == old(elems) && buckets == old(buckets)
        invariant |list| == length && BucketsOk(es, moved, list) && MovedUpTo(buckets, moved, i)
      {
        list, moved := MoveChain(es, list, i, moved);
      }
      AllMoved(es, ids, buckets, moved);
      buckets := list;
    }

    method MoveChain(es: Entries, list: seq<Chain>, i: nat, ghost moved: set<nat>)
                     returns (list': seq<Chain>, ghost moved': set<nat>)
      requires Valid(es) && i < |buckets| && BucketsOk(es, moved, list) && MovedUpTo(buckets, moved, i)
      ensures |list'| == |list| && BucketsOk(es, moved', list') && MovedUpTo(buckets, moved', i + 1)
    {
      list', moved' := list, moved;
      for k := 0 to |buckets[i]|
        invariant |list'| == |list| && BucketsOk(es, moved', list') && MovedInto(buckets, moved', i, k)
      {
        var h := buckets[i][k];
        NextMoves(es, ids, buckets, moved', i, k);
        PushFront(es, moved', list', h);
        var b := es[h].hash % |list'|;
        list', moved' := list'[b := [h] + list'[b]], moved' + {h};
      }
    }
  }

  /** The handles of the first `i` chains, and of the next one those before `k`. */
  ghost predicate MovedInto(buckets: seq<Chain>, moved: set<nat>, i: nat, k: nat)
    requires i < |buckets|
  {
    forall h :: h in moved <==>
        (exists b :: 0 <= b < i && h in buckets[b])
        || (exists j :: 0 <= j < k && j < |buckets[i]| && buckets[i][j] == h)
  }

  ghost predicate MovedUpTo(buckets: seq<Chain>, moved: set<nat>, i: nat)
    requires i <= |buckets|
  {
    forall h :: h in moved <==> exists b :: 0 <= b < i && h in buckets[b]
  }

  lemma NoneMoved(es: Entries, list: seq<Chain>)
    requires |list| > 0 && forall b :: 0 <= b < |list| ==> list[b] == []
    ensures BucketsOk(es, {}, list)
  {
    forall b | 0 <= b < |list| ensures ChainOk(es, {}, list[b], b, |list|) { }
  }

  lemma AllMoved(es: Entries, ids: set<nat>, buckets: seq<Chain>, moved: set<nat>)
    requires BucketsOk(es, ids, buckets) && MovedUpTo(buckets, moved, |buckets|)
    ensures moved == ids
  {
    forall h ensures h in moved <==> h in ids {
      if h in moved {
        var b :| 0 <= b < |buckets| && h in buckets[b];
        assert ChainOk(es, ids, buckets[b], b, |buckets|);
      }
      if h in ids { assert ChainOk(es, ids, buckets[es[h].hash % |buckets|], es[h].hash % |buckets|, |buckets|); }
    }
  }

  lemma NextMoves(es: Entries, ids: set<nat>, buckets: seq<Chain>, moved: set<nat>, i: nat, k: nat)
    requires BucketsOk(es, ids, buckets) && i < |buckets| && k < |buckets[i]| && MovedInto(buckets, moved, i, k)
    ensures var h := buckets[i][k];
            h in es && h !in moved && KeysDiffer(es, moved + {h}) && MovedInto(buckets, moved + {h}, i, k + 1)
  {
    var h := buckets[i][k];
    assert ChainOk(es, ids, buckets[i], i, |buckets|) && h in buckets[i];
    forall g | g in moved ensures g in ids {
      if b :| 0 <= b < i && g in buckets[b] {
        assert ChainOk(es, ids, buckets[b], b, |buckets|);
      } else {
        assert g in buckets[i];
      }
    }
    assert MovedInto(buckets, moved + {h}, i, k + 1);
  }
}
