/** TwoLevelIterator: one cursor over the concatenation of the blocks behind an index
    (two_level_iterator.cc). */
module TwoLevelIterators {
  import opened InternalKeys
  import opened Cursors
  import opened Options

  type BlockFunction = Bytes -> seq<Entry>

  /** All entries of the blocks behind index entries `[0, n)`. */
  function Concat(index: seq<Entry>, block: BlockFunction, n: nat): seq<Entry>
    requires n <= |index|
  {
    if n == 0 then [] else Concat(index, block, n - 1) + block(index[n - 1].value)
  }

  function All(index: seq<Entry>, block: BlockFunction): seq<Entry> { Concat(index, block, |index|) }

  function Offset(index: seq<Entry>, block: BlockFunction, n: nat): nat
    requires n <= |index|
  {
    |Concat(index, block, n)|
  }

  /** An index key is at or after everything in its block and before everything in later blocks. */
  ghost predicate Separates(index: seq<Entry>, block: BlockFunction) {
    && Sorted(index)
    && (forall i :: 0 <= i < |index| ==> Sorted(block(index[i].value)))
    && (forall i, e :: 0 <= i < |index| && e in block(index[i].value) ==> AtOrAfter(index[i].key, e.key))
    && (forall i, j, e :: 0 <= i < j < |index| && e in block(index[j].value) ==> Before(index[i].key, e.key))
  }

  lemma {:induction false} ConcatPrefix(index: seq<Entry>, block: BlockFunction, i: nat, n: nat)
    requires i <= n <= |index|
    ensures Concat(index, block, i) <= Concat(index, block, n)
  {
    if i < n { ConcatPrefix(index, block, i, n - 1); }
  }

  /** Entry `k` of block `i` is entry `Offset(i) + k` of the whole. */
  lemma EntryAt(index: seq<Entry>, block: BlockFunction, i: nat, k: nat)
    requires i < |index| && k < |block(index[i].value)|
    ensures Offset(index, block, i) + k < |All(index, block)|
    ensures All(index, block)[Offset(index, block, i) + k] == block(index[i].value)[k]
  {
    ConcatPrefix(index, block, i + 1, |index|);
    assert Concat(index, block, i + 1)[Offset(index, block, i) + k] == block(index[i].value)[k];
  }

  lemma {:induction false} EntryIn(index: seq<Entry>, block: BlockFunction, n: nat, e: Entry) returns (i: nat)
    requires n <= |index| && e in Concat(index, block, n)
    ensures i < n && e in block(index[i].value)
  {
    if e in block(index[n - 1].value) {
      i := n - 1;
    } else {
      i := EntryIn(index, block, n - 1, e);
    }
  }

  lemma JoinSorted(a: seq<Entry>, b: seq<Entry>)
    requires Sorted(a) && Sorted(b) && forall x, y :: x in a && y in b ==> Before(x.key, y.key)
    ensures Sorted(a + b)
  {
    forall i, j | 0 <= i < j < |a + b| ensures Before((a + b)[i].key, (a + b)[j].key) {
      if j < |a| {
        assert Before(a[i].key, a[j].key);
      } else if i >= |a| {
        assert Before(b[i - |a|].key, b[j - |a|].key);
      } else {
        assert a[i] in a && b[j - |a|] in b;
      }
    }
  }

  /** The whole is sorted. */
  lemma {:induction false} ConcatSorted(index: seq<Entry>, block: BlockFunction, n: nat)
    requires Separates(index, block) && n <= |index|
    ensures Sorted(Concat(index, block, n))
  {
    if n > 0 {
      ConcatSorted(index, block, n - 1);
      forall x, y | x in Concat(index, block, n - 1) && y in block(index[n - 1].value) ensures Before(x.key, y.key) {
        var i := EntryIn(index, block, n - 1, x);
        assert AtOrAfter(index[i].key, x.key) && Before(index[i].key, y.key);
      }
      JoinSorted(Concat(index, block, n - 1), block(index[n - 1].value));
    }
  }

  /** Seeking the index and then its block is seeking the whole. */
  lemma SeekInBlock(index: seq<Entry>, block: BlockFunction, target: InternalKey, i: nat, k: nat)
    requires Separates(index, block) && IsSeek(index, target, i) && i < |index|
             && IsSeek(block(index[i].value), target, k)
    ensures IsSeek(All(index, block), target, Offset(index, block, i) + k)
  {
    var all, at := All(index, block), Offset(index, block, i) + k;
    ConcatPrefix(index, block, i + 1, |index|);
    forall j | 0 <= j < |all|
      ensures j < at <==> Before(all[j].key, target)
    {
      SeekSide(index, block, target, i, k, j);
    }
  }

  lemma SeekSide(index: seq<Entry>, block: BlockFunction, target: InternalKey, i: nat, k: nat, j: nat)
    requires Separates(index, block) && IsSeek(index, target, i) && i < |index|
             && IsSeek(block(index[i].value), target, k)
    requires j < |All(index, block)|
    ensures j < Offset(index, block, i) + k <==> Before(All(index, block)[j].key, target)
  {
    hide Sorted;
    var b, m := BlockOf(index, block, |index|, j);
    EntryAt(index, block, b, m);
    hide Separates;
    var e := block(index[b].value)[m];
    if b < i {
      ConcatPrefix(index, block, b + 1, i);
      EarlierBlock(index, block, target, i, b, e);
    } else if b > i {
      ConcatPrefix(index, block, i + 1, b);
      LaterBlock(index, block, target, i, b, e);
    } else {
      assert m < k <==> Before(e.key, target);
    }
  }

  lemma EarlierBlock(index: seq<Entry>, block: BlockFunction, target: InternalKey, i: nat, b: nat, e: Entry)
    requires Separates(index, block) && IsSeek(index, target, i) && b < i && e in block(index[b].value)
    ensures Before(e.key, target)
  {
    hide Sorted;
    assert Before(index[b].key, target);
  }

  lemma LaterBlock(index: seq<Entry>, block: BlockFunction, target: InternalKey, i: nat, b: nat, e: Entry)
    requires Separates(index, block) && IsSeek(index, target, i) && i < b < |index| && e in block(index[b].value)
    ensures AtOrAfter(e.key, target)
  {
    hide Sorted;
    assert AtOrAfter(index[i].key, target);
  }

  lemma {:induction false} BlockOf(index: seq<Entry>, block: BlockFunction, n: nat, j: nat) returns (i: nat, k: nat)
    requires n <= |index| && j < |Concat(index, block, n)|
    ensures i < n && k < |block(index[i].value)| && j == Offset(index, block, i) + k
  {
    if j < Offset(index, block, n - 1) {
      i, k := BlockOf(index, block, n - 1, j);
    } else {
      i, k := n - 1, j - Offset(index, block, n - 1);
    }
  }

  lemma SeekPastIndex(index: seq<Entry>, block: BlockFunction, target: InternalKey)
    requires Separates(index, block) && IsSeek(index, target, |index|)
    ensures IsSeek(All(index, block), target, |All(index, block)|)
  {
    var all := All(index, block);
    forall j | 0 <= j < |all| ensures Before(all[j].key, target) {
      var i := EntryIn(index, block, |index|, all[j]);
      assert Before(index[i].key, target);
    }
  }

  // ---------- the iterator ----------

  /** Going forward, the next entry to yield is number `q` of the whole. */
  ghost predicate Forward(index: seq<Entry>, block: BlockFunction, i: nat, data: Option<nat>, q: nat) {
    && i <= |index|
    && match data
       case None => i == |index| && q == Offset(index, block, i)
       case Some(at) => i < |index| && at <= |block(index[i].value)| && q == Offset(index, block, i) + at
  }

  /** Going back, the next entry to yield is number `q - 1`; a cursor that fell off the front of its
      block is at the same invalid position as one that fell off its end. */
  ghost predicate Reverse(index: seq<Entry>, block: BlockFunction, i: nat, data: Option<nat>, q: nat) {
    && i <= |index|
    && match data
       case None => i == |index| && q == 0
       case Some(at) => i < |index| && at <= |block(index[i].value)| &&
                        q == Offset(index, block, i) + (if at < |block(index[i].value)| then at + 1 else 0)
  }

  class TwoLevelIterator {
    const index: Cursor
    const block: BlockFunction
    var data: Cursor?
    var dataHandle: Bytes

    ghost function Repr(): set<object>
      reads this
    {
      {this, index} + if data == null then {} else {data}
    }

    /** A data cursor runs over the block of its handle. */
    ghost predicate Loaded()
      reads Repr()
    {
      && index.Ok() && Separates(index.entries, block)
      && (data != null ==> data != index && data.Ok() && data.entries == block(dataHandle))
    }

    /** There is a data cursor exactly when the index is valid, and it runs over the indexed block. */
    ghost predicate Linked()
      reads Repr()
    {
      Loaded() && (data == null <==> !index.Valid()) && (data != null ==> dataHandle == index.Item())
    }

    ghost predicate Ok()
      reads Repr()
    {
      Loaded() && (data != null ==> Linked() && data.Valid())
    }

    ghost function DataAt(): Option<nat>
      reads Repr()
    {
      if data == null then None else Some(data.at)
    }

    /** The position in the concatenation; its length when invalid. */
    ghost function Place(): nat
      reads Repr()
      requires Ok()
    {
      if data == null then |All(index.entries, block)| else Offset(index.entries, block, index.at) + data.at
    }

    constructor (index: Cursor, block: BlockFunction)
      requires index.Ok() && Separates(index.entries, block)
      ensures Ok() && data == null && this.index == index && this.block == block
    {
      this.index, this.block := index, block;
      data, dataHandle := null, [];
    }

    predicate Valid()
      reads Repr()
    {
      data != null && data.Valid()
    }

    function Key(): InternalKey
      reads Repr()
      requires Ok() && Valid()
      ensures Place() < |All(index.entries, block)| && Key() == All(index.entries, block)[Place()].key
    {
      EntryAt(index.entries, block, index.at, data.at);
      data.Key()
    }

    function Item(): Bytes
      reads Repr()
      requires Ok() && Valid()
      ensures Place() < |All(index.entries, block)| && Item() == All(index.entries, block)[Place()].value
    {
      EntryAt(index.entries, block, index.at, data.at);
      data.Item()
    }

    /** Open the block of the current index entry, unless it is open already. */
    method InitDataBlock()
      requires Loaded()
      modifies this
      ensures Linked() && fresh(Repr() - old(Repr()))
    {
      if !index.Valid() {
        data := null;
      } else {
        var handle := index.Item();
        if data != null && handle == dataHandle {
        } else {
          assert Sorted(block(index.entries[index.at].value));
          data := new Cursor(block(handle));
          dataHandle := handle;
        }
      }
    }

    method EnterNextBlock(ghost q: nat)
      requires Linked() && data != null && !data.Valid() && Forward(index.entries, block, index.at, DataAt(), q)
      modifies Repr()
      ensures Linked() && Forward(index.entries, block, index.at, DataAt(), q)
      ensures index.at == old(index.at) + 1 && fresh(Repr() - old(Repr()))
    {
      index.Next();
      InitDataBlock();
      if data != null {
        data.SeekToFirst();
      }
    }

    method SkipEmptyDataBlocksForward(ghost q: nat)
      requires Linked() && Forward(index.entries, block, index.at, DataAt(), q)
      modifies Repr()
      ensures Ok() && Place() == q && fresh(Repr() - old(Repr()))
    {
      hide Separates;
      hide Sorted;
      while data == null || !data.Valid()
        invariant Linked() && Forward(index.entries, block, index.at, DataAt(), q)
        invariant fresh(Repr() - old(Repr()))
        decreases |index.entries| - index.at
      {
        if !index.Valid() {
          data := null;
          return;
        }
        EnterNextBlock(q);
      }
    }

    method SkipEmptyDataBlocksBackward(ghost q: nat)
      requires Linked() && Reverse(index.entries, block, index.at, DataAt(), q)
      modifies Repr()
      ensures Ok() && Place() == (if q == 0 then |All(index.entries, block)| else q - 1) && fresh(Repr() - old(Repr()))
    {
      hide Separates;
      hide Sorted;
      while data == null || !data.Valid()
        invariant Linked() && Reverse(index.entries, block, index.at, DataAt(), q)
        invariant fresh(Repr() - old(Repr()))
        decreases if index.Valid() then index.at + 1 else 0
      {
        if !index.Valid() {
          data := null;
          return;
        }
        index.Prev();
        InitDataBlock();
        if data != null {
          data.SeekToLast();
        }
      }
    }

    method Seek(target: InternalKey)
      requires Ok()
      modifies Repr()
      ensures Ok() && IsSeek(All(index.entries, block), target, Place()) && fresh(Repr() - old(Repr()))
    {
      index.Seek(target);
      InitDataBlock();
      if data != null {
        data.Seek(target);
        SeekInBlock(index.entries, block, target, index.at, data.at);
        SkipEmptyDataBlocksForward(Offset(index.entries, block, index.at) + data.at);
      } else {
        SeekPastIndex(index.entries, block, target);
        SkipEmptyDataBlocksForward(Offset(index.entries, block, index.at));
      }
    }

    method SeekToFirst()
      requires Ok()
      modifies Repr()
      ensures Ok() && Place() == 0 && fresh(Repr() - old(Repr()))
    {
      index.SeekToFirst();
      InitDataBlock();
      if data != null {
        data.SeekToFirst();
      }
      SkipEmptyDataBlocksForward(0);
    }

    method SeekToLast()
      requires Ok()
      modifies Repr()
      ensures Ok() && fresh(Repr() - old(Repr()))
      ensures Place() == if All(index.entries, block) == [] then 0 else |All(index.entries, block)| - 1
    {
      index.SeekToLast();
      InitDataBlock();
      if data != null {
        data.SeekToLast();
      }
      SkipEmptyDataBlocksBackward(|All(index.entries, block)|);
    }

    method Next()
      requires Ok() && Valid()
      modifies Repr()
      ensures Ok() && Place() == old(Place()) + 1 && fresh(Repr() - old(Repr()))
    {
      ghost var q := Place();
      data.Next();
      SkipEmptyDataBlocksForward(q + 1);
    }

    method Prev()
      requires Ok() && Valid()
      modifies Repr()
      ensures Ok() && fresh(Repr() - old(Repr()))
      ensures Place() == if old(Place()) == 0 then |All(index.entries, block)| else old(Place()) - 1
    {
      ghost var q := Place();
      data.Prev();
      SkipEmptyDataBlocksBackward(q);
    }
  }
}
