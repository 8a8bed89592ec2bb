/** BlockBuilder (table/block_builder.cc). */
module BlockBuilding {
  import opened Coding
  import opened BlockFormat

  class BlockBuilder {
    const interval: nat
    var buffer: Buffer
    var restarts: seq<nat>
    var counter: nat
    var finished: bool
    var lastKey: Buffer
    ghost var entries: seq<Pair>

    ghost predicate Valid()
      reads this
    {
      && interval >= 1
      && (finished ==> buffer == BlockImage(entries, interval))
      && (!finished ==>
            && buffer == Data(entries, interval, |entries|) && restarts == Restarts(entries, interval)
            && counter == Counter(interval, |entries|) && lastKey == LastKey(entries))
    }

    constructor (interval: nat)
      requires interval >= 1
      ensures Valid() && !finished && entries == [] && this.interval == interval
    {
      this.interval := interval;
      buffer, restarts, counter, finished, lastKey, entries := [], [0], 0, false, [], [];
      new;
      assert Restarts([], interval) == [0];
    }

    method Reset()
      requires Valid()
      modifies this
      ensures Valid() && !finished && entries == []
    {
      buffer, restarts, counter, finished, lastKey, entries := [], [0], 0, false, [], [];
      assert Restarts([], interval) == [0];
    }

    method Add(key: Buffer, value: Buffer)
      requires Valid() && !finished && |key| < WORD32 && |value| < WORD32
      modifies this
      ensures Valid() && !finished && entries == old(entries) + [Pair(key, value)]
    {
      hide Data;
      hide Counter;
      hide Restarts;
      hide Common;
      hide Head;
      ghost var longer := entries + [Pair(key, value)];
      AddFacts(entries, Pair(key, value), interval);
      var shared: nat := 0;
      if counter < interval {
        shared := SharedLength(lastKey, key);
      } else {
        restarts := restarts + [|buffer|];
        counter := 0;
      }
      var nonShared := |key| - shared;
      var head := EncodeHead(shared, nonShared, |value|);
      buffer := buffer + (head + key[shared..] + value);
      lastKey := lastKey[..shared] + key[shared..];
      counter := counter + 1;
      entries := longer;
    }

    /** Append the restart points. */
    method Finish() returns (block: Buffer)
      requires Valid() && !finished
      modifies this
      ensures Valid() && finished && entries == old(entries) && block == BlockImage(entries, interval)
    {
      hide Data;
      hide Restarts;
      hide Counter;
      ghost var data := buffer;
      var i := 0;
      while i < |restarts|
        invariant i <= |restarts| && buffer == data + Table(restarts[..i])
        invariant restarts == old(restarts) && entries == old(entries) && finished == old(finished)
      {
        buffer := buffer + Fixed(4, restarts[i]);
        i := i + 1;
        assert restarts[..i][..i - 1] == restarts[..i - 1];
      }
      assert restarts[..|restarts|] == restarts;
      buffer := buffer + Fixed(4, |restarts|);
      finished := true;
      block := buffer;
    }
  }

  function LastKey(es: seq<Pair>): Buffer { if es == [] then [] else es[|es| - 1].key }

  method EncodeHead(shared: nat, nonShared: nat, valueSize: nat) returns (head: Buffer)
    requires shared < WORD32 && nonShared < WORD32 && valueSize < WORD32
    ensures head == Head(shared, nonShared, valueSize)
  {
    var a := EncodeVarint32(shared);
    var b := EncodeVarint32(nonShared);
    var c := EncodeVarint32(valueSize);
    head := a + b + c;
  }

  /** The scan for the shared prefix. */
  method SharedLength(a: Buffer, b: Buffer) returns (shared: nat)
    ensures shared == Common(a, b)
  {
    var minLength := if |a| < |b| then |a| else |b|;
    shared := 0;
    assert a[0..] == a && b[0..] == b;
    while shared < minLength && a[shared] == b[shared]
      invariant shared <= minLength && shared + Common(a[shared..], b[shared..]) == Common(a, b)
    {
      assert a[shared..][1..] == a[shared + 1..] && b[shared..][1..] == b[shared + 1..];
      shared := shared + 1;
    }
  }

  lemma {:induction false} DataAppend(es: seq<Pair>, e: Pair, interval: nat, n: nat)
    requires n <= |es|
    ensures Data(es + [e], interval, n) == Data(es, interval, n)
  {
    hide Varint;
    hide Counter;
    hide Head;
    if n > 0 { DataAppend(es, e, interval, n - 1); }
  }

  lemma PieceAdded(es: seq<Pair>, e: Pair, interval: nat)
    requires interval >= 1
    ensures var all, n := es + [e], |es|;
            var shared := if Counter(interval, n) < interval then Common(LastKey(es), e.key) else 0;
            && Piece(all, interval, n) == Head(shared, |e.key| - shared, |e.value|) + e.key[shared..] + e.value
            && LastKey(es)[..shared] + e.key[shared..] == LastKey(all)
  {
    hide Head;
    var all := es + [e];
    assert all[|es|] == e && (es != [] ==> all[|es| - 1] == es[|es| - 1]);
    var shared := if Counter(interval, |es|) < interval then Common(LastKey(es), e.key) else 0;
    assert e.key == e.key[..shared] + e.key[shared..];
  }

  lemma RestartsAdded(es: seq<Pair>, e: Pair, interval: nat)
    requires interval >= 1
    ensures Restarts(es + [e], interval) == Restarts(es, interval) +
              (if Counter(interval, |es|) < interval then [] else [Offset(es, interval, |es|)])
  {
    hide Data;
    var all, n := es + [e], |es|;
    StartsIncrease(interval, n);
    DataAppend(es, e, interval, n);
    forall i | 0 <= i < |Starts(interval, n)|
      ensures Offset(all, interval, Starts(interval, n)[i]) == Offset(es, interval, Starts(interval, n)[i])
    {
      DataAppend(es, e, interval, Starts(interval, n)[i]);
    }
  }

  /** What one more entry adds to the block. */
  lemma AddFacts(es: seq<Pair>, e: Pair, interval: nat)
    requires interval >= 1
    ensures var all, n := es + [e], |es|;
            var shared := if Counter(interval, n) < interval then Common(LastKey(es), e.key) else 0;
            && Data(all, interval, n + 1) ==
                 Data(es, interval, n) + (Head(shared, |e.key| - shared, |e.value|) + e.key[shared..] + e.value)
            && Counter(interval, n + 1) == (if Counter(interval, n) < interval then Counter(interval, n) + 1 else 1)
            && LastKey(es)[..shared] + e.key[shared..] == LastKey(all)
            && Restarts(all, interval) == Restarts(es, interval) +
                 (if Counter(interval, n) < interval then [] else [Offset(es, interval, n)])
  {
    hide Restarts;
    hide Piece;
    hide Head;
    DataAppend(es, e, interval, |es|);
    PieceAdded(es, e, interval);
    RestartsAdded(es, e, interval);
  }
}
