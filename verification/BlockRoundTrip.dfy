/** Building a block and reading it back. */
module BlockRoundTrip {
  import opened Coding
  import opened BlockFormat
  import opened BlockBuilding
  import opened BlockReading

  method Build(es: seq<Pair>, interval: nat) returns (block: Buffer)
    requires interval >= 1 && forall i :: 0 <= i < |es| ==> |es[i].key| < WORD32 && |es[i].value| < WORD32
    ensures block == BlockImage(es, interval)
  {
    hide BlockImage;
    hide Data;
    hide Starts;
    var builder := new BlockBuilder(interval);
    for i := 0 to |es|
      invariant builder.Valid() && !builder.finished && builder.interval == interval && builder.entries == es[..i]
    {
      builder.Add(es[i].key, es[i].value);
      assert es[..i] + [es[i]] == es[..i + 1];
    }
    assert es[..|es|] == es;
    block := builder.Finish();
  }

  /** Iterating a finished block yields exactly the pairs that were added, in order. */
  method BuildAndScan(es: seq<Pair>, interval: nat, less: Less) returns (found: seq<Pair>, corrupted: bool)
    requires interval >= 1 && forall i :: 0 <= i < |es| ==> |es[i].key| < WORD32 && |es[i].value| < WORD32
    requires |BlockImage(es, interval)| < WORD32
    ensures found == es && !corrupted
  {
    hide BlockIter.MovedTo;
    hide BlockImage;
    hide Data;
    hide Starts;
    var block := Build(es, interval);
    TrailerOfImage(es, interval);
    var trailer := ParseTrailer(block);
    var iter := new BlockIter(block, trailer.restartsAt, trailer.count, less, es, interval);
    BuiltFrom(iter, es, interval);
    iter.SeekToFirst();
    found := [];
    while iter.Valid()
      invariant iter.Ok() && iter.Built() && iter.entries == es && iter.at == |found| <= |es| && found == es[..|found|]
      invariant !iter.corrupted && (iter.Valid() <==> iter.at < |es|)
      decreases |es| - iter.at
    {
      found := found + [Pair(iter.key, iter.Item())];
      iter.Next();
      AtMeansValid(iter);
    }
    corrupted := iter.corrupted;
  }

  lemma BuiltFrom(iter: BlockIter, es: seq<Pair>, interval: nat)
    requires iter.data == BlockImage(es, interval) && |BlockImage(es, interval)| < WORD32 && iter.entries == es
             && iter.interval == interval
    requires iter.restarts == Offset(es, interval, |es|) && iter.numRestarts == |Restarts(es, interval)|
    requires forall i :: 0 <= i < |es| ==> |es[i].key| < WORD32
    ensures iter.Built()
  {
  }

  lemma AtMeansValid(iter: BlockIter)
    requires iter.Ok() && iter.Built()
    ensures iter.Valid() <==> iter.at < |iter.entries|
  {
  }

  // ---------- any block ----------

  /** The pairs that stand in the data part of a block one after the other, from `p` on and behind an entry with this
      key, and whether they go on to its end. */
  function PairsFrom(data: Buffer, restarts: nat, p: nat, key: Buffer): (seq<Pair>, bool)
    requires restarts <= |data|
    decreases if p < restarts then restarts - p else 0
  {
    if p >= restarts then ([], true)
    else match EntryBehind(data, restarts, p, key)
      case None => ([], false)
      case Some(e) =>
        var (more, whole) := PairsFrom(data, restarts, e.valueAt + e.valueSize, e.key);
        ([Pair(e.key, data[e.valueAt..e.valueAt + e.valueSize])] + more, whole)
  }

  /** What is still to come from where the iterator stands. */
  ghost function ToCome(iter: BlockIter): (seq<Pair>, bool)
    reads iter
    requires iter.Ok()
  {
    if !iter.Valid() then ([], !iter.corrupted)
    else
      var (more, whole) := PairsFrom(iter.data, iter.restarts, iter.valueAt + iter.valueSize, iter.key);
      ([Pair(iter.key, iter.Item())] + more, whole)
  }

  lemma MovedIsToCome(iter: BlockIter, p: nat, key: Buffer)
    requires iter.Ok() && iter.MovedTo(p, key, false)
    ensures ToCome(iter) == PairsFrom(iter.data, iter.restarts, p, key)
  {
    hide EntryBehind;
    hide EntryAt;
    hide BlockIter.Built;
  }

  /** Whatever a block holds, an iterator shows the pairs that stand in it one after the other, and reports corruption
      exactly if they break off before its end. */
  method ScanBlock(block: Buffer, less: Less) returns (found: seq<Pair>, corrupted: bool)
    requires ParseTrailer(block).Trailer?
    ensures var t := ParseTrailer(block);
            (found, !corrupted) ==
            PairsFrom(block, t.restartsAt, FixedValue(block[t.restartsAt..t.restartsAt + 4]), [])
  {
    hide BlockIter.Built;
    hide BlockIter.MovedTo;
    hide EntryBehind;
    hide PairsFrom;
    var t := ParseTrailer(block);
    var iter := new BlockIter(block, t.restartsAt, t.count, less, [], 1);
    ghost var first := FixedValue(block[t.restartsAt..t.restartsAt + 4]);
    iter.SeekToFirst();
    MovedIsToCome(iter, first, []);
    found := [];
    ghost var all := PairsFrom(block, t.restartsAt, first, []);
    assert [] + ToCome(iter).0 == ToCome(iter).0;
    while iter.Valid()
      invariant iter.Ok() && iter.data == block && iter.restarts == t.restartsAt
      invariant iter.Valid() ==> !iter.corrupted
      invariant all == (found + ToCome(iter).0, ToCome(iter).1)
      decreases if iter.Valid() then iter.restarts - iter.current else 0
    {
      ghost var p, key, before := iter.valueAt + iter.valueSize, iter.key, found;
      found := found + [Pair(iter.key, iter.Item())];
      iter.Next();
      MovedIsToCome(iter, p, key);
      assert before + ([found[|before|]] + ToCome(iter).0) == found + ToCome(iter).0;
    }
    corrupted := iter.corrupted;
    assert found + [] == found;
  }
}
