/** TableBuilder (table/table_builder.cc): index entries are delayed until the next key is known. */
module TableBuilding {
  import opened Options
  import opened Coding
  import opened LogFormat
  import opened BlockFormat
  import opened BlockBuilding
  import opened BlockReading
  import opened Bytewise
  import opened InternalKeyBytes
  import opened BloomFilters
  import opened FilterBlocks
  import opened TableFormat
  import opened TableLookup

  // ---------- blocks written, and the one being filled ----------

  /** The blocks written and, as a last one, the entries of the block being filled. */
  function Pieces(blocks: seq<DataBlock>, data: seq<Pair>): seq<DataBlock> {
    if data == [] then blocks else blocks + [DataBlock(Handle(0, 0), data)]
  }

  /** Index entries for the first pieces. */
  ghost predicate IndexedSoFar(pieces: seq<DataBlock>, index: seq<Pair>)
    requires BlocksSorted(pieces)
  {
    && |index| <= |pieces|
    && (forall i :: 0 <= i < |index| ==>
        index[i].value == EncodeHandle(pieces[i].handle) && Separates(index[i].key, pieces[i].entries))
    && (forall i ::
       0 <= i < |index| && i + 1 < |pieces| ==> Precedes(index[i].key, pieces[i].entries, pieces[i + 1].entries[0].key))
  }

  function LastKeyOf(pieces: seq<DataBlock>): Buffer
    requires BlocksSorted(pieces)
  {
    if pieces == [] then [] else LastOf(pieces[|pieces| - 1].entries)
  }

  lemma EverythingIsBeforeLast(pieces: seq<DataBlock>, i: nat, e: Pair)
    requires BlocksSorted(pieces) && i < |pieces| && e in pieces[i].entries
    ensures !KeyLess(LastKeyOf(pieces), e.key)
  {
    var last := pieces[|pieces| - 1].entries;
    if i < |pieces| - 1 {
      assert AllLess(pieces[i].entries, last) && last[|last| - 1] in last;
      KeyLessAsymmetric(e.key, LastOf(last));
    } else {
      LastIsLast(last, e);
    }
  }

  /** A key after the last one may extend the last piece... */
  lemma ExtendPiece(blocks: seq<DataBlock>, data: seq<Pair>, e: Pair)
    requires BlocksSorted(Pieces(blocks, data)) && data != [] && TAG_SIZE <= |e.key| < WORD32
    requires KeyLess(LastOf(data), e.key)
    ensures BlocksSorted(Pieces(blocks, data + [e]))
  {
    var old_, new_ := Pieces(blocks, data), Pieces(blocks, data + [e]);
    var n := |blocks|;
    assert old_[n].entries == data && new_[n].entries == data + [e];
    assert old_[..n] == blocks && new_[..n] == blocks;
    ExtendIncreasing(data, e);
    forall i | 0 <= i < n ensures AllLess(new_[i].entries, new_[n].entries) {
      assert AllLess(old_[i].entries, old_[n].entries) && new_[i] == old_[i];
      LessOneMore(old_[i].entries, data, e);
    }
    forall i, j | 0 <= i < j < n
      ensures AllLess(new_[i].entries, new_[j].entries)
    {
      assert new_[i] == old_[i] && new_[j] == old_[j];
    }
  }

  lemma ExtendIncreasing(data: seq<Pair>, e: Pair)
    requires Increasing(data, KeyLess) && data != [] && KeyLess(LastOf(data), e.key)
    ensures Increasing(data + [e], KeyLess)
  {
    forall i | 0 <= i < |data| ensures KeyLess(data[i].key, e.key) {
      if i < |data| - 1 { KeyLessTransitive(data[i].key, LastOf(data), e.key); }
    }
  }

  lemma LessOneMore(a: seq<Pair>, data: seq<Pair>, e: Pair)
    requires AllLess(a, data) && data != [] && KeyLess(LastOf(data), e.key)
    ensures AllLess(a, data + [e])
  {
    forall x | x in a ensures KeyLess(x.key, e.key) {
      assert data[|data| - 1] in data;
      KeyLessTransitive(x.key, LastOf(data), e.key);
    }
  }

  /** ... or start a new one. */
  lemma StartPiece(blocks: seq<DataBlock>, e: Pair)
    requires BlocksSorted(blocks) && TAG_SIZE <= |e.key| < WORD32
    requires blocks != [] ==> KeyLess(LastKeyOf(blocks), e.key)
    ensures BlocksSorted(Pieces(blocks, [e]))
  {
    var new_ := Pieces(blocks, [e]);
    forall i | 0 <= i < |blocks| ensures AllLess(new_[i].entries, [e]) {
      forall x | x in blocks[i].entries ensures KeyLess(x.key, e.key) {
        EverythingIsBeforeLast(blocks, i, x);
        LessChain(x.key, LastKeyOf(blocks), e.key);
      }
    }
    forall i, j | 0 <= i < j < |blocks|
      ensures AllLess(new_[i].entries, new_[j].entries)
    {
      assert AllLess(blocks[i].entries, blocks[j].entries);
    }
  }

  /** Writing the filled block out changes only its handle. */
  lemma WritePiece(blocks: seq<DataBlock>, data: seq<Pair>, h: Handle)
    requires BlocksSorted(Pieces(blocks, data)) && data != []
    ensures BlocksSorted(blocks + [DataBlock(h, data)])
    ensures forall i ::
            0 <= i <= |blocks| ==> (blocks + [DataBlock(h, data)])[i].entries == Pieces(blocks, data)[i].entries
  {
    var a, b := Pieces(blocks, data), blocks + [DataBlock(h, data)];
    forall i | 0 <= i < |b| ensures b[i].entries == a[i].entries { }
    forall i, j | 0 <= i < j < |b|
      ensures AllLess(b[i].entries, b[j].entries)
    {
      assert AllLess(a[i].entries, a[j].entries);
    }
  }

  // ---------- the index ----------

  /** The index entry that was pending, made when the next key is known. */
  lemma IndexNext(blocks: seq<DataBlock>, index: seq<Pair>, e: Pair, sep: Buffer, h: Handle)
    requires BlocksSorted(blocks) && IndexedSoFar(blocks, index) && |index| + 1 == |blocks|
    requires h == blocks[|index|].handle && KeyLess(LastKeyOf(blocks), e.key) && BlocksSorted(Pieces(blocks, [e]))
    requires |sep| >= TAG_SIZE && IsShortened(LastKeyOf(blocks), sep) && KeyLess(sep, e.key)
    requires sep != LastKeyOf(blocks) ==> Lex(ExtractUserKey(sep), ExtractUserKey(e.key))
    ensures IndexedSoFar(Pieces(blocks, [e]), index + [Pair(sep, EncodeHandle(h))])
  {
    hide KeyLess;
    hide EncodeHandle;
    hide IsShortened;
    var pieces, index' := Pieces(blocks, [e]), index + [Pair(sep, EncodeHandle(h))];
    forall i | 0 <= i < |index'|
      ensures index'[i].value == EncodeHandle(pieces[i].handle) && Separates(index'[i].key, pieces[i].entries)
      ensures Precedes(index'[i].key, pieces[i].entries, pieces[i + 1].entries[0].key)
    {
      assert pieces[i] == blocks[i];
      if i < |index| { assert pieces[i + 1] == blocks[i + 1] && index'[i] == index[i]; }
    }
  }

  /** The last index entry, made when no key follows. */
  lemma IndexLast(blocks: seq<DataBlock>, index: seq<Pair>, sep: Buffer, h: Handle)
    requires BlocksSorted(blocks) && IndexedSoFar(blocks, index) && |index| + 1 == |blocks|
    requires h == blocks[|index|].handle && |sep| >= TAG_SIZE && IsShortened(LastKeyOf(blocks), sep)
    ensures Indexed(blocks, index + [Pair(sep, EncodeHandle(h))])
  {
    hide KeyLess;
    hide EncodeHandle;
    hide IsShortened;
    var index' := index + [Pair(sep, EncodeHandle(h))];
    forall i | 0 <= i < |index'|
      ensures index'[i].value == EncodeHandle(blocks[i].handle) && Separates(index'[i].key, blocks[i].entries)
    {
      if i < |index| { assert index'[i] == index[i]; }
    }
    forall i | 0 <= i < |blocks| - 1 ensures Precedes(index'[i].key, blocks[i].entries, blocks[i + 1].entries[0].key) {
      assert index'[i] == index[i];
    }
  }

  lemma IndexKept(a: seq<DataBlock>, b: seq<DataBlock>, index: seq<Pair>)
    requires BlocksSorted(a) && BlocksSorted(b) && IndexedSoFar(a, index) && |a| == |b|
    requires forall i :: 0 <= i < |a| ==> a[i].entries[0] == b[i].entries[0]
    requires forall i :: 0 <= i < |index| ==> a[i] == b[i]
    ensures IndexedSoFar(b, index)
  {
  }

  // ---------- the filter ----------

  predicate InGroup(groups: seq<seq<Buffer>>, g: nat, e: Pair) { g < |groups| && ExtractUserKey(e.key) in groups[g] }

  function GroupOf(h: Handle): nat { h.offset / FILTER_BASE }

  /** Every key of a written block is in the group of the block's offset. */
  ghost predicate BlocksGrouped(groups: seq<seq<Buffer>>, blocks: seq<DataBlock>) {
    forall i, e :: 0 <= i < |blocks| && e in blocks[i].entries ==> InGroup(groups, GroupOf(blocks[i].handle), e)
  }

  /** The keys of the block being filled are in the last group. */
  ghost predicate Grouped(groups: seq<seq<Buffer>>, blocks: seq<DataBlock>, data: seq<Pair>) {
    groups != [] && BlocksGrouped(groups, blocks) && forall e :: e in data ==> InGroup(groups, |groups| - 1, e)
  }

  lemma GroupedMore(groups: seq<seq<Buffer>>, blocks: seq<DataBlock>, data: seq<Pair>, e: Pair, more: seq<seq<Buffer>>)
    requires Grouped(groups, blocks, data)
    requires more == groups[..|groups| - 1] + [groups[|groups| - 1] + [ExtractUserKey(e.key)]]
    ensures Grouped(more, blocks, data + [e])
  {
    forall g, x | InGroup(groups, g, x) ensures InGroup(more, g, x) { }
  }

  /** The block is written at the current offset, and the next one starts in a later or the same group. */
  lemma GroupedNext(groups: seq<seq<Buffer>>, blocks: seq<DataBlock>, data: seq<Pair>, h: Handle,
                    more: seq<seq<Buffer>>)
    requires Grouped(groups, blocks, data) && GroupOf(h) == |groups| - 1 && groups <= more
    ensures Grouped(more, blocks + [DataBlock(h, data)], [])
  {
    forall g, x | InGroup(groups, g, x) ensures InGroup(more, g, x) { }
  }

  lemma GroupedFinally(groups: seq<seq<Buffer>>, blocks: seq<DataBlock>, final: seq<seq<Buffer>>)
    requires Grouped(groups, blocks, [])
    requires final == groups || (groups[|groups| - 1] == [] && final == groups[..|groups| - 1])
    ensures BlocksGrouped(final, blocks)
  {
    forall g, x | InGroup(groups, g, x) ensures InGroup(final, g, x) { }
  }

  /** The finished filter block answers for every key of every block. */
  lemma FinishedFilterCovers(hash: Hash, data: Buffer, offsets: seq<nat>, final: seq<seq<Buffer>>,
                             blocks: seq<DataBlock>)
    requires Covers(hash, data, offsets, final) && |Contents(data, offsets)| < WORD32 && BlocksGrouped(final, blocks)
    ensures FilterCovers(hash, OpenFilter(Contents(data, offsets)), blocks)
  {
    hide Covers;
    hide Contents;
    hide MatchesAt;
    forall i, e, k | 0 <= i < |blocks| && e in blocks[i].entries && ExtractUserKey(k) == ExtractUserKey(e.key)
      ensures MatchesAt(hash, OpenFilter(Contents(data, offsets)), blocks[i].handle.offset, k)
    {
      assert InGroup(final, GroupOf(blocks[i].handle), e);
      NoFalseNegatives(hash, data, offsets, final, blocks[i].handle.offset, k);
    }
  }

  // ---------- the builder ----------

  lemma {:induction false} VarintIsShort(v: nat, n: nat)
    requires n > 0 && v < Power(128, n)
    ensures |Varint(v)| <= n
  {
    if v >= 128 { VarintIsShort(v / 128, n - 1); }
  }

  method EncodeTo(h: Handle) returns (b: Buffer)
    requires h.offset < WORD64 && h.size < WORD64
    ensures b == EncodeHandle(h) && |b| <= 20
  {
    TenBytesSuffice(h.offset);
    TenBytesSuffice(h.size);
    VarintIsShort(h.offset, 10);
    VarintIsShort(h.size, 10);
    var offset := EncodeVarint64(h.offset);
    var size := EncodeVarint64(h.size);
    b := offset + size;
  }

  lemma StoredLater(file: Buffer, more: Buffer, crc: Checksum, interval: nat, b: DataBlock)
    requires Stored(file, crc, interval, b) && |file + more| < WORD64
    ensures Stored(file + more, crc, interval, b)
  {
    hide BlockImage;
    hide Raw;
  }

  lemma StoredNow(file: Buffer, crc: Checksum, interval: nat, b: DataBlock)
    requires b.handle == Handle(|file|, |BlockImage(b.entries, interval)|) && b.handle.size < WORD32
    requires |file| + b.handle.size + TRAILER_SIZE < WORD64
    ensures Stored(file + Raw(crc, BlockImage(b.entries, interval)), crc, interval, b)
  {
    hide BlockImage;
    hide Raw;
  }

  ghost predicate AllStored(file: Buffer, crc: Checksum, interval: nat, blocks: seq<DataBlock>) {
    |file| < WORD64 && forall i :: 0 <= i < |blocks| ==> Stored(file, crc, interval, blocks[i])
  }

  lemma AllStoredLater(file: Buffer, more: Buffer, crc: Checksum, interval: nat, blocks: seq<DataBlock>)
    requires AllStored(file, crc, interval, blocks) && |file + more| < WORD64
    ensures AllStored(file + more, crc, interval, blocks)
  {
    hide Stored;
    forall i | 0 <= i < |blocks|
      ensures Stored(file + more, crc, interval, blocks[i])
    {
      StoredLater(file, more, crc, interval, blocks[i]);
    }
  }

  /** The entries of all blocks, in order. */
  function AllEntries(blocks: seq<DataBlock>): seq<Pair> {
    if blocks == [] then [] else AllEntries(blocks[..|blocks| - 1]) + blocks[|blocks| - 1].entries
  }

  lemma PieceEntries(blocks: seq<DataBlock>, data: seq<Pair>)
    ensures AllEntries(Pieces(blocks, data)) == AllEntries(blocks) + data
  {
    var a := Pieces(blocks, data);
    if data != [] {
      assert a[..|a| - 1] == blocks && a[|a| - 1].entries == data;
    }
  }

  lemma AllEntriesExtend(blocks: seq<DataBlock>, data: seq<Pair>, e: Pair)
    ensures AllEntries(Pieces(blocks, data + [e])) == AllEntries(Pieces(blocks, data)) + [e]
  {
    hide AllEntries;
    hide Pieces;
    PieceEntries(blocks, data);
    PieceEntries(blocks, data + [e]);
  }

  lemma AllEntriesWrite(blocks: seq<DataBlock>, data: seq<Pair>, h: Handle)
    requires data != []
    ensures AllEntries(blocks + [DataBlock(h, data)]) == AllEntries(Pieces(blocks, data))
  {
    var b := blocks + [DataBlock(h, data)];
    PieceEntries(blocks, data);
    assert b[..|b| - 1] == blocks;
  }

  /** The index has an entry for every written block, but for the last one while that entry is pending. */
  ghost predicate IndexState(blocks: seq<DataBlock>, data: seq<Pair>, index: seq<Pair>, numEntries: nat,
                             lastKey: Buffer,
                             pending: bool, handle: Handle)
  {
    && BlocksSorted(Pieces(blocks, data)) && IndexedSoFar(Pieces(blocks, data), index) && KeysFit(index)
    && (numEntries > 0 <==> Pieces(blocks, data) != [])
       && (numEntries > 0 ==> lastKey == LastKeyOf(Pieces(blocks, data)))
    && if pending then data == [] && |index| + 1 == |blocks| && handle == blocks[|blocks| - 1].handle
       && WideHandle(handle)
       else |index| == |blocks| && (data == [] ==> blocks == [])
  }

  predicate WideHandle(h: Handle) { h.offset < WORD64 && h.size < WORD64 }

  class TableBuilder {
    const interval: nat
    const crc: Checksum
    const dataBlock: BlockBuilder
    const indexBlock: BlockBuilder
    const useFilter: bool
    const filterBlock: FilterBlockBuilder  // used only with a filter policy
    var file: Buffer
    var offset: nat
    var lastKey: Buffer
    var numEntries: nat
    var closed: bool
    var pendingIndexEntry: bool
    var pendingHandle: Handle
    ghost var blocks: seq<DataBlock>  // blocks written

    ghost function Parts(): set<object> {
      {dataBlock, indexBlock, filterBlock}
    }

    /** All entries added so far, block by block. */
    ghost function Added(): seq<DataBlock>
      reads `blocks, dataBlock
    {
      Pieces(blocks, dataBlock.entries)
    }

    ghost predicate DataOk()
      reads `offset, `file, `blocks, dataBlock
    {
      && dataBlock.Valid() && !dataBlock.finished && dataBlock.interval == interval
      && offset == |file| && AllStored(file, crc, interval, blocks) && BlocksSorted(Added())
    }

    ghost predicate IndexOk()
      reads `blocks, `numEntries, `lastKey, `pendingIndexEntry, `pendingHandle, dataBlock, indexBlock
    {
      && indexBlock.Valid() && !indexBlock.finished && indexBlock.interval == 1 && dataBlock != indexBlock
      && IndexState(blocks, dataBlock.entries, indexBlock.entries, numEntries, lastKey, pendingIndexEntry,
         pendingHandle)
    }

    ghost predicate FilterOk()
      reads `offset, `blocks, dataBlock, filterBlock
    {
      useFilter ==>
        && filterBlock.Valid() && |filterBlock.groups| == offset / FILTER_BASE
        && Grouped(filterBlock.Groups(), blocks, dataBlock.entries)
    }

    ghost predicate Valid()
      reads this, Parts()
    {
      !closed && DataOk() && IndexOk() && FilterOk()
    }

    constructor (interval: nat, crc: Checksum, useFilter: bool, hash: Hash, bitsPerKey: nat)
      requires interval >= 1
      ensures Valid() && Added() == [] && numEntries == 0 && this.interval == interval && this.crc == crc
      ensures this.useFilter == useFilter && filterBlock.hash == hash
      ensures fresh(Parts())
    {
      hide BlocksSorted;
      hide IndexState;
      hide Pieces;
      hide BlockBuilder.Valid;
      hide FilterBlockBuilder.Valid;
      hide AllStored;
      hide Grouped;
      this.interval, this.crc := interval, crc;
      dataBlock := new BlockBuilder(interval);
      indexBlock := new BlockBuilder(1);
      this.useFilter := useFilter;
      filterBlock := new FilterBlockBuilder(hash, bitsPerKey);
      file, offset, lastKey, numEntries, closed, pendingIndexEntry := [], 0, [], 0, false, false;
      pendingHandle, blocks := Handle(0, 0), [];
      new;
      EmptyState(crc, interval);
      NothingAdded();
      if useFilter {
        filterBlock.StartBlock(0);
      }
    }

    lemma NothingAdded()
      requires blocks == [] && dataBlock.entries == [] && filterBlock.groups == [] && filterBlock.pending == []
      ensures Added() == [] && Added() == Pieces([], []) && filterBlock.Groups() == [UserKeys([])]
    {
    }

    /** The pending index entry is made now that the key after its block is known. */
    method AddPendingIndex(key: Buffer, value: Buffer)
      requires DataOk() && IndexOk() && pendingIndexEntry && TAG_SIZE <= |key| < WORD32 && |value| < WORD32
      requires KeyLess(lastKey, key)
      modifies `lastKey, `pendingIndexEntry, indexBlock
      ensures DataOk() && !pendingIndexEntry && dataBlock.entries == []
      ensures indexBlock.Valid() && !indexBlock.finished && indexBlock.interval == 1 && dataBlock != indexBlock
      ensures IndexState(blocks, [Pair(key, value)], indexBlock.entries, numEntries + 1, key, false, pendingHandle)
    {
      hide KeyLess;
      hide BlocksSorted;
      hide BlockBuilder.Valid;
      hide IsShortened;
      hide AllStored;
      PendingKeyFits(blocks, indexBlock.entries, numEntries, lastKey, pendingHandle);
      var sep := FindShortestKeySeparator(lastKey, key);
      var encoding := EncodeTo(pendingHandle);
      PendingIsIndexed(blocks, indexBlock.entries, Pair(key, value), sep, pendingHandle, numEntries, lastKey, encoding);
      indexBlock.Add(sep, encoding);
      pendingIndexEntry := false;
      lastKey := sep;
    }

    method AddToFilter(key: Buffer, value: Buffer)
      requires useFilter && FilterOk()
      modifies filterBlock
      ensures filterBlock.Valid() && filterBlock.groups == old(filterBlock.groups)
      ensures Grouped(filterBlock.Groups(), blocks, dataBlock.entries + [Pair(key, value)])
    {
      hide Covers;
      hide Flat;
      hide Grouped;
      ghost var groups := filterBlock.Groups();
      filterBlock.AddKey(key);
      assert UserKeys(filterBlock.pending) == UserKeys(old(filterBlock.pending)) + [ExtractUserKey(key)];
      assert groups[..|groups| - 1] == filterBlock.groups;
      GroupedMore(groups, blocks, dataBlock.entries, Pair(key, value), filterBlock.Groups());
    }

    /** The block can be written: sizes fit their fields. */
    ghost predicate Fits(es: seq<Pair>)
      reads `file
    {
      |BlockImage(es, interval)| < WORD32 && |file| + |BlockImage(es, interval)| + TRAILER_SIZE < WORD64
    }

    method WriteRawBlock(contents: Buffer) returns (handle: Handle)
      requires offset == |file|
      modifies `file, `offset
      ensures handle == Handle(|old(file)|, |contents|) && file == old(file) + Raw(crc, contents) && offset == |file|
    {
      handle := Handle(offset, |contents|);
      file := file + contents;
      var trailer := [NO_COMPRESSION] + Fixed(4, Mask(crc(contents + [NO_COMPRESSION])));
      file := file + trailer;
      offset := offset + |contents| + TRAILER_SIZE;
      assert file == old(file) + Raw(crc, contents);
    }

    /** Write the block being filled, if it is not empty. */
    method WriteDataBlock()
      requires DataOk() && dataBlock.entries != [] && Fits(dataBlock.entries)
      modifies `file, `offset, `pendingHandle, `blocks, dataBlock
      ensures DataOk() && dataBlock.entries == [] && WideHandle(pendingHandle) && pendingHandle.offset == old(offset)
      ensures blocks == old(blocks) + [DataBlock(pendingHandle, old(dataBlock.entries))] && offset > old(offset)
    {
      hide KeyLess;
      hide BlockImage;
      hide BlocksSorted;
      hide Raw;
      ghost var data := dataBlock.entries;
      var raw := dataBlock.Finish();
      pendingHandle := WriteRawBlock(raw);
      blocks := blocks + [DataBlock(pendingHandle, data)];
      dataBlock.Reset();
      WritePiece(old(blocks), data, pendingHandle);
      StoredNow(old(file), crc, interval, DataBlock(pendingHandle, data));
      AllStoredLater(old(file), Raw(crc, raw), crc, interval, old(blocks));
    }

    method Flush()
      requires Valid() && Fits(dataBlock.entries)
      modifies this, Parts()
      ensures Valid() && dataBlock.entries == [] && AllEntries(Added()) == old(AllEntries(Added()))
      ensures indexBlock.entries == old(indexBlock.entries) && numEntries == old(numEntries)
    {
      hide LastKey;
      hide AllEntries;
      hide FilterBlockBuilder.Valid;
      hide KeyLess;
      hide BlockImage;
      hide BlocksSorted;
      hide IndexedSoFar;
      hide AllStored;
      hide BlockBuilder.Valid;
      EmptyBlock(dataBlock);
      if dataBlock.buffer == [] {
        return;
      }
      ghost var data, groups := dataBlock.entries, if useFilter then filterBlock.Groups() else [];
      FlushedState(blocks, data, indexBlock.entries, numEntries, lastKey, pendingHandle, pendingIndexEntry);
      WriteDataBlock();
      pendingIndexEntry := true;
      AllEntriesWrite(old(blocks), data, pendingHandle);
      if useFilter {
        filterBlock.StartBlock(offset);
        GroupedNext(groups, old(blocks), data, pendingHandle, filterBlock.Groups());
      }
    }

    /** The index is ready for the key: no entry is pending any more. */
    method PrepareIndex(key: Buffer, value: Buffer)
      requires DataOk() && IndexOk() && TAG_SIZE <= |key| < WORD32 && |value| < WORD32
      requires numEntries > 0 ==> KeyLess(lastKey, key)
      modifies `lastKey, `pendingIndexEntry, indexBlock
      ensures DataOk() && !pendingIndexEntry
      ensures indexBlock.Valid() && !indexBlock.finished && indexBlock.interval == 1 && dataBlock != indexBlock
      ensures IndexState(blocks, dataBlock.entries + [Pair(key, value)], indexBlock.entries, numEntries + 1, key,
              false, pendingHandle)
    {
      hide KeyLess;
      hide BlocksSorted;
      hide IndexedSoFar;
      hide AllStored;
      if pendingIndexEntry {
        AddPendingIndex(key, value);
        assert dataBlock.entries + [Pair(key, value)] == [Pair(key, value)];
      } else {
        ExtendedState(blocks, dataBlock.entries, indexBlock.entries, numEntries, lastKey, pendingHandle,
            Pair(key, value));
      }
    }

    method AddEntry(key: Buffer, value: Buffer)
      requires Valid() && TAG_SIZE <= |key| < WORD32 && |value| < WORD32
      requires numEntries > 0 ==> KeyLess(lastKey, key)
      modifies `lastKey, `pendingIndexEntry, `numEntries, Parts()
      ensures Valid() && blocks == old(blocks) && dataBlock.entries == old(dataBlock.entries) + [Pair(key, value)]
    {
      hide KeyLess;
      hide BlocksSorted;
      hide IndexState;
      hide Pieces;
      hide BlockBuilder.Valid;
      hide FilterBlockBuilder.Valid;
      hide AllStored;
      hide Grouped;
      PrepareIndex(key, value);
      if useFilter {
        AddToFilter(key, value);
      }
      lastKey := key;
      numEntries := numEntries + 1;
      SortedState(blocks, dataBlock.entries + [Pair(key, value)], indexBlock.entries, numEntries, key, false,
          pendingHandle);
      dataBlock.Add(key, value);
    }

    /** Add a key after all others.  Whether the block is full after that depends on sizes only. */
    method Add(key: Buffer, value: Buffer)
      requires Valid() && TAG_SIZE <= |key| < WORD32 && |value| < WORD32
      requires numEntries > 0 ==> KeyLess(lastKey, key)
      requires Fits(dataBlock.entries + [Pair(key, value)])
      modifies this, Parts()
      ensures Valid() && AllEntries(Added()) == old(AllEntries(Added())) + [Pair(key, value)]
    {
      hide KeyLess;
      hide BlockImage;
      hide DataOk;
      hide IndexOk;
      hide FilterOk;
      AllEntriesExtend(blocks, dataBlock.entries, Pair(key, value));
      AddEntry(key, value);
      var full: bool := *;
      if full {
        Flush();
      }
    }

    /** The last index entry, made without knowing a next key. */
    method FinishIndex() returns (index: Buffer)
      requires IndexOk() && dataBlock.entries == []
      modifies `lastKey, `pendingIndexEntry, indexBlock
      ensures BlocksSorted(blocks) && Indexed(blocks, indexBlock.entries) && KeysFit(indexBlock.entries)
              && index == BlockImage(indexBlock.entries, 1)
    {
      hide KeyLess;
      hide BlocksSorted;
      hide AllStored;
      hide BlockImage;
      ListedState(blocks, indexBlock.entries, numEntries, lastKey, pendingIndexEntry, pendingHandle);
      if pendingIndexEntry {
        PendingKeyFits(blocks, indexBlock.entries, numEntries, lastKey, pendingHandle);
        var sep := FindShortKeySuccessor(lastKey);
        var encoding := EncodeTo(pendingHandle);
        LastIsIndexed(blocks, indexBlock.entries, sep, pendingHandle, numEntries, lastKey, encoding);
        indexBlock.Add(sep, encoding);
        lastKey := sep;
        pendingIndexEntry := false;
      }
      index := indexBlock.Finish();
    }

    method FinishFilter() returns (contents: Buffer)
      requires useFilter && FilterOk() && dataBlock.entries == []
      modifies filterBlock
      ensures contents == Contents(filterBlock.result, filterBlock.filterOffsets)
      ensures Covers(filterBlock.hash, filterBlock.result, filterBlock.filterOffsets, filterBlock.groups)
      ensures BlocksGrouped(filterBlock.groups, blocks)
    {
      hide Covers;
      hide Contents;
      hide BlocksGrouped;
      ghost var groups, pending := filterBlock.Groups(), filterBlock.pending;
      assert groups[..|groups| - 1] == filterBlock.groups && groups[|groups| - 1] == UserKeys(pending);
      contents := filterBlock.Finish();
      GroupedFinally(groups, blocks, filterBlock.groups);
    }

    lemma OnlyBlocks()
      requires dataBlock.entries == []
      ensures Added() == blocks
    {
    }

    /** What the filter block holds once it is written. */
    ghost predicate FilterWritten(filter: Option<FilterReader>)
      reads `blocks, filterBlock
    {
      if useFilter then
        && filter == Some(OpenFilter(Contents(filterBlock.result, filterBlock.filterOffsets)))
        && Covers(filterBlock.hash, filterBlock.result, filterBlock.filterOffsets, filterBlock.groups)
        && BlocksGrouped(filterBlock.groups, blocks)
      else filter.None?
    }

    method WriteFilter() returns (filter: Option<FilterReader>)
      requires FilterOk() && dataBlock.entries == [] && offset == |file|
      modifies `file, `offset, filterBlock
      ensures FilterWritten(filter) && offset == |file| && old(file) <= file
    {
      hide Covers;
      hide Contents;
      hide BlocksGrouped;
      hide Raw;
      filter := None;
      if useFilter {
        var contents := FinishFilter();
        var handle := WriteRawBlock(contents);
        filter := Some(OpenFilter(contents));
      }
    }

    method WriteIndex() returns (index: Buffer)
      requires IndexOk() && dataBlock.entries == [] && offset == |file|
      modifies `file, `offset, `lastKey, `pendingIndexEntry, indexBlock
      ensures BlocksSorted(blocks) && Indexed(blocks, indexBlock.entries) && KeysFit(indexBlock.entries)
      ensures index == BlockImage(indexBlock.entries, 1) && old(file) <= file
    {
      hide BlocksSorted;
      hide Indexed;
      hide BlockImage;
      hide Raw;
      index := FinishIndex();
      var handle := WriteRawBlock(index);
    }

    /** The parts of the finished file, as a reader would open them. */
    method Finish() returns (t: Table)
      requires Valid() && Fits(dataBlock.entries)
      modifies this, Parts()
      ensures closed && AllEntries(blocks) == old(AllEntries(Added())) && t.file == file
      ensures BlocksSorted(blocks) && Indexed(blocks, indexBlock.entries) && KeysFit(indexBlock.entries)
      ensures t.indexBlock == BlockImage(indexBlock.entries, 1) && FilterWritten(t.filter)
      ensures |file| < WORD64 ==> AllStored(file, crc, interval, blocks)
    {
      hide BlocksSorted;
      hide IndexState;
      hide Pieces;
      hide Indexed;
      hide BlockImage;
      hide BlockBuilder.Valid;
      hide FilterBlockBuilder.Valid;
      hide AllStored;
      hide Grouped;
      hide FilterWritten;
      Flush();
      OnlyBlocks();
      closed := true;
      ghost var data := file;
      var filter := WriteFilter();
      var index := WriteIndex();
      t := Table(file, index, filter);
      if |file| < WORD64 {
        assert data + file[|data|..] == file;
        AllStoredLater(data, file[|data|..], crc, interval, blocks);
      }
    }
  }

  lemma ListedState(blocks: seq<DataBlock>, index: seq<Pair>, numEntries: nat, lastKey: Buffer, pending: bool,
                    h: Handle)
    requires IndexState(blocks, [], index, numEntries, lastKey, pending, h)
    ensures BlocksSorted(blocks) && (!pending ==> Indexed(blocks, index) && KeysFit(index))
  {
    hide KeyLess;
  }

  lemma SortedState(blocks: seq<DataBlock>, data: seq<Pair>, index: seq<Pair>, numEntries: nat, lastKey: Buffer,
                    pending: bool, h: Handle)
    requires IndexState(blocks, data, index, numEntries, lastKey, pending, h)
    ensures BlocksSorted(Pieces(blocks, data))
  {
  }

  lemma EmptyState(crc: Checksum, interval: nat)
    ensures IndexState([], [], [], 0, [], false, Handle(0, 0)) && AllStored([], crc, interval, [])
    ensures BlocksSorted(Pieces([], [])) && Grouped([UserKeys([])], [], [])
  {
  }

  lemma LastIsIndexed(blocks: seq<DataBlock>, index: seq<Pair>, sep: Buffer, h: Handle, numEntries: nat,
                      lastKey: Buffer, encoding: Buffer)
    requires IndexState(blocks, [], index, numEntries, lastKey, true, h)
    requires IsShortened(lastKey, sep) && TAG_SIZE <= |sep| <= |lastKey| && encoding == EncodeHandle(h)
    ensures |sep| < WORD32
    ensures BlocksSorted(blocks) && Indexed(blocks, index + [Pair(sep, encoding)])
            && KeysFit(index + [Pair(sep, encoding)])
  {
    hide KeyLess;
    hide IsShortened;
    hide EncodeHandle;
    IndexLast(blocks, index, sep, h);
  }

  lemma ExtendedState(blocks: seq<DataBlock>, data: seq<Pair>, index: seq<Pair>, numEntries: nat, lastKey: Buffer,
                      h: Handle, e: Pair)
    requires IndexState(blocks, data, index, numEntries, lastKey, false, h) && TAG_SIZE <= |e.key| < WORD32
    requires numEntries > 0 ==> KeyLess(lastKey, e.key)
    ensures IndexState(blocks, data + [e], index, numEntries + 1, e.key, false, h)
  {
    hide FixedValue;
    hide Varint;
    hide AllLess;
    hide KeyLess;
    hide Separates;
    hide Precedes;
    if data == [] {
      StartPiece(blocks, e);
    } else {
      ExtendPiece(blocks, data, e);
      IndexKept(Pieces(blocks, data), Pieces(blocks, data + [e]), index);
    }
  }

  lemma FlushedState(blocks: seq<DataBlock>, data: seq<Pair>, index: seq<Pair>, numEntries: nat, lastKey: Buffer,
                     h: Handle, pending: bool)
    requires IndexState(blocks, data, index, numEntries, lastKey, pending, h) && data != []
    ensures !pending
    ensures forall h' {:trigger DataBlock(h', data)} :: WideHandle(h') ==>
              IndexState(blocks + [DataBlock(h', data)], [], index, numEntries, lastKey, true, h')
  {
    hide KeyLess;
    hide Separates;
    hide Precedes;
    forall h': Handle | WideHandle(h')
      ensures IndexState(blocks + [DataBlock(h', data)], [], index, numEntries, lastKey, true, h')
    {
      WritePiece(blocks, data, h');
      IndexKept(Pieces(blocks, data), blocks + [DataBlock(h', data)], index);
    }
  }

  lemma EmptyBlock(b: BlockBuilder)
    requires b.Valid() && !b.finished
    ensures b.buffer == [] <==> b.entries == []
  {
    DataPrefix(b.entries, b.interval, 0, |b.entries|);
  }

  lemma PendingKeyFits(blocks: seq<DataBlock>, index: seq<Pair>, numEntries: nat, lastKey: Buffer, h: Handle)
    requires IndexState(blocks, [], index, numEntries, lastKey, true, h)
    ensures TAG_SIZE <= |lastKey| < WORD32 && WideHandle(h)
  {
    hide KeyLess;
  }

  lemma PendingIsIndexed(blocks: seq<DataBlock>, index: seq<Pair>, e: Pair, sep: Buffer, h: Handle, numEntries: nat,
                         lastKey: Buffer, encoding: Buffer)
    requires IndexState(blocks, [], index, numEntries, lastKey, true, h) && KeyLess(lastKey, e.key)
             && TAG_SIZE <= |e.key| < WORD32
    requires IsShortened(lastKey, sep) && TAG_SIZE <= |sep| <= |lastKey| && KeyLess(sep, e.key)
    requires sep != lastKey ==> Lex(ExtractUserKey(sep), ExtractUserKey(e.key))
    requires encoding == EncodeHandle(h)
    ensures |sep| < WORD32
    ensures IndexState(blocks, [e], index + [Pair(sep, encoding)], numEntries + 1, e.key, false, h)
  {
    hide KeyLess;
    hide IsShortened;
    hide EncodeHandle;
    StartPiece(blocks, e);
    IndexNext(blocks, index, e, sep, h);
  }

  lemma {:induction false} HoldsAllEntries(blocks: seq<DataBlock>, e: Pair)
    ensures Holds(blocks, e) <==> e in AllEntries(blocks)
  {
    if blocks != [] {
      var init := blocks[..|blocks| - 1];
      HoldsAllEntries(init, e);
      if Holds(init, e) { var i :| 0 <= i < |init| && e in init[i].entries; assert e in blocks[i].entries; }
      if Holds(blocks, e) {
        var i :| 0 <= i < |blocks| && e in blocks[i].entries;
        assert i < |init| ==> e in init[i].entries;
      }
    }
  }

  /** A built table is one that lookups are complete on, for exactly the entries that were added. */
  lemma BuiltTableIsFinished(b: TableBuilder, t: Table)
    requires BlocksSorted(b.blocks) && Indexed(b.blocks, b.indexBlock.entries) && KeysFit(b.indexBlock.entries)
    requires AllStored(t.file, b.crc, b.interval, b.blocks) && b.FilterWritten(t.filter)
    requires t.indexBlock == BlockImage(b.indexBlock.entries, 1) && |t.indexBlock| < WORD32
    requires b.useFilter ==> |Contents(b.filterBlock.result, b.filterBlock.filterOffsets)| < WORD32
    ensures Finished(t, b.crc, b.interval, b.blocks, b.indexBlock.entries)
    ensures t.filter.Some? ==> FilterCovers(b.filterBlock.hash, t.filter.value, b.blocks)
    ensures forall e :: Holds(b.blocks, e) <==> e in AllEntries(b.blocks)
  {
    hide BlocksSorted;
    hide Indexed;
    hide Covers;
    hide Contents;
    hide BlockImage;
    hide FilterCovers;
    forall e ensures Holds(b.blocks, e) <==> e in AllEntries(b.blocks) { HoldsAllEntries(b.blocks, e); }
    if b.useFilter {
      FinishedFilterCovers(b.filterBlock.hash, b.filterBlock.result, b.filterBlock.filterOffsets, b.filterBlock.groups,
          b.blocks);
    }
  }
}
