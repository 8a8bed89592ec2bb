/** Table::InternalGet (table/table.cc): a lookup reads one block, chosen by the index, unless the
    filter rules it out. */
module TableLookup {
  import opened Options
  import opened Coding
  import opened LogFormat
  import opened BlockFormat
  import opened BlockReading
  import opened Bytewise
  import opened InternalKeyBytes
  import opened BloomFilters
  import opened FilterBlocks
  import opened TableFormat

  // ---------- order ----------

  /** `a` is not after `b`, and `b` is before `c`. */
  lemma LessChain(a: Buffer, b: Buffer, c: Buffer)
    requires !KeyLess(b, a) && KeyLess(b, c)
    ensures KeyLess(a, c)
  {
    var x, y, z := ExtractUserKey(a), ExtractUserKey(b), ExtractUserKey(c);
    LexTotal(x, y);
    if Lex(x, y) && Lex(y, z) { LexTransitive(x, y, z); }
  }

  /** Between two keys of one user key lies only that user key. */
  lemma Sandwich(a: Buffer, b: Buffer, c: Buffer)
    requires !KeyLess(b, a) && !KeyLess(c, b) && ExtractUserKey(a) == ExtractUserKey(c)
    ensures ExtractUserKey(b) == ExtractUserKey(a)
  {
    var x, y := ExtractUserKey(a), ExtractUserKey(b);
    LexTotal(x, y);
  }

  lemma LastIsLast(es: seq<Pair>, e: Pair)
    requires Increasing(es, KeyLess) && e in es
    ensures !KeyLess(LastOf(es), e.key) && !KeyLess(e.key, es[0].key)
  {
    var i :| 0 <= i < |es| && es[i] == e;
    if i < |es| - 1 { KeyLessAsymmetric(es[i].key, LastOf(es)); } else { KeyLessIrreflexive(e.key); }
    if i > 0 { KeyLessAsymmetric(es[0].key, es[i].key); } else { KeyLessIrreflexive(e.key); }
  }

  // ---------- what the index says ----------

  /** A block whose index key is before the target lies before it. */
  lemma BlockBefore(blocks: seq<DataBlock>, index: seq<Pair>, i: nat, target: Buffer, e: Pair)
    requires BlocksSorted(blocks) && Indexed(blocks, index) && i < |blocks| && KeyLess(index[i].key, target)
    requires e in blocks[i].entries
    ensures KeyLess(e.key, target)
  {
    ShortenedIsNotBefore(LastOf(blocks[i].entries), index[i].key);
    LastIsLast(blocks[i].entries, e);
    NotAfterTransitive(e.key, LastOf(blocks[i].entries), index[i].key);
    LessChain(e.key, index[i].key, target);
  }

  /** An entry past block `i` with the user key of a target at or before index key `i`: then the index
      key is the last key of the block and has that user key too. */
  lemma LaterWithSameUser(blocks: seq<DataBlock>, index: seq<Pair>, i: nat, j: nat, target: Buffer, e: Pair)
    requires BlocksSorted(blocks) && Indexed(blocks, index) && i < j < |blocks| && !KeyLess(index[i].key, target)
    requires e in blocks[j].entries && ExtractUserKey(e.key) == ExtractUserKey(target)
    ensures index[i].key == LastOf(blocks[i].entries) && ExtractUserKey(index[i].key) == ExtractUserKey(target)
  {
    var f := blocks[i + 1].entries[0].key;
    FirstIsNotAfter(blocks, i + 1, j, e);
    KeyLessAsymmetric(index[i].key, f);
    NotAfterTransitive(target, index[i].key, f);
    Sandwich(target, f, e.key);
    Sandwich(target, index[i].key, f);
    LexIrreflexive(ExtractUserKey(f));
  }

  lemma FirstIsNotAfter(blocks: seq<DataBlock>, i: nat, j: nat, e: Pair)
    requires BlocksSorted(blocks) && i <= j < |blocks| && e in blocks[j].entries
    ensures !KeyLess(e.key, blocks[i].entries[0].key)
  {
    var f := blocks[i].entries[0];
    if i < j {
      assert AllLess(blocks[i].entries, blocks[j].entries) && f in blocks[i].entries;
      KeyLessAsymmetric(f.key, e.key);
    } else {
      LastIsLast(blocks[i].entries, e);
    }
  }

  // ---------- completeness ----------

  /** The answer is the first entry at or after the target; no answer is given only if that entry does
      not have the target's user key. */
  ghost predicate FoundIn(blocks: seq<DataBlock>, target: Buffer, r: Option<Pair>) {
    match r
    case Some(e) => Holds(blocks, e) && !KeyLess(e.key, target) &&
                    forall x :: Holds(blocks, x) && KeyLess(x.key, e.key) ==> KeyLess(x.key, target)
    case None => forall x ::
        Holds(blocks, x) && !KeyLess(x.key, target) ==> ExtractUserKey(x.key) != ExtractUserKey(target)
  }

  lemma PastTheIndex(blocks: seq<DataBlock>, index: seq<Pair>, target: Buffer)
    requires BlocksSorted(blocks) && Indexed(blocks, index) && IsSeek(index, KeyLess, target, |index|)
    ensures FoundIn(blocks, target, None)
  {
    forall x | Holds(blocks, x) ensures KeyLess(x.key, target) {
      var i :| 0 <= i < |blocks| && x in blocks[i].entries;
      BlockBefore(blocks, index, i, target, x);
    }
  }

  /** What blocks other than the chosen one can contribute. */
  lemma OtherBlocks(blocks: seq<DataBlock>, index: seq<Pair>, i: nat, target: Buffer, x: Pair) returns (j: nat)
    requires BlocksSorted(blocks) && Indexed(blocks, index) && i < |blocks| && IsSeek(index, KeyLess, target, i)
    requires Holds(blocks, x) && !KeyLess(x.key, target) && x !in blocks[i].entries
    ensures i < j < |blocks| && x in blocks[j].entries
  {
    hide KeyLess;
    hide Separates;
    hide AllLess;
    j :| 0 <= j < |blocks| && x in blocks[j].entries;
    if j < i { BlockBefore(blocks, index, j, target, x); }
  }

  lemma FoundInBlock(blocks: seq<DataBlock>, index: seq<Pair>, i: nat, target: Buffer, p: nat)
    requires BlocksSorted(blocks) && Indexed(blocks, index) && i < |blocks| && IsSeek(index, KeyLess, target, i)
    requires IsSeek(blocks[i].entries, KeyLess, target, p) && p < |blocks[i].entries|
    ensures FoundIn(blocks, target, Some(blocks[i].entries[p]))
  {
    var es := blocks[i].entries;
    forall x | Holds(blocks, x) && KeyLess(x.key, es[p].key) ensures KeyLess(x.key, target) {
      if x in es {
        var q :| 0 <= q < |es| && es[q] == x;
        if q >= p { NotBefore(es, p, q); }
      } else if !KeyLess(x.key, target) {
        var j := OtherBlocks(blocks, index, i, target, x);
        assert AllLess(es, blocks[j].entries);
        KeyLessAsymmetric(es[p].key, x.key);
      }
    }
    assert es[p] in es;
  }

  lemma NotBefore(es: seq<Pair>, p: nat, q: nat)
    requires Increasing(es, KeyLess) && p <= q < |es|
    ensures !KeyLess(es[q].key, es[p].key)
  {
    if p < q { KeyLessAsymmetric(es[p].key, es[q].key); } else { KeyLessIrreflexive(es[p].key); }
  }

  /** Nothing in the chosen block: neither at or after the target, nor of its user key if the filter says so. */
  lemma NotInBlock(blocks: seq<DataBlock>, index: seq<Pair>, i: nat, target: Buffer)
    requires BlocksSorted(blocks) && Indexed(blocks, index) && i < |blocks| && IsSeek(index, KeyLess, target, i)
    requires forall e :: e in blocks[i].entries ==>
              KeyLess(e.key, target) || ExtractUserKey(e.key) != ExtractUserKey(target)
    ensures FoundIn(blocks, target, None)
  {
    forall x | Holds(blocks, x) && !KeyLess(x.key, target) ensures ExtractUserKey(x.key) != ExtractUserKey(target) {
      if x !in blocks[i].entries && ExtractUserKey(x.key) == ExtractUserKey(target) {
        var j := OtherBlocks(blocks, index, i, target, x);
        LaterWithSameUser(blocks, index, i, j, target, x);
      }
    }
  }

  // ---------- the lookup ----------

  /** A table file: its index block, and its filter if it has one. */
  datatype Table = Table(file: Buffer, indexBlock: Buffer, filter: Option<FilterReader>)

  /** The parts of the file are those of a finished table. */
  ghost predicate Finished(t: Table, crc: Checksum, interval: nat, blocks: seq<DataBlock>, index: seq<Pair>) {
    && BlocksSorted(blocks) && Indexed(blocks, index)
    && (forall i :: 0 <= i < |blocks| ==> Stored(t.file, crc, interval, blocks[i]))
    && t.indexBlock == BlockImage(index, 1) && |t.indexBlock| < WORD32 && KeysFit(index)
  }

  /** The filter answers for every block with the user keys of its entries. */
  ghost predicate FilterCovers(hash: Hash, f: FilterReader, blocks: seq<DataBlock>) {
    && (f.offsetsAt + 4 * f.num + 4 <= |f.contents| || f.num == 0)
    && forall i, e, k :: 0 <= i < |blocks| && e in blocks[i].entries && ExtractUserKey(k) == ExtractUserKey(e.key) ==>
          MatchesAt(hash, f, blocks[i].handle.offset, k)
  }

  lemma KeyLessIsTransitive()
    ensures Transitive(KeyLess)
  {
    forall a, b, c | KeyLess(a, b) && KeyLess(b, c) ensures KeyLess(a, c) { KeyLessTransitive(a, b, c); }
  }

  /** Seek in the contents of a block. */
  method SeekBlock(contents: Buffer, target: Buffer, ghost es: seq<Pair>, ghost interval: nat)
    returns (found: Option<Pair>, ok: bool, ghost at: nat)
    ensures contents == BlockImage(es, interval) && |contents| < WORD32 && KeysFit(es) && Increasing(es, KeyLess) ==>
              ok && IsSeek(es, KeyLess, target, at) && found == if at < |es| then Some(es[at]) else None
  {
    hide BlockImage;
    hide KeyLess;
    at := 0;
    ghost var good := contents == BlockImage(es, interval) && |contents| < WORD32 && KeysFit(es)
        && Increasing(es, KeyLess);
    if good { TrailerOfImage(es, interval); }
    var trailer := ParseTrailer(contents);
    if !trailer.Trailer? {
      return None, trailer.NoRestarts?, 0;
    }
    KeyLessIsTransitive();
    var iter := new BlockIter(contents, trailer.restartsAt, trailer.count, KeyLess, es, interval);
    if good { BuiltHere(iter); }
    iter.Seek(target);
    at := iter.at;
    ok := !iter.corrupted;
    if iter.Valid() {
      found := Some(Pair(iter.key, iter.Item()));
    } else {
      found := None;
    }
    if good { SoughtHere(iter); }
  }

  lemma BuiltHere(iter: BlockIter)
    requires iter.data == BlockImage(iter.entries, iter.interval) && |iter.data| < WORD32 && KeysFit(iter.entries)
    requires iter.restarts == Offset(iter.entries, iter.interval, |iter.entries|)
    requires iter.numRestarts == |Restarts(iter.entries, iter.interval)|
    ensures iter.Built()
  {
  }

  lemma SoughtHere(iter: BlockIter)
    requires iter.Ok() && iter.Built()
    ensures iter.Valid() <==> iter.at < |iter.entries|
  {
  }

  predicate Shaped(f: FilterReader) { f.offsetsAt + 4 * f.num + 4 <= |f.contents| || f.num == 0 }

  /** The block behind an index value. */
  method BlockReader(t: Table, crc: Checksum, verify: bool, indexValue: Buffer) returns (contents: Option<Buffer>)
    ensures contents == if DecodeHandle(indexValue).None? then None
            else ReadBlock(t.file, crc, verify, DecodeHandle(indexValue).value)
  {
    var handle := DecodeHandle(indexValue);
    if handle.None? {
      return None;
    }
    contents := ReadBlock(t.file, crc, verify, handle.value);
  }

  lemma BlockBehindIndex(t: Table, crc: Checksum, verify: bool, interval: nat, blocks: seq<DataBlock>,
                         index: seq<Pair>, i: nat)
    requires Finished(t, crc, interval, blocks, index) && i < |blocks|
    ensures DecodeHandle(index[i].value) == Some(blocks[i].handle)
    ensures ReadBlock(t.file, crc, verify, blocks[i].handle) == Some(BlockImage(blocks[i].entries, interval))
    ensures |BlockImage(blocks[i].entries, interval)| < WORD32
    ensures KeysFit(blocks[i].entries) && Increasing(blocks[i].entries, KeyLess)
  {
    hide ReadBlock;
    hide DecodeHandle;
    hide EncodeHandle;
    hide BlockImage;
    hide KeyLess;
    hide Raw;
    hide Separates;
    hide Increasing;
    hide KeysFit;
    hide AllLess;
    HandleRoundTrip(blocks[i].handle);
    ReadsRaw(t.file, crc, verify, blocks[i].handle, BlockImage(blocks[i].entries, interval));
  }

  /** Index keys are sorted, so the index can be searched. */
  lemma IndexIncreases(blocks: seq<DataBlock>, index: seq<Pair>)
    requires BlocksSorted(blocks) && Indexed(blocks, index)
    ensures Increasing(index, KeyLess)
  {
    forall i, j | 0 <= i < j < |index| ensures KeyLess(index[i].key, index[j].key) {
      IndexPairIncreases(blocks, index, i, j);
    }
  }

  lemma IndexPairIncreases(blocks: seq<DataBlock>, index: seq<Pair>, i: nat, j: nat)
    requires BlocksSorted(blocks) && Indexed(blocks, index) && i < j < |index|
    ensures KeyLess(index[i].key, index[j].key)
  {
    hide KeyLess;
    var last := blocks[j].entries[|blocks[j].entries| - 1];
    assert last in blocks[j].entries;
    FirstIsNotAfter(blocks, i + 1, j, last);
    ShortenedIsNotBefore(LastOf(blocks[j].entries), index[j].key);
    NotAfterTransitive(blocks[i + 1].entries[0].key, last.key, index[j].key);
    LessThenNotAfter(index[i].key, blocks[i + 1].entries[0].key, index[j].key);
  }

  lemma LessThenNotAfter(a: Buffer, b: Buffer, c: Buffer)
    requires KeyLess(a, b) && !KeyLess(c, b)
    ensures KeyLess(a, c)
  {
    var x, y, z := ExtractUserKey(a), ExtractUserKey(b), ExtractUserKey(c);
    LexTotal(y, z);
    if Lex(x, y) && Lex(y, z) { LexTransitive(x, y, z); }
  }

  /** A lookup that reads at most one data block finds the first entry at or after the key whenever that
      entry has the key's user key. */
  method InternalGet(t: Table, crc: Checksum, verify: bool, hash: Hash, k: Buffer,
                     ghost interval: nat, ghost blocks: seq<DataBlock>, ghost index: seq<Pair>)
    returns (saved: Option<Pair>, ok: bool)
    requires t.filter.Some? ==> Shaped(t.filter.value)
    ensures Finished(t, crc, interval, blocks, index)
            && (t.filter.Some? ==> FilterCovers(hash, t.filter.value, blocks)) ==>
              ok && FoundIn(blocks, k, saved)
  {
    hide BlockImage;
    hide KeyLess;
    hide Stored;
    hide FoundIn;
    hide MatchesAt;
    hide ReadBlock;
    hide DecodeHandle;
    ghost var good := Finished(t, crc, interval, blocks, index)
        && (t.filter.Some? ==> FilterCovers(hash, t.filter.value, blocks));
    if good { IndexIncreases(blocks, index); }
    var entry;
    ghost var i;
    entry, ok, i := SeekBlock(t.indexBlock, k, index, 1);
    if entry.None? {
      if good { PastTheIndex(blocks, index, k); }
      return None, ok;
    }
    if good { BlockBehindIndex(t, crc, verify, interval, blocks, index, i); }
    var handle := DecodeHandle(entry.value.value);
    if t.filter.Some? && handle.Some? {
      var may := FilterMayMatch(hash, t.filter.value, handle.value.offset, k);
      if !may {
        if good { FilteredOut(hash, t.filter.value, blocks, index, i, k); }
        return None, true;
      }
    }
    var contents := BlockReader(t, crc, verify, entry.value.value);
    if contents.None? {
      return None, false;
    }
    ghost var p;
    saved, ok, p := SeekBlock(contents.value, k, if good then blocks[i].entries else [], interval);
    if good { BlockDecides(blocks, index, i, k, p); }
  }

  lemma FilteredOut(hash: Hash, f: FilterReader, blocks: seq<DataBlock>, index: seq<Pair>, i: nat, k: Buffer)
    requires BlocksSorted(blocks) && Indexed(blocks, index) && i < |blocks| && IsSeek(index, KeyLess, k, i)
    requires FilterCovers(hash, f, blocks) && !MatchesAt(hash, f, blocks[i].handle.offset, k)
    ensures FoundIn(blocks, k, None)
  {
    hide MatchesAt;
    hide KeyLess;
    NotInBlock(blocks, index, i, k);
  }

  lemma BlockDecides(blocks: seq<DataBlock>, index: seq<Pair>, i: nat, k: Buffer, p: nat)
    requires BlocksSorted(blocks) && Indexed(blocks, index) && i < |blocks| && IsSeek(index, KeyLess, k, i)
    requires IsSeek(blocks[i].entries, KeyLess, k, p)
    ensures FoundIn(blocks, k, if p < |blocks[i].entries| then Some(blocks[i].entries[p]) else None)
  {
    hide KeyLess;
    hide FoundIn;
    if p < |blocks[i].entries| {
      FoundInBlock(blocks, index, i, k, p);
    } else {
      NotInBlock(blocks, index, i, k);
    }
  }
}
