/** What a finished table looks like: stored blocks and an index of separators (table/format.cc). */
module TableFormat {
  import opened Options
  import opened Coding
  import opened LogFormat
  import opened LogDamage
  import opened BlockFormat
  import opened BlockReading
  import opened Bytewise
  import opened InternalKeyBytes

  const TRAILER_SIZE: nat := 5
  const NO_COMPRESSION: Byte := 0

  datatype Handle = Handle(offset: nat, size: nat)

  function EncodeHandle(h: Handle): Buffer { Varint(h.offset) + Varint(h.size) }

  /** Anything after the two numbers is allowed. */
  function DecodeHandle(b: Buffer): Option<Handle> {
    match Varint64At(b)
    case None => None
    case Some((offset, i)) =>
      match Varint64At(b[i..])
      case None => None
      case Some((size, j)) => Some(Handle(offset, size))
  }

  lemma HandleRoundTrip(h: Handle)
    requires h.offset < WORD64 && h.size < WORD64
    ensures DecodeHandle(EncodeHandle(h)) == Some(h)
  {
    Varint64Back(h.offset, Varint(h.size));
    Varint64Back(h.size, []);
    assert Varint(h.size) + [] == Varint(h.size);
    assert EncodeHandle(h)[|Varint(h.offset)|..] == Varint(h.size);
  }

  // ---------- blocks in the file ----------

  /** A block as it is written: contents, type and checksum of both. */
  function Raw(crc: Checksum, contents: Buffer): (r: Buffer)
    ensures |r| == |contents| + TRAILER_SIZE
  {
    contents + [NO_COMPRESSION] + Fixed(4, Mask(crc(contents + [NO_COMPRESSION])))
  }

  /** ReadBlock: a short read, a bad checksum or an unknown type is an error. */
  function ReadBlock(file: Buffer, crc: Checksum, verify: bool, h: Handle): Option<Buffer> {
    if h.offset + h.size + TRAILER_SIZE > |file| then None
    else
      var raw := file[h.offset..h.offset + h.size + TRAILER_SIZE];
      if verify && Unmask(FixedValue(raw[h.size + 1..]) % WORD32) != crc(raw[..h.size + 1]) then None
      else if raw[h.size] != NO_COMPRESSION then None
      else Some(raw[..h.size])
  }

  /** Reading a block back gives its contents. */
  lemma ReadsRaw(file: Buffer, crc: Checksum, verify: bool, h: Handle, contents: Buffer)
    requires h.offset + h.size + TRAILER_SIZE <= |file| && |contents| == h.size
    requires file[h.offset..h.offset + h.size + TRAILER_SIZE] == Raw(crc, contents)
    ensures ReadBlock(file, crc, verify, h) == Some(contents)
  {
    hide Fixed;
    hide FixedValue;
    hide Mask;
    hide Unmask;
    var raw := Raw(crc, contents);
    assert raw[..h.size + 1] == contents + [NO_COMPRESSION];
    assert raw[h.size + 1..] == Fixed(4, Mask(crc(contents + [NO_COMPRESSION])));
    assert raw[..h.size] == contents;
    CrcField(crc(contents + [NO_COMPRESSION]));
  }

  /** With checksums verified, a block is read exactly if its bytes are those of a written block with these contents. */
  lemma ReadsExactly(file: Buffer, crc: Checksum, h: Handle, contents: Buffer)
    requires h.offset + h.size + TRAILER_SIZE <= |file|
    ensures ReadBlock(file, crc, true, h) == Some(contents) <==>
            file[h.offset..h.offset + h.size + TRAILER_SIZE] == Raw(crc, contents)
  {
    hide Fixed;
    hide FixedValue;
    hide Mask;
    hide Unmask;
    var raw := file[h.offset..h.offset + h.size + TRAILER_SIZE];
    if raw == Raw(crc, contents) { ReadsRaw(file, crc, true, h, contents); }
    if ReadBlock(file, crc, true, h) == Some(contents) {
      CrcFieldIff(raw[h.size + 1..], crc(raw[..h.size + 1]));
      assert raw[..h.size + 1] == contents + [NO_COMPRESSION];
      assert raw == raw[..h.size + 1] + raw[h.size + 1..];
    }
  }

  // ---------- tables ----------

  datatype DataBlock = DataBlock(handle: Handle, entries: seq<Pair>)

  ghost predicate Stored(file: Buffer, crc: Checksum, interval: nat, b: DataBlock) {
    && b.handle.offset + b.handle.size + TRAILER_SIZE <= |file| < WORD64
    && b.handle.size == |BlockImage(b.entries, interval)| < WORD32
    && file[b.handle.offset..b.handle.offset + b.handle.size + TRAILER_SIZE] ==
       Raw(crc, BlockImage(b.entries, interval))
  }

  ghost predicate KeysFit(es: seq<Pair>) {
    forall i :: 0 <= i < |es| ==> TAG_SIZE <= |es[i].key| < WORD32
  }

  ghost predicate Holds(blocks: seq<DataBlock>, e: Pair) { exists i :: 0 <= i < |blocks| && e in blocks[i].entries }

  /** Blocks are not empty, sorted inside, and in order. */
  ghost predicate BlocksSorted(blocks: seq<DataBlock>) {
    && (forall i :: 0 <= i < |blocks| ==>
        blocks[i].entries != [] && Increasing(blocks[i].entries, KeyLess) && KeysFit(blocks[i].entries))
    && (forall i, j {:trigger blocks[i], blocks[j]} ::
        0 <= i < j < |blocks| ==> AllLess(blocks[i].entries, blocks[j].entries))
  }

  ghost predicate AllLess(a: seq<Pair>, b: seq<Pair>) {
    forall x, y :: x in a && y in b ==> KeyLess(x.key, y.key)
  }

  function LastOf(es: seq<Pair>): Buffer
    requires es != []
  {
    es[|es| - 1].key
  }

  /** An index key: the last key of its block, or a key shortened past it that shares no user key with
      the next block. */
  ghost predicate Separates(sep: Buffer, es: seq<Pair>)
    requires es != []
  {
    |sep| >= TAG_SIZE && IsShortened(LastOf(es), sep)
  }

  ghost predicate Precedes(sep: Buffer, es: seq<Pair>, next: Buffer)
    requires es != []
  {
    KeyLess(sep, next) && (sep != LastOf(es) ==> Lex(ExtractUserKey(sep), ExtractUserKey(next)))
  }

  /** Index entry `i` leads to block `i` and separates it from the blocks after it. */
  ghost predicate Indexed(blocks: seq<DataBlock>, index: seq<Pair>)
    requires BlocksSorted(blocks)
  {
    && |index| == |blocks|
    && (forall i :: 0 <= i < |blocks| ==>
        index[i].value == EncodeHandle(blocks[i].handle) && Separates(index[i].key, blocks[i].entries))
    && (forall i :: 0 <= i < |blocks| - 1 ==> Precedes(index[i].key, blocks[i].entries, blocks[i + 1].entries[0].key))
  }
}
