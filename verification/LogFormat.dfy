/** The record log (db/log_format.h): records are cut into fragments that never cross a 32 KB block. */
module LogFormat {
  import opened Coding

  const BLOCK_SIZE: nat := 32768
  const HEADER_SIZE: nat := 7

  const ZERO: Byte := 0
  const FULL: Byte := 1
  const FIRST: Byte := 2
  const MIDDLE: Byte := 3
  const LAST: Byte := 4

  /** A checksum function is a parameter: nothing here depends on what it computes. */
  type Word32 = w: nat | w < WORD32
  type Checksum = Buffer -> Word32

  const MASK_DELTA: nat := 0xa282ead8

  /** A stored checksum is rotated by 15 bits to the right and offset, so that it is no checksum of itself. */
  function Mask(crc: Word32): Word32 {
    (crc / 0x8000 + crc % 0x8000 * 0x2_0000 + MASK_DELTA) % WORD32
  }

  function Unmask(masked: Word32): Word32 {
    var rot := (masked + WORD32 - MASK_DELTA) % WORD32;
    rot / 0x2_0000 + rot % 0x2_0000 * 0x8000
  }

  lemma UnmaskMask(crc: Word32)
    ensures Unmask(Mask(crc)) == crc
  {
    var rot := crc / 0x8000 + crc % 0x8000 * 0x2_0000;
    assert (Mask(crc) + WORD32 - MASK_DELTA) % WORD32 == rot;
    assert rot / 0x2_0000 == crc % 0x8000 && rot % 0x2_0000 == crc / 0x8000;
  }

  /** A place in the file: a block and an offset up to the block's end. */
  datatype Place = Place(block: nat, offset: nat) {
    function Flat(): nat { block * BLOCK_SIZE + offset }
  }

  /** One fragment of a record and where its header starts. */
  datatype Frag = Frag(at: Place, kind: Byte, data: Buffer) {
    function End(): Place { Place(at.block, at.offset + HEADER_SIZE + |data|) }
  }

  function Physical(crc: Checksum, kind: Byte, data: Buffer): (r: Buffer)
    requires |data| < 0x1_0000
    ensures |r| == HEADER_SIZE + |data|
  {
    Fixed(4, Mask(crc([kind] + data))) + [|data| % 256, |data| / 256, kind] + data
  }

  /** Where the next header goes: too short a trailer is skipped. */
  function Align(p: Place): Place {
    if BLOCK_SIZE - p.offset < HEADER_SIZE then Place(p.block + 1, 0) else p
  }

  function KindOf(begin: bool, end: bool): Byte {
    if begin && end then FULL else if begin then FIRST else if end then LAST else MIDDLE
  }

  function Min(a: nat, b: nat): nat { if a < b then a else b }

  /** A fragment fits its block and follows the end of the file without a gap but a trailer. */
  predicate Follows(p: Place, f: Frag) { f.at == Align(p) && f.End().offset <= BLOCK_SIZE }

  /** The next fragment of what is left of a record. */
  function NextFrag(p: Place, data: Buffer, begin: bool): (f: Frag)
    ensures |f.data| <= |data| && f.data == data[..|f.data|] && Follows(p, f)
  {
    var start := Align(p);
    var n := Min(|data|, BLOCK_SIZE - start.offset - HEADER_SIZE);
    Frag(start, KindOf(begin, n == |data|), data[..n])
  }

  /** The fragments of what is left of a record.  Only a fragment that fills its block can be empty. */
  function RecordFrags(p: Place, data: Buffer, begin: bool): (r: seq<Frag>)
    ensures r != []
    decreases |data|, if p.offset == BLOCK_SIZE then 0 else 1
  {
    var f := NextFrag(p, data, begin);
    if |f.data| == |data| then [f] else [f] + RecordFrags(f.End(), data[|f.data|..], false)
  }

  function EndOf(frags: seq<Frag>): Place {
    if frags == [] then Place(0, 0) else frags[|frags| - 1].End()
  }

  ghost predicate Chain(frags: seq<Frag>) {
    frags != [] ==> Chain(frags[..|frags| - 1]) && Follows(EndOf(frags[..|frags| - 1]), frags[|frags| - 1])
  }

  lemma ChainAppend(frags: seq<Frag>, f: Frag)
    requires Chain(frags) && Follows(EndOf(frags), f)
    ensures Chain(frags + [f])
  {
    assert (frags + [f])[..|frags|] == frags;
  }

  lemma ChainEnd(frags: seq<Frag>)
    requires Chain(frags)
    ensures EndOf(frags).offset <= BLOCK_SIZE
  {
  }

  lemma {:induction false} ChainAt(frags: seq<Frag>, k: nat)
    requires Chain(frags) && k < |frags|
    ensures Follows(EndOf(frags[..k]), frags[k])
  {
    if k < |frags| - 1 {
      ChainAt(frags[..|frags| - 1], k);
      assert frags[..|frags| - 1][..k] == frags[..k];
    }
  }

  lemma {:induction false} RecordFragsChain(frags: seq<Frag>, data: Buffer, begin: bool)
    requires Chain(frags)
    ensures Chain(frags + RecordFrags(EndOf(frags), data, begin))
    decreases |RecordFrags(EndOf(frags), data, begin)|
  {
    var f := NextFrag(EndOf(frags), data, begin);
    ChainAppend(frags, f);
    if |f.data| < |data| {
      RecordFragsChain(frags + [f], data[|f.data|..], false);
      Reassociate(frags, f, RecordFrags(f.End(), data[|f.data|..], false));
    }
  }

  lemma Reassociate(frags: seq<Frag>, f: Frag, rest: seq<Frag>)
    ensures frags + ([f] + rest) == frags + [f] + rest && EndOf(frags + [f]) == f.End()
  {
  }

  /** All fragments of a log that holds the first `n` of these records. */
  function LogFrags(records: seq<Buffer>, n: nat): seq<Frag>
    requires n <= |records|
  {
    if n == 0 then [] else
      var before := LogFrags(records, n - 1);
      before + RecordFrags(EndOf(before), records[n - 1], true)
  }

  lemma {:induction false} LogFragsChain(records: seq<Buffer>, n: nat)
    requires n <= |records|
    ensures Chain(LogFrags(records, n))
  {
    if n > 0 {
      LogFragsChain(records, n - 1);
      RecordFragsChain(LogFrags(records, n - 1), records[n - 1], true);
    }
  }

  lemma {:induction false} LogFragsAppend(records: seq<Buffer>, data: Buffer, n: nat)
    requires n <= |records|
    ensures LogFrags(records + [data], n) == LogFrags(records, n)
  {
    hide Align;
    hide Min;
    hide KindOf;
    if n > 0 { LogFragsAppend(records, data, n - 1); }
  }

  /** The bytes of a file that holds the fragments. */
  function Image(crc: Checksum, frags: seq<Frag>): (r: Buffer)
    requires Chain(frags)
    ensures |r| == EndOf(frags).Flat()
  {
    if frags == [] then [] else
      var f := frags[|frags| - 1];
      var before := Image(crc, frags[..|frags| - 1]);
      before + Zeros(f.at.Flat() - |before|) + Physical(crc, f.kind, f.data)
  }

  function Zeros(n: nat): (r: Buffer)
    ensures |r| == n
  {
    seq(n, _ => 0)
  }

  /** The bytes of a log that holds these records. */
  function LogImage(crc: Checksum, records: seq<Buffer>): Buffer {
    LogFragsChain(records, |records|);
    Image(crc, LogFrags(records, |records|))
  }

  // ---------- finding a fragment in the file ----------

  lemma {:induction false} ImagePrefix(crc: Checksum, frags: seq<Frag>, k: nat)
    requires Chain(frags) && k <= |frags|
    ensures Chain(frags[..k]) && Image(crc, frags[..k]) <= Image(crc, frags)
  {
    if k < |frags| {
      var init := frags[..|frags| - 1];
      ImagePrefix(crc, init, k);
      assert init[..k] == frags[..k];
    } else {
      assert frags[..k] == frags;
    }
  }

  lemma LastFragAt(crc: Checksum, frags: seq<Frag>)
    requires Chain(frags) && frags != []
    ensures var f := frags[|frags| - 1];
            && |f.data| < 0x1_0000 && f.at.Flat() <= f.End().Flat() == |Image(crc, frags)|
            && Image(crc, frags)[f.at.Flat()..f.End().Flat()] == Physical(crc, f.kind, f.data)
  {
    var f := frags[|frags| - 1];
    var before := Image(crc, frags[..|frags| - 1]);
    TailSlice(before + Zeros(f.at.Flat() - |before|), Physical(crc, f.kind, f.data));
  }

  lemma TailSlice(a: Buffer, b: Buffer)
    ensures (a + b)[|a|..] == b
  {
  }

  /** The file holds each fragment at its position. */
  lemma FragAt(crc: Checksum, frags: seq<Frag>, k: nat)
    requires Chain(frags) && k < |frags|
    ensures frags[k].End().Flat() <= EndOf(frags).Flat() && |frags[k].data| < 0x1_0000
    ensures Image(crc, frags)[frags[k].at.Flat()..frags[k].End().Flat()] == Physical(crc, frags[k].kind, frags[k].data)
  {
    hide Image;
    hide Physical;
    ImagePrefix(crc, frags, k + 1);
    LastFragAt(crc, frags[..k + 1]);
    PrefixSlice(Image(crc, frags[..k + 1]), Image(crc, frags), frags[k].at.Flat(), frags[k].End().Flat());
  }

  lemma PrefixSlice(a: Buffer, b: Buffer, i: nat, j: nat)
    requires a <= b && i <= j <= |a|
    ensures a[i..j] == b[i..j]
  {
  }
}
