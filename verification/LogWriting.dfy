/** log::Writer (db/log_writer.cc). */
module LogWriting {
  import opened Arithmetic
  import opened Coding
  import opened LogFormat

  class Writer {
    const crc: Checksum
    var dest: Buffer
    var blockOffset: nat
    ghost var records: seq<Buffer>

    ghost predicate Valid()
      reads this
    {
      dest == LogImage(crc, records) && InStep(blockOffset, EndOf(LogFrags(records, |records|)))
    }

    /** A writer may start on a log that already holds records; it is told the length only. */
    constructor (crc: Checksum, dest: Buffer, ghost records: seq<Buffer>)
      requires dest == LogImage(crc, records)
      ensures Valid() && this.crc == crc && this.dest == dest && this.records == records
    {
      this.crc, this.dest, this.records := crc, dest, records;
      blockOffset := |dest| % BLOCK_SIZE;
      LogFragsChain(records, |records|);
      ChainEnd(LogFrags(records, |records|));
      LengthInStep(EndOf(LogFrags(records, |records|)));
    }

    method EmitPhysicalRecord(kind: Byte, data: Buffer)
      requires |data| < 0x1_0000
      modifies `dest, `blockOffset
      ensures dest == old(dest) + Physical(crc, kind, data)
      ensures blockOffset == old(blockOffset) + HEADER_SIZE + |data|
    {
      var header := Fixed(4, Mask(crc([kind] + data))) + [|data| % 256, |data| / 256, kind];
      dest := dest + header;
      dest := dest + data;
      blockOffset := blockOffset + HEADER_SIZE + |data|;
    }

    /** Skip a trailer that is too short for a header. */
    method SwitchBlock(ghost end: Place)
      requires InStep(blockOffset, end)
      modifies `dest, `blockOffset
      ensures blockOffset == Align(end).offset && dest == old(dest) + Zeros(Align(end).Flat() - end.Flat())
    {
      var leftover := BLOCK_SIZE - blockOffset;
      if leftover < HEADER_SIZE {
        if leftover > 0 {
          dest := dest + Zeros(leftover);
        }
        blockOffset := 0;
      }
    }

    /** Write the next fragment. */
    method EmitFragment(data: Buffer, ptr: nat, begin: bool, ghost frags: seq<Frag>) returns (n: nat)
      requires ptr <= |data| && Laid(crc, dest, blockOffset, frags)
      modifies `dest, `blockOffset
      ensures var f := NextFrag(EndOf(frags), data[ptr..], begin);
              n == |f.data| && Laid(crc, dest, blockOffset, frags + [f]) && old(dest) <= dest
    {
      hide Physical;
      hide Place.Flat;
      hide Follows;
      hide Image;
      ghost var f := NextFrag(EndOf(frags), data[ptr..], begin);
      SwitchBlock(EndOf(frags));
      var left := |data| - ptr;
      var avail := BLOCK_SIZE - blockOffset - HEADER_SIZE;
      n := Min(left, avail);
      assert data[ptr..ptr + n] == f.data;
      EmitPhysicalRecord(KindOf(begin, left == n), data[ptr..ptr + n]);
      ImageAppend(crc, frags, f);
    }

    /** Cut the record into fragments and write them all. */
    method WriteFragments(data: Buffer, ghost frags0: seq<Frag>, ghost all: seq<Frag>)
      requires Laid(crc, dest, blockOffset, frags0) && ToWrite(frags0, data, true, all)
      modifies `dest, `blockOffset
      ensures Laid(crc, dest, blockOffset, all) && old(dest) <= dest
    {
      hide Min;
      hide Frag.End;
      hide Place.Flat;
      hide Physical;
      var ptr: nat := 0;
      var begin := true;
      ghost var frags := frags0;
      assert data[0..] == data;
      while true
        invariant ptr <= |data| && Laid(crc, dest, blockOffset, frags) && old(dest) <= dest
        invariant ToWrite(frags, data[ptr..], begin, all)
        decreases |all| - |frags|
      {
        RecordFragsStep(frags, data, ptr, begin, all);
        ghost var f := NextFrag(EndOf(frags), data[ptr..], begin);
        var n := EmitFragment(data, ptr, begin, frags);
        frags := frags + [f];
        ptr := ptr + n;
        begin := false;
        if ptr == |data| {
          break;
        }
      }
    }

    /** The record is the last one of the log afterwards, and the log is otherwise what it was. */
    method AddRecord(data: Buffer)
      requires Valid()
      modifies this
      ensures Valid() && records == old(records) + [data] && old(dest) <= dest
    {
      ghost var longer := records + [data];
      LogFragsChain(records, |records|);
      LogFragsAppend(records, data, |records|);
      WriteFragments(data, LogFrags(records, |records|), LogFrags(longer, |longer|));
      records := longer;
    }
  }

  /** The file holds these fragments and the writer is at its end. */
  ghost predicate Laid(crc: Checksum, dest: Buffer, blockOffset: nat, frags: seq<Frag>) {
    Chain(frags) && dest == Image(crc, frags) && InStep(blockOffset, EndOf(frags))
  }

  /** The writer's block offset and the end of the file agree, up to a full block being an empty one. */
  predicate InStep(blockOffset: nat, end: Place) {
    && blockOffset <= BLOCK_SIZE && end.offset <= BLOCK_SIZE
    && (blockOffset == end.offset || (blockOffset == 0 && end.offset == BLOCK_SIZE))
  }

  lemma LengthInStep(end: Place)
    requires end.offset <= BLOCK_SIZE
    ensures InStep(end.Flat() % BLOCK_SIZE, end)
  {
    if end.offset == BLOCK_SIZE {
      DivModUnique(end.Flat(), BLOCK_SIZE, end.block + 1, 0);
    } else {
      DivModUnique(end.Flat(), BLOCK_SIZE, end.block, end.offset);
    }
  }

  lemma ImageAppend(crc: Checksum, frags: seq<Frag>, f: Frag)
    requires Chain(frags) && Follows(EndOf(frags), f) && EndOf(frags).offset <= BLOCK_SIZE
    ensures Chain(frags + [f]) && EndOf(frags + [f]) == f.End()
    ensures Image(crc, frags + [f]) ==
            Image(crc, frags) + Zeros(f.at.Flat() - EndOf(frags).Flat()) + Physical(crc, f.kind, f.data)
  {
    assert (frags + [f])[..|frags|] == frags;
  }

  /** Writing what is left of the record completes `all`. */
  ghost predicate ToWrite(frags: seq<Frag>, left: Buffer, begin: bool, all: seq<Frag>) {
    frags + RecordFrags(EndOf(frags), left, begin) == all
  }

  lemma RecordFragsStep(frags: seq<Frag>, data: Buffer, ptr: nat, begin: bool, all: seq<Frag>)
    requires ptr <= |data| && ToWrite(frags, data[ptr..], begin, all)
    ensures |frags| < |all|
    ensures var f := NextFrag(EndOf(frags), data[ptr..], begin);
            if ptr + |f.data| == |data| then frags + [f] == all
            else ptr + |f.data| < |data| && ToWrite(frags + [f], data[ptr + |f.data|..], false, all)
  {
    var f := NextFrag(EndOf(frags), data[ptr..], begin);
    assert data[ptr..][|f.data|..] == data[ptr + |f.data|..];
    if ptr + |f.data| < |data| {
      Reassociate(frags, f, RecordFrags(f.End(), data[ptr + |f.data|..], false));
    }
  }
}
