/** log::Reader (db/log_reader.cc): physical records. */
module LogReading {
  import opened Options
  import opened Coding
  import opened LogFormat
  import opened LogSplits
  import opened LogRecovery
  import opened LogDamage

  /** The reader's place in a file that is a cut log.  Fragments before `k` are behind it.  Up to the
      end of the file whole blocks are read: the buffer is the unread part of the last one. */
  ghost predicate Tracking(file: Buffer, frags: seq<Frag>, k: nat, buffer: Buffer, filePos: nat, eof: bool,
                           blocks: nat) {
    && |buffer| <= filePos && k <= |frags|
    && filePos == (if eof && filePos <= |file| then |file| else blocks * BLOCK_SIZE)
    && (filePos <= |file| ==> buffer == file[filePos - |buffer|..filePos]) && (filePos > |file| ==> buffer == [])
    && (if eof && filePos <= |file|
        then blocks * BLOCK_SIZE <= filePos - |buffer| && |file| < (blocks + 1) * BLOCK_SIZE
        else |buffer| <= BLOCK_SIZE)
    && Ahead(file, frags, k, filePos - |buffer|)
  }

  /** From `p` on, fragment `k` is the next one, possibly after a trailer. */
  ghost predicate Ahead(file: Buffer, frags: seq<Frag>, k: nat, p: nat)
    requires k <= |frags|
  {
    if k == |frags| then p >= |file|
    else
      var at := frags[k].at;
      p <= at.Flat() < p + HEADER_SIZE && (p == at.Flat() || at.offset == 0)
  }

  ghost predicate Whole(file: Buffer, frags: seq<Frag>, k: nat) { k < |frags| && frags[k].End().Flat() <= |file| }

  ghost predicate Finished(file: Buffer, frags: seq<Frag>, k: nat, buffer: Buffer, eof: bool) {
    eof && buffer == [] && !Whole(file, frags, k)
  }

  ghost predicate IsCut(crc: Checksum, file: Buffer, frags: seq<Frag>) { Chain(frags) && file <= Image(crc, frags) }

  lemma FragFits(frags: seq<Frag>, k: nat)
    requires Chain(frags) && k < |frags|
    ensures frags[k].End().offset <= BLOCK_SIZE
    ensures k + 1 < |frags| ==> frags[k + 1].at == Align(frags[k].End())
  {
    ChainAt(frags, k);
    if k + 1 < |frags| {
      ChainAt(frags, k + 1);
      assert frags[..k + 1][k] == frags[k];
    }
  }

  /** After a full block the next header starts the next block. */
  lemma NextBlock(file: Buffer, frags: seq<Frag>, k: nat, buffer: Buffer, filePos: nat, blocks: nat)
    requires Chain(frags) && Tracking(file, frags, k, buffer, filePos, false, blocks) && |buffer| < HEADER_SIZE
    ensures Ahead(file, frags, k, filePos)
  {
    if k < |frags| { FragFits(frags, k); }
  }

  lemma ReadKeepsTracking(file: Buffer, frags: seq<Frag>, k: nat, filePos: nat, blocks: nat)
    requires Tracking(file, frags, k, [], filePos, false, blocks)
    ensures var n := Available(file, filePos);
            Tracking(file, frags, k, file[Min(filePos, |file|)..Min(filePos, |file|) + n], filePos + n, n < BLOCK_SIZE,
                if n == BLOCK_SIZE then blocks + 1 else blocks)
  {
  }

  lemma BlockIsRead(crc: Checksum, file: Buffer, frags: seq<Frag>, k: nat, buffer: Buffer, filePos: nat, blocks: nat)
    requires IsCut(crc, file, frags) && Tracking(file, frags, k, buffer, filePos, false, blocks)
    requires |buffer| < HEADER_SIZE
    ensures var n := Available(file, filePos);
            Tracking(file, frags, k, file[Min(filePos, |file|)..Min(filePos, |file|) + n], filePos + n, n < BLOCK_SIZE,
                if n == BLOCK_SIZE then blocks + 1 else blocks)
  {
    hide Image;
    hide Chain;
    hide Follows;
    hide Ahead;
    NextBlock(file, frags, k, buffer, filePos, blocks);
    ReadKeepsTracking(file, frags, k, filePos, blocks);
  }

  /** How much a read of one block returns. */
  function Available(file: Buffer, filePos: nat): (n: nat)
    ensures n <= BLOCK_SIZE && Min(filePos, |file|) + n <= |file|
  {
    Min(BLOCK_SIZE, |file| - Min(filePos, |file|))
  }

  /** With a whole header in the buffer, the buffer starts with fragment `k`. */
  lemma AtFragment(file: Buffer, frags: seq<Frag>, k: nat, buffer: Buffer, filePos: nat, eof: bool, blocks: nat)
    requires Chain(frags) && Tracking(file, frags, k, buffer, filePos, eof, blocks) && |buffer| >= HEADER_SIZE
    ensures k < |frags| && frags[k].at.Flat() == filePos - |buffer| && filePos <= |file|
    ensures Whole(file, frags, k) ==> HEADER_SIZE + |frags[k].data| <= |buffer|
    ensures !Whole(file, frags, k) ==> eof && filePos == |file|
  {
    if k < |frags| { FragFits(frags, k); }
  }

  /** What the reader finds at the front of its buffer. */
  ghost predicate Starts(crc: Checksum, buffer: Buffer, f: Frag, whole: bool)
    requires |buffer| >= HEADER_SIZE
  {
    && Length(buffer) == |f.data| && buffer[6] == f.kind
    && (whole ==>
          && HEADER_SIZE + |f.data| <= |buffer|
          && buffer[HEADER_SIZE..HEADER_SIZE + |f.data|] == f.data
          && Unmask(FixedValue(buffer[..4]) % WORD32) == crc(buffer[6..HEADER_SIZE + |f.data|]))
  }

  lemma PhysicalStarts(crc: Checksum, f: Frag)
    requires |f.data| < 0x1_0000
    ensures Starts(crc, Physical(crc, f.kind, f.data), f, true)
  {
    var r, w := Physical(crc, f.kind, f.data), crc([f.kind] + f.data);
    assert r[..4] == Fixed(4, Mask(w));
    CrcField(w);
    assert r[6..HEADER_SIZE + |f.data|] == [f.kind] + f.data;
  }

  /** A buffer that agrees with the fragment's bytes as far as it goes. */
  lemma StartsByPrefix(crc: Checksum, buffer: Buffer, f: Frag, r: Buffer)
    requires |buffer| >= HEADER_SIZE && |r| == HEADER_SIZE + |f.data| && Starts(crc, r, f, true)
    requires forall i :: 0 <= i < |buffer| && i < |r| ==> buffer[i] == r[i]
    ensures Starts(crc, buffer, f, |r| <= |buffer|)
  {
    assert buffer[..4] == r[..4];
    if |r| <= |buffer| {
      assert buffer[HEADER_SIZE..|r|] == r[HEADER_SIZE..|r|];
      assert buffer[6..|r|] == r[6..|r|];
    }
  }

  lemma BufferStarts(crc: Checksum, file: Buffer, frags: seq<Frag>, k: nat, buffer: Buffer, filePos: nat, eof: bool,
                     blocks: nat)
    requires IsCut(crc, file, frags) && Tracking(file, frags, k, buffer, filePos, eof, blocks)
             && |buffer| >= HEADER_SIZE
    requires k < |frags| && frags[k].at.Flat() == filePos - |buffer| && filePos <= |file|
    ensures Starts(crc, buffer, frags[k], HEADER_SIZE + |frags[k].data| <= |buffer|)
  {
    hide Image;
    var f := frags[k];
    FragAt(crc, frags, k);
    PhysicalStarts(crc, f);
    var r := Physical(crc, f.kind, f.data);
    SlicesAgree(file, Image(crc, frags), f.at.Flat(), buffer, r);
    StartsByPrefix(crc, buffer, f, r);
  }

  lemma SlicesAgree(file: Buffer, image: Buffer, at: nat, buffer: Buffer, r: Buffer)
    requires file <= image && at + |buffer| <= |file| && buffer == file[at..at + |buffer|]
    requires at + |r| <= |image| && r == image[at..at + |r|]
    ensures forall i :: 0 <= i < |buffer| && i < |r| ==> buffer[i] == r[i]
  {
    forall i | 0 <= i < |buffer| && i < |r| ensures buffer[i] == r[i] {
      assert buffer[i] == file[at + i] == image[at + i];
    }
  }

  lemma AdvanceKeepsTracking(crc: Checksum, file: Buffer, frags: seq<Frag>, k: nat, buffer: Buffer, filePos: nat,
                             eof: bool, blocks: nat, n: nat)
    requires IsCut(crc, file, frags) && Tracking(file, frags, k, buffer, filePos, eof, blocks) && Whole(file, frags, k)
    requires frags[k].at.Flat() == filePos - |buffer| && filePos <= |file|
             && n == HEADER_SIZE + |frags[k].data| <= |buffer|
    ensures Tracking(file, frags, k + 1, buffer[n..], filePos, eof, blocks)
  {
    FragFits(frags, k);
    assert buffer[n..] == file[filePos - |buffer| + n..filePos];
  }

  lemma FragmentInBuffer(crc: Checksum, file: Buffer, frags: seq<Frag>, k: nat, buffer: Buffer, filePos: nat,
                         eof: bool, blocks: nat)
    requires IsCut(crc, file, frags) && Tracking(file, frags, k, buffer, filePos, eof, blocks)
             && |buffer| >= HEADER_SIZE
    ensures k < |frags| && frags[k].at.Flat() == filePos - |buffer|
    ensures Starts(crc, buffer, frags[k], Whole(file, frags, k))
    ensures !Whole(file, frags, k) ==> eof && HEADER_SIZE + |frags[k].data| > |buffer|
    ensures Whole(file, frags, k) ==>
              Tracking(file, frags, k + 1, buffer[HEADER_SIZE + |frags[k].data|..], filePos, eof, blocks)
  {
    AtFragment(file, frags, k, buffer, filePos, eof, blocks);
    BufferStarts(crc, file, frags, k, buffer, filePos, eof, blocks);
    if Whole(file, frags, k) {
      AdvanceKeepsTracking(crc, file, frags, k, buffer, filePos, eof, blocks, HEADER_SIZE + |frags[k].data|);
    }
  }

  /** Every fragment before `k` starts before `p`, every one from `k` on at or after it. */
  ghost predicate Divides(frags: seq<Frag>, k: nat, p: nat) {
    && k <= |frags|
    && (forall i :: 0 <= i < k ==> frags[i].at.Flat() < p)
    && (forall i :: k <= i < |frags| ==> frags[i].at.Flat() >= p)
  }

  lemma DivideExists(frags: seq<Frag>, p: nat) returns (k: nat)
    requires Chain(frags)
    ensures Divides(frags, k, p)
  {
    k := 0;
    while k < |frags| && frags[k].at.Flat() < p
      invariant k <= |frags| && forall i :: 0 <= i < k ==> frags[i].at.Flat() < p
    {
      k := k + 1;
    }
    forall i | k < i < |frags| ensures frags[i].at.Flat() >= p { PositionsIncrease(frags, k, i); }
  }

  /** The first fragment from the start of a block on starts there, and if there is none, the log has ended. */
  lemma FirstFrom(frags: seq<Frag>, k: nat, block: nat)
    requires Chain(frags) && Divides(frags, k, block * BLOCK_SIZE)
    ensures k < |frags| ==> frags[k].at == Place(block, 0)
    ensures k == |frags| ==> EndOf(frags).Flat() <= block * BLOCK_SIZE
  {
    hide Chain;
    if k == 0 {
      if frags != [] { FirstOfLog(frags); }
    } else {
      FragFits(frags, k - 1);
      StartsBelow(frags[k - 1].at, block);
    }
  }

  lemma FirstOfLog(frags: seq<Frag>)
    requires Chain(frags) && frags != []
    ensures frags[0].at == Place(0, 0)
  {
    ChainAt(frags, 0);
    assert frags[..0] == [];
  }

  lemma StartsBelow(p: Place, block: nat)
    requires p.Flat() < block * BLOCK_SIZE
    ensures p.block < block
  {
  }

  /** At the start of a block, the reader is right before the first fragment of that block. */
  lemma BlockStartTracks(file: Buffer, frags: seq<Frag>, k: nat, block: nat)
    requires Chain(frags) && |file| <= EndOf(frags).Flat() && Divides(frags, k, block * BLOCK_SIZE)
    ensures Tracking(file, frags, k, [], block * BLOCK_SIZE, false, block)
  {
    hide Chain;
    hide EndOf;
    hide Align;
    FirstFrom(frags, k, block);
  }

  lemma TrackingStart(file: Buffer, frags: seq<Frag>)
    requires Chain(frags) && |file| <= EndOf(frags).Flat()
    ensures Tracking(file, frags, 0, [], 0, false, 0)
  {
    if frags != [] {
      ChainAt(frags, 0);
      assert frags[..0] == [];
    }
  }

  // ---------- the physical reader ----------

  ghost predicate KindsOk(frags: seq<Frag>) {
    forall k :: 0 <= k < |frags| ==> frags[k].kind in {FULL, FIRST, MIDDLE, LAST}
  }

  class Reader {
    const file: Buffer
    const crc: Checksum
    const checksum: bool
    const initialOffset: nat
    var filePos: nat
    var buffer: Buffer
    var eof: bool
    var lastRecordOffset: int
    var endOfBufferOffset: nat
    var resyncing: bool
    var drops: nat              // corruption reports so far
    ghost const records: seq<Buffer>
    ghost const frags: seq<Frag>
    ghost var k: nat            // the next fragment
    ghost var blocks: nat       // whole blocks read
    ghost var next: nat         // the next record to return
    ghost const tailFrom: nat   // the first fragment at or after the initial offset
    ghost const tailTo: nat     // the first fragment of the first record to return

    /** Any file may be read; the ghost records say which log it is cut from, if it is. */
    constructor (file: Buffer, crc: Checksum, checksum: bool, initialOffset: nat, ghost records: seq<Buffer>)
      ensures this.file == file && this.crc == crc && this.checksum == checksum
      ensures this.initialOffset == initialOffset && this.records == records && drops == 0
      ensures IsFirstFrom(records, next, initialOffset) && tailTo == FirstFrag(records, next)
      ensures frags == All(records) && Divides(frags, tailFrom, initialOffset)
      ensures file <= LogImage(crc, records) ==> Between()
      ensures Sound() && Position() == 0
    {
      this.file, this.crc, this.checksum, this.initialOffset := file, crc, checksum, initialOffset;
      this.records, this.frags := records, All(records);
      filePos, buffer, eof, lastRecordOffset, endOfBufferOffset := 0, [], false, 0, 0;
      resyncing, drops := initialOffset > 0, 0;
      k, blocks := 0, 0;
      LogFragsChain(records, |records|);
      ghost var first := FirstFromExists(records, initialOffset);
      ghost var start := DivideExists(All(records), initialOffset);
      next, tailFrom, tailTo := first, start, FirstFrag(records, first);
      new;
      TailStarts();
      if file <= LogImage(crc, records) { OpensBetween(); }
    }

    /** How many fragments have been reported when those before `i` are read: the rest of the record that
        began before the initial offset, unless nothing before the offset is read. */
    ghost function Reported(i: nat): nat {
      if AtStart(initialOffset) || i <= tailFrom || tailTo <= tailFrom then 0 else Min(i, tailTo) - tailFrom
    }

    ghost predicate TailOk()
      reads `next, `k
    {
      && next <= |records| && Divides(frags, tailFrom, initialOffset) && tailFrom <= tailTo <= FirstFrag(records, next)
      && (k < FirstFrag(records, next) ==> FirstFrag(records, next) == tailTo)
      && (!AtStart(initialOffset) && k > tailFrom ==> Whole(file, frags, tailFrom))
    }

    lemma TailStarts()
      requires frags == All(records) && IsFirstFrom(records, next, initialOffset) && tailTo == FirstFrag(records, next)
      requires k == 0 && Divides(frags, tailFrom, initialOffset)
      ensures TailOk()
    {
      FirstFragIn(records, next);
    }

    ghost function Unread(): nat
      reads `filePos, `buffer
    {
      |file| - Min(filePos, |file|) + |buffer|
    }

    /** The reader is somewhere in a cut log. */
    ghost predicate Placed()
      reads `k, `buffer, `eof, `filePos, `blocks, `endOfBufferOffset
    {
      && IsCut(crc, file, frags) && KindsOk(frags) && k <= |frags|
      && (Finished(file, frags, k, buffer, eof) ||
          (Tracking(file, frags, k, buffer, filePos, eof, blocks) && endOfBufferOffset == filePos))
    }

    // ---------- any file ----------

    /** The buffer is the part of the file before the next read. */
    ghost predicate InFile()
      reads `filePos, `buffer, `eof, `endOfBufferOffset
    {
      && |buffer| <= Min(filePos, |file|) && buffer == file[Min(filePos, |file|) - |buffer|..Min(filePos, |file|)]
      && |buffer| <= BLOCK_SIZE && |buffer| <= endOfBufferOffset && (eof ==> filePos >= |file|)
    }

    /** Where in the file the unread part of the buffer starts. */
    ghost function Position(): nat
      reads `filePos, `buffer
    {
      if |buffer| <= Min(filePos, |file|) then Min(filePos, |file|) - |buffer| else 0
    }

    /** The state between two calls of ReadRecord, on any file. */
    ghost predicate Sound()
      reads `filePos, `buffer, `eof, `endOfBufferOffset, `lastRecordOffset, `resyncing
    {
      && InFile() && lastRecordOffset >= 0 && (lastRecordOffset < initialOffset ==> buffer == [])
      && (initialOffset == 0 ==> !resyncing)
    }

    /** Nothing was reported since there were `reported` reports, and nothing could be left out before an offset. */
    ghost predicate Quiet(reported: nat)
      reads `drops
    {
      initialOffset == 0 && drops == reported
    }

    /** The state inside ReadRecord, on any file. */
    ghost predicate Tracing(from: nat, reported: nat, t: Trace, a: Assembly)
      reads `filePos, `buffer, `eof, `endOfBufferOffset, `drops, `resyncing, `lastRecordOffset
    {
      && InFile() && lastRecordOffset >= 0 && drops >= reported && (initialOffset == 0 ==> !resyncing)
      && (a.inFragment ==> !resyncing && a.prospective >= initialOffset)
      && Traced(crc, checksum, file, from, Position(), Quiet(reported), t, a)
    }

    /** A physical record stands at the front of `b`. */
    ghost predicate StandsAt(b: Buffer)
      requires |b| >= HEADER_SIZE
    {
      var n := HEADER_SIZE + Length(b);
      !BlankHeader(b) && n <= |b| && Front(crc, checksum, b, b[6], b[HEADER_SIZE..n])
    }

    /** What a header leads to.  A blank one silences the rest of its block; a physical record that stands there is
        handed out, unless it starts before the initial offset; and anything else drops the rest of the buffer, with
        a report unless the file ends inside of it. */
    ghost predicate Outcome(b: Buffer, reported: nat, kind: Byte, result: Buffer)
      requires |b| >= HEADER_SIZE
      reads `buffer, `drops, `eof, `endOfBufferOffset
    {
      var n := HEADER_SIZE + Length(b);
      var start := endOfBufferOffset - |b|;
      if BlankHeader(b) then kind == BAD_RECORD && result == [] && buffer == [] && drops == reported
      else if StandsAt(b) then
        && buffer == b[n..] && drops == reported
        && if start < initialOffset then kind == BAD_RECORD && result == []
           else kind == b[6] && result == b[HEADER_SIZE..n]
      else
        && buffer == [] && result == []
        && if n > |b| && eof then kind == EOF && drops == reported
           else kind == BAD_RECORD && drops == reported + if start < 0 || start >= initialOffset then 1 else 0
    }

    // The difference is of unsigned numbers: it wraps around rather than going below zero.
    method ReportCorruption(bytes: nat)
      modifies `drops
      ensures var start := endOfBufferOffset - |buffer| - bytes;
              drops == old(drops) + if start < 0 || start >= initialOffset then 1 else 0
    {
      var start := endOfBufferOffset - |buffer| - bytes;
      if start < 0 || start >= initialOffset {
        drops := drops + 1;
      }
    }

    /** Read blocks until a header is in the buffer, or the file ends. */
    method Refill() returns (ok: bool)
      modifies `filePos, `buffer, `eof, `endOfBufferOffset, `blocks
      ensures ok ==> |buffer| >= HEADER_SIZE && Unread() <= old(Unread())
      ensures !ok ==> eof && buffer == []
      ensures old(Placed()) ==> Placed() && (!ok ==> !Whole(file, frags, k))
      ensures old(InFile()) ==> InFile()
      ensures old(InFile()) && ok ==> old(Position()) <= Position() < old(Position()) + HEADER_SIZE
      ensures old(InFile()) && !ok ==> Tail(file, old(Position()))
    {
      hide Tail;
      ghost var inFile := InFile();
      while |buffer| < HEADER_SIZE
        invariant Unread() <= old(Unread())
        invariant old(Placed()) ==> Placed()
        invariant old(InFile()) ==> InFile()
        invariant old(InFile()) ==>
                    || (Position() == old(Position()) && buffer == old(buffer))
                    || (Position() == old(Position()) + |old(buffer)| && |old(buffer)| < HEADER_SIZE &&
                        (|buffer| < HEADER_SIZE ==> eof))
        decreases |file| - Min(filePos, |file|), if eof then 0 else 1
      {
        if eof {
          FinishPlaced();
          if inFile { TailFromBefore(file, old(Position()), Position()); }
          buffer := [];
          return false;
        }
        ReadBlock();
      }
      return true;
    }

    // At the end of the file, a piece of a header is no whole fragment.
    lemma FinishPlaced()
      requires |buffer| < HEADER_SIZE && eof
      ensures Placed() ==> !Whole(file, frags, k)
    {
      if Placed() && k < |frags| { FragFits(frags, k); }
    }

    method ReadBlock()
      requires !eof && |buffer| < HEADER_SIZE
      modifies `filePos, `buffer, `eof, `endOfBufferOffset, `blocks
      ensures Unread() <= old(Unread()) && |file| - Min(filePos, |file|) <= |file| - Min(old(filePos), |file|)
      ensures |file| - Min(filePos, |file|) < |file| - Min(old(filePos), |file|) || eof
      ensures old(Placed()) ==> Placed()
      ensures old(InFile()) ==>
                InFile() && Position() == old(Position()) + |old(buffer)| && (|buffer| < HEADER_SIZE ==> eof)
    {
      hide Tracking;
      hide IsCut;
      hide Follows;
      hide Whole;
      hide Ahead;
      hide Fixed;
      hide Place.Flat;
      hide Image;
      hide Chain;
      hide KindsOk;
      ghost var tracked := Placed();
      if tracked { BlockIsRead(crc, file, frags, k, buffer, filePos, blocks); }
      buffer := [];
      var n := Available(file, filePos);
      buffer := file[Min(filePos, |file|)..Min(filePos, |file|) + n];
      filePos := filePos + n;
      endOfBufferOffset := endOfBufferOffset + n;
      if n < BLOCK_SIZE {
        eof := true;
      } else {
        blocks := blocks + 1;
      }
    }

    /** What one call returns when the next fragment is whole, and when it is not. */
    ghost predicate Delivers(k0: nat, kind: Byte, result: Buffer)
      reads `k, `buffer, `eof, `filePos, `blocks, `endOfBufferOffset
      requires k0 <= |frags|
    {
      if Whole(file, frags, k0) then
        && k == k0 + 1 && endOfBufferOffset - |buffer| == frags[k0].End().Flat()
        && if frags[k0].at.Flat() < initialOffset then kind == BAD_RECORD && result == []
           else kind == frags[k0].kind && result == frags[k0].data
      else kind == EOF && k == k0 && Finished(file, frags, k, buffer, eof)
    }

    /** Parse the physical record at the front of the buffer. */
    method ParseHeader() returns (kind: Byte, result: Buffer)
      requires |buffer| >= HEADER_SIZE
      modifies `buffer, `drops, `k
      ensures Unread() < old(Unread()) && drops >= old(drops) && k <= old(k) + 1
      ensures Outcome(old(buffer), old(drops), kind, result)
      ensures old(Placed()) ==> old(k) <= |frags| && Placed() && drops == old(drops) && Delivers(old(k), kind, result)
    {
      hide Placed;
      hide Delivers;
      ghost var placed, k0 := Placed(), k;
      if placed { HeaderOfFragment(); }
      kind, result := ParseBuffer();
      if placed { OutcomeDelivers(old(buffer), k0, old(drops), kind, result); }
    }

    /** The checks on a header. */
    method ParseBuffer() returns (kind: Byte, result: Buffer)
      requires |buffer| >= HEADER_SIZE
      modifies `buffer, `drops, `k
      ensures Unread() < old(Unread()) && drops >= old(drops)
      ensures Outcome(old(buffer), old(drops), kind, result)
      ensures k == old(k) + if StandsAt(old(buffer)) then 1 else 0
    {
      var header := buffer;
      kind, result := header[6], [];
      var length := Length(header);
      if HEADER_SIZE + length <= |buffer| { FrontIs(crc, header); }
      hide Front;
      hide Unmask;
      hide FixedValue;
      if HEADER_SIZE + length > |buffer| {
        var dropSize := |buffer|;
        buffer := [];
        if !eof {
          ReportCorruption(dropSize);
          return BAD_RECORD, [];
        }
        return EOF, [];
      }
      if kind == ZERO && length == 0 {
        buffer := [];
        return BAD_RECORD, [];
      }
      if checksum {
        var expected := Unmask(FixedValue(header[..4]) % WORD32);
        var actual := crc(header[6..HEADER_SIZE + length]);
        if actual != expected {
          var dropSize := |buffer|;
          buffer := [];
          ReportCorruption(dropSize);
          return BAD_RECORD, [];
        }
      }
      buffer := buffer[HEADER_SIZE + length..];
      k := k + 1;
      if endOfBufferOffset - |buffer| - HEADER_SIZE - length < initialOffset {
        return BAD_RECORD, [];
      }
      result := header[HEADER_SIZE..HEADER_SIZE + length];
    }

    /** On a cut log, the outcome is the next fragment, or the end. */
    lemma OutcomeDelivers(b: Buffer, k0: nat, reported: nat, kind: Byte, result: Buffer)
      requires |b| >= HEADER_SIZE && k0 < |frags| && Outcome(b, reported, kind, result)
      requires IsCut(crc, file, frags) && KindsOk(frags) && endOfBufferOffset == filePos
      requires k == k0 + if StandsAt(b) then 1 else 0
      requires frags[k0].kind in {FULL, FIRST, MIDDLE, LAST} && frags[k0].at.Flat() == endOfBufferOffset - |b|
      requires Starts(crc, b, frags[k0], Whole(file, frags, k0))
      requires !Whole(file, frags, k0) ==> eof && HEADER_SIZE + |frags[k0].data| > |b|
      requires Whole(file, frags, k0) ==>
                 Tracking(file, frags, k0 + 1, b[HEADER_SIZE + |frags[k0].data|..], filePos, eof, blocks)
      ensures Placed() && drops == reported && Delivers(k0, kind, result)
    {
      hide Whole;
      hide Tracking;
      hide IsCut;
      hide KindsOk;
      hide Front;
      if Whole(file, frags, k0) { FrontIs(crc, b); }
    }

    lemma HeaderOfFragment()
      requires Placed() && |buffer| >= HEADER_SIZE
      ensures k < |frags| && frags[k].kind in {FULL, FIRST, MIDDLE, LAST} && !Finished(file, frags, k, buffer, eof)
      ensures IsCut(crc, file, frags) && KindsOk(frags) && endOfBufferOffset == filePos
      ensures frags[k].at.Flat() == endOfBufferOffset - |buffer|
      ensures Starts(crc, buffer, frags[k], Whole(file, frags, k))
      ensures !Whole(file, frags, k) ==> eof && HEADER_SIZE + |frags[k].data| > |buffer|
      ensures Whole(file, frags, k) ==>
                Tracking(file, frags, k + 1, buffer[HEADER_SIZE + |frags[k].data|..], filePos, eof, blocks)
    {
      hide Chain;
      hide Zeros;
      hide Mask;
      FragmentInBuffer(crc, file, frags, k, buffer, filePos, eof, blocks);
    }

    /** On any file: what is handed out stands in the file, where the reader was.  Reading from the start, nothing
        else is passed over without a report but a preallocated rest of a block. */
    method ReadPhysicalRecord() returns (kind: Byte, result: Buffer, ghost p: Piece)
      modifies `filePos, `buffer, `eof, `endOfBufferOffset, `blocks, `drops, `k
      ensures kind != EOF ==> Unread() < old(Unread())
      ensures drops >= old(drops)
      ensures kind != EOF && kind != BAD_RECORD ==>
                endOfBufferOffset - |buffer| - HEADER_SIZE - |result| >= initialOffset
      ensures old(InFile()) ==> InFile()
      ensures old(InFile()) && kind == EOF ==> Tail(file, old(Position()))
      ensures old(InFile()) && kind != EOF ==>
                PassedOver(crc, checksum, file, old(Position()), Position(), Quiet(old(drops)), kind, result, p)
      ensures old(Placed()) ==> old(k) <= |frags| && Placed() && drops == old(drops) && Delivers(old(k), kind, result)
    {
      hide Whole;
      hide Outcome;
      hide PassedOver;
      hide Tail;
      ghost var inFile := InFile();
      var ok := Refill();
      if !ok {
        return EOF, [], Blank(0, 0);
      }
      ghost var b, at, reported := buffer, Position(), drops;
      kind, result := ParseHeader();
      p := if BlankHeader(b) then Blank(at, at + |b|)
           else Piece(at, b[6], if HEADER_SIZE + Length(b) <= |b| then b[HEADER_SIZE..HEADER_SIZE + Length(b)] else []);
      OutcomeOffset(b, reported, kind, result);
      if inFile { OutcomeInFile(b, at, reported, kind, result, p, old(Position())); }
    }

    lemma OutcomeOffset(b: Buffer, reported: nat, kind: Byte, result: Buffer)
      requires |b| >= HEADER_SIZE && Outcome(b, reported, kind, result)
      ensures kind != EOF && kind != BAD_RECORD ==>
                endOfBufferOffset - |buffer| - HEADER_SIZE - |result| >= initialOffset
    {
      hide Front;
    }

    lemma OutcomeInFile(b: Buffer, at: nat, reported: nat, kind: Byte, result: Buffer, p: Piece, from: nat)
      requires HEADER_SIZE <= |b| <= BLOCK_SIZE && |b| <= endOfBufferOffset && Outcome(b, reported, kind, result)
      requires |b| <= Min(filePos, |file|) && at == Min(filePos, |file|) - |b| && b == file[at..Min(filePos, |file|)]
      requires from <= at < from + HEADER_SIZE && (eof ==> filePos >= |file|)
      requires p == if BlankHeader(b) then Blank(at, at + |b|)
                    else Piece(at, b[6],
                               if HEADER_SIZE + Length(b) <= |b| then b[HEADER_SIZE..HEADER_SIZE + Length(b)] else [])
      ensures InFile()
      ensures kind == EOF ==> Tail(file, from)
      ensures kind != EOF ==>
                PassedOver(crc, checksum, file, from, Position(), Quiet(reported), kind, result, p)
    {
      hide Front;
      hide Physical;
      assert file[at..][..|b|] == b;
      if BlankHeader(b) {
        assert file[at..at + HEADER_SIZE] == b[..HEADER_SIZE];
      } else if HEADER_SIZE + Length(b) <= |b| && Front(crc, checksum, b, b[6], p.data) {
        FrontOfMore(crc, checksum, b, file[at..], b[6], p.data);
        assert file[at + 6] == b[6];
        if kind == EOF { assert NothingWhole(file, at); }
      } else if kind == EOF {
        assert file[at..] == b;
        assert NothingWhole(file, at);
      }
    }

    // ---------- records ----------

    /** Nothing has been read and the first block is still to be found. */
    ghost predicate Unopened()
      reads `k, `buffer, `eof, `filePos, `blocks, `endOfBufferOffset, `lastRecordOffset, `resyncing, `next
    {
      && lastRecordOffset < initialOffset && filePos == 0 && buffer == [] && !eof && endOfBufferOffset == 0
      && k == 0 && blocks == 0 && resyncing && IsFirstFrom(records, next, initialOffset)
      && IsCut(crc, file, frags) && KindsOk(frags)
    }

    /** The file ended before record `next` was complete. */
    ghost predicate Ended()
      reads `k, `buffer, `eof, `next
    {
      && Finished(file, frags, k, buffer, eof) && IsCut(crc, file, frags) && KindsOk(frags) && k <= |frags|
      && !Complete(records, next, |file|)
    }

    /** The state between two calls of ReadRecord. */
    ghost predicate Between()
      reads `k, `buffer, `eof, `filePos, `blocks, `endOfBufferOffset, `lastRecordOffset, `resyncing, `next, `drops
    {
      && frags == All(records) && next <= |records| && StartsFrom(records, next, initialOffset)
      && TailOk() && drops == Reported(k)
      && (Ended() ||
          if lastRecordOffset < initialOffset then Unopened()
          else Placed() && Approaching(records, next, k, initialOffset, resyncing))
    }

    lemma OpensBetween()
      requires file <= LogImage(crc, records) && frags == All(records) && IsFirstFrom(records, next, initialOffset)
      requires buffer == [] && !eof && filePos == 0 && lastRecordOffset == 0 && endOfBufferOffset == 0
      requires resyncing == (initialOffset > 0) && k == 0 && blocks == 0 && TailOk() && drops == 0
      ensures Between()
    {
      hide LogFrags;
      LogFragsChain(records, |records|);
      KindsAreOk(records, |records|);
      if initialOffset == 0 {
        LogStarts(records);
        TrackingStart(file, frags);
        FirstFragIn(records, 0);
        assert StartsFrom(records, 0, 0);
      }
    }

    /** The state inside ReadRecord. */
    ghost predicate InLoop(inFragment: bool, scratch: Buffer, prospective: int)
      reads `k, `buffer, `eof, `filePos, `blocks, `endOfBufferOffset, `resyncing, `next, `drops
    {
      && frags == All(records) && next <= |records| && StartsFrom(records, next, initialOffset)
      && TailOk() && drops == Reported(k)
      && (Ended() ||
          (Placed() &&
           if inFragment then Inside(records, next, k, scratch) && !resyncing && prospective >= initialOffset
           else Approaching(records, next, k, initialOffset, resyncing)))
    }

    /** What the last physical record means for record `next`. */
    ghost predicate Meaning(passing: bool, inFragment: bool, scratch: Buffer, kind: Byte, data: Buffer)
      reads `k, `buffer, `eof, `filePos, `blocks, `endOfBufferOffset, `resyncing, `next
    {
      if kind == EOF then Ended()
      else if inFragment then
        && (kind == MIDDLE || kind == LAST)
        && (kind == MIDDLE ==> Inside(records, next, k, scratch + data))
        && (kind == LAST ==> Returned(records, next, k, |file|) && scratch + data == records[next])
      else if passing then
        && (kind == BAD_RECORD || kind == MIDDLE || kind == LAST)
        && Approaching(records, next, k, initialOffset, resyncing && kind == MIDDLE)
        && (AtStart(initialOffset) ==> resyncing && kind != BAD_RECORD)
        && (!AtStart(initialOffset) && kind != BAD_RECORD ==> !resyncing)
      else
        && (kind == FULL || kind == FIRST) && endOfBufferOffset - |buffer| - HEADER_SIZE - |data| >= initialOffset
        && (kind == FULL ==> Returned(records, next, k, |file|) && data == records[next])
        && (kind == FIRST ==> Inside(records, next, k, data))
    }

    lemma Understood(k0: nat, ended: bool, inFragment: bool, scratch: Buffer, kind: Byte, data: Buffer)
      requires frags == All(records) && next <= |records| && StartsFrom(records, next, initialOffset)
      requires k0 <= |frags| && Placed() && Delivers(k0, kind, data)
      requires if ended then !Whole(file, frags, k0) && !Complete(records, next, |file|)
               else if inFragment then Inside(records, next, k0, scratch)
               else Approaching(records, next, k0, initialOffset, resyncing)
      ensures Meaning(k0 < FirstFrag(records, next), inFragment, scratch, kind, data)
    {
      if !Whole(file, frags, k0) {
        if !ended { CutStep(records, next, k0, initialOffset, |file|, resyncing, scratch); }
      } else {
        assert Got(records, k0, initialOffset, kind, data) && kind != EOF;
        if inFragment {
          InnerStep(records, next, k0, initialOffset, |file|, scratch, kind, data);
        } else if k0 < FirstFrag(records, next) {
          PassStep(records, next, k0, initialOffset, resyncing, kind, data);
        } else {
          StartStep(records, next, initialOffset, |file|, kind, data);
        }
      }
    }

    /** One physical record further, on any file. */
    ghost predicate Stepped(from: nat, reported: nat, kind: Byte, data: Buffer, p: Piece)
      reads `filePos, `buffer, `eof, `endOfBufferOffset, `drops
    {
      && InFile()
      && if kind == EOF then Tail(file, from)
         else PassedOver(crc, checksum, file, from, Position(), Quiet(reported), kind, data, p)
    }

    /** What reading one more fragment adds to the reports. */
    ghost predicate Counting(passing: bool, kind: Byte, data: Buffer)
      reads `k, `buffer, `endOfBufferOffset, `next, `drops
    {
      && TailOk() && k > 0 && drops == Reported(k - 1)
      && (passing && kind != BAD_RECORD ==> endOfBufferOffset - |buffer| - |data| >= initialOffset)
      && Reported(k) == Reported(k - 1) + if passing && kind != BAD_RECORD && !AtStart(initialOffset) then 1 else 0
    }

    lemma Counted(k0: nat, kind: Byte, data: Buffer)
      requires frags == All(records) && next <= |records| && Divides(frags, tailFrom, initialOffset)
      requires tailFrom <= tailTo <= FirstFrag(records, next)
               && (k0 < FirstFrag(records, next) ==> FirstFrag(records, next) == tailTo)
      requires !AtStart(initialOffset) && k0 > tailFrom ==> Whole(file, frags, tailFrom)
      requires Whole(file, frags, k0) && Delivers(k0, kind, data) && drops == Reported(k0)
               && frags[k0].kind != BAD_RECORD
      ensures Counting(k0 < FirstFrag(records, next), kind, data)
    {
      hide LogFrags;
    }

    method ReadMeaningful(ghost live: bool, a: Assembly)
      returns (kind: Byte, data: Buffer, ghost passing: bool, ghost p: Piece)
      requires live ==> InLoop(a.inFragment, a.scratch, a.prospective)
      modifies `filePos, `buffer, `eof, `endOfBufferOffset, `blocks, `drops, `k
      ensures drops >= old(drops) && (live ==> drops == old(drops))
      ensures kind != EOF ==> Unread() < old(Unread())
      ensures live && kind == EOF ==> Ended() && TailOk() && drops == Reported(k)
      ensures live && kind != EOF ==>
              Placed() && Meaning(passing, a.inFragment, a.scratch, kind, data) && Counting(passing, kind, data)
      ensures live && kind != EOF && a.inFragment ==> !resyncing && a.prospective >= initialOffset
      ensures old(InFile()) ==> Stepped(old(Position()), old(drops), kind, data, p)
      ensures kind != EOF && kind != BAD_RECORD ==>
                endOfBufferOffset - |buffer| - HEADER_SIZE - |data| >= initialOffset
    {
      hide InFile;
      hide Position;
      hide PassedOver;
      hide Tail;
      hide LogFrags;
      hide Divides;
      hide IsCut;
      ghost var k0, ended := k, Ended();
      passing := next <= |records| && k < FirstFrag(records, next);
      kind, data, p := ReadPhysicalRecord();
      if live {
        Understood(k0, ended, a.inFragment, a.scratch, kind, data);
        if kind != EOF { Counted(k0, kind, data); }
      }
    }

    /** Read a physical record; after a seek, the tail of a record is skipped in silence. */
    method ReadResynced(ghost live: bool, a: Assembly)
      returns (kind: Byte, data: Buffer, skip: bool, ghost passing: bool, ghost p: Piece)
      requires live ==> InLoop(a.inFragment, a.scratch, a.prospective)
      modifies `filePos, `buffer, `eof, `endOfBufferOffset, `blocks, `drops, `k, `resyncing
      ensures drops >= old(drops) && (live ==> drops == old(drops))
      ensures kind != EOF ==> Unread() < old(Unread())
      ensures skip ==> kind != EOF && (live ==> InLoop(a.inFragment, a.scratch, a.prospective))
      ensures live && kind == EOF ==> Ended() && TailOk() && drops == Reported(k)
      ensures live && !skip && kind != EOF ==>
              Ready(passing, a.inFragment, a.scratch, kind, data) && Counting(passing, kind, data)
      ensures live && kind != EOF && a.inFragment ==> a.prospective >= initialOffset
      ensures old(InFile()) ==> Stepped(old(Position()), old(drops), kind, data, p)
      ensures kind != EOF && kind != BAD_RECORD ==>
                endOfBufferOffset - |buffer| - HEADER_SIZE - |data| >= initialOffset
      ensures (skip ==> old(resyncing)) && (resyncing ==> old(resyncing)) && (!skip ==> !resyncing)
    {
      hide Stepped;
      hide InFile;
      hide Position;
      hide IsCut;
      hide Whole;
      hide Inside;
      hide Min;
      hide Image;
      hide Chain;
      hide LogFrags;
      hide Tracking;
      hide Finished;
      hide IsTail;
      hide AllPassed;
      hide Divides;
      kind, data, passing, p := ReadMeaningful(live, a);
      skip := false;
      if resyncing {
        if kind == MIDDLE {
          skip := true;
        } else if kind == LAST {
          resyncing := false;
          skip := true;
        } else {
          resyncing := false;
        }
      }
    }

    /** A record is handed to the caller. */
    method Return(ghost live: bool, prospective: int)
      requires live ==>
                next <= |records| && frags == All(records) && StartsFrom(records, next, initialOffset) && Placed()
      requires live ==> Returned(records, next, k, |file|) && prospective >= initialOffset
      requires live ==> TailOk() && drops == Reported(k)
      modifies `lastRecordOffset, `next
      ensures lastRecordOffset == prospective && (live ==> Between() && next == old(next) + 1)
    {
      hide Whole;
      hide Follows;
      hide RecordFrags;
      hide Image;
      hide Chain;
      hide LogFrags;
      lastRecordOffset := prospective;
      if live {
        NextRecord(records, next, k, initialOffset, |file|, resyncing);
        LogFragsPrefix(records, next, next + 1);
        next := next + 1;
      }
    }

    /** Seek to the block that holds the initial offset, or to the next one from within a trailer. */
    method SkipToInitialBlock()
      modifies `endOfBufferOffset, `filePos, `blocks, `k
      ensures filePos >= old(filePos)
      ensures Unread() <= old(Unread())
      ensures old(Unopened() && Between()) ==> InLoop(false, [], 0)
      ensures old(Ended()) ==> Ended() && k == old(k)
    {
      hide Part;
      hide Payload;
      hide EndOf;
      hide Follows;
      hide Frag.End;
      hide Ahead;
      hide Chain;
      hide Image;
      hide LogFrags;
      var blockStart := InitialBlockStart(initialOffset);
      endOfBufferOffset := blockStart;
      if blockStart > 0 {
        filePos := filePos + blockStart;
      }
      if old(Unopened() && Between()) {
        ghost var k1 := DivideExists(frags, blockStart);
        k, blocks := k1, blockStart / BLOCK_SIZE;
        Opened();
      }
    }

    lemma Opened()
      requires frags == All(records) && IsFirstFrom(records, next, initialOffset) && IsCut(crc, file, frags)
               && KindsOk(frags)
      requires buffer == [] && !eof && resyncing && filePos == endOfBufferOffset == InitialBlockStart(initialOffset)
      requires filePos == blocks * BLOCK_SIZE && Divides(frags, k, filePos) && drops == 0
      requires Divides(frags, tailFrom, initialOffset) && tailFrom <= tailTo == FirstFrag(records, next)
      ensures InLoop(false, [], 0)
    {
      hide Image;
      hide Chain;
      hide LogFrags;
      hide Approaching;
      hide Tracking;
      OpenedTail();
      SkipApproaches(records, next, k, initialOffset);
      BlockStartTracks(file, frags, k, blocks);
    }

    lemma OpenedTail()
      requires Divides(frags, k, InitialBlockStart(initialOffset)) && next <= |records|
      requires Divides(frags, tailFrom, initialOffset) && tailFrom <= tailTo == FirstFrag(records, next)
      ensures TailOk() && Reported(k) == 0
    {
      hide LogFrags;
    }

    /** What Dispatch may rely on: a run of passed-over fragments is only left to it when the initial
        offset is not the start of a block. */
    ghost predicate Ready(passing: bool, inFragment: bool, scratch: Buffer, kind: Byte, data: Buffer)
      reads `k, `buffer, `eof, `filePos, `blocks, `endOfBufferOffset, `resyncing, `next
    {
      && frags == All(records) && next <= |records| && StartsFrom(records, next, initialOffset) && Placed()
      && !resyncing && kind != EOF && Meaning(passing, inFragment, scratch, kind, data)
      && (passing && !inFragment ==> !AtStart(initialOffset))
    }

    /** Fit one physical record to the record being assembled. */
    method Dispatch(a: Assembly, kind: Byte, fragment: Buffer, ghost live: bool, ghost passing: bool)
      returns (r: Assembly, record: Option<Buffer>)
      requires live ==>
                Ready(passing, a.inFragment, a.scratch, kind, fragment)
                && (a.inFragment ==> a.prospective >= initialOffset)
      requires live ==> Counting(passing, kind, fragment)
      modifies `drops, `lastRecordOffset, `next
      ensures drops >= old(drops) && (initialOffset == 0 && Complains(a, kind) ==> drops > old(drops))
      ensures var offset := endOfBufferOffset - |buffer| - HEADER_SIZE - |fragment|;
              && (r, record) == Fit(a, kind, fragment, offset)
              && lastRecordOffset == if record.None? then old(lastRecordOffset)
                                     else if kind == FULL then offset else a.prospective
      ensures record.None? ==> next == old(next) && (live ==> InLoop(r.inFragment, r.scratch, r.prospective))
      ensures live && record.Some? ==> Between() && Complete(records, old(next), |file|)
      ensures live && record.Some? ==> record.value == records[old(next)] && next == old(next) + 1
    {
      hide Chain;
      hide Image;
      hide Frag.End;
      hide RecordFrags;
      hide Divides;
      hide Tracking;
      r, record := a, None;
      var physicalRecordOffset := endOfBufferOffset - |buffer| - HEADER_SIZE - |fragment|;
      if kind == FULL || kind == FIRST {
        // An empty first fragment without an end is a known slip of old writers, not a corruption.
        if a.inFragment && a.scratch != [] {
          ReportCorruption(|a.scratch|);
        }
        if kind == FULL {
          record := Some(fragment);
          Return(live, physicalRecordOffset);
        } else {
          r := Assembly(true, fragment, physicalRecordOffset);
        }
      } else if kind == MIDDLE || kind == LAST {
        if !a.inFragment {
          ReportCorruption(|fragment|);
        } else if kind == MIDDLE {
          r := a.(scratch := a.scratch + fragment);
        } else {
          record := Some(a.scratch + fragment);
          Return(live, a.prospective);
        }
      } else if kind == BAD_RECORD {
        if a.inFragment {
          ReportCorruption(|a.scratch|);
        }
        r := a.(inFragment := false, scratch := []);
      } else {
        ReportCorruption(|fragment| + if a.inFragment then |a.scratch| else 0);
        r := a.(inFragment := false, scratch := []);
      }
    }

    /** What one turn of the loop below leaves, on any file. */
    ghost predicate Turned(from: nat, reported: nat, ended: bool, t: Trace, r: Assembly, record: Option<Buffer>)
      reads `filePos, `buffer, `eof, `endOfBufferOffset, `drops, `resyncing, `lastRecordOffset
    {
      && InFile() && lastRecordOffset >= 0 && drops >= reported && (initialOffset == 0 ==> !resyncing)
      && if ended then Quiet(reported) ==> EndFound(crc, checksum, file, from)
         else if record.Some? then
           && lastRecordOffset >= initialOffset
           && RecordFound(crc, checksum, file, from, Position(), Quiet(reported), record.value)
         else Tracing(from, reported, t, r)
    }

    /** One turn of the loop below. */
    method ReadFragment(a: Assembly, ghost live: bool, ghost sound: bool, ghost from: nat, ghost reported: nat,
                        ghost t: Trace)
      returns (ended: bool, r: Assembly, record: Option<Buffer>, ghost t': Trace)
      requires live ==> InLoop(a.inFragment, a.scratch, a.prospective)
      requires sound ==> Tracing(from, reported, t, a)
      modifies this
      ensures drops >= old(drops)
      ensures !ended ==> Unread() < old(Unread())
      ensures !ended && record.None? && live ==> InLoop(r.inFragment, r.scratch, r.prospective)
      ensures record.None? ==> next == old(next) && lastRecordOffset == old(lastRecordOffset)
      ensures ended ==> record.None? && (live ==> Ended() && TailOk() && drops == Reported(k))
      ensures live && record.Some? ==> Between() && Complete(records, old(next), |file|)
      ensures live && record.Some? ==> record.value == records[old(next)] && next == old(next) + 1
      ensures sound ==> Turned(from, reported, ended, t', r, record)
    {
      hide Placed;
      hide Ended;
      hide TailOk;
      hide Between;
      hide Ready;
      hide Counting;
      hide Traced;
      hide PassedOver;
      hide Tail;
      hide EndFound;
      hide RecordFound;
      ghost var pos, before := Position(), drops;
      var kind, fragment, skip;
      ghost var passing, p;
      kind, fragment, skip, passing, p := ReadResynced(live, a);
      r, record, t' := a, None, t;
      ended := kind == EOF;
      if !skip && !ended {
        ghost var offset := endOfBufferOffset - |buffer| - HEADER_SIZE - |fragment|;
        ghost var middle := drops;
        r, record := Dispatch(a, kind, fragment, live, passing);
        if sound { t' := Dispatched(a, pos, before, middle, from, reported, t, kind, fragment, offset, p, r, record); }
      } else if sound {
        SteppedOver(a, pos, before, from, reported, t, kind, fragment, p, ended);
      }
    }

    /** A fragment that was fitted to the assembly goes on the trace. */
    lemma Dispatched(a: Assembly, pos: nat, before: nat, middle: nat, from: nat, reported: nat, t: Trace, kind: Byte,
                     fragment: Buffer, offset: int, p: Piece, r: Assembly, record: Option<Buffer>)
      returns (t': Trace)
      requires Traced(crc, checksum, file, from, pos, initialOffset == 0 && before == reported, t, a)
      requires reported <= before <= middle <= drops && InFile() && kind != EOF && !resyncing
      requires PassedOver(crc, checksum, file, pos, Position(), initialOffset == 0 && middle == before, kind, fragment,
                          p)
      requires initialOffset == 0 && Complains(a, kind) ==> drops > middle
      requires (r, record) == Fit(a, kind, fragment, offset)
      requires lastRecordOffset >= 0 && (a.inFragment ==> a.prospective >= initialOffset)
      requires kind != BAD_RECORD ==> offset >= initialOffset
      requires record.Some? ==> lastRecordOffset == if kind == FULL then offset else a.prospective
      ensures Turned(from, reported, false, t', r, record)
    {
      hide Traced;
      hide InFile;
      hide Position;
      hide RecordFound;
      PassedUnclean(crc, checksum, file, pos, Position(), initialOffset == 0 && middle == before,
                    Quiet(reported), kind, fragment, p);
      t' := TraceNext(crc, checksum, file, from, pos, Position(), initialOffset == 0 && before == reported,
                      Quiet(reported), t, a, kind, fragment, offset, p);
    }

    /** The end, or a fragment that belongs to a record before the initial offset. */
    lemma SteppedOver(a: Assembly, pos: nat, before: nat, from: nat, reported: nat, t: Trace, kind: Byte,
                      fragment: Buffer, p: Piece, ended: bool)
      requires Traced(crc, checksum, file, from, pos, initialOffset == 0 && before == reported, t, a)
      requires reported <= before <= drops && Stepped(pos, before, kind, fragment, p) && lastRecordOffset >= 0
      requires ended == (kind == EOF) && (!ended ==> initialOffset > 0 && !a.inFragment)
      requires initialOffset == 0 ==> !resyncing
      ensures Turned(from, reported, ended, t, a, None)
    {
      hide Found;
      hide Stands;
      if ended {
        if Quiet(reported) { TraceEnds(crc, checksum, file, from, pos, t, a); }
      } else {
        PassedMoves(crc, checksum, file, pos, Position(), Quiet(before), kind, fragment, p);
      }
    }

    /** The next record.  On a cut log it is the next complete one from the initial offset on.  On any file, what is
        returned is joined from physical records that stand in the file one after the other; and reading from the
        start, a call that reports nothing has left out no data but the pieces of an unfinished record at the end. */
    method ReadRecord() returns (ok: bool, record: Buffer)
      modifies this
      ensures drops >= old(drops) && (ok ==> Unread() < old(Unread()))
      ensures old(Between()) ==> Between() && ok == Complete(records, old(next), |file|)
      ensures old(Between()) && ok ==> record == records[old(next)] && next == old(next) + 1
      ensures old(Between()) && !ok ==> next == old(next) && !Whole(file, frags, k)
      ensures old(Sound()) && (ok || initialOffset == 0) ==> Sound()
      ensures old(Sound()) && ok ==>
                RecordFound(crc, checksum, file, old(Position()), Position(), Quiet(old(drops)), record)
      ensures old(Sound()) && !ok && Quiet(old(drops)) ==> EndFound(crc, checksum, file, old(Position()))
    {
      hide Placed;
      hide TailOk;
      hide Whole;
      hide Complete;
      hide Traced;
      hide EndFound;
      hide RecordFound;
      ghost var live, sound, reported := Between(), Sound(), drops;
      if lastRecordOffset < initialOffset {
        SkipToInitialBlock();
      }
      var a := Assembly(false, [], 0);
      ghost var from, t := Position(), Trace([], []);
      TraceBegins(crc, checksum, file, from, initialOffset == 0, a);
      while true
        invariant next == old(next) && drops >= old(drops) && Unread() <= old(Unread())
        invariant live ==> InLoop(a.inFragment, a.scratch, a.prospective)
        invariant sound ==> Tracing(from, reported, t, a)
        invariant lastRecordOffset == old(lastRecordOffset)
        decreases Unread()
      {
        var ended, result;
        ended, a, result, t := ReadFragment(a, live, sound, from, reported, t);
        if ended {
          return false, [];
        }
        if result.Some? {
          if sound { FoundFrom(crc, checksum, file, from, old(Position()), Position(), Quiet(reported), result.value); }
          return true, result.value;
        }
      }
    }
  }

  lemma SkipApproaches(records: seq<Buffer>, n: nat, k: nat, offset: nat)
    requires IsFirstFrom(records, n, offset) && Divides(All(records), k, InitialBlockStart(offset))
    ensures Approaching(records, n, k, offset, true)
  {
    FirstFragIn(records, n);
    LogFragsChain(records, |records|);
    if n < |records| { AtOrAfterStart(records, n, offset); }
    PassedBefore(records, n, k, offset);
    if AtStart(offset) {
      TailBefore(records, n, k, offset);
    } else if k < FirstFrag(records, n) {
      FirstInBlock(All(records), k, InitialBlockStart(offset));
    }
  }

  /** A block that is not after the end of the log starts with a fragment. */
  lemma FirstInBlock(frags: seq<Frag>, k: nat, start: nat)
    requires Chain(frags) && k < |frags| && Divides(frags, k, start) && start % BLOCK_SIZE == 0
    ensures frags[k].at.Flat() == start
  {
    hide Chain;
    assert start == start / BLOCK_SIZE * BLOCK_SIZE;
    FirstFrom(frags, k, start / BLOCK_SIZE);
  }

  /** No header lies between an offset in a trailer and the next block. */
  lemma AtOrAfterStart(records: seq<Buffer>, n: nat, offset: nat)
    requires n < |records| && StartsFrom(records, n, offset)
    ensures All(records)[FirstFrag(records, n)].at.Flat() >= InitialBlockStart(offset)
  {
    hide LogFrags;
    LogFragsChain(records, |records|);
    FragFits(All(records), FirstFrag(records, n));
    NoHeaderInTrailer(All(records)[FirstFrag(records, n)].at, offset);
  }

  lemma NoHeaderInTrailer(at: Place, offset: nat)
    requires at.Flat() >= offset && at.offset + HEADER_SIZE <= BLOCK_SIZE
    ensures at.Flat() >= InitialBlockStart(offset)
  {
    assert offset == offset / BLOCK_SIZE * BLOCK_SIZE + offset % BLOCK_SIZE;
  }
}
