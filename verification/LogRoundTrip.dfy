/** Writing a log and reading it back, whole or cut anywhere. */
module LogRoundTrip {
  import opened Coding
  import opened LogFormat
  import opened LogSplits
  import opened LogRecovery
  import opened LogReading
  import opened LogWriting

  /** Everything the log holds is complete in the whole file. */
  lemma WholeIsComplete(crc: Checksum, records: seq<Buffer>, j: nat)
    requires j < |records|
    ensures Complete(records, j, |LogImage(crc, records)|)
  {
    LastOfRecord(records, j, |LogImage(crc, records)|);
    AllPositions(records, FirstFrag(records, j + 1) - 1, |All(records)| - 1);
  }

  lemma EndsIncrease(records: seq<Buffer>, i: nat, j: nat)
    requires i <= j < |records|
    requires 0 < FirstFrag(records, i + 1) <= |All(records)| && 0 < FirstFrag(records, j + 1) <= |All(records)|
    ensures All(records)[FirstFrag(records, i + 1) - 1].End().Flat() <=
            All(records)[FirstFrag(records, j + 1) - 1].End().Flat()
  {
    hide LogFrags;
    LogFragsPrefix(records, i + 1, j + 1);
    AllPositions(records, FirstFrag(records, i + 1) - 1, FirstFrag(records, j + 1) - 1);
  }

  /** What is complete in a cut file is a prefix of the records. */
  lemma CompleteIsPrefix(records: seq<Buffer>, i: nat, j: nat, length: nat)
    requires i <= j && Complete(records, j, length)
    ensures Complete(records, i, length)
  {
    if i < j {
      LastOfRecord(records, i, length);
      LastOfRecord(records, j, length);
      EndsIncrease(records, i, j);
    }
  }

  /** The complete records are those before `n`. */
  ghost predicate CompleteUpTo(records: seq<Buffer>, from: nat, n: nat, length: nat) {
    forall j :: from <= j < |records| ==> (Complete(records, j, length) <==> j < n)
  }

  lemma FirstIncomplete(records: seq<Buffer>, from: nat, n: nat, length: nat)
    requires from <= n <= |records| && !Complete(records, n, length)
    requires forall j :: from <= j < n ==> Complete(records, j, length)
    ensures CompleteUpTo(records, from, n, length)
  {
    forall j | n <= j < |records| ensures !Complete(records, j, length) {
      if Complete(records, j, length) { CompleteIsPrefix(records, n, j, length); }
    }
  }

  /** Read until the reader finds no more. */
  method ReadRest(reader: Reader) returns (found: seq<Buffer>)
    requires reader.Between()
    modifies reader
    ensures old(reader.next) + |found| <= |reader.records|
    ensures found == reader.records[old(reader.next)..old(reader.next) + |found|]
    ensures CompleteUpTo(reader.records, old(reader.next), old(reader.next) + |found|, |reader.file|)
    ensures reader.Between() && !Whole(reader.file, reader.frags, reader.k)
  {
    hide Min;
    hide Physical;
    hide Reader.Unopened;
    hide Reader.Placed;
    hide Approaching;
    hide Place.Flat;
    hide EndOf;
    hide AtStart;
    hide LogFrags;
    hide RecordFrags;
    found := [];
    ghost var first := reader.next;
    while true
      invariant reader.Between() && reader.next == first + |found| <= |reader.records|
      invariant found == reader.records[first..first + |found|]
      invariant forall j :: first <= j < first + |found| ==> Complete(reader.records, j, |reader.file|)
      decreases |reader.records| - |found|
    {
      var ok, record := reader.ReadRecord();
      if !ok {
        break;
      }
      found := found + [record];
    }
    FirstIncomplete(reader.records, first, first + |found|, |reader.file|);
  }

  // ---------- when something is reported ----------

  /** One record has a fragment that starts before the offset, in the part of the log that is read, and its
      next fragment starts at or after the offset and is whole. */
  ghost predicate Straddles(records: seq<Buffer>, offset: nat, length: nat) {
    exists k {:trigger All(records)[k]} ::
      && 0 < k < |All(records)| && (All(records)[k].kind == MIDDLE || All(records)[k].kind == LAST)
      && InitialBlockStart(offset) <= All(records)[k - 1].at.Flat() < offset <= All(records)[k].at.Flat()
      && All(records)[k].End().Flat() <= length
  }

  lemma StraddlerIsTail(records: seq<Buffer>, n: nat, from: nat, offset: nat, k: nat)
    requires IsFirstFrom(records, n, offset) && Divides(All(records), from, offset)
    requires k < |All(records)| && (All(records)[k].kind == MIDDLE || All(records)[k].kind == LAST) && k == from
    ensures from < FirstFrag(records, n)
  {
    hide LogFrags;
    FirstFragIn(records, n);
    if FirstFrag(records, n) == from {
      NextFirstFrag(records, n);
      PartOf(records, n, from);
      PartStep(records, n, 0);
    }
  }

  lemma TailStraddles(records: seq<Buffer>, n: nat, from: nat, offset: nat, length: nat)
    requires IsFirstFrom(records, n, offset) && Divides(All(records), from, offset)
    requires !AtStart(offset) && from < FirstFrag(records, n) && from < |All(records)|
             && All(records)[from].End().Flat() <= length
    ensures Straddles(records, offset, length)
  {
    hide LogFrags;
    PassedBefore(records, n, from, offset);
    LogStarts(records);
    FirstFragIn(records, n);
    if from == 0 { assert StartsFrom(records, 0, offset); }
    LogFragsChain(records, |records|);
    var start := DivideExists(All(records), InitialBlockStart(offset));
    FirstInBlock(All(records), start, InitialBlockStart(offset));
    assert Passed(All(records), from, offset);
    assert All(records)[from - 1].at.Flat() < offset;
  }

  /** What the reader counts is above zero exactly when a record straddles the offset. */
  lemma ReportsIff(records: seq<Buffer>, n: nat, from: nat, offset: nat, length: nat)
    requires IsFirstFrom(records, n, offset) && Divides(All(records), from, offset)
    ensures Straddles(records, offset, length) <==>
              !AtStart(offset) && from < FirstFrag(records, n) && from < |All(records)|
                  && All(records)[from].End().Flat() <= length
  {
    hide LogFrags;
    if Straddles(records, offset, length) {
      var k :| 0 < k < |All(records)| && (All(records)[k].kind == MIDDLE || All(records)[k].kind == LAST)
        && InitialBlockStart(offset) <= All(records)[k - 1].at.Flat() < offset <= All(records)[k].at.Flat()
        && All(records)[k].End().Flat() <= length;
      StraddlerIsTail(records, n, from, offset, k);
    }
    if !AtStart(offset) && from < FirstFrag(records, n) && from < |All(records)|
        && All(records)[from].End().Flat() <= length {
      TailStraddles(records, n, from, offset, length);
    }
  }

  lemma WholeBefore(file: Buffer, records: seq<Buffer>, i: nat, k: nat)
    requires !Whole(file, All(records), k) && Whole(file, All(records), i)
    ensures i < k
  {
    hide LogFrags;
    if k <= i { AllPositions(records, k, i); }
  }

  /** Reading a log cut anywhere, from any offset: exactly the complete records whose first fragment starts
      at or after the offset.  Corruption is reported if and only if a record straddles the offset: its later
      fragments are then read without its first one. */
  method ReadAll(file: Buffer, crc: Checksum, checksum: bool, initialOffset: nat, ghost records: seq<Buffer>)
    returns (found: seq<Buffer>, drops: nat, ghost first: nat)
    requires file <= LogImage(crc, records)
    ensures IsFirstFrom(records, first, initialOffset) && first + |found| <= |records|
    ensures found == records[first..first + |found|]
    ensures CompleteUpTo(records, first, first + |found|, |file|)
    ensures drops == 0 <==> !Straddles(records, initialOffset, |file|)
  {
    hide FirstFrag;
    hide Image;
    hide Frag.End;
    hide LogFrags;
    var reader := new Reader(file, crc, checksum, initialOffset, records);
    first := reader.next;
    ghost var from := reader.tailFrom;
    found := ReadRest(reader);
    drops := reader.drops;
    ReportsIff(records, first, from, initialOffset, |file|);
    if Whole(file, All(records), from) { WholeBefore(file, records, from, reader.k); }
  }

  /** At the start of a block nothing straddles. */
  lemma NothingStraddles(records: seq<Buffer>, offset: nat, length: nat)
    requires offset % BLOCK_SIZE == 0
    ensures !Straddles(records, offset, length)
  {
    hide LogFrags;
  }

  const LONG: Buffer := seq(40000, _ => 0)

  lemma LongFrags()
    ensures |All([LONG])| == 2 && All([LONG])[0].at == Place(0, 0)
    ensures All([LONG])[1].kind == LAST && All([LONG])[1].at == Place(1, 0)
  {
    var first := NextFrag(Place(0, 0), LONG, true);
    assert first.End() == Place(0, BLOCK_SIZE) && |first.data| == BLOCK_SIZE - HEADER_SIZE;
    var rest := LONG[|first.data|..];
    assert NextFrag(first.End(), rest, false).data == rest;
    assert RecordFrags(Place(0, 0), LONG, true) == [first] + [NextFrag(first.End(), rest, false)];
    assert LogFrags([LONG], 0) == [];
  }

  /** A record of two fragments, read from offset 1: the second fragment is reported, though nothing in the
      log is damaged. */
  method ReadInsideABlock(crc: Checksum) returns (found: seq<Buffer>, drops: nat)
    ensures found == [] && drops > 0
  {
    hide LogFrags;
    var file := WriteAll(crc, [LONG]);
    ghost var first;
    found, drops, first := ReadAll(file, crc, true, 1, [LONG]);
    LongFrags();
    LongStraddles(crc);
    LongStarts(first);
  }

  lemma LongStraddles(crc: Checksum)
    ensures Straddles([LONG], 1, |LogImage(crc, [LONG])|)
  {
    hide LogFrags;
    LongFrags();
    WholeIsComplete(crc, [LONG], 0);
    LastOfRecord([LONG], 0, |LogImage(crc, [LONG])|);
    FirstFragIn([LONG], 1);
    assert InitialBlockStart(1) <= All([LONG])[1 - 1].at.Flat() < 1 <= All([LONG])[1].at.Flat();
  }

  lemma LongStarts(first: nat)
    requires IsFirstFrom([LONG], first, 1)
    ensures first == 1
  {
    hide LogFrags;
    LongFrags();
    LogStarts([LONG]);
  }

  method WriteAll(crc: Checksum, records: seq<Buffer>) returns (file: Buffer)
    ensures file == LogImage(crc, records)
  {
    assert LogImage(crc, []) == [];
    var writer := new Writer(crc, [], []);
    for i := 0 to |records|
      invariant writer.Valid() && writer.crc == crc && writer.records == records[..i]
    {
      writer.AddRecord(records[i]);
      assert records[..i] + [records[i]] == records[..i + 1];
    }
    assert records[..|records|] == records;
    file := writer.dest;
  }

  /** Write the records, lose the end of the file, and read from the start: a prefix of the records
      comes back, all of them if nothing was lost, and nothing is reported as corrupt. */
  method WriteCutRead(crc: Checksum, records: seq<Buffer>, cut: nat, checksum: bool)
                      returns (found: seq<Buffer>, drops: nat)
    requires cut <= |LogImage(crc, records)|
    ensures drops == 0 && found <= records
    ensures cut == |LogImage(crc, records)| ==> found == records
    ensures CompleteUpTo(records, 0, |found|, cut)
  {
    var file := WriteAll(crc, records);
    ghost var first;
    found, drops, first := ReadAll(file[..cut], crc, checksum, 0, records);
    FirstFragIn(records, 0);
    assert StartsFrom(records, 0, 0);
    NothingStraddles(records, 0, cut);
    if cut == |file| && |found| < |records| { WholeIsComplete(crc, records, |found|); }
  }
}
