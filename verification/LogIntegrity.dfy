/** Reading a log file of which nothing is known: whatever its bytes are, every record handed out is joined from
    physical records that stand in the file, and nothing is lost in silence. */
module LogIntegrity {
  import opened Coding
  import opened LogFormat
  import opened LogDamage
  import opened LogReading

  /** A header with a wrong checksum: no physical record stands there. */
  lemma DamageIsSeen(crc: Checksum, b: Buffer, kind: Byte, data: Buffer)
    requires |b| >= HEADER_SIZE && HEADER_SIZE + Length(b) <= |b|
    requires Unmask(FixedValue(b[..4]) % WORD32) != crc(b[6..HEADER_SIZE + Length(b)])
    ensures !Front(crc, true, b, kind, data)
  {
    hide Front;
    hide Unmask;
    FrontIs(crc, b);
    if Front(crc, true, b, kind, data) { FrontIsOne(crc, true, b, kind, data); }
  }

  /** The records were found one after the other, between these places. */
  ghost predicate FoundInOrder(crc: Checksum, checksum: bool, file: Buffer, places: seq<nat>, quiet: bool,
                               records: seq<Buffer>) {
    && |places| == |records| + 1
    && forall i {:trigger records[i]} :: 0 <= i < |records| ==>
         RecordFound(crc, checksum, file, places[i], places[i + 1], quiet, records[i])
  }

  lemma FoundNext(crc: Checksum, checksum: bool, file: Buffer, places: seq<nat>, before: bool, clean: bool, quiet: bool,
                  records: seq<Buffer>, place: nat, record: Buffer)
    requires FoundInOrder(crc, checksum, file, places, before, records) && (quiet ==> before && clean)
    requires RecordFound(crc, checksum, file, places[|records|], place, clean, record)
    ensures FoundInOrder(crc, checksum, file, places + [place], quiet, records + [record])
  {
    hide Found;
    hide IsRecord;
    hide OnlySilentBefore;
    var all, more := places + [place], records + [record];
    forall i {:trigger more[i]} | 0 <= i < |more|
      ensures RecordFound(crc, checksum, file, all[i], all[i + 1], quiet, more[i])
    {
      if i < |records| {
        assert more[i] == records[i];
        assert RecordFound(crc, checksum, file, places[i], places[i + 1], before, records[i]);
      }
    }
  }

  lemma FoundStill(crc: Checksum, checksum: bool, file: Buffer, places: seq<nat>, before: bool, quiet: bool,
                   records: seq<Buffer>)
    requires FoundInOrder(crc, checksum, file, places, before, records) && (quiet ==> before)
    ensures FoundInOrder(crc, checksum, file, places, quiet, records)
  {
    hide Found;
    hide IsRecord;
    hide OnlySilentBefore;
    forall i {:trigger records[i]} | 0 <= i < |records|
      ensures RecordFound(crc, checksum, file, places[i], places[i + 1], quiet, records[i])
    {
      assert RecordFound(crc, checksum, file, places[i], places[i + 1], before, records[i]);
    }
  }

  /** Read any file to its end.  Without a report, from the start, everything but the pieces of an unfinished record
      at the end has been handed out. */
  method ReadAnyLog(file: Buffer, crc: Checksum, checksum: bool, initialOffset: nat)
    returns (records: seq<Buffer>, drops: nat, ghost places: seq<nat>)
    ensures FoundInOrder(crc, checksum, file, places, initialOffset == 0 && drops == 0, records)
    ensures initialOffset == 0 ==> places[0] == 0
    ensures initialOffset == 0 && drops == 0 ==> EndFound(crc, checksum, file, places[|records|])
  {
    hide RecordFound;
    hide EndFound;
    hide Reader.InFile;
    hide Reader.Between;
    var reader := new Reader(file, crc, checksum, initialOffset, []);
    records, places := [], [reader.Position()];
    assert FoundInOrder(crc, checksum, file, places, initialOffset == 0, records);
    hide FoundInOrder;
    while true
      invariant reader.file == file && reader.crc == crc && reader.checksum == checksum
      invariant reader.initialOffset == initialOffset && reader.Sound() && fresh(reader)
      invariant FoundInOrder(crc, checksum, file, places, initialOffset == 0 && reader.drops == 0, records)
      invariant places != [] && places[|places| - 1] == reader.Position() && places[0] == 0
      invariant |places| == |records| + 1
      decreases reader.Unread()
    {
      ghost var before := reader.drops;
      var ok, record := reader.ReadRecord();
      if !ok {
        FoundStill(crc, checksum, file, places, initialOffset == 0 && before == 0,
                   initialOffset == 0 && reader.drops == 0, records);
        return records, reader.drops, places;
      }
      FoundNext(crc, checksum, file, places, initialOffset == 0 && before == 0, reader.Quiet(before),
                initialOffset == 0 && reader.drops == 0, records, reader.Position(), record);
      records, places := records + [record], places + [reader.Position()];
    }
  }
}
