/** RecoverLogFile: a log is read record by record, each record is a write batch, and the memtable it fills is
    written out as a table whenever it is full and at the end. */
module LogReplay {
  import opened Options
  import opened Coding
  import opened WriteBatches
  import opened LogFormat
  import opened LogRecovery
  import opened LogReading
  import opened LogRoundTrip
  import opened LogDamage
  import opened LogIntegrity
  import G = GroupCommit

  /** What went into a memtable: operations with their sequence numbers, in the order of insertion. */
  type Inserted = seq<(nat, Op)>

  // ---------- groups of operations, as records ----------

  function OpsOf(groups: seq<seq<Op>>): seq<Op> {
    if groups == [] then [] else OpsOf(groups[..|groups| - 1]) + groups[|groups| - 1]
  }

  /** The sequence number of the first operation of group `i`. */
  function FirstOf(first: nat, groups: seq<seq<Op>>, i: nat): nat
    requires i <= |groups|
  {
    first + |OpsOf(groups[..i])|
  }

  ghost predicate DecodesTo(record: Buffer, sequence: nat, ops: seq<Op>) {
    |record| >= HEADER && IterateSpec(record) == (ops, true) && SequenceOf(record) == sequence
  }

  /** Record by record, the batches of the groups, numbered one after the other. */
  ghost predicate Decodes(records: seq<Buffer>, first: nat, groups: seq<seq<Op>>) {
    && |records| == |groups| && first > 0 && FirstOf(first, groups, |groups|) < WORD64
    && forall i :: 0 <= i < |records| ==> DecodesTo(records[i], FirstOf(first, groups, i), groups[i])
  }

  lemma {:induction false} OpsSplit(groups: seq<seq<Op>>, a: nat, b: nat)
    requires a <= b <= |groups|
    ensures OpsOf(groups[..b]) == OpsOf(groups[..a]) + OpsOf(groups[a..b])
    decreases b - a
  {
    if a == b {
      assert groups[a..b] == [];
    } else {
      OpsSplit(groups, a, b - 1);
      assert groups[..b][..b - 1] == groups[..b - 1] && groups[a..b][..b - a - 1] == groups[a..b - 1];
    }
  }

  /** The operations of groups `a` up to `b`, numbered. */
  function InsertsOf(first: nat, groups: seq<seq<Op>>, a: nat, b: nat): Inserted
    requires a <= b <= |groups|
  {
    G.Numbered(FirstOf(first, groups, a), OpsOf(groups[a..b]))
  }

  lemma InsertsNext(first: nat, groups: seq<seq<Op>>, a: nat, b: nat)
    requires a <= b < |groups|
    ensures InsertsOf(first, groups, a, b + 1) ==
            InsertsOf(first, groups, a, b) + G.Numbered(FirstOf(first, groups, b), groups[b])
    ensures FirstOf(first, groups, b + 1) == FirstOf(first, groups, b) + |groups[b]|
  {
    OpsSplit(groups, a, b);
    assert groups[a..b + 1][..b - a] == groups[a..b];
    assert groups[..b + 1][..b] == groups[..b];
  }

  /** The tables hold groups 0 up to `k`, each the whole groups between two cuts. */
  ghost predicate CutInto(first: nat, groups: seq<seq<Op>>, k: nat, cuts: seq<nat>, tables: seq<Inserted>) {
    && k <= |groups| && |cuts| == |tables| + 1 && cuts[0] == 0 && cuts[|tables|] == k
    && (forall i, j :: 0 <= i <= j < |cuts| ==> cuts[i] <= cuts[j])
    && (forall i {:trigger tables[i]} :: 0 <= i < |tables| ==>
          cuts[i] <= cuts[i + 1] <= |groups| && tables[i] == InsertsOf(first, groups, cuts[i], cuts[i + 1]))
  }

  lemma OneMoreTable(first: nat, groups: seq<seq<Op>>, k: nat, cuts: seq<nat>, tables: seq<Inserted>, k': nat)
    requires CutInto(first, groups, k, cuts, tables) && k <= k' <= |groups|
    ensures CutInto(first, groups, k', cuts + [k'], tables + [InsertsOf(first, groups, k, k')])
  {
    hide InsertsOf;
  }

  /** The highest of `before` and the sequence numbers of the first `k` groups. */
  function HighestSeen(before: nat, first: nat, groups: seq<seq<Op>>, k: nat): nat
    requires k <= |groups| && first > 0
  {
    if k > 0 && FirstOf(first, groups, k) - 1 > before then FirstOf(first, groups, k) - 1 else before
  }

  lemma HighestSeenNext(before: nat, first: nat, groups: seq<seq<Op>>, k: nat)
    requires k < |groups| && first > 0
    ensures var last := FirstOf(first, groups, k + 1) - 1;
            HighestSeen(before, first, groups, k + 1) ==
              if last > HighestSeen(before, first, groups, k) then last else HighestSeen(before, first, groups, k)
  {
    hide OpsOf;
    InsertsNext(first, groups, k, k);
  }

  // ---------- any file ----------

  /** Everything that was inserted, in order. */
  function Concat(tables: seq<Inserted>): Inserted {
    if tables == [] then [] else Concat(tables[..|tables| - 1]) + tables[|tables| - 1]
  }

  /** What the records that were read put into memtables: records too short for a batch nothing, and a damaged batch
      the operations before the damage. */
  function InsertsFrom(seen: seq<Buffer>): Inserted {
    if seen == [] then []
    else
      var record := seen[|seen| - 1];
      InsertsFrom(seen[..|seen| - 1])
      + if |record| < HEADER then [] else G.Numbered(SequenceOf(record), IterateSpec(record).0)
  }

  ghost predicate WholeBatches(seen: seq<Buffer>) {
    forall i :: 0 <= i < |seen| ==> |seen[i]| >= HEADER && IterateSpec(seen[i]).1
  }

  /** The tables of a replay hold what the records found in the file say.  If paranoid checks let it pass, nothing was
      lost: every byte belongs to a record that was read, and every record is a whole batch. */
  ghost predicate Faithful(file: Buffer, crc: Checksum, paranoid: bool, good: bool, tables: seq<Inserted>,
                           seen: seq<Buffer>, places: seq<nat>) {
    && FoundInOrder(crc, true, file, places, paranoid && good, seen) && places[0] == 0
    && (good ==> Concat(tables) == InsertsFrom(seen))
    && (paranoid && good ==> WholeBatches(seen) && EndFound(crc, true, file, places[|seen|]))
  }

  function InMemory(p: Progress): Inserted { if p.mem.Some? then p.mem.value else [] }

  lemma SeenNext(seen: seq<Buffer>, record: Buffer)
    ensures InsertsFrom(seen + [record]) ==
            InsertsFrom(seen) + if |record| < HEADER then [] else G.Numbered(SequenceOf(record), IterateSpec(record).0)
    ensures WholeBatches(seen) && |record| >= HEADER && IterateSpec(record).1 ==> WholeBatches(seen + [record])
  {
    hide IterateSpec;
    hide SequenceOf;
    assert (seen + [record])[..|seen|] == seen;
  }

  lemma InsertJoins(p: Progress, record: Buffer, seen: seq<Buffer>)
    requires |record| >= HEADER && Concat(p.tables) + InMemory(p) == InsertsFrom(seen)
    ensures var p' := Insert(p, SequenceOf(record), IterateSpec(record).0, LastSequence(record));
            Concat(p'.tables) + InMemory(p') == InsertsFrom(seen + [record])
  {
    hide IterateSpec;
    hide SequenceOf;
    hide Concat;
    SeenNext(seen, record);
  }

  lemma WriteJoins(p: Progress)
    requires p.mem.Some?
    ensures Concat(WriteOut(p).tables) + InMemory(WriteOut(p)) == Concat(p.tables) + InMemory(p)
  {
    var tables := WriteOut(p).tables;
    assert tables[..|tables| - 1] == p.tables;
  }

  // ---------- replaying ----------

  /** The sequence number of the last operation of a batch, as the code computes it in 64 bits. */
  function LastSequence(record: Buffer): nat
    requires |record| >= HEADER
  {
    (SequenceOf(record) + CountOf(record) + WORD64 - 1) % WORD64
  }

  lemma LastIsLast(records: seq<Buffer>, first: nat, groups: seq<seq<Op>>, k: nat)
    requires Decodes(records, first, groups) && k < |groups|
    ensures DecodesTo(records[k], FirstOf(first, groups, k), groups[k])
    ensures LastSequence(records[k]) == FirstOf(first, groups, k + 1) - 1
  {
    hide OpsOf;
    hide SequenceOf;
    InsertsNext(first, groups, k, k);
    OpsSplit(groups, k + 1, |groups|);
    assert groups[..|groups|] == groups;
  }

  /** After `k` groups: those before `c` are in tables, the others in the memtable, if there is one. */
  datatype Progress = Progress(tables: seq<Inserted>, mem: Option<Inserted>, maxSequence: nat)

  ghost predicate Replaying(before: nat, first: nat, groups: seq<seq<Op>>, k: nat, c: nat, cuts: seq<nat>, p: Progress)
  {
    && c <= k <= |groups| && first > 0 && CutInto(first, groups, c, cuts, p.tables)
    && p.maxSequence == HighestSeen(before, first, groups, k)
    && if p.mem.Some? then p.mem.value == InsertsOf(first, groups, c, k) else c == k
  }

  lemma ReplayStarts(before: nat, first: nat, groups: seq<seq<Op>>)
    requires first > 0
    ensures Replaying(before, first, groups, 0, 0, [0], Progress([], None, before))
  {
  }

  /** Insert the operations of a batch, and raise the highest sequence number seen. */
  function Insert(p: Progress, sequence: nat, ops: seq<Op>, last: nat): Progress {
    p.(mem := Some((if p.mem.Some? then p.mem.value else []) + G.Numbered(sequence, ops)),
       maxSequence := if last > p.maxSequence then last else p.maxSequence)
  }

  function WriteOut(p: Progress): Progress
    requires p.mem.Some?
  {
    p.(tables := p.tables + [p.mem.value], mem := None)
  }

  lemma ReplayInserts(before: nat, first: nat, groups: seq<seq<Op>>, k: nat, c: nat, cuts: seq<nat>, p: Progress)
    requires Replaying(before, first, groups, k, c, cuts, p) && k < |groups|
    ensures Replaying(before, first, groups, k + 1, c, cuts,
                      Insert(p, FirstOf(first, groups, k), groups[k], FirstOf(first, groups, k + 1) - 1))
  {
    hide CutInto;
    hide OpsOf;
    hide InsertsOf;
    HighestSeenNext(before, first, groups, k);
    InsertsNext(first, groups, c, k);
    NoInserts(first, groups, c);
  }

  lemma ReplayWrites(before: nat, first: nat, groups: seq<seq<Op>>, k: nat, c: nat, cuts: seq<nat>, p: Progress)
    requires Replaying(before, first, groups, k, c, cuts, p) && p.mem.Some?
    ensures Replaying(before, first, groups, k, k, cuts + [k], WriteOut(p))
  {
    hide CutInto;
    hide HighestSeen;
    OneMoreTable(first, groups, c, cuts, p.tables, k);
  }

  /** No memtable that began with group `a` was full after a group before `b`. */
  ghost predicate NotBefore(first: nat, groups: seq<seq<Op>>, a: nat, b: nat, full: Inserted -> bool)
    requires b <= |groups| + 1
  {
    forall j :: a < j < b ==> !full(InsertsOf(first, groups, a, j))
  }

  /** Every table was written as soon as the memtable was full, except the last if the log ended before. */
  ghost predicate CutWhenFull(first: nat, groups: seq<seq<Op>>, cuts: seq<nat>, full: Inserted -> bool, ended: bool) {
    && cuts != []
    && forall i {:trigger cuts[i]} :: 0 <= i < |cuts| - 1 ==>
         && cuts[i] < cuts[i + 1] <= |groups| && NotBefore(first, groups, cuts[i], cuts[i + 1], full)
         && (i < |cuts| - 2 || !ended ==> full(InsertsOf(first, groups, cuts[i], cuts[i + 1])))
  }

  /** The same while replaying. */
  ghost predicate Filling(first: nat, groups: seq<seq<Op>>, k: nat, c: nat, cuts: seq<nat>, full: Inserted -> bool,
                          p: Progress) {
    && c <= k <= |groups| && CutWhenFull(first, groups, cuts, full, false) && cuts[|cuts| - 1] == c
    && NotBefore(first, groups, c, k + 1, full) && (p.mem.Some? ==> c < k)
  }

  lemma FillingStarts(first: nat, groups: seq<seq<Op>>, full: Inserted -> bool, before: nat)
    ensures Filling(first, groups, 0, 0, [0], full, Progress([], None, before))
  {
  }

  /** One more group is in the memtable, and whether it is full decides. */
  lemma FillingMore(before: nat, first: nat, groups: seq<seq<Op>>, k: nat, c: nat, cuts: seq<nat>,
                    full: Inserted -> bool, was: Progress, p: Progress)
    requires Filling(first, groups, k, c, cuts, full, was) && k < |groups|
    requires Replaying(before, first, groups, k + 1, c, cuts, p) && p.mem.Some?
    ensures if full(p.mem.value) then Filling(first, groups, k + 1, k + 1, cuts + [k + 1], full, WriteOut(p))
            else Filling(first, groups, k + 1, c, cuts, full, p)
  {
    hide InsertsOf;
    hide CutInto;
    var cuts' := cuts + [k + 1];
    forall i {:trigger cuts'[i]} | 0 <= i < |cuts'| - 1 ensures cuts'[i] < cuts'[i + 1] <= |groups| {
      assert i < |cuts| - 1 ==> cuts'[i] == cuts[i];
    }
  }

  lemma FillingEnds(before: nat, first: nat, groups: seq<seq<Op>>, k: nat, c: nat, cuts: seq<nat>,
                    full: Inserted -> bool, p: Progress)
    requires Filling(first, groups, k, c, cuts, full, p) && Replaying(before, first, groups, k, c, cuts, p)
    ensures CutWhenFull(first, groups, if p.mem.Some? then cuts + [k] else cuts, full, true)
  {
    hide InsertsOf;
    hide CutInto;
    var cuts' := cuts + [k];
    if p.mem.Some? {
      forall i {:trigger cuts'[i]} | 0 <= i < |cuts'| - 1 ensures cuts'[i] < cuts'[i + 1] <= |groups| {
        assert i < |cuts| - 1 ==> cuts'[i] == cuts[i];
      }
    }
  }

  /** What is known of the reader and the replay after `k` records of a log that was only cut. */
  ghost predicate Living(reader: Reader, records: seq<Buffer>, groups: seq<seq<Op>>, k: nat)
    reads reader
  {
    && reader.Between() && reader.initialOffset == 0 && reader.records == records && reader.next == k
    && |records| == |groups| && k <= |records| && forall j :: 0 <= j < k ==> Complete(records, j, |reader.file|)
  }

  /** The reader stands behind the records seen so far. */
  ghost predicate Watching(reader: Reader, file: Buffer, crc: Checksum, seen: seq<Buffer>, places: seq<nat>)
    reads reader
  {
    && reader.file == file && reader.crc == crc && reader.checksum && reader.initialOffset == 0 && reader.Sound()
    && FoundInOrder(crc, true, file, places, reader.drops == 0, seen)
    && places[0] == 0 && places[|seen|] == reader.Position()
  }

  ghost predicate EverFound(file: Buffer, crc: Checksum, drops: nat, seen: seq<Buffer>, places: seq<nat>) {
    FoundInOrder(crc, true, file, places, drops == 0, seen) && places[0] == 0
  }

  /** Nothing more was found, and if nothing was reported, nothing was lost. */
  ghost predicate Watched(file: Buffer, crc: Checksum, drops: nat, seen: seq<Buffer>, places: seq<nat>) {
    && EverFound(file, crc, drops, seen, places)
    && (drops == 0 ==> EndFound(crc, true, file, places[|seen|]))
  }

  method NextRecord(reader: Reader, ghost records: seq<Buffer>, ghost groups: seq<seq<Op>>, ghost k: nat,
                    ghost live: bool, ghost seen: seq<Buffer>, ghost places: seq<nat>)
    returns (ok: bool, record: Buffer, ghost places': seq<nat>)
    requires live ==> Living(reader, records, groups, k)
    requires Watching(reader, reader.file, reader.crc, seen, places)
    modifies reader
    ensures ok ==> reader.Unread() < old(reader.Unread())
    ensures live ==> reader.drops == 0
    ensures live && ok ==> k < |groups| && record == records[k] && Living(reader, records, groups, k + 1)
    ensures live && !ok ==> Living(reader, records, groups, k) && CompleteUpTo(records, 0, k, |reader.file|)
    ensures ok ==> Watching(reader, reader.file, reader.crc, seen + [record], places')
    ensures !ok ==> Watched(reader.file, reader.crc, reader.drops, seen, places')
  {
    hide LogFrags;
    hide FoundInOrder;
    hide RecordFound;
    hide EndFound;
    hide Reader.InFile;
    ghost var before := reader.drops;
    FoundPlaces(reader.crc, reader.file, places, before == 0, seen);
    ok, record := reader.ReadRecord();
    if live {
      NothingDropped(reader);
      if !ok { FirstIncomplete(records, 0, k, |reader.file|); }
    }
    places' := places;
    if ok {
      FoundNext(reader.crc, true, reader.file, places, before == 0, reader.drops == before, reader.drops == 0, seen,
                reader.Position(), record);
      places' := places + [reader.Position()];
    } else {
      FoundStill(reader.crc, true, reader.file, places, before == 0, reader.drops == 0, seen);
    }
  }

  lemma FoundPlaces(crc: Checksum, file: Buffer, places: seq<nat>, quiet: bool, seen: seq<Buffer>)
    requires FoundInOrder(crc, true, file, places, quiet, seen)
    ensures |places| == |seen| + 1
  {
    hide RecordFound;
  }

  /** What the replay holds after these records. */
  ghost predicate Holding(paranoid: bool, good: bool, p: Progress, seen: seq<Buffer>) {
    && (good ==> Concat(p.tables) + InMemory(p) == InsertsFrom(seen))
    && (paranoid && good ==> WholeBatches(seen))
  }

  lemma HoldsNothing(paranoid: bool, before: nat, reader: Reader)
    requires reader.initialOffset == 0 && reader.checksum && reader.Sound() && reader.drops == 0
    requires reader.Position() == 0
    ensures Holding(paranoid, true, Progress([], None, before), [])
    ensures Watching(reader, reader.file, reader.crc, [], [0])
  {
    hide Reader.InFile;
  }

  /** A record that is too short, or a damaged batch under paranoid checks, changes nothing but the verdict. */
  lemma HoldsShort(paranoid: bool, p: Progress, seen: seq<Buffer>, record: Buffer)
    requires Holding(paranoid, true, p, seen) && |record| < HEADER
    ensures Holding(paranoid, !paranoid, p, seen + [record])
  {
    hide InsertsFrom;
    hide WholeBatches;
    SeenNext(seen, record);
  }

  lemma HoldsMore(paranoid: bool, p: Progress, seen: seq<Buffer>, record: Buffer)
    requires Holding(paranoid, true, p, seen) && |record| >= HEADER && (paranoid ==> IterateSpec(record).1)
    ensures var p' := Insert(p, SequenceOf(record), IterateSpec(record).0, LastSequence(record));
            p'.mem.Some? && Holding(paranoid, true, p', seen + [record])
  {
    hide IterateSpec;
    hide SequenceOf;
    hide Concat;
    hide InsertsFrom;
    hide WholeBatches;
    SeenNext(seen, record);
    InsertJoins(p, record, seen);
  }

  lemma HoldsWritten(paranoid: bool, good: bool, p: Progress, seen: seq<Buffer>)
    requires Holding(paranoid, good, p, seen) && p.mem.Some?
    ensures Holding(paranoid, good, WriteOut(p), seen)
  {
    hide InsertsFrom;
    hide WholeBatches;
    WriteJoins(p);
  }

  lemma HoldsAnything(paranoid: bool, p: Progress, seen: seq<Buffer>)
    ensures Holding(paranoid, false, p, seen)
  {
  }

  lemma StillFound(reader: Reader, file: Buffer, crc: Checksum, seen: seq<Buffer>, places: seq<nat>)
    requires Watching(reader, file, crc, seen, places)
    ensures EverFound(file, crc, reader.drops, seen, places)
  {
  }

  lemma HoldsAll(file: Buffer, crc: Checksum, paranoid: bool, good: bool, drops: nat, p: Progress, seen: seq<Buffer>,
                 places: seq<nat>)
    requires Holding(paranoid, good, p, seen) && (good ==> p.mem.None?)
    requires EverFound(file, crc, drops, seen, places)
    requires paranoid && good ==> drops == 0 && Watched(file, crc, drops, seen, places)
    ensures Faithful(file, crc, paranoid, good, p.tables, seen, places)
  {
    hide EndFound;
    hide RecordFound;
    hide InsertsFrom;
    hide WholeBatches;
    hide Concat;
    FoundStill(crc, true, file, places, drops == 0, paranoid && good, seen);
  }

  lemma LivingStarts(reader: Reader, records: seq<Buffer>, groups: seq<seq<Op>>)
    requires reader.Between() && reader.initialOffset == 0 && reader.records == records && reader.next == 0
    requires |records| == |groups|
    ensures Living(reader, records, groups, 0)
  {
  }

  /** RecoverLogFile.  On a log of batches that was cut at any byte, with paranoid checks or without, it succeeds
      and writes out exactly the groups whose records are complete, in order and no group in part.  On any file, what
      it writes out is what the records say that are found there; paranoid checks refuse every other file. */
  method RecoverLogFile(file: Buffer, crc: Checksum, paranoid: bool, full: Inserted -> bool, before: nat,
                        ghost records: seq<Buffer>, ghost first: nat, ghost groups: seq<seq<Op>>)
    returns (tables: seq<Inserted>, maxSequence: nat, good: bool, ghost k: nat, ghost cuts: seq<nat>)
    ensures !paranoid ==> good
    ensures file <= LogImage(crc, records) && Decodes(records, first, groups) ==>
              && good && k <= |groups| == |records| && first > 0 && CompleteUpTo(records, 0, k, |file|)
              && CutInto(first, groups, k, cuts, tables) && maxSequence == HighestSeen(before, first, groups, k)
              && CutWhenFull(first, groups, cuts, full, true)
    ensures exists seen, places :: Faithful(file, crc, paranoid, good, tables, seen, places)
  {
    hide FoundInOrder;
    hide RecordFound;
    hide EndFound;
    hide InsertsFrom;
    hide WholeBatches;
    hide Concat;
    hide Insert;
    hide LogImage;
    hide IterateSpec;
    hide SequenceOf;
    hide CountOf;
    hide Decodes;
    hide Replaying;
    hide CutInto;
    hide HighestSeen;
    hide Living;
    hide Watching;
    hide EverFound;
    hide Holding;
    hide Faithful;
    hide Filling;
    hide CutWhenFull;
    hide Reader.Between;
    hide Reader.Sound;
    hide CompleteUpTo;
    ghost var live := file <= LogImage(crc, records) && Decodes(records, first, groups);
    var reader := new Reader(file, crc, true, 0, records);
    var p := Progress([], None, before);
    good, k, cuts := true, 0, [0];
    ghost var c := 0;
    ghost var seen: seq<Buffer>, places: seq<nat> := [], [0];
    HoldsNothing(paranoid, before, reader);
    StartsAtFirst(records, reader.next);
    if live {
      CountsRecords(records, first, groups);
      LivingStarts(reader, records, groups);
      ReplayStarts(before, first, groups);
      FillingStarts(first, groups, full, before);
    }
    while true
      invariant !paranoid ==> good
      invariant live ==> good && Living(reader, records, groups, k)
      invariant live ==> Replaying(before, first, groups, k, c, cuts, p) && Filling(first, groups, k, c, cuts, full, p)
      invariant reader.file == file && reader.crc == crc
      invariant Watching(reader, file, crc, seen, places) && Holding(paranoid, good, p, seen)
      invariant paranoid && good ==> reader.drops == 0
      decreases reader.Unread()
    {
      var ok, record;
      ghost var earlier := seen;
      ok, record, places := NextRecord(reader, records, groups, k, live, seen, places);
      if ok {
        seen := seen + [record];
        StillFound(reader, file, crc, seen, places);
      }
      if paranoid && reader.drops > 0 {
        good := false;
      }
      if !ok || !good {
        break;
      }
      if live { LastIsLast(records, first, groups, k); }
      if |record| < HEADER {
        HoldsShort(paranoid, p, earlier, record);
        if paranoid {
          good := false;
        }
        continue;
      }
      var ops, whole := Iterate(record);
      if paranoid && !whole {
        good := false;
        break;
      }
      ghost var was := p;
      HoldsMore(paranoid, p, earlier, record);
      p := Insert(p, SequenceOf(record), ops, LastSequence(record));
      if live {
        ReplayInserts(before, first, groups, k, c, cuts, was);
        FillingMore(before, first, groups, k, c, cuts, full, was, p);
        k := k + 1;
      }
      if full(p.mem.value) {
        HoldsWritten(paranoid, good, p, seen);
        if live { ReplayWrites(before, first, groups, k, c, cuts, p); }
        p, cuts, c := WriteOut(p), cuts + [k], k;
      }
    }
    if !good { HoldsAnything(paranoid, p, seen); }
    if live { FillingEnds(before, first, groups, k, c, cuts, full, p); }
    if p.mem.Some? && good {
      HoldsWritten(paranoid, good, p, seen);
      if live { ReplayWrites(before, first, groups, k, c, cuts, p); }
      p, cuts, c := WriteOut(p), cuts + [k], k;
    }
    tables, maxSequence := p.tables, p.maxSequence;
    if live { ReplayEnds(before, first, groups, k, c, cuts, p); }
    HoldsAll(file, crc, paranoid, good, reader.drops, p, seen, places);
  }

  lemma ReplayEnds(before: nat, first: nat, groups: seq<seq<Op>>, k: nat, c: nat, cuts: seq<nat>, p: Progress)
    requires Replaying(before, first, groups, k, c, cuts, p) && p.mem.None?
    ensures k <= |groups| && first > 0
    ensures CutInto(first, groups, k, cuts, p.tables) && p.maxSequence == HighestSeen(before, first, groups, k)
  {
  }

  lemma CountsRecords(records: seq<Buffer>, first: nat, groups: seq<seq<Op>>)
    requires Decodes(records, first, groups)
    ensures |records| == |groups| && first > 0
  {
  }

  lemma StartsAtFirst(records: seq<Buffer>, n: nat)
    requires IsFirstFrom(records, n, 0)
    ensures n == 0
  {
    hide All;
    FirstFragIn(records, 0);
    assert StartsFrom(records, 0, 0);
  }

  lemma NoInserts(first: nat, groups: seq<seq<Op>>, c: nat)
    requires c <= |groups|
    ensures InsertsOf(first, groups, c, c) == []
  {
    assert groups[c..c] == [];
  }

  /** From the start of a log that was only cut, nothing is reported. */
  lemma NothingDropped(reader: Reader)
    requires reader.Between() && reader.initialOffset == 0
    ensures reader.drops == 0
  {
    hide LogFrags;
  }
}
