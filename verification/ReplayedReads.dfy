/** What replayed tables read as: the last operation on each key, of the operations that came back. */
module ReplayedReads {
  import opened Options
  import opened Coding
  import opened Bytewise
  import opened InternalKeys
  import opened LastWrites
  import opened WriteBatches
  import opened LogFormat
  import opened LogRoundTrip
  import opened LogReplay
  import opened WriteAheadLogs
  import opened ReplayedTables
  import G = GroupCommit

  /** What a list of operations leaves under a key: the value of the last put, unless a deletion follows it. */
  function LastOf(ops: seq<Op>, key: Buffer): Option<Buffer> {
    if ops == [] then None
    else
      var n := |ops| - 1;
      match ops[n]
      case Put(k, value) => if k == key then Some(value) else LastOf(ops[..n], key)
      case Delete(k) => if k == key then None else LastOf(ops[..n], key)
  }

  lemma {:induction false} LastOfGroup(first: nat, ops: seq<Op>, key: Buffer)
    requires first + |ops| <= MAX_SEQUENCE
    ensures LastWrite(AsGroup(first, ops), Rank(key)) == LastOf(ops, key)
  {
    if ops != [] {
      var n := |ops| - 1;
      LastOfGroup(first, ops[..n], key);
      assert AsGroup(first, ops)[..n] == AsGroup(first, ops[..n]);
      RankIsOrder(ops[n].key, key);
    }
  }

  lemma GroupRises(first: nat, ops: seq<Op>)
    requires first + |ops| <= MAX_SEQUENCE
    ensures Rising(AsGroup(first, ops))
    ensures forall i :: 0 <= i < |ops| ==> AsGroup(first, ops)[i].key.sequence == first + i
  {
  }

  /** Operations inserted under consecutive numbers read as the last operation on each key. */
  lemma NumberedReads(first: nat, ops: seq<Op>, key: Buffer, t: Sequence)
    requires first + |ops| <= MAX_SEQUENCE && (ops != [] ==> first + |ops| <= t + 1)
    ensures Numbering(G.Numbered(first, ops))
    ensures Visible(Contents(G.Numbered(first, ops)), Rank(key), t) == LastOf(ops, key)
  {
    hide Rank;
    hide Visible;
    OneGroup(first, ops);
    GroupRises(first, ops);
    LastWriteIsVisible(AsGroup(first, ops), Rank(key), t);
    LastOfGroup(first, ops, key);
  }

  /** A reader at the last sequence of the writer queue sees the last operation of the finished writers on each key,
      whatever the group under way has already put into the memtable. */
  lemma ReadersSeeFinished(states: seq<G.State>, steps: seq<G.Step>, n: nat, key: Buffer)
    requires G.IsRun(states, steps) && n < |states| && |states[n].mem| < MAX_SEQUENCE
    ensures Numbering(states[n].mem) && states[n].last <= MAX_SEQUENCE
    ensures Visible(Contents(states[n].mem), Rank(key), states[n].last) == LastOf(G.Flat(states[n].finished), key)
  {
    hide G.IsRun;
    hide G.Records;
    hide G.GroupsOk;
    hide Rank;
    hide Visible;
    G.RunKeepsInv(states, steps, n);
    var done, more := G.Flat(states[n].finished), G.InsertedOps(states[n]);
    var a, b := G.Numbered(1, done), G.Numbered(1 + |done|, more);
    assert G.Numbered(1, done + more) == a + b;
    NumberingSplits(a, b);
    ContentsJoin(a, b);
    OneGroup(1, done + more);
    OneGroup(1, done);
    OneGroup(1 + |done|, more);
    GroupRises(1, done + more);
    GroupRises(1, done);
    GroupRises(1 + |done|, more);
    RisingIsUnique(AsGroup(1, done + more));
    NumberedReads(1, done, key, |done|);
    LaterIsInvisible(Contents(a), Contents(b), Rank(key), |done|);
  }

  // ---------- tables together ----------

  ghost predicate AllNumbered(tables: seq<Inserted>) {
    forall i {:trigger tables[i]} :: 0 <= i < |tables| ==> Numbering(tables[i])
  }

  /** Everything that some table holds. */
  ghost function Together(tables: seq<Inserted>): set<Entry>
    requires AllNumbered(tables)
  {
    set i, e | 0 <= i < |tables| && e in Contents(tables[i]) :: e
  }

  lemma {:induction false} TogetherIsConcat(tables: seq<Inserted>)
    requires Numbering(Concat(tables))
    ensures AllNumbered(tables) && Together(tables) == Contents(Concat(tables))
  {
    hide Contents;
    if tables == [] {
      NothingIn([]);
    } else {
      var n := |tables| - 1;
      NumberingSplits(Concat(tables[..n]), tables[n]);
      TogetherIsConcat(tables[..n]);
      ContentsJoin(Concat(tables[..n]), tables[n]);
      TogetherNext(tables);
    }
  }

  lemma NumberingSplits(a: Inserted, b: Inserted)
    requires Numbering(a + b)
    ensures Numbering(a) && Numbering(b)
  {
    forall i | 0 <= i < |a| ensures a[i].0 <= MAX_SEQUENCE { assert (a + b)[i] == a[i]; }
    forall i | 0 <= i < |b| ensures b[i].0 <= MAX_SEQUENCE { assert (a + b)[|a| + i] == b[i]; }
  }

  lemma TogetherNext(tables: seq<Inserted>)
    requires tables != [] && AllNumbered(tables[..|tables| - 1]) && Numbering(tables[|tables| - 1])
    ensures AllNumbered(tables)
    ensures Together(tables) == Together(tables[..|tables| - 1]) + Contents(tables[|tables| - 1])
  {
    hide Contents;
    var n := |tables| - 1;
    forall i {:trigger tables[i]} | 0 <= i < |tables| ensures Numbering(tables[i]) {
      assert i < n ==> tables[i] == tables[..n][i];
    }
    forall e | e in Together(tables[..n]) ensures e in Together(tables) {
      var i :| 0 <= i < n && e in Contents(tables[..n][i]);
      assert e in Contents(tables[i]);
    }
    forall e | e in Together(tables) && e !in Contents(tables[n]) ensures e in Together(tables[..n]) {
      var i :| 0 <= i < |tables| && e in Contents(tables[i]);
      assert e in Contents(tables[..n][i]);
    }
  }

  /** Reading the tables together, at or above every number in them. */
  ghost predicate ReadAs(tables: seq<Inserted>, ops: seq<Op>, t: Sequence) {
    AllNumbered(tables) && forall key :: Visible(Together(tables), Rank(key), t) == LastOf(ops, key)
  }

  lemma TablesReadAs(first: nat, ops: seq<Op>, tables: seq<Inserted>, t: Sequence)
    requires Concat(tables) == G.Numbered(first, ops)
    requires first + |ops| <= MAX_SEQUENCE && (ops != [] ==> first + |ops| <= t + 1)
    ensures ReadAs(tables, ops, t)
  {
    hide Visible;
    hide Together;
    hide Contents;
    hide Rank;
    hide LastOf;
    hide Concat;
    GroupRises(first, ops);
    OneGroup(first, ops);
    TogetherIsConcat(tables);
    forall key ensures Visible(Together(tables), Rank(key), t) == LastOf(ops, key) {
      NumberedReads(first, ops, key, t);
    }
  }

  /** Readers at the highest number that was seen, where a reopened database begins, see all of that. */
  ghost predicate ReadFrom(tables: seq<Inserted>, ops: seq<Op>, highest: nat) {
    highest <= MAX_SEQUENCE && forall t: Sequence :: t >= highest ==> ReadAs(tables, ops, t)
  }

  lemma TablesReadFrom(before: nat, first: nat, groups: seq<seq<Op>>, k: nat, tables: seq<Inserted>)
    requires first > 0 && before <= MAX_SEQUENCE && k <= |groups| && Small(first, groups)
    requires Concat(tables) == G.Numbered(first, OpsOf(groups[..k]))
    ensures ReadFrom(tables, OpsOf(groups[..k]), HighestSeen(before, first, groups, k))
    ensures k > 0 && before < first ==> HighestSeen(before, first, groups, k) + 1 == FirstOf(first, groups, k)
  {
    hide ReadAs;
    hide Concat;
    hide OpsOf;
    PrefixIsSmall(first, groups, k);
    var ops := OpsOf(groups[..k]);
    if k == 0 { NothingIsWritten(groups); }
    forall t: Sequence | t >= HighestSeen(before, first, groups, k) ensures ReadAs(tables, ops, t) {
      TablesReadAs(first, ops, tables, t);
    }
  }

  lemma NothingIsWritten(groups: seq<seq<Op>>)
    ensures OpsOf(groups[..0]) == []
  {
  }

  lemma PrefixIsSmall(first: nat, groups: seq<seq<Op>>, k: nat)
    requires k <= |groups| && Small(first, groups)
    ensures first + |OpsOf(groups[..k])| <= MAX_SEQUENCE
  {
    OpsSplit(groups, k, |groups|);
  }

  // ---------- after a replay ----------

  /** Write groups, lose the end of the file at any byte, replay: a key has the value that the last operation on it
      gave it, among the groups that came back. */
  method ReadAfterCut(crc: Checksum, records: seq<Buffer>, cut: nat, paranoid: bool, full: Inserted -> bool,
                      ghost first: nat, ghost groups: seq<seq<Op>>)
    returns (tables: seq<Inserted>, maxSequence: nat, good: bool, ghost k: nat)
    requires Encodable(first, groups) && Small(first, groups)
    requires records == Encoded(first, groups) && cut <= |LogImage(crc, records)|
    ensures good && k <= |groups| && CompleteUpTo(records, 0, k, cut)
    ensures cut == |LogImage(crc, records)| ==> k == |groups|
    ensures ReadFrom(tables, OpsOf(groups[..k]), maxSequence)
    ensures k > 0 ==> maxSequence + 1 == first + |OpsOf(groups[..k])|
  {
    hide LogImage;
    hide Encoded;
    hide CutInto;
    hide CompleteUpTo;
    hide ReadFrom;
    ghost var cuts;
    FirstIsPositive(first, groups);
    hide Encodable;
    hide HighestSeen;
    tables, maxSequence, good, k, cuts := WriteCutReplay(crc, records, cut, paranoid, full, first, groups);
    CutsConcat(first, groups, k, cuts, tables);
    TablesReadFrom(0, first, groups, k, tables);
  }

  lemma FirstIsPositive(first: nat, groups: seq<seq<Op>>)
    requires Encodable(first, groups)
    ensures first > 0
  {
  }

  /** The same for several logs, of which the newest may be cut. */
  method ReadAfterRecovery(files: seq<Buffer>, crc: Checksum, paranoid: bool, full: Inserted -> bool, before: nat,
                           ghost logs: seq<seq<Buffer>>, ghost first: nat, ghost groups: seq<seq<seq<Op>>>)
    returns (tables: seq<Inserted>, maxSequence: nat, good: bool, ghost k: nat)
    requires first > 0 && OnDisk(files, crc, logs, first, groups) && Small(first, Flatten(groups))
    requires before <= MAX_SEQUENCE
    ensures good && k <= |Flatten(groups)| && ReadFrom(tables, OpsOf(Flatten(groups)[..k]), maxSequence)
    ensures files != [] ==> |groups| == |files| && k >= |Flatten(groups[..|files| - 1])|
  {
    hide OnDisk;
    hide CutInto;
    hide Flatten;
    hide CompleteUpTo;
    hide HighestSeen;
    hide ReadFrom;
    ghost var cuts;
    tables, maxSequence, good, k, cuts := RecoverLogs(files, crc, paranoid, full, before, logs, first, groups);
    CutsConcat(first, Flatten(groups), k, cuts, tables);
    CutIsPart(first, Flatten(groups), k, cuts, tables);
    TablesReadFrom(before, first, Flatten(groups), k, tables);
  }

  lemma CutIsPart(first: nat, groups: seq<seq<Op>>, k: nat, cuts: seq<nat>, tables: seq<Inserted>)
    requires CutInto(first, groups, k, cuts, tables)
    ensures k <= |groups|
  {
  }

  /** And for the log of any interleaving of writers: the tables read as a prefix of what was queued. */
  method ReadAfterQueue(file: Buffer, crc: Checksum, paranoid: bool, full: Inserted -> bool,
                        ghost states: seq<G.State>, ghost steps: seq<G.Step>, ghost n: nat)
    returns (tables: seq<Inserted>, maxSequence: nat, good: bool, ghost ops: seq<Op>)
    requires G.IsRun(states, steps) && n < |states| && |G.Replay(states[n].log)| < MAX_SEQUENCE
    requires file <= LogImage(crc, states[n].log)
    ensures good && ops <= G.Flat(states[n].finished + states[n].queue) && ReadFrom(tables, ops, maxSequence)
    ensures file == LogImage(crc, states[n].log) ==> ops == G.Replay(states[n].log)
  {
    hide LogImage;
    hide G.IsRun;
    hide Concat;
    hide CompleteUpTo;
    hide ReadFrom;
    hide IterateSpec;
    hide HighestSeen;
    ghost var log := states[n].log;
    ghost var k;
    tables, maxSequence, good, k := ReplayQueue(file, crc, paranoid, full, states, steps, n);
    ops := OpsOf(Decoded(log)[..k]);
    DecodedReplays(log);
    assert Decoded(log)[..|log|] == Decoded(log);
    OpsSplit(Decoded(log), k, |log|);
    if file == LogImage(crc, log) { AllBack(crc, log, k); }
    TablesReadFrom(0, 1, Decoded(log), k, tables);
  }
}
