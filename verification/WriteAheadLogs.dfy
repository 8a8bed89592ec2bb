/** What the bytes of write-ahead logs mean for crash recovery: logs of which the newest was cut at any byte replay
    to a prefix of the groups of writes. */
module WriteAheadLogs {
  import opened Coding
  import opened WriteBatches
  import opened LogFormat
  import opened LogSplits
  import opened LogRecovery
  import opened LogRoundTrip
  import opened LogReplay
  import G = GroupCommit

  // ---------- writing, cutting and replaying ----------

  /** The records of a log that these groups went to. */
  function Encoded(first: nat, groups: seq<seq<Op>>): (r: seq<Buffer>)
    ensures |r| == |groups|
  {
    if groups == [] then []
    else
      var n := |groups| - 1;
      Encoded(first, groups[..n]) + [BatchBytes(FirstOf(first, groups, n), groups[n])]
  }

  ghost predicate Encodable(first: nat, groups: seq<seq<Op>>) {
    && first > 0 && FirstOf(first, groups, |groups|) < WORD64
    && forall i :: 0 <= i < |groups| ==> AllFit(groups[i])
  }

  lemma {:induction false} EncodedAt(first: nat, groups: seq<seq<Op>>, i: nat)
    requires i < |groups|
    ensures Encoded(first, groups)[i] == BatchBytes(FirstOf(first, groups, i), groups[i])
  {
    hide BatchBytes;
    hide OpsOf;
    if i < |groups| - 1 {
      EncodedAt(first, groups[..|groups| - 1], i);
      assert groups[..|groups| - 1][..i] == groups[..i];
    }
  }

  lemma EncodedDecodes(first: nat, groups: seq<seq<Op>>)
    requires Encodable(first, groups)
    ensures Decodes(Encoded(first, groups), first, groups)
  {
    hide BatchBytes;
    hide OpsOf;
    hide AllFit;
    hide IterateSpec;
    hide SequenceOf;
    hide Encoded;
    forall i | 0 <= i < |groups| ensures DecodesTo(Encoded(first, groups)[i], FirstOf(first, groups, i), groups[i]) {
      EncodedAt(first, groups, i);
      InsertsNext(first, groups, i, i);
      OpsSplit(groups, i + 1, |groups|);
      assert groups[..|groups|] == groups;
      BatchDecodes(FirstOf(first, groups, i), groups[i]);
    }
  }

  lemma BatchDecodes(sequence: nat, ops: seq<Op>)
    requires AllFit(ops) && sequence < WORD64
    ensures DecodesTo(BatchBytes(sequence, ops), sequence, ops)
  {
    hide OpsBytes;
    hide IterateSpec;
    BatchRoundTrip(sequence, ops);
    HeaderBack(sequence, ops);
  }

  /** Write the groups, lose the end of the file, and replay it: whole groups come back, in order and none in
      part, all of them if nothing was lost, in tables cut wherever the memtable was full. */
  method WriteCutReplay(crc: Checksum, records: seq<Buffer>, cut: nat, paranoid: bool, full: Inserted -> bool,
                        ghost first: nat, ghost groups: seq<seq<Op>>)
    returns (tables: seq<Inserted>, maxSequence: nat, good: bool, ghost k: nat, ghost cuts: seq<nat>)
    requires Encodable(first, groups) && records == Encoded(first, groups) && cut <= |LogImage(crc, records)|
    ensures good && k <= |groups| && CutInto(first, groups, k, cuts, tables) && CompleteUpTo(records, 0, k, cut)
    ensures maxSequence == HighestSeen(0, first, groups, k) && (cut == |LogImage(crc, records)| ==> k == |groups|)
    ensures CutWhenFull(first, groups, cuts, full, true)
  {
    hide CutWhenFull;
    hide LogImage;
    hide Encoded;
    hide Decodes;
    hide CutInto;
    hide HighestSeen;
    EncodedDecodes(first, groups);
    var file := WriteAll(crc, records);
    tables, maxSequence, good, k, cuts := RecoverLogFile(file[..cut], crc, paranoid, full, 0, records, first, groups);
    if cut == |file| && k < |groups| { WholeIsComplete(crc, records, k); }
  }

  // ---------- a crash ----------

  lemma {:induction false} SameFrags(a: seq<Buffer>, b: seq<Buffer>, n: nat)
    requires n <= |a| && a <= b
    ensures LogFrags(a, n) == LogFrags(b, n)
  {
    hide RecordFrags;
    if n > 0 { SameFrags(a, b, n - 1); }
  }

  /** What is written first stays in front, and its length is where its last record ends. */
  lemma ImageOfPrefix(crc: Checksum, records: seq<Buffer>, n: nat)
    requires n <= |records|
    ensures LogImage(crc, records[..n]) <= LogImage(crc, records)
    ensures |LogImage(crc, records[..n])| == EndOf(LogFrags(records, n)).Flat()
  {
    hide Image;
    hide Chain;
    SameFrags(records[..n], records, n);
    LogFragsPrefix(records, n, |records|);
    LogFragsChain(records, |records|);
    ImagePrefix(crc, LogFrags(records, |records|), FirstFrag(records, n));
    assert LogFrags(records, |records|)[..FirstFrag(records, n)] == LogFrags(records, n);
  }

  /** The records up to one that was synced outlive any cut behind it: a cut of the newest log keeps at least
      the synced groups. */
  lemma CutKeepsSynced(crc: Checksum, records: seq<Buffer>, synced: nat, cut: nat, k: nat)
    requires synced <= |records| && |LogImage(crc, records[..synced])| <= cut
    requires k <= |records| && CompleteUpTo(records, 0, k, cut)
    ensures synced <= k
  {
    hide LogImage;
    ImageOfPrefix(crc, records, synced);
    if k < synced { CompleteIsPrefix(records, k, synced - 1, cut); }
  }

  /** Any number of groups may be what a cut leaves. */
  lemma EveryPrefixIsACut(crc: Checksum, records: seq<Buffer>, k: nat)
    requires k <= |records|
    ensures CompleteUpTo(records, 0, k, |LogImage(crc, records[..k])|)
  {
    hide LogImage;
    ImageOfPrefix(crc, records, k);
    forall j | 0 <= j < k ensures Complete(records, j, |LogImage(crc, records[..k])|) {
      CompleteIsPrefix(records, j, k - 1, |LogImage(crc, records[..k])|);
    }
    if k < |records| {
      EndGrows(records, k);
      FirstIncomplete(records, 0, k, |LogImage(crc, records[..k])|);
    }
  }

  lemma EndGrows(records: seq<Buffer>, k: nat)
    requires k < |records|
    ensures EndOf(LogFrags(records, k)).Flat() < EndOf(LogFrags(records, k + 1)).Flat()
  {
    hide RecordFrags;
    hide Chain;
    hide LogFrags;
    hide Follows;
    var i, n := FirstFrag(records, k), FirstFrag(records, k + 1);
    LogFragsPrefix(records, k, |records|);
    LogFragsPrefix(records, k, k + 1);
    LogFragsPrefix(records, k + 1, |records|);
    LogFragsChain(records, |records|);
    LogFragsChain(records, k);
    ChainEnd(LogFrags(records, k));
    ChainAt(All(records), i);
    assert All(records)[..i] == LogFrags(records, k) && All(records)[..n] == LogFrags(records, k + 1);
    FollowerEndsLater(EndOf(LogFrags(records, k)), All(records)[i]);
    AllPositions(records, i, n - 1);
  }

  lemma FollowerEndsLater(p: Place, f: Frag)
    requires Follows(p, f) && p.offset <= BLOCK_SIZE
    ensures p.Flat() < f.End().Flat()
  {
  }

  // ---------- several logs ----------

  function Flatten(logs: seq<seq<seq<Op>>>): seq<seq<Op>> {
    if logs == [] then [] else Flatten(logs[..|logs| - 1]) + logs[|logs| - 1]
  }

  /** Logs in the order of their numbers: sequence numbers go on from one to the next, and only the last may have
      been cut. */
  ghost predicate OnDisk(files: seq<Buffer>, crc: Checksum, logs: seq<seq<Buffer>>, first: nat,
                         groups: seq<seq<seq<Op>>>) {
    && |files| == |logs| == |groups|
    && (forall i {:trigger logs[i]} :: 0 <= i < |logs| ==>
          && Decodes(logs[i], FirstOf(first, Flatten(groups[..i]), |Flatten(groups[..i])|), groups[i])
          && files[i] <= LogImage(crc, logs[i]))
    && (forall i {:trigger files[i]} :: 0 <= i < |files| - 1 ==> files[i] == LogImage(crc, logs[i]))
  }

  function Shifted(cuts: seq<nat>, n: nat): seq<nat> {
    seq(|cuts|, i requires 0 <= i < |cuts| => cuts[i] + n)
  }

  /** Tables of one log, and after them those of the next. */
  lemma CutsJoin(first: nat, a: seq<seq<Op>>, cuts: seq<nat>, tables: seq<Inserted>, b: seq<seq<Op>>, k: nat,
                 cuts': seq<nat>, tables': seq<Inserted>)
    requires CutInto(first, a, |a|, cuts, tables) && CutInto(FirstOf(first, a, |a|), b, k, cuts', tables')
    ensures CutInto(first, a + b, |a| + k, cuts + Shifted(cuts'[1..], |a|), tables + tables')
  {
    hide InsertsOf;
    var all := cuts + Shifted(cuts'[1..], |a|);
    forall i {:trigger (tables + tables')[i]} | 0 <= i < |tables + tables'|
      ensures all[i] <= all[i + 1] <= |a + b| && (tables + tables')[i] == InsertsOf(first, a + b, all[i], all[i + 1])
    {
      if i < |tables| {
        InsertsOfFirst(first, a, b, cuts[i], cuts[i + 1]);
      } else {
        var j := i - |tables|;
        InsertsOfSecond(first, a, b, cuts'[j], cuts'[j + 1]);
      }
    }
  }

  lemma InsertsOfFirst(first: nat, a: seq<seq<Op>>, b: seq<seq<Op>>, i: nat, j: nat)
    requires i <= j <= |a|
    ensures InsertsOf(first, a + b, i, j) == InsertsOf(first, a, i, j)
  {
    assert (a + b)[i..j] == a[i..j] && (a + b)[..i] == a[..i];
  }

  lemma InsertsOfSecond(first: nat, a: seq<seq<Op>>, b: seq<seq<Op>>, i: nat, j: nat)
    requires i <= j <= |b|
    ensures InsertsOf(first, a + b, |a| + i, |a| + j) == InsertsOf(FirstOf(first, a, |a|), b, i, j)
  {
    assert (a + b)[|a| + i..|a| + j] == b[i..j];
    OpsSplit(a + b, |a|, |a| + i);
    assert (a + b)[..|a|] == a == a[..|a|] && (a + b)[|a|..|a| + i] == b[..i];
  }

  lemma HighestJoin(before: nat, first: nat, a: seq<seq<Op>>, b: seq<seq<Op>>, k: nat)
    requires first > 0 && k <= |b|
    ensures HighestSeen(before, first, a + b, |a| + k) ==
            HighestSeen(HighestSeen(before, first, a, |a|), FirstOf(first, a, |a|), b, k)
  {
    hide OpsOf;
    OpsSplit(a + b, |a|, |a| + k);
    assert (a + b)[..|a|] == a == a[..|a|] && (a + b)[|a|..|a| + k] == b[..k];
    if k == 0 { assert b[..0] == []; }
  }

  lemma FlattenNext(logs: seq<seq<seq<Op>>>, i: nat)
    requires i < |logs|
    ensures Flatten(logs[..i + 1]) == Flatten(logs[..i]) + logs[i]
  {
    assert logs[..i + 1][..i] == logs[..i];
  }

  ghost predicate Recovering(before: nat, first: nat, groups: seq<seq<Op>>, k: nat, cuts: seq<nat>,
                             tables: seq<Inserted>, highest: nat) {
    && first > 0 && CutInto(first, groups, k, cuts, tables) && highest == HighestSeen(before, first, groups, k)
  }

  lemma NothingYet(before: nat, first: nat, logs: seq<seq<seq<Op>>>)
    requires first > 0
    ensures Recovering(before, first, Flatten(logs[..0]), 0, [0], [], before) && Flatten(logs[..0]) == []
  {
  }

  lemma RecoveredMore(before: nat, first: nat, done: seq<seq<Op>>, cuts: seq<nat>, tables: seq<Inserted>, highest: nat,
                      more: seq<seq<Op>>, k: nat, cuts': seq<nat>, tables': seq<Inserted>)
    requires Recovering(before, first, done, |done|, cuts, tables, highest)
    requires CutInto(FirstOf(first, done, |done|), more, k, cuts', tables')
    ensures cuts' != []
    ensures Recovering(before, first, done + more, |done| + k, cuts + Shifted(cuts'[1..], |done|), tables + tables',
                       HighestSeen(highest, FirstOf(first, done, |done|), more, k))
  {
    hide HighestSeen;
    CutsJoin(first, done, cuts, tables, more, k, cuts', tables');
    HighestJoin(before, first, done, more, k);
  }

  lemma LogOnDisk(files: seq<Buffer>, crc: Checksum, logs: seq<seq<Buffer>>, first: nat, groups: seq<seq<seq<Op>>>,
                  i: nat)
    requires OnDisk(files, crc, logs, first, groups) && i < |files|
    ensures |files| == |logs| == |groups| && files[i] <= LogImage(crc, logs[i])
    ensures Decodes(logs[i], FirstOf(first, Flatten(groups[..i]), |Flatten(groups[..i])|), groups[i])
    ensures i < |files| - 1 ==> files[i] == LogImage(crc, logs[i])
  {
  }

  lemma AllBack(crc: Checksum, records: seq<Buffer>, k: nat)
    requires k <= |records| && CompleteUpTo(records, 0, k, |LogImage(crc, records)|)
    ensures k == |records|
  {
    hide LogImage;
    if k < |records| { WholeIsComplete(crc, records, k); }
  }

  /** The loop of DBImpl::Recover.  Every group of the older logs comes back, and of the newest one those whose
      records are complete. */
  method RecoverLogs(files: seq<Buffer>, crc: Checksum, paranoid: bool, full: Inserted -> bool, before: nat,
                     ghost logs: seq<seq<Buffer>>, ghost first: nat, ghost groups: seq<seq<seq<Op>>>)
    returns (tables: seq<Inserted>, maxSequence: nat, good: bool, ghost k: nat, ghost cuts: seq<nat>)
    ensures !paranoid ==> good
    ensures first > 0 && OnDisk(files, crc, logs, first, groups) ==>
              && good && Recovering(before, first, Flatten(groups), k, cuts, tables, maxSequence)
              && |logs| == |groups| == |files|
              && (files != [] ==>
                    var n := |files| - 1;
                    var older := |Flatten(groups[..n])|;
                    older <= k && CompleteUpTo(logs[n], 0, k - older, |files[n]|))
  {
    hide LogImage;
    hide Decodes;
    hide CompleteUpTo;
    hide OnDisk;
    hide Recovering;
    hide CutInto;
    hide Flatten;
    hide Faithful;
    hide CutWhenFull;
    hide HighestSeen;
    hide FirstOf;
    ghost var live := first > 0 && OnDisk(files, crc, logs, first, groups);
    tables, maxSequence, good, k, cuts := [], before, true, 0, [0];
    if live {
      NothingYet(before, first, groups);
      NoLogMissing(files, crc, logs, first, groups);
    }
    for i := 0 to |files|
      invariant !paranoid ==> good
      invariant live ==> |logs| == |groups| == |files| && good
      invariant live ==> Recovering(before, first, Flatten(groups[..i]), k, cuts, tables, maxSequence)
      invariant live && i < |files| ==> k == |Flatten(groups[..i])|
      invariant live && i > 0 ==>
                  var older := |Flatten(groups[..i - 1])|;
                  older <= k && CompleteUpTo(logs[i - 1], 0, k - older, |files[i - 1]|)
    {
      ghost var done := Flatten(groups[..if live then i else 0]);
      ghost var log, ops := if live then logs[i] else [], if live then groups[i] else [];
      if live { LogOnDisk(files, crc, logs, first, groups, i); }
      ghost var k', cuts';
      var more, highest, ok;
      more, highest, ok, k', cuts' :=
        RecoverLogFile(files[i], crc, paranoid, full, maxSequence, log, FirstOf(first, done, |done|), ops);
      if !ok {
        return tables, maxSequence, false, k, cuts;
      }
      if live {
        RecoveredMore(before, first, done, cuts, tables, maxSequence, ops, k', cuts', more);
        FlattenNext(groups, i);
        if i < |files| - 1 { AllBack(crc, log, k'); }
        k, cuts := k + k', cuts + Shifted(cuts'[1..], |done|);
      }
      tables, maxSequence := tables + more, highest;
    }
    if live { assert groups[..|groups|] == groups; }
  }

  lemma NoLogMissing(files: seq<Buffer>, crc: Checksum, logs: seq<seq<Buffer>>, first: nat, groups: seq<seq<seq<Op>>>)
    requires OnDisk(files, crc, logs, first, groups)
    ensures |files| == |logs| == |groups|
  {
  }

  // ---------- the queue of writers ----------

  lemma {:induction false} CutsConcat(first: nat, groups: seq<seq<Op>>, k: nat, cuts: seq<nat>, tables: seq<Inserted>)
    requires CutInto(first, groups, k, cuts, tables)
    ensures Concat(tables) == G.Numbered(first, OpsOf(groups[..k]))
    decreases |tables|
  {
    var n := |tables|;
    if n == 0 {
      assert groups[..0] == [];
    } else {
      var c := cuts[n - 1];
      assert tables[n - 1] == InsertsOf(first, groups, c, k);
      CutsConcat(first, groups, c, cuts[..n], tables[..n - 1]);
      OpsSplit(groups, c, k);
    }
  }

  /** The operations of each record of a log. */
  ghost function Decoded(log: seq<Buffer>): seq<seq<Op>> {
    seq(|log|, i requires 0 <= i < |log| => IterateSpec(log[i]).0)
  }

  lemma {:induction false} DecodedReplays(log: seq<Buffer>)
    ensures OpsOf(Decoded(log)) == G.Replay(log)
  {
    hide IterateSpec;
    if log != [] {
      var n := |log| - 1;
      DecodedReplays(log[..n]);
      assert Decoded(log)[..n] == Decoded(log[..n]);
    }
  }

  lemma QueueDecodes(log: seq<Buffer>)
    requires G.AllDecode(log) && |G.Replay(log)| + 1 < WORD64
    ensures Decodes(log, 1, Decoded(log))
  {
    hide IterateSpec;
    hide SequenceOf;
    hide OpsOf;
    DecodedReplays(log);
    assert Decoded(log)[..|log|] == Decoded(log);
    forall i | 0 <= i < |log| ensures DecodesTo(log[i], FirstOf(1, Decoded(log), i), Decoded(log)[i]) {
      DecodedReplays(log[..i]);
      assert Decoded(log)[..i] == Decoded(log[..i]);
    }
  }

  lemma FlatOfPrefix(a: seq<G.Writer>, b: seq<G.Writer>)
    requires a <= b
    ensures G.Flat(a) <= G.Flat(b)
  {
    G.FlatJoin(a, b[|a|..]);
    assert b == a + b[|a|..];
  }

  /** In every interleaving of writers, and wherever the log is cut, replaying it inserts a prefix of what was
      queued: whole groups, each operation at its sequence number. */
  method ReplayQueue(file: Buffer, crc: Checksum, paranoid: bool, full: Inserted -> bool,
                     ghost states: seq<G.State>, ghost steps: seq<G.Step>, ghost n: nat)
    returns (tables: seq<Inserted>, maxSequence: nat, good: bool, ghost k: nat)
    requires G.IsRun(states, steps) && n < |states| && |G.Replay(states[n].log)| + 1 < WORD64
    requires file <= LogImage(crc, states[n].log)
    ensures good && k <= |states[n].log| && CompleteUpTo(states[n].log, 0, k, |file|)
    ensures var ops := OpsOf(Decoded(states[n].log)[..k]);
            Concat(tables) == G.Numbered(1, ops) && ops <= G.Flat(states[n].finished + states[n].queue)
    ensures maxSequence == HighestSeen(0, 1, Decoded(states[n].log), k)
  {
    hide HighestSeen;
    hide LogImage;
    hide G.IsRun;
    hide G.AllDecode;
    hide CutInto;
    hide Decodes;
    ghost var log := states[n].log;
    G.LogIsTheQueue(states, steps, n);
    QueueDecodes(log);
    ghost var cuts;
    tables, maxSequence, good, k, cuts := RecoverLogFile(file, crc, paranoid, full, 0, log, 1, Decoded(log));
    CutsConcat(1, Decoded(log), k, cuts, tables);
    QueuePrefix(states[n], k);
  }

  lemma QueuePrefix(s: G.State, k: nat)
    requires k <= |s.log| && G.Replay(s.log) == G.Flat(G.Joined(G.LoggedGroups(s)))
    requires G.Joined(G.LoggedGroups(s)) <= s.finished + s.queue
    ensures OpsOf(Decoded(s.log)[..k]) <= G.Flat(s.finished + s.queue)
  {
    DecodedReplays(s.log);
    OpsSplit(Decoded(s.log), k, |s.log|);
    assert Decoded(s.log)[..|s.log|] == Decoded(s.log);
    FlatOfPrefix(G.Joined(G.LoggedGroups(s)), s.finished + s.queue);
  }
}
