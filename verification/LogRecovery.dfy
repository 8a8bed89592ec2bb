/** How records come out of fragments: what log::Reader::ReadRecord relies on. */
module LogRecovery {
  import opened Coding
  import opened LogFormat
  import opened LogSplits

  /** Record `j` lies wholly in the first `length` bytes of the log. */
  ghost predicate Complete(records: seq<Buffer>, j: nat, length: nat) {
    j < |records| && EndOf(LogFrags(records, j + 1)).Flat() <= length
  }

  function All(records: seq<Buffer>): seq<Frag> { LogFrags(records, |records|) }

  lemma PartOf(records: seq<Buffer>, j: nat, k: nat)
    requires j < |records| && FirstFrag(records, j) <= k < FirstFrag(records, j + 1)
    ensures FirstFrag(records, j + 1) == FirstFrag(records, j) + |Part(records, j)| <= |All(records)|
    ensures All(records)[k] == Part(records, j)[k - FirstFrag(records, j)]
  {
    NextFirstFrag(records, j);
    InsideRecord(records, |records|, j, k - FirstFrag(records, j));
    LogFragsPrefix(records, j + 1, |records|);
  }

  lemma AllPositions(records: seq<Buffer>, i: nat, j: nat)
    requires i <= j < |All(records)|
    ensures All(records)[i].at.Flat() <= All(records)[j].at.Flat()
    ensures All(records)[i].End().Flat() <= All(records)[j].End().Flat()
  {
    LogFragsChain(records, |records|);
    if i < j { PositionsIncrease(All(records), i, j); }
  }

  /** A record is complete exactly when its last fragment is. */
  lemma LastOfRecord(records: seq<Buffer>, j: nat, length: nat)
    requires j < |records|
    ensures 0 < FirstFrag(records, j + 1) <= |All(records)|
    ensures Complete(records, j, length) <==> All(records)[FirstFrag(records, j + 1) - 1].End().Flat() <= length
  {
    hide KindOf;
    hide RecordFrags;
    hide NextFrag;
    NextFirstFrag(records, j);
    PartOf(records, j, FirstFrag(records, j + 1) - 1);
    LogFragsPrefix(records, j + 1, |records|);
  }

  /** A cut fragment leaves its record incomplete. */
  lemma CutRecord(records: seq<Buffer>, j: nat, k: nat, length: nat)
    requires j < |records| && k < FirstFrag(records, j + 1) && k < |All(records)|
             && All(records)[k].End().Flat() > length
    ensures !Complete(records, j, length)
  {
    LastOfRecord(records, j, length);
    AllPositions(records, k, FirstFrag(records, j + 1) - 1);
  }

  lemma FirstFragIn(records: seq<Buffer>, j: nat)
    requires j <= |records|
    ensures FirstFrag(records, j) <= |All(records)|
    ensures j < |records| <==> FirstFrag(records, j) < |All(records)|
  {
    LogFragsPrefix(records, j, |records|);
  }

  lemma LogStarts(records: seq<Buffer>)
    ensures FirstFrag(records, 0) == 0
  {
  }

  /** Which record fragment `k` belongs to. */
  lemma {:induction false} RecordOf(records: seq<Buffer>, n: nat, k: nat) returns (j: nat)
    requires n <= |records| && k < FirstFrag(records, n)
    ensures j < n && FirstFrag(records, j) <= k < FirstFrag(records, j + 1)
  {
    if k >= FirstFrag(records, n - 1) {
      j := n - 1;
    } else {
      j := RecordOf(records, n - 1, k);
    }
  }

  // ---------- starting at an offset ----------

  /** Where the first fragment of record `j` starts. */
  ghost predicate StartsFrom(records: seq<Buffer>, j: nat, offset: nat) {
    j < |records| ==> FirstFrag(records, j) < |All(records)| && All(records)[FirstFrag(records, j)].at.Flat() >= offset
  }

  /** The first record that starts at or after `offset`. */
  ghost predicate IsFirstFrom(records: seq<Buffer>, n: nat, offset: nat) {
    n <= |records| && StartsFrom(records, n, offset) && forall j :: 0 <= j < n ==> !StartsFrom(records, j, offset)
  }

  lemma FirstFromExists(records: seq<Buffer>, offset: nat) returns (n: nat)
    ensures IsFirstFrom(records, n, offset)
  {
    n := 0;
    while !StartsFrom(records, n, offset)
      invariant n <= |records| && forall j :: 0 <= j < n ==> !StartsFrom(records, j, offset)
      decreases |records| - n
    {
      FirstFragIn(records, n);
      n := n + 1;
    }
  }

  /** Fragment `i` is passed over on the way to the first record to return. */
  predicate Passed(frags: seq<Frag>, i: nat, offset: nat)
    requires i < |frags|
  {
    frags[i].at.Flat() < offset || frags[i].kind == MIDDLE || frags[i].kind == LAST
  }

  ghost predicate AllPassed(frags: seq<Frag>, k: nat, upto: nat, offset: nat) {
    upto <= |frags| && forall i :: k <= i < upto ==> Passed(frags, i, offset)
  }

  lemma PassedBefore(records: seq<Buffer>, n: nat, k: nat, offset: nat)
    requires IsFirstFrom(records, n, offset)
    ensures AllPassed(All(records), k, FirstFrag(records, n), offset)
  {
    FirstFragIn(records, n);
    forall i | k <= i < FirstFrag(records, n) ensures Passed(All(records), i, offset) {
      var j := RecordOf(records, n, i);
      PartOf(records, j, i);
      PartStep(records, j, i - FirstFrag(records, j));
      assert !StartsFrom(records, j, offset);
      FirstFragIn(records, j);
    }
  }

  /** When no fragment from `k` on starts before the offset, what is passed over is the rest of one
      record: middle fragments and then its last one. */
  ghost predicate IsTail(frags: seq<Frag>, k: nat, upto: nat) {
    upto <= |frags| && forall i :: k <= i < upto ==> frags[i].kind == if i == upto - 1 then LAST else MIDDLE
  }

  lemma TailBefore(records: seq<Buffer>, n: nat, k: nat, offset: nat)
    requires IsFirstFrom(records, n, offset)
    requires forall i :: k <= i < |All(records)| ==> All(records)[i].at.Flat() >= offset
    ensures IsTail(All(records), k, FirstFrag(records, n))
  {
    FirstFragIn(records, n);
    forall i | k <= i < FirstFrag(records, n)
        ensures All(records)[i].kind == if i == FirstFrag(records, n) - 1 then LAST else MIDDLE {
      TailKind(records, n, k, offset, i);
    }
  }

  lemma TailRecord(records: seq<Buffer>, n: nat, k: nat, offset: nat, j: nat)
    requires IsFirstFrom(records, n, offset) && j < n && k < FirstFrag(records, j + 1)
    requires forall i :: k <= i < |All(records)| ==> All(records)[i].at.Flat() >= offset
    ensures j + 1 == n
  {
    FirstFragIn(records, j + 1);
    assert StartsFrom(records, j + 1, offset);
  }

  lemma TailKind(records: seq<Buffer>, n: nat, k: nat, offset: nat, i: nat)
    requires IsFirstFrom(records, n, offset) && k <= i < FirstFrag(records, n) <= |All(records)|
    requires forall i :: k <= i < |All(records)| ==> All(records)[i].at.Flat() >= offset
    ensures All(records)[i].kind == if i == FirstFrag(records, n) - 1 then LAST else MIDDLE
  {
    hide All;
    hide FirstFrag;
    hide Part;
    var j := RecordOf(records, n, i);
    TailRecord(records, n, k, offset, j);
    PartOf(records, j, i);
    PartStep(records, j, i - FirstFrag(records, j));
    assert !StartsFrom(records, j, offset);
    FirstFragIn(records, j);
  }

  // ---------- one step of reading ----------

  const BAD_RECORD: Byte := 6

  /** Where reading starts: the block of the offset, or the next one from within a trailer. */
  function InitialBlockStart(offset: nat): (start: nat)
    ensures start % BLOCK_SIZE == 0
  {
    var offsetInBlock := offset % BLOCK_SIZE;
    if offsetInBlock > BLOCK_SIZE - 6 then offset - offsetInBlock + BLOCK_SIZE else offset - offsetInBlock
  }

  /** Nothing before the offset is read. */
  predicate AtStart(offset: nat) { offset <= InitialBlockStart(offset) }

  /** On the way to record `n`: what lies before it will be passed over.  If reading starts at the offset
      or after it, that is the rest of one record, skipped in silence.  If not, the first thing read starts
      before the offset, which ends the resync. */
  ghost predicate Approaching(records: seq<Buffer>, n: nat, k: nat, offset: nat, resyncing: bool) {
    && n <= |records| && k <= FirstFrag(records, n) && StartsFrom(records, n, offset)
    && AllPassed(All(records), k, FirstFrag(records, n), offset)
    && (AtStart(offset) && k < FirstFrag(records, n) ==>
          resyncing && IsTail(All(records), k, FirstFrag(records, n)) &&
          forall i :: k <= i < FirstFrag(records, n) ==> All(records)[i].at.Flat() >= offset)
    && (!AtStart(offset) && k < FirstFrag(records, n) && resyncing ==> All(records)[k].at.Flat() < offset)
  }

  /** Inside record `n`, with the first part of it in `scratch`. */
  ghost predicate Inside(records: seq<Buffer>, n: nat, k: nat, scratch: Buffer) {
    && n < |records|
    && FirstFrag(records, n) < k < FirstFrag(records, n + 1) == FirstFrag(records, n) + |Part(records, n)|
    && scratch == Payload(Part(records, n)[..k - FirstFrag(records, n)])
  }

  /** What reading a whole fragment `k` returns. */
  ghost predicate Got(records: seq<Buffer>, k: nat, offset: nat, kind: Byte, data: Buffer) {
    && k < |All(records)|
    && var f := All(records)[k];
       if f.at.Flat() < offset then kind == BAD_RECORD && data == [] else kind == f.kind && data == f.data
  }

  lemma PassStep(records: seq<Buffer>, n: nat, k: nat, offset: nat, resyncing: bool, kind: Byte, data: Buffer)
    requires Approaching(records, n, k, offset, resyncing) && k < FirstFrag(records, n)
             && Got(records, k, offset, kind, data)
    ensures kind == BAD_RECORD || kind == MIDDLE || kind == LAST
    ensures Approaching(records, n, k + 1, offset, resyncing && kind == MIDDLE)
    ensures AtStart(offset) ==> resyncing && kind != BAD_RECORD
    ensures !AtStart(offset) && kind != BAD_RECORD ==> !resyncing
  {
    assert Passed(All(records), k, offset);
  }

  lemma StartStep(records: seq<Buffer>, n: nat, offset: nat, length: nat, kind: Byte, data: Buffer)
    requires n <= |records| && StartsFrom(records, n, offset) && Got(records, FirstFrag(records, n), offset, kind, data)
    requires All(records)[FirstFrag(records, n)].End().Flat() <= length
    ensures n < |records| && (kind == FULL || kind == FIRST) && All(records)[FirstFrag(records, n)].at.Flat() >= offset
    ensures kind == FULL ==> data == records[n] && Returned(records, n, FirstFrag(records, n) + 1, length)
    ensures kind == FIRST ==> Inside(records, n, FirstFrag(records, n) + 1, data)
  {
    FirstFragIn(records, n);
    NextFirstFrag(records, n);
    LastOfRecord(records, n, length);
    PartOf(records, n, FirstFrag(records, n));
    PartStep(records, n, 0);
    assert Payload(Part(records, n)[..0]) == [];
  }

  /** Record `n` has been read to its end. */
  ghost predicate Returned(records: seq<Buffer>, n: nat, k: nat, length: nat) {
    n < |records| && k == FirstFrag(records, n + 1) && Complete(records, n, length)
  }

  lemma InnerStep(records: seq<Buffer>, n: nat, k: nat, offset: nat, length: nat, scratch: Buffer, kind: Byte,
                  data: Buffer)
    requires Inside(records, n, k, scratch) && StartsFrom(records, n, offset) && Got(records, k, offset, kind, data)
    requires All(records)[k].End().Flat() <= length
    ensures kind == MIDDLE || kind == LAST
    ensures kind == MIDDLE ==> Inside(records, n, k + 1, scratch + data)
    ensures kind == LAST ==> scratch + data == records[n] && Returned(records, n, k + 1, length)
  {
    LaterInRecord(records, n, k, offset);
    LastOfRecord(records, n, length);
    PartOf(records, n, k);
    PartStep(records, n, k - FirstFrag(records, n));
  }

  lemma LaterInRecord(records: seq<Buffer>, n: nat, k: nat, offset: nat)
    requires n < |records| && StartsFrom(records, n, offset) && FirstFrag(records, n) <= k < |All(records)|
    ensures All(records)[k].at.Flat() >= offset
  {
    AllPositions(records, FirstFrag(records, n), k);
  }

  /** After a record comes the next one. */
  lemma NextRecord(records: seq<Buffer>, n: nat, k: nat, offset: nat, length: nat, resyncing: bool)
    requires Returned(records, n, k, length) && StartsFrom(records, n, offset)
    ensures Approaching(records, n + 1, k, offset, resyncing)
  {
    FirstFragIn(records, n + 1);
    NextFirstFrag(records, n);
    if n + 1 < |records| { AllPositions(records, FirstFrag(records, n), FirstFrag(records, n + 1)); }
  }

  /** A fragment that is not whole ends the log inside record `n` or before it. */
  lemma CutStep(records: seq<Buffer>, n: nat, k: nat, offset: nat, length: nat, resyncing: bool, scratch: Buffer)
    requires Approaching(records, n, k, offset, resyncing) || Inside(records, n, k, scratch)
    requires k < |All(records)| ==> All(records)[k].End().Flat() > length
    ensures !Complete(records, n, length)
  {
    hide RecordFrags;
    hide Min;
    hide KindOf;
    FirstFragIn(records, n);
    if n < |records| {
      NextFirstFrag(records, n);
      LogFragsPrefix(records, n + 1, |records|);
      CutRecord(records, n, k, length);
    }
  }
}
