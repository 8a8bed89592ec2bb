/** How the fragments of a log group into records. */
module LogSplits {
  import opened Coding
  import opened LogFormat

  function Payload(frags: seq<Frag>): Buffer {
    if frags == [] then [] else Payload(frags[..|frags| - 1]) + frags[|frags| - 1].data
  }

  lemma {:induction false} PayloadConcat(a: seq<Frag>, b: seq<Frag>)
    ensures Payload(a + b) == Payload(a) + Payload(b)
  {
    if b == [] {
      assert a + b == a;
    } else {
      PayloadConcat(a, b[..|b| - 1]);
      PayloadLast(a, b);
    }
  }

  lemma PayloadLast(a: seq<Frag>, b: seq<Frag>)
    requires b != []
    ensures Payload(a + b) == Payload(a + b[..|b| - 1]) + b[|b| - 1].data
  {
    assert (a + b)[..|a + b| - 1] == a + b[..|b| - 1];
  }

  /** One record: a full fragment, or a first one, middle ones and a last one. */
  ghost predicate IsSplit(frags: seq<Frag>, data: Buffer, begin: bool) {
    && frags != [] && Payload(frags) == data
    && forall i :: 0 <= i < |frags| ==> frags[i].kind == KindOf(begin && i == 0, i == |frags| - 1)
  }

  lemma {:induction false} RecordIsSplit(p: Place, data: Buffer, begin: bool)
    ensures IsSplit(RecordFrags(p, data, begin), data, begin)
    decreases |RecordFrags(p, data, begin)|
  {
    var f := NextFrag(p, data, begin);
    PayloadOne(f);
    if |f.data| < |data| {
      var rest := RecordFrags(f.End(), data[|f.data|..], false);
      RecordIsSplit(f.End(), data[|f.data|..], false);
      PayloadConcat([f], rest);
      assert f.data + data[|f.data|..] == data;
    }
  }

  lemma PayloadOne(f: Frag)
    ensures Payload([f]) == f.data
  {
    assert [f][..0] == [];
  }

  /** The index of the first fragment of record `j`, or past all fragments. */
  function FirstFrag(records: seq<Buffer>, j: nat): nat
    requires j <= |records|
  {
    |LogFrags(records, j)|
  }

  lemma {:induction false} LogFragsPrefix(records: seq<Buffer>, j: nat, n: nat)
    requires j <= n <= |records|
    ensures LogFrags(records, j) <= LogFrags(records, n)
    ensures j < n ==> |LogFrags(records, j)| < |LogFrags(records, n)|
  {
    if j < n { LogFragsPrefix(records, j, n - 1); }
  }

  /** The fragments of record `j`. */
  function Part(records: seq<Buffer>, j: nat): seq<Frag>
    requires j < |records|
  {
    RecordFrags(EndOf(LogFrags(records, j)), records[j], true)
  }

  lemma PrefixIndex(a: seq<Frag>, b: seq<Frag>, c: seq<Frag>, i: nat)
    requires a + b <= c && i < |b|
    ensures |a| + i < |c| && c[|a| + i] == b[i] && c[|a|..|a| + i] == b[..i]
  {
  }

  lemma NextFirstFrag(records: seq<Buffer>, j: nat)
    requires j < |records|
    ensures LogFrags(records, j + 1) == LogFrags(records, j) + Part(records, j)
    ensures FirstFrag(records, j + 1) == FirstFrag(records, j) + |Part(records, j)|
  {
  }

  /** Fragment `i` of record `j`, found in the log. */
  lemma InsideRecord(records: seq<Buffer>, n: nat, j: nat, i: nat)
    requires j < n <= |records| && i < |Part(records, j)|
    ensures FirstFrag(records, j) + i < |LogFrags(records, n)|
    ensures LogFrags(records, n)[FirstFrag(records, j) + i] == Part(records, j)[i]
  {
    hide NextFrag;
    hide Frag.End;
    hide Align;
    LogFragsPrefix(records, j + 1, n);
    NextFirstFrag(records, j);
    PrefixIndex(LogFrags(records, j), Part(records, j), LogFrags(records, n), i);
  }

  /** Its kind, and what has been joined once it is read. */
  lemma PartStep(records: seq<Buffer>, j: nat, i: nat)
    requires j < |records| && i < |Part(records, j)|
    ensures var part := Part(records, j);
            && part[i].kind == KindOf(i == 0, i == |part| - 1)
            && Payload(part[..i + 1]) == Payload(part[..i]) + part[i].data
            && (i == |part| - 1 ==> Payload(part[..i + 1]) == records[j])
  {
    var part := Part(records, j);
    RecordIsSplit(EndOf(LogFrags(records, j)), records[j], true);
    assert part[..i + 1][..i] == part[..i];
    assert i == |part| - 1 ==> part[..i + 1] == part;
  }

  lemma {:induction false} KindsAreOk(records: seq<Buffer>, n: nat)
    requires n <= |records|
    ensures forall k :: 0 <= k < |LogFrags(records, n)| ==> LogFrags(records, n)[k].kind in {FULL, FIRST, MIDDLE, LAST}
  {
    if n > 0 {
      KindsAreOk(records, n - 1);
      RecordIsSplit(EndOf(LogFrags(records, n - 1)), records[n - 1], true);
    }
  }

  /** Positions increase along the log. */
  lemma {:induction false} PositionsIncrease(frags: seq<Frag>, i: nat, j: nat)
    requires Chain(frags) && i < j < |frags|
    ensures frags[i].End().Flat() <= frags[j].at.Flat()
  {
    ChainAt(frags, j);
    ChainAt(frags, j - 1);
    assert frags[..j][j - 1] == frags[j - 1];
    if i < j - 1 { PositionsIncrease(frags, i, j - 1); }
  }
}
