/** Write batches as bytes (db/write_batch.cc): a sequence number, a count and the operations. */
module WriteBatches {
  import opened Options
  import opened Coding

  const HEADER: nat := 12

  datatype Op = Put(key: Buffer, value: Buffer) | Delete(key: Buffer)

  const TYPE_DELETION: Byte := 0
  const TYPE_VALUE: Byte := 1

  function OpBytes(op: Op): (b: Buffer)
    ensures b != []
  {
    match op
    case Put(key, value) => [TYPE_VALUE] + LengthPrefixed(key) + LengthPrefixed(value)
    case Delete(key) => [TYPE_DELETION] + LengthPrefixed(key)
  }

  function OpsBytes(ops: seq<Op>): Buffer {
    if ops == [] then [] else OpBytes(ops[0]) + OpsBytes(ops[1..])
  }

  function BatchBytes(sequence: nat, ops: seq<Op>): Buffer { Fixed(8, sequence) + Fixed(4, |ops|) + OpsBytes(ops) }

  /** Keys and values whose lengths fit their 32-bit prefixes. */
  ghost predicate Fits(op: Op) { |op.key| < WORD32 && (op.Put? ==> |op.value| < WORD32) }

  ghost predicate AllFit(ops: seq<Op>) { |ops| < WORD32 && forall i :: 0 <= i < |ops| ==> Fits(ops[i]) }

  // ---------- reading a batch ----------

  lemma PrefixedIsShorter(b: Buffer)
    ensures PrefixedAt(b).Some? ==> |PrefixedAt(b).value.1| < |b|
  {
    VarintFits(b, 5);
  }

  /** The operation at the front, and what follows it; None is corruption. */
  function OpAt(b: Buffer): (r: Option<(Op, Buffer)>)
    requires b != []
    ensures r.Some? ==> |r.value.1| < |b|
  {
    PrefixedIsShorter(b[1..]);
    match PrefixedAt(b[1..])
    case None => None
    case Some((key, rest)) =>
      if b[0] == TYPE_VALUE then
        PrefixedIsShorter(rest);
        match PrefixedAt(rest)
        case None => None
        case Some((value, rest')) => Some((Put(key, value), rest'))
      else if b[0] == TYPE_DELETION then Some((Delete(key), rest))
      else None
  }

  /** The operations handed to the handler, and whether the end was reached without corruption. */
  function Scan(b: Buffer): (seq<Op>, bool)
    decreases |b|
  {
    if b == [] then ([], true)
    else match OpAt(b)
      case None => ([], false)
      case Some((op, rest)) => ([op] + Scan(rest).0, Scan(rest).1)
  }

  function CountOf(rep: Buffer): nat
    requires |rep| >= HEADER
  {
    FixedValue(rep[8..12])
  }

  function SequenceOf(rep: Buffer): nat
    requires |rep| >= HEADER
  {
    FixedValue(rep[..8])
  }

  function IterateSpec(rep: Buffer): (seq<Op>, bool) {
    if |rep| < HEADER then ([], false)
    else var (ops, whole) := Scan(rep[HEADER..]); (ops, whole && |ops| == CountOf(rep))
  }

  /** WriteBatch::Iterate. */
  method Iterate(rep: Buffer) returns (ops: seq<Op>, ok: bool)
    ensures (ops, ok) == IterateSpec(rep)
  {
    hide Scan;
    hide FixedValue;
    hide PrefixedAt;
    hide Resumes;
    ops := [];
    if |rep| < HEADER {
      return ops, false;
    }
    var input, found := rep[HEADER..], 0;
    ScanStarts(input);
    while |input| > 0
      invariant found == |ops| && Resumes(rep[HEADER..], ops, input)
      decreases |input|
    {
      found := found + 1;
      ghost var before := input;
      var tag := input[0];
      var first := GetLengthPrefixed(input[1..]);
      if first.None? {
        ScanFails(rep[HEADER..], ops, input);
        return ops, false;
      }
      var (key, rest) := first.value;
      if tag == TYPE_VALUE {
        var second := GetLengthPrefixed(rest);
        if second.None? {
          ScanFails(rep[HEADER..], ops, input);
          return ops, false;
        }
        ScanStep(rep[HEADER..], ops, input, Put(key, second.value.0), second.value.1);
        ops, input := ops + [Put(key, second.value.0)], second.value.1;
      } else if tag == TYPE_DELETION {
        ScanStep(rep[HEADER..], ops, input, Delete(key), rest);
        ops, input := ops + [Delete(key)], rest;
      } else {
        ScanFails(rep[HEADER..], ops, input);
        return ops, false;
      }
    }
    ScanEnds(rep[HEADER..], ops);
    ok := found == CountOf(rep);
  }

  lemma ScanEnds(b: Buffer, ops: seq<Op>)
    requires Resumes(b, ops, [])
    ensures Scan(b) == (ops, true)
  {
    assert ops + [] == ops;
  }

  /** The scan of `b` has yielded `ops` and has `input` ahead of it. */
  ghost predicate Resumes(b: Buffer, ops: seq<Op>, input: Buffer) {
    Scan(b) == (ops + Scan(input).0, Scan(input).1)
  }

  lemma ScanStarts(b: Buffer)
    ensures Resumes(b, [], b)
  {
    hide OpAt;
    assert [] + Scan(b).0 == Scan(b).0;
  }

  lemma ScanStep(b: Buffer, ops: seq<Op>, input: Buffer, op: Op, rest: Buffer)
    requires Resumes(b, ops, input) && input != [] && OpAt(input) == Some((op, rest))
    ensures Resumes(b, ops + [op], rest) && |rest| < |input|
  {
    hide OpAt;
    assert ops + ([op] + Scan(rest).0) == ops + [op] + Scan(rest).0;
  }

  lemma ScanFails(b: Buffer, ops: seq<Op>, input: Buffer)
    requires Resumes(b, ops, input) && input != [] && OpAt(input).None?
    ensures Scan(b) == (ops, false)
  {
    hide OpAt;
    assert ops + [] == ops;
  }

  // ---------- round trip ----------

  lemma OpBack(op: Op, rest: Buffer)
    requires Fits(op)
    ensures OpAt(OpBytes(op) + rest) == Some((op, rest))
  {
    hide LengthPrefixed;
    hide PrefixedAt;
    var b := OpBytes(op) + rest;
    match op
    case Put(key, value) =>
      assert b[1..] == LengthPrefixed(key) + (LengthPrefixed(value) + rest);
      PrefixedRoundTrip(key, LengthPrefixed(value) + rest);
      PrefixedRoundTrip(value, rest);
    case Delete(key) =>
      assert b[1..] == LengthPrefixed(key) + rest;
      PrefixedRoundTrip(key, rest);
  }

  lemma {:induction false} ScanBack(ops: seq<Op>)
    requires forall i :: 0 <= i < |ops| ==> Fits(ops[i])
    ensures Scan(OpsBytes(ops)) == (ops, true)
  {
    hide OpBytes;
    hide OpAt;
    if ops != [] {
      OpBack(ops[0], OpsBytes(ops[1..]));
      ScanBack(ops[1..]);
      assert ops == [ops[0]] + ops[1..];
    }
  }

  lemma HeaderBack(sequence: nat, ops: seq<Op>)
    requires sequence < WORD64 && |ops| < WORD32
    ensures var rep := BatchBytes(sequence, ops);
            |rep| >= HEADER && rep[HEADER..] == OpsBytes(ops) && SequenceOf(rep) == sequence && CountOf(rep) == |ops|
  {
    hide OpsBytes;
    hide Fixed;
    hide FixedValue;
    var rep := BatchBytes(sequence, ops);
    assert rep[..8] == Fixed(8, sequence) && rep[8..12] == Fixed(4, |ops|) && rep[HEADER..] == OpsBytes(ops);
    assert Power(256, 2) == 0x1_0000 && Power(256, 4) == WORD32 && Power(256, 8) == WORD64;
    FixedRoundTrip(8, sequence);
    FixedRoundTrip(4, |ops|);
  }

  /** A batch decodes back to its operations, in order, with its sequence number. */
  lemma BatchRoundTrip(sequence: nat, ops: seq<Op>)
    requires sequence < WORD64 && AllFit(ops)
    ensures IterateSpec(BatchBytes(sequence, ops)) == (ops, true) && SequenceOf(BatchBytes(sequence, ops)) == sequence
  {
    HeaderBack(sequence, ops);
    ScanBack(ops);
  }

  lemma {:induction false} OpsBytesJoin(a: seq<Op>, b: seq<Op>)
    ensures OpsBytes(a + b) == OpsBytes(a) + OpsBytes(b)
  {
    hide OpBytes;
    if a == [] {
      assert a + b == b;
    } else {
      OpsBytesJoin(a[1..], b);
      assert (a + b)[1..] == a[1..] + b;
      Associates(OpBytes(a[0]), OpsBytes(a[1..]), OpsBytes(b));
    }
  }

  /** WriteBatch: the count is patched in place, the operations are appended. */
  class WriteBatch {
    var rep: Buffer
    ghost var sequence: nat
    ghost var ops: seq<Op>

    ghost predicate Valid()
      reads this
    {
      sequence < WORD64 && |ops| < WORD32 && rep == BatchBytes(sequence, ops)
    }

    constructor ()
      ensures Valid() && sequence == 0 && ops == []
    {
      rep := seq(HEADER, _ => 0);
      sequence, ops := 0, [];
      new;
      assert Fixed(2, 0) == [0, 0] && Fixed(4, 0) == [0, 0, 0, 0] && Fixed(6, 0) == [0, 0, 0, 0, 0, 0];
      assert Fixed(8, 0) == [0, 0, 0, 0, 0, 0, 0, 0];
      assert rep == BatchBytes(0, []);
    }

    lemma Header()
      requires Valid()
      ensures |rep| >= HEADER && CountOf(rep) == |ops| && rep[..8] == Fixed(8, sequence)
              && rep[HEADER..] == OpsBytes(ops)
    {
      hide Fixed;
      hide FixedValue;
      hide OpsBytes;
      HeaderBack(sequence, ops);
      assert rep[..8] == Fixed(8, sequence);
    }

    method SetCount(n: nat)
      requires |rep| >= HEADER
      modifies `rep
      ensures rep == old(rep)[..8] + Fixed(4, n) + old(rep)[HEADER..]
    {
      rep := rep[..8] + Fixed(4, n) + rep[HEADER..];
    }

    method SetSequence(sequence: nat)
      requires Valid() && sequence < WORD64
      modifies this
      ensures Valid() && this.sequence == sequence && ops == old(ops)
    {
      hide Fixed;
      hide FixedValue;
      hide OpsBytes;
      rep := Fixed(8, sequence) + rep[8..];
      this.sequence := sequence;
      assert rep == BatchBytes(sequence, ops);
    }

    static lemma Appended(sequence: nat, ops: seq<Op>, more: seq<Op>)
      ensures Fixed(8, sequence) + Fixed(4, |ops + more|) + OpsBytes(ops) + OpsBytes(more) ==
              BatchBytes(sequence, ops + more)
    {
      hide Fixed;
      hide OpsBytes;
      OpsBytesJoin(ops, more);
      var header := Fixed(8, sequence) + Fixed(4, |ops + more|);
      assert header + OpsBytes(ops) + OpsBytes(more) == header + (OpsBytes(ops) + OpsBytes(more));
    }

    static lemma OneOp(op: Op)
      ensures OpsBytes([op]) == OpBytes(op)
    {
      hide OpBytes;
      assert [op][1..] == [] && OpsBytes([]) == [];
      assert OpBytes(op) + [] == OpBytes(op);
    }

    method Put(key: Buffer, value: Buffer)
      requires Valid() && |ops| + 1 < WORD32
      modifies this
      ensures Valid() && sequence == old(sequence) && ops == old(ops) + [Op.Put(key, value)]
    {
      hide Fixed;
      hide FixedValue;
      hide OpsBytes;
      hide LengthPrefixed;
      Header();
      ghost var op := Op.Put(key, value);
      SetCount(CountOf(rep) + 1);
      ghost var counted := rep;
      rep := rep + [TYPE_VALUE];
      rep := rep + LengthPrefixed(key);
      rep := rep + LengthPrefixed(value);
      assert rep == counted + OpBytes(op);
      OneOp(op);
      Appended(sequence, ops, [op]);
      ops := ops + [op];
    }

    method Delete(key: Buffer)
      requires Valid() && |ops| + 1 < WORD32
      modifies this
      ensures Valid() && sequence == old(sequence) && ops == old(ops) + [Op.Delete(key)]
    {
      hide Fixed;
      hide FixedValue;
      hide OpsBytes;
      hide LengthPrefixed;
      Header();
      ghost var op := Op.Delete(key);
      SetCount(CountOf(rep) + 1);
      ghost var counted := rep;
      rep := rep + [TYPE_DELETION];
      rep := rep + LengthPrefixed(key);
      assert rep == counted + OpBytes(op);
      OneOp(op);
      Appended(sequence, ops, [op]);
      ops := ops + [op];
    }

    /** WriteBatchInternal::Append. */
    method Append(src: WriteBatch)
      requires Valid() && src.Valid() && src != this && |ops| + |src.ops| < WORD32
      modifies this
      ensures Valid() && sequence == old(sequence) && ops == old(ops) + src.ops
    {
      hide Fixed;
      hide FixedValue;
      hide OpsBytes;
      Header();
      src.Header();
      SetCount(CountOf(rep) + CountOf(src.rep));
      rep := rep + src.rep[HEADER..];
      Appended(sequence, ops, src.ops);
      ops := ops + src.ops;
    }
  }
}
