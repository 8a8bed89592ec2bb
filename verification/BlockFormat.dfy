/** The bytes of a block: prefix-compressed entries followed by the offsets of the restart points. */
module BlockFormat {
  import opened Coding

  datatype Pair = Pair(key: Buffer, value: Buffer)

  /** Length of the common prefix. */
  function Common(a: Buffer, b: Buffer): (n: nat)
    ensures n <= |a| && n <= |b| && a[..n] == b[..n]
  {
    if a == [] || b == [] || a[0] != b[0] then 0 else
      var n := Common(a[1..], b[1..]);
      assert a == [a[0]] + a[1..] && b == [b[0]] + b[1..];
      n + 1
  }

  /** Entries since the last restart point, before entry `n` is added. */
  function Counter(interval: nat, n: nat): nat {
    if n == 0 then 0 else if Counter(interval, n - 1) < interval then Counter(interval, n - 1) + 1 else 1
  }

  predicate IsRestart(interval: nat, i: nat) { i == 0 || Counter(interval, i) >= interval }

  /** The entries at restart points, in order; there is always a first one. */
  function Starts(interval: nat, n: nat): (r: seq<nat>)
    ensures r != [] && r[0] == 0
  {
    if n == 0 then [0]
    else if n - 1 > 0 && IsRestart(interval, n - 1) then Starts(interval, n - 1) + [n - 1]
    else Starts(interval, n - 1)
  }

  lemma {:induction false} StartsIncrease(interval: nat, n: nat)
    ensures forall i, j :: 0 <= i < j < |Starts(interval, n)| ==> Starts(interval, n)[i] < Starts(interval, n)[j]
    ensures forall i :: 0 <= i < |Starts(interval, n)| ==>
              Starts(interval, n)[i] < (if n == 0 then 1 else n) && IsRestart(interval, Starts(interval, n)[i])
  {
    if n > 0 { StartsIncrease(interval, n - 1); }
  }

  function Shared(es: seq<Pair>, interval: nat, i: nat): nat
    requires i < |es|
  {
    if IsRestart(interval, i) then 0 else Common(es[i - 1].key, es[i].key)
  }

  function Head(shared: nat, nonShared: nat, valueSize: nat): Buffer {
    Varint(shared) + Varint(nonShared) + Varint(valueSize)
  }

  function Piece(es: seq<Pair>, interval: nat, i: nat): Buffer
    requires i < |es|
  {
    var shared, key := Shared(es, interval, i), es[i].key;
    SharedFits(es, interval, i);
    Head(shared, |key| - shared, |es[i].value|) + key[shared..] + es[i].value
  }

  lemma SharedFits(es: seq<Pair>, interval: nat, i: nat)
    requires i < |es|
    ensures Shared(es, interval, i) <= |es[i].key|
    ensures Shared(es, interval, i) > 0 ==> i > 0 && Shared(es, interval, i) <= |es[i - 1].key|
    ensures Shared(es, interval, i) > 0
            ==> es[i - 1].key[..Shared(es, interval, i)] == es[i].key[..Shared(es, interval, i)]
  {
  }

  function Data(es: seq<Pair>, interval: nat, n: nat): Buffer
    requires n <= |es|
  {
    if n == 0 then [] else Data(es, interval, n - 1) + Piece(es, interval, n - 1)
  }

  /** Where entry `i` starts. */
  function Offset(es: seq<Pair>, interval: nat, i: nat): nat
    requires i <= |es|
  {
    |Data(es, interval, i)|
  }

  function Table(offsets: seq<nat>): (r: Buffer)
    ensures |r| == 4 * |offsets|
  {
    if offsets == [] then [] else Table(offsets[..|offsets| - 1]) + Fixed(4, offsets[|offsets| - 1])
  }

  function Offsets(es: seq<Pair>, interval: nat, starts: seq<nat>): (r: seq<nat>)
    requires forall i :: 0 <= i < |starts| ==> starts[i] <= |es|
    ensures |r| == |starts|
  {
    seq(|starts|, i requires 0 <= i < |starts| => Offset(es, interval, starts[i]))
  }

  function Restarts(es: seq<Pair>, interval: nat): (r: seq<nat>)
    ensures |r| == |Starts(interval, |es|)| && r != []
    ensures forall i :: 0 <= i < |r| ==>
            Starts(interval, |es|)[i] <= |es| && r[i] == Offset(es, interval, Starts(interval, |es|)[i])
  {
    StartsIncrease(interval, |es|);
    Offsets(es, interval, Starts(interval, |es|))
  }

  /** The finished block. */
  function BlockImage(es: seq<Pair>, interval: nat): Buffer {
    Data(es, interval, |es|) + Table(Restarts(es, interval)) + Fixed(4, |Restarts(es, interval)|)
  }

  // ---------- finding things in the block ----------

  lemma PieceIsLong(es: seq<Pair>, interval: nat, i: nat)
    requires i < |es|
    ensures |Piece(es, interval, i)| >= 3
    ensures Offset(es, interval, i + 1) == Offset(es, interval, i) + |Piece(es, interval, i)|
  {
  }

  lemma {:induction false} DataPrefix(es: seq<Pair>, interval: nat, i: nat, n: nat)
    requires i <= n <= |es|
    ensures Data(es, interval, i) <= Data(es, interval, n)
    ensures i < n ==> Offset(es, interval, i) < Offset(es, interval, n)
  {
    hide Head;
    hide Common;
    hide Counter;
    if i < n {
      DataPrefix(es, interval, i, n - 1);
      PieceIsLong(es, interval, n - 1);
    }
  }

  lemma PieceAt(es: seq<Pair>, interval: nat, i: nat)
    requires i < |es|
    ensures Offset(es, interval, i + 1) <= Offset(es, interval, |es|)
    ensures Data(es, interval, |es|)[Offset(es, interval, i)..Offset(es, interval, i + 1)] == Piece(es, interval, i)
  {
    DataPrefix(es, interval, i + 1, |es|);
    MiddleSlice(Data(es, interval, i), Piece(es, interval, i), Data(es, interval, |es|));
  }

  lemma MiddleSlice(a: Buffer, b: Buffer, c: Buffer)
    requires a + b <= c
    ensures |a| + |b| <= |c| && c[|a|..|a| + |b|] == b
  {
  }

  lemma {:induction false} TableAt(offsets: seq<nat>, k: nat)
    requires k < |offsets|
    ensures Table(offsets)[4 * k..4 * k + 4] == Fixed(4, offsets[k])
  {
    if k < |offsets| - 1 {
      TableAt(offsets[..|offsets| - 1], k);
      MiddleSlice4(Table(offsets[..|offsets| - 1]), Table(offsets), k);
    }
  }

  lemma MiddleSlice4(a: Buffer, b: Buffer, k: nat)
    requires a <= b && 4 * k + 4 <= |a|
    ensures a[4 * k..4 * k + 4] == b[4 * k..4 * k + 4]
  {
  }
}
