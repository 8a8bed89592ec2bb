/** The bytewise comparator and its key shortening (util/comparator.cc), and why `real` stands for
    user keys elsewhere. */
module Bytewise {
  import opened Coding
  import opened BlockFormat

  /** Slice::compare is below zero: lexicographic order of unsigned bytes. */
  predicate Lex(a: Buffer, b: Buffer) {
    b != [] && (a == [] || a[0] < b[0] || (a[0] == b[0] && Lex(a[1..], b[1..])))
  }

  lemma {:induction false} LexIrreflexive(a: Buffer)
    ensures !Lex(a, a)
  {
    if a != [] { LexIrreflexive(a[1..]); }
  }

  lemma {:induction false} LexTransitive(a: Buffer, b: Buffer, c: Buffer)
    requires Lex(a, b) && Lex(b, c)
    ensures Lex(a, c)
  {
    if a != [] && a[0] == b[0] == c[0] { LexTransitive(a[1..], b[1..], c[1..]); }
  }

  lemma {:induction false} LexTotal(a: Buffer, b: Buffer)
    ensures Lex(a, b) || a == b || Lex(b, a)
  {
    if a != [] && b != [] && a[0] == b[0] {
      LexTotal(a[1..], b[1..]);
      assert a == [a[0]] + a[1..] && b == [b[0]] + b[1..];
    }
  }

  /** After a common prefix, the first byte that differs decides. */
  lemma {:induction false} LexByFirstDifference(a: Buffer, b: Buffer, n: nat)
    requires n < |a| && n < |b| && a[..n] == b[..n] && a[n] != b[n]
    ensures Lex(a, b) <==> a[n] < b[n]
  {
    if n > 0 {
      assert a[0] == a[..n][0] == b[..n][0] == b[0];
      assert a[1..][..n - 1] == a[..n][1..] && b[1..][..n - 1] == b[..n][1..];
      LexByFirstDifference(a[1..], b[1..], n - 1);
    }
  }

  lemma {:induction false} PrefixIsLex(a: Buffer, b: Buffer)
    requires a < b
    ensures Lex(a, b)
  {
    if a != [] {
      assert a[1..] < b[1..] by { assert b[..|a|] == a; }
      PrefixIsLex(a[1..], b[1..]);
    }
  }

  lemma {:induction false} CommonIs(a: Buffer, b: Buffer, n: nat)
    requires n <= |a| && n <= |b| && a[..n] == b[..n]
    requires n == |a| || n == |b| || a[n] != b[n]
    ensures Common(a, b) == n
  {
    if n > 0 {
      assert a[0] == a[..n][0] == b[..n][0] == b[0];
      assert a[1..][..n - 1] == a[..n][1..] && b[1..][..n - 1] == b[..n][1..];
      CommonIs(a[1..], b[1..], n - 1);
    }
  }

  /** Bump the first byte that differs, if there is room, and cut the rest off. */
  method FindShortestSeparator(start: Buffer, limit: Buffer) returns (r: Buffer)
    ensures r == start || (|r| <= |start| && Lex(start, r) && Lex(r, limit))
    ensures Lex(start, limit) ==> Lex(r, limit)
    ensures var n := Common(start, limit);
            if n < |start| && n < |limit| && start[n] as int + 1 < limit[n] then |r| == n + 1 else r == start
  {
    var minLength := if |start| < |limit| then |start| else |limit|;
    var diff := 0;
    while diff < minLength && start[diff] == limit[diff]
      invariant diff <= minLength && start[..diff] == limit[..diff]
    {
      diff := diff + 1;
    }
    CommonIs(start, limit, diff);
    r := start;
    if diff >= minLength {
    } else {
      var byte := start[diff];
      if byte < 0xff && byte + 1 < limit[diff] {
        r := r[diff := byte + 1];
        r := r[..diff + 1];
        assert r[..diff] == start[..diff];
        LexByFirstDifference(start, r, diff);
        LexByFirstDifference(r, limit, diff);
      }
    }
  }

  /** Bump the first byte that can be, and cut the rest off. */
  method FindShortSuccessor(key: Buffer) returns (r: Buffer)
    ensures r == key || (|r| <= |key| && Lex(key, r))
    ensures r == key <==> forall i :: 0 <= i < |key| ==> key[i] == 0xff
    ensures r != key ==> forall i :: 0 <= i < |r| - 1 ==> key[i] == 0xff
  {
    r := key;
    for i := 0 to |key|
      invariant r == key && forall j :: 0 <= j < i ==> key[j] == 0xff
    {
      if key[i] != 0xff {
        r := r[i := key[i] + 1];
        r := r[..i + 1];
        assert r[..i] == key[..i];
        LexByFirstDifference(key, r, i);
        return;
      }
    }
  }

  // ---------- byte strings as reals ----------

  /** A byte string as a fraction in base 257, where digit 0 is for the end of the string. */
  function Rank(a: Buffer): (r: real)
    ensures 0.0 <= r < 1.0
  {
    if a == [] then 0.0 else (a[0] as real + 1.0 + Rank(a[1..])) / 257.0
  }

  lemma RankStep(x: Byte, y: Byte, r: real, s: real)
    requires 0.0 <= r < 1.0 && 0.0 <= s < 1.0
    ensures (x as real + 1.0 + r) / 257.0 < (y as real + 1.0 + s) / 257.0 <==> x < y || (x == y && r < s)
  {
    if x < y {
      assert x as real + 1.0 <= y as real;
    } else if y < x {
      assert y as real + 1.0 <= x as real;
    }
  }

  /** The order of byte strings is the order of their ranks, so the modules on internal keys, which
      only compare user keys, may use reals for them. */
  lemma {:induction false} RankIsOrder(a: Buffer, b: Buffer)
    ensures Lex(a, b) <==> Rank(a) < Rank(b)
    ensures Rank(a) == Rank(b) ==> a == b
  {
    if a != [] && b != [] {
      RankIsOrder(a[1..], b[1..]);
      RankStep(a[0], b[0], Rank(a[1..]), Rank(b[1..]));
      RankStep(b[0], a[0], Rank(b[1..]), Rank(a[1..]));
      if Rank(a) == Rank(b) {
        LexTotal(a, b);
        LexTotal(a[1..], b[1..]);
        RankIsOrder(b[1..], a[1..]);
        assert a == [a[0]] + a[1..] && b == [b[0]] + b[1..];
      }
    }
  }
}
