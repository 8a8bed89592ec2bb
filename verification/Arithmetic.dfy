/** Division facts the solver does not find on its own. */
module Arithmetic {
  lemma MulOrder(a: int, b: int, d: nat)
    requires a <= b
    ensures a * d <= b * d
  {
    assert (b - a) * d >= 0;
  }

  /** A quotient and a remainder are unique. */
  lemma DivModUnique(n: nat, d: nat, q: nat, r: nat)
    requires n == q * d + r && r < d
    ensures n / d == q && n % d == r
  {
    var q', r' := n / d, n % d;
    assert n == q' * d + r';
    if q' > q { MulOrder(q + 1, q', d); }
    if q' < q { MulOrder(q' + 1, q, d); }
  }

  lemma ModOfSum(a: nat, k: nat, d: nat)
    requires d > 0
    ensures (a + k * d) % d == a % d && (a + k * d) / d == a / d + k
  {
    assert a + k * d == (a / d + k) * d + a % d;
    DivModUnique(a + k * d, d, a / d + k, a % d);
  }

  lemma AddMod(a: nat, b: nat, d: nat)
    requires d > 0
    ensures (a % d + b % d) % d == (a + b) % d
  {
    assert a + b == (a % d + b % d) + (a / d + b / d) * d;
    ModOfSum(a % d + b % d, a / d + b / d, d);
  }

  lemma Distributes(q: int, b: int, r: int, a: int)
    ensures (q * b + r) * a == q * (a * b) + r * a
  {
  }

  lemma RemainderFits(r: nat, b: nat, t: nat, a: nat)
    requires r < b && t < a
    ensures 0 <= r * a + t < a * b
  {
    MulOrder(0, r, a);
    MulOrder(r + 1, b, a);
    assert (r + 1) * a == r * a + a;
  }

  lemma QuotientOfQuotient(v: nat, a: nat, b: nat)
    requires a > 0 && b > 0
    ensures a * b > 0 && v / a / b == v / (a * b)
  {
    var w, t := v / a, v % a;
    var q, r := w / b, w % b;
    RemainderFits(r, b, t, a);
    Composed(v, w, t, q, r, a, b);
    DivModUnique(v, a * b, q, r * a + t);
  }

  lemma Composed(v: nat, w: nat, t: nat, q: nat, r: nat, a: nat, b: nat)
    requires v == w * a + t && w == q * b + r
    ensures v == q * (a * b) + (r * a + t)
  {
    Distributes(q, b, r, a);
  }
}
