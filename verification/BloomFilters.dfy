/** The Bloom filter policy (util/bloom.cc).  The hash is any fixed function. */
module BloomFilters {
  import opened Arithmetic
  import opened Coding

  type Hash = Buffer -> Word

  type Word = w: nat | w < WORD32

  // ---------- bits ----------

  /** Bit `j`, counted from the low end. */
  predicate BitOf(b: nat, j: nat) {
    if j == 0 then b % 2 == 1 else BitOf(b / 2, j - 1)
  }

  function OrBit(b: nat, j: nat): nat {
    if j == 0 then (if b % 2 == 1 then b else b + 1) else b % 2 + 2 * OrBit(b / 2, j - 1)
  }

  lemma {:induction false} OrBitIsOr(b: nat, j: nat, i: nat)
    ensures BitOf(OrBit(b, j), i) <==> i == j || BitOf(b, i)
  {
    if j > 0 && i > 0 {
      OrBitIsOr(b / 2, j - 1, i - 1);
      assert OrBit(b, j) / 2 == OrBit(b / 2, j - 1);
    }
  }

  lemma {:induction false} OrBitFits(b: nat, j: nat, n: nat)
    requires j < n && b < Power(2, n)
    ensures OrBit(b, j) < Power(2, n)
  {
    if j > 0 { OrBitFits(b / 2, j - 1, n - 1); }
  }

  function WithBit(b: Byte, j: nat): Byte
    requires j < 8
  {
    OrBitFits(b, j, 8);
    assert Power(2, 2) == 4 && Power(2, 4) == 16 && Power(2, 6) == 64;
    OrBit(b, j)
  }

  predicate BitAt(bytes: seq<Byte>, p: nat)
    requires p < 8 * |bytes|
  {
    BitOf(bytes[p / 8], p % 8)
  }

  // ---------- probes ----------

  /** Rotate right by 17 bits. */
  function Delta(h: Word): Word { h / 0x2_0000 + h % 0x2_0000 * 0x8000 }

  /** The hash after `j` additions of the delta. */
  function HashAt(h: Word, j: nat): Word {
    if j == 0 then h else (HashAt(h, j - 1) + Delta(h)) % WORD32
  }

  lemma Times(j: nat, d: nat)
    ensures j * d >= 0 && (j + 1) * d == j * d + d
  {
  }

  lemma StepsAdd(x: nat, d: Word)
    ensures (x % WORD32 + d) % WORD32 == (x + d) % WORD32
  {
    AddMod(x, d, WORD32);
    assert d % WORD32 == d;
  }

  /** Double hashing: the probes step through the hash values at equal distances. */
  lemma {:induction false} DoubleHashing(h: Word, j: nat)
    ensures j * Delta(h) >= 0 && HashAt(h, j) == (h + j * Delta(h)) % WORD32
  {
    hide Delta;
    if j > 0 {
      DoubleHashing(h, j - 1);
      HashStep(h, j - 1);
      hide HashAt;
      OneMoreDelta(h, j - 1, Delta(h));
    }
  }

  lemma OneMoreDelta(h: Word, j: nat, d: Word)
    ensures j * d >= 0 && (j + 1) * d >= 0
    ensures ((h + j * d) % WORD32 + d) % WORD32 == (h + (j + 1) * d) % WORD32
  {
    Times(j, d);
    StepsAdd(h + j * d, d);
  }

  function ProbeAt(hash: Hash, key: Buffer, j: nat, bits: nat): (p: nat)
    requires bits > 0
    ensures p < bits
  {
    HashAt(hash(key), j) % bits
  }

  /** A filter is a bit array followed by the number of probes. */
  predicate MayMatch(hash: Hash, key: Buffer, filter: Buffer) {
    |filter| >= 2 &&
    var k := filter[|filter| - 1];
    k > 30 || AllSet(hash, key, filter[..|filter| - 1], k)
  }

  predicate AllSet(hash: Hash, key: Buffer, bytes: Buffer, k: nat)
    requires bytes != []
  {
    forall j {:trigger ProbeAt(hash, key, j, 8 * |bytes|)} :: 0 <= j < k
        ==> BitAt(bytes, ProbeAt(hash, key, j, 8 * |bytes|))
  }

  lemma HashStep(h: Word, j: nat)
    ensures HashAt(h, j + 1) == (HashAt(h, j) + Delta(h)) % WORD32
  {
  }

  method KeyMayMatch(hash: Hash, key: Buffer, filter: Buffer) returns (r: bool)
    ensures r == MayMatch(hash, key, filter)
  {
    var len := |filter|;
    if len < 2 {
      return false;
    }
    var k := filter[len - 1];
    if k > 30 {
      return true;
    }
    r := ProbeAll(hash, key, filter[..len - 1], k);
  }

  method ProbeAll(hash: Hash, key: Buffer, bytes: Buffer, k: nat) returns (r: bool)
    requires bytes != []
    ensures r == AllSet(hash, key, bytes, k)
  {
    hide HashAt;
    hide BitOf;
    hide Delta;
    var bits := 8 * |bytes|;
    var h := hash(key);
    var delta := Delta(h);
    assert h == HashAt(hash(key), 0) by { NoStep(h); }
    for j := 0 to k
      invariant h == HashAt(hash(key), j) && AllSet(hash, key, bytes, j)
    {
      var bitpos := h % bits;
      assert bitpos == ProbeAt(hash, key, j, bits);
      if !BitOf(bytes[bitpos / 8], bitpos % 8) {
        return false;
      }
      HashStep(hash(key), j);
      h := (h + delta) % WORD32;
    }
    return true;
  }

  lemma NoStep(h: Word)
    ensures HashAt(h, 0) == h
  {
  }

  /** One of the first `m` probes of the key hits bit `p`. */
  ghost predicate KeyHits(hash: Hash, key: Buffer, m: nat, bits: nat, p: nat)
    requires bits > 0
  {
    exists j {:trigger ProbeAt(hash, key, j, bits)} :: 0 <= j < m && ProbeAt(hash, key, j, bits) == p
  }

  ghost predicate SomeKeyHits(hash: Hash, keys: seq<Buffer>, k: nat, bits: nat, p: nat)
    requires bits > 0
  {
    exists key :: key in keys && KeyHits(hash, key, k, bits, p)
  }

  function ProbesFor(bitsPerKey: nat): (k: nat)
    ensures 1 <= k <= 30
  {
    var k := (bitsPerKey as real * 0.69).Floor;
    if k < 1 then 1 else if k > 30 then 30 else k
  }

  function FilterBytes(n: nat, bitsPerKey: nat): (bytes: nat)
    ensures bytes >= 8
  {
    var bits := n * bitsPerKey;
    ((if bits < 64 then 64 else bits) + 7) / 8
  }

  method SetBit(a: array<Byte>, p: nat)
    requires p < 8 * a.Length
    modifies a
    ensures forall q :: 0 <= q < 8 * a.Length ==> (BitAt(a[..], q) <==> q == p || BitAt(old(a[..]), q))
  {
    ghost var was := a[..];
    a[p / 8] := WithBit(a[p / 8], p % 8);
    forall q | 0 <= q < 8 * a.Length ensures BitAt(a[..], q) <==> q == p || BitAt(was, q) {
      if q / 8 == p / 8 { OrBitIsOr(was[p / 8], p % 8, q % 8); }
    }
  }

  method AddProbes(hash: Hash, key: Buffer, k: nat, a: array<Byte>)
    requires a.Length > 0
    modifies a
    ensures forall q :: 0 <= q < 8 * a.Length ==>
              (BitAt(a[..], q) <==> KeyHits(hash, key, k, 8 * a.Length, q) || BitAt(old(a[..]), q))
  {
    ghost var was := a[..];
    var bits := 8 * a.Length;
    var h := hash(key);
    var delta := Delta(h);
    for j := 0 to k
      invariant h == HashAt(hash(key), j)
      invariant forall q :: 0 <= q < bits ==> (BitAt(a[..], q) <==> KeyHits(hash, key, j, bits, q) || BitAt(was, q))
    {
      var bitpos := h % bits;
      ghost var before := a[..];
      SetBit(a, bitpos);
      assert bitpos == ProbeAt(hash, key, j, bits);
      forall q | 0 <= q < bits
          ensures KeyHits(hash, key, j + 1, bits, q) <==> q == bitpos || KeyHits(hash, key, j, bits, q) {
        HitsStep(hash, key, j, bits, q);
      }
      h := (h + delta) % WORD32;
    }
  }

  lemma HitsStep(hash: Hash, key: Buffer, j: nat, bits: nat, q: nat)
    requires bits > 0
    ensures KeyHits(hash, key, j + 1, bits, q) <==> q == ProbeAt(hash, key, j, bits) || KeyHits(hash, key, j, bits, q)
  {
  }

  /** Exactly the probed bits are set. */
  ghost predicate Marks(hash: Hash, keys: seq<Buffer>, k: nat, bytes: Buffer) {
    && bytes != []
    && forall q :: 0 <= q < 8 * |bytes| ==> (BitAt(bytes, q) <==> SomeKeyHits(hash, keys, k, 8 * |bytes|, q))
  }

  lemma {:induction false} ZeroHasNoBits(j: nat)
    ensures !BitOf(0, j)
  {
    if j > 0 { ZeroHasNoBits(j - 1); }
  }

  /** The filter for a list of keys: the marked bits, and the number of probes. */
  method CreateFilter(hash: Hash, keys: seq<Buffer>, bitsPerKey: nat) returns (filter: Buffer)
    ensures |filter| == FilterBytes(|keys|, bitsPerKey) + 1 && filter[|filter| - 1] == ProbesFor(bitsPerKey)
    ensures Marks(hash, keys, ProbesFor(bitsPerKey), filter[..|filter| - 1])
  {
    var k, bytes := ProbesFor(bitsPerKey), FilterBytes(|keys|, bitsPerKey);
    var a := new Byte[bytes](_ => 0);
    forall q | 0 <= q < 8 * bytes ensures !BitAt(a[..], q) { ZeroHasNoBits(q % 8); }
    for i := 0 to |keys|
      invariant Marks(hash, keys[..i], k, a[..])
    {
      AddProbes(hash, keys[i], k, a);
      forall q | 0 <= q < 8 * bytes
        ensures SomeKeyHits(hash, keys[..i + 1], k, 8 * bytes, q) <==>
                KeyHits(hash, keys[i], k, 8 * bytes, q) || SomeKeyHits(hash, keys[..i], k, 8 * bytes, q)
      {
        SomeStep(hash, keys, i, k, 8 * bytes, q);
      }
    }
    assert keys[..|keys|] == keys;
    filter := a[..] + [k];
    assert filter[..|filter| - 1] == a[..];
  }

  lemma SomeStep(hash: Hash, keys: seq<Buffer>, i: nat, k: nat, bits: nat, q: nat)
    requires bits > 0 && i < |keys|
    ensures SomeKeyHits(hash, keys[..i + 1], k, bits, q) <==>
            KeyHits(hash, keys[i], k, bits, q) || SomeKeyHits(hash, keys[..i], k, bits, q)
  {
    assert keys[..i + 1] == keys[..i] + [keys[i]];
  }

  /** A filter has no false negatives. */
  lemma CreatedMatches(hash: Hash, keys: seq<Buffer>, filter: Buffer, key: Buffer)
    requires |filter| >= 2 && Marks(hash, keys, filter[|filter| - 1], filter[..|filter| - 1]) && key in keys
    ensures MayMatch(hash, key, filter)
  {
    var bytes, k := filter[..|filter| - 1], filter[|filter| - 1];
    forall j | 0 <= j < k ensures BitAt(bytes, ProbeAt(hash, key, j, 8 * |bytes|)) {
      assert KeyHits(hash, key, k, 8 * |bytes|, ProbeAt(hash, key, j, 8 * |bytes|));
    }
  }

  /** A filter denies a key exactly if one of its probes is a bit that no key hits. */
  lemma CreatedMatchesIff(hash: Hash, keys: seq<Buffer>, filter: Buffer, key: Buffer)
    requires |filter| >= 2 && Marks(hash, keys, filter[|filter| - 1], filter[..|filter| - 1])
    requires filter[|filter| - 1] <= 30
    ensures var k, bits := filter[|filter| - 1], 8 * (|filter| - 1);
            MayMatch(hash, key, filter) <==>
            forall j {:trigger ProbeAt(hash, key, j, bits)} :: 0 <= j < k ==>
              SomeKeyHits(hash, keys, k, bits, ProbeAt(hash, key, j, bits))
  {
    hide SomeKeyHits;
    hide BitAt;
    hide ProbeAt;
    var bytes := filter[..|filter| - 1];
    assert |bytes| == |filter| - 1;
  }
}
