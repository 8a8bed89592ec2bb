/** Bytes, fixed-width integers, varints and length-prefixed strings (util/coding.cc). */
module Coding {
  import opened Options
  import opened Arithmetic

  type Byte = b: nat | b < 256

  type Buffer = seq<Byte>

  lemma Associates(a: Buffer, b: Buffer, c: Buffer)
    ensures a + (b + c) == a + b + c
  {
  }

  const WORD32: nat := 0x1_0000_0000
  const WORD64: nat := 0x1_0000_0000_0000_0000

  // ---------- fixed width, little endian ----------

  function Fixed(width: nat, v: nat): (r: Buffer)
    ensures |r| == width
  {
    if width == 0 then [] else [v % 256] + Fixed(width - 1, v / 256)
  }

  function FixedValue(b: Buffer): nat {
    if b == [] then 0 else b[0] + 256 * FixedValue(b[1..])
  }

  function Power(base: nat, n: nat): (r: nat)
    requires base > 0
    ensures r > 0
  {
    if n == 0 then 1 else base * Power(base, n - 1)
  }

  lemma {:induction false} FixedRoundTrip(width: nat, v: nat)
    requires v < Power(256, width)
    ensures FixedValue(Fixed(width, v)) == v
  {
    if width > 0 {
      FixedRoundTrip(width - 1, v / 256);
      assert Fixed(width, v)[1..] == Fixed(width - 1, v / 256);
    }
  }

  // ---------- varints ----------

  /** Seven bits a byte, low bits first, the top bit set on all bytes but the last. */
  function Varint(v: nat): (r: Buffer)
    ensures r != []
  {
    if v < 128 then [v] else [v % 128 + 128] + Varint(v / 128)
  }

  /** Any bytes are the encoding of what they decode to. */
  lemma {:induction false} FixedOfValue(width: nat, b: Buffer)
    requires |b| == width
    ensures FixedValue(b) < Power(256, width) && Fixed(width, FixedValue(b)) == b
  {
    if width > 0 { FixedOfValue(width - 1, b[1..]); }
  }

  // What the bytes are, one by one.

  /** A fixed-width integer is little-endian. */
  lemma {:induction false} FixedDigit(width: nat, v: nat, i: nat)
    requires i < width
    ensures Fixed(width, v)[i] == v / Power(256, i) % 256
  {
    if i > 0 {
      FixedDigit(width - 1, v / 256, i - 1);
      QuotientOfQuotient(v, 256, Power(256, i - 1));
    }
  }

  /** A varint holds seven bits to the byte, lowest first, and all bytes but the last are marked. */
  lemma {:induction false} VarintDigit(v: nat, i: nat)
    requires i < |Varint(v)|
    ensures Varint(v)[i] == v / Power(128, i) % 128 + if i + 1 < |Varint(v)| then 128 else 0
  {
    if i > 0 {
      VarintDigit(v / 128, i - 1);
      QuotientOfQuotient(v, 128, Power(128, i - 1));
    }
  }

  /** It is as short as it can be. */
  lemma {:induction false} VarintIsShortest(v: nat)
    ensures v < Power(128, |Varint(v)|) && (|Varint(v)| > 1 ==> Power(128, |Varint(v)| - 1) <= v)
  {
    if v >= 128 {
      var n := |Varint(v / 128)|;
      VarintIsShortest(v / 128);
      assert v < 128 * (v / 128 + 1) <= 128 * Power(128, n);
      if n > 1 { assert v >= 128 * (v / 128) >= 128 * Power(128, n - 1); }
    }
  }

  /** What a decoder limited to `bytes` bytes finds at the start of `b`: the value, before it is cut to
      its width, and how many bytes it takes. */
  function VarintAt(b: Buffer, bytes: nat): Option<(nat, nat)> {
    if bytes == 0 || b == [] then None
    else if b[0] < 128 then Some((b[0], 1))
    else match VarintAt(b[1..], bytes - 1)
      case None => None
      case Some((v, n)) => Some((b[0] - 128 + 128 * v, n + 1))
  }

  /** The one decoding of an encoded value, with whatever follows it, is the value. */
  lemma {:induction false} VarintRoundTrip(v: nat, rest: Buffer, bytes: nat)
    requires 0 < bytes && v < Power(128, bytes)
    ensures VarintAt(Varint(v) + rest, bytes) == Some((v, |Varint(v)|))
  {
    var all := Varint(v) + rest;
    if v >= 128 {
      var high := v / 128;
      VarintRoundTrip(high, rest, bytes - 1);
      assert all[1..] == Varint(high) + rest;
      assert all[0] == v % 128 + 128;
    }
  }

  method EncodeVarint64(v: nat) returns (r: Buffer)
    requires v < WORD64
    ensures r == Varint(v)
  {
    r := [];
    var left := v;
    while left >= 128
      invariant r + Varint(left) == Varint(v)
    {
      r := r + [left % 128 + 128];
      left := left / 128;
    }
    r := r + [left];
  }

  /** The five cases of the 32-bit encoder. */
  method EncodeVarint32(v: nat) returns (r: Buffer)
    requires v < WORD32
    ensures r == Varint(v)
  {
    var d1, d2, d3, d4 := v / 128, v / 128 / 128, v / 128 / 128 / 128, v / 128 / 128 / 128 / 128;
    if v < 0x80 {
      r := [v];
    } else if v < 0x4000 {
      r := [v % 128 + 128, d1];
      assert Varint(d1) == [d1];
    } else if v < 0x20_0000 {
      r := [v % 128 + 128, d1 % 128 + 128, d2];
      assert Varint(d1) == [d1 % 128 + 128] + Varint(d2);
    } else if v < 0x1000_0000 {
      r := [v % 128 + 128, d1 % 128 + 128, d2 % 128 + 128, d3];
      assert Varint(d1) == [d1 % 128 + 128] + ([d2 % 128 + 128] + Varint(d3));
    } else {
      r := [v % 128 + 128, d1 % 128 + 128, d2 % 128 + 128, d3 % 128 + 128, d4];
      assert Varint(d2) == [d2 % 128 + 128] + ([d3 % 128 + 128] + Varint(d4));
      assert Varint(d1) == [d1 % 128 + 128] + Varint(d2);
    }
  }

  /** Decoded value, cut to the width of the result. */
  function Truncated(r: Option<(nat, nat)>, word: nat): Option<(nat, nat)>
    requires word > 0
  {
    match r
    case None => None
    case Some((v, n)) => Some((v % word, n))
  }

  /** One more group of seven bits, shifted into a word of limited width. */
  function ShiftIn(result: nat, byte: Byte, scale: nat, word: nat): nat
    requires word > 0
  {
    (result + byte % 128 * scale) % word
  }

  lemma ShiftInAgain(a: nat, byte: Byte, scale: nat, word: nat)
    requires word > 0
    ensures ShiftIn(a % word, byte, scale, word) == (a + byte % 128 * scale) % word
  {
    var part := byte % 128 * scale;
    AddMod(a % word, part, word);
    AddMod(a, part, word);
    assert a % word % word == a % word by { DivModUnique(a % word, word, 0, a % word); }
  }

  function Longer(r: Option<(nat, nat)>, more: nat): Option<(nat, nat)> {
    match r
    case None => None
    case Some((v, n)) => Some((v, n + more))
  }

  /** What the loop makes of the bytes still ahead of it. */
  function DecodeFrom(b: Buffer, word: nat, bytes: nat, result: nat, scale: nat): Option<(nat, nat)>
    requires word > 0
  {
    if bytes == 0 || b == [] then None
    else
      var next := ShiftIn(result, b[0], scale, word);
      if b[0] < 128 then Some((next, 1)) else Longer(DecodeFrom(b[1..], word, bytes - 1, next, scale * 128), 1)
  }

  ghost function Joined(past: nat, scale: nat, r: Option<(nat, nat)>): Option<(nat, nat)> {
    match r
    case None => None
    case Some((v, n)) => Some((past + scale * v, n))
  }

  lemma {:induction false} DecodeIsVarint(b: Buffer, word: nat, bytes: nat, past: nat, scale: nat)
    requires word > 0
    ensures DecodeFrom(b, word, bytes, past % word, scale) == Truncated(Joined(past, scale, VarintAt(b, bytes)), word)
  {
    if bytes > 0 && b != [] {
      if b[0] < 128 {
        LastByte(past, scale, b[0], word);
      } else {
        var part: nat := b[0] % 128 * scale;
        var high := VarintAt(b[1..], bytes - 1);
        ShiftInAgain(past, b[0], scale, word);
        DecodeIsVarint(b[1..], word, bytes - 1, past + part, scale * 128);
        JoinStep(past, scale, b[0], part, high);
        TruncatedLonger(Joined(past + part, scale * 128, high), word);
      }
    }
  }

  lemma LastByte(past: nat, scale: nat, byte: Byte, word: nat)
    requires word > 0 && byte < 128
    ensures Some((ShiftIn(past % word, byte, scale, word), 1)) ==
            Truncated(Joined(past, scale, Some((byte as nat, 1))), word)
  {
    ShiftInAgain(past, byte, scale, word);
    assert byte * scale == scale * byte;
  }

  lemma TruncatedLonger(r: Option<(nat, nat)>, word: nat)
    requires word > 0
    ensures Truncated(Longer(r, 1), word) == Longer(Truncated(r, word), 1)
  {}

  lemma DecodeStarts(b: Buffer, word: nat, bytes: nat)
    requires word > 0
    ensures DecodeFrom(b, word, bytes, 0, 1) == Truncated(VarintAt(b, bytes), word)
  {
    DecodeIsVarint(b, word, bytes, 0, 1);
    DivModUnique(0, word, 0, 0);
  }

  lemma JoinStep(past: nat, scale: nat, byte: Byte, part: nat, r: Option<(nat, nat)>)
    requires byte >= 128 && part == byte % 128 * scale
    ensures Joined(past, scale, match r case None => None case Some((v, n)) => Some((byte - 128 + 128 * v, n + 1)))
         == Longer(Joined(past + part, scale * 128, r), 1)
  {
    if r.Some? {
      var v := r.value.0;
      assert scale * (byte - 128 + 128 * v) == (byte - 128) * scale + scale * 128 * v;
    }
  }

  /** The decoding loop: bits that leave the word are lost. */
  method GetVarint(b: Buffer, word: nat, bytes: nat) returns (r: Option<(nat, nat)>)
    requires word > 0
    ensures r == Truncated(VarintAt(b, bytes), word)
  {
    var result: nat, scale: nat, p: nat := 0, 1, 0;
    assert b[0..] == b;
    while p < bytes && p < |b|
      invariant p <= |b| && p <= bytes
      invariant Longer(DecodeFrom(b[p..], word, bytes - p, result, scale), p) == DecodeFrom(b, word, bytes, 0, 1)
    {
      var byte := b[p];
      assert b[p..][1..] == b[p + 1..];
      result := ShiftIn(result, byte, scale, word);
      if byte < 128 {
        DecodeStarts(b, word, bytes);
        return Some((result, p + 1));
      }
      scale := scale * 128;
      p := p + 1;
    }
    DecodeStarts(b, word, bytes);
    return None;
  }

  /** A varint of at most five bytes, cut to 32 bits, and how many bytes it takes. */
  function Varint32At(b: Buffer): (r: Option<(nat, nat)>)
    ensures r.Some? ==> 0 < r.value.1 <= |b|
  {
    VarintFits(b, 5);
    Truncated(VarintAt(b, 5), WORD32)
  }

  function Varint64At(b: Buffer): (r: Option<(nat, nat)>)
    ensures r.Some? ==> 0 < r.value.1 <= |b|
  {
    VarintFits(b, 10);
    Truncated(VarintAt(b, 10), WORD64)
  }

  lemma Varint32Back(v: nat, rest: Buffer)
    requires v < WORD32
    ensures Varint32At(Varint(v) + rest) == Some((v, |Varint(v)|))
  {
    FiveBytesSuffice(v);
    VarintRoundTrip(v, rest, 5);
  }

  lemma Varint64Back(v: nat, rest: Buffer)
    requires v < WORD64
    ensures Varint64At(Varint(v) + rest) == Some((v, |Varint(v)|))
  {
    TenBytesSuffice(v);
    VarintRoundTrip(v, rest, 10);
  }

  lemma SliceOfSlice(data: Buffer, from: nat, upto: nat, i: nat, j: nat)
    requires from <= upto <= |data| && i <= j && from + j <= upto
    ensures data[from..upto][i..j] == data[from + i..from + j]
  {
    var a, b := data[from..upto][i..j], data[from + i..from + j];
    forall k | 0 <= k < j - i ensures a[k] == b[k] { assert a[k] == data[from..upto][i + k]; }
  }

  // ---------- length-prefixed strings ----------

  function LengthPrefixed(b: Buffer): Buffer { Varint(|b|) + b }

  /** GetLengthPrefixedSlice: the string and what follows it. */
  method GetLengthPrefixed(b: Buffer) returns (r: Option<(Buffer, Buffer)>)
    ensures r == PrefixedAt(b)
  {
    var len := GetVarint(b, WORD32, 5);
    if len.Some? {
      VarintFits(b, 5);
    }
    if len.Some? && len.value.0 <= |b| - len.value.1 {
      var at := len.value.1;
      return Some((b[at..at + len.value.0], b[at + len.value.0..]));
    }
    return None;
  }

  lemma {:induction false} VarintFits(b: Buffer, bytes: nat)
    ensures VarintAt(b, bytes).Some? ==> 0 < VarintAt(b, bytes).value.1 <= |b| && VarintAt(b, bytes).value.1 <= bytes
  {
    if bytes > 0 && b != [] && b[0] >= 128 { VarintFits(b[1..], bytes - 1); }
  }

  function PrefixedAt(b: Buffer): Option<(Buffer, Buffer)> {
    VarintFits(b, 5);
    match Truncated(VarintAt(b, 5), WORD32)
    case None => None
    case Some((len, at)) => if len <= |b| - at then Some((b[at..at + len], b[at + len..])) else None
  }

  lemma PrefixedRoundTrip(b: Buffer, rest: Buffer)
    requires |b| < WORD32
    ensures PrefixedAt(LengthPrefixed(b) + rest) == Some((b, rest))
  {
    FiveBytesSuffice(|b|);
    VarintRoundTrip(|b|, b + rest, 5);
    assert LengthPrefixed(b) + rest == Varint(|b|) + (b + rest);
    var at := |Varint(|b|)|;
    assert (Varint(|b|) + (b + rest))[at..at + |b|] == b;
  }

  lemma FiveBytesSuffice(v: nat)
    requires v < WORD32
    ensures v < Power(128, 5)
  {
    assert Power(128, 2) == 16384 && Power(128, 4) == 268435456;
  }

  lemma TenBytesSuffice(v: nat)
    requires v < WORD64
    ensures v < Power(128, 10)
  {
    assert Power(128, 2) == 16384 && Power(128, 4) == 268435456 && Power(128, 6) == 268435456 * 16384;
    assert Power(128, 8) == 268435456 * 268435456;
  }
}
