/** Internal keys as bytes: a user key followed by eight bytes of sequence number and type (db/dbformat.cc). */
module InternalKeyBytes {
  import opened Options
  import opened Coding
  import opened InternalKeys
  import opened Bytewise

  const TAG_SIZE: nat := 8
  const MAX_TAG: nat := MAX_SEQUENCE * 256 + 1

  function PackSequenceAndType(s: Sequence, kind: ValueType): (tag: nat)
    ensures tag < WORD64
  {
    s * 256 + if kind.Value? then 1 else 0
  }

  function Encode(user: Buffer, tag: nat): (r: Buffer)
    ensures |r| == |user| + TAG_SIZE
  {
    user + Fixed(TAG_SIZE, tag)
  }

  function ExtractUserKey(k: Buffer): Buffer { if |k| < TAG_SIZE then k else k[..|k| - TAG_SIZE] }

  function ExtractTag(k: Buffer): nat { if |k| < TAG_SIZE then 0 else FixedValue(k[|k| - TAG_SIZE..]) }

  lemma ExtractEncode(user: Buffer, tag: nat)
    requires tag < WORD64
    ensures ExtractUserKey(Encode(user, tag)) == user && ExtractTag(Encode(user, tag)) == tag
  {
    assert Power(256, 4) == WORD32 && Power(256, 8) == WORD64;
    FixedRoundTrip(TAG_SIZE, tag);
    assert Encode(user, tag)[|user|..] == Fixed(TAG_SIZE, tag);
  }

  datatype ParsedKey = ParsedKey(user: Buffer, sequence: Sequence, kind: ValueType)

  /** ParseInternalKey: malformed keys are refused. */
  function Parse(k: Buffer): Option<ParsedKey> {
    if |k| < TAG_SIZE then None
    else
      var tag := ExtractTag(k);
      FixedIsBounded(k[|k| - TAG_SIZE..]);
      if tag % 256 == 0 then Some(ParsedKey(ExtractUserKey(k), tag / 256, Deletion))
      else if tag % 256 == 1 then Some(ParsedKey(ExtractUserKey(k), tag / 256, Value))
      else None
  }

  lemma FixedIsBounded(b: Buffer)
    requires |b| == 8
    ensures FixedValue(b) < WORD64
  {
    FixedOfValue(8, b);
    assert Power(256, 4) == WORD32 && Power(256, 8) == WORD64;
  }

  /** A packed key parses to what was packed. */
  lemma ParseEncode(user: Buffer, s: Sequence, kind: ValueType)
    ensures Parse(Encode(user, PackSequenceAndType(s, kind))) == Some(ParsedKey(user, s, kind))
  {
    ExtractEncode(user, PackSequenceAndType(s, kind));
  }

  lemma LowByte(b: Buffer)
    requires |b| == TAG_SIZE
    ensures FixedValue(b) % 256 == b[0]
  {
  }

  lemma PartsPack(tag: nat)
    requires tag < WORD64 && tag % 256 <= 1
    ensures PackSequenceAndType(tag / 256, if tag % 256 == 0 then Deletion else Value) == tag
  {
  }

  /** Bytes are an internal key exactly if they are long enough and have a known type, and what is parsed encodes to
      the same bytes. */
  lemma ParsesIff(k: Buffer)
    ensures Parse(k).Some? <==> |k| >= TAG_SIZE && k[|k| - TAG_SIZE] <= 1
    ensures Parse(k).Some? ==>
              var p := Parse(k).value; Encode(p.user, PackSequenceAndType(p.sequence, p.kind)) == k
  {
    if |k| >= TAG_SIZE {
      var b, tag := k[|k| - TAG_SIZE..], ExtractTag(k);
      LowByte(b);
      FixedOfValue(TAG_SIZE, b);
      FixedIsBounded(b);
      hide FixedValue;
      hide Fixed;
      hide Power;
      if tag % 256 <= 1 { PartsPack(tag); }
      hide PackSequenceAndType;
      assert k == k[..|k| - TAG_SIZE] + b;
    }
  }

  /** InternalKeyComparator::Compare is below zero. */
  predicate KeyLess(a: Buffer, b: Buffer) {
    Lex(ExtractUserKey(a), ExtractUserKey(b))
        || (ExtractUserKey(a) == ExtractUserKey(b) && ExtractTag(a) > ExtractTag(b))
  }

  lemma KeyLessTransitive(a: Buffer, b: Buffer, c: Buffer)
    requires KeyLess(a, b) && KeyLess(b, c)
    ensures KeyLess(a, c)
  {
    var x, y, z := ExtractUserKey(a), ExtractUserKey(b), ExtractUserKey(c);
    if Lex(x, y) && Lex(y, z) { LexTransitive(x, y, z); }
  }

  lemma KeyLessIrreflexive(a: Buffer)
    ensures !KeyLess(a, a)
  {
    LexIrreflexive(ExtractUserKey(a));
  }

  lemma KeyLessAsymmetric(a: Buffer, b: Buffer)
    requires KeyLess(a, b)
    ensures !KeyLess(b, a)
  {
    if KeyLess(b, a) {
      KeyLessTransitive(a, b, a);
      KeyLessIrreflexive(a);
    }
  }

  /** `a` is not after `b`, and `b` is not after `c`. */
  lemma NotAfterTransitive(a: Buffer, b: Buffer, c: Buffer)
    requires !KeyLess(b, a) && !KeyLess(c, b)
    ensures !KeyLess(c, a)
  {
    var x, y, z := ExtractUserKey(a), ExtractUserKey(b), ExtractUserKey(c);
    LexTotal(x, y);
    LexTotal(y, z);
    if Lex(z, x) {
      LexIrreflexive(x);
      if Lex(x, y) { LexTransitive(z, x, y); }
      if Lex(y, z) { LexTransitive(y, z, x); }
    }
  }

  // ---------- the same order on keys with ranks for user keys ----------

  function Abstract(p: ParsedKey): InternalKey { InternalKey(Rank(p.user), p.sequence, p.kind) }

  /** On well-formed keys the byte order is the order the other modules use. */
  lemma KeyLessIsBefore(a: Buffer, b: Buffer)
    requires Parse(a).Some? && Parse(b).Some?
    ensures KeyLess(a, b) <==> Before(Abstract(Parse(a).value), Abstract(Parse(b).value))
  {
    RankIsOrder(ExtractUserKey(a), ExtractUserKey(b));
  }

  // ---------- separators ----------

  /** Either the key itself, or a shorter user key strictly after the key's own, at the largest tag. */
  ghost predicate IsShortened(start: Buffer, r: Buffer) {
    r == start || (ExtractTag(r) == MAX_TAG && |r| >= TAG_SIZE && Lex(ExtractUserKey(start), ExtractUserKey(r)))
  }

  method FindShortestKeySeparator(start: Buffer, limit: Buffer) returns (r: Buffer)
    requires |start| >= TAG_SIZE && |limit| >= TAG_SIZE
    ensures IsShortened(start, r) && |r| <= |start| && |r| >= TAG_SIZE
    ensures KeyLess(start, limit) ==> KeyLess(r, limit)
    ensures r != start && KeyLess(start, limit) ==> Lex(ExtractUserKey(r), ExtractUserKey(limit))
  {
    var userStart, userLimit := ExtractUserKey(start), ExtractUserKey(limit);
    var tmp := FindShortestSeparator(userStart, userLimit);
    r := start;
    if |tmp| < |userStart| && Lex(userStart, tmp) {
      ExtractEncode(tmp, MAX_TAG);
      r := Encode(tmp, MAX_TAG);
    }
  }

  method FindShortKeySuccessor(key: Buffer) returns (r: Buffer)
    requires |key| >= TAG_SIZE
    ensures IsShortened(key, r) && |r| <= |key| && |r| >= TAG_SIZE
  {
    var user := ExtractUserKey(key);
    var tmp := FindShortSuccessor(user);
    r := key;
    if |tmp| < |user| && Lex(user, tmp) {
      ExtractEncode(tmp, MAX_TAG);
      r := Encode(tmp, MAX_TAG);
    }
  }

  /** A shortened key is never before the key. */
  lemma ShortenedIsNotBefore(start: Buffer, r: Buffer)
    requires IsShortened(start, r)
    ensures !KeyLess(r, start)
  {
    if r == start { KeyLessIrreflexive(start); } else { KeyLessAsymmetric(start, r); }
  }
}
