/** Decoding what was encoded gives the message back, with absent fields at their defaults. */
module PbRoundTrip {
  import opened Options
  import opened Coding
  import opened PbMessages
  import opened PbEncoding
  import opened PbDecoding
  import opened PbRequired

  // ---------- numbers ----------

  lemma ZigRoundTrip(n: int)
    requires FitsSigned(n, 8)
    ensures Zig(n) < WORD64 && UnZig(Zig(n)) == n
  {
  }

  lemma AsWordRoundTrip(n: int, size: nat)
    requires IsSize(size) && FitsSigned(n, size)
    ensures AsWord(n) < WORD64
    ensures (if size == 8 then SignedOf(AsWord(n), WORD64) else SignedOf(AsWord(n) % WORD32, WORD32)) == n
  {
  }

  lemma StringBack(s: Buffer, rest: Buffer)
    requires |s| < WORD32
    ensures StringAt(LengthPrefixed(s) + rest) == Some((s, |LengthPrefixed(s)|))
  {
    Varint32Back(|s|, s + rest);
    assert LengthPrefixed(s) + rest == Varint(|s|) + (s + rest);
    var n := |Varint(|s|)|;
    assert (Varint(|s|) + (s + rest))[n..n + |s|] == s;
  }

  lemma FixedBack(width: nat, v: nat, rest: Buffer)
    requires (width == 4 && v < WORD32) || (width == 8 && v < WORD64)
    ensures FixedValue((Fixed(width, v) + rest)[..width]) == v
  {
    assert (Fixed(width, v) + rest)[..width] == Fixed(width, v);
    assert Power(256, 2) == 0x1_0000 && Power(256, 4) == WORD32 && Power(256, 8) == WORD64;
    FixedRoundTrip(width, v);
  }

  // ---------- what the round trip asks of the message ----------

  /** Character buffers end in a NUL. */
  ghost predicate Terminated(kind: Kind, v: Value)
    decreases kind, 0
  {
    match kind
    case Text(capacity) => v.Blob? && |v.bytes| < capacity
    case Message(d) => v.Struct? && AllTerminated(d, v.slots)
    case _ => true
  }

  ghost predicate AllTerminated(d: Descriptor, slots: seq<Slot>)
    decreases d, 0
  {
    |slots| == |d.fields| && forall i :: 0 <= i < |slots| ==> SlotTerminated(d.fields[i], slots[i])
  }

  ghost predicate SlotTerminated(f: Field, slot: Slot)
    decreases f, 0
  {
    match slot
    case Plain(v) => Terminated(f.kind, v)
    case Flagged(has, v) => has ==> Terminated(f.kind, v)
    case Items(items) => forall i :: 0 <= i < |items| ==> Terminated(f.kind, items[i])
    case Member(chosen) => chosen.Some? ==> Terminated(f.kind, chosen.value)
  }

  ghost predicate CanReturn(kind: Kind, v: Value) {
    GoodKind(kind) && Typed(kind, v) && Terminated(kind, v) && EncodeValue(kind, v).Some?
        && |EncodeValue(kind, v).value| < WORD32
  }

  /** A fresh place for a value: a submessage that holds its defaults. */
  ghost predicate Fresh(kind: Kind, was: Value) {
    kind.Message? && was.Struct? ==> was.slots == Defaults(kind.fields)
  }

  // ---------- one value ----------

  lemma NumberBack(kind: Kind, was: Value, v: Value, rest: Buffer)
    requires CanReturn(kind, v) && Packable(kind)
    ensures DecodeValue(kind, was, EncodeValue(kind, v).value + rest) == Some((v, |EncodeValue(kind, v).value|))
  {
    match kind
    case SignedInt(size) => AsWordRoundTrip(v.n, size); Varint64Back(AsWord(v.n), rest);
    case UnsignedInt(size) => Varint64Back(v.n, rest);
    case ZigZag(size) => ZigRoundTrip(v.n); Varint64Back(Zig(v.n), rest);
    case Fixed32 => FixedBack(4, v.n, rest);
    case Fixed64 => FixedBack(8, v.n, rest);
  }

  /** Negative numbers of at most 32 bits are read back also from encoders that do not extend their sign to 64 bits. */
  lemma ShortNegativeBack(size: nat, was: Value, n: int, rest: Buffer)
    requires IsSize(size) && size < 8 && FitsSigned(n, size)
    ensures var b := Varint(if n < 0 then n + WORD32 else n);
            DecodeValue(SignedInt(size), was, b + rest) == Some((Number(n), |b|))
  {
    Varint64Back(if n < 0 then n + WORD32 else n, rest);
  }

  lemma BlobBack(kind: Kind, was: Value, v: Value, rest: Buffer)
    requires CanReturn(kind, v) && (kind.Bytes? || kind.Text? || kind.FixedBytes?)
    ensures DecodeValue(kind, was, EncodeValue(kind, v).value + rest) == Some((v, |EncodeValue(kind, v).value|))
  {
    StringBack(v.bytes, rest);
    if kind.FixedBytes? && v.bytes == [] { assert seq(kind.length, _ => 0 as Byte) == v.bytes; }
  }

  /** A string that fills its buffer is encoded but not accepted back. */
  lemma TextBackIff(capacity: nat, s: Buffer, rest: Buffer)
    requires Typed(Text(capacity), Blob(s)) && |s| < WORD32
    ensures DecodeValue(Text(capacity), Blob([]), EncodeValue(Text(capacity), Blob(s)).value + rest).Some?
            <==> |s| < capacity
  {
    StringBack(s, rest);
  }

  lemma {:induction false} ValueBack(kind: Kind, was: Value, v: Value, rest: Buffer)
    requires CanReturn(kind, v) && Fresh(kind, was)
    ensures DecodeValue(kind, was, EncodeValue(kind, v).value + rest) ==
            Some((Normal(kind, v), |EncodeValue(kind, v).value|))
    decreases kind, 0, 0
  {
    if Packable(kind) {
      NumberBack(kind, was, v, rest);
    } else if kind.Message? {
      var d := kind.fields;
      var b := EncodeFrom(d, v.slots, 0).value;
      MessageBack(d, v.slots);
      StringBack(b, rest);
    } else {
      BlobBack(kind, was, v, rest);
    }
  }

  // ---------- all fields ----------

  /** The message when the fields `done` have been decoded. */
  ghost function Partly(d: Descriptor, slots: seq<Slot>, done: set<nat>): seq<Slot>
    requires |slots| == |d.fields|
  {
    seq(|slots|, i requires 0 <= i < |slots| => if i in done then NormalSlot(d.fields[i], slots[i])
        else Default(d.fields[i]))
  }

  ghost predicate CanReturnAll(d: Descriptor, slots: seq<Slot>) {
    Good(d) && TypedSlots(d, slots) && AllTerminated(d, slots)
  }

  lemma MessageBack(d: Descriptor, slots: seq<Slot>)
    requires CanReturnAll(d, slots) && EncodeFrom(d, slots, 0).Some? && |EncodeFrom(d, slots, 0).value| < WORD32
    ensures DecodeMessage(d, Defaults(d), {}, EncodeFrom(d, slots, 0).value) == Some(NormalSlots(d, slots))
    decreases d, 1, 0
  {
    assert Partly(d, slots, All(0)) == Defaults(d);
    FieldsBack(d, slots, 0, {});
  }

  ghost predicate SeenOf(d: Descriptor, seen: set<nat>, done: set<nat>) {
    forall i :: i in done && i < |d.fields| && d.fields[i].rule.Required? ==> i in seen
  }

  lemma {:induction false} FieldFirst(d: Descriptor, slots: seq<Slot>, n: nat)
    requires CanReturnAll(d, slots) && n < |slots| == |d.fields| && EncodeFrom(d, slots, n).Some?
    ensures EncodeField(d.fields[n], slots[n]).Some? && EncodeFrom(d, slots, n + 1).Some?
    ensures EncodeFrom(d, slots, n).value ==
            EncodeField(d.fields[n], slots[n]).value + EncodeFrom(d, slots, n + 1).value
  {
    hide EncodeField;
  }

  lemma {:induction false} FieldsBack(d: Descriptor, slots: seq<Slot>, n: nat, seen: set<nat>)
    requires CanReturnAll(d, slots) && n <= |slots| && SeenOf(d, seen, All(n))
    requires EncodeFrom(d, slots, n).Some? && |EncodeFrom(d, slots, n).value| < WORD32
    ensures DecodeMessage(d, Partly(d, slots, All(n)), seen, EncodeFrom(d, slots, n).value) ==
            Some(NormalSlots(d, slots))
    decreases d, 0, |slots| - n
  {
    if n == |slots| {
      AllDone(d, slots, seen, All(n));
    } else {
      var rest := EncodeFrom(d, slots, n + 1).value;
      var seen' := FieldBack(d, slots, n, All(n), seen, rest);
      assert All(n) + {n} == All(n + 1);
      FieldsBack(d, slots, n + 1, seen');
    }
  }

  /** When every field is done, the end of the input finishes the message. */
  lemma AllDone(d: Descriptor, slots: seq<Slot>, seen: set<nat>, done: set<nat>)
    requires |slots| == |d.fields| && SeenOf(d, seen, done) && forall i :: 0 <= i < |slots| ==> i in done
    ensures DecodeMessage(d, Partly(d, slots, done), seen, []) == Some(NormalSlots(d, slots))
  {
    assert Partly(d, slots, done) == NormalSlots(d, slots);
  }

  lemma {:induction false} KeyDecodes(d: Descriptor, slots: seq<Slot>, seen: set<nat>, b: Buffer, key: nat, k: nat,
                                      n: nat)
    requires |slots| == |d.fields| && Varint32At(b) == Some((key, k)) && key > 0 && FindFrom(d, key / 8, 0) == Some(n)
    ensures DecodeMessage(d, slots, seen, b) ==
            match DecodeField(d, slots, n, key % 8, b[k..])
            case None => None
            case Some((slots', m)) => DecodeMessage(d, slots', seen + {n}, b[k + m..])
  {
    hide DecodeField;
    hide Finish;
    hide SkipAt;
    hide FindFrom;
    hide Varint32At;
  }

  /** A key is found again, and what follows it is handed to its field. */
  lemma {:induction false} KeyBack(d: Descriptor, slots: seq<Slot>, seen: set<nat>, n: nat, wireType: nat,
                                   body: Buffer)
    requires Good(d) && n < |d.fields| == |slots| && wireType < 8
    ensures DecodeMessage(d, slots, seen, TagBytes(d.fields[n].tag, wireType) + body) ==
            match DecodeField(d, slots, n, wireType, body)
            case None => None
            case Some((slots', k)) => DecodeMessage(d, slots', seen + {n}, body[k..])
  {
    hide DecodeMessage;
    hide DecodeField;
    hide FindFrom;
    hide Varint32At;
    hide Good;
    TagFits(d, n);
    var key := d.fields[n].tag * 8 + wireType;
    var b := TagBytes(d.fields[n].tag, wireType) + body;
    Varint32Back(key, body);
    assert b[|Varint(key)|..] == body;
    TagIsFound(d, n);
    KeyDecodes(d, slots, seen, b, key, |Varint(key)|, n);
    var r := DecodeField(d, slots, n, wireType, body);
    if r.Some? { assert b[|Varint(key)| + r.value.1..] == body[r.value.1..]; }
  }

  lemma TagFits(d: Descriptor, n: nat)
    requires Good(d) && n < |d.fields|
    ensures 0 < d.fields[n].tag < MAX_TAG
  {
  }

  lemma TagIsFound(d: Descriptor, n: nat)
    requires Good(d) && n < |d.fields|
    ensures FindFrom(d, d.fields[n].tag, 0) == Some(n)
  {
    var i := FindFrom(d, d.fields[n].tag, 0);
    assert i.Some?;
  }

  lemma PartlyNext(d: Descriptor, slots: seq<Slot>, n: nat, done: set<nat>)
    requires n < |slots| == |d.fields| && n !in done
    ensures Partly(d, slots, done + {n}) == Partly(d, slots, done)[n := NormalSlot(d.fields[n], slots[n])]
    ensures Partly(d, slots, done)[n] == Default(d.fields[n])
  {
    hide NormalSlot;
    hide Default;
  }

  /** The field has the one value `v`, which is encoded. */
  predicate Present(f: Field, slot: Slot, v: Value) {
    match f.rule
    case Required => slot == Plain(v)
    case Implicit => slot == Plain(v) && !LooksDefault(f.kind, v)
    case Optional => slot == Flagged(true, v)
    case Repeated(_) => false
    case OneOf(_) => slot == Member(Some(v))
  }

  /** A field with one value. */
  lemma SingleBack(d: Descriptor, slots: seq<Slot>, n: nat, v: Value, done: set<nat>, seen: set<nat>, rest: Buffer)
    requires CanReturnAll(d, slots) && n < |slots| && n !in done && CanReturn(d.fields[n].kind, v)
    requires Present(d.fields[n], slots[n], v) && !d.fields[n].rule.OneOf?
    ensures var b := Tagged(d.fields[n], EncodeValue(d.fields[n].kind, v)).value;
            DecodeMessage(d, Partly(d, slots, done), seen, b + rest) ==
                DecodeMessage(d, Partly(d, slots, done + {n}), seen + {n}, rest)
    decreases d, 0, |slots| - n, 0
  {
    hide Choose;
    hide NormalSlots;
    hide VarintAt;
    hide SlotsOf;
    hide TypedSlot;
    hide Packable;
    hide Zig;
    hide Fixed;
    hide LengthPrefixed;
    hide Finish;
    hide Terminated;
    hide LooksDefault;
    hide AllTerminated;
    hide TagBytes;
    TypedOf(d, slots);
    hide DecodeMessage;
    hide DecodeValue;
    hide CanReturnAll;
    hide TypedSlots;
    hide EncodeValue;
    hide Partly;
    var f := d.fields[n];
    var b := EncodeValue(f.kind, v).value;
    assert TagBytes(f.tag, WireType(f.kind)) + b + rest == TagBytes(f.tag, WireType(f.kind)) + (b + rest);
    GoodOf(d, slots);
    KeyBack(d, Partly(d, slots, done), seen, n, WireType(f.kind), b + rest);
    PartlyNext(d, slots, n, done);
    ValueBack(f.kind, DefaultValue(f), v, rest);
    assert (b + rest)[|b|..] == rest;
  }

  lemma GoodOf(d: Descriptor, slots: seq<Slot>)
    requires CanReturnAll(d, slots)
    ensures Good(d)
  {
  }

  /** Choosing a member leaves the others as they are, since none of them was chosen. */
  lemma ChooseNext(d: Descriptor, slots: seq<Slot>, n: nat, v: Value, done: set<nat>)
    requires TypedSlots(d, slots) && n < |slots| && n !in done && d.fields[n].rule.OneOf? && slots[n] == Member(Some(v))
    ensures Choose(d, Partly(d, slots, done), n, Normal(d.fields[n].kind, v)) == Partly(d, slots, done + {n})
  {
    hide Normal;
    hide Typed;
    var chosen := Choose(d, Partly(d, slots, done), n, Normal(d.fields[n].kind, v));
    var next := Partly(d, slots, done + {n});
    forall j | 0 <= j < |slots| ensures chosen[j] == next[j] {
      if j != n && d.fields[j].rule == d.fields[n].rule {
        var low, high := if j < n then j else n, if j < n then n else j;
        assert slots[low] == Member(None) || slots[high] == Member(None);
      }
    }
  }

  lemma MemberBack(d: Descriptor, slots: seq<Slot>, n: nat, v: Value, done: set<nat>, seen: set<nat>, rest: Buffer)
    requires CanReturnAll(d, slots) && n < |slots| && n !in done && CanReturn(d.fields[n].kind, v)
    requires d.fields[n].rule.OneOf? && slots[n] == Member(Some(v))
    ensures var b := Tagged(d.fields[n], EncodeValue(d.fields[n].kind, v)).value;
            DecodeMessage(d, Partly(d, slots, done), seen, b + rest) ==
                DecodeMessage(d, Partly(d, slots, done + {n}), seen + {n}, rest)
    decreases d, 0, |slots| - n, 0
  {
    GoodOf(d, slots);
    TypedOf(d, slots);
    hide DecodeMessage;
    hide DecodeValue;
    hide CanReturnAll;
    hide TypedSlots;
    hide EncodeValue;
    hide Choose;
    hide Partly;
    var f := d.fields[n];
    var b := EncodeValue(f.kind, v).value;
    assert TagBytes(f.tag, WireType(f.kind)) + b + rest == TagBytes(f.tag, WireType(f.kind)) + (b + rest);
    KeyBack(d, Partly(d, slots, done), seen, n, WireType(f.kind), b + rest);
    ChooseNext(d, slots, n, v, done);
    ValueBack(f.kind, Number(0), v, rest);
    assert (b + rest)[|b|..] == rest;
  }

  lemma TypedOf(d: Descriptor, slots: seq<Slot>)
    requires CanReturnAll(d, slots)
    ensures TypedSlots(d, slots) && |slots| == |d.fields|
  {
  }

  // ---------- arrays ----------

  ghost predicate ItemsCanReturn(kind: Kind, items: seq<Value>) {
    GoodKind(kind) && forall i :: 0 <= i < |items| ==> Typed(kind, items[i]) && Terminated(kind, items[i])
  }

  /** A packed list adds its items to those that are there, if there is room for all of them. */
  lemma {:induction false} PackedBack(f: Field, before: seq<Value>, items: seq<Value>, n: nat, capacity: nat)
    requires ItemsCanReturn(f.kind, items) && Packable(f.kind) && n <= |items| && |before| + n <= capacity
    requires PackedFrom(f, items, n).Some? && |PackedFrom(f, items, n).value| < WORD32
    ensures DecodePacked(f.kind, before + items[..n], capacity, PackedFrom(f, items, n).value) ==
            if |before| + |items| <= capacity then Some(before + items) else None
    decreases |items| - n
  {
    if n == |items| {
      assert items[..n] == items;
    } else {
      var b, rest := EncodeValue(f.kind, items[n]).value, PackedFrom(f, items, n + 1).value;
      NumbersTakeRoom(f.kind, items[n]);
      if |before| + n < capacity {
        NumberBack(f.kind, Number(0), items[n], rest);
        PackedBack(f, before, items, n + 1, capacity);
        assert before + items[..n] + [items[n]] == before + items[..n + 1];
        assert (b + rest)[|b|..] == rest;
      }
    }
  }

  lemma NumbersTakeRoom(kind: Kind, v: Value)
    requires Packable(kind) && Typed(kind, v) && EncodeValue(kind, v).Some?
    ensures EncodeValue(kind, v).value != []
  {
  }

  ghost function NormalItems(kind: Kind, items: seq<Value>): seq<Value> {
    seq(|items|, i requires 0 <= i < |items| => Normal(kind, items[i]))
  }

  lemma NormalItemsNext(kind: Kind, items: seq<Value>, n: nat)
    requires n < |items|
    ensures NormalItems(kind, items[..n + 1]) == NormalItems(kind, items[..n]) + [Normal(kind, items[n])]
  {
    hide Normal;
  }

  /** One more item of an array outside a packed list; items of any kind may come like that. */
  lemma ItemBack(d: Descriptor, slots: seq<Slot>, i: nat, items: seq<Value>, v: Value, seen: set<nat>, rest: Buffer)
    requires Good(d) && i < |slots| == |d.fields| && slots[i] == Items(items)
    requires d.fields[i].rule.Repeated? && |items| < d.fields[i].rule.capacity && CanReturn(d.fields[i].kind, v)
    ensures var b := Tagged(d.fields[i], EncodeValue(d.fields[i].kind, v)).value;
            DecodeMessage(d, slots, seen, b + rest) ==
            DecodeMessage(d, slots[i := Items(items + [Normal(d.fields[i].kind, v)])], seen + {i}, rest)
    decreases d, 0, 0, 0
  {
    hide DecodeMessage;
    hide DecodeValue;
    hide Good;
    hide EncodeValue;
    var f := d.fields[i];
    var b := EncodeValue(f.kind, v).value;
    assert TagBytes(f.tag, WireType(f.kind)) + b + rest == TagBytes(f.tag, WireType(f.kind)) + (b + rest);
    KeyBack(d, slots, seen, i, WireType(f.kind), b + rest);
    ValueBack(f.kind, Number(0), v, rest);
    assert (b + rest)[|b|..] == rest;
  }

  /** Items outside a packed list are added to those that are there, if there is room for all of them. */
  lemma {:induction false} ItemsBack(d: Descriptor, slots: seq<Slot>, i: nat, before: seq<Value>, items: seq<Value>,
                                     n: nat, seen: set<nat>, rest: Buffer)
    returns (seen': set<nat>)
    requires Good(d) && i < |slots| == |d.fields| && n <= |items|
             && slots[i] == Items(before + NormalItems(d.fields[i].kind, items[..n]))
    requires d.fields[i].rule.Repeated? && |before| + n <= d.fields[i].rule.capacity
    requires ItemsCanReturn(d.fields[i].kind, items)
    requires EncodeItems(d.fields[i], items, n).Some? && |EncodeItems(d.fields[i], items, n).value| < WORD32
    ensures seen <= seen' <= seen + {i}
    ensures DecodeMessage(d, slots, seen, EncodeItems(d.fields[i], items, n).value + rest) ==
            if |before| + |items| <= d.fields[i].rule.capacity
            then DecodeMessage(d, slots[i := Items(before + NormalItems(d.fields[i].kind, items))], seen', rest)
            else None
    decreases d, 0, 0, 1, |items| - n
  {
    hide DecodeMessage;
    hide Good;
    hide Normal;
    hide EncodeValue;
    var f := d.fields[i];
    if n == |items| {
      assert items[..n] == items && slots[i := slots[i]] == slots && [] + rest == rest;
      seen' := seen;
    } else {
      var b, more := Tagged(f, EncodeValue(f.kind, items[n])).value, EncodeItems(f, items, n + 1).value;
      var now := before + NormalItems(f.kind, items[..n]);
      assert b + more + rest == b + (more + rest);
      if |now| < f.rule.capacity {
        NormalItemsNext(f.kind, items, n);
        ItemBack(d, slots, i, now, items[n], seen, more + rest);
        var next := before + NormalItems(f.kind, items[..n + 1]);
        assert next == now + [Normal(f.kind, items[n])];
        seen' := ItemsBack(d, slots[i := Items(next)], i, before, items, n + 1, seen + {i}, rest);
        var all := Items(before + NormalItems(f.kind, items));
        assert slots[i := Items(next)][i := all] == slots[i := all];
      } else {
        NoMoreItems(d, slots, i, items[n], seen, more + rest);
        seen' := seen;
      }
    }
  }

  /** An item too many is an error. */
  lemma NoMoreItems(d: Descriptor, slots: seq<Slot>, i: nat, v: Value, seen: set<nat>, rest: Buffer)
    requires Good(d) && i < |slots| == |d.fields| && d.fields[i].rule.Repeated? && slots[i].Items?
    requires |slots[i].items| >= d.fields[i].rule.capacity && CanReturn(d.fields[i].kind, v)
    ensures DecodeMessage(d, slots, seen, Tagged(d.fields[i], EncodeValue(d.fields[i].kind, v)).value + rest) == None
  {
    hide DecodeMessage;
    hide DecodeValue;
    hide Good;
    hide EncodeValue;
    var f := d.fields[i];
    var b := EncodeValue(f.kind, v).value;
    assert TagBytes(f.tag, WireType(f.kind)) + b + rest == TagBytes(f.tag, WireType(f.kind)) + (b + rest);
    KeyBack(d, slots, seen, i, WireType(f.kind), b + rest);
  }

  /** A packed list in a message. */
  lemma PackedListBack(d: Descriptor, slots: seq<Slot>, i: nat, before: seq<Value>, items: seq<Value>, seen: set<nat>,
                       rest: Buffer)
    requires Good(d) && i < |slots| == |d.fields| && slots[i] == Items(before) && d.fields[i].rule.Repeated?
    requires Packable(d.fields[i].kind) && ItemsCanReturn(d.fields[i].kind, items)
    requires |before| <= d.fields[i].rule.capacity
    requires PackedFrom(d.fields[i], items, 0).Some? && |PackedFrom(d.fields[i], items, 0).value| < WORD32
    ensures var f := d.fields[i];
            var b := TagBytes(f.tag, WT_STRING) + LengthPrefixed(PackedFrom(f, items, 0).value);
            DecodeMessage(d, slots, seen, b + rest) ==
            if |before| + |items| <= f.rule.capacity
            then DecodeMessage(d, slots[i := Items(before + items)], seen + {i}, rest)
            else None
  {
    hide DecodeMessage;
    hide DecodeValue;
    hide EncodeValue;
    hide Good;
    hide DecodePacked;
    hide PackedFrom;
    var f := d.fields[i];
    var b := PackedFrom(f, items, 0).value;
    assert TagBytes(f.tag, WT_STRING) + LengthPrefixed(b) + rest ==
           TagBytes(f.tag, WT_STRING) + (LengthPrefixed(b) + rest);
    KeyBack(d, slots, seen, i, WT_STRING, LengthPrefixed(b) + rest);
    StringBack(b, rest);
    assert before + items[..0] == before;
    PackedBack(f, before, items, 0, f.rule.capacity);
    assert (LengthPrefixed(b) + rest)[|LengthPrefixed(b)|..] == rest;
  }

  lemma PackedFieldBack(d: Descriptor, slots: seq<Slot>, i: nat, items: seq<Value>, capacity: nat, seen: set<nat>,
                        rest: Buffer)
    requires Good(d) && i < |slots| == |d.fields| && slots[i] == Items([]) && d.fields[i].rule == Repeated(capacity)
    requires items != [] && Packable(d.fields[i].kind) && ItemsCanReturn(d.fields[i].kind, items)
    requires EncodeArray(d.fields[i], items, capacity).Some?
             && |EncodeArray(d.fields[i], items, capacity).value| < WORD32
    ensures DecodeMessage(d, slots, seen, EncodeArray(d.fields[i], items, capacity).value + rest) ==
            DecodeMessage(d, slots[i := Items(items)], seen + {i}, rest)
  {
    hide DecodeMessage;
    hide Good;
    hide PackedFrom;
    assert [] + items == items;
    PackedListBack(d, slots, i, [], items, seen, rest);
  }

  lemma PackedIsNormal(kind: Kind, items: seq<Value>)
    requires Packable(kind)
    ensures NormalItems(kind, items) == items
  {
  }

  lemma ArrayBack(d: Descriptor, slots: seq<Slot>, n: nat, items: seq<Value>, capacity: nat, done: set<nat>,
                  seen: set<nat>, rest: Buffer)
    returns (seen': set<nat>)
    requires CanReturnAll(d, slots) && n < |slots| == |d.fields| && n !in done && d.fields[n].rule == Repeated(capacity)
             && slots[n] == Items(items)
    requires ItemsCanReturn(d.fields[n].kind, items)
    requires EncodeArray(d.fields[n], items, capacity).Some?
             && |EncodeArray(d.fields[n], items, capacity).value| < WORD32
    ensures seen <= seen' <= seen + {n}
    ensures DecodeMessage(d, Partly(d, slots, done), seen, EncodeArray(d.fields[n], items, capacity).value + rest) ==
            DecodeMessage(d, Partly(d, slots, done + {n}), seen', rest)
    decreases d, 0, |slots| - n, 0
  {
    ItemsOfArray(d, slots, n);
    TypedOf(d, slots);
    hide DecodeMessage;
    hide CanReturnAll;
    hide TypedSlots;
    hide Good;
    hide EncodeValue;
    var f := d.fields[n];
    PartlyNext(d, slots, n, done);
    if items == [] {
      assert NormalItems(f.kind, items) == [] && [] + rest == rest;
      assert Partly(d, slots, done + {n}) == Partly(d, slots, done);
      seen' := seen;
    } else if Packable(f.kind) {
      PackedIsNormal(f.kind, items);
      PackedFieldBack(d, Partly(d, slots, done), n, items, capacity, seen, rest);
      seen' := seen + {n};
    } else {
      assert [] + NormalItems(f.kind, items[..0]) == [];
      assert [] + NormalItems(f.kind, items) == NormalItems(f.kind, items);
      seen' := ItemsBack(d, Partly(d, slots, done), n, [], items, 0, seen, rest);
    }
  }

  lemma ItemsOfArray(d: Descriptor, slots: seq<Slot>, n: nat)
    requires CanReturnAll(d, slots) && n < |slots| && d.fields[n].rule.Repeated?
    ensures Good(d) && slots[n].Items? && ItemsCanReturn(d.fields[n].kind, slots[n].items)
    ensures NormalSlot(d.fields[n], slots[n]) == Items(NormalItems(d.fields[n].kind, slots[n].items))
  {
    hide Normal;
    hide Typed;
    hide Terminated;
    assert TypedSlot(d.fields[n], slots[n]) && SlotTerminated(d.fields[n], slots[n]);
  }

  /** An absent field writes nothing and comes back as its default. */
  lemma AbsentBack(d: Descriptor, slots: seq<Slot>, n: nat, done: set<nat>)
    requires TypedSlots(d, slots) && n < |slots| && n !in done && !d.fields[n].rule.Repeated?
             && forall v :: !Present(d.fields[n], slots[n], v)
    ensures EncodeField(d.fields[n], slots[n]) == Some([]) && !d.fields[n].rule.Required?
    ensures Partly(d, slots, done + {n}) == Partly(d, slots, done)
  {
    PartlyNext(d, slots, n, done);
    var f, slot := d.fields[n], slots[n];
    var v := match slot case Plain(v) => v case Flagged(_,
        v) => v case Items(_) => Number(0) case Member(c) => if c.Some? then c.value else Number(0);
    assert !Present(f, slot, v);
  }

  lemma PresentBytes(d: Descriptor, slots: seq<Slot>, n: nat, v: Value)
    requires CanReturnAll(d, slots) && n < |slots| && Present(d.fields[n], slots[n], v)
    requires EncodeField(d.fields[n], slots[n]).Some? && |EncodeField(d.fields[n], slots[n]).value| < WORD32
    ensures CanReturn(d.fields[n].kind, v)
            && EncodeField(d.fields[n], slots[n]) == Tagged(d.fields[n], EncodeValue(d.fields[n].kind, v))
  {
    hide EncodeValue;
    hide Typed;
    hide Terminated;
    hide GoodKind;
    assert TypedSlot(d.fields[n], slots[n]) && SlotTerminated(d.fields[n], slots[n]);
  }

  /** Decoding one encoded field adds it to those done, in whatever order they come. */
  lemma FieldBack(d: Descriptor, slots: seq<Slot>, n: nat, done: set<nat>, seen: set<nat>, rest: Buffer)
    returns (seen': set<nat>)
    requires CanReturnAll(d, slots) && n < |slots| && n !in done && SeenOf(d, seen, done)
    requires EncodeField(d.fields[n], slots[n]).Some? && |EncodeField(d.fields[n], slots[n]).value| < WORD32
    ensures SeenOf(d, seen', done + {n}) && seen' <= seen + {n}
    ensures DecodeMessage(d, Partly(d, slots, done), seen, EncodeField(d.fields[n], slots[n]).value + rest) ==
            DecodeMessage(d, Partly(d, slots, done + {n}), seen', rest)
    decreases d, 0, |slots| - n, 1
  {
    TypedOf(d, slots);
    hide DecodeMessage;
    hide CanReturnAll;
    hide TypedSlots;
    hide EncodeValue;
    hide Partly;
    if d.fields[n].rule.Repeated? {
      ItemsOfArray(d, slots, n);
      seen' := ArrayBack(d, slots, n, slots[n].items, d.fields[n].rule.capacity, done, seen, rest);
    } else if v :| Present(d.fields[n], slots[n], v) {
      PresentBytes(d, slots, n, v);
      if d.fields[n].rule.OneOf? { MemberBack(d, slots, n, v, done, seen, rest); } else {
        SingleBack(d, slots, n, v, done, seen, rest);
      }
      seen' := seen + {n};
    } else {
      AbsentBack(d, slots, n, done);
      assert [] + rest == rest;
      seen' := seen;
    }
  }

  /** The round trip: every well-formed message that encodes decodes to itself, absent fields at their defaults. */
  lemma MessageRoundTrip(d: Descriptor, slots: seq<Slot>)
    requires Good(d) && TypedSlots(d, slots) && AllTerminated(d, slots)
    requires Encode(d, slots).Some? && |Encode(d, slots).value| < WORD32
    ensures Decode(d, Encode(d, slots).value) == Some(NormalSlots(d, slots))
  {
    hide DecodeMessage;
    MessageBack(d, slots);
  }

  // ---------- what the normal form hides ----------

  /** A message of one implicit field. */
  function Only(f: Field): Descriptor { Descriptor([f]) }

  /** A submessage without a has_ flag comes back exactly when it does not look like a default or is one. */
  lemma ImplicitBackIff(f: Field, v: Value)
    requires f.rule.Implicit? && CanReturn(f.kind, v) && 0 < f.tag < MAX_TAG
    requires TypedSlots(Only(f), [Plain(v)]) && Encode(Only(f), [Plain(v)]).Some?
             && |Encode(Only(f), [Plain(v)]).value| < WORD32
    ensures Decode(Only(f), Encode(Only(f), [Plain(v)]).value) == Some([Plain(Normal(f.kind, v))]) <==>
            (LooksDefault(f.kind, v) ==> Normal(f.kind, v) == DefaultValue(f))
  {
    hide DecodeMessage;
    var d := Only(f);
    assert d.fields == [f];
    MessageRoundTrip(d, [Plain(v)]);
    var back := NormalSlots(d, [Plain(v)]);
    assert back[0] == NormalSlot(f, Plain(v));
    assert [Plain(Normal(f.kind, v))][0] == Plain(Normal(f.kind, v));
    assert Some(back) == Some([Plain(Normal(f.kind, v))]) <==> back[0] == Plain(Normal(f.kind, v)) by {
      if back[0] == Plain(Normal(f.kind, v)) { assert back == [Plain(Normal(f.kind, v))]; }
    }
  }

  const NUMBERS: Field := Field(1, SignedInt(4), Repeated(2), Number(0))
  const HOLDER: Field := Field(1, Message(Only(NUMBERS)), Implicit, Number(0))

  function Holding(items: seq<Value>): seq<Slot> { [Plain(Struct([Items(items)]))] }

  lemma HoldingIsTyped(items: seq<Value>)
    requires forall i :: 0 <= i < |items| ==> Typed(NUMBERS.kind, items[i])
    ensures Good(Only(HOLDER)) && TypedSlots(Only(HOLDER), Holding(items))
  {
    assert Good(Only(NUMBERS));
    assert TypedSlot(NUMBERS, Items(items));
    assert TypedSlots(Only(NUMBERS), [Items(items)]);
    assert TypedSlot(HOLDER, Holding(items)[0]);
  }

  lemma HoldingZeroFirst(items: seq<Value>)
    requires items != [] && items[0] == Number(0) && TypedSlots(Only(HOLDER), Holding(items))
    ensures Encode(Only(HOLDER), Holding(items)) == Some([])
  {
    assert SlotLooksDefault(NUMBERS, Items(items));
    assert LooksDefault(HOLDER.kind, Struct([Items(items)]));
    assert EncodeField(HOLDER, Holding(items)[0]) == Some([]);
    assert Only(HOLDER).fields[0] == HOLDER && |Only(HOLDER).fields| == |Holding(items)| == 1;
    assert EncodeFrom(Only(HOLDER), Holding(items), 1) == Some([]);
    var none: Buffer := [];
    assert EncodeFrom(Only(HOLDER), Holding(items), 0) == Join(Some(none), Some(none)) && none + none == none;
  }

  lemma NothingBack()
    ensures Decode(Only(HOLDER), []) == Some(Holding([]))
  {
    assert Defaults(Only(NUMBERS)) == [Items([])];
    assert Defaults(Only(HOLDER)) == Holding([]);
  }

  /** It can fail: an implicit submessage with the array [0, 5] writes nothing, since only the first item is
      looked at, and the array comes back empty. */
  lemma ArrayIsLost()
    ensures var slots := Holding([Number(0), Number(5)]);
            && Good(Only(HOLDER)) && TypedSlots(Only(HOLDER), slots) && Encode(Only(HOLDER), slots) == Some([])
            && Decode(Only(HOLDER), []) == Some(Holding([]))
  {
    hide Encode;
    hide Decode;
    hide Good;
    HoldingIsTyped([Number(0), Number(5)]);
    HoldingZeroFirst([Number(0), Number(5)]);
    NothingBack();
  }
}
