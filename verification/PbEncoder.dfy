/** The encoder as it runs: an output stream that either writes or only counts (pb_encode.c). */
module PbEncoder {
  import opened Options
  import opened Coding
  import opened PbMessages
  import opened PbEncoding

  /** The top bit of the last byte is taken off again. */
  function Unflagged(b: Buffer): Buffer
    requires b != [] && b[|b| - 1] >= 128
  {
    b[|b| - 1 := b[|b| - 1] - 128]
  }

  /** All groups of seven bits below `left` are in the buffer, flagged as if more followed. */
  ghost predicate InProgress(buffer: Buffer, left: nat, v: nat) {
    if left > 0 then buffer + Varint(left) == Varint(v)
    else buffer != [] && buffer[|buffer| - 1] >= 128 && Unflagged(buffer) == Varint(v)
  }

  lemma VarintStep(buffer: Buffer, left: nat, v: nat)
    requires left > 0 && InProgress(buffer, left, v)
    ensures InProgress(buffer + [left % 128 + 128], left / 128, v)
  {
    var next := buffer + [left % 128 + 128];
    if left < 128 {
      assert Unflagged(next) == buffer + Varint(left);
    } else {
      assert next + Varint(left / 128) == buffer + Varint(left);
    }
  }

  /** A step that should write `spec` did so, or failed because of an error or for lack of room. */
  ghost predicate Did(sizing: bool, max: nat, data: Buffer, count: nat, ok: bool, data': Buffer, count': nat,
                      spec: Option<Buffer>) {
    && ok == (spec.Some? && (sizing || count + |spec.value| <= max))
    && (ok ==> count' == count + |spec.value| && data' == data + if sizing then [] else spec.value)
  }

  lemma DidNothing(sizing: bool, max: nat, data: Buffer, count: nat)
    requires sizing || count <= max
    ensures Did(sizing, max, data, count, true, data, count, Some([]))
  {
    assert data + [] == data;
  }

  /** Two steps in a row; the second is not taken when the first failed. */
  lemma DidBoth(sizing: bool, max: nat, d0: Buffer, c0: nat, ok1: bool, d1: Buffer, c1: nat, ok2: bool, d2: Buffer,
                c2: nat,
                first: Option<Buffer>, second: Option<Buffer>)
    requires Did(sizing, max, d0, c0, ok1, d1, c1, first)
    requires if ok1 then Did(sizing, max, d1, c1, ok2, d2, c2, second) else !ok2
    ensures Did(sizing, max, d0, c0, ok2, d2, c2, Join(first, second))
  {
    if ok2 { assert d0 + (first.value + second.value) == d0 + first.value + second.value; }
  }

  ghost predicate Small(b: Option<Buffer>) { b.Some? ==> |b.value| < WORD64 }

  lemma JoinNothing(b: Option<Buffer>)
    ensures Join(Some([]), b) == b
  {
    if b.Some? { assert [] + b.value == b.value; }
  }

  lemma JoinMore(done: Buffer, a: Option<Buffer>, b: Option<Buffer>)
    ensures Join(Some(done), Join(a, b)) == if a.Some? then Join(Some(done + a.value), b) else None
  {
    if a.Some? && b.Some? { assert done + (a.value + b.value) == done + a.value + b.value; }
  }

  // Every size that is computed on the way fits a size_t.

  ghost predicate Addressable(kind: Kind, v: Value)
    requires Typed(kind, v)
    decreases kind, 0
  {
    Small(EncodeValue(kind, v)) && (kind.Message? ==> AddressableSlots(kind.fields, v.slots))
  }

  ghost predicate AddressableSlots(d: Descriptor, slots: seq<Slot>)
    requires TypedSlots(d, slots)
    decreases d, 0
  {
    Small(Encode(d, slots)) && forall i :: 0 <= i < |slots| ==> AddressableSlot(d.fields[i], slots[i])
  }

  ghost predicate AddressableSlot(f: Field, slot: Slot)
    requires TypedSlot(f, slot)
    decreases f, 0
  {
    match slot
    case Plain(v) => (f.rule.Implicit? && LooksDefault(f.kind, v)) || Addressable(f.kind, v)
    case Flagged(has, v) => has ==> Addressable(f.kind, v)
    case Items(items) => AddressableItems(f, items)
    case Member(chosen) => chosen.Some? ==> Addressable(f.kind, chosen.value)
  }

  ghost predicate AddressableItems(f: Field, items: seq<Value>)
    requires forall i :: 0 <= i < |items| ==> Typed(f.kind, items[i])
    decreases f, 0, 0
  {
    && (Packable(f.kind) ==> Small(PackedFrom(f, items, 0)))
    && forall i :: 0 <= i < |items| ==> Addressable(f.kind, items[i])
  }

  /** A message whose encoding fits a size_t needs nothing more. */
  lemma {:induction false} SmallIsAddressable(d: Descriptor, slots: seq<Slot>)
    requires TypedSlots(d, slots) && Encode(d, slots).Some? && Small(Encode(d, slots))
    ensures AddressableSlots(d, slots)
    decreases d, 1, 0
  {
    SmallFields(d, slots, 0);
  }

  lemma {:induction false} SmallFields(d: Descriptor, slots: seq<Slot>, n: nat)
    requires TypedSlots(d, slots) && n <= |slots| && EncodeFrom(d, slots, n).Some? && Small(EncodeFrom(d, slots, n))
    ensures forall i :: n <= i < |slots| ==> AddressableSlot(d.fields[i], slots[i])
    decreases d, 0, |slots| - n
  {
    if n < |slots| {
      SmallFields(d, slots, n + 1);
      SmallSlot(d.fields[n], slots[n]);
    }
  }

  lemma {:induction false} SmallSlot(f: Field, slot: Slot)
    requires TypedSlot(f, slot) && EncodeField(f, slot).Some? && Small(EncodeField(f, slot))
    ensures AddressableSlot(f, slot)
    decreases f, 1, 0
  {
    match slot
    case Plain(v) => if !(f.rule.Implicit? && LooksDefault(f.kind, v)) { SmallValue(f.kind, v); }
    case Flagged(has, v) => if has { SmallValue(f.kind, v); }
    case Items(items) => SmallArray(f, items, f.rule.capacity);
    case Member(chosen) => if chosen.Some? { SmallValue(f.kind, chosen.value); }
  }

  lemma {:induction false} SmallValue(kind: Kind, v: Value)
    requires Typed(kind, v) && EncodeValue(kind, v).Some? && Small(EncodeValue(kind, v))
    ensures Addressable(kind, v)
    decreases kind, 0, 0
  {
    if kind.Message? { SmallIsAddressable(kind.fields, v.slots); }
  }

  lemma SmallArray(f: Field, items: seq<Value>, capacity: nat)
    requires (forall i :: 0 <= i < |items| ==> Typed(f.kind, items[i])) && EncodeArray(f, items, capacity).Some?
             && Small(EncodeArray(f, items, capacity))
    ensures AddressableItems(f, items)
    decreases f, 0, 1
  {
    if items != [] {
      if Packable(f.kind) { SmallPacked(f, items, 0); } else { SmallItems(f, items, 0); }
    }
  }

  lemma {:induction false} SmallPacked(f: Field, items: seq<Value>, n: nat)
    requires (forall i :: 0 <= i < |items| ==> Typed(f.kind, items[i])) && n <= |items| && Packable(f.kind)
    requires PackedFrom(f, items, n).Some? && Small(PackedFrom(f, items, n))
    ensures forall i :: n <= i < |items| ==> Addressable(f.kind, items[i])
    decreases |items| - n
  {
    if n < |items| { SmallPacked(f, items, n + 1); }
  }

  lemma {:induction false} SmallItems(f: Field, items: seq<Value>, n: nat)
    requires (forall i :: 0 <= i < |items| ==> Typed(f.kind, items[i])) && n <= |items|
             && EncodeItems(f, items, n).Some? && Small(EncodeItems(f, items, n))
    ensures forall i :: n <= i < |items| ==> Addressable(f.kind, items[i])
    decreases f, 0, 0, |items| - n
  {
    if n < |items| {
      SmallValue(f.kind, items[n]);
      SmallItems(f, items, n + 1);
    }
  }

  class OutputStream {
    const sizing: bool         // no callback: only count
    const max: nat             // max_size
    var data: Buffer           // what the callback was given
    var count: nat             // bytes_written

    constructor (sizing: bool, max: nat, data: Buffer)
      ensures this.sizing == sizing && this.max == max && this.data == data && count == 0
    {
      this.sizing, this.max, this.data, this.count := sizing, max, data, 0;
    }

    predicate Room(n: nat)
      reads `count
    {
      sizing || count + n <= max
    }

    /** pb_write. */
    method Write(b: Buffer) returns (ok: bool)
      modifies this
      ensures ok == old(Room(|b|))
      ensures ok ==> count == old(count) + |b| && data == old(data) + if sizing then [] else b
    {
      if !sizing {
        if count + |b| > max {
          return false;
        }
        data := data + b;
      }
      count := count + |b|;
      return true;
    }

    /** pb_write without data, which only a counting stream is asked for. */
    method Advance(n: nat)
      requires sizing
      modifies this
      ensures count == old(count) + n && data == old(data)
    {
      count := count + n;
    }

    /** pb_encode_varint. */
    method WriteVarint(v: nat) returns (ok: bool)
      requires v < WORD64
      modifies this
      ensures ok == old(Room(|Varint(v)|))
      ensures ok ==> count == old(count) + |Varint(v)| && data == old(data) + if sizing then [] else Varint(v)
    {
      if v <= 0x7F {
        ok := Write([v]);
        return;
      }
      var buffer: Buffer, left: nat := [], v;
      assert buffer + Varint(left) == Varint(v);
      while left > 0
        invariant InProgress(buffer, left, v)
        modifies {}
      {
        VarintStep(buffer, left, v);
        buffer := buffer + [left % 128 + 128];
        left := left / 128;
      }
      ok := Write(Unflagged(buffer));
    }

    /** pb_encode_svarint: the sign goes to the lowest bit of the shifted word. */
    method WriteZigZag(n: int) returns (ok: bool)
      requires FitsSigned(n, 8)
      modifies this
      ensures ok == old(Room(|Varint(Zig(n))|))
      ensures ok ==> count == old(count) + |Varint(Zig(n))| && data == old(data) + if sizing then [] else Varint(Zig(n))
    {
      var shifted := AsWord(n) * 2 % WORD64;
      var zigzagged: nat := if n < 0 then WORD64 - 1 - shifted else shifted;
      assert zigzagged == Zig(n);
      ok := WriteVarint(zigzagged);
    }

    /** pb_encode_string. */
    method WriteString(b: Buffer) returns (ok: bool)
      requires |b| < WORD64
      modifies this
      ensures ok == old(Room(|LengthPrefixed(b)|))
      ensures ok ==>
              count == old(count) + |LengthPrefixed(b)| && data == old(data) + if sizing then [] else LengthPrefixed(b)
    {
      ok := WriteVarint(|b|);
      if ok { ok := Write(b); }
    }

    /** pb_encode_tag_for_field. */
    method WriteTag(tag: nat, wireType: nat) returns (ok: bool)
      requires tag < MAX_TAG && wireType < 8
      modifies this
      ensures Did(sizing, max, old(data), old(count), ok, data, count, Some(TagBytes(tag, wireType)))
    {
      ok := WriteVarint(tag * 8 + wireType);
    }

    method WriteFixed(width: nat, n: nat) returns (ok: bool)
      modifies this
      ensures Did(sizing, max, old(data), old(count), ok, data, count, Some(Fixed(width, n)))
    {
      ok := Write(Fixed(width, n));
    }

    /** The PB_ENCODERS table. */
    method EncodeValue(kind: Kind, v: Value) returns (ok: bool)
      requires GoodKind(kind) && Typed(kind, v) && Addressable(kind, v) && (sizing || count <= max)
      modifies this
      ensures Did(sizing, max, old(data), old(count), ok, data, count, PbEncoding.EncodeValue(kind, v))
      decreases kind, 0, 0
    {
      match kind
      case SignedInt(_) => ok := WriteVarint(AsWord(v.n));
      case UnsignedInt(_) => ok := WriteVarint(v.n);
      case ZigZag(_) => ok := WriteZigZag(v.n);
      case Fixed32 => ok := WriteFixed(4, v.n);
      case Fixed64 => ok := WriteFixed(8, v.n);
      case Bytes(capacity) =>
        if |v.bytes| > capacity {
          return false;
        }
        ok := WriteString(v.bytes);
      case Text(capacity) =>
        var size := 0;
        while size < capacity && size < |v.bytes| && v.bytes[size] != 0
          invariant size <= |v.bytes|
        {
          size := size + 1;
        }
        assert size == |v.bytes|;
        ok := WriteString(v.bytes[..size]);
      case Message(d) => ok := EncodeSubmessage(d, v.slots);
      case FixedBytes(_) => ok := WriteString(v.bytes);
    }

    /** pb_encode_submessage: a counting pass, the length, and a writing pass limited to that length.
        The last pass always writes exactly what was counted. */
    method EncodeSubmessage(d: Descriptor, slots: seq<Slot>) returns (ok: bool)
      requires Good(d) && TypedSlots(d, slots) && AddressableSlots(d, slots) && (sizing || count <= max)
      modifies this
      ensures Did(sizing, max, old(data), old(count), ok, data, count,
              PbEncoding.EncodeValue(Message(d), Struct(slots)))
      decreases d, 2, 0
    {
      var counter := new OutputStream(true, 0, []);
      ok := counter.EncodeFields(d, slots);
      if !ok {
        return false;
      }
      var size := counter.count;
      ok := WriteVarint(size);
      if !ok {
        return false;
      }
      if sizing {
        Advance(size);
        return true;
      }
      if count + size > max {
        return false;
      }
      var writer := new OutputStream(false, size, data);
      ok := writer.EncodeFields(d, slots);
      count := count + writer.count;
      data := writer.data;
      if writer.count != size {
        assert false;
        return false;
      }
    }

    /** pb_encode. */
    method EncodeFields(d: Descriptor, slots: seq<Slot>) returns (ok: bool)
      requires Good(d) && TypedSlots(d, slots) && AddressableSlots(d, slots) && (sizing || count <= max)
      modifies this
      ensures Did(sizing, max, old(data), old(count), ok, data, count, Encode(d, slots))
      decreases d, 1, 0
    {
      ok := true;
      DidNothing(sizing, max, data, count);
      ghost var done: Buffer := [];
      JoinNothing(Encode(d, slots));
      for i := 0 to |slots|
        invariant Did(sizing, max, old(data), old(count), true, data, count, Some(done))
        invariant Encode(d, slots) == Join(Some(done), EncodeFrom(d, slots, i))
      {
        JoinMore(done, PbEncoding.EncodeField(d.fields[i], slots[i]), EncodeFrom(d, slots, i + 1));
        ok := EncodeField(d.fields[i], slots[i]);
        if !ok {
          return false;
        }
        done := done + PbEncoding.EncodeField(d.fields[i], slots[i]).value;
      }
    }

    /** encode_basic_field. */
    method EncodeField(f: Field, slot: Slot) returns (ok: bool)
      requires GoodKind(f.kind) && f.tag < MAX_TAG && TypedSlot(f, slot) && AddressableSlot(f, slot)
               && (sizing || count <= max)
      modifies this
      ensures Did(sizing, max, old(data), old(count), ok, data, count, PbEncoding.EncodeField(f, slot))
      decreases f, 2, 0
    {
      DidNothing(sizing, max, data, count);
      match f.rule
      case Required => ok := EncodeTagged(f, slot.value);
      case Optional => ok := true; if slot.has { ok := EncodeTagged(f, slot.value); }
      case Implicit => ok := true; if !LooksDefault(f.kind, slot.value) { ok := EncodeTagged(f, slot.value); }
      case Repeated(capacity) => ok := EncodeArray(f, slot.items, capacity);
      case OneOf(_) => ok := true; if slot.chosen.Some? { ok := EncodeTagged(f, slot.chosen.value); }
    }

    method EncodeTagged(f: Field, v: Value) returns (ok: bool)
      requires GoodKind(f.kind) && f.tag < MAX_TAG && Typed(f.kind, v) && Addressable(f.kind, v)
               && (sizing || count <= max)
      modifies this
      ensures Did(sizing, max, old(data), old(count), ok, data, count, Tagged(f, PbEncoding.EncodeValue(f.kind, v)))
      decreases f, 0, 0
    {
      var started := WriteTag(f.tag, WireType(f.kind));
      ok := started;
      ghost var data1, count1 := data, count;
      if started {
        ok := EncodeValue(f.kind, v);
      }
      DidBoth(sizing, max, old(data), old(count), started, data1, count1, ok, data, count,
              Some(TagBytes(f.tag, WireType(f.kind))), PbEncoding.EncodeValue(f.kind, v));
    }

    /** encode_array. */
    method EncodeArray(f: Field, items: seq<Value>, capacity: nat) returns (ok: bool)
      requires GoodKind(f.kind) && f.tag < MAX_TAG && (forall i :: 0 <= i < |items| ==> Typed(f.kind, items[i]))
      requires AddressableItems(f, items) && (sizing || count <= max)
      modifies this
      ensures Did(sizing, max, old(data), old(count), ok, data, count, PbEncoding.EncodeArray(f, items, capacity))
      decreases f, 1, 1, 0
    {
      DidNothing(sizing, max, data, count);
      if |items| == 0 {
        return true;
      }
      if |items| > capacity {
        return false;
      }
      if Packable(f.kind) {
        ok := EncodePacked(f, items);
      } else {
        ok := EncodeItems(f, items);
      }
    }

    method EncodeItems(f: Field, items: seq<Value>) returns (ok: bool)
      requires GoodKind(f.kind) && f.tag < MAX_TAG && (forall i :: 0 <= i < |items| ==> Typed(f.kind, items[i]))
      requires AddressableItems(f, items) && (sizing || count <= max)
      modifies this
      ensures Did(sizing, max, old(data), old(count), ok, data, count, PbEncoding.EncodeItems(f, items, 0))
      decreases f, 1, 0
    {
      hide Addressable;
      hide LengthPrefixed;
      hide EncodeFrom;
      hide Range;
      hide Good;
      hide FitsSigned;
      hide FitsUnsigned;
      hide TypedSlots;
      ok := true;
      DidNothing(sizing, max, data, count);
      ghost var done: Buffer := [];
      JoinNothing(PbEncoding.EncodeItems(f, items, 0));
      for i := 0 to |items|
        invariant Did(sizing, max, old(data), old(count), true, data, count, Some(done))
        invariant PbEncoding.EncodeItems(f, items, 0) == Join(Some(done), PbEncoding.EncodeItems(f, items, i))
      {
        JoinMore(done, Tagged(f, PbEncoding.EncodeValue(f.kind, items[i])), PbEncoding.EncodeItems(f, items, i + 1));
        ok := EncodeTagged(f, items[i]);
        if !ok {
          return false;
        }
        done := done + Tagged(f, PbEncoding.EncodeValue(f.kind, items[i])).value;
      }
    }

    /** The items of a packed array, one after the other. */
    method EncodeValues(f: Field, items: seq<Value>) returns (ok: bool)
      requires GoodKind(f.kind) && (forall i :: 0 <= i < |items| ==> Typed(f.kind, items[i]))
      requires AddressableItems(f, items) && (sizing || count <= max)
      modifies this
      ensures Did(sizing, max, old(data), old(count), ok, data, count, PackedFrom(f, items, 0))
      decreases f, 0, 0
    {
      hide LengthPrefixed;
      hide EncodeFrom;
      hide Range;
      ok := true;
      DidNothing(sizing, max, data, count);
      ghost var done: Buffer := [];
      JoinNothing(PackedFrom(f, items, 0));
      for i := 0 to |items|
        invariant Did(sizing, max, old(data), old(count), true, data, count, Some(done))
        invariant PackedFrom(f, items, 0) == Join(Some(done), PackedFrom(f, items, i))
      {
        JoinMore(done, PbEncoding.EncodeValue(f.kind, items[i]), PackedFrom(f, items, i + 1));
        ok := EncodeValue(f.kind, items[i]);
        if !ok {
          return false;
        }
        done := done + PbEncoding.EncodeValue(f.kind, items[i]).value;
      }
    }

    /** The size of a packed array: a product for fixed-width items, otherwise counted. */
    method PackedSize(f: Field, items: seq<Value>) returns (size: Option<nat>)
      requires GoodKind(f.kind) && Packable(f.kind) && (forall i :: 0 <= i < |items| ==> Typed(f.kind, items[i]))
               && AddressableItems(f, items)
      ensures size == if PackedFrom(f, items, 0).Some? then Some(|PackedFrom(f, items, 0).value|) else None
      decreases f, 0, 1
    {
      if f.kind.Fixed32? {
        FixedSize(f, items, 0, 4);
        return Some(4 * |items|);
      }
      if f.kind.Fixed64? {
        FixedSize(f, items, 0, 8);
        return Some(8 * |items|);
      }
      var counter := new OutputStream(true, 0, []);
      var ok := counter.EncodeValues(f, items);
      size := if ok then Some(counter.count) else None;
    }

    static lemma {:induction false} FixedSize(f: Field, items: seq<Value>, n: nat, width: nat)
      requires (f.kind.Fixed32? && width == 4) || (f.kind.Fixed64? && width == 8)
      requires n <= |items| && forall i :: 0 <= i < |items| ==> Typed(f.kind, items[i])
      ensures PackedFrom(f, items, n).Some? && |PackedFrom(f, items, n).value| == width * (|items| - n)
      decreases |items| - n
    {
      if n < |items| { FixedSize(f, items, n + 1, width); }
    }

    method EncodePacked(f: Field, items: seq<Value>) returns (ok: bool)
      requires GoodKind(f.kind) && Packable(f.kind) && f.tag < MAX_TAG && items != []
      requires (forall i :: 0 <= i < |items| ==> Typed(f.kind, items[i])) && AddressableItems(f, items)
               && (sizing || count <= max)
      modifies this
      ensures Did(sizing, max, old(data), old(count), ok, data, count, PbEncoding.EncodeArray(f, items, |items|))
      decreases f, 1, 0, 1
    {
      hide PackedFrom;
      hide PbEncoding.EncodeValue;
      hide Varint;
      hide Typed;
      var started := WriteTag(f.tag, WT_STRING);
      ok := started;
      ghost var data1, count1, all := data, count, PackedFrom(f, items, 0);
      if started {
        ok := EncodeBody(f, items);
      }
      DidBoth(sizing, max, old(data), old(count), started, data1, count1, ok, data, count,
              Some(TagBytes(f.tag, WT_STRING)), if all.Some? then Some(LengthPrefixed(all.value)) else None);
    }

    method EncodeBody(f: Field, items: seq<Value>) returns (ok: bool)
      requires GoodKind(f.kind) && Packable(f.kind) && (forall i :: 0 <= i < |items| ==> Typed(f.kind, items[i]))
      requires AddressableItems(f, items) && (sizing || count <= max)
      modifies this
      ensures var all := PackedFrom(f, items, 0);
              Did(sizing, max, old(data), old(count), ok, data, count,
                  if all.Some? then Some(LengthPrefixed(all.value)) else None)
      decreases f, 1, 0, 0
    {
      hide PbEncoding.EncodeValue;
      hide Varint;
      hide Typed;
      var size := PackedSize(f, items);
      if size.None? {
        return false;
      }
      ok := WriteVarint(size.value);
      if !ok {
        return false;
      }
      if sizing {
        Advance(size.value);
        return true;
      }
      ok := EncodeValues(f, items);
      assert ok ==> data == old(data) + (Varint(size.value) + PackedFrom(f, items, 0).value);
    }
  }
}
