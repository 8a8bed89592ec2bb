/** What the nanopb encoder writes (pb_encode.c). */
module PbEncoding {
  import opened Options
  import opened Coding
  import opened PbMessages

  /** Two's complement. */
  function AsWord(n: int): (w: nat)
    requires FitsSigned(n, 8)
  {
    if n < 0 then n + WORD64 else n
  }

  /** The zigzag code of a signed number (Protocol Buffers encoding, "Signed Integers"). */
  function Zig(n: int): nat { if n < 0 then -2 * n - 1 else 2 * n }

  function UnZig(w: nat): int { if w % 2 == 1 then -(w / 2) - 1 else w / 2 }

  function TagBytes(tag: nat, wireType: nat): Buffer { Varint(tag * 8 + wireType) }

  /** None where the encoder reports an error. */
  function EncodeValue(kind: Kind, v: Value): Option<Buffer>
    requires Typed(kind, v)
    decreases kind, 0, 0
  {
    match kind
    case SignedInt(size) => if IsSize(size) then Some(Varint(AsWord(v.n))) else None
    case UnsignedInt(size) => if IsSize(size) then Some(Varint(v.n)) else None
    case ZigZag(size) => if IsSize(size) then Some(Varint(Zig(v.n))) else None
    case Fixed32 => Some(Fixed(4, v.n))
    case Fixed64 => Some(Fixed(8, v.n))
    case Bytes(capacity) => if |v.bytes| > capacity then None else Some(LengthPrefixed(v.bytes))
    case Text(_) => Some(LengthPrefixed(v.bytes))
    case Message(d) => var b := EncodeFrom(d, v.slots, 0); if b.Some? then Some(LengthPrefixed(b.value)) else None
    case FixedBytes(_) => Some(LengthPrefixed(v.bytes))
  }

  function Join(a: Option<Buffer>, b: Option<Buffer>): Option<Buffer> {
    if a.Some? && b.Some? then Some(a.value + b.value) else None
  }

  /** The fields from number `n` on, in order. */
  function EncodeFrom(d: Descriptor, slots: seq<Slot>, n: nat): Option<Buffer>
    requires TypedSlots(d, slots) && n <= |slots|
    decreases d, 1, |slots| - n
  {
    if n == |slots| then Some([]) else Join(EncodeField(d.fields[n], slots[n]), EncodeFrom(d, slots, n + 1))
  }

  function Tagged(f: Field, b: Option<Buffer>): Option<Buffer> {
    Join(Some(TagBytes(f.tag, WireType(f.kind))), b)
  }

  function EncodeField(f: Field, slot: Slot): Option<Buffer>
    requires TypedSlot(f, slot)
    decreases f, 2, 0
  {
    match f.rule
    case Required => Tagged(f, EncodeValue(f.kind, slot.value))
    case Optional => if slot.has then Tagged(f, EncodeValue(f.kind, slot.value)) else Some([])
    case Implicit => if LooksDefault(f.kind, slot.value) then Some([]) else Tagged(f, EncodeValue(f.kind, slot.value))
    case Repeated(capacity) => EncodeArray(f, slot.items, capacity)
    case OneOf(_) => if slot.chosen.Some? then Tagged(f, EncodeValue(f.kind, slot.chosen.value)) else Some([])
  }

  function EncodeArray(f: Field, items: seq<Value>, capacity: nat): Option<Buffer>
    requires forall i :: 0 <= i < |items| ==> Typed(f.kind, items[i])
    decreases f, 1, 1
  {
    if items == [] then Some([])
    else if |items| > capacity then None
    else if Packable(f.kind) then
      var b := PackedFrom(f, items, 0);
      if b.Some? then Some(TagBytes(f.tag, WT_STRING) + LengthPrefixed(b.value)) else None
    else EncodeItems(f, items, 0)
  }

  function PackedFrom(f: Field, items: seq<Value>, n: nat): Option<Buffer>
    requires (forall i :: 0 <= i < |items| ==> Typed(f.kind, items[i])) && n <= |items|
    decreases f, 1, 0, |items| - n
  {
    if n == |items| then Some([]) else Join(EncodeValue(f.kind, items[n]), PackedFrom(f, items, n + 1))
  }

  function EncodeItems(f: Field, items: seq<Value>, n: nat): Option<Buffer>
    requires (forall i :: 0 <= i < |items| ==> Typed(f.kind, items[i])) && n <= |items|
    decreases f, 1, 0, |items| - n
  {
    if n == |items| then Some([]) else Join(Tagged(f, EncodeValue(f.kind, items[n])), EncodeItems(f, items, n + 1))
  }

  /** pb_encode. */
  function Encode(d: Descriptor, slots: seq<Slot>): Option<Buffer>
    requires TypedSlots(d, slots)
  {
    EncodeFrom(d, slots, 0)
  }
}
