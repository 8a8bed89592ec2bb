/** nanopb messages: field descriptors, and message values shaped by them (pb.h, pb_common.c).

    A message struct is a list of slots, one for each field of its descriptor. */
module PbMessages {
  import opened Options
  import opened Coding

  /** PB_LTYPE with the sizes that go with it. */
  datatype Kind =
    | SignedInt(size: nat)
    | UnsignedInt(size: nat)
    | ZigZag(size: nat)
    | Fixed32
    | Fixed64
    | Bytes(capacity: nat)       // how many bytes the array holds
    | Text(capacity: nat)        // size of the character buffer
    | Message(fields: Descriptor)
    | FixedBytes(length: nat)

  /** PB_HTYPE; an implicit field is optional without a has_ flag, as in proto3. */
  datatype Rule = Required | Optional | Implicit | Repeated(capacity: nat) | OneOf(group: nat)

  datatype Field = Field(tag: nat, kind: Kind, rule: Rule, init: Value)

  datatype Descriptor = Descriptor(fields: seq<Field>)

  datatype Value = Number(n: int) | Blob(bytes: Buffer) | Struct(slots: seq<Slot>)

  datatype Slot = Plain(value: Value) | Flagged(has: bool,
      value: Value) | Items(items: seq<Value>) | Member(chosen: Option<Value>)

  const WT_VARINT: nat := 0
  const WT_64BIT: nat := 1
  const WT_STRING: nat := 2
  const WT_32BIT: nat := 5

  const MAX_TAG: nat := 0x2000_0000

  function WireType(kind: Kind): nat {
    match kind
    case SignedInt(_) => WT_VARINT
    case UnsignedInt(_) => WT_VARINT
    case ZigZag(_) => WT_VARINT
    case Fixed32 => WT_32BIT
    case Fixed64 => WT_64BIT
    case _ => WT_STRING
  }

  /** PB_LTYPE_LAST_PACKABLE. */
  predicate Packable(kind: Kind) {
    kind.SignedInt? || kind.UnsignedInt? || kind.ZigZag? || kind.Fixed32? || kind.Fixed64?
  }

  predicate IsSize(size: nat) { size == 1 || size == 2 || size == 4 || size == 8 }

  /** One more than the largest unsigned value of so many bytes. */
  function Range(size: nat): nat {
    if size == 1 then 0x100 else if size == 2 then 0x1_0000 else if size == 4 then WORD32 else WORD64
  }

  predicate FitsSigned(n: int, size: nat) { -(Range(size) / 2) <= n < Range(size) / 2 }

  predicate FitsUnsigned(n: int, size: nat) { 0 <= n < Range(size) }

  // ---------- values of the right type ----------

  predicate Typed(kind: Kind, v: Value)
    decreases kind, 0
  {
    match kind
    case SignedInt(size) => v.Number? && FitsSigned(v.n, size)
    case UnsignedInt(size) => v.Number? && FitsUnsigned(v.n, size)
    case ZigZag(size) => v.Number? && FitsSigned(v.n, size)
    case Fixed32 => v.Number? && FitsUnsigned(v.n, 4)
    case Fixed64 => v.Number? && FitsUnsigned(v.n, 8)
    case Bytes(_) => v.Blob?
    case Text(capacity) => v.Blob? && |v.bytes| <= capacity && 0 !in v.bytes
    case Message(d) => v.Struct? && TypedSlots(d, v.slots)
    case FixedBytes(length) => v.Blob? && |v.bytes| == length
  }

  predicate TypedSlots(d: Descriptor, slots: seq<Slot>)
    decreases d, 0
  {
    && |slots| == |d.fields|
    && (forall i :: 0 <= i < |slots| ==> TypedSlot(d.fields[i], slots[i]))
    && OneChosen(d, slots)
  }

  predicate TypedSlot(f: Field, slot: Slot)
    decreases f, 0
  {
    match f.rule
    case Required => slot.Plain? && Typed(f.kind, slot.value)
    case Implicit => slot.Plain? && Typed(f.kind, slot.value)
    case Optional => slot.Flagged? && Typed(f.kind, slot.value)
    case Repeated(_) => slot.Items? && forall i :: 0 <= i < |slot.items| ==> Typed(f.kind, slot.items[i])
    case OneOf(_) => slot.Member? && (slot.chosen.Some? ==> Typed(f.kind, slot.chosen.value))
  }

  /** A union holds one member at a time. */
  predicate OneChosen(d: Descriptor, slots: seq<Slot>)
    requires |slots| == |d.fields|
  {
    forall i, j :: 0 <= i < j < |slots| && d.fields[i].rule.OneOf? && d.fields[i].rule == d.fields[j].rule ==>
      slots[i] == Member(None) || slots[j] == Member(None)
  }

  // ---------- well-formed descriptors ----------

  ghost predicate GoodKind(kind: Kind)
    decreases kind, 0
  {
    match kind
    case SignedInt(size) => IsSize(size)
    case UnsignedInt(size) => IsSize(size)
    case ZigZag(size) => IsSize(size)
    case Message(d) => Good(d)
    case _ => true
  }

  ghost predicate Good(d: Descriptor)
    decreases d, 0
  {
    && (forall i :: 0 <= i < |d.fields| ==> GoodKind(d.fields[i].kind) && 0 < d.fields[i].tag < MAX_TAG)
    && (forall i, j :: 0 <= i < j < |d.fields| ==> d.fields[i].tag != d.fields[j].tag)
  }

  // ---------- defaults ----------

  function Default(f: Field): Slot
    decreases f, 1
  {
    match f.rule
    case Required => Plain(DefaultValue(f))
    case Implicit => Plain(DefaultValue(f))
    case Optional => Flagged(false, DefaultValue(f))
    case Repeated(_) => Items([])
    case OneOf(_) => Member(None)
  }

  function DefaultValue(f: Field): Value
    decreases f, 0
  {
    if f.kind.Message? then Struct(Defaults(f.kind.fields)) else f.init
  }

  /** pb_message_set_to_defaults. */
  function Defaults(d: Descriptor): (r: seq<Slot>)
    decreases d, 0
  {
    seq(|d.fields|, i requires 0 <= i < |d.fields| => Default(d.fields[i]))
  }

  // ---------- what a round trip gives back ----------

  /** pb_check_proto3_default_value: flags are not looked at, and only the first item of an array is. */
  predicate LooksDefault(kind: Kind, v: Value)
    decreases kind, 0
  {
    match kind
    case Message(d) =>
      && v.Struct? && |v.slots| == |d.fields|
      && forall i :: 0 <= i < |v.slots| ==> SlotLooksDefault(d.fields[i], v.slots[i])
    case FixedBytes(length) => length == 0
    case _ => v == Number(0) || v == Blob([])
  }

  predicate SlotLooksDefault(f: Field, slot: Slot)
    decreases f, 0
  {
    match slot
    case Plain(v) => LooksDefault(f.kind, v)
    case Flagged(_, v) => LooksDefault(f.kind, v)
    case Items(items) => items == [] || LooksDefault(f.kind, items[0])
    case Member(chosen) => chosen.None? || LooksDefault(f.kind, chosen.value)
  }

  /** The value with every absent field reset to its default. */
  function Normal(kind: Kind, v: Value): Value
    decreases kind, 0
  {
    if kind.Message? && v.Struct? then Struct(NormalSlots(kind.fields, v.slots)) else v
  }

  function NormalSlots(d: Descriptor, slots: seq<Slot>): seq<Slot>
    decreases d, 0
  {
    seq(|d.fields|, i requires 0 <= i < |d.fields| => if i < |slots| then NormalSlot(d.fields[i], slots[i])
        else Default(d.fields[i]))
  }

  function NormalSlot(f: Field, slot: Slot): Slot
    decreases f, 2
  {
    match slot
    case Plain(v) => if f.rule.Implicit? && LooksDefault(f.kind, v) then Default(f) else Plain(Normal(f.kind, v))
    case Flagged(has, v) => if has then Flagged(true, Normal(f.kind, v)) else Default(f)
    case Items(items) => Items(seq(|items|, i requires 0 <= i < |items| => Normal(f.kind, items[i])))
    case Member(chosen) => if chosen.Some? then Member(Some(Normal(f.kind, chosen.value))) else slot
  }
}
