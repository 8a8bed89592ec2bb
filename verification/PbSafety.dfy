/** What the decoder stores always fits: whatever the input, numbers are in the range of their fields, strings leave
    room for their terminator, arrays stay within their capacity, and a union holds one member at a time. */
module PbSafety {
  import opened Options
  import opened Coding
  import opened PbMessages
  import opened PbDecoding

  ghost predicate Fitting(kind: Kind, v: Value)
    decreases kind, 0
  {
    match kind
    case SignedInt(size) => v.Number? && FitsSigned(v.n, size)
    case UnsignedInt(size) => v.Number? && FitsUnsigned(v.n, size)
    case ZigZag(size) => v.Number? && FitsSigned(v.n, size)
    case Fixed32 => v.Number? && FitsUnsigned(v.n, 4)
    case Fixed64 => v.Number? && FitsUnsigned(v.n, 8)
    case Bytes(capacity) => v.Blob? && |v.bytes| <= capacity
    case Text(capacity) => v.Blob? && |v.bytes| < capacity
    case Message(d) => v.Struct? && AllFitting(d, v.slots)
    case FixedBytes(length) => v.Blob? && |v.bytes| == length
  }

  ghost predicate AllFitting(d: Descriptor, slots: seq<Slot>)
    decreases d, 0
  {
    && |slots| == |d.fields|
    && (forall i :: 0 <= i < |slots| ==> SlotFitting(d.fields[i], slots[i]))
    && OneChosen(d, slots)
  }

  ghost predicate SlotFitting(f: Field, slot: Slot)
    decreases f, 0
  {
    match f.rule
    case Required => slot.Plain? && Fitting(f.kind, slot.value)
    case Implicit => slot.Plain? && Fitting(f.kind, slot.value)
    case Optional => slot.Flagged? && Fitting(f.kind, slot.value)
    case Repeated(capacity) =>
      slot.Items? && |slot.items| <= capacity && forall i :: 0 <= i < |slot.items| ==> Fitting(f.kind, slot.items[i])
    case OneOf(_) => slot.Member? && (slot.chosen.Some? ==> Fitting(f.kind, slot.chosen.value))
  }

  /** The defaults of a message and of all messages inside it fit. */
  ghost predicate DefaultsFit(d: Descriptor)
    decreases d, 0
  {
    AllFitting(d, Defaults(d)) && forall i :: 0 <= i < |d.fields| ==> KindDefaultsFit(d.fields[i].kind)
  }

  ghost predicate KindDefaultsFit(kind: Kind)
    decreases kind, 0
  {
    kind.Message? ==> DefaultsFit(kind.fields)
  }

  // ---------- one value ----------

  lemma FixedFits(b: Buffer)
    ensures |b| == 4 ==> FixedValue(b) < WORD32
    ensures |b| == 8 ==> FixedValue(b) < WORD64
  {
    assert Power(256, 2) == 0x1_0000 && Power(256, 4) == WORD32 && Power(256, 8) == WORD64;
    FixedOfValue(|b|, b);
  }

  /** The value a submessage is added to. */
  ghost predicate BaseFits(kind: Kind, was: Value) {
    kind.Message? ==> AllFitting(kind.fields, SlotsOf(kind.fields, was))
  }

  lemma {:induction false} ValueFits(kind: Kind, was: Value, b: Buffer)
    requires KindDefaultsFit(kind) && BaseFits(kind, was) && DecodeValue(kind, was, b).Some?
    ensures Fitting(kind, DecodeValue(kind, was, b).value.0)
    decreases kind, 0, 0
  {
    hide StringAt;
    hide VarintAt;
    match kind
    case Fixed32 => FixedFits(b[..4]);
    case Fixed64 => FixedFits(b[..8]);
    case Message(d) => MessageFits(d, SlotsOf(d, was), {}, StringAt(b).value.0);
    case _ =>
  }

  lemma {:induction false} PackedFits(kind: Kind, items: seq<Value>, capacity: nat, b: Buffer)
    requires Packable(kind) && DecodePacked(kind, items, capacity, b).Some?
    requires |items| <= capacity && forall i :: 0 <= i < |items| ==> Fitting(kind, items[i])
    ensures var all := DecodePacked(kind, items, capacity, b).value;
            |all| <= capacity && forall i :: 0 <= i < |all| ==> Fitting(kind, all[i])
    decreases kind, 1, |b|
  {
    hide DecodeValue;
    hide Fitting;
    if b != [] {
      var (v, n) := DecodeValue(kind, Number(0), b).value;
      ValueFits(kind, Number(0), b);
      PackedFits(kind, items + [v], capacity, b[n..]);
    }
  }

  // ---------- one field ----------

  lemma FreshFits(kind: Kind)
    requires KindDefaultsFit(kind)
    ensures BaseFits(kind, Number(0))
  {
    hide AllFitting;
  }

  lemma PresentFits(f: Field, slot: Slot)
    requires SlotFitting(f, slot) && (f.rule.Required? || f.rule.Implicit? || f.rule.Optional?)
    ensures BaseFits(f.kind, ValueOf(slot, DefaultValue(f)))
  {
    assert Fitting(f.kind, slot.value);
    hide SlotFitting;
    if f.kind.Message? { FittingLength(f.kind.fields, slot.value.slots); }
  }

  lemma SetFits(d: Descriptor, slots: seq<Slot>, i: nat, slot: Slot)
    requires AllFitting(d, slots) && i < |slots| && SlotFitting(d.fields[i], slot) && !d.fields[i].rule.OneOf?
    ensures AllFitting(d, slots[i := slot])
  {
    hide SlotFitting;
    var set1 := slots[i := slot];
    forall j, k | 0 <= j < k < |set1| && d.fields[j].rule.OneOf? && d.fields[j].rule == d.fields[k].rule
      ensures set1[j] == Member(None) || set1[k] == Member(None)
    {
      assert set1[j] == slots[j] && set1[k] == slots[k];
    }
  }

  lemma ChooseFits(d: Descriptor, slots: seq<Slot>, i: nat, v: Value)
    requires AllFitting(d, slots) && i < |slots| && Fitting(d.fields[i].kind, v) && d.fields[i].rule.OneOf?
    ensures AllFitting(d, Choose(d, slots, i, v))
  {
    hide Fitting;
    var chosen := Choose(d, slots, i, v);
    forall j | 0 <= j < |chosen| ensures SlotFitting(d.fields[j], chosen[j]) {
      assert SlotFitting(d.fields[j], slots[j]);
    }
    forall j, k | 0 <= j < k < |chosen| && d.fields[j].rule.OneOf? && d.fields[j].rule == d.fields[k].rule
      ensures chosen[j] == Member(None) || chosen[k] == Member(None)
    {
      assert slots[j] == Member(None) || slots[k] == Member(None);
    }
  }

  lemma ItemsFit(f: Field, items: seq<Value>, v: Value, capacity: nat)
    requires f.rule == Repeated(capacity) && SlotFitting(f, Items(items)) && |items| < capacity && Fitting(f.kind, v)
    ensures SlotFitting(f, Items(items + [v]))
  {
    hide Fitting;
  }

  lemma FieldFits(d: Descriptor, slots: seq<Slot>, i: nat, wireType: nat, b: Buffer)
    requires DefaultsFit(d) && AllFitting(d, slots) && i < |d.fields|
    requires DecodeField(d, slots, i, wireType, b).Some?
    ensures AllFitting(d, DecodeField(d, slots, i, wireType, b).value.0)
    decreases d, 0, 0
  {
    var f := d.fields[i];
    assert SlotFitting(f, slots[i]) && KindDefaultsFit(f.kind);
    hide AllFitting;
    hide DefaultsFit;
    hide DecodeValue;
    hide DecodePacked;
    hide StringAt;
    hide Fitting;
    hide BaseFits;
    match f.rule
    case Repeated(capacity) =>
      var items := slots[i].items;
      if wireType == WT_STRING && Packable(f.kind) {
        PackedFits(f.kind, items, capacity, StringAt(b).value.0);
        SetFits(d, slots, i, Items(DecodePacked(f.kind, items, capacity, StringAt(b).value.0).value));
      } else {
        FreshFits(f.kind);
        ValueFits(f.kind, Number(0), b);
        ItemsFit(f, items, DecodeValue(f.kind, Number(0), b).value.0, capacity);
        SetFits(d, slots, i, Items(items + [DecodeValue(f.kind, Number(0), b).value.0]));
      }
    case OneOf(_) =>
      FreshFits(f.kind);
      ValueFits(f.kind, Number(0), b);
      ChooseFits(d, slots, i, DecodeValue(f.kind, Number(0), b).value.0);
    case _ =>
      var was := ValueOf(slots[i], DefaultValue(f));
      PresentFits(f, slots[i]);
      ValueFits(f.kind, was, b);
      var v := DecodeValue(f.kind, was, b).value.0;
      SetFits(d, slots, i, if f.rule.Optional? then Flagged(true, v) else Plain(v));
  }

  // ---------- all fields ----------

  lemma {:induction false} MessageFits(d: Descriptor, slots: seq<Slot>, seen: set<nat>, b: Buffer)
    requires DefaultsFit(d) && AllFitting(d, slots) && DecodeMessage(d, slots, seen, b).Some?
    ensures AllFitting(d, DecodeMessage(d, slots, seen, b).value)
    decreases d, 1, |b|
  {
    hide AllFitting;
    hide DefaultsFit;
    hide DecodeField;
    hide SkipAt;
    hide FindFrom;
    hide Varint32At;
    FittingLength(d, slots);
    if b != [] && Varint32At(b).Some? && Varint32At(b).value.0 != 0 {
      var (key, n) := Varint32At(b).value;
      match FindFrom(d, key / 8, 0)
      case None => MessageFits(d, slots, seen, b[n + SkipAt(key % 8, b[n..]).value..]);
      case Some(i) =>
        FieldFits(d, slots, i, key % 8, b[n..]);
        var (slots', k) := DecodeField(d, slots, i, key % 8, b[n..]).value;
        MessageFits(d, slots', seen + {i}, b[n + k..]);
    }
  }

  lemma FittingLength(d: Descriptor, slots: seq<Slot>)
    requires AllFitting(d, slots)
    ensures |slots| == |d.fields|
  {
  }

  /** Every message that is accepted fits its fields, whatever bytes it came from. */
  lemma DecodedFits(d: Descriptor, b: Buffer)
    requires DefaultsFit(d) && Decode(d, b).Some?
    ensures AllFitting(d, Decode(d, b).value)
  {
    hide DecodeMessage;
    MessageFits(d, Defaults(d), {}, b);
  }
}
