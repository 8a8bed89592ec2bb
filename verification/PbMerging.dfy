/** Decoding into a message that already holds something (pb_decode_noinit): what is received is merged into it.
    Numbers and strings are replaced, arrays appended to, submessages merged in turn, and a received union member
    takes the place of the one that was chosen. */
module PbMerging {
  import opened Options
  import opened Coding
  import opened PbMessages
  import opened PbEncoding
  import opened PbDecoding
  import opened PbRequired
  import opened PbRoundTrip
  import opened PbSafety

  // ---------- what merging gives ----------

  ghost function MergedValue(kind: Kind, was: Value, v: Value): Value
    decreases kind, 0
  {
    if kind.Message? && v.Struct? && |v.slots| == |kind.fields.fields|
    then Struct(Merged(kind.fields, SlotsOf(kind.fields, was), v.slots, |v.slots|)) else v
  }

  /** Another member of the union is among the first `n` fields received. */
  ghost predicate Replaced(d: Descriptor, slots: seq<Slot>, n: nat, i: nat)
    requires n <= |slots| == |d.fields| && i < |slots|
  {
    && d.fields[i].rule.OneOf?
    && exists j :: 0 <= j < n && j != i && d.fields[j].rule == d.fields[i].rule && slots[j] != Member(None)
  }

  /** The message `was` when the first `n` fields of `slots` have been received. */
  ghost function Merged(d: Descriptor, was: seq<Slot>, slots: seq<Slot>, n: nat): (r: seq<Slot>)
    requires n <= |slots| == |was| == |d.fields|
    ensures |r| == |slots|
    decreases d, 0
  {
    seq(|slots|, i requires 0 <= i < |slots| =>
      if Replaced(d, slots, n, i) then Member(None)
      else if i < n then MergedSlot(d.fields[i], was[i], slots[i])
      else was[i])
  }

  ghost function MergedSlot(f: Field, was: Slot, slot: Slot): Slot
    decreases f, 0
  {
    match slot
    case Plain(v) =>
      if f.rule.Implicit? && LooksDefault(f.kind, v) then was
      else Plain(MergedValue(f.kind, ValueOf(was, DefaultValue(f)), v))
    case Flagged(has, v) => if has then Flagged(true, MergedValue(f.kind, ValueOf(was, DefaultValue(f)), v)) else was
    case Items(items) => Items(ItemsOf(was) + NormalItems(f.kind, items))
    case Member(chosen) => if chosen.Some? then Member(Some(Normal(f.kind, chosen.value))) else was
  }

  /** All arrays, also those of submessages, have room for what is received. */
  ghost predicate RoomFor(kind: Kind, was: Value, v: Value)
    decreases kind, 0
  {
    kind.Message? && v.Struct? && |v.slots| == |kind.fields.fields| ==>
      Room(kind.fields, SlotsOf(kind.fields, was), v.slots)
  }

  ghost predicate Room(d: Descriptor, was: seq<Slot>, slots: seq<Slot>)
    requires |slots| == |was| == |d.fields|
    decreases d, 0
  {
    forall i :: 0 <= i < |slots| ==> SlotRoom(d.fields[i], was[i], slots[i])
  }

  ghost predicate SlotRoom(f: Field, was: Slot, slot: Slot)
    decreases f, 0
  {
    match slot
    case Plain(v) => (f.rule.Implicit? && LooksDefault(f.kind, v)) || RoomFor(f.kind, ValueOf(was, DefaultValue(f)), v)
    case Flagged(has, v) => has ==> RoomFor(f.kind, ValueOf(was, DefaultValue(f)), v)
    case Items(items) => f.rule.Repeated? ==> |ItemsOf(was)| + |items| <= f.rule.capacity
    case Member(_) => true
  }

  // ---------- one field ----------

  lemma {:induction false} ValueMerges(kind: Kind, was: Value, v: Value, rest: Buffer)
    requires CanReturn(kind, v) && BaseFits(kind, was)
    ensures DecodeValue(kind, was, EncodeValue(kind, v).value + rest) ==
            if RoomFor(kind, was, v) then Some((MergedValue(kind, was, v), |EncodeValue(kind, v).value|)) else None
    decreases kind, 0, 0
  {
    if kind.Message? {
      var d := kind.fields;
      var b := EncodeFrom(d, v.slots, 0).value;
      StringBack(b, rest);
      MergesInto(d, SlotsOf(d, was), v.slots, {});
    } else {
      ValueBack(kind, was, v, rest);
    }
  }

  lemma {:induction false} MergedNext(d: Descriptor, was: seq<Slot>, slots: seq<Slot>, n: nat)
    requires n < |slots| == |was| == |d.fields| && !d.fields[n].rule.OneOf?
    ensures Merged(d, was, slots, n + 1) ==
            Merged(d, was, slots, n)[n := MergedSlot(d.fields[n], was[n], slots[n])]
    ensures Merged(d, was, slots, n)[n] == was[n]
  {
    hide MergedSlot;
    forall i | 0 <= i < |slots| ensures Replaced(d, slots, n, i) == Replaced(d, slots, n + 1, i) {
    }
  }

  /** A field with one value, which is sent. */
  lemma SingleMerges(d: Descriptor, was: seq<Slot>, slots: seq<Slot>, n: nat, v: Value, seen: set<nat>, rest: Buffer)
    requires CanReturnAll(d, slots) && AllFitting(d, was) && n < |slots| == |was| && CanReturn(d.fields[n].kind, v)
    requires Present(d.fields[n], slots[n], v) && !d.fields[n].rule.OneOf?
    ensures var b := Tagged(d.fields[n], EncodeValue(d.fields[n].kind, v)).value;
            DecodeMessage(d, Merged(d, was, slots, n), seen, b + rest) ==
            if SlotRoom(d.fields[n], was[n], slots[n])
            then DecodeMessage(d, Merged(d, was, slots, n + 1), seen + {n}, rest) else None
    decreases d, 0, |slots| - n, 0
  {
    GoodOf(d, slots);
    var f := d.fields[n];
    assert SlotFitting(f, was[n]);
    PresentFits(f, was[n]);
    hide DecodeMessage;
    hide DecodeValue;
    hide CanReturnAll;
    hide AllFitting;
    hide EncodeValue;
    hide BaseFits;
    hide Merged;
    hide MergedValue;
    hide RoomFor;
    var b := EncodeValue(f.kind, v).value;
    assert TagBytes(f.tag, WireType(f.kind)) + b + rest == TagBytes(f.tag, WireType(f.kind)) + (b + rest);
    KeyBack(d, Merged(d, was, slots, n), seen, n, WireType(f.kind), b + rest);
    MergedNext(d, was, slots, n);
    ValueMerges(f.kind, ValueOf(was[n], DefaultValue(f)), v, rest);
    assert (b + rest)[|b|..] == rest;
  }

  /** Of a union only the one member that is received stays. */
  lemma {:induction false} ChosenNext(d: Descriptor, was: seq<Slot>, slots: seq<Slot>, n: nat, v: Value)
    requires TypedSlots(d, slots) && n < |slots| == |was| == |d.fields| && d.fields[n].rule.OneOf?
    requires slots[n] == Member(Some(v))
    ensures Choose(d, Merged(d, was, slots, n), n, Normal(d.fields[n].kind, v)) == Merged(d, was, slots, n + 1)
  {
    hide Normal;
    hide TypedSlots;
    OneMember(d, slots, n);
    var now, next := Merged(d, was, slots, n), Merged(d, was, slots, n + 1);
    var chosen := Choose(d, now, n, Normal(d.fields[n].kind, v));
    assert MergedSlot(d.fields[n], was[n], slots[n]) == Member(Some(Normal(d.fields[n].kind, v)));
    hide MergedSlot;
    forall j | 0 <= j < |slots| ensures chosen[j] == next[j] {
      if j == n {
      } else if d.fields[j].rule == d.fields[n].rule {
        assert Replaced(d, slots, n + 1, j);
      } else {
        assert Replaced(d, slots, n, j) == Replaced(d, slots, n + 1, j);
      }
    }
  }

  lemma OneMember(d: Descriptor, slots: seq<Slot>, n: nat)
    requires TypedSlots(d, slots) && n < |slots| && slots[n] != Member(None)
    ensures !Replaced(d, slots, |slots|, n)
  {
    hide TypedSlot;
    if d.fields[n].rule.OneOf? {
      forall j | 0 <= j < |slots| && j != n && d.fields[j].rule == d.fields[n].rule ensures slots[j] == Member(None) {
        var low, high := if j < n then j else n, if j < n then n else j;
        assert slots[low] == Member(None) || slots[high] == Member(None);
      }
    }
  }

  lemma MemberMerges(d: Descriptor, was: seq<Slot>, slots: seq<Slot>, n: nat, v: Value, seen: set<nat>, rest: Buffer)
    requires CanReturnAll(d, slots) && AllFitting(d, was) && n < |slots| == |was| && CanReturn(d.fields[n].kind, v)
    requires d.fields[n].rule.OneOf? && slots[n] == Member(Some(v))
    ensures var b := Tagged(d.fields[n], EncodeValue(d.fields[n].kind, v)).value;
            DecodeMessage(d, Merged(d, was, slots, n), seen, b + rest) ==
            DecodeMessage(d, Merged(d, was, slots, n + 1), seen + {n}, rest)
  {
    GoodOf(d, slots);
    TypedOf(d, slots);
    hide DecodeMessage;
    hide DecodeValue;
    hide CanReturnAll;
    hide TypedSlots;
    hide AllFitting;
    hide EncodeValue;
    FittingLength(d, was);
    hide Choose;
    hide Merged;
    var f := d.fields[n];
    var b := EncodeValue(f.kind, v).value;
    assert TagBytes(f.tag, WireType(f.kind)) + b + rest == TagBytes(f.tag, WireType(f.kind)) + (b + rest);
    KeyBack(d, Merged(d, was, slots, n), seen, n, WireType(f.kind), b + rest);
    ChosenNext(d, was, slots, n, v);
    ValueBack(f.kind, Number(0), v, rest);
    assert (b + rest)[|b|..] == rest;
  }

  lemma ArrayMerges(d: Descriptor, was: seq<Slot>, slots: seq<Slot>, n: nat, items: seq<Value>, seen: set<nat>,
                    rest: Buffer)
    returns (seen': set<nat>)
    requires CanReturnAll(d, slots) && AllFitting(d, was) && n < |slots| == |was| && slots[n] == Items(items)
    requires d.fields[n].rule.Repeated? && ItemsCanReturn(d.fields[n].kind, items)
    requires EncodeField(d.fields[n], slots[n]).Some? && |EncodeField(d.fields[n], slots[n]).value| < WORD32
    ensures seen <= seen'
    ensures DecodeMessage(d, Merged(d, was, slots, n), seen, EncodeField(d.fields[n], slots[n]).value + rest) ==
            if SlotRoom(d.fields[n], was[n], slots[n])
            then DecodeMessage(d, Merged(d, was, slots, n + 1), seen', rest) else None
  {
    GoodOf(d, slots);
    var f := d.fields[n];
    assert SlotFitting(f, was[n]);
    var before, now := was[n].items, Merged(d, was, slots, n);
    hide DecodeMessage;
    hide CanReturnAll;
    hide AllFitting;
    hide Good;
    hide Normal;
    hide EncodeValue;
    hide PackedFrom;
    hide Merged;
    MergedNext(d, was, slots, n);
    if items == [] {
      assert before + NormalItems(f.kind, items) == before && [] + rest == rest;
      assert now[n := was[n]] == now;
      seen' := seen;
    } else if Packable(f.kind) {
      PackedIsNormal(f.kind, items);
      PackedListBack(d, now, n, before, items, seen, rest);
      seen' := seen + {n};
    } else {
      assert before + NormalItems(f.kind, items[..0]) == before;
      seen' := ItemsBack(d, now, n, before, items, 0, seen, rest);
    }
  }

  /** Nothing is sent: nothing changes. */
  lemma NothingMerges(d: Descriptor, was: seq<Slot>, slots: seq<Slot>, n: nat)
    requires TypedSlots(d, slots) && n < |slots| == |was| && !d.fields[n].rule.Repeated?
    requires forall v :: !Present(d.fields[n], slots[n], v)
    ensures EncodeField(d.fields[n], slots[n]) == Some([]) && !d.fields[n].rule.Required?
    ensures SlotRoom(d.fields[n], was[n], slots[n])
    ensures Merged(d, was, slots, n + 1) == Merged(d, was, slots, n)
  {
    AbsentBack(d, slots, n, {});
    assert TypedSlot(d.fields[n], slots[n]);
    hide EncodeField;
    hide TypedSlots;
    SlotUnsent(d.fields[n], was[n], slots[n]);
    MergedSame(d, was, slots, n);
  }

  lemma SlotUnsent(f: Field, was: Slot, slot: Slot)
    requires TypedSlot(f, slot) && !f.rule.Repeated? && forall v :: !Present(f, slot, v)
    ensures SlotRoom(f, was, slot) && MergedSlot(f, was, slot) == was && !slot.Items?
    ensures slot.Member? ==> slot == Member(None)
  {
    hide Typed;
    hide RoomFor;
    hide MergedValue;
    match slot
    case Plain(v) => assert !Present(f, slot, v);
    case Flagged(_, v) => assert !Present(f, slot, v);
    case Member(chosen) => assert chosen.None? || !Present(f, slot, chosen.value);
  }

  lemma {:induction false} MergedSame(d: Descriptor, was: seq<Slot>, slots: seq<Slot>, n: nat)
    requires n < |slots| == |was| == |d.fields| && MergedSlot(d.fields[n], was[n], slots[n]) == was[n]
    requires d.fields[n].rule.OneOf? ==> slots[n] == Member(None)
    ensures Merged(d, was, slots, n + 1) == Merged(d, was, slots, n)
  {
    hide MergedValue;
    hide LooksDefault;
    forall i | 0 <= i < |slots| ensures Replaced(d, slots, n, i) == Replaced(d, slots, n + 1, i) {
    }
  }

  lemma FieldMerges(d: Descriptor, was: seq<Slot>, slots: seq<Slot>, n: nat, seen: set<nat>, rest: Buffer)
    returns (seen': set<nat>)
    requires CanReturnAll(d, slots) && AllFitting(d, was) && n < |slots| == |was|
    requires EncodeField(d.fields[n], slots[n]).Some? && |EncodeField(d.fields[n], slots[n]).value| < WORD32
    ensures seen <= seen' && (d.fields[n].rule.Required? ==> n in seen')
    ensures DecodeMessage(d, Merged(d, was, slots, n), seen, EncodeField(d.fields[n], slots[n]).value + rest) ==
            if SlotRoom(d.fields[n], was[n], slots[n])
            then DecodeMessage(d, Merged(d, was, slots, n + 1), seen', rest) else None
    decreases d, 0, |slots| - n, 1
  {
    TypedOf(d, slots);
    hide DecodeMessage;
    hide CanReturnAll;
    hide TypedSlots;
    hide AllFitting;
    hide EncodeValue;
    hide Merged;
    hide SlotRoom;
    if d.fields[n].rule.Repeated? {
      ItemsOfArray(d, slots, n);
      seen' := ArrayMerges(d, was, slots, n, slots[n].items, seen, rest);
    } else if v :| Present(d.fields[n], slots[n], v) {
      PresentBytes(d, slots, n, v);
      seen' := seen + {n};
      if d.fields[n].rule.OneOf? {
        MemberMerges(d, was, slots, n, v, seen, rest);
        MembersHaveRoom(d.fields[n], was[n], slots[n]);
      } else {
        SingleMerges(d, was, slots, n, v, seen, rest);
      }
    } else {
      NothingMerges(d, was, slots, n);
      assert [] + rest == rest;
      seen' := seen;
    }
  }

  lemma MembersHaveRoom(f: Field, was: Slot, slot: Slot)
    requires slot.Member?
    ensures SlotRoom(f, was, slot)
  {
  }

  // ---------- all fields ----------

  ghost predicate RoomFrom(d: Descriptor, was: seq<Slot>, slots: seq<Slot>, n: nat)
    requires n <= |slots| == |was| == |d.fields|
  {
    forall i :: n <= i < |slots| ==> SlotRoom(d.fields[i], was[i], slots[i])
  }

  lemma {:induction false} RoomNext(d: Descriptor, was: seq<Slot>, slots: seq<Slot>, n: nat)
    requires n < |slots| == |was| == |d.fields|
    ensures RoomFrom(d, was, slots, n) <==>
            SlotRoom(d.fields[n], was[n], slots[n]) && RoomFrom(d, was, slots, n + 1)
  {
    hide SlotRoom;
  }

  lemma {:induction false} StepMerges(d: Descriptor, was: seq<Slot>, slots: seq<Slot>, n: nat, seen: set<nat>,
                                      more: Buffer, rest: Buffer)
    returns (seen': set<nat>)
    requires CanReturnAll(d, slots) && AllFitting(d, was) && n < |slots| == |was| && SeenOf(d, seen, All(n))
    requires EncodeField(d.fields[n], slots[n]).Some? && |EncodeField(d.fields[n], slots[n]).value| < WORD32
    ensures SeenOf(d, seen', All(n + 1))
    ensures DecodeMessage(d, Merged(d, was, slots, n), seen, EncodeField(d.fields[n], slots[n]).value + more + rest) ==
            if SlotRoom(d.fields[n], was[n], slots[n])
            then DecodeMessage(d, Merged(d, was, slots, n + 1), seen', more + rest) else None
    decreases d, 0, |slots| - n, 2
  {
    TypedOf(d, slots);
    hide DecodeMessage;
    hide CanReturnAll;
    hide AllFitting;
    hide EncodeField;
    hide Merged;
    hide SlotRoom;
    Associates(EncodeField(d.fields[n], slots[n]).value, more, rest);
    hide TypedSlots;
    seen' := FieldMerges(d, was, slots, n, seen, more + rest);
  }

  lemma {:induction false} FieldsMerge(d: Descriptor, was: seq<Slot>, slots: seq<Slot>, n: nat, seen: set<nat>,
                                       rest: Buffer)
    returns (seen': set<nat>)
    requires CanReturnAll(d, slots) && AllFitting(d, was) && n <= |slots| == |was|
    requires SeenOf(d, seen, All(n))
    requires EncodeFrom(d, slots, n).Some? && |EncodeFrom(d, slots, n).value| < WORD32
    ensures AllSeen(d, seen')
    ensures DecodeMessage(d, Merged(d, was, slots, n), seen, EncodeFrom(d, slots, n).value + rest) ==
            if RoomFrom(d, was, slots, n) then DecodeMessage(d, Merged(d, was, slots, |slots|), seen', rest) else None
    decreases d, 1, |slots| - n, 0
  {
    hide DecodeMessage;
    hide AllFitting;
    hide Merged;
    hide SlotRoom;
    hide TypedSlot;
    if n == |slots| {
      NothingToMerge(d, was, slots, seen, rest);
      hide AllSeen;
      hide SeenOf;
      hide RoomFrom;
      seen' := seen;
    } else {
      FieldFirst(d, slots, n);
      RoomNext(d, was, slots, n);
      hide EncodeFrom;
      hide EncodeField;
      hide RoomFrom;
      hide SeenOf;
      hide AllSeen;
      var b, more := EncodeField(d.fields[n], slots[n]).value, EncodeFrom(d, slots, n + 1).value;
      hide CanReturnAll;
      var seen1 := StepMerges(d, was, slots, n, seen, more, rest);
      seen' := FieldsMerge(d, was, slots, n + 1, seen1, rest);
    }
  }

  lemma {:induction false} NothingToMerge(d: Descriptor, was: seq<Slot>, slots: seq<Slot>, seen: set<nat>, rest: Buffer)
    requires TypedSlots(d, slots) && |slots| == |was| && SeenOf(d, seen, All(|slots|))
    ensures AllSeen(d, seen) && RoomFrom(d, was, slots, |slots|) && EncodeFrom(d, slots, |slots|).value + rest == rest
  {
    hide SlotRoom;
    assert [] + rest == rest;
  }

  /** What is received is merged into what is there, and refused exactly if some array has no room for it. */
  lemma MergesInto(d: Descriptor, was: seq<Slot>, slots: seq<Slot>, seen: set<nat>)
    requires CanReturnAll(d, slots) && AllFitting(d, was) && |slots| == |was|
    requires Encode(d, slots).Some? && |Encode(d, slots).value| < WORD32
    ensures DecodeMessage(d, was, seen, Encode(d, slots).value) ==
            if Room(d, was, slots) then Some(Merged(d, was, slots, |slots|)) else None
    decreases d, 2
  {
    TypedOf(d, slots);
    hide CanReturnAll;
    hide TypedSlots;
    hide AllFitting;
    hide EncodeFrom;
    hide SlotRoom;
    assert Merged(d, was, slots, 0) == was;
    hide Merged;
    var b := Encode(d, slots).value;
    assert b + [] == b;
    var seen' := FieldsMerge(d, was, slots, 0, seen, []);
  }
  /** Merging into the defaults is what a plain decode does. */
  lemma MergesIntoDefaults(d: Descriptor, slots: seq<Slot>)
    requires CanReturnAll(d, slots) && AllFitting(d, Defaults(d))
    requires Encode(d, slots).Some? && |Encode(d, slots).value| < WORD32
    ensures |slots| == |d.fields| && Room(d, Defaults(d), slots)
    ensures Merged(d, Defaults(d), slots, |slots|) == NormalSlots(d, slots)
  {
    TypedOf(d, slots);
    hide DecodeMessage;
    hide AllFitting;
    hide Encode;
    hide Room;
    hide Merged;
    hide NormalSlots;
    MessageRoundTrip(d, slots);
    MergesInto(d, Defaults(d), slots, {});
  }

  /** What follows an encoded message is decoded into what it gave. */
  lemma ThenDecodes(d: Descriptor, slots: seq<Slot>, rest: Buffer) returns (seen: set<nat>)
    requires CanReturnAll(d, slots) && AllFitting(d, Defaults(d))
    requires Encode(d, slots).Some? && |Encode(d, slots).value| < WORD32
    ensures AllSeen(d, seen)
    ensures Decode(d, Encode(d, slots).value + rest) == DecodeMessage(d, NormalSlots(d, slots), seen, rest)
  {
    MergesIntoDefaults(d, slots);
    assert Merged(d, Defaults(d), slots, 0) == Defaults(d);
    hide DecodeMessage;
    hide CanReturnAll;
    hide AllFitting;
    hide SlotRoom;
    hide Merged;
    hide NormalSlots;
    hide EncodeFrom;
    seen := FieldsMerge(d, Defaults(d), slots, 0, {}, rest);
  }

  /** Two encoded messages, one after the other, decode to the second merged into the first. */
  lemma TwoMessagesMerge(d: Descriptor, a: seq<Slot>, b: seq<Slot>)
    requires CanReturnAll(d, a) && CanReturnAll(d, b) && DefaultsFit(d)
    requires Encode(d, a).Some? && |Encode(d, a).value| < WORD32
    requires Encode(d, b).Some? && |Encode(d, b).value| < WORD32
    ensures |b| == |d.fields|
    ensures Decode(d, Encode(d, a).value + Encode(d, b).value) ==
            if Room(d, NormalSlots(d, a), b) then Some(Merged(d, NormalSlots(d, a), b, |b|)) else None
  {
    TypedOf(d, b);
    MessageRoundTrip(d, a);
    DecodedFits(d, Encode(d, a).value);
    hide DecodeMessage;
    hide CanReturnAll;
    hide AllFitting;
    hide DefaultsFit;
    hide Room;
    hide Merged;
    hide NormalSlots;
    hide Encode;
    FitFromDefaults(d);
    var seen := ThenDecodes(d, a, Encode(d, b).value);
    MergesInto(d, NormalSlots(d, a), b, seen);
  }

  lemma FitFromDefaults(d: Descriptor)
    requires DefaultsFit(d)
    ensures AllFitting(d, Defaults(d))
  {
    hide AllFitting;
  }

  /** A zero byte after a message ends it, whatever follows. */
  lemma ZeroEndsMessage(d: Descriptor, slots: seq<Slot>, junk: Buffer)
    requires CanReturnAll(d, slots) && AllFitting(d, Defaults(d))
    requires Encode(d, slots).Some? && |Encode(d, slots).value| < WORD32
    ensures Decode(d, Encode(d, slots).value + ([0] + junk)) == Some(NormalSlots(d, slots))
  {
    hide CanReturnAll;
    hide AllFitting;
    hide Encode;
    hide NormalSlots;
    var seen := ThenDecodes(d, slots, [0] + junk);
    Varint32Back(0, junk);
    assert Varint(0) == [0];
    hide DecodeField;
  }

  /** Of a field with one value the wire type in its key is not looked at. */
  lemma WireTypeIsIgnored(d: Descriptor, slots: seq<Slot>, seen: set<nat>, n: nat, w: nat, x: nat, body: Buffer)
    requires Good(d) && n < |d.fields| == |slots| && w < 8 && x < 8 && !d.fields[n].rule.Repeated?
    ensures DecodeMessage(d, slots, seen, TagBytes(d.fields[n].tag, w) + body) ==
            DecodeMessage(d, slots, seen, TagBytes(d.fields[n].tag, x) + body)
  {
    hide DecodeMessage;
    hide DecodeValue;
    hide Good;
    KeyBack(d, slots, seen, n, w, body);
    KeyBack(d, slots, seen, n, x, body);
  }
}
