/** Decoding with an older schema: a receiver that knows only some of the fields of a message reads those, and skips
    the others whatever they hold. */
module PbEvolution {
  import opened Options
  import opened Coding
  import opened PbMessages
  import opened PbEncoding
  import opened PbDecoding
  import opened PbRequired
  import opened PbRoundTrip

  // ---------- skipping ----------

  lemma {:induction false} VarintSkipped(v: nat, rest: Buffer)
    ensures SkipVarint(Varint(v) + rest) == Some(|Varint(v)|)
  {
    if v >= 128 {
      VarintSkipped(v / 128, rest);
      assert (Varint(v) + rest)[1..] == Varint(v / 128) + rest;
    }
  }

  /** A value of any kind is skipped by its wire type alone: all of its bytes, and no more. */
  lemma ValueSkipped(kind: Kind, v: Value, rest: Buffer)
    requires Typed(kind, v) && EncodeValue(kind, v).Some? && |EncodeValue(kind, v).value| < WORD32
    ensures SkipAt(WireType(kind), EncodeValue(kind, v).value + rest) == Some(|EncodeValue(kind, v).value|)
  {
    hide StringAt;
    hide TypedSlots;
    match kind
    case SignedInt(_) => VarintSkipped(AsWord(v.n), rest);
    case UnsignedInt(_) => VarintSkipped(v.n, rest);
    case ZigZag(_) => VarintSkipped(Zig(v.n), rest);
    case Fixed32 =>
    case Fixed64 =>
    case Message(d) => StringBack(EncodeFrom(d, v.slots, 0).value, rest);
    case _ => StringBack(v.bytes, rest);
  }

  /** A key that no field has: what follows it is skipped. */
  lemma KeySkipped(d: Descriptor, slots: seq<Slot>, seen: set<nat>, tag: nat, wireType: nat, body: Buffer, k: nat)
    requires |slots| == |d.fields| && 0 < tag < MAX_TAG && wireType < 8 && FindFrom(d, tag, 0).None?
    requires SkipAt(wireType, body) == Some(k)
    ensures DecodeMessage(d, slots, seen, TagBytes(tag, wireType) + body) == DecodeMessage(d, slots, seen, body[k..])
  {
    hide DecodeField;
    hide Finish;
    hide SkipAt;
    hide FindFrom;
    hide Varint32At;
    var key := tag * 8 + wireType;
    var b := TagBytes(tag, wireType) + body;
    Varint32Back(key, body);
    assert b[|Varint(key)|..] == body;
    assert b[|Varint(key)| + k..] == body[k..];
  }

  lemma TaggedSkipped(d: Descriptor, slots: seq<Slot>, seen: set<nat>, f: Field, v: Value, rest: Buffer)
    requires |slots| == |d.fields| && 0 < f.tag < MAX_TAG && FindFrom(d, f.tag, 0).None?
    requires Typed(f.kind, v) && EncodeValue(f.kind, v).Some? && |EncodeValue(f.kind, v).value| < WORD32
    ensures DecodeMessage(d, slots, seen, Tagged(f, EncodeValue(f.kind, v)).value + rest) ==
            DecodeMessage(d, slots, seen, rest)
  {
    hide DecodeMessage;
    hide EncodeValue;
    hide Typed;
    hide SkipAt;
    var b, key := EncodeValue(f.kind, v).value, TagBytes(f.tag, WireType(f.kind));
    assert key + b + rest == key + (b + rest);
    ValueSkipped(f.kind, v, rest);
    KeySkipped(d, slots, seen, f.tag, WireType(f.kind), b + rest, |b|);
    assert (b + rest)[|b|..] == rest;
  }

  lemma {:induction false} ItemsSkipped(d: Descriptor, slots: seq<Slot>, seen: set<nat>, f: Field, items: seq<Value>,
                                        n: nat, rest: Buffer)
    requires |slots| == |d.fields| && 0 < f.tag < MAX_TAG && FindFrom(d, f.tag, 0).None?
    requires n <= |items| && forall i :: 0 <= i < |items| ==> Typed(f.kind, items[i])
    requires EncodeItems(f, items, n).Some? && |EncodeItems(f, items, n).value| < WORD32
    ensures DecodeMessage(d, slots, seen, EncodeItems(f, items, n).value + rest) == DecodeMessage(d, slots, seen, rest)
    decreases |items| - n
  {
    hide DecodeMessage;
    hide EncodeValue;
    hide Typed;
    if n == |items| {
      assert [] + rest == rest;
    } else {
      var b, more := Tagged(f, EncodeValue(f.kind, items[n])).value, EncodeItems(f, items, n + 1).value;
      assert b + more + rest == b + (more + rest);
      TaggedSkipped(d, slots, seen, f, items[n], more + rest);
      ItemsSkipped(d, slots, seen, f, items, n + 1, rest);
    }
  }

  /** A field that the receiver does not know leaves no trace, whatever its kind, rule and value. */
  lemma FieldSkipped(d: Descriptor, slots: seq<Slot>, seen: set<nat>, f: Field, slot: Slot, rest: Buffer)
    requires |slots| == |d.fields| && 0 < f.tag < MAX_TAG && FindFrom(d, f.tag, 0).None?
    requires TypedSlot(f, slot) && EncodeField(f, slot).Some? && |EncodeField(f, slot).value| < WORD32
    ensures DecodeMessage(d, slots, seen, EncodeField(f, slot).value + rest) == DecodeMessage(d, slots, seen, rest)
  {
    hide DecodeMessage;
    hide EncodeValue;
    hide Typed;
    hide SkipAt;
    hide LooksDefault;
    if EncodeField(f, slot).value == [] {
      assert [] + rest == rest;
    } else if f.rule.Repeated? {
      ArraySkipped(d, slots, seen, f, slot.items, f.rule.capacity, rest);
    } else {
      var v := match slot
        case Plain(v) => v
        case Flagged(_, v) => v
        case Member(c) => c.value
        case Items(_) => Number(0);
      TaggedSkipped(d, slots, seen, f, v, rest);
    }
  }

  lemma ArraySkipped(d: Descriptor, slots: seq<Slot>, seen: set<nat>, f: Field, items: seq<Value>, capacity: nat,
                     rest: Buffer)
    requires |slots| == |d.fields| && 0 < f.tag < MAX_TAG && FindFrom(d, f.tag, 0).None?
    requires items != [] && forall i :: 0 <= i < |items| ==> Typed(f.kind, items[i])
    requires EncodeArray(f, items, capacity).Some? && |EncodeArray(f, items, capacity).value| < WORD32
    ensures DecodeMessage(d, slots, seen, EncodeArray(f, items, capacity).value + rest) ==
            DecodeMessage(d, slots, seen, rest)
  {
    hide DecodeMessage;
    hide EncodeValue;
    hide Typed;
    hide StringAt;
    if Packable(f.kind) {
      var b, key := PackedFrom(f, items, 0).value, TagBytes(f.tag, WT_STRING);
      assert key + LengthPrefixed(b) + rest == key + (LengthPrefixed(b) + rest);
      StringBack(b, rest);
      KeySkipped(d, slots, seen, f.tag, WT_STRING, LengthPrefixed(b) + rest, |LengthPrefixed(b)|);
      assert (LengthPrefixed(b) + rest)[|LengthPrefixed(b)|..] == rest;
    } else {
      ItemsSkipped(d, slots, seen, f, items, 0, rest);
    }
  }

  // ---------- other schemas ----------

  /** Two schemas that give a tag the same meaning, if both have it. */
  ghost predicate Compatible(d: Descriptor, all: Descriptor) {
    forall f, g :: f in d.fields && g in all.fields && f.tag == g.tag ==> f == g
  }

  predicate Shared(d: Descriptor, all: Descriptor, i: nat)
    requires i < |d.fields|
  {
    FindFrom(all, d.fields[i].tag, 0).Some?
  }

  /** Where the shared field numbered `i` of `d` is in `all`. */
  function Place(d: Descriptor, all: Descriptor, i: nat): (j: nat)
    requires i < |d.fields| && Shared(d, all, i)
    ensures j < |all.fields| && all.fields[j].tag == d.fields[i].tag
  {
    FindFrom(all, d.fields[i].tag, 0).value
  }

  /** The message as far as the receiver knows it: the shared fields, and defaults for those it alone has. */
  function Received(d: Descriptor, all: Descriptor, slots: seq<Slot>): seq<Slot>
    requires |slots| == |all.fields|
  {
    seq(|d.fields|, i requires 0 <= i < |d.fields| =>
      if Shared(d, all, i) then NormalSlot(d.fields[i], slots[Place(d, all, i)]) else Default(d.fields[i]))
  }

  /** The same before absent fields are reset. */
  function Sent(d: Descriptor, all: Descriptor, slots: seq<Slot>): seq<Slot>
    requires |slots| == |all.fields|
  {
    seq(|d.fields|, i requires 0 <= i < |d.fields| =>
      if Shared(d, all, i) then slots[Place(d, all, i)] else Default(d.fields[i]))
  }

  /** The defaults of the fields that the receiver alone has are of their types. */
  ghost predicate NewFieldsOk(d: Descriptor, all: Descriptor) {
    forall i :: 0 <= i < |d.fields| && !Shared(d, all, i) ==>
      TypedSlot(d.fields[i], Default(d.fields[i])) && SlotTerminated(d.fields[i], Default(d.fields[i]))
  }

  /** The sender has every required field of the receiver. */
  ghost predicate Sufficient(d: Descriptor, all: Descriptor) {
    forall i :: 0 <= i < |d.fields| && d.fields[i].rule.Required? ==> Shared(d, all, i)
  }

  ghost predicate Readable(d: Descriptor, all: Descriptor, slots: seq<Slot>) {
    CanReturnAll(all, slots) && Good(d) && Compatible(d, all) && NewFieldsOk(d, all)
  }

  lemma PlaceIs(d: Descriptor, all: Descriptor, i: nat)
    requires Compatible(d, all) && i < |d.fields| && Shared(d, all, i)
    ensures all.fields[Place(d, all, i)] == d.fields[i]
  {
    assert all.fields[Place(d, all, i)] in all.fields && d.fields[i] in d.fields;
  }

  lemma PlacesDiffer(d: Descriptor, all: Descriptor, i: nat, j: nat)
    requires Good(d) && i < |d.fields| && j < |d.fields| && i != j && Shared(d, all, i) && Shared(d, all, j)
    ensures Place(d, all, i) != Place(d, all, j)
  {
    assert d.fields[if i < j then i else j].tag != d.fields[if i < j then j else i].tag;
  }

  lemma SentIsTyped(d: Descriptor, all: Descriptor, slots: seq<Slot>)
    requires Good(d) && Compatible(d, all) && NewFieldsOk(d, all) && TypedSlots(all, slots)
    ensures TypedSlots(d, Sent(d, all, slots))
  {
    hide Compatible;
    hide Good;
    hide Place;
    var sent := Sent(d, all, slots);
    forall i | 0 <= i < |sent| ensures TypedSlot(d.fields[i], sent[i]) {
      if Shared(d, all, i) { PlaceIs(d, all, i); }
    }
    hide TypedSlot;
    forall i, j | 0 <= i < j < |sent| && d.fields[i].rule.OneOf? && d.fields[i].rule == d.fields[j].rule
      ensures sent[i] == Member(None) || sent[j] == Member(None)
    {
      if Shared(d, all, i) && Shared(d, all, j) {
        PlaceIs(d, all, i);
        PlaceIs(d, all, j);
        PlacesDiffer(d, all, i, j);
        var k, l := Place(d, all, i), Place(d, all, j);
        assert slots[if k < l then k else l] == Member(None) || slots[if k < l then l else k] == Member(None);
      }
    }
  }

  lemma SentCanReturn(d: Descriptor, all: Descriptor, slots: seq<Slot>)
    requires Readable(d, all, slots)
    ensures CanReturnAll(d, Sent(d, all, slots))
  {
    SentIsTyped(d, all, slots);
    hide TypedSlots;
    hide Good;
    hide Compatible;
    hide SlotTerminated;
    hide Place;
    forall i | 0 <= i < |d.fields| ensures SlotTerminated(d.fields[i], Sent(d, all, slots)[i]) {
      if Shared(d, all, i) { PlaceIs(d, all, i); }
    }
  }

  /** The fields of `d` among the first `n` of `all`. */
  ghost function DoneBefore(d: Descriptor, all: Descriptor, n: nat): (done: set<nat>)
    ensures forall i: nat :: i in done <==> i < |d.fields| && Shared(d, all, i) && Place(d, all, i) < n
  {
    set i | i in All(|d.fields|) && i < |d.fields| && Shared(d, all, i) && Place(d, all, i) < n
  }

  /** The field after the first `n` is one the receiver knows. */
  lemma KnownNext(d: Descriptor, all: Descriptor, n: nat, i: nat)
    requires Good(all) && Good(d) && Compatible(d, all) && n < |all.fields|
    requires FindFrom(d, all.fields[n].tag, 0) == Some(i)
    ensures i < |d.fields| && Shared(d, all, i) && Place(d, all, i) == n && d.fields[i] == all.fields[n]
    ensures DoneBefore(d, all, n + 1) == DoneBefore(d, all, n) + {i} && i !in DoneBefore(d, all, n)
  {
    TagIsFound(all, n);
    PlaceIs(d, all, i);
    forall j | j in DoneBefore(d, all, n + 1) ensures j in DoneBefore(d, all, n) + {i} {
      if j != i { PlacesDiffer(d, all, i, j); }
    }
  }

  lemma UnknownNext(d: Descriptor, all: Descriptor, n: nat)
    requires n < |all.fields| && FindFrom(d, all.fields[n].tag, 0).None?
    ensures DoneBefore(d, all, n + 1) == DoneBefore(d, all, n)
  {
  }

  /** What is done has been seen, and nothing else. */
  ghost predicate SeenJust(d: Descriptor, seen: set<nat>, done: set<nat>) { SeenOf(d, seen, done) && seen <= done }

  /** One field of the sender: decoded if the receiver has it, and skipped if not. */
  lemma SharedStep(d: Descriptor, all: Descriptor, slots: seq<Slot>, n: nat, seen: set<nat>, rest: Buffer)
    returns (seen': set<nat>)
    requires Readable(d, all, slots) && n < |slots| == |all.fields|
    requires SeenJust(d, seen, DoneBefore(d, all, n)) && TypedSlot(all.fields[n], slots[n])
    requires EncodeField(all.fields[n], slots[n]).Some? && |EncodeField(all.fields[n], slots[n]).value| < WORD32
    ensures SeenJust(d, seen', DoneBefore(d, all, n + 1))
    ensures var sent, b := Sent(d, all, slots), EncodeField(all.fields[n], slots[n]).value;
            DecodeMessage(d, Partly(d, sent, DoneBefore(d, all, n)), seen, b + rest) ==
            DecodeMessage(d, Partly(d, sent, DoneBefore(d, all, n + 1)), seen', rest)
  {
    SentCanReturn(d, all, slots);
    GoodOf(all, slots);
    hide DecodeMessage;
    hide CanReturnAll;
    hide Compatible;
    hide NewFieldsOk;
    hide Good;
    hide EncodeField;
    hide TypedSlot;
    hide DoneBefore;
    hide Place;
    hide Partly;
    hide SeenOf;
    var sent, done := Sent(d, all, slots), DoneBefore(d, all, n);
    match FindFrom(d, all.fields[n].tag, 0)
    case Some(i) =>
      KnownNext(d, all, n, i);
      seen' := FieldBack(d, sent, i, done, seen, rest);
    case None =>
      UnknownNext(d, all, n);
      TagFits(all, n);
      FieldSkipped(d, Partly(d, sent, done), seen, all.fields[n], slots[n], rest);
      seen' := seen;
  }

  /** At the end of the input: the message, unless a required field was not sent. */
  lemma AtTheEnd(d: Descriptor, all: Descriptor, slots: seq<Slot>, seen: set<nat>)
    requires |slots| == |all.fields| && SeenJust(d, seen, DoneBefore(d, all, |slots|))
    ensures DecodeMessage(d, Partly(d, Sent(d, all, slots), DoneBefore(d, all, |slots|)), seen, []) ==
            if Sufficient(d, all) then Some(Received(d, all, slots)) else None
  {
    assert Partly(d, Sent(d, all, slots), DoneBefore(d, all, |slots|)) == Received(d, all, slots);
  }

  /** The receiver works through the fields of the sender. */
  lemma {:induction false} FieldByField(d: Descriptor, all: Descriptor, slots: seq<Slot>, n: nat, seen: set<nat>)
    requires Readable(d, all, slots) && n <= |slots|
    requires SeenJust(d, seen, DoneBefore(d, all, n))
    requires EncodeFrom(all, slots, n).Some? && |EncodeFrom(all, slots, n).value| < WORD32
    ensures DecodeMessage(d, Partly(d, Sent(d, all, slots), DoneBefore(d, all, n)), seen,
                          EncodeFrom(all, slots, n).value) ==
            if Sufficient(d, all) then Some(Received(d, all, slots)) else None
    decreases |slots| - n
  {
    hide DecodeMessage;
    hide Good;
    hide TypedSlots;
    hide EncodeField;
    hide TypedSlot;
    hide DoneBefore;
    hide Place;
    hide Partly;
    hide Received;
    hide Sent;
    hide SeenJust;
    hide Sufficient;
    hide AllTerminated;
    hide Compatible;
    OneByOne(all, slots);
    hide Readable;
    hide CanReturnAll;
    if n == |slots| {
      AtTheEnd(d, all, slots, seen);
    } else {
      var rest := EncodeFrom(all, slots, n + 1).value;
      var seen' := SharedStep(d, all, slots, n, seen, rest);
      FieldByField(d, all, slots, n + 1, seen');
    }
  }

  lemma OneByOne(d: Descriptor, slots: seq<Slot>)
    requires CanReturnAll(d, slots)
    ensures Good(d) && |slots| == |d.fields| && TypedSlots(d, slots)
    ensures forall i :: 0 <= i < |slots| ==> TypedSlot(d.fields[i], slots[i])
  {
    hide TypedSlot;
    hide Good;
  }

  /** Sender and receiver may have different schemas, as long as they mean the same by the tags they share.  The
      receiver refuses the message exactly if one of its required fields is not the sender's; else it gets every
      shared field, and nothing that was sent besides gets in the way. */
  lemma OtherSchemaReads(d: Descriptor, all: Descriptor, slots: seq<Slot>)
    requires Good(all) && TypedSlots(all, slots) && AllTerminated(all, slots)
    requires Good(d) && Compatible(d, all) && NewFieldsOk(d, all)
    requires Encode(all, slots).Some? && |Encode(all, slots).value| < WORD32
    ensures Decode(d, Encode(all, slots).value) ==
            if Sufficient(d, all) then Some(Received(d, all, slots)) else None
  {
    OneByOne(all, slots);
    hide DecodeMessage;
    hide Good;
    hide Compatible;
    hide NewFieldsOk;
    hide TypedSlots;
    hide AllTerminated;
    hide Sufficient;
    hide Received;
    assert Partly(d, Sent(d, all, slots), DoneBefore(d, all, 0)) == Defaults(d);
    FieldByField(d, all, slots, 0, {});
  }

  /** Every field of `d` is one of `all`. */
  ghost predicate PartOf(d: Descriptor, all: Descriptor) {
    && (forall f :: f in d.fields ==> f in all.fields)
    && (forall i, j :: 0 <= i < j < |d.fields| ==> d.fields[i].tag != d.fields[j].tag)
  }

  lemma FieldOf(all: Descriptor, f: Field)
    requires Good(all) && f in all.fields
    ensures FindFrom(all, f.tag, 0).Some? && all.fields[FindFrom(all, f.tag, 0).value] == f
    ensures GoodKind(f.kind) && 0 < f.tag < MAX_TAG
  {
    var j :| 0 <= j < |all.fields| && all.fields[j] == f;
    TagIsFound(all, j);
  }

  /** In particular, an older receiver with some of the fields of the sender reads the message restricted to these. */
  lemma OlderSchemaReads(d: Descriptor, all: Descriptor, slots: seq<Slot>)
    requires Good(all) && TypedSlots(all, slots) && AllTerminated(all, slots) && PartOf(d, all)
    requires Encode(all, slots).Some? && |Encode(all, slots).value| < WORD32
    ensures forall i :: 0 <= i < |d.fields| ==> Shared(d, all, i)
    ensures Decode(d, Encode(all, slots).value) == Some(Received(d, all, slots))
  {
    forall f | f in d.fields
      ensures FindFrom(all, f.tag, 0).Some? && all.fields[FindFrom(all, f.tag, 0).value] == f
      ensures GoodKind(f.kind) && 0 < f.tag < MAX_TAG
    {
      FieldOf(all, f);
    }
    forall f, g | f in d.fields && g in all.fields && f.tag == g.tag ensures f == g { FieldOf(all, g); }
    assert Good(d);
    hide Good;
    hide TypedSlots;
    hide AllTerminated;
    hide Decode;
    hide Encode;
    hide Received;
    OtherSchemaReads(d, all, slots);
  }
}
