/** Messages that were cut short: a value cut in the middle is refused, and whatever is accepted holds no wrong
    value. */
module PbCuts {
  import opened Options
  import opened Coding
  import opened PbMessages
  import opened PbEncoding
  import opened PbDecoding
  import opened PbRequired
  import opened PbRoundTrip
  import CutFormats

  // ---------- one value ----------

  lemma CutString(s: Buffer, k: nat)
    requires |s| < WORD32 && k < |LengthPrefixed(s)|
    ensures StringAt(LengthPrefixed(s)[..k]) == None
  {
    var n := |Varint(|s|)|;
    if k < n {
      assert LengthPrefixed(s)[..k] == Varint(|s|)[..k];
      CutFormats.CutVarint(|s|, k, 5);
    } else {
      assert LengthPrefixed(s)[..k] == Varint(|s|) + s[..k - n];
      Varint32Back(|s|, s[..k - n]);
    }
  }

  /** A value of any kind that was cut is refused. */
  lemma {:induction false} CutValue(kind: Kind, was: Value, v: Value, k: nat)
    requires CanReturn(kind, v) && k < |EncodeValue(kind, v).value|
    ensures DecodeValue(kind, was, EncodeValue(kind, v).value[..k]) == None
  {
    hide StringAt;
    hide Terminated;
    hide TypedSlots;
    match kind
    case SignedInt(_) => CutFormats.CutVarint(AsWord(v.n), k, 10);
    case UnsignedInt(_) => CutFormats.CutVarint(v.n, k, 10);
    case ZigZag(_) => CutFormats.CutVarint(Zig(v.n), k, 10);
    case Fixed32 =>
    case Fixed64 =>
    case Message(d) => CutString(EncodeFrom(d, v.slots, 0).value, k);
    case _ => CutString(v.bytes, k);
  }

  // ---------- one key and what follows it ----------

  /** A message cut inside a key, or right before one, ends there. */
  lemma {:induction false} CutKey(d: Descriptor, slots: seq<Slot>, seen: set<nat>, tag: nat, wireType: nat, k: nat)
    requires |slots| == |d.fields| && 0 < tag < MAX_TAG && wireType < 8 && k < |TagBytes(tag, wireType)|
    ensures DecodeMessage(d, slots, seen, TagBytes(tag, wireType)[..k]) == Finish(d, slots, seen)
  {
    var key := tag * 8 + wireType;
    CutFormats.CutVarint(key, k, 5);
    FiveBytesSuffice(key);
    VarintRoundTrip(key, [], 5);
    VarintFits(Varint(key) + [], 5);
    var b := TagBytes(tag, wireType)[..k];
    assert Varint32At(b) == None && |b| <= 5;
    hide Varint32At;
    hide DecodeField;
    hide SkipAt;
    hide FindFrom;
    hide Finish;
  }

  /** Is the body refused wherever it is cut? */
  ghost predicate CutsFail(d: Descriptor, slots: seq<Slot>, i: nat, wireType: nat, body: Buffer)
    requires i < |d.fields| == |slots|
  {
    forall k :: 0 <= k < |body| ==> DecodeField(d, slots, i, wireType, body[..k]) == None
  }

  /** A key and its body, cut anywhere: either the message ends before the key, or it is refused. */
  lemma {:induction false} CutPair(d: Descriptor, slots: seq<Slot>, seen: set<nat>, i: nat, wireType: nat, body: Buffer,
                                   k: nat)
    requires Good(d) && i < |d.fields| == |slots| && wireType < 8 && CutsFail(d, slots, i, wireType, body)
    requires k < |TagBytes(d.fields[i].tag, wireType) + body|
    ensures DecodeMessage(d, slots, seen, (TagBytes(d.fields[i].tag, wireType) + body)[..k]) ==
            if k < |TagBytes(d.fields[i].tag, wireType)| then Finish(d, slots, seen) else None
  {
    hide DecodeMessage;
    hide DecodeField;
    hide Finish;
    TagFits(d, i);
    hide Good;
    var key := TagBytes(d.fields[i].tag, wireType);
    if k < |key| {
      assert (key + body)[..k] == key[..k];
      CutKey(d, slots, seen, d.fields[i].tag, wireType, k);
    } else {
      assert (key + body)[..k] == key + body[..k - |key|];
      KeyBack(d, slots, seen, i, wireType, body[..k - |key|]);
    }
  }

  /** The same for a single value, of whatever field. */
  lemma {:induction false} CutSingle(d: Descriptor, slots: seq<Slot>, seen: set<nat>, i: nat, v: Value, k: nat)
    requires Good(d) && i < |d.fields| == |slots| && CanReturn(d.fields[i].kind, v)
    requires k < |Tagged(d.fields[i], EncodeValue(d.fields[i].kind, v)).value|
    ensures var f := d.fields[i];
            DecodeMessage(d, slots, seen, Tagged(f, EncodeValue(f.kind, v)).value[..k]) ==
            if k < |TagBytes(f.tag, WireType(f.kind))| then Finish(d, slots, seen) else None
  {
    hide DecodeMessage;
    hide DecodeValue;
    hide EncodeValue;
    hide Finish;
    hide Good;
    var f := d.fields[i];
    var b := EncodeValue(f.kind, v).value;
    forall m | 0 <= m < |b| ensures DecodeField(d, slots, i, WireType(f.kind), b[..m]) == None {
      forall was ensures DecodeValue(f.kind, was, b[..m]) == None { CutValue(f.kind, was, v, m); }
    }
    CutPair(d, slots, seen, i, WireType(f.kind), b, k);
  }

  lemma {:induction false} CutPacked(d: Descriptor, slots: seq<Slot>, seen: set<nat>, i: nat, list: Buffer, k: nat)
    requires Good(d) && i < |d.fields| == |slots| && d.fields[i].rule.Repeated? && Packable(d.fields[i].kind)
    requires |list| < WORD32 && k < |TagBytes(d.fields[i].tag, WT_STRING) + LengthPrefixed(list)|
    ensures DecodeMessage(d, slots, seen, (TagBytes(d.fields[i].tag, WT_STRING) + LengthPrefixed(list))[..k]) ==
            if k < |TagBytes(d.fields[i].tag, WT_STRING)| then Finish(d, slots, seen) else None
  {
    hide DecodeMessage;
    hide DecodeValue;
    hide Finish;
    hide Good;
    var b := LengthPrefixed(list);
    forall m | 0 <= m < |b| ensures DecodeField(d, slots, i, WT_STRING, b[..m]) == None {
      CutString(list, m);
      hide StringAt;
    }
    CutPair(d, slots, seen, i, WT_STRING, b, k);
  }

  // ---------- a whole message ----------

  /** Every field is as in the whole message or at its default, and every array holds the first items of its own. */
  ghost predicate IsPart(d: Descriptor, some: seq<Slot>, whole: seq<Slot>)
    requires |whole| == |d.fields|
  {
    && |some| == |whole|
    && forall i :: 0 <= i < |some| ==> PartOfSlot(d.fields[i], some[i], whole[i])
  }

  ghost predicate PartOfSlot(f: Field, some: Slot, whole: Slot) {
    some == whole || some == Default(f) || (some.Items? && whole.Items? && some.items <= whole.items)
  }

  /** What a cut message decodes to, if anything. */
  ghost predicate OnlyPart(d: Descriptor, slots: seq<Slot>, result: Option<seq<Slot>>)
    requires |slots| == |d.fields|
  {
    result.Some? ==> IsPart(d, result.value, NormalSlots(d, slots))
  }

  lemma {:induction false} PartlyIsPart(d: Descriptor, slots: seq<Slot>, done: set<nat>, seen: set<nat>)
    requires |slots| == |d.fields|
    ensures OnlyPart(d, slots, Finish(d, Partly(d, slots, done), seen))
  {
    hide NormalSlot;
    hide Default;
  }

  lemma {:induction false} ItemsArePart(d: Descriptor, slots: seq<Slot>, n: nat, items: seq<Value>, m: nat,
                                        done: set<nat>, seen: set<nat>)
    requires n < |slots| == |d.fields| && m <= |items|
    requires NormalSlot(d.fields[n], slots[n]) == Items(NormalItems(d.fields[n].kind, items))
    ensures var part := Items(NormalItems(d.fields[n].kind, items[..m]));
            OnlyPart(d, slots, Finish(d, Partly(d, slots, done)[n := part], seen))
  {
    hide Normal;
    hide Default;
    var kind := d.fields[n].kind;
    assert NormalItems(kind, items)[..m] == NormalItems(kind, items[..m]);
    hide NormalSlot;
  }

  lemma {:induction false} ItemsCut(d: Descriptor, slots: seq<Slot>, n: nat, items: seq<Value>, m: nat, done: set<nat>,
                                    seen: set<nat>, k: nat)
    requires CanReturnAll(d, slots) && n < |slots| == |d.fields| && d.fields[n].rule.Repeated? && m <= |items|
    requires |items| <= d.fields[n].rule.capacity && ItemsCanReturn(d.fields[n].kind, items)
    requires NormalSlot(d.fields[n], slots[n]) == Items(NormalItems(d.fields[n].kind, items))
    requires EncodeItems(d.fields[n], items, m).Some? && |EncodeItems(d.fields[n], items, m).value| < WORD32
    requires k < |EncodeItems(d.fields[n], items, m).value|
    ensures var part := Items(NormalItems(d.fields[n].kind, items[..m]));
            OnlyPart(d, slots, DecodeMessage(d, Partly(d, slots, done)[n := part], seen,
                                             EncodeItems(d.fields[n], items, m).value[..k]))
    decreases |items| - m
  {
    GoodOf(d, slots);
    var f := d.fields[n];
    ItemFirst(f, items, m);
    assert |Partly(d, slots, done)| == |slots|;
    hide *;
    var b, more := Tagged(f, EncodeValue(f.kind, items[m])).value, EncodeItems(f, items, m + 1).value;
    CutFormats.CutJoin(b, more, k);
    if k < |b| {
      FirstItemCut(d, slots, n, items, m, done, seen, k);
    } else {
      BehindItem(d, slots, n, items, m, done, seen, more[..k - |b|]);
      ItemsCut(d, slots, n, items, m + 1, done, seen + {n}, k - |b|);
    }
  }

  lemma ItemFirst(f: Field, items: seq<Value>, m: nat)
    requires m <= |items| && ItemsCanReturn(f.kind, items)
    requires EncodeItems(f, items, m).Some? && |EncodeItems(f, items, m).value| < WORD32
    requires EncodeItems(f, items, m).value != []
    ensures m < |items| && CanReturn(f.kind, items[m]) && EncodeItems(f, items, m + 1).Some?
    ensures EncodeItems(f, items, m).value ==
            Tagged(f, EncodeValue(f.kind, items[m])).value + EncodeItems(f, items, m + 1).value
  {
    hide EncodeValue;
    hide GoodKind;
    hide Terminated;
    hide Typed;
  }

  /** Behind a whole item. */
  lemma {:induction false} BehindItem(d: Descriptor, slots: seq<Slot>, n: nat, items: seq<Value>, m: nat,
                                      done: set<nat>, seen: set<nat>, rest: Buffer)
    requires Good(d) && n < |slots| == |d.fields| && d.fields[n].rule.Repeated? && m < |items|
    requires |items| <= d.fields[n].rule.capacity && CanReturn(d.fields[n].kind, items[m])
    ensures var f, partly := d.fields[n], Partly(d, slots, done);
            DecodeMessage(d, partly[n := Items(NormalItems(f.kind, items[..m]))], seen,
                          Tagged(f, EncodeValue(f.kind, items[m])).value + rest) ==
            DecodeMessage(d, partly[n := Items(NormalItems(f.kind, items[..m + 1]))], seen + {n}, rest)
  {
    assert |Partly(d, slots, done)| == |slots|;
    hide DecodeMessage;
    hide Good;
    hide Partly;
    hide Normal;
    hide EncodeValue;
    hide Tagged;
    hide CanReturn;
    NormalItemsNext(d.fields[n].kind, items, m);
    var f, partly := d.fields[n], Partly(d, slots, done);
    var before := NormalItems(f.kind, items[..m]);
    assert |before| == m;
    hide NormalItems;
    ItemBack(d, partly[n := Items(before)], n, before, items[m], seen, rest);
    var next := Items(before + [Normal(f.kind, items[m])]);
    assert partly[n := Items(before)][n := next] == partly[n := next];
  }

  lemma {:induction false} FirstItemCut(d: Descriptor, slots: seq<Slot>, n: nat, items: seq<Value>, m: nat,
                                        done: set<nat>, seen: set<nat>, k: nat)
    requires Good(d) && n < |slots| == |d.fields| && m < |items| && CanReturn(d.fields[n].kind, items[m])
    requires NormalSlot(d.fields[n], slots[n]) == Items(NormalItems(d.fields[n].kind, items))
    requires k < |Tagged(d.fields[n], EncodeValue(d.fields[n].kind, items[m])).value|
    ensures var f := d.fields[n];
            var part := Items(NormalItems(f.kind, items[..m]));
            OnlyPart(d, slots, DecodeMessage(d, Partly(d, slots, done)[n := part], seen,
                                             Tagged(f, EncodeValue(f.kind, items[m])).value[..k]))
  {
    hide DecodeMessage;
    hide Good;
    assert |Partly(d, slots, done)| == |slots|;
    hide Partly;
    hide OnlyPart;
    hide NormalSlot;
    hide NormalItems;
    hide EncodeValue;
    hide CanReturn;
    hide Finish;
    var part := Items(NormalItems(d.fields[n].kind, items[..m]));
    CutSingle(d, Partly(d, slots, done)[n := part], seen, n, items[m], k);
    ItemsArePart(d, slots, n, items, m, done, seen);
    RefusedIsPart(d, slots);
  }

  lemma RefusedIsPart(d: Descriptor, slots: seq<Slot>)
    requires |slots| == |d.fields|
    ensures OnlyPart(d, slots, None)
  {
  }

  lemma {:induction false} ArrayCut(d: Descriptor, slots: seq<Slot>, n: nat, items: seq<Value>, done: set<nat>,
                                    seen: set<nat>, k: nat)
    requires CanReturnAll(d, slots) && n < |slots| == |d.fields| && n !in done && d.fields[n].rule.Repeated?
    requires slots[n] == Items(items) && ItemsCanReturn(d.fields[n].kind, items)
    requires NormalSlot(d.fields[n], slots[n]) == Items(NormalItems(d.fields[n].kind, items))
    requires EncodeField(d.fields[n], slots[n]).Some? && |EncodeField(d.fields[n], slots[n]).value| < WORD32
    requires k < |EncodeField(d.fields[n], slots[n]).value|
    ensures OnlyPart(d, slots, DecodeMessage(d, Partly(d, slots, done), seen,
                                             EncodeField(d.fields[n], slots[n]).value[..k]))
  {
    GoodOf(d, slots);
    hide DecodeMessage;
    hide CanReturnAll;
    hide Good;
    hide OnlyPart;
    hide Normal;
    hide NormalSlot;
    hide EncodeValue;
    hide PackedFrom;
    hide Finish;
    var f, now := d.fields[n], Partly(d, slots, done);
    if Packable(f.kind) {
      CutPacked(d, now, seen, n, PackedFrom(f, items, 0).value, k);
      PartlyIsPart(d, slots, done, seen);
      RefusedIsPart(d, slots);
    } else {
      assert now[n] == Items([]) && NormalItems(f.kind, items[..0]) == [];
      assert now[n := Items(NormalItems(f.kind, items[..0]))] == now;
      ItemsCut(d, slots, n, items, 0, done, seen, k);
    }
  }

  lemma {:induction false} SingleCut(d: Descriptor, slots: seq<Slot>, n: nat, v: Value, done: set<nat>,
                                     seen: set<nat>, k: nat)
    requires Good(d) && n < |slots| == |d.fields| && CanReturn(d.fields[n].kind, v)
    requires k < |Tagged(d.fields[n], EncodeValue(d.fields[n].kind, v)).value|
    ensures OnlyPart(d, slots, DecodeMessage(d, Partly(d, slots, done), seen,
                                             Tagged(d.fields[n], EncodeValue(d.fields[n].kind, v)).value[..k]))
  {
    hide DecodeMessage;
    hide Good;
    hide CanReturn;
    hide OnlyPart;
    hide EncodeValue;
    hide Finish;
    CutSingle(d, Partly(d, slots, done), seen, n, v, k);
    PartlyIsPart(d, slots, done, seen);
    RefusedIsPart(d, slots);
  }

  /** A message cut inside a field. */
  lemma {:induction false} FieldCut(d: Descriptor, slots: seq<Slot>, n: nat, done: set<nat>, seen: set<nat>, k: nat)
    requires CanReturnAll(d, slots) && n < |slots| == |d.fields| && n !in done
    requires EncodeField(d.fields[n], slots[n]).Some? && |EncodeField(d.fields[n], slots[n]).value| < WORD32
    requires k < |EncodeField(d.fields[n], slots[n]).value|
    ensures OnlyPart(d, slots, DecodeMessage(d, Partly(d, slots, done), seen,
                                             EncodeField(d.fields[n], slots[n]).value[..k]))
  {
    TypedOf(d, slots);
    GoodOf(d, slots);
    hide DecodeMessage;
    hide CanReturnAll;
    hide TypedSlots;
    hide Good;
    hide EncodeValue;
    hide Partly;
    hide OnlyPart;
    hide NormalSlot;
    if d.fields[n].rule.Repeated? {
      ItemsOfArray(d, slots, n);
      ArrayCut(d, slots, n, slots[n].items, done, seen, k);
    } else if v :| Present(d.fields[n], slots[n], v) {
      PresentBytes(d, slots, n, v);
      SingleCut(d, slots, n, v, done, seen, k);
    } else {
      AbsentBack(d, slots, n, done);
    }
  }

  /** Behind a whole field. */
  lemma {:induction false} BehindField(d: Descriptor, slots: seq<Slot>, n: nat, seen: set<nat>, rest: Buffer)
    returns (seen': set<nat>)
    requires CanReturnAll(d, slots) && n < |slots| == |d.fields| && SeenOf(d, seen, All(n))
    requires EncodeField(d.fields[n], slots[n]).Some? && |EncodeField(d.fields[n], slots[n]).value| < WORD32
    ensures SeenOf(d, seen', All(n + 1))
    ensures DecodeMessage(d, Partly(d, slots, All(n)), seen, EncodeField(d.fields[n], slots[n]).value + rest) ==
            DecodeMessage(d, Partly(d, slots, All(n + 1)), seen', rest)
  {
    TypedOf(d, slots);
    hide DecodeMessage;
    hide CanReturnAll;
    hide EncodeField;
    hide Partly;
    hide SeenOf;
    hide TypedSlots;
    seen' := FieldBack(d, slots, n, All(n), seen, rest);
    assert All(n) + {n} == All(n + 1);
  }

  lemma {:induction false} FieldsCut(d: Descriptor, slots: seq<Slot>, n: nat, seen: set<nat>, k: nat)
    requires CanReturnAll(d, slots) && n <= |slots| == |d.fields| && SeenOf(d, seen, All(n))
    requires EncodeFrom(d, slots, n).Some? && |EncodeFrom(d, slots, n).value| < WORD32
    requires k <= |EncodeFrom(d, slots, n).value|
    ensures OnlyPart(d, slots, DecodeMessage(d, Partly(d, slots, All(n)), seen, EncodeFrom(d, slots, n).value[..k]))
    decreases |slots| - n
  {
    hide OnlyPart;
    hide DecodeMessage;
    hide Partly;
    hide Finish;
    hide SeenOf;
    if k == 0 {
      PartlyIsPart(d, slots, All(n), seen);
      NothingLeft(d, slots, All(n), seen);
    } else {
      assert n < |slots|;
      FieldFirst(d, slots, n);
      hide EncodeFrom;
      hide EncodeField;
      var b, more := EncodeField(d.fields[n], slots[n]).value, EncodeFrom(d, slots, n + 1).value;
      hide CanReturnAll;
      if k < |b| {
        CutFormats.CutJoin(b, more, k);
        FieldCut(d, slots, n, All(n), seen, k);
      } else {
        CutFormats.CutJoin(b, more, k);
        var seen' := BehindField(d, slots, n, seen, more[..k - |b|]);
        FieldsCut(d, slots, n + 1, seen', k - |b|);
      }
    }
  }

  lemma NothingLeft(d: Descriptor, slots: seq<Slot>, done: set<nat>, seen: set<nat>)
    requires |slots| == |d.fields|
    ensures DecodeMessage(d, Partly(d, slots, done), seen, []) == Finish(d, Partly(d, slots, done), seen)
  {
    hide Finish;
  }

  /** A message that was cut anywhere is refused, or gives nothing that was not sent: every field as it was or at its
      default, every array its first items. */
  lemma CutMessage(d: Descriptor, slots: seq<Slot>, k: nat)
    requires CanReturnAll(d, slots) && Encode(d, slots).Some? && |Encode(d, slots).value| < WORD32
    requires k <= |Encode(d, slots).value|
    ensures |slots| == |d.fields| && OnlyPart(d, slots, Decode(d, Encode(d, slots).value[..k]))
  {
    TypedOf(d, slots);
    assert Partly(d, slots, All(0)) == Defaults(d);
    hide DecodeMessage;
    hide CanReturnAll;
    hide OnlyPart;
    hide Partly;
    FieldsCut(d, slots, 0, {}, k);
  }
}
