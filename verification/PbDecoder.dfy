/** The decoder as it runs (pb_decode.c). */
module PbDecoder {
  import opened Options
  import opened Coding
  import opened PbMessages
  import opened PbEncoding
  import opened PbDecoding
  import opened PbStreams
  import opened PbRequired
  import PbEncoder
  import PbRoundTrip

  /** Numbers of required fields for which the presence check works. */
  ghost predicate Countable(d: Descriptor)
    decreases d, 0
  {
    CountIsGood(RequiredBefore(d, |d.fields|)) && forall i :: 0 <= i < |d.fields| ==> CountableKind(d.fields[i].kind)
  }

  ghost predicate CountableKind(kind: Kind)
    decreases kind, 0
  {
    kind.Message? ==> Countable(kind.fields)
  }

  // ---------- required fields ----------

  /** `req` numbers the required fields among those seen. */
  ghost predicate Tracks(d: Descriptor, seen: set<nat>, req: set<nat>) {
    && req <= All(RequiredBefore(d, |d.fields|))
    && forall i :: 0 <= i < |d.fields| && d.fields[i].rule.Required? ==> (i in seen <==> RequiredBefore(d, i) in req)
  }

  lemma {:induction false} RequiredGrows(d: Descriptor, i: nat, j: nat)
    requires i <= j <= |d.fields|
    ensures RequiredBefore(d, i) <= RequiredBefore(d, j)
    ensures i < j && d.fields[i].rule.Required? ==> RequiredBefore(d, i) < RequiredBefore(d, j)
    decreases j
  {
    if i < j { RequiredGrows(d, i, j - 1); }
  }

  lemma {:induction false} RequiredNumber(d: Descriptor, n: nat, k: nat) returns (i: nat)
    requires n <= |d.fields| && k < RequiredBefore(d, n)
    ensures i < n && d.fields[i].rule.Required? && RequiredBefore(d, i) == k
  {
    if k < RequiredBefore(d, n - 1) { i := RequiredNumber(d, n - 1, k); } else { i := n - 1; }
  }

  lemma SeenOne(d: Descriptor, seen: set<nat>, req: set<nat>, i: nat)
    requires Tracks(d, seen, req) && i < |d.fields|
    ensures Tracks(d, seen + {i}, if d.fields[i].rule.Required? then req + {RequiredBefore(d, i)} else req)
  {
    var req' := if d.fields[i].rule.Required? then req + {RequiredBefore(d, i)} else req;
    RequiredGrows(d, i, |d.fields|);
    forall j | 0 <= j < |d.fields| && d.fields[j].rule.Required?
        ensures j in seen + {i} <==> RequiredBefore(d, j) in req' {
      if i < j { RequiredGrows(d, i, j); } else if j < i { RequiredGrows(d, j, i); }
    }
  }

  lemma AllSeenIff(d: Descriptor, seen: set<nat>, req: set<nat>)
    requires Tracks(d, seen, req)
    ensures AllSeen(d, seen) <==> req == All(RequiredBefore(d, |d.fields|))
  {
    var n := |d.fields|;
    if AllSeen(d, seen) {
      forall k | k in All(RequiredBefore(d, n)) ensures k in req {
        var i := RequiredNumber(d, n, k);
      }
    }
    if req == All(RequiredBefore(d, n)) {
      forall i | 0 <= i < n && d.fields[i].rule.Required? ensures i in seen { RequiredGrows(d, i, n); }
    }
  }

  /** The check at the end of pb_decode_noinit. */
  method CheckAllSeen(iter: FieldIter, fieldsSeen: set<nat>, p: Platform, ghost seen: set<nat>, ghost req: set<nat>)
                      returns (ok: bool)
    requires iter.Valid() && CountIsGood(RequiredBefore(iter.d, |iter.d.fields|)) && Tracks(iter.d, seen, req)
             && fieldsSeen == Recorded(req)
    modifies iter
    ensures ok == AllSeen(iter.d, seen)
  {
    var count: nat, last: nat := iter.required, iter.pos;
    var more := iter.Next();
    while more
      invariant iter.Valid() && (more ==> iter.pos == last + 1)
      invariant last < |iter.d.fields| || (last == 0 && iter.d.fields == [])
      invariant count == RequiredBefore(iter.d, last) && (!more ==> last + 1 >= |iter.d.fields|)
      decreases more, |iter.d.fields| - iter.pos
    {
      count, last := iter.required, iter.pos;
      more := iter.Next();
    }
    if |iter.d.fields| > 0 && iter.d.fields[last].rule.Required? {
      count := count + 1;
    }
    assert count == RequiredBefore(iter.d, |iter.d.fields|);
    AllSeenIff(iter.d, seen, req);
    GoodCountChecks(count, req, p);
    ok := CheckRequired(count, fieldsSeen, p);
  }

  // ---------- values ----------

  method DecodeNumber(s: InputStream, kind: Kind) returns (r: Option<Value>)
    requires s.Valid() && Packable(kind)
    modifies s
    ensures s.Valid() && Gives(old(s.Rest()), old(s.at), old(s.left), s.at, s.left, r,
            DecodeValue(kind, Number(0), old(s.Rest())))
  {
    match kind
    case SignedInt(size) =>
      var w := s.DecodeVarint(WORD64, 10);
      if w.None? {
        return None;
      }
      var n := if size == 8 then SignedOf(w.value, WORD64) else SignedOf(w.value % WORD32, WORD32);
      r := if IsSize(size) && FitsSigned(n, size) then Some(Number(n)) else None;
    case UnsignedInt(size) =>
      var w := s.DecodeVarint(WORD64, 10);
      r := if w.Some? && IsSize(size) && FitsUnsigned(w.value, size) then Some(Number(w.value)) else None;
    case ZigZag(size) =>
      var w := s.DecodeVarint(WORD64, 10);
      r := if w.Some? && IsSize(size) && FitsSigned(UnZig(w.value), size) then Some(Number(UnZig(w.value))) else None;
    case Fixed32 =>
      var b := s.Read(4);
      r := if b.Some? then Some(Number(FixedValue(b.value))) else None;
    case Fixed64 =>
      var b := s.Read(8);
      r := if b.Some? then Some(Number(FixedValue(b.value))) else None;
  }

  /** The stream gave a value, or the error, that `spec` says, and moved past it. */
  ghost predicate Gives<T>(rest: Buffer, at: nat, left: nat, at': nat, left': nat, r: Option<T>, spec: Taken<T>) {
    match spec
    case None => r.None? && at' + left' <= at + left
    case Some((v, n)) => r == Some(v) && n <= |rest| && at' == at + n && left' == left - n
  }

  /** pb_dec_bytes, pb_dec_string and pb_dec_fixed_length_bytes. */
  method DecodeBlob(s: InputStream, kind: Kind) returns (r: Option<Value>)
    requires s.Valid() && (kind.Bytes? || kind.Text? || kind.FixedBytes?)
    modifies s
    ensures s.Valid() && Gives(old(s.Rest()), old(s.at), old(s.left), s.at, s.left, r,
            DecodeValue(kind, Number(0), old(s.Rest())))
  {
    hide VarintAt;
    var size := s.DecodeVarint(WORD32, 5);
    if size.None? {
      return None;
    }
    if kind.FixedBytes? && size.value == 0 {
      return Some(Blob(seq(kind.length, _ => 0)));
    }
    if (kind.Bytes? && size.value > kind.capacity) || (kind.Text? && size.value + 1 > kind.capacity)
        || (kind.FixedBytes? && size.value != kind.length) {
      return None;
    }
    ghost var n := s.at - old(s.at);
    assert s.left >= size.value ==> s.Rest()[..size.value] == old(s.Rest())[n..n + size.value];
    var b := s.Read(size.value);
    r := if b.Some? then Some(Blob(b.value)) else None;
  }

  method DecodeAny(s: InputStream, kind: Kind, was: Value, p: Platform) returns (r: Option<Value>)
    requires s.Valid() && GoodKind(kind) && CountableKind(kind)
    modifies s
    ensures s.Valid() && Gives(old(s.Rest()), old(s.at), old(s.left), s.at, s.left, r,
            DecodeValue(kind, was, old(s.Rest())))
    decreases kind, 1, 0
  {
    if Packable(kind) {
      NumbersStandAlone(kind, was, s.Rest());
      r := DecodeNumber(s, kind);
    } else if kind.Message? {
      r := DecodeSubmessage(s, kind.fields, was, p);
    } else {
      NumbersStandAlone(kind, was, s.Rest());
      r := DecodeBlob(s, kind);
    }
  }

  lemma NumbersStandAlone(kind: Kind, was: Value, b: Buffer)
    requires !kind.Message?
    ensures DecodeValue(kind, was, b) == DecodeValue(kind, Number(0), b)
  {
  }

  /** pb_dec_submessage. */
  method DecodeSubmessage(s: InputStream, d: Descriptor, was: Value, p: Platform) returns (r: Option<Value>)
    requires s.Valid() && Good(d) && Countable(d)
    modifies s
    ensures s.Valid() && Gives(old(s.Rest()), old(s.at), old(s.left), s.at, s.left, r,
            DecodeValue(Message(d), was, old(s.Rest())))
    decreases d, 3, 0
  {
    hide Good;
    hide Countable;
    hide DecodeMessage;
    hide StringAt;
    var sub := s.MakeSubstream();
    if sub == null {
      return None;
    }
    var slots := DecodeFields(sub, d, SlotsOf(d, was), p);
    s.CloseSubstream(sub);
    r := if slots.Some? then Some(Struct(slots.value)) else None;
  }

  /** The packed array of decode_static_field. */
  method DecodePacked(s: InputStream, kind: Kind, before: seq<Value>, capacity: nat) returns (r: Option<seq<Value>>)
    requires s.Valid() && Packable(kind)
    modifies s
    ensures s.Valid() && r == PbDecoding.DecodePacked(kind, before, capacity, old(s.Rest()))
    ensures s.at + s.left <= old(s.at) + old(s.left)
            && (r.Some? ==> s.at + s.left == old(s.at) + old(s.left) && s.left == 0)
  {
    hide DecodeValue;
    var items := before;
    while s.left > 0 && |items| < capacity
      invariant s.Valid() && s.at + s.left == old(s.at) + old(s.left)
      invariant PbDecoding.DecodePacked(kind, before, capacity, old(s.Rest())) ==
                PbDecoding.DecodePacked(kind, items, capacity, s.Rest())
      decreases capacity - |items|
    {
      ghost var rest := s.Rest();
      var item := DecodeNumber(s, kind);
      if item.None? {
        return None;
      }
      assert s.Rest() == rest[DecodeValue(kind, Number(0), rest).value.1..];
      items := items + [item.value];
    }
    r := if s.left != 0 then None else Some(items);
  }

  /** decode_static_field. */
  method DecodeField(s: InputStream, d: Descriptor, slots: seq<Slot>, i: nat, wireType: nat, p: Platform)
                     returns (r: Option<seq<Slot>>)
    requires s.Valid() && Good(d) && Countable(d) && i < |d.fields| == |slots|
    modifies s
    ensures s.Valid() && Gives(old(s.Rest()), old(s.at), old(s.left), s.at, s.left, r,
            PbDecoding.DecodeField(d, slots, i, wireType, old(s.Rest())))
    decreases d, 0, 0
  {
    hide DecodeValue;
    hide PbDecoding.DecodePacked;
    var f := d.fields[i];
    match f.rule
    case Required =>
      var v := DecodeAny(s, f.kind, ValueOf(slots[i], DefaultValue(f)), p);
      r := if v.Some? then Some(slots[i := Plain(v.value)]) else None;
    case Implicit =>
      var v := DecodeAny(s, f.kind, ValueOf(slots[i], DefaultValue(f)), p);
      r := if v.Some? then Some(slots[i := Plain(v.value)]) else None;
    case Optional =>
      var v := DecodeAny(s, f.kind, ValueOf(slots[i], DefaultValue(f)), p);
      r := if v.Some? then Some(slots[i := Flagged(true, v.value)]) else None;
    case Repeated(capacity) =>
      r := DecodeArray(s, d, slots, i, capacity, wireType, p);
    case OneOf(_) =>
      var v := DecodeAny(s, f.kind, Number(0), p);
      r := if v.Some? then Some(Choose(d, slots, i, v.value)) else None;
  }

  method DecodeArray(s: InputStream, d: Descriptor, slots: seq<Slot>, i: nat, capacity: nat, wireType: nat, p: Platform)
    returns (r: Option<seq<Slot>>)
    requires s.Valid() && Good(d) && Countable(d) && i < |d.fields| == |slots| && d.fields[i].rule == Repeated(capacity)
    modifies s
    ensures s.Valid() && Gives(old(s.Rest()), old(s.at), old(s.left), s.at, s.left, r,
            PbDecoding.DecodeField(d, slots, i, wireType, old(s.Rest())))
    decreases d.fields[i], 0, 0
  {
    hide DecodeValue;
    hide StringAt;
    hide PbDecoding.DecodePacked;
    var kind, items := d.fields[i].kind, ItemsOf(slots[i]);
    if wireType == WT_STRING && Packable(kind) {
      var sub := s.MakeSubstream();
      if sub == null {
        return None;
      }
      var all := DecodePacked(sub, kind, items, capacity);
      if all.None? {
        return None;
      }
      s.CloseSubstream(sub);
      return Some(slots[i := Items(all.value)]);
    }
    if |items| >= capacity {
      return None;
    }
    var v := DecodeAny(s, kind, Number(0), p);
    r := if v.Some? then Some(slots[i := Items(items + [v.value])]) else None;
  }

  // ---------- one round of the loop ----------

  lemma EndHere(d: Descriptor, slots: seq<Slot>, seen: set<nat>, b: Buffer)
    requires |slots| == |d.fields|
    requires b == [] || (Varint32At(b).None? && |b| <= 5) || (Varint32At(b).Some? && Varint32At(b).value.0 == 0)
    ensures DecodeMessage(d, slots, seen, b) == Finish(d, slots, seen)
  {
  }

  lemma BadKey(d: Descriptor, slots: seq<Slot>, seen: set<nat>, b: Buffer)
    requires |slots| == |d.fields| && b != []
    requires (Varint32At(b).None? && |b| > 5)
             || (Varint32At(b).Some? && 0 < Varint32At(b).value.0 < 8 && d.fields == [])
    ensures DecodeMessage(d, slots, seen, b) == None
  {
  }

  lemma UnknownField(d: Descriptor, slots: seq<Slot>, seen: set<nat>, b: Buffer, key: nat, n: nat)
    requires |slots| == |d.fields| && b != [] && Varint32At(b) == Some((key, n)) && key != 0
             && (d.fields == [] ==> key >= 8)
    requires FindFrom(d, key / 8, 0).None?
    ensures DecodeMessage(d, slots, seen, b) ==
            match SkipAt(key % 8, b[n..])
            case None => None
            case Some(k) => DecodeMessage(d, slots, seen, b[n + k..])
  {
    hide SkipAt;
    hide Finish;
    hide PbDecoding.DecodeField;
    hide FindFrom;
    hide Varint32At;
  }

  lemma KnownField(d: Descriptor, slots: seq<Slot>, seen: set<nat>, b: Buffer, key: nat, n: nat, i: nat)
    requires |slots| == |d.fields| && b != [] && Varint32At(b) == Some((key, n)) && key != 0
             && FindFrom(d, key / 8, 0) == Some(i)
    ensures DecodeMessage(d, slots, seen, b) ==
            match PbDecoding.DecodeField(d, slots, i, key % 8, b[n..])
            case None => None
            case Some((slots', k)) => DecodeMessage(d, slots', seen + {i}, b[n + k..])
  {
    hide PbDecoding.DecodeField;
    hide DecodeValue;
    hide SkipAt;
    hide Finish;
    hide FindFrom;
    hide Varint32At;
  }

  /** pb_field_iter_find on any descriptor that is not empty, or an empty one without a match. */
  method FindField(iter: FieldIter, tag: nat) returns (found: bool)
    requires iter.Valid() && Good(iter.d)
    modifies iter
    ensures iter.Valid() && found == FindFrom(iter.d, tag, 0).Some?
            && (found ==> Some(iter.pos) == FindFrom(iter.d, tag, 0))
  {
    found := false;
    if |iter.d.fields| > 0 {
      found := iter.Find(tag);
    }
  }

  datatype Key = End | Bad | Key(tag: nat, wireType: nat)

  /** pb_decode_tag, and the end of the loop it decides on. */
  method DecodeTag(s: InputStream, d: Descriptor, ghost slots: seq<Slot>, ghost seen: set<nat>)
                   returns (key: Key, ghost n: nat)
    requires s.Valid() && s.left > 0 && |slots| == |d.fields|
    modifies s
    ensures s.Valid() && s.at + s.left == old(s.at) + old(s.left)
    ensures key.End? ==> DecodeMessage(d, slots, seen, old(s.Rest())) == Finish(d, slots, seen)
    ensures key.Bad? ==> DecodeMessage(d, slots, seen, old(s.Rest())) == None
    ensures key.Key? ==>
            Varint32At(old(s.Rest())) == Some((key.tag * 8 + key.wireType, n)) && key.wireType < 8
            && key.tag * 8 + key.wireType > 0
    ensures key.Key? ==> n <= old(s.left) && s.Rest() == old(s.Rest())[n..] && (d.fields == [] ==> key.tag > 0)
  {
    hide DecodeMessage;
    hide Varint32At;
    ghost var b := s.Rest();
    VarintKey(b);
    var temp := s.DecodeVarint(WORD32, 5);
    n := s.at - old(s.at);
    if temp.None? {
      if s.left == 0 {
        EndHere(d, slots, seen, b);
        return End, n;
      }
      BadKey(d, slots, seen, b);
      return Bad, n;
    }
    if temp.value == 0 {
      EndHere(d, slots, seen, b);
      return End, n;
    }
    if |d.fields| == 0 && temp.value / 8 == 0 {
      // The iterator stands on the terminator, whose zero data size no decoder accepts.
      BadKey(d, slots, seen, b);
      return Bad, n;
    }
    key := Key(temp.value / 8, temp.value % 8);
  }

  lemma RestAfter(bytes: Buffer, at: nat, left: nat, b: Buffer, n: nat, k: nat)
    requires at + left <= |bytes| && n <= |b| && bytes[at..at + left] == b[n..] && k <= left
    ensures bytes[at + k..at + left] == b[n + k..]
  {
    var ahead, behind := bytes[at + k..at + left], b[n + k..];
    assert |bytes[at..at + left]| == |b[n..]|;
    forall i | 0 <= i < left - k ensures ahead[i] == behind[i] {
      assert bytes[at..at + left][k + i] == b[n..][k + i];
    }
  }

  /** One field of the message: skipped if unknown, decoded and noted if not. */
  method DecodeOne(s: InputStream, iter: FieldIter, slots: seq<Slot>, fieldsSeen: set<nat>, tag: nat, wireType: nat,
                   p: Platform,
                   ghost b: Buffer, ghost n: nat, ghost seen: set<nat>, ghost req: set<nat>)
    returns (next: Option<seq<Slot>>, fieldsSeen': set<nat>, ghost seen': set<nat>, ghost req': set<nat>)
    requires s.Valid() && iter.Valid() && Good(iter.d) && Countable(iter.d) && |slots| == |iter.d.fields|
    requires b != [] && Varint32At(b) == Some((tag * 8 + wireType, n)) && s.Rest() == b[n..]
    requires wireType < 8 && tag * 8 + wireType > 0 && (iter.d.fields == [] ==> tag > 0)
    requires Tracks(iter.d, seen, req) && fieldsSeen == Recorded(req)
    modifies s, iter
    ensures s.Valid() && iter.Valid() && s.at + s.left <= old(s.at) + old(s.left)
    ensures next.None? ==> DecodeMessage(iter.d, slots, seen, b) == None
    ensures next.Some? ==>
            |next.value| == |slots|
            && DecodeMessage(iter.d, slots, seen, b) == DecodeMessage(iter.d, next.value, seen', s.Rest())
    ensures next.Some? ==> s.at + s.left == old(s.at) + old(s.left) && s.left <= old(s.left)
    ensures next.Some? ==> Tracks(iter.d, seen', req') && fieldsSeen' == Recorded(req')
    decreases iter.d, 0, 1
  {
    hide Good;
    hide Countable;
    hide DecodeMessage;
    hide PbDecoding.DecodeField;
    hide Varint32At;
    hide SkipAt;
    hide FindFrom;
    hide Tracks;
    ghost var d, rest, at, left := iter.d, s.Rest(), s.at, s.left;
    fieldsSeen', seen', req' := fieldsSeen, seen, req;
    var found := FindField(iter, tag);
    if !found {
      UnknownField(d, slots, seen, b, tag * 8 + wireType, n);
      var ok := s.SkipField(wireType);
      if ok { RestAfter(s.bytes, at, left, b, n, SkipAt(wireType, rest).value); }
      next := if ok then Some(slots) else None;
      return;
    }
    KnownField(d, slots, seen, b, tag * 8 + wireType, n, iter.pos);
    if iter.d.fields[iter.pos].rule.Required? && iter.required < MAX_REQUIRED_FIELDS {
      fieldsSeen' := fieldsSeen + {iter.required};
    }
    seen' := seen + {iter.pos};
    req' := if d.fields[iter.pos].rule.Required? then req + {iter.required} else req;
    SeenOne(d, seen, req, iter.pos);
    assert fieldsSeen' == Recorded(req');
    next := DecodeField(s, iter.d, slots, iter.pos, wireType, p);
    if next.Some? {
      RestAfter(s.bytes, at, left, b, n, PbDecoding.DecodeField(d, slots, iter.pos, wireType, rest).value.1);
    }
  }

  /** The loop over the fields. */
  method DecodeLoop(s: InputStream, iter: FieldIter, slots: seq<Slot>, p: Platform)
    returns (now: Option<seq<Slot>>, fieldsSeen: set<nat>, ghost seen: set<nat>, ghost req: set<nat>)
    requires s.Valid() && iter.Valid() && Good(iter.d) && Countable(iter.d) && |slots| == |iter.d.fields|
    modifies s, iter
    ensures s.Valid() && iter.Valid() && s.at + s.left <= old(s.at) + old(s.left)
    ensures now.None? ==> DecodeMessage(iter.d, slots, {}, old(s.Rest())) == None
    ensures now.Some? ==> DecodeMessage(iter.d, slots, {}, old(s.Rest())) == Finish(iter.d, now.value, seen)
    ensures now.Some? ==>
            s.at + s.left == old(s.at) + old(s.left) && Tracks(iter.d, seen, req) && fieldsSeen == Recorded(req)
    decreases iter.d, 1, 0
  {
    hide Good;
    hide Countable;
    hide DecodeMessage;
    hide Varint32At;
    hide Tracks;
    hide Finish;
    hide Recorded;
    var current := slots;
    fieldsSeen, seen, req := {}, {}, {};
    NothingSeen(iter.d);
    while s.left > 0
      invariant s.Valid() && s.at + s.left == old(s.at) + old(s.left) && |current| == |iter.d.fields|
      invariant DecodeMessage(iter.d, slots, {}, old(s.Rest())) == DecodeMessage(iter.d, current, seen, s.Rest())
      invariant iter.Valid() && Tracks(iter.d, seen, req) && fieldsSeen == Recorded(req)
      decreases s.left
    {
      ghost var b := s.Rest();
      ghost var n;
      var key;
      key, n := DecodeTag(s, iter.d, current, seen);
      if key.Bad? {
        return None, fieldsSeen, seen, req;
      }
      if key.End? {
        return Some(current), fieldsSeen, seen, req;
      }
      var next;
      next, fieldsSeen, seen, req := DecodeOne(s, iter, current, fieldsSeen, key.tag, key.wireType, p, b, n, seen, req);
      if next.None? {
        return None, fieldsSeen, seen, req;
      }
      current := next.value;
    }
    EndHere(iter.d, current, seen, s.Rest());
    now := Some(current);
  }

  /** pb_decode_noinit. */
  method DecodeFields(s: InputStream, d: Descriptor, slots: seq<Slot>, p: Platform) returns (r: Option<seq<Slot>>)
    requires s.Valid() && Good(d) && Countable(d) && |slots| == |d.fields|
    modifies s
    ensures s.Valid() && s.at + s.left <= old(s.at) + old(s.left)
    ensures r == DecodeMessage(d, slots, {}, old(s.Rest())) && (r.Some? ==> s.at + s.left == old(s.at) + old(s.left))
    decreases d, 2, 0
  {
    hide Good;
    hide Countable;
    hide DecodeMessage;
    hide Tracks;
    hide Finish;
    hide Recorded;
    hide AllSeen;
    var iter := new FieldIter(d);
    ghost var seen, req;
    var fieldsSeen, now;
    now, fieldsSeen, seen, req := DecodeLoop(s, iter, slots, p);
    if now.None? {
      return None;
    }
    CountOf(d);
    FinishIs(d, now.value, seen);
    var ok := CheckAllSeen(iter, fieldsSeen, p, seen, req);
    r := if ok then now else None;
  }

  lemma FinishIs(d: Descriptor, slots: seq<Slot>, seen: set<nat>)
    ensures Finish(d, slots, seen) == if AllSeen(d, seen) then Some(slots) else None
  {
  }

  lemma CountOf(d: Descriptor)
    requires Countable(d)
    ensures CountIsGood(RequiredBefore(d, |d.fields|))
  {
  }

  lemma NothingSeen(d: Descriptor)
    ensures Tracks(d, {}, {}) && Recorded({}) == {}
  {
  }

  lemma VarintKey(b: Buffer)
    ensures Varint32At(b) == Truncated(VarintAt(b, 5), WORD32)
  {
  }

  /** pb_decode. */
  method Decode(s: InputStream, d: Descriptor, p: Platform) returns (r: Option<seq<Slot>>)
    requires s.Valid() && Good(d) && Countable(d)
    modifies s
    ensures s.Valid() && r == PbDecoding.Decode(d, old(s.Rest()))
  {
    hide DecodeMessage;
    r := DecodeFields(s, d, Defaults(d), p);
  }

  // ---------- both ways ----------

  /** The encoder's output, read back by the decoder on any platform. */
  method EncodeThenDecode(d: Descriptor, slots: seq<Slot>, max: nat, p: Platform)
                          returns (ok: bool, back: Option<seq<Slot>>)
    requires Good(d) && Countable(d) && TypedSlots(d, slots) && PbRoundTrip.AllTerminated(d, slots)
    requires Encode(d, slots).Some? ==> |Encode(d, slots).value| < WORD32
    requires Encode(d, slots).None? ==> PbEncoder.AddressableSlots(d, slots)
    ensures ok == (Encode(d, slots).Some? && |Encode(d, slots).value| <= max)
    ensures ok ==> back == Some(NormalSlots(d, slots))
  {
    if Encode(d, slots).Some? { PbEncoder.SmallIsAddressable(d, slots); }
    var o := new PbEncoder.OutputStream(false, max, []);
    ok := o.EncodeFields(d, slots);
    back := None;
    if ok {
      PbRoundTrip.MessageRoundTrip(d, slots);
      var s := new InputStream(o.data, 0, |o.data|);
      assert s.Rest() == Encode(d, slots).value;
      back := Decode(s, d, p);
    }
  }
}
