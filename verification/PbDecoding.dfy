/** What the nanopb decoder makes of its input (pb_decode.c).  Results are None where it reports an error,
    and otherwise say how many bytes were taken. */
module PbDecoding {
  import opened Options
  import opened Coding
  import opened PbMessages
  import opened PbEncoding

  type Taken<T> = Option<(T, nat)>

  /** A length and as many bytes. */
  function StringAt(b: Buffer): (r: Taken<Buffer>)
    ensures r.Some? ==> 0 < r.value.1 <= |b| && |r.value.0| < r.value.1
  {
    match Varint32At(b)
    case None => None
    case Some((size, n)) => if n + size <= |b| then Some((b[n..n + size], n + size)) else None
  }

  function SignedOf(w: nat, word: nat): int { if w < word / 2 then w else w - word }

  function SkipVarint(b: Buffer): (r: Option<nat>)
    ensures r.Some? ==> r.value <= |b|
  {
    if b == [] then None
    else if b[0] < 128 then Some(1)
    else match SkipVarint(b[1..])
      case None => None
      case Some(n) => Some(n + 1)
  }

  /** pb_skip_field. */
  function SkipAt(wireType: nat, b: Buffer): (r: Option<nat>)
    ensures r.Some? ==> r.value <= |b|
  {
    if wireType == WT_VARINT then SkipVarint(b)
    else if wireType == WT_64BIT then if |b| >= 8 then Some(8) else None
    else if wireType == WT_STRING then match StringAt(b)
      case None => None
      case Some((_, n)) => Some(n)
    else if wireType == WT_32BIT then if |b| >= 4 then Some(4) else None
    else None
  }

  function FindFrom(d: Descriptor, tag: nat, n: nat): (r: Option<nat>)
    requires n <= |d.fields|
    ensures r.Some? ==> n <= r.value < |d.fields| && d.fields[r.value].tag == tag
    ensures r.None? ==> forall i :: n <= i < |d.fields| ==> d.fields[i].tag != tag
    decreases |d.fields| - n
  {
    if n == |d.fields| then None else if d.fields[n].tag == tag then Some(n) else FindFrom(d, tag, n + 1)
  }

  function ItemsOf(slot: Slot): seq<Value> { if slot.Items? then slot.items else [] }

  function ValueOf(slot: Slot, otherwise: Value): Value {
    match slot
    case Plain(v) => v
    case Flagged(_, v) => v
    case _ => otherwise
  }

  /** The submessage that is there already, or a fresh one. */
  function SlotsOf(d: Descriptor, was: Value): (slots: seq<Slot>)
    ensures |slots| == |d.fields|
  {
    if was.Struct? && |was.slots| == |d.fields| then was.slots else Defaults(d)
  }

  /** Choosing a union member gives up the others. */
  function Choose(d: Descriptor, slots: seq<Slot>, i: nat, v: Value): seq<Slot>
    requires i < |d.fields|
  {
    seq(|slots|, j requires 0 <= j < |slots| =>
      if j == i then Member(Some(v))
      else if j < |d.fields| && d.fields[j].rule == d.fields[i].rule then Member(None) else slots[j])
  }

  ghost predicate AllSeen(d: Descriptor, seen: set<nat>) {
    forall i :: 0 <= i < |d.fields| && d.fields[i].rule.Required? ==> i in seen
  }

  ghost function Finish(d: Descriptor, slots: seq<Slot>, seen: set<nat>): Option<seq<Slot>> {
    if AllSeen(d, seen) then Some(slots) else None
  }

  /** One value of the field; `was` is what the field held before, which only a submessage adds to. */
  ghost function DecodeValue(kind: Kind, was: Value, b: Buffer): (r: Taken<Value>)
    ensures r.Some? ==> r.value.1 <= |b| && (Packable(kind) ==> r.value.1 > 0)
    decreases kind, 0, 0
  {
    match kind
    case SignedInt(size) => (
      match Varint64At(b)
      case None => None
      case Some((w, n)) =>
        var s := if size == 8 then SignedOf(w, WORD64) else SignedOf(w % WORD32, WORD32);
        if IsSize(size) && FitsSigned(s, size) then Some((Number(s), n)) else None)
    case UnsignedInt(size) => (
      match Varint64At(b)
      case None => None
      case Some((w, n)) => if IsSize(size) && FitsUnsigned(w, size) then Some((Number(w), n)) else None)
    case ZigZag(size) => (
      match Varint64At(b)
      case None => None
      case Some((w, n)) => if IsSize(size) && FitsSigned(UnZig(w), size) then Some((Number(UnZig(w)), n)) else None)
    case Fixed32 => if |b| >= 4 then Some((Number(FixedValue(b[..4])), 4)) else None
    case Fixed64 => if |b| >= 8 then Some((Number(FixedValue(b[..8])), 8)) else None
    case Bytes(capacity) => (
      match StringAt(b)
      case None => None
      case Some((s, n)) => if |s| <= capacity then Some((Blob(s), n)) else None)
    case Text(capacity) => (
      match StringAt(b)
      case None => None
      case Some((s, n)) => if |s| + 1 <= capacity then Some((Blob(s), n)) else None)
    case Message(d) => (
      match StringAt(b)
      case None => None
      case Some((s, n)) =>
        match DecodeMessage(d, SlotsOf(d, was), {}, s)
        case None => None
        case Some(slots) => Some((Struct(slots), n)))
    case FixedBytes(length) =>
      match StringAt(b)
      case None => None
      case Some((s, n)) => if s == [] then Some((Blob(seq(length, _ => 0)), n)) else if |s| ==
          length then Some((Blob(s), n)) else None
  }

  ghost function DecodePacked(kind: Kind, items: seq<Value>, capacity: nat, b: Buffer): Option<seq<Value>>
    requires Packable(kind)
    decreases kind, 1, |b|
  {
    if b == [] then Some(items)
    else if |items| >= capacity then None
    else match DecodeValue(kind, Number(0), b)
      case None => None
      case Some((v, n)) => DecodePacked(kind, items + [v], capacity, b[n..])
  }

  /** decode_static_field.  The wire type decides only whether an array is packed. */
  ghost function DecodeField(d: Descriptor, slots: seq<Slot>, i: nat, wireType: nat, b: Buffer): (r: Taken<seq<Slot>>)
    requires i < |d.fields| == |slots|
    ensures r.Some? ==> r.value.1 <= |b| && |r.value.0| == |slots|
    decreases d, 0, 0
  {
    var f := d.fields[i];
    match f.rule
    case Required => Put(slots, i, DecodeValue(f.kind, ValueOf(slots[i], DefaultValue(f)), b), v => Plain(v))
    case Implicit => Put(slots, i, DecodeValue(f.kind, ValueOf(slots[i], DefaultValue(f)), b), v => Plain(v))
    case Optional => Put(slots, i, DecodeValue(f.kind, ValueOf(slots[i], DefaultValue(f)), b), v => Flagged(true, v))
    case Repeated(capacity) => (
      var items := ItemsOf(slots[i]);
      if wireType == WT_STRING && Packable(f.kind) then
        match StringAt(b)
        case None => None
        case Some((s, n)) =>
          var all := DecodePacked(f.kind, items, capacity, s);
          if all.Some? then Some((slots[i := Items(all.value)], n)) else None
      else if |items| >= capacity then None
      else Put(slots, i, DecodeValue(f.kind, Number(0), b), v => Items(items + [v])))
    case OneOf(_) => (
      match DecodeValue(f.kind, Number(0), b)
      case None => None
      case Some((v, n)) => Some((Choose(d, slots, i, v), n)))
  }

  function Put(slots: seq<Slot>, i: nat, r: Taken<Value>, slot: Value -> Slot): Taken<seq<Slot>>
    requires i < |slots|
  {
    match r
    case None => None
    case Some((v, n)) => Some((slots[i := slot(v)], n))
  }

  /** pb_decode_noinit on a message that already has the given slots. */
  ghost function DecodeMessage(d: Descriptor, slots: seq<Slot>, seen: set<nat>, b: Buffer): Option<seq<Slot>>
    requires |slots| == |d.fields|
    decreases d, 1, |b|
  {
    if b == [] then Finish(d, slots, seen)
    else match Varint32At(b)
      case None => if |b| <= 5 then Finish(d, slots, seen) else None
      case Some((key, n)) =>
        if key == 0 then Finish(d, slots, seen)
        // The terminator of an empty descriptor matches field number 0, and has no data size.
        else if d.fields == [] && key < 8 then None
        else match FindFrom(d, key / 8, 0)
          case None => (
            match SkipAt(key % 8, b[n..])
            case None => None
            case Some(k) => DecodeMessage(d, slots, seen, b[n + k..]))
          case Some(i) =>
            match DecodeField(d, slots, i, key % 8, b[n..])
            case None => None
            case Some((slots', k)) => DecodeMessage(d, slots', seen + {i}, b[n + k..])
  }

  /** pb_decode. */
  ghost function Decode(d: Descriptor, b: Buffer): Option<seq<Slot>> {
    DecodeMessage(d, Defaults(d), {}, b)
  }
}
