/** Version edits as bytes (db/version_edit.cc). */
module VersionEdits {
  import opened Options
  import opened Coding
  import opened Files

  datatype FileMeta = FileMeta(number: nat, size: nat, smallest: Buffer, largest: Buffer)

  datatype Edit = Edit(
    comparator: Option<Buffer>,
    logNumber: Option<nat>,
    prevLogNumber: Option<nat>,
    nextFile: Option<nat>,
    lastSequence: Option<nat>,
    compactPointers: seq<(nat, Buffer)>,
    deleted: set<(nat, nat)>,
    added: seq<(nat, FileMeta)>)

  const EMPTY: Edit := Edit(None, None, None, None, None, [], {}, [])

  /** One tagged item of the encoding. */
  datatype Item =
    | Comparator(name: Buffer)
    | LogNumber(n: nat)
    | NextFile(n: nat)
    | LastSequence(n: nat)
    | CompactPointer(level: nat, key: Buffer)
    | DeletedFile(level: nat, number: nat)
    | NewFile(level: nat, meta: FileMeta)
    | PrevLogNumber(n: nat)

  function TagOf(item: Item): nat {
    match item
    case Comparator(_) => 1 case LogNumber(_) => 2 case NextFile(_) => 3 case LastSequence(_) => 4
    case CompactPointer(_, _) => 5 case DeletedFile(_, _) => 6 case NewFile(_, _) => 7 case PrevLogNumber(_) => 9
  }

  /** The part of an item after its tag. */
  function BodyOf(item: Item): Buffer {
    match item
    case Comparator(name) => LengthPrefixed(name)
    case LogNumber(n) => Varint(n)
    case NextFile(n) => Varint(n)
    case LastSequence(n) => Varint(n)
    case CompactPointer(level, key) => Varint(level) + LengthPrefixed(key)
    case DeletedFile(level, number) => Varint(level) + Varint(number)
    case NewFile(level, f) => Varint(level) +
        (Varint(f.number) + (Varint(f.size) + (LengthPrefixed(f.smallest) + LengthPrefixed(f.largest))))
    case PrevLogNumber(n) => Varint(n)
  }

  function ItemBytes(item: Item): Buffer { Varint(TagOf(item)) + BodyOf(item) }

  ghost predicate Fits(item: Item) {
    match item
    case Comparator(name) => |name| < WORD32
    case LogNumber(n) => n < WORD64
    case NextFile(n) => n < WORD64
    case LastSequence(n) => n < WORD64
    case CompactPointer(level, key) => level < NUM_LEVELS && |key| < WORD32
    case DeletedFile(level, number) => level < NUM_LEVELS && number < WORD64
    case NewFile(level, f) => level < NUM_LEVELS && f.number < WORD64 && f.size < WORD64 && |f.smallest| < WORD32
        && |f.largest| < WORD32
    case PrevLogNumber(n) => n < WORD64
  }

  // ---------- writing ----------

  function OfOption<T>(o: Option<T>, item: T -> Item): seq<Item> { if o.Some? then [item(o.value)] else [] }

  function PointerItems(ps: seq<(nat, Buffer)>): seq<Item> {
    seq(|ps|, i requires 0 <= i < |ps| => CompactPointer(ps[i].0, ps[i].1))
  }

  function DeletedItems(ds: seq<(nat, nat)>): seq<Item> {
    seq(|ds|, i requires 0 <= i < |ds| => DeletedFile(ds[i].0, ds[i].1))
  }

  function AddedItems(fs: seq<(nat, FileMeta)>): seq<Item> {
    seq(|fs|, i requires 0 <= i < |fs| => NewFile(fs[i].0, fs[i].1))
  }

  /** The five optional items, in writing order. */
  function Scalars(e: Edit): seq<Item> {
    OfOption(e.comparator, n => Comparator(n)) + OfOption(e.logNumber, n => LogNumber(n)) + OfOption(e.prevLogNumber,
        n => PrevLogNumber(n))
    + OfOption(e.nextFile, n => NextFile(n)) + OfOption(e.lastSequence, n => LastSequence(n))
  }

  /** The items in the order EncodeTo writes them; `ds` lists the deleted files in the order of their set. */
  function ItemsOf(e: Edit, ds: seq<(nat, nat)>): seq<Item> {
    Scalars(e) + PointerItems(e.compactPointers) + DeletedItems(ds) + AddedItems(e.added)
  }

  function ItemsBytes(items: seq<Item>): Buffer {
    if items == [] then [] else ItemBytes(items[0]) + ItemsBytes(items[1..])
  }

  lemma {:induction false} ItemsBytesJoin(a: seq<Item>, b: seq<Item>)
    ensures ItemsBytes(a + b) == ItemsBytes(a) + ItemsBytes(b)
  {
    hide ItemBytes;
    if a == [] {
      assert a + b == b;
    } else {
      ItemsBytesJoin(a[1..], b);
      assert (a + b)[1..] == a[1..] + b;
      Associates(ItemBytes(a[0]), ItemsBytes(a[1..]), ItemsBytes(b));
    }
  }

  lemma OneItemBytes(item: Item)
    ensures ItemsBytes([item]) == ItemBytes(item)
  {
    hide ItemBytes;
    assert [item][1..] == [] && ItemsBytes([]) == [];
    assert ItemBytes(item) + [] == ItemBytes(item);
  }

  /** One more item at the end of what is written. */
  lemma Append(done: seq<Item>, item: Item)
    ensures ItemsBytes(done + [item]) == ItemsBytes(done) + ItemBytes(item)
  {
    hide ItemBytes;
    hide ItemsBytes;
    ItemsBytesJoin(done, [item]);
    OneItemBytes(item);
  }

  method PutOption(dst: Buffer, items: seq<Item>, ghost done: seq<Item>) returns (r: Buffer)
    requires |items| <= 1 && dst == ItemsBytes(done)
    ensures r == ItemsBytes(done + items)
  {
    hide ItemBytes;
    hide ItemsBytes;
    r := dst;
    if |items| > 0 {
      Append(done, items[0]);
      assert items == [items[0]];
      r := r + ItemBytes(items[0]);
    } else {
      assert done + items == done;
    }
  }

  /** VersionEdit::EncodeTo. */
  method EncodeTo(e: Edit, ds: seq<(nat, nat)>) returns (dst: Buffer)
    ensures dst == ItemsBytes(ItemsOf(e, ds))
  {
    hide ItemBytes;
    hide ItemsBytes;
    assert ItemsBytes([]) == [] by { NoItems(); }
    var a, b, c := OfOption(e.comparator, n => Comparator(n)), OfOption(e.logNumber, n => LogNumber(n)),
        OfOption(e.prevLogNumber, n => PrevLogNumber(n));
    var d, f := OfOption(e.nextFile, n => NextFile(n)), OfOption(e.lastSequence, n => LastSequence(n));
    dst := PutOption([], a, []);
    assert [] + a == a;
    dst := PutOption(dst, b, a);
    dst := PutOption(dst, c, a + b);
    dst := PutOption(dst, d, a + b + c);
    dst := PutOption(dst, f, a + b + c + d);
    var ps, del, add := PointerItems(e.compactPointers), DeletedItems(ds), AddedItems(e.added);
    dst := PutItems(dst, ps, Scalars(e));
    dst := PutItems(dst, del, Scalars(e) + ps);
    dst := PutItems(dst, add, Scalars(e) + ps + del);
  }

  lemma NoItems()
    ensures ItemsBytes([]) == []
  {
  }

  method PutItems(dst: Buffer, items: seq<Item>, ghost done: seq<Item>) returns (r: Buffer)
    requires dst == ItemsBytes(done)
    ensures r == ItemsBytes(done + items)
  {
    hide ItemBytes;
    hide ItemsBytes;
    r := dst;
    assert done + items[..0] == done;
    for i := 0 to |items|
      invariant r == ItemsBytes(done + items[..i])
    {
      Append(done + items[..i], items[i]);
      assert done + items[..i] + [items[i]] == done + items[..i + 1];
      r := r + ItemBytes(items[i]);
    }
    assert done + items[..|items|] == done + items;
  }

  // ---------- reading ----------

  /** A value and the bytes after it. */
  type Parsed<T> = Option<(T, Buffer)>

  function Number32(b: Buffer): (r: Parsed<nat>)
    ensures r.Some? ==> |r.value.1| < |b|
  {
    match Varint32At(b)
    case None => None
    case Some((v, n)) => Some((v, b[n..]))
  }

  function Number64(b: Buffer): (r: Parsed<nat>)
    ensures r.Some? ==> |r.value.1| < |b|
  {
    match Varint64At(b)
    case None => None
    case Some((v, n)) => Some((v, b[n..]))
  }

  function Text(b: Buffer): (r: Parsed<Buffer>)
    ensures r.Some? ==> |r.value.1| < |b|
  {
    VarintFits(b, 5);
    PrefixedAt(b)
  }

  /** GetLevel. */
  function Level(b: Buffer): (r: Parsed<nat>)
    ensures r.Some? ==> |r.value.1| < |b|
  {
    match Number32(b)
    case None => None
    case Some((v, rest)) => if v < NUM_LEVELS then Some((v, rest)) else None
  }

  function FileAt(b: Buffer): (r: Parsed<FileMeta>)
    ensures r.Some? ==> |r.value.1| < |b|
  {
    match Number64(b)
    case None => None
    case Some((number, b1)) =>
      match Number64(b1)
      case None => None
      case Some((size, b2)) =>
        match Text(b2)
        case None => None
        case Some((smallest, b3)) =>
          match Text(b3)
          case None => None
          case Some((largest, b4)) => Some((FileMeta(number, size, smallest, largest), b4))
  }

  function Mapped<S, T>(r: Parsed<S>, f: S -> T): Parsed<T> {
    match r
    case None => None
    case Some((v, rest)) => Some((f(v), rest))
  }

  /** The item with the given tag. */
  function ItemAt(tag: nat, b: Buffer): (r: Parsed<Item>)
    ensures r.Some? ==> |r.value.1| <= |b|
  {
    if tag == 1 then Mapped(Text(b), v => Comparator(v))
    else if tag == 2 then Mapped(Number64(b), v => LogNumber(v))
    else if tag == 3 then Mapped(Number64(b), v => NextFile(v))
    else if tag == 4 then Mapped(Number64(b), v => LastSequence(v))
    else if tag == 5 then match Level(b)
      case None => None
      case Some((level, rest)) => Mapped(Text(rest), v => CompactPointer(level, v))
    else if tag == 6 then match Level(b)
      case None => None
      case Some((level, rest)) => Mapped(Number64(rest), v => DeletedFile(level, v))
    else if tag == 7 then match Level(b)
      case None => None
      case Some((level, rest)) => Mapped(FileAt(rest), v => NewFile(level, v))
    else if tag == 9 then Mapped(Number64(b), v => PrevLogNumber(v))
    else None
  }

  function Add(e: Edit, item: Item): Edit {
    match item
    case Comparator(name) => e.(comparator := Some(name))
    case LogNumber(n) => e.(logNumber := Some(n))
    case NextFile(n) => e.(nextFile := Some(n))
    case LastSequence(n) => e.(lastSequence := Some(n))
    case CompactPointer(level, key) => e.(compactPointers := e.compactPointers + [(level, key)])
    case DeletedFile(level, number) => e.(deleted := e.deleted + {(level, number)})
    case NewFile(level, f) => e.(added := e.added + [(level, f)])
    case PrevLogNumber(n) => e.(prevLogNumber := Some(n))
  }

  /** What the rest of the input adds to `e`; None is corruption. */
  function DecodeRest(e: Edit, b: Buffer): Option<Edit>
    decreases |b|
  {
    match Number32(b)
    case None => if b == [] then Some(e) else None
    case Some((tag, b1)) =>
      match ItemAt(tag, b1)
      case None => None
      case Some((item, b2)) => DecodeRest(Add(e, item), b2)
  }

  /** VersionEdit::DecodeFrom. */
  method DecodeFrom(src: Buffer) returns (r: Option<Edit>)
    ensures r == DecodeRest(EMPTY, src)
  {
    hide ItemAt;
    hide Add;
    hide Number32;
    var e, input := EMPTY, src;
    var tag := Number32(input);
    while tag.Some?
      invariant tag == Number32(input) && DecodeRest(e, input) == DecodeRest(EMPTY, src)
      decreases |input|
    {
      var item := ItemAt(tag.value.0, tag.value.1);
      if item.None? {
        return None;
      }
      e, input := Add(e, item.value.0), item.value.1;
      tag := Number32(input);
    }
    r := if |input| > 0 then None else Some(e);
  }

  // ---------- round trip ----------

  lemma Number32Back(v: nat, rest: Buffer)
    requires v < WORD32
    ensures Number32(Varint(v) + rest) == Some((v, rest))
  {
    Varint32Back(v, rest);
    assert (Varint(v) + rest)[|Varint(v)|..] == rest;
  }

  lemma Number64Back(v: nat, rest: Buffer)
    requires v < WORD64
    ensures Number64(Varint(v) + rest) == Some((v, rest))
  {
    Varint64Back(v, rest);
    assert (Varint(v) + rest)[|Varint(v)|..] == rest;
  }

  lemma FileBack(f: FileMeta, rest: Buffer)
    requires f.number < WORD64 && f.size < WORD64 && |f.smallest| < WORD32 && |f.largest| < WORD32
    ensures FileAt(Varint(f.number) +
            (Varint(f.size) + (LengthPrefixed(f.smallest) + (LengthPrefixed(f.largest) + rest)))) == Some((f, rest))
  {
    hide Number64;
    hide PrefixedAt;
    hide LengthPrefixed;
    hide Varint;
    Number64Back(f.number, Varint(f.size) + (LengthPrefixed(f.smallest) + (LengthPrefixed(f.largest) + rest)));
    Number64Back(f.size, LengthPrefixed(f.smallest) + (LengthPrefixed(f.largest) + rest));
    PrefixedRoundTrip(f.smallest, LengthPrefixed(f.largest) + rest);
    PrefixedRoundTrip(f.largest, rest);
  }

  lemma ItemBack(item: Item, rest: Buffer)
    requires Fits(item)
    ensures ItemAt(TagOf(item), BodyOf(item) + rest) == Some((item, rest))
  {
    hide Number64;
    hide Number32;
    hide PrefixedAt;
    hide LengthPrefixed;
    hide Varint;
    hide FileAt;
    match item
    case Comparator(name) => PrefixedRoundTrip(name, rest);
    case LogNumber(n) => Number64Back(n, rest);
    case NextFile(n) => Number64Back(n, rest);
    case LastSequence(n) => Number64Back(n, rest);
    case PrevLogNumber(n) => Number64Back(n, rest);
    case CompactPointer(level, key) =>
      assert BodyOf(item) + rest == Varint(level) + (LengthPrefixed(key) + rest);
      Number32Back(level, LengthPrefixed(key) + rest);
      PrefixedRoundTrip(key, rest);
    case DeletedFile(level, number) =>
      assert BodyOf(item) + rest == Varint(level) + (Varint(number) + rest);
      Number32Back(level, Varint(number) + rest);
      Number64Back(number, rest);
    case NewFile(level, f) =>
      var body := Varint(f.number) +
          (Varint(f.size) + (LengthPrefixed(f.smallest) + (LengthPrefixed(f.largest) + rest)));
      assert BodyOf(item) + rest == Varint(level) + body;
      Number32Back(level, body);
      FileBack(f, rest);
  }

  function AddAll(e: Edit, items: seq<Item>): Edit
    decreases |items|
  {
    if items == [] then e else AddAll(Add(e, items[0]), items[1..])
  }

  lemma {:induction false} ItemsBack(e: Edit, items: seq<Item>)
    requires forall i :: 0 <= i < |items| ==> Fits(items[i])
    ensures DecodeRest(e, ItemsBytes(items)) == Some(AddAll(e, items))
    decreases |items|
  {
    hide ItemAt;
    hide Add;
    hide Number32;
    if items == [] {
      EmptyInput();
    } else {
      var rest := ItemsBytes(items[1..]);
      TagFirst(items[0], rest);
      Number32Back(TagOf(items[0]), BodyOf(items[0]) + rest);
      ItemBack(items[0], rest);
      ItemsBack(Add(e, items[0]), items[1..]);
    }
  }

  lemma EmptyInput()
    ensures Number32([]) == None
  {
  }

  lemma TagFirst(item: Item, rest: Buffer)
    ensures ItemBytes(item) + rest == Varint(TagOf(item)) + (BodyOf(item) + rest) && TagOf(item) < 10
  {
    hide Varint;
    hide LengthPrefixed;
  }

  lemma {:induction false} AddAllJoin(e: Edit, a: seq<Item>, b: seq<Item>)
    ensures AddAll(e, a + b) == AddAll(AddAll(e, a), b)
    decreases |a|
  {
    hide Add;
    if a == [] {
      assert a + b == b;
    } else {
      assert (a + b)[1..] == a[1..] + b;
      AddAllJoin(Add(e, a[0]), a[1..], b);
    }
  }

  lemma AddOne(e: Edit, item: Item)
    ensures AddAll(e, [item]) == Add(e, item)
  {
    hide Add;
    assert [item][1..] == [];
  }

  lemma {:induction false} AddPointers(e: Edit, ps: seq<(nat, Buffer)>)
    ensures AddAll(e, PointerItems(ps)) == e.(compactPointers := e.compactPointers + ps)
    decreases |ps|
  {
    if ps == [] {
      assert e.compactPointers + ps == e.compactPointers;
    } else {
      AddPointers(Add(e, CompactPointer(ps[0].0, ps[0].1)), ps[1..]);
      assert PointerItems(ps)[1..] == PointerItems(ps[1..]);
      assert e.compactPointers + [(ps[0].0, ps[0].1)] + ps[1..] == e.compactPointers + ps;
    }
  }

  lemma {:induction false} AddDeleted(e: Edit, ds: seq<(nat, nat)>)
    ensures AddAll(e, DeletedItems(ds)) == e.(deleted := e.deleted + set d | d in ds)
    decreases |ds|
  {
    if ds == [] {
      assert e.deleted + (set d | d in ds) == e.deleted;
    } else {
      AddDeleted(Add(e, DeletedFile(ds[0].0, ds[0].1)), ds[1..]);
      assert DeletedItems(ds)[1..] == DeletedItems(ds[1..]);
      assert e.deleted + {(ds[0].0, ds[0].1)} + (set d | d in ds[1..]) == e.deleted + set d | d in ds by {
        assert ds == [ds[0]] + ds[1..];
      }
    }
  }

  lemma {:induction false} AddAdded(e: Edit, fs: seq<(nat, FileMeta)>)
    ensures AddAll(e, AddedItems(fs)) == e.(added := e.added + fs)
    decreases |fs|
  {
    if fs == [] {
      assert e.added + fs == e.added;
    } else {
      AddAdded(Add(e, NewFile(fs[0].0, fs[0].1)), fs[1..]);
      assert AddedItems(fs)[1..] == AddedItems(fs[1..]);
      assert e.added + [(fs[0].0, fs[0].1)] + fs[1..] == e.added + fs;
    }
  }

  lemma AddOption(e: Edit, items: seq<Item>)
    requires |items| <= 1
    ensures AddAll(e, items) == if items == [] then e else Add(e, items[0])
  {
    hide Add;
    if items != [] {
      assert items == [items[0]];
      AddOne(e, items[0]);
    }
  }

  lemma AddScalars(e: Edit)
    ensures AddAll(EMPTY, Scalars(e)) == e.(compactPointers := [], deleted := {}, added := [])
  {
    hide AddAll;
    var a, b, c := OfOption(e.comparator, n => Comparator(n)), OfOption(e.logNumber, n => LogNumber(n)),
        OfOption(e.prevLogNumber, n => PrevLogNumber(n));
    var d, f := OfOption(e.nextFile, n => NextFile(n)), OfOption(e.lastSequence, n => LastSequence(n));
    AddAllJoin(EMPTY, a + b + c + d, f);
    AddAllJoin(EMPTY, a + b + c, d);
    AddAllJoin(EMPTY, a + b, c);
    AddAllJoin(EMPTY, a, b);
    var e1 := EMPTY.(comparator := e.comparator);
    var e2 := e1.(logNumber := e.logNumber);
    var e3 := e2.(prevLogNumber := e.prevLogNumber);
    var e4 := e3.(nextFile := e.nextFile);
    AddOption(EMPTY, a);
    AddOption(e1, b);
    AddOption(e2, c);
    AddOption(e3, d);
    AddOption(e4, f);
  }

  /** Decoding an encoded edit gives it back, whatever the order its deleted files were listed in. */
  lemma EditRoundTrip(e: Edit, ds: seq<(nat, nat)>)
    requires (set d | d in ds) == e.deleted && forall i :: 0 <= i < |ItemsOf(e, ds)| ==> Fits(ItemsOf(e, ds)[i])
    ensures DecodeRest(EMPTY, ItemsBytes(ItemsOf(e, ds))) == Some(e)
  {
    hide DecodeRest;
    hide AddAll;
    hide ItemsBytes;
    hide Fits;
    ItemsBack(EMPTY, ItemsOf(e, ds));
    var e1 := e.(compactPointers := [], deleted := {}, added := []);
    AddScalars(e);
    AddAllJoin(EMPTY, Scalars(e) + PointerItems(e.compactPointers) + DeletedItems(ds), AddedItems(e.added));
    AddAllJoin(EMPTY, Scalars(e) + PointerItems(e.compactPointers), DeletedItems(ds));
    AddAllJoin(EMPTY, Scalars(e), PointerItems(e.compactPointers));
    AddPointers(e1, e.compactPointers);
    AddDeleted(e1.(compactPointers := e.compactPointers), ds);
    AddAdded(e1.(compactPointers := e.compactPointers, deleted := e.deleted), e.added);
    assert [] + e.compactPointers == e.compactPointers && [] + e.added == e.added && {} + e.deleted == e.deleted;
  }
}
