/** The forms in which an array may arrive: packed lists and single items, in any mixture.  The encoder writes one
    packed list where it can; the decoder takes every form for the same array. */
module PbArrays {
  import opened Options
  import opened Coding
  import opened PbMessages
  import opened PbEncoding
  import opened PbDecoding
  import opened PbRoundTrip

  datatype Chunk = List(items: seq<Value>) | Single(item: Value) {
    function Items(): seq<Value> { if List? then items else [item] }
  }

  function ItemsIn(chunks: seq<Chunk>): seq<Value> {
    if chunks == [] then [] else chunks[0].Items() + ItemsIn(chunks[1..])
  }

  /** The bytes of one chunk. */
  function ChunkBytes(f: Field, c: Chunk): Option<Buffer>
    requires forall i :: 0 <= i < |c.Items()| ==> Typed(f.kind, c.Items()[i])
  {
    match c
    case List(items) =>
      assert c.Items() == items;
      var b := PackedFrom(f, items, 0);
      if b.Some? then Some(TagBytes(f.tag, WT_STRING) + LengthPrefixed(b.value)) else None
    case Single(item) =>
      assert c.Items()[0] == item;
      Tagged(f, EncodeValue(f.kind, item))
  }

  ghost predicate ChunkOk(f: Field, c: Chunk) {
    ItemsCanReturn(f.kind, c.Items()) && ChunkBytes(f, c).Some? && |ChunkBytes(f, c).value| < WORD32
  }

  ghost predicate ChunksOk(f: Field, chunks: seq<Chunk>) {
    forall i {:trigger chunks[i]} :: 0 <= i < |chunks| ==> ChunkOk(f, chunks[i])
  }

  function AllBytes(f: Field, chunks: seq<Chunk>): Buffer
    requires ChunksOk(f, chunks)
  {
    if chunks == [] then [] else ChunkBytes(f, chunks[0]).value + AllBytes(f, chunks[1..])
  }

  /** One chunk adds its items, or is refused if the array has no room for them. */
  lemma ChunkBack(d: Descriptor, slots: seq<Slot>, i: nat, before: seq<Value>, c: Chunk, seen: set<nat>, rest: Buffer)
    requires Good(d) && i < |slots| == |d.fields| && slots[i] == Items(before) && d.fields[i].rule.Repeated?
    requires Packable(d.fields[i].kind) && |before| <= d.fields[i].rule.capacity && ChunkOk(d.fields[i], c)
    ensures DecodeMessage(d, slots, seen, ChunkBytes(d.fields[i], c).value + rest) ==
            if |before| + |c.Items()| <= d.fields[i].rule.capacity
            then DecodeMessage(d, slots[i := Items(before + c.Items())], seen + {i}, rest)
            else None
  {
    hide DecodeMessage;
    hide Good;
    hide EncodeValue;
    var f := d.fields[i];
    match c
    case List(items) => PackedListBack(d, slots, i, before, items, seen, rest);
    case Single(item) =>
      assert c.Items()[0] == item;
      SingleItemBack(d, slots, i, before, item, seen, rest);
  }

  lemma SingleItemBack(d: Descriptor, slots: seq<Slot>, i: nat, before: seq<Value>, v: Value, seen: set<nat>,
                       rest: Buffer)
    requires Good(d) && i < |slots| == |d.fields| && slots[i] == Items(before) && d.fields[i].rule.Repeated?
    requires Packable(d.fields[i].kind) && |before| <= d.fields[i].rule.capacity && CanReturn(d.fields[i].kind, v)
    ensures DecodeMessage(d, slots, seen, Tagged(d.fields[i], EncodeValue(d.fields[i].kind, v)).value + rest) ==
            if |before| < d.fields[i].rule.capacity
            then DecodeMessage(d, slots[i := Items(before + [v])], seen + {i}, rest)
            else None
  {
    hide DecodeMessage;
    hide Good;
    hide EncodeValue;
    hide DecodeValue;
    if |before| < d.fields[i].rule.capacity {
      ItemBack(d, slots, i, before, v, seen, rest);
    } else {
      NoMoreItems(d, slots, i, v, seen, rest);
    }
  }

  /** Any chunks one after the other add all their items, in order, if there is room for all; else the message is
      refused. */
  lemma {:induction false} ChunksBack(d: Descriptor, slots: seq<Slot>, i: nat, before: seq<Value>, chunks: seq<Chunk>,
                                      seen: set<nat>, rest: Buffer)
    requires Good(d) && i < |slots| == |d.fields| && slots[i] == Items(before) && d.fields[i].rule.Repeated?
    requires Packable(d.fields[i].kind) && |before| <= d.fields[i].rule.capacity && ChunksOk(d.fields[i], chunks)
    ensures var all := before + ItemsIn(chunks);
            DecodeMessage(d, slots, seen, AllBytes(d.fields[i], chunks) + rest) ==
            if |all| <= d.fields[i].rule.capacity
            then DecodeMessage(d, slots[i := Items(all)], if chunks == [] then seen else seen + {i}, rest)
            else None
    decreases |chunks|
  {
    hide DecodeMessage;
    hide Good;
    hide ChunkBytes;
    var f := d.fields[i];
    if chunks == [] {
      assert [] + rest == rest && before + [] == before && slots[i := slots[i]] == slots;
    } else {
      var c, later := chunks[0], chunks[1..];
      var b, more := ChunkBytes(f, c).value, AllBytes(f, later);
      assert b + more + rest == b + (more + rest);
      ChunkBack(d, slots, i, before, c, seen, more + rest);
      assert before + (c.Items() + ItemsIn(later)) == before + c.Items() + ItemsIn(later);
      if |before| + |c.Items()| <= f.rule.capacity {
        var slots' := slots[i := Items(before + c.Items())];
        ChunksBack(d, slots', i, before + c.Items(), later, seen + {i}, rest);
        assert slots'[i := Items(before + ItemsIn(chunks))] == slots[i := Items(before + ItemsIn(chunks))];
        assert seen + {i} + {i} == seen + {i};
      }
    }
  }

  /** So the form does not matter: chunks with the same items decode alike, whatever came before and comes after. */
  lemma FormsAgree(d: Descriptor, slots: seq<Slot>, i: nat, before: seq<Value>, a: seq<Chunk>, b: seq<Chunk>,
                   seen: set<nat>, rest: Buffer)
    requires Good(d) && i < |slots| == |d.fields| && slots[i] == Items(before) && d.fields[i].rule.Repeated?
    requires Packable(d.fields[i].kind) && |before| <= d.fields[i].rule.capacity
    requires ChunksOk(d.fields[i], a) && ChunksOk(d.fields[i], b) && a != [] && b != [] && ItemsIn(a) == ItemsIn(b)
    ensures DecodeMessage(d, slots, seen, AllBytes(d.fields[i], a) + rest) ==
            DecodeMessage(d, slots, seen, AllBytes(d.fields[i], b) + rest)
  {
    hide DecodeMessage;
    hide Good;
    hide ChunksOk;
    hide AllBytes;
    ChunksBack(d, slots, i, before, a, seen, rest);
    ChunksBack(d, slots, i, before, b, seen, rest);
  }
}
