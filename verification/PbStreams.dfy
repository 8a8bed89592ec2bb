/** Input streams and the field iterator of nanopb (pb_decode.c, pb_common.c). */
module PbStreams {
  import opened Options
  import opened Coding
  import opened PbMessages
  import opened PbDecoding

  class InputStream {
    const bytes: Buffer
    var at: nat       // state
    var left: nat     // bytes_left

    ghost predicate Valid()
      reads this
    {
      at + left <= |bytes|
    }

    ghost function Rest(): Buffer
      reads this
      requires Valid()
    {
      bytes[at..at + left]
    }

    constructor (bytes: Buffer, at: nat, left: nat)
      requires at + left <= |bytes|
      ensures Valid() && this.bytes == bytes && this.at == at && this.left == left
    {
      this.bytes, this.at, this.left := bytes, at, left;
    }

    /** pb_read. */
    method Read(n: nat) returns (r: Option<Buffer>)
      requires Valid()
      modifies this
      ensures Valid() && r.Some? == (n <= old(left))
      ensures r.Some? ==>
              r.value == old(Rest())[..n] && at == old(at) + n && left == old(left) - n && Rest() == old(Rest())[n..]
      ensures r.None? ==> at == old(at) && left == old(left)
    {
      if left < n {
        return None;
      }
      r := Some(bytes[at..at + n]);
      at, left := at + n, left - n;
    }

    /** pb_readbyte. */
    method ReadByte() returns (r: Option<Byte>)
      requires Valid()
      modifies this
      ensures Valid() && r.Some? == (old(left) > 0)
      ensures r.Some? ==>
              r.value == old(Rest())[0] && at == old(at) + 1 && left == old(left) - 1 && Rest() == old(Rest())[1..]
      ensures r.None? ==> at == old(at) && left == old(left)
    {
      if left == 0 {
        return None;
      }
      r := Some(bytes[at]);
      at, left := at + 1, left - 1;
    }

    /** pb_decode_varint and pb_decode_varint32: bits that leave the word are lost. */
    method DecodeVarint(word: nat, limit: nat) returns (r: Option<nat>)
      requires Valid() && word > 0
      modifies this
      ensures Valid()
      ensures var spec := Truncated(VarintAt(old(Rest()), limit), word);
              && r.Some? == spec.Some?
              && (r.Some? ==>
                  r.value == spec.value.0 && spec.value.1 <= old(left) && at == old(at) + spec.value.1
                  && left == old(left) - spec.value.1)
      ensures r.None? ==> left == if old(left) <= limit then 0 else old(left) - limit
      ensures at + left == old(at) + old(left)
    {
      ghost var start := Rest();
      DecodeStarts(start, word, limit);
      var result: nat, scale: nat, p: nat := 0, 1, 0;
      while true
        invariant p <= limit && p <= |start| && at == old(at) + p && left == old(left) - p && Valid()
        invariant Longer(DecodeFrom(Rest(), word, limit - p, result, scale), p) == DecodeFrom(start, word, limit, 0, 1)
        decreases limit - p
      {
        if p >= limit {
          return None;
        }
        var byte := ReadByte();
        if byte.None? {
          return None;
        }
        result := ShiftIn(result, byte.value, scale, word);
        scale := scale * 128;
        p := p + 1;
        if byte.value < 128 {
          return Some(result);
        }
      }
    }

    /** pb_skip_varint. */
    method SkipVarint() returns (ok: bool)
      requires Valid()
      modifies this
      ensures Valid()
      ensures var spec := PbDecoding.SkipVarint(old(Rest()));
              ok == spec.Some? && (ok ==> at == old(at) + spec.value && left == old(left) - spec.value)
      ensures at + left == old(at) + old(left)
    {
      ghost var start := Rest();
      ghost var p: nat := 0;
      while true
        invariant Valid() && p <= |start| && at == old(at) + p && left == old(left) - p
        invariant var rest := PbDecoding.SkipVarint(Rest());
                  PbDecoding.SkipVarint(start) == if rest.Some? then Some(rest.value + p) else None
        decreases left
      {
        var byte := ReadByte();
        if byte.None? {
          return false;
        }
        p := p + 1;
        if byte.value < 128 {
          return true;
        }
      }
    }

    /** pb_make_string_substream: the parent gives up the bytes but has not moved yet. */
    method MakeSubstream() returns (sub: InputStream?)
      requires Valid()
      modifies this
      ensures Valid() && (sub != null) == StringAt(old(Rest())).Some?
      ensures sub == null ==> at + left == old(at) + old(left)
      ensures sub != null ==> fresh(sub) && sub.Valid() && sub.bytes == bytes && sub.at == at
      ensures sub != null ==>
                var spec := StringAt(old(Rest())).value;
                sub.Rest() == spec.0 && sub.at + sub.left == old(at) + spec.1 && left == old(left) - spec.1
                    && at + sub.left + left <= |bytes|
    {
      hide VarintAt;
      ghost var at0, left0 := at, left;
      var size := DecodeVarint(WORD32, 5);
      if size.None? || left < size.value {
        return null;
      }
      SliceOfSlice(bytes, at0, at0 + left0, at - at0, at - at0 + size.value);
      sub := new InputStream(bytes, at, size.value);
      left := left - size.value;
    }

    /** pb_close_string_substream. */
    method CloseSubstream(sub: InputStream)
      requires Valid() && sub.Valid() && sub != this && sub.bytes == bytes && sub.at + sub.left + left <= |bytes|
      modifies this, sub
      ensures Valid() && at == old(sub.at) + old(sub.left) && left == old(left)
    {
      if sub.left > 0 {
        var skipped := sub.Read(sub.left);
      }
      at := sub.at;
    }

    /** pb_skip_field. */
    method SkipField(wireType: nat) returns (ok: bool)
      requires Valid()
      modifies this
      ensures Valid()
      ensures var spec := SkipAt(wireType, old(Rest()));
              ok == spec.Some? && (ok ==> at == old(at) + spec.value && left == old(left) - spec.value)
      ensures at + left == old(at) + old(left)
    {
      if wireType == WT_VARINT {
        ok := SkipVarint();
      } else if wireType == WT_64BIT {
        var skipped := Read(8);
        ok := skipped.Some?;
      } else if wireType == WT_STRING {
        var size := DecodeVarint(WORD32, 5);
        if size.None? {
          return false;
        }
        var skipped := Read(size.value);
        ok := skipped.Some?;
      } else if wireType == WT_32BIT {
        var skipped := Read(4);
        ok := skipped.Some?;
      } else {
        ok := false;
      }
    }
  }

  // ---------- the field iterator ----------

  function RequiredBefore(d: Descriptor, n: nat): nat
    requires n <= |d.fields|
  {
    if n == 0 then 0 else RequiredBefore(d, n - 1) + if d.fields[n - 1].rule.Required? then 1 else 0
  }

  /** pb_field_iter_t: it wraps around at the end of the descriptor. */
  class FieldIter {
    const d: Descriptor
    var pos: nat
    var required: nat   // required_field_index

    ghost predicate Valid()
      reads this
    {
      (pos < |d.fields| || (pos == 0 && d.fields == [])) && required == RequiredBefore(d, pos)
    }

    constructor (d: Descriptor)
      ensures Valid() && this.d == d && pos == 0
    {
      this.d, pos, required := d, 0, 0;
    }

    /** pb_field_iter_next. */
    method Next() returns (more: bool)
      requires Valid()
      modifies this
      ensures Valid() && more == (old(pos) + 1 < |d.fields|) && pos == if more then old(pos) + 1 else 0
    {
      if |d.fields| == 0 {
        return false;
      }
      if pos + 1 == |d.fields| {
        pos, required := 0, 0;
        return false;
      }
      if d.fields[pos].rule.Required? {
        required := required + 1;
      }
      pos := pos + 1;
      return true;
    }

    /** Where the iterator is after `k` steps from `start`. */
    static function Ahead(start: nat, k: nat, n: nat): nat {
      if start + k < n then start + k else if start + k < 2 * n then start + k - n else 0
    }

    /** pb_field_iter_find: once around from where it stands. */
    method Find(tag: nat) returns (found: bool)
      requires Valid() && Good(d) && d.fields != []
      modifies this
      ensures Valid() && found == FindFrom(d, tag, 0).Some? && (found ==> Some(pos) == FindFrom(d, tag, 0))
    {
      var start, n := pos, |d.fields|;
      ghost var k: nat := 0;
      while true
        invariant Valid() && k < n && pos == Ahead(start, k, n)
        invariant forall j :: 0 <= j < k ==> d.fields[Ahead(start, j, n)].tag != tag
        decreases n - k
      {
        if d.fields[pos].tag == tag {
          FindIsUnique(d, tag, pos);
          return true;
        }
        var more := Next();
        k := k + 1;
        if pos == start {
          assert k == n;
          AroundIsAll(d, tag, start);
          return false;
        }
      }
    }
  }

  lemma FindIsUnique(d: Descriptor, tag: nat, i: nat)
    requires Good(d) && i < |d.fields| && d.fields[i].tag == tag
    ensures FindFrom(d, tag, 0) == Some(i)
  {
    var j := FindFrom(d, tag, 0);
    assert j.Some?;
  }

  lemma AroundIsAll(d: Descriptor, tag: nat, start: nat)
    requires start < |d.fields|
    requires forall j :: 0 <= j < |d.fields| ==> d.fields[FieldIter.Ahead(start, j, |d.fields|)].tag != tag
    ensures FindFrom(d, tag, 0).None?
  {
    var n := |d.fields|;
    forall i | 0 <= i < n ensures d.fields[i].tag != tag {
      var j := if i >= start then i - start else i + n - start;
      assert FieldIter.Ahead(start, j, n) == i;
    }
  }
}
