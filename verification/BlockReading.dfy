/** Block and Block::Iter (table/block.cc). */
module BlockReading {
  import opened Options
  import opened Coding
  import opened BlockFormat

  // ---------- one entry ----------

  datatype Decoded = Decoded(shared: nat, nonShared: nat, valueSize: nat, used: nat)

  /** The three lengths at the start of an entry, if the entry fits. */
  function EntryAt(b: Buffer): (r: Option<Decoded>)
    ensures r.Some? ==> r.value.used >= 3 && r.value.used + r.value.nonShared + r.value.valueSize <= |b|
  {
    match Varint32At(b)
    case None => None
    case Some((shared, i)) =>
      match Varint32At(b[i..])
      case None => None
      case Some((nonShared, j)) =>
        match Varint32At(b[i + j..])
        case None => None
        case Some((valueSize, k)) =>
          if |b| - (i + j + k) < nonShared + valueSize then None
          else Some(Decoded(shared, nonShared, valueSize, i + j + k))
  }

  method GetVarint32(b: Buffer) returns (r: Option<(nat, nat)>)
    ensures r == Varint32At(b)
  {
    r := GetVarint(b, WORD32, 5);
  }

  /** Decoding, with a fast path for three single-byte lengths. */
  method DecodeEntry(b: Buffer) returns (r: Option<Decoded>)
    ensures r == EntryAt(b)
  {
    hide Varint32At;
    if |b| < 3 {
      return None;
    }
    if b[0] < 128 && b[1] < 128 && b[2] < 128 {
      OneByte(b, 0);
      OneByte(b, 1);
      OneByte(b, 2);
      assert b[0..] == b;
      if |b| - 3 < b[1] + b[2] {
        return None;
      }
      return Some(Decoded(b[0], b[1], b[2], 3));
    }
    var shared := GetVarint32(b);
    if shared.None? {
      return None;
    }
    var rest := b[shared.value.1..];
    var nonShared := GetVarint32(rest);
    if nonShared.None? {
      return None;
    }
    assert rest[nonShared.value.1..] == b[shared.value.1 + nonShared.value.1..];
    rest := rest[nonShared.value.1..];
    var valueSize := GetVarint32(rest);
    if valueSize.None? {
      return None;
    }
    rest := rest[valueSize.value.1..];
    if |rest| < nonShared.value.0 + valueSize.value.0 {
      return None;
    }
    r := Some(Decoded(shared.value.0, nonShared.value.0, valueSize.value.0, |b| - |rest|));
  }

  lemma OneByte(b: Buffer, i: nat)
    requires i < |b| && b[i] < 128
    ensures Varint32At(b[i..]) == Some((b[i], 1))
  {
  }

  /** Decoding finds the lengths that were encoded. */
  lemma HeadDecodes(shared: nat, nonShared: nat, valueSize: nat, rest: Buffer)
    requires shared < WORD32 && nonShared < WORD32 && valueSize < WORD32 && nonShared + valueSize <= |rest|
    ensures EntryAt(Head(shared, nonShared, valueSize) + rest) ==
            Some(Decoded(shared, nonShared, valueSize, |Head(shared, nonShared, valueSize)|))
  {
    var a, b, c := Varint(shared), Varint(nonShared), Varint(valueSize);
    var all := Head(shared, nonShared, valueSize) + rest;
    Varint32Back(shared, b + c + rest);
    Varint32Back(nonShared, c + rest);
    Varint32Back(valueSize, rest);
    Splits(a, b, c, rest, all);
  }

  lemma Splits(a: Buffer, b: Buffer, c: Buffer, rest: Buffer, all: Buffer)
    requires all == a + b + c + rest
    ensures all == a + (b + c + rest) && all[|a|..] == b + (c + rest) && all[|a| + |b|..] == c + rest
  {
  }

  /** The key of an entry, and where its value is. */
  datatype Standing = Standing(key: Buffer, valueAt: nat, valueSize: nat)

  /** What stands at `p` in the data part of any block, behind an entry with this key. */
  function EntryBehind(data: Buffer, restarts: nat, p: nat, key: Buffer): (r: Option<Standing>)
    requires restarts <= |data|
    ensures r.Some? ==> p < r.value.valueAt && r.value.valueAt + r.value.valueSize <= restarts
  {
    if p >= restarts then None
    else
      var b := data[p..restarts];
      match EntryAt(b)
      case None => None
      case Some(d) =>
        if |key| < d.shared then None
        else Some(Standing(key[..d.shared] + b[d.used..d.used + d.nonShared], p + d.used + d.nonShared, d.valueSize))
  }

  // ---------- the trailer ----------

  datatype Trailer = Bad | NoRestarts | Trailer(restartsAt: nat, count: nat)

  /** What Block's constructor and NewIterator make of a block. */
  function ParseTrailer(data: Buffer): (r: Trailer)
    ensures r.Trailer? ==> r.count > 0 && r.restartsAt + 4 * r.count + 4 == |data|
  {
    if |data| < 4 then Bad
    else
      var count := FixedValue(data[|data| - 4..]);
      if count > (|data| - 4) / 4 then Bad
      else if count == 0 then NoRestarts
      else Trailer(|data| - (1 + count) * 4, count)
  }

  lemma FixedDecodes(v: nat)
    requires v < WORD32
    ensures FixedValue(Fixed(4, v)) == v
  {
    assert Power(256, 4) == WORD32;
    FixedRoundTrip(4, v);
  }

  lemma TrailerOfImage(es: seq<Pair>, interval: nat)
    requires |BlockImage(es, interval)| < WORD32
    ensures ParseTrailer(BlockImage(es, interval)) == Trailer(Offset(es, interval, |es|), |Restarts(es, interval)|)
  {
    hide Restarts;
    hide Data;
    hide Table;
    hide Fixed;
    hide FixedValue;
    FixedDecodes(|Restarts(es, interval)|);
    assert BlockImage(es, interval)[|BlockImage(es, interval)| - 4..] == Fixed(4, |Restarts(es, interval)|);
  }

  /** Restart point `k` of a finished block. */
  lemma RestartOfImage(es: seq<Pair>, interval: nat, k: nat)
    requires |BlockImage(es, interval)| < WORD32 && k < |Restarts(es, interval)|
    ensures Starts(interval, |es|)[k] <= |es|
    ensures var at := Offset(es, interval, |es|) + 4 * k;
            at + 4 <= |BlockImage(es, interval)| &&
            FixedValue(BlockImage(es, interval)[at..at + 4]) == Offset(es, interval, Starts(interval, |es|)[k])
  {
    hide Data;
    hide Fixed;
    hide FixedValue;
    var r := Restarts(es, interval);
    TableAt(r, k);
    DataPrefix(es, interval, Starts(interval, |es|)[k], |es|);
    FixedDecodes(r[k]);
    TableInside(Data(es, interval, |es|), Table(r), Fixed(4, |r|), k);
  }

  lemma TableInside(a: Buffer, t: Buffer, c: Buffer, k: nat)
    requires 4 * k + 4 <= |t|
    ensures (a + t + c)[|a| + 4 * k..|a| + 4 * k + 4] == t[4 * k..4 * k + 4]
  {
  }

  // ---------- positions ----------

  /** The next entry to parse is number `j`: the end of the last value is where it starts, and the
      last key is the one it shares a prefix with. */
  ghost predicate Poised(es: seq<Pair>, interval: nat, j: nat, key: Buffer, next: nat, restartIndex: nat) {
    && j <= |es| && next == Offset(es, interval, j)
    && restartIndex < |Starts(interval, |es|)| && Starts(interval, |es|)[restartIndex] <= j
    && (j < |es| && !IsRestart(interval, j) ==> j > 0 && key == es[j - 1].key)
  }

  ghost predicate AtEntry(es: seq<Pair>, interval: nat, i: nat, data: Buffer, current: nat, key: Buffer,
                          valueAt: nat, valueSize: nat, restartIndex: nat)
  {
    && i < |es| && current == Offset(es, interval, i) && key == es[i].key
    && valueAt + valueSize == Offset(es, interval, i + 1) <= |data| && data[valueAt..valueAt + valueSize] == es[i].value
    && restartIndex < |Starts(interval, |es|)| && Starts(interval, |es|)[restartIndex] <= i
  }

  lemma AtIsPoised(es: seq<Pair>, interval: nat, i: nat, data: Buffer, current: nat, key: Buffer,
                   valueAt: nat, valueSize: nat, restartIndex: nat)
    requires AtEntry(es, interval, i, data, current, key, valueAt, valueSize, restartIndex)
    ensures Poised(es, interval, i + 1, key, valueAt + valueSize, restartIndex)
  {
  }

  lemma RestartIsPoised(es: seq<Pair>, interval: nat, k: nat)
    requires k < |Starts(interval, |es|)|
    ensures Starts(interval, |es|)[k] <= |es|
    ensures Poised(es, interval, Starts(interval, |es|)[k], [], Offset(es, interval, Starts(interval, |es|)[k]), k)
  {
    StartsIncrease(interval, |es|);
  }

  /** Parsing `b` yields these parts, which take `size` bytes. */
  ghost predicate Parses(b: Buffer, shared: nat, suffix: Buffer, value: Buffer, size: nat) {
    && EntryAt(b).Some?
    && var d := EntryAt(b).value;
       && d.shared == shared && d.nonShared == |suffix| && d.valueSize == |value|
       && d.used + |suffix| + |value| == size <= |b|
       && b[d.used..d.used + |suffix|] == suffix && b[d.used + |suffix|..size] == value
  }

  lemma PartsParse(b: Buffer, shared: nat, suffix: Buffer, value: Buffer)
    requires |b| < WORD32 && shared < WORD32 && Head(shared, |suffix|, |value|) + suffix + value <= b
    ensures Parses(b, shared, suffix, value, |Head(shared, |suffix|, |value|) + suffix + value|)
  {
    hide Head;
    hide EntryAt;
    var head := Head(shared, |suffix|, |value|);
    ThreeParts(head, suffix, value, b);
    HeadDecodes(shared, |suffix|, |value|, b[|head|..]);
  }

  lemma ThreeParts(a: Buffer, k: Buffer, v: Buffer, b: Buffer)
    requires a + k + v <= b
    ensures |a| + |k| + |v| <= |b| && b == a + b[|a|..]
    ensures b[|a|..|a| + |k|] == k && b[|a| + |k|..|a| + |k| + |v|] == v
  {
  }

  lemma DataInside(es: seq<Pair>, interval: nat, data: Buffer, j: nat)
    requires j < |es| && Data(es, interval, |es|) <= data
    ensures Offset(es, interval, j) < Offset(es, interval, j + 1) <= Offset(es, interval, |es|) <= |data|
    ensures Offset(es, interval, j + 1) == Offset(es, interval, j) + |Piece(es, interval, j)|
    ensures Piece(es, interval, j) <= data[Offset(es, interval, j)..Offset(es, interval, |es|)]
  {
    hide Piece;
    PieceAt(es, interval, j);
    DataPrefix(es, interval, j, j + 1);
    DataPrefix(es, interval, j + 1, |es|);
    PrefixOfSlice(Data(es, interval, |es|), data, Offset(es, interval, j), Offset(es, interval, j + 1),
        Piece(es, interval, j));
  }

  lemma PrefixOfSlice(whole: Buffer, data: Buffer, i: nat, k: nat, piece: Buffer)
    requires whole <= data && i <= k <= |whole| && whole[i..k] == piece
    ensures piece <= data[i..|whole|]
  {
  }

  /** What parsing finds at entry `j`. */
  lemma ParsesEntry(es: seq<Pair>, interval: nat, data: Buffer, j: nat)
    requires |data| < WORD32 && j < |es| && Data(es, interval, |es|) <= data && |es[j].key| < WORD32
    ensures Offset(es, interval, j) < Offset(es, interval, j + 1) <= Offset(es, interval, |es|) <= |data|
    ensures Shared(es, interval, j) <= |es[j].key|
    ensures Parses(data[Offset(es, interval, j)..Offset(es, interval, |es|)], Shared(es, interval, j),
                   es[j].key[Shared(es, interval, j)..], es[j].value,
                       Offset(es, interval, j + 1) - Offset(es, interval, j))
  {
    hide Data;
    hide Head;
    hide EntryAt;
    hide Parses;
    hide Shared;
    SharedFits(es, interval, j);
    DataInside(es, interval, data, j);
    ThreeParts(Head(Shared(es, interval, j), |es[j].key| - Shared(es, interval, j), |es[j].value|),
               es[j].key[Shared(es, interval, j)..], es[j].value,
                   data[Offset(es, interval, j)..Offset(es, interval, |es|)]);
    PartsParse(data[Offset(es, interval, j)..Offset(es, interval, |es|)], Shared(es, interval, j),
               es[j].key[Shared(es, interval, j)..], es[j].value);
  }

  // ---------- the iterator ----------

  type Less = (Buffer, Buffer) -> bool

  ghost predicate Transitive(less: Less) {
    forall a, b, c :: less(a, b) && less(b, c) ==> less(a, c)
  }

  ghost predicate Increasing(es: seq<Pair>, less: Less) {
    forall i, j {:trigger less(es[i].key, es[j].key)} :: 0 <= i < j < |es| ==> less(es[i].key, es[j].key)
  }

  /** The first entry whose key is not before the target. */
  ghost predicate IsSeek(es: seq<Pair>, less: Less, target: Buffer, at: nat) {
    && at <= |es|
    && (forall i :: 0 <= i < at ==> less(es[i].key, target))
    && (forall i :: at <= i < |es| ==> !less(es[i].key, target))
  }

  class BlockIter {
    const data: Buffer
    const restarts: nat
    const numRestarts: nat
    const less: Less
    var current: nat
    var restartIndex: nat
    var key: Buffer
    var valueAt: nat
    var valueSize: nat
    var corrupted: bool
    ghost const entries: seq<Pair>
    ghost const interval: nat
    ghost var at: nat  // the current entry

    ghost predicate Shaped()
    {
      numRestarts > 0 && restarts + 4 * numRestarts + 4 == |data|
    }

    /** The data is the block that was built from the ghost entries. */
    ghost predicate Built() {
      && |data| < WORD32 && data == BlockImage(entries, interval)
         && (forall i :: 0 <= i < |entries| ==> |entries[i].key| < WORD32)
      && restarts == Offset(entries, interval, |entries|) && numRestarts == |Starts(interval, |entries|)|
    }

    ghost predicate Ok()
      reads this
    {
      && Shaped() && current <= restarts && at <= |entries|
      && (current < restarts ==> restartIndex < numRestarts && current < valueAt && valueAt + valueSize <= restarts)
      && (Built() ==>
            if current < restarts then AtEntry(entries, interval, at, data, current, key, valueAt, valueSize,
                restartIndex)
            else at == |entries|)
    }

    predicate Valid()
      reads this
    {
      current < restarts
    }

    /** The iterator has moved to what stands at `p` in the block, whatever the block holds: it is there, or there is
        nothing, and that is corruption unless the data ends there. */
    ghost predicate MovedTo(p: nat, behind: Buffer, before: bool)
      reads this
      requires Shaped()
    {
      match EntryBehind(data, restarts, p, behind)
      case None => !Valid() && corrupted == (before || p < restarts)
      case Some(e) =>
        Valid() && current == p && key == e.key && valueAt == e.valueAt && valueSize == e.valueSize &&
        corrupted == before
    }

    /** An iterator over any block whose trailer makes sense. */
    constructor (data: Buffer, restarts: nat, numRestarts: nat, less: Less, ghost entries: seq<Pair>,
        ghost interval: nat)
      requires ParseTrailer(data) == Trailer(restarts, numRestarts)
      ensures Ok() && !Valid() && !corrupted && at == |entries| && this.data == data && this.less == less
      ensures this.entries == entries && this.interval == interval && this.restarts == restarts
              && this.numRestarts == numRestarts
    {
      this.data, this.restarts, this.numRestarts, this.less := data, restarts, numRestarts, less;
      this.entries, this.interval := entries, interval;
      current, restartIndex, key, valueAt, valueSize, corrupted := restarts, numRestarts, [], 0, 0, false;
      at := |entries|;
    }

    function Item(): Buffer
      reads this
      requires Ok() && Valid()
      ensures Built() ==> at < |entries| && Item() == entries[at].value && key == entries[at].key
    {
      data[valueAt..valueAt + valueSize]
    }

    function GetRestartPoint(index: nat): nat
      requires Shaped() && index < numRestarts
    {
      FixedValue(data[restarts + index * 4..restarts + index * 4 + 4])
    }

    lemma RestartPoint(index: nat)
      requires Shaped() && Built() && index < numRestarts
      ensures Starts(interval, |entries|)[index] <= |entries|
      ensures GetRestartPoint(index) == Offset(entries, interval, Starts(interval, |entries|)[index])
    {
      RestartOfImage(entries, interval, index);
    }

    /** The entry parsed next, if the block is a built one. */
    ghost predicate Before(j: nat)
      reads this
    {
      Shaped() && at <= |entries| && (Built() ==> Poised(entries, interval, j, key, valueAt + valueSize, restartIndex))
    }

    method SeekToRestartPoint(index: nat)
      requires Shaped() && index < numRestarts && at <= |entries|
      modifies `key, `restartIndex, `valueAt, `valueSize
      ensures restartIndex == index && key == [] && valueSize == 0 && valueAt == GetRestartPoint(index)
      ensures Built() ==> Before(Starts(interval, |entries|)[index])
    {
      key := [];
      restartIndex := index;
      valueAt, valueSize := GetRestartPoint(index), 0;
      if Built() {
        RestartPoint(index);
        RestartIsPoised(entries, interval, index);
      }
    }

    method CorruptionError()
      requires Shaped()
      modifies this
      ensures current == restarts && at == |entries| && corrupted
    {
      current, restartIndex, corrupted := restarts, numRestarts, true;
      key, valueSize := [], 0;
      at := |entries|;
    }

    /** Parse the entry after the current value. */
    method ParseNextKey(ghost j: nat) returns (ok: bool)
      requires Before(j) && restartIndex < numRestarts
      modifies this
      ensures Ok() && ok == Valid() && MovedTo(old(valueAt + valueSize), old(key), old(corrupted))
      ensures ok ==> valueAt + valueSize > old(valueAt + valueSize)
      ensures Built() ==>
              ok == (j < |entries|) && (ok ==> at == j && key == entries[j].key) && corrupted == old(corrupted)
    {
      hide Data;
      hide BlockImage;
      hide EntryAt;
      hide Starts;
      hide Stored;
      current := valueAt + valueSize;
      if Built() { EndsData(j); }
      if current >= restarts {
        current, restartIndex := restarts, numRestarts;
        at := |entries|;
        return false;
      }
      var b := data[current..restarts];
      var d := DecodeEntry(b);
      if Built() { EntryParses(j, b); }
      if d.None? || |key| < d.value.shared {
        CorruptionError();
        return false;
      }
      StoreEntry(b, d.value, j);
      return true;
    }

    method StoreEntry(b: Buffer, d: Decoded, ghost j: nat)
      requires Shaped() && restartIndex < numRestarts && at <= |entries| && current < restarts
      requires b == data[current..restarts] && EntryAt(b) == Some(d) && d.shared <= |key|
      requires Built() ==>
                j < |entries| && current == Offset(entries, interval, j)
                && Starts(interval, |entries|)[restartIndex] <= j
      requires Built() ==> Stored(key[..d.shared] + b[d.used..d.used + d.nonShared],
                                  current + d.used + d.nonShared, d.valueSize, j)
      modifies this
      ensures Ok() && Valid() && current == old(current) && valueAt + valueSize > current
      ensures Built() ==> at == j && key == entries[j].key
      ensures corrupted == old(corrupted)
      ensures key == old(key[..d.shared]) + b[d.used..d.used + d.nonShared]
      ensures valueAt == current + d.used + d.nonShared && valueSize == d.valueSize
    {
      hide Data;
      hide BlockImage;
      hide Starts;
      hide EntryAt;
      key := key[..d.shared] + b[d.used..d.used + d.nonShared];
      valueAt := current + d.used + d.nonShared;
      valueSize := d.valueSize;
      AdvanceRestart();
      if Built() {
        at := j;
        RestartBefore(old(restartIndex), j);
      }
    }

    /** These are the key and value of entry `j`. */
    ghost predicate Stored(k: Buffer, from: nat, size: nat, j: nat) {
      && j < |entries| && k == entries[j].key && from + size == Offset(entries, interval, j + 1) <= |data|
      && data[from..from + size] == entries[j].value
    }

    lemma EndsData(j: nat)
      requires Before(j) && Built()
      ensures valueAt + valueSize < restarts <==> j < |entries|
    {
      DataPrefix(entries, interval, j, |entries|);
    }

    /** The entry that is parsed, put together from the last key and what is stored. */
    lemma EntryParses(j: nat, b: Buffer)
      requires Before(j) && Built() && j < |entries| && current == valueAt + valueSize <= restarts
               && b == data[current..restarts]
      ensures EntryAt(b).Some?
      ensures var d := EntryAt(b).value;
              && d.shared <= |key|
              && Stored(key[..d.shared] + b[d.used..d.used + d.nonShared], current + d.used + d.nonShared, d.valueSize,
                 j)
    {
      hide Data;
      hide EntryAt;
      ParsesEntry(entries, interval, data, j);
      SharedFits(entries, interval, j);
      var shared := Shared(entries, interval, j);
      assert entries[j].key == entries[j].key[..shared] + entries[j].key[shared..];
      var d := EntryAt(b).value;
      SliceOfSlice(data, current, restarts, d.used + d.nonShared, d.used + d.nonShared + d.valueSize);
    }

    /** The restart point stays at or before the entry. */
    lemma RestartBefore(was: nat, j: nat)
      requires Shaped() && Built() && j < |entries| && current == Offset(entries, interval, j)
      requires was <= restartIndex < numRestarts && Starts(interval, |entries|)[was] <= j
      requires restartIndex > was ==> Offset(entries, interval, Starts(interval, |entries|)[restartIndex]) < current
      ensures Starts(interval, |entries|)[restartIndex] <= j
    {
      hide Data;
      StartsIncrease(interval, |entries|);
      var s := Starts(interval, |entries|)[restartIndex];
      DataPrefix(entries, interval, if s < j then s else j, if s < j then j else s);
    }

    method AdvanceRestart()
      requires Shaped() && restartIndex < numRestarts && current < restarts
      modifies `restartIndex
      ensures restartIndex < numRestarts && restartIndex >= old(restartIndex)
      ensures Built() && restartIndex > old(restartIndex)
              ==> Offset(entries, interval, Starts(interval, |entries|)[restartIndex]) < current
    {
      hide Piece;
      hide Common;
      hide Varint;
      while restartIndex + 1 < numRestarts && GetRestartPoint(restartIndex + 1) < current
        invariant restartIndex < numRestarts && restartIndex >= old(restartIndex)
        invariant Built() && restartIndex > old(restartIndex)
                  ==> Offset(entries, interval, Starts(interval, |entries|)[restartIndex]) < current
        decreases numRestarts - restartIndex
      {
        if Built() { RestartPoint(restartIndex + 1); }
        restartIndex := restartIndex + 1;
      }
    }

    method Next()
      requires Ok() && Valid()
      modifies this
      ensures Ok() && (Built() ==> at == old(at) + 1 && corrupted == old(corrupted))
      ensures MovedTo(old(valueAt + valueSize), old(key), old(corrupted))
    {
      var ok := ParseNextKey(at + 1);
    }

    method SeekToFirst()
      requires Ok()
      modifies this
      ensures Ok() && (Built() ==> at == 0 && corrupted == old(corrupted))
      ensures MovedTo(GetRestartPoint(0), [], old(corrupted))
    {
      SeekToRestartPoint(0);
      var ok := ParseNextKey(0);
    }

    method SeekToLast()
      requires Ok()
      modifies this
      ensures Ok() && (Valid() ==> valueAt + valueSize == restarts)
      ensures Built() ==> at == Last(|entries|) && corrupted == old(corrupted)
    {
      hide Data;
      hide BlockImage;
      hide Starts;
      if Built() { StartsIncrease(interval, |entries|); }
      SeekToRestartPoint(numRestarts - 1);
      SkipTo(restarts, if Built() then Starts(interval, |entries|)[numRestarts - 1] else 0, |entries|);
    }

    /** Parse entries until one ends at or past `limit`, which is where entry `last` starts. */
    method SkipTo(limit: nat, ghost first: nat, ghost last: nat)
      requires Before(first) && restartIndex < numRestarts
      requires Built() ==>
                first <= last <= |entries| && limit == Offset(entries, interval, last)
                && (first < last || last == |entries| == 0)
      modifies this
      ensures Ok() && (Valid() ==> valueAt + valueSize >= limit && corrupted == old(corrupted))
      ensures Valid() && old(valueAt + valueSize) < limit ==> current < limit
      ensures Built() ==> at == (if last == 0 then |entries| else last - 1) && corrupted == old(corrupted)
    {
      hide Data;
      hide BlockImage;
      hide Starts;
      ghost var j: nat := first;
      var ok := ParseNextKey(j);
      while ok && valueAt + valueSize < limit
        invariant Ok() && ok == Valid() && (ok ==> corrupted == old(corrupted))
        invariant ok && old(valueAt + valueSize) < limit ==> current < limit
        invariant Built() ==>
                  corrupted == old(corrupted) && ok == (j < |entries|) && (ok ==> at == j)
                  && (first < last ==> j < last)
        decreases ok, limit - (valueAt + valueSize)
      {
        if Built() { BeforeLimit(limit, j, last); }
        j := j + 1;
        ok := ParseNextKey(j);
      }
      if Built() && ok { AtLimit(limit, j, last); }
    }

    lemma BeforeLimit(limit: nat, j: nat, last: nat)
      requires Ok() && Built() && Valid() && at == j < last <= |entries| && limit == Offset(entries, interval, last)
      requires valueAt + valueSize < limit
      ensures j + 1 < last
    {
      hide Data;
      hide BlockImage;
      hide Starts;
    }

    lemma AtLimit(limit: nat, j: nat, last: nat)
      requires Ok() && Built() && Valid() && at == j < last <= |entries| && limit == Offset(entries, interval, last)
      requires valueAt + valueSize >= limit
      ensures j == last - 1
    {
      hide Data;
      hide BlockImage;
      hide Starts;
      if j + 1 < last { DataPrefix(entries, interval, j + 1, last); }
    }

    method Prev()
      requires Ok() && Valid()
      modifies this
      ensures Ok() && (Valid() ==> current < old(current) <= valueAt + valueSize && corrupted == old(corrupted))
      ensures Built() ==> at == (if old(at) == 0 then |entries| else old(at) - 1) && corrupted == old(corrupted)
    {
      hide Data;
      hide BlockImage;
      hide Starts;
      var original := current;
      ghost var i := at;
      while GetRestartPoint(restartIndex) >= original
        invariant Ok() && Valid() && restartIndex < numRestarts && current == original && at == i
        invariant corrupted == old(corrupted)
        decreases restartIndex
      {
        if Built() { RestartAtOrAfter(restartIndex, i); }
        if restartIndex == 0 {
          current, restartIndex := restarts, numRestarts;
          at := |entries|;
          return;
        }
        if Built() { EarlierRestart(restartIndex - 1, i); }
        restartIndex := restartIndex - 1;
      }
      if Built() { RestartBeforeEntry(restartIndex, i); }
      SeekToRestartPoint(restartIndex);
      SkipTo(original, if Built() then Starts(interval, |entries|)[restartIndex] else 0, i);
    }

    lemma RestartAtOrAfter(r: nat, i: nat)
      requires Shaped() && Built() && r < numRestarts && i < |entries|
               && GetRestartPoint(r) >= Offset(entries, interval, i)
      ensures Starts(interval, |entries|)[r] >= i
    {
      hide Data;
      hide BlockImage;

      RestartPoint(r);
      var s := Starts(interval, |entries|)[r];
      if s < i { DataPrefix(entries, interval, s, i); }
    }

    lemma RestartBeforeEntry(r: nat, i: nat)
      requires Shaped() && Built() && r < numRestarts && i < |entries|
               && GetRestartPoint(r) < Offset(entries, interval, i)
      ensures Starts(interval, |entries|)[r] < i
    {
      hide Data;
      hide BlockImage;

      RestartPoint(r);
      var s := Starts(interval, |entries|)[r];
      if i <= s { DataPrefix(entries, interval, i, s); }
    }

    lemma EarlierRestart(r: nat, i: nat)
      requires Built() && r + 1 < numRestarts && Starts(interval, |entries|)[r + 1] <= i
      ensures Starts(interval, |entries|)[r] <= i
    {
      StartsIncrease(interval, |entries|);
    }

    /** The key stored whole at a restart point. */
    method RestartKey(index: nat) returns (k: Option<Buffer>)
      requires Shaped() && index < numRestarts
      ensures Built() && entries != [] ==> k == Some(entries[StartOf(index)].key)
      ensures if k.Some? then KeyAt(GetRestartPoint(index), k.value) else !WholeKeyAt(index)
    {
      hide Data;
      hide BlockImage;
      hide Starts;
      hide EntryAt;
      var offset := GetRestartPoint(index);
      if Built() && entries != [] { RestartEntry(index); }
      if offset > restarts {
        return None;
      }
      var b := data[offset..restarts];
      var d := DecodeEntry(b);
      if d.None? || d.value.shared != 0 {
        return None;
      }
      k := Some(b[d.value.used..d.value.used + d.value.nonShared]);
    }

    /** The bytes at a restart point start with a whole key. */
    ghost predicate KeyAt(offset: nat, k: Buffer)
      requires Shaped()
    {
      && offset <= restarts
      && var d := EntryAt(data[offset..restarts]);
         d.Some? && d.value.shared == 0 && data[offset..restarts][d.value.used..d.value.used + d.value.nonShared] == k
    }

    ghost predicate WholeKeyAt(index: nat)
      requires Shaped() && index < numRestarts
    {
      exists k :: KeyAt(GetRestartPoint(index), k)
    }

    ghost function StartOf(index: nat): (i: nat)
      requires Built() && entries != [] && index < numRestarts
      ensures i < |entries|
    {
      StartsIncrease(interval, |entries|);
      Starts(interval, |entries|)[index]
    }

    lemma RestartEntry(index: nat)
      requires Shaped() && Built() && entries != [] && index < numRestarts
      ensures KeyAt(GetRestartPoint(index), entries[StartOf(index)].key)
    {
      hide Data;
      hide EntryAt;
      StartsIncrease(interval, |entries|);
      RestartPoint(index);
      DataPrefix(entries, interval, StartOf(index), |entries|);
      ParsesEntry(entries, interval, data, StartOf(index));
      assert Shared(entries, interval, StartOf(index)) == 0;
      assert entries[StartOf(index)].key[0..] == entries[StartOf(index)].key;
    }

    lemma OneRestart()
      requires Built() && entries == []
      ensures numRestarts == 1
    {
    }

    /** The last restart point whose key is before the target, or the first one. */
    method FindRestart(target: Buffer) returns (index: Option<nat>)
      requires Shaped() && Transitive(less)
      ensures index.Some? ==> index.value < numRestarts
      ensures index.Some? && index.value > 0 ==>
                exists k :: KeyAt(GetRestartPoint(index.value), k) && less(k, target)
      ensures index.None? ==> exists m :: 0 <= m < numRestarts && !WholeKeyAt(m)
      ensures Built() ==>
              index.Some? && (index.value > 0 ==> entries != [] && less(entries[StartOf(index.value)].key, target))
    {
      hide Data;
      hide BlockImage;
      hide Starts;
      if Built() && entries == [] { OneRestart(); }
      var left, right := 0, numRestarts - 1;
      while left < right
        invariant 0 <= left <= right < numRestarts
        invariant left > 0 ==> exists k :: KeyAt(GetRestartPoint(left), k) && less(k, target)
        invariant Built() && left > 0 ==> entries != [] && less(entries[StartOf(left)].key, target)
        invariant Built() && entries == [] ==> right == 0
      {
        var mid := (left + right + 1) / 2;
        var midKey := RestartKey(mid);
        if midKey.None? {
          return None;
        }
        if less(midKey.value, target) {
          left := mid;
        } else {
          right := mid - 1;
        }
      }
      index := Some(left);
    }

    /** The first entry whose key is at or after the target. */
    method Seek(target: Buffer)
      requires Ok() && Transitive(less)
      modifies this
      ensures Ok() && (Valid() ==> !less(key, target) && corrupted == old(corrupted))
      ensures Built() && Increasing(entries, less) ==> IsSeek(entries, less, target, at) && corrupted == old(corrupted)
    {
      hide Data;
      hide BlockImage;
      hide Starts;
      hide AtEntry;
      hide Poised;
      hide EntryBehind;
      hide KeyAt;
      hide WholeKeyAt;
      var left := FindRestart(target);
      if left.None? {
        CorruptionError();
        return;
      }
      SeekToRestartPoint(left.value);
      ghost var j: nat := if Built() then Starts(interval, |entries|)[left.value] else 0;
      if Built() { RestartIsBefore(target, left.value); }
      while true
        invariant Before(j) && restartIndex < numRestarts && corrupted == old(corrupted)
        invariant Built() ==> j <= |entries|
        invariant Built() && Increasing(entries, less) ==> forall i :: 0 <= i < j ==> less(entries[i].key, target)
        decreases if valueAt + valueSize < restarts then restarts - (valueAt + valueSize) else 0
      {
        var ok := ParseNextKey(j);
        if !ok {
          return;
        }
        if !less(key, target) {
          if Built() && Increasing(entries, less) { RestIsAfter(target); }
          return;
        }
        j := j + 1;
        if Built() { AtIsPoised(entries, interval, at, data, current, key, valueAt, valueSize, restartIndex); }
      }
    }

    lemma RestartIsBefore(target: Buffer, index: nat)
      requires Shaped() && Built() && Transitive(less) && index < numRestarts
      requires index > 0 ==> entries != [] && less(entries[StartOf(index)].key, target)
      ensures Starts(interval, |entries|)[index] <= |entries|
      ensures Increasing(entries, less) ==>
              forall i :: 0 <= i < Starts(interval, |entries|)[index] ==> less(entries[i].key, target)
    {
      StartsIncrease(interval, |entries|);
      if Increasing(entries, less) && index > 0 && entries != [] {
        forall i | 0 <= i < StartOf(index)
          ensures less(entries[i].key, target)
        {
          assert less(entries[i].key, entries[StartOf(index)].key);
        }
      }
    }

    lemma RestIsAfter(target: Buffer)
      requires Transitive(less) && at < |entries| && Increasing(entries, less) && !less(entries[at].key, target)
      ensures forall i :: at <= i < |entries| ==> !less(entries[i].key, target)
    {
      forall i | at < i < |entries|
        ensures !less(entries[i].key, target)
      {
        assert less(entries[at].key, entries[i].key);
      }
    }
  }

  function Last(n: nat): nat { if n == 0 then 0 else n - 1 }
}
