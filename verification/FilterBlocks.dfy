/** The filter block of a table: one filter for each 2 KB of file offsets (table/filter_block.cc). */
module FilterBlocks {
  import opened Coding
  import opened BlockFormat
  import opened InternalKeyBytes
  import opened BloomFilters

  const FILTER_BASE_LG: Byte := 11
  const FILTER_BASE: nat := 2048

  // ---------- layout ----------

  function Contents(data: Buffer, offsets: seq<nat>): Buffer {
    data + Table(offsets) + Fixed(4, |data|) + [FILTER_BASE_LG]
  }

  /** Where filter `i` ends. */
  function EndOf(data: Buffer, offsets: seq<nat>, i: nat): nat
    requires i < |offsets|
  {
    if i + 1 < |offsets| then offsets[i + 1] else |data|
  }

  /** The slice of filter `i` marks the keys of group `i`. */
  ghost predicate GroupOk(hash: Hash, data: Buffer, offsets: seq<nat>, i: nat, group: seq<Buffer>)
    requires i < |offsets|
  {
    && offsets[i] <= EndOf(data, offsets, i) <= |data|
    && (group != [] ==>
          var f := data[offsets[i]..EndOf(data, offsets, i)];
          |f| >= 2 && Marks(hash, group, f[|f| - 1], f[..|f| - 1]))
  }

  ghost predicate Covers(hash: Hash, data: Buffer, offsets: seq<nat>, groups: seq<seq<Buffer>>) {
    |offsets| == |groups| && forall i :: 0 <= i < |groups| ==> GroupOk(hash, data, offsets, i, groups[i])
  }

  /** One more filter at the end leaves the others alone. */
  lemma CoversAppend(hash: Hash, data: Buffer, offsets: seq<nat>, groups: seq<seq<Buffer>>, filter: Buffer,
                     group: seq<Buffer>)
    requires Covers(hash, data, offsets, groups)
    requires group != [] ==> |filter| >= 2 && Marks(hash, group, filter[|filter| - 1], filter[..|filter| - 1])
    ensures Covers(hash, data + filter, offsets + [|data|], groups + [group])
  {
    hide Marks;
    var data', offsets', groups' := data + filter, offsets + [|data|], groups + [group];
    forall i | 0 <= i < |groups'| ensures GroupOk(hash, data', offsets', i, groups'[i]) {
      if i < |groups| {
        assert GroupOk(hash, data, offsets, i, groups[i]);
        assert offsets'[i] == offsets[i] && EndOf(data', offsets', i) == EndOf(data, offsets, i);
        assert data'[offsets[i]..EndOf(data, offsets, i)] == data[offsets[i]..EndOf(data, offsets, i)];
      } else {
        assert data'[offsets'[i]..EndOf(data', offsets', i)] == filter;
      }
    }
  }

  // ---------- the builder ----------

  function UserKeys(keys: seq<Buffer>): (r: seq<Buffer>)
    ensures |r| == |keys| && forall i :: 0 <= i < |keys| ==> r[i] == ExtractUserKey(keys[i])
  {
    seq(|keys|, i requires 0 <= i < |keys| => ExtractUserKey(keys[i]))
  }

  /** The keys, flattened into one buffer. */
  function Flat(keys: seq<Buffer>): Buffer {
    if keys == [] then [] else Flat(keys[..|keys| - 1]) + keys[|keys| - 1]
  }

  class FilterBlockBuilder {
    const hash: Hash
    const bitsPerKey: nat
    var keys: Buffer
    var start: seq<nat>
    var result: Buffer
    var filterOffsets: seq<nat>
    ghost var pending: seq<Buffer>      // keys of the current filter
    ghost var groups: seq<seq<Buffer>>  // user keys of the filters written

    ghost predicate Valid()
      reads this
    {
      && Flattened(keys, start, pending) && Covers(hash, result, filterOffsets, groups)
    }

    /** The user keys of all filters, the current one included. */
    ghost function Groups(): seq<seq<Buffer>>
      reads this
    {
      groups + [UserKeys(pending)]
    }

    constructor (hash: Hash, bitsPerKey: nat)
      ensures Valid() && groups == [] && pending == [] && this.hash == hash
    {
      this.hash, this.bitsPerKey := hash, bitsPerKey;
      keys, start, result, filterOffsets, pending, groups := [], [], [], [], [], [];
    }

    method AddKey(key: Buffer)
      requires Valid()
      modifies `keys, `start, `pending
      ensures Valid() && pending == old(pending) + [key]
    {
      start := start + [|keys|];
      keys := keys + key;
      pending := pending + [key];
      FlattenedAppend(old(keys), old(start), old(pending), key);
    }

    method GenerateFilter()
      requires Valid()
      modifies this
      ensures Valid() && pending == [] && groups == old(groups) + [UserKeys(old(pending))]
    {
      var numKeys := |start|;
      if numKeys == 0 {
        CoversAppend(hash, result, filterOffsets, groups, [], []);
        assert result + [] == result && UserKeys([]) == [];
        filterOffsets := filterOffsets + [|result|];
        groups := groups + [UserKeys(pending)];
        return;
      }
      var tmpKeys := Unflatten(keys, start, pending);
      var filter := CreateFilter(hash, tmpKeys, bitsPerKey);
      CoversAppend(hash, result, filterOffsets, groups, filter, tmpKeys);
      filterOffsets := filterOffsets + [|result|];
      result := result + filter;
      groups := groups + [UserKeys(pending)];
      keys, start, pending := [], [], [];
    }

    /** A new data block starts at an offset; its keys go to the filter of that offset. */
    method StartBlock(blockOffset: nat)
      requires Valid() && blockOffset / FILTER_BASE >= |groups|
      modifies this
      ensures Valid() && |groups| == blockOffset / FILTER_BASE && old(Groups()) <= Groups()
      ensures |groups| > |old(groups)| ==> pending == []
      ensures |groups| == |old(groups)| ==> pending == old(pending)
    {
      var filterIndex := blockOffset / FILTER_BASE;
      assert groups == old(groups);
      while filterIndex > |filterOffsets|
        invariant Valid() && |groups| <= filterIndex && |groups| >= |old(groups)|
        invariant old(Groups()) <= Groups()
        invariant |groups| > |old(groups)| ==> pending == []
        invariant |groups| == |old(groups)| ==> pending == old(pending)
        decreases filterIndex - |groups|
      {
        GenerateFilter();
      }
    }

    method Finish() returns (contents: Buffer)
      requires Valid()
      modifies this
      ensures contents == Contents(result, filterOffsets) && Covers(hash, result, filterOffsets, groups)
      ensures groups == (if old(pending) == [] then old(groups) else old(Groups()))
    {
      if |start| != 0 {
        GenerateFilter();
      }
      var arrayOffset := |result|;
      contents := result;
      for i := 0 to |filterOffsets|
        invariant contents == result + Table(filterOffsets[..i])
        invariant Covers(hash, result, filterOffsets, groups) && arrayOffset == |result|
        invariant groups == if old(pending) == [] then old(groups) else old(Groups())
      {
        contents := contents + Fixed(4, filterOffsets[i]);
        assert filterOffsets[..i + 1][..i] == filterOffsets[..i];
      }
      assert filterOffsets[..|filterOffsets|] == filterOffsets;
      contents := contents + Fixed(4, arrayOffset);
      contents := contents + [FILTER_BASE_LG];
    }
  }

  ghost predicate Flattened(keys: Buffer, start: seq<nat>, pending: seq<Buffer>) {
    && |start| == |pending| && keys == Flat(pending)
    && forall i :: 0 <= i < |start| ==> start[i] == |Flat(pending[..i])|
  }

  lemma FlattenedAppend(keys: Buffer, start: seq<nat>, pending: seq<Buffer>, key: Buffer)
    requires Flattened(keys, start, pending)
    ensures Flattened(keys + key, start + [|keys|], pending + [key])
  {
    var more := pending + [key];
    assert more[..|pending|] == pending;
    forall i | 0 <= i < |start| ensures more[..i] == pending[..i] { }
  }

  lemma {:induction false} FlatPrefix(pending: seq<Buffer>, i: nat)
    requires i < |pending|
    ensures Flat(pending[..i]) + pending[i] <= Flat(pending)
  {
    if i < |pending| - 1 {
      FlatPrefix(pending[..|pending| - 1], i);
      assert pending[..|pending| - 1][..i] == pending[..i];
    }
  }

  /** Cut the flattened keys apart again, and keep their user keys. */
  method Unflatten(keys: Buffer, start: seq<nat>, ghost pending: seq<Buffer>) returns (tmpKeys: seq<Buffer>)
    requires Flattened(keys, start, pending)
    ensures tmpKeys == UserKeys(pending)
  {
    var ends := start + [|keys|];
    tmpKeys := [];
    for i := 0 to |start|
      invariant |tmpKeys| == i && forall j :: 0 <= j < i ==> tmpKeys[j] == ExtractUserKey(pending[j])
    {
      KeySlice(keys, start, pending, i);
      tmpKeys := tmpKeys + [ExtractUserKey(keys[ends[i]..ends[i + 1]])];
    }
  }

  lemma KeySlice(keys: Buffer, start: seq<nat>, pending: seq<Buffer>, i: nat)
    requires Flattened(keys, start, pending) && i < |start|
    ensures var end := if i + 1 < |start| then start[i + 1] else |keys|;
            start[i] <= end <= |keys| && keys[start[i]..end] == pending[i]
  {
    FlatPrefix(pending, i);
    assert pending[..i + 1][..i] == pending[..i];
    assert i + 1 == |pending| ==> pending[..i + 1] == pending;
    assert Flat(pending[..i + 1]) == Flat(pending[..i]) + pending[i];
  }

  // ---------- the reader ----------

  datatype FilterReader = FilterReader(contents: Buffer, offsetsAt: nat, num: nat, baseLg: nat)

  /** The reader keeps nothing when the contents make no sense. */
  function OpenFilter(contents: Buffer): (r: FilterReader)
    ensures r.offsetsAt + 4 * r.num + 4 <= |r.contents| || r.num == 0
  {
    var n := |contents|;
    if n < 5 then FilterReader(contents, 0, 0, 0)
    else
      var lastWord := FixedValue(contents[n - 5..n - 1]);
      if lastWord > n - 5 then FilterReader(contents, 0, 0, contents[n - 1])
      else FilterReader(contents, lastWord, (n - 5 - lastWord) / 4, contents[n - 1])
  }

  function WordAt(b: Buffer, at: nat): nat
    requires at + 4 <= |b|
  {
    FixedValue(b[at..at + 4])
  }

  /** Errors are treated as potential matches. */
  method FilterMayMatch(hash: Hash, r: FilterReader, blockOffset: nat, key: Buffer) returns (may: bool)
    requires r.offsetsAt + 4 * r.num + 4 <= |r.contents| || r.num == 0
    ensures may == MatchesAt(hash, r, blockOffset, key)
  {
    var index := blockOffset / Power(2, r.baseLg);
    if index < r.num {
      var start := WordAt(r.contents, r.offsetsAt + index * 4);
      var limit := WordAt(r.contents, r.offsetsAt + index * 4 + 4);
      if start <= limit && limit <= r.offsetsAt {
        may := KeyMayMatch(hash, ExtractUserKey(key), r.contents[start..limit]);
        return;
      } else if start == limit {
        return false;
      }
    }
    return true;
  }

  predicate MatchesAt(hash: Hash, r: FilterReader, blockOffset: nat, key: Buffer)
    requires r.offsetsAt + 4 * r.num + 4 <= |r.contents| || r.num == 0
  {
    var index := blockOffset / Power(2, r.baseLg);
    if index >= r.num then true
    else
      var start, limit := WordAt(r.contents, r.offsetsAt + index * 4), WordAt(r.contents, r.offsetsAt + index * 4 + 4);
      if start <= limit && limit <= r.offsetsAt then MayMatch(hash, ExtractUserKey(key), r.contents[start..limit])
      else start != limit
  }

  /** A lookup is stopped only by a filter that is there: an empty one, or one whose probes miss the key.  A block
      without a filter, and offsets that make no sense, never stop one. */
  lemma OnlyFiltersDeny(hash: Hash, r: FilterReader, blockOffset: nat, index: nat, key: Buffer)
    requires r.offsetsAt + 4 * r.num + 4 <= |r.contents| || r.num == 0
    requires index == blockOffset / Power(2, r.baseLg) && !MatchesAt(hash, r, blockOffset, key)
    ensures index < r.num
    ensures var start, limit :=
              WordAt(r.contents, r.offsetsAt + index * 4), WordAt(r.contents, r.offsetsAt + index * 4 + 4);
            || start == limit
            || (start < limit <= r.offsetsAt && !MayMatch(hash, ExtractUserKey(key), r.contents[start..limit]))
  {
  }

  // ---------- no false negatives ----------

  lemma WordOfTable(data: Buffer, offsets: seq<nat>, i: nat)
    requires i <= |offsets| && |Contents(data, offsets)| < WORD32
    requires forall k :: 0 <= k < |offsets| ==> offsets[k] < WORD32
    ensures |data| + 4 * i + 4 <= |Contents(data, offsets)|
    ensures WordAt(Contents(data, offsets), |data| + 4 * i) == if i < |offsets| then offsets[i] else |data|
  {
    hide Fixed;
    hide FixedValue;
    hide Table;
    var v := if i < |offsets| then offsets[i] else |data|;
    FourBytes(v);
    if i < |offsets| {
      TableAt(offsets, i);
      InTable(data, Table(offsets), Fixed(4, |data|), [FILTER_BASE_LG], i);
    } else {
      AfterTable(data, Table(offsets), Fixed(4, |data|), [FILTER_BASE_LG]);
    }
  }

  lemma FourBytes(v: nat)
    requires v < WORD32
    ensures FixedValue(Fixed(4, v)) == v
  {
    assert Power(256, 4) == WORD32;
    FixedRoundTrip(4, v);
  }

  lemma InTable(a: Buffer, t: Buffer, c: Buffer, d: Buffer, i: nat)
    requires 4 * i + 4 <= |t|
    ensures (a + t + c + d)[|a| + 4 * i..|a| + 4 * i + 4] == t[4 * i..4 * i + 4]
  {
  }

  lemma AfterTable(a: Buffer, t: Buffer, c: Buffer, d: Buffer)
    requires |c| == 4
    ensures (a + t + c + d)[|a| + |t|..|a| + |t| + 4] == c
  {
  }

  lemma OpensContents(data: Buffer, offsets: seq<nat>)
    requires |Contents(data, offsets)| < WORD32
    ensures OpenFilter(Contents(data, offsets)) ==
            FilterReader(Contents(data, offsets), |data|, |offsets|, FILTER_BASE_LG)
  {
    hide Fixed;
    hide FixedValue;
    hide Table;
    FourBytes(|data|);
    AfterTable(data, Table(offsets), Fixed(4, |data|), [FILTER_BASE_LG]);
  }

  /** A key that went into the filter of its block's offset may match there. */
  lemma NoFalseNegatives(hash: Hash, data: Buffer, offsets: seq<nat>, groups: seq<seq<Buffer>>, blockOffset: nat,
                         key: Buffer)
    requires Covers(hash, data, offsets, groups) && |Contents(data, offsets)| < WORD32
    requires blockOffset / FILTER_BASE < |groups| && ExtractUserKey(key) in groups[blockOffset / FILTER_BASE]
    ensures MatchesAt(hash, OpenFilter(Contents(data, offsets)), blockOffset, key)
  {
    hide FixedValue;
    hide AllSet;
    hide Fixed;
    hide Power;
    hide MayMatch;
    hide Marks;
    hide Table;
    hide WordAt;
    var i := blockOffset / FILTER_BASE;
    PowerOfBase();
    OpensContents(data, offsets);
    assert GroupOk(hash, data, offsets, i, groups[i]);
    forall k | 0 <= k < |offsets| ensures offsets[k] < WORD32 { assert GroupOk(hash, data, offsets, k, groups[k]); }
    WordOfTable(data, offsets, i);
    WordOfTable(data, offsets, i + 1);
    var f := data[offsets[i]..EndOf(data, offsets, i)];
    assert Contents(data, offsets)[offsets[i]..EndOf(data, offsets, i)] == f;
    CreatedMatches(hash, groups[i], f, ExtractUserKey(key));
  }

  lemma PowerOfBase()
    ensures Power(2, FILTER_BASE_LG) == FILTER_BASE
  {
    assert Power(2, 3) == 8 && Power(2, 7) == 128;
  }
}
