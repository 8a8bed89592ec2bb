/** What is left of a write batch or a version edit that was cut short: a batch is never accepted, and hands out a
    prefix of its operations; an edit is accepted only if it was cut between two items. */
module CutFormats {
  import opened Options
  import opened Coding
  import B = WriteBatches
  import V = VersionEdits

  // ---------- parts ----------

  lemma {:induction false} CutVarint(v: nat, k: nat, bytes: nat)
    requires k < |Varint(v)|
    ensures VarintAt(Varint(v)[..k], bytes) == None
  {
    if v >= 128 && k > 0 && bytes > 0 {
      CutVarint(v / 128, k - 1, bytes - 1);
      assert Varint(v)[..k][1..] == Varint(v / 128)[..k - 1];
    }
  }

  lemma CutPrefixed(s: Buffer, k: nat)
    requires |s| < WORD32 && k < |LengthPrefixed(s)|
    ensures PrefixedAt(LengthPrefixed(s)[..k]) == None
  {
    var n := |Varint(|s|)|;
    if k < n {
      assert LengthPrefixed(s)[..k] == Varint(|s|)[..k];
      CutVarint(|s|, k, 5);
    } else {
      assert LengthPrefixed(s)[..k] == Varint(|s|) + s[..k - n];
      FiveBytesSuffice(|s|);
      VarintRoundTrip(|s|, s[..k - n], 5);
    }
  }

  /** Cutting what is joined cuts the first part, or keeps it and cuts the second. */
  lemma CutJoin(a: Buffer, b: Buffer, k: nat)
    requires k <= |a + b|
    ensures (a + b)[..k] == if k < |a| then a[..k] else a + b[..k - |a|]
  {
  }

  // ---------- batches ----------

  lemma CutOp(op: B.Op, k: nat)
    requires B.Fits(op) && 0 < k < |B.OpBytes(op)|
    ensures B.OpAt(B.OpBytes(op)[..k]) == None
  {
    hide LengthPrefixed;
    hide PrefixedAt;
    var b := B.OpBytes(op)[..k];
    match op
    case Put(key, value) =>
      assert b[1..] == (LengthPrefixed(key) + LengthPrefixed(value))[..k - 1];
      CutJoin(LengthPrefixed(key), LengthPrefixed(value), k - 1);
      if k - 1 < |LengthPrefixed(key)| {
        CutPrefixed(key, k - 1);
      } else {
        PrefixedRoundTrip(key, LengthPrefixed(value)[..k - 1 - |LengthPrefixed(key)|]);
        CutPrefixed(value, k - 1 - |LengthPrefixed(key)|);
      }
    case Delete(key) =>
      assert b[1..] == LengthPrefixed(key)[..k - 1];
      CutPrefixed(key, k - 1);
  }

  /** The whole operations before the cut are handed out, and the cut is noticed unless it lies between two. */
  lemma {:induction false} CutOps(ops: seq<B.Op>, k: nat) returns (n: nat)
    requires k <= |B.OpsBytes(ops)| && forall i :: 0 <= i < |ops| ==> B.Fits(ops[i])
    ensures n <= |ops| && |B.OpsBytes(ops[..n])| <= k
    ensures B.Scan(B.OpsBytes(ops)[..k]) == (ops[..n], |B.OpsBytes(ops[..n])| == k)
    ensures n == |ops| ==> k == |B.OpsBytes(ops)|
  {
    hide B.OpBytes;
    hide B.OpAt;
    if k == 0 {
      n := 0;
      assert B.OpsBytes(ops)[..0] == [] && B.OpsBytes(ops[..0]) == [];
    } else {
      var first, rest := B.OpBytes(ops[0]), B.OpsBytes(ops[1..]);
      CutJoin(first, rest, k);
      if k < |first| {
        n := 0;
        CutOp(ops[0], k);
        assert ops[..0] == [];
      } else {
        var m := CutOps(ops[1..], k - |first|);
        n := m + 1;
        B.OpBack(ops[0], rest[..k - |first|]);
        assert ops[..n][1..] == ops[1..][..m] && ops[..n] == [ops[0]] + ops[1..][..m];
      }
    }
  }

  /** A batch that lost its end is refused, after at most some of its operations, in order. */
  lemma CutBatchIsRefused(sequence: nat, ops: seq<B.Op>, k: nat)
    requires sequence < WORD64 && B.AllFit(ops) && k < |B.BatchBytes(sequence, ops)|
    ensures var (some, whole) := B.IterateSpec(B.BatchBytes(sequence, ops)[..k]); some <= ops && !whole
  {
    hide B.OpsBytes;
    hide B.Scan;
    hide Fixed;
    hide FixedValue;
    var rep := B.BatchBytes(sequence, ops);
    B.HeaderBack(sequence, ops);
    if k >= B.HEADER {
      assert rep[..k][B.HEADER..] == B.OpsBytes(ops)[..k - B.HEADER];
      assert rep[..k][8..12] == rep[8..12];
      var n := CutOps(ops, k - B.HEADER);
    }
  }

  lemma {:induction false} ScanBehind(ops: seq<B.Op>, rest: Buffer)
    requires forall i :: 0 <= i < |ops| ==> B.Fits(ops[i])
    ensures B.Scan(B.OpsBytes(ops) + rest) == (ops + B.Scan(rest).0, B.Scan(rest).1)
  {
    hide B.OpBytes;
    hide B.OpAt;
    if ops == [] {
      assert B.OpsBytes(ops) + rest == rest && ops + B.Scan(rest).0 == B.Scan(rest).0;
    } else {
      var first, more := B.OpBytes(ops[0]), B.OpsBytes(ops[1..]);
      assert B.OpsBytes(ops) + rest == first + (more + rest);
      ScanBehind(ops[1..], rest);
      B.OpBack(ops[0], more + rest);
      assert [ops[0]] + (ops[1..] + B.Scan(rest).0) == ops + B.Scan(rest).0;
    }
  }

  /** A batch with another count than its own, or with something of an unknown kind behind its operations, is
      refused after all of them. */
  lemma {:induction false} WrongBatchIsRefused(sequence: nat, count: nat, ops: seq<B.Op>, rest: Buffer)
    requires count < WORD32 && B.AllFit(ops)
    requires rest == [] || rest[0] !in {B.TYPE_VALUE, B.TYPE_DELETION}
    ensures B.IterateSpec(Fixed(8, sequence) + Fixed(4, count) + (B.OpsBytes(ops) + rest)) ==
            (ops, rest == [] && |ops| == count)
  {
    ScanBehind(ops, rest);
    NothingScanned(rest);
    CountBack(sequence, count);
    hide B.OpsBytes;
    hide B.Scan;
    hide Fixed;
    hide FixedValue;
    hide B.AllFit;
    var head := Fixed(8, sequence) + Fixed(4, count);
    HeadAndTail(head, B.OpsBytes(ops) + rest);
    assert ops + [] == ops;
  }

  lemma HeadAndTail(head: Buffer, tail: Buffer)
    requires |head| == B.HEADER
    ensures (head + tail)[8..12] == head[8..12] && (head + tail)[B.HEADER..] == tail
  {
  }

  lemma NothingScanned(rest: Buffer)
    requires rest == [] || rest[0] !in {B.TYPE_VALUE, B.TYPE_DELETION}
    ensures B.Scan(rest) == ([], rest == [])
  {
    hide PrefixedAt;
  }

  lemma CountBack(sequence: nat, count: nat)
    requires count < WORD32
    ensures |Fixed(8, sequence) + Fixed(4, count)| == B.HEADER
    ensures FixedValue((Fixed(8, sequence) + Fixed(4, count))[8..12]) == count
  {
    assert Power(256, 4) == WORD32;
    FixedRoundTrip(4, count);
    hide Fixed;
    hide FixedValue;
    assert (Fixed(8, sequence) + Fixed(4, count))[8..12] == Fixed(4, count);
  }

  // ---------- edits ----------

  lemma CutNumber32(v: nat, k: nat)
    requires k < |Varint(v)|
    ensures V.Number32(Varint(v)[..k]) == None
  {
    CutVarint(v, k, 5);
  }

  lemma CutNumber64(v: nat, k: nat)
    requires k < |Varint(v)|
    ensures V.Number64(Varint(v)[..k]) == None
  {
    CutVarint(v, k, 10);
  }

  lemma CutTwoTexts(a: Buffer, b: Buffer, k: nat)
    requires |a| < WORD32 && |b| < WORD32 && k < |LengthPrefixed(a) + LengthPrefixed(b)|
    ensures var cut := (LengthPrefixed(a) + LengthPrefixed(b))[..k];
            PrefixedAt(cut).None? || (PrefixedAt(cut).value.0 == a && PrefixedAt(PrefixedAt(cut).value.1).None?)
  {
    hide LengthPrefixed;
    hide PrefixedAt;
    CutJoin(LengthPrefixed(a), LengthPrefixed(b), k);
    if k < |LengthPrefixed(a)| {
      CutPrefixed(a, k);
    } else {
      PrefixedRoundTrip(a, LengthPrefixed(b)[..k - |LengthPrefixed(a)|]);
      CutPrefixed(b, k - |LengthPrefixed(a)|);
    }
  }

  function FileBytes(f: V.FileMeta): Buffer {
    Varint(f.number) + (Varint(f.size) + (LengthPrefixed(f.smallest) + LengthPrefixed(f.largest)))
  }

  lemma CutFile(f: V.FileMeta, k: nat)
    requires f.number < WORD64 && f.size < WORD64 && |f.smallest| < WORD32 && |f.largest| < WORD32
    requires k < |FileBytes(f)|
    ensures V.FileAt(FileBytes(f)[..k]) == None
  {
    hide V.Number64;
    hide PrefixedAt;
    hide LengthPrefixed;
    hide Varint;
    var texts := LengthPrefixed(f.smallest) + LengthPrefixed(f.largest);
    var sized := Varint(f.size) + texts;
    CutJoin(Varint(f.number), sized, k);
    if k < |Varint(f.number)| {
      CutNumber64(f.number, k);
    } else {
      var j := k - |Varint(f.number)|;
      V.Number64Back(f.number, sized[..j]);
      CutJoin(Varint(f.size), texts, j);
      if j < |Varint(f.size)| {
        CutNumber64(f.size, j);
      } else {
        V.Number64Back(f.size, texts[..j - |Varint(f.size)|]);
        CutTwoTexts(f.smallest, f.largest, j - |Varint(f.size)|);
      }
    }
  }

  lemma CutBody(item: V.Item, k: nat)
    requires V.Fits(item) && k < |V.BodyOf(item)|
    ensures V.ItemAt(V.TagOf(item), V.BodyOf(item)[..k]) == None
  {
    hide V.Number64;
    hide V.Number32;
    hide PrefixedAt;
    hide LengthPrefixed;
    hide Varint;
    hide V.FileAt;
    match item
    case Comparator(name) => CutPrefixed(name, k);
    case LogNumber(n) => CutNumber64(n, k);
    case NextFile(n) => CutNumber64(n, k);
    case LastSequence(n) => CutNumber64(n, k);
    case PrevLogNumber(n) => CutNumber64(n, k);
    case CompactPointer(level, key) =>
      CutJoin(Varint(level), LengthPrefixed(key), k);
      if k < |Varint(level)| {
        CutNumber32(level, k);
      } else {
        V.Number32Back(level, LengthPrefixed(key)[..k - |Varint(level)|]);
        CutPrefixed(key, k - |Varint(level)|);
      }
    case DeletedFile(level, number) =>
      CutJoin(Varint(level), Varint(number), k);
      if k < |Varint(level)| {
        CutNumber32(level, k);
      } else {
        V.Number32Back(level, Varint(number)[..k - |Varint(level)|]);
        CutNumber64(number, k - |Varint(level)|);
      }
    case NewFile(level, f) =>
      CutJoin(Varint(level), FileBytes(f), k);
      if k < |Varint(level)| {
        CutNumber32(level, k);
      } else {
        V.Number32Back(level, FileBytes(f)[..k - |Varint(level)|]);
        CutFile(f, k - |Varint(level)|);
      }
  }

  /** An item of a kind that is not known makes the whole edit unreadable, wherever it stands. */
  lemma {:induction false} UnknownItemIsRefused(e: V.Edit, items: seq<V.Item>, tag: nat, rest: Buffer)
    requires forall i :: 0 <= i < |items| ==> V.Fits(items[i])
    requires tag < WORD32 && tag !in {1, 2, 3, 4, 5, 6, 7, 9}
    ensures V.DecodeRest(e, V.ItemsBytes(items) + (Varint(tag) + rest)) == None
    decreases |items|
  {
    hide V.Add;
    hide V.Number32;
    hide V.ItemBytes;
    hide V.Level;
    hide V.Text;
    hide V.Number64;
    var bad := Varint(tag) + rest;
    if items == [] {
      assert V.ItemsBytes(items) + bad == bad;
      V.Number32Back(tag, rest);
    } else {
      hide V.ItemAt;
      var first, more := V.ItemBytes(items[0]), V.ItemsBytes(items[1..]);
      assert V.ItemsBytes(items) + bad == first + (more + bad);
      V.TagFirst(items[0], more + bad);
      V.Number32Back(V.TagOf(items[0]), V.BodyOf(items[0]) + (more + bad));
      V.ItemBack(items[0], more + bad);
      UnknownItemIsRefused(V.Add(e, items[0]), items[1..], tag, rest);
    }
  }

  /** An edit that lost its end: the edit of the items before the cut, if it lies between two, and corruption if not. */
  lemma {:induction false} CutEdit(e: V.Edit, items: seq<V.Item>, k: nat) returns (n: nat)
    requires k <= |V.ItemsBytes(items)| && forall i :: 0 <= i < |items| ==> V.Fits(items[i])
    ensures n <= |items| && |V.ItemsBytes(items[..n])| <= k
    ensures n < |items| ==> k < |V.ItemsBytes(items[..n + 1])|
    ensures V.DecodeRest(e, V.ItemsBytes(items)[..k]) ==
            if |V.ItemsBytes(items[..n])| == k then Some(V.AddAll(e, items[..n])) else None
    decreases |items|
  {
    hide V.ItemAt;
    hide V.Add;
    hide V.Number32;
    hide V.ItemBytes;
    if items == [] {
      n := 0;
      V.EmptyInput();
    } else {
      var first, rest := V.ItemBytes(items[0]), V.ItemsBytes(items[1..]);
      CutJoin(first, rest, k);
      FirstItem(items);
      if k < |first| {
        n := 0;
        if k == 0 { V.EmptyInput(); } else { CutItem(e, items[0], k); }
      } else {
        var j := k - |first|;
        var m := CutEdit(V.Add(e, items[0]), items[1..], j);
        n := m + 1;
        V.TagFirst(items[0], rest[..j]);
        V.Number32Back(V.TagOf(items[0]), V.BodyOf(items[0]) + rest[..j]);
        V.ItemBack(items[0], rest[..j]);
        OneMoreItem(items, m);
        if n < |items| { OneMoreItem(items, m + 1); }
      }
    }
  }

  lemma FirstItem(items: seq<V.Item>)
    requires items != []
    ensures V.ItemsBytes(items[..0]) == [] && V.ItemsBytes(items[..1]) == V.ItemBytes(items[0])
    ensures items[..0] == []
  {
    assert items[..1] == [items[0]];
    V.OneItemBytes(items[0]);
  }

  lemma OneMoreItem(items: seq<V.Item>, m: nat)
    requires m < |items|
    ensures items[..m + 1] != [] && items[..m + 1][0] == items[0] && items[..m + 1][1..] == items[1..][..m]
    ensures |V.ItemsBytes(items[..m + 1])| == |V.ItemBytes(items[0])| + |V.ItemsBytes(items[1..][..m])|
  {
    hide V.ItemBytes;
  }

  lemma CutItem(e: V.Edit, item: V.Item, k: nat)
    requires V.Fits(item) && 0 < k < |V.ItemBytes(item)|
    ensures V.DecodeRest(e, V.ItemBytes(item)[..k]) == None
  {
    hide V.ItemAt;
    hide V.Add;
    hide V.Number32;
    hide V.BodyOf;
    var tag, body := V.TagOf(item), V.BodyOf(item);
    CutJoin(Varint(tag), body, k);
    if k < |Varint(tag)| {
      CutNumber32(tag, k);
    } else {
      V.Number32Back(tag, body[..k - |Varint(tag)|]);
      CutBody(item, k - |Varint(tag)|);
    }
  }
}
