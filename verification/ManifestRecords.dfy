/** A manifest as the records it holds: VersionSet::Recover decodes them and applies them to one builder.
    The builder knows files by what the manifest says of them, with keys as bytes. */
module ManifestRecords {
  import opened Options
  import opened Coding
  import opened InternalKeyBytes
  import opened Files
  import E = VersionEdits

  type Meta = E.FileMeta

  // ---------- the builder ----------

  /** BySmallestKey on key bytes. */
  predicate MetaBefore(f: Meta, g: Meta) {
    KeyLess(f.smallest, g.smallest) || (!KeyLess(g.smallest, f.smallest) && f.number < g.number)
  }

  /** One insertion into the ordered set of added files. */
  function Insert(added: seq<Meta>, f: Meta): seq<Meta> {
    if added == [] || MetaBefore(f, added[0]) then [f] + added
    else if MetaBefore(added[0], f) then [added[0]] + Insert(added[1..], f)
    else added
  }

  function InsertEach(added: seq<Meta>, files: seq<Meta>): seq<Meta> {
    if files == [] then added else Insert(InsertEach(added, files[..|files| - 1]), files[|files| - 1])
  }

  function Merged(base: seq<Meta>, added: seq<Meta>): seq<Meta>
    decreases |base| + |added|
  {
    if base == [] then added
    else if added == [] then base
    else if MetaBefore(added[0], base[0]) then [added[0]] + Merged(base, added[1..])
    else [base[0]] + Merged(base[1..], added)
  }

  function Remaining(files: seq<Meta>, deleted: set<nat>): seq<Meta> {
    if files == [] then []
    else (if files[0].number in deleted then [] else [files[0]]) + Remaining(files[1..], deleted)
  }

  function NumbersIn(files: seq<Meta>): set<nat> { set f | f in files :: f.number }

  /** The builder's state for one level. */
  datatype Slot = Slot(deleted: set<nat>, added: seq<Meta>)

  function DeletedOn(deleted: set<(nat, nat)>, l: nat): set<nat> { set d | d in deleted && d.0 == l :: d.1 }

  function AddedOn(added: seq<(nat, Meta)>, l: nat): seq<Meta> {
    if added == [] then []
    else AddedOn(added[..|added| - 1], l) + if added[|added| - 1].0 == l then [added[|added| - 1].1] else []
  }

  /** Builder::Apply, on one level. */
  function Put(slot: Slot, e: E.Edit, l: nat): Slot {
    Slot((slot.deleted + DeletedOn(e.deleted, l)) - NumbersIn(AddedOn(e.added, l)),
        InsertEach(slot.added, AddedOn(e.added, l)))
  }

  /** Builder::SaveTo, on one level. */
  function Saved(base: seq<Meta>, slot: Slot): seq<Meta> { Remaining(Merged(base, slot.added), slot.deleted) }

  predicate LevelsOk(e: E.Edit) {
    (forall d :: d in e.deleted ==> d.0 < NUM_LEVELS) && (forall i :: 0 <= i < |e.added| ==> e.added[i].0 < NUM_LEVELS)
  }

  lemma InsertAt(before: seq<Meta>, rest: seq<Meta>, f: Meta, i: nat)
    requires i <= |before| && forall k :: 0 <= k < i ==> MetaBefore(before[k], f) && !MetaBefore(f, before[k])
    requires rest == before[i..]
    ensures Insert(before, f) == before[..i] + Insert(rest, f)
    decreases i
  {
    if i > 0 {
      InsertAt(before[1..], rest, f, i - 1);
      assert before == [before[0]] + before[1..];
    }
  }

  lemma InsertFirst(rest: seq<Meta>, f: Meta)
    requires rest == [] || MetaBefore(f, rest[0]) || !MetaBefore(rest[0], f)
    ensures Insert(rest, f) == if rest == [] || MetaBefore(f, rest[0]) then [f] + rest else rest
  {
  }

  /** VersionSet::Builder, from the files of a base version. */
  class Builder {
    const base: seq<seq<Meta>>
    var levels: seq<Slot>

    ghost predicate Valid()
      reads this
    {
      |base| == |levels| == NUM_LEVELS
    }

    constructor (base: seq<seq<Meta>>)
      requires |base| == NUM_LEVELS
      ensures Valid() && this.base == base && levels == seq(NUM_LEVELS, _ => Slot({}, []))
    {
      this.base := base;
      levels := seq(NUM_LEVELS, _ => Slot({}, []));
    }

    /** added_files->insert. */
    method InsertInto(level: nat, f: Meta)
      requires Valid() && level < NUM_LEVELS
      modifies this
      ensures Valid()
      ensures levels == old(levels)[level := old(levels)[level].(added := Insert(old(levels)[level].added, f))]
    {
      hide Insert;
      hide MetaBefore;
      var files := levels[level].added;
      var i := 0;
      while i < |files| && !MetaBefore(f, files[i]) && MetaBefore(files[i], f)
        invariant i <= |files| && forall k :: 0 <= k < i ==> MetaBefore(files[k], f) && !MetaBefore(f, files[k])
      {
        i := i + 1;
      }
      InsertAt(files, files[i..], f, i);
      InsertFirst(files[i..], f);
      if i == |files| || MetaBefore(f, files[i]) {
        levels := levels[level := levels[level].(added := files[..i] + [f] + files[i..])];
        assert files[..i] + ([f] + files[i..]) == files[..i] + [f] + files[i..];
      } else {
        assert files[..i] + files[i..] == files;
        assert levels[level := levels[level].(added := files)] == levels;
      }
    }

    method DeleteAll(gone: set<(nat, nat)>)
      requires Valid() && forall d :: d in gone ==> d.0 < NUM_LEVELS
      modifies this
      ensures Valid() && forall l :: 0 <= l < NUM_LEVELS ==> levels[l] == Deleting(old(levels)[l], gone, l)
    {
      hide Deleting;
      var rest := gone;
      ghost var done: set<(nat, nat)> := {};
      forall l | 0 <= l < NUM_LEVELS ensures Deleting(levels[l], done, l) == levels[l] { NothingDeleted(levels[l], l); }
      while rest != {}
        invariant Valid() && rest + done == gone
        invariant forall l :: 0 <= l < NUM_LEVELS ==> levels[l] == Deleting(old(levels)[l], done, l)
        decreases |rest|
      {
        var d :| d in rest;
        rest := rest - {d};
        forall l | 0 <= l < NUM_LEVELS
          ensures Deleting(old(levels)[l], done + {d}, l) ==
                  if d.0 == l then levels[l].(deleted := levels[l].deleted + {d.1}) else levels[l]
        {
          DeletingNext(old(levels)[l], done, d, l);
        }
        done := done + {d};
        levels := levels[d.0 := levels[d.0].(deleted := levels[d.0].deleted + {d.1})];
      }
      assert done == gone;
    }

    method AddFile(level: nat, f: Meta)
      requires Valid() && level < NUM_LEVELS
      modifies this
      ensures Valid() && levels == old(levels)[level := Adding(old(levels)[level], f)]
    {
      levels := levels[level := levels[level].(deleted := levels[level].deleted - {f.number})];
      InsertInto(level, f);
    }

    method Apply(e: E.Edit)
      requires Valid() && LevelsOk(e)
      modifies this
      ensures Valid() && forall l :: 0 <= l < NUM_LEVELS ==> levels[l] == Put(old(levels)[l], e, l)
    {
      hide Put;
      hide Deleting;
      hide Adding;
      hide After;
      DeleteAll(e.deleted);
      ghost var before := levels;
      forall l | 0 <= l < NUM_LEVELS
        ensures After(before[l], e.added[..0], l) == before[l]
      {
        NothingAfter(before[l], l);
      }
      for i := 0 to |e.added|
        invariant Valid()
        invariant forall l :: 0 <= l < NUM_LEVELS ==> levels[l] == After(before[l], e.added[..i], l)
      {
        forall l | 0 <= l < NUM_LEVELS { AfterNext(before[l], e.added, i, l); }
        AddFile(e.added[i].0, e.added[i].1);
      }
      assert e.added[..|e.added|] == e.added;
      forall l | 0 <= l < NUM_LEVELS
        ensures levels[l] == Put(old(levels)[l], e, l)
      {
        PutIsAfter(old(levels)[l], e, l);
      }
    }

    /** The files of one level of the new version. */
    method SaveLevel(level: nat) returns (files: seq<Meta>)
      requires Valid() && level < NUM_LEVELS
      ensures files == Saved(base[level], levels[level])
    {
      hide Merged;
      hide Remaining;
      hide MetaBefore;
      var kept, extra, gone := base[level], levels[level].added, levels[level].deleted;
      files := [];
      ghost var all := Left([], kept, extra, gone);
      assert all == Saved(base[level], levels[level]) && kept[0..] == kept && extra[0..] == extra;
      var i, j := 0, 0;
      while j < |extra|
        invariant i <= |kept| && j <= |extra| && Left(files, kept[i..], extra[j..], gone) == all
      {
        while i < |kept| && !MetaBefore(extra[j], kept[i])
          invariant i <= |kept| && Left(files, kept[i..], extra[j..], gone) == all
        {
          TakeBase(files, kept[i..], extra[j..], gone);
          files := MaybeAddFile(files, kept[i], gone);
          i := i + 1;
        }
        TakeAdded(files, kept[i..], extra[j..], gone);
        files := MaybeAddFile(files, extra[j], gone);
        j := j + 1;
      }
      assert extra[j..] == [];
      while i < |kept|
        invariant i <= |kept| && Left(files, kept[i..], [], gone) == all
      {
        TakeBase(files, kept[i..], [], gone);
        files := MaybeAddFile(files, kept[i], gone);
        i := i + 1;
      }
      assert kept[i..] == [];
      TakeNone(files, gone);
    }

    static method MaybeAddFile(files: seq<Meta>, f: Meta, gone: set<nat>) returns (r: seq<Meta>)
      ensures r == files + if f.number in gone then [] else [f]
    {
      if f.number in gone {
        r := files;
      } else {
        r := files + [f];
      }
    }

    method SaveTo() returns (v: seq<seq<Meta>>)
      requires Valid()
      ensures |v| == NUM_LEVELS && forall l :: 0 <= l < NUM_LEVELS ==> v[l] == Saved(base[l], levels[l])
    {
      v := [];
      for level := 0 to NUM_LEVELS
        invariant |v| == level && forall l :: 0 <= l < level ==> v[l] == Saved(base[l], levels[l])
      {
        var files := SaveLevel(level);
        v := v + [files];
      }
    }
  }

  ghost function Deleting(slot: Slot, gone: set<(nat, nat)>, l: nat): Slot {
    slot.(deleted := slot.deleted + DeletedOn(gone, l))
  }

  lemma NothingDeleted(slot: Slot, l: nat)
    ensures Deleting(slot, {}, l) == slot
  {
    assert DeletedOn({}, l) == {};
  }

  lemma DeletingNext(slot: Slot, done: set<(nat, nat)>, d: (nat, nat), l: nat)
    ensures var was := Deleting(slot, done, l);
            Deleting(slot, done + {d}, l) == if d.0 == l then was.(deleted := was.deleted + {d.1}) else was
  {
    assert DeletedOn(done + {d}, l) == DeletedOn(done, l) + if d.0 == l then {d.1} else {} by {
      forall n ensures n in DeletedOn(done + {d}, l) <==> n in DeletedOn(done, l) || (l == d.0 && n == d.1) {
        assert n in DeletedOn(done + {d}, l) <==> (l, n) in done + {d};
        assert n in DeletedOn(done, l) <==> (l, n) in done;
      }
    }
  }

  ghost function Adding(slot: Slot, f: Meta): Slot { Slot(slot.deleted - {f.number}, Insert(slot.added, f)) }

  /** The state of a level after some of the added files. */
  ghost function After(slot: Slot, added: seq<(nat, Meta)>, l: nat): Slot {
    Slot(slot.deleted - NumbersIn(AddedOn(added, l)), InsertEach(slot.added, AddedOn(added, l)))
  }

  lemma PutIsAfter(slot: Slot, e: E.Edit, l: nat)
    ensures Put(slot, e, l) == After(Deleting(slot, e.deleted, l), e.added, l)
  {
  }

  lemma NothingAfter(slot: Slot, l: nat)
    ensures After(slot, [], l) == slot
  {
  }

  lemma AfterNext(slot: Slot, added: seq<(nat, Meta)>, i: nat, l: nat)
    requires i < |added|
    ensures var was := After(slot, added[..i], l);
            After(slot, added[..i + 1], l) == if added[i].0 == l then Adding(was, added[i].1) else was
  {
    var files := AddedOn(added[..i], l);
    assert added[..i + 1][..i] == added[..i];
    if added[i].0 == l {
      NumbersNext(files, added[i].1);
      assert (files + [added[i].1])[..|files|] == files;
    } else {
      assert files + [] == files;
    }
  }

  lemma NumbersNext(files: seq<Meta>, f: Meta)
    ensures NumbersIn(files + [f]) == NumbersIn(files) + {f.number}
  {
    forall n ensures n in NumbersIn(files + [f]) <==> n in NumbersIn(files) || n == f.number {
      assert f in files + [f];
      if n in NumbersIn(files) {
        var g :| g in files && g.number == n;
        assert g in files + [f];
      }
    }
  }

  /** What a level will hold once the files still ahead are merged. */
  ghost function Left(files: seq<Meta>, base: seq<Meta>, added: seq<Meta>, gone: set<nat>): seq<Meta> {
    files + Remaining(Merged(base, added), gone)
  }

  lemma TakeBase(files: seq<Meta>, base: seq<Meta>, added: seq<Meta>, gone: set<nat>)
    requires base != [] && (added == [] || !MetaBefore(added[0], base[0]))
    ensures Left(files + if base[0].number in gone then [] else [base[0]], base[1..], added, gone) ==
            Left(files, base, added, gone)
  {
    assert added == [] ==> Merged(base[1..], added) == base[1..];
  }

  lemma TakeAdded(files: seq<Meta>, base: seq<Meta>, added: seq<Meta>, gone: set<nat>)
    requires added != [] && (base == [] || MetaBefore(added[0], base[0]))
    ensures Left(files + if added[0].number in gone then [] else [added[0]], base, added[1..], gone) ==
            Left(files, base, added, gone)
  {
    assert base == [] ==> Merged(base, added[1..]) == added[1..];
  }

  lemma TakeNone(files: seq<Meta>, gone: set<nat>)
    ensures Left(files, [], [], gone) == files
  {
  }

  // ---------- recovering ----------

  /** The bytes of "leveldb.BytewiseComparator". */
  const COMPARATOR: Buffer
    := [108, 101, 118, 101, 108, 100, 98, 46, 66, 121, 116, 101, 119, 105, 115, 101, 67, 111, 109, 112, 97, 114, 97,
        116, 111, 114]

  datatype Failure = Undecodable | WrongComparator | NoNextFile | NoLogNumber | NoLastSequence

  datatype Result<T> = Ok(value: T) | Err(failure: Failure)

  /** The builder's state and the counters read so far. */
  datatype Progress = Progress(slots: seq<Slot>, log: Option<nat>, next: Option<nat>, last: Option<nat>)

  function Start(): Progress { Progress(seq(NUM_LEVELS, _ => Slot({}, [])), None, None, None) }

  function Later<T>(before: Option<T>, read: Option<T>): Option<T> { if read.Some? then read else before }

  function Consume(p: Progress, e: E.Edit): Progress {
    Progress(seq(NUM_LEVELS, l requires 0 <= l < NUM_LEVELS =>
                   if l < |p.slots| then Put(p.slots[l], e, l) else Slot({}, [])),
             Later(p.log, e.logNumber), Later(p.next, e.nextFile), Later(p.last, e.lastSequence))
  }

  function ReadEdit(record: Buffer): Result<E.Edit> {
    match E.DecodeRest(E.EMPTY, record)
    case None => Err(Undecodable)
    case Some(e) => if e.comparator.Some? && e.comparator.value != COMPARATOR then Err(WrongComparator) else Ok(e)
  }

  function Consumed(records: seq<Buffer>): Result<Progress> {
    if records == [] then Ok(Start())
    else
      var before := Consumed(records[..|records| - 1]);
      if before.Err? then before else ConsumeOne(before.value, records[|records| - 1])
  }

  function ConsumeOne(p: Progress, record: Buffer): Result<Progress> {
    var e := ReadEdit(record);
    if e.Err? then Err(e.failure) else Ok(Consume(p, e.value))
  }

  /** What a manifest says: the files of every level, by number, size and key range, and three counters. */
  datatype Found = Found(levels: seq<seq<Meta>>, logNumber: nat, nextFile: nat, lastSequence: nat)

  function Concluded(p: Progress): Result<Found> {
    if p.next.None? then Err(NoNextFile)
    else if p.log.None? then Err(NoLogNumber)
    else if p.last.None? then Err(NoLastSequence)
    else
      var levels := seq(|p.slots|, l requires 0 <= l < |p.slots| => Saved([], p.slots[l]));
      Ok(Found(levels, p.log.value, p.next.value, p.last.value))
  }

  function Recovered(records: seq<Buffer>): Result<Found> {
    var p := Consumed(records);
    if p.Err? then Err(p.failure) else Concluded(p.value)
  }

  lemma {:induction false} DecodedLevels(e: E.Edit, b: Buffer)
    requires LevelsOk(e) && E.DecodeRest(e, b).Some?
    ensures LevelsOk(E.DecodeRest(e, b).value)
    decreases |b|
  {
    hide E.DecodeRest;
    hide E.ItemAt;
    hide E.Number32;
    var next := DecodesMore(e, b);
    if next.Some? {
      DecodedLevels(E.Add(e, next.value.0), next.value.1);
    }
  }

  /** Decoding is over, or one item is added, on a level there is. */
  lemma DecodesMore(e: E.Edit, b: Buffer) returns (next: Option<(E.Item, Buffer)>)
    requires E.DecodeRest(e, b).Some?
    ensures next.None? ==> E.DecodeRest(e, b) == Some(e)
    ensures next.Some? ==>
              var (item, rest) := next.value;
              && |rest| < |b| && E.DecodeRest(e, b) == E.DecodeRest(E.Add(e, item), rest)
              && (item.DeletedFile? ==> item.level < NUM_LEVELS) && (item.NewFile? ==> item.level < NUM_LEVELS)
  {
    hide E.ItemAt;
    hide E.Number32;
    var tag := E.Number32(b);
    if tag.None? {
      next := None;
    } else {
      ItemLevel(tag.value.0, tag.value.1);
      next := E.ItemAt(tag.value.0, tag.value.1);
    }
  }

  lemma ItemLevel(tag: nat, b: Buffer)
    requires E.ItemAt(tag, b).Some?
    ensures var item := E.ItemAt(tag, b).value.0;
            && (item.DeletedFile? ==> item.level < NUM_LEVELS)
            && (item.NewFile? ==> item.level < NUM_LEVELS)
  {
    hide E.FileAt;
    hide E.Number32;
    hide E.Number64;
    hide E.Text;
  }

  lemma {:induction false} ConsumedFailsEarly(records: seq<Buffer>, n: nat)
    requires n <= |records| && Consumed(records[..n]).Err?
    ensures Consumed(records) == Consumed(records[..n])
    decreases |records|
  {
    if n < |records| {
      assert records[..|records| - 1][..n] == records[..n];
      ConsumedFailsEarly(records[..|records| - 1], n);
    } else {
      assert records[..n] == records;
    }
  }

  lemma ConsumedNext(records: seq<Buffer>, i: nat)
    requires i < |records| && Consumed(records[..i]).Ok?
    ensures Consumed(records[..i + 1]) == ConsumeOne(Consumed(records[..i]).value, records[i])
  {
    assert records[..i + 1][..i] == records[..i];
  }

  /** The counters a manifest must set. */
  datatype Counter = LogCounter | NextFileCounter | SequenceCounter

  function CounterOf(e: E.Edit, c: Counter): Option<nat> {
    match c
    case LogCounter => e.logNumber
    case NextFileCounter => e.nextFile
    case SequenceCounter => e.lastSequence
  }

  ghost predicate AllRead(records: seq<Buffer>) {
    forall i {:trigger records[i]} :: 0 <= i < |records| ==> ReadEdit(records[i]).Ok?
  }

  /** What a counter was last set to, if any record sets it. */
  ghost predicate LastSet(records: seq<Buffer>, c: Counter, r: Option<nat>)
    requires AllRead(records)
  {
    match r
    case None => forall i {:trigger records[i]} :: 0 <= i < |records| ==> CounterOf(ReadEdit(records[i]).value, c).None?
    case Some(v) =>
      exists i {:trigger records[i]} ::
        && 0 <= i < |records| && CounterOf(ReadEdit(records[i]).value, c) == Some(v)
        && forall j {:trigger records[j]} :: i < j < |records| ==> CounterOf(ReadEdit(records[j]).value, c).None?
  }

  lemma LastSetNext(records: seq<Buffer>, c: Counter, before: Option<nat>)
    requires AllRead(records) && records != [] && AllRead(records[..|records| - 1])
    requires LastSet(records[..|records| - 1], c, before)
    ensures LastSet(records, c, Later(before, CounterOf(ReadEdit(records[|records| - 1]).value, c)))
  {
    hide ReadEdit;
    var n := |records| - 1;
    if CounterOf(ReadEdit(records[n]).value, c).None? && before.Some? {
      var i :| 0 <= i < n && CounterOf(ReadEdit(records[..n][i]).value, c) == before &&
               forall j {:trigger records[..n][j]} :: i < j < n ==> CounterOf(ReadEdit(records[..n][j]).value, c).None?;
      assert records[i] == records[..n][i];
      forall j {:trigger records[j]} | i < j < |records| ensures CounterOf(ReadEdit(records[j]).value, c).None? {
        if j < n { assert records[j] == records[..n][j]; }
      }
    }
    if before.None? {
      forall i {:trigger records[i]} | 0 <= i < n ensures CounterOf(ReadEdit(records[i]).value, c).None? {
        assert records[i] == records[..n][i];
      }
    }
  }

  /** A manifest is read exactly if each of its records is, and the counters are those last set. */
  lemma {:induction false} ConsumedIff(records: seq<Buffer>)
    ensures Consumed(records).Ok? <==> AllRead(records)
    ensures Consumed(records).Ok? ==>
              var p := Consumed(records).value;
              && LastSet(records, LogCounter, p.log) && LastSet(records, NextFileCounter, p.next)
              && LastSet(records, SequenceCounter, p.last)
  {
    hide ReadEdit;
    hide LastSet;
    if records == [] {
      NothingSet(LogCounter);
      NothingSet(NextFileCounter);
      NothingSet(SequenceCounter);
    } else {
      var n := |records| - 1;
      ConsumedIff(records[..n]);
      ReadSplits(records);
      if AllRead(records) {
        var p := Consumed(records[..n]).value;
        LastSetNext(records, LogCounter, p.log);
        LastSetNext(records, NextFileCounter, p.next);
        LastSetNext(records, SequenceCounter, p.last);
      }
    }
  }

  lemma NothingSet(c: Counter)
    ensures AllRead([]) && LastSet([], c, None)
  {
  }

  lemma ReadSplits(records: seq<Buffer>)
    requires records != []
    ensures AllRead(records) <==> AllRead(records[..|records| - 1]) && ReadEdit(records[|records| - 1]).Ok?
  {
    hide ReadEdit;
    var n := |records| - 1;
    if AllRead(records[..n]) && ReadEdit(records[n]).Ok? {
      forall i {:trigger records[i]} | 0 <= i < |records| ensures ReadEdit(records[i]).Ok? {
        if i < n { assert records[i] == records[..n][i]; }
      }
    }
    if AllRead(records) {
      forall i {:trigger records[..n][i]} | 0 <= i < n ensures ReadEdit(records[..n][i]).Ok? {
        assert records[..n][i] == records[i];
      }
    }
  }

  ghost predicate SomeSets(records: seq<Buffer>, c: Counter)
    requires AllRead(records)
  {
    exists i {:trigger records[i]} :: 0 <= i < |records| && CounterOf(ReadEdit(records[i]).value, c).Some?
  }

  lemma SetIff(records: seq<Buffer>, c: Counter, r: Option<nat>)
    requires AllRead(records) && LastSet(records, c, r)
    ensures r.Some? <==> SomeSets(records, c)
  {
    hide ReadEdit;
  }

  /** Recovery succeeds exactly if every record can be read, with the own comparator or none, and the log number, the
      next file number and the last sequence are each set by some record; it takes the ones set last. */
  lemma RecoversIff(records: seq<Buffer>)
    ensures Recovered(records).Ok? <==>
            && AllRead(records) && SomeSets(records, LogCounter) && SomeSets(records, NextFileCounter)
            && SomeSets(records, SequenceCounter)
    ensures Recovered(records).Ok? ==>
              var found := Recovered(records).value;
              && LastSet(records, LogCounter, Some(found.logNumber))
              && LastSet(records, NextFileCounter, Some(found.nextFile))
              && LastSet(records, SequenceCounter, Some(found.lastSequence))
  {
    hide ReadEdit;
    hide LastSet;
    hide SomeSets;
    hide AllRead;
    hide Consumed;
    ConsumedIff(records);
    if AllRead(records) {
      var p := Consumed(records).value;
      SetIff(records, LogCounter, p.log);
      SetIff(records, NextFileCounter, p.next);
      SetIff(records, SequenceCounter, p.last);
    }
  }

  /** VersionSet::Recover, on the records of the manifest. */
  method Recover(records: seq<Buffer>) returns (r: Result<Found>)
    ensures r == Recovered(records)
  {
    hide Put;
    hide E.DecodeRest;
    hide Saved;
    var builder := new Builder(seq(NUM_LEVELS, _ => []));
    var log: Option<nat>, next: Option<nat>, last: Option<nat> := None, None, None;
    for i := 0 to |records|
      invariant builder.Valid() && Consumed(records[..i]) == Ok(Progress(builder.levels, log, next, last))
    {
      ConsumedNext(records, i);
      var decoded := E.DecodeFrom(records[i]);
      if decoded.None? {
        ConsumedFailsEarly(records, i + 1);
        return Err(Undecodable);
      }
      var e := decoded.value;
      if e.comparator.Some? && e.comparator.value != COMPARATOR {
        ConsumedFailsEarly(records, i + 1);
        return Err(WrongComparator);
      }
      DecodedLevels(E.EMPTY, records[i]);
      ghost var p := Progress(builder.levels, log, next, last);
      builder.Apply(e);
      assert builder.levels == Consume(p, e).slots;
      if e.logNumber.Some? {
        log := e.logNumber;
      }
      if e.nextFile.Some? {
        next := e.nextFile;
      }
      if e.lastSequence.Some? {
        last := e.lastSequence;
      }
    }
    assert records[..|records|] == records;
    if next.None? {
      return Err(NoNextFile);
    }
    if log.None? {
      return Err(NoLogNumber);
    }
    if last.None? {
      return Err(NoLastSequence);
    }
    var v := builder.SaveTo();
    ghost var p := Progress(builder.levels, log, next, last);
    assert forall l :: 0 <= l < NUM_LEVELS ==> builder.base[l] == [];
    assert v == Concluded(p).value.levels;
    r := Ok(Found(v, log.value, next.value, last.value));
  }
}
