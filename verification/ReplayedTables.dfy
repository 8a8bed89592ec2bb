/** The tables that a replay of log bytes writes out are those that `Durability` lets a reopened database load. */
module ReplayedTables {
  import opened Options
  import opened Bytewise
  import opened InternalKeys
  import opened Files
  import opened WriteBatches
  import opened LogReplay
  import opened WriteAheadLogs
  import D = Durability
  import G = GroupCommit

  /** The entry that MemTableInserter adds. */
  ghost function EntryOf(n: Sequence, op: Op): Entry {
    match op
    case Put(key, value) => Entry(InternalKey(Rank(key), n, Value), value)
    case Delete(key) => Entry(InternalKey(Rank(key), n, Deletion), [])
  }

  ghost predicate Numbering(t: Inserted) { forall i :: 0 <= i < |t| ==> t[i].0 <= MAX_SEQUENCE }

  /** What a memtable holds. */
  ghost function Contents(t: Inserted): set<Entry>
    requires Numbering(t)
  {
    set i | 0 <= i < |t| :: EntryOf(t[i].0, t[i].1)
  }

  lemma ContentsJoin(a: Inserted, b: Inserted)
    requires Numbering(a) && Numbering(b)
    ensures Numbering(a + b) && Contents(a + b) == Contents(a) + Contents(b)
  {
    forall e | e in Contents(a) + Contents(b) ensures e in Contents(a + b) {
      if e in Contents(a) {
        var i :| 0 <= i < |a| && e == EntryOf(a[i].0, a[i].1);
        assert (a + b)[i] == a[i];
      } else {
        var i :| 0 <= i < |b| && e == EntryOf(b[i].0, b[i].1);
        assert (a + b)[|a| + i] == b[i];
      }
    }
  }

  /** The groups as `Durability` knows them: entries with their sequence numbers. */
  ghost function AsGroup(first: nat, ops: seq<Op>): D.Group
    requires first + |ops| <= MAX_SEQUENCE
  {
    seq(|ops|, i requires 0 <= i < |ops| => EntryOf(first + i, ops[i]))
  }

  ghost predicate Small(first: nat, groups: seq<seq<Op>>) { FirstOf(first, groups, |groups|) <= MAX_SEQUENCE }

  lemma SmallAt(first: nat, groups: seq<seq<Op>>, i: nat)
    requires Small(first, groups) && i < |groups|
    ensures FirstOf(first, groups, i) + |groups[i]| <= MAX_SEQUENCE
  {
    InsertsNext(first, groups, i, i);
    OpsSplit(groups, i + 1, |groups|);
    assert groups[..|groups|] == groups;
  }

  ghost function GroupAt(first: nat, groups: seq<seq<Op>>, i: nat): D.Group
    requires Small(first, groups) && i < |groups|
  {
    SmallAt(first, groups, i);
    AsGroup(FirstOf(first, groups, i), groups[i])
  }

  ghost function AsGroups(first: nat, groups: seq<seq<Op>>): seq<D.Group>
    requires Small(first, groups)
  {
    seq(|groups|, i requires 0 <= i < |groups| => GroupAt(first, groups, i))
  }

  lemma OneGroup(first: nat, ops: seq<Op>)
    requires first + |ops| <= MAX_SEQUENCE
    ensures Numbering(G.Numbered(first, ops))
    ensures Contents(G.Numbered(first, ops)) == SetOf(AsGroup(first, ops))
  {
    var t := G.Numbered(first, ops);
    forall e | e in SetOf(AsGroup(first, ops)) ensures e in Contents(t) {
      var i :| 0 <= i < |ops| && AsGroup(first, ops)[i] == e;
      assert EntryOf(t[i].0, t[i].1) == e;
    }
    forall e | e in Contents(t) ensures e in SetOf(AsGroup(first, ops)) {
      var i :| 0 <= i < |t| && e == EntryOf(t[i].0, t[i].1);
      assert AsGroup(first, ops)[i] == e;
    }
  }

  lemma EntriesNext(groups: seq<D.Group>, a: nat, b: nat)
    requires a <= b < |groups|
    ensures D.EntriesIn(groups[a..b + 1]) == D.EntriesIn(groups[a..b]) + SetOf(groups[b])
  {
    var more := groups[a..b + 1];
    assert more[b - a] == groups[b] && more[..b - a] == groups[a..b];
    forall e | e in D.EntriesIn(groups[a..b]) + SetOf(groups[b]) ensures e in D.EntriesIn(more) {
      if e in groups[b] {
        assert e in more[b - a];
      } else {
        var i :| 0 <= i < b - a && e in groups[a..b][i];
        assert e in more[i];
      }
    }
  }

  /** A table that replay writes out holds the entries of the groups it was filled with. */
  lemma {:induction false} TableIsPart(first: nat, groups: seq<seq<Op>>, a: nat, b: nat)
    requires Small(first, groups) && a <= b <= |groups|
    ensures Numbering(InsertsOf(first, groups, a, b))
    ensures Contents(InsertsOf(first, groups, a, b)) == D.EntriesIn(AsGroups(first, groups)[a..b])
    decreases b
  {
    hide Contents;
    hide D.EntriesIn;
    hide InsertsOf;
    hide SetOf;
    if a == b {
      NoInserts(first, groups, a);
      NothingIn(AsGroups(first, groups)[a..b]);
    } else {
      TableIsPart(first, groups, a, b - 1);
      InsertsNext(first, groups, a, b - 1);
      SmallAt(first, groups, b - 1);
      OneGroup(FirstOf(first, groups, b - 1), groups[b - 1]);
      ContentsJoin(InsertsOf(first, groups, a, b - 1), G.Numbered(FirstOf(first, groups, b - 1), groups[b - 1]));
      EntriesNext(AsGroups(first, groups), a, b - 1);
    }
  }

  lemma NothingIn(groups: seq<D.Group>)
    requires groups == []
    ensures D.EntriesIn(groups) == {} && Numbering([]) && Contents([]) == {}
  {
  }

  /** Each table that is not empty becomes a level-0 file, with rising numbers. */
  ghost predicate WrittenAs(tables: seq<Inserted>, files: seq<Option<File>>, low: nat, next: nat) {
    && |files| == |tables|
    && (forall i {:trigger tables[i]} :: 0 <= i < |tables| ==>
          Numbering(tables[i]) &&
          if tables[i] == [] then files[i].None?
          else files[i].Some? && Held(files[i].value) == Contents(tables[i]) && low < files[i].value.number < next)
    && (forall i, j ::
        0 <= i < j < |files| && files[i].Some? && files[j].Some? ==> files[i].value.number < files[j].value.number)
  }

  /** What replaying bytes writes out is what reopening in `Durability` may load, after the groups that its tables
      already cover. */
  lemma ReplayFits(covered: seq<D.Group>, first: nat, groups: seq<seq<Op>>, k: nat, cuts: seq<nat>,
                   tables: seq<Inserted>, files: seq<Option<File>>, low: nat, next: nat)
    requires CutInto(first, groups, k, cuts, tables) && Small(first, groups) && WrittenAs(tables, files, low, next)
    ensures D.TablesFit(covered + AsGroups(first, groups)[..k], Shifted(cuts, |covered|), files, low, next)
  {
    hide Contents;
    hide D.EntriesIn;
    hide InsertsOf;
    hide AsGroups;
    GroupsCount(first, groups);
    var all, moved := covered + AsGroups(first, groups)[..k], Shifted(cuts, |covered|);
    forall i | 0 <= i < |files|
      ensures if D.EntriesIn(D.Part(all, moved, i)) == {} then files[i].None?
              else
                && files[i].Some? && Held(files[i].value) == D.EntriesIn(D.Part(all, moved, i))
                && low < files[i].value.number < next
    {
      assert tables[i] == InsertsOf(first, groups, cuts[i], cuts[i + 1]);
      TableIsPart(first, groups, cuts[i], cuts[i + 1]);
      assert D.Part(all, moved, i) == AsGroups(first, groups)[cuts[i]..cuts[i + 1]];
      EmptyContents(tables[i]);
    }
  }

  lemma GroupsCount(first: nat, groups: seq<seq<Op>>)
    requires Small(first, groups)
    ensures |AsGroups(first, groups)| == |groups|
  {
  }

  lemma EmptyContents(t: Inserted)
    requires Numbering(t)
    ensures Contents(t) == {} <==> t == []
  {
    if t != [] { assert EntryOf(t[0].0, t[0].1) in Contents(t); }
  }
}
