/** DBImpl::NewIterator in any reachable state: a DbIter over a merging iterator over the memtables, the files of
    level 0, and each deeper level as one concatenated list. */
module DbScans {
  import opened Options
  import opened InternalKeys
  import opened Cursors
  import opened Files
  import opened PointLookup
  import opened CompactionWork
  import opened TreeSteps
  import opened LsmMachine
  import opened MergingIterators
  import I = DbIterators
  import J = Journals
  import R = ManifestReplay

  // ---------- lists without common entries ----------

  /** Sorted lists with distinct keys that hold exactly the entries of a set. */
  ghost predicate Lists(lists: seq<seq<Entry>>, es: set<Entry>) {
    AllSorted(lists) && DistinctKeys(lists) && forall e :: Holds(lists, e) <==> e in es
  }

  lemma ListsJoin(a: seq<seq<Entry>>, x: set<Entry>, b: seq<seq<Entry>>, y: set<Entry>)
    requires Lists(a, x) && Lists(b, y) && Unique(x + y) && x !! y
    ensures Lists(a + b, x + y)
  {
    var all := a + b;
    forall e ensures Holds(all, e) <==> e in x + y {
      HoldsJoin(a, b, e);
    }
    forall i, j, p: Entry, q: Entry | 0 <= i < j < |all| && p in all[i] && q in all[j] ensures p.key != q.key {
      if i < |a| <= j {
        assert Holds(a, p) && Holds(b, q) by { assert p in a[i] && q in b[j - |a|]; }
      }
    }
  }

  lemma HoldsJoin(a: seq<seq<Entry>>, b: seq<seq<Entry>>, e: Entry)
    ensures Holds(a + b, e) <==> Holds(a, e) || Holds(b, e)
  {
    if Holds(a, e) {
      var i :| 0 <= i < |a| && e in a[i];
      assert e in (a + b)[i];
    }
    if Holds(b, e) {
      var i :| 0 <= i < |b| && e in b[i];
      assert e in (a + b)[|a| + i];
    }
  }

  lemma OneList(list: seq<Entry>, es: set<Entry>)
    requires Sorted(list) && SetOf(list) == es
    ensures Lists([list], es)
  {
    forall e ensures Holds([list], e) <==> e in es {
      assert e in list ==> e in [list][0];
      assert e in SetOf(list) <==> e in list;
    }
  }

  lemma NoLists()
    ensures Lists([], {})
  {
  }

  // ---------- the lists of a version ----------

  ghost function FileLists(files: seq<File>): seq<seq<Entry>> {
    seq(|files|, i requires 0 <= i < |files| => files[i].entries)
  }

  lemma FilesHoldKeysOnce(f: File, g: File, p: Entry, q: Entry)
    requires AllNewer(Held(f), Held(g)) || AllNewer(Held(g), Held(f))
    requires p in f.entries && q in g.entries
    ensures p.key != q.key
  {
    assert p in Held(f) && q in Held(g);
  }

  lemma LevelZeroLists(files: seq<File>)
    requires NumbersNewer(files) && R.OneEach(files)
    ensures Lists(FileLists(files), EntriesOf(files))
  {
    hide Table.Valid;
    hide AllNewer;
    var lists := FileLists(files);
    forall i, j, p: Entry, q: Entry | 0 <= i < j < |lists| && p in lists[i] && q in lists[j] ensures p.key != q.key {
      var f, g := files[i], files[j];
      assert f in files && g in files;
      FilesHoldKeysOnce(f, g, p, q);
    }
    forall i | 0 <= i < |lists| ensures Sorted(lists[i]) { FileIsSorted(files[i]); }
    forall e ensures Holds(lists, e) <==> e in EntriesOf(files) { FileListsHold(files, e); }
  }

  lemma FileIsSorted(f: File)
    ensures Sorted(f.entries)
  {
  }

  lemma FileListsHold(files: seq<File>, e: Entry)
    ensures Holds(FileLists(files), e) <==> e in EntriesOf(files)
  {
    hide Table.Valid;
    var lists := FileLists(files);
    if e in EntriesOf(files) {
      var f :| f in files && e in f.entries;
      var i :| 0 <= i < |files| && files[i] == f;
      assert e in lists[i];
    }
    if Holds(lists, e) {
      var i :| 0 <= i < |lists| && e in lists[i];
      assert files[i] in files;
    }
  }

  /** NewConcatenatingIterator walks the files of a level one after the other. */
  lemma {:induction false} LevelIsSorted(files: seq<File>)
    requires LevelSorted(files)
    ensures Sorted(Flatten(files))
  {
    if files != [] {
      var n := |files| - 1;
      LevelIsSorted(files[..n]);
      forall e | e in Flatten(files[..n]) ensures Before(e.key, files[n].entries[0].key) {
        FlattenHolds(files[..n], e);
        var f :| f in files[..n] && e in f.entries;
        EntryInRange(f, e);
        var i :| 0 <= i < n && files[i] == f;
        assert Before(files[i].largest, files[n].smallest);
      }
      TwoSorted(Flatten(files[..n]), files[n].entries);
    }
  }

  lemma TwoSorted(a: seq<Entry>, b: seq<Entry>)
    requires Sorted(a) && Sorted(b) && b != [] && forall e :: e in a ==> Before(e.key, b[0].key)
    ensures Sorted(a + b)
  {
    var all := a + b;
    forall i, j | 0 <= i < j < |all| ensures Before(all[i].key, all[j].key) {
      if i < |a| <= j {
        assert a[i] in a;
        assert j > |a| ==> Before(b[0].key, b[j - |a|].key);
      }
    }
  }

  /** AddIterators, from level `l` on: levels without files are passed over. */
  ghost function LevelLists(v: Version, l: nat): seq<seq<Entry>>
    requires l <= NUM_LEVELS
    decreases NUM_LEVELS - l
  {
    if l == NUM_LEVELS then []
    else (if v[l] == [] then [] else if l == 0 then FileLists(v[0]) else [Flatten(v[l])]) + LevelLists(v, l + 1)
  }

  ghost function Below(v: Version, l: nat): set<Entry> {
    set m, e | l <= m < NUM_LEVELS && e in EntriesOf(v[m]) :: e
  }

  lemma LevelList(v: Version, next: nat, l: nat)
    requires TreeOk(v, next) && Unique(AllEntries(v)) && R.OneEach(v[0]) && l < NUM_LEVELS
    ensures Lists(if v[l] == [] then [] else if l == 0 then FileLists(v[0]) else [Flatten(v[l])], EntriesOf(v[l]))
  {
    LevelIsUnique(v, l);
    if v[l] == [] {
      NoLists();
      assert EntriesOf(v[l]) == {};
    } else if l == 0 {
      LevelZeroLists(v[0]);
    } else {
      LevelIsSorted(v[l]);
      forall e ensures e in SetOf(Flatten(v[l])) <==> e in EntriesOf(v[l]) { FlattenHolds(v[l], e); }
      OneList(Flatten(v[l]), EntriesOf(v[l]));
    }
  }

  lemma {:induction false} LevelsAreLists(v: Version, next: nat, l: nat)
    requires TreeOk(v, next) && Unique(AllEntries(v)) && R.OneEach(v[0]) && l <= NUM_LEVELS
    ensures Lists(LevelLists(v, l), Below(v, l))
    decreases NUM_LEVELS - l
  {
    hide Lists;
    hide TreeOk;
    hide Flatten;
    if l == NUM_LEVELS {
      NoLists();
      assert Below(v, l) == {};
    } else {
      LevelList(v, next, l);
      LevelsAreLists(v, next, l + 1);
      BelowNext(v, next, l);
      ListsJoin(if v[l] == [] then [] else if l == 0 then FileLists(v[0]) else [Flatten(v[l])], EntriesOf(v[l]),
                LevelLists(v, l + 1), Below(v, l + 1));
    }
  }

  lemma BelowNext(v: Version, next: nat, l: nat)
    requires TreeOk(v, next) && Unique(AllEntries(v)) && l < NUM_LEVELS
    ensures Below(v, l) == EntriesOf(v[l]) + Below(v, l + 1) && EntriesOf(v[l]) !! Below(v, l + 1)
    ensures Below(v, l) <= AllEntries(v) && Unique(EntriesOf(v[l]) + Below(v, l + 1))
  {
    forall e | e in EntriesOf(v[l]) && e in Below(v, l + 1) ensures false {
      var m :| l + 1 <= m < NUM_LEVELS && e in EntriesOf(v[m]);
      LevelPair(v, l, m, e, e);
    }
  }

  // ---------- the lists of a state ----------

  /** NewInternalIterator: the memtable, the immutable one if there is one, and the lists of the version. */
  ghost function Sources(mem: seq<Entry>, imm: Option<seq<Entry>>, v: Version): seq<seq<Entry>> {
    [mem] + (if imm.Some? then [imm.value] else []) + LevelLists(v, 0)
  }

  /** A memtable walked in order. */
  ghost predicate Walks(list: seq<Entry>, es: set<Entry>) { Sorted(list) && SetOf(list) == es }

  ghost predicate MemtablesWalked(s: State, mem: seq<Entry>, imm: Option<seq<Entry>>) {
    Walks(mem, s.mem) && imm.Some? == s.imm.Some? && (imm.Some? ==> Walks(imm.value, s.imm.value))
  }

  lemma LayersApart(s: State)
    requires Inv(s)
    ensures Unique(s.mem + (Imm(s) + AllEntries(s.current))) && Unique(Imm(s) + AllEntries(s.current))
    ensures s.mem !! Imm(s) + AllEntries(s.current) && Imm(s) !! AllEntries(s.current)
  {
  }

  lemma ImmLists(s: State, mem: seq<Entry>, imm: Option<seq<Entry>>)
    requires MemtablesWalked(s, mem, imm)
    ensures Lists(if imm.Some? then [imm.value] else [], Imm(s)) && Lists([mem], s.mem)
  {
    OneList(mem, s.mem);
    NoLists();
    if imm.Some? { OneList(imm.value, s.imm.value); }
  }

  lemma SourcesAreLists(s: State, mem: seq<Entry>, imm: Option<seq<Entry>>)
    requires Inv(s) && R.OneEach(s.current[0]) && MemtablesWalked(s, mem, imm)
    ensures Lists(Sources(mem, imm, s.current), Stored(s))
  {
    hide Lists;
    hide LevelLists;
    hide MemtablesWalked;
    var frozen := if imm.Some? then [imm.value] else [];
    var tree := LevelLists(s.current, 0);
    LayersApart(s);
    ImmLists(s, mem, imm);
    LevelsAreLists(s.current, s.nextFile, 0);
    assert Below(s.current, 0) == AllEntries(s.current);
    ListsJoin(frozen, Imm(s), tree, AllEntries(s.current));
    ListsJoin([mem], s.mem, frozen + tree, Imm(s) + AllEntries(s.current));
    assert [mem] + (frozen + tree) == Sources(mem, imm, s.current);
    assert s.mem + (Imm(s) + AllEntries(s.current)) == Stored(s);
  }

  lemma LevelZeroOnce(states: seq<State>, steps: seq<Step>, n: nat)
    requires IsRun(states, steps) && n < |states|
    ensures R.OneEach(states[n].current[0])
  {
    J.RunJournal(states, steps, n, n);
    J.LiveListed(J.JournalAt(states, steps, n, n), states[n].current, states[n].nextFile, J.From(states[n]));
  }

  /** What the merging iterator over these lists walks is everything that is stored. */
  lemma UnionIsStored(s: State, lists: seq<seq<Entry>>) returns (merged: seq<Entry>)
    requires Lists(lists, Stored(s))
    ensures Legal(lists, merged) && SetOf(merged) == Stored(s)
  {
    merged := UnionExists(lists);
    forall e ensures e in SetOf(merged) <==> e in Stored(s) { assert e in merged <==> Holds(lists, e); }
  }

  /** The pairs that the history makes visible at `t`, with rising keys. */
  ghost predicate IsView(pairs: seq<I.Pair>, written: set<Entry>, t: Sequence) {
    && (forall user, value :: (user, value) in pairs <==> Visible(written, user, t) == Some(value))
    && (forall i, j :: 0 <= i < j < |pairs| ==> pairs[i].0 < pairs[j].0)
  }

  /** In every state of every boundary-closed run, an iterator over the real sources, at the last sequence or at a
      live snapshot, shows to any sequence of calls what a plain cursor over the visible history shows. */
  method Scan(children: seq<Cursor>, t: Sequence, moves: seq<Move<UserKey>>, ghost states: seq<State>,
              ghost steps: seq<Step>, ghost n: nat, ghost mem: seq<Entry>, ghost imm: Option<seq<Entry>>)
    returns (seen: seq<Option<I.Pair>>, ghost pairs: seq<I.Pair>)
    requires ClosedRun(states, steps) && n < |states|
    requires t == states[n].lastSequence || t in states[n].snapshots
    requires MemtablesWalked(states[n], mem, imm)
    requires ChildrenOk(children) && ListsOf(children) == Sources(mem, imm, states[n].current)
    modifies children
    ensures IsView(pairs, states[n].written, t) && seen == I.Walk(pairs, |pairs|, moves)
    ensures I.AllShow(pairs, None, moves, seen)
  {
    hide Inv;
    hide Sources;
    hide Lists;
    hide Legal;
    hide MemtablesWalked;
    hide IsRun;
    ghost var s := states[n];
    RunKeepsInv(states, steps, n);
    LevelZeroOnce(states, steps, n);
    SourcesAreLists(s, mem, imm);
    ghost var merged := UnionIsStored(s, ListsOf(children));
    var inner := new MergingIterator(children, merged);
    var it := new I.DbIter(inner, t);
    pairs := I.Map(merged, t);
    seen := I.Drive(it, moves);
    ViewOfHistory(states, steps, n, merged, t);
    I.WalkAllShows(pairs, |pairs|, moves);
  }

  lemma ViewOfHistory(states: seq<State>, steps: seq<Step>, n: nat, merged: seq<Entry>, t: Sequence)
    requires ClosedRun(states, steps) && n < |states| && (t == states[n].lastSequence || t in states[n].snapshots)
    requires Sorted(merged) && SetOf(merged) == Stored(states[n])
    ensures IsView(I.Map(merged, t), states[n].written, t)
  {
    hide ClosedRun;
    hide I.Pairs;
    forall user, value
      ensures (user, value) in I.Map(merged, t) <==> Visible(states[n].written, user, t) == Some(value)
    {
      ScansAreExact(states, steps, n, merged, user, value, t);
    }
    I.MapIsSorted(merged, t, |merged|);
  }
}
