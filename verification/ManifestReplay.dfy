/** Reading a manifest back with one builder (VersionSet::Recover) against applying each edit to the
    version before it (LogAndApply), for the files of one level. */
module ManifestReplay {
  import opened Files
  import opened TreeSteps
  import opened PointLookup
  import opened VersionBuilder

  /** What an edit does to one level. */
  datatype LevelEdit = LevelEdit(deleted: set<nat>, added: seq<File>)

  /** LevelState of the builder: deleted numbers, and added files in order of their smallest keys. */
  datatype LevelState = LevelState(deleted: set<nat>, added: seq<File>)

  /** A set ordered by smallest key and number ignores a file that compares equal to one it has. */
  function InsertSorted(added: seq<File>, f: File): seq<File> {
    if added == [] || BySmallest(f, added[0]) then [f] + added
    else if BySmallest(added[0], f) then [added[0]] + InsertSorted(added[1..], f)
    else added
  }

  function InsertAll(added: seq<File>, files: seq<File>): seq<File> {
    if files == [] then added else InsertSorted(InsertAll(added, files[..|files| - 1]), files[|files| - 1])
  }

  /** Builder::Apply. */
  function Apply(st: LevelState, e: LevelEdit): LevelState {
    LevelState((st.deleted + e.deleted) - NumbersOf(e.added), InsertAll(st.added, e.added))
  }

  function ApplyAll(edits: seq<LevelEdit>): LevelState {
    if edits == [] then LevelState({}, []) else Apply(ApplyAll(edits[..|edits| - 1]), edits[|edits| - 1])
  }

  /** Builder::SaveTo. */
  function Save(base: seq<File>, st: LevelState): seq<File> { SaveLevel(base, st.deleted, st.added) }

  /** One builder for all edits, as in Recover. */
  function Replayed(base: seq<File>, edits: seq<LevelEdit>): seq<File> { Save(base, ApplyAll(edits)) }

  /** A builder for each edit on top of the version before, as in LogAndApply. */
  function Live(base: seq<File>, edits: seq<LevelEdit>): seq<File> {
    if edits == [] then base
    else Save(Live(base, edits[..|edits| - 1]), Apply(LevelState({}, []), edits[|edits| - 1]))
  }

  ghost predicate OneEach(files: seq<File>) {
    forall i, j :: 0 <= i < j < |files| ==> files[i].number != files[j].number
  }

  /** The numbers the level has held. */
  ghost function EverHeld(base: seq<File>, edits: seq<LevelEdit>): set<nat> {
    if edits == [] then Numbers(base) else EverHeld(base, edits[..|edits| - 1]) + Numbers(edits[|edits| - 1].added)
  }

  /** No edit adds a number that the level already held. */
  ghost predicate NeverReadds(base: seq<File>, edits: seq<LevelEdit>) {
    edits == [] ||
      var e, before := edits[|edits| - 1], edits[..|edits| - 1];
      NeverReadds(base, before) && OneEach(e.added) && Numbers(e.added) !! EverHeld(base, before)
  }

  // ---------- two sorted lists with the same files are the same ----------

  lemma BySmallestTotal(f: File, g: File)
    requires f.number != g.number
    ensures BySmallest(f, g) || BySmallest(g, f)
  {
  }

  lemma BySmallestAsymmetric(f: File, g: File)
    requires BySmallest(f, g)
    ensures !BySmallest(g, f)
  {
  }

  lemma {:induction false} SortedIsUnique(a: seq<File>, b: seq<File>)
    requires InOrder(a) && InOrder(b) && multiset(a) == multiset(b)
    requires forall f, g :: f in a && g in a && f.number == g.number ==> f == g
    ensures a == b
  {
    if a == [] {
      assert |multiset(a)| == |multiset(b)|;
    } else {
      assert a[0] in multiset(b) && |b| > 0;
      assert b[0] in multiset(a);
      HeadsAgree(a, b);
      TailsAgree(a, b);
      InOrderTail(a);
      InOrderTail(b);
      SortedIsUnique(a[1..], b[1..]);
    }
  }

  lemma TailsAgree(a: seq<File>, b: seq<File>)
    requires a != [] && b != [] && a[0] == b[0] && multiset(a) == multiset(b)
    ensures multiset(a[1..]) == multiset(b[1..])
  {
    assert a == [a[0]] + a[1..] && b == [b[0]] + b[1..];
    assert multiset(a[1..]) == multiset(a) - multiset{a[0]};
    assert multiset(b[1..]) == multiset(b) - multiset{b[0]};
  }

  lemma HeadsAgree(a: seq<File>, b: seq<File>)
    requires InOrder(a) && InOrder(b) && a != [] && b != [] && a[0] in b && b[0] in a
    requires forall f, g :: f in a && g in a && f.number == g.number ==> f == g
    ensures a[0] == b[0]
  {
    InOrderTail(a);
    InOrderTail(b);
    if a[0].number != b[0].number { BySmallestTotal(a[0], b[0]); }
  }

  // ---------- the builder's ordered set ----------

  lemma InsertSortedKeeps(added: seq<File>, f: File)
    requires InOrder(added) && f.number !in Numbers(added)
    ensures InOrder(InsertSorted(added, f)) && multiset(InsertSorted(added, f)) == multiset(added) + multiset{f}
  {
    InsertSortedCounts(added, f);
    forall g | g in added ensures !SameKey(g, f) { assert g.number in Numbers(added); }
  }

  lemma BeforeAll(added: seq<File>, f: File, g: File)
    requires InOrder(added) && added != [] && BySmallest(f, added[0]) && g in added
    ensures !BySmallest(g, f)
  {
    InOrderTail(added);
    BySmallestAsymmetric(f, added[0]);
    NotAfterTransitive(f, added[0], g);
  }

  lemma {:induction false} InsertAllKeeps(added: seq<File>, files: seq<File>)
    requires InOrder(added) && OneEach(files) && Numbers(files) !! Numbers(added)
    ensures InOrder(InsertAll(added, files)) && multiset(InsertAll(added, files)) == multiset(added) + multiset(files)
    ensures Numbers(InsertAll(added, files)) == Numbers(added) + Numbers(files)
  {
    if files != [] {
      var n := |files| - 1;
      var before, f := files[..n], files[n];
      assert files == before + [f];
      FewerDistinct(files);
      InsertAllKeeps(added, before);
      assert f.number in Numbers(files);
      InsertSortedKeeps(InsertAll(added, before), f);
      NumbersOfMultiset(InsertAll(added, files), added, files);
    } else {
      assert Numbers(files) == {};
    }
  }

  lemma FewerDistinct(files: seq<File>)
    requires OneEach(files) && files != []
    ensures var n := |files| - 1;
            OneEach(files[..n]) && Numbers(files[..n]) <= Numbers(files) && files[n].number !in Numbers(files[..n])
  {
  }

  lemma NumbersOfMultiset(all: seq<File>, a: seq<File>, b: seq<File>)
    requires multiset(all) == multiset(a) + multiset(b)
    ensures Numbers(all) == Numbers(a) + Numbers(b)
  {
    forall f ensures f in all <==> f in a || f in b {
      assert f in multiset(all) <==> f in multiset(a) + multiset(b);
    }
  }

  // ---------- one builder against a chain of builders ----------

  /** What one builder has collected after edits that never re-add. */
  ghost predicate Collected(base: seq<File>, edits: seq<LevelEdit>, st: LevelState) {
    && InOrder(st.added) && EverHeld(base, edits) == Numbers(base) + Numbers(st.added)
    && NumbersDistinct(st.added) && Numbers(base) !! Numbers(st.added)
  }

  lemma ApplyCollects(base: seq<File>, before: seq<LevelEdit>, st: LevelState, e: LevelEdit)
    requires Collected(base, before, st) && OneEach(e.added) && Numbers(e.added) !! EverHeld(base, before)
    ensures Collected(base, before + [e], Apply(st, e))
            && multiset(Apply(st, e).added) == multiset(st.added) + multiset(e.added)
    ensures InOrder(Apply(LevelState({}, []), e).added)
            && multiset(Apply(LevelState({}, []), e).added) == multiset(e.added)
  {
    hide BySmallest;
    hide InsertSorted;
    hide NumbersOf;
    hide InOrder;
    hide InsertAll;
    hide NumbersDistinct;
    hide OneEach;
    InOrderNothing();
    InsertAllKeeps(st.added, e.added);
    InsertAllKeeps([], e.added);
    assert (before + [e])[..|before|] == before;
    UnionDistinct(Apply(st, e).added, st.added, e.added);
  }

  lemma InOrderNothing()
    ensures InOrder([])
  {
  }

  lemma UnionDistinct(all: seq<File>, a: seq<File>, b: seq<File>)
    requires multiset(all) == multiset(a) + multiset(b) && NumbersDistinct(a) && OneEach(b) && Numbers(b) !! Numbers(a)
    ensures NumbersDistinct(all)
  {
    OneEachIsDistinct(b);
    forall f | f in all ensures f in a || f in b { assert f in multiset(all); }
    forall f, g | f in all && g in all && f.number == g.number ensures f == g {
      if f in a { assert f.number in Numbers(a); } else { assert f.number in Numbers(b); }
      if g in a { assert g.number in Numbers(a); } else { assert g.number in Numbers(b); }
    }
  }

  lemma SamePosition(files: seq<File>, i: nat, j: nat)
    requires OneEach(files) && i < |files| && j < |files| && files[i].number == files[j].number
    ensures i == j
  {
  }

  lemma OneEachIsDistinct(files: seq<File>)
    requires OneEach(files)
    ensures NumbersDistinct(files)
  {
    forall f, g | f in files && g in files && f.number == g.number ensures f == g {
      var i :| 0 <= i < |files| && files[i] == f;
      var j :| 0 <= j < |files| && files[j] == g;
      SamePosition(files, i, j);
    }
  }

  lemma SavedDistinct(base: seq<File>, edits: seq<LevelEdit>, st: LevelState)
    requires NumbersDistinct(base) && Collected(base, edits, st)
    ensures NumbersDistinct(Save(base, st))
  {
    hide SaveLevel;
    hide InOrder;
    forall f, g | f in Save(base, st) && g in Save(base, st) && f.number == g.number ensures f == g {
      SaveLevelContents(base, st.deleted, st.added, f);
      SaveLevelContents(base, st.deleted, st.added, g);
      if f in base { assert f.number in Numbers(base); } else { assert f.number in Numbers(st.added); }
      if g in base { assert g.number in Numbers(base); } else { assert g.number in Numbers(st.added); }
    }
  }

  /** Saving twice is saving once, file by file. */
  lemma SaveTwice(base: seq<File>, st: LevelState, e: LevelEdit, mid: seq<File>, single: LevelState, both: LevelState,
                  f: File)
    requires mid == Save(base, st) && single.deleted == e.deleted - Numbers(e.added)
             && multiset(single.added) == multiset(e.added)
    requires both.deleted == (st.deleted + e.deleted) - Numbers(e.added)
             && multiset(both.added) == multiset(st.added) + multiset(e.added)
    requires Numbers(e.added) !! Numbers(base) + Numbers(st.added)
    ensures multiset(Save(mid, single))[f] == multiset(Save(base, both))[f]
  {
    hide SaveLevel;
    SaveLevelMultiset(base, st.deleted, st.added, f);
    SaveLevelMultiset(mid, single.deleted, single.added, f);
    SaveLevelMultiset(base, both.deleted, both.added, f);
    NotHeld(base, e.added, f);
    NotHeld(st.added, e.added, f);
    if f.number !in Numbers(e.added) { Absent(e.added, f); }
  }

  lemma Absent(files: seq<File>, f: File)
    requires f.number !in Numbers(files)
    ensures multiset(files)[f] == 0
  {
    assert f !in files;
  }

  lemma NotHeld(files: seq<File>, added: seq<File>, f: File)
    requires Numbers(added) !! Numbers(files)
    ensures f.number in Numbers(added) ==> multiset(files)[f] == 0
  {
    if f.number in Numbers(added) { Absent(files, f); }
  }

  /** Replaying a manifest with one builder gives, on every level, the very list of files that the chain of
      live versions arrived at. */
  lemma {:induction false} ReplayIsLive(base: seq<File>, edits: seq<LevelEdit>)
    requires InOrder(base) && NumbersDistinct(base) && NeverReadds(base, edits)
    ensures Replayed(base, edits) == Live(base, edits) && InOrder(Live(base, edits))
            && Collected(base, edits, ApplyAll(edits))
  {
    hide SaveLevel;
    hide Apply;
    hide Collected;
    if edits == [] {
      NothingReplayed(base);
    } else {
      var n := |edits| - 1;
      var before, e := edits[..n], edits[n];
      assert edits == before + [e];
      ReplayIsLive(base, before);
      var st, single := ApplyAll(before), Apply(LevelState({}, []), e);
      ApplyCollects(base, before, st, e);
      OneMoreEdit(base, before, st, e);
    }
  }

  lemma NothingReplayed(base: seq<File>)
    requires InOrder(base)
    ensures Replayed(base, []) == base && Collected(base, [], LevelState({}, []))
  {
    assert Numbers([]) == {};
    MergeNothing(base);
    KeepAll(base, {});
  }

  lemma MergeNothing(base: seq<File>)
    ensures Merge(base, []) == base
  {
  }

  lemma OneMoreEdit(base: seq<File>, before: seq<LevelEdit>, st: LevelState, e: LevelEdit)
    requires InOrder(base) && NumbersDistinct(base) && Collected(base, before, st) && st == ApplyAll(before)
    requires OneEach(e.added) && Numbers(e.added) !! EverHeld(base, before)
    ensures Save(Save(base, st), Apply(LevelState({}, []), e)) == Save(base, Apply(st, e))
            && InOrder(Save(base, Apply(st, e)))
  {
    hide SaveLevel;
    hide Collected;
    hide NumbersDistinct;
    hide InOrder;
    hide Apply;
    ApplyCollects(base, before, st, e);
    var mid, single, both := Save(base, st), Apply(LevelState({}, []), e), Apply(st, e);
    CollectedInOrder(base, before, st);
    CollectedInOrder(base, before + [e], both);
    SaveLevelInOrder(base, st.deleted, st.added);
    SaveLevelInOrder(mid, single.deleted, single.added);
    SaveLevelInOrder(base, both.deleted, both.added);
    SameFiles(base, before, st, e);
    SavedDistinct(base, before + [e], both);
    DistinctMeans(Save(base, both));
    SortedIsUnique(Save(base, both), Save(mid, single));
  }

  lemma CollectedInOrder(base: seq<File>, edits: seq<LevelEdit>, st: LevelState)
    requires Collected(base, edits, st)
    ensures InOrder(st.added) && EverHeld(base, edits) == Numbers(base) + Numbers(st.added)
  {
  }

  lemma DistinctMeans(files: seq<File>)
    requires NumbersDistinct(files)
    ensures forall f, g :: f in files && g in files && f.number == g.number ==> f == g
  {
  }

  lemma SameFiles(base: seq<File>, before: seq<LevelEdit>, st: LevelState, e: LevelEdit)
    requires Collected(base, before, st) && OneEach(e.added) && Numbers(e.added) !! EverHeld(base, before)
    ensures multiset(Save(Save(base, st), Apply(LevelState({}, []), e))) == multiset(Save(base, Apply(st, e)))
  {
    ApplyCollects(base, before, st, e);
    var mid, single, both := Save(base, st), Apply(LevelState({}, []), e), Apply(st, e);
    hide SaveLevel;
    hide InOrder;
    hide NumbersDistinct;
    hide InsertAll;
    forall f ensures multiset(Save(mid, single))[f] == multiset(Save(base, both))[f] {
      SaveTwice(base, st, e, mid, single, both, f);
    }
  }

  // ---------- no file twice ----------

  lemma {:induction false} OneEachCounts(files: seq<File>, f: File)
    requires OneEach(files)
    ensures multiset(files)[f] <= 1
  {
    if files != [] {
      var n := |files| - 1;
      assert files == files[..n] + [files[n]];
      OneEachCounts(files[..n], f);
      if f == files[n] { FewerDistinct(files); Absent(files[..n], f); }
    }
  }

  lemma CountsOneEach(files: seq<File>)
    requires NumbersDistinct(files) && forall f :: multiset(files)[f] <= 1
    ensures OneEach(files)
  {
    forall i, j | 0 <= i < j < |files| ensures files[i].number != files[j].number {
      assert files[i] in files && files[j] in files;
      if files[i] == files[j] { RepeatCountsTwice(files, i, j); }
    }
  }

  lemma {:induction false} AddedOnce(edits: seq<LevelEdit>, f: File)
    requires NeverReadds([], edits)
    ensures multiset(ApplyAll(edits).added)[f] <= 1
  {
    hide Apply;
    hide SaveLevel;
    if edits != [] {
      var n := |edits| - 1;
      var before, e := edits[..n], edits[n];
      AddedOnce(before, f);
      InOrderNothing();
      ReplayIsLive([], before);
      ApplyCollects([], before, ApplyAll(before), e);
      CollectedInOrder([], before, ApplyAll(before));
      OneEachCounts(e.added, f);
      NotHeld(ApplyAll(before).added, e.added, f);
      if f.number !in Numbers(e.added) { Absent(e.added, f); }
    }
  }

  /** A level made by edits that never re-add is in order and holds every number once. */
  lemma LiveIsListed(edits: seq<LevelEdit>)
    requires NeverReadds([], edits)
    ensures InOrder(Live([], edits)) && OneEach(Live([], edits))
  {
    hide SaveLevel;
    hide Collected;
    hide NeverReadds;
    hide InOrder;
    hide OneEach;
    hide NumbersDistinct;
    InOrderNothing();
    OneEachIsDistinct([]) by { assert OneEach([]) by { NoneTwice(); } }
    ReplayIsLive([], edits);
    var st := ApplyAll(edits);
    SavedDistinct([], edits, st);
    forall f ensures multiset(Save([], st))[f] <= 1 {
      SaveLevelMultiset([], st.deleted, st.added, f);
      AddedOnce(edits, f);
    }
    CountsOneEach(Save([], st));
  }

  lemma NoneTwice()
    ensures OneEach([]) && NumbersDistinct([])
  {
  }

  // ---------- why the proviso is needed ----------

  lemma ApplyAdd(st: LevelState, f: File)
    ensures Apply(st, LevelEdit({}, [f])) == LevelState(st.deleted - {f.number}, InsertSorted(st.added, f))
  {
    hide InsertSorted;
    OneFile(f);
    assert [f][..0] == [];
    assert InsertAll(st.added, [f]) == InsertSorted(InsertAll(st.added, []), f);
  }

  lemma ApplyDelete(st: LevelState, n: nat)
    ensures Apply(st, LevelEdit({n}, [])) == LevelState(st.deleted + {n}, st.added)
  {
    assert Numbers([]) == {};
  }

  lemma OneFile(f: File)
    ensures Numbers([f]) == {f.number}
  {
  }

  lemma SaveOne(base: seq<File>, f: File)
    requires base == []
    ensures SaveLevel(base, {}, [f]) == [f]
  {
    KeepAll([f], {});
  }

  lemma DeleteOne(f: File)
    ensures SaveLevel([f], {f.number}, []) == []
  {
    MergeNothing([f]);
    assert Undeleted([f], {f.number}) == [] + Undeleted([f][1..], {f.number});
  }

  lemma LiveNext(base: seq<File>, edits: seq<LevelEdit>, e: LevelEdit)
    ensures Live(base, edits + [e]) == Save(Live(base, edits), Apply(LevelState({}, []), e))
    ensures ApplyAll(edits + [e]) == Apply(ApplyAll(edits), e)
  {
    hide Apply;
    hide SaveLevel;
    assert (edits + [e])[..|edits|] == edits;
  }

  /** A number that is deleted and then added again as another file comes back twice. */
  lemma ReaddedComesTwice(f: File, g: File)
    requires f.number == g.number && BySmallest(f, g)
    ensures var edits := [LevelEdit({}, [f])] + [LevelEdit({f.number}, [])] + [LevelEdit({}, [g])];
            Live([], edits) == [g] && Replayed([], edits) == [f, g]
  {
    hide Apply;
    hide SaveLevel;
    hide Live;
    hide ApplyAll;
    var none: LevelState := LevelState({}, []);
    var e1, e2, e3 := LevelEdit({}, [f]), LevelEdit({f.number}, []), LevelEdit({}, [g]);
    var first: seq<LevelEdit> := [e1];
    StartReplay();
    LiveNext([], [], e1);
    assert [] + first == first;
    LiveNext([], first, e2);
    LiveNext([], first + [e2], e3);
    ApplyAdd(none, f);
    ApplyAdd(none, g);
    ApplyDelete(none, f.number);
    ApplyDelete(LevelState({}, [f]), f.number);
    ApplyAdd(LevelState({f.number}, [f]), g);
    assert InsertSorted([f], g) == [f, g] by { BySmallestAsymmetric(f, g); assert [f][1..] == []; }
    assert [f] + [] == [f] && [g] + [] == [g];
    var noNumber: set<nat> := {};
    assert noNumber - {f.number} == {} && {f.number} - {g.number} == {} && noNumber + {f.number} == {f.number};
    SaveOne([], f);
    DeleteOne(f);
    SaveOne([], g);
    BothStay(f, g);
    assert Live([], first) == [f] && ApplyAll(first) == LevelState({}, [f]);
    assert Live([], first + [e2]) == [] && ApplyAll(first + [e2]) == LevelState({f.number}, [f]);
    assert Live([], first + [e2] + [e3]) == [g] && ApplyAll(first + [e2] + [e3]) == LevelState({}, [f, g]);
  }

  lemma StartReplay()
    ensures ApplyAll([]) == LevelState({}, []) && Live([], []) == []
  {
  }

  lemma BothStay(f: File, g: File)
    ensures SaveLevel([], {}, [f, g]) == [f, g]
  {
    KeepAll([f, g], {});
  }

  // ---------- when adding a number again does no harm ----------

  predicate SameKey(f: File, g: File) { f.number == g.number && f.smallest == g.smallest }

  lemma {:induction false} InsertSortedCounts(added: seq<File>, f: File)
    requires InOrder(added)
    ensures InOrder(InsertSorted(added, f))
    ensures multiset(InsertSorted(added, f)) == multiset(added) + if exists g ::
            g in added && SameKey(g, f) then multiset{} else multiset{f}
  {
    if added != [] {
      InOrderTail(added);
      assert added == [added[0]] + added[1..];
      if BySmallest(f, added[0]) {
        forall g | g in added
          ensures !BySmallest(g, f) && !SameKey(g, f)
        {
          BeforeAll(added, f, g);
          NotSame(added[0], f, g);
        }
        InOrderCons(f, added);
      } else if BySmallest(added[0], f) {
        InsertSortedCounts(added[1..], f);
        var rest := InsertSorted(added[1..], f);
        forall g | g in rest
          ensures !BySmallest(g, added[0])
        {
          RestCounts(added[1..], f, rest, g);
          BySmallestAsymmetric(added[0], f);
        }
        InOrderCons(added[0], rest);
      } else {
        KeysEqual(f, added[0]);
      }
    }
  }

  lemma RestCounts(added: seq<File>, f: File, rest: seq<File>, g: File)
    requires multiset(rest) == multiset(added) || multiset(rest) == multiset(added) + multiset{f}
    requires g in rest
    ensures g == f || g in added
  {
    assert g in multiset(rest);
  }

  lemma KeysEqual(f: File, g: File)
    requires !BySmallest(f, g) && !BySmallest(g, f)
    ensures SameKey(f, g)
  {
  }

  lemma NotSame(first: File, f: File, g: File)
    requires BySmallest(f, first) && !BySmallest(g, first)
    ensures !SameKey(g, f)
  {
  }

  lemma {:induction false} InsertAllInOrder(added: seq<File>, files: seq<File>)
    requires InOrder(added)
    ensures InOrder(InsertAll(added, files))
  {
    if files != [] {
      InsertAllInOrder(added, files[..|files| - 1]);
      InsertSortedCounts(InsertAll(added, files[..|files| - 1]), files[|files| - 1]);
    }
  }

  /** The builder's set is always in order. */
  lemma {:induction false} ApplyAllInOrder(edits: seq<LevelEdit>)
    ensures InOrder(ApplyAll(edits).added)
  {
    if edits == [] {
      InOrderNothing();
    } else {
      ApplyAllInOrder(edits[..|edits| - 1]);
      InsertAllInOrder(ApplyAll(edits[..|edits| - 1]).added, edits[|edits| - 1].added);
    }
  }

  /** The builder's set after files with distinct numbers: a file is ignored if one with its key is there. */
  lemma {:induction false} InsertAllCounts(added: seq<File>, files: seq<File>, h: File)
    requires InOrder(added) && OneEach(files)
    ensures multiset(InsertAll(added, files))[h] == multiset(added)[h] +
              if h in files && !(exists g :: g in added && SameKey(g, h)) then 1 else 0
    decreases |files|, 0
  {
    if files != [] {
      var n := |files| - 1;
      var before, f := files[..n], files[n];
      assert files == before + [f];
      FewerDistinct(files);
      InsertAllCounts(added, before, h);
      InsertAllInOrder(added, before);
      InsertSortedCounts(InsertAll(added, before), f);
      SameKeyThere(added, before, f);
      if h == f { assert h.number !in Numbers(before); }
    }
  }

  lemma SameKeyThere(added: seq<File>, before: seq<File>, f: File)
    requires InOrder(added) && OneEach(before) && f.number !in Numbers(before)
    ensures (exists g :: g in InsertAll(added, before) && SameKey(g, f)) <==> exists g :: g in added && SameKey(g, f)
    decreases |before|, 1
  {
    forall g | SameKey(g, f) ensures g in InsertAll(added, before) <==> g in added {
      assert g.number !in Numbers(before);
      InsertAllCounts(added, before, g);
      assert g in InsertAll(added, before) <==> g in multiset(InsertAll(added, before));
      assert g in added <==> g in multiset(added);
    }
  }

  /** Adding `f` does no harm if its number was deleted and nothing but `f` itself is in the way, or if it
      was not deleted and the builder has no file with the key of `f`. */
  ghost predicate Harmless(base: seq<File>, st: LevelState, f: File) {
    if f.number in st.deleted then
      && f.number !in Numbers(base)
      && forall g :: g in st.added && g.number == f.number ==> g == f && multiset(st.added)[f] == 1
    else
      forall g :: g in st.added ==> !SameKey(g, f)
  }

  /** How often one more edit leaves `h` on the level, in the two ways. */
  lemma EditCounts(base: seq<File>, mid: seq<File>, st: LevelState, e: LevelEdit, h: File)
    requires InOrder(st.added) && OneEach(e.added) && multiset(mid)[h] == multiset(Save(base, st))[h]
    ensures multiset(Save(mid, Apply(LevelState({}, []), e)))[h] ==
              if h.number in e.deleted - Numbers(e.added) then 0
              else (if h.number in st.deleted then 0
                  else multiset(base)[h] + multiset(st.added)[h]) + if h in e.added then 1 else 0
    ensures multiset(Save(base, Apply(st, e)))[h] ==
              if h.number in (st.deleted + e.deleted) - Numbers(e.added) then 0
              else multiset(base)[h] + multiset(st.added)[h] +
                   if h in e.added && !(exists g :: g in st.added && SameKey(g, h)) then 1 else 0
  {
    hide SaveLevel;
    hide InOrder;
    InOrderNothing();
    SaveLevelMultiset(base, st.deleted, st.added, h);
    SaveLevelMultiset(mid, Apply(LevelState({}, []), e).deleted, InsertAll([], e.added), h);
    SaveLevelMultiset(base, Apply(st, e).deleted, InsertAll(st.added, e.added), h);
    InsertAllCounts([], e.added, h);
    InsertAllCounts(st.added, e.added, h);
  }

  /** A number is in use for one file of the edit at most. */
  lemma OnlyFile(files: seq<File>, f: File, h: File)
    requires OneEach(files) && f in files && h in files && f.number == h.number
    ensures f == h
  {
    OneEachIsDistinct(files);
  }

  lemma HarmlessCounts(base: seq<File>, mid: seq<File>, st: LevelState, e: LevelEdit, f: File, h: File)
    requires InOrder(st.added) && OneEach(e.added) && multiset(mid)[h] == multiset(Save(base, st))[h]
    requires f in e.added && h.number == f.number && Harmless(base, st, f)
    ensures multiset(Save(mid, Apply(LevelState({}, []), e)))[h] == multiset(Save(base, Apply(st, e)))[h]
  {
    hide SaveLevel;
    hide Save;
    hide InOrder;
    hide Apply;
    EditCounts(base, mid, st, e, h);
    if h in e.added { OnlyFile(e.added, f, h); }
    assert f.number in Numbers(e.added);
    assert multiset(st.added)[h] > 0 <==> h in st.added;
    if h in base { assert h.number in Numbers(base); }
    assert multiset(base)[h] > 0 <==> h in base;
    if f.number in st.deleted && exists g :: g in st.added && SameKey(g, f) {
      var g :| g in st.added && SameKey(g, f);
      assert g == f;
    }
  }

  lemma UntouchedCounts(base: seq<File>, mid: seq<File>, st: LevelState, e: LevelEdit, h: File)
    requires InOrder(st.added) && OneEach(e.added) && multiset(mid)[h] == multiset(Save(base, st))[h]
    requires h.number !in Numbers(e.added)
    ensures multiset(Save(mid, Apply(LevelState({}, []), e)))[h] == multiset(Save(base, Apply(st, e)))[h]
  {
    hide SaveLevel;
    hide Save;
    hide InOrder;
    hide Apply;
    EditCounts(base, mid, st, e, h);
  }

  lemma HarmlessEdit(base: seq<File>, mid: seq<File>, st: LevelState, e: LevelEdit, h: File)
    requires InOrder(st.added) && OneEach(e.added) && multiset(mid)[h] == multiset(Save(base, st))[h]
    requires forall f :: f in e.added ==> Harmless(base, st, f)
    ensures multiset(Save(mid, Apply(LevelState({}, []), e)))[h] == multiset(Save(base, Apply(st, e)))[h]
  {
    hide Save;
    hide InOrder;
    hide Apply;
    hide Harmless;
    hide OneEach;
    if h.number in Numbers(e.added) {
      var f :| f in e.added && f.number == h.number;
      HarmlessCounts(base, mid, st, e, f, h);
    } else {
      UntouchedCounts(base, mid, st, e, h);
    }
  }

  lemma HarmShows(base: seq<File>, mid: seq<File>, st: LevelState, e: LevelEdit, f: File) returns (h: File)
    requires InOrder(st.added) && OneEach(e.added) && multiset(mid) == multiset(Save(base, st))
    requires f in e.added && !Harmless(base, st, f)
    ensures multiset(Save(mid, Apply(LevelState({}, []), e)))[h] != multiset(Save(base, Apply(st, e)))[h]
  {
    hide SaveLevel;
    hide Save;
    hide InOrder;
    hide Apply;
    h := f;
    assert f.number in Numbers(e.added);
    if f.number in st.deleted {
      if other: File :| other in st.added && other.number == f.number && other != f {
        h := other;
      } else if f.number in Numbers(base) {
        h :| h in base && h.number == f.number;
      }
      if h in e.added { OnlyFile(e.added, f, h); }
      assert multiset(base)[h] > 0 <==> h in base;
      assert multiset(st.added)[h] > 0 <==> h in st.added;
    }
    EditCounts(base, mid, st, e, h);
  }

  /** As long as one builder and the chain of builders agree, one more edit keeps them in agreement if and
      only if every number it adds is new to the builder or harmless in the sense above. */
  lemma OneMoreEditIff(base: seq<File>, edits: seq<LevelEdit>, e: LevelEdit)
    requires OneEach(e.added) && multiset(Live(base, edits)) == multiset(Replayed(base, edits))
    ensures multiset(Live(base, edits + [e])) == multiset(Replayed(base, edits + [e])) <==>
              forall f :: f in e.added ==> Harmless(base, ApplyAll(edits), f)
  {
    hide SaveLevel;
    hide Save;
    hide InOrder;
    hide Apply;
    hide Harmless;
    hide OneEach;
    var mid, st := Live(base, edits), ApplyAll(edits);
    ApplyAllInOrder(edits);
    LiveNext(base, edits, e);
    var a, b := Save(mid, Apply(LevelState({}, []), e)), Save(base, Apply(st, e));
    if forall f :: f in e.added ==> Harmless(base, st, f) {
      forall h ensures multiset(a)[h] == multiset(b)[h] { HarmlessEdit(base, mid, st, e, h); }
      assert multiset(a) == multiset(b);
    } else {
      var f :| f in e.added && !Harmless(base, st, f);
      var h := HarmShows(base, mid, st, e, f);
    }
  }
}
