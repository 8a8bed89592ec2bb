/** VersionSet::Builder: applying edits to the files of a version (version_set.cc). */
module VersionBuilder {
  import opened InternalKeys
  import opened Files

  /** BySmallestKey: by smallest key, ties broken by file number. */
  predicate BySmallest(f: Table, g: Table) {
    Before(f.smallest, g.smallest) || (f.smallest == g.smallest && f.number < g.number)
  }

  ghost predicate InOrder(files: seq<File>) {
    forall i, j {:trigger BySmallest(files[j], files[i])} :: 0 <= i < j < |files| ==> !BySmallest(files[j], files[i])
  }

  /** Base files go before an added file unless they compare greater than it (upper_bound). */
  function Merge(base: seq<File>, added: seq<File>): seq<File>
    decreases |base| + |added|
  {
    if base == [] then added
    else if added == [] then base
    else if BySmallest(added[0], base[0]) then [added[0]] + Merge(base, added[1..])
    else [base[0]] + Merge(base[1..], added)
  }

  function Undeleted(files: seq<File>, deleted: set<nat>): seq<File> {
    if files == [] then [] else
      (if files[0].number in deleted then [] else [files[0]]) + Undeleted(files[1..], deleted)
  }

  /** What Builder::SaveTo leaves on one level. */
  function SaveLevel(base: seq<File>, deleted: set<nat>, added: seq<File>): seq<File> {
    Undeleted(Merge(base, added), deleted)
  }

  lemma HeadCount(files: seq<File>, f: File)
    requires files != []
    ensures multiset(files)[f] == multiset(files[1..])[f] + if f == files[0] then 1 else 0
  {
    hide Table.Valid;
    assert files == [files[0]] + files[1..];
  }

  lemma {:induction false} MergeMultiset(base: seq<File>, added: seq<File>, f: File)
    ensures multiset(Merge(base, added))[f] == multiset(base)[f] + multiset(added)[f]
    decreases |base| + |added|
  {
    hide BySmallest;
    hide Table.Valid;
    if base != [] && added != [] {
      HeadCount(Merge(base, added), f);
      if BySmallest(added[0], base[0]) {
        MergeMultiset(base, added[1..], f);
        HeadCount(added, f);
      } else {
        MergeMultiset(base[1..], added, f);
        HeadCount(base, f);
      }
    }
  }

  lemma MergeContents(base: seq<File>, added: seq<File>, f: File)
    ensures f in Merge(base, added) <==> f in base || f in added
  {
    MergeMultiset(base, added, f);
    assert f in Merge(base, added) <==> f in multiset(Merge(base, added));
    assert f in base <==> f in multiset(base);
    assert f in added <==> f in multiset(added);
  }

  lemma {:induction false} UndeletedMultiset(files: seq<File>, deleted: set<nat>, f: File)
    ensures multiset(Undeleted(files, deleted))[f] == if f.number in deleted then 0 else multiset(files)[f]
  {
    if files != [] {
      UndeletedMultiset(files[1..], deleted, f);
      UndeletedFirst(files, deleted, f);
      HeadCount(files, f);
    }
  }

  lemma UndeletedFirst(files: seq<File>, deleted: set<nat>, f: File)
    requires files != []
    ensures multiset(Undeleted(files, deleted))[f] == multiset(Undeleted(files[1..], deleted))[f] +
            if f == files[0] && f.number !in deleted then 1 else 0
  {
    hide Table.Valid;
  }

  lemma {:induction false} KeepAll(files: seq<File>, deleted: set<nat>)
    requires forall f :: f in files ==> f.number !in deleted
    ensures Undeleted(files, deleted) == files
  {
    if files != [] {
      KeepAll(files[1..], deleted);
      assert files == [files[0]] + files[1..];
    }
  }

  /** A saved level holds, with multiplicity, the base and added files that are not deleted. */
  lemma SaveLevelMultiset(base: seq<File>, deleted: set<nat>, added: seq<File>, f: File)
    ensures multiset(SaveLevel(base, deleted, added))[f] ==
            if f.number in deleted then 0 else multiset(base)[f] + multiset(added)[f]
  {
    MergeMultiset(base, added, f);
    UndeletedMultiset(Merge(base, added), deleted, f);
  }

  lemma SaveLevelContents(base: seq<File>, deleted: set<nat>, added: seq<File>, f: File)
    ensures f in SaveLevel(base, deleted, added) <==> (f in base || f in added) && f.number !in deleted
  {
    SaveLevelMultiset(base, deleted, added, f);
    assert f in SaveLevel(base, deleted, added) <==> f in multiset(SaveLevel(base, deleted, added));
    assert f in base <==> f in multiset(base);
    assert f in added <==> f in multiset(added);
  }

  lemma NotAfterTransitive(f: File, g: File, h: File)
    requires !BySmallest(g, f) && !BySmallest(h, g)
    ensures !BySmallest(h, f)
  {
  }

  lemma InOrderCons(f: File, files: seq<File>)
    requires InOrder(files) && (forall g :: g in files ==> !BySmallest(g, f))
    ensures InOrder([f] + files)
  {
    var r := [f] + files;
    forall i, j | 0 <= i < j < |r| ensures !BySmallest(r[j], r[i]) {
      assert r[j] == files[j - 1];
      if i > 0 { assert !BySmallest(files[j - 1], files[i - 1]); }
    }
  }

  lemma InOrderTail(files: seq<File>)
    requires InOrder(files) && files != []
    ensures InOrder(files[1..]) && forall g :: g in files ==> !BySmallest(g, files[0])
  {
    forall i, j | 0 <= i < j < |files| - 1 ensures !BySmallest(files[1..][j], files[1..][i]) {
      assert !BySmallest(files[j + 1], files[i + 1]);
    }
  }

  lemma {:induction false} MergeInOrder(base: seq<File>, added: seq<File>)
    requires InOrder(base) && InOrder(added)
    ensures InOrder(Merge(base, added))
    decreases |base| + |added|
  {
    if base != [] && added != [] {
      InOrderTail(base);
      InOrderTail(added);
      if BySmallest(added[0], base[0]) {
        MergeInOrder(base, added[1..]);
        forall g | g in Merge(base, added[1..]) ensures !BySmallest(g, added[0]) {
          MergeContents(base, added[1..], g);
          if g in base { NotAfterTransitive(added[0], base[0], g); }
        }
        InOrderCons(added[0], Merge(base, added[1..]));
      } else {
        MergeInOrder(base[1..], added);
        forall g | g in Merge(base[1..], added) ensures !BySmallest(g, base[0]) {
          MergeContents(base[1..], added, g);
          if g in added { NotAfterTransitive(base[0], added[0], g); }
        }
        InOrderCons(base[0], Merge(base[1..], added));
      }
    }
  }

  lemma {:induction false} UndeletedInOrder(files: seq<File>, deleted: set<nat>)
    requires InOrder(files)
    ensures InOrder(Undeleted(files, deleted))
  {
    if files != [] {
      InOrderTail(files);
      UndeletedInOrder(files[1..], deleted);
      forall g | g in Undeleted(files[1..], deleted) ensures !BySmallest(g, files[0]) {
        UndeletedMultiset(files[1..], deleted, g);
        assert g in multiset(Undeleted(files[1..], deleted));
        assert g in multiset(files[1..]);
      }
      if files[0].number !in deleted { InOrderCons(files[0], Undeleted(files[1..], deleted)); }
    }
  }

  lemma SaveLevelInOrder(base: seq<File>, deleted: set<nat>, added: seq<File>)
    requires InOrder(base) && InOrder(added)
    ensures InOrder(SaveLevel(base, deleted, added))
  {
    MergeInOrder(base, added);
    UndeletedInOrder(Merge(base, added), deleted);
  }

  ghost predicate Apart(f: File, g: File) { Before(f.largest, g.smallest) || Before(g.largest, f.smallest) }

  /** Files in order whose ranges are pairwise apart make a sorted level. */
  lemma ApartIsSorted(files: seq<File>)
    requires InOrder(files)
    requires forall i, j :: 0 <= i < j < |files| ==> Apart(files[i], files[j])
    ensures LevelSorted(files)
  {
    forall i, j | 0 <= i < j < |files| ensures Before(files[i].largest, files[j].smallest) {
      assert Apart(files[i], files[j]) && !BySmallest(files[j], files[i]);
      FileIsOrdered(files[i]);
      FileIsOrdered(files[j]);
    }
  }

  lemma SortedIsInOrder(files: seq<File>)
    requires LevelSorted(files)
    ensures InOrder(files)
  {
    forall i, j | 0 <= i < j < |files| ensures !BySmallest(files[j], files[i]) {
      assert Before(files[i].largest, files[j].smallest);
      FileIsOrdered(files[i]);
      FileIsOrdered(files[j]);
    }
  }

  lemma RepeatCountsTwice(files: seq<File>, i: nat, j: nat)
    requires i < j < |files| && files[i] == files[j]
    ensures multiset(files)[files[i]] >= 2
  {
    assert files == files[..j] + files[j..];
    assert files[..j][i] == files[i] && files[j..][0] == files[j];
    assert files[i] in multiset(files[..j]) && files[j] in multiset(files[j..]);
  }

  lemma {:induction false} SortedHasNoRepeats(files: seq<File>, f: File)
    requires LevelSorted(files)
    ensures multiset(files)[f] <= 1
  {
    if files != [] {
      var last := |files| - 1;
      var init := files[..last];
      assert files == init + [files[last]];
      forall i, j | 0 <= i < j < |init| ensures Before(init[i].largest, init[j].smallest) {
        assert Before(files[i].largest, files[j].smallest);
      }
      SortedHasNoRepeats(init, f);
      if f == files[last] && f in init {
        var i :| 0 <= i < |init| && init[i] == f;
        assert Before(files[i].largest, files[last].smallest);
        FileIsOrdered(f);
      }
    }
  }

  lemma SortedIsApart(files: seq<File>, f: File, g: File)
    requires LevelSorted(files) && f in files && g in files && f != g
    ensures Apart(f, g)
  {
    var i :| 0 <= i < |files| && files[i] == f;
    var j :| 0 <= j < |files| && files[j] == g;
    assert i < j ==> Before(files[i].largest, files[j].smallest);
    assert j < i ==> Before(files[j].largest, files[i].smallest);
  }

  lemma SavedPairIsApart(base: seq<File>, deleted: set<nat>, added: seq<File>, r: seq<File>, i: nat, j: nat)
    requires LevelSorted(base) && LevelSorted(added) && r == SaveLevel(base, deleted, added) && i < j < |r|
    requires forall a, b :: a in added && b in base && b.number !in deleted ==> Apart(a, b)
    ensures Apart(r[i], r[j])
  {
    hide Undeleted;
    hide InternalKey.Tag;
    hide BySmallest;
    SaveLevelContents(base, deleted, added, r[i]);
    SaveLevelContents(base, deleted, added, r[j]);
    assert r[i] in r && r[j] in r;
    if r[i] == r[j] {
      RepeatCountsTwice(r, i, j);
      SaveLevelMultiset(base, deleted, added, r[i]);
      SortedHasNoRepeats(base, r[i]);
      SortedHasNoRepeats(added, r[i]);
      assert r[i] in multiset(base) && r[i] in multiset(added);
    } else if r[i] in base && r[j] in base {
      SortedIsApart(base, r[i], r[j]);
    } else if r[i] in added && r[j] in added {
      SortedIsApart(added, r[i], r[j]);
    }
  }

  /** Saving keeps a level sorted when what is added lies apart from what stays. */
  lemma SaveLevelSorted(base: seq<File>, deleted: set<nat>, added: seq<File>)
    requires LevelSorted(base) && LevelSorted(added)
    requires forall a, b :: a in added && b in base && b.number !in deleted ==> Apart(a, b)
    ensures LevelSorted(SaveLevel(base, deleted, added))
  {
    var r := SaveLevel(base, deleted, added);
    SortedIsInOrder(base);
    SortedIsInOrder(added);
    SaveLevelInOrder(base, deleted, added);
    forall i, j | 0 <= i < j < |r| ensures Apart(r[i], r[j]) { SavedPairIsApart(base, deleted, added, r, i, j); }
    ApartIsSorted(r);
  }
}
