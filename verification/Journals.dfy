/** The edits that a running database logs, as edits of a whole tree: what a manifest is a list of.  Since
    file numbers are fresh and moves only go down, no edit adds to a level a number the level already held. */
module Journals {
  import opened Options
  import opened InternalKeys
  import opened Files
  import opened PointLookup
  import opened InputSelection
  import opened VersionBuilder
  import opened TreeSteps
  import opened ManifestReplay
  import opened LsmMachine

  /** Deleted files by level and number, added files by level. */
  datatype TreeEdit = TreeEdit(deleted: set<(nat, nat)>, added: seq<(nat, File)>)

  function DeletedAt(deleted: set<(nat, nat)>, l: nat): set<nat> { set d | d in deleted && d.0 == l :: d.1 }

  function FilesAt(added: seq<(nat, File)>, l: nat): seq<File> {
    if added == [] then []
    else FilesAt(added[..|added| - 1], l) + if added[|added| - 1].0 == l then [added[|added| - 1].1] else []
  }

  function At(e: TreeEdit, l: nat): LevelEdit { LevelEdit(DeletedAt(e.deleted, l), FilesAt(e.added, l)) }

  /** What a list of edits does to one level. */
  function Projected(journal: seq<TreeEdit>, l: nat): seq<LevelEdit> {
    seq(|journal|, i requires 0 <= i < |journal| => At(journal[i], l))
  }

  lemma ProjectedNext(journal: seq<TreeEdit>, e: TreeEdit, l: nat)
    ensures Projected(journal + [e], l) == Projected(journal, l) + [At(e, l)]
  {
  }

  // ---------- the edits of the steps ----------

  function OnLevel(level: nat, files: seq<File>): seq<(nat, File)> {
    seq(|files|, i requires 0 <= i < |files| => (level, files[i]))
  }

  lemma {:induction false} FilesAtJoin(a: seq<(nat, File)>, b: seq<(nat, File)>, l: nat)
    ensures FilesAt(a + b, l) == FilesAt(a, l) + FilesAt(b, l)
  {
    if b == [] {
      assert a + b == a;
    } else {
      assert (a + b)[..|a + b| - 1] == a + b[..|b| - 1];
      FilesAtJoin(a, b[..|b| - 1], l);
    }
  }

  lemma OnLevelNext(level: nat, files: seq<File>)
    requires files != []
    ensures var n := |files| - 1; OnLevel(level, files) == OnLevel(level, files[..n]) + [(level, files[n])]
  {
  }

  lemma OneFileAt(level: nat, f: File, l: nat)
    ensures FilesAt([(level, f)], l) == if l == level then [f] else []
  {
    assert [(level, f)][..0] == [];
  }

  lemma {:induction false} FilesAtLevel(level: nat, files: seq<File>, l: nat)
    ensures FilesAt(OnLevel(level, files), l) == if l == level then files else []
  {
    if files != [] {
      hide OnLevel;
      hide FilesAt;
      var n := |files| - 1;
      FilesAtLevel(level, files[..n], l);
      OnLevelNext(level, files);
      FilesAtJoin(OnLevel(level, files[..n]), [(level, files[n])], l);
      OneFileAt(level, files[n], l);
      assert files == files[..n] + [files[n]];
    }
  }

  function Pairs(level: nat, numbers: set<nat>): set<(nat, nat)> { set n | n in numbers :: (level, n) }

  lemma PairsAt(level: nat, numbers: set<nat>, l: nat)
    ensures DeletedAt(Pairs(level, numbers), l) == if l == level then numbers else {}
  {
    forall n ensures n in DeletedAt(Pairs(level, numbers), l) <==> l == level && n in numbers {
      if l == level && n in numbers { assert (level, n) in Pairs(level, numbers); }
    }
  }

  lemma DeletedUnion(a: set<(nat, nat)>, b: set<(nat, nat)>, l: nat)
    ensures DeletedAt(a + b, l) == DeletedAt(a, l) + DeletedAt(b, l)
  {
    forall n ensures n in DeletedAt(a + b, l) <==> n in DeletedAt(a, l) + DeletedAt(b, l) {
      assert n in DeletedAt(a, l) <==> (l, n) in a;
      assert n in DeletedAt(b, l) <==> (l, n) in b;
      assert n in DeletedAt(a + b, l) <==> (l, n) in a + b;
    }
  }

  /** AddInputDeletions, and the outputs one level down. */
  function SwapEdit(c: Inputs, outs: seq<File>): TreeEdit {
    TreeEdit(Pairs(c.level, NumbersOf(c.in0)) + Pairs(c.level + 1, NumbersOf(c.in1)), OnLevel(c.level + 1, outs))
  }

  lemma SwapAt(c: Inputs, outs: seq<File>, l: nat)
    ensures At(SwapEdit(c, outs), l) ==
            if l == c.level then LevelEdit(NumbersOf(c.in0), [])
            else if l == c.level + 1 then LevelEdit(NumbersOf(c.in1), outs)
            else LevelEdit({}, [])
  {
    hide NumbersOf;
    hide Pairs;
    hide OnLevel;
    hide DeletedAt;
    hide FilesAt;
    PairsAt(c.level, NumbersOf(c.in0), l);
    PairsAt(c.level + 1, NumbersOf(c.in1), l);
    DeletedUnion(Pairs(c.level, NumbersOf(c.in0)), Pairs(c.level + 1, NumbersOf(c.in1)), l);
    FilesAtLevel(c.level + 1, outs, l);
  }

  const NOTHING: TreeEdit := TreeEdit({}, [])

  lemma NothingAt(l: nat)
    ensures At(NOTHING, l) == LevelEdit({}, [])
  {
    assert DeletedAt({}, l) == {};
  }

  /** The steps that go through LogAndApply. */
  predicate IsEdit(step: Step) { step.FlushStep? || step.FlushEmptyStep? || step.InstallStep? || step.MoveStep? }

  function EditOf(s: State, step: Step): TreeEdit {
    match step
    case FlushStep(f, level) => TreeEdit({}, OnLevel(level, [f]))
    case InstallStep(_, outs) => if s.running.Some? then SwapEdit(s.running.value.inputs, outs) else NOTHING
    case MoveStep(c) => SwapEdit(c, c.in0)
    case _ => NOTHING
  }

  function NextJournal(journal: seq<TreeEdit>, s: State, step: Step): seq<TreeEdit> {
    if IsEdit(step) then journal + [EditOf(s, step)] else journal
  }

  // ---------- an edit applied to a version ----------

  /** LogAndApply's builder: one edit on top of the version before it. */
  ghost predicate Applies(e: TreeEdit, v: Version, v': Version) {
    forall l {:trigger v'[l]} :: 0 <= l < NUM_LEVELS ==> v'[l] == Save(v[l], Apply(LevelState({}, []), At(e, l)))
  }

  lemma SaveSame(files: seq<File>)
    ensures Save(files, Apply(LevelState({}, []), LevelEdit({}, []))) == files
  {
    KeepAll(files, {});
    MergeNothing(files);
    assert NumbersOf([]) == {};
  }

  /** Sorted files with distinct numbers come out of the builder's ordered set as they went in. */
  lemma InsertAllSame(files: seq<File>)
    requires InOrder(files) && OneEach(files)
    ensures InsertAll([], files) == files
  {
    InOrderNothing();
    InsertAllKeeps([], files);
    OneEachIsDistinct(files);
    SortedIsUnique(files, InsertAll([], files));
  }

  lemma SaveSwapped(files: seq<File>, deleted: set<nat>, outs: seq<File>)
    requires InOrder(outs) && OneEach(outs) && Numbers(outs) !! deleted
    ensures Save(files, Apply(LevelState({}, []), LevelEdit(deleted, outs))) == SaveLevel(files, deleted, outs)
  {
    InsertAllSame(outs);
    assert {} + deleted - NumbersOf(outs) == deleted;
  }

  lemma SortedOneEach(files: seq<File>)
    requires LevelSorted(files) && NumbersDistinct(files)
    ensures InOrder(files) && OneEach(files)
  {
    SortedIsInOrder(files);
    forall i, j | 0 <= i < j < |files| ensures files[i].number != files[j].number {
      assert Before(files[i].largest, files[j].smallest);
      FileIsOrdered(files[i]);
      FileIsOrdered(files[j]);
    }
  }

  lemma SwapApplies(v: Version, next: nat, c: Inputs, outs: seq<File>)
    requires NumbersOk(v, next) && InputsIn(v, c) && OutputsOk(v, c, outs)
    ensures Applies(SwapEdit(c, outs), v, Replace(v, c, outs))
    ensures forall l :: 0 <= l < NUM_LEVELS ==> OneEach(FilesAt(SwapEdit(c, outs).added, l))
  {
    hide SaveLevel;
    hide Apply;
    hide Save;
    hide OutputsOk;
    hide NumbersOk;
    hide OneEach;
    forall l | 0 <= l < NUM_LEVELS
      ensures Replace(v, c, outs)[l] == Save(v[l], Apply(LevelState({}, []), At(SwapEdit(c, outs), l)))
      ensures OneEach(FilesAt(SwapEdit(c, outs).added, l))
    {
      SwapAppliesAt(v, c, outs, l);
    }
  }

  lemma SwapAppliesAt(v: Version, c: Inputs, outs: seq<File>, l: nat)
    requires InputsIn(v, c) && OutputsOk(v, c, outs) && l < NUM_LEVELS
    ensures Replace(v, c, outs)[l] == Save(v[l], Apply(LevelState({}, []), At(SwapEdit(c, outs), l)))
    ensures OneEach(FilesAt(SwapEdit(c, outs).added, l))
  {
    hide SaveLevel;
    hide Apply;
    hide Save;
    hide EntriesOf;
    SwapAt(c, outs, l);
    SortedOneEach(outs);
    if l == c.level {
      InOrderNothing();
      SaveSwapped(v[l], NumbersOf(c.in0), []);
    } else if l == c.level + 1 {
      LowerNumbers(v, c, outs);
      SaveSwapped(v[l], NumbersOf(c.in1), outs);
    } else {
      SaveSame(v[l]);
    }
  }

  lemma LowerNumbers(v: Version, c: Inputs, outs: seq<File>)
    requires InputsIn(v, c) && OutputsOk(v, c, outs)
    ensures Numbers(outs) !! NumbersOf(c.in1)
  {
    assert Numbers(outs) !! Numbers(v[c.level + 1]);
    forall n | n in NumbersOf(c.in1) ensures n in Numbers(v[c.level + 1]) {
      var f :| f in c.in1 && f.number == n;
    }
  }

  lemma FlushApplies(v: Version, level: nat, f: File)
    requires level < NUM_LEVELS
    ensures Applies(TreeEdit({}, OnLevel(level, [f])), v, AddFile(v, level, f))
  {
    hide SaveLevel;
    hide Apply;
    hide Save;
    var e := TreeEdit({}, OnLevel(level, [f]));
    forall l | 0 <= l < NUM_LEVELS ensures AddFile(v, level, f)[l] == Save(v[l], Apply(LevelState({}, []), At(e, l))) {
      FilesAtLevel(level, [f], l);
      assert DeletedAt({}, l) == {};
      if l == level { SaveSwapped(v[l], {}, [f]); } else { SaveSame(v[l]); }
    }
  }

  lemma NothingApplies(v: Version)
    ensures Applies(NOTHING, v, v)
  {
    hide Apply;
    hide Save;
    forall l | 0 <= l < NUM_LEVELS ensures v[l] == Save(v[l], Apply(LevelState({}, []), At(NOTHING, l))) {
      NothingAt(l);
      SaveSame(v[l]);
    }
  }

  // ---------- what a journal keeps ----------

  /** The numbers a level has held since the journal began. */
  ghost function Past(journal: seq<TreeEdit>, l: nat): set<nat> { EverHeld([], Projected(journal, l)) }

  /** A number a level once held is on no smaller level, and one handed out since a running compaction
      started is still in the tree. */
  ghost predicate PastNumber(v: Version, from: Option<nat>, l: nat, n: nat)
    requires l < NUM_LEVELS
  {
    && (forall m {:trigger Numbers(v[m])} :: 0 <= m < l ==> n !in Numbers(v[m]))
    && (from.Some? && n >= from.value ==> exists m {:trigger Numbers(v[m])} ::
        0 <= m < NUM_LEVELS && n in Numbers(v[m]))
  }

  ghost predicate PastOk(journal: seq<TreeEdit>, v: Version, next: nat, from: Option<nat>) {
    forall l, n {:trigger n in Past(journal, l)} :: 0 <= l < NUM_LEVELS && n in Past(journal, l) ==>
        n < next && PastNumber(v, from, l, n)
  }

  /** The chain of versions that the edits make one after the other ends in `v`, and none re-adds. */
  ghost predicate LevelJournal(journal: seq<TreeEdit>, files: seq<File>, l: nat) {
    NeverReadds([], Projected(journal, l)) && files == Live([], Projected(journal, l))
  }

  ghost predicate JournalOk(journal: seq<TreeEdit>, v: Version, next: nat, from: Option<nat>) {
    && (forall l {:trigger v[l]} :: 0 <= l < NUM_LEVELS ==> LevelJournal(journal, v[l], l))
    && PastOk(journal, v, next, from)
  }

  function From(s: State): Option<nat> { if s.running.Some? then Some(s.running.value.from) else None }

  lemma PastIs(journal: seq<TreeEdit>, v: Version, next: nat, from: Option<nat>, l: nat, n: nat)
    requires PastOk(journal, v, next, from) && l < NUM_LEVELS && n in Past(journal, l)
    ensures n < next && PastNumber(v, from, l, n)
  {
    hide Past;
  }

  // ---------- one more edit ----------

  lemma PastNext(journal: seq<TreeEdit>, e: TreeEdit, l: nat)
    ensures Past(journal + [e], l) == Past(journal, l) + Numbers(FilesAt(e.added, l))
  {
    ProjectedNext(journal, e, l);
    assert (Projected(journal, l) + [At(e, l)])[..|journal|] == Projected(journal, l);
  }

  lemma LevelJournalNext(journal: seq<TreeEdit>, e: TreeEdit, files: seq<File>, files': seq<File>, l: nat)
    requires LevelJournal(journal, files, l) && files' == Save(files, Apply(LevelState({}, []), At(e, l)))
    requires OneEach(FilesAt(e.added, l)) && Numbers(FilesAt(e.added, l)) !! Past(journal, l)
    ensures LevelJournal(journal + [e], files', l)
  {
    hide Save;
    hide Apply;
    hide OneEach;
    ProjectedNext(journal, e, l);
    var edits := Projected(journal, l);
    assert (edits + [At(e, l)])[..|journal|] == edits && (edits + [At(e, l)])[|journal|] == At(e, l);
  }

  /** An edit that adds only numbers new to their levels extends the journal. */
  lemma JournalNext(journal: seq<TreeEdit>, e: TreeEdit, v: Version, v': Version, next: nat, next': nat,
                    from: Option<nat>, from': Option<nat>)
    requires JournalOk(journal, v, next, from) && Applies(e, v, v')
    requires forall l :: 0 <= l < NUM_LEVELS ==>
              OneEach(FilesAt(e.added, l)) && Numbers(FilesAt(e.added, l)) !! Past(journal, l)
    requires forall l, n {:trigger PastNumber(v', from', l, n)} ::
                0 <= l < NUM_LEVELS && (n in Past(journal, l) || n in Numbers(FilesAt(e.added, l))) ==>
                    n < next' && PastNumber(v', from', l, n)
    ensures JournalOk(journal + [e], v', next', from')
  {
    hide Save;
    hide Apply;
    hide Past;
    hide OneEach;
    hide FilesAt;
    hide LevelJournal;
    hide PastNumber;
    forall l | 0 <= l < NUM_LEVELS ensures LevelJournal(journal + [e], v'[l], l) {
      LevelJournalNext(journal, e, v[l], v'[l], l);
    }
    forall l, n | 0 <= l < NUM_LEVELS && n in Past(journal + [e], l) ensures n < next' && PastNumber(v', from', l, n) {
      PastNext(journal, e, l);
      assert PastNumber(v', from', l, n);
    }
  }

  // ---------- every step ----------

  lemma FlushJournal(journal: seq<TreeEdit>, v: Version, next: nat, from: Option<nat>, level: nat, f: File)
    requires JournalOk(journal, v, next, from) && NumbersOk(v, next) && level < NUM_LEVELS && f.number == next
    requires from.Some? ==> from.value <= next
    ensures JournalOk(journal + [TreeEdit({}, OnLevel(level, [f]))], AddFile(v, level, f), next + 1, from)
  {
    hide AddFile;
    hide LevelJournal;
    hide Past;
    var e, v' := TreeEdit({}, OnLevel(level, [f])), AddFile(v, level, f);
    FlushApplies(v, level, f);
    forall l | 0 <= l < NUM_LEVELS
        ensures OneEach(FilesAt(e.added, l)) && Numbers(FilesAt(e.added, l)) !! Past(journal, l) {
      FlushIsFresh(journal, v, next, from, level, f, l);
    }
    forall l, n | 0 <= l < NUM_LEVELS && (n in Past(journal, l) || n in Numbers(FilesAt(e.added, l)))
      ensures n < next + 1 && PastNumber(v', from, l, n)
    {
      FlushPast(journal, v, next, from, level, f, l, n);
    }
    JournalNext(journal, e, v, v', next, next + 1, from, from);
  }

  lemma FlushIsFresh(journal: seq<TreeEdit>, v: Version, next: nat, from: Option<nat>, level: nat, f: File, l: nat)
    requires PastOk(journal, v, next, from) && f.number == next && l < NUM_LEVELS
    ensures OneEach(FilesAt(OnLevel(level, [f]), l)) && Numbers(FilesAt(OnLevel(level, [f]), l)) !! Past(journal, l)
  {
    hide Past;
    FilesAtLevel(level, [f], l);
    if next in Past(journal, l) { PastIs(journal, v, next, from, l, next); }
  }

  lemma FlushPast(journal: seq<TreeEdit>, v: Version, next: nat, from: Option<nat>, level: nat, f: File, l: nat, n: nat)
    requires PastOk(journal, v, next, from) && NumbersOk(v, next) && level < NUM_LEVELS && f.number == next
             && l < NUM_LEVELS
    requires from.Some? ==> from.value <= next
    requires n in Past(journal, l) || n in Numbers(FilesAt(OnLevel(level, [f]), l))
    ensures n < next + 1 && PastNumber(AddFile(v, level, f), from, l, n)
  {
    hide Past;
    hide AddFile;
    var v' := AddFile(v, level, f);
    FilesAtLevel(level, [f], l);
    if n in Past(journal, l) { PastIs(journal, v, next, from, l, n); }
    forall m | 0 <= m < NUM_LEVELS ensures n in Numbers(v'[m]) <==> n in Numbers(v[m]) || (m == level && n == next) {
      AddedNumbers(v, level, f, m);
    }
    assert n in Past(journal, l) || (n == next && l == level);
    forall m | 0 <= m < l ensures n !in Numbers(v'[m]) { assert n in Numbers(v[m]) ==> n < next; }
    if from.Some? && n >= from.value {
      assert exists m :: 0 <= m < NUM_LEVELS && n in Numbers(v'[m]) by {
        if n == next {
          assert n in Numbers(v'[level]);
        } else {
          var m :| 0 <= m < NUM_LEVELS && n in Numbers(v[m]);
          assert n in Numbers(v'[m]);
        }
      }
    }
  }

  lemma AddedNumbers(v: Version, level: nat, f: File, m: nat)
    requires level < NUM_LEVELS && m < NUM_LEVELS
    ensures Numbers(AddFile(v, level, f)[m]) == Numbers(v[m]) + if m == level then {f.number} else {}
  {
    hide AddFile;
    forall n ensures n in Numbers(AddFile(v, level, f)[m]) <==> n in Numbers(v[m]) || (m == level && n == f.number) {
      if n in Numbers(AddFile(v, level, f)[m]) {
        var g :| g in AddFile(v, level, f)[m] && g.number == n;
        AddContents(v, level, f, m, g);
      }
      if n in Numbers(v[m]) {
        var g :| g in v[m] && g.number == n;
        AddContents(v, level, f, m, g);
      }
      AddContents(v, level, f, level, f);
    }
  }

  lemma NothingJournal(journal: seq<TreeEdit>, v: Version, next: nat, next': nat, from: Option<nat>)
    requires JournalOk(journal, v, next, from) && next <= next'
    ensures JournalOk(journal + [NOTHING], v, next', from)
  {
    hide LevelJournal;
    hide Past;
    NothingApplies(v);
    forall l | 0 <= l < NUM_LEVELS ensures FilesAt(NOTHING.added, l) == [] { NothingAt(l); }
    forall l, n | 0 <= l < NUM_LEVELS && (n in Past(journal, l) || n in Numbers(FilesAt(NOTHING.added, l)))
      ensures n < next' && PastNumber(v, from, l, n)
    {
      PastIs(journal, v, next, from, l, n);
    }
    JournalNext(journal, NOTHING, v, v, next, next', from, from);
  }

  /** What an install or a move needs of its files: new to the level below, and gone nowhere else. */
  ghost predicate MovesDown(journal: seq<TreeEdit>, v: Version, c: Inputs, outs: seq<File>)
    requires c.level + 1 < NUM_LEVELS
  {
    && Numbers(outs) !! Past(journal, c.level + 1)
    && (forall l, n :: 0 <= l < NUM_LEVELS && n in Past(journal, l) && n in Numbers(outs) ==> l <= c.level)
  }

  lemma SwapJournal(journal: seq<TreeEdit>, v: Version, next: nat, from: Option<nat>, c: Inputs, outs: seq<File>)
    requires JournalOk(journal, v, next, from) && NumbersOk(v, next) && InputsIn(v, c) && OutputsOk(v, c, outs)
    requires MovesDown(journal, v, c, outs) && forall n :: n in Numbers(outs) ==> n < next
    ensures JournalOk(journal + [SwapEdit(c, outs)], Replace(v, c, outs), next, None)
  {
    hide Replace;
    hide OutputsOk;
    hide LevelJournal;
    hide Past;
    hide NumbersOk;
    var e, v' := SwapEdit(c, outs), Replace(v, c, outs);
    SwapApplies(v, next, c, outs);
    forall l | 0 <= l < NUM_LEVELS ensures Numbers(FilesAt(e.added, l)) !! Past(journal, l) { SwapAt(c, outs, l); }
    forall l, n | 0 <= l < NUM_LEVELS && (n in Past(journal, l) || n in Numbers(FilesAt(e.added, l)))
      ensures n < next && PastNumber(v', None, l, n)
    {
      SwapPast(journal, v, next, from, c, outs, l, n);
    }
    JournalNext(journal, e, v, v', next, next, from, None);
  }

  lemma SwapPast(journal: seq<TreeEdit>, v: Version, next: nat, from: Option<nat>, c: Inputs, outs: seq<File>, l: nat,
                 n: nat)
    requires PastOk(journal, v, next, from) && NumbersOk(v, next) && InputsIn(v, c) && OutputsOk(v, c, outs)
             && l < NUM_LEVELS
    requires MovesDown(journal, v, c, outs) && forall n :: n in Numbers(outs) ==> n < next
    requires n in Past(journal, l) || n in Numbers(FilesAt(SwapEdit(c, outs).added, l))
    ensures n < next && PastNumber(Replace(v, c, outs), None, l, n)
  {
    hide NumbersOf;
    hide OnLevel;
    hide SaveLevel;
    hide Past;
    hide Replace;
    SwapAt(c, outs, l);
    if n in Past(journal, l) { PastIs(journal, v, next, from, l, n); }
    forall m | 0 <= m < l ensures n !in Numbers(Replace(v, c, outs)[m]) { SwappedAbove(v, next, c, outs, l, n, m); }
  }

  lemma SwappedAbove(v: Version, next: nat, c: Inputs, outs: seq<File>, l: nat, n: nat, m: nat)
    requires NumbersOk(v, next) && InputsIn(v, c) && OutputsOk(v, c, outs) && m < l < NUM_LEVELS
    requires if n in Numbers(outs) then l <= c.level + 1 else n !in Numbers(v[m])
    ensures n !in Numbers(Replace(v, c, outs)[m])
  {
    hide Replace;
    ReplaceLevelNumbers(v, next, c, outs, m);
    if n in Numbers(outs) {
      if m == c.level {
        assert Numbers(outs) * Numbers(v[c.level]) <= Numbers(c.in0);
      } else if m < c.level {
        assert Numbers(outs) !! Numbers(v[m]);
      }
    }
  }

  /** Outputs are numbered after their compaction started, and what was numbered since is in the tree. */
  lemma OutputsAreFresh(journal: seq<TreeEdit>, v: Version, next: nat, from: nat, c: Inputs, outs: seq<File>)
    requires PastOk(journal, v, next, Some(from)) && c.level + 1 < NUM_LEVELS
    requires forall n :: n in Numbers(outs) ==> n >= from
    requires forall l {:trigger Numbers(v[l])} :: 0 <= l < NUM_LEVELS ==> Numbers(outs) !! Numbers(v[l])
    ensures MovesDown(journal, v, c, outs)
  {
    hide Past;
    forall l, n | 0 <= l < NUM_LEVELS && n in Past(journal, l) ensures n !in Numbers(outs) {
      PastIs(journal, v, next, Some(from), l, n);
    }
  }

  /** A moved file never was on the level it moves to. */
  lemma MovedIsFresh(journal: seq<TreeEdit>, v: Version, next: nat, from: Option<nat>, c: Inputs)
    requires PastOk(journal, v, next, from) && InputsIn(v, c)
    ensures MovesDown(journal, v, c, c.in0)
  {
    hide Past;
    forall l, n | 0 <= l < NUM_LEVELS && n in Past(journal, l) && n in Numbers(c.in0) ensures l <= c.level {
      var f :| f in c.in0 && f.number == n;
      assert n in Numbers(v[c.level]);
      PastIs(journal, v, next, from, l, n);
    }
  }

  lemma InstallJournal(journal: seq<TreeEdit>, s: State, s': State, input: seq<Entry>, outs: seq<File>)
    requires ShapeInv(s) && JournalOk(journal, s.current, s.nextFile, From(s)) && InstallCompaction(s, s', input, outs)
    ensures JournalOk(journal + [EditOf(s, InstallStep(input, outs))], s'.current, s'.nextFile, From(s'))
  {
    hide JournalOk;
    hide Replace;
    hide LayersOk;
    var r := s.running.value;
    OutputsAreOk(s, s', input, outs);
    JournalPast(journal, s.current, s.nextFile, From(s));
    OutputsAreFresh(journal, s.current, s.nextFile, r.from, r.inputs, outs);
    SwapJournal(journal, s.current, s.nextFile, From(s), r.inputs, outs);
  }

  lemma JournalPast(journal: seq<TreeEdit>, v: Version, next: nat, from: Option<nat>)
    requires JournalOk(journal, v, next, from)
    ensures PastOk(journal, v, next, from)
  {
  }

  lemma MoveJournal(journal: seq<TreeEdit>, s: State, s': State, c: Inputs)
    requires ShapeInv(s) && JournalOk(journal, s.current, s.nextFile, From(s)) && TrivialMove(s, s', c)
    ensures JournalOk(journal + [EditOf(s, MoveStep(c))], s'.current, s'.nextFile, From(s'))
  {
    hide JournalOk;
    hide Replace;
    hide LayersOk;
    JournalPast(journal, s.current, s.nextFile, From(s));
    MoveOutputsOk(s.current, s.nextFile, c);
    MovedIsFresh(journal, s.current, s.nextFile, From(s), c);
    SwapJournal(journal, s.current, s.nextFile, From(s), c, c.in0);
  }

  /** Numbers may be taken, and compactions started or given up, in between. */
  lemma SameJournal(journal: seq<TreeEdit>, v: Version, next: nat, next': nat, from: Option<nat>, from': Option<nat>)
    requires JournalOk(journal, v, next, from) && next <= next'
             && (from'.Some? ==> from' == from || from'.value >= next)
    ensures JournalOk(journal, v, next', from')
  {
    hide Past;
    hide LevelJournal;
    forall l, n | 0 <= l < NUM_LEVELS && n in Past(journal, l) ensures n < next' && PastNumber(v, from', l, n) {
      PastIs(journal, v, next, from, l, n);
    }
  }

  /** Where the numbers of a running compaction start. */
  ghost predicate FromOk(s: State) { s.running.Some? ==> s.running.value.from <= s.nextFile }

  /** Every step keeps the journal, whatever inputs were picked. */
  lemma StepKeepsJournal(journal: seq<TreeEdit>, s: State, s': State, step: Step)
    requires ShapeInv(s) && FromOk(s) && JournalOk(journal, s.current, s.nextFile, From(s)) && Takes(s, s', step)
    ensures FromOk(s') && JournalOk(NextJournal(journal, s, step), s'.current, s'.nextFile, From(s'))
  {
    hide JournalOk;
    hide LayersOk;
    hide Replace;
    hide AddFile;
    match step
    case FlushStep(f, level) => FlushJournal(journal, s.current, s.nextFile, From(s), level, f);
    case FlushEmptyStep => NothingJournal(journal, s.current, s.nextFile, s'.nextFile, From(s));
    case InstallStep(input, outs) => InstallJournal(journal, s, s', input, outs);
    case MoveStep(c) => MoveJournal(journal, s, s', c);
    case _ => SameJournal(journal, s.current, s.nextFile, s'.nextFile, From(s), From(s'));
  }

  // ---------- snapshots ----------

  /** The files of the levels below `l`. */
  function Listing(v: Version, l: nat): seq<(nat, File)>
    requires l <= NUM_LEVELS
  {
    if l == 0 then [] else Listing(v, l - 1) + OnLevel(l - 1, v[l - 1])
  }

  /** WriteSnapshot: an edit that adds every file of a version. */
  function Snapshot(v: Version): TreeEdit { TreeEdit({}, Listing(v, NUM_LEVELS)) }

  lemma {:induction false} ListingAt(v: Version, n: nat, l: nat)
    requires n <= NUM_LEVELS && l < NUM_LEVELS
    ensures FilesAt(Listing(v, n), l) == if l < n then v[l] else []
  {
    hide Listing;
    hide FilesAt;
    if n == 0 {
      NothingListed(v, l);
    } else {
      ListingAt(v, n - 1, l);
      ListingNext(v, n - 1, l);
    }
  }

  lemma NothingListed(v: Version, l: nat)
    ensures FilesAt(Listing(v, 0), l) == []
  {
  }

  lemma ListingNext(v: Version, n: nat, l: nat)
    requires n < NUM_LEVELS
    ensures FilesAt(Listing(v, n + 1), l) == FilesAt(Listing(v, n), l) + if l == n then v[n] else []
  {
    hide FilesAt;
    hide OnLevel;
    FilesAtJoin(Listing(v, n), OnLevel(n, v[n]), l);
    FilesAtLevel(n, v[n], l);
  }

  lemma SnapshotAt(v: Version, l: nat)
    requires l < NUM_LEVELS
    ensures At(Snapshot(v), l) == LevelEdit({}, v[l])
  {
    ListingAt(v, NUM_LEVELS, l);
    assert DeletedAt({}, l) == {};
  }

  /** Every level in order, with no number twice. */
  ghost predicate Listed(v: Version) {
    forall l {:trigger v[l]} :: 0 <= l < NUM_LEVELS ==> InOrder(v[l]) && OneEach(v[l])
  }

  lemma OneEditLive(files: seq<File>, edits: seq<LevelEdit>)
    requires edits == [LevelEdit({}, files)] && InOrder(files) && OneEach(files)
    ensures NeverReadds([], edits) && Live([], edits) == files && EverHeld([], edits) == Numbers(files)
  {
    hide SaveLevel;
    var none: set<nat> := {};
    assert edits[..0] == [];
    InsertAllSame(files);
    assert none + none - NumbersOf(files) == none;
    assert Numbers([]) == {};
    KeepAll(files, {});
    SaveOntoNothing(files);
  }

  lemma SaveOntoNothing(files: seq<File>)
    ensures SaveLevel([], {}, files) == files
  {
    KeepAll(files, {});
  }

  lemma SnapshotLevel(v: Version, l: nat)
    requires Listed(v) && l < NUM_LEVELS
    ensures LevelJournal([Snapshot(v)], v[l], l) && Past([Snapshot(v)], l) == Numbers(v[l])
  {
    hide InOrder;
    hide OneEach;
    hide Live;
    hide NeverReadds;
    hide EverHeld;
    var journal := [Snapshot(v)];
    SnapshotAt(v, l);
    assert Projected(journal, l) == [LevelEdit({}, v[l])];
    OneEditLive(v[l], Projected(journal, l));
  }

  /** A snapshot of a version starts a journal. */
  lemma SnapshotStarts(v: Version, next: nat, from: Option<nat>)
    requires Listed(v) && NumbersOk(v, next)
    ensures JournalOk([Snapshot(v)], v, next, from)
  {
    hide InOrder;
    hide OneEach;
    hide Live;
    hide NeverReadds;
    hide EverHeld;
    hide NumbersOk;
    var journal := [Snapshot(v)];
    forall l | 0 <= l < NUM_LEVELS ensures LevelJournal(journal, v[l], l) && Past(journal, l) == Numbers(v[l]) {
      SnapshotLevel(v, l);
    }
    forall l, n | 0 <= l < NUM_LEVELS && n in Past(journal, l) ensures n < next && PastNumber(v, from, l, n) {
      HeldNumber(v, next, from, l, n);
    }
  }

  lemma HeldNumber(v: Version, next: nat, from: Option<nat>, l: nat, n: nat)
    requires NumbersOk(v, next) && l < NUM_LEVELS && n in Numbers(v[l])
    ensures n < next && PastNumber(v, from, l, n)
  {
    forall m | 0 <= m < l ensures n !in Numbers(v[m]) { assert Numbers(v[m]) !! Numbers(v[l]); }
  }

  lemma LiveListed(journal: seq<TreeEdit>, v: Version, next: nat, from: Option<nat>)
    requires JournalOk(journal, v, next, from)
    ensures Listed(v)
  {
    hide Live;
    hide NeverReadds;
    hide InOrder;
    hide OneEach;
    hide PastOk;
    forall l | 0 <= l < NUM_LEVELS ensures InOrder(v[l]) && OneEach(v[l]) {
      assert LevelJournal(journal, v[l], l);
      LiveIsListed(Projected(journal, l));
    }
  }

  // ---------- all runs ----------

  /** The edits since the snapshot taken in state `start`. */
  function JournalAt(states: seq<State>, steps: seq<Step>, start: nat, n: nat): seq<TreeEdit>
    requires start <= n < |states| <= |steps| + 1
  {
    if n == start then [Snapshot(states[start].current)]
    else NextJournal(JournalAt(states, steps, start, n - 1), states[n - 1], steps[n - 1])
  }

  lemma InitListed(s: State)
    requires Init(s)
    ensures Listed(s.current) && NumbersOk(s.current, s.nextFile) && FromOk(s)
  {
    assert Numbers([]) == {};
  }

  lemma {:induction false} RunJournalFrom(states: seq<State>, steps: seq<Step>, start: nat, n: nat)
    requires IsRun(states, steps) && start <= n < |states| && Listed(states[start].current) && FromOk(states[start])
    ensures FromOk(states[n])
            && JournalOk(JournalAt(states, steps, start, n), states[n].current, states[n].nextFile, From(states[n]))
  {
    hide JournalOk;
    hide ShapeInv;
    hide Takes;
    hide Init;
    hide Listed;
    if n == start {
      LevelsStaySorted(states, steps, n);
      SnapshotStarts(states[n].current, states[n].nextFile, From(states[n]));
    } else {
      RunJournalFrom(states, steps, start, n - 1);
      RunKeepsShape(states, steps, n - 1);
      StepKeepsJournal(JournalAt(states, steps, start, n - 1), states[n - 1], states[n], steps[n - 1]);
    }
  }

  /** In every run, a snapshot at any point followed by the edits since never adds to a level a number the
      level held before, and the chain of live versions is what the run went through. */
  lemma RunJournal(states: seq<State>, steps: seq<Step>, start: nat, n: nat)
    requires IsRun(states, steps) && start <= n < |states|
    ensures JournalOk(JournalAt(states, steps, start, n), states[n].current, states[n].nextFile, From(states[n]))
  {
    hide JournalOk;
    hide Takes;
    hide Listed;
    InitListed(states[0]);
    RunJournalFrom(states, steps, 0, start);
    LiveListed(JournalAt(states, steps, 0, start), states[start].current, states[start].nextFile, From(states[start]));
    RunJournalFrom(states, steps, start, n);
  }

  /** One builder over the snapshot and the edits gives, on every level, the files of the current version. */
  lemma ReplayIsCurrent(states: seq<State>, steps: seq<Step>, start: nat, n: nat, l: nat)
    requires IsRun(states, steps) && start <= n < |states| && l < NUM_LEVELS
    ensures NeverReadds([], Projected(JournalAt(states, steps, start, n), l))
    ensures Replayed([], Projected(JournalAt(states, steps, start, n), l)) == states[n].current[l]
  {
    hide NeverReadds;
    hide Live;
    hide IsRun;
    RunShape(states, steps);
    RunJournal(states, steps, start, n);
    JournalReplays(JournalAt(states, steps, start, n), states[n].current, states[n].nextFile, From(states[n]), l);
  }

  lemma RunShape(states: seq<State>, steps: seq<Step>)
    requires IsRun(states, steps)
    ensures |states| == |steps| + 1
  {
  }

  lemma JournalReplays(journal: seq<TreeEdit>, v: Version, next: nat, from: Option<nat>, l: nat)
    requires JournalOk(journal, v, next, from) && l < NUM_LEVELS
    ensures NeverReadds([], Projected(journal, l)) && Replayed([], Projected(journal, l)) == v[l]
  {
    hide NeverReadds;
    hide Live;
    hide PastOk;
    assert LevelJournal(journal, v[l], l);
    InOrderNothing();
    ReplayIsLive([], Projected(journal, l));
  }
}
