/** What recovering a manifest gives back: the files of the version that its edits arrived at.  The builder
    over bytes refines the builder over files of `ManifestReplay`. */
module ManifestRecovery {
  import opened Options
  import opened Coding
  import opened InternalKeys
  import opened InternalKeyBytes
  import opened Bytewise
  import opened Files
  import opened VersionBuilder
  import opened TreeSteps
  import opened ManifestReplay
  import opened Journals
  import opened ManifestRecords
  import opened LsmMachine
  import E = VersionEdits

  // ---------- files as the manifest names them ----------

  /** The user key is a byte string, and short enough to be written with a 32-bit length. */
  ghost predicate IsKey(k: InternalKey) { exists b: Buffer :: Rank(b) == k.user && |b| + TAG_SIZE < WORD32 }

  ghost function KeyBytes(k: InternalKey): Buffer {
    if IsKey(k) then
      var b: Buffer :| Rank(b) == k.user && |b| + TAG_SIZE < WORD32;
      Encode(b, PackSequenceAndType(k.sequence, k.kind))
    else []
  }

  lemma KeyBytesParse(k: InternalKey)
    requires IsKey(k)
    ensures Parse(KeyBytes(k)).Some? && Abstract(Parse(KeyBytes(k)).value) == k
    ensures 0 < |KeyBytes(k)| < WORD32
  {
    var b: Buffer :| Rank(b) == k.user && |b| + TAG_SIZE < WORD32
        && KeyBytes(k) == Encode(b, PackSequenceAndType(k.sequence, k.kind));
    ParseEncode(b, k.sequence, k.kind);
  }

  lemma KeyBytesOrder(a: InternalKey, b: InternalKey)
    requires IsKey(a) && IsKey(b)
    ensures KeyLess(KeyBytes(a), KeyBytes(b)) <==> Before(a, b)
    ensures KeyBytes(a) == KeyBytes(b) ==> a == b
  {
    KeyBytesParse(a);
    KeyBytesParse(b);
    KeyLessIsBefore(KeyBytes(a), KeyBytes(b));
  }

  ghost predicate Named(f: Table) { IsKey(f.smallest) && IsKey(f.largest) }

  ghost predicate AllNamed(files: seq<File>) { forall f :: f in files ==> Named(f) }

  ghost function MetaOf(f: Table): Meta { E.FileMeta(f.number, f.size, KeyBytes(f.smallest), KeyBytes(f.largest)) }

  ghost function MetasOf(files: seq<File>): seq<Meta> {
    seq(|files|, i requires 0 <= i < |files| => MetaOf(files[i]))
  }

  lemma MetaOrder(f: File, g: File)
    requires Named(f) && Named(g)
    ensures MetaBefore(MetaOf(f), MetaOf(g)) <==> BySmallest(f, g)
  {
    KeyBytesOrder(f.smallest, g.smallest);
    KeyBytesOrder(g.smallest, f.smallest);
    NotBeforeEither(f.smallest, g.smallest);
  }

  lemma NotBeforeEither(a: InternalKey, b: InternalKey)
    ensures !Before(a, b) && !Before(b, a) <==> a == b
  {
  }

  // ---------- the builder over bytes refines the builder over files ----------

  lemma {:induction false} InsertAgrees(added: seq<File>, f: File)
    requires AllNamed(added) && Named(f)
    ensures Insert(MetasOf(added), MetaOf(f)) == MetasOf(InsertSorted(added, f)) && AllNamed(InsertSorted(added, f))
  {
    hide MetaOf;
    hide MetaBefore;
    hide BySmallest;
    hide Named;
    if added == [] {
    } else {
      hide MetasOf;
      MetaOrder(f, added[0]);
      MetaOrder(added[0], f);
      MetasHead(added);
      MetasCons(f, added);
      if !BySmallest(f, added[0]) && BySmallest(added[0], f) {
        InsertAgrees(added[1..], f);
        MetasCons(added[0], InsertSorted(added[1..], f));
      }
    }
  }

  lemma {:induction false} InsertEachAgrees(added: seq<File>, files: seq<File>)
    requires AllNamed(added) && AllNamed(files)
    ensures InsertEach(MetasOf(added), MetasOf(files)) == MetasOf(InsertAll(added, files))
            && AllNamed(InsertAll(added, files))
  {
    hide MetaOf;
    hide Named;
    if files == [] {
    } else {
      var n := |files| - 1;
      assert MetasOf(files)[..n] == MetasOf(files[..n]);
      InsertEachAgrees(added, files[..n]);
      InsertAgrees(InsertAll(added, files[..n]), files[n]);
    }
  }

  lemma MetasHead(files: seq<File>)
    requires files != []
    ensures MetasOf(files) != [] && MetasOf(files)[0] == MetaOf(files[0]) && MetasOf(files)[1..] == MetasOf(files[1..])
  {
    hide MetaOf;
    hide Table.Valid;
  }

  lemma MetasCons(f: File, files: seq<File>)
    ensures MetasOf([f] + files) == [MetaOf(f)] + MetasOf(files)
  {
    hide MetaOf;
    hide Table.Valid;
  }

  lemma {:induction false} RemainingAgrees(files: seq<File>, deleted: set<nat>)
    ensures Remaining(MetasOf(files), deleted) == MetasOf(Undeleted(files, deleted))
  {
    if files == [] {
    } else {
      hide MetasOf;
      MetasHead(files);
      RemainingAgrees(files[1..], deleted);
      MetasCons(files[0], Undeleted(files[1..], deleted));
    }
  }

  lemma {:induction false} MergedAgrees(base: seq<File>, added: seq<File>)
    requires AllNamed(base) && AllNamed(added)
    ensures Merged(MetasOf(base), MetasOf(added)) == MetasOf(Merge(base, added))
    decreases |base| + |added|
  {
    hide MetaOf;
    hide MetaBefore;
    hide BySmallest;
    hide Named;
    if base != [] && added != [] {
      hide MetasOf;
      MetaOrder(added[0], base[0]);
      MetasHead(base);
      MetasHead(added);
      if BySmallest(added[0], base[0]) {
        MergedAgrees(base, added[1..]);
        MetasCons(added[0], Merge(base, added[1..]));
      } else {
        MergedAgrees(base[1..], added);
        MetasCons(base[0], Merge(base[1..], added));
      }
    }
  }

  ghost function SlotOf(st: LevelState): Slot { Slot(st.deleted, MetasOf(st.added)) }

  /** Saving: the metadata of what the builder over files leaves on the level. */
  lemma SavedAgrees(base: seq<File>, st: LevelState)
    requires AllNamed(base) && AllNamed(st.added)
    ensures Saved(MetasOf(base), SlotOf(st)) == MetasOf(Save(base, st))
  {
    MergedAgrees(base, st.added);
    RemainingAgrees(Merge(base, st.added), st.deleted);
  }

  // ---------- edits as records ----------

  ghost function MetaList(added: seq<(nat, File)>): seq<(nat, Meta)> {
    seq(|added|, i requires 0 <= i < |added| => (added[i].0, MetaOf(added[i].1)))
  }

  ghost predicate EditNamed(e: TreeEdit) { forall i :: 0 <= i < |e.added| ==> Named(e.added[i].1) }

  lemma {:induction false} AddedOnAgrees(added: seq<(nat, File)>, l: nat)
    requires forall i :: 0 <= i < |added| ==> Named(added[i].1)
    ensures AddedOn(MetaList(added), l) == MetasOf(FilesAt(added, l)) && AllNamed(FilesAt(added, l))
  {
    hide MetaOf;
    hide Named;
    hide MetasOf;
    hide Table.Valid;
    if added == [] {
      assert MetasOf([]) == [] by { MetasNone(); }
    } else {
      var n := |added| - 1;
      assert MetaList(added)[..n] == MetaList(added[..n]);
      AddedOnAgrees(added[..n], l);
      MetasNext(FilesAt(added[..n], l), added[n].1);
    }
  }

  lemma MetasNone()
    ensures MetasOf([]) == []
  {
  }

  lemma MetasNext(files: seq<File>, f: File)
    ensures MetasOf(files + [f]) == MetasOf(files) + [MetaOf(f)] && MetasOf(files + []) == MetasOf(files)
    ensures AllNamed(files + [f]) <==> AllNamed(files) && Named(f)
  {
    hide MetaOf;
    hide Named;
    assert files + [] == files;
    assert f in files + [f];
  }

  /** The record says what the edit does, in bytes, and names no other comparator. */
  ghost predicate Carries(record: Buffer, e: TreeEdit) {
    && EditNamed(e) && ReadEdit(record).Ok?
    && ReadEdit(record).value.deleted == e.deleted && ReadEdit(record).value.added == MetaList(e.added)
  }

  ghost predicate Recorded(records: seq<Buffer>, journal: seq<TreeEdit>) {
    |records| == |journal| && forall i {:trigger records[i]} :: 0 <= i < |records| ==> Carries(records[i], journal[i])
  }

  lemma PutAgrees(st: LevelState, e: TreeEdit, read: E.Edit, l: nat)
    requires AllNamed(st.added) && EditNamed(e) && read.deleted == e.deleted && read.added == MetaList(e.added)
    ensures Put(SlotOf(st), read, l) == SlotOf(Apply(st, At(e, l))) && AllNamed(Apply(st, At(e, l)).added)
  {
    hide InsertEach;
    hide InsertAll;
    AddedOnAgrees(e.added, l);
    InsertEachAgrees(st.added, FilesAt(e.added, l));
    NumbersAgree(FilesAt(e.added, l));
    assert DeletedOn(read.deleted, l) == DeletedAt(e.deleted, l);
  }

  lemma NumbersAgree(files: seq<File>)
    ensures NumbersIn(MetasOf(files)) == NumbersOf(files)
  {
    hide Encode;
    hide PackSequenceAndType;
    hide NumbersOf;
    forall n ensures n in NumbersIn(MetasOf(files)) <==> n in Numbers(files) {
      if n in Numbers(files) {
        var i :| 0 <= i < |files| && files[i].number == n;
        assert MetasOf(files)[i].number == n;
      }
    }
  }

  /** The builder after the records, on one level. */
  ghost predicate BuiltAs(p: Progress, journal: seq<TreeEdit>) {
    && |p.slots| == NUM_LEVELS
    && forall l {:trigger p.slots[l]} :: 0 <= l < NUM_LEVELS ==>
          p.slots[l] == SlotOf(ApplyAll(Projected(journal, l))) && AllNamed(ApplyAll(Projected(journal, l)).added)
  }

  lemma {:induction false} RecordedIsBuilt(records: seq<Buffer>, journal: seq<TreeEdit>)
    requires Recorded(records, journal)
    ensures Consumed(records).Ok? && BuiltAs(Consumed(records).value, journal)
  {
    hide Carries;
    if records == [] {
      forall l | 0 <= l < NUM_LEVELS ensures Projected(journal, l) == [] { }
      NothingBuilt(journal);
    } else {
      var n := |records| - 1;
      RecordedIsBuilt(records[..n], journal[..n]);
      assert journal == journal[..n] + [journal[n]];
      assert Carries(records[n], journal[n]);
      OneMoreBuilt(Consumed(records[..n]).value, journal[..n], records[n], journal[n]);
    }
  }

  lemma NothingBuilt(journal: seq<TreeEdit>)
    requires journal == []
    ensures BuiltAs(Start(), journal)
  {
    hide Projected;
    hide SlotOf;
    hide ApplyAll;
    hide AllNamed;
    forall l | 0 <= l < NUM_LEVELS
      ensures SlotOf(ApplyAll(Projected(journal, l))) == Slot({}, []) && AllNamed(ApplyAll(Projected(journal, l)).added)
    {
      NothingApplied(l);
    }
  }

  lemma NothingApplied(l: nat)
    ensures SlotOf(ApplyAll(Projected([], l))) == Slot({}, []) && AllNamed(ApplyAll(Projected([], l)).added)
  {
    assert Projected([], l) == [] && MetasOf([]) == [];
  }

  lemma OneMoreBuilt(p: Progress, journal: seq<TreeEdit>, record: Buffer, e: TreeEdit)
    requires BuiltAs(p, journal) && Carries(record, e)
    ensures ConsumeOne(p, record).Ok? && BuiltAs(ConsumeOne(p, record).value, journal + [e])
  {
    hide SlotOf;
    hide Put;
    hide AllNamed;
    hide ReadEdit;
    hide ApplyAll;
    hide MetaList;
    hide EditNamed;
    var read := ReadEdit(record).value;
    forall l | 0 <= l < NUM_LEVELS
      ensures Put(p.slots[l], read, l) == SlotOf(ApplyAll(Projected(journal + [e], l)))
              && AllNamed(ApplyAll(Projected(journal + [e], l)).added)
    {
      ApplyNext(journal, e, l);
      assert p.slots[l] == SlotOf(ApplyAll(Projected(journal, l)));
      PutAgrees(ApplyAll(Projected(journal, l)), e, read, l);
    }
  }

  lemma ApplyNext(journal: seq<TreeEdit>, e: TreeEdit, l: nat)
    ensures ApplyAll(Projected(journal + [e], l)) == Apply(ApplyAll(Projected(journal, l)), At(e, l))
  {
    hide Apply;
    var edits := Projected(journal, l);
    ProjectedNext(journal, e, l);
    assert (edits + [At(e, l)])[..|edits|] == edits;
  }

  // ---------- what recovering gives back ----------

  ghost function MetaLevels(v: Version): seq<seq<Meta>> {
    seq(NUM_LEVELS, l requires 0 <= l < NUM_LEVELS => MetasOf(v[l]))
  }

  /** The last record carries the counters. */
  ghost predicate Counts(records: seq<Buffer>, log: nat, next: nat, last: nat) {
    && records != [] && ReadEdit(records[|records| - 1]).Ok?
    && var e := ReadEdit(records[|records| - 1]).value;
       e.logNumber == Some(log) && e.nextFile == Some(next) && e.lastSequence == Some(last)
  }

  /** Recovering the records gives the files of `v` and the counters. */
  ghost predicate Describes(records: seq<Buffer>, v: Version, log: nat, next: nat, last: nat) {
    Recovered(records) == Ok(Found(MetaLevels(v), log, next, last))
  }

  lemma CountsFound(records: seq<Buffer>, log: nat, next: nat, last: nat)
    requires Counts(records, log, next, last) && Consumed(records).Ok?
    ensures var p := Consumed(records).value; p.log == Some(log) && p.next == Some(next) && p.last == Some(last)
  {
  }

  /** Records of a journal without re-added numbers recover the version the journal arrived at. */
  lemma JournalRecovers(records: seq<Buffer>, journal: seq<TreeEdit>, v: Version, nextFile: nat, from: Option<nat>,
                        log: nat, next: nat, last: nat)
    requires Recorded(records, journal) && JournalOk(journal, v, nextFile, from) && Counts(records, log, next, last)
    ensures Describes(records, v, log, next, last)
  {
    hide Recorded;
    hide JournalOk;
    hide SlotOf;
    hide Counts;
    hide Consumed;
    hide Saved;
    hide AllNamed;
    hide MetasOf;
    RecordedIsBuilt(records, journal);
    CountsFound(records, log, next, last);
    var p := Consumed(records).value;
    forall l | 0 <= l < NUM_LEVELS ensures Saved([], p.slots[l]) == MetasOf(v[l]) {
      assert p.slots[l] == SlotOf(ApplyAll(Projected(journal, l)));
      LevelRecovers(journal, v, nextFile, from, l);
    }
    assert Concluded(p).value.levels == MetaLevels(v);
  }

  lemma LevelRecovers(journal: seq<TreeEdit>, v: Version, nextFile: nat, from: Option<nat>, l: nat)
    requires JournalOk(journal, v, nextFile, from) && l < NUM_LEVELS && AllNamed(ApplyAll(Projected(journal, l)).added)
    ensures Saved([], SlotOf(ApplyAll(Projected(journal, l)))) == MetasOf(v[l])
  {
    hide JournalOk;
    hide Save;
    hide SlotOf;
    hide Saved;
    JournalReplays(journal, v, nextFile, from, l);
    MetasNone();
    SavedAgrees([], ApplyAll(Projected(journal, l)));
  }

  /** Manifest replay equals the live chain, over every run: a snapshot record taken at any point, followed
      by the records of the edits since, recovers exactly the files of the current version. */
  lemma ManifestIsCurrent(states: seq<State>, steps: seq<Step>, start: nat, n: nat, records: seq<Buffer>, log: nat,
                          next: nat, last: nat)
    requires IsRun(states, steps) && start <= n < |states| && |states| == |steps| + 1
    requires Recorded(records, JournalAt(states, steps, start, n)) && Counts(records, log, next, last)
    ensures Describes(records, states[n].current, log, next, last)
  {
    hide Recorded;
    hide IsRun;
    hide Counts;
    RunJournal(states, steps, start, n);
    JournalRecovers(records, JournalAt(states, steps, start, n), states[n].current, states[n].nextFile,
        From(states[n]), log, next, last);
  }

  // ---------- what is written is what is read ----------

  /** The record is what EncodeTo writes for an edit whose numbers and lengths fit their fields. */
  ghost predicate IsEncoded(record: Buffer, e: E.Edit) {
    exists ds: seq<(nat, nat)> ::
      && (set d | d in ds) == e.deleted && (forall i :: 0 <= i < |E.ItemsOf(e, ds)| ==> E.Fits(E.ItemsOf(e, ds)[i]))
      && record == E.ItemsBytes(E.ItemsOf(e, ds))
  }

  lemma EncodedReads(record: Buffer, e: E.Edit)
    requires IsEncoded(record, e) && (e.comparator.None? || e.comparator.value == COMPARATOR)
    ensures ReadEdit(record) == Ok(e)
  {
    hide E.DecodeRest;
    hide E.ItemsBytes;
    hide E.Fits;
    var ds :| (set d | d in ds) == e.deleted
        && (forall i :: 0 <= i < |E.ItemsOf(e, ds)| ==> E.Fits(E.ItemsOf(e, ds)[i]))
              && record == E.ItemsBytes(E.ItemsOf(e, ds));
    E.EditRoundTrip(e, ds);
  }

  /** LogAndApply's record: counters, and what the edit does. */
  ghost function EditRecord(e: TreeEdit, log: nat, next: nat, last: nat, pointers: seq<(nat, Buffer)>): E.Edit {
    E.Edit(None, Some(log), Some(0), Some(next), Some(last), pointers, e.deleted, MetaList(e.added))
  }

  /** WriteSnapshot's record. */
  ghost function SnapshotRecord(v: Version, pointers: seq<(nat, Buffer)>): E.Edit {
    E.Edit(Some(COMPARATOR), None, None, None, None, pointers, {}, MetaList(Snapshot(v).added))
  }

  lemma EditCarries(record: Buffer, e: TreeEdit, log: nat, next: nat, last: nat, pointers: seq<(nat, Buffer)>)
    requires EditNamed(e) && IsEncoded(record, EditRecord(e, log, next, last, pointers))
    ensures Carries(record, e) && Counts([record], log, next, last)
  {
    hide IsEncoded;
    EncodedReads(record, EditRecord(e, log, next, last, pointers));
  }

  lemma SnapshotCarries(record: Buffer, v: Version, pointers: seq<(nat, Buffer)>)
    requires EditNamed(Snapshot(v)) && IsEncoded(record, SnapshotRecord(v, pointers))
    ensures Carries(record, Snapshot(v))
  {
    hide IsEncoded;
    EncodedReads(record, SnapshotRecord(v, pointers));
  }
}
