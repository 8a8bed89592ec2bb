/** One compaction: which entries survive, how they are cut into files, and why no reader notices. */
module CompactionWork {
  import opened Options
  import opened InternalKeys
  import opened Files

  /** No file of a level at or below `from` covers `user`. */
  ghost predicate NoFileCovers(v: Version, from: nat, user: UserKey) {
    forall l, f :: from <= l < NUM_LEVELS && f in v[l] ==> !f.Covers(user)
  }

  /** The part of a Compaction object that answers base-level questions with advancing cursors. */
  class Compaction {
    const level: nat
    const inputVersion: Version
    const levelPtrs: array<nat>
    ghost var asked: Option<UserKey>  // the last key asked for

    constructor (level: nat, inputVersion: Version)
      requires TreeShape(inputVersion)
      ensures Valid() && fresh(levelPtrs) && asked == None
      ensures this.level == level && this.inputVersion == inputVersion
    {
      this.level, this.inputVersion := level, inputVersion;
      levelPtrs := new nat[NUM_LEVELS](_ => 0);
      asked := None;
    }

    ghost predicate Valid()
      reads this, levelPtrs
    {
      && levelPtrs.Length == NUM_LEVELS && TreeShape(inputVersion)
      && forall l :: level + 2 <= l < NUM_LEVELS ==>
            levelPtrs[l] <= |inputVersion[l]| &&
            forall i :: 0 <= i < levelPtrs[l] ==> asked.Some? && inputVersion[l][i].largest.user < asked.value
    }

    /** Advance one level's cursor past the files that end before `user`. */
    method CoveredOnLevel(l: nat, user: UserKey) returns (covered: bool)
      requires Valid() && level + 2 <= l < NUM_LEVELS && (asked.Some? ==> asked.value <= user)
      modifies levelPtrs
      ensures levelPtrs[l] <= |inputVersion[l]|
      ensures forall i :: 0 <= i < levelPtrs[l] ==> inputVersion[l][i].largest.user < user
      ensures forall k :: 0 <= k < NUM_LEVELS && k != l ==> levelPtrs[k] == old(levelPtrs[k])
      ensures covered <==> exists f :: f in inputVersion[l] && f.Covers(user)
    {
      var files := inputVersion[l];
      while levelPtrs[l] < |files|
        invariant levelPtrs[l] <= |files|
        invariant forall i :: 0 <= i < levelPtrs[l] ==> files[i].largest.user < user
        invariant forall k :: 0 <= k < NUM_LEVELS && k != l ==> levelPtrs[k] == old(levelPtrs[k])
        decreases |files| - levelPtrs[l]
      {
        var p := levelPtrs[l];
        if user <= files[p].largest.user {
          if user >= files[p].smallest.user {
            assert files[p].Covers(user);
            return true;
          }
          forall f | f in files ensures !f.Covers(user) {
            var i :| 0 <= i < |files| && files[i] == f;
            FileIsOrdered(files[p]);
            assert i > p ==> Before(files[p].largest, files[i].smallest);
          }
          return false;
        }
        levelPtrs[l] := p + 1;
      }
      return false;
    }

    /** True exactly when a full scan of the deeper levels finds no file covering `user`.  The cursors
        only move forward, so keys must be asked for in order. */
    method IsBaseLevelForKey(user: UserKey) returns (base: bool)
      requires Valid() && (asked.Some? ==> asked.value <= user)
      modifies levelPtrs, this`asked
      ensures Valid() && asked == Some(user)
      ensures base <==> NoFileCovers(inputVersion, level + 2, user)
    {
      asked := Some(user);
      var lvl := level + 2;
      while lvl < NUM_LEVELS
        invariant level + 2 <= lvl
        invariant lvl <= NUM_LEVELS || level + 2 > NUM_LEVELS
        invariant Valid() && asked == Some(user)
        invariant forall l :: level + 2 <= l < lvl && l < NUM_LEVELS ==>
                    forall i :: 0 <= i < levelPtrs[l] ==> inputVersion[l][i].largest.user < user
        invariant forall l, f :: level + 2 <= l < lvl && l < NUM_LEVELS && f in inputVersion[l] ==> !f.Covers(user)
      {
        var covered := CoveredOnLevel(lvl, user);
        if covered {
          return false;
        }
        lvl := lvl + 1;
      }
      return true;
    }
  }

  // ---------- the drop rules ----------

  /** Entry `i` of the merged input is dropped (A) because the next newer entry of its user key is
      already visible at the smallest snapshot, or (B) because it is a deletion that old readers have
      passed and nothing deeper holds its user key. */
  ghost predicate Dropped(v: Version, level: nat, smallest: Sequence, input: seq<Entry>, i: nat)
    requires i < |input|
  {
    || (i > 0 && input[i - 1].key.user == input[i].key.user && input[i - 1].key.sequence <= smallest)
    || (input[i].key.kind.Deletion? && input[i].key.sequence <= smallest
       && NoFileCovers(v, level + 2, input[i].key.user))
  }

  ghost function Kept(v: Version, level: nat, smallest: Sequence, input: seq<Entry>, n: nat): (r: seq<Entry>)
    requires n <= |input|
    ensures forall e :: e in r <==> exists i :: 0 <= i < n && input[i] == e && !Dropped(v, level, smallest, input, i)
  {
    if n == 0 then [] else
      var rest := Kept(v, level, smallest, input, n - 1);
      if Dropped(v, level, smallest, input, n - 1) then rest else rest + [input[n - 1]]
  }

  ghost function Flatten(files: seq<File>): seq<Entry> {
    if files == [] then [] else Flatten(files[..|files| - 1]) + files[|files| - 1].entries
  }

  lemma {:induction false} FlattenHolds(files: seq<File>, e: Entry)
    ensures e in Flatten(files) <==> e in EntriesOf(files)
  {
    if files != [] {
      var init := files[..|files| - 1];
      FlattenHolds(init, e);
      assert files == init + [files[|files| - 1]];
    }
  }

  lemma LevelSortedAppend(files: seq<File>, f: File)
    requires LevelSorted(files) && (files != [] ==> Before(files[|files| - 1].largest, f.smallest))
    ensures LevelSorted(files + [f])
  {
    forall i | 0 <= i < |files| ensures Before(files[i].largest, f.smallest) {
      var last := |files| - 1;
      FileIsOrdered(files[last]);
      assert i < last ==> Before(files[i].largest, files[last].smallest);
    }
  }

  lemma SortedAppend(es: seq<Entry>, e: Entry)
    requires Sorted(es) && (es != [] ==> Before(es[|es| - 1].key, e.key))
    ensures Sorted(es + [e])
  {
    forall i | 0 <= i < |es| ensures Before(es[i].key, e.key) {
      assert i < |es| - 1 ==> Before(es[i].key, es[|es| - 1].key);
    }
  }

  lemma NumbersAppend(files: seq<File>, f: File, low: nat, high: nat)
    requires IncreasingNumbers(files, low, high) && low <= f.number < high
    requires files != [] ==> files[|files| - 1].number < f.number
    ensures IncreasingNumbers(files + [f], low, high)
  {
  }

  lemma FlattenAppend(files: seq<File>, f: File)
    ensures Flatten(files + [f]) == Flatten(files) + f.entries
  {
    assert (files + [f])[..|files|] == files;
  }

  /** The table being written: the entries so far and the range recorded for it. */
  datatype Output = Output(number: nat, smallest: InternalKey, largest: InternalKey, entries: seq<Entry>) {
    ghost predicate Valid() {
      Table(number, 0, smallest, largest, entries).Valid()
    }
  }

  ghost predicate IncreasingNumbers(files: seq<File>, low: nat, high: nat) {
    && (forall i, j :: 0 <= i < j < |files| ==> files[i].number < files[j].number)
    && (forall i :: 0 <= i < |files| ==> low <= files[i].number < high)
  }

  /** Finished files and the one being written; `bound` is the last key considered so far. */
  datatype Writer = Writer(outputs: seq<File>, current: Option<Output>, next: nat) {
    ghost predicate Valid(low: nat, bound: Option<InternalKey>) {
      && low <= next && LevelSorted(outputs) && IncreasingNumbers(outputs, low, next)
      && (outputs != [] ==> bound.Some? && AtOrAfter(bound.value, outputs[|outputs| - 1].largest))
      && (current.Some? ==>
            && current.value.Valid() && bound.Some? && AtOrAfter(bound.value, current.value.largest)
            && low <= current.value.number < next
            && (outputs != [] ==>
                  && Before(outputs[|outputs| - 1].largest, current.value.smallest)
                  && outputs[|outputs| - 1].number < current.value.number))
    }

    ghost function Written(): seq<Entry> {
      Flatten(outputs) + if current.Some? then current.value.entries else []
    }
  }

  lemma NothingWritten(next: nat)
    ensures Writer([], None, next).Valid(next, None) && Writer([], None, next).Written() == []
  {
  }

  lemma AllFinished(w: Writer, low: nat, bound: Option<InternalKey>)
    requires w.Valid(low, bound) && w.current.None?
    ensures LevelSorted(w.outputs) && IncreasingNumbers(w.outputs, low, w.next) && low <= w.next
    ensures Flatten(w.outputs) == w.Written()
  {
  }

  method FinishCompactionOutputFile(w: Writer, ghost low: nat, ghost bound: Option<InternalKey>) returns (r: Writer)
    requires w.Valid(low, bound) && w.current.Some?
    ensures r.Valid(low, bound) && r.current.None? && r.Written() == w.Written()
  {
    var size :| 0 <= size;
    var f: File := Table(w.current.value.number, size, w.current.value.smallest, w.current.value.largest,
        w.current.value.entries);
    LevelSortedAppend(w.outputs, f);
    NumbersAppend(w.outputs, f, low, w.next);
    FlattenAppend(w.outputs, f);
    r := Writer(w.outputs + [f], None, w.next);
  }

  /** Whether to end the current file here is left open: it depends on sizes only. */
  method MaybeFinish(w: Writer, ghost low: nat, ghost bound: Option<InternalKey>) returns (r: Writer)
    requires w.Valid(low, bound)
    ensures r.Valid(low, bound) && r.Written() == w.Written()
  {
    var stop: bool := *;
    if stop && w.current.Some? {
      r := FinishCompactionOutputFile(w, low, bound);
    } else {
      r := w;
    }
  }

  /** Append an entry unless it is dropped, opening an output file first if none is open.  Any
      number of file numbers may have gone to other work in the meantime. */
  method AddEntry(w: Writer, e: Entry, drop: bool, ghost low: nat, ghost bound: Option<InternalKey>) returns (r: Writer)
    requires w.Valid(low, bound) && (bound.Some? ==> Before(bound.value, e.key))
    ensures r.Valid(low, Some(e.key)) && r.Written() == if drop then w.Written() else w.Written() + [e]
  {
    hide InternalKey.Tag;
    hide Flatten;
    if drop {
      return w;
    }
    var taken :| 0 <= taken;
    if w.current.None? {
      r := Writer(w.outputs, Some(Output(w.next + taken, e.key, e.key, [e])), w.next + taken + 1);
    } else {
      SortedAppend(w.current.value.entries, e);
      r := w.(current := Some(w.current.value.(largest := e.key, entries := w.current.value.entries + [e])));
    }
  }

  /** Entries arrive in order, so the base-level cursors are where they should be. */
  ghost predicate AskedSoFar(c: Compaction, input: seq<Entry>, i: nat)
    requires i <= |input|
    reads c, c.levelPtrs
  {
    c.Valid() && (c.asked.Some? ==> i > 0 && c.asked.value <= input[i - 1].key.user)
  }

  /** Rules (A) and (B) on entry `i`. */
  method ShouldDrop(c: Compaction, e: Entry, lastSequenceForKey: Sequence, smallest: Sequence, ghost input: seq<Entry>,
                    ghost i: nat)
    returns (drop: bool)
    requires i < |input| && input[i] == e && AskedSoFar(c, input, i)
    requires i > 0 ==> Before(input[i - 1].key, e.key)
    requires smallest < MAX_SEQUENCE
    requires lastSequenceForKey ==
             if i > 0 && input[i - 1].key.user == e.key.user then input[i - 1].key.sequence else MAX_SEQUENCE
    modifies c.levelPtrs, c`asked
    ensures AskedSoFar(c, input, i + 1)
    ensures drop <==> Dropped(c.inputVersion, c.level, smallest, input, i)
  {
    drop := false;
    if lastSequenceForKey <= smallest {
      drop := true;
    } else if e.key.kind.Deletion? && e.key.sequence <= smallest {
      drop := c.IsBaseLevelForKey(e.key.user);
    }
  }

  ghost function KeyBefore(input: seq<Entry>, i: nat): Option<InternalKey>
    requires i <= |input|
  {
    if i > 0 then Some(input[i - 1].key) else None
  }

  /** The merge loop. */
  method DoCompactionWork(c: Compaction, input: seq<Entry>, smallest: Sequence, nextFileNumber: nat)
    returns (outputs: seq<File>, next: nat)
    requires c.Valid() && c.asked == None
    requires Sorted(input) && smallest < MAX_SEQUENCE
    modifies c.levelPtrs, c`asked
    ensures Flatten(outputs) == Kept(c.inputVersion, c.level, smallest, input, |input|)
    ensures LevelSorted(outputs) && IncreasingNumbers(outputs, nextFileNumber, next) && nextFileNumber <= next
  {
    hide Writer.Valid;
    hide Writer.Written;
    NothingWritten(nextFileNumber);
    var w := Writer([], None, nextFileNumber);
    var currentUserKey: Option<UserKey> := None;
    var lastSequenceForKey: Sequence := MAX_SEQUENCE;
    var i := 0;
    while i < |input|
      invariant 0 <= i <= |input|
      invariant AskedSoFar(c, input, i)
      invariant currentUserKey == (if i > 0 then Some(input[i - 1].key.user) else None)
      invariant i > 0 ==> lastSequenceForKey == input[i - 1].key.sequence
      invariant w.Valid(nextFileNumber, KeyBefore(input, i))
      invariant w.Written() == Kept(c.inputVersion, c.level, smallest, input, i)
    {
      var e := input[i];
      assert i > 0 ==> Before(input[i - 1].key, input[i].key);
      w := MaybeFinish(w, nextFileNumber, KeyBefore(input, i));
      if currentUserKey != Some(e.key.user) {
        currentUserKey := Some(e.key.user);
        lastSequenceForKey := MAX_SEQUENCE;
      }
      var drop := ShouldDrop(c, e, lastSequenceForKey, smallest, input, i);
      lastSequenceForKey := e.key.sequence;
      w := AddEntry(w, e, drop, nextFileNumber, KeyBefore(input, i));
      if !drop {
        w := MaybeFinish(w, nextFileNumber, Some(e.key));
      }
      i := i + 1;
    }
    if w.current.Some? {
      w := FinishCompactionOutputFile(w, nextFileNumber, KeyBefore(input, i));
    }
    AllFinished(w, nextFileNumber, KeyBefore(input, i));
    outputs, next := w.outputs, w.next;
  }

  // ---------- why no reader notices ----------

  ghost function KeptSet(v: Version, level: nat, smallest: Sequence, input: seq<Entry>): set<Entry> {
    SetOf(Kept(v, level, smallest, input, |input|))
  }

  /** Entries outside the inputs that are older than an input of their user key lie under a file that
      the base-level test sees. */
  ghost predicate OlderIsCovered(v: Version, level: nat, input: set<Entry>, rest: set<Entry>) {
    forall r, x :: r in rest && x in input && r.key.user == x.key.user && r.key.sequence < x.key.sequence ==>
      !NoFileCovers(v, level + 2, x.key.user)
  }

  lemma SortedUserKeysAreContiguous(input: seq<Entry>, i: nat, j: nat)
    requires Sorted(input) && i < j < |input| && input[i].key.user == input[j].key.user
    ensures input[j - 1].key.user == input[i].key.user && input[j - 1].key.sequence <= input[i].key.sequence
  {
    assert Before(input[j - 1].key, input[j].key);
    assert i < j - 1 ==> Before(input[i].key, input[j - 1].key);
  }

  /** A droppable entry is hidden by a newer input (A), or is a deletion with nothing left under it (B). */
  lemma DroppedIsDroppable(v: Version, level: nat, smallest: Sequence, input: seq<Entry>, rest: set<Entry>, i: nat)
    requires Sorted(input) && i < |input| && Dropped(v, level, smallest, input, i)
    requires Unique(rest + SetOf(input)) && OlderIsCovered(v, level, SetOf(input), rest)
    requires input[i] !in rest
    ensures HiddenBelow(rest + SetOf(input), input[i], smallest) ||
            DeadDeletion(rest + KeptSet(v, level, smallest, input), input[i])
  {
    var e := input[i];
    if i > 0 && input[i - 1].key.user == e.key.user && input[i - 1].key.sequence <= smallest {
      assert Before(input[i - 1].key, input[i].key);
      assert input[i - 1] in SetOf(input) && e in SetOf(input);
    } else {
      forall x | x in rest + KeptSet(v, level, smallest, input) && x.key.user == e.key.user
        ensures x.key.sequence > e.key.sequence
      {
        assert e in SetOf(input);
        if x in rest {
          assert x.key.sequence != e.key.sequence;
        } else {
          var j :| 0 <= j < |input| && input[j] == x && !Dropped(v, level, smallest, input, j);
          assert x in SetOf(input);
          if i < j { SortedUserKeysAreContiguous(input, i, j); }
          assert j < i ==> Before(input[j].key, input[i].key);
        }
      }
    }
  }

  /** Replacing the inputs of a compaction by what it keeps changes no read at or above the
      smallest snapshot. */
  lemma CompactionPreservesReads(v: Version, level: nat, smallest: Sequence, input: seq<Entry>, rest: set<Entry>,
                                 user: UserKey, s: Sequence)
    requires Sorted(input) && smallest <= s
    requires Unique(rest + SetOf(input)) && OlderIsCovered(v, level, SetOf(input), rest)
    ensures Visible(rest + KeptSet(v, level, smallest, input), user, s) == Visible(rest + SetOf(input), user, s)
  {
    var all, kept := rest + SetOf(input), rest + KeptSet(v, level, smallest, input);
    forall e | e in all - kept
      ensures HiddenBelow(all, e, smallest) || DeadDeletion(kept, e)
    {
      var i :| 0 <= i < |input| && input[i] == e;
      DroppedIsDroppable(v, level, smallest, input, rest, i);
    }
    DroppingIsInvisible(all, kept, smallest, user, s);
  }
}
