/** Size compactions take turns: on an unchanged version, picking again and again reaches every file of the level
    before any pick starts at the same file a second time (version_set.cc, compact_pointer_). */
module CompactionRounds {
  import opened Options
  import opened InternalKeys
  import opened Files
  import opened InputSelection
  import VersionBuilder

  /** What the picks of one level did: where each started, what it took, and the pointer before each and after the
      last. */
  datatype Picks = Picks(starts: seq<nat>, taken: seq<seq<File>>, pointers: seq<Option<InternalKey>>)

  ghost predicate IsPicks(files: seq<File>, p: Picks) {
    && |p.pointers| == |p.starts| + 1 == |p.taken| + 1
    && forall i {:trigger p.starts[i]} :: 0 <= i < |p.starts| ==>
         && StartsAt(files, p.pointers[i], p.starts[i])
         && Sweeps(files, p.starts[i], p.taken[i], p.pointers[i + 1])
  }

  ghost predicate TakenIn(p: Picks, i: nat, j: nat, f: File)
    requires i <= j <= |p.taken|
  {
    exists m :: i <= m < j && f in p.taken[m]
  }

  /** After picks i to j - 1, of which the first started at `start`: either none of them went back to the front and
      all files from `start` to the pointer were taken, or one did, and all from `start` on and all up to the
      pointer were. */
  ghost predicate Progress(files: seq<File>, p: Picks, i: nat, j: nat)
    requires IsPicks(files, p) && i < j <= |p.starts|
  {
    var start, pointer := p.starts[i], p.pointers[j];
    || ((forall k :: 0 <= k < |files| && k <= start ==> !PastPointer(pointer, files[k])) &&
        (forall k :: start <= k < |files| && !PastPointer(pointer, files[k]) ==> TakenIn(p, i, j, files[k])))
    || ((forall k :: start <= k < |files| ==> TakenIn(p, i, j, files[k])) &&
        (forall k :: 0 <= k < |files| && !PastPointer(pointer, files[k]) ==> TakenIn(p, i, j, files[k])))
  }

  /** A pick that starts past the pointer moves it on. */
  lemma PointerMoves(files: seq<File>, start: nat, taken: seq<File>, pointer: Option<InternalKey>,
                     pointer': Option<InternalKey>, f: File)
    requires StartsAt(files, pointer, start) && Sweeps(files, start, taken, pointer')
    ensures !PastPointer(pointer', files[start])
    ensures PastPointer(pointer, files[start]) && !PastPointer(pointer, f) ==> !PastPointer(pointer', f)
  {
    hide Table.Valid;
  }

  lemma TakenLater(p: Picks, i: nat, j: nat, f: File)
    requires i <= j < |p.taken|
    ensures TakenIn(p, i, j + 1, f) <==> TakenIn(p, i, j, f) || f in p.taken[j]
  {
  }

  lemma FirstProgress(files: seq<File>, p: Picks, i: nat)
    requires IsPicks(files, p) && i < |p.starts|
    ensures Progress(files, p, i, i + 1)
  {
    hide Table.Valid;
    hide EndsAt;
    var start, pointer, pointer' := p.starts[i], p.pointers[i], p.pointers[i + 1];
    forall k | 0 <= k <= start ensures !PastPointer(pointer', files[k]) {
      PointerMoves(files, start, p.taken[i], pointer, pointer', files[k]);
    }
    forall k | start <= k < |files| && !PastPointer(pointer', files[k]) ensures TakenIn(p, i, i + 1, files[k]) {
      assert files[k] in p.taken[i];
    }
  }

  lemma NextProgress(files: seq<File>, p: Picks, i: nat, j: nat)
    requires IsPicks(files, p) && i < j < |p.starts| && Progress(files, p, i, j)
    ensures Progress(files, p, i, j + 1)
  {
    hide Table.Valid;
    hide EndsAt;
    hide TakenIn;
    hide PastPointer;
    var start, next, pointer, pointer' := p.starts[i], p.starts[j], p.pointers[j], p.pointers[j + 1];
    forall k | 0 <= k < |files|
      ensures TakenIn(p, i, j, files[k]) ==> TakenIn(p, i, j + 1, files[k])
      ensures !PastPointer(pointer', files[k]) ==> !PastPointer(pointer, files[k]) || TakenIn(p, i, j + 1, files[k])
      ensures PastPointer(pointer, files[next]) && !PastPointer(pointer, files[k]) ==>
                !PastPointer(pointer', files[k])
      ensures !PastPointer(pointer', files[k]) && next <= k ==> TakenIn(p, i, j + 1, files[k])
    {
      TakenLater(p, i, j, files[k]);
      PointerMoves(files, next, p.taken[j], pointer, pointer', files[k]);
    }
    if PastPointer(pointer, files[next]) {
      assert forall k :: 0 <= k < next ==> !PastPointer(pointer, files[k]);
    } else {
      assert next == 0 && forall k :: 0 <= k < |files| ==> files[k] in files;
    }
  }

  lemma {:induction false} Progresses(files: seq<File>, p: Picks, i: nat, j: nat)
    requires IsPicks(files, p) && i < j <= |p.starts|
    ensures Progress(files, p, i, j)
    decreases j
  {
    hide Progress;
    if j == i + 1 {
      FirstProgress(files, p, i);
    } else {
      Progresses(files, p, i, j - 1);
      NextProgress(files, p, i, j - 1);
    }
  }

  /** Between two picks that start at the same file, every file of the level is taken. */
  lemma EveryFileHasItsTurn(files: seq<File>, p: Picks, i: nat, j: nat, f: File)
    requires IsPicks(files, p) && i < j < |p.starts| && p.starts[i] == p.starts[j] && f in files
    ensures TakenIn(p, i, j, f)
  {
    hide Table.Valid;
    hide TakenIn;
    hide PastPointer;
    hide Sweeps;
    Progresses(files, p, i, j);
    var k :| 0 <= k < |files| && files[k] == f;
    assert StartsAt(files, p.pointers[j], p.starts[j]);
  }

  /** Pick `rounds` times on the same version. */
  method KeepPicking(vs: VersionSet, rounds: nat) returns (ghost p: Picks)
    requires vs.Valid() && vs.sizeCompactionLevel.Some?
    requires vs.sizeCompactionLevel == Some(0) ==> VersionBuilder.InOrder(vs.current[0])
    modifies vs.compactPointer
    ensures vs.Valid() && |p.starts| == rounds && IsPicks(vs.current[vs.sizeCompactionLevel.value], p)
    ensures forall i, j, f ::
              0 <= i < j < rounds && p.starts[i] == p.starts[j] && f in vs.current[vs.sizeCompactionLevel.value] ==>
                TakenIn(p, i, j, f)
  {
    hide StartsAt;
    hide Sweeps;
    hide GoodInputs;
    hide Connected;
    hide PickedAround;
    hide TreeShape;
    ghost var level := vs.sizeCompactionLevel.value;
    ghost var files := vs.current[level];
    p := Picks([], [], [vs.compactPointer[level]]);
    for n := 0 to rounds
      invariant vs.Valid() && IsPicks(files, p) && |p.starts| == n && p.pointers[n] == vs.compactPointer[level]
    {
      var c, start := vs.PickCompaction();
      p := Picks(p.starts + [start], p.taken + [c.value.in0], p.pointers + [vs.compactPointer[level]]);
    }
    hide IsPicks;
    forall i, j, f | 0 <= i < j < rounds && p.starts[i] == p.starts[j] && f in files ensures TakenIn(p, i, j, f) {
      EveryFileHasItsTurn(files, p, i, j, f);
    }
  }
}
