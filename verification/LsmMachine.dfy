/** The running database as a state machine: writes, memtable switches, flushes (also inside a running
    compaction), trivial moves, compactions and snapshots.  In every reachable state, every read at a
    live snapshot returns what the history of writes says. */
module LsmMachine {
  import opened Options
  import opened InternalKeys
  import opened Files
  import opened PointLookup
  import opened InputSelection
  import opened CompactionWork
  import opened TreeSteps
  import DbIterators

  /** A compaction whose merge loop has started: its inputs, the snapshot bound it computed, the version
      it reads, and the first file number its outputs may take. */
  datatype Running = Running(inputs: Inputs, smallest: Sequence, base: Version, from: nat)

  datatype State = State(
    mem: set<Entry>,
    imm: Option<set<Entry>>,
    current: Version,
    lastSequence: Sequence,
    snapshots: seq<Sequence>,  // SnapshotList, oldest first
    nextFile: nat,
    running: Option<Running>,
    written: set<Entry>)       // the history of all writes

  function Imm(s: State): set<Entry> { if s.imm.Some? then s.imm.value else {} }

  ghost function Stored(s: State): set<Entry> { s.mem + Imm(s) + AllEntries(s.current) }

  /** The bound a compaction starting now would use: the oldest live snapshot. */
  function Oldest(s: State): Sequence {
    if s.snapshots == [] then s.lastSequence else s.snapshots[0]
  }

  // ---------- steps ----------

  ghost predicate Init(s: State) {
    && s.mem == {} && s.imm.None? && s.current == seq(NUM_LEVELS, _ => []) && s.lastSequence == 0
    && s.snapshots == [] && s.running.None? && s.written == {}
  }

  /** A group of writes receives the next sequence numbers in order. */
  ghost predicate Write(s: State, s': State, group: seq<Entry>) {
    && s.lastSequence + |group| < MAX_SEQUENCE
    && (forall i :: 0 <= i < |group| ==> group[i].key.sequence == s.lastSequence + 1 + i)
    && s' == s.(mem := s.mem + SetOf(group), written := s.written + SetOf(group),
       lastSequence := s.lastSequence + |group|)
  }

  /** MakeRoomForWrite makes the full memtable immutable; the new log takes a file number. */
  ghost predicate SwitchMemtable(s: State, s': State) {
    s.imm.None? && s' == s.(mem := {}, imm := Some(s.mem), nextFile := s.nextFile + 1)
  }

  /** CompactMemTable writes the immutable memtable as one table, on a level it overlaps nothing down to. */
  ghost predicate Flush(s: State, s': State, f: File, level: nat) {
    && s.imm.Some? && Held(f) == s.imm.value && f.number == s.nextFile && level <= MAX_MEM_COMPACT_LEVEL
    && (level > 0 ==> forall l, g ::
        0 <= l <= level && g in s.current[l] ==> !g.Overlaps(Some(f.smallest.user), Some(f.largest.user)))
    && s' == s.(imm := None, current := AddFile(s.current, level, f), nextFile := s.nextFile + 1)
  }

  ghost predicate FlushEmpty(s: State, s': State) {
    s.imm == Some({}) && s' == s.(imm := None, nextFile := s.nextFile + 1)
  }

  /** The picked inputs are those of PickCompaction. */
  ghost predicate StartCompaction(s: State, s': State, c: Inputs) {
    && s.running.None? && GoodInputs(s.current, c) && Connected(c.in0 + c.in1)
    && s' == s.(running := Some(Running(c, Oldest(s), s.current, s.nextFile)))
  }

  /** The outputs are those of DoCompactionWork, numbered after the compaction started. */
  ghost predicate InstallCompaction(s: State, s': State, input: seq<Entry>, outs: seq<File>) {
    && s.running.Some?
    && var r := s.running.value;
       && r.inputs.level + 1 < NUM_LEVELS
       && Sorted(input) && SetOf(input) == InputEntries(r.inputs)
       && LevelSorted(outs) && Flatten(outs) == Kept(r.base, r.inputs.level, r.smallest, input, |input|)
       && NumbersDistinct(outs)
          && (forall l {:trigger Numbers(s.current[l])} ::
              0 <= l < NUM_LEVELS ==> Numbers(outs) !! Numbers(s.current[l]))
       && (forall n :: n in Numbers(outs) ==> r.from <= n < s.nextFile)
       && s' == s.(running := None, current := Replace(s.current, r.inputs, outs))
  }

  ghost predicate AbandonCompaction(s: State, s': State) {
    s.running.Some? && s' == s.(running := None)
  }

  /** NewFileNumber for an output file of the running compaction. */
  ghost predicate TakeFileNumber(s: State, s': State) { s' == s.(nextFile := s.nextFile + 1) }

  ghost predicate TrivialMove(s: State, s': State, c: Inputs) {
    && s.running.None? && GoodInputs(s.current, c) && |c.in0| == 1 && c.in1 == []
    && s' == s.(current := Replace(s.current, c, c.in0))
  }

  ghost predicate GetSnapshot(s: State, s': State) { s' == s.(snapshots := s.snapshots + [s.lastSequence]) }

  ghost predicate ReleaseSnapshot(s: State, s': State, i: nat) {
    i < |s.snapshots| && s' == s.(snapshots := s.snapshots[..i] + s.snapshots[i + 1..])
  }

  datatype Step =
    | WriteStep(group: seq<Entry>)
    | SwitchStep
    | FlushStep(file: File, level: nat)
    | FlushEmptyStep
    | StartStep(inputs: Inputs)
    | InstallStep(input: seq<Entry>, outs: seq<File>)
    | AbandonStep
    | NumberStep
    | MoveStep(inputs: Inputs)
    | SnapshotStep
    | ReleaseStep(index: nat)

  ghost predicate Takes(s: State, s': State, step: Step) {
    match step
    case WriteStep(group) => Write(s, s', group)
    case SwitchStep => SwitchMemtable(s, s')
    case FlushStep(f, level) => Flush(s, s', f, level)
    case FlushEmptyStep => FlushEmpty(s, s')
    case StartStep(c) => StartCompaction(s, s', c)
    case InstallStep(input, outs) => InstallCompaction(s, s', input, outs)
    case AbandonStep => AbandonCompaction(s, s')
    case NumberStep => TakeFileNumber(s, s')
    case MoveStep(c) => TrivialMove(s, s', c)
    case SnapshotStep => GetSnapshot(s, s')
    case ReleaseStep(i) => ReleaseSnapshot(s, s', i)
  }

  /** The hypothesis on picked inputs: no boundary file is left behind. */
  ghost predicate Closes(s: State, step: Step) {
    match step
    case StartStep(c) => c.level + 1 < NUM_LEVELS && BoundaryClosed(s.current, c)
    case MoveStep(c) => c.level + 1 < NUM_LEVELS && BoundaryClosed(s.current, c)
    case _ => true
  }

  // ---------- invariant ----------

  /** Memtables are newer than what is below them, and all entries come from the history. */
  ghost predicate LayersOk(mem: set<Entry>, imm: set<Entry>, tree: set<Entry>, written: set<Entry>, last: Sequence) {
    && Unique(written) && mem <= written && imm <= written && tree <= written
    && (forall e :: e in written ==> e.key.sequence <= last)
    && (forall a, b :: a in mem && b in imm + tree ==> a.key.sequence > b.key.sequence)
    && (forall a, b :: a in imm && b in tree ==> a.key.sequence > b.key.sequence)
    && last < MAX_SEQUENCE
  }

  ghost predicate SnapshotsOk(s: State) {
    && (forall i, j :: 0 <= i < j < |s.snapshots| ==> s.snapshots[i] <= s.snapshots[j])
    && (forall i :: 0 <= i < |s.snapshots| ==> s.snapshots[i] <= s.lastSequence)
  }

  /** Reading `a` is reading `b`, for every key and every sequence from `low` up. */
  ghost predicate SameReads(a: set<Entry>, b: set<Entry>, low: Sequence) {
    forall user, t: Sequence :: t >= low ==> Visible(a, user, t) == Visible(b, user, t)
  }

  /** The shape of the tree, and that memtables are newer than it.  This much needs no hypothesis on
      picked inputs. */
  ghost predicate ShapeInv(s: State) {
    && ShapeOk(s.current, s.nextFile) && LayersOk(s.mem, Imm(s), AllEntries(s.current), s.written, s.lastSequence)
    && (s.running.Some? ==> Slots(s.current, s.running.value.inputs))
  }

  /** A running compaction: what stays beside its inputs is newer, its bound is still low enough, and a
      deeper file that is not in the version it reads is newer than its inputs. */
  ghost predicate RunningNewer(current: Version, r: Running, oldest: Sequence) {
    && r.inputs.level + 1 < NUM_LEVELS && RestIsNewer(current, r.inputs) && r.smallest <= oldest
    && (forall l, g :: r.inputs.level + 2 <= l < NUM_LEVELS && g in current[l] && g !in r.base[l] ==>
          NewerThanAll(g, r.inputs.in0 + r.inputs.in1))
  }

  ghost predicate RunningOk(current: Version, r: Running, oldest: Sequence) {
    Slots(current, r.inputs) && RunningNewer(current, r, oldest)
  }

  /** For each user key a smaller level, and within level 0 a larger file number, holds only newer
      entries, and reads are those of the history. */
  ghost predicate RecencyInv(s: State) {
    && LevelsNewer(s.current) && NumbersNewer(s.current[0]) && SnapshotsOk(s)
    && SameReads(Stored(s), s.written, Oldest(s))
    && (s.running.Some? ==> RunningNewer(s.current, s.running.value, Oldest(s)))
  }

  ghost predicate Inv(s: State) { ShapeInv(s) && RecencyInv(s) }

  /** What a run keeps, depending on whether its picked inputs leave no boundary file behind. */
  ghost predicate Ok(s: State, closed: bool) { ShapeInv(s) && (closed ==> RecencyInv(s)) }

  lemma InitInv(s: State)
    requires Init(s)
    ensures Inv(s)
  {
    assert AllEntries(s.current) == {};
    assert Stored(s) == s.written;
  }

  // ---------- shape, in every run ----------

  lemma WriteKeepsShape(s: State, s': State, group: seq<Entry>)
    requires ShapeInv(s) && Write(s, s', group)
    ensures ShapeInv(s')
  {
    GroupIsUnique(group, s.lastSequence, s.written);
  }

  lemma FlushKeepsShape(s: State, s': State, f: File, level: nat)
    requires ShapeInv(s) && Flush(s, s', f, level)
    ensures ShapeInv(s')
  {
    hide AddFile;
    hide ShapeOk;
    hide LayersOk;
    FlushIsOk(s, s', f, level);
    AddKeepsShape(s.current, s.nextFile, level, f);
    FlushKeepsStored(s, s', f, level);
    FlushKeepsLayers(s.mem, Imm(s), AllEntries(s.current), s.written, s.lastSequence);
    if s.running.Some? { AddKeepsSlots(s.current, s.running.value.inputs, level, f); }
  }

  lemma StartKeepsShape(s: State, s': State, c: Inputs)
    requires ShapeInv(s) && StartCompaction(s, s', c)
    ensures ShapeInv(s')
  {
    PickedRestIsBeside(s.current, c);
  }

  lemma InstallKeepsShape(s: State, s': State, input: seq<Entry>, outs: seq<File>)
    requires ShapeInv(s) && InstallCompaction(s, s', input, outs)
    ensures ShapeInv(s')
  {
    hide Replace;
    OutputsAreOk(s, s', input, outs);
    ReplaceKeepsShape(s.current, s.nextFile, s.running.value.inputs, outs, s.nextFile);
    InstallKeepsLayers(s, s', input, outs);
  }

  lemma MoveKeepsShape(s: State, s': State, c: Inputs)
    requires ShapeInv(s) && TrivialMove(s, s', c)
    ensures ShapeInv(s')
  {
    hide Replace;
    hide TreeShape;
    hide NumbersOk;
    hide LayersOk;
    PickedRestIsBeside(s.current, c);
    MovedShape(s.current, s.nextFile, c);
  }

  lemma MovedShape(v: Version, next: nat, c: Inputs)
    requires ShapeOk(v, next) && InputsIn(v, c) && RestIsBeside(v, c) && |c.in0| == 1 && c.in1 == []
    ensures ShapeOk(Replace(v, c, c.in0), next) && AllEntries(Replace(v, c, c.in0)) == AllEntries(v)
  {
    hide Replace;
    hide TreeShape;
    MoveOutputsOk(v, next, c);
    ReplaceKeepsShape(v, next, c, c.in0, next);
    ReplaceEntries(v, next, c, c.in0);
    EntriesSplit(v, c);
  }

  /** Every step keeps the shape of the tree, whatever inputs were picked. */
  lemma StepKeepsShape(s: State, s': State, step: Step)
    requires ShapeInv(s) && Takes(s, s', step)
    ensures ShapeInv(s')
  {
    match step
    case WriteStep(group) => WriteKeepsShape(s, s', group);
    case FlushStep(f, level) => FlushKeepsShape(s, s', f, level);
    case StartStep(c) => StartKeepsShape(s, s', c);
    case InstallStep(input, outs) => InstallKeepsShape(s, s', input, outs);
    case MoveStep(c) => MoveKeepsShape(s, s', c);
    case _ => NumbersOkLater(s.current, s.nextFile, s'.nextFile);
  }

  // ---------- writes and memtables ----------

  lemma AddingNewerKeepsReads(a: set<Entry>, b: set<Entry>, g: set<Entry>, low: Sequence)
    requires SameReads(a, b, low) && Unique(b + g) && a <= b
    requires forall x, y :: x in g && y in b ==> x.key.sequence > y.key.sequence
    ensures SameReads(a + g, b + g, low)
  {
    forall user, t: Sequence | t >= low ensures Visible(a + g, user, t) == Visible(b + g, user, t) {
      assert g + a == a + g && g + b == b + g;
      NewestOfLayers(g, a, user, t);
      NewestOfLayers(g, b, user, t);
      assert Visible(a, user, t) == Visible(b, user, t);
    }
  }

  lemma GroupIsUnique(group: seq<Entry>, last: nat, past: set<Entry>)
    requires forall i :: 0 <= i < |group| ==> group[i].key.sequence == last + 1 + i
    requires Unique(past) && forall e :: e in past ==> e.key.sequence <= last
    ensures Unique(past + SetOf(group))
    ensures forall e :: e in SetOf(group) ==> last < e.key.sequence <= last + |group|
  {
  }

  lemma WriteKeepsInv(s: State, s': State, group: seq<Entry>)
    requires Inv(s) && Write(s, s', group)
    ensures Inv(s')
  {
    GroupIsUnique(group, s.lastSequence, s.written);
    AddingNewerKeepsReads(Stored(s), s.written, SetOf(group), Oldest(s));
    assert Stored(s') == Stored(s) + SetOf(group);
  }

  lemma SwitchKeepsInv(s: State, s': State)
    requires Inv(s) && SwitchMemtable(s, s')
    ensures Inv(s')
  {
    assert Stored(s') == Stored(s);
    NumbersOkLater(s.current, s.nextFile, s'.nextFile);
  }

  lemma NumbersOkLater(v: Version, next: nat, next': nat)
    requires NumbersOk(v, next) && next <= next'
    ensures NumbersOk(v, next')
  {
  }

  // ---------- flush ----------

  lemma FlushIsOk(s: State, s': State, f: File, level: nat)
    requires ShapeInv(s) && Flush(s, s', f, level)
    ensures FlushOk(s.current, level, f)
  {
    forall e | e in f.entries ensures e in Imm(s) { assert e in Held(f); }
  }

  lemma FlushKeepsRunning(s: State, s': State, f: File, level: nat)
    requires Inv(s) && Flush(s, s', f, level) && s.running.Some?
    ensures RunningOk(s'.current, s.running.value, Oldest(s))
  {
    var r := s.running.value;
    FlushIsOk(s, s', f, level);
    AddKeepsFit(s.current, r.inputs, level, f);
    forall l, g | r.inputs.level + 2 <= l < NUM_LEVELS && g in s'.current[l] && g !in r.base[l]
      ensures NewerThanAll(g, r.inputs.in0 + r.inputs.in1)
    {
      AddContents(s.current, level, f, l, g);
      if g !in s.current[l] { FlushedIsNewerThanInputs(s.current, r.inputs, level, f); }
    }
  }

  lemma FlushedIsNewerThanInputs(v: Version, c: Inputs, level: nat, f: File)
    requires InputsIn(v, c) && FlushOk(v, level, f)
    ensures NewerThanAll(f, c.in0 + c.in1)
  {
    forall g | g in c.in0 + c.in1 ensures AllNewer(Held(f), Held(g)) {
      FlushedIsNewer(v, level, f, if g in c.in0 then c.level else c.level + 1, g);
    }
  }

  lemma FlushKeepsLayers(mem: set<Entry>, imm: set<Entry>, tree: set<Entry>, written: set<Entry>, last: Sequence)
    requires LayersOk(mem, imm, tree, written, last)
    ensures LayersOk(mem, {}, tree + imm, written, last)
  {
  }

  lemma FlushKeepsStored(s: State, s': State, f: File, level: nat)
    requires Flush(s, s', f, level)
    ensures AllEntries(s'.current) == AllEntries(s.current) + Imm(s) && Stored(s') == Stored(s)
  {
    AddEntries(s.current, level, f);
  }

  lemma FlushKeepsTree(s: State, s': State, f: File, level: nat)
    requires Inv(s) && Flush(s, s', f, level)
    ensures TreeOk(s'.current, s'.nextFile)
  {
    FlushIsOk(s, s', f, level);
    AddKeepsTree(s.current, s.nextFile, level, f);
  }

  lemma FlushKeepsReads(s: State, s': State, f: File, level: nat)
    requires Inv(s) && Flush(s, s', f, level)
    ensures SameReads(Stored(s'), s'.written, Oldest(s'))
    ensures LayersOk(s'.mem, Imm(s'), AllEntries(s'.current), s'.written, s'.lastSequence)
  {
    FlushKeepsStored(s, s', f, level);
    FlushKeepsLayers(s.mem, Imm(s), AllEntries(s.current), s.written, s.lastSequence);
  }

  lemma FlushKeepsAnyRunning(s: State, s': State, f: File, level: nat)
    requires Inv(s) && Flush(s, s', f, level)
    ensures s'.running.Some? ==> RunningOk(s'.current, s'.running.value, Oldest(s'))
  {
    if s.running.Some? { FlushKeepsRunning(s, s', f, level); }
  }

  lemma FlushKeepsInv(s: State, s': State, f: File, level: nat)
    requires Inv(s) && Flush(s, s', f, level)
    ensures Inv(s')
  {
    FlushKeepsTree(s, s', f, level);
    FlushKeepsReads(s, s', f, level);
    FlushKeepsAnyRunning(s, s', f, level);
    Assemble(s, s');
  }

  lemma FlushEmptyKeepsInv(s: State, s': State)
    requires Inv(s) && FlushEmpty(s, s')
    ensures Inv(s')
  {
    assert Stored(s') == Stored(s);
    NumbersOkLater(s.current, s.nextFile, s'.nextFile);
  }

  // ---------- compaction ----------

  lemma TreeIsUnique(s: State)
    requires ShapeInv(s)
    ensures Unique(AllEntries(s.current))
  {
  }

  lemma StartKeepsInv(s: State, s': State, c: Inputs)
    requires Inv(s) && StartCompaction(s, s', c) && BoundaryClosed(s.current, c)
    ensures Inv(s')
  {
    TreeIsUnique(s);
    PickedFits(s.current, c);
    assert Stored(s') == Stored(s);
  }

  lemma KeptIsInput(v: Version, level: nat, smallest: Sequence, input: seq<Entry>)
    ensures KeptSet(v, level, smallest, input) <= SetOf(input)
  {
  }

  lemma FlattenIsEntries(files: seq<File>)
    ensures EntriesOf(files) == SetOf(Flatten(files))
  {
    forall e ensures e in EntriesOf(files) <==> e in Flatten(files) { FlattenHolds(files, e); }
  }

  lemma OutputsAreOk(s: State, s': State, input: seq<Entry>, outs: seq<File>)
    requires InstallCompaction(s, s', input, outs)
    ensures OutputsOk(s.current, s.running.value.inputs, outs)
    ensures EntriesOf(outs) ==
            KeptSet(s.running.value.base, s.running.value.inputs.level, s.running.value.smallest, input)
  {
    var r := s.running.value;
    FlattenIsEntries(outs);
    KeptIsInput(r.base, r.inputs.level, r.smallest, input);
  }

  /** Whatever is older than an input of its user key lies under a file the base-level test saw. */
  lemma RestIsCovered(v: Version, r: Running, upper: set<Entry>, oldest: Sequence)
    requires LevelsNewer(v) && RunningOk(v, r, oldest)
    requires forall a, b :: a in upper && b in AllEntries(v) ==> a.key.sequence > b.key.sequence
    ensures OlderIsCovered(r.base, r.inputs.level, InputEntries(r.inputs), upper + RestEntries(v, r.inputs))
  {
    var c := r.inputs;
    forall e, x | e in upper + RestEntries(v, c) && x in InputEntries(c) && e.key.user == x.key.user
        && e.key.sequence < x.key.sequence
      ensures !NoFileCovers(r.base, c.level + 2, x.key.user)
    {
      EntriesSplit(v, c);
      assert x in AllEntries(v);
      assert e in RestEntries(v, c);
      OlderRestIsDeep(v, r, oldest, e, x);
    }
  }

  lemma NewerHolds(g: File, h: File, files: seq<File>, e: Entry, x: Entry)
    requires NewerThanAll(g, files) && h in files && e in g.entries && x in h.entries && e.key.user == x.key.user
    ensures e.key.sequence > x.key.sequence
  {
    assert AllNewer(Held(g), Held(h));
    assert e in Held(g) && x in Held(h);
  }

  lemma OlderRestIsDeep(v: Version, r: Running, oldest: Sequence, e: Entry, x: Entry)
    requires LevelsNewer(v) && RunningOk(v, r, oldest)
    requires e in RestEntries(v, r.inputs) && x in InputEntries(r.inputs) && e.key.user == x.key.user
             && e.key.sequence < x.key.sequence
    ensures !NoFileCovers(r.base, r.inputs.level + 2, x.key.user)
  {
    hide InputsIn;
    hide AllNewer;
    hide InputEntries;
    var c := r.inputs;
    var l, g :| 0 <= l < NUM_LEVELS && g in v[l] && !(l == c.level && g in c.in0) && !(l == c.level + 1 && g in c.in1)
        && e in g.entries;
    assert e in EntriesOf(v[l]);
    InputLevels(v, c, x);
    var h := HolderOf(c, x);
    if l < c.level {
      LevelPair(v, l, if x in EntriesOf(c.in0) then c.level else c.level + 1, e, x);
    } else if l == c.level {
      StaysNewer(v, c, e, x);
    } else if l == c.level + 1 {
      NewerHolds(g, h, c.in0 + c.in1, e, x);
    } else {
      if g !in r.base[l] {
        assert NewerThanAll(g, c.in0 + c.in1);
        NewerHolds(g, h, c.in0 + c.in1, e, x);
      }
      EntryInRange(g, e);
    }
  }

  lemma InstallTrees(s: State, s': State, input: seq<Entry>, outs: seq<File>)
    requires InstallCompaction(s, s', input, outs)
    requires NumbersOk(s.current, s.nextFile) && InputsIn(s.current, s.running.value.inputs)
    ensures AllEntries(s.current) == RestEntries(s.current, s.running.value.inputs) + SetOf(input)
    ensures AllEntries(s'.current) == RestEntries(s.current, s.running.value.inputs) +
              KeptSet(s.running.value.base, s.running.value.inputs.level, s.running.value.smallest, input)
  {
    OutputsAreOk(s, s', input, outs);
    ReplaceEntries(s.current, s.nextFile, s.running.value.inputs, outs);
    EntriesSplit(s.current, s.running.value.inputs);
  }

  lemma Regroup(upper: set<Entry>, rest: set<Entry>, part: set<Entry>, tree: set<Entry>)
    requires tree == rest + part
    ensures upper + tree == upper + rest + part
  {
  }

  /** What the install does to the stored entries. */
  lemma InstallStores(s: State, s': State, input: seq<Entry>, outs: seq<File>)
    requires Inv(s) && InstallCompaction(s, s', input, outs)
    ensures var rest := s.mem + Imm(s) + RestEntries(s.current, s.running.value.inputs);
            && Stored(s) == rest + SetOf(input)
            && Stored(s') == rest +
               KeptSet(s.running.value.base, s.running.value.inputs.level, s.running.value.smallest, input)
  {
    var r := s.running.value;
    InstallTrees(s, s', input, outs);
    Regroup(s.mem + Imm(s), RestEntries(s.current, r.inputs), SetOf(input), AllEntries(s.current));
    Regroup(s.mem + Imm(s), RestEntries(s.current, r.inputs), KeptSet(r.base, r.inputs.level, r.smallest, input),
        AllEntries(s'.current));
  }

  lemma InstallKeepsReads(s: State, s': State, input: seq<Entry>, outs: seq<File>)
    requires Inv(s) && InstallCompaction(s, s', input, outs)
    ensures SameReads(Stored(s'), Stored(s), Oldest(s))
  {
    var r := s.running.value;
    var upper := s.mem + Imm(s);
    var rest := upper + RestEntries(s.current, r.inputs);
    InstallStores(s, s', input, outs);
    RestIsCovered(s.current, r, upper, Oldest(s));
    StoredIsUnique(s);
    forall user, t: Sequence | t >= Oldest(s) ensures Visible(Stored(s'), user, t) == Visible(Stored(s), user, t) {
      CompactionPreservesReads(r.base, r.inputs.level, r.smallest, input, rest, user, t);
    }
  }

  lemma StoredIsUnique(s: State)
    requires Inv(s)
    ensures Unique(Stored(s))
  {
  }

  lemma ShrinkKeepsLayers(mem: set<Entry>, imm: set<Entry>, tree: set<Entry>, tree': set<Entry>, written: set<Entry>,
                          last: Sequence)
    requires LayersOk(mem, imm, tree, written, last) && tree' <= tree
    ensures LayersOk(mem, imm, tree', written, last)
  {
  }

  lemma InstallKeepsTree(s: State, s': State, input: seq<Entry>, outs: seq<File>)
    requires Inv(s) && InstallCompaction(s, s', input, outs)
    ensures TreeOk(s'.current, s'.nextFile)
  {
    OutputsAreOk(s, s', input, outs);
    ReplaceKeepsTree(s.current, s.nextFile, s.running.value.inputs, outs, s.nextFile);
  }

  lemma SameReadsTrans(a: set<Entry>, b: set<Entry>, c: set<Entry>, low: Sequence)
    requires SameReads(a, b, low) && SameReads(b, c, low)
    ensures SameReads(a, c, low)
  {
    forall user, t: Sequence | t >= low ensures Visible(a, user, t) == Visible(c, user, t) {
      assert Visible(a, user, t) == Visible(b, user, t) == Visible(c, user, t);
    }
  }

  lemma InstallKeepsLayers(s: State, s': State, input: seq<Entry>, outs: seq<File>)
    requires ShapeInv(s) && InstallCompaction(s, s', input, outs)
    ensures LayersOk(s'.mem, Imm(s'), AllEntries(s'.current), s'.written, s'.lastSequence)
  {
    var r := s.running.value;
    InstallTrees(s, s', input, outs);
    KeptIsInput(r.base, r.inputs.level, r.smallest, input);
    ShrinkKeepsLayers(s.mem, Imm(s), AllEntries(s.current), AllEntries(s'.current), s.written, s.lastSequence);
  }

  lemma InstallRefines(s: State, s': State, input: seq<Entry>, outs: seq<File>)
    requires Inv(s) && InstallCompaction(s, s', input, outs)
    ensures SameReads(Stored(s'), s'.written, Oldest(s'))
  {
    InstallKeepsReads(s, s', input, outs);
    SameReadsTrans(Stored(s'), Stored(s), s.written, Oldest(s));
  }

  lemma InstallKeepsInv(s: State, s': State, input: seq<Entry>, outs: seq<File>)
    requires Inv(s) && InstallCompaction(s, s', input, outs)
    ensures Inv(s')
  {
    InstallKeepsTree(s, s', input, outs);
    InstallRefines(s, s', input, outs);
    InstallKeepsLayers(s, s', input, outs);
    Assemble(s, s');
  }

  lemma Assemble(s: State, s': State)
    requires SnapshotsOk(s) && s'.snapshots == s.snapshots && s'.lastSequence == s.lastSequence
    requires s'.running.Some? ==> RunningOk(s'.current, s'.running.value, Oldest(s'))
    requires TreeOk(s'.current, s'.nextFile) && SameReads(Stored(s'), s'.written, Oldest(s'))
    requires LayersOk(s'.mem, Imm(s'), AllEntries(s'.current), s'.written, s'.lastSequence)
    ensures Inv(s')
  {
  }

  lemma MoveKeepsTree(v: Version, next: nat, c: Inputs)
    requires TreeOk(v, next) && Fits(v, c) && |c.in0| == 1 && c.in1 == []
    ensures TreeOk(Replace(v, c, c.in0), next) && AllEntries(Replace(v, c, c.in0)) == AllEntries(v)
  {
    MovedShape(v, next, c);
    MoveOutputsOk(v, next, c);
    ReplaceKeepsTree(v, next, c, c.in0, next);
  }

  lemma MoveKeepsInv(s: State, s': State, c: Inputs)
    requires Inv(s) && TrivialMove(s, s', c) && BoundaryClosed(s.current, c)
    ensures Inv(s')
  {
    hide NumbersOk;
    hide Visible;
    hide ReachesDown;
    hide ReachesUp;
    hide Numbers;
    TreeIsUnique(s);
    PickedFits(s.current, c);
    MoveKeepsTree(s.current, s.nextFile, c);
    assert Stored(s') == Stored(s);
  }

  lemma MoveOutputsOk(v: Version, next: nat, c: Inputs)
    requires NumbersOk(v, next) && InputsIn(v, c) && |c.in0| == 1 && c.in1 == []
    ensures OutputsOk(v, c, c.in0) && forall n :: n in Numbers(c.in0) ==> n < next
  {
    assert c.in0[0] in c.in0 && c.in0[0].number in Numbers(v[c.level]);
    forall m | 0 <= m < NUM_LEVELS && m != c.level ensures Numbers(c.in0) !! Numbers(v[m]) {
      if m < c.level {
        assert Numbers(v[m]) !! Numbers(v[c.level]);
      } else {
        assert Numbers(v[c.level]) !! Numbers(v[m]);
      }
    }
  }

  // ---------- snapshots ----------

  lemma HigherReads(a: set<Entry>, b: set<Entry>, low: Sequence, low': Sequence)
    requires SameReads(a, b, low) && low <= low'
    ensures SameReads(a, b, low')
  {
  }

  lemma SnapshotKeepsInv(s: State, s': State)
    requires Inv(s) && GetSnapshot(s, s')
    ensures Inv(s')
  {
    assert Oldest(s') == Oldest(s);
    assert Stored(s') == Stored(s);
  }

  lemma ReleaseRaisesOldest(s: State, s': State, i: nat)
    requires SnapshotsOk(s) && ReleaseSnapshot(s, s', i)
    ensures SnapshotsOk(s') && Oldest(s) <= Oldest(s')
  {
  }

  lemma ReleaseKeepsInv(s: State, s': State, i: nat)
    requires Inv(s) && ReleaseSnapshot(s, s', i)
    ensures Inv(s')
  {
    ReleaseRaisesOldest(s, s', i);
    assert Stored(s') == Stored(s);
    HigherReads(Stored(s), s.written, Oldest(s), Oldest(s'));
  }

  lemma NumberKeepsInv(s: State, s': State)
    requires Inv(s) && TakeFileNumber(s, s')
    ensures Inv(s')
  {
    assert Stored(s') == Stored(s);
    NumbersOkLater(s.current, s.nextFile, s'.nextFile);
  }

  lemma AbandonKeepsInv(s: State, s': State)
    requires Inv(s) && AbandonCompaction(s, s')
    ensures Inv(s')
  {
    assert Stored(s') == Stored(s);
  }

  // ---------- all runs ----------

  /** Every step keeps the invariant. */
  lemma StepKeepsInv(s: State, s': State, step: Step)
    requires Inv(s) && Takes(s, s', step) && Closes(s, step)
    ensures Inv(s')
  {
    match step
    case WriteStep(group) => WriteKeepsInv(s, s', group);
    case SwitchStep => SwitchKeepsInv(s, s');
    case FlushStep(f, level) => FlushKeepsInv(s, s', f, level);
    case FlushEmptyStep => FlushEmptyKeepsInv(s, s');
    case StartStep(c) => StartKeepsInv(s, s', c);
    case InstallStep(input, outs) => InstallKeepsInv(s, s', input, outs);
    case AbandonStep => AbandonKeepsInv(s, s');
    case NumberStep => NumberKeepsInv(s, s');
    case MoveStep(c) => MoveKeepsInv(s, s', c);
    case SnapshotStep => SnapshotKeepsInv(s, s');
    case ReleaseStep(i) => ReleaseKeepsInv(s, s', i);
  }

  lemma StepKeepsOk(s: State, s': State, step: Step, closed: bool)
    requires Ok(s, closed) && Takes(s, s', step) && (closed ==> Closes(s, step))
    ensures Ok(s', closed)
  {
    hide ShapeInv;
    hide RecencyInv;
    hide Takes;
    hide Closes;
    if closed {
      StepKeepsInv(s, s', step);
    } else {
      StepKeepsShape(s, s', step);
    }
  }

  /** A run: states joined by steps, starting from an empty database. */
  ghost predicate IsRun(states: seq<State>, steps: seq<Step>) {
    && |states| == |steps| + 1 && Init(states[0])
    && forall i {:trigger steps[i]} :: 0 <= i < |steps| ==> Takes(states[i], states[i + 1], steps[i])
  }

  lemma {:induction false} RunKeepsShape(states: seq<State>, steps: seq<Step>, n: nat)
    requires IsRun(states, steps) && n < |states|
    ensures ShapeInv(states[n])
  {
    if n == 0 {
      InitInv(states[0]);
    } else {
      RunKeepsShape(states, steps, n - 1);
      StepKeepsShape(states[n - 1], states[n], steps[n - 1]);
    }
  }

  /** In every state of every run, under every interleaving and whatever inputs were picked, the files of
      each level from 1 on are sorted with disjoint ranges, and no file number is used twice. */
  lemma LevelsStaySorted(states: seq<State>, steps: seq<Step>, n: nat)
    requires IsRun(states, steps) && n < |states|
    ensures TreeShape(states[n].current) && NumbersOk(states[n].current, states[n].nextFile)
  {
    hide NumbersOk;
    RunKeepsShape(states, steps, n);
  }

  ghost predicate ClosedRun(states: seq<State>, steps: seq<Step>) {
    IsRun(states, steps) && forall i {:trigger steps[i]} :: 0 <= i < |steps| ==> Closes(states[i], steps[i])
  }

  lemma {:induction false} RunKeepsInv(states: seq<State>, steps: seq<Step>, n: nat)
    requires ClosedRun(states, steps) && n < |states|
    ensures Inv(states[n])
  {
    if n == 0 {
      InitInv(states[0]);
    } else {
      RunKeepsInv(states, steps, n - 1);
      StepKeepsInv(states[n - 1], states[n], steps[n - 1]);
    }
  }

  // ---------- reading the database ----------

  /** DBImpl::Get: the memtable, then the immutable one, then the files of the current version. */
  ghost function ReadAt(s: State, user: UserKey, t: Sequence): Option<Bytes> {
    if Newest(s.mem, user, t).Some? then Outcome(Newest(s.mem, user, t))
    else if Newest(Imm(s), user, t).Some? then Outcome(Newest(Imm(s), user, t))
    else Outcome(FirstHit(s.current, 0, user, t))
  }

  lemma GetReadsStored(s: State, user: UserKey, t: Sequence)
    requires Inv(s)
    ensures ReadAt(s, user, t) == Visible(Stored(s), user, t)
  {
    var tree := AllEntries(s.current);
    StoredIsUnique(s);
    TreeIsUnique(s);
    assert Below(s.current, 0) == tree;
    FirstHitIsNewest(s.current, 0, user, t);
    NewestOfLayers(Imm(s), tree, user, t);
    assert Stored(s) == s.mem + (Imm(s) + tree);
    NewestOfLayers(s.mem, Imm(s) + tree, user, t);
  }

  /** The main theorem: at every point of every run, a read at the latest sequence or at any live
      snapshot returns the newest write at or below it. */
  lemma ReadsAreExact(states: seq<State>, steps: seq<Step>, n: nat, user: UserKey, t: Sequence)
    requires ClosedRun(states, steps) && n < |states|
    requires t == states[n].lastSequence || t in states[n].snapshots
    ensures ReadAt(states[n], user, t) == Visible(states[n].written, user, t)
  {
    RunKeepsInv(states, steps, n);
    GetReadsStored(states[n], user, t);
    OldestIsLow(states[n], t);
  }

  lemma OldestIsLow(s: State, t: Sequence)
    requires SnapshotsOk(s) && (t == s.lastSequence || t in s.snapshots)
    ensures Oldest(s) <= t
  {
    if t in s.snapshots {
      var i :| 0 <= i < |s.snapshots| && s.snapshots[i] == t;
      assert i > 0 ==> s.snapshots[0] <= s.snapshots[i];
    }
  }

  /** An iterator's internal cursor merges everything stored.  The map its user walks is then exactly
      what the history of writes makes visible at its snapshot. */
  lemma ScansAreExact(states: seq<State>, steps: seq<Step>, n: nat, merged: seq<Entry>, user: UserKey, value: Bytes,
                      t: Sequence)
    requires ClosedRun(states, steps) && n < |states|
    requires t == states[n].lastSequence || t in states[n].snapshots
    requires Sorted(merged) && SetOf(merged) == Stored(states[n])
    ensures (user, value) in DbIterators.Map(merged, t) <==> Visible(states[n].written, user, t) == Some(value)
  {
    RunKeepsInv(states, steps, n);
    StoredIsUnique(states[n]);
    DbIterators.MapIsVisible(merged, t, user, value);
    OldestIsLow(states[n], t);
  }
}
