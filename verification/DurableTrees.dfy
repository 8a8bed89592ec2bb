/** The tree on disk by itself: what a manifest record describes is a database whose memtables are empty
    and whose history is the groups its tables cover. */
module DurableTrees {
  import opened Options
  import opened InternalKeys
  import opened Files
  import opened TreeSteps
  import opened InputSelection
  import opened PointLookup
  import opened CompactionWork
  import opened Durability
  import Lsm = LsmMachine

  /** Logged groups follow one another in sequence order. */
  ghost predicate GroupsOk(groups: seq<Group>) {
    && Unique(EntriesIn(groups)) && (forall e :: e in EntriesIn(groups) ==> e.key.sequence < MAX_SEQUENCE)
    && (forall i, j, a, b ::
        0 <= i < j < |groups| && a in groups[i] && b in groups[j] ==> a.key.sequence < b.key.sequence)
  }

  lemma EntriesOfPart(groups: seq<Group>, i: nat, j: nat)
    requires i <= j <= |groups|
    ensures EntriesIn(groups[..j]) == EntriesIn(groups[..i]) + EntriesIn(groups[i..j])
    ensures EntriesIn(groups[..j]) <= EntriesIn(groups)
  {
    forall e | e in EntriesIn(groups[..j])
        ensures e in EntriesIn(groups[..i]) + EntriesIn(groups[i..j]) && e in EntriesIn(groups) {
      var k :| 0 <= k < j && e in groups[..j][k];
      if k < i { assert groups[..i][k] == groups[k]; } else { assert groups[i..j][k - i] == groups[k]; }
    }
    forall e | e in EntriesIn(groups[..i]) ensures e in EntriesIn(groups[..j]) {
      var k :| 0 <= k < i && e in groups[..i][k];
      assert groups[..j][k] == groups[k];
    }
    forall e | e in EntriesIn(groups[i..j]) ensures e in EntriesIn(groups[..j]) {
      var k :| 0 <= k < j - i && e in groups[i..j][k];
      assert groups[..j][i + k] == groups[i..j][k];
    }
  }

  lemma PairIsNewer(groups: seq<Group>, i: nat, j: nat, a: Entry, b: Entry)
    requires GroupsOk(groups) && i <= j <= |groups| && a in EntriesIn(groups[..i]) && b in EntriesIn(groups[i..j])
    ensures a.key.sequence < b.key.sequence
  {
    hide Unique;
    var k :| 0 <= k < i && a in groups[..i][k];
    var l :| 0 <= l < j - i && b in groups[i..j][l];
    assert a in groups[k] && b in groups[i + l];
  }

  lemma PartIsNewer(groups: seq<Group>, i: nat, j: nat)
    requires GroupsOk(groups) && i <= j <= |groups|
    ensures forall a, b ::
            a in EntriesIn(groups[..i]) && b in EntriesIn(groups[i..j]) ==> a.key.sequence < b.key.sequence
    ensures Unique(EntriesIn(groups[..j]))
  {
    hide EntriesIn;
    EntriesOfPart(groups, i, j);
    forall a, b | a in EntriesIn(groups[..i]) && b in EntriesIn(groups[i..j]) ensures a.key.sequence < b.key.sequence {
      PairIsNewer(groups, i, j, a, b);
    }
  }

  lemma PrefixIsOk(groups: seq<Group>, n: nat)
    requires GroupsOk(groups) && n <= |groups|
    ensures GroupsOk(groups[..n])
  {
    EntriesOfPart(groups, 0, n);
    assert groups[..0] == [] && groups[0..n] == groups[..n];
    forall i, j, a: Entry, b: Entry | 0 <= i < j < n && a in groups[..n][i] && b in groups[..n][j]
        ensures a.key.sequence < b.key.sequence {
      assert a in groups[i] && b in groups[j];
    }
  }

  lemma AppendIsOk(groups: seq<Group>, group: Group, last: nat)
    requires GroupsOk(groups) && last + |group| < MAX_SEQUENCE
    requires forall e :: e in EntriesIn(groups) ==> e.key.sequence <= last
    requires forall i :: 0 <= i < |group| ==> group[i].key.sequence == last + 1 + i
    ensures GroupsOk(groups + [group]) && EntriesIn(groups + [group]) == EntriesIn(groups) + SetOf(group)
  {
    var all := groups + [group];
    EntriesOfPart(all, |groups|, |all|);
    assert all[..|groups|] == groups && all[|groups|..|all|] == [group] && all[..|all|] == all;
    SingleGroup(group);
    Lsm.GroupIsUnique(group, last, EntriesIn(groups));
    forall i, j, a: Entry, b: Entry | 0 <= i < j < |all| && a in all[i] && b in all[j]
        ensures a.key.sequence < b.key.sequence {
      if j == |groups| { assert a in EntriesIn(groups) && b in SetOf(group); }
    }
  }

  lemma SingleGroup(group: Group)
    ensures EntriesIn([group]) == SetOf(group)
  {
    forall e | e in SetOf(group) ensures e in EntriesIn([group]) { assert [group][0] == group; }
  }

  // ---------- the tree of a running database, without its memtables ----------

  function Tree(lsm: Lsm.State, covered: set<Entry>): Lsm.State {
    lsm.(mem := {}, imm := None, written := covered)
  }

  lemma ClosesAlways(lsm: Lsm.State, step: Lsm.Step, closed: bool)
    requires !step.StartStep? && !step.MoveStep?
    ensures closed ==> Lsm.Closes(lsm, step)
  {
  }

  lemma TreeStep(lsm: Lsm.State, lsm': Lsm.State, covered: set<Entry>, step: Lsm.Step, closed: bool)
    requires Lsm.Ok(Tree(lsm, covered), closed) && Lsm.Takes(lsm, lsm', step) && (closed ==> Lsm.Closes(lsm, step))
    requires step.StartStep? || step.InstallStep? || step.AbandonStep? || step.NumberStep? || step.MoveStep?
             || step.SnapshotStep? || step.ReleaseStep?
    ensures Lsm.Ok(Tree(lsm', covered), closed)
  {
    hide Lsm.Ok;
    hide GoodInputs;
    hide Connected;
    hide Kept;
    hide BoundaryClosed;
    hide Replace;
    Lsm.StepKeepsOk(Tree(lsm, covered), Tree(lsm', covered), step, closed);
  }

  lemma TreeSwitch(lsm: Lsm.State, lsm': Lsm.State, covered: set<Entry>, closed: bool)
    requires Lsm.Ok(Tree(lsm, covered), closed) && Lsm.SwitchMemtable(lsm, lsm')
    ensures Lsm.Ok(Tree(lsm', covered), closed)
  {
    Lsm.StepKeepsOk(Tree(lsm, covered), Tree(lsm', covered), Lsm.NumberStep, closed);
  }

  /** Sequence numbers already handed out do not hurt a tree. */
  lemma RaiseLast(p: Lsm.State, last: Sequence, closed: bool)
    requires Lsm.Ok(p, closed) && p.lastSequence <= last < MAX_SEQUENCE
    ensures Lsm.Ok(p.(lastSequence := last), closed)
  {
    hide ShapeOk;
    hide Lsm.SameReads;
    hide Slots;
    var q := p.(lastSequence := last);
    assert Lsm.Stored(q) == Lsm.Stored(p);
    if closed { Lsm.HigherReads(Lsm.Stored(p), p.written, Lsm.Oldest(p), Lsm.Oldest(q)); }
    LayersRaise(p.mem, Lsm.Imm(p), AllEntries(p.current), p.written, p.lastSequence, last);
  }

  lemma LayersRaise(mem: set<Entry>, imm: set<Entry>, tree: set<Entry>, written: set<Entry>, last: Sequence,
                    last': Sequence)
    requires Lsm.LayersOk(mem, imm, tree, written, last) && last <= last' < MAX_SEQUENCE
    ensures Lsm.LayersOk(mem, imm, tree, written, last')
  {
  }

  lemma TreeWrite(lsm: Lsm.State, lsm': Lsm.State, covered: set<Entry>, group: Group, closed: bool)
    requires Lsm.Ok(Tree(lsm, covered), closed) && Lsm.Write(lsm, lsm', group)
    ensures Lsm.Ok(Tree(lsm', covered), closed)
  {
    hide Lsm.Ok;
    RaiseLast(Tree(lsm, covered), lsm'.lastSequence, closed);
  }

  lemma RaiseNext(p: Lsm.State, next: nat, closed: bool)
    requires Lsm.Ok(p, closed) && p.nextFile <= next
    ensures Lsm.Ok(p.(nextFile := next), closed)
  {
    hide TreeShape;
    hide LevelsNewer;
    hide Lsm.SameReads;
    hide Slots;
    assert Lsm.Stored(p.(nextFile := next)) == Lsm.Stored(p);
    Lsm.NumbersOkLater(p.current, p.nextFile, next);
  }

  /** A batch of newer entries may stand between the memtable and the tree, as an immutable memtable. */
  lemma HoldNewer(p: Lsm.State, g: set<Entry>, closed: bool)
    requires Lsm.Ok(p, closed) && p.mem == {} && p.imm == None && Unique(p.written + g)
    requires forall a, b :: a in p.written && b in g ==> a.key.sequence < b.key.sequence
    requires forall b :: b in g ==> b.key.sequence <= p.lastSequence
    ensures Lsm.Ok(p.(imm := Some(g), written := p.written + g), closed)
  {
    hide ShapeOk;
    hide Lsm.SameReads;
    hide Slots;
    var q := p.(imm := Some(g), written := p.written + g);
    assert Lsm.Stored(q) == Lsm.Stored(p) + g;
    if closed { Lsm.AddingNewerKeepsReads(Lsm.Stored(p), p.written, g, Lsm.Oldest(p)); }
    assert Lsm.LayersOk(q.mem, Lsm.Imm(q), AllEntries(q.current), q.written, q.lastSequence);
  }

  /** Flushing that batch. */
  lemma FlushNewer(p: Lsm.State, f: File, level: nat, q: Lsm.State, closed: bool)
    requires Lsm.Ok(p.(imm := Some(Held(f)), written := p.written + Held(f)), closed) && p.mem == {} && p.imm == None
    requires Lsm.Flush(p.(imm := Some(Held(f)), written := p.written + Held(f)), q, f, level)
    ensures Lsm.Ok(q, closed)
  {
    hide Lsm.Ok;
    Lsm.StepKeepsOk(p.(imm := Some(Held(f)), written := p.written + Held(f)), q, Lsm.FlushStep(f, level), closed);
  }

  lemma TreeFlush(lsm: Lsm.State, covered: set<Entry>, job: Job, closed: bool)
    requires Lsm.Ok(lsm, closed) && Lsm.Ok(Tree(lsm, covered), closed) && Enabled(lsm, job) && IsFlush(job)
    requires covered + Lsm.Imm(lsm) <= lsm.written
    requires forall a, b :: a in covered && b in Lsm.Imm(lsm) ==> a.key.sequence < b.key.sequence
    ensures Lsm.Ok(Tree(AfterEdit(lsm, job), covered + Lsm.Imm(lsm)), closed)
  {
    ImmIsLow(lsm, closed);
    hide Lsm.Ok;
    hide AddFile;
    HoldNewer(Tree(lsm, covered), Lsm.Imm(lsm), closed);
    match job
    case FlushJob(f, level) => HeldFlush(lsm, covered, f, level, closed);
    case FlushEmptyJob => HeldFlushEmpty(lsm, covered, closed);
  }

  lemma HeldFlush(lsm: Lsm.State, covered: set<Entry>, f: File, level: nat, closed: bool)
    requires Enabled(lsm, FlushJob(f, level))
    requires Lsm.Ok(Tree(lsm, covered).(imm := Some(Lsm.Imm(lsm)), written := covered + Lsm.Imm(lsm)), closed)
    ensures Lsm.Ok(Tree(AfterEdit(lsm, FlushJob(f, level)), covered + Lsm.Imm(lsm)), closed)
  {
    hide Lsm.Ok;
    hide AddFile;
    FlushNewer(Tree(lsm, covered), f, level, Tree(AfterEdit(lsm, FlushJob(f, level)), covered + Lsm.Imm(lsm)), closed);
  }

  lemma HeldFlushEmpty(lsm: Lsm.State, covered: set<Entry>, closed: bool)
    requires Enabled(lsm, FlushEmptyJob)
    requires Lsm.Ok(Tree(lsm, covered).(imm := Some(Lsm.Imm(lsm)), written := covered + Lsm.Imm(lsm)), closed)
    ensures Lsm.Ok(Tree(AfterEdit(lsm, FlushEmptyJob), covered + Lsm.Imm(lsm)), closed)
  {
    hide Lsm.Ok;
    Lsm.StepKeepsOk(Tree(lsm, covered).(imm := Some(Lsm.Imm(lsm)), written := covered + Lsm.Imm(lsm)),
                    Tree(AfterEdit(lsm, FlushEmptyJob), covered + Lsm.Imm(lsm)), Lsm.FlushEmptyStep, closed);
  }

  lemma ImmIsLow(lsm: Lsm.State, closed: bool)
    requires Lsm.Ok(lsm, closed)
    ensures Unique(lsm.written) && forall e :: e in Lsm.Imm(lsm) ==> e.key.sequence <= lsm.lastSequence
  {
    hide ShapeOk;
    hide Lsm.SameReads;
    hide Slots;
  }

  // ---------- manifest records ----------

  /** The database a record describes, before any log is replayed. */
  ghost function Bare(r: Record, groups: seq<Group>): Lsm.State
    requires r.covered <= |groups|
  {
    Lsm.State({}, None, r.version, r.lastSequence, [], r.nextFile, None, EntriesIn(groups[..r.covered]))
  }

  ghost predicate RecordOk(r: Record, groups: seq<Group>, closed: bool) {
    r.covered <= |groups| && Lsm.Ok(Bare(r, groups), closed)
  }

  /** Closing down: snapshots and the running compaction are gone. */
  lemma TreeIsBare(p: Lsm.State, r: Record, groups: seq<Group>, closed: bool)
    requires Lsm.Ok(p, closed) && p.mem == {} && p.imm == None && r.covered <= |groups|
             && p.written == EntriesIn(groups[..r.covered])
    requires r.version == p.current && r.lastSequence == p.lastSequence && r.nextFile == p.nextFile
    ensures RecordOk(r, groups, closed)
  {
    hide ShapeOk;
    hide Lsm.SameReads;
    hide Slots;
    var q := Bare(r, groups);
    assert Lsm.Stored(q) == Lsm.Stored(p);
    if closed { Lsm.HigherReads(Lsm.Stored(p), p.written, Lsm.Oldest(p), Lsm.Oldest(q)); }
  }

  lemma RecordKeeps(r: Record, groups: seq<Group>, groups': seq<Group>, closed: bool)
    requires RecordOk(r, groups, closed) && r.covered <= |groups'| && groups'[..r.covered] == groups[..r.covered]
    ensures RecordOk(r, groups', closed)
  {
    hide Lsm.Ok;
  }

  lemma RecordNumbers(r: Record, groups: seq<Group>, closed: bool)
    requires RecordOk(r, groups, closed)
    ensures forall n :: n in NumbersIn(r.version) ==> n < r.nextFile
  {
    TreeNumbers(Bare(r, groups), closed);
  }

  lemma TreeNumbers(p: Lsm.State, closed: bool)
    requires Lsm.Ok(p, closed)
    ensures forall n :: n in NumbersIn(p.current) ==> n < p.nextFile
  {
    forall n | n in NumbersIn(p.current) ensures n < p.nextFile {
      var l, f :| 0 <= l < NUM_LEVELS && f in p.current[l] && f.number == n;
      assert n in Numbers(p.current[l]);
    }
  }
}
