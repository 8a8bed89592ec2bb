/** What every reachable state of the disk and the memory keeps. */
module DurabilityInvariant {
  import opened Options
  import opened InternalKeys
  import opened Files
  import opened Durability
  import opened DurableTrees
  import Lsm = LsmMachine

  // ---------- logs ----------

  lemma {:induction false} BetweenSame(logs: map<nat, Log>, logs': map<nat, Log>, from: nat, top: nat)
    requires forall n :: from <= n < top ==> (n in logs <==> n in logs') && (n in logs ==> logs'[n] == logs[n])
    ensures Between(logs', from, top) == Between(logs, from, top)
    decreases top
  {
    if from < top { BetweenSame(logs, logs', from, top - 1); }
  }

  lemma {:induction false} BetweenSplit(logs: map<nat, Log>, from: nat, mid: nat, top: nat)
    requires from <= mid <= top
    ensures Between(logs, from, top) == Between(logs, from, mid) + Between(logs, mid, top)
    decreases top
  {
    if mid < top { BetweenSplit(logs, from, mid, top - 1); }
  }

  lemma {:induction false} BetweenNone(logs: map<nat, Log>, from: nat, top: nat)
    requires forall n :: from <= n < top ==> n !in logs
    ensures Between(logs, from, top) == []
    decreases top
  {
    if from < top { BetweenNone(logs, from, top - 1); }
  }

  /** Above the newest log there is nothing. */
  lemma BetweenEnds(logs: map<nat, Log>, from: nat, log: nat, top: nat)
    requires from <= log < top && log in logs && AllBelow(logs, log + 1)
    ensures Between(logs, from, top) == Between(logs, from, log) + logs[log]
  {
    BetweenSplit(logs, from, log + 1, top);
    BetweenNone(logs, log + 1, top);
  }

  /** The logs a record names, up to the current one, hold exactly the sealed groups its tables do not. */
  ghost predicate LogsMatch(logs: map<nat, Log>, r: Record, log: nat, groups: seq<Group>, sealed: nat) {
    r.logNumber <= log && r.covered <= sealed <= |groups|
        && Between(logs, r.logNumber, log) == groups[r.covered..sealed]
  }

  ghost predicate NewestLogOk(logs: map<nat, Log>, m: Memory, groups: seq<Group>, sealed: nat) {
    && m.log in logs && AllBelow(logs, m.log + 1) && sealed <= |groups| && logs[m.log] == groups[sealed..]
    && m.synced <= |logs[m.log]| && m.log < m.lsm.nextFile
  }

  // ---------- memory ----------

  function Applied(groups: seq<Group>, unapplied: Option<Group>): int {
    if unapplied.Some? then |groups| - 1 else |groups|
  }

  ghost predicate HistoryOk(lsm: Lsm.State, unapplied: Option<Group>, groups: seq<Group>, covered: nat, sealed: nat) {
    var n := Applied(groups, unapplied);
    && covered <= sealed <= n && GroupsOk(groups) && (unapplied.Some? ==> groups[n] == unapplied.value)
    && lsm.written == EntriesIn(groups[..n]) && lsm.mem == EntriesIn(groups[sealed..n])
       && Lsm.Imm(lsm) == EntriesIn(groups[covered..sealed])
  }

  ghost predicate TreeOfGroups(lsm: Lsm.State, groups: seq<Group>, covered: nat, closed: bool) {
    covered <= |groups| && Lsm.Ok(Tree(lsm, EntriesIn(groups[..covered])), closed)
  }

  // ---------- files ----------

  ghost predicate FilesOk(tables: map<nat, seq<Entry>>, v: Version, next: nat) {
    TablesHold(tables, v) && forall n :: n in NumbersIn(v) ==> n < next
  }

  /** Every file that anyone may still read is on disk, with its contents. */
  ghost predicate LiveFilesOk(tables: map<nat, seq<Entry>>, m: Memory) {
    && (forall v :: v in Live(m) ==> FilesOk(tables, v, m.lsm.nextFile)) && m.pending <= tables.Keys
  }

  ghost predicate ManifestOk(disk: Disk) {
    disk.current in disk.manifests && disk.current < disk.record.nextFile
        && (disk.inflight.Some? ==> disk.current < disk.inflight.value.nextFile)
  }

  // ---------- the edit being written ----------

  ghost predicate JobOk(s: State, m: Memory, closed: bool) {
    m.job.Some? ==>
      && !m.failed && s.disk.inflight.Some? && Enabled(m.lsm, m.job.value)
         && (closed ==> Lsm.Closes(m.lsm, StepOf(m.job.value)))
      && var r := s.disk.inflight.value;
         && r.version == AfterEdit(m.lsm, m.job.value).current
         && r.logNumber == (if IsFlush(m.job.value) then m.log else s.disk.record.logNumber)
         && r.covered == if IsFlush(m.job.value) then s.sealed else s.disk.record.covered
  }

  ghost predicate InflightOk(s: State, m: Memory, closed: bool) {
    s.disk.inflight.Some? ==>
      && (m.job.Some? || m.failed) && TablesHold(s.disk.tables, s.disk.inflight.value.version)
      && RecordOk(s.disk.inflight.value, s.groups, closed)
         && LogsMatch(s.disk.logs, s.disk.inflight.value, m.log, s.groups, s.sealed)
  }

  ghost predicate RecordsOk(s: State, m: Memory, closed: bool) {
    && m.lsm.current == s.disk.record.version && RecordOk(s.disk.record, s.groups, closed)
    && LogsMatch(s.disk.logs, s.disk.record, m.log, s.groups, s.sealed)
  }

  ghost predicate OpenOk(s: State, m: Memory, closed: bool) {
    && Lsm.Ok(m.lsm, closed) && TreeOfGroups(m.lsm, s.groups, s.disk.record.covered, closed)
    && HistoryOk(m.lsm, m.unapplied, s.groups, s.disk.record.covered, s.sealed)
    && NewestLogOk(s.disk.logs, m, s.groups, s.sealed)
    && RecordsOk(s, m, closed) && JobOk(s, m, closed) && InflightOk(s, m, closed) && LiveFilesOk(s.disk.tables, m)
    && ManifestOk(s.disk) && s.disk.current < m.lsm.nextFile
  }

  // ---------- after a crash ----------

  /** The logs hold exactly the groups the manifest's tables do not. */
  ghost predicate LogsComplete(logs: map<nat, Log>, r: Record, groups: seq<Group>) {
    && r.covered <= |groups|
    && forall top :: AllBelow(logs, top) && r.logNumber <= top ==>
         Between(logs, r.logNumber, top) == groups[r.covered..]
  }

  ghost predicate DownOk(s: State, closed: bool) {
    && GroupsOk(s.groups) && RecordOk(s.disk.record, s.groups, closed)
       && LogsComplete(s.disk.logs, s.disk.record, s.groups)
    && TablesHold(s.disk.tables, s.disk.record.version) && s.disk.inflight.None? && ManifestOk(s.disk)
  }

  ghost predicate Inv(s: State, closed: bool) {
    if s.memory.Some? then OpenOk(s, s.memory.value, closed) else DownOk(s, closed)
  }
}
