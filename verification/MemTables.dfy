/** The memtable over its skip list (db/memtable.cc), and DBImpl::Get over memtables and tables. */
module MemTables {
  import opened Options
  import opened InternalKeys
  import opened Files
  import opened Cursors
  import opened SkipLists
  import opened PointLookup
  import opened LsmMachine

  ghost function Stored(table: SkipList): set<Entry>
    reads table
    requires table.Valid()
  {
    SetOf(table.Contents())
  }

  lemma InsertedSet(es: seq<Entry>, at: nat, e: Entry)
    requires at <= |es|
    ensures SetOf(es[..at] + [e] + es[at..]) == SetOf(es) + {e}
  {
    assert es == es[..at] + es[at..];
  }

  /** Sequence numbers are never reused, so the new key is not in the table. */
  method Add(table: SkipList, s: Sequence, kind: ValueType, user: UserKey, value: Bytes)
    requires table.Valid() && forall x :: x in Stored(table) ==> x.key.sequence != s
    modifies table
    ensures table.Valid() && Stored(table) == old(Stored(table)) + {Entry(InternalKey(user, s, kind), value)}
  {
    var e := Entry(InternalKey(user, s, kind), value);
    assert forall x :: x in table.Contents() ==> x in Stored(table);
    ghost var at := table.Insert(e);
    InsertedSet(old(table.Contents()), at, e);
  }

  lemma SeekHit(es: seq<Entry>, at: nat, user: UserKey, s: Sequence)
    requires Sorted(es) && IsSeek(es, LookupKey(user, s), at)
    ensures at < |es| && es[at].key.user == user ==> IsNewest(SetOf(es), user, s, es[at])
    ensures at == |es| || es[at].key.user != user ==> NoCandidate(SetOf(es), user, s)
  {
    forall i | 0 <= i < |es| ensures AtOrAfter(es[i].key, LookupKey(user, s)) <==> at <= i {
      assert i < at ==> Before(es[i].key, LookupKey(user, s));
    }
    if at < |es| {
      LookupKeyIsBoundary(user, s, es[at].key);
      forall i | 0 <= i < |es| && es[i].key.user == user && es[i].key.sequence <= s
        ensures es[at].key.user == user && es[i].key.sequence <= es[at].key.sequence
      {
        LookupKeyIsBoundary(user, s, es[i].key);
        if i > at { SortedOrder(es, at, i); }
      }
    }
  }

  /** MemTable::Get: the first entry at or after the lookup key decides, if it has the user key. */
  method Get(table: SkipList, user: UserKey, s: Sequence) returns (found: Option<Entry>)
    requires table.Valid()
    ensures found.Some? ==> IsNewest(Stored(table), user, s, found.value)
    ensures found.None? ==> NoCandidate(Stored(table), user, s)
  {
    var next, _, at := table.FindGreaterOrEqual(LookupKey(user, s));
    table.FoundIsSeek(LookupKey(user, s), at);
    SeekHit(table.Contents(), at, user, s);
    if next.Some? && table.nodes[next.value].entry.key.user == user {
      return Some(table.nodes[next.value].entry);
    }
    return None;
  }

  lemma AnswerIsNewest(es: set<Entry>, user: UserKey, s: Sequence, found: Option<Entry>)
    requires Unique(es) && (found.Some? ==> IsNewest(es, user, s, found.value))
    requires found.None? ==> NoCandidate(es, user, s)
    ensures found == Newest(es, user, s)
  {
    if found.Some? { NewestIs(es, user, s, found.value); } else { NewestIsNone(es, user, s); }
  }

  /** The memtables hold what the state of the database says. */
  ghost predicate Represents(mem: SkipList, imm: SkipList?, state: State)
    reads mem, if imm != null then {imm} else {}
  {
    && mem.Valid() && Stored(mem) == state.mem
    && (imm != null ==> imm.Valid() && Stored(imm) == Imm(state)) && (imm == null ==> state.imm.None?)
  }

  lemma StateIsSearchable(state: State)
    requires Inv(state)
    ensures Unique(state.mem) && Unique(Imm(state)) && Searchable(state.current)
  {
    StoredIsUnique(state);
    TreeIsUnique(state);
    assert state.mem <= LsmMachine.Stored(state) && Imm(state) <= LsmMachine.Stored(state);
  }

  /** DBImpl::Get on a reachable state returns the newest write at or below the snapshot. */
  method DbGet(mem: SkipList, imm: SkipList?, ghost state: State, current: Version, user: UserKey, s: Sequence,
               filtered: File -> bool)
    returns (value: Option<Bytes>)
    requires Inv(state) && Represents(mem, imm, state) && current == state.current && NoFalseNegative(filtered, user)
    requires s == state.lastSequence || s in state.snapshots
    ensures value == Visible(state.written, user, s)
  {
    hide NumbersDistinct;
    hide Unique;
    hide Oldest;
    hide RunningNewer;
    hide TreeShape;
    hide Before;
    hide SnapshotsOk;
    hide NumbersNewer;
    hide AllEntries;
    hide LevelsNewer;
    hide LayersOk;
    hide Stored;
    hide Table.Valid;
    hide ShapeInv;
    StateIsSearchable(state);
    GetReadsStored(state, user, s);
    OldestIsLow(state, s);
    var found := Get(mem, user, s);
    AnswerIsNewest(state.mem, user, s, found);
    if found.Some? {
      return Outcome(found);
    }
    if imm != null {
      found := Get(imm, user, s);
      AnswerIsNewest(Imm(state), user, s, found);
      if found.Some? {
        return Outcome(found);
      }
    }
    var stats;
    value, stats := PointLookup.Get(current, user, s, filtered);
  }
}
