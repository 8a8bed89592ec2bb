/** Internal keys, their order, and the meaning of a set of entries.

    A user key is a `real`: the only thing this layer asks of the user comparator is a total order,
    and every countable total order (in particular bytewise order on strings) embeds in the reals. */
module InternalKeys {
  import opened Options
  import opened Coding

  const MAX_SEQUENCE: nat := 0xFF_FFFF_FFFF_FFFF

  type UserKey = real
  type Sequence = s: nat | s <= MAX_SEQUENCE
  type Bytes = Buffer

  datatype ValueType = Deletion | Value

  datatype InternalKey = InternalKey(user: UserKey, sequence: Sequence, kind: ValueType) {
    // The low eight bits of the packed tag hold the value type.
    function Tag(): nat { sequence * 256 + if kind.Value? then 1 else 0 }
  }

  datatype Entry = Entry(key: InternalKey, value: Bytes)

  /** InternalKeyComparator: increasing user key, then decreasing tag. */
  predicate Before(a: InternalKey, b: InternalKey) {
    a.user < b.user || (a.user == b.user && a.Tag() > b.Tag())
  }

  predicate AtOrAfter(a: InternalKey, b: InternalKey) { !Before(a, b) }

  /** The key a lookup seeks to: it precedes every entry of `user` with sequence at most `s`. */
  function LookupKey(user: UserKey, s: Sequence): InternalKey { InternalKey(user, s, Value) }

  ghost predicate Sorted(es: seq<Entry>) {
    forall i, j {:trigger Before(es[i].key, es[j].key)} :: 0 <= i < j < |es| ==> Before(es[i].key, es[j].key)
  }

  lemma SortedOrder(es: seq<Entry>, i: nat, j: nat)
    requires Sorted(es) && i < |es| && j < |es|
    ensures Before(es[i].key, es[j].key) <==> i < j
  {
    assert j < i ==> Before(es[j].key, es[i].key);
  }

  lemma LookupKeyIsBoundary(user: UserKey, s: Sequence, k: InternalKey)
    ensures AtOrAfter(k, LookupKey(user, s)) <==> k.user > user || (k.user == user && k.sequence <= s)
  {
  }

  // ---------- what a set of entries means ----------

  ghost function SetOf(es: seq<Entry>): set<Entry> { set e | e in es }

  /** No two entries carry the same sequence number. */
  ghost predicate Unique(s: set<Entry>) {
    forall a, b :: a in s && b in s && a.key.sequence == b.key.sequence ==> a == b
  }

  ghost function Candidates(es: set<Entry>, user: UserKey, s: Sequence): set<Entry> {
    set e | e in es && e.key.user == user && e.key.sequence <= s
  }

  ghost function Latest(es: set<Entry>): (m: Entry)
    requires es != {}
    ensures m in es && forall e :: e in es ==> e.key.sequence <= m.key.sequence
  {
    var x :| x in es;
    if es == {x} then x else
      var m := Latest(es - {x});
      assert forall e :: e in es ==> e == x || e in es - {x};
      if m.key.sequence > x.key.sequence then m else x
  }

  /** The newest entry for `user` that a reader at sequence `s` may see. */
  ghost function Newest(es: set<Entry>, user: UserKey, s: Sequence): Option<Entry> {
    if Candidates(es, user, s) == {} then None else Some(Latest(Candidates(es, user, s)))
  }

  /** The simple object that everything refines: the value visible at a snapshot. */
  ghost function Visible(es: set<Entry>, user: UserKey, s: Sequence): Option<Bytes> {
    Outcome(Newest(es, user, s))
  }

  function Outcome(e: Option<Entry>): Option<Bytes> {
    match e
    case None => None
    case Some(e) => if e.key.kind.Value? then Some(e.value) else None
  }

  ghost predicate IsNewest(es: set<Entry>, user: UserKey, s: Sequence, e: Entry) {
    && e in es && e.key.user == user && e.key.sequence <= s
    && forall x :: x in es && x.key.user == user && x.key.sequence <= s ==> x.key.sequence <= e.key.sequence
  }

  lemma NewestIs(es: set<Entry>, user: UserKey, s: Sequence, e: Entry)
    requires Unique(es) && IsNewest(es, user, s, e)
    ensures Newest(es, user, s) == Some(e)
  {
    assert e in Candidates(es, user, s);
  }

  lemma NewestIsNone(es: set<Entry>, user: UserKey, s: Sequence)
    requires forall x :: x in es && x.key.user == user ==> x.key.sequence > s
    ensures Newest(es, user, s) == None
  {
  }

  lemma NewestProperty(es: set<Entry>, user: UserKey, s: Sequence)
    ensures Newest(es, user, s).Some? ==> IsNewest(es, user, s, Newest(es, user, s).value)
    ensures Newest(es, user, s).None? ==> forall x :: x in es && x.key.user == user ==> x.key.sequence > s
  {
    var c := Candidates(es, user, s);
    if c != {} {
      forall x | x in es && x.key.user == user && x.key.sequence <= s
        ensures x.key.sequence <= Latest(c).key.sequence
      {
        assert x in c;
      }
    } else {
      forall x | x in es && x.key.user == user
        ensures x.key.sequence > s
      {
        assert x !in c;
      }
    }
  }

  /** Layers read top down: if every entry of `upper` for `user` is newer than every entry of
      `lower`, the newest of the union is the newest of the first layer that has one. */
  lemma NewestOfLayers(upper: set<Entry>, lower: set<Entry>, user: UserKey, s: Sequence)
    requires Unique(upper + lower)
    requires forall a, b :: a in upper && b in lower && a.key.user == user && b.key.user == user ==>
                a.key.sequence > b.key.sequence
    ensures Newest(upper + lower, user, s) ==
            if Newest(upper, user, s).Some? then Newest(upper, user, s) else Newest(lower, user, s)
  {
    var u, l := Newest(upper, user, s), Newest(lower, user, s);
    NewestProperty(upper, user, s);
    NewestProperty(lower, user, s);
    if u.Some? {
      NewestIs(upper + lower, user, s, u.value);
    } else if l.Some? {
      NewestIs(upper + lower, user, s, l.value);
    } else {
      NewestIsNone(upper + lower, user, s);
    }
  }

  /** A sub-multiset that keeps or hides the newest entry of `user`, in the way compaction does,
      reads the same at every snapshot at or above `smallest`. */
  lemma DroppingIsInvisible(all: set<Entry>, kept: set<Entry>, smallest: Sequence,
                            user: UserKey, s: Sequence)
    requires Unique(all) && kept <= all && smallest <= s
    requires forall e :: e in all - kept && e.key.user == user ==>
                HiddenBelow(all, e, smallest) || DeadDeletion(kept, e)
    ensures Visible(kept, user, s) == Visible(all, user, s)
  {
    NewestProperty(all, user, s);
    match Newest(all, user, s)
    case None => NewestIsNone(kept, user, s);
    case Some(n) =>
      if n in kept {
        NewestIs(kept, user, s, n);
      } else {
        assert !HiddenBelow(all, n, smallest);
        NewestIsNone(kept, user, s);
      }
  }

  /** Rule (A): a newer entry of the same user key is visible at `smallest` already. */
  ghost predicate HiddenBelow(all: set<Entry>, e: Entry, smallest: Sequence) {
    exists h :: h in all && h.key.user == e.key.user && e.key.sequence < h.key.sequence <= smallest
  }

  /** Rule (B): a deletion below which nothing of the same user key survives. */
  ghost predicate DeadDeletion(kept: set<Entry>, e: Entry) {
    e.key.kind.Deletion? && forall x :: x in kept && x.key.user == e.key.user ==> x.key.sequence > e.key.sequence
  }
}
