/** One shard of the LRU cache (util/cache.cc).  The two circular lists are sequences, oldest first. */
module LruCaches {
  import opened Options
  import opened Coding
  import opened HandleTables
  import opened PlainCaches

  /** References that clients hold. */
  type Clients = map<nat, nat>

  function Total(es: Entries, s: seq<nat>): nat
    requires forall h :: h in s ==> h in es
  {
    if s == [] then 0 else Total(es, s[..|s| - 1]) + es[s[|s| - 1]].charge
  }

  /** The list holds, once each, exactly the handles of `ids`. */
  ghost predicate Lists(s: seq<nat>, ids: set<nat>) { NoRepeat(s) && forall h :: h in s <==> h in ids }

  lemma {:induction false} MinusHolds(s: seq<nat>, h: nat)
    requires NoRepeat(s)
    ensures NoRepeat(Minus(s, h)) && (forall g :: g in Minus(s, h) <==> g in s && g != h)
  {
    if s != [] {
      var n := |s| - 1;
      var before, last := s[..n], s[n];
      MinusHolds(before, h);
      assert s == before + [last];
      if last != h { LastIsNew(Minus(before, h), last); }
    }
  }

  lemma {:induction false} MinusTotal(es: Entries, s: seq<nat>, h: nat)
    requires NoRepeat(s) && forall g :: g in s ==> g in es
    ensures forall g :: g in Minus(s, h) ==> g in es
    ensures Total(es, s) == Total(es, Minus(s, h)) + if h in s then es[h].charge else 0
  {
    MinusHolds(s, h);
    if s != [] {
      var n := |s| - 1;
      var before, last := s[..n], s[n];
      MinusTotal(es, before, h);
      LastApart(s);
      var rest := Minus(before, h);
      if last == h {
        assert Minus(s, h) == rest + [] == rest;
      } else {
        assert Minus(s, h) == rest + [last] && (rest + [last])[..|rest|] == rest;
      }
    }
  }

  lemma LastApart(s: seq<nat>)
    requires NoRepeat(s) && s != []
    ensures var n := |s| - 1; NoRepeat(s[..n]) && s[n] !in s[..n] && forall g :: g in s <==> g in s[..n] || g == s[n]
  {
    assert s == s[..|s| - 1] + [s[|s| - 1]];
  }

  lemma MinusIs(es: Entries, s: seq<nat>, h: nat)
    requires NoRepeat(s) && forall g :: g in s ==> g in es
    ensures NoRepeat(Minus(s, h)) && (forall g :: g in Minus(s, h) <==> g in s && g != h)
    ensures Total(es, s) == Total(es, Minus(s, h)) + if h in s then es[h].charge else 0
  {
    MinusHolds(s, h);
    MinusTotal(es, s, h);
  }

  lemma LastIsNew(s: seq<nat>, h: nat)
    requires NoRepeat(s) && h !in s
    ensures NoRepeat(s + [h])
  {
    var t := s + [h];
    forall i, j | 0 <= i < j < |t| ensures t[i] != t[j] {
      if j == |s| { assert t[i] in s; }
    }
  }

  lemma AppendIs(es: Entries, s: seq<nat>, h: nat)
    requires NoRepeat(s) && h !in s && h in es && forall g :: g in s ==> g in es
    ensures NoRepeat(s + [h]) && Total(es, s + [h]) == Total(es, s) + es[h].charge
  {
    LastIsNew(s, h);
    assert (s + [h])[..|s|] == s;
  }

  // ---------- the state ----------

  /** The handles in the cache nobody uses, and those in use. */
  ghost function Idle(refs: map<nat, nat>, cached: set<nat>): set<nat> {
    set h | h in cached && h in refs && refs[h] == 1
  }

  ghost function Busy(refs: map<nat, nat>, cached: set<nat>): set<nat> {
    set h | h in cached && h in refs && refs[h] >= 2
  }

  ghost predicate RefsOk(refs: map<nat, nat>, cached: set<nat>, clients: Clients) {
    && clients.Keys == refs.Keys && cached <= refs.Keys
    && forall h :: h in refs ==> refs[h] == clients[h] + (if h in cached then 1 else 0) && refs[h] > 0
  }

  /** Every handle ever made is alive or was deleted, once. */
  ghost predicate DeletedOnce(es: Entries, refs: map<nat, nat>, deleted: seq<nat>) {
    NoRepeat(deleted) && refs.Keys <= es.Keys && forall h :: h in deleted <==> h in es.Keys && h !in refs
  }

  ghost predicate ListsOk(es: Entries, refs: map<nat, nat>, cached: set<nat>, lru: seq<nat>, inUse: seq<nat>,
                          usage: nat) {
    && cached <= es.Keys && Lists(lru, Idle(refs, cached)) && Lists(inUse, Busy(refs, cached))
    && usage == Total(es, lru) + Total(es, inUse)
  }

  // ---------- what each change does to the lists ----------

  /** All is in order but for one reference of `h` that was just given up. */
  ghost predicate RefsOkBut(refs: map<nat, nat>, cached: set<nat>, clients: Clients, h: nat) {
    && clients.Keys == refs.Keys && cached <= refs.Keys && h in refs
    && forall g :: g in refs ==>
        refs[g] == clients[g] + (if g in cached then 1 else 0) + (if g == h then 1 else 0) && refs[g] > 0
  }

  lemma RefLists(es: Entries, refs: map<nat, nat>, cached: set<nat>, lru: seq<nat>, inUse: seq<nat>, usage: nat, h: nat)
    requires ListsOk(es, refs, cached, lru, inUse, usage) && h in refs && refs[h] > 0
    ensures var moves := h in cached && refs[h] == 1;
            ListsOk(es, refs[h := refs[h] + 1], cached, if moves then Minus(lru, h) else lru,
                if moves then inUse + [h] else inUse, usage)
  {
    hide Total;
    hide Minus;
    hide NoRepeat;
    var refs' := refs[h := refs[h] + 1];
    if h in cached && refs[h] == 1 {
      MinusIs(es, lru, h);
      AppendIs(es, inUse, h);
      assert Idle(refs', cached) == Idle(refs, cached) - {h} && Busy(refs', cached) == Busy(refs, cached) + {h};
    } else {
      assert Idle(refs', cached) == Idle(refs, cached) && Busy(refs', cached) == Busy(refs, cached);
    }
  }

  lemma UnrefLists(es: Entries, refs: map<nat, nat>, cached: set<nat>, lru: seq<nat>, inUse: seq<nat>, usage: nat,
                   h: nat)
    requires ListsOk(es, refs, cached, lru, inUse, usage) && h in refs && refs[h] > 1
    ensures var moves := h in cached && refs[h] == 2;
            ListsOk(es, refs[h := refs[h] - 1], cached, if moves then lru + [h] else lru,
                if moves then Minus(inUse, h) else inUse, usage)
  {
    hide Total;
    hide Minus;
    hide NoRepeat;
    var refs' := refs[h := refs[h] - 1];
    if h in cached && refs[h] == 2 {
      MinusIs(es, inUse, h);
      AppendIs(es, lru, h);
      assert Idle(refs', cached) == Idle(refs, cached) + {h} && Busy(refs', cached) == Busy(refs, cached) - {h};
    } else {
      assert Idle(refs', cached) == Idle(refs, cached) && Busy(refs', cached) == Busy(refs, cached);
    }
  }

  lemma RefMore(es: Entries, refs: map<nat, nat>, cached: set<nat>, clients: Clients, deleted: seq<nat>, h: nat)
    requires RefsOk(refs, cached, clients) && DeletedOnce(es, refs, deleted) && h in refs
    ensures h in clients && refs[h] > 0 && RefsOk(refs[h := refs[h] + 1], cached, clients[h := clients[h] + 1])
            && DeletedOnce(es, refs[h := refs[h] + 1], deleted)
  {
  }

  lemma RefFewer(es: Entries, refs: map<nat, nat>, cached: set<nat>, clients: Clients, deleted: seq<nat>, h: nat)
    requires RefsOkBut(refs, cached, clients, h) && DeletedOnce(es, refs, deleted)
    ensures h in refs && refs[h] > 0
    ensures refs[h] == 1 ==>
            h !in cached && RefsOk(refs - {h}, cached, clients - {h}) && DeletedOnce(es, refs - {h}, deleted + [h])
    ensures refs[h] > 1 ==>
            RefsOk(refs[h := refs[h] - 1], cached, clients) && DeletedOnce(es, refs[h := refs[h] - 1], deleted)
  {
    if refs[h] == 1 { LastIsNew(deleted, h); }
  }

  lemma NewRefs(es: Entries, refs: map<nat, nat>, cached: set<nat>, clients: Clients, deleted: seq<nat>, h: nat,
                e: Entry)
    requires RefsOk(refs, cached, clients) && DeletedOnce(es, refs, deleted) && h !in es
    ensures RefsOk(refs[h := 1], cached, clients[h := 1]) && DeletedOnce(es[h := e], refs[h := 1], deleted)
            && h !in cached
  {
  }

  lemma DropLists(es: Entries, refs: map<nat, nat>, cached: set<nat>, lru: seq<nat>, inUse: seq<nat>, usage: nat,
                  h: nat)
    requires ListsOk(es, refs, cached, lru, inUse, usage) && h !in cached
    ensures ListsOk(es, refs - {h}, cached, lru, inUse, usage)
  {
  }

  lemma EraseLists(es: Entries, refs: map<nat, nat>, cached: set<nat>, lru: seq<nat>, inUse: seq<nat>, usage: nat,
                   h: nat)
    requires ListsOk(es, refs, cached, lru, inUse, usage) && h in cached && h in refs && refs[h] > 0
    ensures es[h].charge <= usage
            && ListsOk(es, refs, cached - {h}, Minus(lru, h), Minus(inUse, h), usage - es[h].charge)
  {
    MinusIs(es, lru, h);
    MinusIs(es, inUse, h);
  }

  lemma {:induction false} TotalGrows(es: Entries, es': Entries, s: seq<nat>)
    requires (forall h :: h in s ==> h in es) && (forall h :: h in es ==> h in es' && es'[h] == es[h])
    ensures Total(es', s) == Total(es, s)
  {
    if s != [] { TotalGrows(es, es', s[..|s| - 1]); }
  }

  lemma NewEntry(es: Entries, refs: map<nat, nat>, cached: set<nat>, lru: seq<nat>, inUse: seq<nat>, usage: nat,
                 h: nat, e: Entry)
    requires ListsOk(es, refs, cached, lru, inUse, usage) && h !in es
    ensures ListsOk(es[h := e], refs, cached, lru, inUse, usage)
  {
    TotalGrows(es, es[h := e], lru);
    TotalGrows(es, es[h := e], inUse);
  }

  /** A new handle that only its maker holds. */
  lemma NewHeld(es: Entries, refs: map<nat, nat>, cached: set<nat>, lru: seq<nat>, inUse: seq<nat>, usage: nat, h: nat)
    requires ListsOk(es, refs, cached, lru, inUse, usage) && h !in cached
    ensures ListsOk(es, refs[h := 1], cached, lru, inUse, usage)
  {
    assert Idle(refs[h := 1], cached) == Idle(refs, cached) && Busy(refs[h := 1], cached) == Busy(refs, cached);
  }

  /** A new handle in the cache, in use. */
  lemma NewCached(es: Entries, refs: map<nat, nat>, cached: set<nat>, lru: seq<nat>, inUse: seq<nat>, usage: nat,
                  h: nat)
    requires ListsOk(es, refs, cached, lru, inUse, usage) && h in es && h !in cached
    ensures ListsOk(es, refs[h := 2], cached + {h}, lru, inUse + [h], usage + es[h].charge)
  {
    assert Idle(refs[h := 2], cached + {h}) == Idle(refs, cached);
    assert Busy(refs[h := 2], cached + {h}) == Busy(refs, cached) + {h};
    AppendIs(es, inUse, h);
  }

  lemma TableGrows(es: Entries, h: nat, e: Entry, ids: set<nat>, buckets: seq<Chain>)
    requires BucketsOk(es, ids, buckets) && h !in es
    ensures BucketsOk(es[h := e], ids, buckets)
  {
    forall b | 0 <= b < |buckets| ensures ChainOk(es[h := e], ids, buckets[b], b, |buckets|) {
      assert ChainOk(es, ids, buckets[b], b, |buckets|);
    }
  }

  // ---------- the hash table as a plain map ----------

  ghost function Keys(es: Entries, ids: set<nat>): set<Key> { set h | h in ids && h in es :: KeyOf(es[h]) }

  ghost function HolderOf(es: Entries, ids: set<nat>, key: Key): nat
    requires key in Keys(es, ids)
  {
    var h :| h in ids && h in es && KeyOf(es[h]) == key;
    h
  }

  ghost function Found(es: Entries, ids: set<nat>): map<Key, nat> {
    map key | key in Keys(es, ids) :: HolderOf(es, ids, key)
  }

  lemma FoundAt(es: Entries, ids: set<nat>, h: nat)
    requires KeysDiffer(es, ids) && h in ids && h in es
    ensures KeyOf(es[h]) in Found(es, ids) && Found(es, ids)[KeyOf(es[h])] == h
  {
  }

  lemma FoundNone(es: Entries, ids: set<nat>, key: Buffer, hash: nat)
    requires KeysDiffer(es, ids) && forall h :: h in ids ==> !Matches(es, h, key, hash)
    ensures (key, hash) !in Found(es, ids)
  {
  }

  lemma FoundMinus(es: Entries, ids: set<nat>, h: nat)
    requires KeysDiffer(es, ids) && h in ids && h in es
    ensures Found(es, ids - {h}) == Found(es, ids) - {KeyOf(es[h])}
  {
    var a, b := Found(es, ids - {h}), Found(es, ids) - {KeyOf(es[h])};
    assert Keys(es, ids - {h}) == Keys(es, ids) - {KeyOf(es[h])};
    forall key | key in a ensures key in b && a[key] == b[key] { FoundAt(es, ids, a[key]); }
  }

  lemma FoundPlus(es: Entries, ids: set<nat>, h: nat)
    requires KeysDiffer(es, ids + {h}) && h !in ids && h in es
    ensures Found(es, ids + {h}) == Found(es, ids)[KeyOf(es[h]) := h]
  {
    FoundAt(es, ids + {h}, h);
    FoundMinus(es, ids + {h}, h);
    assert ids + {h} - {h} == ids;
  }

  lemma FoundGrows(es: Entries, ids: set<nat>, h: nat, e: Entry)
    requires KeysDiffer(es, ids) && h !in ids && ids <= es.Keys
    ensures Found(es[h := e], ids) == Found(es, ids)
  {
    assert KeysDiffer(es[h := e], ids);
    assert Keys(es[h := e], ids) == Keys(es, ids);
    forall key | key in Keys(es, ids) ensures Found(es[h := e], ids)[key] == Found(es, ids)[key] {
      FoundAt(es[h := e], ids, Found(es, ids)[key]);
    }
  }

  // ---------- what each call does to the plain cache ----------

  lemma LookupView(v: Plain, ids: set<nat>, key: Buffer, hash: nat, r: Option<nat>, held: Clients, idle: seq<nat>)
    requires v.found == Found(v.entries, ids) && KeysDiffer(v.entries, ids) && ids <= v.entries.Keys
    requires r.None? ==>
              (forall h :: h in ids ==> !Matches(v.entries, h, key, hash)) && held == v.held && idle == v.idle
    requires r.Some? ==>
                && r.value in ids && Matches(v.entries, r.value, key, hash) && r.value in v.held
                && held == v.held[r.value := v.held[r.value] + 1] && idle == Minus(v.idle, r.value)
    ensures r == Looked(v, (key, hash)) && LookedUp(v, (key, hash)) == v.(held := held, idle := idle)
  {
    if r.Some? { FoundAt(v.entries, ids, r.value); } else { FoundNone(v.entries, ids, key, hash); }
  }

  lemma ReleaseView(v: Plain, ids: set<nat>, h: nat, held: Clients, idle: seq<nat>, deleted: seq<nat>)
    requires v.found == Found(v.entries, ids) && KeysDiffer(v.entries, ids) && ids <= v.entries.Keys
    requires h in v.held && v.held[h] > 0 && h in v.entries
    requires var left := v.held[h] - 1;
             && held == (if h !in ids && left == 0 then v.held - {h} else v.held[h := left])
             && deleted == (if h !in ids && left == 0 then v.deleted + [h] else v.deleted)
             && idle == if h in ids && left == 0 then v.idle + [h] else v.idle
    ensures Released(v, h) == v.(held := held, idle := idle, deleted := deleted)
  {
    if h in ids { FoundAt(v.entries, ids, h); }
  }

  lemma EraseView(v: Plain, ids: set<nat>, key: Buffer, hash: nat, was: Option<nat>, ids': set<nat>, held: Clients,
                  idle: seq<nat>,
                  deleted: seq<nat>, usage: int)
    requires v.found == Found(v.entries, ids) && KeysDiffer(v.entries, ids) && ids <= v.entries.Keys
    requires was.None? ==>
                && (forall h :: h in ids ==> !Matches(v.entries, h, key, hash))
                && ids' == ids && held == v.held && idle == v.idle && deleted == v.deleted && usage == v.usage
    requires was.Some? ==>
                var h := was.value;
                && h in ids && Matches(v.entries, h, key, hash) && h in v.held && ids' == ids - {h}
                && usage == v.usage - v.entries[h].charge && idle == Minus(v.idle, h)
                && deleted == (if v.held[h] == 0 then v.deleted + [h] else v.deleted)
                  && held == if v.held[h] == 0 then v.held - {h} else v.held
    ensures Erased(v, (key, hash)) ==
            v.(found := Found(v.entries, ids'), held := held, idle := idle, deleted := deleted, usage := usage)
  {
    if was.Some? {
      FoundAt(v.entries, ids, was.value);
      FoundMinus(v.entries, ids, was.value);
    } else {
      FoundNone(v.entries, ids, key, hash);
    }
  }

  /** What changes when a handle leaves the cache or enters it. */
  datatype Parts = Parts(cached: set<nat>, clients: Clients, lru: seq<nat>, deleted: seq<nat>, usage: int)

  /** Handle `h` is in the cache, in the place of `was`. */
  ghost predicate Replaces(es: Entries, h: nat, was: Option<nat>, before: Parts, after: Parts)
    requires h in es
  {
    match was
    case None =>
      && (forall g :: g in before.cached ==> !Matches(es, g, es[h].key, es[h].hash))
      && after == before.(cached := before.cached + {h}, usage := before.usage + es[h].charge)
    case Some(g) =>
      && g in before.cached && g in before.clients && Matches(es, g, es[h].key, es[h].hash)
      && after == Parts(before.cached + {h} - {g}, Displaced(before.clients, was), Minus(before.lru, g),
                        before.deleted + (if before.clients[g] == 0 then [g] else []),
                        before.usage + es[h].charge - es[g].charge)
  }

  lemma Replaced(es: Entries, h: nat, was: nat, before: Parts, after: Parts)
    requires h in es && was in es && was in before.cached && was in before.clients
             && Matches(es, was, es[h].key, es[h].hash)
    requires after.cached == before.cached + {h} - {was} && after.usage == before.usage + es[h].charge - es[was].charge
    requires after.lru == Minus(before.lru, was)
             && after.clients == if before.clients[was] == 0 then before.clients - {was} else before.clients
    requires after.deleted == if before.clients[was] == 0 then before.deleted + [was] else before.deleted
    ensures Replaces(es, h, Some(was), before, after)
  {
    assert before.deleted + [] == before.deleted;
  }

  lemma NothingReplaced(es: Entries, h: nat, before: Parts, after: Parts)
    requires h in es && forall g :: g in before.cached ==> !Matches(es, g, es[h].key, es[h].hash)
    requires after == before.(cached := before.cached + {h}, usage := before.usage + es[h].charge)
    ensures Replaces(es, h, None, before, after)
  {
  }

  lemma PublishView(v: Plain, ids: set<nat>, h: nat, was: Option<nat>, after: Parts)
    requires v.found == Found(v.entries, ids) && KeysDiffer(v.entries, ids) && KeysDiffer(v.entries, after.cached)
             && ids <= v.entries.Keys
    requires h in v.entries && h !in ids
             && Replaces(v.entries, h, was, Parts(ids, v.held, v.idle, v.deleted, v.usage), after)
    ensures Published(v, h) ==
            v.(found := Found(v.entries, after.cached), held := after.clients, idle := after.lru,
                deleted := after.deleted, usage := after.usage)
  {
    hide KeysDiffer;
    var e, mid := v.entries[h], after.cached - {h};
    EraseView(v, ids, e.key, e.hash, was, mid, after.clients, after.lru, after.deleted, after.usage - e.charge);
    assert mid + {h} == after.cached;
    FoundPlus(v.entries, mid, h);
  }

  /** The first `gone` of the idle handles were evicted, in order, and their deleters have run. */
  ghost predicate Evicted(idle: seq<nat>, lru: seq<nat>, deleted0: seq<nat>, deleted: seq<nat>, cached0: set<nat>,
                          cached: set<nat>, gone: nat) {
    && gone <= |idle| && lru == idle[gone..] && deleted == deleted0 + idle[..gone]
    && forall h :: h in cached <==> h in cached0 && h !in idle[..gone]
  }

  lemma NothingGone(lru: seq<nat>, deleted: seq<nat>, cached: set<nat>)
    ensures Evicted(lru, lru, deleted, deleted, cached, cached, 0)
  {
  }

  lemma OneMoreGone(idle: seq<nat>, lru: seq<nat>, deleted0: seq<nat>, deleted: seq<nat>, cached0: set<nat>,
                    cached: set<nat>, gone: nat)
    requires Evicted(idle, lru, deleted0, deleted, cached0, cached, gone) && lru != []
    ensures Evicted(idle, lru[1..], deleted0, deleted + [lru[0]], cached0, cached - {lru[0]}, gone + 1)
            && idle[gone] == lru[0] && lru[0] in idle
  {
    assert idle[..gone + 1] == idle[..gone] + [idle[gone]];
  }

  /** A displaced handle that nobody holds is gone. */
  ghost function Displaced(clients: Clients, was: Option<nat>): Clients {
    if was.Some? && was.value in clients && clients[was.value] == 0 then clients - {was.value} else clients
  }

  /** The evicted handles have no clients any more; the others have those they had. */
  ghost predicate ClientsLeft(before: Clients, after: Clients, evicted: seq<nat>) {
    && (forall h :: h in after <==> h in before && h !in evicted)
    && (forall h :: h in after && h in before ==> after[h] == before[h])
  }

  /** What an insertion leaves in the cache and with clients, and what it evicts. */
  ghost predicate InsertedParts(es: Entries, h: nat, was: Option<nat>, gone: nat, capacity: nat, before: Parts,
                                after: Parts) {
    && (was.Some? ==>
        was.value in before.cached && was.value in before.clients && h in es
        && Matches(es, was.value, es[h].key, es[h].hash))
    && (was.None? && capacity > 0 && h in es ==>
        forall g :: g in before.cached ==> !Matches(es, g, es[h].key, es[h].hash))
    && var idle := if was.Some? then Minus(before.lru, was.value) else before.lru;
       && gone <= |idle| && after.lru == idle[gone..]
       && (forall g :: g in after.cached <==>
          (g in before.cached || (g == h && capacity > 0)) && Some(g) != was && g !in idle[..gone])
       && ClientsLeft(Displaced(before.clients[h := 1], was), after.clients, idle[..gone])
       && after.deleted == before.deleted + (if was.Some? && was.value in before.clients
          && before.clients[was.value] == 0 then [was.value] else []) + idle[..gone]
       && (gone > 0 ==> idle[gone - 1] in es && after.usage + es[idle[gone - 1]].charge > capacity)
  }

  /** The first `gone` of the idle handles are evicted, and not one more than needed. */
  ghost predicate ShrunkParts(es: Entries, gone: nat, capacity: nat, before: Parts, after: Parts) {
    && Evicted(before.lru, after.lru, before.deleted, after.deleted, before.cached, after.cached, gone)
    && ClientsLeft(before.clients, after.clients, before.lru[..gone])
    && (gone > 0 ==> before.lru[gone - 1] in es && after.usage + es[before.lru[gone - 1]].charge > capacity)
  }

  lemma PartsInserted(es: Entries, h: nat, was: Option<nat>, gone: nat, capacity: nat, before: Parts, mid: Parts,
                      after: Parts)
    requires h in es && h !in before.cached && h !in before.clients && before.cached <= before.clients.Keys
    requires if capacity > 0 then Replaces(es, h, was, before.(clients := before.clients[h := 1]), mid)
             else was.None? && mid == before.(clients := before.clients[h := 1])
    requires ShrunkParts(es, gone, capacity, mid, after)
    ensures InsertedParts(es, h, was, gone, capacity, before, after)
  {
  }

  lemma OneLessClient(before: Clients, after: Clients, idle: seq<nat>, gone: nat)
    requires gone < |idle| && ClientsLeft(before, after, idle[..gone])
    ensures ClientsLeft(before, after - {idle[gone]}, idle[..gone + 1])
  {
    assert idle[..gone + 1] == idle[..gone] + [idle[gone]];
  }

  class LruCache {
    const capacity: nat
    const table: HandleTable
    var entries: Entries        // all handles ever made
    var refs: map<nat, nat>     // of the handles alive
    var cached: set<nat>        // in_cache
    var lru: seq<nat>           // oldest first
    var inUse: seq<nat>
    var usage: nat
    var next: nat
    var deleted: seq<nat>       // handles whose deleter has run
    ghost var clients: Clients

    ghost predicate Valid()
      reads this, table
    {
      && table.Valid(entries) && table.ids == cached && RefsOk(refs, cached, clients)
         && DeletedOnce(entries, refs, deleted)
      && ListsOk(entries, refs, cached, lru, inUse, usage) && forall h :: h in entries ==> h < next
    }

    /** The plain cache this one stands for. */
    ghost function View(): Plain
      reads this
    {
      Plain(entries, Found(entries, cached), clients, lru, deleted, usage, next)
    }

    lemma AllAlive()
      requires Valid()
      ensures cached <= refs.Keys && clients.Keys == refs.Keys && cached <= entries.Keys
    {
    }

    lemma ViewIsDefined()
      requires Valid()
      ensures KeysDiffer(entries, cached)
    {
    }

    constructor (capacity: nat)
      ensures Valid() && this.capacity == capacity && cached == {} && deleted == [] && clients == map[] && fresh(table)
      ensures View() == Plain(map[], map[], map[], [], [], 0, 0)
    {
      this.capacity := capacity;
      table := new HandleTable();
      entries, refs, cached, lru, inUse, usage, next, deleted, clients := map[], map[], {}, [], [], 0, 0, [], map[];
    }

    /** Ref: a handle on the LRU list moves to the in-use list. */
    method Ref(h: nat)
      requires Valid() && h in refs
      modifies `refs, `lru, `inUse, `clients
      ensures Valid() && clients == old(clients)[h := old(clients[h]) + 1]
      ensures lru == if h in cached && old(refs[h]) == 1 then Minus(old(lru), h) else old(lru)
    {
      hide ListsOk;
      hide BucketsOk;
      hide RefsOk;
      hide DeletedOnce;
      RefMore(entries, refs, cached, clients, deleted, h);
      RefLists(entries, refs, cached, lru, inUse, usage, h);
      if refs[h] == 1 && h in cached {
        lru := Minus(lru, h);
        inUse := inUse + [h];
      }
      refs := refs[h := refs[h] + 1];
      clients := clients[h := clients[h] + 1];
    }

    /** Unref: the last reference gone, the deleter runs; only the cache's left, the handle is the newest on
        the LRU list. */
    method Unref(h: nat)
      requires RefsOkBut(refs, cached, clients, h) && DeletedOnce(entries, refs, deleted)
               && ListsOk(entries, refs, cached, lru, inUse, usage)
      modifies `refs, `lru, `inUse, `clients, `deleted
      ensures RefsOk(refs, cached, clients) && DeletedOnce(entries, refs, deleted)
              && ListsOk(entries, refs, cached, lru, inUse, usage)
      ensures clients == if old(refs[h]) == 1 then old(clients) - {h} else old(clients)
      ensures deleted == if old(refs[h]) == 1 then old(deleted) + [h] else old(deleted)
      ensures lru == if h in cached && old(refs[h]) == 2 then old(lru) + [h] else old(lru)
    {
      hide ListsOk;
      hide RefsOk;
      hide RefsOkBut;
      hide DeletedOnce;
      RefFewer(entries, refs, cached, clients, deleted, h);
      if refs[h] == 1 {
        DropLists(entries, refs, cached, lru, inUse, usage, h);
        refs, clients, deleted := refs - {h}, clients - {h}, deleted + [h];
      } else {
        UnrefLists(entries, refs, cached, lru, inUse, usage, h);
        refs := refs[h := refs[h] - 1];
        if h in cached && refs[h] == 1 {
          inUse := Minus(inUse, h);
          lru := lru + [h];
        }
      }
    }

    /** FinishErase, for a handle that has left the hash table. */
    method FinishErase(h: nat)
      requires RefsOk(refs, cached, clients) && DeletedOnce(entries, refs, deleted)
               && ListsOk(entries, refs, cached, lru, inUse, usage)
      requires h in cached && h in entries
      modifies `refs, `lru, `inUse, `clients, `deleted, `cached, `usage
      ensures RefsOk(refs, cached, clients) && DeletedOnce(entries, refs, deleted)
              && ListsOk(entries, refs, cached, lru, inUse, usage)
      ensures cached == old(cached) - {h} && usage == old(usage) - entries[h].charge && lru == Minus(old(lru), h)
      ensures h in old(clients) && clients == (if old(clients[h]) == 0 then old(clients) - {h} else old(clients))
      ensures deleted == if old(clients[h]) == 0 then old(deleted) + [h] else old(deleted)
    {
      hide ListsOk;
      EraseLists(entries, refs, cached, lru, inUse, usage, h);
      lru, inUse := Minus(lru, h), Minus(inUse, h);
      cached := cached - {h};
      usage := usage - entries[h].charge;
      Unref(h);
    }

    method Lookup(key: Buffer, hash: nat) returns (r: Option<nat>)
      requires Valid()
      modifies `refs, `lru, `inUse, `clients
      ensures Valid()
      ensures r.None? ==>
              (forall h :: h in cached ==> !Matches(entries, h, key, hash)) && clients == old(clients)
              && lru == old(lru)
      ensures r.Some? ==> r.value in cached && Matches(entries, r.value, key, hash)
      ensures r.Some? ==> r.value in old(clients) && clients == old(clients)[r.value := old(clients[r.value]) + 1]
      ensures r.Some? ==> lru == Minus(old(lru), r.value)
      ensures r == Looked(old(View()), (key, hash)) && View() == LookedUp(old(View()), (key, hash))
    {
      hide ListsOk;
      hide BucketsOk;
      hide RefsOk;
      hide DeletedOnce;
      hide Found;
      hide KeysDiffer;
      hide Minus;
      hide LookedUp;
      hide Looked;
      ViewIsDefined();
      AllAlive();
      ghost var view := View();
      r := table.Lookup(entries, key, hash);
      if r.Some? {
        if refs[r.value] != 1 { NotIdle(r.value); }
        Ref(r.value);
      }
      LookupView(view, cached, key, hash, r, clients, lru);
    }

    method Release(h: nat)
      requires Valid() && h in clients && clients[h] > 0
      modifies `refs, `lru, `inUse, `clients, `deleted
      ensures Valid()
      ensures var left := old(clients[h]) - 1;
              && clients == (if h !in cached && left == 0 then old(clients) - {h} else old(clients)[h := left])
              && deleted == (if h !in cached && left == 0 then old(deleted) + [h] else old(deleted))
              && lru == if h in cached && left == 0 then old(lru) + [h] else old(lru)
      ensures View() == Released(old(View()), h)
    {
      hide ListsOk;
      hide BucketsOk;
      hide RefsOk;
      hide RefsOkBut;
      hide DeletedOnce;
      hide Found;
      hide KeysDiffer;
      hide Released;
      ViewIsDefined();
      AllAlive();
      ReleaseStarts(h);
      ghost var view := View();
      clients := clients[h := clients[h] - 1];
      Unref(h);
      assert old(clients)[h := old(clients[h]) - 1] - {h} == old(clients) - {h};
      ReleaseView(view, cached, h, clients, lru, deleted);
    }

    lemma ReleaseStarts(h: nat)
      requires Valid() && h in clients && clients[h] > 0
      ensures RefsOkBut(refs, cached, clients[h := clients[h] - 1], h) && h in refs
      ensures refs[h] == clients[h] + (if h in cached then 1 else 0) && h in entries
    {
    }

    /** Takes the handle with the given key out of the cache; its value lives on while clients hold it. */
    method Erase(key: Buffer, hash: nat) returns (ghost was: Option<nat>)
      requires Valid()
      modifies this, table
      ensures Valid() && entries == old(entries)
      ensures was.None? ==>
              (forall h :: h in old(cached) ==> !Matches(entries, h, key, hash)) && cached == old(cached)
              && usage == old(usage) && deleted == old(deleted)
      ensures was.Some? ==>
                var h := was.value;
                && h in old(cached) && Matches(entries, h, key, hash) && h in old(clients) && h in entries
                && cached == old(cached) - {h} && usage == old(usage) - entries[h].charge && lru == Minus(old(lru), h)
                && deleted == (if old(clients[h]) == 0 then old(deleted) + [h] else old(deleted))
                && clients == if old(clients[h]) == 0 then old(clients) - {h} else old(clients)
      ensures View() == Erased(old(View()), (key, hash))
    {
      hide ListsOk;
      hide BucketsOk;
      hide RefsOk;
      hide DeletedOnce;
      hide Found;
      hide KeysDiffer;
      hide Minus;
      hide Erased;
      ViewIsDefined();
      AllAlive();
      ghost var view := View();
      var e := table.Remove(entries, key, hash);
      was := e;
      if e.Some? {
        FinishErase(e.value);
      }
      EraseView(view, old(cached), key, hash, was, cached, clients, lru, deleted, usage);
    }

    /** The oldest idle handle is evicted: nobody holds it, so its deleter runs. */
    method EvictOldest()
      requires Valid() && lru != []
      modifies this, table
      ensures Valid() && entries == old(entries) && old(lru)[0] in old(cached) && old(lru)[0] in entries
      ensures lru == old(lru)[1..] && cached == old(cached) - {old(lru)[0]} && deleted == old(deleted) + [old(lru)[0]]
      ensures usage == old(usage) - entries[old(lru)[0]].charge && clients == old(clients) - {old(lru)[0]}
      ensures View() == Drop(old(View()), old(lru)[0])
    {
      hide ListsOk;
      hide BucketsOk;
      var h := lru[0];
      ViewIsDefined();
      OldestIsIdle();
      FoundAt(entries, cached, h);
      ghost var was := Erase(entries[h].key, entries[h].hash);
    }

    lemma OldestIsIdle()
      requires Valid() && lru != []
      ensures var h := lru[0];
              && h in cached && h in entries && h in refs && h in clients && clients[h] == 0
                 && Minus(lru, h) == lru[1..]
              && forall g :: g in cached && Matches(entries, g, entries[h].key, entries[h].hash) ==> g == h
    {
      assert lru[0] in lru;
      MinusFirst(lru);
    }

    method Prune()
      requires Valid()
      modifies this, table
      ensures Valid() && lru == [] && deleted == old(deleted) + old(lru) && entries == old(entries)
      ensures forall h :: h in cached <==> h in old(cached) && h !in old(lru)
      ensures View() == Pruned(old(View()))
    {
      hide LruCache.Valid;
      ViewIsDefined();
      ghost var gone: nat := 0;
      NothingGone(lru, deleted, cached);
      while |lru| > 0
        invariant Pruned(View()) == Pruned(old(View()))
        invariant Valid() && Evicted(old(lru), lru, old(deleted), deleted, old(cached), cached, gone)
                  && entries == old(entries)
        decreases |lru|
      {
        OneMoreGone(old(lru), lru, old(deleted), deleted, old(cached), cached, gone);
        EvictOldest();
        gone := gone + 1;
      }
      assert old(lru)[..gone] == old(lru);
    }

    /** Evicts, oldest first, until the usage fits or nothing is idle; never more than that. */
    method Shrink() returns (ghost gone: nat)
      requires Valid()
      modifies this, table
      ensures Valid() && entries == old(entries) && next == old(next) && (usage <= capacity || lru == [])
      ensures ShrunkParts(entries, gone, capacity, old(Now()), Now())
      ensures View() == Fit(old(View()), capacity)
    {
      hide LruCache.Valid;
      gone := 0;
      NothingGone(lru, deleted, cached);
      while usage > capacity && |lru| > 0
        invariant Valid() && entries == old(entries) && next == old(next)
                  && ShrunkParts(entries, gone, capacity, old(Now()), Now())
        invariant Fit(View(), capacity) == Fit(old(View()), capacity)
        decreases |lru|
      {
        OneMoreGone(old(lru), lru, old(deleted), deleted, old(cached), cached, gone);
        OneLessClient(old(clients), clients, old(lru), gone);
        EvictOldest();
        gone := gone + 1;
      }
    }

    /** A new handle, held by the caller.  It displaces the handle with the same key, and the cache shrinks:
        what else was in the cache stays, but for the oldest idle handles, no more of them than needed. */
    method Insert(key: Buffer, hash: nat, charge: nat) returns (h: nat, ghost was: Option<nat>, ghost gone: nat)
      requires Valid()
      modifies this, table
      ensures Valid() && h == old(next) && h !in old(entries) && entries == old(entries)[h := Entry(key, hash, charge)]
      ensures usage <= capacity || lru == []
      ensures InsertedParts(entries, h, was, gone, capacity, old(Now()), Now())
      ensures View() == Inserted(old(View()), Entry(key, hash, charge), capacity)
    {
      hide LruCache.Valid;
      hide Fit;
      hide Published;
      hide Made;
      hide Replaces;
      hide ClientsLeft;
      hide Evicted;
      hide InsertedParts;
      ViewIsDefined();
      NextIsNew();
      was := None;
      ghost var before := Now();
      h := AddHandle(key, hash, charge);
      ghost var made := Now();
      if capacity > 0 {
        was := Publish(h);
      }
      ghost var mid := Now();
      gone := Shrink();
      PartsInserted(entries, h, was, gone, capacity, before, mid, Now());
    }

    lemma NextIsNew()
      requires Valid()
      ensures next !in entries && next !in cached && cached <= clients.Keys <= entries.Keys
    {
    }

    method AddHandle(key: Buffer, hash: nat, charge: nat) returns (h: nat)
      requires Valid()
      modifies `next, `entries, `refs, `clients
      ensures Valid() && h == old(next) && h !in old(entries) && entries == old(entries)[h := Entry(key, hash, charge)]
      ensures h in refs && h !in cached && clients == old(clients)[h := 1]
      ensures View() == Made(old(View()), Entry(key, hash, charge))
    {
      hide ListsOk;
      hide BucketsOk;
      hide RefsOk;
      hide DeletedOnce;
      ViewIsDefined();
      NextIsNew();
      FoundGrows(entries, cached, next, Entry(key, hash, charge));
      h := next;
      var e := Entry(key, hash, charge);
      TableGrows(entries, h, e, table.ids, table.buckets);
      NewEntry(entries, refs, cached, lru, inUse, usage, h, e);
      NewRefs(entries, refs, cached, clients, deleted, h, e);
      NewHeld(entries[h := e], refs, cached, lru, inUse, usage, h);
      next := next + 1;
      entries, refs, clients := entries[h := e], refs[h := 1], clients[h := 1];
    }

    lemma OnlyHeld(h: nat)
      requires Valid() && h in clients && clients[h] == 1 && h !in cached
      ensures h in refs && refs[h] == 1 && cached <= clients.Keys && h !in table.ids
    {
    }

    /** The cache's own reference to a new handle. */
    method Keep(h: nat)
      requires RefsOk(refs, cached, clients) && DeletedOnce(entries, refs, deleted)
               && ListsOk(entries, refs, cached, lru, inUse, usage)
      requires h in refs && refs[h] == 1 && h !in cached && h in entries
      modifies `refs, `cached, `inUse, `usage
      ensures RefsOk(refs, cached, clients) && DeletedOnce(entries, refs, deleted)
              && ListsOk(entries, refs, cached, lru, inUse, usage)
      ensures cached == old(cached) + {h} && usage == old(usage) + entries[h].charge
    {
      hide ListsOk;
      NewCached(entries, refs, cached, lru, inUse, usage, h);
      refs := refs[h := refs[h] + 1];
      cached := cached + {h};
      inUse := inUse + [h];
      usage := usage + entries[h].charge;
    }

    ghost function Now(): Parts
      reads this
    {
      Parts(cached, clients, lru, deleted, usage)
    }

    /** The new handle takes the place of the one with its key, if there is one. */
    method Swap(h: nat) returns (ghost was: Option<nat>)
      requires Valid() && h in refs && h in clients && clients[h] == 1 && h !in cached && h in entries
      modifies this, table
      ensures Valid() && entries == old(entries) && next == old(next)
      ensures Replaces(entries, h, was, old(Now()), Now())
    {
      hide ChainOk;
      hide Keys;
      hide HandleTable.Valid;
      hide ListsOk;
      hide BucketsOk;
      hide RefsOk;
      hide DeletedOnce;
      hide Minus;
      hide Replaces;
      OnlyHeld(h);
      ghost var before := Now();
      Keep(h);
      var displaced := table.Insert(entries, h);
      was := displaced;
      if displaced.Some? {
        FinishErase(displaced.value);
        Replaced(entries, h, displaced.value, before, Now());
      } else {
        NothingReplaced(entries, h, before, Now());
      }
    }

    method Publish(h: nat) returns (ghost was: Option<nat>)
      requires Valid() && h in refs && h in clients && clients[h] == 1 && h !in cached && h in entries
      modifies this, table
      ensures Valid() && entries == old(entries) && next == old(next)
      ensures Replaces(entries, h, was, old(Now()), Now())
      ensures View() == Published(old(View()), h)
    {
      hide LruCache.Valid;
      hide Found;
      hide KeysDiffer;
      hide Published;
      hide Replaces;
      ViewIsDefined();
      AllAlive();
      ghost var view := View();
      was := Swap(h);
      ViewIsDefined();
      PublishView(view, old(cached), h, was, Now());
    }

    lemma NotIdle(h: nat)
      requires Valid() && h in refs && refs[h] != 1
      ensures Minus(lru, h) == lru
    {
      MinusNothing(lru, h);
    }
  }

  lemma {:induction false} MinusFirst(s: seq<nat>)
    requires NoRepeat(s) && s != []
    ensures Minus(s, s[0]) == s[1..]
  {
    var n := |s| - 1;
    if n > 0 {
      MinusFirst(s[..n]);
      assert s[1..] == s[..n][1..] + [s[n]];
    }
  }

  lemma {:induction false} MinusNothing(s: seq<nat>, h: nat)
    requires h !in s
    ensures Minus(s, h) == s
  {
    if s != [] {
      MinusNothing(s[..|s| - 1], h);
      assert s == s[..|s| - 1] + [s[|s| - 1]];
    }
  }

  // ---------- sequences of calls ----------

  method Perform(cache: LruCache, call: Call) returns (answer: Option<nat>)
    requires cache.Valid() && Allowed(cache.View(), call)
    modifies cache, cache.table
    ensures cache.Valid() && answer == Answer(old(cache.View()), call)
    ensures cache.View() == Step(old(cache.View()), call, cache.capacity)
  {
    hide LruCache.Valid;
    hide InsertedParts;
    hide Inserted;
    hide Pruned;
    hide Erased;
    hide Released;
    hide LookedUp;
    answer := None;
    match call
    case Insert(key, hash, charge) =>
      var h;
      ghost var was, gone;
      h, was, gone := cache.Insert(key, hash, charge);
      answer := Some(h);
    case Lookup(key, hash) =>
      answer := cache.Lookup(key, hash);
    case Release(h) =>
      cache.Release(h);
    case Erase(key, hash) =>
      ghost var was := cache.Erase(key, hash);
    case Prune =>
      cache.Prune();
  }

  /** Any sequence of calls gives the answers of the plain cache and leaves its state behind, provided that
      clients release only what they hold: the hash table agrees with the plain map, also when it grows, idle
      handles are evicted least recently released first, and every deleter runs exactly once. */
  method Drive(cache: LruCache, calls: seq<Call>) returns (answers: seq<Option<nat>>)
    requires cache.Valid() && After(cache.View(), calls, cache.capacity, |calls|).Some?
    modifies cache, cache.table
    ensures cache.Valid() && DeletedOnce(cache.entries, cache.refs, cache.deleted)
    ensures After(old(cache.View()), calls, cache.capacity, |calls|) == Some(cache.View())
    ensures answers == Answers(old(cache.View()), calls, cache.capacity, |calls|)
  {
    hide Step;
    hide Answer;
    hide LruCache.View;
    answers := [];
    for i := 0 to |calls|
      invariant cache.Valid() && After(old(cache.View()), calls, cache.capacity, i) == Some(cache.View())
      invariant answers == Answers(old(cache.View()), calls, cache.capacity, i)
    {
      AfterEarlier(old(cache.View()), calls, cache.capacity, i + 1, |calls|);
      var answer := Perform(cache, calls[i]);
      answers := answers + [answer];
    }
  }
}
