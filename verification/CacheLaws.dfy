/** What the plain cache of `PlainCaches` promises its clients, told by the calls they make: a handle stays as long as
    it is held, is found until its key is inserted or erased again, and is given up for room only when nobody holds it,
    longest released first. */
module CacheLaws {
  import opened Options
  import opened HandleTables
  import opened PlainCaches
  import opened LruCaches

  const NOTHING: Plain := Plain(map[], map[], map[], [], [], 0, 0)

  /** How often clients hold a handle. */
  function HeldOf(s: Plain, h: nat): nat { if h in s.held then s.held[h] else 0 }

  /** What the handles below `n` that are in the map are charged. */
  function ChargedBelow(s: Plain, n: nat): nat {
    if n == 0 then 0 else ChargedBelow(s, n - 1) + if InMap(s, n - 1) then s.entries[n - 1].charge else 0
  }

  ghost predicate HandlesOk(s: Plain) {
    (forall h: nat :: h in s.entries <==> h < s.next) && forall h :: h in s.held ==> h in s.entries
  }

  ghost predicate FoundOk(s: Plain) {
    forall k :: k in s.found ==>
      s.found[k] in s.held && s.found[k] in s.entries && KeyOf(s.entries[s.found[k]]) == k
  }

  /** Idle handles are those in the map that nobody holds; a handle outside the map lives only while it is held. */
  ghost predicate IdleOk(s: Plain) {
    && NoRepeat(s.idle) && (forall h :: h in s.idle <==> h in s.held && s.held[h] == 0)
    && (forall h :: h in s.held && s.held[h] == 0 ==> InMap(s, h))
  }

  /** The deleter has run, once, for every handle that is gone. */
  ghost predicate DeletedOk(s: Plain) {
    NoRepeat(s.deleted) && forall h :: h in s.deleted <==> h in s.entries && h !in s.held
  }

  ghost predicate UsageOk(s: Plain) { s.usage == ChargedBelow(s, s.next) }

  ghost predicate Sane(s: Plain) { HandlesOk(s) && FoundOk(s) && IdleOk(s) && DeletedOk(s) && UsageOk(s) }

  /** Handles leave the map, and nothing else changes that a client could see. */
  ghost predicate Lost(s: Plain, t: Plain, gone: set<nat>) {
    && t.entries == s.entries && t.next == s.next
    && (forall h :: InMap(t, h) <==> InMap(s, h) && h !in gone)
    && (forall h :: HeldOf(t, h) == HeldOf(s, h))
  }

  // ---------- lists ----------

  /** The first of the list leaves the others as they are. */
  lemma {:induction false} MinusFirst(s: seq<nat>)
    requires NoRepeat(s) && s != []
    ensures Minus(s, s[0]) == s[1..]
  {
    var n := |s| - 1;
    if n == 0 {
      assert s[..0] == [];
    } else {
      assert s[..n][0] == s[0] && s[n] != s[0];
      MinusFirst(s[..n]);
      assert s[..n][1..] + [s[n]] == s[1..];
    }
  }

  lemma {:induction false} MinusNone(s: seq<nat>, h: nat)
    requires h !in s
    ensures Minus(s, h) == s
  {
    if s != [] {
      var n := |s| - 1;
      assert s == s[..n] + [s[n]];
      MinusNone(s[..n], h);
    }
  }

  lemma {:induction false} ChargedSame(s: Plain, t: Plain, n: nat)
    requires forall g: nat :: g < n ==> (InMap(s, g) <==> InMap(t, g))
    requires forall g: nat :: g < n && InMap(s, g) && InMap(t, g) ==> s.entries[g] == t.entries[g]
    ensures ChargedBelow(t, n) == ChargedBelow(s, n)
  {
    if n > 0 { ChargedSame(s, t, n - 1); }
  }

  /** One handle more or less in the map. */
  lemma {:induction false} ChargedLess(s: Plain, t: Plain, h: nat, n: nat)
    requires h < n && InMap(s, h) && !InMap(t, h) && s.entries == t.entries
    requires forall g: nat :: g < n && g != h ==> (InMap(s, g) <==> InMap(t, g))
    ensures ChargedBelow(s, n) == ChargedBelow(t, n) + s.entries[h].charge
  {
    if h < n - 1 { ChargedLess(s, t, h, n - 1); } else { ChargedSame(s, t, n - 1); }
  }

  // ---------- leaving the map ----------

  lemma DropSane(s: Plain, h: nat)
    requires Sane(s) && InMap(s, h)
    ensures Sane(Drop(s, h)) && Lost(s, Drop(s, h), {h}) && Drop(s, h).idle == Minus(s.idle, h)
    ensures Drop(s, h).usage == s.usage - s.entries[h].charge
    ensures h in s.held && Drop(s, h).deleted == if s.held[h] == 0 then s.deleted + [h] else s.deleted
  {
    DropLoses(s, h);
    DropIdle(s, h);
    DropDeleted(s, h);
    DropUsage(s, h);
    hide IdleOk;
    hide DeletedOk;
    hide UsageOk;
  }

  lemma DropLoses(s: Plain, h: nat)
    requires HandlesOk(s) && FoundOk(s) && IdleOk(s) && InMap(s, h)
    ensures Lost(s, Drop(s, h), {h}) && FoundOk(Drop(s, h)) && HandlesOk(Drop(s, h)) && h in s.held
  {
    hide Minus;
  }

  lemma DropIdle(s: Plain, h: nat)
    requires HandlesOk(s) && FoundOk(s) && IdleOk(s) && InMap(s, h) && Lost(s, Drop(s, h), {h})
    ensures IdleOk(Drop(s, h))
  {
    MinusHolds(s.idle, h);
    hide Minus;
    hide Lost;
    var t := Drop(s, h);
    forall g | g in t.held && t.held[g] == 0 ensures InMap(t, g) { assert InMap(s, g) && g != h; }
  }

  lemma DropDeleted(s: Plain, h: nat)
    requires HandlesOk(s) && DeletedOk(s) && InMap(s, h) && h in s.held
    ensures DeletedOk(Drop(s, h))
  {
    if s.held[h] == 0 { LastIsNew(s.deleted, h); }
  }

  lemma DropUsage(s: Plain, h: nat)
    requires HandlesOk(s) && UsageOk(s) && InMap(s, h) && Lost(s, Drop(s, h), {h})
    ensures UsageOk(Drop(s, h))
  {
    ChargedLess(s, Drop(s, h), h, s.next);
  }

  lemma IdleInMap(s: Plain)
    requires Sane(s) && s.idle != []
    ensures InMap(s, s.idle[0]) && s.held[s.idle[0]] == 0 && s.idle[0] in s.entries
  {
    hide ChargedBelow;
    assert s.idle[0] in s.idle;
  }

  lemma LostMore(s: Plain, t: Plain, u: Plain, h: nat, gone: set<nat>)
    requires Lost(s, t, {h}) && Lost(t, u, gone)
    ensures Lost(s, u, {h} + gone)
  {
  }

  ghost function Handles(s: seq<nat>): set<nat> { set h | h in s }

  /** Making room gives up the longest idle handles, no more than needed, and stops when the rest fits or nothing is
      idle. */
  lemma {:induction false} FitEvicts(s: Plain, capacity: nat) returns (m: nat)
    requires Sane(s)
    ensures m <= |s.idle|
    ensures var t := Fit(s, capacity);
            && Sane(t) && Lost(s, t, Handles(s.idle[..m])) && t.idle == s.idle[m..]
            && t.deleted == s.deleted + s.idle[..m]
            && (t.usage <= capacity || t.idle == [])
            && (m == 0 ==> t == s)
            && (m > 0 ==> s.idle[m - 1] in s.entries && t.usage + s.entries[s.idle[m - 1]].charge > capacity)
    decreases |s.idle|
  {
    hide Sane;
    hide Lost;
    hide Drop;
    hide Minus;
    hide InMap;
    hide HeldOf;
    if s.usage <= capacity || s.idle == [] {
      m := 0;
      NothingLost(s);
      assert s.idle[..0] == [] && s.deleted + [] == s.deleted;
    } else {
      var h := s.idle[0];
      IdleInMap(s);
      DropSane(s, h);
      IdleOnce(s);
      MinusFirst(s.idle);
      var t := Drop(s, h);
      var k := FitEvicts(t, capacity);
      m := k + 1;
      LostMore(s, t, Fit(t, capacity), h, Handles(t.idle[..k]));
      assert s.idle[..m] == [h] + t.idle[..k];
      assert {h} + Handles(t.idle[..k]) == Handles(s.idle[..m]);
      SameEntries(s, t, h);
    }
  }

  lemma NothingLost(s: Plain)
    ensures Lost(s, s, Handles([]))
  {
  }

  lemma SameEntries(s: Plain, t: Plain, h: nat)
    requires Lost(s, t, {h})
    ensures t.entries == s.entries
  {
  }

  lemma IdleOnce(s: Plain)
    requires Sane(s)
    ensures NoRepeat(s.idle)
  {
  }

  lemma {:induction false} PrunedLoses(s: Plain)
    requires Sane(s)
    ensures var t := Pruned(s);
            Sane(t) && Lost(s, t, Handles(s.idle)) && t.idle == [] && t.deleted == s.deleted + s.idle
    decreases |s.idle|
  {
    hide Sane;
    hide Lost;
    hide Drop;
    hide Minus;
    hide InMap;
    hide HeldOf;
    if s.idle == [] {
      NothingLost(s);
      assert s.deleted + [] == s.deleted;
    } else {
      var h := s.idle[0];
      IdleInMap(s);
      DropSane(s, h);
      IdleOnce(s);
      MinusFirst(s.idle);
      var t := Drop(s, h);
      PrunedLoses(t);
      LostMore(s, t, Pruned(t), h, Handles(t.idle));
      assert s.idle == [h] + t.idle;
      assert {h} + Handles(t.idle) == Handles(s.idle);
    }
  }

  // ---------- the other changes ----------

  lemma MadeSane(s: Plain, e: Entry)
    requires Sane(s)
    ensures var t := Made(s, e);
            && Sane(t) && !InMap(t, s.next) && HeldOf(t, s.next) == 1 && t.idle == s.idle && t.found == s.found
            && s.next !in s.held && t.entries == s.entries[s.next := e] && t.held == s.held[s.next := 1]
            && t.next == s.next + 1
    ensures !InMap(s, s.next) && forall h: nat :: InMap(Made(s, e), h) <==> InMap(s, h)
  {
    MadeMap(s, e);
    MadeUsage(s, e);
    hide UsageOk;
    hide NoRepeat;
    hide InMap;
    forall g | g in Made(s, e).held && Made(s, e).held[g] == 0 ensures InMap(Made(s, e), g) { assert InMap(s, g); }
  }

  lemma MadeMap(s: Plain, e: Entry)
    requires HandlesOk(s) && FoundOk(s)
    ensures FoundOk(Made(s, e)) && HandlesOk(Made(s, e)) && s.next !in s.held
    ensures forall h: nat :: InMap(Made(s, e), h) <==> InMap(s, h)
    ensures !InMap(s, s.next)
  {
    assert KeyOf(e) in s.found ==> s.found[KeyOf(e)] in s.entries;
  }

  lemma MadeUsage(s: Plain, e: Entry)
    requires HandlesOk(s) && FoundOk(s) && UsageOk(s)
    ensures UsageOk(Made(s, e))
  {
    var t := Made(s, e);
    MadeMap(s, e);
    ChargedSame(s, t, s.next);
    hide ChargedBelow;
    OneMore(t, s.next);
  }

  lemma OneMore(s: Plain, n: nat)
    ensures ChargedBelow(s, n + 1) == ChargedBelow(s, n) + if InMap(s, n) then s.entries[n].charge else 0
  {
  }

  /** A handle enters the map under a key that is free. */
  function Attached(s: Plain, h: nat): Plain
    requires h in s.entries
  {
    s.(found := s.found[KeyOf(s.entries[h]) := h], usage := s.usage + s.entries[h].charge)
  }

  lemma AttachSane(s: Plain, h: nat)
    requires Sane(s) && h in s.entries && h in s.held && s.held[h] > 0 && KeyOf(s.entries[h]) !in s.found
    ensures Sane(Attached(s, h)) && forall g :: InMap(Attached(s, h), g) <==> InMap(s, g) || g == h
  {
    var t := Attached(s, h);
    AttachUsage(s, h);
    hide UsageOk;
    forall g | g in t.held && t.held[g] == 0 ensures InMap(t, g) { assert InMap(s, g); }
  }

  lemma AttachUsage(s: Plain, h: nat)
    requires HandlesOk(s) && UsageOk(s) && h in s.entries && KeyOf(s.entries[h]) !in s.found
    ensures UsageOk(Attached(s, h))
  {
    ChargedLess(Attached(s, h), s, h, s.next);
  }

  lemma LookedUpSane(s: Plain, key: Key)
    requires Sane(s)
    ensures Sane(LookedUp(s, key)) && Looked(s, key).Some? == (key in s.found)
    ensures forall h: nat :: HeldOf(LookedUp(s, key), h) == HeldOf(s, h) + if Looked(s, key) == Some(h) then 1 else 0
  {
    LookedUpHeld(s, key);
    hide HeldOf;
    if key in s.found {
      var h, t := s.found[key], LookedUp(s, key);
      LookedUpIdle(s, key);
      ChargedSame(s, t, s.next);
      hide IdleOk;
      hide ChargedBelow;
      hide NoRepeat;
      hide Minus;
    }
  }

  lemma LookedUpHeld(s: Plain, key: Key)
    requires FoundOk(s)
    ensures forall h: nat :: HeldOf(LookedUp(s, key), h) == HeldOf(s, h) + if Looked(s, key) == Some(h) then 1 else 0
  {
  }

  lemma LookedUpIdle(s: Plain, key: Key)
    requires FoundOk(s) && IdleOk(s) && key in s.found
    ensures IdleOk(LookedUp(s, key))
  {
    var t := LookedUp(s, key);
    MinusHolds(s.idle, s.found[key]);
    hide Minus;
    hide NoRepeat;
    hide KeyOf;
    forall g | g in t.held && t.held[g] == 0 ensures InMap(t, g) { assert InMap(s, g); }
  }

  lemma ReleasedSane(s: Plain, h: nat)
    requires Sane(s) && h in s.held && s.held[h] > 0
    ensures Sane(Released(s, h)) && Released(s, h).found == s.found
    ensures forall g: nat :: HeldOf(Released(s, h), g) == HeldOf(s, g) - if g == h then 1 else 0
  {
    ReleasedLists(s, h);
    ReleasedMap(s, h);
    ChargedSame(s, Released(s, h), s.next);
    hide ChargedBelow;
    hide IdleOk;
    hide DeletedOk;
    hide HandlesOk;
    hide FoundOk;
    hide InMap;
    hide HeldOf;
  }

  lemma ReleasedMap(s: Plain, h: nat)
    requires HandlesOk(s) && FoundOk(s) && h in s.held && s.held[h] > 0
    ensures HandlesOk(Released(s, h)) && FoundOk(Released(s, h)) && Released(s, h).found == s.found
    ensures Released(s, h).entries == s.entries && Released(s, h).usage == s.usage && Released(s, h).next == s.next
    ensures forall g: nat :: InMap(Released(s, h), g) <==> InMap(s, g)
    ensures forall g: nat :: HeldOf(Released(s, h), g) == HeldOf(s, g) - if g == h then 1 else 0
  {
  }

  lemma ReleasedLists(s: Plain, h: nat)
    requires HandlesOk(s) && FoundOk(s) && IdleOk(s) && DeletedOk(s) && h in s.held && s.held[h] > 0
    ensures IdleOk(Released(s, h)) && DeletedOk(Released(s, h))
  {
    var t := Released(s, h);
    if s.held[h] == 1 {
      if InMap(s, h) { LastIsNew(s.idle, h); } else { LastIsNew(s.deleted, h); }
    }
    hide NoRepeat;
    forall g | g in t.held && t.held[g] == 0 ensures InMap(t, g) { assert g != h ==> InMap(s, g); }
  }

  lemma ErasedSane(s: Plain, key: Key)
    requires Sane(s)
    ensures var t := Erased(s, key);
            && Sane(t) && Lost(s, t, if key in s.found then {s.found[key]} else {}) && key !in t.found
            && t.idle == if key in s.found then Minus(s.idle, s.found[key]) else s.idle
  {
    hide UsageOk;
    hide DeletedOk;
    if key in s.found { DropSane(s, s.found[key]); }
  }

  /** Inserting, up to the point where room is made. */
  function Entered(s: Plain, e: Entry, capacity: nat): Plain {
    if capacity > 0 then Published(Made(s, e), s.next) else Made(s, e)
  }

  lemma EnteredSane(s: Plain, e: Entry, capacity: nat)
    requires Sane(s)
    ensures Sane(Entered(s, e, capacity)) && Inserted(s, e, capacity) == Fit(Entered(s, e, capacity), capacity)
    ensures var t, key := Entered(s, e, capacity), KeyOf(e);
            && t.entries == s.entries[s.next := e] && t.next == s.next + 1
            && (forall h: nat :: HeldOf(t, h) == HeldOf(s, h) + if h == s.next then 1 else 0)
            && (if capacity > 0 then key in t.found && t.found[key] == s.next else !InMap(t, s.next))
            && (forall h: nat :: h != s.next ==>
                  (InMap(t, h) <==> InMap(s, h) && !(capacity > 0 && key in s.found && s.found[key] == h)))
            && t.idle == if capacity > 0 && key in s.found then Minus(s.idle, s.found[key]) else s.idle
  {
    MadeSane(s, e);
    hide Sane;
    hide Minus;
    hide Fit;
    hide Drop;
    hide InMap;
    hide HeldOf;
    hide Published;
    HeldOnceMore(s, e);
    if capacity > 0 { PublishedSane(Made(s, e), s.next); }
  }

  lemma HeldOnceMore(s: Plain, e: Entry)
    requires s.next !in s.held
    ensures forall h: nat :: HeldOf(Made(s, e), h) == HeldOf(s, h) + if h == s.next then 1 else 0
  {
  }

  lemma PublishedSane(s: Plain, h: nat)
    requires Sane(s) && h in s.entries && !InMap(s, h) && HeldOf(s, h) == 1
    ensures var t, key := Published(s, h), KeyOf(s.entries[h]);
            && Sane(t) && t.entries == s.entries && t.next == s.next && key in t.found && t.found[key] == h
            && (forall g: nat :: HeldOf(t, g) == HeldOf(s, g))
            && (forall g: nat :: g != h ==> (InMap(t, g) <==> InMap(s, g) && !(key in s.found && s.found[key] == g)))
            && t.idle == if key in s.found then Minus(s.idle, s.found[key]) else s.idle
  {
    var key := KeyOf(s.entries[h]);
    ErasedSane(s, key);
    var u := Erased(s, key);
    hide Minus;
    hide Drop;
    hide Erased;
    StillHeld(s, u, h);
    hide Sane;
    AttachSane(u, h);
    assert Published(s, h) == Attached(u, h);
  }

  lemma StillHeld(s: Plain, t: Plain, h: nat)
    requires Sane(s) && Sane(t) && HeldOf(t, h) == HeldOf(s, h) == 1 && t.entries == s.entries
    ensures h in t.held && t.held[h] > 0 && h in t.entries
  {
    hide UsageOk;
    hide DeletedOk;
  }

  // ---------- what one call does ----------

  /** The call takes the key away from whoever has it in the map. */
  predicate Renames(call: Call, capacity: nat, key: Key) {
    match call
    case Insert(k, hash, _) => capacity > 0 && (k, hash) == key
    case Erase(k, hash) => (k, hash) == key
    case _ => false
  }

  /** What a call changes: counts go by what was handed out and given back; only its own key is taken from a handle
      that is held; the map gains nothing but a new handle; and nothing that is gone comes back. */
  ghost predicate Changes(s: Plain, call: Call, capacity: nat, t: Plain)
    requires Allowed(s, call)
  {
    && (forall h: nat :: HeldOf(t, h) ==
          HeldOf(s, h) + (if Answer(s, call) == Some(h) then 1 else 0) - if call == Release(h) then 1 else 0)
    && (forall h: nat :: h in s.entries ==> h in t.entries && t.entries[h] == s.entries[h])
    && (forall h: nat :: InMap(t, h) ==>
          || (InMap(s, h) && !Renames(call, capacity, KeyOf(s.entries[h])))
          || (call.Insert? && capacity > 0 && h == s.next))
    && (forall h: nat ::
          InMap(s, h) && HeldOf(s, h) > 0 && !Renames(call, capacity, KeyOf(s.entries[h])) ==> InMap(t, h))
    && (call.Insert? ==> s.next !in s.entries && s.next in t.entries &&
                         t.entries[s.next] == Entry(call.key, call.hash, call.charge))
    && (call.Insert? && capacity > 0 ==> InMap(t, s.next))
    && (call.Lookup? ==> forall h: nat :: InMap(t, h) <==> InMap(s, h))
    && (forall h :: h in t.entries ==> h in s.entries || (call.Insert? && h == s.next))
    && (forall h :: h in s.deleted ==> h in t.deleted)
  }

  lemma InsertChanges(s: Plain, call: Call, capacity: nat)
    requires Sane(s) && call.Insert?
    ensures Sane(Step(s, call, capacity)) && Changes(s, call, capacity, Step(s, call, capacity))
  {
    hide Sane;
    hide Fit;
    hide Entered;
    hide InMap;
    hide HeldOf;
    hide Minus;
    hide Lost;
    hide Changes;
    var e := Entry(call.key, call.hash, call.charge);
    EnteredSane(s, e, capacity);
    var u := Entered(s, e, capacity);
    var m := FitEvicts(u, capacity);
    var t := Fit(u, capacity);
    assert Step(s, call, capacity) == t;
    NewIsNone(s);
    IdleHeldByNone(u, m);
    EnteredDeleted(s, e, capacity);
    EnteredNew(u, s.next, KeyOf(e), capacity);
    KeysFound(s, KeyOf(e));
    EnteredThenLost(s, call, capacity, u, t, Handles(u.idle[..m]));
  }

  /** Who a key finds is in the map under it. */
  lemma KeysFound(s: Plain, key: Key)
    requires Sane(s)
    ensures forall h: nat :: InMap(s, h) ==>
              h in s.entries && (KeyOf(s.entries[h]) == key <==> key in s.found && s.found[key] == h)
  {
    hide UsageOk;
  }

  lemma EnteredThenLost(s: Plain, call: Call, capacity: nat, u: Plain, t: Plain, gone: set<nat>)
    requires call.Insert? && Lost(u, t, gone) && s.next !in s.entries && HeldOf(s, s.next) == 0 && !InMap(s, s.next)
    requires u.entries == s.entries[s.next := Entry(call.key, call.hash, call.charge)]
    requires forall h: nat :: HeldOf(u, h) == HeldOf(s, h) + if h == s.next then 1 else 0
    requires forall h :: h in gone ==> HeldOf(u, h) == 0
    requires forall h :: h in s.deleted ==> h in t.deleted
    requires var key := (call.key, call.hash);
             && (capacity > 0 ==> InMap(u, s.next))
             && (forall h: nat :: InMap(s, h) ==>
                   h in s.entries && (KeyOf(s.entries[h]) == key <==> key in s.found && s.found[key] == h))
             && (forall h: nat :: h != s.next ==>
                   (InMap(u, h) <==> InMap(s, h) && !(capacity > 0 && key in s.found && s.found[key] == h)))
    requires capacity == 0 ==> !InMap(u, s.next)
    ensures Changes(s, call, capacity, t)
  {
    hide InMap;
    hide HeldOf;
  }

  lemma NewIsNone(s: Plain)
    requires Sane(s)
    ensures s.next !in s.entries && HeldOf(s, s.next) == 0 && !InMap(s, s.next)
  {
  }

  lemma IdleHeldByNone(s: Plain, m: nat)
    requires Sane(s) && m <= |s.idle|
    ensures forall h :: h in Handles(s.idle[..m]) ==> HeldOf(s, h) == 0
  {
    forall h | h in Handles(s.idle[..m]) ensures HeldOf(s, h) == 0 { assert h in s.idle; }
  }

  lemma EnteredDeleted(s: Plain, e: Entry, capacity: nat)
    requires Sane(s)
    ensures forall h :: h in s.deleted ==> h in Entered(s, e, capacity).deleted
  {
    hide UsageOk;
    hide Minus;
  }

  lemma EnteredNew(t: Plain, h: nat, key: Key, capacity: nat)
    requires h in t.entries && KeyOf(t.entries[h]) == key
    ensures capacity > 0 && key in t.found && t.found[key] == h ==> InMap(t, h)
  {
  }

  lemma EraseChanges(s: Plain, call: Call, capacity: nat)
    requires Sane(s) && call.Erase?
    ensures Sane(Step(s, call, capacity)) && Changes(s, call, capacity, Step(s, call, capacity))
  {
    var key := (call.key, call.hash);
    ErasedSane(s, key);
    ErasedDeleted(s, key);
    var t := Erased(s, key);
    assert Step(s, call, capacity) == t;
    hide Step;
    hide Erased;
    KeysFound(s, key);
    hide Sane;
    hide HeldOf;
    ErasedOnly(s, call, capacity, t, if key in s.found then {s.found[key]} else {});
  }

  lemma ErasedDeleted(s: Plain, key: Key)
    ensures forall h :: h in s.deleted ==> h in Erased(s, key).deleted
  {
  }

  lemma ErasedOnly(s: Plain, call: Call, capacity: nat, t: Plain, gone: set<nat>)
    requires call.Erase? && Lost(s, t, gone) && (call.key, call.hash) !in t.found
    requires forall h :: h in gone ==> h in s.entries && KeyOf(s.entries[h]) == (call.key, call.hash)
    requires forall h: nat :: InMap(s, h) ==> h in s.entries
    requires forall h :: h in s.deleted ==> h in t.deleted
    ensures Changes(s, call, capacity, t)
  {
    hide HeldOf;
  }

  lemma PruneChanges(s: Plain, call: Call, capacity: nat)
    requires Sane(s) && call.Prune?
    ensures Sane(Step(s, call, capacity)) && Changes(s, call, capacity, Step(s, call, capacity))
  {
    hide Pruned;
    hide Sane;
    hide HeldOf;
    hide InMap;
    hide Lost;
    hide Changes;
    PrunedLoses(s);
    assert s.idle[..|s.idle|] == s.idle;
    IdleHeldByNone(s, |s.idle|);
    KeysFound(s, ([], 0));
    var t := Pruned(s);
    assert Step(s, call, capacity) == t;
    OnlyLost(s, call, capacity, t, Handles(s.idle));
  }

  lemma OnlyLost(s: Plain, call: Call, capacity: nat, t: Plain, gone: set<nat>)
    requires call.Prune? && Lost(s, t, gone) && forall h :: h in gone ==> HeldOf(s, h) == 0
    requires forall h: nat :: InMap(s, h) ==> h in s.entries
    requires forall h :: h in s.deleted ==> h in t.deleted
    ensures Changes(s, call, capacity, t)
  {
    hide InMap;
    hide HeldOf;
  }

  lemma LookupChanges(s: Plain, call: Call, capacity: nat)
    requires Sane(s) && call.Lookup?
    ensures Sane(Step(s, call, capacity)) && Changes(s, call, capacity, Step(s, call, capacity))
  {
    LookedUpSane(s, (call.key, call.hash));
    hide Minus;
    hide UsageOk;
    hide HeldOf;
  }

  lemma ReleaseChanges(s: Plain, call: Call, capacity: nat)
    requires Sane(s) && call.Release? && Allowed(s, call)
    ensures Sane(Step(s, call, capacity)) && Changes(s, call, capacity, Step(s, call, capacity))
  {
    ReleasedSane(s, call.handle);
    ReleasedMap(s, call.handle);
    hide UsageOk;
    hide HeldOf;
  }

  lemma StepChanges(s: Plain, call: Call, capacity: nat)
    requires Sane(s) && Allowed(s, call)
    ensures Sane(Step(s, call, capacity)) && Changes(s, call, capacity, Step(s, call, capacity))
  {
    hide Sane;
    hide Changes;
    hide Step;
    match call
    case Insert(_, _, _) => InsertChanges(s, call, capacity);
    case Lookup(_, _) => LookupChanges(s, call, capacity);
    case Release(_) => ReleaseChanges(s, call, capacity);
    case Erase(_, _) => EraseChanges(s, call, capacity);
    case Prune => PruneChanges(s, call, capacity);
  }

  // ---------- any sequence of calls ----------

  /** A sequence in which clients release only what they hold. */
  predicate Legal(calls: seq<Call>, capacity: nat) { After(NOTHING, calls, capacity, |calls|).Some? }

  /** The cache after the first `n` calls. */
  function At(calls: seq<Call>, capacity: nat, n: nat): Plain
    requires Legal(calls, capacity) && n <= |calls|
  {
    AfterEarlier(NOTHING, calls, capacity, n, |calls|);
    After(NOTHING, calls, capacity, n).value
  }

  lemma AtNext(calls: seq<Call>, capacity: nat, n: nat)
    requires Legal(calls, capacity) && n < |calls|
    ensures Allowed(At(calls, capacity, n), calls[n])
    ensures At(calls, capacity, n + 1) == Step(At(calls, capacity, n), calls[n], capacity)
  {
    hide Step;
    hide Allowed;
    AfterEarlier(NOTHING, calls, capacity, n, |calls|);
    AfterEarlier(NOTHING, calls, capacity, n + 1, |calls|);
  }

  lemma NothingIsSane()
    ensures Sane(NOTHING)
  {
  }

  /** The parts fit together after every call, and each call changes what it should. */
  lemma {:induction false} AlwaysSane(calls: seq<Call>, capacity: nat, n: nat)
    requires Legal(calls, capacity) && n <= |calls|
    ensures Sane(At(calls, capacity, n))
    ensures n > 0 ==>
              && Allowed(At(calls, capacity, n - 1), calls[n - 1])
              && Changes(At(calls, capacity, n - 1), calls[n - 1], capacity, At(calls, capacity, n))
  {
    hide Sane;
    hide Changes;
    hide Step;
    hide Legal;
    hide Allowed;
    if n == 0 {
      NothingIsSane();
      StartsWithNothing(calls, capacity);
    } else {
      AlwaysSane(calls, capacity, n - 1);
      AtNext(calls, capacity, n - 1);
      StepChanges(At(calls, capacity, n - 1), calls[n - 1], capacity);
    }
  }

  lemma StartsWithNothing(calls: seq<Call>, capacity: nat)
    requires Legal(calls, capacity)
    ensures At(calls, capacity, 0) == NOTHING
  {
  }

  /** How often the handle was handed out, less how often it was given back. */
  function Owed(calls: seq<Call>, capacity: nat, n: nat, h: nat): int
    requires Legal(calls, capacity) && n <= |calls|
  {
    if n == 0 then 0
    else
      Owed(calls, capacity, n - 1, h)
      + (if Answer(At(calls, capacity, n - 1), calls[n - 1]) == Some(h) then 1 else 0)
      - if calls[n - 1] == Release(h) then 1 else 0
  }

  lemma {:induction false} CountsAreOwed(calls: seq<Call>, capacity: nat, n: nat, h: nat)
    requires Legal(calls, capacity) && n <= |calls|
    ensures HeldOf(At(calls, capacity, n), h) == Owed(calls, capacity, n, h)
  {
    hide Legal;
    hide At;
    hide Sane;
    hide Answer;
    if n == 0 {
      StartsWithNothing(calls, capacity);
    } else {
      CountsAreOwed(calls, capacity, n - 1, h);
      AlwaysSane(calls, capacity, n);
    }
  }

  /** A handle's deleter has run exactly if it was made, is not in the map, and was given back as often as it was
      handed out. */
  lemma DeletedWhenReturned(calls: seq<Call>, capacity: nat, n: nat, h: nat)
    requires Legal(calls, capacity) && n <= |calls|
    ensures var s := At(calls, capacity, n);
            NoRepeat(s.deleted) &&
            (h in s.deleted <==> h in s.entries && !InMap(s, h) && Owed(calls, capacity, n, h) == 0)
  {
    hide Legal;
    hide At;
    hide Owed;
    hide UsageOk;
    AlwaysSane(calls, capacity, n);
    hide Changes;
    CountsAreOwed(calls, capacity, n, h);
  }

  /** The handle that a key should find: the last one inserted under it, unless the key was erased since. */
  function Latest(calls: seq<Call>, capacity: nat, n: nat, key: Key): Option<nat>
    requires Legal(calls, capacity) && n <= |calls|
  {
    if n == 0 then None
    else
      match calls[n - 1]
      case Insert(k, hash, _) =>
        if (k, hash) == key then Some(At(calls, capacity, n - 1).next) else Latest(calls, capacity, n - 1, key)
      case Erase(k, hash) => if (k, hash) == key then None else Latest(calls, capacity, n - 1, key)
      case _ => Latest(calls, capacity, n - 1, key)
  }

  /** In the map are only latest handles, and of these all that are alive. */
  ghost predicate FindsLatest(calls: seq<Call>, capacity: nat, n: nat)
    requires Legal(calls, capacity) && n <= |calls|
  {
    var s := At(calls, capacity, n);
    forall h: nat :: h in s.entries ==>
      && (InMap(s, h) ==> capacity > 0 && Latest(calls, capacity, n, KeyOf(s.entries[h])) == Some(h))
      && (capacity > 0 && Latest(calls, capacity, n, KeyOf(s.entries[h])) == Some(h) && h in s.held ==> InMap(s, h))
  }

  lemma LatestNext(calls: seq<Call>, capacity: nat, n: nat, h: nat, s: Plain, t: Plain)
    requires Legal(calls, capacity) && n < |calls| && Sane(s) && Sane(t)
    requires s == At(calls, capacity, n) && t == At(calls, capacity, n + 1) && Allowed(s, calls[n])
    requires Changes(s, calls[n], capacity, t) && FindsLatest(calls, capacity, n) && h in t.entries
    ensures InMap(t, h) ==> capacity > 0 && Latest(calls, capacity, n + 1, KeyOf(t.entries[h])) == Some(h)
    ensures capacity > 0 && Latest(calls, capacity, n + 1, KeyOf(t.entries[h])) == Some(h) && h in t.held ==>
              InMap(t, h)
  {
    hide Legal;
    hide At;
    hide UsageOk;
    hide FoundOk;
    hide InMap;
    KeysFound(s, ([], 0));
    if h in s.entries {
      assert h in t.held ==> h in s.held;
    }
  }

  lemma {:induction false} AlwaysFindsLatest(calls: seq<Call>, capacity: nat, n: nat)
    requires Legal(calls, capacity) && n <= |calls|
    ensures FindsLatest(calls, capacity, n)
  {
    hide Legal;
    hide At;
    hide Sane;
    hide Changes;
    hide Latest;
    hide Allowed;
    hide InMap;
    if n == 0 {
      StartsWithNothing(calls, capacity);
    } else {
      AlwaysFindsLatest(calls, capacity, n - 1);
      AlwaysSane(calls, capacity, n - 1);
      AlwaysSane(calls, capacity, n);
      forall h: nat | h in At(calls, capacity, n).entries
        ensures var s := At(calls, capacity, n);
                && (InMap(s, h) ==> capacity > 0 && Latest(calls, capacity, n, KeyOf(s.entries[h])) == Some(h))
                && (capacity > 0 && Latest(calls, capacity, n, KeyOf(s.entries[h])) == Some(h) && h in s.held ==>
                      InMap(s, h))
      {
        LatestNext(calls, capacity, n - 1, h, At(calls, capacity, n - 1), At(calls, capacity, n));
      }
    }
  }

  /** A lookup never finds anything but the latest handle of its key, and it finds that one as long as someone holds
      it. */
  lemma LookupsFindLatest(calls: seq<Call>, capacity: nat, n: nat, key: Key, h: nat)
    requires Legal(calls, capacity) && n <= |calls|
    ensures var answer := Looked(At(calls, capacity, n), key);
            && (answer.Some? ==> answer == Latest(calls, capacity, n, key))
            && (capacity > 0 && Latest(calls, capacity, n, key) == Some(h) && Owed(calls, capacity, n, h) > 0 ==>
                  answer == Some(h))
  {
    hide Legal;
    hide At;
    hide Owed;
    AlwaysSane(calls, capacity, n);
    hide Changes;
    AlwaysFindsLatest(calls, capacity, n);
    CountsAreOwed(calls, capacity, n, h);
    LatestHasKey(calls, capacity, n, key);
    hide Latest;
    hide UsageOk;
    hide IdleOk;
    hide DeletedOk;
  }

  lemma {:induction false} LatestHasKey(calls: seq<Call>, capacity: nat, n: nat, key: Key)
    requires Legal(calls, capacity) && n <= |calls|
    ensures var s, latest := At(calls, capacity, n), Latest(calls, capacity, n, key);
            latest.Some? ==> latest.value in s.entries && KeyOf(s.entries[latest.value]) == key
  {
    hide Legal;
    hide At;
    hide Sane;
    if n > 0 {
      LatestHasKey(calls, capacity, n - 1, key);
      AlwaysSane(calls, capacity, n);
    }
  }

  // ---------- who is given up ----------

  /** The last call that gave the handle back; -1 if none did. */
  function LastRelease(calls: seq<Call>, n: nat, h: nat): int
    requires n <= |calls|
  {
    if n == 0 then -1 else if calls[n - 1] == Release(h) then n - 1 else LastRelease(calls, n - 1, h)
  }

  ghost predicate Longest(calls: seq<Call>, n: nat, idle: seq<nat>)
    requires n <= |calls|
  {
    && (forall i :: 0 <= i < |idle| ==> LastRelease(calls, n, idle[i]) < n)
    && (forall i, j :: 0 <= i < j < |idle| ==> LastRelease(calls, n, idle[i]) < LastRelease(calls, n, idle[j]))
  }

  lemma {:induction false} LongestMinus(calls: seq<Call>, n: nat, idle: seq<nat>, h: nat)
    requires n <= |calls| && Longest(calls, n, idle)
    ensures Longest(calls, n, Minus(idle, h)) && forall g :: g in Minus(idle, h) ==> g in idle
  {
    hide LastRelease;
    if idle != [] {
      var m := |idle| - 1;
      LongestMinus(calls, n, idle[..m], h);
      LongestAppend(calls, n, Minus(idle[..m], h), idle, m);
    }
  }

  lemma LongestAppend(calls: seq<Call>, n: nat, some: seq<nat>, idle: seq<nat>, m: nat)
    requires n <= |calls| && Longest(calls, n, idle) && m < |idle| && Longest(calls, n, some)
    requires forall g :: g in some ==> g in idle[..m]
    ensures Longest(calls, n, some + [idle[m]])
  {
    hide LastRelease;
    forall i | 0 <= i < |some| ensures LastRelease(calls, n, some[i]) < LastRelease(calls, n, idle[m]) {
      assert some[i] in idle[..m];
      var j :| 0 <= j < m && idle[..m][j] == some[i];
      assert idle[j] == some[i];
    }
  }

  lemma LongestPart(calls: seq<Call>, n: nat, idle: seq<nat>, m: nat)
    requires n <= |calls| && Longest(calls, n, idle) && m <= |idle|
    ensures Longest(calls, n, idle[m..])
  {
    hide LastRelease;
  }

  /** Another call does not matter to handles it does not give back. */
  lemma LongestLater(calls: seq<Call>, n: nat, idle: seq<nat>)
    requires n < |calls| && Longest(calls, n, idle)
    requires forall h :: h in idle ==> calls[n] != Release(h)
    ensures Longest(calls, n + 1, idle)
  {
  }

  /** The handle given back now comes last. */
  lemma LongestReleased(calls: seq<Call>, n: nat, idle: seq<nat>, h: nat)
    requires n < |calls| && Longest(calls, n, idle) && calls[n] == Release(h) && h !in idle
    ensures Longest(calls, n + 1, idle + [h])
  {
    LongestLater(calls, n, idle);
  }

  lemma IdleNotHeld(s: Plain, h: nat)
    requires Sane(s) && h in s.held && s.held[h] > 0
    ensures h !in s.idle
  {
    hide UsageOk;
  }

  lemma IdleNext(calls: seq<Call>, n: nat, s: Plain, capacity: nat)
    requires n < |calls| && Sane(s) && Longest(calls, n, s.idle) && Allowed(s, calls[n])
    ensures Longest(calls, n + 1, Step(s, calls[n], capacity).idle)
  {
    hide Longest;
    hide Minus;
    hide Fit;
    hide Pruned;
    hide Sane;
    match calls[n]
    case Insert(key, hash, charge) =>
      var e := Entry(key, hash, charge);
      EnteredSane(s, e, capacity);
      var u := Entered(s, e, capacity);
      if capacity > 0 && KeyOf(e) in s.found { LongestMinus(calls, n, s.idle, s.found[KeyOf(e)]); }
      var m := FitEvicts(u, capacity);
      LongestPart(calls, n, u.idle, m);
      LongestLater(calls, n, u.idle[m..]);
    case Lookup(key, hash) =>
      if (key, hash) in s.found { LongestMinus(calls, n, s.idle, s.found[(key, hash)]); }
      LongestLater(calls, n, LookedUp(s, (key, hash)).idle);
    case Release(h) =>
      IdleNotHeld(s, h);
      LongestReleased(calls, n, s.idle, h);
      OthersLater(calls, n, s.idle, h);
    case Erase(key, hash) =>
      ErasedSane(s, (key, hash));
      if (key, hash) in s.found { LongestMinus(calls, n, s.idle, s.found[(key, hash)]); }
      LongestLater(calls, n, Erased(s, (key, hash)).idle);
    case Prune =>
      PrunedLoses(s);
      NoneIdle(calls, n + 1);
  }

  lemma OthersLater(calls: seq<Call>, n: nat, idle: seq<nat>, h: nat)
    requires n < |calls| && Longest(calls, n, idle) && calls[n] == Release(h) && h !in idle
    ensures Longest(calls, n + 1, idle)
  {
    hide Longest;
    LongestLater(calls, n, idle);
  }

  lemma NoneIdle(calls: seq<Call>, n: nat)
    requires n <= |calls|
    ensures Longest(calls, n, [])
  {
  }

  /** Idle handles are listed in the order in which they were given back. */
  lemma {:induction false} IdleInOrder(calls: seq<Call>, capacity: nat, n: nat)
    requires Legal(calls, capacity) && n <= |calls|
    ensures Longest(calls, n, At(calls, capacity, n).idle)
  {
    hide Legal;
    hide Sane;
    hide Changes;
    hide Longest;
    hide Step;
    hide Allowed;
    if n == 0 {
      StartsWithNothing(calls, capacity);
      NoneIdle(calls, 0);
    } else {
      IdleInOrder(calls, capacity, n - 1);
      AlwaysSane(calls, capacity, n - 1);
      AtNext(calls, capacity, n - 1);
      IdleNext(calls, n - 1, At(calls, capacity, n - 1), capacity);
    }
  }

  /** Inserting gives up, besides the handle with its key, only handles that nobody holds, those given back longest
      ago, until the rest fits or nobody else is idle, and not one more than that takes. */
  lemma EvictsLongestIdle(calls: seq<Call>, capacity: nat, n: nat, h: nat, g: nat)
    requires Legal(calls, capacity) && n < |calls| && calls[n].Insert?
    ensures var s, t := At(calls, capacity, n), At(calls, capacity, n + 1);
            var key := (calls[n].key, calls[n].hash);
            && (t.usage <= capacity || t.idle == [])
            && (InMap(s, h) && !InMap(t, h) && KeyOf(s.entries[h]) != key ==>
                  && h in s.idle
                  && (g in t.idle ==> LastRelease(calls, n, h) < LastRelease(calls, n, g))
                  && exists last :: last in s.idle && last in s.entries && !InMap(t, last) &&
                                    t.usage + s.entries[last].charge > capacity)
  {
    hide Legal;
    AlwaysSane(calls, capacity, n);
    IdleInOrder(calls, capacity, n);
    AtNext(calls, capacity, n);
    hide At;
    hide Changes;
    hide Sane;
    hide Minus;
    hide Fit;
    hide Longest;
    hide Entered;
    hide InMap;
    hide Lost;
    var s, e := At(calls, capacity, n), Entry(calls[n].key, calls[n].hash, calls[n].charge);
    EnteredSane(s, e, capacity);
    var u := Entered(s, e, capacity);
    if capacity > 0 && KeyOf(e) in s.found { LongestMinus(calls, n, s.idle, s.found[KeyOf(e)]); }
    var m := FitEvicts(u, capacity);
    assert At(calls, capacity, n + 1) == Fit(u, capacity);
    if InMap(s, h) && !InMap(Fit(u, capacity), h) && KeyOf(s.entries[h]) != KeyOf(e) {
      KeysFound(s, KeyOf(e));
      NewIsNone(s);
      Evicted(calls, n, s, u, Fit(u, capacity), m, h, g);
    }
  }

  lemma Evicted(calls: seq<Call>, n: nat, s: Plain, u: Plain, t: Plain, m: nat, h: nat, g: nat)
    requires n <= |calls| && Longest(calls, n, u.idle) && m <= |u.idle| && Lost(u, t, Handles(u.idle[..m]))
    requires t.idle == u.idle[m..] && InMap(u, h) && !InMap(t, h)
    ensures h in u.idle && m > 0 && !InMap(t, u.idle[m - 1]) && u.idle[m - 1] in u.idle
    ensures g in t.idle ==> LastRelease(calls, n, h) < LastRelease(calls, n, g)
  {
    hide LastRelease;
    hide InMap;
    assert h in u.idle[..m];
    var i :| 0 <= i < m && u.idle[..m][i] == h;
    assert u.idle[i] == h;
    assert u.idle[m - 1] in u.idle[..m];
    if g in t.idle {
      var j :| 0 <= j < |t.idle| && t.idle[j] == g;
      assert u.idle[m + j] == g;
    }
  }
}
