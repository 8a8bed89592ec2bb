/** What a cache is for: a plain map from keys to handles, reference counts that clients hold, and the handles
    nobody holds, least recently released first.  `LruCaches` refines this. */
module PlainCaches {
  import opened Options
  import opened Coding
  import opened HandleTables

  type Key = (Buffer, nat)

  datatype Plain = Plain(
    entries: Entries,        // all handles ever made
    found: map<Key, nat>,
    held: map<nat, nat>,     // references of clients, for the handles alive
    idle: seq<nat>,          // in the map and held by nobody, least recently released first
    deleted: seq<nat>,       // handles whose deleter has run, in order
    usage: int,              // what the handles in the map are charged
    next: nat)

  function KeyOf(e: Entry): Key { (e.key, e.hash) }

  /** Taking a handle out of a list it may be on. */
  function Minus(s: seq<nat>, h: nat): seq<nat> {
    if s == [] then [] else Minus(s[..|s| - 1], h) + if s[|s| - 1] == h then [] else [s[|s| - 1]]
  }

  lemma {:induction false} MinusShorter(s: seq<nat>, h: nat)
    ensures |Minus(s, h)| <= |s| && (h in s ==> |Minus(s, h)| < |s|)
  {
    if s != [] {
      MinusShorter(s[..|s| - 1], h);
      assert s == s[..|s| - 1] + [s[|s| - 1]];
    }
  }

  predicate InMap(s: Plain, h: nat) {
    h in s.entries && KeyOf(s.entries[h]) in s.found && s.found[KeyOf(s.entries[h])] == h
  }

  /** A handle leaves the map; if no client holds it, its deleter runs. */
  function Drop(s: Plain, h: nat): Plain
    requires h in s.entries
  {
    var t := s.(found := s.found - {KeyOf(s.entries[h])}, idle := Minus(s.idle, h),
        usage := s.usage - s.entries[h].charge);
    if h in s.held && s.held[h] == 0 then t.(held := s.held - {h}, deleted := s.deleted + [h]) else t
  }

  /** Evict the least recently released handles until the rest fits, or nothing is idle. */
  function Fit(s: Plain, capacity: nat): Plain
    decreases |s.idle|
  {
    if s.usage <= capacity || s.idle == [] || s.idle[0] !in s.entries then s
    else
      MinusShorter(s.idle, s.idle[0]);
      Fit(Drop(s, s.idle[0]), capacity)
  }

  function Pruned(s: Plain): Plain
    decreases |s.idle|
  {
    if s.idle == [] || s.idle[0] !in s.entries then s
    else
      MinusShorter(s.idle, s.idle[0]);
      Pruned(Drop(s, s.idle[0]))
  }

  function Erased(s: Plain, key: Key): Plain {
    if key in s.found && s.found[key] in s.entries then Drop(s, s.found[key]) else s
  }

  /** The map's entry for the key of `h` becomes `h`. */
  function Published(s: Plain, h: nat): Plain
    requires h in s.entries
  {
    var key := KeyOf(s.entries[h]);
    var t := Erased(s, key);
    t.(found := t.found[key := h], usage := t.usage + s.entries[h].charge)
  }

  function Made(s: Plain, e: Entry): Plain {
    s.(entries := s.entries[s.next := e], held := s.held[s.next := 1], next := s.next + 1)
  }

  function Inserted(s: Plain, e: Entry, capacity: nat): Plain {
    var t := Made(s, e);
    Fit(if capacity > 0 then Published(t, s.next) else t, capacity)
  }

  function Looked(s: Plain, key: Key): Option<nat> { if key in s.found then Some(s.found[key]) else None }

  function LookedUp(s: Plain, key: Key): Plain {
    if key in s.found && s.found[key] in s.held then
      var h := s.found[key];
      s.(held := s.held[h := s.held[h] + 1], idle := Minus(s.idle, h))
    else s
  }

  function Released(s: Plain, h: nat): Plain
    requires h in s.held && s.held[h] > 0
  {
    var left := s.held[h] - 1;
    if left > 0 then s.(held := s.held[h := left])
    else if InMap(s, h) then s.(held := s.held[h := 0], idle := s.idle + [h])
    else s.(held := s.held - {h}, deleted := s.deleted + [h])
  }

  // ---------- sequences of calls ----------

  datatype Call =
    | Insert(key: Buffer, hash: nat, charge: nat)
    | Lookup(key: Buffer, hash: nat)
    | Release(handle: nat)
    | Erase(key: Buffer, hash: nat)
    | Prune

  /** A client releases only what it holds. */
  predicate Allowed(s: Plain, call: Call) { call.Release? ==> call.handle in s.held && s.held[call.handle] > 0 }

  function Step(s: Plain, call: Call, capacity: nat): Plain
    requires Allowed(s, call)
  {
    match call
    case Insert(key, hash, charge) => Inserted(s, Entry(key, hash, charge), capacity)
    case Lookup(key, hash) => LookedUp(s, (key, hash))
    case Release(h) => Released(s, h)
    case Erase(key, hash) => Erased(s, (key, hash))
    case Prune => Pruned(s)
  }

  /** What the call hands back: a handle, if any. */
  function Answer(s: Plain, call: Call): Option<nat> {
    match call
    case Insert(_, _, _) => Some(s.next)
    case Lookup(key, hash) => Looked(s, (key, hash))
    case _ => None
  }

  /** After the first `n` calls; None if a client released what it does not hold. */
  function After(s: Plain, calls: seq<Call>, capacity: nat, n: nat): Option<Plain>
    requires n <= |calls|
  {
    if n == 0 then Some(s)
    else
      match After(s, calls, capacity, n - 1)
      case None => None
      case Some(t) => if Allowed(t, calls[n - 1]) then Some(Step(t, calls[n - 1], capacity)) else None
  }

  function Answers(s: Plain, calls: seq<Call>, capacity: nat, n: nat): seq<Option<nat>>
    requires n <= |calls|
  {
    if n == 0 then []
    else
      Answers(s, calls, capacity, n - 1) +
      match After(s, calls, capacity, n - 1)
      case None => []
      case Some(t) => [Answer(t, calls[n - 1])]
  }

  lemma {:induction false} AfterEarlier(s: Plain, calls: seq<Call>, capacity: nat, i: nat, n: nat)
    requires i <= n <= |calls| && After(s, calls, capacity, n).Some?
    ensures After(s, calls, capacity, i).Some?
  {
    hide Step;
    if i < n { AfterEarlier(s, calls, capacity, i, n - 1); }
  }
}
