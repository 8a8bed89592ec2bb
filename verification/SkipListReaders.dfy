/** Searches that run while one thread inserts.  Every load and every store of a link is one step, and
    a reader may start at any height, however stale the height it loaded. */
module SkipListReaders {
  import opened Options
  import opened InternalKeys
  import opened SkipListNodes

  datatype Writer =
    | Idle
    | Linking(x: nat, prev: seq<nat>, level: nat, pointed: bool)

  /** `present` are the keys in the list when the search began. */
  datatype Reader =
    | Searching(key: InternalKey, x: nat, level: nat, present: set<InternalKey>)
    | Found(key: InternalKey, result: Option<nat>, present: set<InternalKey>)

  datatype State = State(nodes: seq<Node>, levels: seq<Level>, writer: Writer, readers: map<nat, Reader>)

  ghost function KeysOn(nodes: seq<Node>, level: Level): set<InternalKey> {
    set id | id in level && id < |nodes| :: nodes[id].entry.key
  }

  datatype Step =
    | BeginInsert(e: Entry, height: nat, prev: seq<nat>)
    | PointStep
    | PublishStep(p: nat)
    | EndInsert
    | BeginRead(id: nat, key: InternalKey, level: nat)
    | ReadStep(id: nat)

  // ---------- steps ----------

  ghost predicate Init(s: State) {
    && s.nodes == [Node(Entry(InternalKey(0.0, 0, Value), []), seq(MAX_HEIGHT, _ => None))]
    && s.levels == seq(MAX_HEIGHT, _ => []) && s.writer.Idle? && s.readers == map[]
  }

  /** The predecessors are those FindGreaterOrEqual reports, and the head above the used levels. */
  ghost predicate BeginsInsert(s: State, s': State, e: Entry, height: nat, prev: seq<nat>) {
    && s.writer.Idle? && 1 <= height <= MAX_HEIGHT && |prev| == MAX_HEIGHT && |s.levels| == MAX_HEIGHT
    && (forall l :: 0 <= l < height ==> IsPrev(s.nodes, s.levels[l], prev[l], e.key))
    && e.key !in KeysOn(s.nodes, s.levels[0])
    && s' == s.(nodes := s.nodes + [Node(e, seq(height, _ => None))], writer := Linking(|s.nodes|, prev, 0, false))
  }

  ghost predicate Points(s: State, s': State) {
    && s.writer.Linking? && !s.writer.pointed
    && var w := s.writer;
       && w.x < |s.nodes| && w.level < |s.nodes[w.x].next| && w.level < |w.prev| && w.prev[w.level] < |s.nodes|
       && w.level < |s.nodes[w.prev[w.level]].next|
       && s' == s.(nodes := SetNext(s.nodes, w.x, w.level, s.nodes[w.prev[w.level]].next[w.level]),
          writer := w.(pointed := true))
  }

  /** `p` only names where the node now stands on the level. */
  ghost predicate Publishes(s: State, s': State, p: nat) {
    && s.writer.Linking? && s.writer.pointed
    && var w := s.writer;
       && w.level < |w.prev| && w.prev[w.level] < |s.nodes| && w.level < |s.nodes[w.prev[w.level]].next|
       && w.level < |s.levels| && IsPlace(s.levels[w.level], w.prev[w.level], p)
       && s' == s.(nodes := SetNext(s.nodes, w.prev[w.level], w.level, Some(w.x)),
                   levels := s.levels[w.level := InsertAt(s.levels[w.level], p, w.x)],
                   writer := w.(level := w.level + 1, pointed := false))
  }

  ghost predicate EndsInsert(s: State, s': State) {
    && s.writer.Linking? && !s.writer.pointed && s.writer.x < |s.nodes| && s.writer.level == |s.nodes[s.writer.x].next|
    && s' == s.(writer := Idle)
  }

  ghost predicate BeginsRead(s: State, s': State, id: nat, key: InternalKey, level: nat) {
    && level < MAX_HEIGHT && s.levels != []
    && s' == s.(readers := s.readers[id := Searching(key, 0, level, KeysOn(s.nodes, s.levels[0]))])
  }

  /** One load of a link, and what the search does with it. */
  function Read(nodes: seq<Node>, r: Reader): Reader
    requires r.Searching? && r.x < |nodes| && r.level < |nodes[r.x].next|
    requires nodes[r.x].next[r.level].Some? ==> nodes[r.x].next[r.level].value < |nodes|
  {
    var next := nodes[r.x].next[r.level];
    if KeyIsAfter(nodes, r.key, next) then r.(x := next.value)
    else if r.level == 0 then Found(r.key, next, r.present)
    else r.(level := r.level - 1)
  }

  ghost predicate Reads(s: State, s': State, id: nat) {
    && id in s.readers
    && var r := s.readers[id];
       && r.Searching? && r.x < |s.nodes| && r.level < |s.nodes[r.x].next|
       && (s.nodes[r.x].next[r.level].Some? ==> s.nodes[r.x].next[r.level].value < |s.nodes|)
       && s' == s.(readers := s.readers[id := Read(s.nodes, r)])
  }

  ghost predicate Takes(s: State, s': State, step: Step) {
    match step
    case BeginInsert(e, height, prev) => BeginsInsert(s, s', e, height, prev)
    case PointStep => Points(s, s')
    case PublishStep(p) => Publishes(s, s', p)
    case EndInsert => EndsInsert(s, s')
    case BeginRead(id, key, level) => BeginsRead(s, s', id, key, level)
    case ReadStep(id) => Reads(s, s', id)
  }

  // ---------- invariant ----------

  ghost predicate WriterOk(nodes: seq<Node>, levels: seq<Level>, w: Writer) {
    w.Linking? ==>
        Inserting(nodes, levels, w.x, w.prev, w.level)
        && (w.pointed ==> PointsAhead(nodes, levels, w.x, w.prev, w.level))
  }

  /** No key present when the search began lies in [target, result). */
  ghost predicate SafeResult(nodes: seq<Node>, key: InternalKey, result: Option<nat>, present: set<InternalKey>) {
    && (result.Some? ==> result.value < |nodes| && AtOrAfter(KeyOf(nodes, result.value), key))
    && forall k :: k in present && AtOrAfter(k, key) ==> result.Some? && AtOrAfter(k, KeyOf(nodes, result.value))
  }

  ghost predicate ReaderOk(nodes: seq<Node>, levels: seq<Level>, r: Reader) {
    && levels != [] && r.present <= KeysOn(nodes, levels[0])
    && match r
       case Searching(key, x, level, present) => level < |levels| && IsBefore(nodes, levels[level], x, key)
       case Found(key, result, present) =>
         SafeResult(nodes, key, result, present) && (result.Some? ==> result.value in levels[0])
  }

  ghost predicate Inv(s: State) {
    && WellLinked(s.nodes, s.levels) && WriterOk(s.nodes, s.levels, s.writer)
    && forall id :: id in s.readers ==> ReaderOk(s.nodes, s.levels, s.readers[id])
  }

  lemma InitInv(s: State)
    requires Init(s)
    ensures Inv(s)
  {
  }

  // ---------- readers survive what the writer does ----------

  /** Nodes keep their entries and levels only gain nodes. */
  ghost predicate Grows(nodes: seq<Node>, levels: seq<Level>, nodes': seq<Node>, levels': seq<Level>) {
    && |nodes| <= |nodes'| && |levels| == |levels'|
    && (forall id :: 0 <= id < |nodes| ==> nodes'[id].entry == nodes[id].entry)
    && (forall l :: 0 <= l < |levels| ==> Within(levels[l], levels'[l]))
  }

  lemma GrowsKeepsReader(nodes: seq<Node>, levels: seq<Level>, nodes': seq<Node>, levels': seq<Level>, r: Reader)
    requires Grows(nodes, levels, nodes', levels') && ReaderOk(nodes, levels, r)
    ensures ReaderOk(nodes', levels', r)
  {
    assert Within(levels[0], levels'[0]);
    match r
    case Searching(key, x, level, present) => assert Within(levels[level], levels'[level]);
    case Found(key, result, present) =>
  }

  lemma GrowsKeepsReaders(s: State, s': State)
    requires Grows(s.nodes, s.levels, s'.nodes, s'.levels) && s'.readers == s.readers
    requires forall id :: id in s.readers ==> ReaderOk(s.nodes, s.levels, s.readers[id])
    ensures forall id :: id in s'.readers ==> ReaderOk(s'.nodes, s'.levels, s'.readers[id])
  {
    hide ReaderOk;
    hide Grows;
    forall id | id in s'.readers ensures ReaderOk(s'.nodes, s'.levels, s'.readers[id]) {
      GrowsKeepsReader(s.nodes, s.levels, s'.nodes, s'.levels, s.readers[id]);
    }
  }

  lemma KeyIsAbsent(nodes: seq<Node>, level: Level, key: InternalKey)
    requires key !in KeysOn(nodes, level)
    ensures forall i :: 0 <= i < |level| && level[i] < |nodes| ==> KeyOf(nodes, level[i]) != key
  {
    forall i | 0 <= i < |level| && level[i] < |nodes| ensures KeyOf(nodes, level[i]) != key {
      assert level[i] in level;
    }
  }

  lemma BeginKeeps(s: State, s': State, e: Entry, height: nat, prev: seq<nat>)
    requires Inv(s) && BeginsInsert(s, s', e, height, prev)
    ensures Inv(s')
  {
    hide WellLinked;
    hide ReaderOk;
    hide IsPrev;
    hide Inserting;
    KeyIsAbsent(s.nodes, s.levels[0], e.key);
    StartInserting(s.nodes, s.levels, e, height, prev);
    GrowsKeepsReaders(s, s');
  }

  lemma PointKeeps(s: State, s': State)
    requires Inv(s) && Points(s, s')
    ensures Inv(s')
  {
    hide WellLinked;
    hide ReaderOk;
    hide IsPrev;
    PointAhead(s.nodes, s.levels, s.writer.x, s.writer.prev, s.writer.level);
    GrowsKeepsReaders(s, s');
  }

  lemma PlaceIsUnique(nodes: seq<Node>, levels: seq<Level>, l: nat, x: nat, p: nat, q: nat)
    requires WellLinked(nodes, levels) && l < MAX_HEIGHT && IsPlace(levels[l], x, p) && IsPlace(levels[l], x, q)
    ensures p == q
  {
    LevelIsLinked(nodes, levels, l);
    if p > 0 && q > 0 { SamePlace(nodes, levels[l], l, p - 1, q - 1); }
  }

  lemma PublishKeepsInv(s: State, s': State, p: nat)
    requires Inv(s) && Publishes(s, s', p)
    ensures Inv(s')
  {
    hide WellLinked;
    hide ReaderOk;
    hide IsPrev;
    hide Splits;
    var w := s.writer;
    var q := PublishHere(s.nodes, s.levels, w.x, w.prev, w.level, p);
    InsertedHolds(s.levels[w.level], p, w.x);
    GrowsKeepsReaders(s, s');
  }

  lemma PublishHere(nodes: seq<Node>, levels: seq<Level>, x: nat, prev: seq<nat>, l: nat, p: nat) returns (q: nat)
    requires WellLinked(nodes, levels) && PointsAhead(nodes, levels, x, prev, l) && IsPlace(levels[l], prev[l], p)
    ensures q == p && prev[l] < |nodes| && l < |nodes[prev[l]].next|
    ensures var nodes', levels' := SetNext(nodes, prev[l], l, Some(x)), levels[l := InsertAt(levels[l], p, x)];
            WellLinked(nodes', levels') && Inserting(nodes', levels', x, prev, l + 1)
  {
    hide WellLinked;
    hide Splits;
    hide IsPrev;
    q :| IsPlace(levels[l], prev[l], q) && Splits(nodes, levels[l], KeyOf(nodes, x), q)
        && nodes[x].next[l] == Link(levels[l], q);
    PlaceIsUnique(nodes, levels, l, prev[l], p, q);
    q := Publish(nodes, levels, x, prev, l);
    SplitPlaces(nodes, levels[l], KeyOf(nodes, x), p, q);
  }

  lemma SplitPlaces(nodes: seq<Node>, level: Level, key: InternalKey, p: nat, q: nat)
    requires Splits(nodes, level, key, p) && Splits(nodes, level, key, q)
    ensures p == q
  {
    SplitIsUnique(nodes, level, key, p, q);
  }

  // ---------- readers' own steps ----------

  lemma ReadKeeps(nodes: seq<Node>, levels: seq<Level>, r: Reader)
    requires WellLinked(nodes, levels) && ReaderOk(nodes, levels, r) && r.Searching?
    ensures r.x < |nodes| && r.level < |nodes[r.x].next|
    ensures nodes[r.x].next[r.level].Some? ==> nodes[r.x].next[r.level].value < |nodes|
    ensures ReaderOk(nodes, levels, Read(nodes, r))
  {
    hide AtOrAfter;
    hide InternalKey.Tag;
    hide KeyOf;
    hide WellLinked;
    var level := levels[r.level];
    Shape(nodes, levels);
    LevelIsLinked(nodes, levels, r.level);
    var p := PlaceExists(nodes, level, r.level, r.x);
    assert p < |level| ==> level[p] in level;
    if KeyIsAfter(nodes, r.key, nodes[r.x].next[r.level]) {
    } else if r.level == 0 {
      SplitsHere(nodes, level, 0, r.x, p, r.key);
      ResultIsSafe(nodes, level, 0, r.key, p, r.present);
    } else {
      OneDown(nodes, levels, r.level, r.x);
    }
  }

  lemma OneDown(nodes: seq<Node>, levels: seq<Level>, l: nat, x: nat)
    requires WellLinked(nodes, levels) && 0 < l < MAX_HEIGHT
    ensures x in levels[l] ==> x in levels[l - 1]
  {
    hide Linked;
    assert Within(levels[l - 1 + 1], levels[l - 1]);
  }

  lemma ResultIsSafe(nodes: seq<Node>, level: Level, l: nat, key: InternalKey, p: nat, present: set<InternalKey>)
    requires Linked(nodes, level, l) && Splits(nodes, level, key, p) && present <= KeysOn(nodes, level)
    ensures SafeResult(nodes, key, Link(level, p), present)
  {
    forall k | k in present && AtOrAfter(k, key) ensures p < |level| && AtOrAfter(k, KeyOf(nodes, level[p])) {
      assert k in KeysOn(nodes, level);
      var id :| id in level && id < |nodes| && nodes[id].entry.key == k;
      var i :| 0 <= i < |level| && level[i] == id;
      assert p < i ==> Before(KeyOf(nodes, level[p]), KeyOf(nodes, level[i]));
    }
  }

  lemma ReadKeepsInv(s: State, s': State, id: nat)
    requires Inv(s) && Reads(s, s', id)
    ensures Inv(s')
  {
    hide WellLinked;
    hide ReaderOk;
    hide WriterOk;
    ReadKeeps(s.nodes, s.levels, s.readers[id]);
  }

  lemma BeginReadKeeps(s: State, s': State, id: nat, key: InternalKey, level: nat)
    requires Inv(s) && BeginsRead(s, s', id, key, level)
    ensures Inv(s')
  {
    hide WriterOk;
    hide Linked;
    assert ReaderOk(s'.nodes, s'.levels, s'.readers[id]);
  }

  lemma StepKeepsInv(s: State, s': State, step: Step)
    requires Inv(s) && Takes(s, s', step)
    ensures Inv(s')
  {
    hide Inv;
    match step
    case BeginInsert(e, height, prev) => BeginKeeps(s, s', e, height, prev);
    case PointStep => PointKeeps(s, s');
    case PublishStep(p) => PublishKeepsInv(s, s', p);
    case EndInsert => EndKeeps(s, s');
    case BeginRead(id, key, level) => BeginReadKeeps(s, s', id, key, level);
    case ReadStep(id) => ReadKeepsInv(s, s', id);
  }

  lemma EndKeeps(s: State, s': State)
    requires Inv(s) && EndsInsert(s, s')
    ensures Inv(s')
  {
    hide WellLinked;
    hide ReaderOk;
  }

  // ---------- all runs ----------

  ghost predicate IsRun(states: seq<State>, steps: seq<Step>) {
    && |states| == |steps| + 1 && Init(states[0])
    && forall i :: 0 <= i < |steps| ==> Takes(states[i], states[i + 1], steps[i])
  }

  lemma {:induction false} RunKeepsInv(states: seq<State>, steps: seq<Step>, n: nat)
    requires IsRun(states, steps) && n < |states|
    ensures Inv(states[n])
  {
    hide Inv;
    hide Takes;
    hide Init;
    if n == 0 {
      InitInv(states[0]);
    } else {
      RunKeepsInv(states, steps, n - 1);
      assert Takes(states[n - 1], states[n - 1 + 1], steps[n - 1]);
      StepKeepsInv(states[n - 1], states[n], steps[n - 1]);
    }
  }

  /** At every intermediate step each level is a sorted sublist of the level below. */
  lemma LevelsAreSublists(states: seq<State>, steps: seq<Step>, n: nat, l: nat)
    requires IsRun(states, steps) && n < |states| && l < MAX_HEIGHT
    ensures |states[n].levels| == MAX_HEIGHT && Linked(states[n].nodes, states[n].levels[l], l)
    ensures l > 0 ==> Within(states[n].levels[l], states[n].levels[l - 1])
  {
    hide IsRun;
    RunKeepsInv(states, steps, n);
    assert l > 0 ==> Within(states[n].levels[l - 1 + 1], states[n].levels[l - 1]);
  }

  /** A search that began at step `i` and has ended returns a node at or after its key, and no key that was
      in the list when it began lies between the two. */
  lemma ReadsAreSafe(states: seq<State>, steps: seq<Step>, i: nat, n: nat, id: nat)
    requires IsRun(states, steps) && i < n < |states| && steps[i].BeginRead? && steps[i].id == id
    requires forall j :: i < j < n ==> steps[j].BeginRead? ==> steps[j].id != id
    requires id in states[n].readers && states[n].readers[id].Found?
    ensures states[i].levels != [] && states[n].levels != []
    ensures var result := states[n].readers[id].result;
            && SafeResult(states[n].nodes, steps[i].key, result, KeysOn(states[i].nodes, states[i].levels[0]))
            && (result.Some? ==> result.value in states[n].levels[0])
  {
    RunKeepsInv(states, steps, n);
    SearchIsRecorded(states, steps, i, n, id);
  }

  lemma {:induction false} SearchIsRecorded(states: seq<State>, steps: seq<Step>, i: nat, n: nat, id: nat)
    requires IsRun(states, steps) && i < n < |states| && steps[i].BeginRead? && steps[i].id == id
    requires forall j :: i < j < n ==> steps[j].BeginRead? ==> steps[j].id != id
    ensures id in states[n].readers && states[n].readers[id].key == steps[i].key
    ensures states[i].levels != [] && states[n].readers[id].present == KeysOn(states[i].nodes, states[i].levels[0])
  {
    assert Takes(states[n - 1], states[n - 1 + 1], steps[n - 1]);
    if n > i + 1 {
      SearchIsRecorded(states, steps, i, n - 1, id);
    }
  }
}
