/** DBImpl::Write: writers queue up, and the one at the front logs and inserts for a group of them. */
module GroupCommit {
  import opened Options
  import opened Coding
  import opened WriteBatches

  /** A null batch asks for a memtable switch only. */
  datatype Writer = Writer(id: nat, batch: Option<seq<Op>>, sync: bool)

  /** The group being committed: the first `size` writers, of whose operations `inserted` are in the memtable. */
  datatype Group = Group(size: nat, ops: seq<Op>, logged: bool, inserted: nat)

  datatype State = State(
    queue: seq<Writer>,
    current: Option<Group>,
    log: seq<Buffer>,
    mem: seq<(nat, Op)>,
    last: nat,                  // LastSequence
    finished: seq<Writer>,      // returned, in order
    groups: seq<seq<Writer>>)   // the finished groups

  function OpsOf(w: Writer): seq<Op> { if w.batch.Some? then w.batch.value else [] }

  function Flat(ws: seq<Writer>): seq<Op> {
    if ws == [] then [] else Flat(ws[..|ws| - 1]) + OpsOf(ws[|ws| - 1])
  }

  function Joined(groups: seq<seq<Writer>>): seq<Writer> {
    if groups == [] then [] else Joined(groups[..|groups| - 1]) + groups[|groups| - 1]
  }

  /** Operations with the sequence numbers they get, from `first` on. */
  function Numbered(first: nat, ops: seq<Op>): seq<(nat, Op)> {
    seq(|ops|, i requires 0 <= i < |ops| => (first + i, ops[i]))
  }

  /** Who may be committed together: a null batch leads alone, and nobody who wants a sync follows one who does not. */
  ghost predicate GroupOk(g: seq<Writer>) {
    && g != [] && (g[0].batch.None? ==> |g| == 1)
    && forall i :: 0 <= i < |g| ==> (g[i].sync ==> g[0].sync)
  }

  // ---------- choosing the group ----------

  /** The bytes of the batches of all these writers. */
  function TotalSize(queue: seq<Writer>, size: seq<Op> -> nat): nat {
    if queue == [] then 0
    else
      var w := queue[|queue| - 1];
      TotalSize(queue[..|queue| - 1], size) + if w.batch.Some? then size(w.batch.value) else 0
  }

  /** A small batch is not held up much by larger ones. */
  function MostBytes(first: nat): nat { if first <= 0x2_0000 then first + 0x2_0000 else 0x10_0000 }

  /** The first `n` writers are not too large together, and the next one may not join them. */
  ghost predicate IsLargest(queue: seq<Writer>, size: seq<Op> -> nat, n: nat)
    requires 0 < n <= |queue| && queue[0].batch.Some?
  {
    var first := size(queue[0].batch.value);
    && (TotalSize(queue[..n], size) <= MostBytes(first) || TotalSize(queue[..n], size) == first)
    && (n < |queue| ==>
          || (queue[n].sync && !queue[0].sync)
          || (queue[n].batch.Some? && TotalSize(queue[..n + 1], size) > MostBytes(first)))
  }

  /** BuildBatchGroup; `size` stands for ByteSize of a batch.  The group is as long as it may be: the next writer
      wants a sync that the leader does not, or its batch makes the group too large. */
  method BuildBatchGroup(queue: seq<Writer>, size: seq<Op> -> nat) returns (n: nat, ops: seq<Op>)
    requires queue != [] && queue[0].batch.Some?
    ensures 0 < n <= |queue| && GroupOk(queue[..n]) && ops == Flat(queue[..n])
    ensures IsLargest(queue, size, n)
  {
    var first := queue[0];
    ops := first.batch.value;
    var total := size(ops);
    var most := if total <= 0x2_0000 then total + 0x2_0000 else 0x10_0000;
    n := 1;
    GroupFirst(queue, size);
    hide Flat;
    hide TotalSize;
    hide GroupOk;
    hide IsLargest;
    assert most == MostBytes(size(first.batch.value));
    hide MostBytes;
    while n < |queue|
      invariant 1 <= n <= |queue| && total == TotalSize(queue[..n], size)
      invariant total <= most || total == size(first.batch.value)
      invariant 1 <= n <= |queue| && ops == Flat(queue[..n])
      invariant NoLaterSync(queue, n)
    {
      var w := queue[n];
      GroupNext(queue, n, size);
      if w.sync && !first.sync {
        Largest(queue, size, n);
        GroupIsOk(queue, n);
        return n, ops;
      }
      if w.batch.Some? {
        total := total + size(w.batch.value);
        if total > most {
          Largest(queue, size, n);
          GroupIsOk(queue, n);
          return n, ops;
        }
        ops := ops + w.batch.value;
      }
      n := n + 1;
    }
    Largest(queue, size, n);
    GroupIsOk(queue, n);
  }

  lemma Largest(queue: seq<Writer>, size: seq<Op> -> nat, n: nat)
    requires 0 < n <= |queue| && queue[0].batch.Some?
    requires var first := size(queue[0].batch.value);
             TotalSize(queue[..n], size) <= MostBytes(first) || TotalSize(queue[..n], size) == first
    requires n < |queue| ==>
               || (queue[n].sync && !queue[0].sync)
               || (queue[n].batch.Some? && TotalSize(queue[..n + 1], size) > MostBytes(size(queue[0].batch.value)))
    ensures IsLargest(queue, size, n)
  {
  }

  ghost predicate NoLaterSync(queue: seq<Writer>, n: nat)
    requires n <= |queue| && queue != []
  {
    forall i :: 0 <= i < n ==> (queue[i].sync ==> queue[0].sync)
  }

  lemma GroupIsOk(queue: seq<Writer>, n: nat)
    requires 0 < n <= |queue| && queue[0].batch.Some? && NoLaterSync(queue, n)
    ensures GroupOk(queue[..n])
  {
  }

  lemma GroupFirst(queue: seq<Writer>, size: seq<Op> -> nat)
    requires queue != [] && queue[0].batch.Some?
    ensures Flat(queue[..1]) == OpsOf(queue[0]) && TotalSize(queue[..1], size) == size(queue[0].batch.value)
  {
    assert queue[..1] == [queue[0]] && queue[..1][..0] == [];
  }

  lemma FlatOne(w: Writer)
    ensures Flat([w]) == OpsOf(w)
  {
    assert [w][..0] == [];
  }

  lemma GroupNext(queue: seq<Writer>, n: nat, size: seq<Op> -> nat)
    requires n < |queue|
    ensures Flat(queue[..n + 1]) == Flat(queue[..n]) + OpsOf(queue[n])
    ensures TotalSize(queue[..n + 1], size) ==
            TotalSize(queue[..n], size) + if queue[n].batch.Some? then size(queue[n].batch.value) else 0
  {
    assert queue[..n + 1][..n] == queue[..n];
  }

  lemma {:induction false} FlatJoin(a: seq<Writer>, b: seq<Writer>)
    ensures Flat(a + b) == Flat(a) + Flat(b)
  {
    if b == [] {
      assert a + b == a;
    } else {
      var n := |b| - 1;
      assert (a + b)[..|a + b| - 1] == a + b[..n];
      FlatJoin(a, b[..n]);
      assert Flat(a) + Flat(b[..n]) + OpsOf(b[n]) == Flat(a) + (Flat(b[..n]) + OpsOf(b[n]));
    }
  }

  // ---------- steps ----------

  ghost predicate Init(s: State) { s == State([], None, [], [], 0, [], []) }

  ghost predicate Enqueue(s: State, s': State, w: Writer) {
    && (forall x :: x in s.finished + s.queue ==> x.id != w.id)
    && s' == s.(queue := s.queue + [w])
  }

  /** The writer at the front takes the lead; sizes decide how many others it serves. */
  ghost predicate Lead(s: State, s': State, n: nat) {
    && s.current.None? && 0 < n <= |s.queue| && GroupOk(s.queue[..n])
    && AllFit(Flat(s.queue[..n])) && s.last + |Flat(s.queue[..n])| + 1 < WORD64
    && s' == s.(current := Some(Group(n, Flat(s.queue[..n]), false, 0)))
  }

  ghost predicate Log(s: State, s': State) {
    && s.current.Some? && !s.current.value.logged && s.current.value.size <= |s.queue|
    && s' == s.(log := if s.queue != [] && s.queue[0].batch.Some?
                       then s.log + [BatchBytes(s.last + 1, s.current.value.ops)] else s.log,
                current := Some(s.current.value.(logged := true)))
  }

  /** One operation of the group enters the memtable. */
  ghost predicate Insert(s: State, s': State) {
    && s.current.Some? && s.current.value.logged
    && var g := s.current.value;
       && g.inserted < |g.ops|
       && s' == s.(mem := s.mem + [(s.last + 1 + g.inserted, g.ops[g.inserted])],
          current := Some(g.(inserted := g.inserted + 1)))
  }

  /** SetLastSequence, then everyone in the group is told. */
  ghost predicate Publish(s: State, s': State) {
    && s.current.Some? && s.current.value.logged && s.current.value.size <= |s.queue|
    && var g := s.current.value;
       && g.inserted == |g.ops|
       && s' == s.(last := s.last + |g.ops|, current := None, queue := s.queue[g.size..],
          finished := s.finished + s.queue[..g.size],
                   groups := s.groups + [s.queue[..g.size]])
  }

  datatype Step = EnqueueStep(w: Writer) | LeadStep(n: nat) | LogStep | InsertStep | PublishStep

  ghost predicate Takes(s: State, s': State, step: Step) {
    match step
    case EnqueueStep(w) => Enqueue(s, s', w)
    case LeadStep(n) => Lead(s, s', n)
    case LogStep => Log(s, s')
    case InsertStep => Insert(s, s')
    case PublishStep => Publish(s, s')
  }

  // ---------- invariant ----------

  /** The records of the groups, each starting where the one before ended. */
  function Records(groups: seq<seq<Writer>>): seq<Buffer> {
    if groups == [] then []
    else
      var n := |groups| - 1;
      Records(groups[..n]) +
        if groups[n] != [] && groups[n][0].batch.Some?
        then [BatchBytes(|Flat(Joined(groups[..n]))| + 1, Flat(groups[n]))]
        else []
  }

  /** The groups whose record is in the log. */
  function LoggedGroups(s: State): seq<seq<Writer>> {
    if s.current.Some? && s.current.value.logged && s.current.value.size <= |s.queue|
    then s.groups + [s.queue[..s.current.value.size]] else s.groups
  }

  ghost predicate GroupsOk(groups: seq<seq<Writer>>) {
    forall k :: 0 <= k < |groups| ==>
        GroupOk(groups[k]) && AllFit(Flat(groups[k])) && |Flat(Joined(groups[..k]))| + 1 < WORD64
  }

  ghost predicate CurrentOk(s: State) {
    s.current.Some? ==>
      var g := s.current.value;
      && g.size <= |s.queue| && GroupOk(s.queue[..g.size]) && g.ops == Flat(s.queue[..g.size]) && AllFit(g.ops)
      && g.inserted <= |g.ops| && (g.inserted > 0 ==> g.logged) && s.last + |g.ops| + 1 < WORD64
  }

  function InsertedOps(s: State): seq<Op> {
    if s.current.Some? && s.current.value.inserted <= |s.current.value.ops|
        then s.current.value.ops[..s.current.value.inserted] else []
  }

  ghost predicate Inv(s: State) {
    && s.finished == Joined(s.groups) && s.last == |Flat(s.finished)| && GroupsOk(LoggedGroups(s)) && CurrentOk(s)
    && s.log == Records(LoggedGroups(s)) && s.mem == Numbered(1, Flat(s.finished) + InsertedOps(s))
  }

  lemma JoinedOneMore(groups: seq<seq<Writer>>, g: seq<Writer>)
    ensures Joined(groups + [g]) == Joined(groups) + g
  {
    assert (groups + [g])[..|groups|] == groups;
  }

  lemma RecordsOneMore(groups: seq<seq<Writer>>, g: seq<Writer>)
    requires g != []
    ensures Records(groups + [g]) ==
            if g[0].batch.Some? then Records(groups) + [BatchBytes(|Flat(Joined(groups))| + 1, Flat(g))]
                else Records(groups)
  {
    hide BatchBytes;
    hide Flat;
    hide Joined;
    assert (groups + [g])[..|groups|] == groups;
    assert Records(groups) + [] == Records(groups);
  }

  lemma GroupsOneMore(groups: seq<seq<Writer>>, g: seq<Writer>)
    requires GroupsOk(groups) && GroupOk(g) && AllFit(Flat(g)) && |Flat(Joined(groups))| + 1 < WORD64
    ensures GroupsOk(groups + [g])
  {
    hide Flat;
    hide Joined;
    hide AllFit;
    hide GroupOk;
    var more := groups + [g];
    forall k | 0 <= k < |more|
        ensures GroupOk(more[k]) && AllFit(Flat(more[k])) && |Flat(Joined(more[..k]))| + 1 < WORD64 {
      assert more[..k] == groups[..k];
    }
  }

  lemma EnqueueKeeps(s: State, s': State, w: Writer)
    requires Inv(s) && Enqueue(s, s', w)
    ensures Inv(s')
  {
    hide Numbered;
    if s.current.Some? {
      var n := s.current.value.size;
      assert s'.queue[..n] == s.queue[..n];
    }
  }

  lemma LeadKeeps(s: State, s': State, n: nat)
    requires Inv(s) && Lead(s, s', n)
    ensures Inv(s')
  {
    hide Numbered;
    assert InsertedOps(s') == [] && InsertedOps(s) == [];
  }

  lemma LogKeeps(s: State, s': State)
    requires Inv(s) && Log(s, s')
    ensures Inv(s')
  {
    hide Numbered;
    hide BatchBytes;
    hide AllFit;
    hide Flat;
    hide Joined;
    hide Records;
    hide GroupsOk;
    var g := s.queue[..s.current.value.size];
    assert g[0] == s.queue[0];
    assert InsertedOps(s') == InsertedOps(s);
    RecordsOneMore(s.groups, g);
    GroupsOneMore(s.groups, g);
  }

  lemma InsertKeeps(s: State, s': State)
    requires Inv(s) && Insert(s, s')
    ensures Inv(s')
  {
    hide Records;
    hide Flat;
    hide Joined;
    hide GroupsOk;
    hide GroupOk;
    hide AllFit;
    hide Numbered;
    var g := s.current.value;
    assert LoggedGroups(s') == LoggedGroups(s);
    assert InsertedOps(s') == InsertedOps(s) + [g.ops[g.inserted]];
    NumberedNext(Flat(s.finished) + InsertedOps(s), g.ops[g.inserted]);
    assert Flat(s.finished) + InsertedOps(s) + [g.ops[g.inserted]] == Flat(s.finished) + InsertedOps(s');
  }

  lemma NumberedNext(ops: seq<Op>, op: Op)
    ensures Numbered(1, ops + [op]) == Numbered(1, ops) + [(1 + |ops|, op)]
  {
  }

  lemma PublishKeeps(s: State, s': State)
    requires Inv(s) && Publish(s, s')
    ensures Inv(s')
  {
    hide Records;
    hide Numbered;
    var g := s.queue[..s.current.value.size];
    var groups := s.groups + [g];
    assert groups[..|groups| - 1] == s.groups;
    FlatJoin(s.finished, g);
    assert InsertedOps(s) == s.current.value.ops && InsertedOps(s') == [];
    assert Flat(s'.finished) + InsertedOps(s') == Flat(s.finished) + InsertedOps(s);
  }

  // ---------- all runs ----------

  ghost predicate IsRun(states: seq<State>, steps: seq<Step>) {
    && |states| == |steps| + 1 && Init(states[0])
    && forall i :: 0 <= i < |steps| ==> Takes(states[i], states[i + 1], steps[i])
  }

  lemma StepKeepsInv(s: State, s': State, step: Step)
    requires Inv(s) && Takes(s, s', step)
    ensures Inv(s')
  {
    hide Inv;
    match step
    case EnqueueStep(w) => EnqueueKeeps(s, s', w);
    case LeadStep(n) => LeadKeeps(s, s', n);
    case LogStep => LogKeeps(s, s');
    case InsertStep => InsertKeeps(s, s');
    case PublishStep => PublishKeeps(s, s');
  }

  lemma InitInv(s: State)
    requires Init(s)
    ensures Inv(s)
  {
  }

  lemma {:induction false} RunKeepsInv(states: seq<State>, steps: seq<Step>, n: nat)
    requires IsRun(states, steps) && n < |states|
    ensures Inv(states[n])
  {
    hide Inv;
    hide Init;
    hide Takes;
    if n == 0 {
      InitInv(states[0]);
    } else {
      RunKeepsInv(states, steps, n - 1);
      assert Takes(states[n - 1], states[n - 1 + 1], steps[n - 1]);
      StepKeepsInv(states[n - 1], states[n], steps[n - 1]);
    }
  }

  /** What a replay of the log yields: the operations of all records. */
  function Replay(log: seq<Buffer>): seq<Op> {
    if log == [] then [] else Replay(log[..|log| - 1]) + IterateSpec(log[|log| - 1]).0
  }

  ghost predicate AllDecode(log: seq<Buffer>) {
    forall k :: 0 <= k < |log| ==>
        IterateSpec(log[k]).1 && |log[k]| >= HEADER && SequenceOf(log[k]) == |Replay(log[..k])| + 1
  }

  lemma {:induction false} RecordsDecode(groups: seq<seq<Writer>>)
    requires GroupsOk(groups)
    ensures AllDecode(Records(groups)) && Replay(Records(groups)) == Flat(Joined(groups))
  {
    hide BatchBytes;
    hide IterateSpec;
    hide AllDecode;
    hide Flat;
    hide GroupsOk;
    if groups == [] {
      NothingDecodes();
    } else {
      var n := |groups| - 1;
      var before, g := groups[..n], groups[n];
      assert groups == before + [g];
      LastGroup(groups);
      RecordsDecode(before);
      RecordsOneMore(before, g);
      JoinedOneMore(before, g);
      FlatJoin(Joined(before), g);
      if g[0].batch.Some? {
        RecordBack(before, g);
        OneMoreDecodes(Records(before), BatchBytes(|Flat(Joined(before))| + 1, Flat(g)));
      } else {
        assert g == [g[0]];
        FlatOne(g[0]);
        assert Flat(Joined(before)) + [] == Flat(Joined(before));
      }
    }
  }

  lemma NothingDecodes()
    ensures AllDecode([]) && Replay([]) == [] && Flat([]) == []
  {
  }

  lemma LastGroup(groups: seq<seq<Writer>>)
    requires GroupsOk(groups) && groups != []
    ensures var n := |groups| - 1;
            && GroupsOk(groups[..n]) && GroupOk(groups[n]) && AllFit(Flat(groups[n]))
            && |Flat(Joined(groups[..n]))| + 1 < WORD64
  {
    hide Flat;
    hide Joined;
    hide AllFit;
    hide GroupOk;
    var n := |groups| - 1;
    forall k | 0 <= k < n ensures groups[..n][..k] == groups[..k] { }
  }

  lemma RecordBack(before: seq<seq<Writer>>, g: seq<Writer>)
    requires AllFit(Flat(g)) && |Flat(Joined(before))| + 1 < WORD64
    ensures var record := BatchBytes(|Flat(Joined(before))| + 1, Flat(g));
            IterateSpec(record) == (Flat(g), true) && |record| >= HEADER
                && SequenceOf(record) == |Flat(Joined(before))| + 1
  {
    hide BatchBytes;
    hide IterateSpec;
    hide Flat;
    hide Joined;
    hide SequenceOf;
    hide CountOf;
    BatchRoundTrip(|Flat(Joined(before))| + 1, Flat(g));
    HeaderBack(|Flat(Joined(before))| + 1, Flat(g));
  }

  lemma OneMoreDecodes(log: seq<Buffer>, record: Buffer)
    requires AllDecode(log) && IterateSpec(record).1 && |record| >= HEADER && SequenceOf(record) == |Replay(log)| + 1
    ensures AllDecode(log + [record]) && Replay(log + [record]) == Replay(log) + IterateSpec(record).0
  {
    hide IterateSpec;
    hide SequenceOf;
    var more := log + [record];
    assert more[..|log|] == log;
    forall k | 0 <= k < |more|
        ensures IterateSpec(more[k]).1 && |more[k]| >= HEADER && SequenceOf(more[k]) == |Replay(more[..k])| + 1 {
      assert more[..k] == if k < |log| then log[..k] else log;
    }
  }

  /** Each batch is logged once, in queue order, with contiguous sequence numbers, and every record decodes. */
  lemma LogIsTheQueue(states: seq<State>, steps: seq<Step>, n: nat)
    requires IsRun(states, steps) && n < |states|
    ensures AllDecode(states[n].log) && Replay(states[n].log) == Flat(Joined(LoggedGroups(states[n])))
    ensures Joined(LoggedGroups(states[n])) <= states[n].finished + states[n].queue
  {
    hide IsRun;
    hide Inv;
    RunKeepsInv(states, steps, n);
    LogIsQueue(states[n]);
  }

  lemma LogIsQueue(s: State)
    requires Inv(s)
    ensures AllDecode(s.log) && Replay(s.log) == Flat(Joined(LoggedGroups(s)))
            && Joined(LoggedGroups(s)) <= s.finished + s.queue
  {
    hide AllDecode;
    hide Replay;
    hide Records;
    hide Flat;
    hide Joined;
    hide GroupsOk;
    hide GroupOk;
    hide AllFit;
    hide Numbered;
    RecordsDecode(LoggedGroups(s));
    if s.current.Some? && s.current.value.logged {
      var n := s.current.value.size;
      JoinedOneMore(s.groups, s.queue[..n]);
      assert s.finished + s.queue == s.finished + s.queue[..n] + s.queue[n..];
    }
  }

  lemma {:induction false} Arrivals(states: seq<State>, steps: seq<Step>, i: nat, n: nat)
    requires IsRun(states, steps) && i <= n < |states|
    ensures states[i].finished + states[i].queue <= states[n].finished + states[n].queue
    ensures states[i].finished <= states[n].finished
  {
    hide Takes;
    if i < n {
      Arrivals(states, steps, i, n - 1);
      assert Takes(states[n - 1], states[n - 1 + 1], steps[n - 1]);
      ArrivalStep(states[n - 1], states[n], steps[n - 1]);
    }
  }

  lemma ArrivalStep(s: State, s': State, step: Step)
    requires Takes(s, s', step)
    ensures s.finished + s.queue <= s'.finished + s'.queue && s.finished <= s'.finished
  {
    match step
    case EnqueueStep(w) => assert s'.finished + s'.queue == s.finished + s.queue + [w];
    case PublishStep =>
      var g := s.current.value.size;
      assert s'.finished + s'.queue == s.finished + (s.queue[..g] + s.queue[g..]);
    case _ =>
  }

  /** The writers that asked, in the order in which they joined the queue. */
  function Asked(steps: seq<Step>): seq<Writer> {
    if steps == [] then []
    else
      var n := |steps| - 1;
      Asked(steps[..n]) + if steps[n].EnqueueStep? then [steps[n].w] else []
  }

  /** First come, first served: those that returned and those that wait are those that asked, in order, each once. */
  lemma {:induction false} ServedInOrder(states: seq<State>, steps: seq<Step>, n: nat)
    requires IsRun(states, steps) && n < |states|
    ensures states[n].finished + states[n].queue == Asked(steps[..n])
  {
    hide Takes;
    if n > 0 {
      ServedInOrder(states, steps, n - 1);
      assert steps[..n][..n - 1] == steps[..n - 1];
      assert Takes(states[n - 1], states[n - 1 + 1], steps[n - 1]);
      QueueStep(states[n - 1], states[n], steps[n - 1]);
    }
  }

  lemma QueueStep(s: State, s': State, step: Step)
    requires Takes(s, s', step)
    ensures s'.finished + s'.queue == s.finished + s.queue + if step.EnqueueStep? then [step.w] else []
  {
    match step
    case EnqueueStep(w) => assert s.finished + (s.queue + [w]) == s.finished + s.queue + [w];
    case PublishStep =>
      var g := s.current.value.size;
      assert s'.finished + s'.queue == s.finished + (s.queue[..g] + s.queue[g..]);
    case _ =>
  }

  /** A reader at LastSequence sees all of every finished group and nothing of the one under way. */
  lemma NoPartOfAGroup(states: seq<State>, steps: seq<Step>, n: nat, k: nat)
    requires IsRun(states, steps) && n < |states| && k < |states[n].mem|
    ensures states[n].last <= |states[n].mem|
            && states[n].mem[..states[n].last] == Numbered(1, Flat(Joined(states[n].groups)))
    ensures states[n].mem[k].0 <= states[n].last <==> k < states[n].last
  {
    hide IsRun;
    RunKeepsInv(states, steps, n);
    hide Records;
    var s := states[n];
    assert s.mem[..s.last] == Numbered(1, Flat(s.finished));
  }

  /** A writer that returned is wholly in the log and in the memtable, below LastSequence, at its place. */
  lemma ReturnedIsDone(states: seq<State>, steps: seq<Step>, n: nat, i: nat, j: nat)
    requires IsRun(states, steps) && n < |states| && i < |states[n].finished| && j < |OpsOf(states[n].finished[i])|
    ensures var s, at := states[n], |Flat(states[n].finished[..i])| + j;
            && at < s.last && at < |s.mem| && s.mem[at] == (at + 1, OpsOf(s.finished[i])[j])
            && at < |Replay(s.log)| && Replay(s.log)[at] == OpsOf(s.finished[i])[j]
  {
    hide IsRun;
    hide Inv;
    RunKeepsInv(states, steps, n);
    FinishedIsDone(states[n], i, j);
  }

  lemma FinishedIsDone(s: State, i: nat, j: nat)
    requires Inv(s) && i < |s.finished| && j < |OpsOf(s.finished[i])|
    ensures var at := |Flat(s.finished[..i])| + j;
            && at < s.last && at < |s.mem| && s.mem[at] == (at + 1, OpsOf(s.finished[i])[j])
            && at < |Replay(s.log)| && Replay(s.log)[at] == OpsOf(s.finished[i])[j]
  {
    hide Records;
    hide Flat;
    hide Joined;
    hide GroupsOk;
    hide GroupOk;
    hide AllFit;
    hide Replay;
    hide AllDecode;
    LogIsQueue(s);
    FlatPlace(s.finished, i, j);
    FinishedIsLogged(s);
    var at := |Flat(s.finished[..i])| + j;
    assert (Flat(s.finished) + InsertedOps(s))[at] == Flat(s.finished)[at];
  }

  lemma FinishedIsLogged(s: State)
    requires Inv(s)
    ensures Flat(s.finished) <= Flat(Joined(LoggedGroups(s)))
  {
    hide Records;
    hide Flat;
    hide Joined;
    hide GroupsOk;
    hide GroupOk;
    hide AllFit;
    hide Replay;
    hide AllDecode;
    hide Numbered;
    if s.current.Some? && s.current.value.logged {
      var g := s.queue[..s.current.value.size];
      JoinedOneMore(s.groups, g);
      FlatJoin(s.finished, g);
    }
  }

  lemma {:induction false} FlatPlace(ws: seq<Writer>, i: nat, j: nat)
    requires i < |ws| && j < |OpsOf(ws[i])|
    ensures |Flat(ws[..i])| + j < |Flat(ws)| && Flat(ws)[|Flat(ws[..i])| + j] == OpsOf(ws[i])[j]
  {
    var n := |ws| - 1;
    if i < n {
      FlatPlace(ws[..n], i, j);
      assert ws[..n][..i] == ws[..i];
    }
  }

  /** A writer that asked for a sync was served by a leader that did too. */
  lemma SyncIsHonoured(states: seq<State>, steps: seq<Step>, n: nat, k: nat, i: nat)
    requires IsRun(states, steps) && n < |states| && k < |states[n].groups| && i < |states[n].groups[k]|
             && states[n].groups[k][i].sync
    ensures states[n].groups[k][0].sync && states[n].finished == Joined(states[n].groups)
  {
    hide IsRun;
    RunKeepsInv(states, steps, n);
    var s := states[n];
    assert LoggedGroups(s)[k] == s.groups[k];
    assert GroupOk(LoggedGroups(s)[k]);
  }

  // ---------- progress ----------

  /** Every batch that waits can be encoded, and all of them numbered. */
  ghost predicate CanServe(s: State) {
    (forall i :: 0 <= i < |s.queue| ==> AllFit(OpsOf(s.queue[i]))) && s.last + |Flat(s.queue)| + 1 < WORD64
  }

  /** How far the queue is from being served. */
  function ToServe(s: State): nat {
    3 * |s.queue| + if s.current.None? then 2 else if s.current.value.logged then 0 else 1
  }

  function ToInsert(s: State): int { if s.current.None? then 0 else |s.current.value.ops| - s.current.value.inserted }

  lemma QueueSplits(s: State, n: nat)
    requires n <= |s.queue|
    ensures |Flat(s.queue)| == |Flat(s.queue[..n])| + |Flat(s.queue[n..])|
  {
    FlatJoin(s.queue[..n], s.queue[n..]);
    assert s.queue[..n] + s.queue[n..] == s.queue;
  }

  lemma LeadServes(s: State) returns (s': State)
    requires s.current.None? && CanServe(s) && s.queue != []
    ensures Takes(s, s', LeadStep(1)) && CanServe(s') && ToServe(s') < ToServe(s)
  {
    QueueSplits(s, 1);
    FlatOne(s.queue[0]);
    assert s.queue[..1] == [s.queue[0]];
    hide Flat;
    hide AllFit;
    s' := s.(current := Some(Group(1, Flat(s.queue[..1]), false, 0)));
  }

  lemma LogServes(s: State, g: Group) returns (s': State)
    requires s.current == Some(g) && !g.logged && g.size <= |s.queue| && CanServe(s) && s.queue != []
    ensures Takes(s, s', LogStep) && CanServe(s') && ToServe(s') < ToServe(s)
  {
    hide AllFit;
    hide Flat;
    s' := s.(log := if s.queue[0].batch.Some? then s.log + [BatchBytes(s.last + 1, g.ops)] else s.log,
             current := Some(g.(logged := true)));
  }

  lemma InsertServes(s: State, g: Group) returns (s': State)
    requires s.current == Some(g) && g.logged && g.inserted < |g.ops| && CanServe(s)
    ensures Takes(s, s', InsertStep) && CanServe(s') && ToServe(s') == ToServe(s) && 0 <= ToInsert(s') < ToInsert(s)
  {
    hide AllFit;
    hide Flat;
    s' := s.(mem := s.mem + [(s.last + 1 + g.inserted, g.ops[g.inserted])],
             current := Some(g.(inserted := g.inserted + 1)));
  }

  lemma PublishServes(s: State, g: Group) returns (s': State)
    requires s.current == Some(g) && g.logged && g.inserted == |g.ops| && 0 < g.size <= |s.queue| && CanServe(s)
    requires g.ops == Flat(s.queue[..g.size])
    ensures Takes(s, s', PublishStep) && CanServe(s') && ToServe(s') < ToServe(s)
  {
    QueueSplits(s, g.size);
    hide AllFit;
    hide Flat;
    s' := s.(last := s.last + |g.ops|, current := None, queue := s.queue[g.size..],
             finished := s.finished + s.queue[..g.size], groups := s.groups + [s.queue[..g.size]]);
  }

  lemma CurrentShape(s: State, g: Group)
    requires Inv(s) && s.current == Some(g)
    ensures 0 < g.size <= |s.queue| && g.ops == Flat(s.queue[..g.size]) && g.inserted <= |g.ops|
  {
    hide Flat;
    hide AllFit;
    hide GroupsOk;
    hide LoggedGroups;
    hide Records;
  }

  /** As long as anyone waits there is a step, other than someone joining, that brings the queue on. */
  lemma NextServes(s: State) returns (s': State, step: Step)
    requires Inv(s) && CanServe(s) && s.queue != []
    ensures Takes(s, s', step) && !step.EnqueueStep? && CanServe(s')
    ensures ToServe(s') < ToServe(s) || (ToServe(s') == ToServe(s) && 0 <= ToInsert(s') < ToInsert(s))
  {
    hide Takes;
    hide CanServe;
    hide ToServe;
    hide ToInsert;
    if s.current.None? {
      hide Inv;
      s' := LeadServes(s);
      step := LeadStep(1);
    } else {
      var g := s.current.value;
      CurrentShape(s, g);
      hide Inv;
      if !g.logged {
        s' := LogServes(s, g);
        step := LogStep;
      } else if g.inserted < |g.ops| {
        s' := InsertServes(s, g);
        step := InsertStep;
      } else {
        s' := PublishServes(s, g);
        step := PublishStep;
      }
    }
  }

  ghost predicate IsPath(path: seq<State>, steps: seq<Step>) {
    && |path| == |steps| + 1
    && forall i :: 0 <= i < |steps| ==> Takes(path[i], path[i + 1], steps[i]) && !steps[i].EnqueueStep?
  }

  /** Nobody waits for ever: from every reachable state all who wait can be served, in order, if nobody else joins. */
  lemma {:induction false} AllAreServed(s: State) returns (path: seq<State>, steps: seq<Step>)
    requires Inv(s) && CanServe(s)
    ensures IsPath(path, steps) && path[0] == s
    ensures path[|steps|].queue == [] && path[|steps|].finished == s.finished + s.queue
    decreases ToServe(s), ToInsert(s)
  {
    hide Inv;
    hide CanServe;
    hide Takes;
    if s.queue == [] {
      path, steps := [s], [];
      assert s.finished + [] == s.finished;
    } else {
      var s', step := NextServes(s);
      StepKeepsInv(s, s', step);
      QueueStep(s, s', step);
      var path', steps' := AllAreServed(s');
      path, steps := [s] + path', [step] + steps';
      assert s.finished + s.queue + [] == s.finished + s.queue;
    }
  }
}
