// The running worker: RunTasks loops, update passes and the API, interleaved at
// every lock release and around every Docker call. A run is any sequence of
// actions; the actions carry Docker's answers.

module WorkerSystem {
  import opened Options
  import opened Tasks
  import opened Store
  import opened WorkerProtocol

  datatype Fleet = Fleet(s: WState, runners: seq<RunnerPc>, passes: seq<PassPc>)

  datatype Action =
    | Enqueue(t: Task)                            // API: AddTask
    | Runner(i: nat, io: RunnerIo)                // RunTasks loop i takes its next step
    | List(j: nat, listing: seq<Task>)            // update pass j takes its snapshot
    | Pass(j: nat, daemon: Option<Container>)     // update pass j takes its next step

  // An action whose thread cannot take it leaves the worker alone.
  function Step(f: Fleet, a: Action): Fleet {
    match a
    case Enqueue(t) => f.(s := f.s.(queue := f.s.queue + [t]))
    case Runner(i, io) =>
      if i < |f.runners| then
        var c := RunnerStep(RunnerConf(f.s, f.runners[i]), io);
        f.(s := c.s, runners := f.runners[i := c.pc])
      else f
    case List(j, listing) =>
      if j < |f.passes| && f.passes[j].Resting? && IsListing(listing, f.s.db) then
        f.(passes := f.passes[j := Walking(listing)])
      else f
    case Pass(j, daemon) =>
      if j < |f.passes| then
        var c := PassStep(PassConf(f.s, f.passes[j]), daemon);
        f.(s := c.s, passes := f.passes[j := c.pc])
      else f
  }

  function Run(f: Fleet, acts: seq<Action>): Fleet
    decreases |acts|
  {
    if acts == [] then f else Run(Step(f, acts[0]), acts[1..])
  }

  ghost predicate Along(f: Fleet, acts: seq<Action>, ok: (Fleet, Action) -> bool)
    decreases |acts|
  {
    acts == [] || (ok(f, acts[0]) && Along(Step(f, acts[0]), acts[1..], ok))
  }

  // No loop body under way; store and queue hold anything.
  ghost predicate Quiet(f: Fleet) {
    && Keyed(f.s.db)
    && (forall i :: 0 <= i < |f.runners| ==> f.runners[i].Idle?)
    && (forall j :: 0 <= j < |f.passes| ==> f.passes[j].Resting?)
  }

  // ----- What a step keeps -----

  // A Completed task stays Completed.
  ghost predicate StaysCompleted(f: Fleet, a: Action) {
    var db, db' := f.s.db, Step(f, a).s.db;
    forall id :: id in db && db[id].state == Completed ==> id in db' && db'[id].state == Completed
  }

  datatype Definition = Definition(name: string, id: Uuid, image: string, memory: int, disk: int, exposedPorts: PortSet,
                                   restartPolicy: string, healthCheck: string, restartCount: int)

  // The fields no worker step writes.
  function DefinitionOf(t: Task): Definition {
    Definition(t.name, t.id, t.image, t.memory, t.disk, t.exposedPorts, t.restartPolicy, t.healthCheck, t.restartCount)
  }

  // The acting runner is writing the outcome of a start of this task.
  predicate WritesStart(f: Fleet, a: Action, id: Uuid) {
    a.Runner? && a.i < |f.runners| && f.runners[a.i].WritingStart? && f.runners[a.i].q.id == id
  }

  // The acting runner is writing a successful stop of this task.
  predicate WritesStop(f: Fleet, a: Action, id: Uuid) {
    a.Runner? && a.i < |f.runners| && f.runners[a.i].WritingStop? && f.runners[a.i].q.id == id
  }

  // The acting pass is merging an inspection of this task and finds it Running.
  predicate MergesInspection(f: Fleet, a: Action, id: Uuid)
    requires id in f.s.db
  {
    && a.Pass? && a.j < |f.passes| && f.passes[a.j].Merging? && f.passes[a.j].t.id == id
    && f.passes[a.j].c.Inspected? && f.s.db[id].state == Running
  }

  // Every field of a stored task is changed only by its owner: ContainerID by a
  // successful start, StartTime by any start, FinishTime by a stop, HostPorts
  // by a successful start or an inspection, State by these three.
  ghost predicate MovesByOwner(f: Fleet, a: Action, id: Uuid, t: Task, t': Task)
    requires id in f.s.db
  {
    && DefinitionOf(t') == DefinitionOf(t)
    && (if WritesStart(f, a, id) then
          var answer := f.runners[a.i].answer;
          && t'.startTime == a.io.now && t'.finishTime == t.finishTime
          && (answer.StartFailed? ==> t'.containerID == t.containerID && t'.hostPorts == t.hostPorts && t'.state == Failed)
          && (answer.Started? ==>
                && t'.containerID == answer.containerID && t'.state == Running
                && t'.hostPorts == if answer.ports.Some? then answer.ports.value else f.runners[a.i].q.hostPorts)
        else if WritesStop(f, a, id) then
          && t'.finishTime == a.io.now && t'.state == Completed
          && t'.startTime == t.startTime && t'.containerID == t.containerID && t'.hostPorts == t.hostPorts
        else if MergesInspection(f, a, id) then
          && t'.hostPorts == f.passes[a.j].c.hostPorts
          && t'.state == (if f.passes[a.j].c.exited then Failed else Running)
          && t'.startTime == t.startTime && t'.finishTime == t.finishTime && t'.containerID == t.containerID
        else t' == t)
  }

  ghost predicate OwnersOnly(f: Fleet, a: Action) {
    forall id :: id in f.s.db ==> id in Step(f, a).s.db && MovesByOwner(f, a, id, f.s.db[id], Step(f, a).s.db[id])
  }

  // ----- The invariant with one RunTasks loop -----

  // What the runner remembers of its lookup still holds; in particular, a start
  // in flight means its task is not Completed.
  ghost predicate RunnerInv(pc: RunnerPc, db: map<Uuid, Task>) {
    match pc
    case Idle => true
    case Looking(_) => true
    case Recording(q) => q.id !in db
    case Starting(q) => q.id in db && db[q.id].state != Completed
    case WritingStart(q, _) => q.id in db && db[q.id].state != Completed
    case Stopping(q) => q.id in db
    case WritingStop(q) => q.id in db
  }

  // A pass only ever visits stored tasks, and never sees a container vanish.
  ghost predicate PassInv(pc: PassPc, db: map<Uuid, Task>) {
    match pc
    case Resting => true
    case Walking(todo) => forall k :: 0 <= k < |todo| ==> todo[k].id in db
    case Merging(t, c, rest) => t.id in db && c.Inspected? && forall k :: 0 <= k < |rest| ==> rest[k].id in db
  }

  ghost predicate SoloInv(f: Fleet) {
    && Keyed(f.s.db)
    && |f.runners| <= 1
    && (forall i :: 0 <= i < |f.runners| ==> RunnerInv(f.runners[i], f.s.db))
    && (forall j :: 0 <= j < |f.passes| ==> PassInv(f.passes[j], f.s.db))
  }

  // The change a runner is about to write, if it is about to write one.
  function Writes(pc: RunnerPc, io: RunnerIo): Option<Change> {
    match pc
    case WritingStart(q, answer) => Some(StartChange(q, answer, io.now))
    case WritingStop(q) => Some(StopSuccess(io.now))
    case _ => None
  }

  // A runner's step on the store: stored tasks move only by its upsert.
  lemma RunnerMoves(c: RunnerConf, io: RunnerIo)
    requires Keyed(c.s.db) && RunnerInv(c.pc, c.s.db)
    ensures var db, c' := c.s.db, RunnerStep(c, io);
            && Keyed(c'.s.db) && RunnerInv(c'.pc, c'.s.db) && db.Keys <= c'.s.db.Keys
            && forall id :: id in db ==>
                 c'.s.db[id] == match Writes(c.pc, io)
                                case Some(change) => if c.pc.q.id == id then Apply(change, db[id]) else db[id]
                                case None => db[id]
  {
    match c.pc
    case WritingStart(q, answer) => UpsertOfStored(c.s, q, StartChange(q, answer, io.now));
    case WritingStop(q) => UpsertOfStored(c.s, q, StopSuccess(io.now));
    case _ =>
  }

  // A pass's step on the store: stored tasks move only by its guarded merge.
  lemma PassMoves(c: PassConf, daemon: Option<Container>)
    requires Keyed(c.s.db) && PassInv(c.pc, c.s.db)
    ensures var db, c' := c.s.db, PassStep(c, daemon);
            && Keyed(c'.s.db) && PassInv(c'.pc, c'.s.db) && db.Keys == c'.s.db.Keys && c'.s.queue == c.s.queue
            && forall id :: id in db ==>
                 c'.s.db[id] == if c.pc.Merging? && c.pc.t.id == id then Apply(c.pc.c, db[id]) else db[id]
  {
    NeverVanished(daemon);
    if c.pc.Merging? {
      UpsertOfStored(c.s, c.pc.t, c.pc.c);
    }
  }

  lemma PassInvIsMonotonic(f: Fleet, db': map<Uuid, Task>)
    requires (forall j :: 0 <= j < |f.passes| ==> PassInv(f.passes[j], f.s.db)) && f.s.db.Keys <= db'.Keys
    ensures forall j :: 0 <= j < |f.passes| ==> PassInv(f.passes[j], db')
  {
    forall j | 0 <= j < |f.passes| ensures PassInv(f.passes[j], db') {
      assert PassInv(f.passes[j], f.s.db);
    }
  }

  lemma SoloRunnerInv(f: Fleet, io: RunnerIo)
    requires SoloInv(f) && |f.runners| == 1
    ensures SoloInv(Step(f, Runner(0, io)))
  {
    var c := RunnerConf(f.s, f.runners[0]);
    assert RunnerInv(f.runners[0], f.s.db);
    RunnerMoves(c, io);
    PassInvIsMonotonic(f, RunnerStep(c, io).s.db);
  }

  lemma SoloRunnerStep(f: Fleet, io: RunnerIo)
    requires SoloInv(f) && |f.runners| == 1
    ensures StaysCompleted(f, Runner(0, io)) && OwnersOnly(f, Runner(0, io))
  {
    var c := RunnerConf(f.s, f.runners[0]);
    assert RunnerInv(f.runners[0], f.s.db);
    RunnerMoves(c, io);
    assert Step(f, Runner(0, io)).s == RunnerStep(c, io).s;
  }

  // A merge changes at most HostPorts and a Running state.
  lemma PassKeepsRunners(f: Fleet, c: PassConf, daemon: Option<Container>)
    requires c.s == f.s && Keyed(f.s.db) && PassInv(c.pc, f.s.db)
    requires forall i :: 0 <= i < |f.runners| ==> RunnerInv(f.runners[i], f.s.db)
    ensures forall i :: 0 <= i < |f.runners| ==> RunnerInv(f.runners[i], PassStep(c, daemon).s.db)
  {
    PassMoves(c, daemon);
    forall i | 0 <= i < |f.runners| ensures RunnerInv(f.runners[i], PassStep(c, daemon).s.db) {
      assert RunnerInv(f.runners[i], f.s.db);
    }
  }

  lemma SoloPassInv(f: Fleet, j: nat, daemon: Option<Container>)
    requires SoloInv(f) && j < |f.passes|
    ensures SoloInv(Step(f, Pass(j, daemon)))
  {
    var c := PassConf(f.s, f.passes[j]);
    assert PassInv(f.passes[j], f.s.db);
    PassMoves(c, daemon);
    PassKeepsRunners(f, c, daemon);
    PassInvIsMonotonic(f, PassStep(c, daemon).s.db);
  }

  lemma SoloPassStep(f: Fleet, j: nat, daemon: Option<Container>)
    requires SoloInv(f) && j < |f.passes|
    ensures StaysCompleted(f, Pass(j, daemon)) && OwnersOnly(f, Pass(j, daemon))
  {
    var c := PassConf(f.s, f.passes[j]);
    assert PassInv(f.passes[j], f.s.db);
    PassMoves(c, daemon);
    assert Step(f, Pass(j, daemon)).s == PassStep(c, daemon).s;
  }

  lemma SnapshotStep(f: Fleet, j: nat, listing: seq<Task>)
    requires SoloInv(f)
    ensures var a := List(j, listing); SoloInv(Step(f, a)) && StaysCompleted(f, a) && OwnersOnly(f, a)
  {
    var f' := Step(f, List(j, listing));
    assert f'.s == f.s && f'.runners == f.runners;
    forall k | 0 <= k < |f'.passes| ensures PassInv(f'.passes[k], f.s.db) {
      assert PassInv(f.passes[k], f.s.db);
    }
  }

  lemma EnqueueStep(f: Fleet, t: Task)
    requires SoloInv(f)
    ensures SoloInv(Step(f, Enqueue(t))) && StaysCompleted(f, Enqueue(t)) && OwnersOnly(f, Enqueue(t))
  {
    var f' := Step(f, Enqueue(t));
    assert f'.s.db == f.s.db && f'.runners == f.runners && f'.passes == f.passes;
  }

  lemma NoStep(f: Fleet, a: Action)
    requires SoloInv(f) && Step(f, a) == f
    ensures SoloInv(Step(f, a)) && StaysCompleted(f, a)
    ensures (a.Runner? ==> a.i >= |f.runners|) ==> OwnersOnly(f, a)
  {
  }

  lemma SoloStep(f: Fleet, a: Action)
    requires SoloInv(f)
    ensures SoloInv(Step(f, a)) && StaysCompleted(f, a) && OwnersOnly(f, a)
  {
    if a.Runner? && a.i < |f.runners| {
      assert a == Runner(0, a.io);
      SoloRunnerInv(f, a.io);
      SoloRunnerStep(f, a.io);
    } else if a.Pass? && a.j < |f.passes| {
      SoloPassInv(f, a.j, a.daemon);
      SoloPassStep(f, a.j, a.daemon);
    } else if a.List? {
      SnapshotStep(f, a.j, a.listing);
    } else if a.Enqueue? {
      EnqueueStep(f, a.t);
    } else {
      NoStep(f, a);
    }
  }

  lemma {:induction false} SoloRun(f: Fleet, acts: seq<Action>)
    requires SoloInv(f)
    ensures SoloInv(Run(f, acts)) && Along(f, acts, StaysCompleted) && Along(f, acts, OwnersOnly)
    decreases |acts|
  {
    if acts == [] {
    } else {
      SoloStep(f, acts[0]);
      SoloRun(Step(f, acts[0]), acts[1..]);
    }
  }

  // ----- Completed stays Completed -----

  lemma Unfold(f: Fleet, a: Action, rest: seq<Action>, ok: (Fleet, Action) -> bool)
    ensures Along(f, [a] + rest, ok) <==> ok(f, a) && Along(Step(f, a), rest, ok)
  {
    assert ([a] + rest)[1..] == rest;
  }

  lemma UnfoldTwo(f: Fleet, a: Action, b: Action, rest: seq<Action>, ok: (Fleet, Action) -> bool)
    ensures Along(f, [a, b] + rest, ok) ==> Along(Step(Step(f, a), b), rest, ok)
  {
    assert [a, b] + rest == [a] + ([b] + rest);
    Unfold(f, a, [b] + rest, ok);
    Unfold(Step(f, a), b, rest, ok);
  }

  // Both loops dequeue, look up and finish their Docker calls.
  lemma BothReach(f: Fleet, start: Task, stop: Task, io: RunnerIo) returns (f1: Fleet)
    requires |f.runners| >= 2 && f.runners[0].Idle? && f.runners[1].Idle? && f.s.queue == [start, stop]
    requires start.id == stop.id && start.id in f.s.db && f.s.db[start.id].state == Running
    requires start.state == Scheduled && stop.state == Completed && io.stopped
    ensures var one, two := Runner(0, io), Runner(1, io);
            f1 == Step(Step(Step(Step(Step(Step(f, one), two), one), two), one), two)
    ensures f1.s.db == f.s.db && |f1.runners| == |f.runners|
    ensures f1.runners[0] == WritingStart(start, io.start) && f1.runners[1] == WritingStop(stop)
  {
    var one, two := Runner(0, io), Runner(1, io);
    assert f.s.queue[1..] == [stop] && [stop][1..] == [];
    var a := Step(Step(f, one), two);
    assert a.s.db == f.s.db && a.runners[0] == Looking(start) && a.runners[1] == Looking(stop);
    var b := Step(Step(a, one), two);
    assert b.s.db == f.s.db && b.runners[0] == Starting(start) && b.runners[1] == Stopping(stop);
    f1 := Step(Step(b, one), two);
  }

  lemma StopLandsFirst(f1: Fleet, start: Task, stop: Task, io: RunnerIo) returns (f2: Fleet)
    requires Keyed(f1.s.db) && start.id == stop.id && stop.id in f1.s.db
    requires |f1.runners| >= 2 && f1.runners[0] == WritingStart(start, io.start) && f1.runners[1] == WritingStop(stop)
    ensures f2 == Step(f1, Runner(1, io)) && Keyed(f2.s.db) && |f2.runners| == |f1.runners|
    ensures stop.id in f2.s.db && f2.s.db[stop.id].state == Completed && f2.runners[0] == f1.runners[0]
  {
    UpsertOfStored(f1.s, stop, StopSuccess(io.now));
    f2 := Step(f1, Runner(1, io));
  }

  // Two loops: one starts a Running task again while the other stops it. Both
  // looked it up Running; the stop is written first, the start on top of it.
  lemma TwoRunnersResurrect(runners: nat) returns (f: Fleet, acts: seq<Action>)
    requires runners >= 2
    ensures Quiet(f) && |f.runners| == runners && !Along(f, acts, StaysCompleted)
  {
    var t := Task("", 0, Running, "", 0, 0, {}, map[], "", 0, 0, "", "", 0);
    var start, stop := t.(state := Scheduled), t.(state := Completed);
    var io := RunnerIo(Started("c", None), true, 0);
    var one, two := Runner(0, io), Runner(1, io);
    f := Fleet(WState(map[0 := t], [start, stop]), seq(runners, _ => Idle), []);
    var f1 := BothReach(f, start, stop, io);
    var f2 := StopLandsFirst(f1, start, stop, io);
    assert !StaysCompleted(f2, one) by {
      UpsertOfStored(f2.s, start, StartChange(start, io.start, io.now));
    }
    acts := [one, two] + ([one, two] + ([one, two] + ([two] + ([one] + []))));
    UnfoldTwo(f, one, two, [one, two] + ([one, two] + ([two] + ([one] + []))), StaysCompleted);
    UnfoldTwo(Step(Step(f, one), two), one, two, [one, two] + ([two] + ([one] + [])), StaysCompleted);
    UnfoldTwo(Step(Step(Step(Step(f, one), two), one), two), one, two, [two] + ([one] + []), StaysCompleted);
    Unfold(f1, two, [one] + [], StaysCompleted);
    Unfold(f2, one, [], StaysCompleted);
  }

  // Over all stores, queues and interleavings with any number of passes, a
  // Completed task stays Completed exactly when at most one RunTasks loop runs.
  lemma CompletedForeverExactlyWithOneRunner(runners: nat)
    ensures (forall f, acts :: Quiet(f) && |f.runners| == runners ==> Along(f, acts, StaysCompleted)) <==> runners <= 1
  {
    if runners <= 1 {
      forall f, acts | Quiet(f) && |f.runners| == runners ensures Along(f, acts, StaysCompleted) {
        SoloRun(f, acts);
      }
    } else {
      var f, acts := TwoRunnersResurrect(runners);
    }
  }

  // ----- Who writes which field -----

  // Both loops dequeue and look up before the first one records.
  lemma BothMiss(f: Fleet, first: Task, second: Task, io: RunnerIo) returns (f1: Fleet)
    requires |f.runners| >= 2 && f.runners[0].Idle? && f.runners[1].Idle?
    requires f.s == WState(map[], [first, second]) && first.id == second.id
    ensures var one, two := Runner(0, io), Runner(1, io);
            f1 == Step(Step(Step(Step(Step(f, one), two), one), two), one)
    ensures f1.s.db == map[first.id := first] && |f1.runners| == |f.runners| && f1.runners[1] == Recording(second)
  {
    var one, two := Runner(0, io), Runner(1, io);
    assert f.s.queue[1..] == [second] && [second][1..] == [];
    var a := Step(Step(f, one), two);
    assert a.s.db == map[] && a.runners[0] == Looking(first) && a.runners[1] == Looking(second);
    var b := Step(Step(a, one), two);
    assert b.s.db == map[] && b.runners[0] == Recording(first) && b.runners[1] == Recording(second);
    f1 := Step(b, one);
  }

  // Two loops that both missed the same new task record it one after the other,
  // and the second record replaces the first whole, name included.
  lemma TwoRunnersOverwrite(runners: nat) returns (f: Fleet, acts: seq<Action>)
    requires runners >= 2
    ensures Quiet(f) && |f.runners| == runners && !Along(f, acts, OwnersOnly)
  {
    var first := Task("first", 0, Scheduled, "", 0, 0, {}, map[], "", 0, 0, "", "", 0);
    var second := first.(name := "second");
    var io := RunnerIo(Started("c", None), true, 0);
    var one, two := Runner(0, io), Runner(1, io);
    f := Fleet(WState(map[], [first, second]), seq(runners, _ => Idle), []);
    var f1 := BothMiss(f, first, second, io);
    assert !OwnersOnly(f1, two) by {
      assert DefinitionOf(Step(f1, two).s.db[0]) != DefinitionOf(f1.s.db[0]);
    }
    acts := [one, two] + ([one, two] + ([one] + ([two] + [])));
    UnfoldTwo(f, one, two, [one, two] + ([one] + ([two] + [])), OwnersOnly);
    UnfoldTwo(Step(Step(f, one), two), one, two, [one] + ([two] + []), OwnersOnly);
    Unfold(Step(Step(Step(Step(f, one), two), one), two), one, [two] + [], OwnersOnly);
    Unfold(f1, two, [], OwnersOnly);
  }

  // Over all stores, queues and interleavings, every field
  // is left to its owner exactly when at most one RunTasks loop runs.
  lemma OwnersExactlyWithOneRunner(runners: nat)
    ensures (forall f, acts :: Quiet(f) && |f.runners| == runners ==> Along(f, acts, OwnersOnly)) <==> runners <= 1
  {
    if runners <= 1 {
      forall f, acts | Quiet(f) && |f.runners| == runners ensures Along(f, acts, OwnersOnly) {
        SoloRun(f, acts);
      }
    } else {
      var f, acts := TwoRunnersOverwrite(runners);
    }
  }

  // A stored task keeps its definition for good.
  lemma {:induction false} DefinitionsNeverChange(f: Fleet, acts: seq<Action>, id: Uuid)
    requires SoloInv(f) && id in f.s.db
    ensures id in Run(f, acts).s.db && DefinitionOf(Run(f, acts).s.db[id]) == DefinitionOf(f.s.db[id])
    decreases |acts|
  {
    if acts == [] {
    } else {
      SoloStep(f, acts[0]);
      DefinitionsNeverChange(Step(f, acts[0]), acts[1..], id);
    }
  }
}
