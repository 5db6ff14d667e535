// The manager's shared state as a value, its locked helpers as functions on that
// value (internal/manager/state.go), and the multi-step protocols of
// internal/manager/manager.go as threads that take one locked step at a time.

module Nodes {
  import opened Options

  datatype Node = Node(name: string, api: string, cores: int, memory: int, memoryAllocated: int,
                       disk: int, diskAllocated: int, role: string, taskCount: int)

  // workerAddress: the address of the first node of that name.
  function Address(nodes: seq<Node>, name: string): Option<string> {
    if nodes == [] then None
    else if nodes[0].name == name then Some(nodes[0].api)
    else Address(nodes[1..], name)
  }

  // A worker's address is that of the first node of its name.
  lemma {:induction false} AddressIsFirst(nodes: seq<Node>, name: string, api: string)
    ensures Address(nodes, name) == Some(api)
       <==> exists k :: 0 <= k < |nodes| && nodes[k].name == name && nodes[k].api == api
                        && forall j :: 0 <= j < k ==> nodes[j].name != name
  {
    if nodes == [] {
    } else {
      var rest := nodes[1..];
      AddressIsFirst(rest, name, api);
      if nodes[0].name != name {
        if k :| 0 <= k < |rest| && rest[k].name == name && rest[k].api == api && forall j :: 0 <= j < k ==> rest[j].name != name {
          assert nodes[k + 1] == rest[k];
          assert forall j :: 0 < j < k + 1 ==> nodes[j] == rest[j - 1];
        }
        if k :| 0 < k < |nodes| && nodes[k].name == name && nodes[k].api == api && forall j :: 0 <= j < k ==> nodes[j].name != name {
          assert rest[k - 1] == nodes[k];
          assert forall j :: 0 <= j < k - 1 ==> rest[j] == nodes[j + 1];
        }
      }
    }
  }

  lemma {:induction false} KnownNamesResolve(nodes: seq<Node>, name: string)
    ensures Address(nodes, name).Some? <==> exists n :: n in nodes && n.name == name
  {
    if nodes == [] {
    } else {
      KnownNamesResolve(nodes[1..], name);
      assert nodes == [nodes[0]] + nodes[1..];
    }
  }
}

module ManagerProtocol {
  import opened Options
  import opened Tasks
  import opened Nodes
  import opened Reports

  // Everything Manager.mu guards.
  datatype MState = MState(
    taskDb: map<Uuid, Task>,
    eventDb: map<Uuid, TaskEvent>,
    workerTasks: map<string, seq<Uuid>>,
    taskWorker: map<Uuid, string>,
    pending: seq<TaskEvent>)

  function EmptyLists(nodes: seq<Node>): map<string, seq<Uuid>> {
    if nodes == [] then map[] else EmptyLists(nodes[..|nodes| - 1])[nodes[|nodes| - 1].name := []]
  }

  // NewManager: empty stores, and an empty list for every worker name.
  function Initial(nodes: seq<Node>): MState {
    MState(map[], map[], EmptyLists(nodes), map[], [])
  }

  lemma {:induction false} EmptyListsCoverNames(nodes: seq<Node>)
    ensures forall n :: n in nodes ==> n.name in EmptyLists(nodes)
    ensures forall w :: w in EmptyLists(nodes) ==> exists n :: n in nodes && n.name == w
    ensures forall w :: w in EmptyLists(nodes) ==> EmptyLists(nodes)[w] == []
  {
    if nodes == [] {
    } else {
      EmptyListsCoverNames(nodes[..|nodes| - 1]);
      assert nodes == nodes[..|nodes| - 1] + [nodes[|nodes| - 1]];
    }
  }

  // slices.Index followed by slices.Delete.
  function RemoveFirst(ids: seq<Uuid>, id: Uuid): seq<Uuid> {
    if ids == [] then []
    else if ids[0] == id then ids[1..]
    else [ids[0]] + RemoveFirst(ids[1..], id)
  }

  // Reading a missing key of WorkerTaskMap yields Go's nil slice.
  function Listed(m: MState, worker: string): seq<Uuid> {
    if worker in m.workerTasks then m.workerTasks[worker] else []
  }

  // ----- The locked helpers -----

  function Stored(m: MState, t: Task): MState {
    m.(taskDb := m.taskDb[t.id := t])
  }

  function Enqueued(m: MState, te: TaskEvent): MState {
    m.(pending := m.pending + [te])
  }

  function Assigned(m: MState, worker: string, te: TaskEvent): MState {
    m.(eventDb := m.eventDb[te.id := te],
       workerTasks := m.workerTasks[worker := Listed(m, worker) + [te.task.id]],
       taskWorker := m.taskWorker[te.task.id := worker])
  }

  // What unassignTask and retireTask share: the route goes, and so does the
  // first entry of the worker's list.
  function Unrouted(m: MState, worker: string, id: Uuid): MState {
    m.(taskWorker := m.taskWorker - {id},
       workerTasks := if worker in m.workerTasks
                      then m.workerTasks[worker := RemoveFirst(m.workerTasks[worker], id)]
                      else m.workerTasks)
  }

  function Retired(m: MState, worker: string, id: Uuid): MState {
    var closed := if id in m.taskDb then m.(taskDb := m.taskDb[id := m.taskDb[id].(state := Completed)]) else m;
    Unrouted(closed, worker, id)
  }

  function Restarted(m: MState, id: Uuid): MState {
    if id in m.taskDb then
      var t := m.taskDb[id];
      m.(taskDb := m.taskDb[id := t.(state := Scheduled, restartCount := t.restartCount + 1)])
    else m
  }

  function Merged(m: MState, r: Task): MState {
    m.(taskDb := ApplyReport(m.taskDb, r))
  }

  // assignmentFor: a routed task that is missing from the store counts as unassigned.
  function AssignmentFor(m: MState, id: Uuid): Option<(string, Task)> {
    if id in m.taskWorker && id in m.taskDb then Some((m.taskWorker[id], m.taskDb[id])) else None
  }

  // ----- What a worker may answer -----

  // A post is accepted with the task the worker created, refused (any answer
  // that is not a decodable 201), or never reaches the worker.
  datatype PostAnswer = Accepted(created: Task) | Refused | Unreachable
  datatype StopAnswer = StopAccepted | StopRefused | StopUnreachable

  // ----- SendWork -----

  // The places between two locked steps of SendWork; each keeps the locals the
  // rest of the body needs.
  datatype SendPc =
    | Idle
    | Holding(te: TaskEvent)                      // dequeued, assignment not looked up yet
    | Stopping(te: TaskEvent, worker: string)     // stopTask's DELETE is out
    | Selecting(te: TaskEvent)                    // fresh dispatch, scheduler running
    | Posting(te: TaskEvent, node: Node)          // assigned, POST is out
    | RollingBack(te: TaskEvent, node: Node)      // unreachable, route still there
    | Requeueing(te: TaskEvent)                   // unassigned, not enqueued yet

  datatype SendIo = SendIo(node: Option<Node>, post: PostAnswer, stop: StopAnswer)
  datatype SendConf = SendConf(m: MState, pc: SendPc)

  // What pickWorker can hand back: some manager node or nothing.
  function Picked(nodes: seq<Node>, io: SendIo): Option<Node> {
    if io.node.Some? && io.node.value in nodes then io.node else None
  }

  predicate Stops(te: TaskEvent, persisted: Task) {
    te.task.state == Completed && IsValidTransition(persisted.state, Completed)
  }

  predicate StopLands(nodes: seq<Node>, worker: string, io: SendIo) {
    Address(nodes, worker).Some? && io.stop.StopAccepted?
  }

  // One locked step of one SendWork caller.
  function SendStep(nodes: seq<Node>, c: SendConf, io: SendIo): SendConf {
    var m := c.m;
    match c.pc
    case Idle =>
      if m.pending == [] then c else SendConf(m.(pending := m.pending[1..]), Holding(m.pending[0]))
    case Holding(te) =>
      (match AssignmentFor(m, te.task.id)
       case Some((w, t)) => SendConf(m, if Stops(te, t) then Stopping(te, w) else Idle)
       case None => SendConf(m, Selecting(te)))
    case Stopping(te, w) =>
      SendConf(if StopLands(nodes, w, io) then Retired(m, w, te.task.id) else m, Idle)
    case Selecting(te) =>
      (match Picked(nodes, io)
       case Some(n) => SendConf(Assigned(m, n.name, te), Posting(te, n))
       case None => SendConf(m, Idle))
    case Posting(te, n) =>
      (match io.post
       case Accepted(created) => SendConf(Stored(m, created), Idle)
       case Refused => SendConf(m, Idle)
       case Unreachable => SendConf(m, RollingBack(te, n)))
    case RollingBack(te, n) =>
      SendConf(Unrouted(m, n.name, te.task.id), Requeueing(te))
    case Requeueing(te) =>
      SendConf(Enqueued(m, te), Idle)
  }

  function StepsLeft(pc: SendPc): nat {
    match pc
    case Idle => 0
    case Holding(_) => 5
    case Selecting(_) => 4
    case Posting(_, _) => 3
    case RollingBack(_, _) => 2
    case Requeueing(_) => 1
    case Stopping(_, _) => 1
  }

  // A caller already past its dequeue, run alone to the end of the body.
  function FinishSend(nodes: seq<Node>, c: SendConf, io: SendIo): MState
    decreases StepsLeft(c.pc)
  {
    if c.pc.Idle? then c.m else FinishSend(nodes, SendStep(nodes, c, io), io)
  }

  // The whole body of SendWork, nobody else running.
  function SendAlone(nodes: seq<Node>, m: MState, io: SendIo): MState {
    FinishSend(nodes, SendStep(nodes, SendConf(m, Idle), io), io)
  }

  // ----- The health check loop -----

  datatype HealthPc =
    | Resting
    | Walking(todo: seq<Task>)                                  // snapshot entries still to visit
    | Restarting(id: Uuid, rest: seq<Task>)                     // restartTask entered
    | Beginning(worker: string, id: Uuid, rest: seq<Task>)      // route read, beginRestart next
    | Reposting(id: Uuid, te: TaskEvent, rest: seq<Task>)       // POST is out

  datatype HealthIo = HealthIo(healthy: bool, post: PostAnswer, eventId: Uuid, now: int)
  datatype HealthConf = HealthConf(m: MState, pc: HealthPc)

  // checkTaskHealth: needs a route, a published port and an address before the
  // endpoint's own answer counts.
  predicate Passes(nodes: seq<Node>, m: MState, t: Task, io: HealthIo) {
    && t.id in m.taskWorker
    && t.hostPorts != map[]
    && Address(nodes, m.taskWorker[t.id]).Some?
    && io.healthy
  }

  // One locked step of the health pass, from the snapshot onwards.
  function HealthStep(nodes: seq<Node>, c: HealthConf, io: HealthIo): HealthConf {
    var m := c.m;
    match c.pc
    case Resting => c
    case Walking(todo) =>
      if todo == [] then HealthConf(m, Resting)
      else
        (match DecideHealthAction(todo[0])
         case SkipNotEligible => HealthConf(m, Walking(todo[1..]))
         case SkipRestartMax => HealthConf(m, Walking(todo[1..]))
         case Check => HealthConf(m, if Passes(nodes, m, todo[0], io) then Walking(todo[1..])
                                     else Restarting(todo[0].id, todo[1..]))
         case Restart => HealthConf(m, Restarting(todo[0].id, todo[1..])))
    case Restarting(id, rest) =>
      HealthConf(m, if id in m.taskWorker && Address(nodes, m.taskWorker[id]).Some?
                    then Beginning(m.taskWorker[id], id, rest) else Walking(rest))
    case Beginning(w, id, rest) =>
      var m' := Restarted(m, id);
      if id in m.taskDb then HealthConf(m', Reposting(id, TaskEvent(io.eventId, Running, io.now, m'.taskDb[id]), rest))
      else HealthConf(m, Walking(rest))
    case Reposting(_, te, rest) =>
      HealthConf(if io.post.Unreachable? then Enqueued(m, te) else m, Walking(rest))
  }

  function PassLeft(pc: HealthPc): nat {
    match pc
    case Resting => 0
    case Walking(todo) => 4 * |todo| + 1
    case Restarting(_, rest) => 4 * |rest| + 4
    case Beginning(_, _, rest) => 4 * |rest| + 3
    case Reposting(_, _, rest) => 4 * |rest| + 2
  }

  // Whose answers the next step of the pass uses.
  function Current(pc: HealthPc): Uuid {
    match pc
    case Resting => 0
    case Walking(todo) => if todo == [] then 0 else todo[0].id
    case Restarting(id, _) => id
    case Beginning(_, id, _) => id
    case Reposting(id, _, _) => id
  }

  // The rest of a health pass, nobody else running; io holds each task's answers.
  function FinishPass(nodes: seq<Node>, c: HealthConf, io: Uuid -> HealthIo): MState
    decreases PassLeft(c.pc)
  {
    if c.pc.Resting? then c.m else FinishPass(nodes, HealthStep(nodes, c, io(Current(c.pc))), io)
  }

  // restartTask alone: from its entry back to the walk.
  function FinishRestart(nodes: seq<Node>, c: HealthConf, io: HealthIo): MState
    decreases PassLeft(c.pc)
  {
    if c.pc.Resting? || c.pc.Walking? then c.m else FinishRestart(nodes, HealthStep(nodes, c, io), io)
  }

  function Rest(pc: HealthPc): seq<Task> {
    match pc
    case Resting => []
    case Walking(todo) => todo
    case Restarting(_, rest) => rest
    case Beginning(_, _, rest) => rest
    case Reposting(_, _, rest) => rest
  }

  // A pass with a restart in hand finishes that restart, then walks on.
  lemma {:induction false} PassFinishesRestartFirst(nodes: seq<Node>, c: HealthConf, io: Uuid -> HealthIo)
    requires !c.pc.Resting?
    ensures FinishPass(nodes, c, io)
         == FinishPass(nodes, HealthConf(if c.pc.Walking? then c.m else FinishRestart(nodes, c, io(Current(c.pc))),
                                         Walking(Rest(c.pc))), io)
    decreases PassLeft(c.pc)
  {
    if !c.pc.Walking? {
      PassFinishesRestartFirst(nodes, HealthStep(nodes, c, io(Current(c.pc))), io);
    }
  }

  // A restart does not look at the snapshot entries after it.
  lemma RestartIgnoresRest(nodes: seq<Node>, m: MState, id: Uuid, rest: seq<Task>, io: HealthIo)
    ensures FinishRestart(nodes, HealthConf(m, Restarting(id, rest)), io)
         == FinishRestart(nodes, HealthConf(m, Restarting(id, [])), io)
  {
    var a := HealthStep(nodes, HealthConf(m, Restarting(id, rest)), io);
    var b := HealthStep(nodes, HealthConf(m, Restarting(id, [])), io);
    assert FinishRestart(nodes, a, io) == FinishRestart(nodes, b, io) by {
      if a.pc.Beginning? {
        var c, d := HealthStep(nodes, a, io), HealthStep(nodes, b, io);
        if c.pc.Reposting? {
          assert HealthStep(nodes, c, io).m == HealthStep(nodes, d, io).m;
          assert FinishRestart(nodes, c, io) == FinishRestart(nodes, d, io);
        }
      }
    }
  }

  // ----- RemoveFirst -----

  ghost predicate NoDup(ids: seq<Uuid>) {
    forall i, j :: 0 <= i < j < |ids| ==> ids[i] != ids[j]
  }

  lemma {:induction false} RemoveFirstCounts(ids: seq<Uuid>, id: Uuid)
    ensures multiset(RemoveFirst(ids, id)) == multiset(ids) - multiset{id}
    ensures id !in ids ==> RemoveFirst(ids, id) == ids
  {
    if ids == [] {
    } else {
      assert ids == [ids[0]] + ids[1..];
      RemoveFirstCounts(ids[1..], id);
    }
  }

  // The entry removed is the first one.
  lemma {:induction false} RemoveFirstIsFirst(before: seq<Uuid>, id: Uuid, after: seq<Uuid>)
    requires id !in before
    ensures RemoveFirst(before + [id] + after, id) == before + after
  {
    if before == [] {
      assert before + [id] + after == [id] + after && ([id] + after)[1..] == after == before + after;
    } else {
      assert (before + [id] + after)[1..] == before[1..] + [id] + after;
      RemoveFirstIsFirst(before[1..], id, after);
      assert before + after == [before[0]] + (before[1..] + after);
    }
  }

  lemma {:induction false} RemoveFirstMembers(ids: seq<Uuid>, id: Uuid)
    ensures forall x :: x != id ==> (x in RemoveFirst(ids, id) <==> x in ids)
    ensures NoDup(ids) ==> NoDup(RemoveFirst(ids, id)) && id !in RemoveFirst(ids, id)
  {
    if ids == [] {
    } else {
      var rest := ids[1..];
      assert ids == [ids[0]] + rest;
      RemoveFirstMembers(rest, id);
      if NoDup(ids) {
        assert NoDup(rest);
        assert ids[0] !in rest;
      }
    }
  }

  // Removing the entry just appended gives the old list back.
  lemma {:induction false} RemoveFirstUndoesAppend(ids: seq<Uuid>, id: Uuid)
    requires id !in ids
    ensures RemoveFirst(ids + [id], id) == ids
  {
    if ids == [] {
    } else {
      assert (ids + [id])[1..] == ids[1..] + [id];
      RemoveFirstUndoesAppend(ids[1..], id);
    }
  }
}
