// The worker's shared state as a value, and RunTask, StartTask, StopTask and
// updateTasks as threads that take one locked step at a time with Docker calls
// in between (internal/worker/worker.go, internal/worker/state.go).

module WorkerProtocol {
  import opened Options
  import opened Tasks
  import opened Store

  // What Worker.mu guards of the task bookkeeping.
  datatype WState = WState(db: map<Uuid, Task>, queue: seq<Task>)

  // ----- Docker -----

  // StartTask's Docker calls, taken together: creating a client, stopping an old
  // container, Run and Inspect. Any failure ends in the same write.
  datatype StartAnswer = StartFailed | Started(containerID: string, ports: Option<PortMap>)

  datatype Container = Container(exited: bool, ports: PortMap)

  // InspectTask's result: an error, a container, or by its type both or neither.
  datatype InspectResponse = InspectResponse(failed: bool, container: Option<Container>)

  // Docker.Inspect on what the daemon answered, None standing for an error.
  function Inspect(daemon: Option<Container>): (r: InspectResponse)
    ensures r.failed <==> r.container.None?
  {
    if daemon.None? then InspectResponse(true, None) else InspectResponse(false, daemon)
  }

  // ----- The locked helpers -----

  function Put(s: WState, t: Task): WState {
    s.(db := s.db[t.id := t])
  }

  // The mutations upsertTask is called with.
  datatype Change =
    | StartFailure(startTime: int)
    | StartSuccess(startTime: int, containerID: string, hostPorts: PortMap)
    | StopSuccess(finishTime: int)
    | Vanished
    | Inspected(hostPorts: PortMap, exited: bool)

  function Apply(c: Change, p: Task): Task {
    match c
    case StartFailure(now) => p.(startTime := now, state := Failed)
    case StartSuccess(now, container, ports) =>
      p.(startTime := now, containerID := container, hostPorts := ports, state := Running)
    case StopSuccess(now) => p.(finishTime := now, state := Completed)
    case Vanished => p.(state := Failed)
    case Inspected(ports, exited) =>
      if p.state != Running then p
      else if exited then p.(hostPorts := ports, state := Failed)
      else p.(hostPorts := ports)
  }

  // upsertTask: the change is applied to the record stored now; base is only
  // the fallback for a task not stored at all.
  function Upserted(s: WState, base: Task, c: Change): WState {
    Put(s, Apply(c, if base.id in s.db then s.db[base.id] else base))
  }

  lemma UpsertOfStored(s: WState, base: Task, c: Change)
    requires Keyed(s.db) && base.id in s.db
    ensures Upserted(s, base, c) == s.(db := s.db[base.id := Apply(c, s.db[base.id])])
    ensures Keyed(Upserted(s, base, c).db)
  {
  }

  // ----- RunTask -----

  datatype RunnerPc =
    | Idle
    | Looking(q: Task)                            // dequeued
    | Recording(q: Task)                          // lookup missed, putTask next
    | Starting(q: Task)                           // transition checked, Docker start under way
    | WritingStart(q: Task, answer: StartAnswer)  // Docker done, upsert next
    | Stopping(q: Task)                           // transition checked, Docker stop under way
    | WritingStop(q: Task)                        // Docker stopped it, upsert next

  datatype RunnerIo = RunnerIo(start: StartAnswer, stopped: bool, now: int)
  datatype RunnerConf = RunnerConf(s: WState, pc: RunnerPc)

  // RunTask after its lookup: the transition is checked against the record just
  // read, and only Scheduled and Completed are requests.
  function Dispatch(persisted: Task, q: Task): RunnerPc {
    if !IsValidTransition(persisted.state, q.state) then Idle
    else if q.state == Scheduled then Starting(q)
    else if q.state == Completed then Stopping(q)
    else Idle
  }

  function StartChange(q: Task, answer: StartAnswer, now: int): Change {
    match answer
    case StartFailed => StartFailure(now)
    case Started(container, ports) => StartSuccess(now, container, if ports.Some? then ports.value else q.hostPorts)
  }

  function RunnerStep(c: RunnerConf, io: RunnerIo): RunnerConf {
    var s := c.s;
    match c.pc
    case Idle =>
      if s.queue == [] then c else RunnerConf(s.(queue := s.queue[1..]), Looking(s.queue[0]))
    case Looking(q) =>
      RunnerConf(s, if q.id in s.db then Dispatch(s.db[q.id], q) else Recording(q))
    case Recording(q) => RunnerConf(Put(s, q), Dispatch(q, q))
    case Starting(q) => RunnerConf(s, WritingStart(q, io.start))
    case WritingStart(q, answer) => RunnerConf(Upserted(s, q, StartChange(q, answer, io.now)), Idle)
    case Stopping(q) => RunnerConf(s, if io.stopped then WritingStop(q) else Idle)
    case WritingStop(q) => RunnerConf(Upserted(s, q, StopSuccess(io.now)), Idle)
  }

  function RunnerLeft(pc: RunnerPc): nat {
    match pc
    case Idle => 0
    case Looking(_) => 4
    case Recording(_) => 3
    case Starting(_) => 2
    case Stopping(_) => 2
    case WritingStart(_, _) => 1
    case WritingStop(_) => 1
  }

  function FinishTask(c: RunnerConf, io: RunnerIo): WState
    decreases RunnerLeft(c.pc)
  {
    if c.pc.Idle? then c.s else FinishTask(RunnerStep(c, io), io)
  }

  // The whole body of RunTask, nobody else running.
  function RunTaskAlone(s: WState, io: RunnerIo): WState {
    FinishTask(RunnerStep(RunnerConf(s, Idle), io), io)
  }

  // ----- updateTasks -----

  datatype PassPc =
    | Resting
    | Walking(todo: seq<Task>)                       // snapshot entries still to visit
    | Merging(t: Task, c: Change, rest: seq<Task>)   // Inspect answered, upsert next

  datatype PassConf = PassConf(s: WState, pc: PassPc)

  // What a pass does about a Running task, given what Inspect returned: None
  // for a failed call, Vanished for a response with neither error nor container.
  function OnInspect(r: InspectResponse): Option<Change> {
    if r.failed then None
    else
      match r.container
      case None => Some(Vanished)
      case Some(container) => Some(Inspected(container.ports, container.exited))
  }

  function PassStep(c: PassConf, daemon: Option<Container>): PassConf {
    match c.pc
    case Resting => c
    case Walking(todo) =>
      if todo == [] then PassConf(c.s, Resting)
      else if todo[0].state != Running then PassConf(c.s, Walking(todo[1..]))
      else
        (match OnInspect(Inspect(daemon))
         case None => PassConf(c.s, Walking(todo[1..]))
         case Some(change) => PassConf(c.s, Merging(todo[0], change, todo[1..])))
    case Merging(t, change, rest) => PassConf(Upserted(c.s, t, change), Walking(rest))
  }

  function PassLeft(pc: PassPc): nat {
    match pc
    case Resting => 0
    case Walking(todo) => 2 * |todo| + 1
    case Merging(_, _, rest) => 2 * |rest| + 2
  }

  // Whose container the next step inspects.
  function Current(pc: PassPc): Uuid {
    if pc.Walking? && pc.todo != [] then pc.todo[0].id else 0
  }

  // The rest of a pass, nobody else running; daemon answers per task.
  function FinishPass(c: PassConf, daemon: Uuid -> Option<Container>): WState
    decreases PassLeft(c.pc)
  {
    if c.pc.Resting? then c.s else FinishPass(PassStep(c, daemon(Current(c.pc))), daemon)
  }

  // The unguarded write of a vanished container cannot happen.
  lemma NeverVanished(daemon: Option<Container>)
    ensures OnInspect(Inspect(daemon)) != Some(Vanished)
    ensures OnInspect(Inspect(daemon)).Some? <==> daemon.Some?
  {
  }
}
