// The Manager as the class it is: guarded fields, locked helpers that update
// them in place, and the bodies of the three loops (internal/manager/state.go,
// internal/manager/manager.go). Every method is proved against the value-level
// protocol of ManagerProtocol, about which the whole-run theorems are stated.

module Managers {
  import opened Options
  import opened Tasks
  import opened Store
  import opened Nodes
  import opened Reports
  import opened ManagerProtocol
  import opened ManagerDispatch

  class Manager {
    const nodes: seq<Node>
    var taskDb: map<Uuid, Task>
    var eventDb: map<Uuid, TaskEvent>
    var workerTaskMap: map<string, seq<Uuid>>
    var taskWorkerMap: map<Uuid, string>
    var pending: seq<TaskEvent>

    function State(): MState
      reads this
    {
      MState(taskDb, eventDb, workerTaskMap, taskWorkerMap, pending)
    }

    // NewManager.
    constructor (nodes: seq<Node>)
      ensures this.nodes == nodes && State() == Initial(nodes)
    {
      this.nodes := nodes;
      taskDb, eventDb, workerTaskMap, taskWorkerMap, pending := map[], map[], map[], map[], [];
      new;
      for i := 0 to |nodes|
        invariant this.nodes == nodes
        invariant State() == MState(map[], map[], EmptyLists(nodes[..i]), map[], [])
      {
        assert nodes[..i + 1][..i] == nodes[..i];
        workerTaskMap := workerTaskMap[nodes[i].name := []];
      }
      assert nodes[..|nodes|] == nodes;
    }

    // ----- The locked helpers -----

    method PutTask(t: Task)
      modifies this
      ensures State() == Stored(old(State()), t)
    {
      taskDb := taskDb[t.id := t];
    }

    method SnapshotTasks() returns (tasks: seq<Task>)
      requires Keyed(taskDb)
      ensures IsListing(tasks, taskDb)
    {
      tasks := List(taskDb);
    }

    method EnqueueEvent(te: TaskEvent)
      modifies this
      ensures State() == Enqueued(old(State()), te)
    {
      pending := pending + [te];
    }

    method NextPendingEvent() returns (te: Option<TaskEvent>)
      modifies this
      ensures te.None? <==> old(pending) == []
      ensures te.None? ==> State() == old(State())
      ensures te.Some? ==> [te.value] + pending == old(pending) && State() == old(State()).(pending := pending)
    {
      if pending == [] {
        te := None;
      } else {
        te := Some(pending[0]);
        pending := pending[1..];
      }
    }

    method AssignTask(worker: string, te: TaskEvent)
      modifies this
      ensures State() == Assigned(old(State()), worker, te)
    {
      eventDb := eventDb[te.id := te];
      var listed := if worker in workerTaskMap then workerTaskMap[worker] else [];
      workerTaskMap := workerTaskMap[worker := listed + [te.task.id]];
      taskWorkerMap := taskWorkerMap[te.task.id := worker];
    }

    method UnassignTask(worker: string, taskID: Uuid)
      modifies this
      ensures State() == Unrouted(old(State()), worker, taskID)
    {
      taskWorkerMap := taskWorkerMap - {taskID};
      if worker !in workerTaskMap {
        return;
      }
      workerTaskMap := workerTaskMap[worker := RemoveFirst(workerTaskMap[worker], taskID)];
    }

    method ApplyWorkerReport(reported: Task) returns (known: bool)
      modifies this
      ensures State() == Merged(old(State()), reported)
      ensures known <==> reported.id in old(taskDb)
    {
      known := reported.id in taskDb;
      if known {
        taskDb := taskDb[reported.id := MergeTaskUpdate(taskDb[reported.id], reported)];
      }
    }

    method BeginRestart(uid: Uuid) returns (t: Option<Task>)
      modifies this
      ensures State() == Restarted(old(State()), uid)
      ensures t == if uid in old(taskDb) then Some(taskDb[uid]) else None
    {
      if uid !in taskDb {
        return None;
      }
      var next := taskDb[uid].(state := Scheduled, restartCount := taskDb[uid].restartCount + 1);
      taskDb := taskDb[uid := next];
      t := Some(next);
    }

    method RetireTask(worker: string, taskUID: Uuid)
      modifies this
      ensures State() == Retired(old(State()), worker, taskUID)
    {
      if taskUID in taskDb {
        taskDb := taskDb[taskUID := taskDb[taskUID].(state := Completed)];
      }
      taskWorkerMap := taskWorkerMap - {taskUID};
      if worker !in workerTaskMap {
        return;
      }
      workerTaskMap := workerTaskMap[worker := RemoveFirst(workerTaskMap[worker], taskUID)];
    }

    // ----- The loop bodies, with the answers of the outside world as arguments -----

    method StopTask(worker: string, taskID: Uuid, answer: StopAnswer)
      modifies this
      ensures State() == if Address(nodes, worker).Some? && answer.StopAccepted?
                         then Retired(old(State()), worker, taskID) else old(State())
    {
      if Address(nodes, worker).None? || !answer.StopAccepted? {
        return;
      }
      RetireTask(worker, taskID);
    }

    method SendWork(io: SendIo)
      modifies this
      ensures State() == SendAlone(nodes, old(State()), io)
    {
      ghost var before := State();
      var next := NextPendingEvent();
      if next.None? {
        return;
      }
      var te := next.value;
      match AssignmentFor(State(), te.task.id) {
        case Some(assignment) =>
          RoutedEventValue(nodes, before, io);
          var (worker, persisted) := assignment;
          if Stops(te, persisted) {
            StopTask(worker, te.task.id, io.stop);
          }
          return;
        case None =>
      }
      FreshEventValue(nodes, before, io);
      var selected := Picked(nodes, io);
      if selected.None? {
        return;
      }
      var n := selected.value;
      AssignTask(n.name, te);
      match io.post {
        case Unreachable =>
          UnassignTask(n.name, te.task.id);
          EnqueueEvent(te);
        case Refused =>
        case Accepted(created) =>
          PutTask(created);
      }
    }

    method RestartTask(id: Uuid, io: HealthIo)
      modifies this
      ensures State() == FinishRestart(nodes, HealthConf(old(State()), Restarting(id, [])), io)
    {
      if id !in taskWorkerMap || Address(nodes, taskWorkerMap[id]).None? {
        return;
      }
      var worker := taskWorkerMap[id];
      ghost var goal := FinishRestart(nodes, HealthConf(State(), Restarting(id, [])), io);
      assert FinishRestart(nodes, HealthConf(State(), Beginning(worker, id, [])), io) == goal;
      var t := BeginRestart(id);
      if t.None? {
        return;
      }
      var te := TaskEvent(io.eventId, Running, io.now, t.value);
      assert FinishRestart(nodes, HealthConf(State(), Reposting(id, te, [])), io) == goal;
      if io.post.Unreachable? {
        EnqueueEvent(te);
      }
      assert FinishRestart(nodes, HealthConf(State(), Walking([])), io) == goal;
    }

    method DoHealthChecks(io: Uuid -> HealthIo) returns (tasks: seq<Task>)
      requires Keyed(taskDb)
      modifies this
      ensures IsListing(tasks, old(taskDb))
      ensures State() == FinishPass(nodes, HealthConf(old(State()), Walking(tasks)), io)
      ensures taskDb.Keys == old(taskDb).Keys && pending == old(pending) + Requeued(nodes, old(State()), tasks, io)
      ensures forall id :: id in old(taskDb) ==>
                var t := old(taskDb)[id];
                taskDb[id] == if RestartDue(nodes, old(State()), t, io(id))
                              then t.(state := Scheduled, restartCount := t.restartCount + 1) else t
      ensures taskWorkerMap == old(taskWorkerMap) && workerTaskMap == old(workerTaskMap) && eventDb == old(eventDb)
    {
      tasks := SnapshotTasks();
      ghost var before := State();
      ghost var goal := FinishPass(nodes, HealthConf(State(), Walking(tasks)), io);
      for i := 0 to |tasks|
        invariant FinishPass(nodes, HealthConf(State(), Walking(tasks[i..])), io) == goal
      {
        var t := tasks[i];
        assert tasks[i..][1..] == tasks[i + 1..];
        var decided := DecideHealthAction(t);
        if decided == Restart || (decided == Check && !Passes(nodes, State(), t, io(t.id))) {
          PassFinishesRestartFirst(nodes, HealthConf(State(), Restarting(t.id, tasks[i + 1..])), io);
          RestartIgnoresRest(nodes, State(), t.id, tasks[i + 1..], io(t.id));
          RestartTask(t.id, io(t.id));
        }
      }
      assert tasks[|tasks|..] == [];
      HealthPassExactly(nodes, before, tasks, io);
    }

    // One worker's part of the update pass; None stands for every failed poll.
    method UpdateTasksFromWorker(worker: string, answer: Option<seq<Task>>)
      modifies this
      ensures State() == old(State()).(taskDb :=
                if Address(nodes, worker).Some? && answer.Some? then ApplyAll(old(taskDb), answer.value) else old(taskDb))
      ensures taskDb.Keys == old(taskDb).Keys
      ensures (exists n :: n in nodes && n.name == worker) && answer.Some? ==>
                forall id :: id in taskDb ==> taskDb[id] == Fold(old(taskDb)[id], OfTask(answer.value, id))
    {
      KnownNamesResolve(nodes, worker);
      if Address(nodes, worker).None? || answer.None? {
        return;
      }
      var tasks := answer.value;
      for i := 0 to |tasks|
        invariant ApplyAll(taskDb, tasks[i..]) == ApplyAll(old(taskDb), tasks)
        invariant State() == old(State()).(taskDb := taskDb)
      {
        assert tasks[i..][1..] == tasks[i + 1..];
        var known := ApplyWorkerReport(tasks[i]);
      }
      assert tasks[|tasks|..] == [];
      ListFoldsEachRecord(old(taskDb), tasks);
    }
  }
}
