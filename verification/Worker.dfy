// The Worker as the class it is (internal/worker/worker.go,
// internal/worker/state.go), proved against WorkerProtocol.

module Workers {
  import opened Options
  import opened Tasks
  import opened Store
  import opened WorkerProtocol
  import opened WorkerOutcomes

  class Worker {
    var db: map<Uuid, Task>
    var queue: seq<Task>

    function State(): WState
      reads this
    {
      WState(db, queue)
    }

    constructor ()
      ensures State() == WState(map[], [])
    {
      db, queue := map[], [];
    }

    // ----- The locked helpers -----

    method PutTask(t: Task)
      modifies this
      ensures State() == Put(old(State()), t)
    {
      db := db[t.id := t];
    }

    method UpsertTask(base: Task, change: Change)
      modifies this
      ensures State() == Upserted(old(State()), base, change)
    {
      var t := if base.id in db then db[base.id] else base;
      t := Apply(change, t);
      PutTask(t);
    }

    method LookupTask(id: Uuid) returns (t: Option<Task>)
      ensures t == if id in db then Some(db[id]) else None
    {
      t := if id in db then Some(db[id]) else None;
    }

    method ListTasks() returns (tasks: seq<Task>)
      requires Keyed(db)
      ensures IsListing(tasks, db)
    {
      tasks := List(db);
    }

    method EnqueueTask(t: Task)
      modifies this
      ensures db == old(db) && queue == old(queue) + [t]
    {
      queue := queue + [t];
    }

    method DequeueTask() returns (t: Option<Task>)
      modifies this
      ensures db == old(db)
      ensures t.None? <==> old(queue) == []
      ensures old(queue) == (if t.Some? then [t.value] else []) + queue
    {
      if queue == [] {
        t := None;
      } else {
        t := Some(queue[0]);
        queue := queue[1..];
      }
    }

    // ----- RunTask and what it calls -----

    method StartTask(t: Task, answer: StartAnswer, now: int)
      modifies this
      ensures State() == Upserted(old(State()), t, StartChange(t, answer, now))
    {
      var hostPorts := t.hostPorts;
      match answer {
        case StartFailed =>
          UpsertTask(t, StartFailure(now));
        case Started(containerID, ports) =>
          if ports.Some? {
            hostPorts := ports.value;
          }
          UpsertTask(t, StartSuccess(now, containerID, hostPorts));
      }
    }

    method StopTask(t: Task, stopped: bool, now: int)
      modifies this
      ensures State() == if stopped then Upserted(old(State()), t, StopSuccess(now)) else old(State())
    {
      if stopped {
        UpsertTask(t, StopSuccess(now));
      }
    }

    method RunTask(io: RunnerIo)
      modifies this
      ensures State() == RunTaskAlone(old(State()), io)
      ensures Keyed(old(db)) && old(queue) != [] ==>
                var q := old(queue)[0];
                && queue == old(queue)[1..]
                && db == old(db)[q.id := Answered(if q.id in old(db) then old(db)[q.id] else q, q, io)]
    {
      if Keyed(db) {
        RunTaskExactly(State(), io);
      }
      ghost var goal := RunTaskAlone(State(), io);
      var queued := DequeueTask();
      if queued.None? {
        return;
      }
      var q := queued.value;
      assert FinishTask(RunnerConf(State(), Looking(q)), io) == goal;
      var found := LookupTask(q.id);
      var persisted := q;
      if found.Some? {
        persisted := found.value;
      } else {
        assert FinishTask(RunnerConf(State(), Recording(q)), io) == goal;
        PutTask(q);
      }
      assert FinishTask(RunnerConf(State(), Dispatch(persisted, q)), io) == goal;
      if !IsValidTransition(persisted.state, q.state) {
        return;
      }
      match q.state {
        case Scheduled =>
          assert FinishTask(RunnerConf(State(), WritingStart(q, io.start)), io) == goal;
          StartTask(q, io.start, io.now);
        case Completed =>
          assert FinishTask(RunnerConf(State(), if io.stopped then WritingStop(q) else Idle), io) == goal;
          StopTask(q, io.stopped, io.now);
        case _ =>
      }
      assert FinishTask(RunnerConf(State(), Idle), io) == goal;
    }

    // ----- updateTasks -----

    method UpdateTasks(daemon: Uuid -> Option<Container>) returns (tasks: seq<Task>)
      requires Keyed(db)
      modifies this
      ensures IsListing(tasks, old(db))
      ensures State() == FinishPass(PassConf(old(State()), Walking(tasks)), daemon)
      ensures queue == old(queue) && db.Keys == old(db).Keys
      ensures forall id :: id in db ==> db[id] == Observed(old(db)[id], daemon(id))
    {
      tasks := ListTasks();
      ghost var goal := FinishPass(PassConf(State(), Walking(tasks)), daemon);
      for i := 0 to |tasks|
        invariant FinishPass(PassConf(State(), Walking(tasks[i..])), daemon) == goal
      {
        var t := tasks[i];
        assert tasks[i..][1..] == tasks[i + 1..];
        if t.state != Running {
          continue;
        }
        var response := Inspect(daemon(t.id));
        if response.failed {
          continue;
        }
        var change := if response.container.None? then Vanished
                      else Inspected(response.container.value.ports, response.container.value.exited);
        assert FinishPass(PassConf(State(), Merging(t, change, tasks[i + 1..])), daemon) == goal;
        UpsertTask(t, change);
      }
      assert tasks[|tasks|..] == [];
      PassExactly(old(State()), tasks, daemon);
    }
  }
}
