// What one SendWork, one restart and one whole health pass leave behind, outcome
// by outcome and field by field.

module ManagerDispatch {
  import opened Options
  import opened Tasks
  import opened Store
  import opened Nodes
  import opened Reports
  import opened ManagerProtocol

  // What a body leaves alone: everything about other tasks and other workers.
  ghost predicate OnlyTouches(m: MState, m': MState, id: Uuid, worker: string) {
    && m'.taskDb - {id} == m.taskDb - {id}
    && m'.taskWorker - {id} == m.taskWorker - {id}
    && m'.workerTasks - {worker} == m.workerTasks - {worker}
  }

  lemma TakeEvent(nodes: seq<Node>, m: MState, io: SendIo)
    requires m.pending != []
    ensures SendAlone(nodes, m, io)
         == FinishSend(nodes, SendConf(m.(pending := m.pending[1..]), Holding(m.pending[0])), io)
  {
  }

  lemma AssignEffects(m: MState, w: string, te: TaskEvent)
    ensures var m', id := Assigned(m, w, te), te.task.id;
            && OnlyTouches(m, m', id, w) && m'.taskDb == m.taskDb && m'.pending == m.pending
            && id in m'.taskWorker && m'.taskWorker[id] == w && Listed(m', w) == Listed(m, w) + [id]
            && m'.eventDb == m.eventDb[te.id := te]
  {
  }

  lemma UnrouteEffects(m: MState, w: string, id: Uuid)
    ensures var m' := Unrouted(m, w, id);
            && OnlyTouches(m, m', id, w) && m'.taskDb == m.taskDb && m'.pending == m.pending && m'.eventDb == m.eventDb
            && id !in m'.taskWorker && multiset(Listed(m', w)) == multiset(Listed(m, w)) - multiset{id}
  {
    RemoveFirstCounts(Listed(m, w), id);
  }

  // ----- A routed and stored task -----

  lemma RoutedEventValue(nodes: seq<Node>, m: MState, io: SendIo)
    requires m.pending != [] && m.pending[0].task.id in m.taskWorker && m.pending[0].task.id in m.taskDb
    ensures var te, id, m1 := m.pending[0], m.pending[0].task.id, m.(pending := m.pending[1..]);
            SendAlone(nodes, m, io)
            == if te.task.state == Completed && m.taskDb[id].state == Running && StopLands(nodes, m.taskWorker[id], io)
               then Retired(m1, m.taskWorker[id], id) else m1
  {
    var te, id, m1 := m.pending[0], m.pending[0].task.id, m.(pending := m.pending[1..]);
    var w := m.taskWorker[id];
    TakeEvent(nodes, m, io);
    assert AssignmentFor(m1, id) == Some((w, m.taskDb[id]));
    if Stops(te, m.taskDb[id]) {
      assert SendAlone(nodes, m, io) == FinishSend(nodes, SendConf(m1, Stopping(te, w)), io);
      var m2 := if StopLands(nodes, w, io) then Retired(m1, w, id) else m1;
      assert SendAlone(nodes, m, io) == FinishSend(nodes, SendConf(m2, Idle), io) == m2;
    } else {
      assert SendAlone(nodes, m, io) == FinishSend(nodes, SendConf(m1, Idle), io) == m1;
    }
  }

  ghost predicate Closes(m: MState, m': MState, w: string, id: Uuid)
    requires id in m.taskDb
  {
    && m'.pending == m.pending && m'.eventDb == m.eventDb && OnlyTouches(m, m', id, w)
    && m'.taskDb == m.taskDb[id := m.taskDb[id].(state := Completed)] && id !in m'.taskWorker
    && multiset(Listed(m', w)) == multiset(Listed(m, w)) - multiset{id}
  }

  lemma RetireCloses(m: MState, w: string, id: Uuid)
    requires id in m.taskDb
    ensures Closes(m, Retired(m, w, id), w, id)
  {
    var closed := m.(taskDb := m.taskDb[id := m.taskDb[id].(state := Completed)]);
    UnrouteEffects(closed, w, id);
    assert closed.taskDb - {id} == m.taskDb - {id};
    assert Retired(m, w, id) == Unrouted(closed, w, id);
  }

  // Retiring a task that is not stored drops its routing all the same.
  lemma RetireUnknown(m: MState, w: string, id: Uuid)
    requires id !in m.taskDb
    ensures var m' := Retired(m, w, id);
            && m'.taskDb == m.taskDb && m'.pending == m.pending && m'.eventDb == m.eventDb && OnlyTouches(m, m', id, w)
            && id !in m'.taskWorker && multiset(Listed(m', w)) == multiset(Listed(m, w)) - multiset{id}
  {
    UnrouteEffects(m, w, id);
  }

  // Only a Completed event for a Running task, accepted by the worker, does
  // anything: it closes and unroutes that task.
  lemma RoutedEventStopsOrIsIgnored(nodes: seq<Node>, m: MState, io: SendIo)
    requires m.pending != [] && m.pending[0].task.id in m.taskWorker && m.pending[0].task.id in m.taskDb
    ensures var te, id, m1 := m.pending[0], m.pending[0].task.id, m.(pending := m.pending[1..]);
            var w := m.taskWorker[id];
            if te.task.state == Completed && m.taskDb[id].state == Running
               && (exists n :: n in nodes && n.name == w) && io.stop.StopAccepted? then
              Closes(m1, SendAlone(nodes, m, io), w, id)
            else
              SendAlone(nodes, m, io) == m1
  {
    var id, m1 := m.pending[0].task.id, m.(pending := m.pending[1..]);
    RoutedEventValue(nodes, m, io);
    KnownNamesResolve(nodes, m.taskWorker[id]);
    RetireCloses(m1, m.taskWorker[id], id);
  }

  // ----- Any other task: fresh dispatch -----

  lemma AnsweredPost(nodes: seq<Node>, m2: MState, te: TaskEvent, n: Node, io: SendIo)
    ensures FinishSend(nodes, SendConf(m2, Posting(te, n)), io)
         == match io.post
            case Accepted(created) => Stored(m2, created)
            case Refused => m2
            case Unreachable => Enqueued(Unrouted(m2, n.name, te.task.id), te)
  {
    var goal := FinishSend(nodes, SendConf(m2, Posting(te, n)), io);
    match io.post
    case Accepted(created) => assert goal == FinishSend(nodes, SendConf(Stored(m2, created), Idle), io);
    case Refused => assert goal == FinishSend(nodes, SendConf(m2, Idle), io);
    case Unreachable =>
      var m3 := Unrouted(m2, n.name, te.task.id);
      assert goal == FinishSend(nodes, SendConf(m2, RollingBack(te, n)), io);
      assert goal == FinishSend(nodes, SendConf(m3, Requeueing(te)), io);
      assert goal == FinishSend(nodes, SendConf(Enqueued(m3, te), Idle), io);
  }

  lemma FreshEventValue(nodes: seq<Node>, m: MState, io: SendIo)
    requires m.pending != [] && (m.pending[0].task.id !in m.taskWorker || m.pending[0].task.id !in m.taskDb)
    ensures var te, m1 := m.pending[0], m.(pending := m.pending[1..]);
            SendAlone(nodes, m, io)
            == match Picked(nodes, io)
               case None => m1
               case Some(n) =>
                 var m2 := Assigned(m1, n.name, te);
                 match io.post
                 case Accepted(created) => Stored(m2, created)
                 case Refused => m2
                 case Unreachable => Enqueued(Unrouted(m2, n.name, te.task.id), te)
  {
    var te, m1 := m.pending[0], m.(pending := m.pending[1..]);
    TakeEvent(nodes, m, io);
    assert SendAlone(nodes, m, io) == FinishSend(nodes, SendConf(m1, Selecting(te)), io);
    match Picked(nodes, io)
    case None => assert SendAlone(nodes, m, io) == FinishSend(nodes, SendConf(m1, Idle), io);
    case Some(n) =>
      var m2 := Assigned(m1, n.name, te);
      assert SendAlone(nodes, m, io) == FinishSend(nodes, SendConf(m2, Posting(te, n)), io);
      AnsweredPost(nodes, m2, te, n, io);
  }

  // The event is logged and the worker's answer decides the rest: accepted, the
  // task is stored and routed; refused, it is routed and not stored;
  // unreachable, it is neither, and the event is back on the queue.
  ghost predicate Dispatches(m: MState, m': MState, w: string, te: TaskEvent, post: PostAnswer) {
    var id := te.task.id;
    && m'.eventDb == m.eventDb[te.id := te]
    && m'.taskDb == (if post.Accepted? then m.taskDb[post.created.id := post.created] else m.taskDb)
    && m'.pending == (if post.Unreachable? then m.pending + [te] else m.pending)
    && OnlyTouches(m, m'.(taskDb := m.taskDb), id, w)
    && if post.Unreachable? then
         id !in m'.taskWorker && multiset(Listed(m', w)) == multiset(Listed(m, w))
       else
         id in m'.taskWorker && m'.taskWorker[id] == w && Listed(m', w) == Listed(m, w) + [id]
  }

  lemma AnswersDispatch(m: MState, m': MState, w: string, te: TaskEvent, post: PostAnswer)
    requires m' == match post
                   case Accepted(created) => Stored(Assigned(m, w, te), created)
                   case Refused => Assigned(m, w, te)
                   case Unreachable => Enqueued(Unrouted(Assigned(m, w, te), w, te.task.id), te)
    ensures Dispatches(m, m', w, te, post)
  {
    AssignEffects(m, w, te);
    UnrouteEffects(Assigned(m, w, te), w, te.task.id);
  }

  // With no worker picked the event is dropped; otherwise it is dispatched.
  lemma FreshEventDispatches(nodes: seq<Node>, m: MState, io: SendIo)
    requires m.pending != [] && (m.pending[0].task.id !in m.taskWorker || m.pending[0].task.id !in m.taskDb)
    ensures var m1, m' := m.(pending := m.pending[1..]), SendAlone(nodes, m, io);
            match Picked(nodes, io)
            case None => m' == m1
            case Some(n) => Dispatches(m1, m', n.name, m.pending[0], io.post)
  {
    FreshEventValue(nodes, m, io);
    match Picked(nodes, io)
    case None =>
    case Some(n) => AnswersDispatch(m.(pending := m.pending[1..]), SendAlone(nodes, m, io), n.name, m.pending[0], io.post);
  }

  // ----- Restarts -----

  // The task is routed to a worker of that name.
  predicate Reachable(nodes: seq<Node>, m: MState, id: Uuid) {
    id in m.taskWorker && exists n :: n in nodes && n.name == m.taskWorker[id]
  }

  // The record a restart leaves.
  function RestartedTask(t: Task): Task {
    t.(state := Scheduled, restartCount := t.restartCount + 1)
  }

  // A restart of a routed and stored task reschedules it and spends one count;
  // routes, lists and log stay, and the restart event, carrying the new record,
  // is queued exactly when the worker was unreachable. Otherwise nothing happens.
  lemma RestartOutcomes(nodes: seq<Node>, m: MState, id: Uuid, io: HealthIo)
    ensures FinishRestart(nodes, HealthConf(m, Restarting(id, [])), io)
         == if Reachable(nodes, m, id) && id in m.taskDb then
              var t := RestartedTask(m.taskDb[id]);
              m.(taskDb := m.taskDb[id := t],
                 pending := if io.post.Unreachable? then m.pending + [TaskEvent(io.eventId, Running, io.now, t)]
                            else m.pending)
            else m
  {
    var goal := FinishRestart(nodes, HealthConf(m, Restarting(id, [])), io);
    if id in m.taskWorker {
      KnownNamesResolve(nodes, m.taskWorker[id]);
    }
    if Reachable(nodes, m, id) {
      var w := m.taskWorker[id];
      assert goal == FinishRestart(nodes, HealthConf(m, Beginning(w, id, [])), io);
      if id in m.taskDb {
        var m1 := m.(taskDb := m.taskDb[id := RestartedTask(m.taskDb[id])]);
        var te := TaskEvent(io.eventId, Running, io.now, m1.taskDb[id]);
        assert goal == FinishRestart(nodes, HealthConf(m1, Reposting(id, te, [])), io);
        assert goal == FinishRestart(nodes, HealthConf(if io.post.Unreachable? then Enqueued(m1, te) else m1, Walking([])), io);
      } else {
        assert goal == FinishRestart(nodes, HealthConf(m, Walking([])), io);
      }
    } else {
      assert goal == FinishRestart(nodes, HealthConf(m, Walking([])), io);
    }
  }

  // ----- A whole health pass -----

  // A restart is due: restarts are left, the task can be reached, and it is Failed,
  // or Running without a published port or with an unhealthy answer.
  predicate RestartDue(nodes: seq<Node>, m: MState, t: Task, io: HealthIo) {
    && t.restartCount < 3 && Reachable(nodes, m, t.id)
    && (t.state == Failed || (t.state == Running && (t.hostPorts == map[] || !io.healthy)))
  }

  // What one visit queues.
  function RequeuedBy(nodes: seq<Node>, m: MState, t: Task, io: HealthIo): seq<TaskEvent> {
    if RestartDue(nodes, m, t, io) && io.post.Unreachable? then [TaskEvent(io.eventId, Running, io.now, RestartedTask(t))] else []
  }

  // The requeued restart events, in the order of the walk.
  function Requeued(nodes: seq<Node>, m: MState, todo: seq<Task>, io: Uuid -> HealthIo): seq<TaskEvent>
    decreases |todo|
  {
    if todo == [] then [] else RequeuedBy(nodes, m, todo[0], io(todo[0].id)) + Requeued(nodes, m, todo[1..], io)
  }

  ghost predicate IsChosen(nodes: seq<Node>, m: MState, todo: seq<Task>, io: Uuid -> HealthIo, id: Uuid) {
    exists k :: 0 <= k < |todo| && todo[k].id == id && RestartDue(nodes, m, todo[k], io(id))
  }

  // The state after one visit of the walk.
  function AfterVisit(nodes: seq<Node>, m: MState, t: Task, io: HealthIo): MState {
    if RestartDue(nodes, m, t, io) then
      m.(taskDb := m.taskDb[t.id := RestartedTask(t)],
         pending := if io.post.Unreachable? then m.pending + [TaskEvent(io.eventId, Running, io.now, RestartedTask(t))]
                    else m.pending)
    else m
  }

  lemma VisitOutcome(nodes: seq<Node>, m: MState, todo: seq<Task>, io: Uuid -> HealthIo)
    requires todo != [] && todo[0].id in m.taskDb && m.taskDb[todo[0].id] == todo[0]
    ensures FinishPass(nodes, HealthConf(m, Walking(todo)), io)
         == FinishPass(nodes, HealthConf(AfterVisit(nodes, m, todo[0], io(todo[0].id)), Walking(todo[1..])), io)
  {
    var t, i := todo[0], io(todo[0].id);
    if t.id in m.taskWorker {
      KnownNamesResolve(nodes, m.taskWorker[t.id]);
    }
    if DecideHealthAction(t) == Restart || (DecideHealthAction(t) == Check && !Passes(nodes, m, t, i)) {
      assert FinishPass(nodes, HealthConf(m, Walking(todo)), io)
          == FinishPass(nodes, HealthConf(m, Restarting(t.id, todo[1..])), io);
      PassFinishesRestartFirst(nodes, HealthConf(m, Restarting(t.id, todo[1..])), io);
      RestartIgnoresRest(nodes, m, t.id, todo[1..], i);
      RestartOutcomes(nodes, m, t.id, i);
    }
  }

  // Exactly the chosen entries are restarted, exactly their undelivered restarts
  // are queued, and everything else is left alone.
  ghost predicate RestartsTheChosen(nodes: seq<Node>, m: MState, m': MState, todo: seq<Task>, io: Uuid -> HealthIo) {
    && m'.taskWorker == m.taskWorker && m'.workerTasks == m.workerTasks && m'.eventDb == m.eventDb
    && m'.pending == m.pending + Requeued(nodes, m, todo, io)
    && m'.taskDb.Keys == m.taskDb.Keys
    && forall id :: id in m.taskDb ==>
         m'.taskDb[id] == if IsChosen(nodes, m, todo, io, id) then RestartedTask(m.taskDb[id]) else m.taskDb[id]
  }

  // Which entries are chosen depends on the routes alone.
  lemma {:induction false} RoutesDecide(nodes: seq<Node>, m: MState, m': MState, todo: seq<Task>, io: Uuid -> HealthIo)
    requires m'.taskWorker == m.taskWorker
    ensures forall t, i :: RestartDue(nodes, m', t, i) == RestartDue(nodes, m, t, i)
    ensures Requeued(nodes, m', todo, io) == Requeued(nodes, m, todo, io)
    ensures forall id :: IsChosen(nodes, m', todo, io, id) == IsChosen(nodes, m, todo, io, id)
    decreases |todo|
  {
    if todo == [] {
    } else {
      RoutesDecide(nodes, m, m', todo[1..], io);
    }
  }

  lemma ChosenSplits(nodes: seq<Node>, m: MState, todo: seq<Task>, io: Uuid -> HealthIo, id: Uuid)
    requires todo != []
    ensures IsChosen(nodes, m, todo, io, id)
       <==> (id == todo[0].id && RestartDue(nodes, m, todo[0], io(id))) || IsChosen(nodes, m, todo[1..], io, id)
  {
    var rest := todo[1..];
    if k :| 0 <= k < |rest| && rest[k].id == id && RestartDue(nodes, m, rest[k], io(id)) {
      assert todo[k + 1] == rest[k];
    }
    if k :| 0 < k < |todo| && todo[k].id == id && RestartDue(nodes, m, todo[k], io(id)) {
      assert rest[k - 1] == todo[k];
    }
  }

  lemma RecordAfterVisitAndRest(nodes: seq<Node>, m: MState, m': MState, todo: seq<Task>, io: Uuid -> HealthIo, id: Uuid)
    requires todo != [] && DistinctIds(todo) && CurrentIn(todo, m.taskDb) && id in m.taskDb
    requires RestartsTheChosen(nodes, AfterVisit(nodes, m, todo[0], io(todo[0].id)), m', todo[1..], io)
    ensures id in m'.taskDb
    ensures m'.taskDb[id] == if IsChosen(nodes, m, todo, io, id) then RestartedTask(m.taskDb[id]) else m.taskDb[id]
  {
    var t, rest := todo[0], todo[1..];
    var m1 := AfterVisit(nodes, m, t, io(t.id));
    assert id in m1.taskDb;
    assert m1.taskDb[id] == if id == t.id && RestartDue(nodes, m, t, io(t.id)) then RestartedTask(t) else m.taskDb[id];
    RoutesDecide(nodes, m, m1, rest, io);
    ChosenSplits(nodes, m, todo, io, id);
    assert id == t.id ==> !IsChosen(nodes, m, rest, io, id);
  }

  lemma Regroup(q: seq<TaskEvent>, visit: seq<TaskEvent>, rest: seq<TaskEvent>)
    ensures (q + visit) + rest == q + (visit + rest)
    ensures q + [] == q
  {
  }

  lemma QueueAfterVisit(nodes: seq<Node>, m: MState, t: Task, io: HealthIo)
    ensures AfterVisit(nodes, m, t, io).pending == m.pending + RequeuedBy(nodes, m, t, io)
  {
    Regroup(m.pending, [], []);
  }

  lemma QueueAfterVisitAndRest(nodes: seq<Node>, m: MState, todo: seq<Task>, io: Uuid -> HealthIo)
    requires todo != []
    ensures AfterVisit(nodes, m, todo[0], io(todo[0].id)).pending + Requeued(nodes, m, todo[1..], io)
         == m.pending + Requeued(nodes, m, todo, io)
  {
    var visit := RequeuedBy(nodes, m, todo[0], io(todo[0].id));
    QueueAfterVisit(nodes, m, todo[0], io(todo[0].id));
    Regroup(m.pending, visit, Requeued(nodes, m, todo[1..], io));
  }

  lemma VisitThenRest(nodes: seq<Node>, m: MState, m': MState, todo: seq<Task>, io: Uuid -> HealthIo)
    requires todo != [] && DistinctIds(todo) && CurrentIn(todo, m.taskDb)
    requires RestartsTheChosen(nodes, AfterVisit(nodes, m, todo[0], io(todo[0].id)), m', todo[1..], io)
    ensures RestartsTheChosen(nodes, m, m', todo, io)
  {
    var m1 := AfterVisit(nodes, m, todo[0], io(todo[0].id));
    RoutesDecide(nodes, m, m1, todo[1..], io);
    assert m1.taskDb.Keys == m.taskDb.Keys;
    QueueAfterVisitAndRest(nodes, m, todo, io);
    forall id | id in m.taskDb
      ensures m'.taskDb[id] == if IsChosen(nodes, m, todo, io, id) then RestartedTask(m.taskDb[id]) else m.taskDb[id]
    {
      RecordAfterVisitAndRest(nodes, m, m', todo, io, id);
    }
  }

  // With nobody interfering, a pass over a current snapshot restarts exactly the
  // chosen tasks, each once, and touches nothing else.
  lemma {:induction false} PassRestartsExactlyTheChosen(nodes: seq<Node>, m: MState, todo: seq<Task>, io: Uuid -> HealthIo)
    requires DistinctIds(todo) && CurrentIn(todo, m.taskDb)
    ensures RestartsTheChosen(nodes, m, FinishPass(nodes, HealthConf(m, Walking(todo)), io), todo, io)
    decreases |todo|
  {
    if todo == [] {
      assert FinishPass(nodes, HealthConf(m, Walking(todo)), io) == FinishPass(nodes, HealthConf(m, Resting), io) == m;
    } else {
      VisitOutcome(nodes, m, todo, io);
      PassRestartsExactlyTheChosen(nodes, AfterVisit(nodes, m, todo[0], io(todo[0].id)), todo[1..], io);
      VisitThenRest(nodes, m, FinishPass(nodes, HealthConf(m, Walking(todo)), io), todo, io);
    }
  }

  // So of every stored task: its record becomes Scheduled with one more count when
  // a restart is due, and is left alone otherwise.
  lemma HealthPassExactly(nodes: seq<Node>, m: MState, listing: seq<Task>, io: Uuid -> HealthIo)
    requires Keyed(m.taskDb) && IsListing(listing, m.taskDb)
    ensures var m' := FinishPass(nodes, HealthConf(m, Walking(listing)), io);
            && m'.taskDb.Keys == m.taskDb.Keys
            && (forall id :: id in m.taskDb ==>
                  var t := m.taskDb[id];
                  m'.taskDb[id] == if RestartDue(nodes, m, t, io(id))
                                   then t.(state := Scheduled, restartCount := t.restartCount + 1) else t)
            && m'.pending == m.pending + Requeued(nodes, m, listing, io)
            && m'.taskWorker == m.taskWorker && m'.workerTasks == m.workerTasks && m'.eventDb == m.eventDb
  {
    PassRestartsExactlyTheChosen(nodes, m, listing, io);
    forall id | id in m.taskDb
      ensures IsChosen(nodes, m, listing, io, id) <==> RestartDue(nodes, m, m.taskDb[id], io(id))
    {
      assert m.taskDb[id] in listing;
      var k :| 0 <= k < |listing| && listing[k] == m.taskDb[id];
      assert listing[k].id == id;
    }
  }
}
