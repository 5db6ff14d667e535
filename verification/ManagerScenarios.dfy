// Concrete runs of a new manager with one caller and one health loop, each showing
// that a condition of the theorems can fail. Workers echo every task unchanged.

module ManagerScenarios {
  import opened Options
  import opened Tasks
  import opened Nodes
  import opened Reports
  import opened ManagerProtocol
  import opened ManagerSystem
  import opened ManagerBudget
  import opened ManagerEvents
  import opened ManagerRetire
  import opened ManagerRevive
  import opened ManagerLive
  import opened ManagerEdges

  // What the runs keep to: workers echo every task unchanged, and
  // tasks are first stored within the budget.
  predicate FaithfulEcho(s: System, a: Action) {
    EchoesExactly(s, a) && StoresWithinBudget(s, a)
  }

  predicate PlainScope(s: System, a: Action) {
    NoRedispatch(s, a) && FaithfulEcho(s, a)
  }

  // One task is submitted, sent and stored.
  lemma StoreOneTask(n: Node, te: TaskEvent) returns (acts: seq<Action>)
    requires te.task.restartCount <= TASK_RESTART_MAX
    ensures var s := Run(Boot([n], 1, 0), acts);
            && Along(Boot([n], 1, 0), acts, PlainScope)
            && s.nodes == [n] && s.sends == [Idle] && s.health == Resting && s.m.pending == []
            && s.m.taskDb == map[te.task.id := te.task] && s.m.taskWorker == map[te.task.id := n.name]
  {
    var s, io := Boot([n], 1, 0), SendIo(Some(n), PostAnswer.Accepted(te.task), StopAccepted);
    acts := Extend(s, [], Submit(te), PlainScope);
    assert Run(s, acts).m.pending == [te];
    acts := Extend(s, acts, Send(0, io), PlainScope);
    acts := Extend(s, acts, Send(0, io), PlainScope);
    assert Run(s, acts).sends == [Selecting(te)] && Run(s, acts).m == s.m;
    assert n in s.nodes;
    acts := Extend(s, acts, Send(0, io), PlainScope);
    acts := Extend(s, acts, Send(0, io), PlainScope);
  }

  // ----- A stop and a restart meet -----

  lemma UnhealthyEntryBegins(r: System, n: Node, t: Task)
    requires r.nodes == [n] && r.health == Resting && r.m.taskDb == map[t.id := t] && r.m.taskWorker == map[t.id := n.name]
    requires t.state == Running && t.restartCount == 0
    ensures var ill := Health(HealthIo(false, Refused, 0, 0));
            Step(Step(Step(r, Snapshot([t])), ill), ill) == r.(health := Beginning(n.name, t.id, []))
  {
    var ill := Health(HealthIo(false, Refused, 0, 0));
    assert [t][1..] == [];
    var r1 := Step(r, Snapshot([t]));
    assert r1 == r.(health := Walking([t]));
    var r2 := Step(r1, ill);
    assert r2 == r.(health := Restarting(t.id, []));
  }

  // A stop is sent out, and a failed health check reads the route.
  lemma BringStopAndRestartTogether(s: System, acts: seq<Action>, n: Node, te: TaskEvent, stop: TaskEvent)
      returns (more: seq<Action>)
    requires Along(s, acts, PlainScope)
    requires var r := Run(s, acts);
             && r.nodes == [n] && r.sends == [Idle] && r.health == Resting && r.m.pending == []
             && r.m.taskDb == map[te.task.id := te.task] && r.m.taskWorker == map[te.task.id := n.name]
    requires te.task.state == Running && te.task.restartCount == 0
    requires stop.task == te.task.(state := Completed)
    ensures Along(s, more, PlainScope)
    ensures var r := Run(s, more);
            && r.nodes == [n] && r.sends == [Stopping(stop, n.name)] && r.health == Beginning(n.name, te.task.id, [])
            && r.m.pending == [] && r.m.taskDb == map[te.task.id := te.task] && r.m.taskWorker == map[te.task.id := n.name]
  {
    var io, ill := SendIo(None, Refused, StopAccepted), Health(HealthIo(false, Refused, 0, 0));
    more := Extend(s, acts, Submit(stop), PlainScope);
    assert Run(s, more).m.pending == [stop];
    more := Extend(s, more, Send(0, io), PlainScope);
    more := Extend(s, more, Send(0, io), PlainScope);
    var r := Run(s, more);
    assert r.sends == [Stopping(stop, n.name)];
    UnhealthyEntryBegins(r, n, te.task);
    more := Extend(s, more, Snapshot([te.task]), PlainScope);
    more := Extend(s, more, ill, PlainScope);
    more := Extend(s, more, ill, PlainScope);
  }

  // What the stop landing does to the only task.
  lemma StopLandsNow(r: System, n: Node, stop: TaskEvent)
    requires r.nodes == [n] && r.sends == [Stopping(stop, n.name)]
    requires r.m.taskDb.Keys == {stop.task.id} && r.m.taskWorker == map[stop.task.id := n.name]
    ensures var a := Send(0, SendIo(None, Refused, StopAccepted));
            var r' := Step(r, a);
            && Retires(r, a, stop.task.id) && IsRetired(r', stop.task.id) && r'.m.taskWorker == map[]
            && r'.m.taskDb == map[stop.task.id := r.m.taskDb[stop.task.id].(state := Completed)]
            && r'.nodes == r.nodes && r'.health == r.health && r'.m.pending == r.m.pending && r'.sends == [Idle]
  {
    KnownNamesResolve([n], n.name);
    assert n in [n];
    var id := stop.task.id;
    assert r.m.taskDb[id := r.m.taskDb[id].(state := Completed)] == map[id := r.m.taskDb[id].(state := Completed)];
  }

  // The window is real: a stop and a failed health check of the same task can
  // meet in it.
  lemma StopMeetsRestart(n: Node, te: TaskEvent, stop: TaskEvent) returns (before: seq<Action>, a: Action)
    requires te.task.state == Running && te.task.restartCount == 0
    requires stop.task == te.task.(state := Completed)
    ensures var s := Run(Boot([n], 1, 0), before);
            && Along(Boot([n], 1, 0), before, PlainScope) && Along(Boot([n], 1, 0), before, FreshScope)
            && Retires(s, a, te.task.id) && RestartWindowOpen(s, te.task.id)
  {
    var boot := Boot([n], 1, 0);
    before := StoreOneTask(n, te);
    before := BringStopAndRestartTogether(boot, before, n, te, stop);
    AlongImplies(boot, before, PlainScope, FreshScope);
    a := Send(0, SendIo(None, Refused, StopAccepted));
    StopLandsNow(Run(boot, before), n, stop);
  }

  // What beginRestart does to a retired task.
  lemma LateRestart(r: System, id: Uuid, a: Action)
    requires IsRetired(r, id) && RestartWindowOpen(r, id) && a.Health?
    ensures var r' := Step(r, a);
            && id in r'.m.taskDb && r'.m.taskDb[id].state == Scheduled && id !in r'.m.taskWorker
            && !LiveAreRouted(r'.m) && !KeepsToEdges(r, a)
  {
    assert Step(r, a).m.taskDb[id].state == Scheduled;
  }

  // One step later the stopped task is Scheduled without a route: a live task is
  // out of reach, and its state has left Completed.
  lemma StopMeetsRestartGoesOn(n: Node, te: TaskEvent, stop: TaskEvent) returns (acts: seq<Action>)
    requires te.task.state == Running && te.task.restartCount == 0
    requires stop.task == te.task.(state := Completed)
    ensures var boot, id := Boot([n], 1, 0), te.task.id;
            var r := Run(boot, acts);
            && Along(boot, acts, PlainScope) && Along(boot, acts, FreshScope)
            && id in r.m.taskDb && r.m.taskDb[id].state == Scheduled && id !in r.m.taskWorker
            && !StaysLive(boot, acts) && !Along(boot, acts, KeepsToEdges)
  {
    var boot, id := Boot([n], 1, 0), te.task.id;
    acts := StoreOneTask(n, te);
    acts := BringStopAndRestartTogether(boot, acts, n, te, stop);
    StopLandsNow(Run(boot, acts), n, stop);
    acts := Extend(boot, acts, Send(0, SendIo(None, Refused, StopAccepted)), PlainScope);
    var last := Health(HealthIo(true, Refused, 0, 0));
    LateRestart(Run(boot, acts), id, last);
    RunSnoc(boot, acts, last, KeepsToEdges);
    acts := Extend(boot, acts, last, PlainScope);
    AlongImplies(boot, acts, PlainScope, FreshScope);
    LiveAtTheEnd(boot, acts);
  }

  // ----- A retired task comes back -----

  // The event of an unrouted task is dispatched and the task stored.
  lemma DispatchQueued(r: System, n: Node, te: TaskEvent) returns (acts: seq<Action>)
    requires r.nodes == [n] && r.sends == [Idle] && r.m.pending == [te] && te.task.restartCount <= TASK_RESTART_MAX
    requires r.m.taskDb.Keys == {te.task.id} && r.m.taskWorker == map[]
    ensures Along(r, acts, FaithfulEcho) && NotSubmitted(acts, te.task.id) && Ended(r, acts, Dispatched, te) > 0
    ensures var r' := Run(r, acts);
            && r'.nodes == [n] && r'.health == r.health
            && r'.m.taskDb == map[te.task.id := te.task] && r'.m.taskWorker == map[te.task.id := n.name]
  {
    var a := Send(0, SendIo(Some(n), PostAnswer.Accepted(te.task), StopRefused));
    acts := Extend(r, [], a, FaithfulEcho);
    assert Run(r, acts) == r.(m := r.m.(pending := []), sends := [Holding(te)]);
    acts := Extend(r, acts, a, FaithfulEcho);
    assert Run(r, acts) == r.(m := r.m.(pending := []), sends := [Selecting(te)]);
    assert n in r.nodes;
    acts := Extend(r, acts, a, FaithfulEcho);
    assert Run(r, acts).sends == [Posting(te, n)];
    EndedSnoc(r, acts, a, Dispatched, te);
    acts := Extend(r, acts, a, FaithfulEcho);
    assert r.m.taskDb[te.task.id := te.task] == map[te.task.id := te.task];
  }

  // The event of a first restart.
  function RestartEvent(t: Task): TaskEvent {
    TaskEvent(0, Running, 0, t.(state := Scheduled, restartCount := 1))
  }

  // With the stop's DELETE out, the restart begins, finds the worker unreachable
  // and puts its event on the queue.
  lemma RequeueBehindStop(s: System, before: seq<Action>, n: Node, t: Task, stop: TaskEvent) returns (acts: seq<Action>)
    requires Along(s, before, FaithfulEcho) && t.restartCount == 0
    requires var r := Run(s, before);
             && r.nodes == [n] && r.sends == [Stopping(stop, n.name)] && r.health == Beginning(n.name, t.id, [])
             && r.m.pending == [] && r.m.taskDb == map[t.id := t] && r.m.taskWorker == map[t.id := n.name]
    ensures Along(s, acts, FaithfulEcho)
    ensures var r, te := Run(s, acts), RestartEvent(t);
            && r.nodes == [n] && r.sends == [Stopping(stop, n.name)] && r.health == Walking([])
            && r.m.pending == [te] && r.m.taskDb == map[t.id := te.task] && r.m.taskWorker == map[t.id := n.name]
  {
    var r, te, a := Run(s, before), RestartEvent(t), Health(HealthIo(false, Unreachable, 0, 0));
    acts := Extend(s, before, a, FaithfulEcho);
    assert r.m.taskDb[t.id := te.task] == map[t.id := te.task];
    assert Run(s, acts) == r.(m := r.m.(taskDb := map[t.id := te.task]), health := Reposting(t.id, te, []));
    acts := Extend(s, acts, a, FaithfulEcho);
  }

  // A task is retired with the window closed and nobody submits it again. The
  // restart event queued meanwhile finds no route, so the manager itself
  // dispatches it and the task is stored Scheduled once more.
  lemma RequeuedRestartRevives(n: Node, te: TaskEvent, stop: TaskEvent)
      returns (before: seq<Action>, a: Action, after: seq<Action>)
    requires te.task.state == Running && te.task.restartCount == 0
    requires stop.task == te.task.(state := Completed)
    ensures var boot, id, restart := Boot([n], 1, 0), te.task.id, RestartEvent(te.task);
            var s := Run(boot, before);
            var s' := Step(s, a);
            && Along(boot, before, FaithfulEcho) && FaithfulEcho(s, a) && Along(s', after, FaithfulEcho)
            && s.m.pending == [restart] && Retires(s, a, id) && !RestartWindowOpen(s, id)
            && IsRetired(s', id) && NotSubmitted(after, id) && Ended(s', after, Dispatched, restart) > 0
            && Run(s', after).m.taskDb == map[id := restart.task]
  {
    var boot := Boot([n], 1, 0);
    before := StoreOneTask(n, te);
    before := BringStopAndRestartTogether(boot, before, n, te, stop);
    AlongImplies(boot, before, PlainScope, FaithfulEcho);
    before := RequeueBehindStop(boot, before, n, te.task, stop);
    a := Send(0, SendIo(None, Refused, StopAccepted));
    StopLandsNow(Run(boot, before), n, stop);
    after := DispatchQueued(Step(Run(boot, before), a), n, RestartEvent(te.task));
  }

  // ----- Re-dispatch and the budget -----

  // The task is snapshotted, and a stop of it queued.
  lemma QueueStopUnderSnapshot(s: System, before: seq<Action>, n: Node, t: Task, stop: TaskEvent) returns (acts: seq<Action>)
    requires Along(s, before, FaithfulEcho)
    requires var r := Run(s, before);
             && r.nodes == [n] && r.sends == [Idle] && r.health == Resting && r.m.pending == []
             && r.m.taskDb == map[t.id := t] && r.m.taskWorker == map[t.id := n.name]
    ensures Along(s, acts, FaithfulEcho)
    ensures var r := Run(s, before);
            Run(s, acts) == r.(m := r.m.(pending := [stop]), health := Walking([t]))
  {
    var r := Run(s, before);
    acts := Extend(s, before, Snapshot([t]), FaithfulEcho);
    assert Run(s, acts) == r.(health := Walking([t]));
    acts := Extend(s, acts, Submit(stop), FaithfulEcho);
  }

  // The stop is sent out.
  lemma SendStop(s: System, before: seq<Action>, n: Node, t: Task, stop: TaskEvent) returns (acts: seq<Action>)
    requires Along(s, before, FaithfulEcho) && t.state == Running && stop.task == t.(state := Completed)
    requires var r := Run(s, before);
             && r.nodes == [n] && r.sends == [Idle] && r.m.pending == [stop]
             && r.m.taskDb == map[t.id := t] && r.m.taskWorker == map[t.id := n.name]
    ensures Along(s, acts, FaithfulEcho)
    ensures var r := Run(s, before);
            Run(s, acts) == r.(m := r.m.(pending := []), sends := [Stopping(stop, n.name)])
  {
    var r, io := Run(s, before), SendIo(None, Refused, StopAccepted);
    assert [stop][1..] == [];
    acts := Extend(s, before, Send(0, io), FaithfulEcho);
    assert Run(s, acts) == r.(m := r.m.(pending := []), sends := [Holding(stop)]);
    acts := Extend(s, acts, Send(0, io), FaithfulEcho);
  }

  // The worker accepts the stop, so the task is retired.
  lemma RetireIt(s: System, before: seq<Action>, n: Node, stop: TaskEvent) returns (acts: seq<Action>)
    requires Along(s, before, FaithfulEcho)
    requires var r := Run(s, before);
             && r.nodes == [n] && r.sends == [Stopping(stop, n.name)] && r.m.pending == []
             && r.m.taskDb.Keys == {stop.task.id} && r.m.taskWorker == map[stop.task.id := n.name]
    ensures Along(s, acts, FaithfulEcho)
    ensures var r, r' := Run(s, before), Run(s, acts);
            && r'.nodes == [n] && r'.sends == [Idle] && r'.health == r.health && r'.m.pending == []
            && r'.m.taskDb.Keys == {stop.task.id} && r'.m.taskWorker == map[]
  {
    StopLandsNow(Run(s, before), n, stop);
    acts := Extend(s, before, Send(0, SendIo(None, Refused, StopAccepted)), FaithfulEcho);
  }

  // The retired ID is submitted again: unrouted, it is dispatched and stored anew.
  lemma SubmitAgain(s: System, before: seq<Action>, n: Node, te: TaskEvent) returns (acts: seq<Action>)
    requires Along(s, before, FaithfulEcho) && te.task.restartCount <= TASK_RESTART_MAX
    requires var r := Run(s, before);
             && r.nodes == [n] && r.sends == [Idle] && r.m.pending == []
             && r.m.taskDb.Keys == {te.task.id} && r.m.taskWorker == map[]
    ensures Along(s, acts, FaithfulEcho)
    ensures var r, r' := Run(s, before), Run(s, acts);
            && r'.nodes == [n] && r'.health == r.health
            && r'.m.taskDb == map[te.task.id := te.task] && r'.m.taskWorker == map[te.task.id := n.name]
  {
    acts := Extend(s, before, Submit(te), FaithfulEcho);
    var more := DispatchQueued(Run(s, acts), n, te);
    RunConcat(s, acts, more);
    AlongConcat(s, acts, more, FaithfulEcho);
    acts := acts + more;
  }

  lemma WalkStaleEntry(s: System, before: seq<Action>, n: Node, seen: Task, now: Task) returns (acts: seq<Action>)
    requires Along(s, before, FaithfulEcho)
    requires var r := Run(s, before);
             && r.nodes == [n] && r.health == Walking([seen])
             && r.m.taskDb == map[seen.id := now] && r.m.taskWorker == map[seen.id := n.name]
    requires seen.state == Running && seen.restartCount == 0 && now.restartCount == TASK_RESTART_MAX
    ensures Along(s, acts, FaithfulEcho)
    ensures seen.id in Run(s, acts).m.taskDb
    ensures Run(s, acts).m.taskDb[seen.id].restartCount > TASK_RESTART_MAX
  {
    var r, ill := Run(s, before), Health(HealthIo(false, Refused, 0, 0));
    assert [seen][1..] == [];
    acts := Extend(s, before, ill, FaithfulEcho);
    assert Run(s, acts) == r.(health := Restarting(seen.id, []));
    acts := Extend(s, acts, ill, FaithfulEcho);
    KnownNamesResolve([n], n.name);
    assert n in [n];
    assert Run(s, acts) == r.(health := Beginning(n.name, seen.id, []));
    acts := Extend(s, acts, ill, FaithfulEcho);
  }

  // A task is stored with count 0 and snapshotted, then stopped and retired, and
  // its ID submitted again with the budget already spent. The snapshot entry
  // still says 0, so the pass restarts the task all the same.
  lemma RedispatchBreaksBudget(n: Node, te: TaskEvent) returns (acts: seq<Action>)
    requires te.task.state == Running && te.task.restartCount == 0
    ensures var s := Boot([n], 1, 0);
            && Along(s, acts, FaithfulEcho) && Along(s, acts, StoresWithinBudget)
            && te.task.id in Run(s, acts).m.taskDb
            && Run(s, acts).m.taskDb[te.task.id].restartCount > TASK_RESTART_MAX
  {
    var s := Boot([n], 1, 0);
    var spent := te.task.(restartCount := TASK_RESTART_MAX);
    var stop, again := te.(task := te.task.(state := Completed)), te.(task := spent);
    acts := StoreOneTask(n, te);
    AlongImplies(s, acts, PlainScope, FaithfulEcho);
    acts := QueueStopUnderSnapshot(s, acts, n, te.task, stop);
    acts := SendStop(s, acts, n, te.task, stop);
    acts := RetireIt(s, acts, n, stop);
    acts := SubmitAgain(s, acts, n, again);
    acts := WalkStaleEntry(s, acts, n, te.task, spent);
    AlongImplies(s, acts, FaithfulEcho, StoresWithinBudget);
  }
}
