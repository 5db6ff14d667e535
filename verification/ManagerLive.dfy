// Live tasks stay routed: a stored task without a route is out of reach of health
// checks, restarts and stops, and only a Completed one may be so.

module ManagerLive {
  import opened Tasks
  import opened Nodes
  import opened ManagerProtocol
  import opened ManagerSystem
  import opened ManagerBudget
  import opened ManagerRetire

  ghost predicate LiveAreRouted(m: MState) {
    forall id :: id in m.taskDb ==> m.taskDb[id].state == Completed || id in m.taskWorker
  }

  // ----- One step, any interleaving -----

  // beginRestart, putTask and unassignTask do not look at the other index; this
  // is what they have to find.
  predicate FindsRoute(s: System, a: Action) {
    if a.Health? then
      Begins(s, a) ==> s.health.id in s.m.taskWorker
    else if a.Send? && a.i < |s.sends| then
      match s.sends[a.i]
      case Posting(_, _) =>
        a.sendIo.post.Accepted? ==> a.sendIo.post.created.state == Completed || a.sendIo.post.created.id in s.m.taskWorker
      case RollingBack(te, _) =>
        te.task.id in s.m.taskDb ==> s.m.taskDb[te.task.id].state == Completed
      case _ => true
    else true
  }

  lemma SendKeepsLive(s: System, i: nat, io: SendIo)
    requires LiveAreRouted(s.m) && i < |s.sends|
    ensures LiveAreRouted(Step(s, Send(i, io)).m) <==> FindsRoute(s, Send(i, io))
  {
    var m' := SendStep(s.nodes, SendConf(s.m, s.sends[i]), io).m;
    assert Step(s, Send(i, io)).m == m';
    match s.sends[i]
    case Posting(te, n) =>
      if io.post.Accepted? {
        assert m'.taskDb[io.post.created.id] == io.post.created;
      }
    case RollingBack(te, n) =>
      assert te.task.id !in m'.taskWorker;
    case _ =>
  }

  lemma LiveKeptExactlyWhenRouteFound(s: System, a: Action)
    requires LiveAreRouted(s.m)
    ensures LiveAreRouted(Step(s, a).m) <==> FindsRoute(s, a)
  {
    if a.Send? && a.i < |s.sends| {
      SendKeepsLive(s, a.i, a.sendIo);
    } else if Begins(s, a) {
      assert Step(s, a).m.taskDb[s.health.id].state == Scheduled;
    }
  }

  // Live tasks are routed in every state of the run.
  ghost predicate StaysLive(s: System, acts: seq<Action>)
    decreases |acts|
  {
    LiveAreRouted(s.m) && (acts != [] ==> StaysLive(Step(s, acts[0]), acts[1..]))
  }

  lemma {:induction false} LiveAtTheEnd(s: System, acts: seq<Action>)
    ensures StaysLive(s, acts) ==> LiveAreRouted(Run(s, acts).m)
    decreases |acts|
  {
    if acts == [] {
    } else {
      LiveAtTheEnd(Step(s, acts[0]), acts[1..]);
    }
  }

  // For any number of callers, re-dispatch included.
  lemma {:induction false} RunStaysLiveExactly(s: System, acts: seq<Action>)
    requires LiveAreRouted(s.m)
    ensures StaysLive(s, acts) <==> Along(s, acts, FindsRoute)
    decreases |acts|
  {
    if acts == [] {
    } else {
      LiveKeptExactlyWhenRouteFound(s, acts[0]);
      if FindsRoute(s, acts[0]) {
        RunStaysLiveExactly(Step(s, acts[0]), acts[1..]);
      }
    }
  }

  // ----- With one ProcessTasks loop -----

  // What the only caller is posting or rolling back is not stored, and what it
  // is posting is routed.
  ghost predicate CallerInv(s: System) {
    && |s.sends| == 1
    && match s.sends[0]
       case Posting(te, _) => te.task.id in s.m.taskWorker && te.task.id !in s.m.taskDb
       case RollingBack(te, _) => te.task.id !in s.m.taskDb
       case _ => true
  }

  // beginRestart is not reached for a task whose route is gone.
  predicate NoUnroutedRestart(s: System, a: Action) {
    Begins(s, a) ==> s.health.id in s.m.taskWorker
  }

  lemma CallerStep(s: System, a: Action)
    requires CallerInv(s) && FreshScope(s, a)
    ensures CallerInv(Step(s, a))
    ensures FindsRoute(s, a) <==> NoUnroutedRestart(s, a)
  {
    if !a.Send? {
      assert Step(s, a).sends == s.sends && Step(s, a).m.taskWorker == s.m.taskWorker;
      assert Step(s, a).m.taskDb.Keys == s.m.taskDb.Keys;
    }
  }

  // No live task ever drops out of reach, if and only if no restart begins for a
  // task whose route is gone.
  lemma {:induction false} SoloRunStaysLiveExactly(s: System, acts: seq<Action>)
    requires LiveAreRouted(s.m) && CallerInv(s) && Along(s, acts, FreshScope)
    ensures StaysLive(s, acts) <==> Along(s, acts, NoUnroutedRestart)
    decreases |acts|
  {
    if acts == [] {
    } else {
      CallerStep(s, acts[0]);
      LiveKeptExactlyWhenRouteFound(s, acts[0]);
      if NoUnroutedRestart(s, acts[0]) {
        SoloRunStaysLiveExactly(Step(s, acts[0]), acts[1..]);
      }
    }
  }

  lemma LiveExactlyWithoutUnroutedRestart(nodes: seq<Node>, pollers: nat, acts: seq<Action>)
    requires Along(Boot(nodes, 1, pollers), acts, FreshScope)
    ensures StaysLive(Boot(nodes, 1, pollers), acts) <==> Along(Boot(nodes, 1, pollers), acts, NoUnroutedRestart)
  {
    SoloRunStaysLiveExactly(Boot(nodes, 1, pollers), acts);
  }

  // ----- Where such a restart comes from -----

  // No stop retires a task whose restart has read the route already.
  predicate NoStopInWindow(s: System, a: Action) {
    s.health.Beginning? ==> !Retires(s, a, s.health.id)
  }

  // The pass visits stored tasks, and the route it read is still there.
  ghost predicate PassInv(s: System) {
    && (forall t :: t in Rest(s.health) ==> t.id in s.m.taskDb)
    && match s.health
       case Restarting(id, _) => id in s.m.taskDb
       case Beginning(_, id, _) => id in s.m.taskDb && id in s.m.taskWorker
       case _ => true
  }

  lemma PassStep(s: System, a: Action)
    requires CallerInv(s) && PassInv(s) && FreshScope(s, a)
    ensures NoUnroutedRestart(s, a)
    ensures PassInv(Step(s, a)) <==> NoStopInWindow(s, a)
  {
    StoreOnlyGrowsInOneStep(s, a);
    var s' := Step(s, a);
    if a.Health? {
      assert s'.m.taskWorker == s.m.taskWorker;
      assert forall t :: t in Rest(s'.health) ==> t in Rest(s.health);
    } else if !a.Snapshot? {
      assert s'.health == s.health;
      assert a.Send? || s'.m.taskWorker == s.m.taskWorker;
    }
  }

  // A stop in the window takes the route away for good, so the restart it meets
  // begins unrouted.
  lemma {:induction false} UnroutedWindowEndsBadly(s: System, acts: seq<Action>)
    requires Along(s, acts, FreshScope)
    requires s.health.Beginning? && s.health.id in s.m.taskDb && s.health.id !in s.m.taskWorker
    requires !Run(s, acts).health.Beginning?
    ensures !Along(s, acts, NoUnroutedRestart)
    decreases |acts|
  {
    if !acts[0].Health? {
      StoreOnlyGrowsInOneStep(s, acts[0]);
      UnroutedWindowEndsBadly(Step(s, acts[0]), acts[1..]);
    }
  }

  lemma {:induction false} StopInWindowIsTheCause(s: System, acts: seq<Action>)
    requires CallerInv(s) && PassInv(s) && Along(s, acts, FreshScope)
    ensures Along(s, acts, NoStopInWindow) ==> Along(s, acts, NoUnroutedRestart)
    ensures !Run(s, acts).health.Beginning? && Along(s, acts, NoUnroutedRestart) ==> Along(s, acts, NoStopInWindow)
    decreases |acts|
  {
    if acts == [] {
    } else {
      var s' := Step(s, acts[0]);
      CallerStep(s, acts[0]);
      PassStep(s, acts[0]);
      if NoStopInWindow(s, acts[0]) {
        StopInWindowIsTheCause(s', acts[1..]);
      } else if !Run(s, acts).health.Beginning? {
        StoreOnlyGrowsInOneStep(s, acts[0]);
        UnroutedWindowEndsBadly(s', acts[1..]);
      }
    }
  }

  // From a new manager, no live task ever drops out of reach, if and only if no
  // stop lands between a restart's route lookup and its beginRestart.
  lemma LiveExactlyWithoutStopInWindow(nodes: seq<Node>, pollers: nat, acts: seq<Action>)
    requires Along(Boot(nodes, 1, pollers), acts, FreshScope)
    ensures var s := Boot(nodes, 1, pollers);
            && (Along(s, acts, NoStopInWindow) ==> StaysLive(s, acts))
            && (!Run(s, acts).health.Beginning? && StaysLive(s, acts) ==> Along(s, acts, NoStopInWindow))
  {
    StopInWindowIsTheCause(Boot(nodes, 1, pollers), acts);
    SoloRunStaysLiveExactly(Boot(nodes, 1, pollers), acts);
  }
}
