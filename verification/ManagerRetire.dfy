// Retirement by stopTask, and the window in which a restart can meet it.

module ManagerRetire {
  import opened Tasks
  import opened Store
  import opened Nodes
  import opened Reports
  import opened ManagerProtocol
  import opened ManagerSystem
  import opened ManagerBudget

  ghost predicate IsRetired(s: System, id: Uuid) {
    id in s.m.taskDb && s.m.taskDb[id].state == Completed && id !in s.m.taskWorker
  }

  // This step is retireTask for the task.
  predicate Retires(s: System, a: Action, id: Uuid) {
    && a.Send? && a.i < |s.sends| && s.sends[a.i].Stopping? && s.sends[a.i].te.task.id == id
    && StopLands(s.nodes, s.sends[a.i].worker, a.sendIo)
  }

  // restartTask has read the task's route and not yet called beginRestart.
  predicate RestartWindowOpen(s: System, id: Uuid) {
    s.health.Beginning? && s.health.id == id
  }

  // A stop is only ever sent for a stored task.
  ghost predicate StopsAreStored(s: System) {
    forall i :: 0 <= i < |s.sends| && s.sends[i].Stopping? ==> s.sends[i].te.task.id in s.m.taskDb
  }

  lemma StopsStayStored(s: System, a: Action)
    requires StopsAreStored(s)
    ensures StopsAreStored(Step(s, a))
  {
    StoreOnlyGrowsInOneStep(s, a);
  }

  ghost predicate RetireInv(s: System) {
    Keyed(s.m.taskDb) && FlightsAreFresh(s) && StopsAreStored(s)
  }

  lemma RetireInvStep(s: System, a: Action)
    requires RetireInv(s) && FreshScope(s, a)
    ensures RetireInv(Step(s, a))
  {
    FlightsStayFresh(s, a);
    StopsStayStored(s, a);
  }

  // No step of anybody revives a retired task or opens the window for it.
  lemma RetiredStep(s: System, a: Action, id: Uuid)
    requires RetireInv(s) && FreshScope(s, a) && IsRetired(s, id) && !RestartWindowOpen(s, id)
    ensures var s' := Step(s, a);
            && IsRetired(s', id) && !RestartWindowOpen(s', id)
            && s'.m.taskDb[id].restartCount == s.m.taskDb[id].restartCount
    ensures !(Begins(s, a) && s.health.id == id)
  {
    if a.Send? && a.i < |s.sends| {
      SendStore(s.nodes, SendConf(s.m, s.sends[a.i]), a.sendIo);
    } else if a.Health? {
      HealthStore(s.nodes, HealthConf(s.m, s.health), a.healthIo);
    } else if a.Merge? && a.j < |s.polls| && s.polls[a.j] != [] {
      MergeByOwner(s.m.taskDb[id], s.polls[a.j][0]);
    }
  }

  lemma {:induction false} RetiredRun(s: System, acts: seq<Action>, id: Uuid)
    requires RetireInv(s) && Along(s, acts, FreshScope) && IsRetired(s, id) && !RestartWindowOpen(s, id)
    ensures IsRetired(Run(s, acts), id)
    ensures Run(s, acts).m.taskDb[id].restartCount == s.m.taskDb[id].restartCount
    ensures BegunOf(s, acts, id) == 0
    decreases |acts|
  {
    if acts == [] {
    } else {
      RetireInvStep(s, acts[0]);
      RetiredStep(s, acts[0], id);
      RetiredRun(Step(s, acts[0]), acts[1..], id);
    }
  }

  lemma {:induction false} RetireInvRun(s: System, acts: seq<Action>)
    requires RetireInv(s) && Along(s, acts, FreshScope)
    ensures RetireInv(Run(s, acts))
    decreases |acts|
  {
    if acts == [] {
    } else {
      RetireInvStep(s, acts[0]);
      RetireInvRun(Step(s, acts[0]), acts[1..]);
    }
  }

  // With the window open, the health loop's next step reschedules the task.
  lemma WindowRevives(s: System, id: Uuid) returns (after: seq<Action>)
    requires IsRetired(s, id) && RestartWindowOpen(s, id)
    ensures Along(s, after, FreshScope) && !IsRetired(Run(s, after), id)
  {
    var a := Health(HealthIo(true, Refused, 0, 0));
    after := [a];
    assert after[1..] == [];
    assert Along(Step(s, a), [], FreshScope);
    assert Run(s, after) == Run(Step(s, a), []) == Step(s, a);
    assert Step(s, a).m.taskDb[id].state == Scheduled;
  }

  // As long as nothing is re-dispatched the window alone decides: a task just retired
  // stays retired in every continuation, if and only if no restart of it stood
  // between its route lookup and beginRestart at that moment.
  lemma RetiredForGoodWithoutRedispatch(nodes: seq<Node>, callers: nat, pollers: nat, before: seq<Action>, a: Action, id: Uuid)
    requires var boot := Boot(nodes, callers, pollers);
             Along(boot, before, FreshScope) && Retires(Run(boot, before), a, id)
    ensures var s := Run(Boot(nodes, callers, pollers), before);
            var s' := Step(s, a);
            && IsRetired(s', id)
            && (!RestartWindowOpen(s, id) <==>
                  forall after :: Along(s', after, FreshScope) ==> IsRetired(Run(s', after), id))
  {
    var boot := Boot(nodes, callers, pollers);
    RetireInvRun(boot, before);
    var s := Run(boot, before);
    var s' := Step(s, a);
    RetireInvStep(s, a);
    assert s'.health == s.health;
    if RestartWindowOpen(s, id) {
      var after := WindowRevives(s', id);
    } else {
      forall after | Along(s', after, FreshScope) ensures IsRetired(Run(s', after), id) {
        RetiredRun(s', after, id);
      }
    }
  }
}
