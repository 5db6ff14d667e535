// Retirement with the manager's own re-dispatch included: what was still under
// way for a task when it was retired can bring it back, and nothing else can.

module ManagerRevive {
  import opened Options
  import opened Tasks
  import opened Store
  import opened Nodes
  import opened Reports
  import opened ManagerProtocol
  import opened ManagerDispatch
  import opened ManagerSystem
  import opened ManagerBudget
  import opened ManagerEvents
  import opened ManagerRetire

  // Nothing in the manager still speaks for the task: no event of it is queued or
  // with a caller, unless to stop it, and no restart of it is under way.
  ghost predicate Silent(s: System, id: Uuid) {
    && !RestartWindowOpen(s, id)
    && (s.health.Reposting? ==> s.health.te.task.id != id)
    && (forall te :: te in s.m.pending ==> te.task.id != id)
    && (forall i :: 0 <= i < |s.sends| && !s.sends[i].Idle? && s.sends[i].te.task.id == id ==> s.sends[i].Stopping?)
  }

  // Nobody submits an event of the task.
  predicate NotSubmitted(acts: seq<Action>, id: Uuid) {
    forall a :: a in acts && a.Submit? ==> a.te.task.id != id
  }

  lemma SilentSend(s: System, i: nat, io: SendIo, id: Uuid)
    requires IsRetired(s, id) && Silent(s, id) && WorkerEchoes(s, Send(i, io)) && i < |s.sends|
    ensures var s' := Step(s, Send(i, io));
            IsRetired(s', id) && Silent(s', id) && s'.m.taskDb[id].restartCount == s.m.taskDb[id].restartCount
  {
    var c := SendConf(s.m, s.sends[i]);
    var c' := SendStep(s.nodes, c, io);
    SendQueue(s.nodes, c, io);
    SendStore(s.nodes, c, io);
    SendKeepsOrEnds(s.nodes, c, io);
    assert Step(s, Send(i, io)).sends == s.sends[i := c'.pc];
    assert forall te :: te in c'.m.pending ==> te in c.m.pending || (c.pc.Requeueing? && te == c.pc.te);
    assert c'.pc.Idle? || c'.pc.te.task.id != id || c'.pc.Stopping?;
  }

  lemma SilentHealth(s: System, io: HealthIo, id: Uuid)
    requires Keyed(s.m.taskDb) && IsRetired(s, id) && Silent(s, id)
    ensures var s' := Step(s, Health(io));
            IsRetired(s', id) && Silent(s', id) && s'.m.taskDb[id].restartCount == s.m.taskDb[id].restartCount
  {
    HealthStore(s.nodes, HealthConf(s.m, s.health), io);
    assert Step(s, Health(io)).sends == s.sends && Step(s, Health(io)).m.taskWorker == s.m.taskWorker;
  }

  lemma SilentStep(s: System, a: Action, id: Uuid)
    requires Keyed(s.m.taskDb) && IsRetired(s, id) && Silent(s, id)
    requires WorkerEchoes(s, a) && NotSubmitted([a], id)
    ensures var s' := Step(s, a);
            IsRetired(s', id) && Silent(s', id) && s'.m.taskDb[id].restartCount == s.m.taskDb[id].restartCount
    ensures !(Begins(s, a) && s.health.id == id)
  {
    if a.Send? && a.i < |s.sends| {
      SilentSend(s, a.i, a.sendIo, id);
    } else if a.Health? {
      SilentHealth(s, a.healthIo, id);
    } else if a.Merge? && a.j < |s.polls| && s.polls[a.j] != [] {
      MergeByOwner(s.m.taskDb[id], s.polls[a.j][0]);
    } else if a.Submit? {
      assert a in [a];
    }
  }

  lemma {:induction false} SilentRun(s: System, acts: seq<Action>, id: Uuid)
    requires Keyed(s.m.taskDb) && IsRetired(s, id) && Silent(s, id)
    requires Along(s, acts, WorkerEchoes) && NotSubmitted(acts, id)
    ensures IsRetired(Run(s, acts), id)
    ensures Run(s, acts).m.taskDb[id].restartCount == s.m.taskDb[id].restartCount
    ensures BegunOf(s, acts, id) == 0
    decreases |acts|
  {
    if acts == [] {
    } else {
      assert acts[0] in acts;
      StaysKeyed(s, acts[0]);
      SilentStep(s, acts[0], id);
      SilentRun(Step(s, acts[0]), acts[1..], id);
    }
  }

  // ----- What still speaks for a task brings it back -----

  // Nothing is submitted and no worker accepts a post.
  predicate Unassisted(acts: seq<Action>) {
    forall a :: a in acts ==> !a.Submit? && (a.Send? ==> !a.sendIo.post.Accepted?)
  }

  lemma {:induction false} UnassistedEchoes(s: System, acts: seq<Action>)
    requires Unassisted(acts)
    ensures Along(s, acts, WorkerEchoes) && Along(s, acts, EchoesExactly)
    decreases |acts|
  {
    if acts == [] {
    } else {
      assert acts[0] in acts;
      UnassistedEchoes(Step(s, acts[0]), acts[1..]);
    }
  }

  // One more action in front of a run that brings the task back.
  lemma Precede(s: System, a: Action, rest: seq<Action>) returns (acts: seq<Action>)
    requires !a.Submit? && (a.Send? ==> !a.sendIo.post.Accepted?) && Unassisted(rest)
    ensures Unassisted(acts) && Run(s, acts) == Run(Step(s, a), rest)
  {
    acts := [a] + rest;
    assert acts[1..] == rest;
  }

  // A caller that holds an event of a retired task can route it anew, or be made to
  // put the event back on the queue.
  lemma {:induction false} HolderRevives(s: System, i: nat, id: Uuid) returns (acts: seq<Action>)
    requires IsRetired(s, id) && i < |s.sends| && s.nodes != []
    requires !s.sends[i].Idle? && !s.sends[i].Stopping? && s.sends[i].te.task.id == id
    ensures Unassisted(acts) && !IsRetired(Run(s, acts), id)
    decreases |s.m.pending| + (if s.sends[i].Holding? || s.sends[i].Selecting? then 0 else 2), 1, StepsLeft(s.sends[i])
  {
    var a := Send(i, SendIo(Some(s.nodes[0]), Unreachable, StopRefused));
    var s' := Step(s, a);
    acts := [];
    if s.sends[i].Selecting? {
      assert id in s'.m.taskWorker;
    } else if s.sends[i].Requeueing? {
      assert s'.m.pending[|s.m.pending|] == s.sends[i].te;
      acts := QueueRevives(s', i, id);
    } else {
      acts := HolderRevives(s', i, id);
    }
    acts := Precede(s, a, acts);
  }

  // A caller whose every answer is a refusal drops one event.
  lemma DroppedEvent(nodes: seq<Node>, m: MState)
    requires m.pending != []
    ensures SendAlone(nodes, m, SendIo(None, Refused, StopRefused)) == m.(pending := m.pending[1..])
  {
    var io := SendIo(None, Refused, StopRefused);
    if m.pending[0].task.id in m.taskWorker && m.pending[0].task.id in m.taskDb {
      RoutedEventValue(nodes, m, io);
    } else {
      FreshEventValue(nodes, m, io);
    }
  }

  // A caller that is free works through the queue up to an event of the task.
  lemma {:induction false} QueueRevives(s: System, i: nat, id: Uuid) returns (acts: seq<Action>)
    requires IsRetired(s, id) && i < |s.sends| && s.nodes != [] && s.sends[i].Idle?
    requires exists te :: te in s.m.pending && te.task.id == id
    ensures Unassisted(acts) && !IsRetired(Run(s, acts), id)
    decreases |s.m.pending|, 2
  {
    var drop := SendIo(None, Refused, StopRefused);
    if s.m.pending[0].task.id == id {
      acts := HolderRevives(Step(s, Send(i, drop)), i, id);
      acts := Precede(s, Send(i, drop), acts);
    } else {
      var rest := s.m.pending[1..];
      var first := SendWorkIsARun(s, i, drop);
      DroppedEvent(s.nodes, s.m);
      var te :| te in s.m.pending && te.task.id == id;
      assert s.m.pending == [s.m.pending[0]] + rest && te in rest;
      var more := QueueRevives(s.(m := s.m.(pending := rest)), i, id);
      RunConcat(s, first, more);
      acts := first + more;
    }
  }

  // What is under way for a retired task brings it back, with nothing submitted
  // and no post accepted, provided some caller is free.
  lemma UnsilentRevives(s: System, i: nat, id: Uuid) returns (acts: seq<Action>)
    requires IsRetired(s, id) && !Silent(s, id) && i < |s.sends| && s.sends[i].Idle? && s.nodes != []
    ensures Unassisted(acts) && !IsRetired(Run(s, acts), id)
  {
    if RestartWindowOpen(s, id) {
      var a := Health(HealthIo(true, Refused, 0, 0));
      assert Step(s, a).m.taskDb[id].state == Scheduled;
      acts := Precede(s, a, []);
    } else if s.health.Reposting? && s.health.te.task.id == id {
      var a := Health(HealthIo(true, Unreachable, 0, 0));
      assert Step(s, a).m.pending[|s.m.pending|] == s.health.te;
      acts := QueueRevives(Step(s, a), i, id);
      acts := Precede(s, a, acts);
    } else if te :| te in s.m.pending && te.task.id == id {
      acts := QueueRevives(s, i, id);
    } else {
      var k :| 0 <= k < |s.sends| && !s.sends[k].Idle? && s.sends[k].te.task.id == id && !s.sends[k].Stopping?;
      acts := HolderRevives(s, k, id);
    }
  }

  // ----- The theorem -----

  lemma {:induction false} StoredAndKeyed(s: System, acts: seq<Action>)
    requires Keyed(s.m.taskDb) && StopsAreStored(s)
    ensures Keyed(Run(s, acts).m.taskDb) && StopsAreStored(Run(s, acts))
    decreases |acts|
  {
    if acts == [] {
    } else {
      StaysKeyed(s, acts[0]);
      StopsStayStored(s, acts[0]);
      StoredAndKeyed(Step(s, acts[0]), acts[1..]);
    }
  }

  lemma RetirementStep(s: System, a: Action, id: Uuid)
    requires StopsAreStored(s) && Retires(s, a, id)
    ensures var s' := Step(s, a);
            IsRetired(s', id) && s'.nodes == s.nodes && |s'.sends| == |s.sends| && s'.sends[a.i].Idle? && s.nodes != []
    ensures Silent(Step(s, a), id) <==> Silent(s, id)
  {
    var s' := Step(s, a);
    assert s'.m.pending == s.m.pending && s'.health == s.health && s'.sends == s.sends[a.i := Idle];
    assert forall k :: 0 <= k < |s.sends| && k != a.i ==> s'.sends[k] == s.sends[k];
  }

  // After any run at all of a new manager: a task just retired stays retired for
  // good, whatever anybody does short of submitting it again, if and only if
  // nothing in the manager still spoke for it at that moment.
  lemma RetiredNeverComesBack(nodes: seq<Node>, callers: nat, pollers: nat, before: seq<Action>, a: Action, id: Uuid)
    requires Retires(Run(Boot(nodes, callers, pollers), before), a, id)
    ensures var s := Run(Boot(nodes, callers, pollers), before);
            var s' := Step(s, a);
            && IsRetired(s', id)
            && (Silent(s, id) <==>
                  forall after :: Along(s', after, WorkerEchoes) && NotSubmitted(after, id) ==> IsRetired(Run(s', after), id))
  {
    var boot := Boot(nodes, callers, pollers);
    StoredAndKeyed(boot, before);
    var s := Run(boot, before);
    var s' := Step(s, a);
    StaysKeyed(s, a);
    RetirementStep(s, a, id);
    if Silent(s, id) {
      forall after | Along(s', after, WorkerEchoes) && NotSubmitted(after, id) ensures IsRetired(Run(s', after), id) {
        SilentRun(s', after, id);
      }
    } else {
      var after := UnsilentRevives(s', a.i, id);
      UnassistedEchoes(s', after);
    }
  }
}
