// The two routing indexes, WorkerTaskMap and TaskWorkerMap.

module ManagerRouting {
  import opened Options
  import opened Tasks
  import opened Nodes
  import opened ManagerProtocol
  import opened ManagerSystem

  // ----- In every interleaving -----

  ghost predicate RoutedIsListed(s: System) {
    forall id :: id in s.m.taskWorker ==>
      var w := s.m.taskWorker[id];
      w in s.m.workerTasks && id in s.m.workerTasks[w] && Address(s.nodes, w).Some?
  }

  lemma UnrouteKeepsListed(s: System, w: string, id: Uuid)
    requires RoutedIsListed(s)
    ensures RoutedIsListed(s.(m := Unrouted(s.m, w, id)))
  {
    if w in s.m.workerTasks {
      RemoveFirstMembers(s.m.workerTasks[w], id);
    }
  }

  lemma SelectKeepsListed(s: System, i: nat, io: SendIo)
    requires RoutedIsListed(s) && i < |s.sends| && s.sends[i].Selecting?
    ensures RoutedIsListed(Step(s, Send(i, io)))
  {
    if Picked(s.nodes, io).Some? {
      var n, te := Picked(s.nodes, io).value, s.sends[i].te;
      KnownNamesResolve(s.nodes, n.name);
      assert Step(s, Send(i, io)).m == Assigned(s.m, n.name, te);
    }
  }

  lemma StepKeepsListed(s: System, a: Action)
    requires RoutedIsListed(s)
    ensures RoutedIsListed(Step(s, a))
  {
    if a.Send? && a.i < |s.sends| {
      match s.sends[a.i]
      case Selecting(te) => SelectKeepsListed(s, a.i, a.sendIo);
      case RollingBack(te, n) => UnrouteKeepsListed(s, n.name, te.task.id);
      case Stopping(te, w) => UnrouteKeepsListed(s, w, te.task.id);
      case _ =>
    }
  }

  // Whatever the interleaving, a task routed to a worker is listed by that
  // worker, and the worker's address resolves.
  lemma {:induction false} RoutedTasksAreListed(s: System, acts: seq<Action>)
    requires RoutedIsListed(s)
    ensures RoutedIsListed(Run(s, acts))
    decreases |acts|
  {
    if acts == [] {
    } else {
      StepKeepsListed(s, acts[0]);
      RoutedTasksAreListed(Step(s, acts[0]), acts[1..]);
    }
  }

  // ----- With one ProcessTasks loop -----

  // The maps are exact inverses: no list repeats an ID, and an ID is listed by
  // a worker exactly when it is routed there.
  ghost predicate Inverse(m: MState) {
    && (forall w :: w in m.workerTasks ==> NoDup(m.workerTasks[w]))
    && (forall w, id :: w in m.workerTasks && id in m.workerTasks[w] ==> id in m.taskWorker && m.taskWorker[id] == w)
    && (forall id :: id in m.taskWorker ==> m.taskWorker[id] in m.workerTasks && id in m.workerTasks[m.taskWorker[id]])
  }

  // The event being dispatched is for a task that is routed but not stored.
  predicate Resubmits(s: System, a: Action) {
    && a.Send? && a.i < |s.sends| && s.sends[a.i].Selecting? && Picked(s.nodes, a.sendIo).Some?
    && s.sends[a.i].te.task.id in s.m.taskWorker && s.sends[a.i].te.task.id !in s.m.taskDb
  }

  predicate NoResubmit(s: System, a: Action) { !Resubmits(s, a) }

  ghost predicate LeavesInverse(s: System, a: Action) { Inverse(Step(s, a).m) }

  // One caller, and what it remembers agrees with the maps.
  ghost predicate SoloInv(s: System) {
    && |s.sends| == 1
    && Inverse(s.m)
    && match s.sends[0]
       case Selecting(te) => te.task.id in s.m.taskWorker ==> te.task.id !in s.m.taskDb
       case Posting(te, n) => te.task.id in s.m.taskWorker && s.m.taskWorker[te.task.id] == n.name
       case RollingBack(te, n) => te.task.id in s.m.taskWorker && s.m.taskWorker[te.task.id] == n.name
       case Stopping(te, w) => te.task.id in s.m.taskWorker && s.m.taskWorker[te.task.id] == w
       case _ => true
  }

  // Dropping the current route keeps the maps inverse.
  lemma UnrouteKeepsInverse(m: MState, id: Uuid)
    requires Inverse(m) && id in m.taskWorker
    ensures Inverse(Unrouted(m, m.taskWorker[id], id))
  {
    RemoveFirstMembers(m.workerTasks[m.taskWorker[id]], id);
  }

  // Assigning keeps the maps inverse exactly when the task was unrouted.
  lemma AssignKeepsInverse(m: MState, w: string, te: TaskEvent)
    requires Inverse(m)
    ensures Inverse(Assigned(m, w, te)) <==> te.task.id !in m.taskWorker
  {
    var id, m' := te.task.id, Assigned(m, w, te);
    var list := Listed(m, w) + [id];
    assert m'.workerTasks[w] == list;
    assert list[|list| - 1] == id;
    if id in m.taskWorker {
      var v := m.taskWorker[id];
      if v == w {
        var k :| 0 <= k < |m.workerTasks[w]| && m.workerTasks[w][k] == id;
        assert list[k] == list[|list| - 1];
        assert !NoDup(m'.workerTasks[w]);
      } else {
        assert id in m'.workerTasks[v] && m'.taskWorker[id] != v;
      }
    } else {
      assert forall x :: x in list <==> x in Listed(m, w) || x == id;
      assert id !in Listed(m, w);
    }
  }

  // Only a caller changes the maps or the set of stored tasks.
  lemma OthersLeaveRoutes(s: System, a: Action)
    requires !a.Send?
    ensures var s' := Step(s, a);
            && s'.m.workerTasks == s.m.workerTasks && s'.m.taskWorker == s.m.taskWorker
            && s'.sends == s.sends && s'.m.taskDb.Keys == s.m.taskDb.Keys && s'.nodes == s.nodes
  {
  }

  // A caller that picks a node keeps the maps inverse unless it resubmits.
  lemma SoloSelects(s: System, io: SendIo)
    requires SoloInv(s) && s.sends[0].Selecting?
    ensures LeavesInverse(s, Send(0, io)) <==> NoResubmit(s, Send(0, io))
    ensures NoResubmit(s, Send(0, io)) ==> SoloInv(Step(s, Send(0, io)))
  {
    var te := s.sends[0].te;
    if Picked(s.nodes, io).Some? {
      AssignKeepsInverse(s.m, Picked(s.nodes, io).value.name, te);
    }
  }

  // A caller that drops a route drops the current one.
  lemma SoloUnroutes(s: System, io: SendIo)
    requires SoloInv(s) && (s.sends[0].RollingBack? || s.sends[0].Stopping?)
    ensures SoloInv(Step(s, Send(0, io)))
  {
    UnrouteKeepsInverse(s.m, s.sends[0].te.task.id);
  }

  lemma SoloSend(s: System, io: SendIo)
    requires SoloInv(s)
    ensures LeavesInverse(s, Send(0, io)) <==> NoResubmit(s, Send(0, io))
    ensures NoResubmit(s, Send(0, io)) ==> SoloInv(Step(s, Send(0, io)))
  {
    if s.sends[0].Selecting? {
      SoloSelects(s, io);
    } else if s.sends[0].RollingBack? || s.sends[0].Stopping? {
      SoloUnroutes(s, io);
    } else {
      var m' := Step(s, Send(0, io)).m;
      assert m'.workerTasks == s.m.workerTasks && m'.taskWorker == s.m.taskWorker;
    }
  }

  lemma SoloStep(s: System, a: Action)
    requires SoloInv(s)
    ensures LeavesInverse(s, a) <==> NoResubmit(s, a)
    ensures NoResubmit(s, a) ==> SoloInv(Step(s, a))
  {
    if !a.Send? {
      OthersLeaveRoutes(s, a);
    } else if a.i == 0 {
      SoloSend(s, a.sendIo);
    }
  }

  // The maps are exact inverses in every state of the run.
  ghost predicate StaysInverse(s: System, acts: seq<Action>)
    decreases |acts|
  {
    Inverse(s.m) && (acts != [] ==> StaysInverse(Step(s, acts[0]), acts[1..]))
  }

  // With a single ProcessTasks loop, the maps stay exact inverses along a run if
  // and only if no event is dispatched for a task that is routed but not stored.
  lemma {:induction false} InverseExactlyWithoutResubmit(s: System, acts: seq<Action>)
    requires SoloInv(s)
    ensures StaysInverse(s, acts) <==> Along(s, acts, NoResubmit)
    decreases |acts|
  {
    if acts == [] {
    } else {
      SoloStep(s, acts[0]);
      if NoResubmit(s, acts[0]) {
        InverseExactlyWithoutResubmit(Step(s, acts[0]), acts[1..]);
      }
    }
  }

  // A new manager starts with both invariants.
  lemma BootIsRouted(nodes: seq<Node>, callers: nat, pollers: nat)
    ensures RoutedIsListed(Boot(nodes, callers, pollers))
    ensures callers == 1 ==> SoloInv(Boot(nodes, callers, pollers))
  {
    EmptyListsCoverNames(nodes);
  }

  lemma RefusedSteps(s: System, n: Node, te: TaskEvent)
    requires s.nodes == [n] && s.sends == [Idle] && s.m.pending == [] && n.name in s.m.workerTasks
    requires te.task.id !in s.m.taskDb
    ensures var a := Send(0, SendIo(Some(n), Refused, StopRefused));
            Step(Step(Step(Step(Step(s, Submit(te)), a), a), a), a) == s.(m := Assigned(s.m, n.name, te))
  {
    var io := SendIo(Some(n), Refused, StopRefused);
    var s1 := Step(s, Submit(te));
    var s2 := Step(s1, Send(0, io));
    var s3 := Step(s2, Send(0, io));
    var s4 := Step(s3, Send(0, io));
    var s5 := Step(s4, Send(0, io));
    assert s1.m.pending == [te];
    assert s2.m == s.m && s2.sends == [Holding(te)];
    assert s3.m == s.m && s3.sends == [Selecting(te)];
    assert n in s.nodes;
    assert s4.m == Assigned(s.m, n.name, te) && s4.sends == [Posting(te, n)];
    assert s5 == s.(m := Assigned(s.m, n.name, te));
  }

  lemma RefusedRound(s: System, n: Node, te: TaskEvent)
    requires s.nodes == [n] && s.sends == [Idle] && s.m.pending == [] && n.name in s.m.workerTasks
    requires te.task.id !in s.m.taskDb
    ensures var io := SendIo(Some(n), Refused, StopRefused);
            Run(s, [Submit(te), Send(0, io), Send(0, io), Send(0, io), Send(0, io)]) == s.(m := Assigned(s.m, n.name, te))
  {
    var io := SendIo(Some(n), Refused, StopRefused);
    var s1 := Step(s, Submit(te));
    var s2 := Step(s1, Send(0, io));
    var s3 := Step(s2, Send(0, io));
    var s4 := Step(s3, Send(0, io));
    var s5 := Step(s4, Send(0, io));
    RefusedSteps(s, n, te);
    var acts := [Submit(te), Send(0, io), Send(0, io), Send(0, io), Send(0, io)];
    assert acts[1..] == [Send(0, io), Send(0, io), Send(0, io), Send(0, io)];
    assert acts[1..][1..] == [Send(0, io), Send(0, io), Send(0, io)];
    assert acts[1..][1..][1..] == [Send(0, io), Send(0, io)];
    assert acts[1..][1..][1..][1..] == [Send(0, io)];
    assert acts[1..][1..][1..][1..][1..] == [];
    assert Run(s, acts) == Run(s1, acts[1..]) == Run(s2, acts[1..][1..]) == Run(s3, acts[1..][1..][1..]);
    assert Run(s3, acts[1..][1..][1..]) == Run(s4, acts[1..][1..][1..][1..]) == Run(s5, []);
  }

  // The condition is met by real runs only if nobody resubmits a refused task:
  // the refusal leaves the route behind, and the second dispatch lists it twice.
  lemma RefusedThenResubmitted(n: Node, te: TaskEvent)
    ensures var io := SendIo(Some(n), Refused, StopRefused);
            var round := [Submit(te), Send(0, io), Send(0, io), Send(0, io), Send(0, io)];
            var s := Run(Boot([n], 1, 0), round + round);
            s.sends == [Idle] && n.name in s.m.workerTasks && s.m.workerTasks[n.name] == [te.task.id, te.task.id] && !Inverse(s.m)
  {
    var io := SendIo(Some(n), Refused, StopRefused);
    var round := [Submit(te), Send(0, io), Send(0, io), Send(0, io), Send(0, io)];
    var boot := Boot([n], 1, 0);
    assert boot.sends == [Idle];
    EmptyListsCoverNames([n]);
    assert n in [n];
    RefusedRound(boot, n, te);
    RefusedRound(Run(boot, round), n, te);
    RunConcat(boot, round, round);
    var list := Run(boot, round + round).m.workerTasks[n.name];
    assert list[0] == list[1];
  }
}
