// A restart whose worker was unreachable puts its event on the queue. What
// becomes of it depends on the route of its task.

module ManagerRequeue {
  import opened Tasks
  import opened Nodes
  import opened ManagerProtocol
  import opened ManagerSystem
  import opened ManagerEvents
  import opened ManagerRetire

  // The task is stored and routed, and the only caller is not about to route it
  // anew or to roll such a route back.
  ghost predicate RouteHeld(s: System, id: Uuid) {
    && id in s.m.taskDb && id in s.m.taskWorker
    && |s.sends| == 1
    && match s.sends[0]
       case Selecting(te) => te.task.id != id
       case Posting(te, _) => te.task.id != id
       case RollingBack(te, _) => te.task.id != id
       case _ => true
  }

  lemma RouteHeldStep(s: System, a: Action, id: Uuid)
    requires RouteHeld(s, id)
    ensures RouteHeld(Step(s, a), id) <==> !Retires(s, a, id)
  {
    StoreOnlyGrowsInOneStep(s, a);
    if !a.Send? {
      assert Step(s, a).sends == s.sends && Step(s, a).m.taskWorker == s.m.taskWorker;
    }
  }

  ghost predicate StaysRouted(s: System, acts: seq<Action>, id: Uuid)
    decreases |acts|
  {
    RouteHeld(s, id) && (acts != [] ==> StaysRouted(Step(s, acts[0]), acts[1..], id))
  }

  predicate NeverRetired(s: System, acts: seq<Action>, id: Uuid)
    decreases |acts|
  {
    acts == [] || (!Retires(s, acts[0], id) && NeverRetired(Step(s, acts[0]), acts[1..], id))
  }

  // With one ProcessTasks loop, whatever it dispatches, a stored task loses its
  // route by being retired and in no other way.
  lemma {:induction false} RouteGoesOnlyByRetirement(s: System, acts: seq<Action>, id: Uuid)
    requires RouteHeld(s, id)
    ensures StaysRouted(s, acts, id) <==> NeverRetired(s, acts, id)
    decreases |acts|
  {
    if acts == [] {
    } else {
      RouteHeldStep(s, acts[0], id);
      if !Retires(s, acts[0], id) {
        RouteGoesOnlyByRetirement(Step(s, acts[0]), acts[1..], id);
      }
    }
  }

  lemma {:induction false} LookupsOfRouted(s: System, acts: seq<Action>, te: TaskEvent)
    requires StaysRouted(s, acts, te.task.id)
    ensures LookupsFindRoute(s, acts, te)
    decreases |acts|
  {
    if acts == [] {
    } else {
      LookupsOfRouted(Step(s, acts[0]), acts[1..], te);
    }
  }

  // After any run of a new manager with one ProcessTasks loop, a restart of a
  // routed task that finds its worker unreachable is put back on the queue and,
  // until a stop retires the task, is never sent anywhere: the event ends
  // ignored, or is live still. The event has not been on the queue before, its
  // ID being drawn at random.
  lemma RequeuedRestartIsIgnored(nodes: seq<Node>, pollers: nat, before: seq<Action>, io: HealthIo, after: seq<Action>)
    requires var boot := Boot(nodes, 1, pollers);
             var s := Run(boot, before);
             && s.health.Reposting? && io.post.Unreachable? && Entered(boot, before, s.health.te) == 0
             && RouteHeld(s, s.health.te.task.id)
             && NeverRetired(Step(s, Health(io)), after, s.health.te.task.id)
    ensures var s := Run(Boot(nodes, 1, pollers), before);
            var te, s' := s.health.te, Step(s, Health(io));
            && s'.m.pending == s.m.pending + [te] && Live(s', te) == 1
            && StaysAtLookup(s', after, te)
            && Ended(s', after, Dispatched, te) == Ended(s', after, Rejected, te) == 0
            && Ended(s', after, NoWorker, te) == Ended(s', after, StopAttempted, te) == 0
            && 1 + Entered(s', after, te) == Live(Run(s', after), te) + Ended(s', after, Ignored, te)
  {
    var boot := Boot(nodes, 1, pollers);
    var s := Run(boot, before);
    var te, s' := s.health.te, Step(s, Health(io));
    RepostRun(boot, before);
    EveryOccurrenceIsInOnePlace(nodes, 1, pollers, before, te);
    HoldersAreCounted(s.sends, te);
    assert s'.sends == s.sends && s'.m.taskDb == s.m.taskDb && s'.m.taskWorker == s.m.taskWorker;
    RouteGoesOnlyByRetirement(s', after, te.task.id);
    LookupsOfRouted(s', after, te);
    IgnoredExactlyWhenRouted(s', after, te);
  }
}
