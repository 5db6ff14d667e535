// Event conservation: with any number of SendWork callers, every enqueued event
// is pending, held by one caller, or at exactly one terminal outcome.

module ManagerEvents {
  import opened Options
  import opened Tasks
  import opened Store
  import opened Queues
  import opened Nodes
  import opened ManagerProtocol
  import opened ManagerSystem

  datatype Outcome = Dispatched | Rejected | NoWorker | Ignored | StopAttempted

  // Copies of te on the queue.
  function Queued(q: seq<TaskEvent>, te: TaskEvent): nat {
    multiset(q)[te]
  }

  // The event a caller has taken off the queue and not let go of.
  function EventOf(pc: SendPc): Option<TaskEvent> {
    if pc.Idle? then None else Some(pc.te)
  }

  function HeldBy(pc: SendPc, te: TaskEvent): nat {
    if EventOf(pc) == Some(te) then 1 else 0
  }

  function Held(sends: seq<SendPc>, te: TaskEvent): nat {
    if sends == [] then 0 else HeldBy(sends[0], te) + Held(sends[1..], te)
  }

  // Everything the manager still has to deal with.
  function Live(s: System, te: TaskEvent): nat {
    Queued(s.m.pending, te) + Held(s.sends, te)
  }

  // te is put on the queue from outside SendWork: by the API, or by the health
  // loop requeueing a restart whose worker was unreachable.
  predicate Enters(s: System, a: Action, te: TaskEvent) {
    match a
    case Submit(e) => e == te
    case Health(io) => s.health.Reposting? && io.post.Unreachable? && s.health.te == te
    case _ => false
  }

  // How a caller lets go of its event for good in its next step.
  function SendEnds(nodes: seq<Node>, c: SendConf, io: SendIo): (o: Option<Outcome>)
    ensures o.Some? ==> !c.pc.Idle?
  {
    match c.pc
    case Holding(te) =>
      (match AssignmentFor(c.m, te.task.id)
       case Some((w, t)) => if Stops(te, t) then None else Some(Ignored)
       case None => None)
    case Stopping(_, _) => Some(StopAttempted)
    case Selecting(_) => if Picked(nodes, io).None? then Some(NoWorker) else None
    case Posting(_, _) =>
      (match io.post
       case Accepted(_) => Some(Dispatched)
       case Refused => Some(Rejected)
       case Unreachable => None)
    case _ => None
  }

  function EndsWith(s: System, a: Action): (o: Option<Outcome>)
    ensures o.Some? ==> a.Send? && a.i < |s.sends| && !s.sends[a.i].Idle?
  {
    if a.Send? && a.i < |s.sends| then SendEnds(s.nodes, SendConf(s.m, s.sends[a.i]), a.sendIo) else None
  }

  predicate Ends(s: System, a: Action, o: Outcome, te: TaskEvent) {
    EndsWith(s, a) == Some(o) && s.sends[a.i].te == te
  }

  function One(b: bool): nat { if b then 1 else 0 }

  // How often te entered, and how often it ended with o, along a run.
  function Entered(s: System, acts: seq<Action>, te: TaskEvent): nat
    decreases |acts|
  {
    if acts == [] then 0 else One(Enters(s, acts[0], te)) + Entered(Step(s, acts[0]), acts[1..], te)
  }

  function Ended(s: System, acts: seq<Action>, o: Outcome, te: TaskEvent): nat
    decreases |acts|
  {
    if acts == [] then 0 else One(Ends(s, acts[0], o, te)) + Ended(Step(s, acts[0]), acts[1..], o, te)
  }

  lemma {:induction false} EndedSnoc(s: System, acts: seq<Action>, a: Action, o: Outcome, te: TaskEvent)
    ensures Ended(s, acts + [a], o, te) == Ended(s, acts, o, te) + One(Ends(Run(s, acts), a, o, te))
    decreases |acts|
  {
    if acts == [] {
      assert ([] + [a])[1..] == [];
    } else {
      assert (acts + [a])[1..] == acts[1..] + [a];
      EndedSnoc(Step(s, acts[0]), acts[1..], a, o, te);
    }
  }

  lemma {:induction false} HeldAfterMove(sends: seq<SendPc>, i: nat, pc: SendPc, te: TaskEvent)
    requires i < |sends|
    ensures Held(sends[i := pc], te) + HeldBy(sends[i], te) == Held(sends, te) + HeldBy(pc, te)
  {
    if i > 0 {
      assert sends[i := pc][1..] == sends[1..][i - 1 := pc];
      HeldAfterMove(sends[1..], i - 1, pc, te);
    } else {
      assert sends[i := pc][1..] == sends[1..];
    }
  }

  // The queue after a caller's step: only the first and the last step touch it.
  lemma SendQueue(nodes: seq<Node>, c: SendConf, io: SendIo)
    ensures SendStep(nodes, c, io).m.pending
         == match c.pc
            case Idle => if c.m.pending == [] then [] else c.m.pending[1..]
            case Requeueing(te) => c.m.pending + [te]
            case _ => c.m.pending
  {
  }

  // Where a caller's event is after its step: kept, or let go of.
  lemma SendKeepsOrEnds(nodes: seq<Node>, c: SendConf, io: SendIo)
    ensures EventOf(SendStep(nodes, c, io).pc)
         == if c.pc.Idle? then (if c.m.pending == [] then None else Some(c.m.pending[0]))
            else if c.pc.Requeueing? || SendEnds(nodes, c, io).Some? then None
            else EventOf(c.pc)
  {
  }

  // One step of a caller: its event moves, and moves once.
  lemma SendMovesOneEvent(nodes: seq<Node>, c: SendConf, io: SendIo, te: TaskEvent)
    ensures var c' := SendStep(nodes, c, io);
            Queued(c.m.pending, te) + HeldBy(c.pc, te)
            == Queued(c'.m.pending, te) + HeldBy(c'.pc, te) + One(SendEnds(nodes, c, io).Some? && EventOf(c.pc) == Some(te))
  {
    SendQueue(nodes, c, io);
    SendKeepsOrEnds(nodes, c, io);
    if c.pc.Idle? && c.m.pending != [] {
      assert c.m.pending == [c.m.pending[0]] + c.m.pending[1..];
    }
  }

  lemma OthersConserve(s: System, a: Action, te: TaskEvent)
    requires a.Send? ==> a.i >= |s.sends|
    ensures EndsWith(s, a).None? && Live(s, te) + One(Enters(s, a, te)) == Live(Step(s, a), te)
  {
    assert Step(s, a).sends == s.sends;
  }

  lemma StepConserves(s: System, a: Action, te: TaskEvent)
    ensures Live(s, te) + One(Enters(s, a, te))
         == Live(Step(s, a), te) + One(Ends(s, a, Dispatched, te)) + One(Ends(s, a, Rejected, te))
            + One(Ends(s, a, NoWorker, te)) + One(Ends(s, a, Ignored, te)) + One(Ends(s, a, StopAttempted, te))
  {
    if a.Send? && a.i < |s.sends| {
      SendMovesOneEvent(s.nodes, SendConf(s.m, s.sends[a.i]), a.sendIo, te);
      HeldAfterMove(s.sends, a.i, SendStep(s.nodes, SendConf(s.m, s.sends[a.i]), a.sendIo).pc, te);
    } else {
      OthersConserve(s, a, te);
    }
  }

  // Conservation over every run: what was live plus what entered is what is
  // live now plus what ended, outcome by outcome.
  lemma {:induction false} EventsAreConserved(s: System, acts: seq<Action>, te: TaskEvent)
    ensures Live(s, te) + Entered(s, acts, te)
         == Live(Run(s, acts), te) + Ended(s, acts, Dispatched, te) + Ended(s, acts, Rejected, te)
            + Ended(s, acts, NoWorker, te) + Ended(s, acts, Ignored, te) + Ended(s, acts, StopAttempted, te)
    decreases |acts|
  {
    if acts == [] {
    } else {
      StepConserves(s, acts[0], te);
      EventsAreConserved(Step(s, acts[0]), acts[1..], te);
    }
  }

  lemma {:induction false} NobodyHolds(sends: seq<SendPc>, te: TaskEvent)
    requires forall i :: 0 <= i < |sends| ==> sends[i].Idle?
    ensures Held(sends, te) == 0
  {
    if sends == [] {
    } else {
      NobodyHolds(sends[1..], te);
    }
  }

  // From a fresh manager every occurrence that entered is in exactly one place:
  // on the queue, with one caller, or at one outcome.
  lemma EveryOccurrenceIsInOnePlace(nodes: seq<Node>, callers: nat, pollers: nat, acts: seq<Action>, te: TaskEvent)
    ensures var s := Boot(nodes, callers, pollers);
            var r := Run(s, acts);
            Entered(s, acts, te)
            == Queued(r.m.pending, te) + Held(r.sends, te)
               + Ended(s, acts, Dispatched, te) + Ended(s, acts, Rejected, te) + Ended(s, acts, NoWorker, te)
               + Ended(s, acts, Ignored, te) + Ended(s, acts, StopAttempted, te)
  {
    var s := Boot(nodes, callers, pollers);
    EventsAreConserved(s, acts, te);
    NobodyHolds(s.sends, te);
  }

  // ----- The order of the queue -----

  // What a step puts on the queue: a submission, or an event sent back because its
  // worker was unreachable.
  function Added(s: System, a: Action): seq<TaskEvent> {
    match a
    case Submit(te) => [te]
    case Send(i, io) => if i < |s.sends| && s.sends[i].Requeueing? then [s.sends[i].te] else []
    case Health(io) => if s.health.Reposting? && io.post.Unreachable? then [s.health.te] else []
    case _ => []
  }

  // What a step takes off it.
  function TakenOff(s: System, a: Action): seq<TaskEvent> {
    if a.Send? && a.i < |s.sends| && s.sends[a.i].Idle? && s.m.pending != [] then [s.m.pending[0]] else []
  }

  function AddedAlong(s: System, acts: seq<Action>): seq<TaskEvent>
    decreases |acts|
  {
    if acts == [] then [] else Added(s, acts[0]) + AddedAlong(Step(s, acts[0]), acts[1..])
  }

  function TakenAlong(s: System, acts: seq<Action>): seq<TaskEvent>
    decreases |acts|
  {
    if acts == [] then [] else TakenOff(s, acts[0]) + TakenAlong(Step(s, acts[0]), acts[1..])
  }

  lemma QueueStep(s: System, a: Action)
    ensures s.m.pending + Added(s, a) == TakenOff(s, a) + Step(s, a).m.pending
  {
    if a.Send? && a.i < |s.sends| {
      SendQueue(s.nodes, SendConf(s.m, s.sends[a.i]), a.sendIo);
    }
  }

  // First in, first out over every run of any callers: events leave the queue in
  // the order in which they came, requeued ones from the back again.
  lemma {:induction false} QueueIsFifo(s: System, acts: seq<Action>)
    ensures s.m.pending + AddedAlong(s, acts) == TakenAlong(s, acts) + Run(s, acts).m.pending
    decreases |acts|
  {
    if acts == [] {
    } else {
      var s' := Step(s, acts[0]);
      QueueStep(s, acts[0]);
      QueueIsFifo(s', acts[1..]);
      Chain(s.m.pending, Added(s, acts[0]), TakenOff(s, acts[0]), s'.m.pending,
            AddedAlong(s', acts[1..]), TakenAlong(s', acts[1..]), Run(s', acts[1..]).m.pending);
    }
  }

  // ----- The requeue of an unreachable send -----

  ghost predicate WithoutCaller(acts: seq<Action>, i: nat) {
    forall k :: 0 <= k < |acts| ==> !(acts[k].Send? && acts[k].i == i)
  }

  lemma {:induction false} OthersLeaveMyPlace(s: System, acts: seq<Action>, i: nat)
    requires i < |s.sends| && WithoutCaller(acts, i)
    ensures |Run(s, acts).sends| == |s.sends| && Run(s, acts).sends[i] == s.sends[i]
    decreases |acts|
  {
    if acts == [] {
    } else {
      assert !(acts[0].Send? && acts[0].i == i);
      OthersLeaveMyPlace(Step(s, acts[0]), acts[1..], i);
    }
  }

  // Whatever everybody else does meanwhile, a caller whose fresh send found the
  // worker unreachable holds on to its event for two steps of its own, and
  // the second puts that same event at the back of the queue, once.
  lemma UnreachableSendRequeuesOnce(s: System, i: nat, first: SendIo, second: SendIo, third: SendIo,
                                    others: seq<Action>, others': seq<Action>)
    requires i < |s.sends| && s.sends[i].Posting? && first.post.Unreachable?
    requires WithoutCaller(others, i) && WithoutCaller(others', i)
    ensures var te := s.sends[i].te;
            var r1 := Run(Step(s, Send(i, first)), others);
            var r2 := Run(Step(r1, Send(i, second)), others');
            var r3 := Step(r2, Send(i, third));
            && |r1.sends| == |r2.sends| == |r3.sends| == |s.sends|
            && HeldBy(r1.sends[i], te) == HeldBy(r2.sends[i], te) == 1
            && r3.sends[i].Idle? && r3.m.pending == r2.m.pending + [te]
            && EndsWith(s, Send(i, first)).None? && EndsWith(r1, Send(i, second)).None? && EndsWith(r2, Send(i, third)).None?
            && te.task.id !in Step(r1, Send(i, second)).m.taskWorker
  {
    var s1 := Step(s, Send(i, first));
    OthersLeaveMyPlace(s1, others, i);
    var r1 := Run(s1, others);
    assert r1.sends[i] == RollingBack(s.sends[i].te, s.sends[i].node);
    var s2 := Step(r1, Send(i, second));
    OthersLeaveMyPlace(s2, others', i);
  }

  // ----- Events ignored at their lookup -----

  // Every caller that has te is about to look its task up.
  ghost predicate HeldAtLookup(s: System, te: TaskEvent) {
    forall i :: 0 <= i < |s.sends| && EventOf(s.sends[i]) == Some(te) ==> s.sends[i].Holding?
  }

  // If this step looks te's task up, it finds a route.
  predicate LookupFindsRoute(s: System, a: Action, te: TaskEvent) {
    (a.Send? && a.i < |s.sends| && s.sends[a.i] == Holding(te)) ==> te.task.id in s.m.taskWorker
  }

  // Every lookup of te along the run finds a route.
  ghost predicate LookupsFindRoute(s: System, acts: seq<Action>, te: TaskEvent)
    decreases |acts|
  {
    acts == [] || (LookupFindsRoute(s, acts[0], te) && LookupsFindRoute(Step(s, acts[0]), acts[1..], te))
  }

  // te never gets past its lookup: nobody stops, selects or posts on its behalf
  // in any state of the run.
  ghost predicate StaysAtLookup(s: System, acts: seq<Action>, te: TaskEvent)
    decreases |acts|
  {
    HeldAtLookup(s, te) && (acts != [] ==> StaysAtLookup(Step(s, acts[0]), acts[1..], te))
  }

  lemma LookupStep(s: System, a: Action, te: TaskEvent)
    requires te.task.state != Completed && te.task.id in s.m.taskDb && HeldAtLookup(s, te)
    ensures HeldAtLookup(Step(s, a), te) <==> LookupFindsRoute(s, a, te)
    ensures forall o :: Ends(s, a, o, te) ==> o == Ignored
  {
    var s' := Step(s, a);
    if a.Send? && a.i < |s.sends| {
      var c := SendStep(s.nodes, SendConf(s.m, s.sends[a.i]), a.sendIo);
      assert s'.sends == s.sends[a.i := c.pc] && s'.sends[a.i] == c.pc;
      SendKeepsOrEnds(s.nodes, SendConf(s.m, s.sends[a.i]), a.sendIo);
    } else {
      assert s'.sends == s.sends;
    }
  }

  // An event other than a stop, of a stored task: whatever any number of callers
  // do, re-dispatch included, it stays at its lookup if and only if every lookup
  // finds a route. Then each occurrence ends ignored or is live still.
  lemma {:induction false} IgnoredExactlyWhenRouted(s: System, acts: seq<Action>, te: TaskEvent)
    requires te.task.state != Completed && te.task.id in s.m.taskDb && HeldAtLookup(s, te)
    ensures StaysAtLookup(s, acts, te) <==> LookupsFindRoute(s, acts, te)
    ensures LookupsFindRoute(s, acts, te) ==>
              && Ended(s, acts, Dispatched, te) == Ended(s, acts, Rejected, te) == 0
              && Ended(s, acts, NoWorker, te) == Ended(s, acts, StopAttempted, te) == 0
              && Live(s, te) + Entered(s, acts, te) == Live(Run(s, acts), te) + Ended(s, acts, Ignored, te)
    decreases |acts|
  {
    EventsAreConserved(s, acts, te);
    if acts == [] {
    } else {
      LookupStep(s, acts[0], te);
      if LookupFindsRoute(s, acts[0], te) {
        StoreOnlyGrowsInOneStep(s, acts[0]);
        IgnoredExactlyWhenRouted(Step(s, acts[0]), acts[1..], te);
      }
    }
  }

  // ----- The event of a restart -----

  // The restart event in hand carries the rescheduled record of a stored task.
  ghost predicate RepostInv(s: System) {
    && Keyed(s.m.taskDb)
    && (s.health.Reposting? ==> s.health.te.task.state == Scheduled && s.health.te.task.id in s.m.taskDb)
  }

  lemma {:induction false} RepostRun(s: System, acts: seq<Action>)
    requires RepostInv(s)
    ensures RepostInv(Run(s, acts))
    decreases |acts|
  {
    if acts == [] {
    } else {
      StaysKeyed(s, acts[0]);
      StoreOnlyGrowsInOneStep(s, acts[0]);
      RepostRun(Step(s, acts[0]), acts[1..]);
    }
  }

  lemma {:induction false} HoldersAreCounted(sends: seq<SendPc>, te: TaskEvent)
    ensures Held(sends, te) == 0 ==> forall i :: 0 <= i < |sends| ==> EventOf(sends[i]) != Some(te)
  {
    if sends == [] {
    } else {
      HoldersAreCounted(sends[1..], te);
    }
  }
}
