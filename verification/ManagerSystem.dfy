// The running manager: any number of SendWork callers, one health check loop,
// any number of update goroutines and the API, interleaved at every lock
// release. A run is any sequence of actions; the actions carry the answers the
// outside world gave, so a theorem over all runs is a theorem over all
// schedules and all worker, network and scheduler behaviour.

module ManagerSystem {
  import opened Options
  import opened Tasks
  import opened Store
  import opened Nodes
  import opened Reports
  import opened ManagerProtocol

  datatype System = System(
    nodes: seq<Node>,
    m: MState,
    sends: seq<SendPc>,         // one slot per SendWork caller
    health: HealthPc,
    polls: seq<seq<Task>>)      // per update goroutine, the reports not merged yet

  datatype Action =
    | Submit(te: TaskEvent)                                            // API: AddTask
    | Send(i: nat, sendIo: SendIo)                                     // caller i takes its next step
    | Snapshot(listing: seq<Task>)                                     // the health loop lists TaskDb
    | Health(healthIo: HealthIo)                                       // the health pass takes its next step
    | Poll(j: nat, worker: string, answer: Option<seq<Task>>)          // goroutine j fetches a worker's list
    | Merge(j: nat)                                                    // goroutine j merges its next report

  // An action whose thread cannot take it leaves the system alone.
  function Step(s: System, a: Action): System {
    match a
    case Submit(te) => s.(m := Enqueued(s.m, te))
    case Send(i, io) =>
      if i < |s.sends| then
        var c := SendStep(s.nodes, SendConf(s.m, s.sends[i]), io);
        s.(m := c.m, sends := s.sends[i := c.pc])
      else s
    case Snapshot(listing) =>
      if s.health.Resting? && IsListing(listing, s.m.taskDb) then s.(health := Walking(listing)) else s
    case Health(io) =>
      var c := HealthStep(s.nodes, HealthConf(s.m, s.health), io);
      s.(m := c.m, health := c.pc)
    case Poll(j, w, answer) =>
      if j < |s.polls| && s.polls[j] == [] && Address(s.nodes, w).Some? && answer.Some? then
        s.(polls := s.polls[j := answer.value])
      else s
    case Merge(j) =>
      if j < |s.polls| && s.polls[j] != [] then
        s.(m := Merged(s.m, s.polls[j][0]), polls := s.polls[j := s.polls[j][1..]])
      else s
  }

  function Run(s: System, acts: seq<Action>): System
    decreases |acts|
  {
    if acts == [] then s else Run(Step(s, acts[0]), acts[1..])
  }

  // ok holds of every step of the run.
  ghost predicate Along(s: System, acts: seq<Action>, ok: (System, Action) -> bool)
    decreases |acts|
  {
    acts == [] || (ok(s, acts[0]) && Along(Step(s, acts[0]), acts[1..], ok))
  }

  // NewManager, before any loop has started; `callers` and `pollers` are
  // arbitrary numbers of SendWork callers and update goroutines.
  function Boot(nodes: seq<Node>, callers: nat, pollers: nat): System {
    System(nodes, Initial(nodes), seq(callers, _ => Idle), Resting, seq(pollers, _ => []))
  }

  lemma {:induction false} RunConcat(s: System, acts: seq<Action>, bs: seq<Action>)
    ensures Run(s, acts + bs) == Run(Run(s, acts), bs)
    decreases |acts|
  {
    if acts == [] {
      assert acts + bs == bs;
    } else {
      assert (acts + bs)[0] == acts[0] && (acts + bs)[1..] == acts[1..] + bs;
      RunConcat(Step(s, acts[0]), acts[1..], bs);
    }
  }

  lemma {:induction false} AlongConcat(s: System, acts: seq<Action>, bs: seq<Action>, ok: (System, Action) -> bool)
    ensures Along(s, acts + bs, ok) <==> Along(s, acts, ok) && Along(Run(s, acts), bs, ok)
    decreases |acts|
  {
    if acts == [] {
      assert acts + bs == bs;
    } else {
      assert (acts + bs)[0] == acts[0] && (acts + bs)[1..] == acts[1..] + bs;
      AlongConcat(Step(s, acts[0]), acts[1..], bs, ok);
    }
  }

  lemma RunSnoc(s: System, acts: seq<Action>, a: Action, ok: (System, Action) -> bool)
    ensures Run(s, acts + [a]) == Step(Run(s, acts), a)
    ensures Along(s, acts + [a], ok) <==> Along(s, acts, ok) && ok(Run(s, acts), a)
  {
    RunConcat(s, acts, [a]);
    AlongConcat(s, acts, [a], ok);
    assert [a][1..] == [];
  }

  // Building a concrete run one action at a time.
  lemma Extend(s: System, acts: seq<Action>, a: Action, ok: (System, Action) -> bool) returns (more: seq<Action>)
    requires Along(s, acts, ok) && ok(Run(s, acts), a)
    ensures more == acts + [a] && Along(s, more, ok) && Run(s, more) == Step(Run(s, acts), a)
  {
    RunSnoc(s, acts, a, ok);
    more := acts + [a];
  }

  lemma {:induction false} AlongImplies(s: System, acts: seq<Action>, ok: (System, Action) -> bool, weaker: (System, Action) -> bool)
    requires Along(s, acts, ok) && forall r, a :: ok(r, a) ==> weaker(r, a)
    ensures Along(s, acts, weaker)
    decreases |acts|
  {
    if acts == [] {
    } else {
      AlongImplies(Step(s, acts[0]), acts[1..], ok, weaker);
    }
  }

  // ----- No re-dispatch -----

  // Some caller's POST for this task is outstanding.
  predicate InFlight(s: System, id: Uuid) {
    exists i :: 0 <= i < |s.sends| && s.sends[i].Posting? && s.sends[i].te.task.id == id
  }

  // The fresh dispatch of SendWork is not taken for a task that is stored
  // already or that another caller is posting.
  predicate NoRedispatch(s: System, a: Action) {
    (a.Send? && a.i < |s.sends| && s.sends[a.i].Selecting? && Picked(s.nodes, a.sendIo).Some?) ==>
      var id := s.sends[a.i].te.task.id;
      id !in s.m.taskDb && !InFlight(s, id)
  }

  // A worker that accepts a post answers with the task it was sent
  // (internal/worker/api.go, StartTaskHandler), so at least with its ID.
  predicate WorkerEchoes(s: System, a: Action) {
    (a.Send? && a.i < |s.sends| && s.sends[a.i].Posting? && a.sendIo.post.Accepted?) ==>
      a.sendIo.post.created.id == s.sends[a.i].te.task.id
  }

  predicate FreshScope(s: System, a: Action) {
    NoRedispatch(s, a) && WorkerEchoes(s, a)
  }

  // Such a worker in fact answers with the very task it was sent.
  predicate EchoesExactly(s: System, a: Action) {
    (a.Send? && a.i < |s.sends| && s.sends[a.i].Posting? && a.sendIo.post.Accepted?) ==>
      a.sendIo.post.created == s.sends[a.i].te.task
  }

  // What every caller holds between assigning and storing is not stored yet,
  // and no two callers hold the same task there.
  ghost predicate FlightsAreFresh(s: System) {
    && (forall i :: 0 <= i < |s.sends| && s.sends[i].Posting? ==> s.sends[i].te.task.id !in s.m.taskDb)
    && (forall i, j :: 0 <= i < j < |s.sends| && s.sends[i].Posting? && s.sends[j].Posting? ==>
          s.sends[i].te.task.id != s.sends[j].te.task.id)
  }

  // What a step does to the task store, seen from outside.
  lemma SendStore(nodes: seq<Node>, c: SendConf, io: SendIo)
    ensures var db, db' := c.m.taskDb, SendStep(nodes, c, io).m.taskDb;
            match c.pc
            case Posting(_, _) => (match io.post case Accepted(t) => db' == db[t.id := t] case _ => db' == db)
            case Stopping(te, w) =>
              db' == if StopLands(nodes, w, io) && te.task.id in db
                     then db[te.task.id := db[te.task.id].(state := Completed)] else db
            case _ => db' == db
  {
  }

  lemma HealthStore(nodes: seq<Node>, c: HealthConf, io: HealthIo)
    ensures var db, db' := c.m.taskDb, HealthStep(nodes, c, io).m.taskDb;
            if c.pc.Beginning? && c.pc.id in db then
              db' == db[c.pc.id := db[c.pc.id].(state := Scheduled, restartCount := db[c.pc.id].restartCount + 1)]
            else db' == db
  {
  }

  // Every write stores a task under its own ID.
  lemma StaysKeyed(s: System, a: Action)
    requires Keyed(s.m.taskDb)
    ensures Keyed(Step(s, a).m.taskDb)
  {
    if a.Send? && a.i < |s.sends| {
      SendStore(s.nodes, SendConf(s.m, s.sends[a.i]), a.sendIo);
    } else if a.Health? {
      HealthStore(s.nodes, HealthConf(s.m, s.health), a.healthIo);
    }
  }

  lemma FlightsSend(s: System, i: nat, io: SendIo)
    requires FlightsAreFresh(s) && WorkerEchoes(s, Send(i, io)) && i < |s.sends|
    ensures FlightsAreFresh(Step(s, Send(i, io))) <==> NoRedispatch(s, Send(i, io))
  {
    var c := SendStep(s.nodes, SendConf(s.m, s.sends[i]), io);
    var s' := Step(s, Send(i, io));
    SendStore(s.nodes, SendConf(s.m, s.sends[i]), io);
    assert s'.m == c.m && s'.sends == s.sends[i := c.pc];
    if c.pc.Posting? {
      var id := c.pc.te.task.id;
      assert s.sends[i].Selecting? && c.m.taskDb == s.m.taskDb && c.pc.te == s.sends[i].te;
      assert s'.sends[i] == c.pc;
      if InFlight(s, id) {
        var k :| 0 <= k < |s.sends| && s.sends[k].Posting? && s.sends[k].te.task.id == id;
        assert s'.sends[k] == s.sends[k] && k != i;
        assert !FlightsAreFresh(s');
      } else {
        assert forall k :: 0 <= k < |s'.sends| && k != i && s'.sends[k].Posting? ==> s.sends[k].Posting?;
        assert id !in s.m.taskDb ==> FlightsAreFresh(s');
      }
    } else {
      forall k | 0 <= k < |s'.sends| && s'.sends[k].Posting?
        ensures s'.sends[k].te.task.id !in s'.m.taskDb
      {
        assert k != i && s.sends[k].Posting?;
      }
    }
  }

  lemma FlightsStayFreshExactly(s: System, a: Action)
    requires FlightsAreFresh(s) && WorkerEchoes(s, a)
    ensures FlightsAreFresh(Step(s, a)) <==> NoRedispatch(s, a)
  {
    if a.Send? && a.i < |s.sends| {
      FlightsSend(s, a.i, a.sendIo);
    } else {
      if a.Health? {
        HealthStore(s.nodes, HealthConf(s.m, s.health), a.healthIo);
      }
      assert Step(s, a).m.taskDb.Keys == s.m.taskDb.Keys && Step(s, a).sends == s.sends;
    }
  }

  lemma FlightsStayFresh(s: System, a: Action)
    requires Keyed(s.m.taskDb) && FlightsAreFresh(s) && FreshScope(s, a)
    ensures Keyed(Step(s, a).m.taskDb) && FlightsAreFresh(Step(s, a))
  {
    StaysKeyed(s, a);
    FlightsStayFreshExactly(s, a);
  }

  // Fresh in every state of the run.
  ghost predicate StayFresh(s: System, acts: seq<Action>)
    decreases |acts|
  {
    FlightsAreFresh(s) && (acts != [] ==> StayFresh(Step(s, acts[0]), acts[1..]))
  }

  // Along a run of any number of callers, no task being posted is stored already
  // or posted twice, if and only if nothing is re-dispatched.
  lemma {:induction false} FreshExactlyWithoutRedispatch(s: System, acts: seq<Action>)
    requires FlightsAreFresh(s) && Along(s, acts, WorkerEchoes)
    ensures StayFresh(s, acts) <==> Along(s, acts, NoRedispatch)
    decreases |acts|
  {
    if acts == [] {
    } else {
      FlightsStayFreshExactly(s, acts[0]);
      if NoRedispatch(s, acts[0]) {
        FreshExactlyWithoutRedispatch(Step(s, acts[0]), acts[1..]);
      }
    }
  }

  lemma StoreOnlyGrowsInOneStep(s: System, a: Action)
    ensures s.m.taskDb.Keys <= Step(s, a).m.taskDb.Keys
  {
  }

  // Stored tasks are never deleted.
  lemma {:induction false} StoreOnlyGrows(s: System, acts: seq<Action>)
    ensures s.m.taskDb.Keys <= Run(s, acts).m.taskDb.Keys
    decreases |acts|
  {
    if acts == [] {
    } else {
      StoreOnlyGrowsInOneStep(s, acts[0]);
      StoreOnlyGrows(Step(s, acts[0]), acts[1..]);
    }
  }

  // ----- Runs of one thread are the loop bodies -----

  // A caller left alone carries out the body of SendWork and is idle again.
  lemma {:induction false} SendRunsAlone(s: System, i: nat, io: SendIo) returns (acts: seq<Action>)
    requires i < |s.sends|
    ensures Run(s, acts) == s.(m := FinishSend(s.nodes, SendConf(s.m, s.sends[i]), io), sends := s.sends[i := Idle])
    ensures forall a :: a in acts ==> a == Send(i, io)
    decreases StepsLeft(s.sends[i])
  {
    if s.sends[i].Idle? {
      acts := [];
      assert s.sends[i := Idle] == s.sends;
    } else {
      var s' := Step(s, Send(i, io));
      var rest := SendRunsAlone(s', i, io);
      acts := [Send(i, io)] + rest;
      assert acts[1..] == rest;
      assert s'.sends[i := Idle] == s.sends[i := Idle];
    }
  }

  // The body of SendWork is a run of one caller's steps.
  lemma SendWorkIsARun(s: System, i: nat, io: SendIo) returns (acts: seq<Action>)
    requires i < |s.sends| && s.sends[i].Idle?
    ensures Run(s, acts) == s.(m := SendAlone(s.nodes, s.m, io))
    ensures forall a :: a in acts ==> a == Send(i, io)
  {
    var s' := Step(s, Send(i, io));
    var rest := SendRunsAlone(s', i, io);
    acts := [Send(i, io)] + rest;
    assert acts[1..] == rest;
    assert s'.sends[i := Idle] == s.sends;
  }

  // So is the body of doHealthChecks, from its snapshot to its last task.
  lemma {:induction false} HealthPassIsARun(s: System, io: Uuid -> HealthIo) returns (acts: seq<Action>)
    ensures Run(s, acts) == s.(m := FinishPass(s.nodes, HealthConf(s.m, s.health), io), health := Resting)
    ensures forall a :: a in acts ==> a.Health?
    decreases PassLeft(s.health)
  {
    if s.health.Resting? {
      acts := [];
    } else {
      var a := Health(io(Current(s.health)));
      var rest := HealthPassIsARun(Step(s, a), io);
      acts := [a] + rest;
      assert acts[1..] == rest;
    }
  }

  // With the snapshot in front, so is a whole tick of the health loop.
  lemma HealthTickIsARun(s: System, listing: seq<Task>, io: Uuid -> HealthIo) returns (acts: seq<Action>)
    requires s.health.Resting? && IsListing(listing, s.m.taskDb)
    ensures acts != [] && acts[0] == Snapshot(listing) && forall a :: a in acts[1..] ==> a.Health?
    ensures Run(s, acts) == s.(m := FinishPass(s.nodes, HealthConf(s.m, Walking(listing)), io))
  {
    var s' := Step(s, Snapshot(listing));
    var rest := HealthPassIsARun(s', io);
    acts := [Snapshot(listing)] + rest;
    assert acts[1..] == rest;
    assert s'.(m := Run(s', rest).m, health := Resting) == s.(m := Run(s', rest).m);
  }

  lemma {:induction false} MergesOfOneList(s: System, j: nat) returns (acts: seq<Action>)
    requires j < |s.polls|
    ensures forall a :: a in acts ==> a == Merge(j)
    ensures Run(s, acts) == s.(m := s.m.(taskDb := ApplyAll(s.m.taskDb, s.polls[j])), polls := s.polls[j := []])
    decreases |s.polls[j]|
  {
    if s.polls[j] == [] {
      acts := [];
      assert s.polls[j := []] == s.polls;
    } else {
      var s' := Step(s, Merge(j));
      var rest := MergesOfOneList(s', j);
      acts := [Merge(j)] + rest;
      assert acts[1..] == rest;
      assert s'.polls[j := []] == s.polls[j := []];
    }
  }

  // One goroutine alone, from its poll to its last report, merges the whole list
  // of a worker that is known and answers, and nothing otherwise.
  lemma UpdateIsARun(s: System, j: nat, worker: string, answer: Option<seq<Task>>) returns (acts: seq<Action>)
    requires j < |s.polls| && s.polls[j] == []
    ensures acts != [] && acts[0] == Poll(j, worker, answer) && forall a :: a in acts[1..] ==> a == Merge(j)
    ensures Run(s, acts)
         == if (exists n :: n in s.nodes && n.name == worker) && answer.Some? then
              s.(m := s.m.(taskDb := ApplyAll(s.m.taskDb, answer.value)))
            else s
  {
    KnownNamesResolve(s.nodes, worker);
    var s' := Step(s, Poll(j, worker, answer));
    var rest := MergesOfOneList(s', j);
    acts := [Poll(j, worker, answer)] + rest;
    assert acts[1..] == rest;
    assert s'.polls[j := []] == s.polls;
  }

  // Only the update goroutines running, the system is the fan-out of Reports.
  lemma {:induction false} MergesAreFanOut(s: System, schedule: seq<nat>)
    ensures var acts := seq(|schedule|, k requires 0 <= k < |schedule| => Merge(schedule[k]));
            var f := Interleave(FanOut(s.m.taskDb, s.polls), schedule);
            Run(s, acts) == s.(m := s.m.(taskDb := f.db), polls := f.lists)
    decreases |schedule|
  {
    var acts := seq(|schedule|, k requires 0 <= k < |schedule| => Merge(schedule[k]));
    if schedule == [] {
    } else {
      var rest := schedule[1..];
      assert acts[1..] == seq(|rest|, k requires 0 <= k < |rest| => Merge(rest[k]));
      var f := Turn(FanOut(s.m.taskDb, s.polls), schedule[0]);
      assert Step(s, acts[0]) == s.(m := s.m.(taskDb := f.db), polls := f.lists);
      MergesAreFanOut(Step(s, acts[0]), rest);
    }
  }
}
