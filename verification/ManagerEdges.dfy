// Stored states follow the state machine: on every run whose loop bodies do not
// overlap, and on any run exactly under a condition on its steps.

module ManagerEdges {
  import opened Tasks
  import opened Store
  import opened Nodes
  import opened Reports
  import opened ManagerProtocol
  import opened ManagerSystem
  import opened ManagerBudget

  // Every stored task's state stays or takes an edge.
  ghost predicate KeepsToEdges(s: System, a: Action) {
    var db, db' := s.m.taskDb, Step(s, a).m.taskDb;
    forall id :: id in db ==> id in db' && StaysOrSteps(db[id].state, db'[id].state)
  }

  // ----- One step, any interleaving -----

  // beginRestart, retireTask and putTask overwrite a state without consulting
  // the state machine; these are the states they may find.
  predicate FindsReadyState(s: System, a: Action) {
    var db := s.m.taskDb;
    if a.Health? && s.health.Beginning? && s.health.id in db then
      IsValidTransition(db[s.health.id].state, Scheduled)
    else if a.Send? && a.i < |s.sends| then
      match s.sends[a.i]
      case Stopping(te, w) =>
        StopLands(s.nodes, w, a.sendIo) && te.task.id in db ==> db[te.task.id].state in {Running, Completed}
      case Posting(te, n) =>
        a.sendIo.post.Accepted? && a.sendIo.post.created.id in db ==>
          StaysOrSteps(db[a.sendIo.post.created.id].state, a.sendIo.post.created.state)
      case _ => true
    else true
  }

  // Overwriting one stored record keeps to the edges when its state does.
  lemma OverwriteKeepsToEdges(db: map<Uuid, Task>, id: Uuid, t: Task)
    ensures (forall x :: x in db ==> x in db[id := t] && StaysOrSteps(db[x].state, db[id := t][x].state))
       <==> (id in db ==> StaysOrSteps(db[id].state, t.state))
  {
    assert db[id := t][id] == t;
  }

  lemma SendEdges(s: System, i: nat, io: SendIo)
    requires i < |s.sends|
    ensures KeepsToEdges(s, Send(i, io)) <==> FindsReadyState(s, Send(i, io))
  {
    var db, c := s.m.taskDb, SendStep(s.nodes, SendConf(s.m, s.sends[i]), io);
    assert Step(s, Send(i, io)).m == c.m;
    match s.sends[i]
    case Stopping(te, w) =>
      if StopLands(s.nodes, w, io) && te.task.id in db {
        OverwriteKeepsToEdges(db, te.task.id, db[te.task.id].(state := Completed));
      }
    case Posting(te, n) =>
      if io.post.Accepted? {
        OverwriteKeepsToEdges(db, io.post.created.id, io.post.created);
      }
    case _ =>
      assert c.m.taskDb == db;
  }

  lemma EdgesExactlyWhenReady(s: System, a: Action)
    requires Keyed(s.m.taskDb)
    ensures KeepsToEdges(s, a) <==> FindsReadyState(s, a)
  {
    var db := s.m.taskDb;
    if a.Send? && a.i < |s.sends| {
      SendEdges(s, a.i, a.sendIo);
    } else if a.Health? && s.health.Beginning? && s.health.id in db {
      var t := db[s.health.id];
      OverwriteKeepsToEdges(db, s.health.id, t.(state := Scheduled, restartCount := t.restartCount + 1));
    } else if a.Merge? && a.j < |s.polls| && s.polls[a.j] != [] && s.polls[a.j][0].id in db {
      var r := s.polls[a.j][0];
      MergeByOwner(db[r.id], r);
      OverwriteKeepsToEdges(db, r.id, MergeTaskUpdate(db[r.id], r));
    } else {
      assert Step(s, a).m.taskDb == db;
    }
  }

  // A whole run, whatever its schedule, keeps to the edges exactly when every
  // step finds such states.
  lemma {:induction false} RunKeepsToEdgesExactly(s: System, acts: seq<Action>)
    requires Keyed(s.m.taskDb)
    ensures Along(s, acts, KeepsToEdges) <==> Along(s, acts, FindsReadyState)
    decreases |acts|
  {
    if acts == [] {
    } else {
      EdgesExactlyWhenReady(s, acts[0]);
      StaysKeyed(s, acts[0]);
      RunKeepsToEdgesExactly(Step(s, acts[0]), acts[1..]);
    }
  }

  // ----- Whole runs, one loop body at a time -----

  ghost predicate SendsIdle(s: System) { forall i :: 0 <= i < |s.sends| ==> s.sends[i].Idle? }
  ghost predicate SendsIdleBut(s: System, k: nat) { forall i :: 0 <= i < |s.sends| && i != k ==> s.sends[i].Idle? }
  ghost predicate PollsDone(s: System) { AllEmpty(s.polls) }

  // The step belongs to the only loop body under way. The API may enqueue at
  // any time, and the goroutines of one update pass may overlap each other.
  ghost predicate OneBodyAtATime(s: System, a: Action) {
    match a
    case Submit(_) => true
    case Send(i, _) => SendsIdleBut(s, i) && s.health.Resting? && PollsDone(s)
    case Snapshot(_) => SendsIdle(s) && PollsDone(s)
    case Health(_) => SendsIdle(s) && PollsDone(s)
    case Poll(_, _, _) => SendsIdle(s) && s.health.Resting?
    case Merge(_) => SendsIdle(s) && s.health.Resting?
  }

  ghost predicate SerialScope(s: System, a: Action) {
    OneBodyAtATime(s, a) && NoRedispatch(s, a) && WorkerEchoes(s, a)
  }

  ghost predicate Restartable(id: Uuid, db: map<Uuid, Task>) {
    id in db && IsValidTransition(db[id].state, Scheduled)
  }

  // The snapshot is still current for every task not yet visited.
  ghost predicate PassInv(pc: HealthPc, db: map<Uuid, Task>) {
    && DistinctIds(Rest(pc)) && CurrentIn(Rest(pc), db)
    && match pc
       case Restarting(id, rest) => NotAmong(id, rest) && Restartable(id, db)
       case Beginning(_, id, rest) => NotAmong(id, rest) && Restartable(id, db)
       case _ => true
  }

  // A stop under way still finds its task Running.
  ghost predicate StopsInv(s: System) {
    forall i :: 0 <= i < |s.sends| && s.sends[i].Stopping? ==>
      s.sends[i].te.task.id in s.m.taskDb && s.m.taskDb[s.sends[i].te.task.id].state == Running
  }

  ghost predicate SerialInv(s: System) {
    && Keyed(s.m.taskDb) && FlightsAreFresh(s)
    && PassInv(s.health, s.m.taskDb) && StopsInv(s)
    && (s.health.Resting? || (SendsIdle(s) && PollsDone(s)))
    && (PollsDone(s) || SendsIdle(s))
    && (forall i, j :: 0 <= i < j < |s.sends| ==> s.sends[i].Idle? || s.sends[j].Idle?)
  }

  // The pass's own step keeps its snapshot current.
  lemma PassStaysCurrent(nodes: seq<Node>, c: HealthConf, io: HealthIo)
    requires Keyed(c.m.taskDb) && PassInv(c.pc, c.m.taskDb)
    ensures var c' := HealthStep(nodes, c, io); PassInv(c'.pc, c'.m.taskDb)
  {
    HealthStore(nodes, c, io);
    match c.pc
    case Walking(todo) =>
      if todo != [] {
        assert todo[0].id in c.m.taskDb && c.m.taskDb[todo[0].id] == todo[0];
        ActedOnHasBudgetAndEdge(todo[0]);
      }
    case _ =>
  }

  lemma SerialHealth(s: System, io: HealthIo)
    requires SerialInv(s) && SerialScope(s, Health(io))
    ensures SerialInv(Step(s, Health(io)))
  {
    PassStaysCurrent(s.nodes, HealthConf(s.m, s.health), io);
    FlightsStayFresh(s, Health(io));
    assert Step(s, Health(io)).sends == s.sends && Step(s, Health(io)).polls == s.polls;
  }

  lemma SerialSend(s: System, i: nat, io: SendIo)
    requires SerialInv(s) && SerialScope(s, Send(i, io))
    ensures SerialInv(Step(s, Send(i, io)))
  {
    FlightsStayFresh(s, Send(i, io));
    if i < |s.sends| {
      var s' := Step(s, Send(i, io));
      assert SendsIdleBut(s', i);
      assert s'.sends[i].Stopping? ==> s'.m == s.m && s.sends[i].Holding?;
      forall st: State | IsValidTransition(st, Completed) ensures st == Running {
      }
    }
  }

  lemma SerialStep(s: System, a: Action)
    requires SerialInv(s) && SerialScope(s, a)
    ensures SerialInv(Step(s, a)) && KeepsToEdges(s, a)
  {
    EdgesExactlyWhenReady(s, a);
    if a.Health? {
      SerialHealth(s, a.healthIo);
    } else if a.Send? {
      SerialSend(s, a.i, a.sendIo);
    } else {
      FlightsStayFresh(s, a);
    }
  }

  // Along every such run, every change of a stored task's state is an edge.
  lemma {:induction false} SerialRunsKeepToEdges(s: System, acts: seq<Action>)
    requires SerialInv(s) && Along(s, acts, SerialScope)
    ensures Along(s, acts, KeepsToEdges)
    decreases |acts|
  {
    if acts == [] {
    } else {
      SerialStep(s, acts[0]);
      SerialRunsKeepToEdges(Step(s, acts[0]), acts[1..]);
    }
  }

  lemma BootIsSerial(nodes: seq<Node>, callers: nat, pollers: nat)
    ensures SerialInv(Boot(nodes, callers, pollers))
  {
  }
}
