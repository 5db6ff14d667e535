// The restart budget: with one health loop walking a stale snapshot, amid any
// reports, stops and sends, no task is restarted more than TaskRestartMax times.

module ManagerBudget {
  import opened Options
  import opened Tasks
  import opened Store
  import opened Nodes
  import opened Reports
  import opened ManagerProtocol
  import opened ManagerSystem

  // A restart begins in this step.
  predicate Begins(s: System, a: Action) {
    a.Health? && s.health.Beginning? && s.health.id in s.m.taskDb
  }

  // Restarts begun along a run: of every task, and of one.
  function Begun(s: System, acts: seq<Action>): nat
    decreases |acts|
  {
    if acts == [] then 0 else (if Begins(s, acts[0]) then 1 else 0) + Begun(Step(s, acts[0]), acts[1..])
  }

  function BegunOf(s: System, acts: seq<Action>, id: Uuid): nat
    decreases |acts|
  {
    if acts == [] then 0
    else (if Begins(s, acts[0]) && s.health.id == id then 1 else 0) + BegunOf(Step(s, acts[0]), acts[1..], id)
  }

  // The task this step stores, when the step is an accepted post.
  function FirstStored(s: System, a: Action): Option<Task> {
    if a.Send? && a.i < |s.sends| && s.sends[a.i].Posting? && a.sendIo.post.Accepted? then
      Some(a.sendIo.post.created)
    else None
  }

  // Restart counts the stored tasks arrived with.
  function StoredCounts(s: System, acts: seq<Action>): int
    decreases |acts|
  {
    if acts == [] then 0
    else
      (match FirstStored(s, acts[0]) case Some(t) => t.restartCount case None => 0)
      + StoredCounts(Step(s, acts[0]), acts[1..])
  }

  // Tasks are first stored within the budget.
  predicate StoresWithinBudget(s: System, a: Action) {
    && WorkerEchoes(s, a)
    && (FirstStored(s, a).Some? ==> FirstStored(s, a).value.restartCount <= TASK_RESTART_MAX)
  }

  predicate BudgetScope(s: System, a: Action) {
    NoRedispatch(s, a) && StoresWithinBudget(s, a)
  }

  // ----- The invariant -----

  // Every snapshot entry still to visit carries the count TaskDb holds now.
  ghost predicate CountsCurrent(todo: seq<Task>, db: map<Uuid, Task>) {
    forall k :: 0 <= k < |todo| ==> todo[k].id in db && db[todo[k].id].restartCount == todo[k].restartCount
  }

  ghost predicate NotAmong(id: Uuid, todo: seq<Task>) {
    forall k :: 0 <= k < |todo| ==> todo[k].id != id
  }

  ghost predicate HasBudget(id: Uuid, db: map<Uuid, Task>) {
    id in db && db[id].restartCount < TASK_RESTART_MAX
  }

  ghost predicate SnapshotInv(pc: HealthPc, db: map<Uuid, Task>) {
    && DistinctIds(Rest(pc)) && CountsCurrent(Rest(pc), db)
    && match pc
       case Restarting(id, rest) => NotAmong(id, rest) && HasBudget(id, db)
       case Beginning(_, id, rest) => NotAmong(id, rest) && HasBudget(id, db)
       case _ => true
  }

  ghost predicate WithinBudget(db: map<Uuid, Task>) {
    forall id :: id in db ==> db[id].restartCount <= TASK_RESTART_MAX
  }

  ghost predicate BudgetInv(s: System) {
    Keyed(s.m.taskDb) && FlightsAreFresh(s) && SnapshotInv(s.health, s.m.taskDb) && WithinBudget(s.m.taskDb)
  }

  // Counts of stored tasks untouched, possibly more tasks.
  ghost predicate SameCounts(db: map<Uuid, Task>, db': map<Uuid, Task>) {
    forall id :: id in db ==> id in db' && db'[id].restartCount == db[id].restartCount
  }

  lemma SnapshotSurvives(pc: HealthPc, db: map<Uuid, Task>, db': map<Uuid, Task>)
    requires SnapshotInv(pc, db) && SameCounts(db, db')
    ensures SnapshotInv(pc, db')
  {
  }

  // Apart from beginRestart and the first store, no step touches a count.
  lemma OtherStepsKeepCounts(s: System, a: Action)
    requires Keyed(s.m.taskDb) && FlightsAreFresh(s) && WorkerEchoes(s, a) && !Begins(s, a)
    ensures SameCounts(s.m.taskDb, Step(s, a).m.taskDb)
    ensures Step(s, a).m.taskDb.Keys
         == s.m.taskDb.Keys + (match FirstStored(s, a) case Some(t) => {t.id} case None => {})
    ensures FirstStored(s, a).Some? ==>
              var t, db' := FirstStored(s, a).value, Step(s, a).m.taskDb;
              t.id !in s.m.taskDb && t.id in db' && db'[t.id] == t
  {
    if a.Send? && a.i < |s.sends| {
      SendStore(s.nodes, SendConf(s.m, s.sends[a.i]), a.sendIo);
    } else if a.Health? {
      HealthStore(s.nodes, HealthConf(s.m, s.health), a.healthIo);
    }
  }

  // The pass's own step keeps its snapshot's counts current and every count
  // within the budget.
  lemma PassKeepsBudget(nodes: seq<Node>, c: HealthConf, io: HealthIo)
    requires Keyed(c.m.taskDb) && SnapshotInv(c.pc, c.m.taskDb) && WithinBudget(c.m.taskDb)
    ensures var c' := HealthStep(nodes, c, io); SnapshotInv(c'.pc, c'.m.taskDb) && WithinBudget(c'.m.taskDb)
  {
    HealthStore(nodes, c, io);
    match c.pc
    case Walking(todo) =>
      if todo != [] {
        assert todo[0].id in c.m.taskDb && todo[0].restartCount == c.m.taskDb[todo[0].id].restartCount;
      }
    case _ =>
  }

  lemma BudgetStep(s: System, a: Action)
    requires BudgetInv(s) && BudgetScope(s, a)
    ensures BudgetInv(Step(s, a))
  {
    FlightsStayFresh(s, a);
    if a.Health? {
      PassKeepsBudget(s.nodes, HealthConf(s.m, s.health), a.healthIo);
    } else {
      OtherStepsKeepCounts(s, a);
      SnapshotSurvives(s.health, s.m.taskDb, Step(s, a).m.taskDb);
    }
  }

  // ----- Over whole runs -----

  lemma BootIsWithinBudget(nodes: seq<Node>, callers: nat, pollers: nat)
    ensures BudgetInv(Boot(nodes, callers, pollers))
  {
  }

  // No stored task ever exceeds the budget.
  lemma {:induction false} RestartCountNeverExceedsMax(s: System, acts: seq<Action>)
    requires BudgetInv(s) && Along(s, acts, BudgetScope)
    ensures BudgetInv(Run(s, acts))
    ensures forall id :: id in Run(s, acts).m.taskDb ==> Run(s, acts).m.taskDb[id].restartCount <= TASK_RESTART_MAX
    decreases |acts|
  {
    if acts == [] {
    } else {
      BudgetStep(s, acts[0]);
      RestartCountNeverExceedsMax(Step(s, acts[0]), acts[1..]);
    }
  }

  // Without re-dispatch, whatever the counts tasks arrive with, the stored count is
  // an exact meter: it has grown by the restarts begun.
  lemma {:induction false} CountMetersRestarts(s: System, acts: seq<Action>, id: Uuid)
    requires Keyed(s.m.taskDb) && FlightsAreFresh(s) && Along(s, acts, FreshScope) && id in s.m.taskDb
    ensures id in Run(s, acts).m.taskDb
    ensures Run(s, acts).m.taskDb[id].restartCount == s.m.taskDb[id].restartCount + BegunOf(s, acts, id)
    decreases |acts|
  {
    if acts == [] {
    } else {
      FlightsStayFresh(s, acts[0]);
      if !Begins(s, acts[0]) {
        OtherStepsKeepCounts(s, acts[0]);
      }
      CountMetersRestarts(Step(s, acts[0]), acts[1..], id);
    }
  }

  // Hence one task is restarted at most as often as its count left room for.
  lemma RestartsOfOneTaskAreBounded(s: System, acts: seq<Action>, id: Uuid)
    requires BudgetInv(s) && Along(s, acts, BudgetScope) && id in s.m.taskDb
    ensures BegunOf(s, acts, id) <= TASK_RESTART_MAX - s.m.taskDb[id].restartCount
  {
    AlongImplies(s, acts, BudgetScope, FreshScope);
    CountMetersRestarts(s, acts, id);
    RestartCountNeverExceedsMax(s, acts);
  }

  // ----- The whole cluster -----

  ghost function TotalCount(db: map<Uuid, Task>): int
    decreases |db|
  {
    if db == map[] then 0
    else
      var id :| id in db;
      db[id].restartCount + TotalCount(db - {id})
  }

  lemma {:induction false} TotalCountWithout(db: map<Uuid, Task>, id: Uuid)
    requires id in db
    ensures TotalCount(db) == db[id].restartCount + TotalCount(db - {id})
    decreases |db|
  {
    var x :| x in db && TotalCount(db) == db[x].restartCount + TotalCount(db - {x});
    if x != id {
      TotalCountWithout(db - {x}, id);
      assert db - {x} - {id} == db - {id} - {x};
      TotalCountWithout(db - {id}, x);
    }
  }

  lemma TotalCountOfUpdate(db: map<Uuid, Task>, t: Task)
    ensures TotalCount(db[t.id := t]) == t.restartCount + TotalCount(db) - (if t.id in db then db[t.id].restartCount else 0)
  {
    TotalCountWithout(db[t.id := t], t.id);
    assert db[t.id := t] - {t.id} == db - {t.id};
    if t.id in db {
      TotalCountWithout(db, t.id);
    } else {
      assert db - {t.id} == db;
    }
  }

  lemma {:induction false} TotalCountBound(db: map<Uuid, Task>)
    requires WithinBudget(db)
    ensures TotalCount(db) <= TASK_RESTART_MAX * |db|
    decreases |db|
  {
    if db == map[] {
    } else {
      var x :| x in db && TotalCount(db) == db[x].restartCount + TotalCount(db - {x});
      assert |db - {x}| == |db| - 1 by { assert (db - {x}).Keys == db.Keys - {x}; }
      TotalCountBound(db - {x});
    }
  }

  lemma {:induction false} SameCountsSameTotal(db: map<Uuid, Task>, db': map<Uuid, Task>)
    requires db.Keys == db'.Keys && SameCounts(db, db')
    ensures TotalCount(db) == TotalCount(db')
    decreases |db|
  {
    if db == map[] {
      assert db' == map[];
    } else {
      var x :| x in db;
      TotalCountWithout(db, x);
      TotalCountWithout(db', x);
      SameCountsSameTotal(db - {x}, db' - {x});
    }
  }

  lemma StepMovesTotal(s: System, a: Action)
    requires Keyed(s.m.taskDb) && FlightsAreFresh(s) && FreshScope(s, a)
    ensures TotalCount(Step(s, a).m.taskDb) == TotalCount(s.m.taskDb) + (if Begins(s, a) then 1 else 0)
              + (match FirstStored(s, a) case Some(t) => t.restartCount case None => 0)
  {
    if Begins(s, a) {
      var t := s.m.taskDb[s.health.id];
      TotalCountOfUpdate(s.m.taskDb, t.(state := Scheduled, restartCount := t.restartCount + 1));
    } else {
      OtherStepsKeepCounts(s, a);
      match FirstStored(s, a)
      case Some(t) => TotalCountOfUpdate(s.m.taskDb, t);
      case None => SameCountsSameTotal(s.m.taskDb, Step(s, a).m.taskDb);
    }
  }

  // Conservation, likewise: what the counts add up to is what they did, plus what
  // arrived, plus the restarts.
  lemma {:induction false} RestartsAreConserved(s: System, acts: seq<Action>)
    requires Keyed(s.m.taskDb) && FlightsAreFresh(s) && Along(s, acts, FreshScope)
    ensures TotalCount(Run(s, acts).m.taskDb) == TotalCount(s.m.taskDb) + StoredCounts(s, acts) + Begun(s, acts)
    decreases |acts|
  {
    if acts == [] {
    } else {
      FlightsStayFresh(s, acts[0]);
      StepMovesTotal(s, acts[0]);
      RestartsAreConserved(Step(s, acts[0]), acts[1..]);
    }
  }

  // From a fresh manager, the restarts of the whole run number at most
  // TaskRestartMax per stored task, less the counts the tasks arrived with.
  lemma RestartBudget(nodes: seq<Node>, callers: nat, pollers: nat, acts: seq<Action>)
    requires Along(Boot(nodes, callers, pollers), acts, BudgetScope)
    ensures var s := Boot(nodes, callers, pollers);
            Begun(s, acts) <= TASK_RESTART_MAX * |Run(s, acts).m.taskDb| - StoredCounts(s, acts)
  {
    var s := Boot(nodes, callers, pollers);
    BootIsWithinBudget(nodes, callers, pollers);
    AlongImplies(s, acts, BudgetScope, FreshScope);
    RestartsAreConserved(s, acts);
    RestartCountNeverExceedsMax(s, acts);
    TotalCountBound(Run(s, acts).m.taskDb);
  }

  // ----- Every run, exactly -----

  // beginRestart does not look at the count it raises, nor putTask at the one it
  // stores; this is what they have to find.
  predicate FindsBudget(s: System, a: Action) {
    && (Begins(s, a) ==> s.m.taskDb[s.health.id].restartCount < TASK_RESTART_MAX)
    && (FirstStored(s, a).Some? ==> FirstStored(s, a).value.restartCount <= TASK_RESTART_MAX)
  }

  lemma OverwriteKeepsBudget(db: map<Uuid, Task>, id: Uuid, t: Task)
    requires WithinBudget(db)
    ensures WithinBudget(db[id := t]) <==> t.restartCount <= TASK_RESTART_MAX
  {
    assert db[id := t][id] == t;
  }

  lemma SendBudget(s: System, i: nat, io: SendIo)
    requires i < |s.sends| && WithinBudget(s.m.taskDb)
    ensures var stored := FirstStored(s, Send(i, io));
            WithinBudget(SendStep(s.nodes, SendConf(s.m, s.sends[i]), io).m.taskDb)
            <==> (stored.Some? ==> stored.value.restartCount <= TASK_RESTART_MAX)
  {
    SendStore(s.nodes, SendConf(s.m, s.sends[i]), io);
    if FirstStored(s, Send(i, io)).Some? {
      OverwriteKeepsBudget(s.m.taskDb, io.post.created.id, io.post.created);
    }
  }

  lemma HealthBudget(s: System, io: HealthIo)
    requires WithinBudget(s.m.taskDb)
    ensures WithinBudget(HealthStep(s.nodes, HealthConf(s.m, s.health), io).m.taskDb)
       <==> (Begins(s, Health(io)) ==> s.m.taskDb[s.health.id].restartCount < TASK_RESTART_MAX)
  {
    HealthStore(s.nodes, HealthConf(s.m, s.health), io);
    if Begins(s, Health(io)) {
      var t := s.m.taskDb[s.health.id];
      OverwriteKeepsBudget(s.m.taskDb, s.health.id, t.(state := Scheduled, restartCount := t.restartCount + 1));
    }
  }

  // In any interleaving, re-dispatch included, a step keeps every task within
  // the budget exactly when it finds that.
  lemma BudgetKeptExactlyWhenFound(s: System, a: Action)
    requires WithinBudget(s.m.taskDb)
    ensures WithinBudget(Step(s, a).m.taskDb) <==> FindsBudget(s, a)
  {
    match a
    case Send(i, io) => if i < |s.sends| { SendBudget(s, i, io); }
    case Health(io) => HealthBudget(s, io);
    case _ =>
  }

  // Within the budget in every state of the run.
  ghost predicate StaysWithinBudget(s: System, acts: seq<Action>)
    decreases |acts|
  {
    WithinBudget(s.m.taskDb) && (acts != [] ==> StaysWithinBudget(Step(s, acts[0]), acts[1..]))
  }

  // Hence a whole run does, whatever its schedule, exactly when every step finds it.
  lemma {:induction false} RunStaysWithinBudgetExactly(s: System, acts: seq<Action>)
    requires WithinBudget(s.m.taskDb)
    ensures StaysWithinBudget(s, acts) <==> Along(s, acts, FindsBudget)
    decreases |acts|
  {
    if acts == [] {
    } else {
      BudgetKeptExactlyWhenFound(s, acts[0]);
      if FindsBudget(s, acts[0]) {
        RunStaysWithinBudgetExactly(Step(s, acts[0]), acts[1..]);
      }
    }
  }
}
