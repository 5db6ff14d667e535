// What one RunTask and one update pass leave behind when nothing interferes,
// record by record, in terms of what Docker answered.

module WorkerOutcomes {
  import opened Options
  import opened Tasks
  import opened Store
  import opened WorkerProtocol

  // ----- RunTask -----

  // The stored record the rest of RunTask acts on, and what RunTask leaves.
  lemma RunTaskOutcome(s: WState, io: RunnerIo)
    requires s.queue != [] && Keyed(s.db)
    ensures var q := s.queue[0];
            var known := if q.id in s.db then s else Put(s, q);
            var s' := RunTaskAlone(s, io);
            && s'.queue == s.queue[1..]
            && s'.db == if !IsValidTransition(known.db[q.id].state, q.state) then known.db
                        else if q.state == Scheduled then known.db[q.id := Apply(StartChange(q, io.start, io.now), known.db[q.id])]
                        else if q.state == Completed && io.stopped then known.db[q.id := Apply(StopSuccess(io.now), known.db[q.id])]
                        else known.db
  {
    var q := s.queue[0];
    var s1 := s.(queue := s.queue[1..]);
    var s2 := if q.id in s.db then s1 else Put(s1, q);
    var pc := Dispatch(s2.db[q.id], q);
    var goal := RunTaskAlone(s, io);
    assert goal == FinishTask(RunnerConf(s1, Looking(q)), io);
    if q.id !in s.db {
      assert goal == FinishTask(RunnerConf(s1, Recording(q)), io);
    }
    assert goal == FinishTask(RunnerConf(s2, pc), io);
    match pc
    case Starting(_) =>
      UpsertOfStored(s2, q, StartChange(q, io.start, io.now));
      assert goal == FinishTask(RunnerConf(s2, WritingStart(q, io.start)), io);
      assert goal == FinishTask(RunnerConf(Upserted(s2, q, StartChange(q, io.start, io.now)), Idle), io);
    case Stopping(_) =>
      UpsertOfStored(s2, q, StopSuccess(io.now));
      assert goal == FinishTask(RunnerConf(s2, if io.stopped then WritingStop(q) else Idle), io);
      assert io.stopped ==> goal == FinishTask(RunnerConf(Upserted(s2, q, StopSuccess(io.now)), Idle), io);
    case _ =>
  }

  // The record a request leaves of a task in the state it was found or recorded in.
  function Answered(t: Task, q: Task, io: RunnerIo): Task {
    if !IsValidTransition(t.state, q.state) then t
    else if q.state == Scheduled then
      match io.start
      case StartFailed => t.(startTime := io.now, state := Failed)
      case Started(container, ports) =>
        t.(startTime := io.now, containerID := container, state := Running,
           hostPorts := if ports.Some? then ports.value else q.hostPorts)
    else if q.state == Completed && io.stopped then t.(finishTime := io.now, state := Completed)
    else t
  }

  // RunTask takes the head off the queue and leaves its task, recorded first when
  // unknown, as the request and Docker's answer decide; no other task moves.
  lemma RunTaskExactly(s: WState, io: RunnerIo)
    requires Keyed(s.db)
    ensures RunTaskAlone(s, io)
         == if s.queue == [] then s
            else
              var q := s.queue[0];
              WState(s.db[q.id := Answered(if q.id in s.db then s.db[q.id] else q, q, io)], s.queue[1..])
  {
    if s.queue != [] {
      RunTaskOutcome(s, io);
      var q := s.queue[0];
      var t := if q.id in s.db then s.db[q.id] else q;
      assert q.id in s.db ==> s.db[q.id := t] == s.db;
    }
  }

  // ----- updateTasks -----

  // The record an update pass leaves: a Running task takes the ports of the
  // container Docker found and is Failed exactly when that container has exited.
  function Observed(t: Task, answer: Option<Container>): Task {
    if t.state == Running && answer.Some? then
      t.(hostPorts := answer.value.ports, state := if answer.value.exited then Failed else Running)
    else t
  }

  // One visit of the pass.
  lemma VisitOutcome(s: WState, todo: seq<Task>, daemon: Uuid -> Option<Container>)
    requires Keyed(s.db) && todo != [] && CurrentIn(todo, s.db)
    ensures var t := todo[0];
            FinishPass(PassConf(s, Walking(todo)), daemon)
            == FinishPass(PassConf(s.(db := s.db[t.id := Observed(t, daemon(t.id))]), Walking(todo[1..])), daemon)
  {
    var t, rest := todo[0], todo[1..];
    var goal := FinishPass(PassConf(s, Walking(todo)), daemon);
    if t.state == Running && daemon(t.id).Some? {
      var c := daemon(t.id).value;
      var change := Inspected(c.ports, c.exited);
      assert goal == FinishPass(PassConf(s, Merging(t, change, rest)), daemon);
      UpsertOfStored(s, t, change);
      assert goal == FinishPass(PassConf(Upserted(s, t, change), Walking(rest)), daemon);
    } else {
      assert s.db[t.id := t] == s.db;
      assert goal == FinishPass(PassConf(s, Walking(rest)), daemon);
    }
  }

  lemma {:induction false} WalkOutcome(s: WState, todo: seq<Task>, daemon: Uuid -> Option<Container>)
    requires Keyed(s.db) && DistinctIds(todo) && CurrentIn(todo, s.db)
    ensures var s' := FinishPass(PassConf(s, Walking(todo)), daemon);
            && s'.queue == s.queue && s'.db.Keys == s.db.Keys
            && (forall k :: 0 <= k < |todo| ==> s'.db[todo[k].id] == Observed(todo[k], daemon(todo[k].id)))
            && (forall id :: id in s.db && (forall k :: 0 <= k < |todo| ==> todo[k].id != id) ==> s'.db[id] == s.db[id])
    decreases |todo|
  {
    if todo == [] {
      assert FinishPass(PassConf(s, Walking([])), daemon) == FinishPass(PassConf(s, Resting), daemon);
    } else {
      var t, rest := todo[0], todo[1..];
      var s1 := s.(db := s.db[t.id := Observed(t, daemon(t.id))]);
      VisitOutcome(s, todo, daemon);
      WalkOutcome(s1, rest, daemon);
      assert forall k :: 0 < k < |todo| ==> todo[k] == rest[k - 1];
    }
  }

  // Of every stored task, whatever the order of the listing.
  lemma PassExactly(s: WState, listing: seq<Task>, daemon: Uuid -> Option<Container>)
    requires Keyed(s.db) && IsListing(listing, s.db)
    ensures var s' := FinishPass(PassConf(s, Walking(listing)), daemon);
            && s'.queue == s.queue && s'.db.Keys == s.db.Keys
            && forall id :: id in s.db ==> s'.db[id] == Observed(s.db[id], daemon(id))
  {
    WalkOutcome(s, listing, daemon);
    forall id | id in s.db
      ensures FinishPass(PassConf(s, Walking(listing)), daemon).db[id] == Observed(s.db[id], daemon(id))
    {
      assert s.db[id] in listing;
      var k :| 0 <= k < |listing| && listing[k] == s.db[id];
      assert listing[k].id == id;
    }
  }
}
