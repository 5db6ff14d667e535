// Stored states of a worker whose loop bodies do not overlap: each moves along
// the state machine, the requested edge first and the outcome edge second.

module WorkerHistory {
  import opened Options
  import opened Tasks
  import opened Store
  import opened WorkerProtocol
  import opened WorkerOutcomes
  import opened WorkerSystem

  // ----- One RunTask -----

  // From before to after by way of the request: the requested edge, then for a
  // start the edge of its outcome.
  ghost predicate TakesRequest(before: State, request: State, after: State) {
    || (request == Scheduled && after in {Running, Failed} && IsPath([before, request, after]))
    || (request == Completed && after == Completed && IsPath([before, request]))
  }

  lemma PathOfTwo(a: State, b: State)
    ensures IsPath([a, b]) <==> IsValidTransition(a, b)
  {
    var p := [a, b];
    assert IsPath(p) ==> IsValidTransition(p[0], p[0 + 1]);
  }

  lemma PathOfThree(a: State, b: State, c: State)
    ensures IsPath([a, b, c]) <==> IsValidTransition(a, b) && IsValidTransition(b, c)
  {
    var p := [a, b, c];
    assert IsPath(p) ==> IsValidTransition(p[0], p[0 + 1]) && IsValidTransition(p[1], p[1 + 1]);
  }

  // Every stored task but the queued one is left alone; the queued one is left
  // alone or takes the request; a task not stored before is recorded as queued
  // and may then take its own request.
  lemma RunTaskTakesAtMostTwoEdges(s: WState, io: RunnerIo)
    requires s.queue != [] && Keyed(s.db)
    ensures var q, db, db' := s.queue[0], s.db, RunTaskAlone(s, io).db;
            && Keyed(db')
            && db'.Keys == db.Keys + {q.id}
            && (forall id :: id in db && id != q.id ==> db'[id] == db[id])
            && (q.id in db ==> db'[q.id].state == db[q.id].state || TakesRequest(db[q.id].state, q.state, db'[q.id].state))
            && (q.id !in db ==> db'[q.id].state == q.state || TakesRequest(q.state, q.state, db'[q.id].state))
  {
    RunTaskOutcome(s, io);
    var q := s.queue[0];
    var known := if q.id in s.db then s else Put(s, q);
    var before := known.db[q.id].state;
    if IsValidTransition(before, q.state) && q.state == Scheduled {
      var after := Apply(StartChange(q, io.start, io.now), known.db[q.id]).state;
      assert IsValidTransition(q.state, after);
      PathOfThree(before, q.state, after);
    } else if IsValidTransition(before, q.state) && q.state == Completed {
      PathOfTwo(before, q.state);
    }
  }

  // ----- One update pass -----

  // A pass changes a stored state only from Running to Failed.
  lemma {:induction false} PassOnlyFailsRunning(c: PassConf, daemon: Uuid -> Option<Container>)
    requires Keyed(c.s.db) && PassInv(c.pc, c.s.db)
    ensures var s' := FinishPass(c, daemon);
            && Keyed(s'.db) && s'.db.Keys == c.s.db.Keys && s'.queue == c.s.queue
            && (forall id :: id in c.s.db ==>
                  s'.db[id].state == c.s.db[id].state || (c.s.db[id].state == Running && s'.db[id].state == Failed))
    decreases PassLeft(c.pc)
  {
    if c.pc.Resting? {
    } else {
      PassMoves(c, daemon(Current(c.pc)));
      PassOnlyFailsRunning(PassStep(c, daemon(Current(c.pc))), daemon);
    }
  }

  // ----- Whole histories -----

  datatype Body =
    | AddTask(t: Task)
    | RunTask(io: RunnerIo)
    | UpdateTasks(listing: seq<Task>, daemon: Uuid -> Option<Container>)

  ghost function Do(s: WState, b: Body): WState {
    match b
    case AddTask(t) => s.(queue := s.queue + [t])
    case RunTask(io) => RunTaskAlone(s, io)
    case UpdateTasks(listing, daemon) =>
      if IsListing(listing, s.db) then FinishPass(PassConf(s, Walking(listing)), daemon) else s
  }

  ghost function DoAll(s: WState, bs: seq<Body>): WState
    decreases |bs|
  {
    if bs == [] then s else DoAll(Do(s, bs[0]), bs[1..])
  }

  // One body moves a stored state along at most two edges.
  lemma BodyWalks(s: WState, b: Body, id: Uuid) returns (p: seq<State>)
    requires id in s.db && Keyed(s.db)
    ensures id in Do(s, b).db && Keyed(Do(s, b).db)
    ensures IsPath(p) && 1 <= |p| <= 3 && p[0] == s.db[id].state && p[|p| - 1] == Do(s, b).db[id].state
  {
    var before := s.db[id].state;
    p := [before];
    match b
    case AddTask(_) =>
    case RunTask(io) =>
      if s.queue != [] {
        RunTaskTakesAtMostTwoEdges(s, io);
        var q := s.queue[0];
        var after := Do(s, b).db[id].state;
        if after != before {
          p := if q.state == Scheduled then [before, q.state, after] else [before, after];
        }
      }
    case UpdateTasks(listing, daemon) =>
      if IsListing(listing, s.db) {
        PassOnlyFailsRunning(PassConf(s, Walking(listing)), daemon);
        if Do(s, b).db[id].state != before {
          PathOfTwo(Running, Failed);
          p := [Running, Failed];
        }
      }
  }

  // Over any history of loop bodies and any queue content, a stored task's
  // state walks the state machine, at most two edges per body.
  lemma {:induction false} HistoryWalks(s: WState, bs: seq<Body>, id: Uuid) returns (p: seq<State>)
    requires id in s.db && Keyed(s.db)
    ensures id in DoAll(s, bs).db
    ensures IsPath(p) && 1 <= |p| <= 2 * |bs| + 1 && p[0] == s.db[id].state && p[|p| - 1] == DoAll(s, bs).db[id].state
    decreases |bs|
  {
    if bs == [] {
      p := [s.db[id].state];
    } else {
      var first := BodyWalks(s, bs[0], id);
      var rest := HistoryWalks(Do(s, bs[0]), bs[1..], id);
      p := first + rest[1..];
      forall i | 0 <= i < |p| - 1 ensures IsValidTransition(p[i], p[i + 1]) {
        if i < |first| - 1 {
          assert IsValidTransition(first[i], first[i + 1]);
        } else {
          var k := i - (|first| - 1);
          assert IsValidTransition(rest[k], rest[k + 1]);
        }
      }
    }
  }

  // So a Completed task is out of reach of any later history.
  lemma CompletedOutlivesHistory(s: WState, bs: seq<Body>, id: Uuid)
    requires id in s.db && Keyed(s.db) && s.db[id].state == Completed
    ensures id in DoAll(s, bs).db && DoAll(s, bs).db[id].state == Completed
  {
    var p := HistoryWalks(s, bs, id);
    CompletedIsTerminal(p);
  }
}
