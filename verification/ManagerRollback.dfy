// Rollback makes failed sends invisible (internal/manager/manager.go, SendWork).

module ManagerRollback {
  import opened Options
  import opened Tasks
  import opened Nodes
  import opened ManagerProtocol

  // Unreachable rounds of SendWork, each with the node the scheduler picked.
  function FailedRounds(nodes: seq<Node>, m: MState, picks: seq<Node>): MState
    decreases |picks|
  {
    if picks == [] then m
    else FailedRounds(nodes, SendAlone(nodes, m, SendIo(Some(picks[0]), Unreachable, StopRefused)), picks[1..])
  }

  // NewManager gives every node a list.
  predicate Seeded(nodes: seq<Node>, m: MState) {
    forall i :: 0 <= i < |nodes| ==> nodes[i].name in m.workerTasks
  }

  predicate UnroutedAndUnlisted(m: MState, id: Uuid) {
    id !in m.taskWorker && forall w :: w in m.workerTasks ==> id !in m.workerTasks[w]
  }

  // SendWork on a queue with one fresh event, step by step.
  lemma SendOfFreshEvent(nodes: seq<Node>, m: MState, te: TaskEvent, n: Node, io: SendIo)
    requires m.pending == [te] && te.task.id !in m.taskWorker && n in nodes && io.node == Some(n)
    ensures SendAlone(nodes, m, io)
         == FinishSend(nodes, SendConf(Assigned(m.(pending := []), n.name, te), Posting(te, n)), io)
  {
    var m1 := m.(pending := []);
    assert m.pending[1..] == [];
    var c1 := SendStep(nodes, SendConf(m, Idle), io);
    assert c1 == SendConf(m1, Holding(te));
    var c2 := SendStep(nodes, c1, io);
    assert c2 == SendConf(m1, Selecting(te));
    var c3 := SendStep(nodes, c2, io);
    assert c3 == SendConf(Assigned(m1, n.name, te), Posting(te, n));
    assert FinishSend(nodes, c1, io) == FinishSend(nodes, c2, io) == FinishSend(nodes, c3, io);
  }

  // One unreachable round changes nothing but the event log.
  lemma OneFailedRound(nodes: seq<Node>, m: MState, te: TaskEvent, n: Node)
    requires m.pending == [te] && UnroutedAndUnlisted(m, te.task.id) && Seeded(nodes, m) && n in nodes
    ensures SendAlone(nodes, m, SendIo(Some(n), Unreachable, StopRefused)) == m.(eventDb := m.eventDb[te.id := te])
  {
    var io, m1, id := SendIo(Some(n), Unreachable, StopRefused), m.(pending := []), te.task.id;
    SendOfFreshEvent(nodes, m, te, n, io);
    var m2 := Assigned(m1, n.name, te);
    var m3 := Unrouted(m2, n.name, id);
    var goal := FinishSend(nodes, SendConf(m2, Posting(te, n)), io);
    assert FinishSend(nodes, SendConf(m2, RollingBack(te, n)), io) == goal;
    assert FinishSend(nodes, SendConf(m3, Requeueing(te)), io) == goal;
    assert FinishSend(nodes, SendConf(Enqueued(m3, te), Idle), io) == goal;
    RemoveFirstUndoesAppend(m.workerTasks[n.name], id);
    assert m3.workerTasks == m.workerTasks;
    assert m3.taskWorker == m.taskWorker;
    assert [] + [te] == [te];
  }

  lemma SuccessfulRound(nodes: seq<Node>, m: MState, te: TaskEvent, n: Node, created: Task)
    requires m.pending == [te] && te.task.id !in m.taskWorker && n in nodes
    ensures SendAlone(nodes, m, SendIo(Some(n), Accepted(created), StopRefused))
         == Stored(Assigned(m.(pending := []), n.name, te), created)
  {
    var io := SendIo(Some(n), Accepted(created), StopRefused);
    SendOfFreshEvent(nodes, m, te, n, io);
    var m2 := Assigned(m.(pending := []), n.name, te);
    assert FinishSend(nodes, SendConf(m2, Posting(te, n)), io)
        == FinishSend(nodes, SendConf(Stored(m2, created), Idle), io);
  }

  lemma {:induction false} FailedRoundsOnlyLog(nodes: seq<Node>, m: MState, te: TaskEvent, picks: seq<Node>)
    requires m.pending == [te] && UnroutedAndUnlisted(m, te.task.id) && Seeded(nodes, m)
    requires forall k :: 0 <= k < |picks| ==> picks[k] in nodes
    ensures FailedRounds(nodes, m, picks) == if picks == [] then m else m.(eventDb := m.eventDb[te.id := te])
    decreases |picks|
  {
    if picks == [] {
    } else {
      OneFailedRound(nodes, m, te, picks[0]);
      var m' := m.(eventDb := m.eventDb[te.id := te]);
      FailedRoundsOnlyLog(nodes, m', te, picks[1..]);
      assert m'.eventDb[te.id := te] == m'.eventDb;
    }
  }

  // Any number of unreachable rounds, over any nodes, followed by a success
  // leaves the manager exactly as an immediate success would.
  lemma RollbackMakesFailuresInvisible(nodes: seq<Node>, m: MState, te: TaskEvent, picks: seq<Node>, last: Node,
                                       created: Task)
    requires m.pending == [te] && UnroutedAndUnlisted(m, te.task.id) && Seeded(nodes, m)
    requires last in nodes && forall k :: 0 <= k < |picks| ==> picks[k] in nodes
    ensures var success := SendIo(Some(last), Accepted(created), StopRefused);
            SendAlone(nodes, FailedRounds(nodes, m, picks), success) == SendAlone(nodes, m, success)
  {
    FailedRoundsOnlyLog(nodes, m, te, picks);
    SuccessfulRound(nodes, m, te, last, created);
    SuccessfulRound(nodes, FailedRounds(nodes, m, picks), te, last, created);
    assert m.eventDb[te.id := te][te.id := te] == m.eventDb[te.id := te];
  }
}
