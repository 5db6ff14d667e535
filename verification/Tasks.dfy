// The task record, its event and its state machine (internal/task/task.go).

module Options {
  datatype Option<+T> = None | Some(value: T)
}

module Tasks {

  // A UUID is only ever compared and used as a key.
  type Uuid = nat
  type PortSet = set<string>
  type PortMap = map<string, seq<string>>

  // State is a Go int that JSON decoding does not validate: Unknown stands for
  // every value outside the five named constants.
  datatype State = Pending | Scheduled | Running | Completed | Failed | Unknown(code: int)

  datatype Task = Task(
    name: string,
    id: Uuid,
    state: State,
    image: string,
    memory: int,
    disk: int,
    exposedPorts: PortSet,
    hostPorts: PortMap,
    restartPolicy: string,
    startTime: int,
    finishTime: int,
    containerID: string,
    healthCheck: string,
    restartCount: int)

  datatype TaskEvent = TaskEvent(id: Uuid, state: State, timestamp: int, task: Task)

  // The state machine's table.
  function Successors(s: State): set<State> {
    match s
    case Pending => {Scheduled}
    case Scheduled => {Scheduled, Running, Failed}
    case Running => {Running, Completed, Failed, Scheduled}
    case Completed => {}
    case Failed => {Scheduled}
    case Unknown(_) => {}
  }

  predicate IsValidTransition(cur: State, next: State) {
    next in Successors(cur)
  }

  // A stored state either stays or takes one edge.
  predicate StaysOrSteps(cur: State, next: State) {
    cur == next || IsValidTransition(cur, next)
  }

  // A walk over the state machine that takes an edge at every step.
  predicate IsPath(p: seq<State>) {
    forall i :: 0 <= i < |p| - 1 ==> IsValidTransition(p[i], p[i + 1])
  }

  // The nine edges; a state without a name has none.
  lemma Edges(cur: State, next: State)
    ensures IsValidTransition(cur, next)
       <==> (cur, next) in {(Pending, Scheduled), (Scheduled, Scheduled), (Scheduled, Running), (Scheduled, Failed),
                            (Running, Running), (Running, Completed), (Running, Failed), (Running, Scheduled),
                            (Failed, Scheduled)}
  {
  }

  predicate Named(s: State) { !s.Unknown? }

  // By way of Scheduled, and of Running where Completed is the goal.
  lemma Walk(from: State, to: State) returns (p: seq<State>)
    requires Named(from) && from != Completed && Named(to) && to != Pending
    ensures IsPath(p) && |p| >= 2 && p[0] == from && p[|p| - 1] == to
  {
    p := match to
         case Scheduled => [from, Scheduled]
         case Completed => [from, Scheduled, Running, Completed]
         case _ => [from, Scheduled, to];
  }

  // Some walk of at least one edge leads from one state to the other exactly when
  // the first is a named state other than Completed and the second a named one
  // other than Pending.
  lemma WalksExactly(from: State, to: State)
    ensures (exists p :: IsPath(p) && |p| >= 2 && p[0] == from && p[|p| - 1] == to)
       <==> Named(from) && from != Completed && Named(to) && to != Pending
  {
    if p :| IsPath(p) && |p| >= 2 && p[0] == from && p[|p| - 1] == to {
      var k := |p| - 2;
      assert IsValidTransition(p[0], p[0 + 1]) && IsValidTransition(p[k], p[k + 1]);
      Edges(p[0], p[1]);
      Edges(p[k], p[k + 1]);
    }
    if Named(from) && from != Completed && Named(to) && to != Pending {
      var p := Walk(from, to);
    }
  }

  // Completed has no way out, along a path of any length.
  lemma {:induction false} CompletedIsTerminal(p: seq<State>)
    requires IsPath(p) && |p| > 0 && p[0] == Completed
    ensures |p| == 1
  {
    assert |p| > 1 ==> IsValidTransition(p[0], p[0 + 1]);
  }
}

module Queues {
  // What passes through a queue in two stretches passes through it in one.
  lemma Chain<T>(q: seq<T>, added: seq<T>, taken: seq<T>, q': seq<T>, more: seq<T>, later: seq<T>, end: seq<T>)
    requires q + added == taken + q' && q' + more == later + end
    ensures q + (added + more) == (taken + later) + end
  {
    assert q + (added + more) == (q + added) + more == taken + (q' + more) == (taken + later) + end;
  }
}

// The in-memory backend (internal/store/in_memory.go): a map whose Put cannot fail.
module Store {
  import opened Tasks

  // Tasks are stored under their own ID.
  ghost predicate Keyed(db: map<Uuid, Task>) {
    forall id :: id in db ==> db[id].id == id
  }

  predicate DistinctIds(tasks: seq<Task>) {
    forall i, j :: 0 <= i < j < |tasks| ==> tasks[i].id != tasks[j].id
  }

  // Every record is the one stored now.
  predicate CurrentIn(tasks: seq<Task>, db: map<Uuid, Task>) {
    forall i :: 0 <= i < |tasks| ==> tasks[i].id in db && db[tasks[i].id] == tasks[i]
  }

  // Every stored task once, in an arbitrary order.
  predicate IsListing(tasks: seq<Task>, db: map<Uuid, Task>) {
    DistinctIds(tasks) && CurrentIn(tasks, db) && forall id :: id in db ==> db[id] in tasks
  }

  // The store hands its values back in no particular order.
  method List(db: map<Uuid, Task>) returns (tasks: seq<Task>)
    requires Keyed(db)
    ensures IsListing(tasks, db)
  {
    tasks := [];
    var left := db.Keys;
    while left != {}
      invariant left <= db.Keys
      invariant forall i :: 0 <= i < |tasks| ==> tasks[i].id in db && db[tasks[i].id] == tasks[i] && tasks[i].id !in left
      invariant forall i, j :: 0 <= i < j < |tasks| ==> tasks[i].id != tasks[j].id
      invariant forall id :: id in db && id !in left ==> db[id] in tasks
      decreases left
    {
      var id :| id in left;
      tasks := tasks + [db[id]];
      left := left - {id};
    }
  }
}
