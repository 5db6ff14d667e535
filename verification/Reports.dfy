// The manager's pure functions (internal/manager/pure.go) and the fan-out of
// worker reports built on them (internal/manager/manager.go, updateTasks).

module Reports {
  import opened Tasks

  const TASK_RESTART_MAX := 3

  // ----- Merging one report -----

  // Who owns which field of the manager's record.
  datatype ManagerFields = ManagerFields(name: string, id: Uuid, image: string, memory: int, disk: int,
                                         restartPolicy: string, healthCheck: string, restartCount: int)
  datatype WorkerFields = WorkerFields(state: State, startTime: int, finishTime: int, containerID: string,
                                       exposedPorts: PortSet, hostPorts: PortMap)

  function ManagerPart(t: Task): ManagerFields {
    ManagerFields(t.name, t.id, t.image, t.memory, t.disk, t.restartPolicy, t.healthCheck, t.restartCount)
  }

  function WorkerPart(t: Task): WorkerFields {
    WorkerFields(t.state, t.startTime, t.finishTime, t.containerID, t.exposedPorts, t.hostPorts)
  }

  function MergeTaskUpdate(persisted: Task, incoming: Task): Task {
    if persisted.state != incoming.state && !IsValidTransition(persisted.state, incoming.state) then
      persisted
    else
      persisted.(state := incoming.state,
                 startTime := incoming.startTime,
                 finishTime := incoming.finishTime,
                 containerID := incoming.containerID,
                 exposedPorts := incoming.exposedPorts,
                 hostPorts := incoming.hostPorts)
  }

  // A record is its two parts, so the two equations below fix the merge.
  lemma MergeByOwner(p: Task, r: Task)
    ensures ManagerPart(MergeTaskUpdate(p, r)) == ManagerPart(p)
    ensures WorkerPart(MergeTaskUpdate(p, r)) == if StaysOrSteps(p.state, r.state) then WorkerPart(r) else WorkerPart(p)
    ensures forall t: Task :: ManagerPart(t) == ManagerPart(p) && WorkerPart(t) == WorkerPart(p) ==> t == p
  {
  }

  // ----- Merging a sequence of reports -----

  function Fold(p: Task, rs: seq<Task>): Task {
    if rs == [] then p else MergeTaskUpdate(Fold(p, rs[..|rs| - 1]), rs[|rs| - 1])
  }

  // Report k was accepted, given what the earlier ones left behind.
  predicate Accepted(p: Task, rs: seq<Task>, k: nat)
    requires k < |rs|
  {
    StaysOrSteps(Fold(p, rs[..k]).state, rs[k].state)
  }

  // The states visited while folding, without repetitions of the same state.
  function Visited(p: Task, rs: seq<Task>): (v: seq<State>)
    ensures |v| > 0
  {
    if rs == [] then [p.state]
    else
      var before := Visited(p, rs[..|rs| - 1]);
      var now := Fold(p, rs).state;
      if now == before[|before| - 1] then before else before + [now]
  }

  lemma {:induction false} VisitedIsPath(p: Task, rs: seq<Task>)
    ensures IsPath(Visited(p, rs))
    ensures Visited(p, rs)[0] == p.state
    ensures Visited(p, rs)[|Visited(p, rs)| - 1] == Fold(p, rs).state
  {
    if rs == [] {
    } else {
      VisitedIsPath(p, rs[..|rs| - 1]);
      MergeByOwner(Fold(p, rs[..|rs| - 1]), rs[|rs| - 1]);
    }
  }

  // Whatever the workers report, the record keeps its manager-owned fields.
  lemma {:induction false} FoldKeepsManagerPart(p: Task, rs: seq<Task>)
    ensures ManagerPart(Fold(p, rs)) == ManagerPart(p)
  {
    if rs == [] {
    } else {
      FoldKeepsManagerPart(p, rs[..|rs| - 1]);
    }
  }

  // The index of the last accepted report, -1 when there is none.
  function LastAccepted(p: Task, rs: seq<Task>): (k: int)
    ensures -1 <= k < |rs|
  {
    if rs == [] then -1
    else if Accepted(p, rs, |rs| - 1) then |rs| - 1
    else LastAccepted(p, rs[..|rs| - 1])
  }

  lemma {:induction false} LastAcceptedIsLast(p: Task, rs: seq<Task>)
    ensures var k := LastAccepted(p, rs);
            && (k >= 0 ==> Accepted(p, rs, k))
            && forall j :: k < j < |rs| ==> !Accepted(p, rs, j)
  {
    if rs == [] {
    } else if Accepted(p, rs, |rs| - 1) {
    } else {
      var init := rs[..|rs| - 1];
      LastAcceptedIsLast(p, init);
      forall j | 0 <= j < |init|
        ensures Accepted(p, rs, j) == Accepted(p, init, j)
      {
        assert rs[..j] == init[..j];
      }
    }
  }

  // The worker-owned fields are those of the last accepted report, or the
  // starting ones when none was accepted.
  lemma {:induction false} FoldTakesLastAccepted(p: Task, rs: seq<Task>)
    ensures var k := LastAccepted(p, rs);
            WorkerPart(Fold(p, rs)) == if k < 0 then WorkerPart(p) else WorkerPart(rs[k])
  {
    if rs == [] {
    } else {
      var init := rs[..|rs| - 1];
      FoldTakesLastAccepted(p, init);
      MergeByOwner(Fold(p, init), rs[|rs| - 1]);
    }
  }

  // Hearing the same report twice changes nothing.
  lemma RepeatedReport(p: Task, rs: seq<Task>, r: Task)
    ensures Fold(p, rs + [r] + [r]) == Fold(p, rs + [r])
  {
    assert (rs + [r])[..|rs|] == rs;
    assert (rs + [r] + [r])[..|rs| + 1] == rs + [r];
  }

  // Once the record says Completed, only Completed reports are accepted.
  lemma {:induction false} CompletedOnlyHearsCompleted(p: Task, rs: seq<Task>, k: nat)
    requires p.state == Completed && k < |rs|
    ensures Accepted(p, rs, k) <==> rs[k].state == Completed
    ensures Fold(p, rs).state == Completed
  {
    VisitedIsPath(p, rs);
    CompletedIsTerminal(Visited(p, rs));
    VisitedIsPath(p, rs[..k]);
    CompletedIsTerminal(Visited(p, rs[..k]));
  }

  // ----- Health decisions -----

  datatype HealthAction = SkipNotEligible | SkipRestartMax | Check | Restart

  function DecideHealthAction(t: Task): HealthAction {
    if t.state != Running && t.state != Failed then SkipNotEligible
    else if t.restartCount >= TASK_RESTART_MAX then SkipRestartMax
    else if t.state == Running then Check
    else Restart
  }

  // A task is acted on only with budget left and from a state that may be rescheduled.
  lemma ActedOnHasBudgetAndEdge(t: Task)
    ensures DecideHealthAction(t) in {Check, Restart} <==> t.restartCount < TASK_RESTART_MAX && t.state in {Running, Failed}
    ensures DecideHealthAction(t) in {Check, Restart} ==> IsValidTransition(t.state, Scheduled)
  {
  }

  // ----- The update fan-out -----

  // applyWorkerReport's effect on the task store: unknown tasks are skipped.
  function ApplyReport(db: map<Uuid, Task>, r: Task): map<Uuid, Task> {
    if r.id in db then db[r.id := MergeTaskUpdate(db[r.id], r)] else db
  }

  // One worker's report list, in order.
  function ApplyAll(db: map<Uuid, Task>, rs: seq<Task>): map<Uuid, Task>
    decreases |rs|
  {
    if rs == [] then db else ApplyAll(ApplyReport(db, rs[0]), rs[1..])
  }

  // The reports of one task, in order.
  function OfTask(rs: seq<Task>, id: Uuid): seq<Task> {
    if rs == [] then [] else (if rs[0].id == id then [rs[0]] else []) + OfTask(rs[1..], id)
  }

  // A fold may also be taken from the front.
  lemma {:induction false} FoldFromFront(p: Task, r: Task, rs: seq<Task>)
    ensures Fold(p, [r] + rs) == Fold(MergeTaskUpdate(p, r), rs)
    decreases |rs|
  {
    if rs == [] {
      assert [r] + rs == [r] && [r][..0] == [];
      assert Fold(p, [r]) == MergeTaskUpdate(Fold(p, []), r);
    } else {
      var init := rs[..|rs| - 1];
      assert ([r] + rs)[..|rs|] == [r] + init;
      FoldFromFront(p, r, init);
    }
  }

  // One worker's list: every stored record ends as the fold of its own reports,
  // and no other record appears.
  lemma {:induction false} ListFoldsEachRecord(db: map<Uuid, Task>, rs: seq<Task>)
    ensures ApplyAll(db, rs).Keys == db.Keys
    ensures forall id :: id in db ==> ApplyAll(db, rs)[id] == Fold(db[id], OfTask(rs, id))
    decreases |rs|
  {
    if rs == [] {
    } else {
      ListFoldsEachRecord(ApplyReport(db, rs[0]), rs[1..]);
      forall id | id in db ensures ApplyAll(db, rs)[id] == Fold(db[id], OfTask(rs, id)) {
        if rs[0].id == id {
          FoldFromFront(db[id], rs[0], OfTask(rs[1..], id));
        } else {
          assert OfTask(rs, id) == OfTask(rs[1..], id);
        }
      }
    }
  }

  // The workers one after another.
  function OneByOne(db: map<Uuid, Task>, lists: seq<seq<Task>>): map<Uuid, Task>
    decreases |lists|
  {
    if lists == [] then db else OneByOne(ApplyAll(db, lists[0]), lists[1..])
  }

  // The fan-out: one goroutine per worker, and `schedule` says whose turn it
  // is to take the lock. A turn of a goroutine with nothing left is skipped.
  datatype FanOut = FanOut(db: map<Uuid, Task>, lists: seq<seq<Task>>)

  function Turn(f: FanOut, i: nat): FanOut {
    if i < |f.lists| && f.lists[i] != [] then
      FanOut(ApplyReport(f.db, f.lists[i][0]), f.lists[i := f.lists[i][1..]])
    else f
  }

  function Interleave(f: FanOut, schedule: seq<nat>): FanOut
    decreases |schedule|
  {
    if schedule == [] then f else Interleave(Turn(f, schedule[0]), schedule[1..])
  }

  // The reports of one task, in the order in which the schedule takes them.
  function TakenOf(lists: seq<seq<Task>>, schedule: seq<nat>, id: Uuid): seq<Task>
    decreases |schedule|
  {
    if schedule == [] then []
    else
      var i := schedule[0];
      if i < |lists| && lists[i] != [] then
        (if lists[i][0].id == id then [lists[i][0]] else []) + TakenOf(lists[i := lists[i][1..]], schedule[1..], id)
      else TakenOf(lists, schedule[1..], id)
  }

  // At every point of every interleaving each stored record is the fold of its own
  // reports in the order taken, so what holds of folds holds of the store.
  lemma {:induction false} InterleaveFoldsEachRecord(f: FanOut, schedule: seq<nat>, id: Uuid)
    requires id in f.db
    ensures id in Interleave(f, schedule).db
    ensures Interleave(f, schedule).db[id] == Fold(f.db[id], TakenOf(f.lists, schedule, id))
    decreases |schedule|
  {
    if schedule == [] {
    } else {
      var i, g := schedule[0], Turn(f, schedule[0]);
      InterleaveFoldsEachRecord(g, schedule[1..], id);
      var rest := TakenOf(g.lists, schedule[1..], id);
      if i < |f.lists| && f.lists[i] != [] && f.lists[i][0].id == id {
        FoldFromFront(f.db[id], f.lists[i][0], rest);
      } else {
        assert TakenOf(f.lists, schedule, id) == rest;
      }
    }
  }

  // Nobody but worker i reports the task.
  ghost predicate SoleReporter(lists: seq<seq<Task>>, i: nat, id: Uuid) {
    i < |lists| && forall j, r :: 0 <= j < |lists| && j != i && r in lists[j] ==> r.id != id
  }

  // The reports of a task with one reporter are taken in that worker's order.
  lemma {:induction false} SoleReporterKeepsOrder(f: FanOut, schedule: seq<nat>, i: nat, id: Uuid)
    requires SoleReporter(f.lists, i, id)
    ensures |Interleave(f, schedule).lists| == |f.lists|
    ensures OfTask(f.lists[i], id) == TakenOf(f.lists, schedule, id) + OfTask(Interleave(f, schedule).lists[i], id)
    decreases |schedule|
  {
    if schedule == [] {
    } else {
      var k, g := schedule[0], Turn(f, schedule[0]);
      if k < |f.lists| && f.lists[k] != [] {
        assert f.lists[k][0] in f.lists[k];
        forall j, r | 0 <= j < |g.lists| && j != i && r in g.lists[j] ensures r.id != id {
          assert r in f.lists[j];
        }
      }
      SoleReporterKeepsOrder(g, schedule[1..], i, id);
    }
  }

  ghost predicate Disjoint(lists: seq<seq<Task>>) {
    forall i, j, a, b :: 0 <= i < j < |lists| && a in lists[i] && b in lists[j] ==> a.id != b.id
  }

  predicate AllEmpty(lists: seq<seq<Task>>) {
    forall i :: 0 <= i < |lists| ==> lists[i] == []
  }

  lemma ReportsOfDifferentTasksCommute(db: map<Uuid, Task>, a: Task, b: Task)
    requires a.id != b.id
    ensures ApplyReport(ApplyReport(db, a), b) == ApplyReport(ApplyReport(db, b), a)
  {
    var ab, ba := ApplyReport(ApplyReport(db, a), b), ApplyReport(ApplyReport(db, b), a);
    assert ab.Keys == ba.Keys;
    assert forall id :: id in ab ==> ab[id] == ba[id];
  }

  lemma {:induction false} ReportPassesList(db: map<Uuid, Task>, r: Task, rs: seq<Task>)
    requires forall x :: x in rs ==> x.id != r.id
    ensures ApplyAll(ApplyReport(db, r), rs) == ApplyReport(ApplyAll(db, rs), r)
    decreases |rs|
  {
    if rs == [] {
    } else {
      assert rs[0] in rs;
      ReportsOfDifferentTasksCommute(db, r, rs[0]);
      ReportPassesList(ApplyReport(db, rs[0]), r, rs[1..]);
    }
  }

  lemma DisjointTail(lists: seq<seq<Task>>)
    requires Disjoint(lists) && lists != []
    ensures Disjoint(lists[1..])
  {
    var t := lists[1..];
    forall i, j, a: Task, b: Task | 0 <= i < j < |t| && a in t[i] && b in t[j] ensures a.id != b.id {
      assert a in lists[i + 1] && b in lists[j + 1];
    }
  }

  lemma {:induction false} HeadMovesToFront(db: map<Uuid, Task>, lists: seq<seq<Task>>, i: nat)
    requires Disjoint(lists) && i < |lists| && lists[i] != []
    ensures OneByOne(ApplyReport(db, lists[i][0]), lists[i := lists[i][1..]]) == OneByOne(db, lists)
    decreases i
  {
    var r, after := lists[i][0], lists[i := lists[i][1..]];
    if i == 0 {
      assert after[1..] == lists[1..];
    } else {
      assert r in lists[i];
      forall x | x in lists[0] ensures x.id != r.id {
      }
      ReportPassesList(db, r, lists[0]);
      assert after[1..] == lists[1..][i - 1 := lists[1..][i - 1][1..]];
      DisjointTail(lists);
      HeadMovesToFront(ApplyAll(db, lists[0]), lists[1..], i - 1);
    }
  }

  lemma TurnKeepsDisjoint(f: FanOut, i: nat)
    requires Disjoint(f.lists)
    ensures Disjoint(Turn(f, i).lists)
  {
    var t := Turn(f, i).lists;
    forall x, y, a: Task, b: Task | 0 <= x < y < |t| && a in t[x] && b in t[y] ensures a.id != b.id {
      assert a in f.lists[x] && b in f.lists[y];
    }
  }

  lemma {:induction false} NothingLeft(db: map<Uuid, Task>, lists: seq<seq<Task>>)
    requires AllEmpty(lists)
    ensures OneByOne(db, lists) == db
    decreases |lists|
  {
    if lists == [] {
    } else {
      assert lists[0] == [];
      NothingLeft(db, lists[1..]);
    }
  }

  // What is still to come, done one worker at a time, ends in the same store at
  // every point of every interleaving.
  lemma {:induction false} InterleaveKeepsGoal(f: FanOut, schedule: seq<nat>)
    requires Disjoint(f.lists)
    ensures OneByOne(Interleave(f, schedule).db, Interleave(f, schedule).lists) == OneByOne(f.db, f.lists)
    decreases |schedule|
  {
    if schedule == [] {
    } else {
      var i := schedule[0];
      if i < |f.lists| && f.lists[i] != [] {
        HeadMovesToFront(f.db, f.lists, i);
      }
      TurnKeepsDisjoint(f, i);
      InterleaveKeepsGoal(Turn(f, i), schedule[1..]);
    }
  }

  // Confluence: when no task is reported by two workers, every complete
  // interleaving leaves the store that one-worker-at-a-time would.
  lemma FanOutIsConfluent(f: FanOut, schedule: seq<nat>)
    requires Disjoint(f.lists) && AllEmpty(Interleave(f, schedule).lists)
    ensures Interleave(f, schedule).db == OneByOne(f.db, f.lists)
  {
    InterleaveKeepsGoal(f, schedule);
    NothingLeft(Interleave(f, schedule).db, Interleave(f, schedule).lists);
  }

  // In every interleaving, complete or not and with or without disjointness,
  // no task appears or disappears and no manager-owned field moves.
  lemma {:induction false} FanOutKeepsKeysAndManagerFields(f: FanOut, schedule: seq<nat>)
    ensures Interleave(f, schedule).db.Keys == f.db.Keys
    ensures forall id :: id in f.db ==> ManagerPart(Interleave(f, schedule).db[id]) == ManagerPart(f.db[id])
    decreases |schedule|
  {
    if schedule == [] {
    } else {
      var g := Turn(f, schedule[0]);
      assert g.db.Keys == f.db.Keys;
      FanOutKeepsKeysAndManagerFields(g, schedule[1..]);
    }
  }

  // ----- Two reports of one task -----

  // The order of two reports does not matter to a record in this state: they say
  // the same; or both are accepted and exactly one may follow the other; or
  // one is accepted and the other may not follow it; or neither is accepted.
  predicate OrderIsIrrelevant(p: State, a: Task, b: Task) {
    var takesA, takesB := StaysOrSteps(p, a.state), StaysOrSteps(p, b.state);
    var bFollows, aFollows := StaysOrSteps(a.state, b.state), StaysOrSteps(b.state, a.state);
    || WorkerPart(a) == WorkerPart(b)
    || if takesA && takesB then bFollows != aFollows
       else if takesA then !bFollows
       else if takesB then !aFollows
       else true
  }

  lemma MergesCommuteExactly(p: Task, a: Task, b: Task)
    ensures MergeTaskUpdate(MergeTaskUpdate(p, a), b) == MergeTaskUpdate(MergeTaskUpdate(p, b), a)
       <==> OrderIsIrrelevant(p.state, a, b)
  {
    MergeByOwner(p, a);
    MergeByOwner(p, b);
    MergeByOwner(MergeTaskUpdate(p, a), b);
    MergeByOwner(MergeTaskUpdate(p, b), a);
  }

  lemma ReportsCommuteExactly(db: map<Uuid, Task>, a: Task, b: Task)
    ensures ApplyReport(ApplyReport(db, a), b) == ApplyReport(ApplyReport(db, b), a)
       <==> (a.id == b.id && a.id in db ==> OrderIsIrrelevant(db[a.id].state, a, b))
  {
    if a.id != b.id {
      ReportsOfDifferentTasksCommute(db, a, b);
    } else if a.id in db {
      var ab, ba := ApplyReport(ApplyReport(db, a), b), ApplyReport(ApplyReport(db, b), a);
      MergesCommuteExactly(db[a.id], a, b);
      assert ab == db[a.id := ab[a.id]] && ba == db[a.id := ba[a.id]];
    }
  }

  // What workers i and j report next do not race.
  predicate NextDoNotRace(f: FanOut, i: nat, j: nat) {
    (i < |f.lists| && j < |f.lists| && i != j && f.lists[i] != [] && f.lists[j] != []) ==>
      var a, b := f.lists[i][0], f.lists[j][0];
      a.id == b.id && a.id in f.db ==> OrderIsIrrelevant(f.db[a.id].state, a, b)
  }

  // Two turns may be swapped, anywhere in a fan-out of any lists, exactly when the
  // two reports they merge do not race.
  lemma TurnsSwapExactly(f: FanOut, i: nat, j: nat)
    ensures Turn(Turn(f, i), j) == Turn(Turn(f, j), i) <==> NextDoNotRace(f, i, j)
  {
    if i < |f.lists| && j < |f.lists| && i != j && f.lists[i] != [] && f.lists[j] != [] {
      ReportsCommuteExactly(f.db, f.lists[i][0], f.lists[j][0]);
      assert f.lists[i := f.lists[i][1..]][j := f.lists[j][1..]] == f.lists[j := f.lists[j][1..]][i := f.lists[i][1..]];
    }
  }

  // No two workers race at any point of any interleaving.
  ghost predicate NeverRaces(f: FanOut) {
    forall schedule, i, j :: NextDoNotRace(Interleave(f, schedule), i, j)
  }

  // The store reached depends only on how many turns each worker took.
  ghost predicate OrderNeverMatters(f: FanOut) {
    forall one: seq<nat>, other: seq<nat> :: multiset(one) == multiset(other) ==> Interleave(f, one) == Interleave(f, other)
  }

  lemma TurnNeverRaces(f: FanOut, k: nat)
    requires NeverRaces(f)
    ensures NeverRaces(Turn(f, k))
  {
    forall schedule, i, j ensures NextDoNotRace(Interleave(Turn(f, k), schedule), i, j) {
      assert ([k] + schedule)[1..] == schedule;
      assert NextDoNotRace(Interleave(f, [k] + schedule), i, j);
    }
  }

  // Without races a turn may be taken earlier than scheduled.
  lemma {:induction false} TurnMovesToFront(f: FanOut, before: seq<nat>, k: nat, after: seq<nat>)
    requires NeverRaces(f)
    ensures Interleave(f, before + [k] + after) == Interleave(Turn(f, k), before + after)
    decreases |before|
  {
    if before == [] {
      assert before + [k] + after == [k] + after && ([k] + after)[1..] == after == before + after;
    } else {
      var i, rest := before[0], before[1..];
      assert (before + [k] + after)[1..] == rest + [k] + after && (before + after)[1..] == rest + after;
      TurnNeverRaces(f, i);
      TurnMovesToFront(Turn(f, i), rest, k, after);
      assert NextDoNotRace(Interleave(f, []), i, k);
      TurnsSwapExactly(f, i, k);
    }
  }

  lemma DropOne(rest: seq<nat>, before: seq<nat>, k: nat, after: seq<nat>)
    requires multiset([k] + rest) == multiset(before + [k] + after)
    ensures multiset(rest) == multiset(before + after)
  {
    assert multiset([k] + rest) - multiset{k} == multiset(rest);
    assert multiset(before + [k] + after) - multiset{k} == multiset(before + after);
  }

  lemma {:induction false} SchedulesAgree(f: FanOut, one: seq<nat>, other: seq<nat>)
    requires NeverRaces(f) && multiset(one) == multiset(other)
    ensures Interleave(f, one) == Interleave(f, other)
    decreases |one|
  {
    if one == [] {
      assert |other| == |multiset(other)| == 0;
    } else {
      var k := one[0];
      assert one == [k] + one[1..] && k in multiset(other);
      var p :| 0 <= p < |other| && other[p] == k;
      var before, after := other[..p], other[p + 1..];
      assert other == before + [k] + after;
      DropOne(one[1..], before, k, after);
      TurnMovesToFront(f, before, k, after);
      TurnNeverRaces(f, k);
      SchedulesAgree(Turn(f, k), one[1..], before + after);
    }
  }

  lemma {:induction false} InterleaveConcat(f: FanOut, one: seq<nat>, two: seq<nat>)
    ensures Interleave(f, one + two) == Interleave(Interleave(f, one), two)
    decreases |one|
  {
    if one == [] {
      assert one + two == two;
    } else {
      assert (one + two)[1..] == one[1..] + two;
      InterleaveConcat(Turn(f, one[0]), one[1..], two);
    }
  }

  lemma TwoTurns(f: FanOut, i: nat, j: nat)
    ensures Interleave(f, [i, j]) == Turn(Turn(f, i), j)
  {
    assert [i, j][1..] == [j] && [j][1..] == [];
    assert Interleave(Turn(f, i), [j]) == Interleave(Turn(Turn(f, i), j), []);
  }

  lemma RaceShows(f: FanOut, schedule: seq<nat>, i: nat, j: nat)
    requires OrderNeverMatters(f)
    ensures NextDoNotRace(Interleave(f, schedule), i, j)
  {
    assert multiset(schedule + [i, j]) == multiset(schedule + [j, i]);
    InterleaveConcat(f, schedule, [i, j]);
    InterleaveConcat(f, schedule, [j, i]);
    TwoTurns(Interleave(f, schedule), i, j);
    TwoTurns(Interleave(f, schedule), j, i);
    TurnsSwapExactly(Interleave(f, schedule), i, j);
  }

  // Any lists, shared tasks included: whatever the order of the turns, the same
  // store is reached, if and only if no two reports race on the way.
  lemma OrderNeverMattersExactlyWithoutRaces(f: FanOut)
    ensures OrderNeverMatters(f) <==> NeverRaces(f)
  {
    if OrderNeverMatters(f) {
      forall schedule, i, j ensures NextDoNotRace(Interleave(f, schedule), i, j) {
        RaceShows(f, schedule, i, j);
      }
    }
    if NeverRaces(f) {
      forall one: seq<nat>, other: seq<nat> | multiset(one) == multiset(other)
        ensures Interleave(f, one) == Interleave(f, other)
      {
        SchedulesAgree(f, one, other);
      }
    }
  }

  // Reports of disjoint tasks never race.
  lemma {:induction false} DisjointNeverRaces(f: FanOut, schedule: seq<nat>, i: nat, j: nat)
    requires Disjoint(f.lists)
    ensures NextDoNotRace(Interleave(f, schedule), i, j)
    decreases |schedule|
  {
    if schedule == [] {
      if i < |f.lists| && j < |f.lists| && f.lists[i] != [] && f.lists[j] != [] {
        assert f.lists[i][0] in f.lists[i] && f.lists[j][0] in f.lists[j];
      }
    } else {
      TurnKeepsDisjoint(f, schedule[0]);
      DisjointNeverRaces(Turn(f, schedule[0]), schedule[1..], i, j);
    }
  }

  // Two workers with one report each: their order is irrelevant to the store
  // exactly when the reports are of different tasks, or of none that is stored,
  // or their order is irrelevant to the stored record.
  lemma TwoReportsRaceExactly(f: FanOut, a: Task, b: Task)
    requires f.lists == [[a], [b]]
    ensures AllEmpty(Interleave(f, [0, 1]).lists) && AllEmpty(Interleave(f, [1, 0]).lists)
    ensures Interleave(f, [0, 1]).db == Interleave(f, [1, 0]).db
       <==> (a.id == b.id && a.id in f.db ==> OrderIsIrrelevant(f.db[a.id].state, a, b))
  {
    TwoTurns(f, 0, 1);
    TwoTurns(f, 1, 0);
    TurnsSwapExactly(f, 0, 1);
  }

  // Without disjointness the order can matter: of one Running task one worker
  // says Completed, the other Failed.
  lemma SharedTaskRaces(t: Task)
    requires t.state == Running
    ensures var f := FanOut(map[t.id := t], [[t.(state := Completed)], [t.(state := Failed)]]);
            Interleave(f, [0, 1]).db != Interleave(f, [1, 0]).db
  {
    var completed, failed := t.(state := Completed), t.(state := Failed);
    TwoReportsRaceExactly(FanOut(map[t.id := t], [[completed], [failed]]), completed, failed);
    assert WorkerPart(completed).state != WorkerPart(failed).state;
  }
}
