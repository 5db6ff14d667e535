// The marginal-cost scheduler: its cost formula over the reals
// (internal/scheduler/pure.go) and its concurrent scoring
// (internal/scheduler/marginalcost.go).

module Cost {
  import opened Options
  import opened Nodes

  const LIEB: real := 1.53960071783900203869
  const MAX_JOBS_PER_NODE: real := 4.0

  // powerCost is math.Pow with base LIEB. All that is used of it are the laws of
  // an exponential; p stands for any function that has them.
  ghost predicate ProductLaw(p: real -> real, x: real, y: real) { p(x + y) == p(x) * p(y) }
  ghost predicate GrowthLaw(p: real -> real, x: real, y: real) { x < y ==> p(x) < p(y) }

  ghost predicate PowerLaws(p: real -> real) {
    && p(0.0) == 1.0
    && p(1.0) == LIEB
    && (forall x, y :: ProductLaw(p, x, y))
    && (forall x, y :: GrowthLaw(p, x, y))
  }

  // Go's uint64.
  type Word = x: int | 0 <= x < 0x1_0000_0000_0000_0000

  // What a worker reports; an unreadable CPU is reported as -1.
  datatype Stats = Stats(memTotal: Word, memAvailable: Word, cpuUsage: real, taskCount: nat)

  // uint64 subtraction wraps.
  function MemUsedKb(s: Stats): Word {
    (s.memTotal - s.memAvailable) % 0x1_0000_0000_0000_0000
  }

  function NormalizeCPUUsage(percent: real): Option<real> {
    if percent < 0.0 then None else Some(percent / 100.0)
  }

  // An unknown CPU counts as fully busy.
  function CpuLoad(s: Stats): (load: real)
    ensures load >= 0.0
    ensures load == if s.cpuUsage < 0.0 then 1.0 else s.cpuUsage / 100.0
  {
    match NormalizeCPUUsage(s.cpuUsage)
    case Some(load) => load
    case None => 1.0
  }

  datatype NodeLoad = NodeLoad(memUsed: real, memTotal: real, cpuLoad: real, taskCount: real)

  function LoadOf(n: Node, s: Stats): NodeLoad {
    NodeLoad(MemUsedKb(s) as real + n.memoryAllocated as real, s.memTotal as real, CpuLoad(s), s.taskCount as real)
  }

  // None is the error return for a node without memory.
  function NodeScore(p: real -> real, l: NodeLoad, taskMemory: real): Option<real> {
    if l.memTotal <= 0.0 then None
    else
      var memNow := l.memUsed / l.memTotal;
      var memNew := (l.memUsed + taskMemory) / l.memTotal;
      var memCost := p(memNew) - p(memNow);
      var jobCost := p((l.taskCount + 1.0) / MAX_JOBS_PER_NODE) - p(l.taskCount / MAX_JOBS_PER_NODE);
      var cpuCost := p(l.cpuLoad) - 1.0;
      Some(memCost + jobCost + cpuCost)
  }

  // ----- The cost curve -----

  lemma ProductIsPositive(a: real, b: real)
    requires a > 0.0 && b > 0.0
    ensures a * b > 0.0
  {
  }

  lemma ZeroHasNoInverse(x: real, y: real)
    requires x * y == 1.0
    ensures x != 0.0
  {
    if x == 0.0 {
      assert false;
    }
  }

  // A square that has an inverse is positive.
  lemma SquareIsPositive(h: real, x: real, y: real)
    requires x == h * h && x * y == 1.0
    ensures x > 0.0
  {
    if h > 0.0 {
      ProductIsPositive(h, h);
    } else if h < 0.0 {
      var g := -h;
      assert g * g == h * h;
      ProductIsPositive(g, g);
    } else {
      ZeroHasNoInverse(x, y);
    }
  }

  lemma MulKeepsOrder(a: real, b: real, c: real)
    requires a <= b && c >= 0.0
    ensures a * c <= b * c
    ensures a < b && c > 0.0 ==> a * c < b * c
  {
  }

  // Two increments by the same factor are ordered as what they start from.
  lemma SameFactor(a: real, b: real, g: real, da: real, db: real)
    requires 0.0 < a <= b && g >= 0.0 && da == a * g && db == b * g
    ensures 0.0 <= da <= db
    ensures g > 0.0 ==> 0.0 < da
    ensures g > 0.0 && a < b ==> da < db
  {
    MulKeepsOrder(0.0, a, g);
    MulKeepsOrder(a, b, g);
  }

  // Growing by d costs the current level times a constant: the curve is convex.
  lemma CostOfGrowth(p: real -> real, x: real, d: real)
    requires PowerLaws(p)
    ensures p(x + d) - p(x) == p(x) * (p(d) - 1.0)
    ensures p(x) > 0.0
    ensures d > 0.0 ==> p(d) > 1.0
    ensures d == 0.0 ==> p(d) == 1.0
  {
    assert ProductLaw(p, x, d);
    assert GrowthLaw(p, 0.0, d);
    var h := x / 2.0;
    assert ProductLaw(p, h, h) && h + h == x;
    assert p(x) == p(h) * p(h);
    assert ProductLaw(p, x, -x) && x + -x == 0.0;
    assert p(x) * p(-x) == 1.0;
    SquareIsPositive(p(h), p(x), p(-x));
  }

  // The same increment never costs less on a fuller node, and costs more when
  // the node is strictly fuller.
  lemma FullerCostsMore(p: real -> real, x: real, y: real, d: real)
    requires PowerLaws(p) && x <= y && d >= 0.0
    ensures 0.0 <= p(x + d) - p(x) <= p(y + d) - p(y)
    ensures d > 0.0 ==> 0.0 < p(x + d) - p(x)
    ensures d > 0.0 && x < y ==> p(x + d) - p(x) < p(y + d) - p(y)
  {
    CostOfGrowth(p, x, d);
    CostOfGrowth(p, y, d);
    assert GrowthLaw(p, x, y);
    SameFactor(p(x), p(y), p(d) - 1.0, p(x + d) - p(x), p(y + d) - p(y));
  }

  lemma DivKeepsOrder(a: real, b: real, c: real)
    requires a <= b && c > 0.0
    ensures a / c <= b / c
    ensures a < b ==> a / c < b / c
  {
  }

  lemma DivAdds(a: real, b: real, c: real)
    requires c > 0.0
    ensures (a + b) / c == a / c + b / c
  {
  }

  // The score as increments, each over what the node already carries.
  lemma ScoreIsIncrements(p: real -> real, l: NodeLoad, taskMemory: real)
    requires l.memTotal > 0.0
    ensures NodeScore(p, l, taskMemory).Some?
    ensures var m, j, d := l.memUsed / l.memTotal, l.taskCount / MAX_JOBS_PER_NODE, taskMemory / l.memTotal;
            NodeScore(p, l, taskMemory).value
            == (p(m + d) - p(m)) + (p(j + 1.0 / MAX_JOBS_PER_NODE) - p(j)) + (p(l.cpuLoad) - 1.0)
  {
    DivAdds(l.memUsed, taskMemory, l.memTotal);
    DivAdds(l.taskCount, 1.0, MAX_JOBS_PER_NODE);
  }

  // Every score is positive: placing a task is never free.
  lemma ScoreIsPositive(p: real -> real, l: NodeLoad, taskMemory: real)
    requires PowerLaws(p) && l.memTotal > 0.0 && l.cpuLoad >= 0.0 && taskMemory >= 0.0
    ensures NodeScore(p, l, taskMemory).Some? && NodeScore(p, l, taskMemory).value > 0.0
  {
    ScoreIsIncrements(p, l, taskMemory);
    DivKeepsOrder(0.0, taskMemory, l.memTotal);
    FullerCostsMore(p, l.memUsed / l.memTotal, l.memUsed / l.memTotal, taskMemory / l.memTotal);
    FullerCostsMore(p, l.taskCount / MAX_JOBS_PER_NODE, l.taskCount / MAX_JOBS_PER_NODE, 1.0 / MAX_JOBS_PER_NODE);
    assert GrowthLaw(p, 0.0, l.cpuLoad);
  }

  lemma OneUp(p: real -> real, x: real)
    requires PowerLaws(p)
    ensures p(x + 1.0) == 1.53960071783900203869 * p(x)
  {
    assert ProductLaw(p, x, 1.0);
  }

  // Each term on its own scale: one more full memory and MAX_JOBS_PER_NODE more
  // tasks multiply the cost of the task by LIEB, and a full CPU more adds
  // LIEB - 1 times the CPU cost there was, from LIEB - 1 on an idle node.
  lemma OneLoadMore(p: real -> real, l: NodeLoad, taskMemory: real)
    requires PowerLaws(p) && l.memTotal > 0.0
    ensures NodeScore(p, l, taskMemory).Some? && NodeScore(p, l.(cpuLoad := l.cpuLoad + 1.0), taskMemory).Some?
    ensures NodeScore(p, l.(cpuLoad := l.cpuLoad + 1.0), taskMemory).value
         == NodeScore(p, l, taskMemory).value + 0.53960071783900203869 * p(l.cpuLoad)
    ensures var l' := l.(memUsed := l.memUsed + l.memTotal, taskCount := l.taskCount + 4.0);
            && NodeScore(p, l', taskMemory).Some?
            && (l.cpuLoad == 0.0 ==>
                  NodeScore(p, l', taskMemory).value == 1.53960071783900203869 * NodeScore(p, l, taskMemory).value)
  {
    var m, j, d := l.memUsed / l.memTotal, l.taskCount / 4.0, taskMemory / l.memTotal;
    ScoreIsIncrements(p, l, taskMemory);
    ScoreIsIncrements(p, l.(cpuLoad := l.cpuLoad + 1.0), taskMemory);
    ScoreIsIncrements(p, l.(memUsed := l.memUsed + l.memTotal, taskCount := l.taskCount + 4.0), taskMemory);
    DivAdds(l.memUsed, l.memTotal, l.memTotal);
    DivAdds(l.taskCount, 4.0, 4.0);
    assert l.memTotal / l.memTotal == 1.0;
    OneUp(p, l.cpuLoad);
    OneUp(p, m);
    OneUp(p, j);
    OneUp(p, m + d);
    OneUp(p, j + 0.25);
    assert m + 1.0 + d == m + d + 1.0 && j + 1.0 + 0.25 == j + 0.25 + 1.0;
  }

  // On an idle node a task asking for the whole memory costs Lieb's constant less 1
  // for it, and a quarter of a load on the same curve for the job slot.
  lemma WholeMemoryOfIdleNode(p: real -> real, memTotal: real)
    requires PowerLaws(p) && memTotal > 0.0
    ensures NodeScore(p, NodeLoad(0.0, memTotal, 0.0, 0.0), memTotal) == Some(0.53960071783900203869 + p(0.25) - 1.0)
  {
    ScoreIsIncrements(p, NodeLoad(0.0, memTotal, 0.0, 0.0), memTotal);
    assert memTotal / memTotal == 1.0 && 0.0 / memTotal == 0.0;
  }

  // a is nowhere worse off than b, and somewhere that counts better off.
  predicate Dominates(a: NodeLoad, b: NodeLoad, taskMemory: real) {
    && a.memTotal == b.memTotal
    && a.memUsed <= b.memUsed && a.taskCount <= b.taskCount && a.cpuLoad <= b.cpuLoad
    && (a.taskCount < b.taskCount || a.cpuLoad < b.cpuLoad || (a.memUsed < b.memUsed && taskMemory > 0.0))
  }

  lemma DominatingScoresLower(p: real -> real, a: NodeLoad, b: NodeLoad, taskMemory: real)
    requires PowerLaws(p) && a.memTotal > 0.0 && taskMemory >= 0.0 && Dominates(a, b, taskMemory)
    ensures NodeScore(p, a, taskMemory).Some? && NodeScore(p, b, taskMemory).Some?
    ensures NodeScore(p, a, taskMemory).value < NodeScore(p, b, taskMemory).value
  {
    ScoreIsIncrements(p, a, taskMemory);
    ScoreIsIncrements(p, b, taskMemory);
    DivKeepsOrder(a.memUsed, b.memUsed, a.memTotal);
    DivKeepsOrder(a.taskCount, b.taskCount, MAX_JOBS_PER_NODE);
    DivKeepsOrder(0.0, taskMemory, a.memTotal);
    FullerCostsMore(p, a.memUsed / a.memTotal, b.memUsed / b.memTotal, taskMemory / a.memTotal);
    FullerCostsMore(p, a.taskCount / MAX_JOBS_PER_NODE, b.taskCount / MAX_JOBS_PER_NODE, 1.0 / MAX_JOBS_PER_NODE);
    assert GrowthLaw(p, a.cpuLoad, b.cpuLoad);
  }
}

module MarginalCost {
  import opened Options
  import opened Tasks
  import opened Nodes
  import opened Scoring
  import opened Cost

  // ----- What Score computes, whatever the schedule -----

  predicate HasDiskRoom(taskDisk: int, nodeDisk: int, nodeDiskAllocated: int) {
    taskDisk <= nodeDisk - nodeDiskAllocated
  }

  // A candidate's score, None when its stats could not be fetched or scored.
  function ScoreOf(p: real -> real, t: Task, n: Node, answer: Option<Stats>): Option<real> {
    if answer.None? then None else NodeScore(p, LoadOf(n, answer.value), t.memory as real)
  }

  // One Score call: the candidates, what each one's stats fetch answers, and the
  // capacity of the error channel.
  datatype Job = Job(p: real -> real, task: Task, candidates: seq<Node>, answers: seq<Option<Stats>>, capacity: nat)
  {
    predicate Valid() { |answers| == |candidates| }
    function Size(): nat { |candidates| }
    function At(i: nat): Option<real>
      requires Valid() && i < Size()
    {
      ScoreOf(p, task, candidates[i], answers[i])
    }
  }

  // The candidates below k that answered, in order, each with its score.
  function ScoredOf(job: Job, k: nat): seq<ScoredNode>
    requires job.Valid() && k <= job.Size()
  {
    if k == 0 then []
    else
      match job.At(k - 1)
      case Some(score) => ScoredOf(job, k - 1) + [ScoredNode(job.candidates[k - 1], score)]
      case None => ScoredOf(job, k - 1)
  }

  // How many candidates below k failed.
  function Failures(job: Job, k: nat): nat
    requires job.Valid() && k <= job.Size()
  {
    if k == 0 then 0 else Failures(job, k - 1) + (if job.At(k - 1).None? then 1 else 0)
  }

  // Nothing is lost: every candidate is scored or failed.
  lemma {:induction false} ScoredOrFailed(job: Job, k: nat)
    requires job.Valid() && k <= job.Size()
    ensures |ScoredOf(job, k)| + Failures(job, k) == k
  {
    if k > 0 {
      ScoredOrFailed(job, k - 1);
    }
  }

  // ----- The goroutines -----

  // Where a candidate's goroutine stands between two accesses to shared memory.
  datatype Goroutine =
    | Fetching
    | SendingError
    | WritingResult(score: real)
    | WritingFlag
    | Reported
    | Done

  // Shared memory: a result slot and a flag per candidate, and the channel.
  datatype Fan = Fan(routines: seq<Goroutine>, results: seq<ScoredNode>, scored: seq<bool>, errs: seq<nat>)

  const ZERO_NODE := ScoredNode(Node("", "", 0, 0, 0, 0, 0, "", 0), 0.0)

  function Start(job: Job): Fan {
    Fan(seq(job.Size(), _ => Fetching), seq(job.Size(), _ => ZERO_NODE), seq(job.Size(), _ => false), [])
  }

  predicate Shaped(job: Job, f: Fan) {
    job.Valid() && |f.routines| == |f.results| == |f.scored| == job.Size()
  }

  predicate Finished(g: Goroutine) { g.Reported? || g.Done? }

  // Goroutine i's next access; a send on a full channel parks it.
  function Move(job: Job, f: Fan, i: nat): Fan
    requires Shaped(job, f)
  {
    if i >= job.Size() then f
    else
      match f.routines[i]
      case Fetching =>
        f.(routines := f.routines[i := match job.At(i) case Some(score) => WritingResult(score) case None => SendingError])
      case SendingError =>
        if |f.errs| < job.capacity then f.(routines := f.routines[i := Reported], errs := f.errs + [i]) else f
      case WritingResult(score) =>
        f.(routines := f.routines[i := WritingFlag], results := f.results[i := ScoredNode(job.candidates[i], score)])
      case WritingFlag =>
        f.(routines := f.routines[i := Done], scored := f.scored[i := true])
      case Reported => f
      case Done => f
  }

  // A schedule says whose turn it is.
  function Schedule(job: Job, f: Fan, turns: seq<nat>): (f': Fan)
    requires Shaped(job, f)
    ensures Shaped(job, f')
    decreases |turns|
  {
    if turns == [] then f else Schedule(job, Move(job, f, turns[0]), turns[1..])
  }

  // What each goroutine's place says about its slot.
  ghost predicate SlotInv(job: Job, f: Fan, i: nat)
    requires Shaped(job, f) && i < job.Size()
  {
    match f.routines[i]
    case Fetching => !f.scored[i]
    case SendingError => job.At(i).None? && !f.scored[i]
    case Reported => job.At(i).None? && !f.scored[i]
    case WritingResult(score) => job.At(i) == Some(score) && !f.scored[i]
    case WritingFlag =>
      job.At(i).Some? && !f.scored[i] && f.results[i] == ScoredNode(job.candidates[i], job.At(i).value)
    case Done =>
      job.At(i).Some? && f.scored[i] && f.results[i] == ScoredNode(job.candidates[i], job.At(i).value)
  }

  // How many errors the goroutines below k have sent, and how much work they have left.
  function Sent(rs: seq<Goroutine>, k: nat): nat
    requires k <= |rs|
  {
    if k == 0 then 0 else Sent(rs, k - 1) + (if rs[k - 1].Reported? then 1 else 0)
  }

  function Left(g: Goroutine): nat {
    match g
    case Fetching => 3
    case WritingResult(_) => 2
    case SendingError => 1
    case WritingFlag => 1
    case Reported => 0
    case Done => 0
  }

  function Work(rs: seq<Goroutine>, k: nat): nat
    requires k <= |rs|
  {
    if k == 0 then 0 else Work(rs, k - 1) + Left(rs[k - 1])
  }

  ghost predicate FanInv(job: Job, f: Fan) {
    && Shaped(job, f)
    && (forall i :: 0 <= i < job.Size() ==> SlotInv(job, f, i))
    && |f.errs| == Sent(f.routines, job.Size())
    && |f.errs| <= job.capacity
  }

  lemma {:induction false} CountsAfterMove(rs: seq<Goroutine>, k: nat, i: nat, g: Goroutine)
    requires i < |rs| && k <= |rs|
    ensures Sent(rs[i := g], k)
         == Sent(rs, k) + (if i < k && g.Reported? then 1 else 0) - (if i < k && rs[i].Reported? then 1 else 0)
    ensures Work(rs[i := g], k) == Work(rs, k) + (if i < k then Left(g) - Left(rs[i]) else 0)
  {
    if k > 0 {
      CountsAfterMove(rs, k - 1, i, g);
    }
  }

  lemma {:induction false} SentAtMostFailures(job: Job, f: Fan, k: nat)
    requires FanInv(job, f) && k <= job.Size()
    ensures Sent(f.routines, k) <= Failures(job, k)
    ensures (exists i :: 0 <= i < k && f.routines[i].SendingError?) ==> Sent(f.routines, k) < Failures(job, k)
    ensures (forall i :: 0 <= i < k ==> Finished(f.routines[i])) ==> Sent(f.routines, k) == Failures(job, k)
  {
    if k > 0 {
      SentAtMostFailures(job, f, k - 1);
      assert SlotInv(job, f, k - 1);
    }
  }

  lemma {:induction false} StartCounts(job: Job, rs: seq<Goroutine>, k: nat)
    requires k <= |rs| && forall i :: 0 <= i < |rs| ==> rs[i] == Fetching
    ensures Sent(rs, k) == 0
  {
    if k > 0 {
      StartCounts(job, rs, k - 1);
    }
  }

  lemma MoveKeepsInv(job: Job, f: Fan, i: nat)
    requires FanInv(job, f)
    ensures FanInv(job, Move(job, f, i))
    ensures Move(job, f, i) != f ==>
              i < job.Size() && Work(Move(job, f, i).routines, job.Size()) < Work(f.routines, job.Size())
  {
    if i < job.Size() {
      var f' := Move(job, f, i);
      assert SlotInv(job, f, i);
      assert f'.routines == f.routines[i := f'.routines[i]];
      CountsAfterMove(f.routines, job.Size(), i, f'.routines[i]);
      forall k | 0 <= k < job.Size() ensures SlotInv(job, f', k) {
        assert SlotInv(job, f, k);
      }
    }
  }

  lemma StartHasInv(job: Job)
    requires job.Valid()
    ensures FanInv(job, Start(job))
  {
    StartCounts(job, Start(job).routines, job.Size());
  }

  lemma {:induction false} ScheduleKeepsInv(job: Job, f: Fan, turns: seq<nat>)
    requires FanInv(job, f)
    ensures FanInv(job, Schedule(job, f, turns))
    decreases |turns|
  {
    if turns == [] {
    } else {
      MoveKeepsInv(job, f, turns[0]);
      ScheduleKeepsInv(job, Move(job, f, turns[0]), turns[1..]);
    }
  }

  // ----- No send blocks -----

  ghost predicate AllFinished(f: Fan) {
    forall i :: 0 <= i < |f.routines| ==> Finished(f.routines[i])
  }

  ghost predicate AtRest(job: Job, f: Fan)
    requires Shaped(job, f)
  {
    forall i: nat :: Move(job, f, i) == f
  }

  // Somebody is unfinished and nobody can move.
  ghost predicate Deadlocked(job: Job, f: Fan)
    requires Shaped(job, f)
  {
    !AllFinished(f) && AtRest(job, f)
  }

  // With a slot per failing candidate, every unfinished goroutine can always move.
  lemma UnfinishedCanMove(job: Job, f: Fan, i: nat)
    requires FanInv(job, f) && Failures(job, job.Size()) <= job.capacity
    requires i < job.Size() && !Finished(f.routines[i])
    ensures Move(job, f, i) != f
  {
    SentAtMostFailures(job, f, job.Size());
    assert f.routines[i] != Move(job, f, i).routines[i];
  }

  // Every run that keeps moving somebody comes to rest.
  lemma {:induction false} RunToRest(job: Job, f: Fan) returns (turns: seq<nat>)
    requires FanInv(job, f)
    ensures AtRest(job, Schedule(job, f, turns))
    decreases Work(f.routines, job.Size())
  {
    if i: nat :| Move(job, f, i) != f {
      MoveKeepsInv(job, f, i);
      var rest := RunToRest(job, Move(job, f, i));
      turns := [i] + rest;
      assert turns[1..] == rest;
    } else {
      turns := [];
      assert Schedule(job, f, turns) == f;
    }
  }

  // No schedule of the goroutines deadlocks.
  ghost predicate DeadlockFree(job: Job)
    requires job.Valid()
  {
    forall turns :: !Deadlocked(job, Schedule(job, Start(job), turns))
  }

  // With fewer slots, running until nobody can move is such a schedule.
  lemma ShortChannelDeadlocks(job: Job) returns (turns: seq<nat>)
    requires job.Valid() && Failures(job, job.Size()) > job.capacity
    ensures Deadlocked(job, Schedule(job, Start(job), turns))
  {
    StartHasInv(job);
    turns := RunToRest(job, Start(job));
    var f := Schedule(job, Start(job), turns);
    ScheduleKeepsInv(job, Start(job), turns);
    if AllFinished(f) {
      SentAtMostFailures(job, f, job.Size());
      assert false;
    }
  }

  // The fan-out is free of deadlock under every schedule exactly when the
  // channel has room for every candidate that fails.
  lemma DeadlockFreeExactlyWithRoom(job: Job)
    requires job.Valid()
    ensures DeadlockFree(job) <==> Failures(job, job.Size()) <= job.capacity
  {
    if Failures(job, job.Size()) <= job.capacity {
      StartHasInv(job);
      forall turns ensures !Deadlocked(job, Schedule(job, Start(job), turns)) {
        var f := Schedule(job, Start(job), turns);
        ScheduleKeepsInv(job, Start(job), turns);
        if !AllFinished(f) {
          var i :| 0 <= i < |f.routines| && !Finished(f.routines[i]);
          UnfinishedCanMove(job, f, i);
        }
      }
    } else {
      var turns := ShortChannelDeadlocks(job);
    }
  }

  // Score's channel has one slot per candidate, which is room enough.
  lemma OneSlotPerCandidateSuffices(job: Job)
    requires job.Valid() && job.capacity == job.Size()
    ensures DeadlockFree(job)
  {
    ScoredOrFailed(job, job.Size());
    DeadlockFreeExactlyWithRoom(job);
  }

  // ----- The result does not depend on the schedule -----

  // The loop after wg.Wait: keep the flagged slots, in candidate order.
  function Compact(results: seq<ScoredNode>, scored: seq<bool>, k: nat): seq<ScoredNode>
    requires k <= |results| && k <= |scored|
  {
    if k == 0 then [] else Compact(results, scored, k - 1) + (if scored[k - 1] then [results[k - 1]] else [])
  }

  lemma {:induction false} CompactIsScored(job: Job, f: Fan, k: nat)
    requires FanInv(job, f) && AllFinished(f) && k <= job.Size()
    ensures Compact(f.results, f.scored, k) == ScoredOf(job, k)
  {
    if k > 0 {
      CompactIsScored(job, f, k - 1);
      assert SlotInv(job, f, k - 1);
    }
  }

  // However the goroutines were scheduled, once all have finished the output is
  // the order-preserving filter of the candidates that answered, one error was
  // sent per other candidate, and together they are all of them.
  lemma ResultIgnoresSchedule(job: Job, turns: seq<nat>)
    requires job.Valid() && AllFinished(Schedule(job, Start(job), turns))
    ensures var f := Schedule(job, Start(job), turns);
            && Compact(f.results, f.scored, job.Size()) == ScoredOf(job, job.Size())
            && |f.errs| == Failures(job, job.Size())
            && |ScoredOf(job, job.Size())| + |f.errs| == job.Size()
  {
    StartHasInv(job);
    ScheduleKeepsInv(job, Start(job), turns);
    var f := Schedule(job, Start(job), turns);
    CompactIsScored(job, f, job.Size());
    SentAtMostFailures(job, f, job.Size());
    ScoredOrFailed(job, job.Size());
  }

  // ----- The scheduler's methods -----

  // The nodes below k with room for the task, in order.
  function WithRoom(t: Task, nodes: seq<Node>, k: nat): seq<Node>
    requires k <= |nodes|
  {
    if k == 0 then []
    else
      var n := nodes[k - 1];
      WithRoom(t, nodes, k - 1) + (if HasDiskRoom(t.disk, n.disk, n.diskAllocated) then [n] else [])
  }

  lemma {:induction false} WithRoomMembers(t: Task, nodes: seq<Node>, k: nat)
    requires k <= |nodes|
    ensures forall n :: n in WithRoom(t, nodes, k) <==> n in nodes[..k] && t.disk + n.diskAllocated <= n.disk
  {
    if k > 0 {
      WithRoomMembers(t, nodes, k - 1);
      assert nodes[..k] == nodes[..k - 1] + [nodes[k - 1]];
    }
  }

  // Entry e comes from index from[e]; the indices increase, and they are those of
  // all the nodes below k that have room.
  ghost predicate FiltersByRoom(t: Task, nodes: seq<Node>, k: nat, candidates: seq<Node>, from: seq<nat>)
    requires k <= |nodes|
  {
    && |from| == |candidates|
    && (forall e :: 0 <= e < |from| ==> from[e] < k && candidates[e] == nodes[from[e]])
    && (forall e, g :: 0 <= e < g < |from| ==> from[e] < from[g])
    && (forall i :: 0 <= i < k ==> (i in from <==> t.disk + nodes[i].diskAllocated <= nodes[i].disk))
  }

  lemma {:induction false} WithRoomFilters(t: Task, nodes: seq<Node>, k: nat) returns (from: seq<nat>)
    requires k <= |nodes|
    ensures FiltersByRoom(t, nodes, k, WithRoom(t, nodes, k), from)
  {
    from := [];
    if k > 0 {
      from := WithRoomFilters(t, nodes, k - 1);
      if t.disk + nodes[k - 1].diskAllocated <= nodes[k - 1].disk {
        from := from + [k - 1];
      }
    }
  }

  method SelectCandidateNodes(t: Task, nodes: seq<Node>) returns (candidates: seq<Node>, ghost from: seq<nat>)
    ensures candidates == WithRoom(t, nodes, |nodes|) && FiltersByRoom(t, nodes, |nodes|, candidates, from)
    ensures forall n :: n in candidates <==> n in nodes && t.disk + n.diskAllocated <= n.disk
  {
    candidates := [];
    for i := 0 to |nodes|
      invariant candidates == WithRoom(t, nodes, i)
    {
      if !HasDiskRoom(t.disk, nodes[i].disk, nodes[i].diskAllocated) {
        continue;
      }
      candidates := candidates + [nodes[i]];
    }
    WithRoomMembers(t, nodes, |nodes|);
    from := WithRoomFilters(t, nodes, |nodes|);
    assert nodes[..|nodes|] == nodes;
  }

  // Score's last loop.
  method KeepScored(results: array<ScoredNode>, scored: array<bool>) returns (out: seq<ScoredNode>)
    requires results.Length == scored.Length
    ensures out == Compact(results[..], scored[..], results.Length)
  {
    out := [];
    for i := 0 to results.Length
      invariant out == Compact(results[..], scored[..], i)
    {
      if scored[i] {
        out := out + [results[i]];
      }
    }
  }

  // Score, the runtime choosing which goroutine runs next. It terminates under
  // every choice, and None is the error return.
  method Score(job: Job) returns (scoredNodes: Option<seq<ScoredNode>>)
    requires job.Valid() && job.capacity == job.Size()
    ensures scoredNodes.None? <==> job.candidates != [] && ScoredOf(job, job.Size()) == []
    ensures scoredNodes.Some? ==> scoredNodes.value == ScoredOf(job, job.Size())
  {
    var n := job.Size();
    var results := new ScoredNode[n](_ => ZERO_NODE);
    var scored := new bool[n](_ => false);
    var routines: seq<Goroutine> := seq(n, _ => Fetching);
    var errs: seq<nat> := [];
    StartHasInv(job);
    ScoredOrFailed(job, n);
    assert Fan(routines, results[..], scored[..], errs) == Start(job);
    while exists i :: 0 <= i < n && !Finished(routines[i])
      invariant FanInv(job, Fan(routines, results[..], scored[..], errs))
      decreases Work(routines, n)
    {
      var i :| 0 <= i < n && !Finished(routines[i]);
      ghost var f := Fan(routines, results[..], scored[..], errs);
      UnfinishedCanMove(job, f, i);
      MoveKeepsInv(job, f, i);
      match routines[i] {
        case Fetching =>
          var score := job.At(i);
          routines := routines[i := if score.Some? then WritingResult(score.value) else SendingError];
        case SendingError =>
          if |errs| < job.capacity {
            errs := errs + [i];
            routines := routines[i := Reported];
          }
        case WritingResult(score) =>
          results[i] := ScoredNode(job.candidates[i], score);
          routines := routines[i := WritingFlag];
        case WritingFlag =>
          scored[i] := true;
          routines := routines[i := Done];
      }
      assert Fan(routines, results[..], scored[..], errs) == Move(job, f, i);
    }
    ghost var f := Fan(routines, results[..], scored[..], errs);
    CompactIsScored(job, f, n);
    SentAtMostFailures(job, f, n);
    var out := KeepScored(results, scored);
    scoredNodes := if |out| == 0 && |errs| > 0 then None else Some(out);
  }

  // ----- pickWorker -----

  // Candidate i answered with positive total memory.
  predicate Usable(job: Job, i: nat)
    requires job.Valid()
  {
    i < job.Size() && job.answers[i].Some? && job.answers[i].value.memTotal > 0
  }

  // Candidate i is the earliest cheapest of the usable ones.
  ghost predicate IsEarliestCheapest(job: Job, i: nat)
    requires job.Valid()
  {
    && Usable(job, i)
    && (forall j: nat :: Usable(job, j) ==> job.At(i).value <= job.At(j).value)
    && (forall j: nat :: Usable(job, j) && j < i ==> job.At(i).value < job.At(j).value)
  }

  lemma UsableScores(job: Job, i: nat)
    requires job.Valid() && i < job.Size()
    ensures Usable(job, i) <==> job.At(i).Some?
  {
  }

  // Where entry k of the output comes from, and that order is kept.
  lemma {:induction false} Origins(job: Job, k: nat) returns (from: seq<nat>)
    requires job.Valid() && k <= job.Size()
    ensures |from| == |ScoredOf(job, k)|
    ensures forall e :: 0 <= e < |from| ==>
              (from[e] < k && Usable(job, from[e]) && job.At(from[e]).Some?
               && ScoredOf(job, k)[e] == ScoredNode(job.candidates[from[e]], job.At(from[e]).value))
    ensures forall e, g :: 0 <= e < g < |from| ==> from[e] < from[g]
    ensures forall i :: 0 <= i < k && Usable(job, i) ==> i in from
  {
    if k == 0 {
      from := [];
    } else {
      from := Origins(job, k - 1);
      UsableScores(job, k - 1);
      if job.At(k - 1).Some? {
        from := from + [k - 1];
      }
    }
  }

  lemma LowestIsEarliestCheapest(job: Job, e: nat) returns (i: nat)
    requires job.Valid() && IsFirstLowest(ScoredOf(job, job.Size()), e)
    ensures IsEarliestCheapest(job, i) && ScoredOf(job, job.Size())[e].node == job.candidates[i]
  {
    var scored := ScoredOf(job, job.Size());
    var from := Origins(job, job.Size());
    i := from[e];
    forall j: nat | Usable(job, j)
      ensures job.At(i).value <= job.At(j).value && (j < i ==> job.At(i).value < job.At(j).value)
    {
      var g :| 0 <= g < |from| && from[g] == j;
      assert scored[g].score == job.At(j).value;
    }
  }

  // ----- What the answers say about the winner -----

  // Of two answers with the same total, a leaves at least as much memory as b, and
  // strictly more. A worker that reports more available than it has in total
  // wraps around and counts as more than full.
  predicate NoFuller(a: Node, sa: Stats, b: Node, sb: Stats) {
    if (sa.memAvailable <= sa.memTotal) == (sb.memAvailable <= sb.memTotal) then
      sa.memAvailable - a.memoryAllocated >= sb.memAvailable - b.memoryAllocated
    else sa.memAvailable <= sa.memTotal && a.memoryAllocated <= b.memoryAllocated
  }

  predicate Freer(a: Node, sa: Stats, b: Node, sb: Stats) {
    NoFuller(a, sa, b, sb) && !NoFuller(b, sb, a, sa)
  }

  // The CPU reading in percent, an unreadable CPU counting as fully busy.
  function CpuPercent(s: Stats): real { if s.cpuUsage < 0.0 then 100.0 else s.cpuUsage }

  // a beats b for a task asking for this much memory: nowhere worse, and somewhere
  // that counts better.
  predicate Beats(a: Node, sa: Stats, b: Node, sb: Stats, taskMemory: int) {
    && sa.memTotal == sb.memTotal
    && NoFuller(a, sa, b, sb) && sa.taskCount <= sb.taskCount && CpuPercent(sa) <= CpuPercent(sb)
    && (sa.taskCount < sb.taskCount || CpuPercent(sa) < CpuPercent(sb) || (Freer(a, sa, b, sb) && taskMemory > 0))
  }

  // What is used, by the two cases of the unsigned subtraction.
  lemma UsedMemory(s: Stats)
    ensures MemUsedKb(s) == if s.memAvailable <= s.memTotal then s.memTotal - s.memAvailable
                            else s.memTotal - s.memAvailable + 0x1_0000_0000_0000_0000
  {
  }

  lemma FreerUsesLess(a: Node, sa: Stats, b: Node, sb: Stats)
    requires sa.memTotal == sb.memTotal && NoFuller(a, sa, b, sb)
    ensures MemUsedKb(sa) + a.memoryAllocated <= MemUsedKb(sb) + b.memoryAllocated
    ensures Freer(a, sa, b, sb) ==> MemUsedKb(sa) + a.memoryAllocated < MemUsedKb(sb) + b.memoryAllocated
  {
    UsedMemory(sa);
    UsedMemory(sb);
  }

  lemma LessInReals(x: int, x': int, y: int, y': int)
    requires x + x' <= y + y'
    ensures x as real + x' as real <= y as real + y' as real
    ensures x + x' < y + y' ==> x as real + x' as real < y as real + y' as real
  {
  }

  lemma BeatingDominates(a: Node, sa: Stats, b: Node, sb: Stats, taskMemory: int)
    requires Beats(a, sa, b, sb, taskMemory)
    ensures Dominates(LoadOf(a, sa), LoadOf(b, sb), taskMemory as real)
  {
    FreerUsesLess(a, sa, b, sb);
    LessInReals(MemUsedKb(sa), a.memoryAllocated, MemUsedKb(sb), b.memoryAllocated);
    assert LoadOf(a, sa).memUsed <= LoadOf(b, sb).memUsed;
    assert LoadOf(a, sa).cpuLoad == CpuPercent(sa) / 100.0 && LoadOf(b, sb).cpuLoad == CpuPercent(sb) / 100.0;
  }

  lemma BeatingScoresLower(p: real -> real, t: Task, a: Node, sa: Stats, b: Node, sb: Stats)
    requires PowerLaws(p) && sa.memTotal > 0 && t.memory >= 0 && Beats(a, sa, b, sb, t.memory)
    ensures ScoreOf(p, t, a, Some(sa)).Some? && ScoreOf(p, t, b, Some(sb)).Some?
    ensures ScoreOf(p, t, a, Some(sa)).value < ScoreOf(p, t, b, Some(sb)).value
  {
    BeatingDominates(a, sa, b, sb, t.memory);
    DominatingScoresLower(p, LoadOf(a, sa), LoadOf(b, sb), t.memory as real);
  }

  // No usable candidate beats candidate i.
  ghost predicate Unbeaten(job: Job, i: nat)
    requires job.Valid() && Usable(job, i)
  {
    forall j: nat :: Usable(job, j) ==>
      !Beats(job.candidates[j], job.answers[j].value, job.candidates[i], job.answers[i].value, job.task.memory)
  }

  // The winner is never beaten, and its score is positive.
  lemma WinnerIsUnbeaten(job: Job, i: nat)
    requires job.Valid() && PowerLaws(job.p) && job.task.memory >= 0 && IsEarliestCheapest(job, i)
    ensures Unbeaten(job, i)
    ensures job.At(i).value > 0.0
  {
    ScoreIsPositive(job.p, LoadOf(job.candidates[i], job.answers[i].value), job.task.memory as real);
    forall j: nat | Usable(job, j)
      ensures !Beats(job.candidates[j], job.answers[j].value, job.candidates[i], job.answers[i].value, job.task.memory)
    {
      if Beats(job.candidates[j], job.answers[j].value, job.candidates[i], job.answers[i].value, job.task.memory) {
        BeatingScoresLower(job.p, job.task, job.candidates[j], job.answers[j].value, job.candidates[i], job.answers[i].value);
      }
    }
  }

  method Pick(scored: seq<ScoredNode>) returns (picked: Option<Node>)
    ensures picked.None? <==> scored == []
    ensures picked.Some? ==> exists k: nat :: IsFirstLowest(scored, k) && scored[k].node == picked.value
  {
    picked := LowestScoringNode(scored);
  }

  // Manager.pickWorker with this scheduler; answers are the candidates' own.
  // Sound and complete: a node comes back exactly when some candidate is
  // usable, and it is the earliest cheapest usable one.
  method PickWorker(p: real -> real, t: Task, nodes: seq<Node>, answers: seq<Option<Stats>>)
      returns (picked: Option<Node>, ghost job: Job)
    requires |answers| == |WithRoom(t, nodes, |nodes|)|
    ensures job == Job(p, t, WithRoom(t, nodes, |nodes|), answers, |answers|)
    ensures picked.Some? <==> exists i: nat :: Usable(job, i)
    ensures picked.Some? ==> exists i: nat :: IsEarliestCheapest(job, i) && picked.value == job.candidates[i]
    ensures picked.Some? ==> picked.value in nodes && t.disk + picked.value.diskAllocated <= picked.value.disk
    ensures picked.Some? && PowerLaws(p) && t.memory >= 0 ==>
              exists i: nat :: Usable(job, i) && picked.value == job.candidates[i] && Unbeaten(job, i)
  {
    var candidates, from := SelectCandidateNodes(t, nodes);
    var call := Job(p, t, candidates, answers, |answers|);
    job := call;
    if candidates == [] {
      return None, job;
    }
    var scored := Score(call);
    ghost var origins := Origins(job, job.Size());
    if scored.None? || scored.value == [] {
      picked := None;
      assert origins == [];
      return;
    }
    picked := Pick(scored.value);
    ghost var e: nat :| IsFirstLowest(scored.value, e) && scored.value[e].node == picked.value;
    ghost var i := LowestIsEarliestCheapest(job, e);
    if PowerLaws(p) && t.memory >= 0 {
      WinnerIsUnbeaten(job, i);
    }
  }
}
