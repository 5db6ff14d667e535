// What the two schedulers share (internal/scheduler/scheduler.go,
// internal/scheduler/pure.go), and the round-robin one
// (internal/scheduler/roundrobin.go).

module Scoring {
  import opened Options
  import opened Nodes

  datatype ScoredNode = ScoredNode(node: Node, score: real)

  // k is the earliest entry with the greatest score.
  ghost predicate IsFirstHighest(scored: seq<ScoredNode>, k: nat) {
    && k < |scored|
    && (forall j :: 0 <= j < |scored| ==> scored[j].score <= scored[k].score)
    && (forall j :: 0 <= j < k ==> scored[j].score < scored[k].score)
  }

  // k is the earliest entry with the smallest score.
  ghost predicate IsFirstLowest(scored: seq<ScoredNode>, k: nat) {
    && k < |scored|
    && (forall j :: 0 <= j < |scored| ==> scored[k].score <= scored[j].score)
    && (forall j :: 0 <= j < k ==> scored[k].score < scored[j].score)
  }

  method HighestScoringNode(scored: seq<ScoredNode>) returns (best: Option<Node>)
    ensures best.None? <==> scored == []
    ensures best.Some? ==> exists k: nat :: IsFirstHighest(scored, k) && scored[k].node == best.value
  {
    if scored == [] {
      return None;
    }
    var top := scored[0];
    ghost var at := 0;
    for i := 1 to |scored|
      invariant 0 <= at < i && scored[at] == top
      invariant forall j :: 0 <= j < i ==> scored[j].score <= top.score
      invariant forall j :: 0 <= j < at ==> scored[j].score < top.score
    {
      if scored[i].score > top.score {
        top := scored[i];
        at := i;
      }
    }
    assert IsFirstHighest(scored, at);
    best := Some(top.node);
  }

  method LowestScoringNode(scored: seq<ScoredNode>) returns (best: Option<Node>)
    ensures best.None? <==> scored == []
    ensures best.Some? ==> exists k: nat :: IsFirstLowest(scored, k) && scored[k].node == best.value
  {
    if scored == [] {
      return None;
    }
    var top := scored[0];
    ghost var at := 0;
    for i := 1 to |scored|
      invariant 0 <= at < i && scored[at] == top
      invariant forall j :: 0 <= j < i ==> scored[j].score >= top.score
      invariant forall j :: 0 <= j < at ==> scored[j].score > top.score
    {
      if scored[i].score < top.score {
        top := scored[i];
        at := i;
      }
    }
    assert IsFirstLowest(scored, at);
    best := Some(top.node);
  }
}

module RoundRobin {
  import opened Options
  import opened Nodes
  import opened Scoring

  const INT_MIN := -0x8000_0000_0000_0000
  const INT_MAX := 0x7FFF_FFFF_FFFF_FFFF

  predicate FitsInt(x: int) { INT_MIN <= x <= INT_MAX }

  // Go's int addition and remainder: wrap at 64 bits, truncate toward zero.
  function WrappedSucc(x: int): int { if x == INT_MAX then INT_MIN else x + 1 }
  function GoRem(a: int, b: int): int
    requires b > 0
  {
    if a >= 0 then a % b else -((-a) % b)
  }

  function NextWorkerIndex(lastWorker: int, nodeCount: int): int {
    if nodeCount <= 0 then -1
    else
      var next := GoRem(WrappedSucc(lastWorker), nodeCount);
      if next < 0 then next + nodeCount else next
  }

  lemma MultipleIsAtLeast(b: int, d: int)
    requires b > 0 && d > 0
    ensures b * d >= b
  {
  }

  lemma QuotientIsUnique(b: int, q: int, r: int, q': int, r': int)
    requires b > 0 && b * q + r == b * q' + r' && 0 <= r < b && 0 <= r' < b
    ensures q == q' && r == r'
  {
    assert b * (q - q') == b * q - b * q' && b * (q' - q) == b * q' - b * q;
    if q > q' {
      MultipleIsAtLeast(b, q - q');
    } else if q < q' {
      MultipleIsAtLeast(b, q' - q);
    }
  }

  lemma RemainderIsUnique(a: int, b: int, q: int, r: int)
    requires b > 0 && a == b * q + r && 0 <= r < b
    ensures a / b == q && a % b == r
  {
    QuotientIsUnique(b, q, r, a / b, a % b);
  }

  lemma NegativeRemainder(a: int, b: int)
    requires a < 0 < b
    ensures a % b == if (-a) % b == 0 then 0 else b - (-a) % b
  {
    var q, r := (-a) / b, (-a) % b;
    assert a == b * (-q) - r;
    if r == 0 {
      RemainderIsUnique(a, b, -q, 0);
    } else {
      assert b * (-q - 1) == b * (-q) - b;
      RemainderIsUnique(a, b, -q - 1, b - r);
    }
  }

  // The truncated remainder with its correction is the Euclidean one, for any
  // cursor, even one whose successor wraps around; so the index is in range.
  lemma NextIsEuclidean(lastWorker: int, nodeCount: int)
    requires FitsInt(lastWorker) && nodeCount > 0
    ensures NextWorkerIndex(lastWorker, nodeCount) == WrappedSucc(lastWorker) % nodeCount
    ensures 0 <= NextWorkerIndex(lastWorker, nodeCount) < nodeCount
    ensures lastWorker < INT_MAX ==> NextWorkerIndex(lastWorker, nodeCount) == (lastWorker + 1) % nodeCount
    ensures lastWorker == INT_MAX ==> NextWorkerIndex(lastWorker, nodeCount) == INT_MIN % nodeCount
  {
    var a := WrappedSucc(lastWorker);
    if a < 0 {
      NegativeRemainder(a, nodeCount);
    }
  }

  method ScoreNodes(nodes: seq<Node>, selected: int) returns (scored: seq<ScoredNode>)
    ensures |scored| == |nodes|
    ensures forall i :: 0 <= i < |nodes| ==> scored[i] == ScoredNode(nodes[i], if i == selected then 1.0 else 0.0)
  {
    scored := [];
    for idx := 0 to |nodes|
      invariant |scored| == idx
      invariant forall i :: 0 <= i < idx ==> scored[i] == ScoredNode(nodes[i], if i == selected then 1.0 else 0.0)
    {
      var score := 0.0;
      if idx == selected {
        score := 1.0;
      }
      scored := scored + [ScoredNode(nodes[idx], score)];
    }
  }

  class RoundRobinScheduler {
    var lastWorker: int

    constructor ()
      ensures lastWorker == 0
    {
      lastWorker := 0;
    }

    // Exactly the node whose turn it is scores 1; without nodes the cursor stays.
    method Score(nodes: seq<Node>) returns (scored: seq<ScoredNode>)
      requires FitsInt(lastWorker) && |nodes| <= INT_MAX
      modifies this
      ensures FitsInt(lastWorker) && |scored| == |nodes|
      ensures nodes == [] ==> lastWorker == old(lastWorker)
      ensures nodes != [] ==> lastWorker == NextWorkerIndex(old(lastWorker), |nodes|) && 0 <= lastWorker < |nodes|
      ensures forall i :: 0 <= i < |nodes| ==> scored[i] == ScoredNode(nodes[i], if i == lastWorker then 1.0 else 0.0)
    {
      var next := NextWorkerIndex(lastWorker, |nodes|);
      if next < 0 {
        if nodes != [] {
          NextIsEuclidean(lastWorker, |nodes|);
        }
        return [];
      }
      NextIsEuclidean(lastWorker, |nodes|);
      lastWorker := next;
      scored := ScoreNodes(nodes, next);
    }

    method Pick(scored: seq<ScoredNode>) returns (picked: Option<Node>)
      ensures picked.None? <==> scored == []
      ensures picked.Some? ==> exists k: nat :: IsFirstHighest(scored, k) && scored[k].node == picked.value
    {
      picked := HighestScoringNode(scored);
    }

    // Manager.pickWorker with this scheduler: score, then pick.
    method PickWorker(nodes: seq<Node>) returns (picked: Option<Node>)
      requires FitsInt(lastWorker) && |nodes| <= INT_MAX
      modifies this
      ensures FitsInt(lastWorker)
      ensures nodes == [] ==> picked.None? && lastWorker == old(lastWorker)
      ensures nodes != [] ==> 0 <= lastWorker < |nodes| && picked == Some(nodes[lastWorker])
      ensures nodes != [] ==> lastWorker == NextWorkerIndex(old(lastWorker), |nodes|)
    {
      if nodes == [] {
        return None;
      }
      var scored := Score(nodes);
      assert scored[lastWorker].score == 1.0;
      picked := Pick(scored);
    }
  }

  // ----- Rounds over node sets of changing size -----

  // The cursor after a round on n nodes.
  function Advance(cursor: int, n: nat): int {
    if n == 0 then cursor else NextWorkerIndex(cursor, n)
  }

  // Each round's winner, None when there were no nodes.
  function Rounds(cursor: int, sizes: seq<nat>): seq<Option<int>>
    decreases |sizes|
  {
    if sizes == [] then []
    else
      var next := Advance(cursor, sizes[0]);
      [if sizes[0] == 0 then None else Some(next)] + Rounds(next, sizes[1..])
  }

  function Winners(results: seq<Option<int>>): seq<int> {
    if results == [] then []
    else (if results[0].Some? then [results[0].value] else []) + Winners(results[1..])
  }

  function NonEmpty(sizes: seq<nat>): seq<nat> {
    if sizes == [] then [] else (if sizes[0] == 0 then [] else [sizes[0]]) + NonEmpty(sizes[1..])
  }

  // However the node set shrinks and grows, every round with nodes has a winner
  // and it is one of them.
  lemma {:induction false} WinnersAreInRange(cursor: int, sizes: seq<nat>)
    requires FitsInt(cursor) && forall k :: 0 <= k < |sizes| ==> sizes[k] <= INT_MAX
    ensures |Rounds(cursor, sizes)| == |sizes|
    ensures forall k :: 0 <= k < |sizes| ==>
              match Rounds(cursor, sizes)[k] case Some(w) => 0 <= w < sizes[k] case None => sizes[k] == 0
    decreases |sizes|
  {
    if sizes == [] {
    } else {
      if sizes[0] > 0 {
        NextIsEuclidean(cursor, sizes[0]);
      }
      WinnersAreInRange(Advance(cursor, sizes[0]), sizes[1..]);
    }
  }

  // Rounds without nodes leave no trace.
  lemma {:induction false} EmptyRoundsLeaveNoTrace(cursor: int, sizes: seq<nat>)
    ensures Winners(Rounds(cursor, sizes)) == Winners(Rounds(cursor, NonEmpty(sizes)))
    decreases |sizes|
  {
    if sizes == [] {
    } else {
      var next := Advance(cursor, sizes[0]);
      EmptyRoundsLeaveNoTrace(next, sizes[1..]);
      assert Rounds(cursor, sizes)[1..] == Rounds(next, sizes[1..]);
      if sizes[0] == 0 {
        assert NonEmpty(sizes) == NonEmpty(sizes[1..]);
        assert Rounds(cursor, sizes)[0] == None;
      } else {
        assert Rounds(cursor, sizes)[0] == Some(next);
        assert NonEmpty(sizes)[0] == sizes[0] && NonEmpty(sizes)[1..] == NonEmpty(sizes[1..]);
        assert Rounds(cursor, NonEmpty(sizes))[0] == Some(next);
        assert Rounds(cursor, NonEmpty(sizes))[1..] == Rounds(next, NonEmpty(sizes[1..]));
      }
    }
  }

  // ----- Fairness on a fixed node set -----

  // The winner of the round after m rounds on n nodes.
  function WinnerAfter(cursor: int, n: nat, m: nat): int {
    if m == 0 then NextWorkerIndex(cursor, n) else NextWorkerIndex(WinnerAfter(cursor, n, m - 1), n)
  }

  // How many of the first m rounds index k wins.
  function Wins(cursor: int, n: nat, k: nat, m: nat): nat {
    if m == 0 then 0 else Wins(cursor, n, k, m - 1) + (if WinnerAfter(cursor, n, m - 1) == k then 1 else 0)
  }

  // How far round the ring k is from the first winner.
  function Distance(first: int, k: int, n: int): int {
    if k >= first then k - first else k - first + n
  }

  // A cursor inside the ring moves to its neighbour.
  lemma NextOnRing(w: int, n: nat)
    requires 0 <= w < n <= INT_MAX
    ensures NextWorkerIndex(w, n) == if w + 1 == n then 0 else w + 1
  {
    NextIsEuclidean(w, n);
    if w + 1 == n {
      RemainderIsUnique(w + 1, n, 1, 0);
    } else {
      RemainderIsUnique(w + 1, n, 0, w + 1);
    }
  }

  // Where r places on from the first winner is.
  function PlaceOnRing(first: int, r: int, n: int): int {
    if first + r < n then first + r else first + r - n
  }

  lemma NextPlace(w: int, first: int, r: int, n: nat)
    requires 0 <= first < n <= INT_MAX && 0 <= r < n && w == PlaceOnRing(first, r, n)
    ensures NextWorkerIndex(w, n) == if r + 1 == n then first else PlaceOnRing(first, r + 1, n)
  {
    NextOnRing(w, n);
  }

  lemma OneLapLess(n: nat, laps: nat)
    requires laps > 0
    ensures n * laps == n * (laps - 1) + n
  {
  }

  // The winner r places into lap number laps.
  lemma {:induction false} WinnerInLap(cursor: int, n: nat, laps: nat, r: nat, m: nat)
    requires FitsInt(cursor) && 0 < n <= INT_MAX && m == n * laps + r && r < n
    ensures var first := WinnerAfter(cursor, n, 0);
            0 <= first < n && WinnerAfter(cursor, n, m) == PlaceOnRing(first, r, n)
    decreases m
  {
    NextIsEuclidean(cursor, n);
    var first := WinnerAfter(cursor, n, 0);
    if r > 0 {
      WinnerInLap(cursor, n, laps, r - 1, m - 1);
      NextPlace(WinnerAfter(cursor, n, m - 1), first, r - 1, n);
    } else if laps > 0 {
      OneLapLess(n, laps);
      WinnerInLap(cursor, n, laps - 1, n - 1, m - 1);
      NextPlace(WinnerAfter(cursor, n, m - 1), first, n - 1, n);
    }
  }

  // After laps full laps and r further rounds, k has won once a lap, and once
  // more when its turn in the unfinished lap is over.
  lemma {:induction false} Laps(cursor: int, n: nat, k: nat, m: nat) returns (laps: nat, r: nat)
    requires FitsInt(cursor) && 0 < n <= INT_MAX && k < n
    ensures m == n * laps + r && r < n
    ensures Wins(cursor, n, k, m) == laps + (if r > Distance(WinnerAfter(cursor, n, 0), k, n) then 1 else 0)
    decreases m
  {
    WinnerInLap(cursor, n, 0, 0, 0);
    if m == 0 {
      laps, r := 0, 0;
    } else {
      var l, s := Laps(cursor, n, k, m - 1);
      WinnerInLap(cursor, n, l, s, m - 1);
      if s + 1 == n {
        laps, r := l + 1, 0;
        assert n * (l + 1) == n * l + n;
      } else {
        laps, r := l, s + 1;
      }
    }
  }

  lemma FloorAndCeil(m: nat, n: nat, laps: nat, r: nat)
    requires m == n * laps + r && r < n
    ensures m / n == laps && (m + n - 1) / n == (if r > 0 then laps + 1 else laps)
  {
    RemainderIsUnique(m, n, laps, r);
    assert n * (laps + 1) == n * laps + n;
    if r > 0 {
      RemainderIsUnique(m + n - 1, n, laps + 1, r - 1);
    } else {
      RemainderIsUnique(m + n - 1, n, laps, n - 1);
    }
  }

  // From any cursor, over any m rounds on the same n nodes, every index wins
  // floor(m/n) or ceil(m/n) times.
  lemma RoundRobinIsFair(cursor: int, n: nat, k: nat, m: nat)
    requires FitsInt(cursor) && 0 < n <= INT_MAX && k < n
    ensures Wins(cursor, n, k, m) == m / n || Wins(cursor, n, k, m) == (m + n - 1) / n
  {
    var laps, r := Laps(cursor, n, k, m);
    FloorAndCeil(m, n, laps, r);
  }

  // Any n consecutive rounds give every index exactly one win.
  lemma EveryLapIsComplete(cursor: int, n: nat, k: nat, start: nat)
    requires FitsInt(cursor) && 0 < n <= INT_MAX && k < n
    ensures Wins(cursor, n, k, start + n) == Wins(cursor, n, k, start) + 1
  {
    var laps, r := Laps(cursor, n, k, start);
    var laps', r' := Laps(cursor, n, k, start + n);
    assert n * (laps + 1) == n * laps + n;
    RemainderIsUnique(start + n, n, laps + 1, r);
    RemainderIsUnique(start + n, n, laps', r');
  }

  lemma {:induction false} WinnerShift(cursor: int, n: nat, j: nat)
    ensures WinnerAfter(NextWorkerIndex(cursor, n), n, j) == WinnerAfter(cursor, n, j + 1)
    decreases j
  {
    if j == 0 {
    } else {
      WinnerShift(cursor, n, j - 1);
    }
  }

  // The rounds counted here are the scheduler's own.
  lemma {:induction false} RoundsAreWinners(cursor: int, n: nat, sizes: seq<nat>, j: nat)
    requires n > 0 && j < |sizes| && forall i :: 0 <= i < |sizes| ==> sizes[i] == n
    ensures |Rounds(cursor, sizes)| == |sizes| && Rounds(cursor, sizes)[j] == Some(WinnerAfter(cursor, n, j))
    decreases |sizes|
  {
    var next := NextWorkerIndex(cursor, n);
    assert Advance(cursor, sizes[0]) == next;
    assert Rounds(cursor, sizes) == [Some(next)] + Rounds(next, sizes[1..]);
    if |sizes| > 1 {
      RoundsAreWinners(next, n, sizes[1..], if j == 0 then 0 else j - 1);
      if j > 0 {
        WinnerShift(cursor, n, j - 1);
      }
    }
  }
}
