// The interleaved worker with any number of RunTasks loops: what an update pass
// writes is an answer the Docker daemon gave, the queue is first in, first out,
// and the loop bodies are runs.

module WorkerInspection {
  import opened Options
  import opened Tasks
  import opened Store
  import opened Queues
  import opened WorkerProtocol
  import opened WorkerOutcomes
  import opened WorkerSystem

  ghost predicate PassesInv(f: Fleet) {
    Keyed(f.s.db) && forall j :: 0 <= j < |f.passes| ==> PassInv(f.passes[j], f.s.db)
  }

  lemma RunnerOnlyAdds(c: RunnerConf, io: RunnerIo)
    requires Keyed(c.s.db)
    ensures Keyed(RunnerStep(c, io).s.db) && c.s.db.Keys <= RunnerStep(c, io).s.db.Keys
  {
  }

  lemma PassesStep(f: Fleet, a: Action)
    requires PassesInv(f)
    ensures PassesInv(Step(f, a)) && |Step(f, a).passes| == |f.passes|
  {
    var f' := Step(f, a);
    if a.Runner? && a.i < |f.runners| {
      RunnerOnlyAdds(RunnerConf(f.s, f.runners[a.i]), a.io);
      PassInvIsMonotonic(f, f'.s.db);
    } else if a.Pass? && a.j < |f.passes| {
      var c := PassConf(f.s, f.passes[a.j]);
      assert PassInv(f.passes[a.j], f.s.db);
      PassMoves(c, a.daemon);
      PassInvIsMonotonic(f, f'.s.db);
    } else {
      assert f'.s.db == f.s.db;
      PassInvIsMonotonic(f, f.s.db);
    }
  }

  lemma {:induction false} PassesRun(f: Fleet, acts: seq<Action>)
    requires PassesInv(f)
    ensures PassesInv(Run(f, acts)) && |Run(f, acts).passes| == |f.passes|
    decreases |acts|
  {
    if acts == [] {
    } else {
      PassesStep(f, acts[0]);
      PassesRun(Step(f, acts[0]), acts[1..]);
    }
  }

  lemma {:induction false} RunSnoc(f: Fleet, acts: seq<Action>, a: Action)
    ensures Run(f, acts + [a]) == Step(Run(f, acts), a)
    decreases |acts|
  {
    if acts == [] {
      assert ([] + [a])[1..] == [];
    } else {
      assert (acts + [a])[1..] == acts[1..] + [a];
      RunSnoc(Step(f, acts[0]), acts[1..], a);
    }
  }

  // In this step pass j asks the daemon about t, which it had listed as Running,
  // and the daemon answers.
  predicate Asks(f: Fleet, a: Action, j: nat, t: Task, rest: seq<Task>) {
    && a.Pass? && a.j == j && a.daemon.Some? && t.state == Running
    && j < |f.passes| && f.passes[j] == Walking([t] + rest)
  }

  // Behind every merge in hand stands one earlier answer about its task.
  lemma {:induction false} AnswerBehindMerge(f: Fleet, acts: seq<Action>, j: nat) returns (k: nat)
    requires PassesInv(f) && j < |f.passes| && !f.passes[j].Merging?
    requires |Run(f, acts).passes| == |f.passes| && Run(f, acts).passes[j].Merging?
    ensures var pc := Run(f, acts).passes[j];
            && k < |acts| && Asks(Run(f, acts[..k]), acts[k], j, pc.t, pc.rest)
            && pc.c == Inspected(acts[k].daemon.value.ports, acts[k].daemon.value.exited)
    decreases |acts|
  {
    var n := |acts| - 1;
    var before, a := acts[..n], acts[n];
    assert acts == before + [a];
    RunSnoc(f, before, a);
    PassesRun(f, before);
    var r := Run(f, before);
    if a.Pass? && a.j == j {
      assert PassInv(r.passes[j], r.s.db);
      assert r.passes[j].Walking?;
      assert r.passes[j].todo == [r.passes[j].todo[0]] + r.passes[j].todo[1..];
      k := n;
    } else {
      assert Run(f, acts).passes[j] == r.passes[j];
      k := AnswerBehindMerge(f, before, j);
      assert before[..k] == acts[..k];
    }
  }

  // Whatever happened in between, the write puts that answer into the record
  // stored now, and only if it still says Running.
  lemma MergeWritesTheAnswer(f: Fleet, acts: seq<Action>, j: nat, daemon: Option<Container>) returns (k: nat)
    requires Quiet(f) && j < |f.passes|
    requires |Run(f, acts).passes| == |f.passes| && Run(f, acts).passes[j].Merging?
    ensures var r := Run(f, acts);
            var t := r.passes[j].t;
            && k < |acts| && Asks(Run(f, acts[..k]), acts[k], j, t, r.passes[j].rest) && t.id in r.s.db
            && Step(r, Pass(j, daemon)).s == r.s.(db := r.s.db[t.id := Observed(r.s.db[t.id], acts[k].daemon)])
  {
    PassesRun(f, acts);
    k := AnswerBehindMerge(f, acts, j);
    var r := Run(f, acts);
    assert PassInv(r.passes[j], r.s.db);
    UpsertOfStored(r.s, r.passes[j].t, r.passes[j].c);
  }

  // ----- The queue -----

  // What a step puts on the queue, and what it takes off.
  function Added(a: Action): seq<Task> {
    if a.Enqueue? then [a.t] else []
  }

  function TakenOff(f: Fleet, a: Action): seq<Task> {
    if a.Runner? && a.i < |f.runners| && f.runners[a.i].Idle? && f.s.queue != [] then [f.s.queue[0]] else []
  }

  function AddedAlong(acts: seq<Action>): seq<Task> {
    if acts == [] then [] else Added(acts[0]) + AddedAlong(acts[1..])
  }

  function TakenAlong(f: Fleet, acts: seq<Action>): seq<Task>
    decreases |acts|
  {
    if acts == [] then [] else TakenOff(f, acts[0]) + TakenAlong(Step(f, acts[0]), acts[1..])
  }

  lemma QueueStep(f: Fleet, a: Action)
    ensures f.s.queue + Added(a) == TakenOff(f, a) + Step(f, a).s.queue
  {
  }

  // First in, first out over every run of any loops: no request is lost, repeated
  // or overtaken.
  lemma {:induction false} QueueIsFifo(f: Fleet, acts: seq<Action>)
    ensures f.s.queue + AddedAlong(acts) == TakenAlong(f, acts) + Run(f, acts).s.queue
    decreases |acts|
  {
    if acts == [] {
    } else {
      var f' := Step(f, acts[0]);
      QueueStep(f, acts[0]);
      QueueIsFifo(f', acts[1..]);
      Chain(f.s.queue, Added(acts[0]), TakenOff(f, acts[0]), f'.s.queue,
            AddedAlong(acts[1..]), TakenAlong(f', acts[1..]), Run(f', acts[1..]).s.queue);
    }
  }

  // ----- Loop bodies are runs -----

  lemma {:induction false} RunnerAlone(f: Fleet, i: nat, io: RunnerIo) returns (acts: seq<Action>)
    requires i < |f.runners|
    ensures Run(f, acts) == f.(s := FinishTask(RunnerConf(f.s, f.runners[i]), io), runners := f.runners[i := Idle])
    ensures forall a :: a in acts ==> a == Runner(i, io)
    decreases RunnerLeft(f.runners[i])
  {
    if f.runners[i].Idle? {
      acts := [];
      assert f.runners[i := Idle] == f.runners;
    } else {
      var f' := Step(f, Runner(i, io));
      var rest := RunnerAlone(f', i, io);
      acts := [Runner(i, io)] + rest;
      assert acts[1..] == rest;
      assert f'.runners[i := Idle] == f.runners[i := Idle];
    }
  }

  // The body of RunTask is a run of one loop's steps.
  lemma RunTaskIsARun(f: Fleet, i: nat, io: RunnerIo) returns (acts: seq<Action>)
    requires i < |f.runners| && f.runners[i].Idle?
    ensures Run(f, acts) == f.(s := RunTaskAlone(f.s, io))
    ensures forall a :: a in acts ==> a == Runner(i, io)
  {
    var f' := Step(f, Runner(i, io));
    var rest := RunnerAlone(f', i, io);
    acts := [Runner(i, io)] + rest;
    assert acts[1..] == rest;
    assert f'.runners[i := Idle] == f.runners;
  }

  lemma {:induction false} PassAlone(f: Fleet, j: nat, daemon: Uuid -> Option<Container>) returns (acts: seq<Action>)
    requires j < |f.passes|
    ensures Run(f, acts) == f.(s := FinishPass(PassConf(f.s, f.passes[j]), daemon), passes := f.passes[j := Resting])
    ensures forall a :: a in acts ==> a.Pass? && a.j == j
    decreases PassLeft(f.passes[j])
  {
    if f.passes[j].Resting? {
      acts := [];
      assert f.passes[j := Resting] == f.passes;
    } else {
      var a := Pass(j, daemon(Current(f.passes[j])));
      var f' := Step(f, a);
      var rest := PassAlone(f', j, daemon);
      acts := [a] + rest;
      assert acts[1..] == rest;
      assert f'.passes[j := Resting] == f.passes[j := Resting];
    }
  }

  // So is a whole update pass, its listing first.
  lemma UpdatePassIsARun(f: Fleet, j: nat, listing: seq<Task>, daemon: Uuid -> Option<Container>) returns (acts: seq<Action>)
    requires j < |f.passes| && f.passes[j].Resting? && IsListing(listing, f.s.db)
    ensures acts != [] && acts[0] == List(j, listing) && forall a :: a in acts[1..] ==> a.Pass? && a.j == j
    ensures Run(f, acts) == f.(s := FinishPass(PassConf(f.s, Walking(listing)), daemon))
  {
    var f' := Step(f, List(j, listing));
    var rest := PassAlone(f', j, daemon);
    acts := [List(j, listing)] + rest;
    assert acts[1..] == rest;
    assert f'.passes[j := Resting] == f.passes;
  }
}
