/** The most tasks that can be outstanding at once are those of the heaviest antichain, so the peak
    demand is a bound exactly when no antichain creates more tasks. */
module PeakReached {
  import opened Counting
  import opened Scheduler
  import opened SchedulerInvariant
  import opened SchedulerSteps
  import opened SchedulerTheorems
  import opened SchedulerPeak
  import PeakDemand

  // ---------------------------------------------------------------- carrying out some pipelines only

  /** No task of a pipeline outside `front` has been taken from the queue. */
  predicate Parked(g: Graph, s: State, front: set<nat>) {
    && Sized(g, s) && !s.error
    && (forall t | 0 <= t < |s.tasks| && s.tasks[t].pipeline !in front :: s.tasks[t].at.Held? || s.tasks[t].at.Queued?)
    && forall p: nat | p < |g.threads| && p !in front && s.starts[p] == 1 :: s.remaining[p] == g.threads[p]
  }

  /** Every task of `front` has finished and nothing else has begun. */
  predicate Settled(s: State, front: set<nat>) {
    forall t | 0 <= t < |s.tasks| ::
      s.tasks[t].at.Finished? || (s.tasks[t].at.Queued? && s.tasks[t].pipeline !in front)
  }

  lemma SeedParked(g: Graph, front: set<nat>)
    requires GraphOk(g)
    ensures Parked(g, Init(g), front)
  {
    InitInv(g);
    SeedShape(g, |g.threads|);
    forall t | 0 <= t < |Init(g).tasks| ensures Init(g).tasks[t].at.Queued? {
      assert Seeded(g, |g.threads|, Init(g).tasks[t]);
    }
  }

  lemma StepParked(g: Graph, workers: nat, s: State, a: Step, front: set<nat>)
    requires GraphOk(g) && Inv(g, s) && Parked(g, s, front) && Enabled(g, workers, s, a) && !Throws(a)
    requires a.Dequeue? ==> s.tasks[a.t].pipeline in front
    ensures Parked(g, Apply(g, workers, s, a), front)
  {
    StepKeeps(g, workers, s, a);
    hide Inv;
  }

  /** Take only tasks of `front` until none is left. */
  lemma {:induction false} DriveFront(g: Graph, workers: nat, s: State, front: set<nat>) returns (run: seq<Step>)
    requires GraphOk(g) && Inv(g, s) && Parked(g, s, front) && workers > 0
    ensures CanRun(g, workers, s, run)
    ensures var s' := After(g, workers, s, run); Inv(g, s') && Parked(g, s', front) && Settled(s', front)
    decreases Measure(g, s), 1
  {
    if t :| 0 <= t < |s.tasks| && OnWorker(s.tasks[t]) {
      var a := WorkerCanStep(g, workers, s, t);
      run := DriveOn(g, workers, s, front, a);
    } else if t :| 0 <= t < |s.tasks| && s.tasks[t].at.Queued? && s.tasks[t].pipeline in front {
      CountNone(s.tasks, OnWorker);
      run := DriveOn(g, workers, s, front, Dequeue(t));
    } else {
      forall t | 0 <= t < |s.tasks| ensures !s.tasks[t].at.Held? {
        assert TaskOk(g, s, t);
      }
      run := [];
    }
  }

  lemma {:induction false} DriveOn(g: Graph, workers: nat, s: State, front: set<nat>, a: Step) returns (run: seq<Step>)
    requires GraphOk(g) && Inv(g, s) && Parked(g, s, front) && workers > 0 && Enabled(g, workers, s, a) && !Throws(a)
    requires a.Dequeue? ==> s.tasks[a.t].pipeline in front
    ensures CanRun(g, workers, s, run)
    ensures var s' := After(g, workers, s, run); Inv(g, s') && Parked(g, s', front) && Settled(s', front)
    decreases Measure(g, s), 0
  {
    StepKeeps(g, workers, s, a);
    StepShrinks(g, workers, s, a);
    StepParked(g, workers, s, a, front);
    var rest := DriveFront(g, workers, Apply(g, workers, s, a), front);
    run := [a] + rest;
    assert run[1..] == rest;
  }

  // ---------------------------------------------------------------- the heaviest antichain is reached

  ghost predicate Awaited(deps: PeakDemand.Lists, a: set<nat>, p: nat) {
    exists q :: q in a && PeakDemand.Reaches(deps, q, p)
  }

  /** Everything some pipeline of `a` waits on. */
  ghost function Front(deps: PeakDemand.Lists, a: set<nat>): set<nat> {
    set p: nat | p < |deps| && Awaited(deps, a, p)
  }

  lemma {:induction false} PathFalls(deps: PeakDemand.Lists, rank: seq<nat>, path: seq<nat>)
    requires PeakDemand.Ranked(deps, rank) && PeakDemand.IsPath(deps, path)
    ensures rank[path[|path| - 1]] < rank[path[0]]
    decreases |path|
  {
    assert path[0 + 1] in deps[path[0]];
    var j :| 0 <= j < |deps[path[0]]| && deps[path[0]][j] == path[1];
    if |path| > 2 {
      forall k | 0 <= k < |path[1..]| - 1 ensures path[1..][k + 1] in deps[path[1..][k]] {
        assert path[1..][k] == path[k + 1];
      }
      PathFalls(deps, rank, path[1..]);
    }
  }

  /** An antichain waits on none of its own pipelines. */
  lemma FrontApart(deps: PeakDemand.Lists, rank: seq<nat>, a: set<nat>, p: nat)
    requires PeakDemand.Ranked(deps, rank) && IsAntichain(deps, a) && p in a
    ensures p !in Front(deps, a)
  {
    if p in Front(deps, a) {
      var q :| q in a && PeakDemand.Reaches(deps, q, p);
      var path :| PeakDemand.IsPath(deps, path) && path[0] == q && path[|path| - 1] == p;
      PathFalls(deps, rank, path);
      assert false;
    }
  }

  /** The front holds whatever it or the antichain waits on directly. */
  lemma FrontClosed(deps: PeakDemand.Lists, a: set<nat>, p: nat, d: nat)
    requires PeakDemand.ListsOk(deps) && p < |deps| && (p in a || p in Front(deps, a)) && d in deps[p]
    ensures d in Front(deps, a)
  {
    if p in a {
      PeakDemand.StepPath(deps, p, d, d);
    } else {
      var q :| q in a && PeakDemand.Reaches(deps, q, p);
      var path :| PeakDemand.IsPath(deps, path) && path[0] == q && path[|path| - 1] == p;
      var longer := path + [d];
      forall j | 0 <= j < |longer| - 1 ensures longer[j + 1] in deps[longer[j]] {
        assert longer[j] == path[j];
      }
      assert PeakDemand.IsPath(deps, longer);
    }
  }

  /** Once the front is settled it is finalized, and the antichain is scheduled. */
  lemma {:induction false} FrontFinal(g: Graph, deps: PeakDemand.Lists, rank: seq<nat>, s: State, a: set<nat>, p: nat)
    requires GraphOk(g) && Inv(g, s) && Mirrors(g, deps) && PeakDemand.Ranked(deps, rank) && p < |deps|
    requires !s.error && Settled(s, Front(deps, a)) && (p in a || p in Front(deps, a))
    ensures s.starts[p] == 1
    ensures p in Front(deps, a) ==> s.finals[p] == 1
    decreases rank[p]
  {
    assert PipeOk(g, s, p);
    forall e | e in EdgesInto(g, p) ensures e !in s.pending[p] {
      EdgeReleased(g, deps, rank, s, a, p, e);
    }
    assert s.pending[p] == {};
    assert s.due[p] == NOBODY;
    if p in Front(deps, a) {
      CountNone(s.tasks, EarlyOf(p));
    }
  }

  lemma {:induction false} EdgeReleased(g: Graph, deps: PeakDemand.Lists, rank: seq<nat>, s: State, a: set<nat>, p: nat,
          e: Edge)
    requires GraphOk(g) && Inv(g, s) && Mirrors(g, deps) && PeakDemand.Ranked(deps, rank) && p < |deps|
    requires !s.error && Settled(s, Front(deps, a)) && (p in a || p in Front(deps, a)) && e in EdgesInto(g, p)
    ensures e !in s.pending[p]
    decreases rank[p], 0
  {
    assert WaitsOn(g, p, e.tail);
    FrontClosed(deps, a, p, e.tail);
    var j :| 0 <= j < |deps[p]| && deps[p][j] == e.tail;
    FrontFinal(g, deps, rank, s, a, e.tail);
    assert PipeOk(g, s, e.tail);
    assert !EdgePending(g, s, e.tail, e.slot);
  }

  lemma {:induction false} WeightOutstanding(g: Graph, s: State, a: set<nat>, n: nat)
    requires n <= |g.threads| == |s.remaining| && forall p | p in a && p < n :: s.remaining[p] == g.threads[p]
    ensures PeakDemand.Weight(g.threads, a, n) <= TasksOutstanding(s, n)
  {
    if n > 0 {
      WeightOutstanding(g, s, a, n - 1);
    }
  }

  /** Some run has all the tasks of an antichain outstanding. */
  lemma AntichainReached(g: Graph, deps: PeakDemand.Lists, rank: seq<nat>, workers: nat, a: set<nat>)
    returns (run: seq<Step>)
    requires GraphOk(g) && Mirrors(g, deps) && PeakDemand.Ranked(deps, rank) && workers > 0 && IsAntichain(deps, a)
    ensures IsRun(g, workers, run)
    ensures var s := Reached(g, workers, run);
            |s.remaining| == |deps| && PeakDemand.Weight(g.threads, a, |deps|) <= TasksOutstanding(s, |deps|)
  {
    var front := Front(deps, a);
    InitInv(g);
    SeedParked(g, front);
    run := DriveFront(g, workers, Init(g), front);
    var s := Reached(g, workers, run);
    forall p | p in a ensures s.remaining[p] == g.threads[p] {
      FrontApart(deps, rank, a, p);
      FrontFinal(g, deps, rank, s, a, p);
    }
    WeightOutstanding(g, s, a, |deps|);
  }

  /** A number bounds the outstanding tasks of every reachable state if and only if no antichain
      creates more tasks than that. */
  lemma PeakExact(g: Graph, deps: PeakDemand.Lists, rank: seq<nat>, workers: nat, peak: nat)
    requires GraphOk(g) && Mirrors(g, deps) && PeakDemand.Ranked(deps, rank) && workers > 0
    ensures (forall run | IsRun(g, workers, run) :: Within(g, workers, peak, run)) <==>
            (forall a | IsAntichain(deps, a) :: PeakDemand.Weight(g.threads, a, |deps|) <= peak)
  {
    if forall a | IsAntichain(deps, a) :: PeakDemand.Weight(g.threads, a, |deps|) <= peak {
      forall run | IsRun(g, workers, run) ensures Within(g, workers, peak, run) {
        WithinAntichain(g, deps, peak, workers, run);
      }
    }
    if forall run | IsRun(g, workers, run) :: Within(g, workers, peak, run) {
      forall a | IsAntichain(deps, a) ensures PeakDemand.Weight(g.threads, a, |deps|) <= peak {
        var run := AntichainReached(g, deps, rank, workers, a);
        assert Within(g, workers, peak, run);
      }
    }
  }
}
