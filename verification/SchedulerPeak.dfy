/** The peak demand bounds the tasks outstanding in every reachable state of the scheduler. */
module SchedulerPeak {
  import opened Counting
  import opened Scheduler
  import opened SchedulerInvariant
  import opened SchedulerTheorems
  import PeakDemand

  /** `deps` lists the same edges from the other end. */
  ghost predicate Mirrors(g: Graph, deps: PeakDemand.Lists) {
    && |deps| == |g.threads| && PeakDemand.ListsOk(deps)
    && (forall p, d | 0 <= p < |deps| && d in deps[p] :: WaitsOn(g, p, d))
    && forall p: nat, d: nat | p < |deps| && WaitsOn(g, p, d) :: d in deps[p]
  }

  /** Whatever a scheduled pipeline waits on, through any number of others, has been finalized. */
  lemma {:induction false} PathFinal(g: Graph, deps: PeakDemand.Lists, s: State, path: seq<nat>)
    requires GraphOk(g) && Inv(g, s) && Mirrors(g, deps) && PeakDemand.IsPath(deps, path) && s.starts[path[0]] == 1
    ensures s.finals[path[|path| - 1]] == 1
    decreases |path|
  {
    var rest := path[1..];
    assert path[1] in deps[path[0]];
    DependencyFinal(g, s, path[0], path[1]);
    if |path| > 2 {
      forall j | 0 <= j < |rest| - 1 ensures rest[j + 1] in deps[rest[j]] {
        assert rest[j] == path[j + 1];
      }
      assert PipeOk(g, s, path[1]);
      PathFinal(g, deps, s, rest);
    }
  }

  /** The pipelines that have been scheduled and not yet counted down to zero. */
  function Outstanding(s: State): set<nat> {
    set p: nat | p < |s.remaining| && s.remaining[p] > 0
  }

  /** No outstanding pipeline waits on another. */
  lemma OutstandingAntichain(g: Graph, deps: PeakDemand.Lists, s: State)
    requires GraphOk(g) && Inv(g, s) && Mirrors(g, deps)
    ensures PeakDemand.Antichain(deps, Outstanding(s))
  {
    forall p, q | p in Outstanding(s) && q in Outstanding(s) && p != q ensures !PeakDemand.Reaches(deps, p, q) {
      assert PipeOk(g, s, p) && PipeOk(g, s, q);
      if PeakDemand.Reaches(deps, p, q) {
        var path :| PeakDemand.IsPath(deps, path) && path[0] == p && path[|path| - 1] == q;
        CountNone(s.tasks, EarlyOf(p));
        var t :| 0 <= t < |s.tasks| && EarlyOf(p)(s.tasks[t]);
        assert TaskOk(g, s, t);
        PathFinal(g, deps, s, path);
        assert false;
      }
    }
  }

  /** The tasks that exist and have not counted down, over the first `n` pipelines. */
  function TasksOutstanding(s: State, n: nat): nat
    requires n <= |s.remaining|
  {
    if n == 0 then 0 else TasksOutstanding(s, n - 1) + s.remaining[n - 1]
  }

  lemma {:induction false} OutstandingWeight(g: Graph, s: State, n: nat)
    requires GraphOk(g) && Inv(g, s) && n <= |g.threads|
    ensures TasksOutstanding(s, n) <= PeakDemand.Weight(g.threads, Outstanding(s), n)
  {
    if n > 0 {
      OutstandingWeight(g, s, n - 1);
      assert PipeOk(g, s, n - 1);
    }
  }

  lemma {:induction false} HeavierWeight(threads: seq<nat>, weights: seq<nat>, a: set<nat>, n: nat)
    requires n <= |threads| == |weights| && forall p | 0 <= p < |threads| :: threads[p] <= weights[p]
    ensures PeakDemand.Weight(threads, a, n) <= PeakDemand.Weight(weights, a, n)
  {
    if n > 0 {
      HeavierWeight(threads, weights, a, n - 1);
    }
  }

  /** The outstanding tasks a run ends with number at most `peak`. */
  ghost predicate Within(g: Graph, workers: nat, peak: nat, run: seq<Step>)
    requires GraphOk(g) && IsRun(g, workers, run)
  {
    var s := Reached(g, workers, run);
    |s.remaining| == |g.threads| && TasksOutstanding(s, |g.threads|) <= peak
  }

  ghost predicate IsAntichain(deps: PeakDemand.Lists, a: set<nat>) {
    PeakDemand.Antichain(deps, a) && forall p | p in a :: p < |deps|
  }

  lemma WithinAntichain(g: Graph, deps: PeakDemand.Lists, peak: nat, workers: nat, run: seq<Step>)
    requires GraphOk(g) && Mirrors(g, deps) && IsRun(g, workers, run)
    requires forall a | IsAntichain(deps, a) :: PeakDemand.Weight(g.threads, a, |deps|) <= peak
    ensures Within(g, workers, peak, run)
  {
    var s := Reached(g, workers, run);
    ReachedInv(g, workers, run);
    OutstandingAntichain(g, deps, s);
    OutstandingWeight(g, s, |g.threads|);
    assert IsAntichain(deps, Outstanding(s));
  }

  /** The demand computed from `weights` bounds the outstanding tasks of every reachable state if no
      pipeline creates more tasks than its weight. */
  lemma PeakBoundsTasks(g: Graph, deps: PeakDemand.Lists, weights: seq<nat>, peak: nat, workers: nat, run: seq<Step>)
    requires GraphOk(g) && Mirrors(g, deps) && IsRun(g, workers, run) && |weights| == |g.threads|
    requires forall p | 0 <= p < |weights| :: g.threads[p] <= weights[p]
    requires PeakDemand.IsPeak(deps, weights, peak)
    ensures Within(g, workers, peak, run)
  {
    forall a | IsAntichain(deps, a) ensures PeakDemand.Weight(g.threads, a, |deps|) <= peak {
      PeakDemand.PeakBoundsAntichains(deps, weights, peak, a);
      HeavierWeight(g.threads, weights, a, |deps|);
    }
    WithinAntichain(g, deps, peak, workers, run);
  }
}
