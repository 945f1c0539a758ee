/** What an exception does: it is never lost, the pipeline it happened in is never finalized, and nothing
    that waits on that pipeline starts. */
module SchedulerErrors {
  import opened Scheduler
  import opened SchedulerInvariant
  import opened SchedulerSteps
  import opened SchedulerTheorems

  // ---------------------------------------------------------------- no exception is lost

  /** Some step of the run threw. */
  predicate AnyThrow(run: seq<Step>) {
    exists i :: 0 <= i < |run| && Throws(run[i])
  }

  lemma {:induction false} ErrorAfter(g: Graph, workers: nat, s: State, run: seq<Step>)
    requires GraphOk(g) && CanRun(g, workers, s, run)
    ensures After(g, workers, s, run).error <==> s.error || AnyThrow(run)
    decreases |run|
  {
    if run != [] {
      var rest := run[1..];
      ErrorAfter(g, workers, Apply(g, workers, s, run[0]), rest);
      assert Apply(g, workers, s, run[0]).error == (s.error || Throws(run[0]));
      if AnyThrow(rest) {
        var i :| 0 <= i < |rest| && Throws(rest[i]);
        assert run[i + 1] == rest[i];
      }
      if AnyThrow(run) && !Throws(run[0]) {
        var i :| 0 <= i < |run| && Throws(run[i]);
        assert rest[i - 1] == run[i];
      }
    }
  }

  /** The query has an error if and only if a task or a finalization threw. */
  lemma ErrorExact(g: Graph, workers: nat, run: seq<Step>)
    requires GraphOk(g) && IsRun(g, workers, run)
    ensures Reached(g, workers, run).error <==> AnyThrow(run)
  {
    ErrorAfter(g, workers, Init(g), run);
  }

  // ---------------------------------------------------------------- the pipeline that threw

  predicate IsStuck(p: nat, x: Task) {
    x.pipeline == p ==> !x.at.Finalizing? && !x.at.Releasing? && !x.at.Arming?
  }

  /** The pipeline is not finalized and no task of it is on the way there. */
  predicate Failed(s: State, p: nat) {
    s.error && p < |s.finals| && s.finals[p] == 0 && forall t | 0 <= t < |s.tasks| :: IsStuck(p, s.tasks[t])
  }

  /** While a task of a pipeline has not counted down, or is finalizing, no other task of it is past its
      count-down and still there. */
  lemma ThrowFails(g: Graph, workers: nat, s: State, a: Step)
    requires GraphOk(g) && Inv(g, s) && Enabled(g, workers, s, a) && Throws(a)
    ensures Failed(Apply(g, workers, s, a), s.tasks[a.t].pipeline)
  {
    var p, s' := s.tasks[a.t].pipeline, Apply(g, workers, s, a);
    assert TaskOk(g, s, a.t) && PipeOk(g, s, p);
    if a.Run? {
      Counting.CountSome(s.tasks, a.t, EarlyOf(p));
    }
    forall t | 0 <= t < |s'.tasks| ensures IsStuck(p, s'.tasks[t]) {
      assert TaskOk(g, s, t);
    }
  }

  lemma StaysFailed(g: Graph, workers: nat, s: State, a: Step, p: nat)
    requires GraphOk(g) && Sized(g, s) && Enabled(g, workers, s, a) && Failed(s, p)
    ensures Failed(Apply(g, workers, s, a), p)
  {
    var s' := Apply(g, workers, s, a);
    assert IsStuck(p, s.tasks[a.t]);
    forall t | 0 <= t < |s'.tasks| ensures IsStuck(p, s'.tasks[t]) {
      assert t < |s.tasks| ==> IsStuck(p, s.tasks[t]);
    }
  }

  lemma {:induction false} StaysFailedAfter(g: Graph, workers: nat, s: State, run: seq<Step>, p: nat)
    requires GraphOk(g) && CanRun(g, workers, s, run) && Failed(s, p)
    ensures Failed(After(g, workers, s, run), p)
    decreases |run|
  {
    if run != [] {
      StaysFailed(g, workers, s, run[0], p);
      StaysFailedAfter(g, workers, Apply(g, workers, s, run[0]), run[1..], p);
    }
  }

  /** Some step of a run from `s` threw in a task of pipeline p. */
  predicate ThrewIn(g: Graph, workers: nat, s: State, run: seq<Step>, p: nat)
    requires GraphOk(g) && CanRun(g, workers, s, run)
    decreases |run|
  {
    run != [] &&
    ((Throws(run[0]) && s.tasks[run[0].t].pipeline == p) ||
      ThrewIn(g, workers, Apply(g, workers, s, run[0]), run[1..], p))
  }

  lemma {:induction false} ThrewFails(g: Graph, workers: nat, s: State, run: seq<Step>, p: nat)
    requires GraphOk(g) && Inv(g, s) && CanRun(g, workers, s, run) && ThrewIn(g, workers, s, run, p)
    ensures Failed(After(g, workers, s, run), p)
    decreases |run|
  {
    var a := run[0];
    var s' := Apply(g, workers, s, a);
    if Throws(a) && s.tasks[a.t].pipeline == p {
      ThrowFails(g, workers, s, a);
      StaysFailedAfter(g, workers, s', run[1..], p);
    } else {
      StepKeeps(g, workers, s, a);
      ThrewFails(g, workers, s', run[1..], p);
    }
  }

  /** Over every run: a pipeline in which a task or the finalization threw is not finalized, and no pipeline
      that waits on it has started. */
  lemma ThrowStopsPipeline(g: Graph, workers: nat, run: seq<Step>, p: nat, q: nat)
    requires GraphOk(g) && IsRun(g, workers, run) && ThrewIn(g, workers, Init(g), run, p)
    ensures var s := Reached(g, workers, run);
            && Sized(g, s) && p < |g.threads| && s.error && s.finals[p] == 0
            && (q < |g.threads| && WaitsOn(g, q, p) ==> s.starts[q] == 0)
  {
    var s := Reached(g, workers, run);
    InitInv(g);
    ReachedInv(g, workers, run);
    ThrewFails(g, workers, Init(g), run, p);
    if q < |g.threads| && WaitsOn(g, q, p) {
      assert PipeOk(g, s, q);
      if s.starts[q] == 1 {
        DependencyFinal(g, s, q, p);
      }
    }
  }

  /** Some pipeline failed if anything threw. */
  lemma {:induction false} ThrewSomewhere(g: Graph, workers: nat, s: State, run: seq<Step>) returns (p: nat)
    requires GraphOk(g) && CanRun(g, workers, s, run) && AnyThrow(run)
    ensures ThrewIn(g, workers, s, run, p)
    decreases |run|
  {
    if Throws(run[0]) {
      p := s.tasks[run[0].t].pipeline;
    } else {
      var i :| 0 <= i < |run| && Throws(run[i]);
      assert run[1..][i - 1] == run[i];
      p := ThrewSomewhere(g, workers, Apply(g, workers, s, run[0]), run[1..]);
    }
  }

  /** On an acyclic graph a query that is done has finalized every pipeline if and only if nothing threw. */
  lemma DoneExact(g: Graph, workers: nat, run: seq<Step>, rank: seq<nat>)
    requires GraphOk(g) && IsRun(g, workers, run) && Ranks(g, rank) && Reached(g, workers, run).done
    ensures var s := Reached(g, workers, run);
            Sized(g, s) && ((forall p: nat | p < |g.threads| :: s.finals[p] == 1) <==> !AnyThrow(run))
  {
    var s := Reached(g, workers, run);
    ReachedInv(g, workers, run);
    ErrorExact(g, workers, run);
    if AnyThrow(run) {
      var p := ThrewSomewhere(g, workers, Init(g), run);
      ThrowStopsPipeline(g, workers, run, p, p);
    } else {
      forall p: nat | p < |g.threads| ensures s.finals[p] == 1 {
        DoneMeansAllFinalized(g, workers, run, rank, p);
      }
    }
  }
}
