/** Each step of the scheduler keeps the invariant. */
module SchedulerSteps {
  import opened Counting
  import opened Scheduler
  import opened SchedulerInvariant

  // ---------------------------------------------------------------- steps that only move a task

  /** `s'` is `s` with one task moved and possibly the error flag set. */
  predicate Moved(g: Graph, s: State, s': State, t: nat)
    requires GraphOk(g) && Sized(g, s)
  {
    && t < |s.tasks| == |s'.tasks| && Sized(g, s') && (s.error ==> s'.error)
    && s' == Move(s, t, s'.tasks[t].at).(error := s'.error)
  }

  lemma MovedTask(g: Graph, s: State, s': State, t: nat, u: nat)
    requires GraphOk(g) && Sized(g, s) && Moved(g, s, s', t) && u < |s.tasks| && u != t && TaskOk(g, s, u)
    requires !s.tasks[t].at.Releasing? && !s.tasks[t].at.Arming?
    ensures TaskOk(g, s', u)
  {
    SameReleasedTask(g, s, s', u);
  }

  /** What has been released depends only on the pending edges. */
  lemma SameReleased(g: Graph, s: State, s': State, p: nat, i: nat)
    requires GraphOk(g) && Sized(g, s) && Sized(g, s') && p < |g.threads| && s'.pending == s.pending
    ensures ReleasedTo(g, s', p, i) == ReleasedTo(g, s, p, i)
  {
    forall k | 0 <= k < |g.dependents[p]| ensures EdgePending(g, s', p, k) == EdgePending(g, s, p, k) {
    }
  }

  lemma SameReleasedTask(g: Graph, s: State, s': State, u: nat)
    requires GraphOk(g) && Sized(g, s) && Sized(g, s') && u < |s.tasks| && s'.pending == s.pending
    ensures var p, at := PipelineOf(s, u), s.tasks[u].at;
            && (at.Releasing? ==> ReleasedTo(g, s', p, at.i) == ReleasedTo(g, s, p, at.i))
            && (at.Arming? ==> ReleasedTo(g, s', p, at.i + 1) == ReleasedTo(g, s, p, at.i + 1))
  {
    var p, at := PipelineOf(s, u), s.tasks[u].at;
    if at.Releasing? {
      SameReleased(g, s, s', p, at.i);
    } else if at.Arming? {
      SameReleased(g, s, s', p, at.i + 1);
    }
  }

  /** The closer of the moved task's pipeline is still accounted for. */
  predicate CloserStays(s: State, s': State, t: nat)
    requires t < |s.tasks| == |s'.tasks| && s.tasks[t].pipeline < |s.closer| && s.tasks[t].pipeline < |s.finals|
  {
    && (Early(s.tasks[t]) <==> Early(s'.tasks[t]))
    && (s.closer[s.tasks[t].pipeline] == t && !Ending(s'.tasks[t]) ==>
          s'.error && (Ending(s.tasks[t]) ==> s.finals[s.tasks[t].pipeline] == 0))
  }

  lemma MovedPipe(g: Graph, s: State, s': State, t: nat, p: nat)
    requires GraphOk(g) && Sized(g, s) && Moved(g, s, s', t) && p < |g.threads| && PipeOk(g, s, p)
    requires !s.tasks[t].at.Releasing? && !s.tasks[t].at.Arming? && CloserStays(s, s', t)
    ensures PipeOk(g, s', p)
  {
    CountMove(s.tasks, t, s'.tasks[t], EarlyOf(p));
    SameReleased(g, s, s', p, 0);
    SameReleased(g, s, s', p, |g.dependents[p]|);
  }

  lemma MoveKeeps(g: Graph, s: State, s': State, t: nat)
    requires GraphOk(g) && Inv(g, s) && Moved(g, s, s', t) && CloserStays(s, s', t)
    requires !s.tasks[t].at.Releasing? && !s.tasks[t].at.Arming? && Active(s.tasks[t]) && Active(s'.tasks[t])
    requires TaskOk(g, s', t)
    ensures Inv(g, s')
  {
    forall u | 0 <= u < |s.tasks| ensures TaskOk(g, s', u) {
      if u != t {
        assert TaskOk(g, s, u);
        MovedTask(g, s, s', t, u);
      }
    }
    forall p | 0 <= p < |g.threads| ensures PipeOk(g, s', p) {
      assert PipeOk(g, s, p);
      MovedPipe(g, s, s', t, p);
    }
    CountMove(s.tasks, t, s'.tasks[t], Active);
    CountSome(s'.tasks, t, Active);
  }

  lemma DequeueKeeps(g: Graph, workers: nat, s: State, a: Step)
    requires GraphOk(g) && Inv(g, s) && a.Dequeue? && Enabled(g, workers, s, a)
    ensures Inv(g, Apply(g, workers, s, a))
  {
    assert TaskOk(g, s, a.t) && PipeOk(g, s, s.tasks[a.t].pipeline);
    MoveKeeps(g, s, Apply(g, workers, s, a), a.t);
  }

  lemma RunKeeps(g: Graph, workers: nat, s: State, a: Step)
    requires GraphOk(g) && Inv(g, s) && a.Run? && Enabled(g, workers, s, a)
    ensures Inv(g, Apply(g, workers, s, a))
  {
    assert TaskOk(g, s, a.t) && PipeOk(g, s, s.tasks[a.t].pipeline);
    MoveKeeps(g, s, Apply(g, workers, s, a), a.t);
  }

  lemma DecideKeeps(g: Graph, workers: nat, s: State, a: Step)
    requires GraphOk(g) && Inv(g, s) && a.Decide? && Enabled(g, workers, s, a)
    ensures Inv(g, Apply(g, workers, s, a))
  {
    assert TaskOk(g, s, a.t) && PipeOk(g, s, s.tasks[a.t].pipeline);
    MoveKeeps(g, s, Apply(g, workers, s, a), a.t);
  }

  lemma FinalizeThrowsKeeps(g: Graph, workers: nat, s: State, a: Step)
    requires GraphOk(g) && Inv(g, s) && a.Finalize? && a.throws && Enabled(g, workers, s, a)
    ensures Inv(g, Apply(g, workers, s, a))
  {
    assert TaskOk(g, s, a.t) && PipeOk(g, s, s.tasks[a.t].pipeline);
    MoveKeeps(g, s, Apply(g, workers, s, a), a.t);
  }

  // ---------------------------------------------------------------- counting down

  lemma CountDownTask(g: Graph, s: State, t: nat, u: nat)
    requires GraphOk(g) && Sized(g, s) && t < |s.tasks| && u < |s.tasks| && s.tasks[t].at.Ran?
    requires TaskOk(g, s, t) && TaskOk(g, s, u) && PipeOk(g, s, PipelineOf(s, t)) && s.remaining[PipelineOf(s, t)] > 0
    ensures TaskOk(g, DoCountDown(s, t), u)
  {
    var s' := DoCountDown(s, t);
    SameReleasedTask(g, s, s', u);
  }

  lemma CountDownPipe(g: Graph, s: State, t: nat, p: nat)
    requires GraphOk(g) && Sized(g, s) && t < |s.tasks| && p < |g.threads| && s.tasks[t].at.Ran?
    requires TaskOk(g, s, t) && PipeOk(g, s, p) && s.remaining[PipelineOf(s, t)] > 0
    ensures PipeOk(g, DoCountDown(s, t), p)
  {
    var s' := DoCountDown(s, t);
    CountMove(s.tasks, t, s'.tasks[t], EarlyOf(p));
    SameReleased(g, s, s', p, 0);
    SameReleased(g, s, s', p, |g.dependents[p]|);
  }

  lemma CountDownKeeps(g: Graph, workers: nat, s: State, a: Step)
    requires GraphOk(g) && Inv(g, s) && a.CountDown? && Enabled(g, workers, s, a)
    ensures Inv(g, Apply(g, workers, s, a))
  {
    var t, s' := a.t, Apply(g, workers, s, a);
    assert TaskOk(g, s, t) && PipeOk(g, s, PipelineOf(s, t));
    forall u | 0 <= u < |s.tasks| ensures TaskOk(g, s', u) {
      assert TaskOk(g, s, u);
      CountDownTask(g, s, t, u);
    }
    forall p | 0 <= p < |g.threads| ensures PipeOk(g, s', p) {
      assert PipeOk(g, s, p);
      CountDownPipe(g, s, t, p);
    }
    CountMove(s.tasks, t, s'.tasks[t], Active);
    CountSome(s'.tasks, t, Active);
  }

  // ---------------------------------------------------------------- finalizing

  lemma FinalizeTask(g: Graph, s: State, t: nat, u: nat)
    requires GraphOk(g) && Sized(g, s) && t < |s.tasks| && u < |s.tasks| && s.tasks[t].at.Finalizing?
    requires TaskOk(g, s, t) && TaskOk(g, s, u) && PipeOk(g, s, PipelineOf(s, t))
    ensures TaskOk(g, DoFinalize(s, t, false), u)
  {
    var s' := DoFinalize(s, t, false);
    SameReleased(g, s, s', PipelineOf(s, t), 0);
    SameReleasedTask(g, s, s', u);
  }

  lemma FinalizePipe(g: Graph, s: State, t: nat, p: nat)
    requires GraphOk(g) && Sized(g, s) && t < |s.tasks| && p < |g.threads| && s.tasks[t].at.Finalizing?
    requires TaskOk(g, s, t) && PipeOk(g, s, p)
    ensures PipeOk(g, DoFinalize(s, t, false), p)
  {
    var s' := DoFinalize(s, t, false);
    CountMove(s.tasks, t, s'.tasks[t], EarlyOf(p));
    SameReleased(g, s, s', p, 0);
    SameReleased(g, s, s', p, |g.dependents[p]|);
  }

  lemma FinalizeKeeps(g: Graph, workers: nat, s: State, a: Step)
    requires GraphOk(g) && Inv(g, s) && a.Finalize? && Enabled(g, workers, s, a)
    ensures Inv(g, Apply(g, workers, s, a))
  {
    if a.throws {
      FinalizeThrowsKeeps(g, workers, s, a);
    } else {
      var t, s' := a.t, Apply(g, workers, s, a);
      assert TaskOk(g, s, t) && PipeOk(g, s, PipelineOf(s, t));
      forall u | 0 <= u < |s.tasks| ensures TaskOk(g, s', u) {
        assert TaskOk(g, s, u);
        FinalizeTask(g, s, t, u);
      }
      forall p | 0 <= p < |g.threads| ensures PipeOk(g, s', p) {
        assert PipeOk(g, s, p);
        FinalizePipe(g, s, t, p);
      }
      CountMove(s.tasks, t, s'.tasks[t], Active);
      CountSome(s'.tasks, t, Active);
    }
  }

  // ---------------------------------------------------------------- releasing a dependent

  /** A task about to release an edge finds it pending, on a pipeline that is not scheduled. */
  lemma ReleaseFinds(g: Graph, s: State, t: nat)
    requires GraphOk(g) && Inv(g, s) && t < |s.tasks| && s.tasks[t].at.Releasing?
    requires s.tasks[t].at.i < |g.dependents[PipelineOf(s, t)]|
    ensures var q := g.dependents[PipelineOf(s, t)][s.tasks[t].at.i];
            Edge(PipelineOf(s, t), s.tasks[t].at.i) in s.pending[q] && s.waiting[q] > 0 && s.starts[q] == 0 &&
              s.due[q] == NOBODY
  {
    var p, i := PipelineOf(s, t), s.tasks[t].at.i;
    assert TaskOk(g, s, t) && EdgePending(g, s, p, i);
    assert PipeOk(g, s, g.dependents[p][i]);
  }

  lemma ReleasedOne(g: Graph, s: State, t: nat, p: nat, i: nat)
    requires GraphOk(g) && Sized(g, s) && t < |s.tasks| && s.tasks[t].at.Releasing? && p < |g.threads|
    requires s.tasks[t].at.i < |g.dependents[PipelineOf(s, t)]|
    requires s.waiting[g.dependents[PipelineOf(s, t)][s.tasks[t].at.i]] > 0
    requires ReleasedTo(g, s, p, i) && (p == PipelineOf(s, t) ==> i == s.tasks[t].at.i)
    ensures ReleasedTo(g, DoRelease(g, s, t), p, if p == PipelineOf(s, t) then i + 1 else i)
  {
    var s' := DoRelease(g, s, t);
    forall k | 0 <= k < |g.dependents[p]|
      ensures EdgePending(g, s', p, k) ==
              (EdgePending(g, s, p, k) && Edge(p, k) != Edge(PipelineOf(s, t), s.tasks[t].at.i))
    {
    }
  }

  lemma ReleaseTask(g: Graph, s: State, t: nat, u: nat)
    requires GraphOk(g) && Sized(g, s) && t < |s.tasks| && u < |s.tasks| && s.tasks[t].at.Releasing?
    requires s.tasks[t].at.i < |g.dependents[PipelineOf(s, t)]|
    requires TaskOk(g, s, t) && TaskOk(g, s, u)
    requires var q := g.dependents[PipelineOf(s, t)][s.tasks[t].at.i]; s.waiting[q] > 0 && s.due[q] == NOBODY
    ensures TaskOk(g, DoRelease(g, s, t), u)
  {
    var pu := PipelineOf(s, u);
    if s.tasks[u].at.Releasing? {
      ReleasedOne(g, s, t, pu, s.tasks[u].at.i);
    } else if s.tasks[u].at.Arming? {
      ReleasedOne(g, s, t, pu, s.tasks[u].at.i + 1);
    }
  }

  lemma ReleasePipe(g: Graph, s: State, t: nat, p: nat)
    requires GraphOk(g) && Sized(g, s) && t < |s.tasks| && p < |g.threads| && s.tasks[t].at.Releasing?
    requires s.tasks[t].at.i < |g.dependents[PipelineOf(s, t)]|
    requires TaskOk(g, s, t) && PipeOk(g, s, p)
    requires var q := g.dependents[PipelineOf(s, t)][s.tasks[t].at.i];
             Edge(PipelineOf(s, t), s.tasks[t].at.i) in s.pending[q] && s.waiting[q] > 0 && s.starts[q] == 0 &&
               s.due[q] == NOBODY
    ensures PipeOk(g, DoRelease(g, s, t), p)
  {
    var s' := DoRelease(g, s, t);
    CountMove(s.tasks, t, s'.tasks[t], EarlyOf(p));
    if p != PipelineOf(s, t) {
      if s.finals[p] == 0 {
        ReleasedOne(g, s, t, p, 0);
      } else if s.closer[p] != NOBODY && !Ending(s.tasks[s.closer[p]]) {
        ReleasedOne(g, s, t, p, |g.dependents[p]|);
      }
    }
  }

  lemma ReleaseKeeps(g: Graph, workers: nat, s: State, a: Step)
    requires GraphOk(g) && Inv(g, s) && a.Release? && Enabled(g, workers, s, a)
    ensures Inv(g, Apply(g, workers, s, a))
  {
    var t, s' := a.t, Apply(g, workers, s, a);
    assert TaskOk(g, s, t);
    ReleaseFinds(g, s, t);
    forall u | 0 <= u < |s.tasks| ensures TaskOk(g, s', u) {
      assert TaskOk(g, s, u);
      ReleaseTask(g, s, t, u);
    }
    forall p | 0 <= p < |g.threads| ensures PipeOk(g, s', p) {
      assert PipeOk(g, s, p);
      ReleasePipe(g, s, t, p);
    }
    CountMove(s.tasks, t, s'.tasks[t], Active);
    CountSome(s'.tasks, t, Active);
  }

  // ---------------------------------------------------------------- creating a dependent's tasks

  /** A pipeline that is due has no task yet. */
  lemma ArmFinds(g: Graph, s: State, t: nat)
    requires GraphOk(g) && Inv(g, s) && t < |s.tasks| && s.tasks[t].at.Arming?
    ensures var p := PipelineOf(s, t);
            && s.tasks[t].at.i < |g.dependents[p]|
            && var q := g.dependents[p][s.tasks[t].at.i];
               && s.due[q] == t && s.pending[q] == {} && s.starts[q] == 0 && s.remaining[q] == 0
               && s.closer[q] == NOBODY && s.finals[q] == 0 && PipeOk(g, s, q)
  {
    assert TaskOk(g, s, t);
    var q := g.dependents[PipelineOf(s, t)][s.tasks[t].at.i];
    assert PipeOk(g, s, q);
    forall u | 0 <= u < |s.tasks| ensures !EarlyOf(q)(s.tasks[u]) {
      assert TaskOk(g, s, u);
    }
    CountNone(s.tasks, EarlyOf(q));
  }

  lemma ArmTask(g: Graph, s: State, t: nat, u: nat)
    requires GraphOk(g) && Sized(g, s) && t < |s.tasks| && s.tasks[t].at.Arming?
    requires s.tasks[t].at.i < |g.dependents[PipelineOf(s, t)]|
    requires TaskOk(g, s, t) && s.starts[g.dependents[PipelineOf(s, t)][s.tasks[t].at.i]] == 0
    requires s.due[g.dependents[PipelineOf(s, t)][s.tasks[t].at.i]] == t
    requires u < |DoArm(g, s, t).tasks| && (u < |s.tasks| ==> TaskOk(g, s, u))
    ensures Sized(g, DoArm(g, s, t)) && TaskOk(g, DoArm(g, s, t), u)
  {
    var s' := DoArm(g, s, t);
    assert Sized(g, s');
    if u < |s.tasks| {
      SameReleasedTask(g, s, s', u);
    }
  }

  lemma ArmPipe(g: Graph, s: State, t: nat, p: nat)
    requires GraphOk(g) && Sized(g, s) && t < |s.tasks| && p < |g.threads| && s.tasks[t].at.Arming?
    requires s.tasks[t].at.i < |g.dependents[PipelineOf(s, t)]|
    requires TaskOk(g, s, t) && PipeOk(g, s, p)
    requires var q := g.dependents[PipelineOf(s, t)][s.tasks[t].at.i];
             && s.due[q] == t && s.pending[q] == {} && s.starts[q] == 0 && s.remaining[q] == 0
             && s.closer[q] == NOBODY && s.finals[q] == 0
    ensures Sized(g, DoArm(g, s, t)) && PipeOk(g, DoArm(g, s, t), p)
  {
    var s', q := DoArm(g, s, t), g.dependents[PipelineOf(s, t)][s.tasks[t].at.i];
    assert Sized(g, s');
    ArmCounts(g, s, t, EarlyOf(p));
    SameReleased(g, s, s', p, 0);
    SameReleased(g, s, s', p, |g.dependents[p]|);
  }

  lemma ArmCounts(g: Graph, s: State, t: nat, f: Task -> bool)
    requires GraphOk(g) && Sized(g, s) && t < |s.tasks| && s.tasks[t].at.Arming?
    requires s.tasks[t].at.i < |g.dependents[PipelineOf(s, t)]|
    requires f(s.tasks[t]) == f(Task(PipelineOf(s, t), Releasing(s.tasks[t].at.i + 1)))
    ensures var q := g.dependents[PipelineOf(s, t)][s.tasks[t].at.i];
            Count(DoArm(g, s, t).tasks, f) == Count(s.tasks, f) + if f(Task(q, Held(t))) then g.threads[q] else 0
  {
    var q := g.dependents[PipelineOf(s, t)][s.tasks[t].at.i];
    var x := Task(PipelineOf(s, t), Releasing(s.tasks[t].at.i + 1));
    CountMove(s.tasks, t, x, f);
    CountAppend(s.tasks[t := x], Fresh(q, g.threads[q], Held(t)), f);
    CountFresh(q, g.threads[q], Held(t), f);
  }

  lemma ArmKeeps(g: Graph, workers: nat, s: State, a: Step)
    requires GraphOk(g) && Inv(g, s) && a.Arm? && Enabled(g, workers, s, a)
    ensures Inv(g, Apply(g, workers, s, a))
  {
    hide Count, DoneOk, DueOk, DoFinalize, DoCountDown, OnWorker, DoRelease, ReleasedTo;
    var t, s' := a.t, Apply(g, workers, s, a);
    assert TaskOk(g, s, t);
    ArmFinds(g, s, t);
    forall u | 0 <= u < |s'.tasks| ensures Sized(g, s') && TaskOk(g, s', u) {
      assert u < |s.tasks| ==> TaskOk(g, s, u);
      ArmTask(g, s, t, u);
    }
    forall p | 0 <= p < |g.threads| ensures PipeOk(g, s', p) {
      assert PipeOk(g, s, p);
      ArmPipe(g, s, t, p);
    }
    ArmCounts(g, s, t, Active);
    CountSome(s'.tasks, t, Active);
    ArmDone(g, s, t);
  }

  lemma ArmDone(g: Graph, s: State, t: nat)
    requires GraphOk(g) && Sized(g, s) && DoneOk(s) && s.active == Count(s.tasks, Active)
    requires t < |s.tasks| && s.tasks[t].at.Arming? && s.tasks[t].at.i < |g.dependents[PipelineOf(s, t)]|
    ensures DoneOk(DoArm(g, s, t))
  {
    CountNone(s.tasks, Active);
    assert Active(s.tasks[t]);
  }

  // ---------------------------------------------------------------- handing tasks to the queue

  lemma EnqueueTask(g: Graph, s: State, t: nat, u: nat)
    requires GraphOk(g) && Sized(g, s) && t < |s.tasks| && u < |s.tasks| && s.tasks[t].at.Releasing?
    requires TaskOk(g, s, u)
    ensures Sized(g, DoEnqueue(s, t)) && TaskOk(g, DoEnqueue(s, t), u)
  {
    assert Sized(g, DoEnqueue(s, t));
    SameReleasedTask(g, s, DoEnqueue(s, t), u);
  }

  lemma EnqueuePipe(g: Graph, s: State, t: nat, p: nat)
    requires GraphOk(g) && Sized(g, s) && t < |s.tasks| && p < |g.threads| && s.tasks[t].at.Releasing?
    requires s.tasks[t].at.i >= |g.dependents[PipelineOf(s, t)]|
    requires TaskOk(g, s, t) && PipeOk(g, s, p)
    ensures Sized(g, DoEnqueue(s, t)) && PipeOk(g, DoEnqueue(s, t), p)
  {
    var s' := DoEnqueue(s, t);
    assert Sized(g, s');
    CountSame(s.tasks, s'.tasks, EarlyOf(p));
    SameReleased(g, s, s', p, 0);
    SameReleased(g, s, s', p, |g.dependents[p]|);
  }

  lemma EnqueueKeeps(g: Graph, workers: nat, s: State, a: Step)
    requires GraphOk(g) && Inv(g, s) && a.Enqueue? && Enabled(g, workers, s, a)
    ensures Inv(g, Apply(g, workers, s, a))
  {
    hide Count, CloserOk, EdgesInto, Ending, Move, DoFinalize, DoArm, EarlyOf;
    var t, s' := a.t, Apply(g, workers, s, a);
    assert TaskOk(g, s, t);
    forall u | 0 <= u < |s.tasks| ensures Sized(g, s') && TaskOk(g, s', u) {
      assert TaskOk(g, s, u);
      EnqueueTask(g, s, t, u);
    }
    forall p | 0 <= p < |g.threads| ensures PipeOk(g, s', p) {
      assert PipeOk(g, s, p);
      EnqueuePipe(g, s, t, p);
    }
    CountSame(s.tasks, s'.tasks, Active);
    CountSome(s'.tasks, t, Active);
    EnqueueDone(s, t);
  }

  lemma EnqueueDone(s: State, t: nat)
    requires DoneOk(s) && t < |s.tasks|
    ensures DoneOk(DoEnqueue(s, t))
  {
  }

  // ---------------------------------------------------------------- leaving and closing

  lemma LeaveKeeps(g: Graph, workers: nat, s: State, a: Step)
    requires GraphOk(g) && Inv(g, s) && a.Leave? && Enabled(g, workers, s, a)
    ensures Inv(g, Apply(g, workers, s, a))
  {
    var t, s' := a.t, Apply(g, workers, s, a);
    OutKeeps(g, s, s', t);
    CountMove(s.tasks, t, s'.tasks[t], Active);
    assert s'.active == 0 ==> s'.tasks[t].at.Closing?;
  }

  lemma CloseKeeps(g: Graph, workers: nat, s: State, a: Step)
    requires GraphOk(g) && Inv(g, s) && a.Close? && Enabled(g, workers, s, a)
    ensures Inv(g, Apply(g, workers, s, a))
  {
    var t, s' := a.t, Apply(g, workers, s, a);
    OutKeeps(g, s, s', t);
    CountMove(s.tasks, t, s'.tasks[t], Active);
  }

  /** A task past everything moved on. */
  predicate MovedOut(s: State, s': State, t: nat) {
    && t < |s.tasks| == |s'.tasks| && (s.tasks[t].at.Leaving? || s.tasks[t].at.Closing?)
    && (s'.tasks[t].at.Closing? || s'.tasks[t].at.Finished?)
    && s'.tasks == s.tasks[t := Task(PipelineOf(s, t), s'.tasks[t].at)]
    && s' == s.(tasks := s'.tasks, active := s'.active, done := s'.done, dones := s'.dones)
  }

  lemma OutTask(g: Graph, s: State, s': State, t: nat, u: nat)
    requires GraphOk(g) && Sized(g, s) && Sized(g, s') && MovedOut(s, s', t) && u < |s.tasks| && TaskOk(g, s, u)
    ensures TaskOk(g, s', u)
  {
    SameReleasedTask(g, s, s', u);
  }

  lemma OutPipe(g: Graph, s: State, s': State, t: nat, p: nat)
    requires GraphOk(g) && Sized(g, s) && Sized(g, s') && MovedOut(s, s', t) && p < |g.threads| && PipeOk(g, s, p)
    ensures PipeOk(g, s', p)
  {
    CountMove(s.tasks, t, s'.tasks[t], EarlyOf(p));
    SameReleased(g, s, s', p, 0);
    SameReleased(g, s, s', p, |g.dependents[p]|);
  }

  lemma OutKeeps(g: Graph, s: State, s': State, t: nat)
    requires GraphOk(g) && Inv(g, s) && MovedOut(s, s', t)
    ensures Sized(g, s')
    ensures forall u {:trigger TaskOk(g, s', u)} | 0 <= u < |s'.tasks| :: TaskOk(g, s', u)
    ensures forall p {:trigger PipeOk(g, s', p)} | 0 <= p < |g.threads| :: PipeOk(g, s', p)
  {
    assert Sized(g, s');
    forall u | 0 <= u < |s'.tasks| ensures TaskOk(g, s', u) {
      assert TaskOk(g, s, u);
      OutTask(g, s, s', t, u);
    }
    forall p | 0 <= p < |g.threads| ensures PipeOk(g, s', p) {
      assert PipeOk(g, s, p);
      OutPipe(g, s, s', t, p);
    }
  }

  /** Every step keeps the invariant. */
  lemma StepKeeps(g: Graph, workers: nat, s: State, a: Step)
    requires GraphOk(g) && Inv(g, s) && Enabled(g, workers, s, a)
    ensures Inv(g, Apply(g, workers, s, a))
  {
    match a
    case Dequeue(_) => DequeueKeeps(g, workers, s, a);
    case Run(_, _) => RunKeeps(g, workers, s, a);
    case CountDown(_) => CountDownKeeps(g, workers, s, a);
    case Decide(_) => DecideKeeps(g, workers, s, a);
    case Finalize(_, _) => FinalizeKeeps(g, workers, s, a);
    case Release(_) => ReleaseKeeps(g, workers, s, a);
    case Arm(_) => ArmKeeps(g, workers, s, a);
    case Enqueue(_) => EnqueueKeeps(g, workers, s, a);
    case Leave(_) => LeaveKeeps(g, workers, s, a);
    case Close(_) => CloseKeeps(g, workers, s, a);
  }
}
