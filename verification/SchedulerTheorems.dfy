/** Safety over whole runs of the scheduler, and why every run drains. */
module SchedulerTheorems {
  import opened Counting
  import opened Scheduler
  import opened SchedulerInvariant
  import opened SchedulerSteps

  // ---------------------------------------------------------------- the initial state

  lemma {:induction false} SeedCount(g: Graph, n: nat, p: nat)
    requires GraphOk(g) && n <= |g.threads| && p < |g.threads|
    ensures Count(SeedTasks(g, n), EarlyOf(p)) == if p < n && EdgesInto(g, p) == {} then g.threads[p] else 0
  {
    if n > 0 {
      SeedCount(g, n - 1, p);
      if EdgesInto(g, n - 1) == {} {
        CountAppend(SeedTasks(g, n - 1), Fresh(n - 1, g.threads[n - 1], Queued), EarlyOf(p));
        CountFresh(n - 1, g.threads[n - 1], Queued, EarlyOf(p));
      } else {
        assert SeedTasks(g, n - 1) + [] == SeedTasks(g, n - 1);
      }
    }
  }

  lemma {:induction false} SeedShape(g: Graph, n: nat)
    requires GraphOk(g) && n <= |g.threads|
    ensures forall t | 0 <= t < |SeedTasks(g, n)| :: Seeded(g, n, SeedTasks(g, n)[t])
  {
    if n > 0 {
      SeedShape(g, n - 1);
      var before := SeedTasks(g, n - 1);
      forall t | 0 <= t < |SeedTasks(g, n)| ensures Seeded(g, n, SeedTasks(g, n)[t]) {
        if t < |before| {
          assert SeedTasks(g, n)[t] == before[t];
        }
      }
    }
  }

  predicate Seeded(g: Graph, n: nat, x: Task) {
    x.pipeline < n && EdgesInto(g, x.pipeline) == {} && x.at == Queued
  }

  lemma {:induction false} CountAll(tasks: seq<Task>, f: Task -> bool)
    requires forall t | 0 <= t < |tasks| :: f(tasks[t])
    ensures Count(tasks, f) == |tasks|
  {
    if tasks != [] {
      CountAll(tasks[..|tasks| - 1], f);
    }
  }

  lemma InitInv(g: Graph)
    requires GraphOk(g)
    ensures Inv(g, Init(g))
  {
    var s, n := Init(g), |g.threads|;
    SeedShape(g, n);
    forall t | 0 <= t < |s.tasks| ensures s.tasks[t].pipeline < n {
      assert Seeded(g, n, s.tasks[t]);
    }
    forall t | 0 <= t < |s.tasks| ensures TaskOk(g, s, t) && Active(s.tasks[t]) {
      assert Seeded(g, n, s.tasks[t]);
    }
    CountAll(s.tasks, Active);
    forall p | 0 <= p < n ensures PipeOk(g, s, p) {
      SeedCount(g, n, p);
      forall k | 0 <= k < |g.dependents[p]| ensures EdgePending(g, s, p, k) {
        assert IsEdge(g, Edge(p, k));
      }
    }
  }

  lemma {:induction false} AfterKeeps(g: Graph, workers: nat, s: State, run: seq<Step>)
    requires GraphOk(g) && Inv(g, s) && CanRun(g, workers, s, run)
    ensures Inv(g, After(g, workers, s, run))
    decreases |run|
  {
    if run != [] {
      StepKeeps(g, workers, s, run[0]);
      AfterKeeps(g, workers, Apply(g, workers, s, run[0]), run[1..]);
    }
  }

  lemma ReachedInv(g: Graph, workers: nat, run: seq<Step>)
    requires GraphOk(g) && IsRun(g, workers, run)
    ensures Inv(g, Reached(g, workers, run))
  {
    InitInv(g);
    AfterKeeps(g, workers, Init(g), run);
  }

  // ---------------------------------------------------------------- safety

  /** In every interleaving the global counter is the number of created and unfinished tasks, and each
      pipeline's counter is the number of its tasks that have not counted down. */
  lemma CountersExact(g: Graph, workers: nat, run: seq<Step>, p: nat)
    requires GraphOk(g) && IsRun(g, workers, run) && p < |g.threads|
    ensures var s := Reached(g, workers, run);
            s.active == Count(s.tasks, Active) && Sized(g, s) && s.remaining[p] == Count(s.tasks, EarlyOf(p))
  {
    ReachedInv(g, workers, run);
    assert PipeOk(g, Reached(g, workers, run), p);
  }

  lemma DependencyFinal(g: Graph, s: State, p: nat, d: nat)
    requires GraphOk(g) && Inv(g, s) && p < |g.threads| && WaitsOn(g, p, d) && s.starts[p] == 1
    ensures s.finals[d] == 1
  {
    var k :| 0 <= k < |g.dependents[d]| && g.dependents[d][k] == p;
    assert PipeOk(g, s, p) && PipeOk(g, s, d);
    assert !EdgePending(g, s, d, k);
  }

  /** Each pipeline is scheduled at most once and finalized at most once, and it is scheduled only after
      every pipeline it waits on was finalized. */
  lemma ScheduledOnceInOrder(g: Graph, workers: nat, run: seq<Step>, p: nat, d: nat)
    requires GraphOk(g) && IsRun(g, workers, run) && p < |g.threads|
    ensures var s := Reached(g, workers, run);
            && Sized(g, s) && s.starts[p] <= 1 && s.finals[p] <= s.starts[p]
            && (WaitsOn(g, p, d) && s.starts[p] == 1 ==> s.finals[d] == 1)
  {
    var s := Reached(g, workers, run);
    ReachedInv(g, workers, run);
    assert PipeOk(g, s, p);
    if WaitsOn(g, p, d) && s.starts[p] == 1 {
      DependencyFinal(g, s, p, d);
    }
  }

  /** With no active task left, every task is finished or about to declare the query done. */
  lemma NoneActive(g: Graph, s: State, t: nat)
    requires GraphOk(g) && Inv(g, s) && s.active == 0 && t < |s.tasks|
    ensures s.tasks[t].at.Closing? || s.tasks[t].at.Finished?
  {
    CountNone(s.tasks, Active);
    assert !Active(s.tasks[t]);
  }

  /** The query is declared done at most once; then every task that was ever created has finished, and
      no step is possible any more. */
  lemma DoneIsFinal(g: Graph, workers: nat, run: seq<Step>, a: Step)
    requires GraphOk(g) && IsRun(g, workers, run)
    ensures var s := Reached(g, workers, run);
            && s.dones <= 1 && Sized(g, s)
            && (s.done ==> s.dones == 1 && s.active == 0 && !Enabled(g, workers, s, a) &&
                           forall t | 0 <= t < |s.tasks| :: s.tasks[t].at.Finished?)
  {
    var s := Reached(g, workers, run);
    ReachedInv(g, workers, run);
    if s.done {
      forall t | 0 <= t < |s.tasks| ensures s.tasks[t].at.Finished? {
        NoneActive(g, s, t);
      }
    }
  }

  // ---------------------------------------------------------------- a run that ends without an error

  /** Some numbering puts every pipeline after those it waits on. */
  predicate Ranks(g: Graph, rank: seq<nat>) {
    |rank| == |g.dependents| &&
    forall d, k | 0 <= d < |g.dependents| && 0 <= k < |g.dependents[d]| ::
      g.dependents[d][k] < |rank| ==> rank[d] < rank[g.dependents[d][k]]
  }

  lemma {:induction false} AllFinal(g: Graph, s: State, rank: seq<nat>, p: nat)
    requires GraphOk(g) && Inv(g, s) && Ranks(g, rank) && s.active == 0 && !s.error && p < |g.threads|
    ensures s.starts[p] == 1 && s.finals[p] == 1
    decreases rank[p]
  {
    assert PipeOk(g, s, p);
    forall e | e in EdgesInto(g, p) ensures e !in s.pending[p] {
      AllFinal(g, s, rank, e.tail);
      assert PipeOk(g, s, e.tail);
      NoneActive(g, s, s.closer[e.tail]);
      assert EdgePending(g, s, e.tail, e.slot) == (Edge(e.tail, e.slot) in s.pending[p]);
    }
    assert s.pending[p] == {};
    if s.due[p] != NOBODY {
      NoneActive(g, s, s.due[p]);
    }
    forall t | 0 <= t < |s.tasks| ensures !EarlyOf(p)(s.tasks[t]) {
      NoneActive(g, s, t);
    }
    CountNone(s.tasks, EarlyOf(p));
    NoneActive(g, s, s.closer[p]);
  }

  /** On an acyclic graph, when the query is declared done without an error every pipeline has been
      scheduled exactly once and finalized exactly once. */
  lemma DoneMeansAllFinalized(g: Graph, workers: nat, run: seq<Step>, rank: seq<nat>, p: nat)
    requires GraphOk(g) && IsRun(g, workers, run) && Ranks(g, rank) && p < |g.threads|
    requires Reached(g, workers, run).done && !Reached(g, workers, run).error
    ensures var s := Reached(g, workers, run); Sized(g, s) && s.starts[p] == 1 && s.finals[p] == 1
  {
    ReachedInv(g, workers, run);
    AllFinal(g, Reached(g, workers, run), rank, p);
  }

  // ---------------------------------------------------------------- every run drains

  /** Steps still ahead of a task, counting those it takes only if it turns out to be the last. */
  function Ahead(g: Graph, x: Task): nat {
    var n := if x.pipeline < |g.dependents| then |g.dependents[x.pipeline]| else 0;
    match x.at
    case Held(_) => 6
    case Queued => 5
    case Running => 4
    case Ran => 3
    case Last => 2 * n + 5
    case Finalizing => 2 * n + 4
    case Releasing(i) => 3 + if i <= n then 2 * (n - i) else 0
    case Arming(i) => 2 + if i <= n then 2 * (n - i) else 0
    case Leaving => 2
    case Closing => 1
    case Finished => 0
  }

  function TasksAhead(g: Graph, tasks: seq<Task>): nat {
    if tasks == [] then 0 else TasksAhead(g, tasks[..|tasks| - 1]) + Ahead(g, tasks[|tasks| - 1])
  }

  /** What a pipeline may still cost: its tasks if they do not exist yet, and its release of dependents
      if nobody is its last task yet. */
  function PipeAhead(g: Graph, s: State, p: nat): nat
    requires GraphOk(g) && Sized(g, s) && p < |g.threads|
  {
    (if s.starts[p] == 0 then 6 * g.threads[p] else 0) +
    (if s.closer[p] == NOBODY then 2 * |g.dependents[p]| + 3 else 0)
  }

  function PipesAhead(g: Graph, s: State, n: nat): nat
    requires GraphOk(g) && Sized(g, s) && n <= |g.threads|
  {
    if n == 0 then 0 else PipesAhead(g, s, n - 1) + PipeAhead(g, s, n - 1)
  }

  function Measure(g: Graph, s: State): nat
    requires GraphOk(g) && Sized(g, s)
  {
    TasksAhead(g, s.tasks) + PipesAhead(g, s, |g.threads|)
  }

  lemma {:induction false} TasksMove(g: Graph, tasks: seq<Task>, t: nat, x: Task)
    requires t < |tasks|
    ensures TasksAhead(g, tasks[t := x]) + Ahead(g, tasks[t]) == TasksAhead(g, tasks) + Ahead(g, x)
  {
    var n := |tasks| - 1;
    if t == n {
      assert tasks[t := x][..n] == tasks[..n];
    } else {
      assert tasks[t := x][..n] == tasks[..n][t := x];
      TasksMove(g, tasks[..n], t, x);
    }
  }

  lemma {:induction false} TasksFresh(g: Graph, tasks: seq<Task>, q: nat, n: nat, o: nat)
    ensures TasksAhead(g, tasks + Fresh(q, n, Held(o))) == TasksAhead(g, tasks) + 6 * n
  {
    var more := Fresh(q, n, Held(o));
    if n == 0 {
      assert tasks + more == tasks;
    } else {
      assert (tasks + more)[..|tasks| + n - 1] == tasks + Fresh(q, n - 1, Held(o));
      TasksFresh(g, tasks, q, n - 1, o);
    }
  }

  lemma {:induction false} TasksNoMore(g: Graph, a: seq<Task>, b: seq<Task>)
    requires |a| == |b| && forall i | 0 <= i < |a| :: Ahead(g, b[i]) <= Ahead(g, a[i])
    ensures TasksAhead(g, b) <= TasksAhead(g, a)
  {
    if a != [] {
      var n := |a| - 1;
      TasksNoMore(g, a[..n], b[..n]);
    }
  }

  /** Only pipeline q's share changed. */
  lemma {:induction false} PipesChange(g: Graph, s: State, s': State, q: nat, n: nat)
    requires GraphOk(g) && Sized(g, s) && Sized(g, s') && q < |g.threads| && n <= |g.threads|
    requires forall p | 0 <= p < |g.threads| && p != q :: PipeAhead(g, s', p) == PipeAhead(g, s, p)
    ensures PipesAhead(g, s', n) + (if q < n then PipeAhead(g, s, q) else 0) ==
            PipesAhead(g, s, n) + (if q < n then PipeAhead(g, s', q) else 0)
  {
    if n > 0 {
      PipesChange(g, s, s', q, n - 1);
    }
  }

  lemma EnqueueShrinks(g: Graph, s: State, t: nat)
    requires GraphOk(g) && Sized(g, s) && t < |s.tasks| && s.tasks[t].at.Releasing?
    ensures Sized(g, DoEnqueue(s, t)) && Measure(g, DoEnqueue(s, t)) < Measure(g, s)
  {
    assert Sized(g, DoEnqueue(s, t));
    PipesChange(g, s, DoEnqueue(s, t), s.tasks[t].pipeline, |g.threads|);
    var moved := s.tasks[t := Task(s.tasks[t].pipeline, Leaving)];
    TasksMove(g, s.tasks, t, moved[t]);
    TasksNoMore(g, moved, DoEnqueue(s, t).tasks);
  }

  lemma ArmShrinks(g: Graph, s: State, t: nat)
    requires GraphOk(g) && Sized(g, s) && t < |s.tasks| && s.tasks[t].at.Arming?
    requires s.tasks[t].at.i < |g.dependents[PipelineOf(s, t)]|
    requires s.starts[g.dependents[PipelineOf(s, t)][s.tasks[t].at.i]] == 0
    ensures Sized(g, DoArm(g, s, t)) && Measure(g, DoArm(g, s, t)) < Measure(g, s)
  {
    var p, i, s' := PipelineOf(s, t), s.tasks[t].at.i, DoArm(g, s, t);
    var q, x := g.dependents[p][i], Task(p, Releasing(i + 1));
    assert Sized(g, s');
    TasksMove(g, s.tasks, t, x);
    TasksFresh(g, s.tasks[t := x], q, g.threads[q], t);
    PipesChange(g, s, s', q, |g.threads|);
  }

  /** A step that moves one task, leaving the pipelines' shares as they are. */
  lemma MoveShrinks(g: Graph, s: State, s': State, t: nat)
    requires GraphOk(g) && Sized(g, s) && t < |s.tasks| == |s'.tasks| && Sized(g, s')
    requires s'.tasks == s.tasks[t := s'.tasks[t]] && s'.starts == s.starts && s'.closer == s.closer
    requires Ahead(g, s'.tasks[t]) < Ahead(g, s.tasks[t])
    ensures Measure(g, s') < Measure(g, s)
  {
    TasksMove(g, s.tasks, t, s'.tasks[t]);
    PipesChange(g, s, s', s.tasks[t].pipeline, |g.threads|);
  }

  lemma CountDownShrinks(g: Graph, s: State, t: nat)
    requires GraphOk(g) && Sized(g, s) && t < |s.tasks| && s.tasks[t].at.Ran?
    requires s.remaining[PipelineOf(s, t)] > 0 && s.closer[PipelineOf(s, t)] == NOBODY
    ensures Sized(g, DoCountDown(s, t)) && Measure(g, DoCountDown(s, t)) < Measure(g, s)
  {
    var s' := DoCountDown(s, t);
    assert Sized(g, s');
    TasksMove(g, s.tasks, t, s'.tasks[t]);
    PipesChange(g, s, s', PipelineOf(s, t), |g.threads|);
  }

  /** Every step makes the measure smaller, so no run is longer than the measure it starts from. */
  lemma StepShrinks(g: Graph, workers: nat, s: State, a: Step)
    requires GraphOk(g) && Inv(g, s) && Enabled(g, workers, s, a)
    ensures Sized(g, Apply(g, workers, s, a)) && Measure(g, Apply(g, workers, s, a)) < Measure(g, s)
  {
    hide Measure, PipesAhead, TasksAhead, ReleasedTo, Count, EarlyOf, DoCountDown, EdgesInto, DoneOk, Active;
    hide DoEnqueue;
    var t, s', p := a.t, Apply(g, workers, s, a), s.tasks[a.t].pipeline;
    assert TaskOk(g, s, t) && PipeOk(g, s, p);
    match a
    case Arm(_) =>
      ArmFinds(g, s, t);
      ArmShrinks(g, s, t);
    case Enqueue(_) => EnqueueShrinks(g, s, t);
    case CountDown(_) => CountDownShrinks(g, s, t);
    case _ => MoveShrinks(g, s, s', t);
  }

  lemma {:induction false} RunIsShort(g: Graph, workers: nat, s: State, run: seq<Step>)
    requires GraphOk(g) && Inv(g, s) && CanRun(g, workers, s, run)
    ensures |run| <= Measure(g, s)
    decreases |run|
  {
    if run != [] {
      StepKeeps(g, workers, s, run[0]);
      StepShrinks(g, workers, s, run[0]);
      RunIsShort(g, workers, Apply(g, workers, s, run[0]), run[1..]);
    }
  }

  predicate Throws(a: Step) {
    (a.Run? || a.Finalize?) && a.throws
  }

  /** The step a task on a worker takes next is possible, and need not throw. */
  lemma WorkerCanStep(g: Graph, workers: nat, s: State, t: nat) returns (a: Step)
    requires GraphOk(g) && Inv(g, s) && t < |s.tasks| && OnWorker(s.tasks[t])
    ensures Enabled(g, workers, s, a)
    ensures a.t == t && !a.Dequeue? && !Throws(a)
  {
    var p := s.tasks[t].pipeline;
    assert TaskOk(g, s, t) && PipeOk(g, s, p);
    match s.tasks[t].at
    case Running => a := Run(t, false);
    case Ran =>
      CountSome(s.tasks, t, EarlyOf(p));
      a := CountDown(t);
    case Last => a := Decide(t);
    case Finalizing => a := Finalize(t, false);
    case Releasing(i) =>
      if i < |g.dependents[p]| {
        ReleaseFinds(g, s, t);
        a := Release(t);
      } else {
        a := Enqueue(t);
      }
    case Arming(_) => a := Arm(t);
    case Leaving =>
      CountSome(s.tasks, t, Active);
      a := Leave(t);
    case Closing => a := Close(t);
  }

  /** With at least one worker, an unfinished query can always take a step. */
  lemma CanProceed(g: Graph, workers: nat, s: State) returns (a: Step)
    requires GraphOk(g) && Inv(g, s) && workers > 0 && s.tasks != [] && !s.done
    ensures Enabled(g, workers, s, a)
  {
    if s.active == 0 {
      var t :| 0 <= t < |s.tasks| && s.tasks[t].at.Closing?;
      a := Close(t);
    } else {
      CountNone(s.tasks, Active);
      var t :| 0 <= t < |s.tasks| && Active(s.tasks[t]);
      assert TaskOk(g, s, t);
      if OnWorker(s.tasks[t]) {
        a := WorkerCanStep(g, workers, s, t);
      } else if s.tasks[t].at.Held? {
        a := WorkerCanStep(g, workers, s, s.tasks[t].at.owner);
      } else if Count(s.tasks, OnWorker) < workers {
        a := Dequeue(t);
      } else {
        CountNone(s.tasks, OnWorker);
        var u :| 0 <= u < |s.tasks| && OnWorker(s.tasks[u]);
        a := WorkerCanStep(g, workers, s, u);
      }
    }
  }

  /** Every run is finite, and one that cannot be continued has declared the query done with no task
      left, whether or not an error occurred on the way. */
  lemma EveryRunDrains(g: Graph, workers: nat, run: seq<Step>)
    requires GraphOk(g) && IsRun(g, workers, run) && workers > 0 && Init(g).tasks != []
    ensures Inv(g, Init(g)) && |run| <= Measure(g, Init(g))
    ensures var s := Reached(g, workers, run);
            && Sized(g, s)
            && ((forall a :: !Enabled(g, workers, s, a)) <==> s.done)
            && (s.done ==> s.active == 0)
  {
    var s := Reached(g, workers, run);
    InitInv(g);
    RunIsShort(g, workers, Init(g), run);
    ReachedInv(g, workers, run);
    TasksStay(g, workers, Init(g), run);
    if s.done {
      forall a: Step ensures !Enabled(g, workers, s, a) {
        DoneIsFinal(g, workers, run, a);
      }
    } else {
      var a := CanProceed(g, workers, s);
    }
  }

  lemma {:induction false} TasksStay(g: Graph, workers: nat, s: State, run: seq<Step>)
    requires GraphOk(g) && CanRun(g, workers, s, run)
    ensures |After(g, workers, s, run).tasks| >= |s.tasks|
    decreases |run|
  {
    if run != [] {
      TasksStay(g, workers, Apply(g, workers, s, run[0]), run[1..]);
    }
  }

  // ---------------------------------------------------------------- the worker pool

  lemma WorkersStep(g: Graph, workers: nat, s: State, a: Step)
    requires GraphOk(g) && Sized(g, s) && Enabled(g, workers, s, a) && Count(s.tasks, OnWorker) <= workers
    ensures Count(Apply(g, workers, s, a).tasks, OnWorker) <= workers
  {
    hide Count;
    var s' := Apply(g, workers, s, a);
    if a.Arm? {
      ArmCounts(g, s, a.t, OnWorker);
    } else if a.Enqueue? {
      CountSame(s.tasks, s'.tasks, OnWorker);
    } else {
      assert s'.tasks == s.tasks[a.t := s'.tasks[a.t]];
      CountMove(s.tasks, a.t, s'.tasks[a.t], OnWorker);
    }
  }

  lemma {:induction false} WorkersAfter(g: Graph, workers: nat, s: State, run: seq<Step>)
    requires GraphOk(g) && CanRun(g, workers, s, run) && Count(s.tasks, OnWorker) <= workers
    ensures Count(After(g, workers, s, run).tasks, OnWorker) <= workers
    decreases |run|
  {
    if run != [] {
      WorkersStep(g, workers, s, run[0]);
      WorkersAfter(g, workers, Apply(g, workers, s, run[0]), run[1..]);
    }
  }

  /** In every interleaving at most `workers` tasks are off the queue and unfinished: running, counting
      down, finalizing or releasing. */
  lemma PoolBounds(g: Graph, workers: nat, run: seq<Step>)
    requires GraphOk(g) && IsRun(g, workers, run)
    ensures Count(Reached(g, workers, run).tasks, OnWorker) <= workers
  {
    var s := Init(g);
    SeedShape(g, |g.threads|);
    forall t | 0 <= t < |s.tasks| ensures !OnWorker(s.tasks[t]) {
      assert Seeded(g, |g.threads|, s.tasks[t]);
    }
    CountNone(s.tasks, OnWorker);
    WorkersAfter(g, workers, s, run);
  }
}
