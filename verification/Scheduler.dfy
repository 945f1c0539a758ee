/** The pipeline scheduler as a step protocol. A query is a graph of pipelines; each pipeline is run by
    several tasks, and the task that finishes last finalizes the pipeline and releases the pipelines
    that wait on it. Every atomic counter operation and every locked section is one step, and the tasks
    of all workers interleave freely. */
module Scheduler {
  import opened Counting

  /** `dependents[p]` lists the pipelines released when p finishes, once per dependency edge;
      `threads[p]` is p's task count. */
  datatype Graph = Graph(dependents: seq<seq<nat>>, threads: seq<nat>)

  /** One entry of a dependents list. */
  datatype Edge = Edge(tail: nat, slot: nat)

  predicate GraphOk(g: Graph) {
    && |g.threads| == |g.dependents|
    && (forall p | 0 <= p < |g.threads| :: g.threads[p] >= 1)
    && (forall d, k | 0 <= d < |g.dependents| && 0 <= k < |g.dependents[d]| :: g.dependents[d][k] < |g.dependents|)
  }

  predicate IsEdge(g: Graph, e: Edge) {
    e.tail < |g.dependents| && e.slot < |g.dependents[e.tail]|
  }

  function Head(g: Graph, e: Edge): nat
    requires IsEdge(g, e)
  {
    g.dependents[e.tail][e.slot]
  }

  /** The edges into p that come before slot `k` of pipeline `d`. */
  function EdgesBefore(g: Graph, p: nat, d: nat, k: nat): (es: set<Edge>)
    requires d <= |g.dependents| && if d == |g.dependents| then k == 0 else k <= |g.dependents[d]|
    ensures forall e :: e in es <==> IsEdge(g, e) && (e.tail < d || (e.tail == d && e.slot < k)) && Head(g, e) == p
    decreases d, k
  {
    if k > 0 then EdgesBefore(g, p, d, k - 1) + if g.dependents[d][k - 1] == p then {Edge(d, k - 1)} else {}
    else if d > 0 then EdgesBefore(g, p, d - 1, |g.dependents[d - 1]|)
    else {}
  }

  function EdgesInto(g: Graph, p: nat): (es: set<Edge>)
    ensures forall e :: e in es <==> IsEdge(g, e) && Head(g, e) == p
  {
    EdgesBefore(g, p, |g.dependents|, 0)
  }

  /** p waits on d directly. */
  predicate WaitsOn(g: Graph, p: nat, d: nat) {
    d < |g.dependents| && p in g.dependents[d]
  }

  // ---------------------------------------------------------------- tasks

  /** Where a task is: in the list of tasks another task has yet to enqueue, in the queue, running its
      share of the pipeline, about to count down, known to be the last of its pipeline, finalizing,
      releasing the i-th dependent, creating its tasks, about to leave, about to declare the query
      done, or finished. */
  datatype Position =
    | Held(owner: nat) | Queued | Running | Ran
    | Last | Finalizing | Releasing(i: nat) | Arming(i: nat)
    | Leaving | Closing | Finished

  datatype Task = Task(pipeline: nat, at: Position)

  /** Before its count-down. */
  predicate Early(t: Task) {
    t.at.Held? || t.at.Queued? || t.at.Running? || t.at.Ran?
  }

  /** Between its count-down as the last task and its leaving. */
  predicate Ending(t: Task) {
    t.at.Last? || t.at.Finalizing? || t.at.Releasing? || t.at.Arming?
  }

  /** Created and not yet finished. */
  predicate Active(t: Task) {
    !t.at.Closing? && !t.at.Finished?
  }

  /** Held by a worker. */
  predicate OnWorker(t: Task) {
    !t.at.Held? && !t.at.Queued? && !t.at.Finished?
  }

  function EarlyOf(p: nat): Task -> bool {
    (t: Task) => t.pipeline == p && Early(t)
  }

  // ---------------------------------------------------------------- states

  const NOBODY: int := -1

  /** `remaining`, `waiting`, `active`, `done` and `error` are the engine's counters and flags. The rest
      is history: the edges not yet released, how often each pipeline was scheduled and finalized,
      which task counted it down to zero, which task is about to create its tasks, and how often the
      query was declared done. */
  datatype State = State(
    tasks: seq<Task>,
    remaining: seq<nat>, waiting: seq<nat>, active: nat, done: bool, error: bool,
    pending: seq<set<Edge>>, starts: seq<nat>, finals: seq<nat>, closer: seq<int>, due: seq<int>, dones: nat)

  function Fresh(p: nat, n: nat, at: Position): seq<Task> {
    seq(n, _ => Task(p, at))
  }

  /** The pipelines with no dependency, seeded before any worker starts: their tasks, in order. */
  function SeedTasks(g: Graph, p: nat): seq<Task>
    requires GraphOk(g) && p <= |g.threads|
  {
    if p == 0 then []
    else SeedTasks(g, p - 1) + if EdgesInto(g, p - 1) == {} then Fresh(p - 1, g.threads[p - 1], Queued) else []
  }

  function Init(g: Graph): State
    requires GraphOk(g)
  {
    var n := |g.threads|;
    var tasks := SeedTasks(g, n);
    State(tasks,
          seq(n, p requires 0 <= p < n => if EdgesInto(g, p) == {} then g.threads[p] else 0),
          seq(n, p requires 0 <= p < n => |EdgesInto(g, p)|),
          |tasks|, false, false,
          seq(n, p requires 0 <= p < n => EdgesInto(g, p)),
          seq(n, p requires 0 <= p < n => if EdgesInto(g, p) == {} then 1 else 0),
          seq(n, _ => 0), seq(n, _ => NOBODY), seq(n, _ => NOBODY), 0)
  }

  // ---------------------------------------------------------------- steps

  datatype Step =
    | Dequeue(t: nat)
    | Run(t: nat, throws: bool)
    | CountDown(t: nat)
    | Decide(t: nat)
    | Finalize(t: nat, throws: bool)
    | Release(t: nat)
    | Arm(t: nat)
    | Enqueue(t: nat)
    | Leave(t: nat)
    | Close(t: nat)

  function PipelineOf(s: State, t: nat): nat
    requires t < |s.tasks|
  {
    s.tasks[t].pipeline
  }

  /** The shape every state keeps. */
  predicate Sized(g: Graph, s: State) {
    var n := |g.threads|;
    && |s.remaining| == |s.waiting| == |s.pending| == |s.starts| == |s.finals| == |s.closer| == |s.due| == n
    && forall t | 0 <= t < |s.tasks| :: s.tasks[t].pipeline < n
  }

  /** `workers` threads take tasks from the queue. */
  predicate Enabled(g: Graph, workers: nat, s: State, a: Step)
    requires GraphOk(g) && Sized(g, s)
  {
    a.t < |s.tasks| &&
    var at, p := s.tasks[a.t].at, s.tasks[a.t].pipeline;
    match a
    case Dequeue(_) => at.Queued? && Count(s.tasks, OnWorker) < workers
    case Run(_, _) => at.Running?
    case CountDown(_) => at.Ran? && s.remaining[p] > 0
    case Decide(_) => at.Last?
    case Finalize(_, _) => at.Finalizing?
    case Release(_) => at.Releasing? && at.i < |g.dependents[p]| && s.waiting[g.dependents[p][at.i]] > 0
    case Arm(_) => at.Arming? && at.i < |g.dependents[p]|
    case Enqueue(_) => at.Releasing? && at.i >= |g.dependents[p]|
    case Leave(_) => at.Leaving? && s.active > 0
    case Close(_) => at.Closing?
  }

  function Move(s: State, t: nat, at: Position): State
    requires t < |s.tasks|
  {
    s.(tasks := s.tasks[t := Task(s.tasks[t].pipeline, at)])
  }

  function Apply(g: Graph, workers: nat, s: State, a: Step): State
    requires GraphOk(g) && Sized(g, s) && Enabled(g, workers, s, a)
  {
    var t, at, p := a.t, s.tasks[a.t].at, s.tasks[a.t].pipeline;
    match a
    case Dequeue(_) => Move(s, t, Running)
    case Run(_, throws) => Move(s, t, Ran).(error := s.error || throws)
    case CountDown(_) => DoCountDown(s, t)
    case Decide(_) => Move(s, t, if s.error then Leaving else Finalizing)
    case Finalize(_, throws) => DoFinalize(s, t, throws)
    case Release(_) => DoRelease(g, s, t)
    case Arm(_) => DoArm(g, s, t)
    case Enqueue(_) => DoEnqueue(s, t)
    case Leave(_) => Move(s, t, if s.active == 1 then Closing else Finished).(active := s.active - 1)
    case Close(_) => Move(s, t, Finished).(done := true, dones := s.dones + 1)
  }

  /** One fetch_sub on the pipeline's counter; whoever takes it to zero is its last task. */
  function DoCountDown(s: State, t: nat): State
    requires t < |s.tasks| && PipelineOf(s, t) < |s.remaining| == |s.closer| && s.remaining[PipelineOf(s, t)] > 0
  {
    var p := PipelineOf(s, t);
    var left := s.remaining[p] - 1;
    var s' := Move(s, t, if left == 0 then Last else Leaving);
    s'.(remaining := s.remaining[p := left], closer := if left == 0 then s.closer[p := t] else s.closer)
  }

  function DoFinalize(s: State, t: nat, throws: bool): State
    requires t < |s.tasks| && PipelineOf(s, t) < |s.finals|
  {
    var p := PipelineOf(s, t);
    if throws then Move(s, t, Leaving).(error := true)
    else Move(s, t, Releasing(0)).(finals := s.finals[p := s.finals[p] + 1])
  }

  /** One fetch_sub on the next dependent's counter; whoever takes it to zero creates its tasks. */
  function DoRelease(g: Graph, s: State, t: nat): State
    requires GraphOk(g) && Sized(g, s) && t < |s.tasks| && s.tasks[t].at.Releasing?
    requires var i, p := s.tasks[t].at.i, PipelineOf(s, t);
             i < |g.dependents[p]| && s.waiting[g.dependents[p][i]] > 0
  {
    var p, i := PipelineOf(s, t), s.tasks[t].at.i;
    var q := g.dependents[p][i];
    var left := s.waiting[q] - 1;
    var s' := Move(s, t, if left == 0 then Arming(i) else Releasing(i + 1));
    s'.(waiting := s.waiting[q := left], pending := s.pending[q := s.pending[q] - {Edge(p, i)}],
        due := if left == 0 then s.due[q := t] else s.due)
  }

  /** Set the dependent's counter and create its tasks, counting them before anyone can see them. */
  function DoArm(g: Graph, s: State, t: nat): State
    requires GraphOk(g) && Sized(g, s) && t < |s.tasks| && s.tasks[t].at.Arming?
    requires s.tasks[t].at.i < |g.dependents[PipelineOf(s, t)]|
  {
    var p, i := PipelineOf(s, t), s.tasks[t].at.i;
    var q := g.dependents[p][i];
    var s' := Move(s, t, Releasing(i + 1));
    s'.(tasks := s'.tasks + Fresh(q, g.threads[q], Held(t)),
        remaining := s.remaining[q := g.threads[q]], active := s.active + g.threads[q],
        starts := s.starts[q := s.starts[q] + 1], due := s.due[q := NOBODY])
  }

  /** Hand the created tasks to the queue under one lock. */
  function DoEnqueue(s: State, t: nat): State
    requires t < |s.tasks|
  {
    s.(tasks := seq(|s.tasks|, k requires 0 <= k < |s.tasks| =>
         if k == t then Task(s.tasks[k].pipeline, Leaving)
         else if s.tasks[k].at == Held(t) then Task(s.tasks[k].pipeline, Queued)
         else s.tasks[k]))
  }

  // ---------------------------------------------------------------- runs

  /** The steps can be taken one after another from `s`. */
  predicate CanRun(g: Graph, workers: nat, s: State, run: seq<Step>)
    requires GraphOk(g)
    decreases |run|
  {
    Sized(g, s) &&
    (run == [] || (Enabled(g, workers, s, run[0]) && CanRun(g, workers, Apply(g, workers, s, run[0]), run[1..])))
  }

  function After(g: Graph, workers: nat, s: State, run: seq<Step>): State
    requires GraphOk(g) && CanRun(g, workers, s, run)
    decreases |run|
  {
    if run == [] then s else After(g, workers, Apply(g, workers, s, run[0]), run[1..])
  }

  predicate IsRun(g: Graph, workers: nat, run: seq<Step>)
    requires GraphOk(g)
  {
    CanRun(g, workers, Init(g), run)
  }

  function Reached(g: Graph, workers: nat, run: seq<Step>): State
    requires GraphOk(g) && IsRun(g, workers, run)
  {
    After(g, workers, Init(g), run)
  }
}
