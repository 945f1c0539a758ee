/** What every step of the scheduler keeps. */
module SchedulerInvariant {
  import opened Counting
  import opened Scheduler

  // ---------------------------------------------------------------- the invariant

  /** Exactly the first `i` edges out of p have been released. */
  predicate ReleasedTo(g: Graph, s: State, p: nat, i: nat)
    requires GraphOk(g) && Sized(g, s) && p < |g.threads|
  {
    forall k {:trigger EdgePending(g, s, p, k)} | 0 <= k < |g.dependents[p]| :: EdgePending(g, s, p, k) == (k >= i)
  }

  predicate EdgePending(g: Graph, s: State, p: nat, k: nat)
    requires GraphOk(g) && Sized(g, s) && p < |g.threads| && k < |g.dependents[p]|
  {
    Edge(p, k) in s.pending[g.dependents[p][k]]
  }

  /** A task belongs to a scheduled pipeline. A held task's owner is still releasing. A task past the
      count-down that has not left is the pipeline's last, and has released what its position says. */
  predicate TaskOk(g: Graph, s: State, t: nat)
    requires GraphOk(g) && Sized(g, s) && t < |s.tasks|
  {
    var p, at := s.tasks[t].pipeline, s.tasks[t].at;
    && s.starts[p] == 1
    && (Ending(s.tasks[t]) ==> s.closer[p] == t)
    && match at
       case Held(o) => o < |s.tasks| && (s.tasks[o].at.Releasing? || s.tasks[o].at.Arming?)
       case Last => s.finals[p] == 0
       case Finalizing => s.finals[p] == 0
       case Releasing(i) => s.finals[p] == 1 && i <= |g.dependents[p]| && ReleasedTo(g, s, p, i)
       case Arming(i) =>
         s.finals[p] == 1 && i < |g.dependents[p]| && ReleasedTo(g, s, p, i + 1) && s.due[g.dependents[p][i]] == t
       case _ => true
  }

  /** The pipeline's counters are what they stand for, and it is scheduled once its last edge is
      released and someone has created its tasks. */
  predicate PipeOk(g: Graph, s: State, p: nat)
    requires GraphOk(g) && Sized(g, s) && p < |g.threads|
  {
    && s.pending[p] <= EdgesInto(g, p) && s.waiting[p] == |s.pending[p]|
    && s.remaining[p] == Count(s.tasks, EarlyOf(p)) && s.remaining[p] <= g.threads[p]
    && s.starts[p] == (if s.pending[p] == {} && s.due[p] == NOBODY then 1 else 0)
    && s.finals[p] <= 1
    && DueOk(g, s, p) && CloserOk(g, s, p)
  }

  /** A pipeline that is due is about to be created by the task that released its last edge. */
  predicate DueOk(g: Graph, s: State, p: nat)
    requires GraphOk(g) && Sized(g, s) && p < |g.threads|
  {
    s.due[p] != NOBODY ==>
      && s.pending[p] == {} && 0 <= s.due[p] < |s.tasks| && s.tasks[s.due[p]].at.Arming?
      && s.tasks[s.due[p]].at.i < |g.dependents[s.tasks[s.due[p]].pipeline]|
      && g.dependents[s.tasks[s.due[p]].pipeline][s.tasks[s.due[p]].at.i] == p
  }

  /** A scheduled pipeline has a last task exactly when none of its tasks is before the count-down; it
      has released nothing before it is finalized and, once its last task has left, everything. */
  predicate CloserOk(g: Graph, s: State, p: nat)
    requires GraphOk(g) && Sized(g, s) && p < |g.threads|
  {
    && (s.closer[p] != NOBODY <==> s.starts[p] == 1 && s.remaining[p] == 0)
    && (s.finals[p] == 0 ==> ReleasedTo(g, s, p, 0))
    && (s.closer[p] == NOBODY ==> s.finals[p] == 0)
    && (s.closer[p] != NOBODY ==>
          && 0 <= s.closer[p] < |s.tasks| && s.tasks[s.closer[p]].pipeline == p && !Early(s.tasks[s.closer[p]])
          && (!Ending(s.tasks[s.closer[p]]) ==>
                (s.finals[p] == 1 ==> ReleasedTo(g, s, p, |g.dependents[p]|)) && (!s.error ==> s.finals[p] == 1)))
  }

  /** The query is declared done at most once, by a task that found no other active task. */
  predicate DoneOk(s: State) {
    && s.dones == (if s.done then 1 else 0)
    && (s.done ==> s.active == 0)
    && (forall t {:trigger s.tasks[t]} | 0 <= t < |s.tasks| && s.tasks[t].at.Closing? ::
          s.active == 0 && !s.done && forall u {:trigger s.tasks[u]} | 0 <= u < |s.tasks| && s.tasks[u].at.Closing? ::
            u == t)
  }

  /** Once no task is active, someone has declared the query done or is about to. */
  predicate EndOk(s: State) {
    s.active == 0 && s.tasks != [] ==> s.done || exists t :: 0 <= t < |s.tasks| && s.tasks[t].at.Closing?
  }

  predicate Inv(g: Graph, s: State)
    requires GraphOk(g)
  {
    && Sized(g, s)
    && (forall t {:trigger TaskOk(g, s, t)} | 0 <= t < |s.tasks| :: TaskOk(g, s, t))
    && (forall p {:trigger PipeOk(g, s, p)} | 0 <= p < |g.threads| :: PipeOk(g, s, p))
    && s.active == Count(s.tasks, Active)
    && DoneOk(s) && EndOk(s)
  }

  // ---------------------------------------------------------------- counting

  lemma {:induction false} CountFresh(p: nat, n: nat, at: Position, f: Task -> bool)
    ensures Count(Fresh(p, n, at), f) == if f(Task(p, at)) then n else 0
  {
    if n > 0 {
      assert Fresh(p, n, at)[..n - 1] == Fresh(p, n - 1, at);
      CountFresh(p, n - 1, at, f);
    }
  }
}
