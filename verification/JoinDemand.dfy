/** The external hash join, whose pipeline asks for its tasks once its input is partitioned: the peak
    demand, computed before, does not bound them. */
module JoinDemand {
  import opened Counting
  import opened Scheduler
  import opened SchedulerPeak
  import opened PeakReached
  import PeakDemand

  /** The partitions that hold rows, and one more for preserved rows with NULL keys. */
  function Pairs(partitions: seq<nat>, nullSpill: bool): nat {
    Count(partitions, (rows: nat) => rows > 0) + if nullSpill then 1 else 0
  }

  /** The tasks an external hash join's pipeline gets: one per partition with rows, within the limits
      every pipeline has. */
  method JoinTasks(partitions: seq<nat>, nullSpill: bool, limit: nat) returns (n: nat)
    requires limit >= 1
    ensures n == Asked(partitions, nullSpill, limit)
  {
    var pairs := 0;
    for i := 0 to |partitions|
      invariant pairs == Count(partitions[..i], (rows: nat) => rows > 0)
    {
      assert partitions[..i + 1][..i] == partitions[..i];
      if partitions[i] > 0 {
        pairs := pairs + 1;
      }
    }
    assert partitions[..|partitions|] == partitions;
    if nullSpill {
      pairs := pairs + 1;
    }
    n := if pairs > 1 then pairs else 1;
    n := if n > limit then limit else n;
  }

  function Asked(partitions: seq<nat>, nullSpill: bool, limit: nat): nat {
    var n := if Pairs(partitions, nullSpill) > 1 then Pairs(partitions, nullSpill) else 1;
    if n > limit then limit else n
  }

  /** A pipeline that partitions the probe side, and the join that waits on it. */
  function TwoStages(tasks: nat): Graph {
    Graph([[1], []], [1, tasks])
  }

  const STAGES: PeakDemand.Lists := [[], [0]]

  lemma StagesOk(tasks: nat)
    requires tasks >= 1
    ensures GraphOk(TwoStages(tasks)) && Mirrors(TwoStages(tasks), STAGES) && PeakDemand.Ranked(STAGES, [0, 1])
    ensures PeakDemand.Reaches(STAGES, 1, 0) && IsAntichain(STAGES, {1})
  {
    var g := TwoStages(tasks);
    assert PeakDemand.IsPath(STAGES, [1, 0]);
    assert 0 in STAGES[1] && 1 in g.dependents[0];
  }

  /** Before any row is partitioned every join is counted as one task. */
  lemma EmptyPairs(partitions: seq<nat>, nullSpill: bool)
    requires forall i | 0 <= i < |partitions| :: partitions[i] == 0
    ensures Pairs(partitions, nullSpill) <= 1
  {
    CountNone(partitions, (rows: nat) => rows > 0);
  }

  lemma StageAlone(i: nat)
    requires i < 2
    ensures PeakDemand.Weight([1, 1], PeakDemand.Together(STAGES, i), 2) == 1
  {
    StagesOk(1);
    assert PeakDemand.Together(STAGES, i) == {i};
    assert PeakDemand.Weight([1, 1], {i}, 2) == PeakDemand.Weight([1, 1], {i}, 1) + if 1 == i then 1 else 0;
    assert PeakDemand.Weight([1, 1], {i}, 1) == PeakDemand.Weight([1, 1], {i}, 0) + if 0 == i then 1 else 0;
  }

  lemma StagesPeak(peak: nat)
    ensures PeakDemand.IsPeak(STAGES, [1, 1], peak) <==> peak == 1
  {
    StageAlone(0);
    StageAlone(1);
  }

  /** The peak demand is computed while the partitions are empty. It bounds the tasks of the query if
      and only if the join later finds at most one pair to work on, or may use only one thread. */
  lemma JoinDemandExact(before: seq<nat>, after: seq<nat>, nullSpill: bool, limit: nat, workers: nat, peak: nat)
    requires limit >= 1 && workers > 0 && forall i | 0 <= i < |before| :: before[i] == 0
    requires PeakDemand.IsPeak(STAGES, [1, Asked(before, nullSpill, limit)], peak)
    ensures GraphOk(TwoStages(Asked(after, nullSpill, limit)))
    ensures var g := TwoStages(Asked(after, nullSpill, limit));
            (forall run | IsRun(g, workers, run) :: Within(g, workers, peak, run)) <==>
            Pairs(after, nullSpill) <= 1 || limit == 1
  {
    var tasks := Asked(after, nullSpill, limit);
    var g := TwoStages(tasks);
    StagesOk(tasks);
    EmptyPairs(before, nullSpill);
    StagesPeak(peak);
    if tasks == 1 {
      forall run | IsRun(g, workers, run) ensures Within(g, workers, peak, run) {
        PeakBoundsTasks(g, STAGES, [1, 1], peak, workers, run);
      }
    } else {
      PeakExact(g, STAGES, [0, 1], workers, peak);
      assert PeakDemand.Weight(g.threads, {1}, 2) == PeakDemand.Weight(g.threads, {1}, 1) + tasks;
    }
  }

  /** The state of the two stages when the first stage's one task is at `at`. */
  function Stage(tasks: seq<Task>, at: Position, left: nat, next: nat, waiting: nat, starts: nat, finals: nat): State {
    State([Task(0, at)] + tasks, [left, next], [0, waiting], 1 + |tasks|, false, false,
          [{}, if waiting == 0 then {} else {Edge(0, 0)}], [1, starts], [finals, 0],
          [if left == 0 then 0 else NOBODY, NOBODY], [NOBODY, if at.Arming? then 0 else NOBODY], 0)
  }

  lemma StagesBegin(tasks: nat)
    requires tasks >= 1
    ensures GraphOk(TwoStages(tasks)) && Init(TwoStages(tasks)) == Stage([], Queued, 1, 0, 1, 0, 0)
  {
    hide IsEdge, Head, WaitsOn, IsAntichain, GraphOk, Mirrors;
    var g := TwoStages(tasks);
    StagesOk(tasks);
    assert EdgesInto(g, 0) == {};
    assert EdgesInto(g, 1) == {Edge(0, 0)};
    assert SeedTasks(g, 0) == [];
    assert SeedTasks(g, 1) == Fresh(0, 1, Queued) == [Task(0, Queued)];
    assert SeedTasks(g, 2) == [Task(0, Queued)];
  }

  const STAGES_RUN: seq<Step> :=
    [Dequeue(0), Run(0, false), CountDown(0), Decide(0), Finalize(0, false), Release(0), Arm(0)]

  predicate Goes(g: Graph, s: State, a: Step, s': State) {
    GraphOk(g) && Sized(g, s) && Enabled(g, 1, s, a) && Apply(g, 1, s, a) == s'
  }

  lemma Then(g: Graph, s: State, a: Step, s': State, run: seq<Step>)
    requires Goes(g, s, a, s') && CanRun(g, 1, s', run)
    ensures CanRun(g, 1, s, [a] + run) && After(g, 1, s, [a] + run) == After(g, 1, s', run)
  {
    assert ([a] + run)[1..] == run;
  }

  lemma FirstStage(tasks: nat)
    requires tasks >= 1
    ensures var g := TwoStages(tasks);
            && Goes(g, Stage([], Queued, 1, 0, 1, 0, 0), Dequeue(0), Stage([], Running, 1, 0, 1, 0, 0))
            && Goes(g, Stage([], Running, 1, 0, 1, 0, 0), Run(0, false), Stage([], Ran, 1, 0, 1, 0, 0))
            && Goes(g, Stage([], Ran, 1, 0, 1, 0, 0), CountDown(0), Stage([], Last, 0, 0, 1, 0, 0))
            && Goes(g, Stage([], Last, 0, 0, 1, 0, 0), Decide(0), Stage([], Finalizing, 0, 0, 1, 0, 0))
  {
    StagesOk(tasks);
    hide Mirrors, PeakDemand.Ranked, PeakDemand.Reaches, IsAntichain;
  }

  lemma FinalizeStage(tasks: nat)
    requires tasks >= 1
    ensures Goes(TwoStages(tasks), Stage([], Finalizing, 0, 0, 1, 0, 0), Finalize(0, false),
                 Stage([], Releasing(0), 0, 0, 1, 0, 1))
  {
    hide TwoStages, Mirrors, WaitsOn, IsAntichain, GraphOk;
    StagesOk(tasks);
  }

  lemma ReleaseStage(tasks: nat)
    requires tasks >= 1
    ensures Goes(TwoStages(tasks), Stage([], Releasing(0), 0, 0, 1, 0, 1), Release(0),
                 Stage([], Arming(0), 0, 0, 0, 0, 1))
  {
    StagesOk(tasks);
    assert {Edge(0, 0)} - {Edge(0, 0)} == {};
  }

  lemma ArmStage(tasks: nat)
    requires tasks >= 1
    ensures Goes(TwoStages(tasks), Stage([], Arming(0), 0, 0, 0, 0, 1), Arm(0),
                 Stage(Fresh(1, tasks, Held(0)), Releasing(1), 0, tasks, 0, 1, 1))
  {
    hide Mirrors, WaitsOn, IsAntichain, GraphOk;
    StagesOk(tasks);
  }

  lemma StageArmed(tasks: nat)
    requires tasks >= 1
    ensures GraphOk(TwoStages(tasks))
    ensures var s := Stage(Fresh(1, tasks, Held(0)), Releasing(1), 0, tasks, 0, 1, 1);
            Sized(TwoStages(tasks), s) && s.remaining == [0, tasks]
  {
    StagesOk(tasks);
  }

  /** The first stage's task does its work, ends the stage and creates the join's tasks. */
  lemma StagesRun(tasks: nat)
    requires tasks >= 1
    ensures GraphOk(TwoStages(tasks)) && IsRun(TwoStages(tasks), 1, STAGES_RUN)
    ensures Reached(TwoStages(tasks), 1, STAGES_RUN).remaining == [0, tasks]
  {
    hide DoCountDown, DoArm, DoRelease, DoFinalize, EdgesInto, Count, Move, OnWorker;
    var g := TwoStages(tasks);
    var s := [Stage([], Queued, 1, 0, 1, 0, 0), Stage([], Running, 1, 0, 1, 0, 0), Stage([], Ran, 1, 0, 1, 0, 0),
              Stage([], Last, 0, 0, 1, 0, 0), Stage([], Finalizing, 0, 0, 1, 0, 0),
              Stage([], Releasing(0), 0, 0, 1, 0, 1), Stage([], Arming(0), 0, 0, 0, 0, 1),
              Stage(Fresh(1, tasks, Held(0)), Releasing(1), 0, tasks, 0, 1, 1)];
    StagesBegin(tasks);
    FirstStage(tasks);
    FinalizeStage(tasks);
    ReleaseStage(tasks);
    ArmStage(tasks);
    StageArmed(tasks);
    hide Stage, TwoStages, Goes, Apply, Enabled, Sized, Init;
    Then(g, s[6], Arm(0), s[7], []);
    Then(g, s[5], Release(0), s[6], STAGES_RUN[6..]);
    Then(g, s[4], Finalize(0, false), s[5], STAGES_RUN[5..]);
    Then(g, s[3], Decide(0), s[4], STAGES_RUN[4..]);
    Then(g, s[2], CountDown(0), s[3], STAGES_RUN[3..]);
    Then(g, s[1], Run(0, false), s[2], STAGES_RUN[2..]);
    Then(g, s[0], Dequeue(0), s[1], STAGES_RUN[1..]);
  }

  /** Three partitions hold rows: the demand is one task, and three are outstanding. */
  lemma JoinExceedsPeak()
    ensures PeakDemand.IsPeak(STAGES, [1, Asked([0, 0, 0, 0], false, 8)], 1)
    ensures var g := TwoStages(Asked([7, 0, 2, 5], false, 8));
            GraphOk(g) && IsRun(g, 1, STAGES_RUN) && !Within(g, 1, 1, STAGES_RUN)
  {
    assert Asked([0, 0, 0, 0], false, 8) == 1 by {
      EmptyPairs([0, 0, 0, 0], false);
    }
    assert Asked([7, 0, 2, 5], false, 8) == 3 by {
      assert [7, 0, 2, 5][..3] == [7, 0, 2] && [7, 0, 2][..2] == [7, 0] && [7, 0][..1] == [7] && [7][..0] == [];
    }
    StagesPeak(1);
    StagesRun(3);
    var s := Reached(TwoStages(3), 1, STAGES_RUN);
    assert TasksOutstanding(s, 1) == TasksOutstanding(s, 0);
  }
}
