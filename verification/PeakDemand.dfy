/** How many tasks can be waiting or running at once: the bound the executor sizes its workers by. */
module PeakDemand {

  type Lists = seq<seq<nat>>

  predicate ListsOk(deps: Lists) {
    forall i, j | 0 <= i < |deps| && 0 <= j < |deps[i]| :: deps[i][j] < |deps|
  }

  /** Some numbering puts every pipeline after its dependencies. */
  predicate Ranked(deps: Lists, rank: seq<nat>) {
    |rank| == |deps| && ListsOk(deps) &&
    forall i, j | 0 <= i < |deps| && 0 <= j < |deps[i]| :: rank[deps[i][j]] < rank[i]
  }

  // ---------------------------------------------------------------- reachability

  /** Each pipeline of the path depends directly on the next. */
  predicate IsPath(deps: Lists, path: seq<nat>) {
    |path| >= 2 && (forall j | 0 <= j < |path| :: path[j] < |deps|) &&
    forall j | 0 <= j < |path| - 1 :: path[j + 1] in deps[path[j]]
  }

  /** i waits on k, directly or through others. */
  ghost predicate Reaches(deps: Lists, i: nat, k: nat) {
    exists path :: IsPath(deps, path) && path[0] == i && path[|path| - 1] == k
  }

  /** The first `m` dependencies of i lead to k. */
  ghost predicate ReachesVia(deps: Lists, i: nat, m: nat, k: nat)
    requires i < |deps| && m <= |deps[i]|
  {
    exists j :: 0 <= j < m && LeadsTo(deps, deps[i][j], k)
  }

  ghost predicate LeadsTo(deps: Lists, d: nat, k: nat) {
    d == k || Reaches(deps, d, k)
  }

  lemma StepPath(deps: Lists, i: nat, d: nat, k: nat)
    requires ListsOk(deps) && i < |deps| && d in deps[i] && LeadsTo(deps, d, k)
    ensures Reaches(deps, i, k)
  {
    if d == k {
      assert IsPath(deps, [i, k]);
    } else {
      var path :| IsPath(deps, path) && path[0] == d && path[|path| - 1] == k;
      var longer := [i] + path;
      forall j | 0 <= j < |longer| - 1 ensures longer[j + 1] in deps[longer[j]] {
        if j > 0 {
          assert longer[j + 1] == path[j] && longer[j] == path[j - 1];
        }
      }
      assert IsPath(deps, longer);
    }
  }

  /** One step along a path. */
  lemma ReachesExact(deps: Lists, i: nat, k: nat)
    requires ListsOk(deps) && i < |deps|
    ensures Reaches(deps, i, k) <==> ReachesVia(deps, i, |deps[i]|, k)
  {
    if Reaches(deps, i, k) {
      var path :| IsPath(deps, path) && path[0] == i && path[|path| - 1] == k;
      var j :| 0 <= j < |deps[i]| && deps[i][j] == path[1];
      if |path| > 2 {
        forall m | 0 <= m < |path[1..]| - 1 ensures path[1..][m + 1] in deps[path[1..][m]] {
          assert path[1..][m] == path[m + 1];
        }
        assert IsPath(deps, path[1..]);
      }
      assert LeadsTo(deps, deps[i][j], k);
    }
    if ReachesVia(deps, i, |deps[i]|, k) {
      var j :| 0 <= j < |deps[i]| && LeadsTo(deps, deps[i][j], k);
      StepPath(deps, i, deps[i][j], k);
    }
  }

  // ---------------------------------------------------------------- the closure

  /** The reachability matrix, filled by depth-first closure. */
  class Closure {
    const deps: Lists
    var reaches: seq<seq<bool>>
    var done: seq<bool>

    ghost predicate Valid()
      reads this
    {
      && ListsOk(deps) && |reaches| == |done| == |deps|
      && forall i | 0 <= i < |deps| :: |reaches[i]| == |deps| && (!done[i] ==> Blank(i))
    }

    predicate Blank(i: nat)
      requires i < |reaches|
      reads this
    {
      forall k | 0 <= k < |reaches[i]| :: !reaches[i][k]
    }

    /** Row i says exactly which pipelines i waits on. */
    ghost predicate Exact(i: nat)
      requires i < |reaches| && |reaches[i]| == |deps|
      reads this
    {
      RowExact(deps, reaches[i], i)
    }

    constructor (deps: Lists)
      requires ListsOk(deps)
      ensures Valid() && this.deps == deps && forall i | 0 <= i < |deps| :: !done[i]
    {
      this.deps := deps;
      reaches := seq(|deps|, _ => seq(|deps|, _ => false));
      done := seq(|deps|, _ => false);
    }

    /** Close row i. Rows of pipelines ranked at or below i that were done stay exact; nothing ranked
        above i is touched. */
    method Close(i: nat, ghost rank: seq<nat>)
      requires Valid() && Ranked(deps, rank) && i < |deps|
      requires forall d | 0 <= d < |deps| && done[d] && rank[d] <= rank[i] :: Exact(d)
      modifies this
      ensures Valid() && done[i]
      ensures forall d | 0 <= d < |deps| && done[d] && rank[d] <= rank[i] :: Exact(d)
      ensures forall d | 0 <= d < |deps| && (rank[d] > rank[i] || (rank[d] == rank[i] && d != i)) ::
                reaches[d] == old(reaches)[d] && done[d] == old(done)[d]
      ensures forall d | 0 <= d < |deps| && old(done)[d] :: done[d]
      decreases rank[i]
    {
      if done[i] {
        return;
      }
      done := done[i := true];
      for j := 0 to |deps[i]|
        invariant |reaches| == |done| == |deps| && done[i]
        invariant forall d | 0 <= d < |deps| :: |reaches[d]| == |deps|
        invariant forall d | 0 <= d < |deps| :: !done[d] ==> Blank(d)
        invariant forall d | 0 <= d < |deps| && done[d] && rank[d] <= rank[i] && d != i :: Exact(d)
        invariant forall d | 0 <= d < |deps| && (rank[d] > rank[i] || (rank[d] == rank[i] && d != i)) ::
                    reaches[d] == old(reaches)[d] && done[d] == old(done)[d]
        invariant forall d | 0 <= d < |deps| && old(done)[d] :: done[d]
        invariant RowVia(deps, reaches[i], i, j)
      {
        var d := deps[i][j];
        Close(d, rank);
        assert Exact(d);
        ghost var before := reaches[i];
        MergeRow(i, d);
        MergedVia(deps, before, reaches[i], i, j);
      }
      ViaExact(deps, reaches[i], i);
    }

    /** Mark d in row i and add everything d reaches. */
    method MergeRow(i: nat, d: nat)
      requires i < |reaches| && d < |reaches[i]| && d < |reaches| && i != d && |reaches[d]| == |reaches[i]|
      modifies this`reaches
      ensures |reaches| == |old(reaches)| && |reaches[i]| == |old(reaches)[i]|
      ensures forall e | 0 <= e < |reaches| && e != i :: reaches[e] == old(reaches)[e]
      ensures forall k | 0 <= k < |reaches[i]| :: reaches[i][k] == (old(reaches)[i][k] || k == d || old(reaches)[d][k])
    {
      var row := reaches[i][d := true];
      for k := 0 to |row|
        invariant |row| == |reaches[i]|
        invariant forall m | 0 <= m < |row| :: row[m] == (reaches[i][m] || m == d || (m < k && reaches[d][m]))
      {
        row := row[k := row[k] || reaches[d][k]];
      }
      reaches := reaches[i := row];
    }
  }

  ghost predicate RowExact(deps: Lists, row: seq<bool>, i: nat) {
    |row| == |deps| && forall k | 0 <= k < |row| :: row[k] == Reaches(deps, i, k)
  }

  ghost predicate RowVia(deps: Lists, row: seq<bool>, i: nat, m: nat)
    requires i < |deps| && m <= |deps[i]|
  {
    |row| == |deps| && forall k | 0 <= k < |row| :: row[k] == ReachesVia(deps, i, m, k)
  }

  lemma ViaExact(deps: Lists, row: seq<bool>, i: nat)
    requires ListsOk(deps) && i < |deps| && RowVia(deps, row, i, |deps[i]|)
    ensures RowExact(deps, row, i)
  {
    forall k | 0 <= k < |row| ensures row[k] == Reaches(deps, i, k) {
      ReachesExact(deps, i, k);
    }
  }

  lemma MergedVia(deps: Lists, before: seq<bool>, after: seq<bool>, i: nat, j: nat)
    requires i < |deps| && j < |deps[i]| && |after| == |before| && RowVia(deps, before, i, j)
    requires forall k | 0 <= k < |after| :: after[k] == (before[k] || LeadsTo(deps, deps[i][j], k))
    ensures RowVia(deps, after, i, j + 1)
  {
    forall k | 0 <= k < |after| ensures after[k] == ReachesVia(deps, i, j + 1, k) {
      if ReachesVia(deps, i, j, k) {
        var m :| 0 <= m < j && LeadsTo(deps, deps[i][m], k);
      }
      if ReachesVia(deps, i, j + 1, k) {
        var m :| 0 <= m < j + 1 && LeadsTo(deps, deps[i][m], k);
      }
    }
  }

  // ---------------------------------------------------------------- the bound

  /** The total weight of the pipelines below `n` that are in `a`. */
  function Weight(threads: seq<nat>, a: set<nat>, n: nat): nat
    requires n <= |threads|
  {
    if n == 0 then 0 else Weight(threads, a, n - 1) + if n - 1 in a then threads[n - 1] else 0
  }

  /** i and everything that neither waits on i nor is waited on by i. */
  ghost function Together(deps: Lists, i: nat): set<nat> {
    set j: nat | j < |deps| && (j == i || (!Reaches(deps, i, j) && !Reaches(deps, j, i)))
  }

  /** The largest weight of a pipeline with all it can overlap with. */
  ghost predicate IsPeak(deps: Lists, weights: seq<nat>, peak: nat)
    requires |weights| == |deps|
  {
    && (forall i: nat | i < |deps| :: Weight(weights, Together(deps, i), |deps|) <= peak)
    && (|deps| > 0 ==> exists i: nat :: i < |deps| && peak == Weight(weights, Together(deps, i), |deps|))
    && (|deps| == 0 ==> peak == 0)
  }

  /** No pipeline of the set waits on another. */
  ghost predicate Antichain(deps: Lists, a: set<nat>) {
    forall p, q {:trigger Reaches(deps, p, q)} | p in a && q in a && p != q :: !Reaches(deps, p, q)
  }

  lemma {:induction false} WeightMonotone(threads: seq<nat>, a: set<nat>, b: set<nat>, n: nat)
    requires n <= |threads| && forall p: nat | p < n && p in a :: p in b
    ensures Weight(threads, a, n) <= Weight(threads, b, n)
  {
    if n > 0 {
      WeightMonotone(threads, a, b, n - 1);
    }
  }

  lemma {:induction false} WeightOne(threads: seq<nat>, a: set<nat>, n: nat)
    requires n <= |threads| && forall p: nat | p < n :: p !in a
    ensures Weight(threads, a, n) == 0
  {
    if n > 0 {
      WeightOne(threads, a, n - 1);
    }
  }

  /** The weight of a set with pipeline i, starting from i's own weight. */
  function WeightBesides(threads: seq<nat>, a: set<nat>, i: nat, n: nat): nat
    requires n <= |threads| && i < |threads|
  {
    if n == 0 then threads[i]
    else WeightBesides(threads, a, i, n - 1) + if n - 1 != i && n - 1 in a then threads[n - 1] else 0
  }

  lemma {:induction false} BesidesIsWeight(threads: seq<nat>, a: set<nat>, i: nat, n: nat)
    requires n <= |threads| && i < |threads| && i in a
    ensures WeightBesides(threads, a, i, n) == Weight(threads, a, n) + if i < n then 0 else threads[i]
  {
    if n > 0 {
      BesidesIsWeight(threads, a, i, n - 1);
    }
  }

  /** The bound the executor computes from the thread counts its pipelines report when it starts. */
  method PeakTaskDemand(deps: Lists, threads: seq<nat>, ghost rank: seq<nat>) returns (peak: nat)
    requires Ranked(deps, rank) && |threads| == |deps|
    ensures IsPeak(deps, threads, peak)
  {
    var n := |deps|;
    if n <= 1 {
      if n == 0 {
        return 0;
      }
      AloneWeight(deps, threads);
      return threads[0];
    }
    var closure := FullClosure(deps, rank);
    peak := Heaviest(closure, threads);
  }

  /** The closure with every row closed. */
  method FullClosure(deps: Lists, ghost rank: seq<nat>) returns (closure: Closure)
    requires Ranked(deps, rank)
    ensures fresh(closure) && closure.Valid() && closure.deps == deps && forall d | 0 <= d < |deps| :: closure.Exact(d)
  {
    closure := new Closure(deps);
    for i := 0 to |deps|
      invariant closure.Valid() && closure.deps == deps && fresh(closure)
      invariant forall d | 0 <= d < |deps| && closure.done[d] :: closure.Exact(d)
      invariant forall d | 0 <= d < i :: closure.done[d]
    {
      CloseAll(closure, i, rank);
    }
  }

  /** The heaviest pipeline together with everything incomparable to it. */
  method Heaviest(closure: Closure, threads: seq<nat>) returns (peak: nat)
    requires closure.Valid() && |threads| == |closure.deps| > 0
    requires forall d | 0 <= d < |closure.deps| :: closure.Exact(d)
    ensures forall i: nat | i < |threads| :: Weight(threads, Together(closure.deps, i), |threads|) <= peak
    ensures exists i: nat :: i < |threads| && peak == Weight(threads, Together(closure.deps, i), |threads|)
  {
    ghost var best: nat := 0;
    peak := 0;
    for i := 0 to |threads|
      invariant forall p: nat | p < i :: Weight(threads, Together(closure.deps, p), |threads|) <= peak
      invariant best < |threads|
      invariant i > 0 ==> peak == Weight(threads, Together(closure.deps, best), |threads|)
      invariant i == 0 ==> peak == 0
    {
      var concurrent := Concurrent(closure, threads, i);
      if concurrent > peak || i == 0 {
        best := i;
      }
      peak := if concurrent > peak then concurrent else peak;
    }
  }

  /** Closing one row at the top level keeps every done row exact. */
  method CloseAll(closure: Closure, i: nat, ghost rank: seq<nat>)
    requires closure.Valid() && Ranked(closure.deps, rank) && i < |closure.deps|
    requires forall d | 0 <= d < |closure.deps| && closure.done[d] :: closure.Exact(d)
    modifies closure
    ensures closure.Valid() && closure.done[i]
    ensures forall d | 0 <= d < |closure.deps| && closure.done[d] :: closure.Exact(d)
    ensures forall d | 0 <= d < |closure.deps| && old(closure.done)[d] :: closure.done[d]
  {
    closure.Close(i, rank);
  }

  /** Pipeline i's weight and that of everything incomparable to it. */
  method Concurrent(closure: Closure, threads: seq<nat>, i: nat) returns (total: nat)
    requires closure.Valid() && i < |closure.deps| == |threads|
    requires forall d | 0 <= d < |closure.deps| :: closure.Exact(d)
    ensures total == Weight(threads, Together(closure.deps, i), |threads|)
  {
    ghost var a := Together(closure.deps, i);
    total := threads[i];
    for j := 0 to |threads|
      invariant total == WeightBesides(threads, a, i, j)
    {
      assert closure.Exact(i) && closure.Exact(j);
      if j != i && !closure.reaches[i][j] && !closure.reaches[j][i] {
        total := total + threads[j];
      }
    }
    BesidesIsWeight(threads, a, i, |threads|);
  }

  lemma AloneWeight(deps: Lists, threads: seq<nat>)
    requires |deps| == |threads| == 1
    ensures Weight(threads, Together(deps, 0), 1) == threads[0]
  {
    assert 0 in Together(deps, 0);
    assert Weight(threads, Together(deps, 0), 0) == 0;
  }

  /** No set of pipelines that could run together outweighs the bound. */
  lemma PeakBoundsAntichains(deps: Lists, threads: seq<nat>, peak: nat, a: set<nat>)
    requires |threads| == |deps| && Antichain(deps, a) && forall p | p in a :: p < |deps|
    requires IsPeak(deps, threads, peak)
    ensures Weight(threads, a, |deps|) <= peak
  {
    if a == {} {
      WeightOne(threads, a, |deps|);
    } else {
      var p :| p in a;
      WeightMonotone(threads, a, Together(deps, p), |deps|);
    }
  }
}
