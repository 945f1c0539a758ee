/** Column pruning asks for no column too many: what is required of a child is what somebody above reads,
    and a scan that need not produce all its columns produces only those. */
module PruningExact {
  import opened Expressions
  import opened Plans
  import opened PlanMeaning
  import opened ColumnPruning

  predicate ReadsColumn(e: Expr, t: nat, c: nat) {
    match e
    case Column(u, d) => u == t && d == c
    case Constant(_) => false
    case And(a, b) => ReadsColumn(a, t, c) || ReadsColumn(b, t, c)
    case Or(a, b) => ReadsColumn(a, t, c) || ReadsColumn(b, t, c)
    case Compare(_, a, b) => ReadsColumn(a, t, c) || ReadsColumn(b, t, c)
    case Call(_, args) => exists i | 0 <= i < |args| :: ReadsColumn(args[i], t, c)
  }

  predicate AnyReads(es: seq<Expr>, t: nat, c: nat) {
    exists i | 0 <= i < |es| :: ReadsColumn(es[i], t, c)
  }

  lemma {:induction false} RefsExact(e: Expr, t: nat, c: nat)
    ensures c in Refs(e, t) <==> ReadsColumn(e, t, c)
    decreases e, 0
  {
    match e
    case And(a, b) => RefsExact(a, t, c); RefsExact(b, t, c);
    case Or(a, b) => RefsExact(a, t, c); RefsExact(b, t, c);
    case Compare(_, a, b) => RefsExact(a, t, c); RefsExact(b, t, c);
    case Call(_, args) => RefsAllExact(args, t, |args|, c);
    case _ =>
  }

  lemma {:induction false} RefsAllExact(es: seq<Expr>, t: nat, n: nat, c: nat)
    requires n <= |es|
    ensures c in RefsAll(es, t, n) <==> exists i | 0 <= i < n :: ReadsColumn(es[i], t, c)
    decreases es, n
  {
    if n > 0 {
      RefsAllExact(es, t, n - 1, c);
      RefsExact(es[n - 1], t, c);
    }
  }

  lemma {:induction false} ProjectedExact(es: seq<Expr>, required: set<nat>, n: nat, c: nat)
    requires n <= |es|
    ensures c in ProjectedRefs(es, required, n) <==> exists i | 0 <= i < n :: i in required && ReadsColumn(es[i], 0, c)
  {
    if n > 0 {
      ProjectedExact(es, required, n - 1, c);
      RefsExact(es[n - 1], 0, c);
    }
  }

  /** Somebody at or above `p`, of whose columns `required` are read, reads column `c` of its i-th child. */
  predicate IsNeeded(p: Plan, required: set<nat>, i: nat, c: nat)
    requires i < |Children(p)|
  {
    match p
    case Filter(pred, _) => c in required || ReadsColumn(pred, 0, c)
    case Project(es, _) => exists k | 0 <= k < |es| :: k in required && ReadsColumn(es[k], 0, c)
    case Limit(_, _) => c in required
    case Sort(keys, _, _) => c in required || AnyReads(keys, 0, c)
    case TopN(_, keys, _, _) => c in required || AnyReads(keys, 0, c)
    case Aggregate(gs, args, _, _, _) => AnyReads(gs, 0, c) || AnyReads(args, 0, c)
    case NestedLoopJoin(_, l, _, pred) =>
      if i == 0 then (c in required && c < Width(l)) || ReadsColumn(pred, 0, c)
      else Width(l) + c in required || ReadsColumn(pred, 1, c)
    case HashJoin(_, l, _, lks, rks, _) =>
      if i == 0 then (c in required && c < Width(l)) || AnyReads(lks, 0, c) || AnyReads(lks, 1, c)
      else Width(l) + c in required || AnyReads(rks, 0, c) || AnyReads(rks, 1, c)
    case Operator(_, _, cs) => c < Width(cs[i])
  }

  ghost predicate ExactlyNeeded(p: Plan, required: set<nat>, i: nat, needs: set<nat>)
    requires i < |Children(p)|
  {
    forall c: nat :: c in needs <==> IsNeeded(p, required, i, c)
  }

  /** Each child is pruned to exactly the columns that are read. */
  lemma ChildrenPrunedExactly(p: Plan, required: set<nat>, i: nat) returns (needs: set<nat>)
    requires i < |Children(p)|
    ensures |Children(Prune(p, required))| == |Children(p)|
    ensures Children(Prune(p, required))[i] == Prune(Children(p)[i], needs) && ExactlyNeeded(p, required, i, needs)
  {
    match p
    case Filter(pred, _) =>
      needs := required + Refs(pred, 0);
      forall c: nat ensures c in needs <==> IsNeeded(p, required, i, c) {
        RefsExact(pred, 0, c);
      }
    case Project(es, _) =>
      needs := ProjectedRefs(es, required, |es|);
      forall c: nat ensures c in needs <==> IsNeeded(p, required, i, c) {
        ProjectedExact(es, required, |es|, c);
      }
    case Limit(_, _) => needs := required;
    case Sort(keys, _, _) =>
      needs := required + RefsAll(keys, 0, |keys|);
      forall c: nat ensures c in needs <==> IsNeeded(p, required, i, c) {
        RefsAllExact(keys, 0, |keys|, c);
      }
    case TopN(_, keys, _, _) =>
      needs := required + RefsAll(keys, 0, |keys|);
      forall c: nat ensures c in needs <==> IsNeeded(p, required, i, c) {
        RefsAllExact(keys, 0, |keys|, c);
      }
    case Aggregate(gs, args, _, _, _) =>
      needs := RefsAll(gs, 0, |gs|) + RefsAll(args, 0, |args|);
      forall c: nat ensures c in needs <==> IsNeeded(p, required, i, c) {
        RefsAllExact(gs, 0, |gs|, c);
        RefsAllExact(args, 0, |args|, c);
      }
    case NestedLoopJoin(_, _, _, _) => needs := LoopNeeds(p, required, i);
    case HashJoin(_, _, _, _, _, _) => needs := HashNeeds(p, required, i);
    case Operator(_, _, cs) => needs := Columns(Width(cs[i]));
  }

  lemma SeamExact(required: set<nat>, lw: nat, c: nat)
    ensures c in LeftOf(required, lw) <==> c in required && c < lw
    ensures c in RightOf(required, lw) <==> lw + c in required
  {
    if lw + c in required {
      assert (lw + c) - lw == c;
    }
  }

  lemma LoopNeeds(p: Plan, required: set<nat>, i: nat) returns (needs: set<nat>)
    requires p.NestedLoopJoin? && i < 2
    ensures Children(Prune(p, required))[i] == Prune(Children(p)[i], needs) && ExactlyNeeded(p, required, i, needs)
  {
    hide Refs, Width, ReadsColumn, AnyReads, RefsAll, JoinWidth;
    var lw := Width(p.left);
    needs := if i == 0 then LeftOf(required, lw) + Refs(p.pred, 0) else RightOf(required, lw) + Refs(p.pred, 1);
    forall c: nat ensures c in needs <==> IsNeeded(p, required, i, c) {
      SeamExact(required, lw, c);
      RefsExact(p.pred, i, c);
    }
  }

  lemma HashNeeds(p: Plan, required: set<nat>, i: nat) returns (needs: set<nat>)
    requires p.HashJoin? && i < 2
    ensures Children(Prune(p, required))[i] == Prune(Children(p)[i], needs) && ExactlyNeeded(p, required, i, needs)
  {
    var lw, lks, rks := Width(p.left), p.leftKeys, p.rightKeys;
    needs := if i == 0 then LeftOf(required, lw) + RefsAll(lks, 0, |lks|) + RefsAll(lks, 1, |lks|)
             else RightOf(required, lw) + RefsAll(rks, 0, |rks|) + RefsAll(rks, 1, |rks|);
    forall c: nat ensures c in needs <==> IsNeeded(p, required, i, c) {
      SeamExact(required, lw, c);
      if i == 0 {
        RefsAllExact(lks, 0, |lks|, c);
        RefsAllExact(lks, 1, |lks|, c);
      } else {
        RefsAllExact(rks, 0, |rks|, c);
        RefsAllExact(rks, 1, |rks|, c);
      }
    }
  }

  /** The scan's filter or somebody above reads the column. */
  predicate ScanReads(filter: Expr, required: set<nat>, c: nat) {
    c in required || ReadsColumn(filter, 0, c)
  }

  /** A scan produces the columns that are required or that its own filter reads; if there is none it produces
      the first. */
  lemma ScanExact(t: nat, w: nat, filter: Expr, required: set<nat>, c: nat)
    requires c < w && forall d: nat | ScanReads(filter, required, d) :: d < w
    ensures IsLive(Prune(SeqScan(t, w, filter, Everything), required).live, c) <==>
            ScanReads(filter, required, c) || (c == 0 && forall d: nat :: !ScanReads(filter, required, d))
  {
    var req := required + Refs(filter, 0);
    forall d: nat ensures d in req <==> ScanReads(filter, required, d) {
      RefsExact(filter, 0, d);
    }
    hide ScanReads, Refs;
    if |req| >= w {
      AllColumns(req, w);
    } else if req == {} {
      assert forall d: nat :: !ScanReads(filter, required, d);
    } else {
      var d :| d in req;
      assert ScanReads(filter, required, d);
    }
  }

  /** As many different columns as there are is all of them. */
  lemma {:induction false} AllColumns(req: set<nat>, w: nat)
    requires |req| >= w && forall d | d in req :: d < w
    ensures forall d: nat | d < w :: d in req
  {
    if w > 0 {
      if w - 1 in req {
        AllColumns(req - {w - 1}, w - 1);
      } else {
        AllColumns(req, w - 1);
        Fewer(req, w - 1);
      }
    }
  }

  lemma {:induction false} Fewer(req: set<nat>, w: nat)
    requires forall d | d in req :: d < w
    ensures |req| <= w
  {
    if w > 0 {
      Fewer(req - {w - 1}, w - 1);
    }
  }

  /** A hash join carries a build column if and only if it is read above the join. */
  lemma BuildExact(p: Plan, required: set<nat>, c: nat)
    requires p.HashJoin?
    ensures var live := Prune(p, required).live;
            IsLive(live, c) <==>
            p.kind !in {SEMI, ANTI} &&
            if BuildIsLeft(p.kind) then c in required && c < Width(p.left) else Width(p.left) + c in required
  {
    SeamExact(required, Width(p.left), c);
  }
}
