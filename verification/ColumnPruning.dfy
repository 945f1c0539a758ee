/** Column pruning: telling every scan and hash join which columns somebody above reads. The pruned
    plan yields the same rows in the same order, up to columns nobody asked for. */
module ColumnPruning {
  import opened Expressions
  import opened Plans

  // ---------------------------------------------------------------- which columns an expression reads

  /** The columns `e` reads from input `t`. */
  function Refs(e: Expr, t: nat): set<nat> {
    match e
    case Column(u, c) => if u == t then {c} else {}
    case Constant(_) => {}
    case And(a, b) => Refs(a, t) + Refs(b, t)
    case Or(a, b) => Refs(a, t) + Refs(b, t)
    case Compare(_, a, b) => Refs(a, t) + Refs(b, t)
    case Call(_, args) => RefsAll(args, t, |args|)
  }

  /** The columns the first `n` expressions read. */
  function RefsAll(es: seq<Expr>, t: nat, n: nat): set<nat>
    requires n <= |es|
    decreases es, n
  {
    if n == 0 then {} else RefsAll(es, t, n - 1) + Refs(es[n - 1], t)
  }

  lemma {:induction false} RefsOne(es: seq<Expr>, t: nat, n: nat, i: nat)
    requires i < n <= |es|
    ensures Refs(es[i], t) <= RefsAll(es, t, n)
  {
    if i < n - 1 {
      RefsOne(es, t, n - 1, i);
    }
  }

  // ---------------------------------------------------------------- the rewrite

  function LeftOf(required: set<nat>, lw: nat): set<nat> {
    set i | i in required && i < lw
  }

  function RightOf(required: set<nat>, lw: nat): set<nat> {
    set i | i in required && i >= lw :: i - lw
  }

  /** The seam split as the source computes it, one index at a time. */
  method SplitAtSeam(required: set<nat>, lw: nat) returns (left: set<nat>, right: set<nat>)
    ensures left == LeftOf(required, lw) && right == RightOf(required, lw)
  {
    left, right := {}, {};
    var todo := required;
    while todo != {}
      invariant todo <= required
      invariant left == LeftOf(required - todo, lw) && right == RightOf(required - todo, lw)
      decreases |todo|
    {
      var i :| i in todo;
      assert required - (todo - {i}) == (required - todo) + {i};
      if i < lw {
        left := left + {i};
      } else {
        right := right + {i - lw};
      }
      todo := todo - {i};
    }
    assert required - {} == required;
  }

  /** The columns read by the projections somebody asked for. */
  function ProjectedRefs(es: seq<Expr>, required: set<nat>, n: nat): set<nat>
    requires n <= |es|
  {
    if n == 0 then {}
    else ProjectedRefs(es, required, n - 1) + if n - 1 in required then Refs(es[n - 1], 0) else {}
  }

  lemma {:induction false} ProjectedOne(es: seq<Expr>, required: set<nat>, n: nat, i: nat)
    requires i < n <= |es| && i in required
    ensures Refs(es[i], 0) <= ProjectedRefs(es, required, n)
  {
    if i < n - 1 {
      ProjectedOne(es, required, n - 1, i);
    }
  }

  /** The live columns of a hash join's build side, before its key columns are added. */
  function BuildLive(k: JoinType, left: set<nat>, right: set<nat>): set<nat> {
    if k in {SEMI, ANTI} then {} else if BuildIsLeft(k) then left else right
  }

  function Prune(p: Plan, required: set<nat>): Plan {
    match p
    case SeqScan(t, w, pred, _) =>
      var req := required + Refs(pred, 0);
      if |req| >= w then p else SeqScan(t, w, pred, Only(if req == {} then {0} else req))
    case Filter(pred, c) => Filter(pred, Prune(c, required + Refs(pred, 0)))
    case Project(es, c) => Project(es, Prune(c, ProjectedRefs(es, required, |es|)))
    case Limit(n, c) => Limit(n, Prune(c, required))
    case Sort(keys, order, c) => Sort(keys, order, Prune(c, required + RefsAll(keys, 0, |keys|)))
    case TopN(n, keys, order, c) => TopN(n, keys, order, Prune(c, required + RefsAll(keys, 0, |keys|)))
    case Aggregate(gs, args, w, fold, c) =>
      Aggregate(gs, args, w, fold, Prune(c, RefsAll(gs, 0, |gs|) + RefsAll(args, 0, |args|)))
    case NestedLoopJoin(k, l, r, pred) =>
      var lw := Width(l);
      NestedLoopJoin(k, Prune(l, LeftOf(required, lw) + Refs(pred, 0)),
                     Prune(r, RightOf(required, lw) + Refs(pred, 1)), pred)
    case HashJoin(k, l, r, lks, rks, _) =>
      var left, right := LeftOf(required, Width(l)), RightOf(required, Width(l));
      HashJoin(k, Prune(l, left + RefsAll(lks, 0, |lks|) + RefsAll(lks, 1, |lks|)),
               Prune(r, right + RefsAll(rks, 0, |rks|) + RefsAll(rks, 1, |rks|)), lks, rks,
               Only(BuildLive(k, left, right)))
    case Operator(w, run, cs) =>
      Operator(w, run, seq(|cs|, i requires 0 <= i < |cs| => Prune(cs[i], Columns(Width(cs[i])))))
  }

  /** No annotation yet: pruning runs once, last. */
  predicate Unannotated(p: Plan) {
    match p
    case SeqScan(_, _, _, live) => live.Everything?
    case Filter(_, c) => Unannotated(c)
    case Project(_, c) => Unannotated(c)
    case Limit(_, c) => Unannotated(c)
    case Sort(_, _, c) => Unannotated(c)
    case TopN(_, _, _, c) => Unannotated(c)
    case Aggregate(_, _, _, _, c) => Unannotated(c)
    case NestedLoopJoin(_, l, r, _) => Unannotated(l) && Unannotated(r)
    case HashJoin(_, l, r, _, _, live) => Unannotated(l) && Unannotated(r) && live.Everything?
    case Operator(_, _, cs) => forall i | 0 <= i < |cs| :: Unannotated(cs[i])
  }

  // ---------------------------------------------------------------- agreement on required columns

  predicate Agree(cols: set<nat>, a: Row, b: Row) {
    |a| == |b| && forall c | c in cols && c < |a| :: a[c] == b[c]
  }

  predicate RowsAgree(cols: set<nat>, xs: Rows, ys: Rows) {
    |xs| == |ys| && forall i {:trigger Agree(cols, xs[i], ys[i])} | 0 <= i < |xs| :: Agree(cols, xs[i], ys[i])
  }

  /** An expression depends only on the columns it reads. */
  lemma {:induction false} EvalAgrees(e: Expr, l: Row, l': Row, r: Row, r': Row)
    requires Agree(Refs(e, 0), l, l') && Agree(Refs(e, 1), r, r') && Scoped(e, |l|, |r|)
    ensures Eval(e, l, r) == Eval(e, l', r')
  {
    match e
    case Column(_, _) =>
    case Constant(_) =>
    case And(a, b) => EvalAgrees(a, l, l', r, r'); EvalAgrees(b, l, l', r, r');
    case Or(a, b) => EvalAgrees(a, l, l', r, r'); EvalAgrees(b, l, l', r, r');
    case Compare(_, a, b) => EvalAgrees(a, l, l', r, r'); EvalAgrees(b, l, l', r, r');
    case Call(f, args) =>
      forall i | 0 <= i < |args| ensures Eval(args[i], l, r) == Eval(args[i], l', r') {
        RefsOne(args, 0, |args|, i);
        RefsOne(args, 1, |args|, i);
        EvalAgrees(args[i], l, l', r, r');
      }
      assert seq(|args|, i requires 0 <= i < |args| => Eval(args[i], l, r)) ==
             seq(|args|, i requires 0 <= i < |args| => Eval(args[i], l', r'));
  }

  lemma EvalAllAgrees(es: seq<Expr>, l: Row, l': Row, r: Row, r': Row)
    requires Agree(RefsAll(es, 0, |es|), l, l') && Agree(RefsAll(es, 1, |es|), r, r') && AllScoped(es, |l|, |r|)
    ensures EvalAll(es, l, r) == EvalAll(es, l', r')
  {
    forall i | 0 <= i < |es| ensures Eval(es[i], l, r) == Eval(es[i], l', r') {
      RefsOne(es, 0, |es|, i);
      RefsOne(es, 1, |es|, i);
      EvalAgrees(es[i], l, l', r, r');
    }
  }

  // ---------------------------------------------------------------- each operator respects agreement

  lemma {:induction false} FilterRespects(cols: set<nat>, f: Row -> bool, xs: Rows, ys: Rows)
    requires RowsAgree(cols, xs, ys) && forall i | 0 <= i < |xs| :: f(xs[i]) == f(ys[i])
    ensures RowsAgree(cols, FilterRows(f, xs), FilterRows(f, ys))
  {
    if xs != [] {
      assert Agree(cols, xs[0], ys[0]) && f(xs[0]) == f(ys[0]);
      TailAgrees(cols, xs, ys);
      assert forall i | 0 <= i < |xs[1..]| :: xs[1..][i] == xs[i + 1] && ys[1..][i] == ys[i + 1];
      FilterRespects(cols, f, xs[1..], ys[1..]);
      if f(xs[0]) {
        ConsAgrees(cols, xs[0], ys[0], FilterRows(f, xs[1..]), FilterRows(f, ys[1..]));
      }
    }
  }

  lemma TailAgrees(cols: set<nat>, xs: Rows, ys: Rows)
    requires RowsAgree(cols, xs, ys) && xs != []
    ensures RowsAgree(cols, xs[1..], ys[1..])
  {
    forall i | 0 <= i < |xs| - 1 ensures Agree(cols, xs[1..][i], ys[1..][i]) {
      assert Agree(cols, xs[i + 1], ys[i + 1]);
    }
  }

  lemma ConsAgrees(cols: set<nat>, a: Row, b: Row, xs: Rows, ys: Rows)
    requires Agree(cols, a, b) && RowsAgree(cols, xs, ys)
    ensures RowsAgree(cols, [a] + xs, [b] + ys)
  {
    forall i | 0 <= i < |xs| + 1 ensures Agree(cols, ([a] + xs)[i], ([b] + ys)[i]) {
      if i > 0 {
        assert Agree(cols, xs[i - 1], ys[i - 1]);
      }
    }
  }

  lemma AppendAgrees(cols: set<nat>, a: Rows, b: Rows, c: Rows, d: Rows)
    requires RowsAgree(cols, a, b) && RowsAgree(cols, c, d)
    ensures RowsAgree(cols, a + c, b + d)
  {
    forall i | 0 <= i < |a + c| ensures Agree(cols, (a + c)[i], (b + d)[i]) {
      if i < |a| {
        assert Agree(cols, a[i], b[i]);
      } else {
        assert Agree(cols, c[i - |a|], d[i - |a|]);
      }
    }
  }

  lemma {:induction false} PermuteRespects(cols: set<nat>, xs: Rows, ys: Rows, positions: seq<nat>)
    requires RowsAgree(cols, xs, ys)
    ensures RowsAgree(cols, Permute(xs, positions), Permute(ys, positions))
  {
    if positions != [] {
      PermuteRespects(cols, xs, ys, positions[1..]);
      if positions[0] < |xs| {
        assert Agree(cols, xs[positions[0]], ys[positions[0]]);
        ConsAgrees(cols, xs[positions[0]], ys[positions[0]], Permute(xs, positions[1..]), Permute(ys, positions[1..]));
      }
    }
  }

  lemma TakeRespects(cols: set<nat>, xs: Rows, ys: Rows, n: nat)
    requires RowsAgree(cols, xs, ys)
    ensures RowsAgree(cols, Take(xs, n), Take(ys, n))
  {
    forall i | 0 <= i < |Take(xs, n)| ensures Agree(cols, Take(xs, n)[i], Take(ys, n)[i]) {
      assert Agree(cols, xs[i], ys[i]);
    }
  }

  /** Fewer columns agree whenever more do. */
  lemma FewerAgree(cols: set<nat>, more: set<nat>, xs: Rows, ys: Rows)
    requires cols <= more && RowsAgree(more, xs, ys)
    ensures RowsAgree(cols, xs, ys)
  {
    forall i | 0 <= i < |xs| ensures Agree(cols, xs[i], ys[i]) {
      assert Agree(more, xs[i], ys[i]);
    }
  }

  lemma KeysAgree(keys: seq<Expr>, cols: set<nat>, xs: Rows, ys: Rows, w: nat)
    requires RowsAgree(cols, xs, ys) && AllFlat(keys, w) && AllWide(xs, w) && RefsAll(keys, 0, |keys|) <= cols
    ensures MapRows(Evaluated(keys), xs) == MapRows(Evaluated(keys), ys)
  {
    forall i | 0 <= i < |xs| ensures EvalAll(keys, xs[i], []) == EvalAll(keys, ys[i], []) {
      assert Agree(cols, xs[i], ys[i]);
      EvalAllAgrees(keys, xs[i], ys[i], [], []);
    }
  }

  lemma SortRespects(keys: seq<Expr>, order: seq<Row> -> seq<nat>, cols: set<nat>, xs: Rows, ys: Rows, w: nat)
    requires RowsAgree(cols, xs, ys) && AllFlat(keys, w) && AllWide(xs, w) && RefsAll(keys, 0, |keys|) <= cols
    ensures RowsAgree(cols, Sorted(keys, order, xs), Sorted(keys, order, ys))
  {
    KeysAgree(keys, cols, xs, ys, w);
    PermuteRespects(cols, xs, ys, order(MapRows(Evaluated(keys), xs)));
  }

  // ---------------------------------------------------------------- joins respect agreement

  /** Pairs agree on the required columns when each side does on its part. */
  lemma PairAgrees(cols: set<nat>, l: Row, l': Row, r: Row, r': Row, lw: nat)
    requires |l| == lw && Agree(LeftOf(cols, lw), l, l') && Agree(RightOf(cols, lw), r, r')
    ensures Agree(cols, l + r, l' + r')
  {
    forall c | c in cols && c < |l + r| ensures (l + r)[c] == (l' + r')[c] {
      if c < lw {
        assert c in LeftOf(cols, lw);
      } else {
        assert c - lw in RightOf(cols, lw);
      }
    }
  }

  lemma {:induction false} MatchesRespect(cols: set<nat>, f: (Row, Row) -> bool, l: Row, l': Row, rs: Rows, rs': Rows,
          lw: nat, rcols: set<nat>)
    requires |l| == lw && Agree(LeftOf(cols, lw), l, l') && RowsAgree(rcols, rs, rs') && RightOf(cols, lw) <= rcols
    requires forall j | 0 <= j < |rs| :: f(l, rs[j]) == f(l', rs'[j])
    ensures RowsAgree(cols, Matches(f, l, rs), Matches(f, l', rs'))
  {
    if rs != [] {
      assert Agree(rcols, rs[0], rs'[0]) && f(l, rs[0]) == f(l', rs'[0]);
      TailAgrees(rcols, rs, rs');
      assert forall j | 0 <= j < |rs[1..]| :: rs[1..][j] == rs[j + 1] && rs'[1..][j] == rs'[j + 1];
      MatchesRespect(cols, f, l, l', rs[1..], rs'[1..], lw, rcols);
      if f(l, rs[0]) {
        PairAgrees(cols, l, l', rs[0], rs'[0], lw);
        ConsAgrees(cols, l + rs[0], l' + rs'[0], Matches(f, l, rs[1..]), Matches(f, l', rs'[1..]));
      }
    }
  }

  lemma JoinOneRespects(k: JoinType, cols: set<nat>, f: (Row, Row) -> bool, l: Row, l': Row, rs: Rows, rs': Rows,
          lw: nat, rw: nat, lcols: set<nat>, rcols: set<nat>)
    requires |l| == lw && Agree(lcols, l, l') && RowsAgree(rcols, rs, rs')
    requires LeftOf(cols, lw) <= lcols && RightOf(cols, lw) <= rcols
    requires forall j | 0 <= j < |rs| :: f(l, rs[j]) == f(l', rs'[j])
    ensures RowsAgree(cols, JoinOne(k, f, l, rs, rw), JoinOne(k, f, l', rs', rw))
  {
    MatchesRespect(cols, f, l, l', rs, rs', lw, rcols);
    match k
    case INNER =>
    case LEFT =>
      PairAgrees(cols, l, l', Nulls(rw), Nulls(rw), lw);
      ConsAgrees(cols, l + Nulls(rw), l' + Nulls(rw), [], []);
    case SEMI => LeftRowAgrees(cols, l, l', lw);
    case ANTI => LeftRowAgrees(cols, l, l', lw);
  }

  lemma LeftRowAgrees(cols: set<nat>, l: Row, l': Row, lw: nat)
    requires |l| == lw && Agree(LeftOf(cols, lw), l, l')
    ensures RowsAgree(cols, [l], [l'])
  {
    assert Agree(cols, l, l') by {
      forall c | c in cols && c < |l| ensures l[c] == l'[c] {
        assert c in LeftOf(cols, lw);
      }
    }
    ConsAgrees(cols, l, l', [], []);
  }

  lemma {:induction false} JoinRespects(k: JoinType, cols: set<nat>, f: (Row, Row) -> bool, ls: Rows, ls': Rows,
          rs: Rows, rs': Rows, lw: nat, rw: nat, lcols: set<nat>, rcols: set<nat>)
    requires AllWide(ls, lw) && RowsAgree(lcols, ls, ls') && RowsAgree(rcols, rs, rs')
    requires LeftOf(cols, lw) <= lcols && RightOf(cols, lw) <= rcols
    requires forall i, j | 0 <= i < |ls| && 0 <= j < |rs| :: f(ls[i], rs[j]) == f(ls'[i], rs'[j])
    ensures RowsAgree(cols, Join(k, f, ls, rs, rw), Join(k, f, ls', rs', rw))
  {
    if ls != [] {
      assert Agree(lcols, ls[0], ls'[0]);
      JoinOneRespects(k, cols, f, ls[0], ls'[0], rs, rs', lw, rw, lcols, rcols);
      TailAgrees(lcols, ls, ls');
      assert forall i | 0 <= i < |ls[1..]| :: ls[1..][i] == ls[i + 1] && ls'[1..][i] == ls'[i + 1];
      JoinRespects(k, cols, f, ls[1..], ls'[1..], rs, rs', lw, rw, lcols, rcols);
      AppendAgrees(cols, JoinOne(k, f, ls[0], rs, rw), JoinOne(k, f, ls'[0], rs', rw),
                   Join(k, f, ls[1..], rs, rw), Join(k, f, ls'[1..], rs', rw));
    }
  }

  // ---------------------------------------------------------------- the theorem

  lemma {:induction false} PruneShape(p: Plan, required: set<nat>)
    ensures Width(Prune(p, required)) == Width(p)
  {
    match p
    case SeqScan(_, _, _, _) =>
    case Filter(pred, c) => PruneShape(c, required + Refs(pred, 0));
    case Project(_, _) =>
    case Limit(_, c) => PruneShape(c, required);
    case Sort(keys, _, c) => PruneShape(c, required + RefsAll(keys, 0, |keys|));
    case TopN(_, keys, _, c) => PruneShape(c, required + RefsAll(keys, 0, |keys|));
    case Aggregate(_, _, _, _, _) =>
    case NestedLoopJoin(_, l, r, _) => PruneShape(l, JoinNeeds(p, required).0); PruneShape(r, JoinNeeds(p, required).1);
    case HashJoin(_, l, r, _, _, _) => PruneShape(l, JoinNeeds(p, required).0); PruneShape(r, JoinNeeds(p, required).1);
    case Operator(_, _, _) =>
  }

  /** What a join asks of its two inputs. */
  function JoinNeeds(p: Plan, required: set<nat>): (set<nat>, set<nat>)
    requires p.NestedLoopJoin? || p.HashJoin?
  {
    match p
    case NestedLoopJoin(_, l, _, pred) =>
      (LeftOf(required, Width(l)) + Refs(pred, 0), RightOf(required, Width(l)) + Refs(pred, 1))
    case HashJoin(_, l, _, lks, rks, _) =>
      (LeftOf(required, Width(l)) + RefsAll(lks, 0, |lks|) + RefsAll(lks, 1, |lks|),
       RightOf(required, Width(l)) + RefsAll(rks, 0, |rks|) + RefsAll(rks, 1, |rks|))
  }

  /** Add the columns every key reads, whichever input it addresses. */
  method CollectKeys(keys: seq<Expr>, already: set<nat>) returns (cols: set<nat>)
    ensures cols == already + RefsAll(keys, 0, |keys|) + RefsAll(keys, 1, |keys|)
  {
    cols := already;
    var i := 0;
    while i < |keys|
      invariant 0 <= i <= |keys| && cols == already + RefsAll(keys, 0, i) + RefsAll(keys, 1, i)
    {
      cols := cols + Refs(keys[i], 0) + Refs(keys[i], 1);
      i := i + 1;
    }
  }

  /** What a hash join asks of its two inputs, and which build columns its output reads: those are settled
      before the keys are asked for as well. */
  method HashJoinNeeds(p: Plan, required: set<nat>) returns (left: set<nat>, right: set<nat>, live: set<nat>)
    requires p.HashJoin?
    ensures (left, right) == JoinNeeds(p, required)
    ensures Prune(p, required) ==
            HashJoin(p.kind, Prune(p.left, left), Prune(p.right, right), p.leftKeys, p.rightKeys, Only(live))
  {
    left, right := SplitAtSeam(required, Width(p.left));
    live := if p.kind == SEMI || p.kind == ANTI then {} else if p.kind == LEFT then right else left;
    left := CollectKeys(p.leftKeys, left);
    right := CollectKeys(p.rightKeys, right);
  }

  /** A scan that masks nothing, and one that masks what nobody reads. */
  lemma MaskAgrees(cols: set<nat>, live: Live, rows: Rows)
    requires live.Everything? || cols <= live.columns
    ensures RowsAgree(cols, MapRows(Masked(LiveColumns(live)), rows), MapRows(Masked(LiveColumns(Everything)), rows))
  {
    forall i | 0 <= i < |rows|
        ensures Agree(cols, Mask(rows[i], LiveColumns(live)), Mask(rows[i], LiveColumns(Everything))) {
      forall c: nat | c in cols ensures LiveColumns(live)(c) && LiveColumns(Everything)(c) {
      }
    }
  }

  lemma ScanAgrees(p: Plan, required: set<nat>, db: Database)
    requires p.SeqScan? && p.live.Everything? && WellFormed(p) && Fits(p, db)
    ensures RowsAgree(required, Denote(Prune(p, required), db), Denote(p, db))
  {
    var req := required + Refs(p.filter, 0);
    var live := Prune(p, required).live;
    var xs, ys := MapRows(Masked(LiveColumns(live)), db(p.table)),
      MapRows(Masked(LiveColumns(Everything)), db(p.table));
    MaskAgrees(req, live, db(p.table));
    forall i | 0 <= i < |xs| ensures Keep(p.filter)(xs[i]) == Keep(p.filter)(ys[i]) {
      assert Agree(req, xs[i], ys[i]);
      EvalAgrees(p.filter, xs[i], ys[i], [], []);
    }
    FilterRespects(req, Keep(p.filter), xs, ys);
    FewerAgree(required, req, FilterRows(Keep(p.filter), xs), FilterRows(Keep(p.filter), ys));
  }

  lemma FilterAgrees(p: Plan, required: set<nat>, xs: Rows, ys: Rows)
    requires p.Filter? && WellFormed(p) && RowsAgree(required + Refs(p.pred, 0), xs, ys) && AllWide(xs, Width(p.child))
    ensures RowsAgree(required, FilterRows(Keep(p.pred), xs), FilterRows(Keep(p.pred), ys))
  {
    var req := required + Refs(p.pred, 0);
    forall i | 0 <= i < |xs| ensures Keep(p.pred)(xs[i]) == Keep(p.pred)(ys[i]) {
      assert Agree(req, xs[i], ys[i]);
      EvalAgrees(p.pred, xs[i], ys[i], [], []);
    }
    FilterRespects(req, Keep(p.pred), xs, ys);
    FewerAgree(required, req, FilterRows(Keep(p.pred), xs), FilterRows(Keep(p.pred), ys));
  }

  lemma ProjectAgrees(es: seq<Expr>, required: set<nat>, xs: Rows, ys: Rows, w: nat)
    requires AllFlat(es, w) && AllWide(xs, w) && RowsAgree(ProjectedRefs(es, required, |es|), xs, ys)
    ensures RowsAgree(required, MapRows(Evaluated(es), xs), MapRows(Evaluated(es), ys))
  {
    var cols := ProjectedRefs(es, required, |es|);
    forall i | 0 <= i < |xs| ensures Agree(required, EvalAll(es, xs[i], []), EvalAll(es, ys[i], [])) {
      assert Agree(cols, xs[i], ys[i]);
      forall c | c in required && c < |es| ensures Eval(es[c], xs[i], []) == Eval(es[c], ys[i], []) {
        ProjectedOne(es, required, |es|, c);
        EvalAgrees(es[c], xs[i], ys[i], [], []);
      }
    }
  }

  lemma KeyedAgree(gs: seq<Expr>, args: seq<Expr>, xs: Rows, ys: Rows, w: nat)
    requires AllFlat(gs, w) && AllFlat(args, w) && AllWide(xs, w)
    requires RowsAgree(RefsAll(gs, 0, |gs|) + RefsAll(args, 0, |args|), xs, ys)
    ensures Keyed(gs, args, xs) == Keyed(gs, args, ys)
  {
    var cols := RefsAll(gs, 0, |gs|) + RefsAll(args, 0, |args|);
    KeysAgree(gs, cols, xs, ys, w);
    KeysAgree(args, cols, xs, ys, w);
    forall i | 0 <= i < |xs|
      ensures EvalAll(gs, xs[i], []) == EvalAll(gs, ys[i], []) && EvalAll(args, xs[i], []) == EvalAll(args, ys[i], [])
    {
      assert MapRows(Evaluated(gs), xs)[i] == MapRows(Evaluated(gs), ys)[i];
      assert MapRows(Evaluated(args), xs)[i] == MapRows(Evaluated(args), ys)[i];
    }
  }

  lemma NljAgrees(p: Plan, required: set<nat>, ls': Rows, ls: Rows, rs': Rows, rs: Rows)
    requires p.NestedLoopJoin? && WellFormed(p) && AllWide(ls', Width(p.left)) && AllWide(rs', Width(p.right))
    requires RowsAgree(JoinNeeds(p, required).0, ls', ls) && RowsAgree(JoinNeeds(p, required).1, rs', rs)
    ensures RowsAgree(required, Join(p.kind, On(p.pred), ls', rs', Width(p.right)),
                      Join(p.kind, On(p.pred), ls, rs, Width(p.right)))
  {
    var (lreq, rreq) := JoinNeeds(p, required);
    forall i, j | 0 <= i < |ls| && 0 <= j < |rs| ensures On(p.pred)(ls'[i], rs'[j]) == On(p.pred)(ls[i], rs[j]) {
      assert Agree(lreq, ls'[i], ls[i]) && Agree(rreq, rs'[j], rs[j]);
      EvalAgrees(p.pred, ls'[i], ls[i], rs'[j], rs[j]);
    }
    JoinRespects(p.kind, required, On(p.pred), ls', ls, rs', rs, Width(p.left), Width(p.right), lreq, rreq);
  }

  lemma HashAgrees(p: Plan, required: set<nat>, ls': Rows, ls: Rows, rs': Rows, rs: Rows)
    requires p.HashJoin? && WellFormed(p) && AllWide(ls', Width(p.left)) && AllWide(rs', Width(p.right))
    requires RowsAgree(JoinNeeds(p, required).0, ls', ls) && RowsAgree(JoinNeeds(p, required).1, rs', rs)
    ensures var on := OnKeys(p.leftKeys, p.rightKeys);
            RowsAgree(required, Join(p.kind, on, ls', rs', Width(p.right)), Join(p.kind, on, ls, rs, Width(p.right)))
  {
    var (lreq, rreq) := JoinNeeds(p, required);
    var on := OnKeys(p.leftKeys, p.rightKeys);
    forall i, j | 0 <= i < |ls| && 0 <= j < |rs| ensures on(ls'[i], rs'[j]) == on(ls[i], rs[j]) {
      assert Agree(lreq, ls'[i], ls[i]) && Agree(rreq, rs'[j], rs[j]);
      EvalAllAgrees(p.leftKeys, ls'[i], ls[i], [], []);
      EvalAllAgrees(p.rightKeys, [], [], rs'[j], rs[j]);
    }
    JoinRespects(p.kind, required, on, ls', ls, rs', rs, Width(p.left), Width(p.right), lreq, rreq);
  }

  /** Dropping the build columns nobody reads leaves the required columns alone. */
  lemma CarriedAgrees(k: JoinType, required: set<nat>, lw: nat, xs: Rows, ys: Rows, w: nat)
    requires RowsAgree(required, xs, ys) && AllWide(xs, w) && (k in {SEMI, ANTI} ==> w <= lw)
    ensures var live := Only(BuildLive(k, LeftOf(required, lw), RightOf(required, lw)));
            RowsAgree(required, MapRows(Masked(Carried(k, lw, live)), xs),
              MapRows(Masked(Carried(k, lw, Everything)), ys))
  {
    var live := Only(BuildLive(k, LeftOf(required, lw), RightOf(required, lw)));
    forall i | 0 <= i < |xs|
      ensures Agree(required, Mask(xs[i], Carried(k, lw, live)), Mask(ys[i], Carried(k, lw, Everything)))
    {
      assert Agree(required, xs[i], ys[i]);
      forall c | c in required && c < w ensures Carries(k, lw, live, c) && Carries(k, lw, Everything, c) {
        if c < lw {
          assert c in LeftOf(required, lw);
        } else {
          assert c - lw in RightOf(required, lw);
        }
      }
    }
  }

  lemma {:induction false} PruneFits(p: Plan, required: set<nat>, db: Database)
    requires WellFormed(p) && Fits(p, db)
    ensures WellFormed(Prune(p, required)) && Fits(Prune(p, required), db)
  {
    PruneShape(p, required);
    match p
    case SeqScan(_, _, _, _) =>
    case Filter(pred, c) => PruneFits(c, required + Refs(pred, 0), db); PruneShape(c, required + Refs(pred, 0));
    case Project(es, c) =>
      PruneFits(c, ProjectedRefs(es, required, |es|), db);
      PruneShape(c, ProjectedRefs(es, required, |es|));
    case Limit(_, c) => PruneFits(c, required, db);
    case Sort(keys, _, c) =>
      PruneFits(c, required + RefsAll(keys, 0, |keys|), db);
      PruneShape(c, required + RefsAll(keys, 0, |keys|));
    case TopN(_, keys, _, c) =>
      PruneFits(c, required + RefsAll(keys, 0, |keys|), db);
      PruneShape(c, required + RefsAll(keys, 0, |keys|));
    case Aggregate(gs, args, _, _, c) =>
      PruneFits(c, RefsAll(gs, 0, |gs|) + RefsAll(args, 0, |args|), db);
      PruneShape(c, RefsAll(gs, 0, |gs|) + RefsAll(args, 0, |args|));
    case NestedLoopJoin(_, l, r, _) =>
      PruneFits(l, JoinNeeds(p, required).0, db); PruneShape(l, JoinNeeds(p, required).0);
      PruneFits(r, JoinNeeds(p, required).1, db); PruneShape(r, JoinNeeds(p, required).1);
    case HashJoin(_, l, r, _, _, _) =>
      PruneFits(l, JoinNeeds(p, required).0, db); PruneShape(l, JoinNeeds(p, required).0);
      PruneFits(r, JoinNeeds(p, required).1, db); PruneShape(r, JoinNeeds(p, required).1);
    case Operator(_, _, cs) =>
      forall i | 0 <= i < |cs|
        ensures WellFormed(Prune(cs[i], Columns(Width(cs[i])))) && Fits(Prune(cs[i], Columns(Width(cs[i]))), db)
      {
        PruneFits(cs[i], Columns(Width(cs[i])), db);
      }
  }

  lemma AllColumnsAgree(w: nat, xs: Rows, ys: Rows)
    requires RowsAgree(Columns(w), xs, ys) && AllWide(xs, w)
    ensures xs == ys
  {
    forall i | 0 <= i < |xs| ensures xs[i] == ys[i] {
      assert Agree(Columns(w), xs[i], ys[i]);
    }
  }

  /** For every plan and every set of required columns, the pruned plan yields as many rows in the
      same order, agreeing with the original on every required column. */
  lemma {:induction false} PruneAgrees(p: Plan, required: set<nat>, db: Database)
    requires WellFormed(p) && Unannotated(p) && Fits(p, db)
    ensures RowsAgree(required, Denote(Prune(p, required), db), Denote(p, db))
    decreases p, 1
  {
    match p
    case SeqScan(_, _, _, _) => ScanAgrees(p, required, db);
    case Filter(pred, c) =>
      var req := required + Refs(pred, 0);
      ChildAgrees(c, req, db);
      FilterAgrees(p, required, Denote(Prune(c, req), db), Denote(c, db));
    case Project(es, c) =>
      var req := ProjectedRefs(es, required, |es|);
      ChildAgrees(c, req, db);
      ProjectAgrees(es, required, Denote(Prune(c, req), db), Denote(c, db), Width(c));
    case Limit(n, c) =>
      ChildAgrees(c, required, db);
      TakeRespects(required, Denote(Prune(c, required), db), Denote(c, db), n);
    case Sort(keys, order, c) =>
      var req := required + RefsAll(keys, 0, |keys|);
      ChildAgrees(c, req, db);
      var xs, ys := Denote(Prune(c, req), db), Denote(c, db);
      SortRespects(keys, order, req, xs, ys, Width(c));
      FewerAgree(required, req, Sorted(keys, order, xs), Sorted(keys, order, ys));
    case TopN(n, keys, order, c) =>
      var req := required + RefsAll(keys, 0, |keys|);
      ChildAgrees(c, req, db);
      var xs, ys := Denote(Prune(c, req), db), Denote(c, db);
      SortRespects(keys, order, req, xs, ys, Width(c));
      FewerAgree(required, req, Sorted(keys, order, xs), Sorted(keys, order, ys));
      TakeRespects(required, Sorted(keys, order, xs), Sorted(keys, order, ys), n);
    case Aggregate(gs, args, w, fold, c) =>
      var req := RefsAll(gs, 0, |gs|) + RefsAll(args, 0, |args|);
      ChildAgrees(c, req, db);
      KeyedAgree(gs, args, Denote(Prune(c, req), db), Denote(c, db), Width(c));
      SameRowsAgree(required, Denote(p, db));
    case NestedLoopJoin(_, l, r, _) => JoinPruneAgrees(p, required, db);
    case HashJoin(_, l, r, _, _, _) => JoinPruneAgrees(p, required, db);
    case Operator(w, run, cs) =>
      forall i | 0 <= i < |cs| ensures Denote(Prune(cs[i], Columns(Width(cs[i]))), db) == Denote(cs[i], db) {
        ChildAgrees(cs[i], Columns(Width(cs[i])), db);
        AllColumnsAgree(Width(cs[i]), Denote(Prune(cs[i], Columns(Width(cs[i]))), db), Denote(cs[i], db));
      }
      var cs' := Prune(p, required).children;
      assert seq(|cs'|, i requires 0 <= i < |cs'| => Denote(cs'[i], db)) ==
             seq(|cs|, i requires 0 <= i < |cs| => Denote(cs[i], db));
      SameRowsAgree(required, Denote(p, db));
  }

  lemma SameRowsAgree(cols: set<nat>, rows: Rows)
    ensures RowsAgree(cols, rows, rows)
  {
    forall i | 0 <= i < |rows| ensures Agree(cols, rows[i], rows[i]) {
    }
  }

  /** The induction hypothesis, with the width of the pruned child's rows. */
  lemma {:induction false} ChildAgrees(c: Plan, req: set<nat>, db: Database)
    requires WellFormed(c) && Unannotated(c) && Fits(c, db)
    ensures RowsAgree(req, Denote(Prune(c, req), db), Denote(c, db))
    ensures AllWide(Denote(Prune(c, req), db), Width(c))
    decreases c, 2
  {
    PruneAgrees(c, req, db);
    PruneFits(c, req, db);
    PruneShape(c, req);
    DenoteWide(Prune(c, req), db);
  }

  lemma {:induction false} JoinPruneAgrees(p: Plan, required: set<nat>, db: Database)
    requires WellFormed(p) && Unannotated(p) && Fits(p, db) && (p.NestedLoopJoin? || p.HashJoin?)
    ensures RowsAgree(required, Denote(Prune(p, required), db), Denote(p, db))
    decreases p, 0
  {
    var (lreq, rreq) := JoinNeeds(p, required);
    var l, r := p.left, p.right;
    ChildAgrees(l, lreq, db);
    ChildAgrees(r, rreq, db);
    PruneShape(l, lreq);
    PruneShape(r, rreq);
    var ls', ls, rs', rs := Denote(Prune(l, lreq), db), Denote(l, db), Denote(Prune(r, rreq), db), Denote(r, db);
    if p.NestedLoopJoin? {
      NljAgrees(p, required, ls', ls, rs', rs);
    } else {
      HashAgrees(p, required, ls', ls, rs', rs);
      var on := OnKeys(p.leftKeys, p.rightKeys);
      JoinWide(p.kind, on, ls', rs', Width(l), Width(r));
      CarriedAgrees(p.kind, required, Width(l), Join(p.kind, on, ls', rs', Width(r)),
        Join(p.kind, on, ls, rs, Width(r)),
                    JoinWidth(p.kind, Width(l), Width(r)));
    }
  }

  /** At the root every column is required, so the pruned plan yields the very same rows. */
  lemma PruneRoot(p: Plan, db: Database)
    requires WellFormed(p) && Unannotated(p) && Fits(p, db)
    ensures Denote(Prune(p, Columns(Width(p))), db) == Denote(p, db)
  {
    ChildAgrees(p, Columns(Width(p)), db);
    AllColumnsAgree(Width(p), Denote(Prune(p, Columns(Width(p))), db), Denote(p, db));
  }
}
