/** Pushing the single-input parts of join predicates below the joins, and folding filters into joins
    first. Both rewrites keep the denoted rows. */
module FilterPushDown {
  import opened Expressions
  import opened Plans
  import opened Conjuncts
  import opened JoinAlgebra
  import opened PlanMeaning

  // ---------------------------------------------------------------- distributing conjuncts at a join

  /** The conjuncts that satisfy `keep`, in order. */
  function Pick(cs: seq<Expr>, keep: Expr -> bool): seq<Expr> {
    if cs == [] then [] else (if keep(cs[0]) then [cs[0]] else []) + Pick(cs[1..], keep)
  }

  function OnSide(side: Side, lw: nat): Expr -> bool {
    e => SideOf(e, lw) == side
  }

  function OnBothOrNone(lw: nat): Expr -> bool {
    e => SideOf(e, lw) == Both || SideOf(e, lw) == Neither
  }

  function Rebased(cs: seq<Expr>, lw: nat): seq<Expr> {
    seq(|cs|, i requires 0 <= i < |cs| => RebaseRight(cs[i], lw))
  }

  /** The conjuncts of `cs` that read only the left input. */
  function LeftPart(cs: seq<Expr>, lw: nat): seq<Expr> {
    Pick(cs, OnSide(OnLeft, lw))
  }

  /** Those that read only the right input, re-addressed to it. */
  function RightPart(cs: seq<Expr>, lw: nat): seq<Expr> {
    Rebased(Pick(cs, OnSide(OnRight, lw)), lw)
  }

  /** Those that stay at the join: they read both inputs or none. */
  function JoinPart(cs: seq<Expr>, lw: nat): seq<Expr> {
    Pick(cs, OnBothOrNone(lw))
  }

  lemma {:induction false} PickSnoc(cs: seq<Expr>, c: Expr, keep: Expr -> bool)
    ensures Pick(cs + [c], keep) == Pick(cs, keep) + if keep(c) then [c] else []
  {
    if cs == [] {
      assert cs + [c] == [c];
    } else {
      assert (cs + [c])[0] == cs[0] && (cs + [c])[1..] == cs[1..] + [c];
      PickSnoc(cs[1..], c, keep);
      var head := if keep(cs[0]) then [cs[0]] else [];
      var last := if keep(c) then [c] else [];
      assert head + (Pick(cs[1..], keep) + last) == head + Pick(cs[1..], keep) + last;
    }
  }

  /** The classification loop: one pass fills the three lists. */
  method Distribute(cs: seq<Expr>, lw: nat) returns (left: seq<Expr>, right: seq<Expr>, join: seq<Expr>)
    ensures left == LeftPart(cs, lw) && right == RightPart(cs, lw) && join == JoinPart(cs, lw)
  {
    left, right, join := [], [], [];
    for i := 0 to |cs|
      invariant left == LeftPart(cs[..i], lw)
      invariant right == RightPart(cs[..i], lw)
      invariant join == JoinPart(cs[..i], lw)
    {
      assert cs[..i + 1] == cs[..i] + [cs[i]];
      PickSnoc(cs[..i], cs[i], OnSide(OnLeft, lw));
      PickSnoc(cs[..i], cs[i], OnSide(OnRight, lw));
      PickSnoc(cs[..i], cs[i], OnBothOrNone(lw));
      match SideOf(cs[i], lw) {
        case OnLeft => left := left + [cs[i]];
        case OnRight => right := right + [RebaseRight(cs[i], lw)];
        case _ => join := join + [cs[i]];
      }
    }
    assert cs[..|cs|] == cs;
  }

  /** The picked conjuncts are exactly those of `cs` that satisfy `keep`. */
  lemma {:induction false} PickMembers(cs: seq<Expr>, keep: Expr -> bool, e: Expr)
    ensures e in Pick(cs, keep) <==> e in cs && keep(e)
  {
    if cs != [] {
      assert cs == [cs[0]] + cs[1..];
      PickMembers(cs[1..], keep, e);
    }
  }

  lemma PickHolds(cs: seq<Expr>, keep: Expr -> bool, l: Row, r: Row)
    ensures AllHold(Pick(cs, keep), l, r) <==> forall e | e in cs && keep(e) :: Holds(e, l, r)
  {
    forall e ensures e in Pick(cs, keep) <==> e in cs && keep(e) {
      PickMembers(cs, keep, e);
    }
  }

  lemma PickFlat(cs: seq<Expr>, keep: Expr -> bool, w: nat)
    requires AllFlat(cs, w)
    ensures AllFlat(Pick(cs, keep), w)
  {
    forall e | e in Pick(cs, keep) ensures Scoped(e, w, 0) {
      PickMembers(cs, keep, e);
    }
  }

  /** A left conjunct holds on the pair exactly when it holds on the left row. */
  lemma LeftPartHolds(cs: seq<Expr>, l: Row, r: Row)
    requires AllFlat(cs, |l| + |r|)
    ensures AllHold(LeftPart(cs, |l|), l, []) <==> AllHold(LeftPart(cs, |l|), l + r, [])
    ensures AllFlat(LeftPart(cs, |l|), |l|)
  {
    forall e | e in LeftPart(cs, |l|) ensures Holds(e, l, []) == Holds(e, l + r, []) && Scoped(e, |l|, 0) {
      PickMembers(cs, OnSide(OnLeft, |l|), e);
      SideReads(e, |l|, |l| + |r|);
      LeftEval(e, l, r);
    }
  }

  lemma RightPartHolds(cs: seq<Expr>, l: Row, r: Row)
    requires AllFlat(cs, |l| + |r|)
    ensures AllHold(RightPart(cs, |l|), r, []) <==> AllHold(Pick(cs, OnSide(OnRight, |l|)), l + r, [])
    ensures AllFlat(RightPart(cs, |l|), |r|)
  {
    var ps, qs := Pick(cs, OnSide(OnRight, |l|)), RightPart(cs, |l|);
    forall i | 0 <= i < |ps| ensures Holds(qs[i], r, []) == Holds(ps[i], l + r, []) && Scoped(qs[i], |r|, 0) {
      PickMembers(cs, OnSide(OnRight, |l|), ps[i]);
      SideReads(ps[i], |l|, |l| + |r|);
      RightEval(ps[i], l, r);
    }
    AllHoldAt(ps, l + r, []);
    AllHoldAt(qs, r, []);
  }

  lemma AllHoldAt(cs: seq<Expr>, l: Row, r: Row)
    ensures AllHold(cs, l, r) <==> forall i | 0 <= i < |cs| :: Holds(cs[i], l, r)
  {
    if AllHold(cs, l, r) {
      forall i | 0 <= i < |cs| ensures Holds(cs[i], l, r) {
        assert cs[i] in cs;
      }
    }
  }

  /** Distribution loses no conjunct: the three lists together say what the whole list says. */
  lemma PartsHold(cs: seq<Expr>, l: Row, r: Row)
    requires AllFlat(cs, |l| + |r|)
    ensures AllHold(cs, l + r, []) <==>
            AllHold(LeftPart(cs, |l|), l, []) && AllHold(RightPart(cs, |l|), r, []) &&
            AllHold(JoinPart(cs, |l|), l + r, [])
  {
    LeftPartHolds(cs, l, r);
    RightPartHolds(cs, l, r);
    PickHolds(cs, OnSide(OnLeft, |l|), l + r, []);
    PickHolds(cs, OnSide(OnRight, |l|), l + r, []);
    PickHolds(cs, OnBothOrNone(|l|), l + r, []);
    forall e: Expr ensures OnSide(OnLeft, |l|)(e) || OnSide(OnRight, |l|)(e) || OnBothOrNone(|l|)(e) {
    }
  }

  lemma PartsFlat(cs: seq<Expr>, lw: nat, rw: nat)
    requires AllFlat(cs, lw + rw)
    ensures AllFlat(LeftPart(cs, lw), lw) && AllFlat(RightPart(cs, lw), rw) && AllFlat(JoinPart(cs, lw), lw + rw)
  {
    LeftPartHolds(cs, Nulls(lw), Nulls(rw));
    RightPartHolds(cs, Nulls(lw), Nulls(rw));
    PickFlat(cs, OnBothOrNone(lw), lw + rw);
  }

  // ---------------------------------------------------------------- the push-down rewrite

  /** The predicate is a constant that selects every row. */
  predicate IsPredicateTrue(e: Expr) {
    e.Constant? && Truth(e.value)
  }

  predicate IsInnerJoin(p: Plan) {
    p.NestedLoopJoin? && p.kind == INNER
  }

  /** All conjuncts to place at an inner join: the pending ones and the join's own, flattened. */
  function Pool(p: Plan, pending: seq<Expr>): seq<Expr>
    requires p.NestedLoopJoin?
  {
    pending + if IsPredicateTrue(p.pred) then [] else Split(Flatten(p.pred, Width(p.left)))
  }

  /** Push `pending`, addressed to `p`'s output, into `p` as deep as it can go. */
  function PushInto(p: Plan, pending: seq<Expr>): Result<Plan>
    decreases p, if IsInnerJoin(p) then 0 else 1
  {
    if IsInnerJoin(p) then
      var lw, rw := Width(p.left), Width(p.right);
      var cs := Pool(p, pending);
      var left :- PushInto(p.left, LeftPart(cs, lw));
      var right :- PushInto(p.right, RightPart(cs, lw));
      var pred :- RewriteForJoin(Conjoin(JoinPart(cs, lw)), lw, rw);
      Success(NestedLoopJoin(INNER, left, right, pred))
    else
      var p' :- Push(p);
      Success(if pending == [] then p' else Filter(Conjoin(pending), p'))
  }

  function Push(p: Plan): Result<Plan>
    decreases p, if IsInnerJoin(p) then 1 else 0
  {
    if IsInnerJoin(p) then PushInto(p, [])
    else
      var cs := Children(p);
      if forall i | 0 <= i < |cs| :: Push(cs[i]).Success? then
        Success(WithChildren(p, seq(|cs|, i requires 0 <= i < |cs| => Push(cs[i]).value)))
      else Failure
  }

  /** It denotes the rows of `p` that satisfy `pending`. */
  ghost predicate Selects(p': Result<Plan>, p: Plan, pending: seq<Expr>) {
    Replaces(p', p) &&
    forall db | Fits(p, db) ::
      Denote(p'.value, db) == FilterRows(KeepAll(pending), Denote(p, db))
  }

  lemma PoolFlat(p: Plan, pending: seq<Expr>)
    requires IsInnerJoin(p) && WellFormed(p) && AllFlat(pending, Width(p))
    ensures AllFlat(Pool(p, pending), Width(p.left) + Width(p.right))
  {
    var lw, rw := Width(p.left), Width(p.right);
    var l, r := Nulls(lw), Nulls(rw);
    FlattenEval(p.pred, l, r, rw);
    SplitHolds(Flatten(p.pred, lw), l + r, [], lw + rw, 0);
  }

  /** The pool says what the join predicate and the pending conjuncts say. */
  lemma PoolHolds(p: Plan, pending: seq<Expr>, l: Row, r: Row)
    requires IsInnerJoin(p) && WellFormed(p) && |l| == Width(p.left) && |r| == Width(p.right)
    ensures AllHold(Pool(p, pending), l + r, []) <==> Holds(p.pred, l, r) && AllHold(pending, l + r, [])
  {
    var lw, rw := |l|, |r|;
    if IsPredicateTrue(p.pred) {
      assert Pool(p, pending) == pending;
    } else {
      FlattenEval(p.pred, l, r, rw);
      SplitHolds(Flatten(p.pred, lw), l + r, [], lw + rw, 0);
      AllHoldAppend(pending, Split(Flatten(p.pred, lw)), l + r, []);
    }
  }

  /** One pair of rows passes the placed conjuncts exactly when it passed the join and `pending`. */
  lemma PlacedPair(p: Plan, pending: seq<Expr>, pred: Expr, l: Row, r: Row)
    requires IsInnerJoin(p) && WellFormed(p) && AllFlat(pending, Width(p))
    requires |l| == Width(p.left) && |r| == Width(p.right)
    requires RewriteForJoin(Conjoin(JoinPart(Pool(p, pending), |l|)), |l|, |r|) == Success(pred)
    ensures var cs := Pool(p, pending);
            AllHold(RightPart(cs, |l|), r, []) && AllHold(LeftPart(cs, |l|), l, []) && Holds(pred, l, r) <==>
            Holds(p.pred, l, r) && AllHold(pending, l + r, [])
  {
    var cs := Pool(p, pending);
    PoolFlat(p, pending);
    PoolHolds(p, pending, l, r);
    PartsHold(cs, l, r);
    JoinPartHolds(cs, pred, l, r);
  }

  lemma JoinPartFlat(cs: seq<Expr>, lw: nat, rw: nat)
    requires AllFlat(cs, lw + rw)
    ensures Flat(Conjoin(JoinPart(cs, lw)), lw + rw)
  {
    PartsFlat(cs, lw, rw);
    ConjoinScoped(JoinPart(cs, lw), lw + rw, 0);
  }

  lemma RewrittenHolds(e: Expr, pred: Expr, l: Row, r: Row)
    requires Flat(e, |l| + |r|) && RewriteForJoin(e, |l|, |r|) == Success(pred)
    ensures Holds(pred, l, r) <==> Holds(e, l + r, [])
  {
    RewriteEval(e, l, r);
  }

  lemma JoinPartHolds(cs: seq<Expr>, pred: Expr, l: Row, r: Row)
    requires AllFlat(cs, |l| + |r|)
    requires RewriteForJoin(Conjoin(JoinPart(cs, |l|)), |l|, |r|) == Success(pred)
    ensures Holds(pred, l, r) <==> AllHold(JoinPart(cs, |l|), l + r, [])
  {
    ConjoinHolds(JoinPart(cs, |l|), l + r, []);
    JoinPartFlat(cs, |l|, |r|);
    RewrittenHolds(Conjoin(JoinPart(cs, |l|)), pred, l, r);
  }

  /** Placing the pool at a join of two row lists: filters on either side and the rest at the join. */
  lemma PlacedPool(p: Plan, pending: seq<Expr>, pred: Expr, ls: Rows, rs: Rows)
    requires IsInnerJoin(p) && WellFormed(p) && AllFlat(pending, Width(p))
    requires AllWide(ls, Width(p.left)) && AllWide(rs, Width(p.right))
    requires RewriteForJoin(Conjoin(JoinPart(Pool(p, pending), Width(p.left))), Width(p.left), Width(p.right))
             == Success(pred)
    ensures var lw, rw, cs := Width(p.left), Width(p.right), Pool(p, pending);
            Join(INNER, On(pred), FilterRows(KeepAll(LeftPart(cs, lw)), ls),
                 FilterRows(KeepAll(RightPart(cs, lw)), rs), rw) ==
            FilterRows(KeepAll(pending), Join(INNER, On(p.pred), ls, rs, rw))
  {
    var lw, rw, cs := Width(p.left), Width(p.right), Pool(p, pending);
    var onLeft, onRight := KeepAll(LeftPart(cs, lw)), KeepAll(RightPart(cs, lw));
    FilterJoin(KeepAll(pending), On(p.pred), ls, rs, rw);
    forall i, j | 0 <= i < |ls| && 0 <= j < |rs|
      ensures (onRight(rs[j]) && onLeft(ls[i]) && On(pred)(ls[i], rs[j])) ==
              (On(p.pred)(ls[i], rs[j]) && KeepAll(pending)(ls[i] + rs[j]))
    {
      PlacedPair(p, pending, pred, ls[i], rs[j]);
    }
    PushBoth(onLeft, onRight, On(pred), AndWhole(On(p.pred), KeepAll(pending)), ls, rs, rw);
  }

  // ---------------------------------------------------------------- push-down keeps the rows

  lemma {:induction false} PushIntoSelects(p: Plan, pending: seq<Expr>)
    requires WellFormed(p) && AllFlat(pending, Width(p))
    ensures Selects(PushInto(p, pending), p, pending)
    decreases p, if IsInnerJoin(p) then 0 else 1
  {
    if IsInnerJoin(p) {
      var lw, rw, cs := Width(p.left), Width(p.right), Pool(p, pending);
      PoolFlat(p, pending);
      PartsFlat(cs, lw, rw);
      PushIntoSelects(p.left, LeftPart(cs, lw));
      PushIntoSelects(p.right, RightPart(cs, lw));
      JoinSelects(p, pending);
    } else {
      PushPreserves(p);
      FilterOnTop(Push(p), p, pending);
    }
  }

  lemma JoinSelects(p: Plan, pending: seq<Expr>)
    requires WellFormed(p) && AllFlat(pending, Width(p)) && IsInnerJoin(p)
    requires var cs := Pool(p, pending);
             Selects(PushInto(p.left, LeftPart(cs, Width(p.left))), p.left, LeftPart(cs, Width(p.left))) &&
             Selects(PushInto(p.right, RightPart(cs, Width(p.left))), p.right, RightPart(cs, Width(p.left)))
    ensures Selects(PushInto(p, pending), p, pending)
  {
    hide Push, LeftPart, RightPart, JoinPart, Pool, Split, Conjoin, Eval, Holds, Keyed, Sorted, Scoped;
    var lw, rw, cs := Width(p.left), Width(p.right), Pool(p, pending);
    var e := Conjoin(JoinPart(cs, lw));
    PoolFlat(p, pending);
    JoinPartFlat(cs, lw, rw);
    RewriteEval(e, Nulls(lw), Nulls(rw));
    var p' := PushInto(p, pending);
    forall db | Fits(p, db) ensures Fits(p'.value, db)
      ensures Denote(p'.value, db) == FilterRows(KeepAll(pending), Denote(p, db))
    {
      DenoteWide(p.left, db);
      DenoteWide(p.right, db);
      PlacedPool(p, pending, p'.value.pred, Denote(p.left, db), Denote(p.right, db));
    }
  }

  /** What is left over becomes a filter on top. */
  lemma FilterOnTop(p': Result<Plan>, p: Plan, pending: seq<Expr>)
    requires WellFormed(p) && AllFlat(pending, Width(p)) && Preserves(p', p)
    ensures var q := if pending == [] then p'.value else Filter(Conjoin(pending), p'.value);
            Selects(Success(q), p, pending)
  {
    var q := if pending == [] then p'.value else Filter(Conjoin(pending), p'.value);
    ConjoinScoped(pending, Width(p), 0);
    forall db | Fits(p, db) ensures Fits(q, db)
      ensures Denote(q, db) == FilterRows(KeepAll(pending), Denote(p, db))
    {
      var rows := Denote(p, db);
      if pending == [] {
        FilterAgree(KeepAll(pending), (row: Row) => true, rows);
        FilterTrue(rows);
      } else {
        forall i | 0 <= i < |rows| ensures Keep(Conjoin(pending))(rows[i]) == KeepAll(pending)(rows[i]) {
          ConjoinHolds(pending, rows[i], []);
        }
        FilterAgree(Keep(Conjoin(pending)), KeepAll(pending), rows);
      }
    }
  }

  /** Filter push-down preserves the meaning of every well-formed plan. */
  lemma {:induction false} PushPreserves(p: Plan)
    requires WellFormed(p)
    ensures Preserves(Push(p), p)
    decreases p, if IsInnerJoin(p) then 1 else 0
  {
    if IsInnerJoin(p) {
      PushIntoSelects(p, []);
      SelectsAll(PushInto(p, []), p);
    } else {
      var cs := Children(p);
      ChildrenWellFormed(p);
      forall i | 0 <= i < |cs| ensures Preserves(Push(cs[i]), cs[i]) {
        PushPreserves(cs[i]);
      }
      RebuiltPreserves(p, seq(|cs|, i requires 0 <= i < |cs| => Push(cs[i]).value));
    }
  }

  lemma SelectsAll(p': Result<Plan>, p: Plan)
    requires Selects(p', p, [])
    ensures Preserves(p', p)
  {
    forall db | Fits(p, db) ensures Denote(p'.value, db) == Denote(p, db) {
      FilterAgree(KeepAll([]), (row: Row) => true, Denote(p, db));
      FilterTrue(Denote(p, db));
    }
  }
}
