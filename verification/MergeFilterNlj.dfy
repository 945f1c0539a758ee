/** Folding a filter into the nested loop join below it. */
module MergeFilterNlj {
  import opened Expressions
  import opened Plans
  import opened PlanMeaning
  import opened JoinAlgebra
  import opened FilterPushDown

  /** The rewrite at one node, its children already rewritten. */
  function MergeAt(p: Plan): Result<Plan> {
    if !p.Filter? || !p.child.NestedLoopJoin? then Success(p)
    else
      var join := p.child;
      var pred :- RewriteForJoin(p.pred, Width(join.left), Width(join.right));
      if IsPredicateTrue(join.pred) then Success(join.(pred := pred))
      else if join.kind == INNER then Success(join.(pred := And(join.pred, pred)))
      else Success(p)
  }

  function Merge(p: Plan): Result<Plan>
    decreases p
  {
    var cs := Children(p);
    if forall i | 0 <= i < |cs| :: Merge(cs[i]).Success? then
      MergeAt(WithChildren(p, seq(|cs|, i requires 0 <= i < |cs| => Merge(cs[i]).value)))
    else Failure
  }

  /** No outer join is a cross product, and only inner and left joins occur as nested loops. */
  predicate NoOuterCross(p: Plan)
    decreases p
  {
    (p.NestedLoopJoin? ==> p.kind == INNER || (p.kind == LEFT && !IsPredicateTrue(p.pred))) &&
    forall i | 0 <= i < |Children(p)| :: NoOuterCross(Children(p)[i])
  }

  /** Folding the filter into an inner join keeps the rows: any condition that says what the old
      condition and the filter say together may take their place. */
  lemma MergeInner(pred: Expr, join: Plan, on: Expr, db: Database)
    requires IsInnerJoin(join) && WellFormed(Filter(pred, join)) && Fits(join, db)
    requires forall l: Row, r: Row | |l| == Width(join.left) && |r| == Width(join.right) ::
               Holds(on, l, r) == (Holds(join.pred, l, r) && Holds(pred, l + r, []))
    ensures Denote(Filter(pred, join), db) == Denote(join.(pred := on), db)
  {
    var ls, rs, rw := Denote(join.left, db), Denote(join.right, db), Width(join.right);
    DenoteWide(join.left, db);
    DenoteWide(join.right, db);
    FilterJoin(Keep(pred), On(join.pred), ls, rs, rw);
    JoinAgree(INNER, AndWhole(On(join.pred), Keep(pred)), On(on), ls, rs, rw);
  }

  /** The condition the rewrite installs is such a condition. */
  lemma MergedCondition(p: Plan, l: Row, r: Row)
    requires p.Filter? && IsInnerJoin(p.child) && WellFormed(p)
    requires |l| == Width(p.child.left) && |r| == Width(p.child.right)
    ensures MergeAt(p).Success? && IsInnerJoin(MergeAt(p).value) && Scoped(MergeAt(p).value.pred, |l|, |r|)
    ensures MergeAt(p).value == p.child.(pred := MergeAt(p).value.pred)
    ensures Holds(MergeAt(p).value.pred, l, r) == (Holds(p.child.pred, l, r) && Holds(p.pred, l + r, []))
  {
    RewriteEval(p.pred, l, r);
  }

  lemma MergeAtPreserves(p: Plan)
    requires WellFormed(p) && NoOuterCross(p)
    ensures Preserves(MergeAt(p), p) && NoOuterCross(MergeAt(p).value)
  {
    if p.Filter? && p.child.NestedLoopJoin? {
      var join := p.child;
      assert NoOuterCross(Children(p)[0]);
      var lw, rw := Width(join.left), Width(join.right);
      if join.kind == INNER {
        assert NoOuterCross(Children(join)[0]) && NoOuterCross(Children(join)[1]);
        MergedCondition(p, Nulls(lw), Nulls(rw));
        var q := MergeAt(p).value;
        assert Children(q) == Children(join);
        forall l: Row, r: Row | |l| == lw && |r| == rw
          ensures Holds(q.pred, l, r) == (Holds(join.pred, l, r) && Holds(p.pred, l + r, []))
        {
          MergedCondition(p, l, r);
        }
        forall db | Fits(p, db) ensures Fits(q, db) && Denote(q, db) == Denote(p, db) {
          MergeInner(p.pred, join, q.pred, db);
        }
      } else {
        RewriteEval(p.pred, Nulls(lw), Nulls(rw));
      }
    }
  }

  /** Folding filters into joins preserves the meaning of every well-formed plan in which no outer
      join is a cross product. */
  lemma {:induction false} MergePreserves(p: Plan)
    requires WellFormed(p) && NoOuterCross(p)
    ensures Preserves(Merge(p), p) && NoOuterCross(Merge(p).value)
    decreases p
  {
    hide WellFormed, Scoped, Fits, Width, Flat, IsPredicateTrue, MergeAt, AllPreserve, AllScoped, AllWide;
    var cs := Children(p);
    ChildrenWellFormed(p);
    forall i | 0 <= i < |cs| ensures Preserves(Merge(cs[i]), cs[i]) && NoOuterCross(Merge(cs[i]).value) {
      MergePreserves(cs[i]);
    }
    var cs' := seq(|cs|, i requires 0 <= i < |cs| => Merge(cs[i]).value);
    RebuiltPreserves(p, cs');
    var q := WithChildren(p, cs');
    assert Children(q) == cs';
    MergeAtPreserves(q);
    PreservesTransitive(MergeAt(q), q, p);
  }

  // ---------------------------------------------------------------- the outer-join branch

  /** Every left row keeps a partner under `h`; with no right rows at all, its padded self. */
  ghost predicate EveryRowKept(h: Row -> bool, ls: Rows, rs: Rows, rw: nat) {
    forall i | 0 <= i < |ls| :: RowKept(h, ls[i], rs, rw)
  }

  ghost predicate RowKept(h: Row -> bool, l: Row, rs: Rows, rw: nat) {
    (exists j :: 0 <= j < |rs| && h(l + rs[j])) || (rs == [] && h(l + Nulls(rw)))
  }

  function Always(): (Row, Row) -> bool {
    (l, r) => true
  }

  function OnWhole(h: Row -> bool): (Row, Row) -> bool {
    (l, r) => h(l + r)
  }

  lemma {:induction false} MatchesAlways(h: Row -> bool, l: Row, rs: Rows)
    ensures FilterRows(h, Matches(Always(), l, rs)) == Matches(OnWhole(h), l, rs)
    ensures rs != [] ==> Matches(Always(), l, rs) != []
    ensures Matches(OnWhole(h), l, rs) != [] <==> exists j :: 0 <= j < |rs| && h(l + rs[j])
  {
    FilterMatches(h, Always(), l, rs);
    MatchesAgree(AndWhole(Always(), h), OnWhole(h), l, rs);
    if j :| 0 <= j < |rs| && h(l + rs[j]) {
      SomeMatch(OnWhole(h), l, rs, j);
    } else {
      MatchesNone(OnWhole(h), l, rs);
    }
  }

  lemma {:induction false} SomeMatch(f: (Row, Row) -> bool, l: Row, rs: Rows, j: nat)
    requires j < |rs| && f(l, rs[j])
    ensures Matches(f, l, rs) != []
  {
    if j > 0 {
      SomeMatch(f, l, rs[1..], j - 1);
    }
  }

  /** One left row: filtering its padded cross product drops it where the folded join pads it. */
  lemma OuterOne(h: Row -> bool, l: Row, rs: Rows, rw: nat)
    ensures var a := FilterRows(h, JoinOne(LEFT, Always(), l, rs, rw));
            var b := JoinOne(LEFT, OnWhole(h), l, rs, rw);
            if RowKept(h, l, rs, rw) then a == b else a == [] && |b| == 1
  {
    MatchesAlways(h, l, rs);
    var padded := [l + Nulls(rw)];
    assert padded[1..] == [];
  }

  lemma {:induction false} OuterRows(h: Row -> bool, ls: Rows, rs: Rows, rw: nat)
    ensures var a := FilterRows(h, Join(LEFT, Always(), ls, rs, rw));
            var b := Join(LEFT, OnWhole(h), ls, rs, rw);
            |a| <= |b| && (a == b <==> EveryRowKept(h, ls, rs, rw)) && (|a| == |b| ==> a == b)
  {
    if ls != [] {
      OuterOne(h, ls[0], rs, rw);
      OuterRows(h, ls[1..], rs, rw);
      FilterAppend(h, JoinOne(LEFT, Always(), ls[0], rs, rw), Join(LEFT, Always(), ls[1..], rs, rw));
      assert EveryRowKept(h, ls, rs, rw) <==> RowKept(h, ls[0], rs, rw) && EveryRowKept(h, ls[1..], rs, rw) by {
        if RowKept(h, ls[0], rs, rw) && EveryRowKept(h, ls[1..], rs, rw) {
          forall i | 0 <= i < |ls| ensures RowKept(h, ls[i], rs, rw) {
            assert i > 0 ==> ls[i] == ls[1..][i - 1];
          }
        }
        if EveryRowKept(h, ls, rs, rw) {
          forall i | 0 <= i < |ls[1..]| ensures RowKept(h, ls[1..][i], rs, rw) {
            assert ls[1..][i] == ls[i + 1];
          }
        }
      }
    }
  }

  /** The constant-true branch does not look at the join type. On a LEFT join it keeps the rows if
      and only if the filter drops no left row entirely. */
  lemma MergeOuterExact(pred: Expr, join: Plan, pred': Expr, db: Database)
    requires join.NestedLoopJoin? && join.kind == LEFT && IsPredicateTrue(join.pred)
    requires WellFormed(Filter(pred, join)) && Fits(join, db)
    requires RewriteForJoin(pred, Width(join.left), Width(join.right)) == Success(pred')
    ensures MergeAt(Filter(pred, join)) == Success(join.(pred := pred'))
    ensures Denote(Filter(pred, join), db) == Denote(join.(pred := pred'), db) <==>
            EveryRowKept(Keep(pred), Denote(join.left, db), Denote(join.right, db), Width(join.right))
  {
    DenoteWide(join.left, db);
    DenoteWide(join.right, db);
    OuterFolded(pred, join.pred, pred', Denote(join.left, db), Denote(join.right, db), Width(join.left),
                Width(join.right));
  }

  lemma OuterFolded(pred: Expr, all: Expr, pred': Expr, ls: Rows, rs: Rows, lw: nat, rw: nat)
    requires IsPredicateTrue(all) && Flat(pred, lw + rw) && RewriteForJoin(pred, lw, rw) == Success(pred')
    requires AllWide(ls, lw) && AllWide(rs, rw)
    ensures FilterRows(Keep(pred), Join(LEFT, On(all), ls, rs, rw)) == Join(LEFT, On(pred'), ls, rs, rw) <==>
            EveryRowKept(Keep(pred), ls, rs, rw)
  {
    JoinAgree(LEFT, On(all), Always(), ls, rs, rw);
    forall i, j | 0 <= i < |ls| && 0 <= j < |rs|
      ensures On(pred')(ls[i], rs[j]) == OnWhole(Keep(pred))(ls[i], rs[j])
    {
      RewriteEval(pred, ls[i], rs[j]);
    }
    JoinAgree(LEFT, On(pred'), OnWhole(Keep(pred)), ls, rs, rw);
    OuterRows(Keep(pred), ls, rs, rw);
  }

  lemma NothingKept(l: Row, rs: Rows, rw: nat)
    ensures !RowKept(Keep(Constant(Num(0))), l, rs, rw)
  {
    assert forall row: Row :: !Holds(Constant(Num(0)), row, []);
  }

  /** Plans that change meaning: a false filter over a left join on true that has a left row. */
  lemma MergeOuterChangesMeaning(l: Plan, r: Plan, db: Database)
    requires WellFormed(l) && WellFormed(r) && Fits(l, db) && Fits(r, db) && Denote(l, db) != []
    ensures var p := Filter(Constant(Num(0)), NestedLoopJoin(LEFT, l, r, Constant(Num(1))));
            WellFormed(p) && Fits(p, db) && MergeAt(p).Success? && Denote(MergeAt(p).value, db) != Denote(p, db)
  {
    var never := Constant(Num(0));
    var join := NestedLoopJoin(LEFT, l, r, Constant(Num(1)));
    MergeOuterExact(never, join, never, db);
    NothingKept(Denote(l, db)[0], Denote(r, db), Width(r));
  }
}
