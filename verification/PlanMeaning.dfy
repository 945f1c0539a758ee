/** When one plan may stand for another, and that replacing children by such plans keeps the whole. */
module PlanMeaning {
  import opened Expressions
  import opened Plans

  /** The rewritten plan is well formed, as wide, and reads the same tables. */
  ghost predicate Replaces(p': Result<Plan>, p: Plan) {
    p'.Success? && WellFormed(p'.value) && Width(p'.value) == Width(p) && forall db | Fits(p, db) :: Fits(p'.value, db)
  }

  ghost predicate Preserves(p': Result<Plan>, p: Plan) {
    Replaces(p', p) && forall db | Fits(p, db) :: Denote(p'.value, db) == Denote(p, db)
  }

  function Children(p: Plan): (cs: seq<Plan>)
    ensures forall i | 0 <= i < |cs| :: cs[i] < p
  {
    match p
    case SeqScan(_, _, _, _) => []
    case Filter(_, c) => [c]
    case Project(_, c) => [c]
    case Limit(_, c) => [c]
    case Sort(_, _, c) => [c]
    case TopN(_, _, _, c) => [c]
    case Aggregate(_, _, _, _, c) => [c]
    case NestedLoopJoin(_, l, r, _) => [l, r]
    case HashJoin(_, l, r, _, _, _) => [l, r]
    case Operator(_, _, cs) => cs
  }

  /** `p` with its children exchanged for `cs`. */
  function WithChildren(p: Plan, cs: seq<Plan>): Plan
    requires |cs| == |Children(p)|
  {
    match p
    case SeqScan(_, _, _, _) => p
    case Filter(pred, _) => Filter(pred, cs[0])
    case Project(es, _) => Project(es, cs[0])
    case Limit(n, _) => Limit(n, cs[0])
    case Sort(keys, order, _) => Sort(keys, order, cs[0])
    case TopN(n, keys, order, _) => TopN(n, keys, order, cs[0])
    case Aggregate(gs, args, w, fold, _) => Aggregate(gs, args, w, fold, cs[0])
    case NestedLoopJoin(k, _, _, pred) => NestedLoopJoin(k, cs[0], cs[1], pred)
    case HashJoin(k, _, _, lks, rks, live) => HashJoin(k, cs[0], cs[1], lks, rks, live)
    case Operator(w, run, _) => Operator(w, run, cs)
  }

  ghost predicate AllPreserve(cs': seq<Plan>, cs: seq<Plan>) {
    |cs'| == |cs| && forall i {:trigger cs'[i]} | 0 <= i < |cs| :: Preserves(Success(cs'[i]), cs[i])
  }

  lemma ChildrenWellFormed(p: Plan)
    requires WellFormed(p)
    ensures forall i | 0 <= i < |Children(p)| :: WellFormed(Children(p)[i])
  {
  }

  lemma RebuiltWellFormed(p: Plan, cs: seq<Plan>)
    requires WellFormed(p) && AllPreserve(cs, Children(p))
    ensures WellFormed(WithChildren(p, cs)) && Width(WithChildren(p, cs)) == Width(p)
  {
  }

  lemma RebuiltFits(p: Plan, cs: seq<Plan>, db: Database)
    requires Fits(p, db) && AllPreserve(cs, Children(p))
    ensures Fits(WithChildren(p, cs), db)
    ensures forall i | 0 <= i < |cs| :: Fits(Children(p)[i], db) && Fits(cs[i], db)
  {
    assert forall i | 0 <= i < |cs| :: Preserves(Success(cs[i]), Children(p)[i]);
  }

  lemma RebuiltDenotes(p: Plan, cs: seq<Plan>, db: Database)
    requires Fits(p, db) && AllPreserve(cs, Children(p))
    ensures Denote(WithChildren(p, cs), db) == Denote(p, db)
  {
    RebuiltFits(p, cs, db);
    forall i | 0 <= i < |cs| ensures Denote(cs[i], db) == Denote(Children(p)[i], db) {
      assert Preserves(Success(cs[i]), Children(p)[i]);
    }
    if p.Operator? {
      assert seq(|cs|, i requires 0 <= i < |cs| => Denote(cs[i], db)) ==
             seq(|p.children|, i requires 0 <= i < |p.children| => Denote(p.children[i], db));
    }
  }

  /** Plans that stand for the children of a node may take their place. */
  lemma RebuiltPreserves(p: Plan, cs: seq<Plan>)
    requires WellFormed(p) && AllPreserve(cs, Children(p))
    ensures Preserves(Success(WithChildren(p, cs)), p)
  {
    RebuiltWellFormed(p, cs);
    forall db | Fits(p, db) ensures Fits(WithChildren(p, cs), db) && Denote(WithChildren(p, cs), db) == Denote(p, db) {
      RebuiltFits(p, cs, db);
      RebuiltDenotes(p, cs, db);
    }
  }

  lemma PreservesTransitive(r: Result<Plan>, q: Plan, p: Plan)
    requires Preserves(r, q) && Preserves(Success(q), p)
    ensures Preserves(r, p)
  {
  }
}
