/** Fusing a limit with the sort below it into one top-n. */
module SortLimitAsTopN {
  import opened Expressions
  import opened Plans
  import opened PlanMeaning

  function TopNAt(p: Plan): Plan {
    if p.Limit? && p.child.Sort? then TopN(p.n, p.child.keys, p.child.order, p.child.child) else p
  }

  function SortLimitToTopN(p: Plan): Plan
    decreases p
  {
    var cs := Children(p);
    TopNAt(WithChildren(p, seq(|cs|, i requires 0 <= i < |cs| => SortLimitToTopN(cs[i]))))
  }

  lemma TopNAtPreserves(p: Plan)
    requires WellFormed(p)
    ensures Preserves(Success(TopNAt(p)), p)
  {
    if p.Limit? && p.child.Sort? {
      var q, c := TopNAt(p), p.child;
      forall db | Fits(p, db) ensures Denote(q, db) == Denote(p, db) {
        assert Denote(c, db) == Sorted(c.keys, c.order, Denote(c.child, db));
      }
    }
  }

  /** The rewritten plan denotes the same rows in the same order. */
  lemma {:induction false} SortLimitPreserves(p: Plan)
    requires WellFormed(p)
    ensures Preserves(Success(SortLimitToTopN(p)), p)
    decreases p
  {
    hide WellFormed, Preserves;
    var cs := Children(p);
    ChildrenWellFormed(p);
    forall i | 0 <= i < |cs| ensures Preserves(Success(SortLimitToTopN(cs[i])), cs[i]) {
      SortLimitPreserves(cs[i]);
    }
    var cs' := seq(|cs|, i requires 0 <= i < |cs| => SortLimitToTopN(cs[i]));
    RebuiltPreserves(p, cs');
    RebuiltWellFormed(p, cs');
    TopNAtPreserves(WithChildren(p, cs'));
    PreservesTransitive(Success(SortLimitToTopN(p)), WithChildren(p, cs'), p);
  }

  /** No limit is left directly over a sort. */
  ghost predicate Collapsed(p: Plan) {
    !(p.Limit? && p.child.Sort?) && forall c: Plan | c in Children(p) :: Collapsed(c)
  }

  lemma {:induction false} SortLimitComplete(p: Plan)
    ensures Collapsed(SortLimitToTopN(p))
    decreases p
  {
    var cs := Children(p);
    forall i | 0 <= i < |cs| ensures Collapsed(SortLimitToTopN(cs[i])) {
      SortLimitComplete(cs[i]);
    }
    var cs' := seq(|cs|, i requires 0 <= i < |cs| => SortLimitToTopN(cs[i]));
    var p' := WithChildren(p, cs');
    assert forall c: Plan | c in Children(p') :: Collapsed(c) by {
      assert Children(p') == cs';
    }
    if p'.Limit? && p'.child.Sort? {
      assert p'.child in Children(p');
      assert Children(TopNAt(p')) == Children(p'.child);
    }
  }
}
