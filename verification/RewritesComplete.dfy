/** The join rewrites do all they are for: no filter is left that could be folded into a join, no condition
    that could be tested below it, no nested loop that could be a hash join. */
module RewritesComplete {
  import opened Expressions
  import opened Plans
  import opened Conjuncts
  import opened PlanMeaning
  import opened FilterPushDown
  import opened MergeFilterNlj
  import opened NljAsHashJoin

  // ---------------------------------------------------------------- folding filters

  /** No filter stands directly over a join that could take it. */
  ghost predicate AllFolded(p: Plan) {
    && !(p.Filter? && p.child.NestedLoopJoin? && (p.child.kind == INNER || IsPredicateTrue(p.child.pred)))
    && forall c: Plan | c in Children(p) :: AllFolded(c)
  }

  lemma {:induction false} MergeComplete(p: Plan)
    requires Merge(p).Success?
    ensures AllFolded(Merge(p).value)
    decreases p
  {
    var cs := Children(p);
    var cs' := seq(|cs|, i requires 0 <= i < |cs| => Merge(cs[i]).value);
    forall i | 0 <= i < |cs| ensures AllFolded(cs'[i]) {
      MergeComplete(cs[i]);
    }
    var p' := WithChildren(p, cs');
    assert Children(p') == cs';
    if p'.Filter? && p'.child.NestedLoopJoin? {
      assert p'.child in Children(p');
      var q := Merge(p).value;
      assert q.NestedLoopJoin? ==> Children(q) == Children(p'.child);
    }
  }

  // ---------------------------------------------------------------- pushing conditions down

  predicate ReadsInput(e: Expr, t: nat) {
    match e
    case Column(u, _) => u == t
    case Constant(_) => false
    case And(a, b) => ReadsInput(a, t) || ReadsInput(b, t)
    case Or(a, b) => ReadsInput(a, t) || ReadsInput(b, t)
    case Compare(_, a, b) => ReadsInput(a, t) || ReadsInput(b, t)
    case Call(_, args) => exists i | 0 <= i < |args| :: ReadsInput(args[i], t)
  }

  /** Every condition left at an inner join reads both inputs, or none. */
  ghost predicate AllPushed(p: Plan) {
    && (IsInnerJoin(p) ==> forall c: Expr | c in Split(p.pred) :: ReadsInput(c, 0) == ReadsInput(c, 1))
    && forall c: Plan | c in Children(p) :: AllPushed(c)
  }

  predicate NoAnd(cs: seq<Expr>) {
    forall i | 0 <= i < |cs| :: !cs[i].And?
  }

  lemma {:induction false} SplitNoAnd(e: Expr)
    ensures NoAnd(Split(e))
  {
    if e.And? {
      SplitNoAnd(e.left);
      SplitNoAnd(e.right);
    }
  }

  lemma {:induction false} PickNoAnd(cs: seq<Expr>, keep: Expr -> bool)
    requires NoAnd(cs)
    ensures NoAnd(Pick(cs, keep))
  {
    if cs != [] {
      PickNoAnd(cs[1..], keep);
    }
  }

  lemma {:induction false} SplitOfConjoin(cs: seq<Expr>)
    requires NoAnd(cs) && cs != []
    ensures Split(Conjoin(cs)) == cs
  {
    if |cs| > 1 {
      SplitOfConjoin(cs[..|cs| - 1]);
      assert cs == cs[..|cs| - 1] + [cs[|cs| - 1]];
    }
  }

  /** Re-addressing a conjunction re-addresses its conjuncts. */
  lemma {:induction false} SplitOfRewrite(e: Expr, lw: nat, rw: nat)
    requires RewriteForJoin(e, lw, rw).Success?
    ensures var es, es' := Split(e), Split(RewriteForJoin(e, lw, rw).value);
            |es'| == |es| && forall i | 0 <= i < |es| :: RewriteForJoin(es[i], lw, rw) == Success(es'[i])
  {
    if e.And? {
      SplitOfRewrite(e.left, lw, rw);
      SplitOfRewrite(e.right, lw, rw);
    }
  }

  predicate Touches(side: Side, t: nat) {
    side == Both || side == if t == 0 then OnLeft else OnRight
  }

  /** The side of a condition says which inputs it reads once it is re-addressed. */
  lemma {:induction false} SideReadsInput(e: Expr, lw: nat, rw: nat, t: nat)
    requires RewriteForJoin(e, lw, rw).Success? && t < 2
    ensures ReadsInput(RewriteForJoin(e, lw, rw).value, t) <==> Touches(SideOf(e, lw), t)
    decreases e, 0
  {
    match e
    case And(a, b) => SideReadsInput(a, lw, rw, t); SideReadsInput(b, lw, rw, t);
    case Or(a, b) => SideReadsInput(a, lw, rw, t); SideReadsInput(b, lw, rw, t);
    case Compare(_, a, b) => SideReadsInput(a, lw, rw, t); SideReadsInput(b, lw, rw, t);
    case Call(_, args) =>
      var args' := RewriteForJoin(e, lw, rw).value.args;
      SidesReadInput(args, lw, rw, |args|, t);
      assert forall i | 0 <= i < |args| :: args'[i] == RewriteForJoin(args[i], lw, rw).value;
    case _ =>
  }

  lemma {:induction false} SidesReadInput(args: seq<Expr>, lw: nat, rw: nat, n: nat, t: nat)
    requires n <= |args| && t < 2 && forall i | 0 <= i < |args| :: RewriteForJoin(args[i], lw, rw).Success?
    ensures (exists i | 0 <= i < n :: ReadsInput(RewriteForJoin(args[i], lw, rw).value, t)) <==>
            Touches(SideOfAll(args, lw, n), t)
    decreases args, n
  {
    if n > 0 {
      SidesReadInput(args, lw, rw, n - 1, t);
      SideReadsInput(args[n - 1], lw, rw, t);
    }
  }

  /** What stays at the join reads both inputs or none. */
  lemma JoinPartStays(cs: seq<Expr>, lw: nat, rw: nat)
    requires NoAnd(cs) && RewriteForJoin(Conjoin(JoinPart(cs, lw)), lw, rw).Success?
    ensures var pred := RewriteForJoin(Conjoin(JoinPart(cs, lw)), lw, rw).value;
            forall c: Expr | c in Split(pred) :: ReadsInput(c, 0) == ReadsInput(c, 1)
  {
    var ps := JoinPart(cs, lw);
    var e := Conjoin(ps);
    var pred := RewriteForJoin(e, lw, rw).value;
    PickNoAnd(cs, OnBothOrNone(lw));
    SplitOfRewrite(e, lw, rw);
    if ps != [] {
      SplitOfConjoin(ps);
      forall c: Expr | c in Split(pred) ensures ReadsInput(c, 0) == ReadsInput(c, 1) {
        var i :| 0 <= i < |Split(pred)| && Split(pred)[i] == c;
        assert Split(e)[i] == ps[i] && ps[i] in ps;
        PickMembers(cs, OnBothOrNone(lw), ps[i]);
        SideReadsInput(ps[i], lw, rw, 0);
        SideReadsInput(ps[i], lw, rw, 1);
      }
    }
  }

  lemma PoolNoAnd(p: Plan, pending: seq<Expr>)
    requires p.NestedLoopJoin? && NoAnd(pending)
    ensures NoAnd(Pool(p, pending))
  {
    SplitNoAnd(Flatten(p.pred, Width(p.left)));
  }

  lemma {:induction false} PushIntoComplete(p: Plan, pending: seq<Expr>)
    requires NoAnd(pending) && PushInto(p, pending).Success?
    ensures AllPushed(PushInto(p, pending).value)
    decreases p, if IsInnerJoin(p) then 0 else 1
  {
    hide WithChildren, ReadsInput, Push, Width, Flatten;
    if IsInnerJoin(p) {
      var lw, rw, cs := Width(p.left), Width(p.right), Pool(p, pending);
      PoolNoAnd(p, pending);
      PickNoAnd(cs, OnSide(OnLeft, lw));
      PickNoAnd(cs, OnSide(OnRight, lw));
      hide Pool, JoinPart, Conjoin, Split;
      PushIntoComplete(p.left, LeftPart(cs, lw));
      PushIntoComplete(p.right, RightPart(cs, lw));
      JoinPartStays(cs, lw, rw);
    } else {
      PushComplete(p);
    }
  }

  lemma {:induction false} PushComplete(p: Plan)
    requires Push(p).Success?
    ensures AllPushed(Push(p).value)
    decreases p, if IsInnerJoin(p) then 1 else 0
  {
    if IsInnerJoin(p) {
      PushIntoComplete(p, []);
    } else {
      var cs := Children(p);
      var cs' := seq(|cs|, i requires 0 <= i < |cs| => Push(cs[i]).value);
      forall i | 0 <= i < |cs| ensures AllPushed(cs'[i]) {
        PushComplete(cs[i]);
      }
      assert Children(WithChildren(p, cs')) == cs';
    }
  }

  // ---------------------------------------------------------------- hash joins

  /** Nothing but equalities between a column of one input and a column of the other. */
  predicate OnlyEqualities(e: Expr) {
    if e.And? then OnlyEqualities(e.left) && OnlyEqualities(e.right) else IsEquiPair(e)
  }

  ghost predicate AllHashed(p: Plan) {
    !(p.NestedLoopJoin? && OnlyEqualities(p.pred)) && forall c: Plan | c in Children(p) :: AllHashed(c)
  }

  lemma {:induction false} EqualitiesAreKeys(e: Expr)
    requires OnlyEqualities(e)
    ensures !HasOr(e) && ExtractKeys(e).ok && ExtractKeys(e).left != []
  {
    if e.And? {
      EqualitiesAreKeys(e.left);
      EqualitiesAreKeys(e.right);
    }
  }

  lemma {:induction false} HashComplete(p: Plan)
    ensures AllHashed(AsHashJoin(p))
    decreases p
  {
    var cs := Children(p);
    var cs' := seq(|cs|, i requires 0 <= i < |cs| => AsHashJoin(cs[i]));
    forall i | 0 <= i < |cs| ensures AllHashed(cs'[i]) {
      HashComplete(cs[i]);
    }
    var p' := WithChildren(p, cs');
    assert Children(p') == cs';
    if p'.NestedLoopJoin? && OnlyEqualities(p'.pred) {
      EqualitiesAreKeys(p'.pred);
    }
    assert Children(HashAt(p')) == Children(p');
  }
}
