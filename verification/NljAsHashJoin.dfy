/** Hash joins in place of nested loops whose predicate only equates columns of the two inputs, and the
    three join rewrites one after another. */
module NljAsHashJoin {
  import opened Expressions
  import opened Plans
  import opened PlanMeaning
  import opened JoinAlgebra
  import opened FilterPushDown
  import opened MergeFilterNlj

  /** An OR anywhere in the expression. */
  predicate HasOr(e: Expr) {
    match e
    case Or(_, _) => true
    case Column(_, _) => false
    case Constant(_) => false
    case And(a, b) => HasOr(a) || HasOr(b)
    case Compare(_, a, b) => HasOr(a) || HasOr(b)
    case Call(_, args) => exists i | 0 <= i < |args| :: HasOr(args[i])
  }

  /** An equality of two columns of different inputs. */
  predicate IsEquiPair(e: Expr) {
    e.Compare? && e.op.Equal? && e.left.Column? && e.right.Column? && e.left.tuple != e.right.tuple
  }

  datatype Keys = Keys(ok: bool, left: seq<Expr>, right: seq<Expr>)

  /** The keys an OR-free predicate yields, whether all of it reduced to keys, in textual order with
      the column of input 0 on the left. A failing conjunct does not stop the collection. */
  function ExtractKeys(e: Expr): Keys {
    if e.And? then
      var a, b := ExtractKeys(e.left), ExtractKeys(e.right);
      Keys(a.ok && b.ok, a.left + b.left, a.right + b.right)
    else if !IsEquiPair(e) then Keys(false, [], [])
    else if e.left.tuple == 0 then Keys(true, [e.left], [e.right])
    else Keys(true, [e.right], [e.left])
  }

  /** The source's form: keys are appended to two lists handed down the recursion. */
  method AppendKeys(leftKeys: seq<Expr>, rightKeys: seq<Expr>, e: Expr)
    returns (ok: bool, leftKeys': seq<Expr>, rightKeys': seq<Expr>)
    ensures var keys := ExtractKeys(e);
            ok == keys.ok && leftKeys' == leftKeys + keys.left && rightKeys' == rightKeys + keys.right
    decreases e
  {
    if e.And? {
      var a, b;
      a, leftKeys', rightKeys' := AppendKeys(leftKeys, rightKeys, e.left);
      b, leftKeys', rightKeys' := AppendKeys(leftKeys', rightKeys', e.right);
      return a && b, leftKeys', rightKeys';
    }
    if !IsEquiPair(e) {
      return false, leftKeys, rightKeys;
    }
    if e.left.tuple == 0 {
      return true, leftKeys + [e.left], rightKeys + [e.right];
    }
    return true, leftKeys + [e.right], rightKeys + [e.left];
  }

  function HashAt(p: Plan): Plan {
    if p.NestedLoopJoin? && !HasOr(p.pred) && ExtractKeys(p.pred).ok && ExtractKeys(p.pred).left != [] then
      var keys := ExtractKeys(p.pred);
      HashJoin(p.kind, p.left, p.right, keys.left, keys.right, Everything)
    else p
  }

  function AsHashJoin(p: Plan): Plan
    decreases p
  {
    var cs := Children(p);
    HashAt(WithChildren(p, seq(|cs|, i requires 0 <= i < |cs| => AsHashJoin(cs[i]))))
  }

  // ---------------------------------------------------------------- key matching is the predicate

  lemma KeysMatchAppend(a1: Row, a2: Row, b1: Row, b2: Row)
    requires |a1| == |b1|
    ensures KeysMatch(a1 + a2, b1 + b2) <==> KeysMatch(a1, b1) && KeysMatch(a2, b2)
  {
    if KeysMatch(a1 + a2, b1 + b2) {
      forall i | 0 <= i < |a1| ensures a1[i] != Null && a1[i] == b1[i] {
        assert a1[i] == (a1 + a2)[i] && b1[i] == (b1 + b2)[i];
      }
      forall i | 0 <= i < |a2| ensures a2[i] != Null && a2[i] == b2[i] {
        assert a2[i] == (a1 + a2)[|a1| + i] && b2[i] == (b1 + b2)[|b1| + i];
      }
    }
  }

  lemma EvalAllAppend(a: seq<Expr>, b: seq<Expr>, l: Row, r: Row)
    ensures EvalAll(a + b, l, r) == EvalAll(a, l, r) + EvalAll(b, l, r)
  {
  }

  /** The extracted keys match exactly when the predicate selects the pair: NULL keys never do. */
  lemma {:induction false} KeysDecide(e: Expr, l: Row, r: Row)
    requires Scoped(e, |l|, |r|) && ExtractKeys(e).ok
    ensures var keys := ExtractKeys(e);
            |keys.left| == |keys.right| && AllScoped(keys.left, |l|, 0) && AllScoped(keys.right, 0, |r|) &&
            (Holds(e, l, r) <==> KeysMatch(EvalAll(keys.left, l, []), EvalAll(keys.right, [], r)))
  {
    var keys := ExtractKeys(e);
    if e.And? {
      var a, b := ExtractKeys(e.left), ExtractKeys(e.right);
      KeysDecide(e.left, l, r);
      KeysDecide(e.right, l, r);
      EvalAllAppend(a.left, b.left, l, []);
      EvalAllAppend(a.right, b.right, [], r);
      KeysMatchAppend(EvalAll(a.left, l, []), EvalAll(b.left, l, []), EvalAll(a.right, [], r), EvalAll(b.right, [], r));
    } else {
      var x, y := EvalAll(keys.left, l, []), EvalAll(keys.right, [], r);
      assert KeysMatch(x, y) <==> x[0] != Null && x[0] == y[0];
      var a, b := keys.left[0], keys.right[0];
      assert x[0] == Eval(a, l, r) && y[0] == Eval(b, l, r);
      assert Holds(e, l, r) <==> Passes(Equal, Eval(e.left, l, r), Eval(e.right, l, r));
    }
  }

  lemma HashAtPreserves(p: Plan)
    requires WellFormed(p)
    ensures Preserves(Success(HashAt(p)), p)
  {
    var q := HashAt(p);
    if q.HashJoin? && p.NestedLoopJoin? {
      KeysDecide(p.pred, Nulls(Width(p.left)), Nulls(Width(p.right)));
      forall db | Fits(p, db) ensures Denote(q, db) == Denote(p, db) {
        HashDenotes(p, q, db);
      }
    }
  }

  lemma HashDenotes(p: Plan, q: Plan, db: Database)
    requires WellFormed(p) && Fits(p, db) && p.NestedLoopJoin? && q == HashAt(p) && q.HashJoin?
    ensures Denote(q, db) == Denote(p, db)
  {
    var ls, rs, rw := Denote(p.left, db), Denote(p.right, db), Width(p.right);
    DenoteWide(p.left, db);
    DenoteWide(p.right, db);
    forall i, j | 0 <= i < |ls| && 0 <= j < |rs|
      ensures OnKeys(q.leftKeys, q.rightKeys)(ls[i], rs[j]) == On(p.pred)(ls[i], rs[j])
    {
      KeysDecide(p.pred, ls[i], rs[j]);
    }
    JoinAgree(p.kind, OnKeys(q.leftKeys, q.rightKeys), On(p.pred), ls, rs, rw);
    MaskEverything(Join(p.kind, On(p.pred), ls, rs, rw), p.kind, Width(p.left));
  }

  /** Replacing nested loops by hash joins preserves the meaning of every well-formed plan. */
  lemma {:induction false} HashPreserves(p: Plan)
    requires WellFormed(p)
    ensures Preserves(Success(AsHashJoin(p)), p)
    decreases p
  {
    var cs := Children(p);
    ChildrenWellFormed(p);
    forall i | 0 <= i < |cs| ensures Preserves(Success(AsHashJoin(cs[i])), cs[i]) {
      HashPreserves(cs[i]);
    }
    var cs' := seq(|cs|, i requires 0 <= i < |cs| => AsHashJoin(cs[i]));
    RebuiltPreserves(p, cs');
    HashAtPreserves(WithChildren(p, cs'));
    PreservesTransitive(Success(AsHashJoin(p)), WithChildren(p, cs'), p);
  }

  // ---------------------------------------------------------------- the join pipeline

  /** Fold filters into joins, push their parts down, turn what is left into hash joins. */
  function OptimizeJoins(p: Plan): Result<Plan> {
    var merged :- Merge(p);
    var pushed :- Push(merged);
    Success(AsHashJoin(pushed))
  }

  /** The three passes in order preserve the meaning of every well-formed plan in which no outer join
      is a cross product. */
  lemma OptimizeJoinsPreserves(p: Plan)
    requires WellFormed(p) && NoOuterCross(p)
    ensures Preserves(OptimizeJoins(p), p)
  {
    MergePreserves(p);
    var merged := Merge(p).value;
    PushPreserves(merged);
    var pushed := Push(merged).value;
    HashPreserves(pushed);
    PreservesTransitive(Success(pushed), merged, p);
    PreservesTransitive(OptimizeJoins(p), pushed, p);
  }
}
