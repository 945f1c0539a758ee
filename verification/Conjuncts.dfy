/** Predicates as lists of AND-ed conjuncts. */
module Conjuncts {
  import opened Expressions
  import opened Plans

  /** A predicate's AND-ed conjuncts, left to right. */
  function Split(e: Expr): seq<Expr> {
    match e
    case And(a, b) => Split(a) + Split(b)
    case _ => [e]
  }

  /** Conjuncts AND-ed together from the left; none at all is the constant true. */
  function Conjoin(cs: seq<Expr>): Expr {
    if cs == [] then Constant(Num(1))
    else if |cs| == 1 then cs[0]
    else And(Conjoin(cs[..|cs| - 1]), cs[|cs| - 1])
  }

  ghost predicate AllHold(cs: seq<Expr>, l: Row, r: Row) {
    forall e | e in cs :: Holds(e, l, r)
  }

  lemma AllHoldOne(e: Expr, l: Row, r: Row)
    ensures AllHold([e], l, r) <==> Holds(e, l, r)
  {
    assert e in [e];
  }

  /** A list of conjuncts as a test of one row. */
  ghost function KeepAll(cs: seq<Expr>): Row -> bool {
    row => AllHold(cs, row, [])
  }

  lemma {:induction false} SplitHolds(e: Expr, l: Row, r: Row, lw: nat, rw: nat)
    requires Scoped(e, lw, rw)
    ensures Holds(e, l, r) <==> AllHold(Split(e), l, r)
    ensures AllScoped(Split(e), lw, rw)
  {
    if e.And? {
      SplitHolds(e.left, l, r, lw, rw);
      SplitHolds(e.right, l, r, lw, rw);
      AllHoldAppend(Split(e.left), Split(e.right), l, r);
    } else {
      AllHoldOne(e, l, r);
    }
  }

  lemma AllHoldAppend(a: seq<Expr>, b: seq<Expr>, l: Row, r: Row)
    ensures AllHold(a + b, l, r) <==> AllHold(a, l, r) && AllHold(b, l, r)
  {
    assert forall e :: e in a + b <==> e in a || e in b;
  }

  lemma {:induction false} ConjoinHolds(cs: seq<Expr>, l: Row, r: Row)
    ensures Holds(Conjoin(cs), l, r) <==> AllHold(cs, l, r)
  {
    if |cs| == 1 {
      AllHoldOne(cs[0], l, r);
      assert cs == [cs[0]];
    } else if |cs| > 1 {
      var n := |cs| - 1;
      ConjoinHolds(cs[..n], l, r);
      AllHoldAppend(cs[..n], [cs[n]], l, r);
      assert cs == cs[..n] + [cs[n]];
      AllHoldOne(cs[n], l, r);
    }
  }

  lemma {:induction false} ConjoinScoped(cs: seq<Expr>, lw: nat, rw: nat)
    requires AllScoped(cs, lw, rw)
    ensures Scoped(Conjoin(cs), lw, rw)
  {
    if |cs| > 1 {
      ConjoinScoped(cs[..|cs| - 1], lw, rw);
    }
  }

  /** The fold the source runs over a conjunct list, proved to be `Conjoin`. */
  method ConjoinLoop(cs: seq<Expr>) returns (e: Expr)
    ensures e == Conjoin(cs)
  {
    if |cs| == 0 {
      return Constant(Num(1));
    }
    e := cs[0];
    for i := 1 to |cs|
      invariant e == Conjoin(cs[..i])
    {
      assert cs[..i + 1][..i] == cs[..i];
      e := And(e, cs[i]);
    }
    assert cs[..|cs|] == cs;
  }
}
