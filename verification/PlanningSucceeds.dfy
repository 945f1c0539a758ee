/** The planner accepts a WHERE clause exactly when it is plannable, whatever the cost guard says. */
module PlanningSucceeds {
  import opened Expressions
  import opened Plans
  import opened Conjuncts
  import opened BoundQueries
  import opened KeySources
  import opened Decorrelation
  import opened PlannableQueries

  // ---------------------------------------------------------------- the key source never fails

  lemma {:induction false} PlainHasNoScalars(e: Bound)
    requires Plain(e)
    ensures CollectScalars(e) == []
    decreases e, 0
  {
    match e
    case Conj(a, b) =>
      PlainHasNoScalars(a);
      PlainHasNoScalars(b);
    case Same(a, b) =>
      PlainHasNoScalars(a);
      PlainHasNoScalars(b);
    case Apply(_, args) => PlainHaveNoScalars(args, |args|);
    case _ =>
  }

  lemma {:induction false} PlainHaveNoScalars(es: seq<Bound>, n: nat)
    requires n <= |es| && forall i | 0 <= i < |es| :: Plain(es[i])
    ensures CollectAll(es, n) == []
    decreases es, n
  {
    if n > 0 {
      PlainHaveNoScalars(es, n - 1);
      PlainHasNoScalars(es[n - 1]);
    }
  }

  /** What is readable in the whole schema is readable in a part that has its names. */
  lemma {:induction false} ReadableInPart(e: Bound, schema: Schema, off: nat, cols: Schema)
    requires off + |cols| <= |schema| && Part(schema, off, |cols|) == cols
    requires Plain(e) && Local(e, cols) && Readable(e, schema, false, false)
    ensures Readable(e, cols, false, false)
  {
    match e
    case ColumnRef(name) =>
      OnceIndex(schema, name);
      IndexInPart(schema, off, cols, name);
      OnceIndex(cols, name);
    case Literal(_) =>
    case Conj(a, b) =>
      ReadableInPart(a, schema, off, cols);
      ReadableInPart(b, schema, off, cols);
    case Same(a, b) =>
      ReadableInPart(a, schema, off, cols);
      ReadableInPart(b, schema, off, cols);
    case Apply(_, args) =>
      forall i | 0 <= i < |args| ensures Readable(args[i], cols, false, false) {
        ReadableInPart(args[i], schema, off, cols);
      }
  }

  ghost predicate OrdinaryReadable(cs: seq<Bound>, from: From) {
    forall c | c in cs && IsOrdinary(c) :: Readable(c, SchemaOf(from), false, false)
  }

  /** The conjuncts local to a base table were readable in the whole FROM. */
  lemma KeySourceSucceeds(cs: seq<Bound>, from: From, name: string, worthwhile: bool)
    requires OrdinaryReadable(cs, from)
    ensures BuildKeySource(cs, from, name, worthwhile).Success?
  {
    var found := FindKeyBaseTable(from, name);
    if found.Some? {
      var cols := found.value.columns;
      var locals := LocalConjuncts(cs, cols);
      SegmentSchema(from, name);
      forall i | 0 <= i < |locals| ensures Readable(locals[i], cols, false, false) {
        assert locals[i] in locals;
        PlainHasNoScalars(locals[i]);
        ReadableInPart(locals[i], SchemaOf(from), Offset(from, name), cols);
      }
      AllReadable(locals, cols, [], false);
      assert cols + [] == cols;
    }
  }

  lemma {:induction false} RestrictSucceeds(p: Plan, pairs: seq<Pair>, i: nat, cs: seq<Bound>, from: From,
          worthwhile: string -> bool)
    requires i <= |pairs| && OrdinaryReadable(cs, from)
    ensures Restrict(p, pairs, i, cs, from, worthwhile).Success?
    decreases |pairs| - i
  {
    if i < |pairs| {
      KeySourceSucceeds(cs, from, pairs[i].outer, worthwhile(pairs[i].outer));
      RestrictSucceeds(p, pairs, i + 1, cs, from, worthwhile);
    }
  }

  /** A base table of the FROM supplies the linked column, some conjunct reads only that table, and the cost
      guard agrees. */
  ghost predicate Usable(pair: Pair, cs: seq<Bound>, from: From, worthwhile: string -> bool) {
    worthwhile(pair.outer) && FindKeyBaseTable(from, pair.outer).Some? &&
    exists c :: c in cs && IsLocal(c, FindKeyBaseTable(from, pair.outer).value.columns)
  }

  /** The aggregate's input is restricted, by a SEMI join, if and only if some link is usable. */
  lemma {:induction false} RestrictsExactly(q: Select, groups: seq<Expr>, args: seq<Expr>,
          fold: seq<(Row, Row)> -> Rows, child: Plan, pairs: seq<Pair>, i: nat, cs: seq<Bound>, from: From,
          worthwhile: string -> bool)
    requires i <= |pairs| == |groups| && OrdinaryReadable(cs, from)
    ensures var r := Restrict(GroupedPlan(q, groups, args, fold, child), pairs, i, cs, from, worthwhile);
            && r.Success? && r.value.Project? && r.value.child.Aggregate?
            && var input := r.value.child.child;
               if exists j :: i <= j < |pairs| && Usable(pairs[j], cs, from, worthwhile)
               then input.HashJoin? && input.kind == SEMI && input.left == child
               else input == child
    decreases |pairs| - i
  {
    if i < |pairs| {
      var name := pairs[i].outer;
      KeySourceSucceeds(cs, from, name, worthwhile(name));
      var ks := BuildKeySource(cs, from, name, worthwhile(name)).value;
      assert ks.Source? <==> Usable(pairs[i], cs, from, worthwhile) by {
        SourceIffUsable(pairs[i], cs, from, worthwhile, ks);
      }
      if ks.Source? {
        RestrictedInput(q, groups, args, fold, child, i, ks.plan, ks.column);
      }
      hide BuildKeySource, Usable, OrdinaryReadable, RestrictAggregateInput, GroupedPlan;
      RestrictsExactly(q, groups, args, fold, child, pairs, i + 1, cs, from, worthwhile);
    } else {
      hide Usable;
    }
  }

  lemma RestrictedInput(q: Select, groups: seq<Expr>, args: seq<Expr>, fold: seq<(Row, Row)> -> Rows, child: Plan,
          i: nat, source: Plan, column: nat)
    requires i < |groups|
    ensures var r := RestrictAggregateInput(GroupedPlan(q, groups, args, fold, child), i, source, column);
            && r.Some? && r.value.Project? && r.value.child.Aggregate? && r.value.child.child.HashJoin?
            && r.value.child.child.kind == SEMI && r.value.child.child.left == child
            && r.value.child.child.right == source
  {
    var p := GroupedPlan(q, groups, args, fold, child);
    assert RestrictAggregateInput(p.child, i, source, column).Some?;
  }

  lemma SourceIffUsable(pair: Pair, cs: seq<Bound>, from: From, worthwhile: string -> bool, ks: KeySource)
    requires BuildKeySource(cs, from, pair.outer, worthwhile(pair.outer)) == Success(ks)
    ensures ks.Source? <==> Usable(pair, cs, from, worthwhile)
  {
    var found := FindKeyBaseTable(from, pair.outer);
    if found.Some? {
      var locals := LocalConjuncts(cs, found.value.columns);
      if locals != [] {
        assert locals[0] in locals;
      }
    }
  }

  // ---------------------------------------------------------------- both sides of the links

  lemma LinkSides(q: Select, schema: Schema, extra: Schema, joined: bool, outer: Schema, extra': Schema, joined': bool)
    requires Widened(extra, joined) && Widened(extra', joined')
    ensures PlanAll(Inners(Correlation(q).pairs), schema + extra).Success? <==>
            forall c | c in LinksOf(q) :: Readable(InnerSide(c), schema, joined, false)
    ensures PlanAll(Outers(Correlation(q).pairs), outer + extra').Success? <==>
            forall c | c in LinksOf(q) :: CanRead(OuterName(c), outer, joined')
  {
    var ps, ls := Correlation(q).pairs, LinksOf(q);
    CorrelationIsChoice(q);
    AllReadable(Inners(ps), schema, extra, joined);
    AllReadable(Outers(ps), outer, extra', joined');
    forall i | 0 <= i < |ls| ensures Inners(ps)[i] == InnerSide(ls[i]) && Outers(ps)[i] == ColumnRef(OuterName(ls[i])) {
      assert ps[i] == PairOf(ls[i]);
    }
    hide PlanAll, LinksOf, Correlation, InnerSide, OuterName, Widened, PairOf;
    SameInners(Inners(ps), ls, schema, joined);
    SameOuters(Outers(ps), ls, outer, joined');
  }

  lemma SameInners(es: seq<Bound>, ls: seq<Bound>, schema: Schema, joined: bool)
    requires |es| == |ls| && forall i | 0 <= i < |ls| :: Links(ls[i]) && es[i] == InnerSide(ls[i])
    ensures (forall i | 0 <= i < |es| :: Readable(es[i], schema, joined, false)) <==>
            (forall c | c in ls :: Links(c) && Readable(InnerSide(c), schema, joined, false))
  {
    if forall c | c in ls :: Links(c) && Readable(InnerSide(c), schema, joined, false) {
      forall i | 0 <= i < |es| ensures Readable(es[i], schema, joined, false) {
        assert ls[i] in ls;
      }
    }
  }

  lemma SameOuters(es: seq<Bound>, ls: seq<Bound>, schema: Schema, joined: bool)
    requires |es| == |ls| && forall i | 0 <= i < |ls| :: Links(ls[i]) && es[i] == ColumnRef(OuterName(ls[i]))
    ensures (forall i | 0 <= i < |es| :: Readable(es[i], schema, joined, false)) <==>
            (forall c | c in ls :: Links(c) && CanRead(OuterName(c), schema, joined))
  {
    if forall c | c in ls :: Links(c) && CanRead(OuterName(c), schema, joined) {
      forall i | 0 <= i < |es| ensures Readable(es[i], schema, joined, false) {
        assert ls[i] in ls;
      }
    }
    if forall i | 0 <= i < |es| :: Readable(es[i], schema, joined, false) {
      forall c | c in ls ensures Links(c) && CanRead(OuterName(c), schema, joined) {
        var i :| 0 <= i < |ls| && ls[i] == c;
        assert Readable(es[i], schema, joined, false);
      }
    }
  }

  /** The shape the planner asks of a scalar subquery is that of the condition. */
  lemma ShapesAgree(q: Select)
    ensures Decorrelatable(q) <==>
            && q.shape.items == 1 && q.shape.aggregated && !q.shape.grouped && !q.shape.having
            && !q.shape.sorted && !q.shape.limited && !q.shape.distinct && LinksOf(q) != []
            && (forall c | c in LinksOf(q) :: InnerSide(c).ColumnRef?)
            && (forall i, j | 0 <= i < j < |LinksOf(q)| :: InnerSide(LinksOf(q)[i]) != InnerSide(LinksOf(q)[j]))
  {
    CorrelationIsChoice(q);
    var ps, ls := Correlation(q).pairs, LinksOf(q);
    assert forall i | 0 <= i < |ls| :: ps[i].inner == InnerSide(ls[i]);
    hide LinksOf, Correlation, InnerSide;
    PlainLinks(ps, ls);
    if forall i | 0 <= i < |ps| :: ps[i].inner.ColumnRef? {
      DifferentLinks(ps, ls);
    }
  }

  lemma PlainLinks(ps: seq<Pair>, ls: seq<Bound>)
    requires |ps| == |ls| && forall i | 0 <= i < |ls| :: Links(ls[i]) && ps[i].inner == InnerSide(ls[i])
    ensures (forall i | 0 <= i < |ps| :: ps[i].inner.ColumnRef?) <==>
            (forall c | c in ls :: Links(c) && InnerSide(c).ColumnRef?)
  {
    hide Links, InnerSide;
    if forall c | c in ls :: Links(c) && InnerSide(c).ColumnRef? {
      forall i | 0 <= i < |ps| ensures ps[i].inner.ColumnRef? {
        assert ls[i] in ls;
      }
    }
  }

  lemma DifferentLinks(ps: seq<Pair>, ls: seq<Bound>)
    requires |ps| == |ls| && forall i | 0 <= i < |ls| :: Links(ls[i]) && ps[i].inner == InnerSide(ls[i])
    requires forall i | 0 <= i < |ps| :: ps[i].inner.ColumnRef?
    ensures DistinctColumns(Inners(ps)) <==>
            (forall i, j | 0 <= i < j < |ls| :: InnerSide(ls[i]) != InnerSide(ls[j]))
  {
    hide Links, InnerSide;
    var es := Inners(ps);
    assert forall i | 0 <= i < |ls| :: es[i] == InnerSide(ls[i]);
    if DistinctColumns(es) {
      forall i, j | 0 <= i < j < |ls| ensures InnerSide(ls[i]) != InnerSide(ls[j]) {
        assert es[i].name != es[j].name;
      }
    } else {
      var i, j :| 0 <= i < j < |es| && es[i].name == es[j].name;
      assert InnerSide(ls[i]) == InnerSide(ls[j]);
    }
  }

  // ---------------------------------------------------------------- one subquery

  /** What both kinds of subquery need: the rest of their WHERE planned, and both sides of the links. */
  lemma {:induction false} LinkedExactly(q: Select, from: From, extra: Schema, joined: bool, engine: Engine, bound: nat)
    requires Within(RestOf(q), bound) && Widened(extra, joined)
    ensures Correlation(q).remaining == RestOf(q) && (Correlation(q).pairs == [] <==> LinksOf(q) == [])
    ensures var sub := PlanWhere(RestOf(q), q.from, engine, bound);
            var ps := Correlation(q).pairs;
            && (sub.Success? ==> Widened(sub.value.extra, AnyScalars(RestOf(q))))
            && (Linked(q, SchemaOf(from), joined, bound) <==>
                ps != [] && sub.Success? && PlanAll(Inners(ps), SchemaOf(q.from) + sub.value.extra).Success? &&
                PlanAll(Outers(ps), SchemaOf(from) + extra).Success?)
    decreases bound, 6
  {
    CorrelationIsChoice(q);
    var sub := PlanWhere(RestOf(q), q.from, engine, bound);
    WhereExactly(RestOf(q), q.from, engine, bound);
    if sub.Success? {
      LinkSides(q, SchemaOf(q.from), sub.value.extra, AnyScalars(RestOf(q)), SchemaOf(from), extra, joined);
    }
    hide PlanWhere, WhereOk, PlanAll, Readable, CanRead, LinksOf, RestOf, Correlation, AnyScalars;
  }

  lemma {:induction false} ExistsExactly(e: Bound, s: Stage, from: From, engine: Engine, bound: nat)
    requires e.Exists? && Nesting(e) <= bound && s.extra == []
    ensures PlanCorrelatedExists(e, s, from, engine, bound).Success? <==> ExistsOk(e, from, bound)
    ensures PlanCorrelatedExists(e, s, from, engine, bound).Success? ==>
              PlanCorrelatedExists(e, s, from, engine, bound).value.extra == []
    decreases bound, 2
  {
    hide PlanWhere, PlanAll, LinksOf, RestOf, Correlation, AnyScalars, Linked, Widened, Within;
    var q := e.query;
    CorrelationNesting(e, bound);
    RestNesting(e, bound);
    assert Widened(s.extra, false) by {
      NotWidened();
    }
    LinkedExactly(q, from, s.extra, false, engine, bound - 1);
  }

  lemma NotWidened()
    ensures Widened([], false)
  {
  }

  /** What planning a scalar subquery comes down to. */
  lemma ScalarSteps(e: Bound, cs: seq<Bound>, s: Stage, from: From, engine: Engine, joined: bool, bound: nat)
    requires e.Scalar? && Nesting(e) <= bound && Widened(s.extra, joined) && OrdinaryReadable(cs, from)
    requires bound > 0 && Within(Correlation(e.query).remaining, bound - 1)
    ensures var q := e.query;
            var ps := Correlation(q).pairs;
            var sub := PlanWhere(Correlation(q).remaining, q.from, engine, bound - 1);
            PlanCorrelatedScalar(e, cs, s, from, engine, bound).Success? <==>
            Decorrelatable(q) && sub.Success? && PlanAll(Inners(ps), SchemaOf(q.from) + sub.value.extra).Success? &&
            PlanAll(q.args, SchemaOf(q.from) + sub.value.extra).Success? &&
            PlanAll(Outers(ps), SchemaOf(from) + s.extra).Success?
    ensures PlanCorrelatedScalar(e, cs, s, from, engine, bound).Success? ==>
              Widened(PlanCorrelatedScalar(e, cs, s, from, engine, bound).value.extra, true)
  {
    RestrictAlways(e, cs, s, from, engine, joined);
    assert Decorrelatable(e.query) ==> Correlation(e.query).pairs != [];
    hide PlanWhere, PlanAll, Correlation, Widened, Decorrelatable, OrdinaryReadable, Restrict, GroupedPlan, ScalarJoin;
    hide Within;
  }

  lemma {:induction false} ScalarExactly(e: Bound, cs: seq<Bound>, s: Stage, from: From, engine: Engine, joined: bool,
          bound: nat)
    requires e.Scalar? && Nesting(e) <= bound && Widened(s.extra, joined) && OrdinaryReadable(cs, from)
    ensures PlanCorrelatedScalar(e, cs, s, from, engine, bound).Success? <==> ScalarOk(e, from, joined, bound)
    ensures PlanCorrelatedScalar(e, cs, s, from, engine, bound).Success? ==>
              Widened(PlanCorrelatedScalar(e, cs, s, from, engine, bound).value.extra, true)
    decreases bound, 2
  {
    hide PlanWhere, PlanAll, LinksOf, RestOf, Correlation, AnyScalars, Linked, Widened, Decorrelatable, InnerSide;
    hide OrdinaryReadable, Readable, Within, PlanCorrelatedScalar;
    var q := e.query;
    CorrelationNesting(e, bound);
    RestNesting(e, bound);
    ShapesAgree(q);
    LinkedExactly(q, from, s.extra, joined, engine, bound - 1);
    ScalarSteps(e, cs, s, from, engine, joined, bound);
    var sub := PlanWhere(RestOf(q), q.from, engine, bound - 1);
    if sub.Success? {
      AllReadable(q.args, SchemaOf(q.from), sub.value.extra, AnyScalars(RestOf(q)));
    }
  }

  /** Beyond the links and the arguments nothing can fail, and the join adds at least two columns. */
  lemma RestrictAlways(e: Bound, cs: seq<Bound>, s: Stage, from: From, engine: Engine, joined: bool)
    requires e.Scalar? && Widened(s.extra, joined) && OrdinaryReadable(cs, from)
    ensures forall p :: Restrict(p, Correlation(e.query).pairs, 0, cs, from, engine.worthwhile).Success?
    ensures forall p, keys: seq<Expr> | keys != [] :: Widened(ScalarJoin(s, p, keys).extra, true)
  {
    forall p ensures Restrict(p, Correlation(e.query).pairs, 0, cs, from, engine.worthwhile).Success? {
      RestrictSucceeds(p, Correlation(e.query).pairs, 0, cs, from, engine.worthwhile);
    }
  }

  // ---------------------------------------------------------------- all subqueries of a clause

  lemma {:induction false} ExistsAllExactly(es: seq<Bound>, s: Stage, from: From, engine: Engine, bound: nat)
    requires Within(es, bound) && (forall e | e in es :: e.Exists?) && s.extra == []
    ensures PlanExistsAll(es, s, from, engine, bound).Success? <==> forall e | e in es :: ExistsOk(e, from, bound)
    ensures PlanExistsAll(es, s, from, engine, bound).Success? ==>
              PlanExistsAll(es, s, from, engine, bound).value.extra == []
    decreases bound, 3, |es|
  {
    if es != [] {
      ExistsExactly(es[0], s, from, engine, bound);
      var first := PlanCorrelatedExists(es[0], s, from, engine, bound);
      hide ExistsOk, PlanCorrelatedExists;
      assert forall e :: e in es <==> e == es[0] || e in es[1..];
      if first.Success? {
        ExistsAllExactly(es[1..], first.value, from, engine, bound);
      }
    }
  }

  lemma ScalarsOkTail(scalars: seq<Bound>, from: From, joined: bool, bound: nat)
    requires scalars != [] && Within(scalars, bound) && forall e | e in scalars :: e.Scalar?
    ensures Within(scalars[1..], bound) && (forall e | e in scalars[1..] :: e.Scalar?)
    ensures scalars[0] in scalars && forall x | x in scalars :: x == scalars[0] || x in scalars[1..]
    ensures ScalarsOk(scalars, from, joined, bound) <==>
            ScalarOk(scalars[0], from, joined, bound) && ScalarsOk(scalars[1..], from, true, bound)
  {
    hide ScalarOk;
    var rest := scalars[1..];
    assert forall k | 0 < k < |scalars| :: scalars[k] == rest[k - 1];
    if ScalarsOk(scalars, from, joined, bound) {
      forall k | 0 <= k < |rest| ensures ScalarOk(rest[k], from, true, bound) {
        assert rest[k] == scalars[k + 1];
      }
    }
  }

  lemma {:induction false} ScalarsExactly(scalars: seq<Bound>, cs: seq<Bound>, s: Stage, resolved: map<nat, nat>,
          from: From, engine: Engine, joined: bool, bound: nat)
    requires Within(scalars, bound) && (forall e | e in scalars :: e.Scalar?)
    requires Widened(s.extra, joined) && OrdinaryReadable(cs, from)
    ensures PlanScalars(scalars, cs, s, resolved, from, engine, bound).Success? <==>
            ScalarsOk(scalars, from, joined, bound)
    ensures PlanScalars(scalars, cs, s, resolved, from, engine, bound).Success? ==>
              Widened(PlanScalars(scalars, cs, s, resolved, from, engine, bound).value.0.extra, joined || scalars != [])
    decreases bound, 3, |scalars|
  {
    hide ScalarOk, ScalarsOk, PlanCorrelatedScalar, PlanScalars, Widened, OrdinaryReadable, Within;
    if scalars == [] {
      NoScalars(cs, s, resolved, from, engine, joined, bound);
    } else {
      ScalarsOkTail(scalars, from, joined, bound);
      ScalarsStep(scalars, cs, s, resolved, from, engine, bound);
      ScalarExactly(scalars[0], cs, s, from, engine, joined, bound);
      Widens(scalars[0], cs, s, from, engine, bound);
      var first := PlanCorrelatedScalar(scalars[0], cs, s, from, engine, bound);
      if first.Success? {
        var resolved' := resolved[scalars[0].id := |SchemaOf(from)| + |first.value.extra| - 1];
        ScalarsExactly(scalars[1..], cs, first.value, resolved', from, engine, true, bound);
      }
    }
  }

  lemma NoScalars(cs: seq<Bound>, s: Stage, resolved: map<nat, nat>, from: From, engine: Engine, joined: bool,
          bound: nat)
    ensures Within([], bound) && ScalarsOk([], from, joined, bound)
    ensures PlanScalars([], cs, s, resolved, from, engine, bound) == Success((s, resolved))
  {
  }

  lemma ScalarsStep(scalars: seq<Bound>, cs: seq<Bound>, s: Stage, resolved: map<nat, nat>, from: From, engine: Engine,
          bound: nat)
    requires scalars != [] && Within(scalars, bound) && (forall e | e in scalars :: e.Scalar?)
    ensures scalars[0] in scalars && Within(scalars[1..], bound) && (forall e | e in scalars[1..] :: e.Scalar?)
    ensures Nesting(scalars[0]) <= bound
    ensures var e := scalars[0];
            var first := PlanCorrelatedScalar(e, cs, s, from, engine, bound);
            PlanScalars(scalars, cs, s, resolved, from, engine, bound) ==
            if first.Failure? then Failure
            else PlanScalars(scalars[1..], cs, first.value,
                             resolved[e.id := |SchemaOf(from)| + |first.value.extra| - 1], from, engine, bound)
  {
    hide PlanCorrelatedScalar;
  }

  lemma Widens(e: Bound, cs: seq<Bound>, s: Stage, from: From, engine: Engine, bound: nat)
    requires e.Scalar? && Nesting(e) <= bound
    ensures var first := PlanCorrelatedScalar(e, cs, s, from, engine, bound);
            first.Success? ==> first.value.extra != []
  {
    hide PlanWhere, PlanAll, Correlation, Decorrelatable, Restrict, GroupedPlan, Within;
  }

  lemma AcceptedStep(scalars: seq<Bound>, cs: seq<Bound>, s: Stage, resolved: map<nat, nat>, from: From, engine: Engine,
          bound: nat)
    returns (s': Stage, resolved': map<nat, nat>)
    requires Within(scalars, bound) && (forall e | e in scalars :: e.Scalar?) && scalars != []
    requires PlanScalars(scalars, cs, s, resolved, from, engine, bound).Success?
    ensures Within(scalars[1..], bound) && forall e | e in scalars[1..] :: e.Scalar?
    ensures Nesting(scalars[0]) <= bound && PlanCorrelatedScalar(scalars[0], cs, s, from, engine, bound) == Success(s')
    ensures s'.extra != [] && resolved' == resolved[scalars[0].id := |SchemaOf(from)| + |s'.extra| - 1]
    ensures PlanScalars(scalars, cs, s, resolved, from, engine, bound) ==
            PlanScalars(scalars[1..], cs, s', resolved', from, engine, bound)
  {
    hide PlanCorrelatedScalar, PlanScalars, Within;
    ScalarsStep(scalars, cs, s, resolved, from, engine, bound);
    Widens(scalars[0], cs, s, from, engine, bound);
    s' := PlanCorrelatedScalar(scalars[0], cs, s, from, engine, bound).value;
    resolved' := resolved[scalars[0].id := |SchemaOf(from)| + |s'.extra| - 1];
  }

  /** Every subquery joined is resolved. */
  lemma {:induction false} AllResolved(scalars: seq<Bound>, cs: seq<Bound>, s: Stage, resolved: map<nat, nat>,
          from: From, engine: Engine, bound: nat)
    requires Within(scalars, bound) && (forall e | e in scalars :: e.Scalar?)
    requires PlanScalars(scalars, cs, s, resolved, from, engine, bound).Success?
    ensures var ids := PlanScalars(scalars, cs, s, resolved, from, engine, bound).value.1.Keys;
            resolved.Keys <= ids && forall e | e in scalars :: e.id in ids
    decreases |scalars|
  {
    hide PlanCorrelatedScalar, PlanScalars, Within;
    if scalars == [] {
      NoScalars(cs, s, resolved, from, engine, false, bound);
    } else {
      var s', resolved' := AcceptedStep(scalars, cs, s, resolved, from, engine, bound);
      AllResolved(scalars[1..], cs, s', resolved', from, engine, bound);
      assert forall x | x in scalars :: x == scalars[0] || x in scalars[1..];
      assert scalars[0].id in resolved'.Keys;
    }
  }

  lemma {:induction false} ConjunctExactly(x: Bound, cs: seq<Bound>, s: Stage, from: From, engine: Engine, joined: bool,
          bound: nat)
    requires Nesting(x) <= bound && HasScalars(x) && Widened(s.extra, joined) && OrdinaryReadable(cs, from)
    ensures var r := PlanScalars(CollectScalars(x), cs, s, map[], from, engine, bound);
            && (r.Success? ==> Widened(r.value.0.extra, true))
            && (ConjunctOk(x, from, joined, bound) <==>
                r.Success? && PlanExpression(x, SchemaOf(from) + r.value.0.extra, r.value.1).Success?)
    decreases bound, 4, 0
  {
    var scalars := CollectScalars(x);
    ScalarsExactly(scalars, cs, s, map[], from, engine, joined, bound);
    var r := PlanScalars(scalars, cs, s, map[], from, engine, bound);
    hide ScalarsOk, PlanScalars, Widened, OrdinaryReadable;
    if r.Success? {
      AllResolved(scalars, cs, s, map[], from, engine, bound);
      ReadableExactly(x, SchemaOf(from), r.value.0.extra, true, r.value.1, true);
    }
  }

  lemma {:induction false} ConjunctsExactly(xs: seq<Bound>, cs: seq<Bound>, s: Stage, from: From, engine: Engine,
          joined: bool, bound: nat)
    requires Within(xs, bound) && (forall x | x in xs :: HasScalars(x))
    requires Widened(s.extra, joined) && OrdinaryReadable(cs, from)
    ensures PlanScalarConjuncts(xs, cs, s, from, engine, bound).Success? <==>
            forall j | 0 <= j < |xs| :: ConjunctOk(xs[j], from, joined || j > 0, bound)
    ensures PlanScalarConjuncts(xs, cs, s, from, engine, bound).Success? ==>
              Widened(PlanScalarConjuncts(xs, cs, s, from, engine, bound).value.extra, joined || xs != [])
    decreases bound, 4, |xs|
  {
    if xs != [] {
      var x, rest := xs[0], xs[1..];
      assert x in xs;
      ConjunctExactly(x, cs, s, from, engine, joined, bound);
      var first := PlanScalars(CollectScalars(x), cs, s, map[], from, engine, bound);
      hide ConjunctOk, PlanScalars, Widened, OrdinaryReadable, HasScalars, PlanExpression;
      assert forall j | 0 < j < |xs| :: xs[j] == rest[j - 1];
      assert forall j | 0 <= j < |rest| :: rest[j] == xs[j + 1];
      if first.Success? && PlanExpression(x, SchemaOf(from) + first.value.0.extra, first.value.1).Success? {
        var e := PlanExpression(x, SchemaOf(from) + first.value.0.extra, first.value.1).value;
        ConjunctsExactly(rest, cs, Stage(Filter(e, first.value.0.plan), first.value.0.extra), from, engine, true,
          bound);
      }
    }
  }

  // ---------------------------------------------------------------- the whole clause

  /** Planning succeeds exactly on plannable conjuncts, and widens the rows exactly for scalar subqueries. */
  lemma {:induction false} WhereExactly(cs: seq<Bound>, from: From, engine: Engine, bound: nat)
    requires Within(cs, bound)
    ensures PlanWhere(cs, from, engine, bound).Success? <==> WhereOk(cs, from, bound)
    ensures PlanWhere(cs, from, engine, bound).Success? ==>
              Widened(PlanWhere(cs, from, engine, bound).value.extra, AnyScalars(cs))
    decreases bound, 5
  {
    hide Choose, PlanAll, PlanExistsAll, PlanScalarConjuncts, AnyScalars, ExistsOk, ConjunctOk, Readable;
    var ordinary, exs, xs := Choose(cs, IsOrdinary), Choose(cs, IsExists), Choose(cs, HasScalars);
    OrdinaryExactly(cs, from);
    ScalarsAmong(cs);
    var es := PlanAll(ordinary, SchemaOf(from));
    if es.Success? {
      var base := if ordinary == [] then PlanFrom(from) else Filter(Conjoin(es.value), PlanFrom(from));
      ExistsAllExactly(exs, Stage(base, []), from, engine, bound);
      var joined := PlanExistsAll(exs, Stage(base, []), from, engine, bound);
      if joined.Success? {
        NotWidened();
        ConjunctsExactly(xs, cs, joined.value, from, engine, false, bound);
      }
    }
  }

  lemma ScalarsAmong(cs: seq<Bound>)
    ensures AnyScalars(cs) <==> Choose(cs, HasScalars) != []
  {
    if Choose(cs, HasScalars) != [] {
      assert Choose(cs, HasScalars)[0] in Choose(cs, HasScalars);
    }
  }

  lemma OrdinaryExactly(cs: seq<Bound>, from: From)
    ensures PlanAll(Choose(cs, IsOrdinary), SchemaOf(from)).Success? <==> OrdinaryReadable(cs, from)
  {
    var ordinary := Choose(cs, IsOrdinary);
    AllReadable(ordinary, SchemaOf(from), [], false);
    assert SchemaOf(from) + [] == SchemaOf(from);
    if OrdinaryReadable(cs, from) {
      forall i | 0 <= i < |ordinary| ensures Readable(ordinary[i], SchemaOf(from), false, false) {
        assert ordinary[i] in ordinary;
      }
    }
  }

  /** The planner accepts a WHERE clause if and only if it is plannable. */
  lemma PlansExactly(where: Bound, from: From, engine: Engine)
    ensures PlanWhereClause(where, from, engine).Success? <==> Plannable(where, from)
  {
    SplitNesting(where);
    WhereExactly(SplitBound(where), from, engine, Nesting(where));
  }
}
