/** The planned WHERE keeps exactly the FROM rows on which the WHERE clause is true, each once and in
    order, for every nesting of correlated EXISTS and scalar subqueries. */
module WhereTheorem {
  import opened Expressions
  import opened Plans
  import opened Conjuncts
  import opened JoinAlgebra
  import opened BoundQueries
  import opened GroupedJoin
  import opened KeySources
  import opened Decorrelation
  import opened DecorrelationSound
  import opened ScalarSound
  import opened ScalarSteps
  import PlannableQueries
  import PlanningSucceeds

  // ---------------------------------------------------------------- resolved scalars

  /** Every listed scalar subquery has a column that holds its value for the row. */
  ghost predicate RowResolves(row: Row, resolved: map<nat, nat>, scalars: seq<Bound>, from: From, outers: seq<Scope>,
          db: Database) {
    forall e {:trigger ColumnHolds(row, resolved, e, from, outers, db)} | e in scalars ::
      ColumnHolds(row, resolved, e, from, outers, db)
  }

  ghost predicate ColumnHolds(row: Row, resolved: map<nat, nat>, e: Bound, from: From, outers: seq<Scope>,
          db: Database) {
    e.Scalar? && e.id in resolved && resolved[e.id] < |row| &&
    row[resolved[e.id]] == Meaning(e, Around(from, Prefix(|SchemaOf(from)|)(row), outers), db)
  }

  ghost predicate Resolves(s: Stage, resolved: map<nat, nat>, scalars: seq<Bound>, from: From, outers: seq<Scope>,
          db: Database) {
    forall row {:trigger RowResolves(row, resolved, scalars, from, outers, db)} | row in Denote(s.plan, db) ::
      RowResolves(row, resolved, scalars, from, outers, db)
  }

  lemma {:induction false} CollectedHolding(e: Bound, resolved: map<nat, nat>, row: Row, from: From, outers: seq<Scope>,
          db: Database)
    requires RowResolves(row, resolved, CollectScalars(e), from, outers, db)
    ensures Holding(e, resolved, row, Around(from, Prefix(|SchemaOf(from)|)(row), outers), db)
    decreases e, 0
  {
    match e
    case Conj(a, b) =>
      CollectedHolding(a, resolved, row, from, outers, db);
      CollectedHolding(b, resolved, row, from, outers, db);
    case Same(a, b) =>
      CollectedHolding(a, resolved, row, from, outers, db);
      CollectedHolding(b, resolved, row, from, outers, db);
    case Apply(_, args) =>
      CollectedHoldingAll(args, |args|, resolved, row, from, outers, db);
    case Scalar(_, _) =>
      assert ColumnHolds(row, resolved, e, from, outers, db);
    case _ =>
  }

  lemma {:induction false} CollectedHoldingAll(args: seq<Bound>, n: nat, resolved: map<nat, nat>, row: Row, from: From,
          outers: seq<Scope>, db: Database)
    requires n <= |args| && RowResolves(row, resolved, CollectAll(args, n), from, outers, db)
    ensures forall i | 0 <= i < n ::
            Holding(args[i], resolved, row, Around(from, Prefix(|SchemaOf(from)|)(row), outers), db)
    decreases args, n
  {
    if n > 0 {
      CollectedHoldingAll(args, n - 1, resolved, row, from, outers, db);
      CollectedHolding(args[n - 1], resolved, row, from, outers, db);
    }
  }

  /** Appending the value of `e` resolves it and leaves the others resolved. */
  lemma RowStillResolves(row: Row, row': Row, resolved: map<nat, nat>, before: seq<Bound>, e: Bound, from: From,
          outers: seq<Scope>, db: Database)
    requires RowResolves(row, resolved, before, from, outers, db) && e.Scalar? && SameIds(before + [e])
    requires |SchemaOf(from)| <= |row|
    requires CarriedRow(row', row, e.query, from, outers, db) && ScalarOf(e.query, []) == Null
    ensures RowResolves(row', resolved[e.id := |row'| - 1], before + [e], from, outers, db)
  {
    var scopes := Around(from, Prefix(|SchemaOf(from)|)(row), outers);
    JoinedValueExact(e.id, e.query, scopes, db);
    PrefixKept(row', row, |SchemaOf(from)|);
    forall t | t in before + [e] ensures ColumnHolds(row', resolved[e.id := |row'| - 1], t, from, outers, db) {
      if t != e {
        assert t in before;
        assert ColumnHolds(row, resolved, t, from, outers, db);
        assert e in before + [e] && AgreeingIds(t, e);
        assert row'[resolved[t.id]] == row'[..|row|][resolved[t.id]];
      }
    }
  }

  lemma PrefixKept(row': Row, row: Row, w: nat)
    requires w <= |row| <= |row'| && row'[..|row|] == row
    ensures Prefix(w)(row') == Prefix(w)(row)
  {
    assert row'[..w] == row'[..|row|][..w];
  }

  lemma StageStillResolves(s: Stage, s': Stage, resolved: map<nat, nat>, before: seq<Bound>, e: Bound, from: From,
          outers: seq<Scope>, db: Database)
    requires Resolves(s, resolved, before, from, outers, db) && e.Scalar? && SameIds(before + [e])
    requires AllWide(Denote(s.plan, db), |SchemaOf(from)| + |s.extra|) &&
             AllWide(Denote(s'.plan, db), |SchemaOf(from)| + |s'.extra|)
    requires CarriesValue(s, s', e.query, from, outers, db) && ScalarOf(e.query, []) == Null && s'.extra != []
    ensures Resolves(s', resolved[e.id := |SchemaOf(from)| + |s'.extra| - 1], before + [e], from, outers, db)
  {
    hide CarriedRow, Denote, SchemaOf, RowResolves, SameIds, ScalarOf;
    var rows, rows' := Denote(s.plan, db), Denote(s'.plan, db);
    forall row' | row' in rows'
      ensures RowResolves(row', resolved[e.id := |SchemaOf(from)| + |s'.extra| - 1], before + [e], from, outers, db)
    {
      var i :| 0 <= i < |rows'| && rows'[i] == row';
      assert CarriedRow(rows'[i], rows[i], e.query, from, outers, db);
      assert |rows'[i]| == |SchemaOf(from)| + |s'.extra| && |rows[i]| == |SchemaOf(from)| + |s.extra|;
      assert rows[i] in rows;
      RowStillResolves(rows[i], row', resolved, before, e, from, outers, db);
    }
  }

  // ---------------------------------------------------------------- a filter over the stage

  lemma FilterDecides(c: Bound, e: Expr, s: Stage, resolved: map<nat, nat>, from: From, done: seq<Bound>,
          outers: seq<Scope>, db: Database)
    requires Represents(s, from, done, outers, db) && Resolves(s, resolved, CollectScalars(c), from, outers, db)
    requires Local(c, SchemaOf(from)) && PlanExpression(c, SchemaOf(from) + s.extra, resolved) == Success(e)
    ensures Decides(Keep(e), [c], from, Denote(s.plan, db), outers, db)
  {
    var rows := Denote(s.plan, db);
    forall i | 0 <= i < |rows|
        ensures Keep(e)(rows[i]) == Tests([c], from, outers, db)(Prefix(|SchemaOf(from)|)(rows[i])) {
      var row, tail := RowOf(s, from, done, outers, db, i);
      assert rows[i] in rows;
      CollectedHolding(c, resolved, rows[i], from, outers, db);
      PlannedMeaning(c, SchemaOf(from), s.extra, resolved, row, tail, outers, db);
      OneConjunct(c, Around(from, row, outers), db);
    }
  }

  lemma FilterNarrows(c: Bound, e: Expr, s: Stage, from: From, done: seq<Bound>, outers: seq<Scope>, db: Database)
    requires Represents(s, from, done, outers, db) && Decides(Keep(e), [c], from, Denote(s.plan, db), outers, db)
    ensures Represents(Stage(Filter(e, s.plan), s.extra), from, done + [c], outers, db)
  {
    Narrowed(s, Stage(Filter(e, s.plan), s.extra), Keep(e), from, done, [c], outers, db);
  }

  /** The ordinary conjuncts, ANDed into one filter over the FROM. */
  lemma OrdinaryStage(ordinary: seq<Bound>, es: seq<Expr>, from: From, outers: seq<Scope>, db: Database)
    requires FromOk(from, db) && PlanAll(ordinary, SchemaOf(from)) == Success(es)
    requires forall c | c in ordinary :: Local(c, SchemaOf(from))
    ensures Represents(Stage(if ordinary == [] then PlanFrom(from) else Filter(Conjoin(es), PlanFrom(from)), []),
                       from, ordinary, outers, db)
  {
    var base := Stage(PlanFrom(from), []);
    BaseStage(from, outers, db);
    if ordinary != [] {
      OrdinaryDecides(ordinary, es, from, outers, db);
      Narrowed(base, Stage(Filter(Conjoin(es), PlanFrom(from)), []), Keep(Conjoin(es)), from, [], ordinary, outers, db);
      assert [] + ordinary == ordinary;
    }
  }

  lemma OrdinaryDecides(ordinary: seq<Bound>, es: seq<Expr>, from: From, outers: seq<Scope>, db: Database)
    requires FromOk(from, db) && PlanAll(ordinary, SchemaOf(from)) == Success(es)
    requires forall c | c in ordinary :: Local(c, SchemaOf(from))
    ensures Decides(Keep(Conjoin(es)), ordinary, from, FromRows(from, db), outers, db)
  {
    var rows, w := FromRows(from, db), |SchemaOf(from)|;
    FromWide(from, db);
    forall i | 0 <= i < |rows|
        ensures Keep(Conjoin(es))(rows[i]) == Tests(ordinary, from, outers, db)(Prefix(w)(rows[i])) {
      assert |rows[i]| == w;
      assert rows[i][..w] == rows[i];
      ConjunctsAgree(ordinary, es, from, rows[i], outers, db);
    }
  }

  lemma ConjunctsAgree(ordinary: seq<Bound>, es: seq<Expr>, from: From, row: Row, outers: seq<Scope>, db: Database)
    requires PlanAll(ordinary, SchemaOf(from)) == Success(es) && |row| == |SchemaOf(from)|
    requires forall c | c in ordinary :: Local(c, SchemaOf(from))
    ensures Holds(Conjoin(es), row, []) == AllTrue(ordinary, Around(from, row, outers), db)
  {
    ConjoinHolds(es, row, []);
    assert SchemaOf(from) + [] == SchemaOf(from) && row + [] == row;
    forall i | 0 <= i < |es|
        ensures Holds(es[i], row, []) == Truth(Meaning(ordinary[i], Around(from, row, outers), db)) {
      assert ordinary[i] in ordinary;
      PlannedAll(ordinary, SchemaOf(from), [], es, row, [], outers, db, i);
    }
    if AllHold(es, row, []) {
      forall c | c in ordinary ensures Truth(Meaning(c, Around(from, row, outers), db)) {
        var i :| 0 <= i < |ordinary| && ordinary[i] == c;
        assert es[i] in es;
      }
    }
    if AllTrue(ordinary, Around(from, row, outers), db) {
      forall e | e in es ensures Holds(e, row, []) {
        var i :| 0 <= i < |es| && es[i] == e;
        assert ordinary[i] in ordinary;
      }
    }
  }

  // ---------------------------------------------------------------- the induction

  /** What holds of a plan in the making: the database fits, the engine groups correctly, and the
      ordinary conjuncts were planned and applied first. */
  ghost predicate Underway(cs: seq<Bound>, s: Stage, from: From, engine: Engine, done: seq<Bound>, outers: seq<Scope>,
          db: Database) {
    FromOk(from, db) && EngineOk(engine) && Represents(s, from, done, outers, db) && OrdinaryDone(cs, done, from)
  }

  lemma {:induction false} SubqueryAt(q: Select, outer: Scope, schema: Schema, sub: Stage, engine: Engine, bound: nat,
          outers: seq<Scope>, db: Database)
    requires FromOk(q.from, db) && AllOk(Correlation(q).remaining, SchemaOf(q.from), schema, db) && EngineOk(engine)
    requires Within(Correlation(q).remaining, bound) &&
             PlanWhere(Correlation(q).remaining, q.from, engine, bound) == Success(sub)
    ensures SubSoundAt(sub, q, outer, outers, db)
    decreases bound, 5
  {
    WhereSound(Correlation(q).remaining, q.from, engine, bound, schema, [outer] + outers, db);
  }

  lemma {:induction false} SubqueryPlanned(q: Select, schema: Schema, sub: Stage, engine: Engine, bound: nat,
          outers: seq<Scope>, db: Database)
    requires FromOk(q.from, db) && AllOk(Correlation(q).remaining, SchemaOf(q.from), schema, db) && EngineOk(engine)
    requires Within(Correlation(q).remaining, bound) &&
             PlanWhere(Correlation(q).remaining, q.from, engine, bound) == Success(sub)
    ensures SubSound(sub, q, outers, db)
    decreases bound, 6
  {
    forall outer: Scope ensures SubSoundAt(sub, q, outer, outers, db) {
      SubqueryAt(q, outer, schema, sub, engine, bound, outers, db);
    }
  }

  lemma {:induction false} ExistsOneSound(e: Bound, cs: seq<Bound>, s: Stage, from: From, engine: Engine, bound: nat,
          done: seq<Bound>, outers: seq<Scope>, db: Database)
    requires e.Exists? && Nesting(e) <= bound && SelectOk(e.query, SchemaOf(from), db)
    requires Underway(cs, s, from, engine, done, outers, db)
    requires PlanCorrelatedExists(e, s, from, engine, bound).Success?
    ensures Represents(PlanCorrelatedExists(e, s, from, engine, bound).value, from, done + [e], outers, db)
    decreases bound, 2
  {
    hide Denote, PlanWhere, PlanFrom, SubSound, SubSoundAt, Groups, Tests, AllWide;
    var q := e.query;
    var x := Correlation(q);
    CorrelationNesting(e, bound);
    CorrelationOk(q, SchemaOf(from), db);
    var sub := PlanWhere(x.remaining, q.from, engine, bound - 1).value;
    SubqueryPlanned(q, SchemaOf(from), sub, engine, bound - 1, outers, db);
    var inner := PlanAll(Inners(x.pairs), SchemaOf(q.from) + sub.extra).value;
    var leftKeys := PlanAll(Outers(x.pairs), SchemaOf(from) + s.extra).value;
    ExistsStep(e, s, sub, inner, leftKeys, from, done, outers, db);
  }

  ghost predicate ExistsOk(es: seq<Bound>, bound: nat, schema: Schema, db: Database) {
    Within(es, bound) && forall e | e in es :: e.Exists? && SelectOk(e.query, schema, db)
  }

  lemma ExistsTail(es: seq<Bound>, bound: nat, schema: Schema, db: Database)
    requires es != [] && ExistsOk(es, bound, schema, db)
    ensures ExistsOk(es[1..], bound, schema, db)
    ensures es[0].Exists? && Nesting(es[0]) <= bound && SelectOk(es[0].query, schema, db)
  {
    assert es[0] in es;
  }

  lemma AppendTail(done: seq<Bound>, es: seq<Bound>)
    requires es != []
    ensures done + [es[0]] + es[1..] == done + es
  {
  }

  lemma StillUnderway(cs: seq<Bound>, s: Stage, s': Stage, from: From, engine: Engine, done: seq<Bound>, c: Bound,
          outers: seq<Scope>, db: Database)
    requires Underway(cs, s, from, engine, done, outers, db) && Represents(s', from, done + [c], outers, db)
    ensures Underway(cs, s', from, engine, done + [c], outers, db)
  {
  }

  lemma {:induction false} ExistsAllSound(es: seq<Bound>, cs: seq<Bound>, s: Stage, from: From, engine: Engine,
          bound: nat, done: seq<Bound>, outers: seq<Scope>, db: Database)
    requires ExistsOk(es, bound, SchemaOf(from), db)
    requires Underway(cs, s, from, engine, done, outers, db)
    requires PlanExistsAll(es, s, from, engine, bound).Success?
    ensures Represents(PlanExistsAll(es, s, from, engine, bound).value, from, done + es, outers, db)
    decreases bound, 3, |es|
  {
    if es == [] {
      assert done + es == done;
    } else {
      var s' := PlanCorrelatedExists(es[0], s, from, engine, bound).value;
      ExistsTail(es, bound, SchemaOf(from), db);
      ExistsOneSound(es[0], cs, s, from, engine, bound, done, outers, db);
      StillUnderway(cs, s, s', from, engine, done, es[0], outers, db);
      ExistsAllSound(es[1..], cs, s', from, engine, bound, done + [es[0]], outers, db);
      AppendTail(done, es);
    }
  }

  /** The plan of a correlated scalar subquery keeps every outer row once and appends the joined value. */
  lemma {:induction false} ScalarOneSound(e: Bound, cs: seq<Bound>, s: Stage, from: From, engine: Engine, bound: nat,
          done: seq<Bound>, outers: seq<Scope>, db: Database)
    requires e.Scalar? && Nesting(e) <= bound && SelectOk(e.query, SchemaOf(from), db)
    requires Underway(cs, s, from, engine, done, outers, db)
    requires PlanCorrelatedScalar(e, cs, s, from, engine, bound).Success?
    ensures var s' := PlanCorrelatedScalar(e, cs, s, from, engine, bound).value;
            Represents(s', from, done, outers, db) && CarriesValue(s, s', e.query, from, outers, db) && s'.extra != []
    decreases bound, 1
  {
    hide Decorrelatable, Restrict, PlanWhere, Meaning, Denote, Nesting;
    var q := e.query;
    var x := Correlation(q);
    CorrelationNesting(e, bound);
    CorrelationOk(q, SchemaOf(from), db);
    var sub := PlanWhere(x.remaining, q.from, engine, bound - 1).value;
    SubqueryPlanned(q, SchemaOf(from), sub, engine, bound - 1, outers, db);
    var groups := PlanAll(Inners(x.pairs), SchemaOf(q.from) + sub.extra).value;
    var args := PlanAll(q.args, SchemaOf(q.from) + sub.extra).value;
    var fold := engine.grouping(q.aggregates);
    var leftKeys := PlanAll(Outers(x.pairs), SchemaOf(from) + s.extra).value;
    var child', j := RestrictShape(q, groups, args, fold, sub.plan, x.pairs, 0, cs, from, engine.worthwhile);
    RestrictionSame(q, groups, args, leftKeys, sub.plan, child', cs, engine.worthwhile, j, s, from, done, outers, db);
    ScalarStep(q, sub, groups, args, fold, leftKeys, child', s, from, done, outers, db);
  }

  ghost predicate ScalarsOk(es: seq<Bound>, bound: nat, schema: Schema, db: Database) {
    Within(es, bound) && forall e | e in es ::
      e.Scalar? && SelectOk(e.query, schema, db) && ScalarOf(e.query, []) == Null
  }

  lemma ScalarsTail(es: seq<Bound>, before: seq<Bound>, bound: nat, schema: Schema, db: Database)
    requires es != [] && ScalarsOk(es, bound, schema, db) && SameIds(before + es)
    ensures ScalarsOk(es[1..], bound, schema, db) && SameIds(before + [es[0]])
    ensures es[0].Scalar? && Nesting(es[0]) <= bound && SelectOk(es[0].query, schema, db) &&
            ScalarOf(es[0].query, []) == Null
  {
    assert es[0] in es;
  }

  lemma {:induction false} ScalarsSound(scalars: seq<Bound>, before: seq<Bound>, cs: seq<Bound>, s: Stage,
          resolved: map<nat, nat>, from: From, engine: Engine, bound: nat, done: seq<Bound>, outers: seq<Scope>,
          db: Database)
    requires ScalarsOk(scalars, bound, SchemaOf(from), db) && SameIds(before + scalars)
    requires Underway(cs, s, from, engine, done, outers, db) && Resolves(s, resolved, before, from, outers, db)
    requires PlanScalars(scalars, cs, s, resolved, from, engine, bound).Success?
    ensures var r := PlanScalars(scalars, cs, s, resolved, from, engine, bound).value;
            Represents(r.0, from, done, outers, db) && Resolves(r.0, r.1, before + scalars, from, outers, db)
    decreases bound, 2, |scalars|
  {
    hide PlanCorrelatedScalar;
    if scalars == [] {
      assert before + scalars == before;
    } else {
      var e := scalars[0];
      var s', resolved' := PlanningSucceeds.AcceptedStep(scalars, cs, s, resolved, from, engine, bound);
      ScalarsTail(scalars, before, bound, SchemaOf(from), db);
      ScalarAndColumn(e, before, cs, s, resolved, from, engine, bound, done, outers, db);
      AppendTail(before, scalars);
      ScalarsSound(scalars[1..], before + [e], cs, s', resolved', from, engine, bound, done, outers, db);
    }
  }

  lemma {:induction false} ScalarAndColumn(e: Bound, before: seq<Bound>, cs: seq<Bound>, s: Stage,
          resolved: map<nat, nat>, from: From, engine: Engine, bound: nat, done: seq<Bound>, outers: seq<Scope>,
          db: Database)
    requires e.Scalar? && Nesting(e) <= bound && SelectOk(e.query, SchemaOf(from), db) && ScalarOf(e.query, []) == Null
    requires SameIds(before + [e])
    requires Underway(cs, s, from, engine, done, outers, db) && Resolves(s, resolved, before, from, outers, db)
    requires PlanCorrelatedScalar(e, cs, s, from, engine, bound).Success?
    ensures var s' := PlanCorrelatedScalar(e, cs, s, from, engine, bound).value;
            && Underway(cs, s', from, engine, done, outers, db) && s'.extra != []
            && Resolves(s', resolved[e.id := |SchemaOf(from)| + |s'.extra| - 1], before + [e], from, outers, db)
    decreases bound, 2, 0
  {
    hide PlanCorrelatedScalar, Denote, SelectOk, EngineOk, AgreeingIds, OrdinaryDone, Resolves, CarriedRow;
    var s' := PlanCorrelatedScalar(e, cs, s, from, engine, bound).value;
    ScalarOneSound(e, cs, s, from, engine, bound, done, outers, db);
    StageStillResolves(s, s', resolved, before, e, from, outers, db);
  }

  lemma OkTail(xs: seq<Bound>, bound: nat, schema: Schema, outer: Schema, db: Database)
    requires xs != [] && Within(xs, bound) && AllOk(xs, schema, outer, db)
    ensures Within(xs[1..], bound) && AllOk(xs[1..], schema, outer, db)
    ensures Nesting(xs[0]) <= bound && BoundOk(xs[0], schema, outer, db) && SameIds(CollectScalars(xs[0]))
  {
    assert xs[0] in xs;
  }

  lemma {:induction false} ScalarConjunctsSound(xs: seq<Bound>, cs: seq<Bound>, s: Stage, from: From, engine: Engine,
          bound: nat, done: seq<Bound>, outer: Schema, outers: seq<Scope>, db: Database)
    requires Within(xs, bound) && AllOk(xs, SchemaOf(from), outer, db)
    requires Underway(cs, s, from, engine, done, outers, db)
    requires PlanScalarConjuncts(xs, cs, s, from, engine, bound).Success?
    ensures Represents(PlanScalarConjuncts(xs, cs, s, from, engine, bound).value, from, done + xs, outers, db)
    decreases bound, 3, |xs|
  {
    if xs == [] {
      assert done + xs == done;
    } else {
      var c := xs[0];
      var r := PlanScalars(CollectScalars(c), cs, s, map[], from, engine, bound).value;
      var e := PlanExpression(c, SchemaOf(from) + r.0.extra, r.1).value;
      var s' := Stage(Filter(e, r.0.plan), r.0.extra);
      OkTail(xs, bound, SchemaOf(from), outer, db);
      ScalarConjunctSound(c, cs, s, from, engine, bound, done, outer, outers, db);
      StillUnderway(cs, s, s', from, engine, done, c, outers, db);
      ScalarConjunctsSound(xs[1..], cs, s', from, engine, bound, done + [c], outer, outers, db);
      AppendTail(done, xs);
    }
  }

  lemma {:induction false} CollectedOk(e: Bound, schema: Schema, outer: Schema, db: Database)
    requires BoundOk(e, schema, outer, db)
    ensures forall c | c in CollectScalars(e) :: SelectOk(c.query, schema, db) && ScalarOf(c.query, []) == Null
    decreases e, 0
  {
    match e
    case Conj(a, b) => CollectedOk(a, schema, outer, db); CollectedOk(b, schema, outer, db);
    case Same(a, b) => CollectedOk(a, schema, outer, db); CollectedOk(b, schema, outer, db);
    case Apply(_, args) => CollectedAllOk(args, |args|, schema, outer, db);
    case _ =>
  }

  lemma {:induction false} CollectedAllOk(args: seq<Bound>, n: nat, schema: Schema, outer: Schema, db: Database)
    requires n <= |args| && forall i | 0 <= i < |args| :: BoundOk(args[i], schema, outer, db)
    ensures forall c | c in CollectAll(args, n) :: SelectOk(c.query, schema, db) && ScalarOf(c.query, []) == Null
    decreases args, n
  {
    if n > 0 {
      CollectedAllOk(args, n - 1, schema, outer, db);
      CollectedOk(args[n - 1], schema, outer, db);
    }
  }

  lemma {:induction false} ScalarConjunctSound(c: Bound, cs: seq<Bound>, s: Stage, from: From, engine: Engine,
          bound: nat, done: seq<Bound>, outer: Schema, outers: seq<Scope>, db: Database)
    requires Nesting(c) <= bound && BoundOk(c, SchemaOf(from), outer, db) && SameIds(CollectScalars(c))
    requires Underway(cs, s, from, engine, done, outers, db)
    requires PlanScalars(CollectScalars(c), cs, s, map[], from, engine, bound).Success?
    requires var r := PlanScalars(CollectScalars(c), cs, s, map[], from, engine, bound).value;
             PlanExpression(c, SchemaOf(from) + r.0.extra, r.1).Success?
    ensures var r := PlanScalars(CollectScalars(c), cs, s, map[], from, engine, bound).value;
            var e := PlanExpression(c, SchemaOf(from) + r.0.extra, r.1).value;
            Represents(Stage(Filter(e, r.0.plan), r.0.extra), from, done + [c], outers, db)
    decreases bound, 3, 0
  {
    var r := PlanScalars(CollectScalars(c), cs, s, map[], from, engine, bound).value;
    var e := PlanExpression(c, SchemaOf(from) + r.0.extra, r.1).value;
    CollectedOk(c, SchemaOf(from), outer, db);
    assert [] + CollectScalars(c) == CollectScalars(c);
    ScalarsSound(CollectScalars(c), [], cs, s, map[], from, engine, bound, done, outers, db);
    OkLocal(c, SchemaOf(from), outer, db);
    FilterDecides(c, e, r.0, r.1, from, done, outers, db);
    FilterNarrows(c, e, r.0, from, done, outers, db);
  }

  /** Whenever the planner accepts a WHERE clause, the planned rows are exactly the rows of the FROM on
      which every conjunct is true, each once and in order, whatever the enclosing rows are. */
  lemma {:induction false} WhereSound(cs: seq<Bound>, from: From, engine: Engine, bound: nat, outer: Schema,
          outers: seq<Scope>, db: Database)
    requires Within(cs, bound) && AllOk(cs, SchemaOf(from), outer, db) && FromOk(from, db) && EngineOk(engine)
    requires PlanWhere(cs, from, engine, bound).Success?
    ensures Represents(PlanWhere(cs, from, engine, bound).value, from, cs, outers, db)
    decreases bound, 4
  {
    var ordinary, exs, xs := Choose(cs, IsOrdinary), Choose(cs, IsExists), Choose(cs, HasScalars);
    var es := PlanAll(ordinary, SchemaOf(from)).value;
    var base := Stage(if ordinary == [] then PlanFrom(from) else Filter(Conjoin(es), PlanFrom(from)), []);
    var joined := PlanExistsAll(exs, base, from, engine, bound).value;
    KindsOk(cs, bound, SchemaOf(from), outer, db);
    OrdinaryStage(ordinary, es, from, outers, db);
    OrdinaryPlanned(cs, es, from);
    ExistsAllSound(exs, cs, base, from, engine, bound, ordinary, outers, db);
    assert OrdinaryDone(cs, ordinary + exs, from);
    ScalarConjunctsSound(xs, cs, joined, from, engine, bound, ordinary + exs, outer, outers, db);
    SameConjuncts(PlanWhere(cs, from, engine, bound).value, from, ordinary + exs + xs, cs, outers, db);
  }

  /** Every conjunct is of exactly one kind, and each kind meets what its planning needs. */
  lemma KindsOk(cs: seq<Bound>, bound: nat, schema: Schema, outer: Schema, db: Database)
    requires Within(cs, bound) && AllOk(cs, schema, outer, db)
    ensures forall c | c in Choose(cs, IsOrdinary) :: Local(c, schema)
    ensures ExistsOk(Choose(cs, IsExists), bound, schema, db)
    ensures Within(Choose(cs, HasScalars), bound) && AllOk(Choose(cs, HasScalars), schema, outer, db)
    ensures forall c :: c in Choose(cs, IsOrdinary) + Choose(cs, IsExists) + Choose(cs, HasScalars) <==> c in cs
  {
    forall c | c in Choose(cs, IsOrdinary) ensures Local(c, schema) {
      OkLocal(c, schema, outer, db);
    }
  }

  lemma OrdinaryPlanned(cs: seq<Bound>, es: seq<Expr>, from: From)
    requires PlanAll(Choose(cs, IsOrdinary), SchemaOf(from)) == Success(es)
    ensures OrdinaryDone(cs, Choose(cs, IsOrdinary), from)
    ensures forall more :: OrdinaryDone(cs, Choose(cs, IsOrdinary) + more, from)
  {
    var ordinary := Choose(cs, IsOrdinary);
    forall c | c in ordinary ensures PlanExpression(c, SchemaOf(from), map[]).Success? {
      var i :| 0 <= i < |ordinary| && ordinary[i] == c;
      assert PlanExpression(ordinary[i], SchemaOf(from), map[]) == Success(es[i]);
    }
  }

  // ---------------------------------------------------------------- the theorems

  /** The rows a WHERE clause keeps, read row by row. */
  ghost function WhereRows(where: Bound, from: From, db: Database): Rows {
    FilterRows(Kept(where, from, db), FromRows(from, db))
  }

  ghost function Kept(where: Bound, from: From, db: Database): Row -> bool {
    row => Truth(Meaning(where, [Scope(SchemaOf(from), row)], db))
  }

  /** Planning the WHERE of a SELECT succeeds exactly on plannable clauses and preserves their meaning: cut
      back to the columns of the FROM, the planned rows are the rows the clause keeps, in order and with the
      same repetitions. */
  lemma PlannedWhereRows(where: Bound, from: From, engine: Engine, db: Database)
    requires FromOk(from, db) && EngineOk(engine)
    requires BoundOk(where, SchemaOf(from), [], db) && SameIds(CollectScalars(where))
    ensures PlanWhereClause(where, from, engine).Success? <==> PlannableQueries.Plannable(where, from)
    ensures PlanWhereClause(where, from, engine).Success? ==>
              MapRows(Prefix(|SchemaOf(from)|), Denote(PlanWhereClause(where, from, engine).value.plan, db)) ==
              WhereRows(where, from, db)
  {
    hide PlanWhere;
    PlanningSucceeds.PlansExactly(where, from, engine);
    if PlanWhereClause(where, from, engine).Success? {
      AcceptedWhereRows(where, from, engine, db);
    }
  }

  lemma AcceptedWhereRows(where: Bound, from: From, engine: Engine, db: Database)
    requires FromOk(from, db) && EngineOk(engine)
    requires BoundOk(where, SchemaOf(from), [], db) && SameIds(CollectScalars(where))
    requires PlanWhereClause(where, from, engine).Success?
    ensures MapRows(Prefix(|SchemaOf(from)|), Denote(PlanWhereClause(where, from, engine).value.plan, db)) ==
            WhereRows(where, from, db)
  {
    hide PlanWhere;
    SplitNesting(where);
    SplitOk(where, SchemaOf(from), [], db);
    WhereSound(SplitBound(where), from, engine, Nesting(where), [], [], db);
    var rows := FromRows(from, db);
    forall i | 0 <= i < |rows|
        ensures Tests(SplitBound(where), from, [], db)(rows[i]) == Kept(where, from, db)(rows[i]) {
      SplitTrue(where, Around(from, rows[i], []), db);
      assert Around(from, rows[i], []) == [Scope(SchemaOf(from), rows[i])];
    }
    FilterAgree(Tests(SplitBound(where), from, [], db), Kept(where, from, db), rows);
  }

  lemma {:induction false} SplitOk(e: Bound, schema: Schema, outer: Schema, db: Database)
    requires BoundOk(e, schema, outer, db) && SameIds(CollectScalars(e))
    ensures AllOk(SplitBound(e), schema, outer, db)
  {
    if e.Conj? {
      assert SameIds(CollectScalars(e.left));
      assert SameIds(CollectScalars(e.right));
      SplitOk(e.left, schema, outer, db);
      SplitOk(e.right, schema, outer, db);
    }
  }

  /** The decorrelated plan gives an outer row the value its own subquery has if and only if the
      subquery selects a row for it or its aggregate is NULL on no rows. */
  lemma ScalarDecorrelationExact(e: Bound, cs: seq<Bound>, s: Stage, from: From, engine: Engine, bound: nat,
          done: seq<Bound>, outers: seq<Scope>, db: Database, i: nat)
    requires e.Scalar? && Nesting(e) <= bound && SelectOk(e.query, SchemaOf(from), db)
    requires Underway(cs, s, from, engine, done, outers, db) && i < |Denote(s.plan, db)|
    requires PlanCorrelatedScalar(e, cs, s, from, engine, bound).Success?
    ensures var rows, rows' := Denote(s.plan, db),
            Denote(PlanCorrelatedScalar(e, cs, s, from, engine, bound).value.plan, db);
            var scopes := Around(from, Prefix(|SchemaOf(from)|)(rows[i]), outers);
            && |rows'| == |rows| && |rows[i]| < |rows'[i]| && rows'[i][..|rows[i]|] == rows[i]
            && (rows'[i][|rows'[i]| - 1] == Meaning(e, scopes, db) <==>
                Selected(e.query, scopes, db) != [] || ScalarOf(e.query, []) == Null)
  {
    hide PlanCorrelatedScalar;
    var s' := PlanCorrelatedScalar(e, cs, s, from, engine, bound).value;
    ScalarOneSound(e, cs, s, from, engine, bound, done, outers, db);
    assert CarriedRow(Denote(s'.plan, db)[i], Denote(s.plan, db)[i], e.query, from, outers, db);
    JoinedValueExact(e.id, e.query, Around(from, Prefix(|SchemaOf(from)|)(Denote(s.plan, db)[i]), outers), db);
  }
}
