/** Why the planned WHERE keeps exactly the rows on which the WHERE clause is true. */
module DecorrelationSound {
  import opened Expressions
  import opened Plans
  import opened JoinAlgebra
  import opened BoundQueries
  import opened GroupedJoin
  import opened KeySources
  import opened Decorrelation

  // ---------------------------------------------------------------- what a stage stands for

  /** Conjuncts as a test of a row of the FROM. */
  ghost function Tests(cs: seq<Bound>, from: From, outers: seq<Scope>, db: Database): Row -> bool {
    row => AllTrue(cs, Around(from, row, outers), db)
  }

  function Around(from: From, row: Row, outers: seq<Scope>): seq<Scope> {
    [Scope(SchemaOf(from), row)] + outers
  }

  /** The stage's rows are the FROM rows that pass `done`, in order, each widened by `extra` columns. */
  ghost predicate Represents(s: Stage, from: From, done: seq<Bound>, outers: seq<Scope>, db: Database) {
    var w := |SchemaOf(from)|;
    && Width(s.plan) == w + |s.extra|
    && AllWide(Denote(s.plan, db), w + |s.extra|)
    && MapRows(Prefix(w), Denote(s.plan, db)) == FilterRows(Tests(done, from, outers, db), FromRows(from, db))
  }

  /** One row of a stage: the FROM row it extends. */
  lemma RowOf(s: Stage, from: From, done: seq<Bound>, outers: seq<Scope>, db: Database, i: nat)
    returns (row: Row, tail: Row)
    requires Represents(s, from, done, outers, db) && i < |Denote(s.plan, db)|
    ensures Denote(s.plan, db)[i] == row + tail && |row| == |SchemaOf(from)| && |tail| == |s.extra|
    ensures row == Prefix(|SchemaOf(from)|)(Denote(s.plan, db)[i])
    ensures row in FromRows(from, db) && AllTrue(done, Around(from, row, outers), db)
  {
    var w := |SchemaOf(from)|;
    var wide := Denote(s.plan, db)[i];
    row, tail := wide[..w], wide[w..];
    assert MapRows(Prefix(w), Denote(s.plan, db))[i] == row;
    var j := FilterMember(Tests(done, from, outers, db), FromRows(from, db), i);
  }

  lemma BaseStage(from: From, outers: seq<Scope>, db: Database)
    requires FromOk(from, db)
    ensures Represents(Stage(PlanFrom(from), []), from, [], outers, db)
  {
    var rows, w := FromRows(from, db), |SchemaOf(from)|;
    FromWide(from, db);
    forall i | 0 <= i < |rows| ensures MapRows(Prefix(w), rows)[i] == rows[i] {
      assert |rows[i]| == w;
      assert rows[i][..w] == rows[i];
    }
    assert MapRows(Prefix(w), rows) == rows;
    FilterAgree(Tests([], from, outers, db), (row: Row) => true, rows);
    FilterTrue(rows);
  }

  /** On these rows `keep` is the test of the conjuncts on the FROM row. */
  ghost predicate Decides(keep: Row -> bool, cs: seq<Bound>, from: From, rows: Rows, outers: seq<Scope>, db: Database) {
    forall i | 0 <= i < |rows| :: keep(rows[i]) == Tests(cs, from, outers, db)(Prefix(|SchemaOf(from)|)(rows[i]))
  }

  /** Filtering a stage by a test of its FROM row. */
  lemma Narrowed(s: Stage, s': Stage, keep: Row -> bool, from: From, done: seq<Bound>, added: seq<Bound>,
          outers: seq<Scope>, db: Database)
    requires Represents(s, from, done, outers, db)
    requires Width(s'.plan) == Width(s.plan) && s'.extra == s.extra
    requires Denote(s'.plan, db) == FilterRows(keep, Denote(s.plan, db))
    requires Decides(keep, added, from, Denote(s.plan, db), outers, db)
    ensures Represents(s', from, done + added, outers, db)
  {
    var rows, w := Denote(s.plan, db), |SchemaOf(from)|;
    var f, g := Tests(done, from, outers, db), Tests(added, from, outers, db);
    FilterWide(keep, rows, w + |s.extra|);
    FilterPrefix(keep, g, rows, w);
    FilterTwice(f, g, FromRows(from, db));
    forall i | 0 <= i < |FromRows(from, db)|
      ensures BothTests(f, g)(FromRows(from, db)[i]) == Tests(done + added, from, outers, db)(FromRows(from, db)[i])
    {
    }
    FilterAgree(BothTests(f, g), Tests(done + added, from, outers, db), FromRows(from, db));
  }

  /** Only the set of conjuncts matters. */
  lemma SameConjuncts(s: Stage, from: From, done: seq<Bound>, cs: seq<Bound>, outers: seq<Scope>, db: Database)
    requires Represents(s, from, done, outers, db) && forall c :: c in done <==> c in cs
    ensures Represents(s, from, cs, outers, db)
  {
    FilterAgree(Tests(done, from, outers, db), Tests(cs, from, outers, db), FromRows(from, db));
  }

  // ---------------------------------------------------------------- what the binder guarantees

  /** Names are bound: a column of the query itself is in `schema`, one of the next enclosing query in
      `outer`. Equal identities mean the same subquery, and every scalar subquery is NULL on no rows. */
  ghost predicate BoundOk(e: Bound, schema: Schema, outer: Schema, db: Database)
    decreases e, 0
  {
    match e
    case ColumnRef(name) => name in schema
    case OuterRef(depth, name) => depth == 1 ==> name in outer
    case Literal(_) => true
    case Conj(a, b) => BoundOk(a, schema, outer, db) && BoundOk(b, schema, outer, db)
    case Same(a, b) => BoundOk(a, schema, outer, db) && BoundOk(b, schema, outer, db)
    case Apply(_, args) => forall i | 0 <= i < |args| :: BoundOk(args[i], schema, outer, db)
    case Exists(q, _) => SelectOk(q, schema, db)
    case Scalar(_, q) => SelectOk(q, schema, db) && ScalarOf(q, []) == Null
  }

  ghost predicate SelectOk(q: Select, outer: Schema, db: Database)
    decreases q, 0
  {
    && FromOk(q.from, db)
    && (q.where.Some? ==> BoundOk(q.where.value, SchemaOf(q.from), outer, db) && SameIds(CollectScalars(q.where.value)))
    && (forall a | a in q.args :: Local(a, SchemaOf(q.from)))
    && (forall x :: |q.aggregates(x)| == q.count)
  }

  ghost predicate SameIds(scalars: seq<Bound>) {
    forall s, t {:trigger AgreeingIds(s, t)} | s in scalars && t in scalars :: AgreeingIds(s, t)
  }

  ghost predicate AgreeingIds(s: Bound, t: Bound) {
    s.Scalar? && t.Scalar? && s.id == t.id ==> s == t
  }

  ghost predicate AllOk(cs: seq<Bound>, schema: Schema, outer: Schema, db: Database) {
    forall c | c in cs :: BoundOk(c, schema, outer, db) && SameIds(CollectScalars(c))
  }

  ghost predicate EngineOk(engine: Engine) {
    forall a: seq<Row> -> Row :: Groups(engine.grouping(a), a)
  }

  lemma {:induction false} OkLocal(e: Bound, schema: Schema, outer: Schema, db: Database)
    requires BoundOk(e, schema, outer, db)
    ensures Local(e, schema)
  {
    match e
    case Conj(a, b) => OkLocal(a, schema, outer, db); OkLocal(b, schema, outer, db);
    case Same(a, b) => OkLocal(a, schema, outer, db); OkLocal(b, schema, outer, db);
    case Apply(_, args) =>
      forall i | 0 <= i < |args| ensures Local(args[i], schema) {
        OkLocal(args[i], schema, outer, db);
      }
    case _ =>
  }

  lemma {:induction false} ExtractOk(e: Bound, schema: Schema, outer: Schema, db: Database)
    requires BoundOk(e, schema, outer, db)
    ensures forall p | p in Extract(e).pairs :: p.outer in outer && Local(p.inner, schema)
    ensures forall c | c in Extract(e).remaining :: BoundOk(c, schema, outer, db)
    ensures forall c, s | c in Extract(e).remaining && s in CollectScalars(c) :: s in CollectScalars(e)
  {
    if e.Conj? {
      ExtractOk(e.left, schema, outer, db);
      ExtractOk(e.right, schema, outer, db);
    } else if e.Same? {
      OkLocal(e.left, schema, outer, db);
      OkLocal(e.right, schema, outer, db);
    }
  }

  ghost predicate PairsOk(ps: seq<Pair>, schema: Schema, outer: Schema) {
    forall p | p in ps :: p.outer in outer && Local(p.inner, schema)
  }

  lemma CorrelationOk(q: Select, outer: Schema, db: Database)
    requires SelectOk(q, outer, db)
    ensures PairsOk(Correlation(q).pairs, SchemaOf(q.from), outer)
    ensures AllOk(Correlation(q).remaining, SchemaOf(q.from), outer, db)
  {
    if q.where.Some? {
      ExtractOk(q.where.value, SchemaOf(q.from), outer, db);
    }
  }

  // ---------------------------------------------------------------- keys on both sides

  function KeyRow(ps: seq<Pair>, outer: Scope): Row {
    seq(|ps|, i requires 0 <= i < |ps| => Lookup(outer, ps[i].outer))
  }

  function InnerRow(ps: seq<Pair>, scopes: seq<Scope>, db: Database): Row {
    seq(|ps|, i requires 0 <= i < |ps| => Meaning(ps[i].inner, scopes, db))
  }

  lemma KeysArePairs(ps: seq<Pair>, inner: Scope, outer: Scope, outers: seq<Scope>, db: Database)
    ensures var scopes := [inner] + ([outer] + outers);
            KeysMatch(KeyRow(ps, outer), InnerRow(ps, scopes, db)) <==> PairsTrue(ps, scopes, db)
  {
    var scopes := [inner] + ([outer] + outers);
    var a, b := KeyRow(ps, outer), InnerRow(ps, scopes, db);
    forall i | 0 <= i < |ps| ensures PairTrue(ps[i], scopes, db) == (a[i] != Null && a[i] == b[i]) {
    }
    if KeysMatch(a, b) {
      forall p | p in ps ensures PairTrue(p, scopes, db) {
        var i :| 0 <= i < |ps| && ps[i] == p;
        assert a[i] != Null && a[i] == b[i];
      }
    }
    if PairsTrue(ps, scopes, db) {
      forall i | 0 <= i < |a| ensures a[i] != Null && a[i] == b[i] {
        assert ps[i] in ps;
      }
    }
  }

  lemma OuterKeys(ps: seq<Pair>, schema: Schema, extra: Schema, leftKeys: seq<Expr>, row: Row, tail: Row, db: Database)
    requires |row| == |schema| && PlanAll(Outers(ps), schema + extra) == Success(leftKeys)
    requires forall p | p in ps :: p.outer in schema
    ensures EvalAll(leftKeys, row + tail, []) == KeyRow(ps, Scope(schema, row))
  {
    var es := Outers(ps);
    forall i | 0 <= i < |ps| ensures Eval(leftKeys[i], row + tail, []) == Lookup(Scope(schema, row), ps[i].outer) {
      assert ps[i] in ps;
      assert PlanExpression(es[i], schema + extra, map[]) == Success(leftKeys[i]);
      PlannedPlain(es[i], schema, extra, row, tail, [], db);
    }
  }

  lemma PlannedAll(es: seq<Bound>, schema: Schema, extra: Schema, planned: seq<Expr>, row: Row, tail: Row,
          outers: seq<Scope>, db: Database, i: nat)
    requires |row| == |schema| && PlanAll(es, schema + extra) == Success(planned) && i < |es| && Local(es[i], schema)
    ensures Eval(planned[i], row + tail, []) == Meaning(es[i], [Scope(schema, row)] + outers, db)
  {
    assert PlanExpression(es[i], schema + extra, map[]) == Success(planned[i]);
    PlannedPlain(es[i], schema, extra, row, tail, outers, db);
  }

  lemma InnerKeys(ps: seq<Pair>, schema: Schema, extra: Schema, inner: seq<Expr>, row: Row, tail: Row,
          outers: seq<Scope>, db: Database)
    requires |row| == |schema| && PlanAll(Inners(ps), schema + extra) == Success(inner)
    requires forall p | p in ps :: Local(p.inner, schema)
    ensures EvalAll(inner, row + tail, []) == InnerRow(ps, [Scope(schema, row)] + outers, db)
  {
    forall i | 0 <= i < |ps|
      ensures Eval(inner[i], row + tail, []) == Meaning(ps[i].inner, [Scope(schema, row)] + outers, db)
    {
      assert ps[i] in ps;
      PlannedAll(Inners(ps), schema, extra, inner, row, tail, outers, db, i);
    }
  }

  // ---------------------------------------------------------------- the subquery's rows

  /** The correlation equalities as a test of a row of the subquery's FROM. */
  ghost function PairTest(q: Select, outer: Scope, outers: seq<Scope>, db: Database): Row -> bool {
    row => PairsTrue(Correlation(q).pairs, Around(q.from, row, [outer] + outers), db)
  }

  /** Evaluated for one outer row, the subquery selects the rows of the planned subquery whose keys
      match that row's. */
  lemma SelectedByKeys(q: Select, sub: Stage, outer: Scope, outers: seq<Scope>, db: Database)
    requires Represents(sub, q.from, Correlation(q).remaining, [outer] + outers, db)
    ensures Selected(q, [outer] + outers, db) ==
            FilterRows(PairTest(q, outer, outers, db), MapRows(Prefix(|SchemaOf(q.from)|), Denote(sub.plan, db)))
  {
    var rows := FromRows(q.from, db);
    var f, g := Tests(Correlation(q).remaining, q.from, [outer] + outers, db), PairTest(q, outer, outers, db);
    FilterTwice(f, g, rows);
    forall i | 0 <= i < |rows| ensures BothTests(f, g)(rows[i]) == WhereTest(q, [outer] + outers, db)(rows[i]) {
      if q.where.Some? {
        ExtractExact(q.where.value, Around(q.from, rows[i], [outer] + outers), db);
      }
    }
    FilterAgree(BothTests(f, g), WhereTest(q, [outer] + outers, db), rows);
  }

  lemma {:induction false} FilterNonempty(f: Row -> bool, rows: Rows)
    ensures FilterRows(f, rows) != [] <==> exists i :: 0 <= i < |rows| && f(rows[i])
  {
    if rows != [] {
      FilterNonempty(f, rows[1..]);
      if FilterRows(f, rows[1..]) != [] {
        var i :| 0 <= i < |rows[1..]| && f(rows[1..][i]);
        assert f(rows[i + 1]);
      }
      if i :| 0 <= i < |rows| && f(rows[i]) {
        if i > 0 {
          assert rows[1..][i - 1] == rows[i];
        }
      }
    }
  }

  // ---------------------------------------------------------------- EXISTS

  /** Planning the subquery is sound for every row of the enclosing query. */
  ghost predicate SubSound(sub: Stage, q: Select, outers: seq<Scope>, db: Database) {
    forall outer: Scope :: SubSoundAt(sub, q, outer, outers, db)
  }

  ghost predicate SubSoundAt(sub: Stage, q: Select, outer: Scope, outers: seq<Scope>, db: Database) {
    Represents(sub, q.from, Correlation(q).remaining, [outer] + outers, db)
  }

  /** The row of the subquery's FROM under one row of the planned subquery, and whether it matches. */
  lemma KeysMeet(q: Select, sub: Stage, inner: seq<Expr>, outer: Scope, outers: seq<Scope>, db: Database, j: nat)
    requires Represents(sub, q.from, Correlation(q).remaining, [outer] + outers, db) && j < |Denote(sub.plan, db)|
    requires PlanAll(Inners(Correlation(q).pairs), SchemaOf(q.from) + sub.extra) == Success(inner)
    requires forall p | p in Correlation(q).pairs :: Local(p.inner, SchemaOf(q.from))
    ensures var r := Denote(sub.plan, db)[j];
            KeysMatch(KeyRow(Correlation(q).pairs, outer), EvalAll(inner, r, [])) ==
            PairTest(q, outer, outers, db)(Prefix(|SchemaOf(q.from)|)(r))
  {
    var ps := Correlation(q).pairs;
    var row, tail := RowOf(sub, q.from, Correlation(q).remaining, [outer] + outers, db, j);
    InnerKeys(ps, SchemaOf(q.from), sub.extra, inner, row, tail, [outer] + outers, db);
    KeysArePairs(ps, Scope(SchemaOf(q.from), row), outer, outers, db);
  }

  lemma MatchIffSelected(q: Select, sub: Stage, inner: seq<Expr>, leftKeys: seq<Expr>, l: Row, outer: Scope,
          outers: seq<Scope>, db: Database)
    requires Represents(sub, q.from, Correlation(q).remaining, [outer] + outers, db)
    requires PlanAll(Inners(Correlation(q).pairs), SchemaOf(q.from) + sub.extra) == Success(inner)
    requires forall p | p in Correlation(q).pairs :: Local(p.inner, SchemaOf(q.from))
    requires EvalAll(leftKeys, l, []) == KeyRow(Correlation(q).pairs, outer)
    ensures var right := MapRows(Evaluated(inner), Denote(sub.plan, db));
            (Matches(OnKeys(leftKeys, RightKeys(|inner|)), l, right) != []) == (Selected(q, [outer] + outers, db) != [])
  {
    var rows, w := Denote(sub.plan, db), |SchemaOf(q.from)|;
    var right, on, test := MapRows(Evaluated(inner), rows), OnKeys(leftKeys, RightKeys(|inner|)),
      PairTest(q, outer, outers, db);
    var prefixes := MapRows(Prefix(w), rows);
    forall j | 0 <= j < |rows| ensures on(l, right[j]) == test(prefixes[j]) {
      KeysMeet(q, sub, inner, outer, outers, db, j);
      RightKeysRead(|inner|, right[j]);
      assert right[j][..|inner|] == right[j];
    }
    SelectedByKeys(q, sub, outer, outers, db);
    FilterNonempty(test, prefixes);
    if j :| 0 <= j < |prefixes| && test(prefixes[j]) {
      MatchesSome(on, l, right, j);
    } else {
      MatchesNone(on, l, right);
    }
  }

  function Matched(on: (Row, Row) -> bool, rs: Rows, negated: bool): Row -> bool {
    if negated then HasNone(on, rs) else HasMatch(on, rs)
  }

  lemma ExistsJoinRows(s: Stage, sub: Stage, inner: seq<Expr>, leftKeys: seq<Expr>, negated: bool, db: Database)
    ensures var on := OnKeys(leftKeys, RightKeys(|inner|));
            Denote(ExistsJoin(s, sub, inner, leftKeys, negated).plan, db) ==
            FilterRows(Matched(on, MapRows(Evaluated(inner), Denote(sub.plan, db)), negated), Denote(s.plan, db))
  {
    var p := ExistsJoin(s, sub, inner, leftKeys, negated).plan;
    var on := OnKeys(leftKeys, RightKeys(|inner|));
    var ls, rs := Denote(s.plan, db), MapRows(Evaluated(inner), Denote(sub.plan, db));
    HashJoinRows(p.kind, s.plan, p.right, leftKeys, p.rightKeys, db);
    if negated {
      AntiIsFilter(on, ls, rs, |inner|);
    } else {
      SemiIsFilter(on, ls, rs, |inner|);
    }
  }

  lemma ExistsRow(e: Bound, s: Stage, sub: Stage, inner: seq<Expr>, leftKeys: seq<Expr>, from: From, row: Row,
          tail: Row, outers: seq<Scope>, db: Database)
    requires e.Exists? && PairsOk(Correlation(e.query).pairs, SchemaOf(e.query.from), SchemaOf(from))
    requires |row| == |SchemaOf(from)|
    requires Represents(sub, e.query.from, Correlation(e.query).remaining, Around(from, row, outers), db)
    requires PlanAll(Inners(Correlation(e.query).pairs), SchemaOf(e.query.from) + sub.extra) == Success(inner)
    requires PlanAll(Outers(Correlation(e.query).pairs), SchemaOf(from) + s.extra) == Success(leftKeys)
    ensures Matched(OnKeys(leftKeys, RightKeys(|inner|)), MapRows(Evaluated(inner), Denote(sub.plan, db)),
            e.negated)(row + tail)
            == Tests([e], from, outers, db)(row)
  {
    OuterKeys(Correlation(e.query).pairs, SchemaOf(from), s.extra, leftKeys, row, tail, db);
    MatchIffSelected(e.query, sub, inner, leftKeys, row + tail, Scope(SchemaOf(from), row), outers, db);
    OneConjunct(e, Around(from, row, outers), db);
  }

  lemma ExistsDecides(e: Bound, s: Stage, sub: Stage, inner: seq<Expr>, leftKeys: seq<Expr>, from: From,
          done: seq<Bound>, outers: seq<Scope>, db: Database)
    requires e.Exists? && PairsOk(Correlation(e.query).pairs, SchemaOf(e.query.from), SchemaOf(from))
    requires Represents(s, from, done, outers, db) && SubSound(sub, e.query, outers, db)
    requires PlanAll(Inners(Correlation(e.query).pairs), SchemaOf(e.query.from) + sub.extra) == Success(inner)
    requires PlanAll(Outers(Correlation(e.query).pairs), SchemaOf(from) + s.extra) == Success(leftKeys)
    ensures Decides(Matched(OnKeys(leftKeys, RightKeys(|inner|)), MapRows(Evaluated(inner), Denote(sub.plan, db)),
            e.negated),
                    [e], from, Denote(s.plan, db), outers, db)
  {
    var keep := Matched(OnKeys(leftKeys, RightKeys(|inner|)), MapRows(Evaluated(inner), Denote(sub.plan, db)),
        e.negated);
    var rows := Denote(s.plan, db);
    forall i | 0 <= i < |rows|
        ensures keep(rows[i]) == Tests([e], from, outers, db)(Prefix(|SchemaOf(from)|)(rows[i])) {
      var row, tail := RowOf(s, from, done, outers, db, i);
      assert SubSoundAt(sub, e.query, Scope(SchemaOf(from), row), outers, db);
      ExistsRow(e, s, sub, inner, leftKeys, from, row, tail, outers, db);
    }
  }

  lemma ExistsNarrows(e: Bound, s: Stage, sub: Stage, inner: seq<Expr>, leftKeys: seq<Expr>, from: From,
          done: seq<Bound>, outers: seq<Scope>, db: Database)
    requires e.Exists? && Represents(s, from, done, outers, db)
    requires Decides(Matched(OnKeys(leftKeys, RightKeys(|inner|)), MapRows(Evaluated(inner), Denote(sub.plan, db)),
             e.negated),
                     [e], from, Denote(s.plan, db), outers, db)
    ensures Represents(ExistsJoin(s, sub, inner, leftKeys, e.negated), from, done + [e], outers, db)
  {
    hide FilterRows, Denote, Represents, Evaluated, Masked, Join, RightKeys, Tests;
    var keep := Matched(OnKeys(leftKeys, RightKeys(|inner|)), MapRows(Evaluated(inner), Denote(sub.plan, db)),
        e.negated);
    var s' := ExistsJoin(s, sub, inner, leftKeys, e.negated);
    ExistsJoinRows(s, sub, inner, leftKeys, e.negated, db);
    assert Width(s'.plan) == Width(s.plan);
    Narrowed(s, s', keep, from, done, [e], outers, db);
  }

  /** A correlated EXISTS or NOT EXISTS is its SEMI or ANTI join. */
  lemma ExistsStep(e: Bound, s: Stage, sub: Stage, inner: seq<Expr>, leftKeys: seq<Expr>, from: From, done: seq<Bound>,
          outers: seq<Scope>, db: Database)
    requires e.Exists? && PairsOk(Correlation(e.query).pairs, SchemaOf(e.query.from), SchemaOf(from))
    requires Represents(s, from, done, outers, db) && SubSound(sub, e.query, outers, db)
    requires PlanAll(Inners(Correlation(e.query).pairs), SchemaOf(e.query.from) + sub.extra) == Success(inner)
    requires PlanAll(Outers(Correlation(e.query).pairs), SchemaOf(from) + s.extra) == Success(leftKeys)
    ensures Represents(ExistsJoin(s, sub, inner, leftKeys, e.negated), from, done + [e], outers, db)
  {
    ExistsDecides(e, s, sub, inner, leftKeys, from, done, outers, db);
    ExistsNarrows(e, s, sub, inner, leftKeys, from, done, outers, db);
  }

  lemma OneConjunct(e: Bound, scopes: seq<Scope>, db: Database)
    ensures AllTrue([e], scopes, db) == Truth(Meaning(e, scopes, db))
  {
    assert e in [e];
  }
}
