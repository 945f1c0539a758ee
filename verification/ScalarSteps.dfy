/** One step of planning: a correlated scalar subquery becomes a LEFT join with a grouped aggregate whose
    input may have been restricted. */
module ScalarSteps {
  import opened Expressions
  import opened Plans
  import opened JoinAlgebra
  import opened BoundQueries
  import opened GroupedJoin
  import opened KeySources
  import opened Decorrelation
  import opened DecorrelationSound
  import opened ScalarSound

  // ---------------------------------------------------------------- what the restriction does

  /** The aggregate's input with a SEMI join against the source of key `j` on top. */
  ghost predicate SplicedBy(child': Plan, groups: seq<Expr>, child: Plan, pairs: seq<Pair>, cs: seq<Bound>, from: From,
          worthwhile: string -> bool, j: nat)
    requires j < |pairs| == |groups|
  {
    var ks := BuildKeySource(cs, from, pairs[j].outer, worthwhile(pairs[j].outer));
    ks.Success? && ks.value.Source? && child' == Spliced(child, ks.value.plan, ks.value.column, groups[j])
  }

  /** The restricted plan is the grouped plan over the original input or over a spliced one. */
  lemma {:induction false} RestrictShape(q: Select, groups: seq<Expr>, args: seq<Expr>, fold: seq<(Row, Row)> -> Rows,
          child: Plan, pairs: seq<Pair>, i: nat, cs: seq<Bound>, from: From, worthwhile: string -> bool)
    returns (child': Plan, j: nat)
    requires i <= |pairs| == |groups|
    requires Restrict(GroupedPlan(q, groups, args, fold, child), pairs, i, cs, from, worthwhile).Success?
    ensures Restrict(GroupedPlan(q, groups, args, fold, child), pairs, i, cs, from, worthwhile).value ==
            GroupedPlan(q, groups, args, fold, child')
    ensures child' == child || (j < |pairs| && SplicedBy(child', groups, child, pairs, cs, from, worthwhile, j))
    decreases |pairs| - i
  {
    var p := GroupedPlan(q, groups, args, fold, child);
    child', j := child, i;
    if i < |pairs| {
      var ks := BuildKeySource(cs, from, pairs[i].outer, worthwhile(pairs[i].outer)).value;
      if ks.Source? {
        var aggregate := Aggregate(groups, args, |groups| + q.count, fold, child);
        child' := Spliced(child, ks.plan, ks.column, groups[i]);
        assert RestrictAggregateInput(aggregate, i, ks.plan, ks.column) ==
               Some(Aggregate(groups, args, |groups| + q.count, fold, child'));
        assert RestrictAggregateInput(p, i, ks.plan, ks.column) == Some(GroupedPlan(q, groups, args, fold, child'));
      } else {
        child', j := RestrictShape(q, groups, args, fold, child, pairs, i + 1, cs, from, worthwhile);
      }
    }
  }

  lemma {:induction false} PlainIsOrdinary(e: Bound)
    requires Plain(e)
    ensures CollectScalars(e) == [] && !e.Exists?
  {
    match e
    case Conj(a, b) => PlainIsOrdinary(a); PlainIsOrdinary(b);
    case Same(a, b) => PlainIsOrdinary(a); PlainIsOrdinary(b);
    case Apply(_, args) => PlainArgs(args, |args|);
    case _ =>
  }

  lemma {:induction false} PlainArgs(args: seq<Bound>, n: nat)
    requires n <= |args| && forall i | 0 <= i < |args| :: Plain(args[i])
    ensures CollectAll(args, n) == []
    decreases args, n
  {
    if n > 0 {
      PlainArgs(args, n - 1);
      PlainIsOrdinary(args[n - 1]);
    }
  }

  /** The ordinary conjuncts have been planned over the FROM and applied. */
  ghost predicate OrdinaryDone(cs: seq<Bound>, done: seq<Bound>, from: From) {
    forall c | c in cs && IsOrdinary(c) :: c in done && PlanExpression(c, SchemaOf(from), map[]).Success?
  }

  lemma LocalsDone(cs: seq<Bound>, done: seq<Bound>, from: From, columns: Schema, scopes: seq<Scope>, db: Database)
    requires OrdinaryDone(cs, done, from) && AllTrue(done, scopes, db)
    ensures AllPlanned(LocalConjuncts(cs, columns), SchemaOf(from)) && AllTrue(LocalConjuncts(cs, columns), scopes, db)
  {
    forall c | c in LocalConjuncts(cs, columns) ensures c in cs && IsOrdinary(c) {
      PlainIsOrdinary(c);
    }
  }

  lemma OuterIndexed(pairs: seq<Pair>, schema: Schema, extra: Schema, j: nat)
    requires PlanAll(Outers(pairs), schema + extra).Success? && j < |pairs| && pairs[j].outer in schema
    ensures ColumnIndex(schema, pairs[j].outer).Success?
  {
    assert PlanExpression(Outers(pairs)[j], schema + extra, map[]).Success?;
    LookupPlanned(pairs[j].outer, schema, extra, seq(|schema|, _ => Null), []);
  }

  ghost predicate SameAnswerAt(q: Select, groups: seq<Expr>, args: seq<Expr>, child: Plan, child': Plan, from: From,
          row: Row, db: Database) {
    var key := KeyRow(Correlation(q).pairs, Scope(SchemaOf(from), row));
    Answer(Keyed(groups, args, Denote(child', db)), key, Scalarize(q)) ==
    Answer(Keyed(groups, args, Denote(child, db)), key, Scalarize(q))
  }

  ghost predicate SameAnswers(q: Select, groups: seq<Expr>, args: seq<Expr>, child: Plan, child': Plan, s: Stage,
          from: From, db: Database) {
    forall row | row in MapRows(Prefix(|SchemaOf(from)|), Denote(s.plan, db)) ::
      SameAnswerAt(q, groups, args, child, child', from, row, db)
  }

  /** Restricting the aggregate's input changes no answer an outer row gets. */
  lemma SameAnswer(q: Select, groups: seq<Expr>, args: seq<Expr>, child: Plan, child': Plan, cs: seq<Bound>, from: From,
          worthwhile: string -> bool, j: nat, row: Row, outers: seq<Scope>, db: Database)
    requires |Correlation(q).pairs| == |groups|
    requires child' == child ||
             (j < |groups| && SplicedBy(child', groups, child, Correlation(q).pairs, cs, from, worthwhile, j) &&
              ColumnIndex(SchemaOf(from), Correlation(q).pairs[j].outer).Success?)
    requires FromOk(from, db) && row in FromRows(from, db) && |row| == |SchemaOf(from)|
    requires forall columns :: AllPlanned(LocalConjuncts(cs, columns), SchemaOf(from)) &&
                               AllTrue(LocalConjuncts(cs, columns), Around(from, row, outers), db)
    ensures SameAnswerAt(q, groups, args, child, child', from, row, db)
  {
    hide Denote;
    var pairs := Correlation(q).pairs;
    var key := KeyRow(pairs, Scope(SchemaOf(from), row));
    if NonNull(key) && child' != child {
      var name := pairs[j].outer;
      var ks := BuildKeySource(cs, from, name, worthwhile(name)).value;
      KeySourceCovers(cs, from, name, worthwhile(name), ks, row, outers, db);
      assert key[j] == Lookup(Scope(SchemaOf(from), row), name) != Null;
      assert Supplies(Denote(ks.plan, db), ks.column, key[j]);
      RestrictedGroup(groups, args, child, ks.plan, ks.column, j, key, db);
    }
  }

  // ---------------------------------------------------------------- one scalar subquery

  /** `row'` is `row` with columns appended, the last one holding `v`. */
  predicate Appended(row': Row, row: Row, v: Value) {
    |row| < |row'| && row'[..|row|] == row && row'[|row'| - 1] == v
  }

  lemma ScalarJoinRows(s: Stage, q: Select, groups: seq<Expr>, args: seq<Expr>, fold: seq<(Row, Row)> -> Rows,
          child: Plan, leftKeys: seq<Expr>, db: Database)
    requires Groups(fold, q.aggregates) && (forall x :: |q.aggregates(x)| == q.count) && |groups| == |leftKeys|
    ensures Denote(ScalarJoin(s, GroupedPlan(q, groups, args, fold, child), leftKeys).plan, db) ==
            MapRows(Answered(Keyed(groups, args, Denote(child, db)), leftKeys, Scalarize(q)), Denote(s.plan, db))
  {
    var k := |leftKeys|;
    var right := Project(Identity(k + 1), GroupedPlan(q, groups, args, fold, child));
    var keys := ReducedGroups(q, groups, args, fold, child, db);
    LeftJoinAnswers(leftKeys, Denote(s.plan, db), Denote(right, db), Keyed(groups, args, Denote(child, db)),
      Scalarize(q), keys);
    HashJoinRows(LEFT, s.plan, right, leftKeys, RightKeys(k), db);
    assert Width(right) == k + 1;
  }

  /** A stage whose every row is extended in place still stands for the same FROM rows. */
  lemma StillRepresents(s: Stage, s': Stage, n: nat, f: Row -> Row, from: From, done: seq<Bound>, outers: seq<Scope>,
          db: Database)
    requires Represents(s, from, done, outers, db)
    requires Width(s'.plan) == Width(s.plan) + n && |s'.extra| == |s.extra| + n
    requires Denote(s'.plan, db) == MapRows(f, Denote(s.plan, db)) && AllExtend(f, Denote(s.plan, db), n)
    ensures Represents(s', from, done, outers, db)
  {
    ExtendedPrefixes(f, Denote(s.plan, db), n, |SchemaOf(from)|, |SchemaOf(from)| + |s.extra|);
  }

  lemma ExtendedPrefixes(f: Row -> Row, rows: Rows, n: nat, w: nat, width: nat)
    requires AllExtend(f, rows, n) && AllWide(rows, width) && w <= width
    ensures AllWide(MapRows(f, rows), width + n)
    ensures MapRows(Prefix(w), MapRows(f, rows)) == MapRows(Prefix(w), rows)
  {
    forall i | 0 <= i < |rows| ensures |f(rows[i])| == width + n && Prefix(w)(f(rows[i])) == Prefix(w)(rows[i]) {
      assert Extends(f(rows[i]), rows[i], |rows[i]| + n);
      assert f(rows[i])[..w] == f(rows[i])[..|rows[i]|][..w];
    }
  }

  predicate Extends(row': Row, row: Row, w: nat) {
    |row'| == w && |row| <= |row'| && row'[..|row|] == row
  }

  /** Everything planning a scalar subquery produced, and the soundness of its own WHERE. */
  ghost predicate ScalarPlanned(q: Select, sub: Stage, groups: seq<Expr>, args: seq<Expr>, leftKeys: seq<Expr>,
          s: Stage, from: From, outers: seq<Scope>, db: Database) {
    && Planned(q, sub, groups, args) && SubSound(sub, q, outers, db)
    && PlanAll(Outers(Correlation(q).pairs), SchemaOf(from) + s.extra) == Success(leftKeys)
    && (forall p | p in Correlation(q).pairs :: p.outer in SchemaOf(from))
    && |groups| == |leftKeys| == |Correlation(q).pairs|
  }

  lemma AnsweredRow(q: Select, sub: Stage, groups: seq<Expr>, args: seq<Expr>, leftKeys: seq<Expr>, child': Plan,
          s: Stage, from: From, row: Row, tail: Row, outers: seq<Scope>, db: Database)
    requires ScalarPlanned(q, sub, groups, args, leftKeys, s, from, outers, db) && |row| == |SchemaOf(from)|
    requires SameAnswerAt(q, groups, args, sub.plan, child', from, row, db)
    ensures var row' := Answered(Keyed(groups, args, Denote(child', db)), leftKeys, Scalarize(q))(row + tail);
            Appended(row', row + tail, JoinedValue(q, Around(from, row, outers), db))
  {
    var outer := Scope(SchemaOf(from), row);
    OuterKeys(Correlation(q).pairs, SchemaOf(from), s.extra, leftKeys, row, tail, db);
    assert SubSoundAt(sub, q, outer, outers, db);
    AnswerValue(q, sub, groups, args, outer, outers, db);
    var answer := Answer(Keyed(groups, args, Denote(child', db)), KeyRow(Correlation(q).pairs, outer), Scalarize(q));
    assert Answered(Keyed(groups, args, Denote(child', db)), leftKeys, Scalarize(q))(row + tail) == (row + tail) +
           answer;
    AppendedBy(row + tail, answer, JoinedValue(q, Around(from, row, outers), db));
  }

  lemma AppendedBy(row: Row, more: Row, v: Value)
    requires more != [] && more[|more| - 1] == v
    ensures Appended(row + more, row, v)
  {
  }

  /** Each row of `s'` is the row of `s` it extends plus the joined value of `q` for that row. */
  ghost predicate CarriesValue(s: Stage, s': Stage, q: Select, from: From, outers: seq<Scope>, db: Database) {
    var rows, rows' := Denote(s.plan, db), Denote(s'.plan, db);
    |rows'| == |rows| && forall i | 0 <= i < |rows| :: CarriedRow(rows'[i], rows[i], q, from, outers, db)
  }

  ghost predicate CarriedRow(row': Row, row: Row, q: Select, from: From, outers: seq<Scope>, db: Database) {
    Appended(row', row, JoinedValue(q, Around(from, Prefix(|SchemaOf(from)|)(row), outers), db))
  }

  lemma ScalarAt(q: Select, sub: Stage, groups: seq<Expr>, args: seq<Expr>, leftKeys: seq<Expr>, child': Plan, s: Stage,
          from: From, done: seq<Bound>, outers: seq<Scope>, db: Database, i: nat)
    requires ScalarPlanned(q, sub, groups, args, leftKeys, s, from, outers, db)
    requires Represents(s, from, done, outers, db) && SameAnswers(q, groups, args, sub.plan, child', s, from, db)
    requires i < |Denote(s.plan, db)|
    ensures var f := Answered(Keyed(groups, args, Denote(child', db)), leftKeys, Scalarize(q));
            CarriedRow(f(Denote(s.plan, db)[i]), Denote(s.plan, db)[i], q, from, outers, db)
  {
    var row, tail := RowOf(s, from, done, outers, db, i);
    assert MapRows(Prefix(|SchemaOf(from)|), Denote(s.plan, db))[i] == row;
    AnsweredRow(q, sub, groups, args, leftKeys, child', s, from, row, tail, outers, db);
  }

  lemma ScalarCarries(q: Select, sub: Stage, groups: seq<Expr>, args: seq<Expr>, leftKeys: seq<Expr>, child': Plan,
          s: Stage, from: From, done: seq<Bound>, outers: seq<Scope>, db: Database)
    requires ScalarPlanned(q, sub, groups, args, leftKeys, s, from, outers, db)
    requires Represents(s, from, done, outers, db) && SameAnswers(q, groups, args, sub.plan, child', s, from, db)
    ensures AllCarry(Answered(Keyed(groups, args, Denote(child', db)), leftKeys, Scalarize(q)), Denote(s.plan, db),
                     q, from, outers, db)
  {
    var f := Answered(Keyed(groups, args, Denote(child', db)), leftKeys, Scalarize(q));
    var rows := Denote(s.plan, db);
    forall i | 0 <= i < |rows| ensures CarriedRow(f(rows[i]), rows[i], q, from, outers, db) {
      ScalarAt(q, sub, groups, args, leftKeys, child', s, from, done, outers, db, i);
    }
  }

  lemma AnsweredExtends(ks: seq<(Row, Row)>, leftKeys: seq<Expr>, scalar: seq<Row> -> Value, rows: Rows)
    ensures AllExtend(Answered(ks, leftKeys, scalar), rows, |leftKeys| + 1)
  {
  }

  /** The decorrelated join keeps every outer row exactly once and in order, and appends the joined
      value of the subquery for that row. */
  lemma ScalarStep(q: Select, sub: Stage, groups: seq<Expr>, args: seq<Expr>, fold: seq<(Row, Row)> -> Rows,
          leftKeys: seq<Expr>, child': Plan, s: Stage, from: From, done: seq<Bound>, outers: seq<Scope>, db: Database)
    requires ScalarPlanned(q, sub, groups, args, leftKeys, s, from, outers, db)
    requires Groups(fold, q.aggregates) && forall x :: |q.aggregates(x)| == q.count
    requires Represents(s, from, done, outers, db) && SameAnswers(q, groups, args, sub.plan, child', s, from, db)
    ensures var s' := ScalarJoin(s, GroupedPlan(q, groups, args, fold, child'), leftKeys);
            Represents(s', from, done, outers, db) && CarriesValue(s, s', q, from, outers, db)
  {
    var f := Answered(Keyed(groups, args, Denote(child', db)), leftKeys, Scalarize(q));
    var subplan := GroupedPlan(q, groups, args, fold, child');
    ScalarCarries(q, sub, groups, args, leftKeys, child', s, from, done, outers, db);
    ScalarJoinRows(s, q, groups, args, fold, child', leftKeys, db);
    ScalarJoinShape(s, subplan, leftKeys);
    AnsweredExtends(Keyed(groups, args, Denote(child', db)), leftKeys, Scalarize(q), Denote(s.plan, db));
    StillRepresents(s, ScalarJoin(s, subplan, leftKeys), |leftKeys| + 1, f, from, done, outers, db);
    GrownCarries(s, ScalarJoin(s, subplan, leftKeys), f, q, from, outers, db);
  }

  predicate AllExtend(f: Row -> Row, rows: Rows, n: nat) {
    forall i | 0 <= i < |rows| :: Extends(f(rows[i]), rows[i], |rows[i]| + n)
  }

  ghost predicate AllCarry(f: Row -> Row, rows: Rows, q: Select, from: From, outers: seq<Scope>, db: Database) {
    forall i | 0 <= i < |rows| :: CarriedRow(f(rows[i]), rows[i], q, from, outers, db)
  }

  lemma GrownCarries(s: Stage, s': Stage, f: Row -> Row, q: Select, from: From, outers: seq<Scope>, db: Database)
    requires Denote(s'.plan, db) == MapRows(f, Denote(s.plan, db))
    requires AllCarry(f, Denote(s.plan, db), q, from, outers, db)
    ensures CarriesValue(s, s', q, from, outers, db)
  {
    var rows, rows' := Denote(s.plan, db), Denote(s'.plan, db);
    forall i | 0 <= i < |rows| ensures CarriedRow(rows'[i], rows[i], q, from, outers, db) {
      assert CarriedRow(f(rows[i]), rows[i], q, from, outers, db);
    }
  }

  lemma ScalarJoinShape(s: Stage, subplan: Plan, leftKeys: seq<Expr>)
    ensures var s' := ScalarJoin(s, subplan, leftKeys);
            Width(s'.plan) == Width(s.plan) + (|leftKeys| + 1) && |s'.extra| == |s.extra| + (|leftKeys| + 1)
  {
  }

  /** The rows of the stage get the same answers from the restricted plan. */
  lemma RestrictionSame(q: Select, groups: seq<Expr>, args: seq<Expr>, leftKeys: seq<Expr>, child: Plan, child': Plan,
          cs: seq<Bound>, worthwhile: string -> bool, j: nat, s: Stage, from: From, done: seq<Bound>,
          outers: seq<Scope>, db: Database)
    requires |Correlation(q).pairs| == |groups|
    requires child' == child ||
             (j < |groups| && SplicedBy(child', groups, child, Correlation(q).pairs, cs, from, worthwhile, j))
    requires PlanAll(Outers(Correlation(q).pairs), SchemaOf(from) + s.extra) == Success(leftKeys)
    requires forall p | p in Correlation(q).pairs :: p.outer in SchemaOf(from)
    requires FromOk(from, db) && Represents(s, from, done, outers, db) && OrdinaryDone(cs, done, from)
    ensures SameAnswers(q, groups, args, child, child', s, from, db)
  {
    if child' != child {
      assert Correlation(q).pairs[j] in Correlation(q).pairs;
      OuterIndexed(Correlation(q).pairs, SchemaOf(from), s.extra, j);
    }
    var prefixes := MapRows(Prefix(|SchemaOf(from)|), Denote(s.plan, db));
    forall row | row in prefixes ensures SameAnswerAt(q, groups, args, child, child', from, row, db) {
      var i :| 0 <= i < |prefixes| && prefixes[i] == row;
      var row', tail := RowOf(s, from, done, outers, db, i);
      forall columns: Schema
        ensures AllPlanned(LocalConjuncts(cs, columns), SchemaOf(from)) &&
                AllTrue(LocalConjuncts(cs, columns), Around(from, row, outers), db)
      {
        LocalsDone(cs, done, from, columns, Around(from, row, outers), db);
      }
      SameAnswer(q, groups, args, child, child', cs, from, worthwhile, j, row, outers, db);
    }
  }
}
