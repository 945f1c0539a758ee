/** Why a correlated scalar subquery may be replaced by a LEFT join with a grouped aggregate. */
module ScalarSound {
  import opened Expressions
  import opened Plans
  import opened JoinAlgebra
  import opened BoundQueries
  import opened GroupedJoin
  import opened KeySources
  import opened Decorrelation
  import opened DecorrelationSound

  function Scalarize(q: Select): seq<Row> -> Value {
    args => ScalarOf(q, args)
  }

  /** The value the LEFT join supplies: NULL when the subquery selects nothing for this row, its
      scalar otherwise. */
  function JoinedValue(q: Select, scopes: seq<Scope>, db: Database): Value {
    var rows := Selected(q, scopes, db);
    if rows == [] then Null else ScalarOf(q, ArgRows(q, scopes, rows, db))
  }

  /** The joined value is the subquery's value for this row if and only if the subquery selects some
      row or its aggregate is NULL on none. */
  lemma JoinedValueExact(id: nat, q: Select, scopes: seq<Scope>, db: Database)
    ensures JoinedValue(q, scopes, db) == Meaning(Scalar(id, q), scopes, db) <==>
            Selected(q, scopes, db) != [] || ScalarOf(q, []) == Null
  {
    if Selected(q, scopes, db) == [] {
      assert ArgRows(q, scopes, [], db) == [];
    }
  }

  // ---------------------------------------------------------------- the grouped subplan

  lemma GroupedItemsRead(q: Select, key: Row, agg: Row)
    requires |agg| == q.count
    ensures EvalAll(GroupedItems(q, |key|), key + agg, []) == key + [q.item(agg)]
  {
    var k, row := |key|, key + agg;
    var items := GroupedItems(q, k);
    var cols := seq(q.count, i requires 0 <= i < q.count => Column(0, k + i));
    assert seq(|cols|, i requires 0 <= i < |cols| => Eval(cols[i], row, [])) == agg;
    assert Eval(items[k], row, []) == q.item(agg);
    forall i | 0 <= i < k ensures Eval(items[i], row, []) == key[i] {
    }
  }

  lemma IdentityReads(row: Row)
    ensures EvalAll(Identity(|row|), row, []) == row
  {
  }

  /** The renamed subplan holds one row per group: the group key and the scalar of its rows. */
  lemma ReducedGroups(q: Select, groups: seq<Expr>, args: seq<Expr>, fold: seq<(Row, Row)> -> Rows, child: Plan,
          db: Database)
    returns (keys: seq<Row>)
    requires Groups(fold, q.aggregates) && forall x :: |q.aggregates(x)| == q.count
    ensures Reduced(Denote(Project(Identity(|groups| + 1), GroupedPlan(q, groups, args, fold, child)), db),
                    Keyed(groups, args, Denote(child, db)), Scalarize(q), keys, |groups|)
  {
    var ks := Keyed(groups, args, Denote(child, db));
    assert IsGrouping(fold, q.aggregates, ks);
    keys :| GroupsAs(fold(ks), ks, q.aggregates, keys);
    var aggregate := Aggregate(groups, args, |groups| + q.count, fold, child);
    assert Denote(aggregate, db) == fold(ks);
    var grouped := GroupedPlan(q, groups, args, fold, child);
    assert Denote(grouped, db) == MapRows(Evaluated(GroupedItems(q, |groups|)), fold(ks));
    var rows := Denote(Project(Identity(|groups| + 1), grouped), db);
    assert rows == MapRows(Evaluated(Identity(|groups| + 1)), Denote(grouped, db));
    forall i | 0 <= i < |rows| ensures ReducedRow(rows[i], ks, Scalarize(q), keys[i], |groups|) {
      var key := keys[i];
      assert Listed(keys, ks, key);
      var j := GroupHasRow(groups, args, Denote(child, db), key);
      var agg := q.aggregates(ArgsWith(ks, key));
      assert fold(ks)[i] == key + agg;
      GroupedItemsRead(q, key, agg);
      IdentityReads(key + [q.item(agg)]);
    }
  }

  // ---------------------------------------------------------------- the rows of a group

  function ArgOf(q: Select, scopes: seq<Scope>, db: Database): Row -> Row {
    row => ArgRow(q, scopes, row, db)
  }

  lemma NonNullMatch(key: Row, other: Row)
    requires |key| == |other| && NonNull(key)
    ensures KeysMatch(key, other) <==> key == other
  {
  }

  lemma ArgsEvaluated(q: Select, sub: Stage, args: seq<Expr>, row: Row, tail: Row, scopes: seq<Scope>, db: Database)
    requires |row| == |SchemaOf(q.from)| && PlanAll(q.args, SchemaOf(q.from) + sub.extra) == Success(args)
    requires forall a | a in q.args :: Local(a, SchemaOf(q.from))
    ensures EvalAll(args, row + tail, []) == ArgRow(q, scopes, row, db)
  {
    forall i | 0 <= i < |q.args|
      ensures Eval(args[i], row + tail, []) == Meaning(q.args[i], [Scope(SchemaOf(q.from), row)] + scopes, db)
    {
      assert q.args[i] in q.args;
      PlannedAll(q.args, SchemaOf(q.from), sub.extra, args, row, tail, scopes, db, i);
    }
  }

  /** What planning the subquery produced: the group keys and the aggregate arguments. */
  ghost predicate Planned(q: Select, sub: Stage, groups: seq<Expr>, args: seq<Expr>) {
    && PlanAll(Inners(Correlation(q).pairs), SchemaOf(q.from) + sub.extra) == Success(groups)
    && PlanAll(q.args, SchemaOf(q.from) + sub.extra) == Success(args)
    && (forall p | p in Correlation(q).pairs :: Local(p.inner, SchemaOf(q.from)))
    && (forall a | a in q.args :: Local(a, SchemaOf(q.from)))
  }

  lemma GroupRow(q: Select, sub: Stage, groups: seq<Expr>, args: seq<Expr>, outer: Scope, outers: seq<Scope>,
          db: Database, j: nat)
    requires Represents(sub, q.from, Correlation(q).remaining, [outer] + outers, db) && Planned(q, sub, groups, args)
    requires NonNull(KeyRow(Correlation(q).pairs, outer)) && j < |Denote(sub.plan, db)|
    ensures var r := Denote(sub.plan, db)[j];
            var prefix := Prefix(|SchemaOf(q.from)|)(r);
            (EvalAll(groups, r, []) == KeyRow(Correlation(q).pairs, outer)) == PairTest(q, outer, outers, db)(prefix) &&
            EvalAll(args, r, []) == ArgOf(q, [outer] + outers, db)(prefix)
  {
    KeysMeet(q, sub, groups, outer, outers, db, j);
    NonNullMatch(KeyRow(Correlation(q).pairs, outer), EvalAll(groups, Denote(sub.plan, db)[j], []));
    var row, tail := RowOf(sub, q.from, Correlation(q).remaining, [outer] + outers, db, j);
    ArgsEvaluated(q, sub, args, row, tail, [outer] + outers, db);
  }

  /** For a non-NULL key, the group with that key holds the arguments of the rows the subquery selects
      for an outer row with that key. */
  lemma GroupIsSelected(q: Select, sub: Stage, groups: seq<Expr>, args: seq<Expr>, outer: Scope, outers: seq<Scope>,
          db: Database)
    requires Represents(sub, q.from, Correlation(q).remaining, [outer] + outers, db) && Planned(q, sub, groups, args)
    requires NonNull(KeyRow(Correlation(q).pairs, outer))
    ensures ArgsWith(Keyed(groups, args, Denote(sub.plan, db)), KeyRow(Correlation(q).pairs, outer)) ==
            ArgRows(q, [outer] + outers, Selected(q, [outer] + outers, db), db)
  {
    var rows, w, key := Denote(sub.plan, db), |SchemaOf(q.from)|, KeyRow(Correlation(q).pairs, outer);
    var test, arg := PairTest(q, outer, outers, db), ArgOf(q, [outer] + outers, db);
    forall j | 0 <= j < |rows|
      ensures (EvalAll(groups, rows[j], []) == key) == test(Prefix(w)(rows[j]))
      ensures EvalAll(args, rows[j], []) == arg(Prefix(w)(rows[j]))
    {
      GroupRow(q, sub, groups, args, outer, outers, db, j);
    }
    ArgsMeet(groups, args, rows, key, w, test, arg);
    SelectedByKeys(q, sub, outer, outers, db);
    var chosen := Selected(q, [outer] + outers, db);
    assert MapRows(arg, chosen) == ArgRows(q, [outer] + outers, chosen, db);
  }

  /** For a NULL key the subquery selects nothing. */
  lemma NullSelectsNothing(q: Select, sub: Stage, groups: seq<Expr>, args: seq<Expr>, outer: Scope, outers: seq<Scope>,
          db: Database)
    requires Represents(sub, q.from, Correlation(q).remaining, [outer] + outers, db) && Planned(q, sub, groups, args)
    requires !NonNull(KeyRow(Correlation(q).pairs, outer))
    ensures Selected(q, [outer] + outers, db) == []
  {
    var prefixes := MapRows(Prefix(|SchemaOf(q.from)|), Denote(sub.plan, db));
    SelectedByKeys(q, sub, outer, outers, db);
    forall j | 0 <= j < |prefixes| ensures !PairTest(q, outer, outers, db)(prefixes[j]) {
      KeysMeet(q, sub, groups, outer, outers, db, j);
    }
    FilterNonempty(PairTest(q, outer, outers, db), prefixes);
  }

  /** What the LEFT join appends to a row ends in the joined value. */
  lemma AnswerValue(q: Select, sub: Stage, groups: seq<Expr>, args: seq<Expr>, outer: Scope, outers: seq<Scope>,
          db: Database)
    requires Represents(sub, q.from, Correlation(q).remaining, [outer] + outers, db) && Planned(q, sub, groups, args)
    ensures var key := KeyRow(Correlation(q).pairs, outer);
            Answer(Keyed(groups, args, Denote(sub.plan, db)), key, Scalarize(q))[|key|] ==
            JoinedValue(q, [outer] + outers, db)
  {
    var key := KeyRow(Correlation(q).pairs, outer);
    if NonNull(key) {
      GroupIsSelected(q, sub, groups, args, outer, outers, db);
    } else {
      NullSelectsNothing(q, sub, groups, args, outer, outers, db);
    }
  }

  // ---------------------------------------------------------------- restricting by a key source

  function Spliced(child: Plan, source: Plan, column: nat, g: Expr): Plan {
    HashJoin(SEMI, child, source, [g], [Column(1, column)], Everything)
  }

  /** Some row of the source has this value in its key column. */
  ghost predicate Supplies(source: Rows, column: nat, v: Value) {
    exists r :: r in source && column < |r| && r[column] == v
  }

  lemma SplicedRows(child: Plan, source: Plan, column: nat, g: Expr, db: Database)
    ensures Denote(Spliced(child, source, column, g), db) ==
            FilterRows(HasMatch(OnKeys([g], [Column(1, column)]), Denote(source, db)), Denote(child, db))
  {
    var on := OnKeys([g], [Column(1, column)]);
    var ls, rs := Denote(child, db), Denote(source, db);
    HashJoinRows(SEMI, child, source, [g], [Column(1, column)], db);
    SemiIsFilter(on, ls, rs, Width(source));
  }

  lemma SuppliedMatches(g: Expr, column: nat, row: Row, source: Rows)
    requires Eval(g, row, []) != Null && Supplies(source, column, Eval(g, row, []))
    ensures HasMatch(OnKeys([g], [Column(1, column)]), source)(row)
  {
    var r :| r in source && column < |r| && r[column] == Eval(g, row, []);
    var j :| 0 <= j < |source| && source[j] == r;
    MatchesSome(OnKeys([g], [Column(1, column)]), row, source, j);
  }

  /** Restricting the input to the keys of a source that supplies this key leaves its group alone. */
  lemma RestrictedGroup(groups: seq<Expr>, args: seq<Expr>, child: Plan, source: Plan, column: nat, i: nat, key: Row,
          db: Database)
    requires i < |groups| == |key| && NonNull(key) && Supplies(Denote(source, db), column, key[i])
    ensures ArgsWith(Keyed(groups, args, Denote(Spliced(child, source, column, groups[i]), db)), key) ==
            ArgsWith(Keyed(groups, args, Denote(child, db)), key)
  {
    var keep := HasMatch(OnKeys([groups[i]], [Column(1, column)]), Denote(source, db));
    var rows := Denote(child, db);
    SplicedRows(child, source, column, groups[i], db);
    forall j | 0 <= j < |rows| && EvalAll(groups, rows[j], []) == key ensures keep(rows[j]) {
      assert EvalAll(groups, rows[j], [])[i] == key[i];
      SuppliedMatches(groups[i], column, rows[j], Denote(source, db));
    }
    ArgsRestricted(groups, args, rows, key, keep);
  }
}
