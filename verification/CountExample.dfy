/** The condition of `ScalarDecorrelationExact` is not always met: the planner also accepts COUNT. */
module CountExample {
  import opened Expressions
  import opened Plans
  import opened BoundQueries
  import opened GroupedJoin
  import opened KeySources
  import opened Decorrelation
  import opened DecorrelationSound
  import opened WhereTheorem

  const OUTER := Base(0, ["o.k"])
  const INNER := Base(1, ["i.k"])

  function CountRows(rows: seq<Row>): Row {
    [Num(|rows|)]
  }

  function FirstItem(vs: seq<Value>): Value {
    if vs == [] then Null else vs[0]
  }

  /** SELECT count(1) FROM i WHERE i.k = o.k */
  const COUNT := Select(INNER, Some(Same(ColumnRef("i.k"), OuterRef(1, "o.k"))),
                        Shape(1, true, false, false, false, false, false), [Literal(Num(1))], 1, CountRows, FirstItem)

  const ENGINE := Engine((_: string) => false, (a: seq<Row> -> Row) => GroupFold(a))

  /** One outer row and no inner row. */
  function Tables(t: nat): Rows {
    if t == 0 then [[Num(1)]] else []
  }

  lemma CountExtracted()
    ensures Correlation(COUNT) == Extracted([Pair("o.k", ColumnRef("i.k"))], [])
  {
  }

  lemma CountPlanned()
    ensures Nesting(Scalar(0, COUNT)) <= 1
    ensures PlanCorrelatedScalar(Scalar(0, COUNT), [], Stage(PlanFrom(OUTER), []), OUTER, ENGINE, 1).Success?
  {
    CountExtracted();
    var x := Correlation(COUNT);
    CorrelationNesting(Scalar(0, COUNT), 1);
    assert Inners(x.pairs) == [ColumnRef("i.k")];
    assert Outers(x.pairs) == [ColumnRef("o.k")];
    assert Decorrelatable(COUNT);
    assert PlanWhere([], INNER, ENGINE, 0) == Success(Stage(PlanFrom(INNER), []));
    NamePlanned("i.k");
    NamePlanned("o.k");
    assert PlanAll([Literal(Num(1))], ["i.k"] + []).Success?;
  }

  lemma NamePlanned(name: string)
    ensures PlanAll([ColumnRef(name)], [name] + []).Success?
  {
    assert [name] + [] == [name];
    assert FirstIndex([name], name) == 0;
  }

  lemma CountOk()
    ensures SelectOk(COUNT, ["o.k"], Tables) && EngineOk(ENGINE)
  {
    forall a: seq<Row> -> Row ensures Groups(ENGINE.grouping(a), a) {
      FirstSeenGroups(a);
    }
  }

  /** The outer row's own count is 0, but the plan gives it NULL. */
  lemma CountDecorrelationDiffers()
    ensures PlanCorrelatedScalar(Scalar(0, COUNT), [], Stage(PlanFrom(OUTER), []), OUTER, ENGINE, 1).Success?
    ensures var rows :=
            Denote(PlanCorrelatedScalar(Scalar(0, COUNT), [], Stage(PlanFrom(OUTER), []), OUTER, ENGINE, 1).value.plan,
            Tables);
            && Meaning(Scalar(0, COUNT), [Scope(["o.k"], [Num(1)])], Tables) == Num(0)
            && |rows| == 1 && rows[0] != [] && rows[0][|rows[0]| - 1] != Num(0)
  {
    hide PlanCorrelatedScalar, SelectOk, EngineOk;
    var s := Stage(PlanFrom(OUTER), []);
    CountPlanned();
    CountOk();
    BaseStage(OUTER, [], Tables);
    BaseRows(0, ["o.k"], Tables);
    BaseRows(1, ["i.k"], Tables);
    assert Underway([], s, OUTER, ENGINE, [], [], Tables);
    ScalarDecorrelationExact(Scalar(0, COUNT), [], s, OUTER, ENGINE, 1, [], [], Tables, 0);
    var scopes := [Scope(["o.k"], [Num(1)])];
    assert Around(OUTER, Prefix(1)([Num(1)]), []) == scopes;
    assert Selected(COUNT, scopes, Tables) == [];
    assert ArgRows(COUNT, scopes, [], Tables) == [];
  }
}
