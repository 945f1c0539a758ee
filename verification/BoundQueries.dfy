/** Bound queries as the planner receives them: expressions over names, with references to enclosing
    queries and nested correlated subqueries, and what they mean row by row. */
module BoundQueries {
  import opened Expressions
  import opened Plans

  type Schema = seq<string>

  datatype Option<+T> = None | Some(value: T)

  /** A FROM tree. `Derived` is a subquery, CTE or VALUES list: any plan with named columns. */
  datatype From =
    | Base(table: nat, columns: Schema)
    | Cross(left: From, right: From)
    | JoinOn(outer: bool, left: From, right: From, condition: Expr)
    | Derived(plan: Plan, columns: Schema)

  /** `OuterRef(d, c)` reads column `c` of the d-th enclosing query, counting from 1. Every operator
      other than AND and = is an `Apply`. `Exists` and `Scalar` are correlated subqueries; `id` is the
      identity of the node. */
  datatype Bound =
    | ColumnRef(name: string)
    | OuterRef(depth: nat, name: string)
    | Literal(value: Value)
    | Conj(left: Bound, right: Bound)
    | Same(left: Bound, right: Bound)
    | Apply(f: seq<Value> -> Value, args: seq<Bound>)
    | Exists(query: Select, negated: bool)
    | Scalar(id: nat, query: Select)

  /** The clauses that decide whether a subquery can be decorrelated. */
  datatype Shape = Shape(
    items: nat, aggregated: bool, grouped: bool, having: bool, sorted: bool, limited: bool, distinct: bool)

  /** A SELECT. `aggregates` computes `|aggregates(x)|` aggregate values from the evaluated `args` of
      the selected rows and `item` the selected value from them. */
  datatype Select = Select(
    from: From, where: Option<Bound>, shape: Shape,
    args: seq<Bound>, count: nat, aggregates: seq<Row> -> Row, item: seq<Value> -> Value)

  // ---------------------------------------------------------------- FROM trees

  function SchemaOf(t: From): Schema {
    match t
    case Base(_, cs) => cs
    case Cross(l, r) => SchemaOf(l) + SchemaOf(r)
    case JoinOn(_, l, r, _) => SchemaOf(l) + SchemaOf(r)
    case Derived(_, cs) => cs
  }

  const TRUE: Expr := Constant(Num(1))

  function PlanFrom(t: From): Plan {
    match t
    case Base(table, cs) => SeqScan(table, |cs|, TRUE, Everything)
    case Cross(l, r) => NestedLoopJoin(INNER, PlanFrom(l), PlanFrom(r), TRUE)
    case JoinOn(outer, l, r, cond) => NestedLoopJoin(if outer then LEFT else INNER, PlanFrom(l), PlanFrom(r), cond)
    case Derived(p, _) => p
  }

  function FromRows(t: From, db: Database): Rows {
    Denote(PlanFrom(t), db)
  }

  /** The plans of the tree produce rows of the width their schema says. */
  ghost predicate FromOk(t: From, db: Database) {
    match t
    case Base(table, cs) => AllWide(db(table), |cs|)
    case Cross(l, r) => FromOk(l, db) && FromOk(r, db)
    case JoinOn(_, l, r, _) => FromOk(l, db) && FromOk(r, db)
    case Derived(p, cs) => Width(p) == |cs| && AllWide(Denote(p, db), |cs|)
  }

  lemma {:induction false} FromWide(t: From, db: Database)
    requires FromOk(t, db)
    ensures Width(PlanFrom(t)) == |SchemaOf(t)|
    ensures AllWide(FromRows(t, db), |SchemaOf(t)|)
  {
    match t
    case Base(table, cs) =>
      FilterWide(Keep(TRUE), MapRows(Masked(LiveColumns(Everything)), db(table)), |cs|);
    case Cross(l, r) =>
      FromWide(l, db);
      FromWide(r, db);
      JoinWide(INNER, On(TRUE), FromRows(l, db), FromRows(r, db), |SchemaOf(l)|, |SchemaOf(r)|);
    case JoinOn(outer, l, r, cond) =>
      FromWide(l, db);
      FromWide(r, db);
      JoinWide(if outer then LEFT else INNER, On(cond), FromRows(l, db), FromRows(r, db), |SchemaOf(l)|, |SchemaOf(r)|);
    case Derived(_, _) =>
  }

  // ---------------------------------------------------------------- meaning

  datatype Scope = Scope(schema: Schema, row: Row)

  /** The position of the first column called `name`. */
  function FirstIndex(schema: Schema, name: string): (i: nat)
    requires name in schema
    ensures i < |schema| && schema[i] == name
  {
    if schema[0] == name then 0 else 1 + FirstIndex(schema[1..], name)
  }

  predicate OnlyAt(schema: Schema, name: string, i: nat) {
    forall j | 0 <= j < |schema| && schema[j] == name :: j == i
  }

  /** The position of the only column called `name`. A missing or repeated name is an error. */
  function ColumnIndex(schema: Schema, name: string): Result<nat> {
    if name in schema && OnlyAt(schema, name, FirstIndex(schema, name)) then Success(FirstIndex(schema, name))
    else Failure
  }

  function Lookup(s: Scope, name: string): Value {
    var i := ColumnIndex(s.schema, name);
    if i.Success? && i.value < |s.row| then s.row[i.value] else Null
  }

  /** The value of an expression, given the row of its own query and those of the enclosing ones. A
      subquery is evaluated afresh for the rows around it. */
  function Meaning(e: Bound, scopes: seq<Scope>, db: Database): Value
    decreases e, 0
  {
    match e
    case ColumnRef(name) => if 0 < |scopes| then Lookup(scopes[0], name) else Null
    case OuterRef(depth, name) => if depth < |scopes| then Lookup(scopes[depth], name) else Null
    case Literal(v) => v
    case Conj(a, b) => FromBool(Truth(Meaning(a, scopes, db)) && Truth(Meaning(b, scopes, db)))
    case Same(a, b) => FromBool(Passes(Equal, Meaning(a, scopes, db), Meaning(b, scopes, db)))
    case Apply(f, args) => f(seq(|args|, i requires 0 <= i < |args| => Meaning(args[i], scopes, db)))
    case Exists(q, negated) => FromBool((Selected(q, scopes, db) != []) != negated)
    case Scalar(_, q) => ScalarOf(q, ArgRows(q, scopes, Selected(q, scopes, db), db))
  }

  function ScalarOf(q: Select, args: seq<Row>): Value {
    q.item(q.aggregates(args))
  }

  /** The rows of a query's FROM that its WHERE keeps. */
  function Selected(q: Select, scopes: seq<Scope>, db: Database): Rows
    decreases q, 1
  {
    FilterRows(WhereTest(q, scopes, db), FromRows(q.from, db))
  }

  function WhereTest(q: Select, scopes: seq<Scope>, db: Database): Row -> bool
    decreases q, 0
  {
    row => q.where.None? || Truth(Meaning(q.where.value, [Scope(SchemaOf(q.from), row)] + scopes, db))
  }

  function ArgRow(q: Select, scopes: seq<Scope>, row: Row, db: Database): Row
    decreases q, 0
  {
    seq(|q.args|, i requires 0 <= i < |q.args| =>
      Meaning(q.args[i], [Scope(SchemaOf(q.from), row)] + scopes, db))
  }

  function ArgRows(q: Select, scopes: seq<Scope>, rows: Rows, db: Database): seq<Row>
    decreases q, 1
  {
    seq(|rows|, i requires 0 <= i < |rows| => ArgRow(q, scopes, rows[i], db))
  }

  // ---------------------------------------------------------------- planning an expression

  /** Some column in the expression belongs to a query further out. */
  predicate ContainsOuterRef(e: Bound) {
    match e
    case ColumnRef(_) => false
    case OuterRef(_, _) => true
    case Literal(_) => false
    case Conj(a, b) => ContainsOuterRef(a) || ContainsOuterRef(b)
    case Same(a, b) => ContainsOuterRef(a) || ContainsOuterRef(b)
    case Apply(_, args) => exists i | 0 <= i < |args| :: ContainsOuterRef(args[i])
    case Exists(_, _) => true
    case Scalar(_, _) => true
  }

  /** `resolved` gives the column holding the value of each scalar subquery already turned into a join.
      Any other reference to an enclosing query, and any other subquery, is refused. */
  function PlanExpression(e: Bound, schema: Schema, resolved: map<nat, nat>): Result<Expr> {
    match e
    case ColumnRef(name) =>
      var i :- ColumnIndex(schema, name);
      Success(Column(0, i))
    case OuterRef(_, _) => Failure
    case Literal(v) => Success(Constant(v))
    case Conj(a, b) =>
      var a' :- PlanExpression(a, schema, resolved);
      var b' :- PlanExpression(b, schema, resolved);
      Success(And(a', b'))
    case Same(a, b) =>
      var a' :- PlanExpression(a, schema, resolved);
      var b' :- PlanExpression(b, schema, resolved);
      Success(Compare(Equal, a', b'))
    case Apply(f, args) =>
      if forall i | 0 <= i < |args| :: PlanExpression(args[i], schema, resolved).Success? then
        Success(Call(f, seq(|args|, i requires 0 <= i < |args| => PlanExpression(args[i], schema, resolved).value)))
      else Failure
    case Exists(_, _) => Failure
    case Scalar(id, _) => if id in resolved then Success(Column(0, resolved[id])) else Failure
  }

  /** Every column the expression reads from its own query's row is in `schema`. */
  predicate Local(e: Bound, schema: Schema) {
    match e
    case ColumnRef(name) => name in schema
    case Conj(a, b) => Local(a, schema) && Local(b, schema)
    case Same(a, b) => Local(a, schema) && Local(b, schema)
    case Apply(_, args) => forall i | 0 <= i < |args| :: Local(args[i], schema)
    case _ => true
  }

  /** The resolved columns of `wide` hold the values of the subqueries they stand for. */
  ghost predicate Holding(e: Bound, resolved: map<nat, nat>, wide: Row, scopes: seq<Scope>, db: Database) {
    match e
    case Conj(a, b) => Holding(a, resolved, wide, scopes, db) && Holding(b, resolved, wide, scopes, db)
    case Same(a, b) => Holding(a, resolved, wide, scopes, db) && Holding(b, resolved, wide, scopes, db)
    case Apply(_, args) => forall i | 0 <= i < |args| :: Holding(args[i], resolved, wide, scopes, db)
    case Scalar(id, _) => id in resolved ==> resolved[id] < |wide| && wide[resolved[id]] == Meaning(e, scopes, db)
    case _ => true
  }

  lemma {:induction false} NothingResolved(e: Bound, wide: Row, scopes: seq<Scope>, db: Database)
    ensures Holding(e, map[], wide, scopes, db)
  {
    match e
    case Conj(a, b) =>
      NothingResolved(a, wide, scopes, db);
      NothingResolved(b, wide, scopes, db);
    case Same(a, b) =>
      NothingResolved(a, wide, scopes, db);
      NothingResolved(b, wide, scopes, db);
    case Apply(_, args) =>
      forall i | 0 <= i < |args| ensures Holding(args[i], map[], wide, scopes, db) {
        NothingResolved(args[i], wide, scopes, db);
      }
    case _ =>
  }

  lemma LookupPlanned(name: string, schema: Schema, extra: Schema, row: Row, tail: Row)
    requires |row| == |schema| && name in schema && ColumnIndex(schema + extra, name).Success?
    ensures ColumnIndex(schema, name) == ColumnIndex(schema + extra, name)
    ensures Eval(Column(0, ColumnIndex(schema + extra, name).value), row + tail, []) == Lookup(Scope(schema, row), name)
  {
    var i := ColumnIndex(schema + extra, name).value;
    forall k | 0 <= k < |schema| && schema[k] == name ensures k == i {
      assert (schema + extra)[k] == name;
    }
    assert FirstIndex(schema, name) == i;
  }

  /** A planned expression, evaluated on a row that may have been widened since, has the value the
      bound expression has for the row of the FROM, whatever the enclosing queries' rows are. */
  lemma {:induction false} PlannedMeaning(e: Bound, schema: Schema, extra: Schema, resolved: map<nat, nat>, row: Row,
          tail: Row, outers: seq<Scope>, db: Database)
    requires Local(e, schema) && |row| == |schema|
    requires PlanExpression(e, schema + extra, resolved).Success?
    requires Holding(e, resolved, row + tail, [Scope(schema, row)] + outers, db)
    ensures Eval(PlanExpression(e, schema + extra, resolved).value, row + tail, []) ==
            Meaning(e, [Scope(schema, row)] + outers, db)
  {
    match e
    case ColumnRef(name) => LookupPlanned(name, schema, extra, row, tail);
    case OuterRef(_, _) =>
    case Literal(_) =>
    case Conj(a, b) =>
      PlannedMeaning(a, schema, extra, resolved, row, tail, outers, db);
      PlannedMeaning(b, schema, extra, resolved, row, tail, outers, db);
    case Same(a, b) =>
      PlannedMeaning(a, schema, extra, resolved, row, tail, outers, db);
      PlannedMeaning(b, schema, extra, resolved, row, tail, outers, db);
    case Apply(f, args) =>
      var scopes := [Scope(schema, row)] + outers;
      var args' := PlanExpression(e, schema + extra, resolved).value.args;
      forall i | 0 <= i < |args| ensures Eval(args'[i], row + tail, []) == Meaning(args[i], scopes, db) {
        PlannedMeaning(args[i], schema, extra, resolved, row, tail, outers, db);
      }
      assert seq(|args'|, i requires 0 <= i < |args'| => Eval(args'[i], row + tail, [])) ==
             seq(|args|, i requires 0 <= i < |args| => Meaning(args[i], scopes, db));
    case Exists(_, _) =>
    case Scalar(_, _) =>
  }

  /** The same for an expression of a query whose rows were not widened by a resolved subquery. */
  lemma PlannedPlain(e: Bound, schema: Schema, extra: Schema, row: Row, tail: Row, outers: seq<Scope>, db: Database)
    requires Local(e, schema) && |row| == |schema|
    requires PlanExpression(e, schema + extra, map[]).Success?
    ensures Eval(PlanExpression(e, schema + extra, map[]).value, row + tail, []) ==
            Meaning(e, [Scope(schema, row)] + outers, db)
  {
    NothingResolved(e, row + tail, [Scope(schema, row)] + outers, db);
    PlannedMeaning(e, schema, extra, map[], row, tail, outers, db);
  }

  // ---------------------------------------------------------------- conjuncts

  function SplitBound(e: Bound): (cs: seq<Bound>)
    ensures forall c | c in cs :: !c.Conj?
  {
    if e.Conj? then SplitBound(e.left) + SplitBound(e.right) else [e]
  }

  /** The clause that holds when all the conjuncts do, absent when there are none. */
  function ConjoinBound(cs: seq<Bound>): Option<Bound> {
    if cs == [] then None
    else if |cs| == 1 then Some(cs[0])
    else Some(Conj(ConjoinBound(cs[..|cs| - 1]).value, cs[|cs| - 1]))
  }

  /** Rebuilding and splitting again gives the conjuncts back. */
  lemma {:induction false} SplitConjoin(cs: seq<Bound>)
    requires cs != [] && forall c | c in cs :: !c.Conj?
    ensures SplitBound(ConjoinBound(cs).value) == cs
  {
    if |cs| > 1 {
      SplitConjoin(cs[..|cs| - 1]);
      assert cs == cs[..|cs| - 1] + [cs[|cs| - 1]];
    }
  }

  ghost predicate AllTrue(cs: seq<Bound>, scopes: seq<Scope>, db: Database) {
    forall c | c in cs :: Truth(Meaning(c, scopes, db))
  }

  lemma {:induction false} SplitTrue(e: Bound, scopes: seq<Scope>, db: Database)
    ensures Truth(Meaning(e, scopes, db)) <==> AllTrue(SplitBound(e), scopes, db)
  {
    if e.Conj? {
      SplitTrue(e.left, scopes, db);
      SplitTrue(e.right, scopes, db);
    }
  }

  // ---------------------------------------------------------------- correlation equalities

  /** `outer` is a column of the enclosing query, `inner` an expression of the subquery. */
  datatype Pair = Pair(outer: string, inner: Bound)

  datatype Extracted = Extracted(pairs: seq<Pair>, remaining: seq<Bound>)

  function Together(a: Extracted, b: Extracted): Extracted {
    Extracted(a.pairs + b.pairs, a.remaining + b.remaining)
  }

  /** Is this `inner = outer`, with the outer side one level up and the inner side free of outer
      references? */
  predicate Correlates(outer: Bound, inner: Bound) {
    outer.OuterRef? && !inner.OuterRef? && outer.depth == 1 && !ContainsOuterRef(inner)
  }

  function Extract(e: Bound): (x: Extracted)
    ensures forall c | c in x.remaining :: !c.Conj?
    ensures forall p | p in x.pairs :: !ContainsOuterRef(p.inner)
  {
    match e
    case Conj(a, b) => Together(Extract(a), Extract(b))
    case Same(a, b) =>
      if Correlates(a, b) then Extracted([Pair(a.name, b)], [])
      else if Correlates(b, a) then Extracted([Pair(b.name, a)], [])
      else Extracted([], [e])
    case _ => Extracted([], [e])
  }

  /** The loop-free walk of the source: it appends to two lists as it goes. */
  method ExtractCorrelation(e: Bound, pairs: seq<Pair>, remaining: seq<Bound>)
    returns (pairs': seq<Pair>, remaining': seq<Bound>)
    ensures pairs' == pairs + Extract(e).pairs && remaining' == remaining + Extract(e).remaining
    decreases e
  {
    hide ContainsOuterRef;
    if e.Conj? {
      pairs', remaining' := ExtractCorrelation(e.left, pairs, remaining);
      pairs', remaining' := ExtractCorrelation(e.right, pairs', remaining');
      return;
    }
    if e.Same? {
      if e.left.OuterRef? != e.right.OuterRef? {
        var outer := if e.left.OuterRef? then e.left else e.right;
        var inner := if e.left.OuterRef? then e.right else e.left;
        if outer.depth == 1 && !ContainsOuterRef(inner) {
          return pairs + [Pair(outer.name, inner)], remaining;
        }
      }
    }
    return pairs, remaining + [e];
  }

  ghost predicate PairTrue(p: Pair, scopes: seq<Scope>, db: Database)
    requires |scopes| >= 2
  {
    Passes(Equal, Lookup(scopes[1], p.outer), Meaning(p.inner, scopes, db))
  }

  ghost predicate PairsTrue(ps: seq<Pair>, scopes: seq<Scope>, db: Database)
    requires |scopes| >= 2
  {
    forall p | p in ps :: PairTrue(p, scopes, db)
  }

  /** A WHERE clause is true exactly when its correlation equalities and its remaining conjuncts are. */
  lemma {:induction false} ExtractExact(e: Bound, scopes: seq<Scope>, db: Database)
    requires |scopes| >= 2
    ensures Truth(Meaning(e, scopes, db)) <==>
            PairsTrue(Extract(e).pairs, scopes, db) && AllTrue(Extract(e).remaining, scopes, db)
  {
    if e.Conj? {
      ExtractExact(e.left, scopes, db);
      ExtractExact(e.right, scopes, db);
    } else if e.Same? && (Correlates(e.left, e.right) || Correlates(e.right, e.left)) {
      var p := Extract(e).pairs[0];
      assert PairTrue(p, scopes, db) == Truth(Meaning(e, scopes, db));
    } else {
      assert Extract(e).remaining[0] == e;
    }
  }
}
