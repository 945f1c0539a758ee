/** Planning a WHERE clause: correlated EXISTS and scalar subqueries become joins. */
module Decorrelation {
  import opened Expressions
  import opened Plans
  import opened Conjuncts
  import opened BoundQueries
  import opened GroupedJoin
  import opened KeySources

  /** A plan whose rows are rows of the FROM followed by `extra` columns. */
  datatype Stage = Stage(plan: Plan, extra: Schema)

  /** What planning does not decide: the cost guard's verdict per correlation column, and the order in
      which an aggregation emits its groups. */
  datatype Engine = Engine(
    worthwhile: string -> bool, grouping: (seq<Row> -> Row) -> (seq<(Row, Row)> -> Rows))

  // ---------------------------------------------------------------- subqueries inside an expression

  /** How deeply subqueries are nested. */
  function Nesting(e: Bound): nat
    decreases e, 0
  {
    match e
    case Conj(a, b) => Max(Nesting(a), Nesting(b))
    case Same(a, b) => Max(Nesting(a), Nesting(b))
    case Apply(_, args) => NestingAll(args, |args|)
    case Exists(q, _) => 1 + if q.where.None? then 0 else Nesting(q.where.value)
    case Scalar(_, q) => 1 + if q.where.None? then 0 else Nesting(q.where.value)
    case _ => 0
  }

  function NestingAll(es: seq<Bound>, n: nat): (m: nat)
    requires n <= |es|
    ensures forall i | 0 <= i < n :: Nesting(es[i]) <= m
    decreases es, n
  {
    if n == 0 then 0 else Max(NestingAll(es, n - 1), Nesting(es[n - 1]))
  }

  function Max(a: nat, b: nat): nat {
    if a < b then b else a
  }

  ghost predicate Within(es: seq<Bound>, bound: nat) {
    forall e | e in es :: Nesting(e) <= bound
  }

  /** The correlated scalar subqueries of a conjunct, without descending into subqueries. */
  function CollectScalars(e: Bound): (ss: seq<Bound>)
    ensures forall s | s in ss :: s.Scalar? && Nesting(s) <= Nesting(e)
    decreases e, 0
  {
    match e
    case Conj(a, b) => CollectScalars(a) + CollectScalars(b)
    case Same(a, b) => CollectScalars(a) + CollectScalars(b)
    case Apply(_, args) => CollectAll(args, |args|)
    case Scalar(_, _) => [e]
    case _ => []
  }

  function CollectAll(es: seq<Bound>, n: nat): (ss: seq<Bound>)
    requires n <= |es|
    ensures forall s | s in ss :: s.Scalar? && Nesting(s) <= NestingAll(es, n)
    decreases es, n
  {
    if n == 0 then [] else CollectAll(es, n - 1) + CollectScalars(es[n - 1])
  }

  predicate IsOrdinary(c: Bound) {
    !c.Exists? && CollectScalars(c) == []
  }

  predicate IsExists(c: Bound) {
    c.Exists?
  }

  predicate HasScalars(c: Bound) {
    !c.Exists? && CollectScalars(c) != []
  }

  function Choose(cs: seq<Bound>, keep: Bound -> bool): (r: seq<Bound>)
    ensures forall c :: c in r <==> c in cs && keep(c)
  {
    if cs == [] then [] else (if keep(cs[0]) then [cs[0]] else []) + Choose(cs[1..], keep)
  }

  // ---------------------------------------------------------------- planning

  function Inners(ps: seq<Pair>): seq<Bound> {
    seq(|ps|, i requires 0 <= i < |ps| => ps[i].inner)
  }

  function Outers(ps: seq<Pair>): seq<Bound> {
    seq(|ps|, i requires 0 <= i < |ps| => ColumnRef(ps[i].outer))
  }

  function Correlation(q: Select): (x: Extracted)
    ensures forall p | p in x.pairs :: !ContainsOuterRef(p.inner)
  {
    if q.where.None? then Extracted([], []) else Extract(q.where.value)
  }

  lemma {:induction false} ExtractNesting(e: Bound)
    ensures Within(Extract(e).remaining, Nesting(e))
  {
    if e.Conj? {
      ExtractNesting(e.left);
      ExtractNesting(e.right);
    }
  }

  lemma CorrelationNesting(e: Bound, bound: nat)
    requires (e.Exists? || e.Scalar?) && Nesting(e) <= bound
    ensures bound > 0 && Within(Correlation(e.query).remaining, bound - 1)
  {
    if e.query.where.Some? {
      ExtractNesting(e.query.where.value);
    }
  }

  /** Ordinary conjuncts filter the FROM first; each EXISTS then joins; each remaining conjunct joins
      its scalar subqueries and filters. `bound` is at least the nesting depth of the conjuncts. */
  function PlanWhere(cs: seq<Bound>, from: From, engine: Engine, ghost bound: nat): Result<Stage>
    requires Within(cs, bound)
    decreases bound, 4
  {
    var ordinary := Choose(cs, IsOrdinary);
    var es :- PlanAll(ordinary, SchemaOf(from));
    var base := if ordinary == [] then PlanFrom(from) else Filter(Conjoin(es), PlanFrom(from));
    var joined :- PlanExistsAll(Choose(cs, IsExists), Stage(base, []), from, engine, bound);
    PlanScalarConjuncts(Choose(cs, HasScalars), cs, joined, from, engine, bound)
  }

  function PlanExistsAll(es: seq<Bound>, s: Stage, from: From, engine: Engine, ghost bound: nat): Result<Stage>
    requires Within(es, bound) && forall e | e in es :: e.Exists?
    decreases bound, 3, |es|
  {
    if es == [] then Success(s)
    else
      var s' :- PlanCorrelatedExists(es[0], s, from, engine, bound);
      PlanExistsAll(es[1..], s', from, engine, bound)
  }

  /** A SEMI or ANTI join on the correlation keys. Aggregation, GROUP BY, HAVING and LIMIT are refused. */
  function PlanCorrelatedExists(e: Bound, s: Stage, from: From, engine: Engine, ghost bound: nat): Result<Stage>
    requires e.Exists? && Nesting(e) <= bound
    decreases bound, 2
  {
    var q := e.query;
    var x := Correlation(q);
    CorrelationNesting(e, bound);
    if q.shape.aggregated || q.shape.grouped || q.shape.having || q.shape.limited || x.pairs == [] then Failure
    else
      var sub :- PlanWhere(x.remaining, q.from, engine, bound - 1);
      var inner :- PlanAll(Inners(x.pairs), SchemaOf(q.from) + sub.extra);
      var leftKeys :- PlanAll(Outers(x.pairs), SchemaOf(from) + s.extra);
      Success(ExistsJoin(s, sub, inner, leftKeys, e.negated))
  }

  function ExistsJoin(s: Stage, sub: Stage, inner: seq<Expr>, leftKeys: seq<Expr>, negated: bool): Stage {
    Stage(HashJoin(if negated then ANTI
      else SEMI, s.plan, Project(inner, sub.plan), leftKeys, RightKeys(|inner|), Everything),
          s.extra)
  }

  function PlanScalarConjuncts(xs: seq<Bound>, cs: seq<Bound>, s: Stage, from: From, engine: Engine,
          ghost bound: nat): Result<Stage>
    requires Within(xs, bound)
    decreases bound, 3, |xs|
  {
    if xs == [] then Success(s)
    else
      var (s', resolved) :- PlanScalars(CollectScalars(xs[0]), cs, s, map[], from, engine, bound);
      var e :- PlanExpression(xs[0], SchemaOf(from) + s'.extra, resolved);
      PlanScalarConjuncts(xs[1..], cs, Stage(Filter(e, s'.plan), s'.extra), from, engine, bound)
  }

  function PlanScalars(scalars: seq<Bound>, cs: seq<Bound>, s: Stage, resolved: map<nat, nat>, from: From,
          engine: Engine, ghost bound: nat): Result<(Stage, map<nat, nat>)>
    requires Within(scalars, bound) && forall e | e in scalars :: e.Scalar?
    decreases bound, 2, |scalars|
  {
    if scalars == [] then Success((s, resolved))
    else
      var s' :- PlanCorrelatedScalar(scalars[0], cs, s, from, engine, bound);
      PlanScalars(scalars[1..], cs, s', resolved[scalars[0].id := |SchemaOf(from)| + |s'.extra| - 1], from, engine,
        bound)
  }

  /** Only a single ungrouped aggregate over plain correlation columns is accepted. */
  predicate Decorrelatable(q: Select) {
    && q.shape.items == 1 && q.shape.aggregated && !q.shape.grouped && !q.shape.having
    && !q.shape.sorted && !q.shape.limited && !q.shape.distinct
    && Correlation(q).pairs != []
    && (forall i | 0 <= i < |Correlation(q).pairs| :: Correlation(q).pairs[i].inner.ColumnRef?)
    && DistinctColumns(Inners(Correlation(q).pairs))
  }

  /** The group columns are read back by name, so no name may repeat. */
  predicate DistinctColumns(es: seq<Bound>)
    requires forall i | 0 <= i < |es| :: es[i].ColumnRef?
  {
    forall i, j | 0 <= i < j < |es| :: es[i].name != es[j].name
  }

  /** A LEFT join with the aggregate grouped by the correlation columns. */
  function PlanCorrelatedScalar(e: Bound, cs: seq<Bound>, s: Stage, from: From, engine: Engine,
          ghost bound: nat): Result<Stage>
    requires e.Scalar? && Nesting(e) <= bound
    decreases bound, 1
  {
    var q := e.query;
    var x := Correlation(q);
    CorrelationNesting(e, bound);
    if !Decorrelatable(q) then Failure
    else
      var sub :- PlanWhere(x.remaining, q.from, engine, bound - 1);
      var groups :- PlanAll(Inners(x.pairs), SchemaOf(q.from) + sub.extra);
      var args :- PlanAll(q.args, SchemaOf(q.from) + sub.extra);
      var grouped := GroupedPlan(q, groups, args, engine.grouping(q.aggregates), sub.plan);
      var restricted :- Restrict(grouped, x.pairs, 0, cs, from, engine.worthwhile);
      var leftKeys :- PlanAll(Outers(x.pairs), SchemaOf(from) + s.extra);
      Success(ScalarJoin(s, restricted, leftKeys))
  }

  /** The group columns, then the selected item computed from the aggregate columns. */
  function GroupedItems(q: Select, k: nat): seq<Expr> {
    seq(k, i requires 0 <= i < k => Column(0, i)) +
    [Call(q.item, seq(q.count, i requires 0 <= i < q.count => Column(0, k + i)))]
  }

  function GroupedPlan(q: Select, groups: seq<Expr>, args: seq<Expr>, fold: seq<(Row, Row)> -> Rows,
          child: Plan): Plan {
    Project(GroupedItems(q, |groups|), Aggregate(groups, args, |groups| + q.count, fold, child))
  }

  function Identity(w: nat): seq<Expr> {
    seq(w, i requires 0 <= i < w => Column(0, i))
  }

  /** The subplan is renamed by an identity projection first. */
  function ScalarJoin(s: Stage, subplan: Plan, leftKeys: seq<Expr>): Stage {
    var k := |leftKeys|;
    Stage(HashJoin(LEFT, s.plan, Project(Identity(k + 1), subplan), leftKeys, RightKeys(k), Everything),
          s.extra + seq(k + 1, _ => "__corr"))
  }

  lemma {:induction false} SplitNesting(e: Bound)
    ensures Within(SplitBound(e), Nesting(e))
  {
    if e.Conj? {
      SplitNesting(e.left);
      SplitNesting(e.right);
    }
  }

  function PlanWhereClause(where: Bound, from: From, engine: Engine): Result<Stage> {
    SplitNesting(where);
    PlanWhere(SplitBound(where), from, engine, Nesting(where))
  }

  // ---------------------------------------------------------------- restricting the aggregate's input

  /** Splice a SEMI join with the key source under the aggregation, below any projections. */
  function RestrictAggregateInput(p: Plan, i: nat, source: Plan, column: nat): Option<Plan> {
    match p
    case Aggregate(gs, args, w, fold, c) =>
      if i >= |gs| then None
      else Some(Aggregate(gs, args, w, fold, HashJoin(SEMI, c, source, [gs[i]], [Column(1, column)], Everything)))
    case Project(es, c) =>
      var c' := RestrictAggregateInput(c, i, source, column);
      if c'.None? then None else Some(Project(es, c'.value))
    case _ => None
  }

  /** The first correlation key with a usable source restricts the input. */
  function Restrict(p: Plan, pairs: seq<Pair>, i: nat, cs: seq<Bound>, from: From,
          worthwhile: string -> bool): Result<Plan>
    requires i <= |pairs|
    decreases |pairs| - i
  {
    if i == |pairs| then Success(p)
    else
      var ks :- BuildKeySource(cs, from, pairs[i].outer, worthwhile(pairs[i].outer));
      var p' := if ks.NoSource? then None else RestrictAggregateInput(p, i, ks.plan, ks.column);
      if p'.Some? then Success(p'.value) else Restrict(p, pairs, i + 1, cs, from, worthwhile)
  }
}
