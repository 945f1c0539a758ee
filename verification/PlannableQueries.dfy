/** Which WHERE clauses can be planned: a condition on the names, the clauses and the shapes of a query and
    its subqueries, met exactly by the clauses the planner accepts. */
module PlannableQueries {
  import opened BoundQueries
  import opened KeySources
  import opened Decorrelation

  // ---------------------------------------------------------------- names

  /** Exactly one column has the name. */
  ghost predicate Once(schema: Schema, name: string) {
    exists i :: 0 <= i < |schema| && schema[i] == name && OnlyAt(schema, name, i)
  }

  /** The name the columns of a joined subquery get. */
  const JOINED: string := "__corr"

  /** The name can be read, also behind the columns of joined subqueries. */
  ghost predicate CanRead(name: string, schema: Schema, joined: bool) {
    Once(schema, name) && (joined ==> name != JOINED)
  }

  /** Every name of the expression can be read, and it refers to no enclosing query. Scalar subqueries are
      in place where they have been joined before. */
  ghost predicate Readable(e: Bound, schema: Schema, joined: bool, scalars: bool) {
    match e
    case ColumnRef(name) => CanRead(name, schema, joined)
    case OuterRef(_, _) => false
    case Literal(_) => true
    case Conj(a, b) => Readable(a, schema, joined, scalars) && Readable(b, schema, joined, scalars)
    case Same(a, b) => Readable(a, schema, joined, scalars) && Readable(b, schema, joined, scalars)
    case Apply(_, args) => forall i | 0 <= i < |args| :: Readable(args[i], schema, joined, scalars)
    case Exists(_, _) => false
    case Scalar(_, _) => scalars
  }

  // ---------------------------------------------------------------- subqueries

  function Clauses(q: Select): seq<Bound> {
    if q.where.None? then [] else SplitBound(q.where.value)
  }

  /** An equality between a column of the query one level up and an expression of the subquery. */
  predicate Links(c: Bound) {
    c.Same? && (Correlates(c.left, c.right) || Correlates(c.right, c.left))
  }

  predicate Stays(c: Bound) {
    !Links(c)
  }

  function OuterName(c: Bound): string
    requires Links(c)
  {
    if Correlates(c.left, c.right) then c.left.name else c.right.name
  }

  function InnerSide(c: Bound): Bound
    requires Links(c)
  {
    if Correlates(c.left, c.right) then c.right else c.left
  }

  /** The clauses that link the subquery to the query around it, and the others. */
  function LinksOf(q: Select): (ls: seq<Bound>)
    ensures forall c | c in ls :: Links(c)
  {
    Choose(Clauses(q), Links)
  }

  function RestOf(q: Select): seq<Bound> {
    Choose(Clauses(q), Stays)
  }

  ghost predicate AnyScalars(cs: seq<Bound>) {
    exists c :: c in cs && HasScalars(c)
  }

  lemma RestNesting(e: Bound, bound: nat)
    requires (e.Exists? || e.Scalar?) && Nesting(e) <= bound
    ensures bound > 0 && Within(RestOf(e.query), bound - 1)
  {
    if e.query.where.Some? {
      SplitNesting(e.query.where.value);
    }
  }

  // ---------------------------------------------------------------- the condition

  /** Ordinary conjuncts are readable; every EXISTS and every scalar subquery has a form that can be joined;
      a conjunct is readable once its scalar subqueries are joined. */
  ghost predicate WhereOk(cs: seq<Bound>, from: From, bound: nat)
    requires Within(cs, bound)
    decreases bound, 3
  {
    && (forall c | c in cs && IsOrdinary(c) :: Readable(c, SchemaOf(from), false, false))
    && (forall c | c in cs && c.Exists? :: ExistsOk(c, from, bound))
    && var xs := Choose(cs, HasScalars);
       forall j | 0 <= j < |xs| :: ConjunctOk(xs[j], from, j > 0, bound)
  }

  ghost predicate ConjunctOk(c: Bound, from: From, joined: bool, bound: nat)
    requires Nesting(c) <= bound
    decreases bound, 2, 1
  {
    ScalarsOk(CollectScalars(c), from, joined, bound) && Readable(c, SchemaOf(from), true, true)
  }

  ghost predicate ExistsOk(e: Bound, from: From, bound: nat)
    requires e.Exists? && Nesting(e) <= bound
    decreases bound, 1
  {
    var shape := e.query.shape;
    RestNesting(e, bound);
    !shape.aggregated && !shape.grouped && !shape.having && !shape.limited &&
    Linked(e.query, SchemaOf(from), false, bound - 1)
  }

  /** The first subquery finds the rows as they are, the others find them joined. */
  ghost predicate ScalarsOk(scalars: seq<Bound>, from: From, joined: bool, bound: nat)
    requires Within(scalars, bound) && forall e | e in scalars :: e.Scalar?
    decreases bound, 2, 0
  {
    forall k | 0 <= k < |scalars| :: ScalarOk(scalars[k], from, joined || k > 0, bound)
  }

  /** One ungrouped aggregate of readable arguments, linked by plain columns of different names. */
  ghost predicate ScalarOk(e: Bound, from: From, joined: bool, bound: nat)
    requires e.Scalar? && Nesting(e) <= bound
    decreases bound, 1
  {
    var q := e.query;
    var shape := q.shape;
    RestNesting(e, bound);
    && shape.items == 1 && shape.aggregated && !shape.grouped && !shape.having && !shape.sorted && !shape.limited
    && !shape.distinct
    && (forall c | c in LinksOf(q) :: InnerSide(c).ColumnRef?)
    && (forall i, j | 0 <= i < j < |LinksOf(q)| :: InnerSide(LinksOf(q)[i]) != InnerSide(LinksOf(q)[j]))
    && (forall i | 0 <= i < |q.args| :: Readable(q.args[i], SchemaOf(q.from), AnyScalars(RestOf(q)), false))
    && Linked(q, SchemaOf(from), joined, bound - 1)
  }

  /** Some equality links the subquery to the query around it, both its sides are readable, and the rest of
      the subquery's WHERE can be planned. */
  ghost predicate Linked(q: Select, outer: Schema, joined: bool, bound: nat)
    requires Within(RestOf(q), bound)
    decreases bound, 4
  {
    && LinksOf(q) != [] && WhereOk(RestOf(q), q.from, bound)
    && forall c | c in LinksOf(q) ::
         Readable(InnerSide(c), SchemaOf(q.from), AnyScalars(RestOf(q)), false) && CanRead(OuterName(c), outer, joined)
  }

  ghost predicate Plannable(where: Bound, from: From) {
    SplitNesting(where);
    WhereOk(SplitBound(where), from, Nesting(where))
  }

  // ---------------------------------------------------------------- names resolve

  /** The columns a stage has behind those of the FROM: none, or at least two of a joined subquery. */
  ghost predicate Widened(extra: Schema, joined: bool) {
    (forall i | 0 <= i < |extra| :: extra[i] == JOINED) && if joined then |extra| >= 2 else extra == []
  }

  lemma OnceIndex(schema: Schema, name: string)
    ensures ColumnIndex(schema, name).Success? <==> Once(schema, name)
  {
    if Once(schema, name) {
      var i :| 0 <= i < |schema| && schema[i] == name && OnlyAt(schema, name, i);
      assert FirstIndex(schema, name) == i;
    }
  }

  lemma ReadIndex(schema: Schema, extra: Schema, joined: bool, name: string)
    requires Widened(extra, joined)
    ensures ColumnIndex(schema + extra, name).Success? <==> CanRead(name, schema, joined)
  {
    var wide := schema + extra;
    OnceIndex(wide, name);
    if Once(wide, name) {
      var i :| 0 <= i < |wide| && wide[i] == name && OnlyAt(wide, name, i);
      assert joined ==> wide[|schema|] == JOINED && wide[|schema| + 1] == JOINED;
      assert i < |schema|;
      forall j | 0 <= j < |schema| && schema[j] == name ensures j == i {
        assert wide[j] == name;
      }
      assert OnlyAt(schema, name, i);
    }
    if CanRead(name, schema, joined) {
      var i :| 0 <= i < |schema| && schema[i] == name && OnlyAt(schema, name, i);
      assert wide[i] == name && OnlyAt(wide, name, i);
    }
  }

  lemma {:induction false} ReadableExactly(e: Bound, schema: Schema, extra: Schema, joined: bool,
          resolved: map<nat, nat>, scalars: bool)
    requires Widened(extra, joined)
    requires if scalars then forall s | s in CollectScalars(e) :: s.id in resolved else resolved == map[]
    ensures PlanExpression(e, schema + extra, resolved).Success? <==> Readable(e, schema, joined, scalars)
  {
    match e
    case ColumnRef(name) => ReadIndex(schema, extra, joined, name);
    case Conj(a, b) =>
      ReadableExactly(a, schema, extra, joined, resolved, scalars);
      ReadableExactly(b, schema, extra, joined, resolved, scalars);
    case Same(a, b) =>
      ReadableExactly(a, schema, extra, joined, resolved, scalars);
      ReadableExactly(b, schema, extra, joined, resolved, scalars);
    case Apply(_, args) =>
      forall i | 0 <= i < |args|
        ensures PlanExpression(args[i], schema + extra, resolved).Success? <==>
                Readable(args[i], schema, joined, scalars)
      {
        CollectedIn(args, |args|, i);
        ReadableExactly(args[i], schema, extra, joined, resolved, scalars);
      }
    case Scalar(_, _) => assert e in CollectScalars(e);
    case _ =>
  }

  lemma {:induction false} CollectedIn(es: seq<Bound>, n: nat, i: nat)
    requires i < n <= |es|
    ensures forall s | s in CollectScalars(es[i]) :: s in CollectAll(es, n)
  {
    if i < n - 1 {
      CollectedIn(es, n - 1, i);
    }
  }

  lemma {:induction false} AllReadable(es: seq<Bound>, schema: Schema, extra: Schema, joined: bool)
    requires Widened(extra, joined)
    ensures PlanAll(es, schema + extra).Success? <==>
            forall i | 0 <= i < |es| :: Readable(es[i], schema, joined, false)
  {
    if es != [] {
      ReadableExactly(es[0], schema, extra, joined, map[], false);
      AllReadable(es[1..], schema, extra, joined);
      assert forall i | 0 < i < |es| :: es[i] == es[1..][i - 1];
    }
  }

  // ---------------------------------------------------------------- links are the extracted pairs

  lemma {:induction false} ChooseAppend(a: seq<Bound>, b: seq<Bound>, keep: Bound -> bool)
    ensures Choose(a + b, keep) == Choose(a, keep) + Choose(b, keep)
  {
    if a == [] {
      assert a + b == b;
    } else {
      assert (a + b)[1..] == a[1..] + b;
      ChooseAppend(a[1..], b, keep);
    }
  }

  function PairOf(c: Bound): Pair
    requires Links(c)
  {
    Pair(OuterName(c), InnerSide(c))
  }

  ghost predicate Pairing(ps: seq<Pair>, ls: seq<Bound>) {
    |ps| == |ls| && forall i | 0 <= i < |ls| :: Links(ls[i]) && ps[i] == PairOf(ls[i])
  }

  lemma {:induction false} ExtractIsChoice(e: Bound)
    ensures Extract(e).remaining == Choose(SplitBound(e), Stays)
    ensures Pairing(Extract(e).pairs, Choose(SplitBound(e), Links))
  {
    if e.Conj? {
      ExtractIsChoice(e.left);
      ExtractIsChoice(e.right);
      ChooseAppend(SplitBound(e.left), SplitBound(e.right), Stays);
      ChooseAppend(SplitBound(e.left), SplitBound(e.right), Links);
    } else {
      assert Choose([e], Stays) == if Stays(e) then [e] else [];
      assert Choose([e], Links) == if Links(e) then [e] else [];
    }
  }

  lemma CorrelationIsChoice(q: Select)
    ensures Correlation(q).remaining == RestOf(q) && Pairing(Correlation(q).pairs, LinksOf(q))
  {
    if q.where.Some? {
      ExtractIsChoice(q.where.value);
    }
  }
}
