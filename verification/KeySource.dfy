/** The key source that restricts a decorrelated aggregate: the base table of the outer FROM that
    supplies the correlation column, filtered by the outer conjuncts that read only that table. */
module KeySources {
  import opened Expressions
  import opened Plans
  import opened Conjuncts
  import opened JoinAlgebra
  import opened BoundQueries

  // ---------------------------------------------------------------- the base table of a column

  function FindKeyBaseTable(t: From, name: string): (r: Option<From>)
    ensures r.Some? ==> r.value.Base? && name in r.value.columns
  {
    match t
    case Base(_, cs) => if name in cs then Some(t) else None
    case Cross(l, r) => if FindKeyBaseTable(l, name).Some? then FindKeyBaseTable(l, name) else FindKeyBaseTable(r, name)
    case JoinOn(_, l, r, _) =>
      if FindKeyBaseTable(l, name).Some? then FindKeyBaseTable(l, name) else FindKeyBaseTable(r, name)
    case Derived(_, _) => None
  }

  /** The base tables of the tree, left to right; a derived table has none. */
  function BaseTables(t: From): seq<From> {
    match t
    case Base(_, _) => [t]
    case Cross(l, r) => BaseTables(l) + BaseTables(r)
    case JoinOn(_, l, r, _) => BaseTables(l) + BaseTables(r)
    case Derived(_, _) => []
  }

  /** `found` is the first of the tables with such a column, if there is one. */
  ghost predicate IsFirst(ts: seq<From>, name: string, found: Option<From>) {
    && (forall i | 0 <= i < |ts| :: ts[i].Base?)
    && match found
       case None => forall i | 0 <= i < |ts| :: name !in ts[i].columns
       case Some(b) =>
         exists i :: 0 <= i < |ts| && ts[i] == b && name in b.columns && forall j | 0 <= j < i :: name !in ts[j].columns
  }

  lemma FirstOfTwo(a: seq<From>, b: seq<From>, name: string, x: Option<From>, y: Option<From>)
    requires IsFirst(a, name, x) && IsFirst(b, name, y)
    ensures IsFirst(a + b, name, if x.Some? then x else y)
  {
    var ts := a + b;
    if x.Some? {
      var i :| 0 <= i < |a| && a[i] == x.value && forall j | 0 <= j < i :: name !in a[j].columns;
      assert ts[i] == x.value;
    } else if y.Some? {
      var i :| 0 <= i < |b| && b[i] == y.value && forall j | 0 <= j < i :: name !in b[j].columns;
      assert ts[|a| + i] == y.value;
    }
  }

  /** The base table found is the first of the tree with such a column, and one is found if there is one. */
  lemma {:induction false} FindsFirst(t: From, name: string)
    ensures IsFirst(BaseTables(t), name, FindKeyBaseTable(t, name))
  {
    match t
    case Base(_, _) =>
      assert BaseTables(t)[0] == t;
    case Derived(_, _) =>
    case Cross(l, r) =>
      FindsFirst(l, name);
      FindsFirst(r, name);
      FirstOfTwo(BaseTables(l), BaseTables(r), name, FindKeyBaseTable(l, name), FindKeyBaseTable(r, name));
    case JoinOn(_, l, r, _) =>
      FindsFirst(l, name);
      FindsFirst(r, name);
      FirstOfTwo(BaseTables(l), BaseTables(r), name, FindKeyBaseTable(l, name), FindKeyBaseTable(r, name));
  }

  /** Where the columns of that base table start in the rows of the tree. */
  function Offset(t: From, name: string): (off: nat)
    requires FindKeyBaseTable(t, name).Some?
    ensures off + |FindKeyBaseTable(t, name).value.columns| <= |SchemaOf(t)|
  {
    match t
    case Base(_, _) => 0
    case Cross(l, r) =>
      if FindKeyBaseTable(l, name).Some? then
        Offset(l, name)
      else
        |SchemaOf(l)| + Offset(r, name)
    case JoinOn(_, l, r, _) =>
      if FindKeyBaseTable(l, name).Some? then
        Offset(l, name)
      else
        |SchemaOf(l)| + Offset(r, name)
  }

  /** `n` elements of `s` from `off` on. */
  function Part<T>(s: seq<T>, off: nat, n: nat): seq<T>
    requires off + n <= |s|
  {
    seq(n, i requires 0 <= i < n => s[off + i])
  }

  lemma PartLeft<T>(a: seq<T>, b: seq<T>, off: nat, n: nat)
    requires off + n <= |a|
    ensures Part(a + b, off, n) == Part(a, off, n)
  {
  }

  lemma PartRight<T>(a: seq<T>, b: seq<T>, off: nat, n: nat)
    requires off + n <= |b|
    ensures Part(a + b, |a| + off, n) == Part(b, off, n)
  {
  }

  lemma {:induction false} SegmentSchema(t: From, name: string)
    requires FindKeyBaseTable(t, name).Some?
    ensures var b := FindKeyBaseTable(t, name).value;
            Part(SchemaOf(t), Offset(t, name), |b.columns|) == b.columns
    decreases t, 1
  {
    match t
    case Base(_, cs) =>
    case Cross(l, r) => SegmentSchemaOfJoin(t, l, r, name);
    case JoinOn(_, l, r, _) => SegmentSchemaOfJoin(t, l, r, name);
  }

  lemma {:induction false} SegmentSchemaOfJoin(t: From, l: From, r: From, name: string)
    requires (t.Cross? || t.JoinOn?) && t.left == l && t.right == r
    requires FindKeyBaseTable(t, name).Some?
    ensures var b := FindKeyBaseTable(t, name).value;
            Part(SchemaOf(t), Offset(t, name), |b.columns|) == b.columns
    decreases t, 0
  {
    var n := |FindKeyBaseTable(t, name).value.columns|;
    if FindKeyBaseTable(l, name).Some? {
      SegmentSchema(l, name);
      PartLeft(SchemaOf(l), SchemaOf(r), Offset(l, name), n);
    } else {
      SegmentSchema(r, name);
      PartRight(SchemaOf(l), SchemaOf(r), Offset(r, name), n);
    }
  }

  /** The part of a row of the tree that came from that base table. */
  function Segment(t: From, name: string, row: Row): Row
    requires FindKeyBaseTable(t, name).Some? && |row| == |SchemaOf(t)|
  {
    Part(row, Offset(t, name), |FindKeyBaseTable(t, name).value.columns|)
  }

  lemma {:induction false} MatchesMember(on: (Row, Row) -> bool, l: Row, rs: Rows, row: Row) returns (r: Row)
    requires row in Matches(on, l, rs)
    ensures r in rs && row == l + r
  {
    if on(l, rs[0]) && row == l + rs[0] {
      r := rs[0];
    } else {
      r := MatchesMember(on, l, rs[1..], row);
    }
  }

  /** A row of an inner or left join is a left row followed by a right row or by NULLs. */
  lemma {:induction false} JoinMember(k: JoinType, on: (Row, Row) -> bool, ls: Rows, rs: Rows, rw: nat, row: Row)
    returns (l: Row, r: Row)
    requires k in {INNER, LEFT} && row in Join(k, on, ls, rs, rw)
    ensures l in ls && row == l + r && (r in rs || r == Nulls(rw))
  {
    var first := JoinOne(k, on, ls[0], rs, rw);
    if row in first {
      l := ls[0];
      if Matches(on, l, rs) == [] {
        r := Nulls(rw);
      } else {
        r := MatchesMember(on, l, rs, row);
      }
    } else {
      l, r := JoinMember(k, on, ls[1..], rs, rw, row);
    }
  }

  lemma BaseRows(table: nat, cs: Schema, db: Database)
    ensures FromRows(Base(table, cs), db) == db(table)
  {
    var masked := MapRows(Masked(LiveColumns(Everything)), db(table));
    forall i | 0 <= i < |db(table)| ensures masked[i] == db(table)[i] {
      assert Mask(db(table)[i], LiveColumns(Everything)) == db(table)[i];
    }
    FilterAgree(Keep(TRUE), (row: Row) => true, masked);
    FilterTrue(masked);
  }

  predicate IsBaseRow(base: From, seg: Row, db: Database)
    requires base.Base?
  {
    seg in db(base.table) || seg == Nulls(|base.columns|)
  }

  /** In every row of the tree, that part is a row of the base table or all NULL. */
  lemma {:induction false} SegmentIsBaseRow(t: From, name: string, db: Database, row: Row)
    requires FindKeyBaseTable(t, name).Some? && FromOk(t, db) && row in FromRows(t, db) && |row| == |SchemaOf(t)|
    ensures IsBaseRow(FindKeyBaseTable(t, name).value, Segment(t, name, row), db)
    decreases t, 1
  {
    match t
    case Base(table, cs) =>
      BaseRows(table, cs, db);
      assert Segment(t, name, row) == row;
    case Cross(l, r) => SegmentOfJoin(t, INNER, On(TRUE), l, r, name, db, row);
    case JoinOn(outer, l, r, cond) => SegmentOfJoin(t, if outer then LEFT else INNER, On(cond), l, r, name, db, row);
  }

  /** A row of a join is a left row and a right row, and the base table's part is inside one of them. */
  lemma SegmentInside(t: From, l: From, r: From, name: string, lrow: Row, rrow: Row)
    requires (t.Cross? || t.JoinOn?) && t.left == l && t.right == r
    requires FindKeyBaseTable(t, name).Some? && |lrow| == |SchemaOf(l)| && |rrow| == |SchemaOf(r)|
    ensures Segment(t, name, lrow + rrow) ==
            if FindKeyBaseTable(l, name).Some? then Segment(l, name, lrow) else Segment(r, name, rrow)
  {
    var n := |FindKeyBaseTable(t, name).value.columns|;
    assert |SchemaOf(t)| == |SchemaOf(l)| + |SchemaOf(r)|;
    if FindKeyBaseTable(l, name).Some? {
      assert Offset(t, name) == Offset(l, name);
      PartLeft(lrow, rrow, Offset(l, name), n);
    } else {
      assert Offset(t, name) == |lrow| + Offset(r, name);
      PartRight(lrow, rrow, Offset(r, name), n);
    }
  }

  lemma SegmentOfNulls(t: From, name: string)
    requires FindKeyBaseTable(t, name).Some?
    ensures Segment(t, name, Nulls(|SchemaOf(t)|)) == Nulls(|FindKeyBaseTable(t, name).value.columns|)
  {
  }

  lemma {:induction false} SegmentOfJoin(t: From, k: JoinType, on: (Row, Row) -> bool, l: From, r: From, name: string,
          db: Database, row: Row)
    requires (t.Cross? || t.JoinOn?) && t.left == l && t.right == r && k in {INNER, LEFT}
    requires FromRows(t, db) == Join(k, on, FromRows(l, db), FromRows(r, db), Width(PlanFrom(r)))
    requires FindKeyBaseTable(t, name).Some? && FromOk(t, db) && row in FromRows(t, db) && |row| == |SchemaOf(t)|
    ensures IsBaseRow(FindKeyBaseTable(t, name).value, Segment(t, name, row), db)
    decreases t, 0
  {
    FromWide(l, db);
    FromWide(r, db);
    var lrow, rrow := JoinMember(k, on, FromRows(l, db), FromRows(r, db), Width(PlanFrom(r)), row);
    SegmentInside(t, l, r, name, lrow, rrow);
    if FindKeyBaseTable(l, name).Some? {
      SegmentIsBaseRow(l, name, db, lrow);
    } else if rrow in FromRows(r, db) {
      SegmentIsBaseRow(r, name, db, rrow);
    } else {
      SegmentOfNulls(r, name);
    }
  }

  // ---------------------------------------------------------------- conjuncts local to the base table

  /** No subquery, no reference to an enclosing query. */
  predicate Plain(e: Bound) {
    match e
    case ColumnRef(_) => true
    case OuterRef(_, _) => false
    case Literal(_) => true
    case Conj(a, b) => Plain(a) && Plain(b)
    case Same(a, b) => Plain(a) && Plain(b)
    case Apply(_, args) => forall i | 0 <= i < |args| :: Plain(args[i])
    case Exists(_, _) => false
    case Scalar(_, _) => false
  }

  predicate ReadsAColumn(e: Bound) {
    match e
    case ColumnRef(_) => true
    case Conj(a, b) => ReadsAColumn(a) || ReadsAColumn(b)
    case Same(a, b) => ReadsAColumn(a) || ReadsAColumn(b)
    case Apply(_, args) => exists i | 0 <= i < |args| :: ReadsAColumn(args[i])
    case _ => false
  }

  predicate IsLocal(e: Bound, columns: Schema) {
    Plain(e) && ReadsAColumn(e) && Local(e, columns)
  }

  function LocalConjuncts(cs: seq<Bound>, columns: Schema): (ls: seq<Bound>)
    ensures forall c :: c in ls <==> c in cs && IsLocal(c, columns)
  {
    if cs == [] then []
    else (if IsLocal(cs[0], columns) then [cs[0]] else []) + LocalConjuncts(cs[1..], columns)
  }

  function PlanAll(es: seq<Bound>, schema: Schema): (r: Result<seq<Expr>>)
    ensures r.Success? ==> |r.value| == |es| && forall i | 0 <= i < |es| ::
              PlanExpression(es[i], schema, map[]) == Success(r.value[i])
  {
    if es == [] then Success([])
    else
      var e :- PlanExpression(es[0], schema, map[]);
      var rest :- PlanAll(es[1..], schema);
      Success([e] + rest)
  }

  datatype KeySource = NoSource | Source(plan: Plan, column: nat)

  /** `worthwhile` is the verdict of the cost guard and of the key type comparison. */
  function BuildKeySource(cs: seq<Bound>, from: From, name: string, worthwhile: bool): Result<KeySource> {
    var base := FindKeyBaseTable(from, name);
    if base.None? then Success(NoSource)
    else
      var locals := LocalConjuncts(cs, base.value.columns);
      if locals == [] || !worthwhile then Success(NoSource)
      else
        var es :- PlanAll(locals, base.value.columns);
        Success(Source(Filter(Conjoin(es), PlanFrom(base.value)), FirstIndex(base.value.columns, name)))
  }

  // ---------------------------------------------------------------- the key source covers the outer rows

  lemma IndexInPart(schema: Schema, off: nat, cols: Schema, name: string)
    requires off + |cols| <= |schema| && Part(schema, off, |cols|) == cols
    requires name in cols && ColumnIndex(schema, name).Success?
    ensures ColumnIndex(cols, name) == Success(FirstIndex(cols, name))
    ensures ColumnIndex(schema, name) == Success(off + FirstIndex(cols, name))
  {
    var at := ColumnIndex(schema, name).value;
    forall j | 0 <= j < |cols| && cols[j] == name ensures off + j == at {
      assert cols[j] == Part(schema, off, |cols|)[j] == schema[off + j];
    }
  }

  lemma LookupSegment(schema: Schema, row: Row, off: nat, cols: Schema, name: string)
    requires |row| == |schema| && off + |cols| <= |schema| && Part(schema, off, |cols|) == cols
    requires name in cols && ColumnIndex(schema, name).Success?
    ensures ColumnIndex(cols, name) == Success(FirstIndex(cols, name))
    ensures Lookup(Scope(schema, row), name) == Part(row, off, |cols|)[FirstIndex(cols, name)]
    ensures Lookup(Scope(schema, row), name) == Lookup(Scope(cols, Part(row, off, |cols|)), name)
  {
    IndexInPart(schema, off, cols, name);
    LookupAt(schema, row, off, cols, name, FirstIndex(cols, name));
  }

  lemma LookupAt(schema: Schema, row: Row, off: nat, cols: Schema, name: string, i: nat)
    requires |row| == |schema| && off + |cols| <= |row| && i < |cols|
    requires ColumnIndex(schema, name) == Success(off + i) && ColumnIndex(cols, name) == Success(i)
    ensures Lookup(Scope(schema, row), name) == Part(row, off, |cols|)[i]
    ensures Lookup(Scope(cols, Part(row, off, |cols|)), name) == Part(row, off, |cols|)[i]
  {
  }

  /** A conjunct over the base table means the same on the whole row and on the base table's part. */
  lemma {:induction false} SegmentMeaning(e: Bound, schema: Schema, row: Row, off: nat, cols: Schema,
          outers: seq<Scope>, db: Database)
    requires |row| == |schema| && off + |cols| <= |schema| && Part(schema, off, |cols|) == cols
    requires Plain(e) && Local(e, cols) && PlanExpression(e, schema, map[]).Success?
    ensures Meaning(e, [Scope(schema, row)] + outers, db) ==
            Meaning(e, [Scope(cols, Part(row, off, |cols|))] + outers, db)
  {
    match e
    case ColumnRef(name) => LookupSegment(schema, row, off, cols, name);
    case Literal(_) =>
    case Conj(a, b) =>
      SegmentMeaning(a, schema, row, off, cols, outers, db);
      SegmentMeaning(b, schema, row, off, cols, outers, db);
    case Same(a, b) =>
      SegmentMeaning(a, schema, row, off, cols, outers, db);
      SegmentMeaning(b, schema, row, off, cols, outers, db);
    case Apply(f, args) =>
      var whole, part := [Scope(schema, row)] + outers, [Scope(cols, Part(row, off, |cols|))] + outers;
      forall i | 0 <= i < |args| ensures Meaning(args[i], whole, db) == Meaning(args[i], part, db) {
        SegmentMeaning(args[i], schema, row, off, cols, outers, db);
      }
      assert seq(|args|, i requires 0 <= i < |args| => Meaning(args[i], whole, db)) ==
             seq(|args|, i requires 0 <= i < |args| => Meaning(args[i], part, db));
  }

  ghost predicate AllPlanned(cs: seq<Bound>, schema: Schema) {
    forall c | c in cs :: PlanExpression(c, schema, map[]).Success?
  }

  lemma {:induction false} FilterKeeps(keep: Row -> bool, rows: Rows, row: Row)
    requires row in rows && keep(row)
    ensures row in FilterRows(keep, rows)
  {
    if row != rows[0] {
      FilterKeeps(keep, rows[1..], row);
    }
  }

  lemma LocalsHold(locals: seq<Bound>, es: seq<Expr>, cols: Schema, seg: Row, outers: seq<Scope>, db: Database)
    requires PlanAll(locals, cols) == Success(es) && |seg| == |cols|
    requires forall c | c in locals :: Local(c, cols) && Truth(Meaning(c, [Scope(cols, seg)] + outers, db))
    ensures Holds(Conjoin(es), seg, [])
  {
    forall e | e in es ensures Holds(e, seg, []) {
      var i :| 0 <= i < |es| && es[i] == e;
      assert locals[i] in locals;
      assert cols + [] == cols && seg + [] == seg;
      PlannedPlain(locals[i], cols, [], seg, [], outers, db);
    }
    ConjoinHolds(es, seg, []);
  }

  /** Every row of the FROM that passes the conjuncts has its key in the key source, or a NULL key. */
  lemma KeySourceCovers(cs: seq<Bound>, from: From, name: string, worthwhile: bool, ks: KeySource, row: Row,
          outers: seq<Scope>, db: Database)
    requires BuildKeySource(cs, from, name, worthwhile) == Success(ks) && ks.Source?
    requires FromOk(from, db) && row in FromRows(from, db) && |row| == |SchemaOf(from)|
    requires ColumnIndex(SchemaOf(from), name).Success?
    requires AllPlanned(LocalConjuncts(cs, FindKeyBaseTable(from, name).value.columns), SchemaOf(from))
    requires AllTrue(LocalConjuncts(cs, FindKeyBaseTable(from, name).value.columns), [Scope(SchemaOf(from), row)] +
             outers, db)
    ensures var v := Lookup(Scope(SchemaOf(from), row), name);
            v == Null || exists r :: r in Denote(ks.plan, db) && ks.column < |r| && r[ks.column] == v
  {
    var base := FindKeyBaseTable(from, name).value;
    var cols, off, schema := base.columns, Offset(from, name), SchemaOf(from);
    var locals := LocalConjuncts(cs, cols);
    var es := PlanAll(locals, cols).value;
    var seg := Segment(from, name, row);
    SegmentSchema(from, name);
    LookupSegment(schema, row, off, cols, name);
    SegmentIsBaseRow(from, name, db, row);
    if Lookup(Scope(schema, row), name) != Null {
      assert seg in db(base.table);
      forall c | c in locals ensures Local(c, cols) && Truth(Meaning(c, [Scope(cols, seg)] + outers, db)) {
        assert PlanExpression(c, schema, map[]).Success?;
        SegmentMeaning(c, schema, row, off, cols, outers, db);
      }
      LocalsHold(locals, es, cols, seg, outers, db);
      BaseRows(base.table, cols, db);
      FilterKeeps(Keep(Conjoin(es)), db(base.table), seg);
      assert seg in Denote(ks.plan, db);
    }
  }
}
