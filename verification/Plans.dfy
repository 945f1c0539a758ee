/** Query plans and the rows they denote. A plan denotes a sequence of rows; a join denotes its pairs
    in left-major order, whatever order an engine would produce them in. */
module Plans {
  import opened Expressions

  type Rows = seq<Row>
  type Database = nat -> Rows

  datatype JoinType = INNER | LEFT | SEMI | ANTI

  /** A column-pruning annotation: the columns kept, or none when the node was not annotated. */
  datatype Live = Everything | Only(columns: set<nat>)

  predicate IsLive(live: Live, i: nat) {
    live.Everything? || i in live.columns
  }

  function LiveColumns(live: Live): nat -> bool {
    (i: nat) => IsLive(live, i)
  }

  /** `SeqScan.live` and `HashJoin.live` are the column-pruning annotations: a scan materializes only
      its live columns, a hash join carries only the live columns of its build side, and every other
      column of theirs is NULL. `Sort.order` is any rule that picks an order from the sort keys, and
      `Aggregate.fold` any rule that computes the groups from the evaluated keys and arguments.
      `Operator` stands for every other node. */
  datatype Plan =
    | SeqScan(table: nat, width: nat, filter: Expr, live: Live)
    | Filter(pred: Expr, child: Plan)
    | Project(exprs: seq<Expr>, child: Plan)
    | Limit(n: nat, child: Plan)
    | Sort(keys: seq<Expr>, order: seq<Row> -> seq<nat>, child: Plan)
    | TopN(n: nat, keys: seq<Expr>, order: seq<Row> -> seq<nat>, child: Plan)
    | Aggregate(groups: seq<Expr>, args: seq<Expr>, width: nat, fold: seq<(Row, Row)> -> Rows, child: Plan)
    | NestedLoopJoin(kind: JoinType, left: Plan, right: Plan, pred: Expr)
    | HashJoin(kind: JoinType, left: Plan, right: Plan, leftKeys: seq<Expr>, rightKeys: seq<Expr>, live: Live)
    | Operator(width: nat, run: seq<Rows> -> Rows, children: seq<Plan>)

  function Width(p: Plan): nat {
    match p
    case SeqScan(_, w, _, _) => w
    case Filter(_, c) => Width(c)
    case Project(es, _) => |es|
    case Limit(_, c) => Width(c)
    case Sort(_, _, c) => Width(c)
    case TopN(_, _, _, c) => Width(c)
    case Aggregate(_, _, w, _, _) => w
    case NestedLoopJoin(k, l, r, _) => JoinWidth(k, Width(l), Width(r))
    case HashJoin(k, l, r, _, _, _) => JoinWidth(k, Width(l), Width(r))
    case Operator(w, _, _) => w
  }

  function JoinWidth(k: JoinType, lw: nat, rw: nat): nat {
    if k in {SEMI, ANTI} then lw else lw + rw
  }

  /** All columns of a row of width `w`. */
  function Columns(w: nat): (cs: set<nat>)
    ensures forall i: nat :: i in cs <==> i < w
  {
    if w == 0 then {} else Columns(w - 1) + {w - 1}
  }

  // ---------------------------------------------------------------- conditions

  /** A predicate as a test of one row, of a pair of rows, and key equality as a test of a pair. */
  function Keep(e: Expr): Row -> bool {
    row => Holds(e, row, [])
  }

  function On(e: Expr): (Row, Row) -> bool {
    (l, r) => Holds(e, l, r)
  }

  /** Left keys address input 0 and right keys input 1, each the row of its own side. */
  function OnKeys(leftKeys: seq<Expr>, rightKeys: seq<Expr>): (Row, Row) -> bool {
    (l, r) => KeysMatch(EvalAll(leftKeys, l, []), EvalAll(rightKeys, [], r))
  }

  // ---------------------------------------------------------------- relational operators

  function FilterRows(keep: Row -> bool, rows: Rows): Rows {
    if rows == [] then []
    else (if keep(rows[0]) then [rows[0]] else []) + FilterRows(keep, rows[1..])
  }

  function MapRows(f: Row -> Row, rows: Rows): Rows {
    seq(|rows|, i requires 0 <= i < |rows| => f(rows[i]))
  }

  function Nulls(w: nat): Row {
    seq(w, _ => Null)
  }

  /** `row` with every column that is not kept set to NULL. */
  function Mask(row: Row, keep: nat -> bool): Row {
    seq(|row|, i requires 0 <= i < |row| => if keep(i) then row[i] else Null)
  }

  function Masked(keep: nat -> bool): Row -> Row {
    row => Mask(row, keep)
  }

  function Evaluated(es: seq<Expr>): Row -> Row {
    row => EvalAll(es, row, [])
  }

  /** The rows `l` forms with the rows of `rs` it matches. */
  function Matches(on: (Row, Row) -> bool, l: Row, rs: Rows): Rows {
    if rs == [] then []
    else (if on(l, rs[0]) then [l + rs[0]] else []) + Matches(on, l, rs[1..])
  }

  /** What one left row contributes to a join; `rw` is the width of the right input. */
  function JoinOne(k: JoinType, on: (Row, Row) -> bool, l: Row, rs: Rows, rw: nat): Rows {
    var ms := Matches(on, l, rs);
    match k
    case INNER => ms
    case LEFT => if ms == [] then [l + Nulls(rw)] else ms
    case SEMI => if ms == [] then [] else [l]
    case ANTI => if ms == [] then [l] else []
  }

  function Join(k: JoinType, on: (Row, Row) -> bool, ls: Rows, rs: Rows, rw: nat): Rows {
    if ls == [] then [] else JoinOne(k, on, ls[0], rs, rw) + Join(k, on, ls[1..], rs, rw)
  }

  /** Pick the rows at the positions `order` answers for the rows' keys; a position outside the input
      picks nothing. */
  function Permute(rows: Rows, positions: seq<nat>): Rows {
    if positions == [] then []
    else (if positions[0] < |rows| then [rows[positions[0]]] else []) + Permute(rows, positions[1..])
  }

  function Take(rows: Rows, n: nat): Rows {
    if n < |rows| then rows[..n] else rows
  }

  function EvalAll(es: seq<Expr>, l: Row, r: Row): Row {
    seq(|es|, i requires 0 <= i < |es| => Eval(es[i], l, r))
  }

  /** Equal key lists match when every pair of keys is equal and neither is NULL. */
  predicate KeysMatch(a: Row, b: Row) {
    |a| == |b| && forall i | 0 <= i < |a| :: a[i] != Null && a[i] == b[i]
  }

  /** The build side is the right input of a LEFT, SEMI or ANTI join and the left input otherwise. */
  predicate BuildIsLeft(k: JoinType) {
    k == INNER
  }

  /** A hash join's output carries the probe side's columns and the live columns of the build side. */
  predicate Carries(k: JoinType, lw: nat, live: Live, i: nat) {
    if BuildIsLeft(k) then i >= lw || IsLive(live, i) else i < lw || IsLive(live, i - lw)
  }

  function Carried(k: JoinType, lw: nat, live: Live): nat -> bool {
    (i: nat) => Carries(k, lw, live, i)
  }

  // ---------------------------------------------------------------- the rows a plan denotes

  function Denote(p: Plan, db: Database): Rows {
    match p
    case SeqScan(t, w, pred, live) =>
      FilterRows(Keep(pred), MapRows(Masked(LiveColumns(live)), db(t)))
    case Filter(pred, c) => FilterRows(Keep(pred), Denote(c, db))
    case Project(es, c) => MapRows(Evaluated(es), Denote(c, db))
    case Limit(n, c) => Take(Denote(c, db), n)
    case Sort(keys, order, c) => Sorted(keys, order, Denote(c, db))
    case TopN(n, keys, order, c) => Take(Sorted(keys, order, Denote(c, db)), n)
    case Aggregate(gs, args, _, fold, c) => fold(Keyed(gs, args, Denote(c, db)))
    case NestedLoopJoin(k, l, r, pred) =>
      Join(k, On(pred), Denote(l, db), Denote(r, db), Width(r))
    case HashJoin(k, l, r, _, _, live) =>
      MapRows(Masked(Carried(k, Width(l), live)),
              Join(k, OnKeys(p.leftKeys, p.rightKeys), Denote(l, db), Denote(r, db), Width(r)))
    case Operator(_, run, cs) => run(seq(|cs|, i requires 0 <= i < |cs| => Denote(cs[i], db)))
  }

  function Sorted(keys: seq<Expr>, order: seq<Row> -> seq<nat>, rows: Rows): Rows {
    Permute(rows, order(MapRows(Evaluated(keys), rows)))
  }

  function Keyed(gs: seq<Expr>, args: seq<Expr>, rows: Rows): seq<(Row, Row)> {
    seq(|rows|, i requires 0 <= i < |rows| => (EvalAll(gs, rows[i], []), EvalAll(args, rows[i], [])))
  }

  // ---------------------------------------------------------------- well-formed plans

  predicate AllWide(rows: Rows, w: nat) {
    forall i | 0 <= i < |rows| :: |rows[i]| == w
  }

  /** Every table's rows have the width its scans declare. */
  ghost predicate Fits(p: Plan, db: Database) {
    match p
    case SeqScan(t, w, _, _) => AllWide(db(t), w)
    case Filter(_, c) => Fits(c, db)
    case Project(_, c) => Fits(c, db)
    case Limit(_, c) => Fits(c, db)
    case Sort(_, _, c) => Fits(c, db)
    case TopN(_, _, _, c) => Fits(c, db)
    case Aggregate(_, _, _, _, c) => Fits(c, db)
    case NestedLoopJoin(_, l, r, _) => Fits(l, db) && Fits(r, db)
    case HashJoin(_, l, r, _, _, _) => Fits(l, db) && Fits(r, db)
    case Operator(_, _, cs) => forall i | 0 <= i < |cs| :: Fits(cs[i], db)
  }

  ghost predicate AllFlat(es: seq<Expr>, w: nat) {
    AllScoped(es, w, 0)
  }

  ghost predicate AllScoped(es: seq<Expr>, lw: nat, rw: nat) {
    forall e | e in es :: Scoped(e, lw, rw)
  }

  /** Every expression reads columns its input has, and the opaque rules produce rows of their
      declared width. */
  ghost predicate WellFormed(p: Plan) {
    match p
    case SeqScan(_, w, pred, _) => Flat(pred, w)
    case Filter(pred, c) => WellFormed(c) && Flat(pred, Width(c))
    case Project(es, c) => WellFormed(c) && AllFlat(es, Width(c))
    case Limit(_, c) => WellFormed(c)
    case Sort(keys, _, c) => WellFormed(c) && AllFlat(keys, Width(c))
    case TopN(_, keys, _, c) => WellFormed(c) && AllFlat(keys, Width(c))
    case Aggregate(gs, args, w, fold, c) =>
      WellFormed(c) && AllFlat(gs, Width(c)) && AllFlat(args, Width(c)) && (forall x :: AllWide(fold(x), w))
    case NestedLoopJoin(_, l, r, pred) => WellFormed(l) && WellFormed(r) && Scoped(pred, Width(l), Width(r))
    case HashJoin(_, l, r, lks, rks, _) =>
      WellFormed(l) && WellFormed(r) && |lks| == |rks| &&
      AllScoped(lks, Width(l), 0) && AllScoped(rks, 0, Width(r))
    case Operator(w, run, cs) => (forall i | 0 <= i < |cs| :: WellFormed(cs[i])) && (forall x :: AllWide(run(x), w))
  }

  // ---------------------------------------------------------------- denotations have the plan's width

  lemma {:induction false} FilterWide(keep: Row -> bool, rows: Rows, w: nat)
    requires AllWide(rows, w)
    ensures AllWide(FilterRows(keep, rows), w)
  {
    if rows != [] {
      FilterWide(keep, rows[1..], w);
    }
  }

  lemma {:induction false} MatchesWide(on: (Row, Row) -> bool, l: Row, rs: Rows, rw: nat)
    requires AllWide(rs, rw)
    ensures AllWide(Matches(on, l, rs), |l| + rw)
  {
    if rs != [] {
      MatchesWide(on, l, rs[1..], rw);
    }
  }

  lemma {:induction false} JoinWide(k: JoinType, on: (Row, Row) -> bool, ls: Rows, rs: Rows, lw: nat, rw: nat)
    requires AllWide(ls, lw) && AllWide(rs, rw)
    ensures AllWide(Join(k, on, ls, rs, rw), JoinWidth(k, lw, rw))
  {
    if ls != [] {
      MatchesWide(on, ls[0], rs, rw);
      assert AllWide(JoinOne(k, on, ls[0], rs, rw), JoinWidth(k, lw, rw));
      JoinWide(k, on, ls[1..], rs, lw, rw);
    }
  }

  lemma {:induction false} PermuteWide(rows: Rows, positions: seq<nat>, w: nat)
    requires AllWide(rows, w)
    ensures AllWide(Permute(rows, positions), w)
  {
    if positions != [] {
      PermuteWide(rows, positions[1..], w);
    }
  }

  lemma {:induction false} DenoteWide(p: Plan, db: Database)
    requires WellFormed(p) && Fits(p, db)
    ensures AllWide(Denote(p, db), Width(p))
  {
    match p
    case SeqScan(t, w, pred, live) =>
      FilterWide(Keep(pred), MapRows(Masked(LiveColumns(live)), db(t)), w);
    case Filter(pred, c) =>
      DenoteWide(c, db);
      FilterWide(Keep(pred), Denote(c, db), Width(c));
    case Project(_, c) =>
    case Limit(_, c) => DenoteWide(c, db);
    case Sort(keys, order, c) =>
      DenoteWide(c, db);
      SortedWide(keys, order, Denote(c, db), Width(c));
    case TopN(_, keys, order, c) =>
      DenoteWide(c, db);
      SortedWide(keys, order, Denote(c, db), Width(c));
    case Aggregate(_, _, _, _, c) =>
    case NestedLoopJoin(k, l, r, pred) =>
      DenoteWide(l, db);
      DenoteWide(r, db);
      JoinWide(k, On(pred), Denote(l, db), Denote(r, db), Width(l), Width(r));
    case HashJoin(k, l, r, _, _, _) =>
      DenoteWide(l, db);
      DenoteWide(r, db);
      JoinWide(k, OnKeys(p.leftKeys, p.rightKeys), Denote(l, db), Denote(r, db), Width(l), Width(r));
    case Operator(_, _, cs) =>
  }

  lemma SortedWide(keys: seq<Expr>, order: seq<Row> -> seq<nat>, rows: Rows, w: nat)
    requires AllWide(rows, w)
    ensures AllWide(Sorted(keys, order, rows), w)
  {
    PermuteWide(rows, order(MapRows(Evaluated(keys), rows)), w);
  }
}
