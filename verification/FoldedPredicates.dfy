/** The vectorized predicate evaluator answers 0 or 1 where SQL logic has three values; a filter keeps
    exactly the rows on which the SQL logic is true. */
module FoldedPredicates {
  import opened Expressions
  import opened LikeMatching

  /** A value operand, already at the common type of its comparison. */
  type Operand = Row -> Value

  datatype Pred =
    | Comparison(test: (Value, Value) -> bool, left: Operand, right: Operand)
    | LikePattern(negated: bool, input: Operand, pattern: Operand)
    | InList(negated: bool, tested: Operand, list: seq<Operand>)
    | IsNull(negated: bool, operand: Operand)
    | AndOf(first: Pred, second: Pred)
    | OrOf(first: Pred, second: Pred)

  // ---------------------------------------------------------------- SQL's three-valued logic

  datatype Truth3 = True | False | Unknown

  function Not3(a: Truth3): Truth3 {
    match a case True => False case False => True case Unknown => Unknown
  }

  function And3(a: Truth3, b: Truth3): Truth3 {
    if a == False || b == False then False else if a == True && b == True then True else Unknown
  }

  function Or3(a: Truth3, b: Truth3): Truth3 {
    if a == True || b == True then True else if a == False && b == False then False else Unknown
  }

  function Of(b: bool): Truth3 {
    if b then True else False
  }

  function Equal3(a: Value, b: Value): Truth3 {
    if a == Null || b == Null then Unknown else Of(a == b)
  }

  /** IN is the disjunction of the equalities. */
  function In3(x: Value, list: seq<Value>): Truth3 {
    if list == [] then False else Or3(Equal3(x, list[0]), In3(x, list[1..]))
  }

  ghost function Sql(p: Pred, row: Row): Truth3 {
    match p
    case Comparison(test, l, r) =>
      if l(row) == Null || r(row) == Null then Unknown else Of(test(l(row), r(row)))
    case LikePattern(negated, s, pat) =>
      if s(row).Text? && pat(row).Text? then
        var m := Of(Like(s(row).s, pat(row).s)); if negated then Not3(m) else m
      else Unknown
    case InList(negated, x, list) =>
      var m := In3(x(row), Values(list, row)); if negated then Not3(m) else m
    case IsNull(negated, e) => Of((e(row) == Null) != negated)
    case AndOf(a, b) => And3(Sql(a, row), Sql(b, row))
    case OrOf(a, b) => Or3(Sql(a, row), Sql(b, row))
  }

  function Values(list: seq<Operand>, row: Row): seq<Value> {
    seq(|list|, i requires 0 <= i < |list| => list[i](row))
  }

  // ---------------------------------------------------------------- the folded answers

  /** A match wins; a NULL on either side of a non-match makes NOT IN 0 as well. */
  predicate InFold(negated: bool, x: Value, list: seq<Value>) {
    var matched := x != Null && x in list;
    if negated then !matched && x != Null && Null !in list else matched
  }

  ghost predicate Fold(p: Pred, row: Row) {
    match p
    case Comparison(test, l, r) => l(row) != Null && r(row) != Null && test(l(row), r(row))
    case LikePattern(negated, s, pat) => s(row).Text? && pat(row).Text? && Like(s(row).s, pat(row).s) != negated
    case InList(negated, x, list) => InFold(negated, x(row), Values(list, row))
    case IsNull(negated, e) => (e(row) == Null) != negated
    case AndOf(a, b) => Fold(a, row) && Fold(b, row)
    case OrOf(a, b) => Fold(a, row) || Fold(b, row)
  }

  lemma {:induction false} InExact(x: Value, list: seq<Value>)
    ensures In3(x, list) == True <==> InFold(false, x, list)
    ensures In3(x, list) == False <==> (list == [] || InFold(true, x, list))
  {
    if list != [] {
      InExact(x, list[1..]);
    }
  }

  /** NOT IN agrees with SQL on every list one can write: an empty one, which the binder refuses, would
      differ on NULL. */
  lemma NotInExact(x: Value, list: seq<Value>)
    ensures InFold(true, x, list) == (Not3(In3(x, list)) == True) <==> list != [] || x != Null
  {
    InExact(x, list);
  }

  /** Every IN list has an element, as the binder sees to. */
  predicate ListsNonempty(p: Pred) {
    match p
    case InList(_, _, list) => list != []
    case AndOf(a, b) => ListsNonempty(a) && ListsNonempty(b)
    case OrOf(a, b) => ListsNonempty(a) && ListsNonempty(b)
    case _ => true
  }

  /** The folded answer is 1 exactly where the SQL logic is true. */
  lemma {:induction false} FoldIsTrue(p: Pred, row: Row)
    requires ListsNonempty(p)
    ensures Fold(p, row) <==> Sql(p, row) == True
  {
    match p
    case InList(_, x, list) => InExact(x(row), Values(list, row));
    case AndOf(a, b) =>
      FoldIsTrue(a, row);
      FoldIsTrue(b, row);
    case OrOf(a, b) =>
      FoldIsTrue(a, row);
      FoldIsTrue(b, row);
    case _ =>
  }

  // ---------------------------------------------------------------- IN kernels

  /** The general kernel: one equality pass per list element, remembering where a NULL was seen. */
  method RunIn(negated: bool, tested: seq<Value>, items: seq<seq<Value>>) returns (out: seq<bool>)
    requires forall j | 0 <= j < |items| :: |items[j]| == |tested|
    ensures |out| == |tested| && forall i | 0 <= i < |tested| ::
            out[i] == InFold(negated, tested[i], Column(items, i, |items|))
  {
    var count := |tested|;
    var matched := seq(count, _ => false);
    var nullSeen := seq(count, i requires 0 <= i < count => tested[i] == Null);
    for j := 0 to |items|
      invariant |matched| == |nullSeen| == count
      invariant forall i | 0 <= i < count :: matched[i] == (tested[i] != Null && tested[i] in Column(items, i, j))
      invariant forall i | 0 <= i < count :: nullSeen[i] == (tested[i] == Null || Null in Column(items, i, j))
    {
      var item := items[j];
      matched := seq(count, i requires 0 <= i < count => matched[i] || (tested[i] != Null && item[i] == tested[i]));
      nullSeen := seq(count, i requires 0 <= i < count => nullSeen[i] || item[i] == Null);
    }
    out := seq(count, i requires 0 <= i < count => if negated then !matched[i] && !nullSeen[i] else matched[i]);
  }

  /** Row i's values in the first `n` list columns. */
  function Column(items: seq<seq<Value>>, i: nat, n: nat): seq<Value>
    requires n <= |items| && forall j | 0 <= j < |items| :: i < |items[j]|
  {
    if n == 0 then [] else Column(items, i, n - 1) + [items[n - 1][i]]
  }

  // ---------------------------------------------------------------- evaluating a tree

  function Chunk(e: Operand, rows: seq<Row>): seq<Value> {
    seq(|rows|, i requires 0 <= i < |rows| => e(rows[i]))
  }

  ghost predicate Answers(p: Pred, rows: seq<Row>, out: seq<bool>) {
    |out| == |rows| && forall i | 0 <= i < |rows| :: out[i] == Fold(p, rows[i])
  }

  lemma {:induction false} ColumnValues(list: seq<Operand>, rows: seq<Row>, items: seq<seq<Value>>, i: nat, n: nat)
    requires |items| == |list| && i < |rows| && n <= |list|
    requires forall j | 0 <= j < |list| :: |items[j]| == |rows| && items[j] == Chunk(list[j], rows)
    ensures Column(items, i, n) == Values(list, rows[i])[..n]
  {
    if n > 0 {
      ColumnValues(list, rows, items, i, n - 1);
    }
  }

  /** One vector of 0 or 1 per node, combined element by element. */
  method Evaluate(p: Pred, rows: seq<Row>) returns (out: seq<bool>)
    ensures Answers(p, rows, out)
    decreases p
  {
    match p
    case Comparison(test, l, r) =>
      var ls, rs := Chunk(l, rows), Chunk(r, rows);
      out := seq(|rows|, i requires 0 <= i < |rows| && |ls| == |rs| == |rows| => ls[i] != Null && rs[i] != Null &&
        test(ls[i], rs[i]));
    case LikePattern(negated, s, pat) => out := RunLike(negated, Chunk(s, rows), Chunk(pat, rows));
    case InList(negated, x, list) =>
      var items := seq(|list|, j requires 0 <= j < |list| => Chunk(list[j], rows));
      out := RunIn(negated, Chunk(x, rows), items);
      forall i | 0 <= i < |rows| ensures out[i] == Fold(p, rows[i]) {
        ColumnValues(list, rows, items, i, |list|);
        assert Values(list, rows[i])[..|list|] == Values(list, rows[i]);
      }
    case IsNull(negated, e) =>
      var es := Chunk(e, rows);
      out := seq(|rows|, i requires 0 <= i < |rows| && |es| == |rows| => (es[i] == Null) != negated);
    case AndOf(a, b) =>
      var l := Evaluate(a, rows);
      var r := Evaluate(b, rows);
      out := RunLogic(true, l, r);
    case OrOf(a, b) =>
      var l := Evaluate(a, rows);
      var r := Evaluate(b, rows);
      out := RunLogic(false, l, r);
  }

  method RunLogic(conjunction: bool, l: seq<bool>, r: seq<bool>) returns (out: seq<bool>)
    requires |l| == |r|
    ensures |out| == |l| && forall i | 0 <= i < |l| :: out[i] == if conjunction then l[i] && r[i] else l[i] || r[i]
  {
    out := [];
    for i := 0 to |l|
      invariant |out| == i && forall k | 0 <= k < i :: out[k] == if conjunction then l[k] && r[k] else l[k] || r[k]
    {
      out := out + [if conjunction then l[i] && r[i] else l[i] || r[i]];
    }
  }

  method RunLike(negated: bool, input: seq<Value>, pattern: seq<Value>) returns (out: seq<bool>)
    requires |input| == |pattern|
    ensures |out| == |input|
    ensures forall i | 0 <= i < |input| ::
              out[i] == (input[i].Text? && pattern[i].Text? && Like(input[i].s, pattern[i].s) != negated)
  {
    out := [];
    for i := 0 to |input|
      invariant |out| == i
      invariant forall k | 0 <= k < i ::
                  out[k] == (input[k].Text? && pattern[k].Text? && Like(input[k].s, pattern[k].s) != negated)
    {
      if input[i].Text? && pattern[i].Text? {
        var matched := LikeMatch(input[i].s, pattern[i].s);
        out := out + [matched != negated];
      } else {
        out := out + [false];
      }
    }
  }

  // ---------------------------------------------------------------- selecting rows

  /** The comparisons of an AND tree, or nothing if a leaf is something else. */
  function CollectComparisons(p: Pred): (r: Result<seq<Pred>>)
    ensures r.Success? ==> r.value != [] && forall c | c in r.value :: c.Comparison?
  {
    match p
    case Comparison(_, _, _) => Success([p])
    case AndOf(a, b) =>
      var xs :- CollectComparisons(a);
      var ys :- CollectComparisons(b);
      Success(xs + ys)
    case _ => Failure
  }

  ghost predicate AllFold(cs: seq<Pred>, row: Row) {
    forall c | c in cs :: Fold(c, row)
  }

  lemma {:induction false} CollectedFold(p: Pred, row: Row)
    requires CollectComparisons(p).Success?
    ensures Fold(p, row) <==> AllFold(CollectComparisons(p).value, row)
  {
    if p.AndOf? {
      CollectedFold(p.first, row);
      CollectedFold(p.second, row);
    } else {
      assert CollectComparisons(p).value == [p];
    }
  }

  /** The rows below `n` on which the predicate is folded to 1, in order. */
  ghost function Selected(p: Row -> bool, rows: seq<Row>, n: nat): (sel: seq<nat>)
    requires n <= |rows|
    ensures forall i | 0 <= i < |sel| :: sel[i] < n
  {
    if n == 0 then [] else Selected(p, rows, n - 1) + if p(rows[n - 1]) then [n - 1] else []
  }

  ghost function Passing(p: Pred): Row -> bool {
    row => Fold(p, row)
  }

  ghost function PassingAll(cs: seq<Pred>): Row -> bool {
    row => AllFold(cs, row)
  }

  /** The first `n` selected rows that also pass `c`, in order. */
  ghost function Narrowed(c: Row -> bool, rows: seq<Row>, sel: seq<nat>, n: nat): seq<nat>
    requires n <= |sel| && forall i | 0 <= i < |sel| :: sel[i] < |rows|
  {
    if n == 0 then [] else Narrowed(c, rows, sel, n - 1) + if c(rows[sel[n - 1]]) then [sel[n - 1]] else []
  }

  lemma {:induction false} NarrowedAppend(c: Row -> bool, rows: seq<Row>, a: seq<nat>, x: nat)
    requires x < |rows| && forall i | 0 <= i < |a| :: a[i] < |rows|
    ensures Narrowed(c, rows, a + [x], |a| + 1) == Narrowed(c, rows, a, |a|) + if c(rows[x]) then [x] else []
  {
    NarrowedPrefix(c, rows, a, [x], |a|);
  }

  lemma {:induction false} NarrowedPrefix(c: Row -> bool, rows: seq<Row>, a: seq<nat>, b: seq<nat>, n: nat)
    requires n <= |a| && (forall i | 0 <= i < |a| :: a[i] < |rows|) && forall i | 0 <= i < |a + b| ::
             (a + b)[i] < |rows|
    ensures Narrowed(c, rows, a + b, n) == Narrowed(c, rows, a, n)
  {
    if n > 0 {
      NarrowedPrefix(c, rows, a, b, n - 1);
    }
  }

  lemma MoreFold(cs: seq<Pred>, c: Pred, row: Row)
    ensures AllFold(cs + [c], row) <==> AllFold(cs, row) && Fold(c, row)
  {
    assert c in cs + [c];
  }

  /** Narrowing a selection by one more comparison. */
  lemma {:induction false} NarrowedSelected(cs: seq<Pred>, c: Pred, rows: seq<Row>, n: nat)
    requires n <= |rows|
    ensures var sel := Selected(PassingAll(cs), rows, n);
            Narrowed(Passing(c), rows, sel, |sel|) == Selected(PassingAll(cs + [c]), rows, n)
  {
    if n > 0 {
      NarrowedSelected(cs, c, rows, n - 1);
      var row, before := rows[n - 1], Selected(PassingAll(cs), rows, n - 1);
      MoreFold(cs, c, row);
      if AllFold(cs, row) {
        assert Selected(PassingAll(cs), rows, n) == before + [n - 1];
        NarrowedAppend(Passing(c), rows, before, n - 1);
      } else {
        assert Selected(PassingAll(cs), rows, n) == before;
      }
    }
  }

  lemma {:induction false} SelectedSame(p: Row -> bool, q: Row -> bool, rows: seq<Row>, n: nat)
    requires n <= |rows| && forall i | 0 <= i < n :: p(rows[i]) == q(rows[i])
    ensures Selected(p, rows, n) == Selected(q, rows, n)
  {
    if n > 0 {
      SelectedSame(p, q, rows, n - 1);
    }
  }

  lemma {:induction false} SelectedEverything(rows: seq<Row>, n: nat)
    requires n <= |rows|
    ensures Selected(PassingAll([]), rows, n) == seq(n, i requires 0 <= i < n => i)
  {
    if n > 0 {
      SelectedEverything(rows, n - 1);
    }
  }

  /** The comparison kernel: the selected rows on which the comparison holds. */
  method RunCompare(c: Pred, rows: seq<Row>, sel: seq<nat>) returns (out: seq<nat>)
    requires c.Comparison? && forall i | 0 <= i < |sel| :: sel[i] < |rows|
    ensures out == Narrowed(Passing(c), rows, sel, |sel|)
  {
    out := [];
    for i := 0 to |sel|
      invariant out == Narrowed(Passing(c), rows, sel, i)
    {
      var l, r := c.left(rows[sel[i]]), c.right(rows[sel[i]]);
      if l != Null && r != Null && c.test(l, r) {
        out := out + [sel[i]];
      }
    }
  }

  /** The narrowing chain: each comparison tests only the rows the ones before it kept, writing into the
      caller's selection and a scratch one in turn so that the last lands in the caller's. */
  method SelectChain(cs: seq<Pred>, rows: seq<Row>) returns (sel: seq<nat>)
    requires cs != [] && forall c | c in cs :: c.Comparison?
    ensures sel == Selected(PassingAll(cs), rows, |rows|)
  {
    hide Selected, Narrowed, AllFold, Passing, PassingAll, Fold;
    var mine: seq<nat>, scratch: seq<nat> := [], [];
    var nextIsMine := |cs| % 2 == 1;
    var cur: seq<nat> := seq(|rows|, i requires 0 <= i < |rows| => i);
    SelectedEverything(rows, |rows|);
    assert cs[..0] == [];
    for k := 0 to |cs|
      invariant cur == Selected(PassingAll(cs[..k]), rows, |rows|)
      invariant nextIsMine == ((|cs| - k) % 2 == 1)
      invariant k > 0 ==> cur == if nextIsMine then scratch else mine
    {
      if |cur| == 0 {
        NothingLeft(cs, rows, k);
        return [];
      }
      assert cs[k] in cs;
      TakeOne(cs, k);
      NarrowedSelected(cs[..k], cs[k], rows, |rows|);
      cur := RunCompare(cs[k], rows, cur);
      if nextIsMine {
        mine := cur;
      } else {
        scratch := cur;
      }
      nextIsMine := !nextIsMine;
    }
    assert cs[..|cs|] == cs;
    sel := mine;
  }

  lemma TakeOne(cs: seq<Pred>, k: nat)
    requires k < |cs|
    ensures cs[..k + 1] == cs[..k] + [cs[k]]
  {
  }

  lemma NothingLeft(cs: seq<Pred>, rows: seq<Row>, k: nat)
    requires k <= |cs| && Selected(PassingAll(cs[..k]), rows, |rows|) == []
    ensures Selected(PassingAll(cs), rows, |rows|) == []
  {
    SelectedFewer(PassingAll(cs), PassingAll(cs[..k]), rows, |rows|);
  }

  lemma {:induction false} SelectedFewer(p: Row -> bool, q: Row -> bool, rows: seq<Row>, n: nat)
    requires n <= |rows| && (forall i | 0 <= i < n && p(rows[i]) :: q(rows[i])) && Selected(q, rows, n) == []
    ensures Selected(p, rows, n) == []
  {
    if n > 0 {
      SelectedFewer(p, q, rows, n - 1);
    }
  }

  /** Both paths select exactly the rows on which the predicate is folded to 1, in order. */
  method Select(p: Pred, rows: seq<Row>) returns (sel: seq<nat>)
    ensures sel == Selected(Passing(p), rows, |rows|)
  {
    var cs := CollectComparisons(p);
    if |rows| > 0 && cs.Success? {
      sel := SelectChain(cs.value, rows);
      forall i | 0 <= i < |rows| ensures PassingAll(cs.value)(rows[i]) == Passing(p)(rows[i]) {
        CollectedFold(p, rows[i]);
      }
      SelectedSame(PassingAll(cs.value), Passing(p), rows, |rows|);
    } else {
      var out := Evaluate(p, rows);
      sel := [];
      for i := 0 to |rows|
        invariant sel == Selected(Passing(p), rows, i)
      {
        if out[i] {
          sel := sel + [i];
        }
      }
    }
  }

  /** A filter keeps row i exactly when the SQL logic of its predicate is true there. */
  lemma {:induction false} SelectedIsTrue(p: Pred, rows: seq<Row>, n: nat, i: nat)
    requires n <= |rows| && i < |rows| && ListsNonempty(p)
    ensures i in Selected(Passing(p), rows, n) <==> i < n && Sql(p, rows[i]) == True
  {
    FoldIsTrue(p, rows[i]);
    if n > 0 {
      SelectedIsTrue(p, rows, n - 1, i);
    }
  }
}
