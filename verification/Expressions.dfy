/** Plan expressions: their value on a pair of input rows, and the ways the optimizer re-addresses
    the columns they read. */
module Expressions {

  datatype Value = Null | Num(n: int) | Text(s: string)

  type Row = seq<Value>

  /** An equality test, or any other test of two non-NULL values. */
  datatype Test = Equal | Other(test: (Value, Value) -> bool)

  /** `Column(t, c)` reads column `c` of input `t`: input 0 is the only input of a filter and the left
      input of a join, input 1 the right input of a join. */
  datatype Expr =
    | Column(tuple: nat, col: nat)
    | Constant(value: Value)
    | And(left: Expr, right: Expr)
    | Or(left: Expr, right: Expr)
    | Compare(op: Test, left: Expr, right: Expr)
    | Call(f: seq<Value> -> Value, args: seq<Expr>)

  /** A predicate selects a row when its value is neither NULL nor zero. */
  predicate Truth(v: Value) {
    v.Num? && v.n != 0
  }

  function FromBool(b: bool): Value {
    if b then Num(1) else Num(0)
  }

  /** Comparisons fold an unknown outcome to false; the connectives combine folded truth values. */
  function Eval(e: Expr, l: Row, r: Row): Value {
    match e
    case Column(t, c) => var row := if t == 0 then l else r; if c < |row| then row[c] else Null
    case Constant(v) => v
    case And(a, b) => FromBool(Truth(Eval(a, l, r)) && Truth(Eval(b, l, r)))
    case Or(a, b) => FromBool(Truth(Eval(a, l, r)) || Truth(Eval(b, l, r)))
    case Compare(op, a, b) => FromBool(Passes(op, Eval(a, l, r), Eval(b, l, r)))
    case Call(f, args) => f(seq(|args|, i requires 0 <= i < |args| => Eval(args[i], l, r)))
  }

  predicate Passes(op: Test, a: Value, b: Value) {
    a != Null && b != Null && if op.Equal? then a == b else op.test(a, b)
  }

  predicate Holds(e: Expr, l: Row, r: Row) {
    Truth(Eval(e, l, r))
  }

  /** Every column is read from a join input, within that input's width. */
  predicate Scoped(e: Expr, lw: nat, rw: nat) {
    match e
    case Column(t, c) => if t == 0 then c < lw else t == 1 && c < rw
    case Constant(_) => true
    case And(a, b) => Scoped(a, lw, rw) && Scoped(b, lw, rw)
    case Or(a, b) => Scoped(a, lw, rw) && Scoped(b, lw, rw)
    case Compare(_, a, b) => Scoped(a, lw, rw) && Scoped(b, lw, rw)
    case Call(_, args) => forall i | 0 <= i < |args| :: Scoped(args[i], lw, rw)
  }

  /** Every column is read from input 0, within its width. */
  predicate Flat(e: Expr, w: nat) {
    Scoped(e, w, 0)
  }

  // ---------------------------------------------------------------- re-addressing

  /** Two-sided to flat: column `k` of input 1 becomes column `lw + k` of input 0. */
  function Flatten(e: Expr, lw: nat): Expr {
    match e
    case Column(t, c) => Column(0, if t == 0 then c else lw + c)
    case Constant(_) => e
    case And(a, b) => And(Flatten(a, lw), Flatten(b, lw))
    case Or(a, b) => Or(Flatten(a, lw), Flatten(b, lw))
    case Compare(op, a, b) => Compare(op, Flatten(a, lw), Flatten(b, lw))
    case Call(f, args) => Call(f, seq(|args|, i requires 0 <= i < |args| => Flatten(args[i], lw)))
  }

  datatype Result<+T> = Success(value: T) | Failure {
    predicate IsFailure() { Failure? }
    function PropagateFailure<U>(): Result<U> requires Failure? { Failure }
    function Extract(): T requires Success? { value }
  }

  /** Flat to two-sided. Fails on a reference that is not to input 0, or past the two inputs. */
  function RewriteForJoin(e: Expr, lw: nat, rw: nat): Result<Expr> {
    match e
    case Column(t, c) =>
      if t != 0 then Failure
      else if c < lw then Success(Column(0, c))
      else if c < lw + rw then Success(Column(1, c - lw))
      else Failure
    case Constant(_) => Success(e)
    case And(a, b) =>
      var a' :- RewriteForJoin(a, lw, rw);
      var b' :- RewriteForJoin(b, lw, rw);
      Success(And(a', b'))
    case Or(a, b) =>
      var a' :- RewriteForJoin(a, lw, rw);
      var b' :- RewriteForJoin(b, lw, rw);
      Success(Or(a', b'))
    case Compare(op, a, b) =>
      var a' :- RewriteForJoin(a, lw, rw);
      var b' :- RewriteForJoin(b, lw, rw);
      Success(Compare(op, a', b'))
    case Call(f, args) =>
      if forall i | 0 <= i < |args| :: RewriteForJoin(args[i], lw, rw).Success? then
        Success(Call(f, seq(|args|, i requires 0 <= i < |args| => RewriteForJoin(args[i], lw, rw).value)))
      else Failure
  }

  /** A conjunct over the right input only, moved below the join onto that input. */
  function RebaseRight(e: Expr, lw: nat): Expr {
    match e
    case Column(_, c) => Column(0, if c >= lw then c - lw else 0)
    case Constant(_) => e
    case And(a, b) => And(RebaseRight(a, lw), RebaseRight(b, lw))
    case Or(a, b) => Or(RebaseRight(a, lw), RebaseRight(b, lw))
    case Compare(op, a, b) => Compare(op, RebaseRight(a, lw), RebaseRight(b, lw))
    case Call(f, args) => Call(f, seq(|args|, i requires 0 <= i < |args| => RebaseRight(args[i], lw)))
  }

  datatype Side = Neither | OnLeft | OnRight | Both

  function Combine(a: Side, b: Side): Side {
    if a == Neither then b else if b == Neither then a else if a == b then a else Both
  }

  function SideOf(e: Expr, lw: nat): Side {
    match e
    case Column(_, c) => if c < lw then OnLeft else OnRight
    case Constant(_) => Neither
    case And(a, b) => Combine(SideOf(a, lw), SideOf(b, lw))
    case Or(a, b) => Combine(SideOf(a, lw), SideOf(b, lw))
    case Compare(_, a, b) => Combine(SideOf(a, lw), SideOf(b, lw))
    case Call(_, args) => SideOfAll(args, lw, |args|)
  }

  /** The side of the first `n` arguments together. */
  function SideOfAll(args: seq<Expr>, lw: nat, n: nat): Side
    requires n <= |args|
    decreases args, n
  {
    if n == 0 then Neither else Combine(SideOfAll(args, lw, n - 1), SideOf(args[n - 1], lw))
  }

  // ---------------------------------------------------------------- re-addressing keeps the value

  lemma {:induction false} FlattenEval(e: Expr, l: Row, r: Row, rw: nat)
    requires Scoped(e, |l|, rw)
    ensures Eval(Flatten(e, |l|), l + r, []) == Eval(e, l, r)
    ensures Flat(Flatten(e, |l|), |l| + rw)
  {
    match e
    case Column(_, _) =>
    case Constant(_) =>
    case And(a, b) => FlattenEval(a, l, r, rw); FlattenEval(b, l, r, rw);
    case Or(a, b) => FlattenEval(a, l, r, rw); FlattenEval(b, l, r, rw);
    case Compare(_, a, b) => FlattenEval(a, l, r, rw); FlattenEval(b, l, r, rw);
    case Call(f, args) =>
      var args' := Flatten(e, |l|).args;
      forall i | 0 <= i < |args|
        ensures Eval(args'[i], l + r, []) == Eval(args[i], l, r) && Flat(args'[i], |l| + rw)
      {
        FlattenEval(args[i], l, r, rw);
      }
      assert seq(|args'|, i requires 0 <= i < |args'| => Eval(args'[i], l + r, [])) ==
             seq(|args|, i requires 0 <= i < |args| => Eval(args[i], l, r));
  }

  lemma {:induction false} RewriteEval(e: Expr, l: Row, r: Row)
    requires Flat(e, |l| + |r|)
    ensures RewriteForJoin(e, |l|, |r|).Success?
    ensures var e' := RewriteForJoin(e, |l|, |r|).value;
            Scoped(e', |l|, |r|) && Eval(e', l, r) == Eval(e, l + r, [])
  {
    match e
    case Column(_, _) =>
    case Constant(_) =>
    case And(a, b) => RewriteEval(a, l, r); RewriteEval(b, l, r);
    case Or(a, b) => RewriteEval(a, l, r); RewriteEval(b, l, r);
    case Compare(_, a, b) => RewriteEval(a, l, r); RewriteEval(b, l, r);
    case Call(f, args) =>
      forall i | 0 <= i < |args|
        ensures RewriteForJoin(args[i], |l|, |r|).Success?
        ensures Scoped(RewriteForJoin(args[i], |l|, |r|).value, |l|, |r|)
        ensures Eval(RewriteForJoin(args[i], |l|, |r|).value, l, r) == Eval(args[i], l + r, [])
      {
        RewriteEval(args[i], l, r);
      }
      var args' := RewriteForJoin(e, |l|, |r|).value.args;
      assert seq(|args'|, i requires 0 <= i < |args'| => Eval(args'[i], l, r)) ==
             seq(|args|, i requires 0 <= i < |args| => Eval(args[i], l + r, []));
  }

  /** The rewrite succeeds exactly on flat expressions within the two inputs. */
  lemma {:induction false} RewriteSucceedsIff(e: Expr, lw: nat, rw: nat)
    ensures RewriteForJoin(e, lw, rw).Success? <==> Flat(e, lw + rw)
  {
    match e
    case Column(_, _) =>
    case Constant(_) =>
    case And(a, b) => RewriteSucceedsIff(a, lw, rw); RewriteSucceedsIff(b, lw, rw);
    case Or(a, b) => RewriteSucceedsIff(a, lw, rw); RewriteSucceedsIff(b, lw, rw);
    case Compare(_, a, b) => RewriteSucceedsIff(a, lw, rw); RewriteSucceedsIff(b, lw, rw);
    case Call(_, args) =>
      forall i | 0 <= i < |args| ensures RewriteForJoin(args[i], lw, rw).Success? <==> Flat(args[i], lw + rw) {
        RewriteSucceedsIff(args[i], lw, rw);
      }
  }

  /** Flattening and rewriting undo each other on well-scoped predicates. */
  lemma {:induction false} FlattenThenRewrite(e: Expr, lw: nat, rw: nat)
    requires Scoped(e, lw, rw)
    ensures RewriteForJoin(Flatten(e, lw), lw, rw) == Success(e)
  {
    match e
    case Column(_, _) =>
    case Constant(_) =>
    case And(a, b) => FlattenThenRewrite(a, lw, rw); FlattenThenRewrite(b, lw, rw);
    case Or(a, b) => FlattenThenRewrite(a, lw, rw); FlattenThenRewrite(b, lw, rw);
    case Compare(_, a, b) => FlattenThenRewrite(a, lw, rw); FlattenThenRewrite(b, lw, rw);
    case Call(f, args) =>
      var args' := Flatten(e, lw).args;
      forall i | 0 <= i < |args| ensures RewriteForJoin(args'[i], lw, rw) == Success(args[i]) {
        FlattenThenRewrite(args[i], lw, rw);
      }
      assert seq(|args'|, i requires 0 <= i < |args'| => RewriteForJoin(args'[i], lw, rw).value) == args;
  }

  lemma {:induction false} RewriteThenFlatten(e: Expr, lw: nat, rw: nat)
    requires Flat(e, lw + rw)
    ensures RewriteForJoin(e, lw, rw).Success? && Flatten(RewriteForJoin(e, lw, rw).value, lw) == e
  {
    match e
    case Column(_, _) =>
    case Constant(_) =>
    case And(a, b) => RewriteThenFlatten(a, lw, rw); RewriteThenFlatten(b, lw, rw);
    case Or(a, b) => RewriteThenFlatten(a, lw, rw); RewriteThenFlatten(b, lw, rw);
    case Compare(_, a, b) => RewriteThenFlatten(a, lw, rw); RewriteThenFlatten(b, lw, rw);
    case Call(f, args) =>
      forall i | 0 <= i < |args|
        ensures RewriteForJoin(args[i], lw, rw).Success?
        ensures Flatten(RewriteForJoin(args[i], lw, rw).value, lw) == args[i]
      {
        RewriteThenFlatten(args[i], lw, rw);
      }
      var args' := RewriteForJoin(e, lw, rw).value.args;
      assert seq(|args'|, i requires 0 <= i < |args'| => Flatten(args'[i], lw)) == args;
  }

  // ---------------------------------------------------------------- one-sided conjuncts

  /** What `SideOf` promises: an expression on one side reads nothing from the other. */
  predicate Reads(e: Expr, lo: nat, hi: nat) {
    match e
    case Column(t, c) => t == 0 && lo <= c < hi
    case Constant(_) => true
    case And(a, b) => Reads(a, lo, hi) && Reads(b, lo, hi)
    case Or(a, b) => Reads(a, lo, hi) && Reads(b, lo, hi)
    case Compare(_, a, b) => Reads(a, lo, hi) && Reads(b, lo, hi)
    case Call(_, args) => forall i | 0 <= i < |args| :: Reads(args[i], lo, hi)
  }

  lemma {:induction false} SideReads(e: Expr, lw: nat, w: nat)
    requires Flat(e, w)
    ensures SideOf(e, lw) in {Neither, OnLeft} ==> Reads(e, 0, lw)
    ensures SideOf(e, lw) in {Neither, OnRight} ==> Reads(e, lw, w)
    decreases e
  {
    match e
    case Column(_, _) =>
    case Constant(_) =>
    case And(a, b) => SideReads(a, lw, w); SideReads(b, lw, w);
    case Or(a, b) => SideReads(a, lw, w); SideReads(b, lw, w);
    case Compare(_, a, b) => SideReads(a, lw, w); SideReads(b, lw, w);
    case Call(_, args) =>
      forall i | 0 <= i < |args|
        ensures SideOf(e, lw) in {Neither, OnLeft} ==> Reads(args[i], 0, lw)
        ensures SideOf(e, lw) in {Neither, OnRight} ==> Reads(args[i], lw, w)
      {
        SideReads(args[i], lw, w);
        SideOfAllAbsorbs(args, lw, |args|, i);
      }
  }

  /** An argument on another side would show in the side of the whole. */
  lemma {:induction false} SideOfAllAbsorbs(args: seq<Expr>, lw: nat, n: nat, i: nat)
    requires i < n <= |args|
    ensures SideOf(args[i], lw) in {Neither, SideOfAll(args, lw, n)} || SideOfAll(args, lw, n) == Both
    decreases n
  {
    if i < n - 1 {
      SideOfAllAbsorbs(args, lw, n - 1, i);
    }
  }

  /** An expression over the left columns has the same value on the left row alone. */
  lemma {:induction false} LeftEval(e: Expr, l: Row, r: Row)
    requires Reads(e, 0, |l|)
    ensures Eval(e, l, []) == Eval(e, l + r, []) && Flat(e, |l|)
  {
    match e
    case Column(_, _) =>
    case Constant(_) =>
    case And(a, b) => LeftEval(a, l, r); LeftEval(b, l, r);
    case Or(a, b) => LeftEval(a, l, r); LeftEval(b, l, r);
    case Compare(_, a, b) => LeftEval(a, l, r); LeftEval(b, l, r);
    case Call(f, args) =>
      forall i | 0 <= i < |args| ensures Eval(args[i], l, []) == Eval(args[i], l + r, []) && Flat(args[i], |l|) {
        LeftEval(args[i], l, r);
      }
      assert seq(|args|, i requires 0 <= i < |args| => Eval(args[i], l, [])) ==
             seq(|args|, i requires 0 <= i < |args| => Eval(args[i], l + r, []));
  }

  /** ... and one over the right columns, rebased, on the right row alone. */
  lemma {:induction false} RightEval(e: Expr, l: Row, r: Row)
    requires Reads(e, |l|, |l| + |r|)
    ensures Eval(RebaseRight(e, |l|), r, []) == Eval(e, l + r, []) && Flat(RebaseRight(e, |l|), |r|)
  {
    match e
    case Column(_, _) =>
    case Constant(_) =>
    case And(a, b) => RightEval(a, l, r); RightEval(b, l, r);
    case Or(a, b) => RightEval(a, l, r); RightEval(b, l, r);
    case Compare(_, a, b) => RightEval(a, l, r); RightEval(b, l, r);
    case Call(f, args) =>
      var args' := RebaseRight(e, |l|).args;
      forall i | 0 <= i < |args|
        ensures Eval(args'[i], r, []) == Eval(args[i], l + r, []) && Flat(args'[i], |r|)
      {
        RightEval(args[i], l, r);
      }
      assert seq(|args'|, i requires 0 <= i < |args'| => Eval(args'[i], r, [])) ==
             seq(|args|, i requires 0 <= i < |args| => Eval(args[i], l + r, []));
  }
}
