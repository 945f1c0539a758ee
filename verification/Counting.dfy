/** Counting the elements of a sequence that pass a test. */
module Counting {

  function Count<T>(xs: seq<T>, f: T -> bool): (n: nat)
    ensures n <= |xs|
  {
    if xs == [] then 0 else Count(xs[..|xs| - 1], f) + if f(xs[|xs| - 1]) then 1 else 0
  }

  lemma {:induction false} CountMove<T>(xs: seq<T>, i: nat, x: T, f: T -> bool)
    requires i < |xs|
    ensures Count(xs[i := x], f) + (if f(xs[i]) then 1 else 0) == Count(xs, f) + (if f(x) then 1 else 0)
  {
    var n := |xs| - 1;
    if i == n {
      assert xs[i := x][..n] == xs[..n];
    } else {
      assert xs[i := x][..n] == xs[..n][i := x];
      CountMove(xs[..n], i, x, f);
    }
  }

  lemma {:induction false} CountAppend<T>(xs: seq<T>, ys: seq<T>, f: T -> bool)
    ensures Count(xs + ys, f) == Count(xs, f) + Count(ys, f)
  {
    if ys == [] {
      assert xs + ys == xs;
    } else {
      var n := |ys| - 1;
      assert (xs + ys)[..|xs| + n] == xs + ys[..n];
      CountAppend(xs, ys[..n], f);
    }
  }

  lemma {:induction false} CountSame<T>(xs: seq<T>, ys: seq<T>, f: T -> bool)
    requires |xs| == |ys| && forall i | 0 <= i < |xs| :: f(xs[i]) == f(ys[i])
    ensures Count(xs, f) == Count(ys, f)
  {
    if xs != [] {
      var n := |xs| - 1;
      CountSame(xs[..n], ys[..n], f);
    }
  }

  lemma {:induction false} CountNone<T>(xs: seq<T>, f: T -> bool)
    ensures Count(xs, f) == 0 <==> forall i | 0 <= i < |xs| :: !f(xs[i])
  {
    if xs != [] {
      var n := |xs| - 1;
      CountNone(xs[..n], f);
      if Count(xs, f) == 0 {
        forall i | 0 <= i < |xs| ensures !f(xs[i]) {
          if i < n {
            assert xs[..n][i] == xs[i];
          }
        }
      }
    }
  }

  lemma CountSome<T>(xs: seq<T>, i: nat, f: T -> bool)
    requires i < |xs| && f(xs[i])
    ensures Count(xs, f) > 0
  {
    CountNone(xs, f);
  }
}
