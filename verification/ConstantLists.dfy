/** IN over a list of constants: cast and sorted once, then searched for every row. */
module ConstantLists {
  import opened Calendar
  import opened DateGrammar
  import opened Expressions
  import opened FoldedPredicates

  predicate Ascending(xs: seq<int>) {
    forall i, j | 0 <= i < j < |xs| :: xs[i] <= xs[j]
  }

  /** `sort` orders a sequence and keeps its elements. */
  ghost predicate Sorts(sort: seq<int> -> seq<int>) {
    forall xs {:trigger sort(xs)} :: Ascending(sort(xs)) && forall x {:trigger x in sort(xs)} ::
        x in sort(xs) <==> x in xs
  }

  method BinarySearch(xs: seq<int>, x: int) returns (found: bool)
    requires Ascending(xs)
    ensures found <==> x in xs
  {
    var lo, hi := 0, |xs|;
    while lo < hi
      invariant 0 <= lo <= hi <= |xs|
      invariant (forall i | 0 <= i < lo :: xs[i] < x) && forall i | hi <= i < |xs| :: x < xs[i]
    {
      var mid := (lo + hi) / 2;
      if xs[mid] < x {
        lo := mid + 1;
      } else if x < xs[mid] {
        hi := mid;
      } else {
        return true;
      }
    }
    return false;
  }

  /** A cast to an integer type: NULL stays NULL, and a value it cannot represent becomes NULL. */
  ghost predicate IsCast(cast: Value -> Value) {
    cast(Null) == Null && forall v :: cast(v).Null? || cast(v).Num?
  }

  function CastAll(cast: Value -> Value, list: seq<Value>): seq<Value> {
    seq(|list|, i requires 0 <= i < |list| => cast(list[i]))
  }

  /** The number kept for a constant: a cast that yields NULL leaves its filler behind. */
  function Kept(cast: Value -> Value, filler: int, v: Value): int {
    var c := cast(v);
    if c.Num? then c.n else filler
  }

  predicate Holds(cast: Value -> Value, filler: int, list: seq<Value>, n: int) {
    exists i :: 0 <= i < |list| && list[i] != Null && Kept(cast, filler, list[i]) == n
  }

  /** The constants of an integer IN list in order, without the NULLs, and whether there was a NULL. A
      constant is compared with NULL before it is cast. */
  method PrepareList(list: seq<Value>, cast: Value -> Value, filler: int, sort: seq<int> -> seq<int>)
    returns (values: seq<int>, hasNull: bool)
    requires Sorts(sort) && IsCast(cast)
    ensures Ascending(values) && (hasNull <==> Null in list)
    ensures forall n :: n in values <==> Holds(cast, filler, list, n)
  {
    var raw: seq<int> := [];
    hasNull := false;
    for i := 0 to |list|
      invariant (hasNull <==> Null in list[..i])
      invariant forall n :: n in raw <==> Holds(cast, filler, list[..i], n)
    {
      ghost var before, after := list[..i], list[..i + 1];
      assert after == before + [list[i]];
      ghost var was := raw;
      if list[i] == Null {
        hasNull := true;
      } else {
        raw := raw + [Kept(cast, filler, list[i])];
      }
      forall n ensures n in raw <==> Holds(cast, filler, after, n) {
        HoldsSnoc(cast, filler, before, list[i], n);
      }
    }
    assert list[..|list|] == list;
    values := sort(raw);
  }

  lemma HoldsSnoc(cast: Value -> Value, filler: int, list: seq<Value>, v: Value, n: int)
    ensures Holds(cast, filler, list + [v], n) <==>
            Holds(cast, filler, list, n) || (v != Null && Kept(cast, filler, v) == n)
  {
    var longer := list + [v];
    if Holds(cast, filler, list, n) {
      var i :| 0 <= i < |list| && list[i] != Null && Kept(cast, filler, list[i]) == n;
      assert longer[i] == list[i];
    }
    assert longer[|list|] == v;
  }

  /** What the sorted constants answer. */
  predicate SortedFold(negated: bool, x: Value, list: seq<Value>, cast: Value -> Value, filler: int) {
    x.Num? &&
    var matched := Holds(cast, filler, list, x.n);
    if negated then !matched && Null !in list else matched
  }

  /** Answers each row by looking it up among the sorted constants. */
  method ProbeSortedIn(negated: bool, tested: seq<Value>, list: seq<Value>, cast: Value -> Value, filler: int,
          sort: seq<int> -> seq<int>)
    returns (out: seq<bool>)
    requires Sorts(sort) && IsCast(cast) && forall v | v in tested :: v.Null? || v.Num?
    ensures |out| == |tested|
    ensures forall i | 0 <= i < |tested| :: out[i] == SortedFold(negated, tested[i], list, cast, filler)
  {
    var values, hasNull := PrepareList(list, cast, filler, sort);
    out := [];
    for i := 0 to |tested|
      invariant |out| == i && forall k | 0 <= k < i :: out[k] == SortedFold(negated, tested[k], list, cast, filler)
    {
      assert tested[i] in tested;
      if tested[i] == Null {
        out := out + [false];
      } else {
        var matched := BinarySearch(values, tested[i].n);
        out := out + [if negated then !matched && !hasNull else matched];
      }
    }
  }

  // ---------------------------------------------------------------- agreement with the general kernel

  /** Some constant is not NULL but its cast is. */
  predicate CastFails(cast: Value -> Value, list: seq<Value>) {
    exists i :: 0 <= i < |list| && list[i] != Null && cast(list[i]) == Null
  }

  lemma HoldsCasts(cast: Value -> Value, filler: int, list: seq<Value>, n: int)
    requires IsCast(cast)
    ensures Holds(cast, filler, list, n) <==> Num(n) in CastAll(cast, list) || (CastFails(cast, list) && n == filler)
  {
    var casts := CastAll(cast, list);
    if Holds(cast, filler, list, n) {
      var i :| 0 <= i < |list| && list[i] != Null && Kept(cast, filler, list[i]) == n;
      assert casts[i] == cast(list[i]);
    }
    if Num(n) in casts {
      var i :| 0 <= i < |casts| && casts[i] == Num(n);
      assert list[i] != Null;
    }
    if CastFails(cast, list) && n == filler {
      var i :| 0 <= i < |list| && list[i] != Null && cast(list[i]) == Null;
      assert Kept(cast, filler, list[i]) == n;
    }
  }

  lemma NullCasts(cast: Value -> Value, list: seq<Value>)
    requires IsCast(cast)
    ensures Null in CastAll(cast, list) <==> Null in list || CastFails(cast, list)
  {
    var casts := CastAll(cast, list);
    if Null in casts {
      var i :| 0 <= i < |casts| && casts[i] == Null;
      assert cast(list[i]) == Null;
    }
    if Null in list {
      var i :| 0 <= i < |list| && list[i] == Null;
      assert casts[i] == Null;
    }
    if CastFails(cast, list) {
      var i :| 0 <= i < |list| && list[i] != Null && cast(list[i]) == Null;
      assert casts[i] == Null;
    }
  }

  /** The sorted constants answer a row as the general kernel does on the cast list if and only if every
      cast succeeds or the row is one on which the failed constants change nothing. */
  lemma SortedExact(negated: bool, x: Value, list: seq<Value>, cast: Value -> Value, filler: int)
    requires IsCast(cast) && (x.Null? || x.Num?)
    ensures SortedFold(negated, x, list, cast, filler) == InFold(negated, x, CastAll(cast, list)) <==>
            || x == Null || !CastFails(cast, list) || x in CastAll(cast, list)
            || (if negated then Null in list || x == Num(filler) else x != Num(filler))
  {
    NullCasts(cast, list);
    if x.Num? {
      HoldsCasts(cast, filler, list, x.n);
    }
  }

  // ---------------------------------------------------------------- a date that does not exist

  /** The cast of a text to a DATE. */
  function ToDate(): Value -> Value {
    (v: Value) => match v
      case Text(s) => (match ParseDate(s, true) case None => Null case Some((days, _)) => Num(days))
      case _ => v
  }

  /** The bytes a NULL integer of 32 bits holds. */
  const LEAST_INT32: int := -0x8000_0000

  /** d NOT IN ('1995-13-45') is NULL, yet the sorted list selects every date. */
  lemma NoSuchDate(days: int)
    requires days != LEAST_INT32
    ensures var list := [Text("1995-13-45")];
            && IsCast(ToDate()) && CastAll(ToDate(), list) == [Null]
            && SortedFold(true, Num(days), list, ToDate(), LEAST_INT32)
            && !InFold(true, Num(days), CastAll(ToDate(), list))
  {
    var list := [Text("1995-13-45")];
    NoMonth13();
    hide ParseDate;
    assert CastAll(ToDate(), list) == [Null];
    assert list[0] != Null && ToDate()(list[0]) == Null;
    HoldsCasts(ToDate(), LEAST_INT32, list, days);
  }

  /** There is no thirteenth month. */
  lemma NoMonth13()
    ensures ParseDate("1995-13-45", true).None?
  {
    var s := "1995-13-45";
    SpacesEnd(s, 0, 0);
    DigitsEnd(s, 0, 4);
    assert DoubleDigit(s, 5) == Some((13, 7));
    assert MonthAndDay(s, 4).Some? ==> MonthAndDay(s, 4).value.0 == 13;
    hide SkipSpaces, SkipDigits, Number, MonthAndDay, Ending, DoubleDigit;
  }
}
