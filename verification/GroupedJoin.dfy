/** Joins against a grouped aggregate, and semi and anti joins as filters. */
module GroupedJoin {
  import opened Expressions
  import opened Plans
  import opened JoinAlgebra

  // ---------------------------------------------------------------- grouping

  /** The argument rows whose key is `key`, in input order. */
  function ArgsWith(ks: seq<(Row, Row)>, key: Row): seq<Row> {
    if ks == [] then []
    else (if ks[0].0 == key then [ks[0].1] else []) + ArgsWith(ks[1..], key)
  }

  predicate Distinct(keys: seq<Row>) {
    forall i, j | 0 <= i < j < |keys| :: keys[i] != keys[j]
  }

  /** A key is listed exactly when some row has it. */
  predicate Listed(keys: seq<Row>, ks: seq<(Row, Row)>, key: Row) {
    key in keys <==> ArgsWith(ks, key) != []
  }

  /** One row per key that occurs, in some order: the key, then the aggregates of its rows. NULL keys
      are equal to each other here. */
  ghost predicate GroupsAs(rows: Rows, ks: seq<(Row, Row)>, aggregates: seq<Row> -> Row, keys: seq<Row>) {
    && Distinct(keys)
    && (forall key: Row :: Listed(keys, ks, key))
    && |rows| == |keys|
    && (forall i | 0 <= i < |rows| :: rows[i] == keys[i] + aggregates(ArgsWith(ks, keys[i])))
  }

  ghost predicate IsGrouping(fold: seq<(Row, Row)> -> Rows, aggregates: seq<Row> -> Row, ks: seq<(Row, Row)>) {
    exists keys: seq<Row> :: GroupsAs(fold(ks), ks, aggregates, keys)
  }

  ghost predicate Groups(fold: seq<(Row, Row)> -> Rows, aggregates: seq<Row> -> Row) {
    forall ks: seq<(Row, Row)> :: IsGrouping(fold, aggregates, ks)
  }

  /** The distinct keys in the order they are first seen, which is one such order. */
  function FirstSeen(ks: seq<(Row, Row)>): seq<Row> {
    if ks == [] then []
    else
      var seen := FirstSeen(ks[..|ks| - 1]);
      var key := ks[|ks| - 1].0;
      if key in seen then seen else seen + [key]
  }

  function GroupRows(ks: seq<(Row, Row)>, aggregates: seq<Row> -> Row): Rows {
    var keys := FirstSeen(ks);
    seq(|keys|, i requires 0 <= i < |keys| => keys[i] + aggregates(ArgsWith(ks, keys[i])))
  }

  function GroupFold(aggregates: seq<Row> -> Row): seq<(Row, Row)> -> Rows {
    ks => GroupRows(ks, aggregates)
  }

  lemma {:induction false} ArgsWithAppend(ks: seq<(Row, Row)>, ls: seq<(Row, Row)>, key: Row)
    ensures ArgsWith(ks + ls, key) == ArgsWith(ks, key) + ArgsWith(ls, key)
  {
    if ks == [] {
      assert ks + ls == ls;
    } else {
      ArgsWithAppend(ks[1..], ls, key);
      assert (ks + ls)[0] == ks[0] && (ks + ls)[1..] == ks[1..] + ls;
      var first := if ks[0].0 == key then [ks[0].1] else [];
      assert ArgsWith(ks, key) == first + ArgsWith(ks[1..], key);
      assert ArgsWith(ks + ls, key) == first + (ArgsWith(ks[1..], key) + ArgsWith(ls, key));
    }
  }

  lemma {:induction false} FirstSeenKeys(ks: seq<(Row, Row)>, key: Row)
    ensures key in FirstSeen(ks) <==> ArgsWith(ks, key) != []
    ensures Distinct(FirstSeen(ks))
  {
    if ks != [] {
      var n := |ks| - 1;
      assert ks == ks[..n] + [ks[n]];
      ArgsWithAppend(ks[..n], [ks[n]], key);
      FirstSeenKeys(ks[..n], key);
    }
  }

  lemma FirstSeenGroups(aggregates: seq<Row> -> Row)
    ensures Groups(GroupFold(aggregates), aggregates)
  {
    forall ks: seq<(Row, Row)> ensures IsGrouping(GroupFold(aggregates), aggregates, ks) {
      forall key: Row ensures Listed(FirstSeen(ks), ks, key) {
        FirstSeenKeys(ks, key);
      }
      FirstSeenKeys(ks, []);
      assert GroupsAs(GroupFold(aggregates)(ks), ks, aggregates, FirstSeen(ks));
    }
  }

  // ---------------------------------------------------------------- joins as filters and maps

  function HasMatch(on: (Row, Row) -> bool, rs: Rows): Row -> bool {
    l => Matches(on, l, rs) != []
  }

  function HasNone(on: (Row, Row) -> bool, rs: Rows): Row -> bool {
    l => Matches(on, l, rs) == []
  }

  lemma {:induction false} MatchesSome(on: (Row, Row) -> bool, l: Row, rs: Rows, j: nat)
    requires j < |rs| && on(l, rs[j])
    ensures Matches(on, l, rs) != []
  {
    if j > 0 {
      MatchesSome(on, l, rs[1..], j - 1);
    }
  }

  lemma {:induction false} MatchesOnly(on: (Row, Row) -> bool, l: Row, rs: Rows, j: nat)
    requires j < |rs| && forall i | 0 <= i < |rs| :: on(l, rs[i]) == (i == j)
    ensures Matches(on, l, rs) == [l + rs[j]]
  {
    assert on(l, rs[0]) == (0 == j);
    if j == 0 {
      forall i | 0 <= i < |rs[1..]| ensures !on(l, rs[1..][i]) {
        assert rs[1..][i] == rs[i + 1];
      }
      MatchesNone(on, l, rs[1..]);
    } else {
      forall i | 0 <= i < |rs[1..]| ensures on(l, rs[1..][i]) == (i == j - 1) {
        assert rs[1..][i] == rs[i + 1];
      }
      MatchesOnly(on, l, rs[1..], j - 1);
    }
  }

  lemma {:induction false} SemiIsFilter(on: (Row, Row) -> bool, ls: Rows, rs: Rows, rw: nat)
    ensures Join(SEMI, on, ls, rs, rw) == FilterRows(HasMatch(on, rs), ls)
  {
    if ls != [] {
      SemiIsFilter(on, ls[1..], rs, rw);
    }
  }

  lemma {:induction false} AntiIsFilter(on: (Row, Row) -> bool, ls: Rows, rs: Rows, rw: nat)
    ensures Join(ANTI, on, ls, rs, rw) == FilterRows(HasNone(on, rs), ls)
  {
    if ls != [] {
      AntiIsFilter(on, ls[1..], rs, rw);
    }
  }

  function Prefix(w: nat): Row -> Row {
    row => if w <= |row| then row[..w] else row
  }

  function BothTests(f: Row -> bool, g: Row -> bool): Row -> bool {
    row => f(row) && g(row)
  }

  lemma {:induction false} FilterTwice(f: Row -> bool, g: Row -> bool, rows: Rows)
    ensures FilterRows(g, FilterRows(f, rows)) == FilterRows(BothTests(f, g), rows)
  {
    if rows != [] {
      FilterAppend(g, if f(rows[0]) then [rows[0]] else [], FilterRows(f, rows[1..]));
      FilterTwice(f, g, rows[1..]);
    }
  }

  lemma MapSplit(f: Row -> Row, rows: Rows)
    requires rows != []
    ensures MapRows(f, rows) == [f(rows[0])] + MapRows(f, rows[1..])
  {
  }

  lemma MapAppend(f: Row -> Row, a: Rows, b: Rows)
    ensures MapRows(f, a + b) == MapRows(f, a) + MapRows(f, b)
  {
  }

  /** A test that only looks at a prefix commutes with taking the prefix. */
  lemma {:induction false} FilterPrefix(keep: Row -> bool, test: Row -> bool, rows: Rows, w: nat)
    requires forall i | 0 <= i < |rows| :: keep(rows[i]) == test(Prefix(w)(rows[i]))
    ensures MapRows(Prefix(w), FilterRows(keep, rows)) == FilterRows(test, MapRows(Prefix(w), rows))
  {
    if rows != [] {
      assert keep(rows[0]) == test(Prefix(w)(rows[0]));
      forall i | 0 <= i < |rows[1..]| ensures keep(rows[1..][i]) == test(Prefix(w)(rows[1..][i])) {
        assert rows[1..][i] == rows[i + 1];
      }
      FilterPrefix(keep, test, rows[1..], w);
      MapSplit(Prefix(w), rows);
      var first := if keep(rows[0]) then [rows[0]] else [];
      MapAppend(Prefix(w), first, FilterRows(keep, rows[1..]));
      assert MapRows(Prefix(w), rows)[1..] == MapRows(Prefix(w), rows[1..]);
    }
  }

  // ---------------------------------------------------------------- a LEFT join against groups

  predicate NonNull(key: Row) {
    forall i | 0 <= i < |key| :: key[i] != Null
  }

  /** What a LEFT join appends to a row with key `key`: the key and the scalar computed from the
      group's argument rows, or NULLs when there is no such group. */
  function Answer(ks: seq<(Row, Row)>, key: Row, scalar: seq<Row> -> Value): (r: Row)
    ensures |r| == |key| + 1
  {
    var group := ArgsWith(ks, key);
    if NonNull(key) && group != [] then key + [scalar(group)] else Nulls(|key| + 1)
  }

  function Answered(ks: seq<(Row, Row)>, leftKeys: seq<Expr>, scalar: seq<Row> -> Value): Row -> Row {
    row => row + Answer(ks, EvalAll(leftKeys, row, []), scalar)
  }

  function RightKeys(k: nat): seq<Expr> {
    seq(k, i requires 0 <= i < k => Column(1, i))
  }

  lemma RightKeysRead(k: nat, row: Row)
    requires k <= |row|
    ensures EvalAll(RightKeys(k), [], row) == row[..k]
  {
    forall i | 0 <= i < k ensures EvalAll(RightKeys(k), [], row)[i] == row[i] {
    }
  }

  /** `rows` are the groups of `ks`, each reduced to its key and its scalar. */
  ghost predicate Reduced(rows: Rows, ks: seq<(Row, Row)>, scalar: seq<Row> -> Value, keys: seq<Row>, k: nat) {
    && Distinct(keys)
    && (forall key: Row :: Listed(keys, ks, key))
    && |rows| == |keys|
    && (forall i | 0 <= i < |rows| :: ReducedRow(rows[i], ks, scalar, keys[i], k))
  }

  predicate ReducedRow(row: Row, ks: seq<(Row, Row)>, scalar: seq<Row> -> Value, key: Row, k: nat) {
    |key| == k && row == key + [scalar(ArgsWith(ks, key))]
  }

  lemma ReducedMatch(leftKeys: seq<Expr>, l: Row, rows: Rows, ks: seq<(Row, Row)>, scalar: seq<Row> -> Value,
          keys: seq<Row>, i: nat)
    requires Reduced(rows, ks, scalar, keys, |leftKeys|) && i < |rows|
    ensures OnKeys(leftKeys, RightKeys(|leftKeys|))(l, rows[i]) ==
            (NonNull(EvalAll(leftKeys, l, [])) && EvalAll(leftKeys, l, []) == keys[i])
  {
    var key := EvalAll(leftKeys, l, []);
    assert ReducedRow(rows[i], ks, scalar, keys[i], |leftKeys|);
    RightKeysRead(|leftKeys|, rows[i]);
    assert rows[i][..|leftKeys|] == keys[i];
    if KeysMatch(key, keys[i]) {
      assert key == keys[i];
    }
  }

  lemma KeyAt(keys: seq<Row>, key: Row) returns (j: nat)
    requires Distinct(keys) && key in keys
    ensures j < |keys| && keys[j] == key && forall i | 0 <= i < |keys| :: (keys[i] == key) == (i == j)
  {
    j :| 0 <= j < |keys| && keys[j] == key;
  }

  lemma JoinOneFound(on: (Row, Row) -> bool, l: Row, rows: Rows, keys: seq<Row>, j: nat, rw: nat)
    requires |rows| == |keys| && j < |keys|
    requires forall i | 0 <= i < |keys| :: (keys[i] == keys[j]) == (i == j)
    requires forall i | 0 <= i < |rows| :: on(l, rows[i]) == (keys[i] == keys[j])
    ensures JoinOne(LEFT, on, l, rows, rw) == [l + rows[j]]
  {
    MatchesOnly(on, l, rows, j);
  }

  lemma JoinOneNone(on: (Row, Row) -> bool, l: Row, rows: Rows, rw: nat)
    requires forall i | 0 <= i < |rows| :: !on(l, rows[i])
    ensures JoinOne(LEFT, on, l, rows, rw) == [l + Nulls(rw)]
  {
    MatchesNone(on, l, rows);
  }

  lemma JoinOneAnswer(leftKeys: seq<Expr>, l: Row, rows: Rows, ks: seq<(Row, Row)>, scalar: seq<Row> -> Value,
          keys: seq<Row>)
    requires Reduced(rows, ks, scalar, keys, |leftKeys|)
    ensures JoinOne(LEFT, OnKeys(leftKeys, RightKeys(|leftKeys|)), l, rows, |leftKeys| + 1) ==
            [Answered(ks, leftKeys, scalar)(l)]
  {
    var on := OnKeys(leftKeys, RightKeys(|leftKeys|));
    var key := EvalAll(leftKeys, l, []);
    forall i | 0 <= i < |rows| ensures on(l, rows[i]) == (NonNull(key) && key == keys[i]) {
      ReducedMatch(leftKeys, l, rows, ks, scalar, keys, i);
    }
    assert Listed(keys, ks, key);
    if NonNull(key) && key in keys {
      var j := KeyAt(keys, key);
      JoinOneFound(on, l, rows, keys, j, |leftKeys| + 1);
      assert ReducedRow(rows[j], ks, scalar, keys[j], |leftKeys|);
      assert rows[j] == Answer(ks, key, scalar);
    } else {
      JoinOneNone(on, l, rows, |leftKeys| + 1);
      assert Nulls(|leftKeys| + 1) == Answer(ks, key, scalar);
    }
    assert Answered(ks, leftKeys, scalar)(l) == l + Answer(ks, key, scalar);
  }

  /** Every left row appears exactly once, in place, followed by its answer. */
  lemma {:induction false} LeftJoinAnswers(leftKeys: seq<Expr>, ls: Rows, rows: Rows, ks: seq<(Row, Row)>,
          scalar: seq<Row> -> Value, keys: seq<Row>)
    requires Reduced(rows, ks, scalar, keys, |leftKeys|)
    ensures Join(LEFT, OnKeys(leftKeys, RightKeys(|leftKeys|)), ls, rows, |leftKeys| + 1) ==
            MapRows(Answered(ks, leftKeys, scalar), ls)
  {
    if ls != [] {
      JoinOneAnswer(leftKeys, ls[0], rows, ks, scalar, keys);
      LeftJoinAnswers(leftKeys, ls[1..], rows, ks, scalar, keys);
      MapSplit(Answered(ks, leftKeys, scalar), ls);
    }
  }

  // ---------------------------------------------------------------- the rows of one group

  /** The argument rows of a group, read off the rows the group was formed from. */
  lemma {:induction false} ArgsMeet(gs: seq<Expr>, args: seq<Expr>, rows: Rows, key: Row, w: nat, same: Row -> bool,
          arg: Row -> Row)
    requires forall i | 0 <= i < |rows| :: (EvalAll(gs, rows[i], []) == key) == same(Prefix(w)(rows[i]))
    requires forall i | 0 <= i < |rows| :: EvalAll(args, rows[i], []) == arg(Prefix(w)(rows[i]))
    ensures ArgsWith(Keyed(gs, args, rows), key) == MapRows(arg, FilterRows(same, MapRows(Prefix(w), rows)))
  {
    if rows != [] {
      var ks := Keyed(gs, args, rows);
      assert ks[1..] == Keyed(gs, args, rows[1..]);
      assert (EvalAll(gs, rows[0], []) == key) == same(Prefix(w)(rows[0]));
      assert EvalAll(args, rows[0], []) == arg(Prefix(w)(rows[0]));
      forall i | 0 <= i < |rows[1..]|
        ensures (EvalAll(gs, rows[1..][i], []) == key) == same(Prefix(w)(rows[1..][i]))
        ensures EvalAll(args, rows[1..][i], []) == arg(Prefix(w)(rows[1..][i]))
      {
        assert rows[1..][i] == rows[i + 1];
      }
      ArgsMeet(gs, args, rows[1..], key, w, same, arg);
      var ps := MapRows(Prefix(w), rows);
      MapSplit(Prefix(w), rows);
      assert ps[1..] == MapRows(Prefix(w), rows[1..]);
      var first := if same(ps[0]) then [ps[0]] else [];
      MapAppend(arg, first, FilterRows(same, ps[1..]));
    }
  }

  /** Dropping rows of other groups leaves a group as it is. */
  lemma {:induction false} ArgsRestricted(gs: seq<Expr>, args: seq<Expr>, rows: Rows, key: Row, keep: Row -> bool)
    requires forall i | 0 <= i < |rows| && EvalAll(gs, rows[i], []) == key :: keep(rows[i])
    ensures ArgsWith(Keyed(gs, args, FilterRows(keep, rows)), key) == ArgsWith(Keyed(gs, args, rows), key)
  {
    if rows != [] {
      assert Keyed(gs, args, rows)[1..] == Keyed(gs, args, rows[1..]);
      forall i | 0 <= i < |rows[1..]| && EvalAll(gs, rows[1..][i], []) == key ensures keep(rows[1..][i]) {
        assert rows[1..][i] == rows[i + 1];
      }
      ArgsRestricted(gs, args, rows[1..], key, keep);
      if keep(rows[0]) {
        var kept := FilterRows(keep, rows);
        assert kept[1..] == FilterRows(keep, rows[1..]);
        assert Keyed(gs, args, kept)[1..] == Keyed(gs, args, kept[1..]);
      } else {
        assert FilterRows(keep, rows) == FilterRows(keep, rows[1..]);
        assert EvalAll(gs, rows[0], []) != key;
      }
    }
  }

  /** A group that exists has a row with its key. */
  lemma {:induction false} GroupHasRow(gs: seq<Expr>, args: seq<Expr>, rows: Rows, key: Row) returns (i: nat)
    requires ArgsWith(Keyed(gs, args, rows), key) != []
    ensures i < |rows| && EvalAll(gs, rows[i], []) == key
  {
    if EvalAll(gs, rows[0], []) == key {
      i := 0;
    } else {
      assert Keyed(gs, args, rows)[1..] == Keyed(gs, args, rows[1..]);
      i := GroupHasRow(gs, args, rows[1..], key);
      i := i + 1;
    }
  }
}
