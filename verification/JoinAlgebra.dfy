/** Laws of filters and joins over row sequences. */
module JoinAlgebra {
  import opened Expressions
  import opened Plans

  /** A condition on a pair strengthened by one on its left row, its right row, or their concatenation. */
  function AndLeft(a: Row -> bool, f: (Row, Row) -> bool): (Row, Row) -> bool {
    (l, r) => a(l) && f(l, r)
  }

  function AndRight(b: Row -> bool, f: (Row, Row) -> bool): (Row, Row) -> bool {
    (l, r) => b(r) && f(l, r)
  }

  function AndWhole(f: (Row, Row) -> bool, h: Row -> bool): (Row, Row) -> bool {
    (l, r) => f(l, r) && h(l + r)
  }

  lemma {:induction false} FilterAgree(f: Row -> bool, g: Row -> bool, rows: Rows)
    requires forall i | 0 <= i < |rows| :: f(rows[i]) == g(rows[i])
    ensures FilterRows(f, rows) == FilterRows(g, rows)
  {
    if rows != [] {
      assert f(rows[0]) == g(rows[0]);
      forall i | 0 <= i < |rows[1..]| ensures f(rows[1..][i]) == g(rows[1..][i]) {
        assert rows[1..][i] == rows[i + 1];
      }
      FilterAgree(f, g, rows[1..]);
    }
  }

  lemma {:induction false} FilterTrue(rows: Rows)
    ensures FilterRows((row: Row) => true, rows) == rows
  {
    if rows != [] {
      FilterTrue(rows[1..]);
    }
  }

  lemma {:induction false} FilterAppend(f: Row -> bool, a: Rows, b: Rows)
    ensures FilterRows(f, a + b) == FilterRows(f, a) + FilterRows(f, b)
  {
    if a == [] {
      assert a + b == b;
    } else {
      assert (a + b)[1..] == a[1..] + b;
      FilterAppend(f, a[1..], b);
    }
  }

  lemma {:induction false} MatchesAgree(f: (Row, Row) -> bool, g: (Row, Row) -> bool, l: Row, rs: Rows)
    requires forall j | 0 <= j < |rs| :: f(l, rs[j]) == g(l, rs[j])
    ensures Matches(f, l, rs) == Matches(g, l, rs)
  {
    if rs != [] {
      assert f(l, rs[0]) == g(l, rs[0]);
      forall j | 0 <= j < |rs[1..]| ensures f(l, rs[1..][j]) == g(l, rs[1..][j]) {
        assert rs[1..][j] == rs[j + 1];
      }
      MatchesAgree(f, g, l, rs[1..]);
    }
  }

  /** A join depends on its condition only through the pairs of rows it has. */
  lemma {:induction false} JoinAgree(k: JoinType, f: (Row, Row) -> bool, g: (Row, Row) -> bool, ls: Rows, rs: Rows,
          rw: nat)
    requires forall i, j | 0 <= i < |ls| && 0 <= j < |rs| :: f(ls[i], rs[j]) == g(ls[i], rs[j])
    ensures Join(k, f, ls, rs, rw) == Join(k, g, ls, rs, rw)
  {
    if ls != [] {
      MatchesAgree(f, g, ls[0], rs);
      forall i, j | 0 <= i < |ls[1..]| && 0 <= j < |rs| ensures f(ls[1..][i], rs[j]) == g(ls[1..][i], rs[j]) {
        assert ls[1..][i] == ls[i + 1];
      }
      JoinAgree(k, f, g, ls[1..], rs, rw);
    }
  }

  lemma {:induction false} FilterMatches(h: Row -> bool, f: (Row, Row) -> bool, l: Row, rs: Rows)
    ensures FilterRows(h, Matches(f, l, rs)) == Matches(AndWhole(f, h), l, rs)
  {
    if rs != [] {
      FilterAppend(h, if f(l, rs[0]) then [l + rs[0]] else [], Matches(f, l, rs[1..]));
      FilterMatches(h, f, l, rs[1..]);
    }
  }

  /** A filter over an inner join is a further join condition. */
  lemma {:induction false} FilterJoin(h: Row -> bool, f: (Row, Row) -> bool, ls: Rows, rs: Rows, rw: nat)
    ensures FilterRows(h, Join(INNER, f, ls, rs, rw)) ==
            Join(INNER, AndWhole(f, h), ls, rs, rw)
  {
    if ls != [] {
      FilterAppend(h, Matches(f, ls[0], rs), Join(INNER, f, ls[1..], rs, rw));
      FilterMatches(h, f, ls[0], rs);
      FilterJoin(h, f, ls[1..], rs, rw);
    }
  }

  lemma {:induction false} MatchesNone(f: (Row, Row) -> bool, l: Row, rs: Rows)
    requires forall j | 0 <= j < |rs| :: !f(l, rs[j])
    ensures Matches(f, l, rs) == []
  {
    if rs != [] {
      assert !f(l, rs[0]);
      forall j | 0 <= j < |rs[1..]| ensures !f(l, rs[1..][j]) {
        assert rs[1..][j] == rs[j + 1];
      }
      MatchesNone(f, l, rs[1..]);
    }
  }

  /** A condition on the left row alone can be tested before an inner join. */
  lemma {:induction false} PushLeft(a: Row -> bool, f: (Row, Row) -> bool, ls: Rows, rs: Rows, rw: nat)
    ensures Join(INNER, AndLeft(a, f), ls, rs, rw) ==
            Join(INNER, f, FilterRows(a, ls), rs, rw)
  {
    if ls != [] {
      var g := AndLeft(a, f);
      var kept := FilterRows(a, ls[1..]);
      PushLeft(a, f, ls[1..], rs, rw);
      if a(ls[0]) {
        MatchesAgree(g, f, ls[0], rs);
        assert FilterRows(a, ls)[1..] == kept;
      } else {
        MatchesNone(g, ls[0], rs);
        assert FilterRows(a, ls) == kept;
      }
    }
  }

  lemma {:induction false} PushRightOne(b: Row -> bool, f: (Row, Row) -> bool, l: Row, rs: Rows)
    ensures Matches(AndRight(b, f), l, rs) == Matches(f, l, FilterRows(b, rs))
  {
    if rs != [] {
      PushRightOne(b, f, l, rs[1..]);
      if b(rs[0]) {
        assert FilterRows(b, rs)[1..] == FilterRows(b, rs[1..]);
      } else {
        assert FilterRows(b, rs) == FilterRows(b, rs[1..]);
      }
    }
  }

  /** A condition on the right row alone can be tested before an inner join. */
  lemma {:induction false} PushRight(b: Row -> bool, f: (Row, Row) -> bool, ls: Rows, rs: Rows, rw: nat)
    ensures Join(INNER, AndRight(b, f), ls, rs, rw) ==
            Join(INNER, f, ls, FilterRows(b, rs), rw)
  {
    if ls != [] {
      PushRightOne(b, f, ls[0], rs);
      PushRight(b, f, ls[1..], rs, rw);
    }
  }

  /** A condition that splits into a part for each side and a rest can be placed accordingly. */
  lemma PushBoth(a: Row -> bool, b: Row -> bool, f: (Row, Row) -> bool, g: (Row, Row) -> bool, ls: Rows, rs: Rows,
          rw: nat)
    requires forall i, j | 0 <= i < |ls| && 0 <= j < |rs| ::
               (b(rs[j]) && a(ls[i]) && f(ls[i], rs[j])) == g(ls[i], rs[j])
    ensures Join(INNER, f, FilterRows(a, ls), FilterRows(b, rs), rw) == Join(INNER, g, ls, rs, rw)
  {
    PushLeft(a, f, ls, FilterRows(b, rs), rw);
    PushRight(b, AndLeft(a, f), ls, rs, rw);
    JoinAgree(INNER, AndRight(b, AndLeft(a, f)), g, ls, rs, rw);
  }

  lemma {:induction false} FilterMember(f: Row -> bool, rows: Rows, i: nat) returns (j: nat)
    requires i < |FilterRows(f, rows)|
    ensures j < |rows| && FilterRows(f, rows)[i] == rows[j] && f(rows[j])
  {
    if f(rows[0]) && i == 0 {
      j := 0;
    } else {
      j := FilterMember(f, rows[1..], if f(rows[0]) then i - 1 else i);
      j := j + 1;
    }
  }

  lemma MaskEverything(rows: Rows, k: JoinType, lw: nat)
    ensures MapRows(Masked(Carried(k, lw, Everything)), rows) == rows
  {
    var out := MapRows(Masked(Carried(k, lw, Everything)), rows);
    forall i | 0 <= i < |rows| ensures out[i] == rows[i] {
      assert forall j: nat :: Carries(k, lw, Everything, j);
      assert Mask(rows[i], Carried(k, lw, Everything)) == rows[i];
    }
  }

  /** A hash join that was not annotated is the join on its keys. */
  lemma HashJoinRows(k: JoinType, l: Plan, r: Plan, leftKeys: seq<Expr>, rightKeys: seq<Expr>, db: Database)
    ensures Denote(HashJoin(k, l, r, leftKeys, rightKeys, Everything), db) ==
            Join(k, OnKeys(leftKeys, rightKeys), Denote(l, db), Denote(r, db), Width(r))
  {
    MaskEverything(Join(k, OnKeys(leftKeys, rightKeys), Denote(l, db), Denote(r, db), Width(r)), k, Width(l));
  }
}
