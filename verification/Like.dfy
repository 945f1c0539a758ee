/** SQL LIKE: the matcher that remembers only the last `%` decides the recursive relation. */
module LikeMatching {

  /** `%` matches any run, `_` any one byte, anything else itself. */
  ghost predicate Like(s: string, p: string)
    decreases |p|
  {
    if p == "" then s == ""
    else if p[0] == '%' then exists k :: 0 <= k <= |s| && Like(s[k..], p[1..])
    else s != "" && (p[0] == '_' || p[0] == s[0]) && Like(s[1..], p[1..])
  }

  /** The pattern from `a` to `b` has no `%` and matches the string from `i` on byte by byte. */
  predicate Fits(s: string, i: nat, p: string, a: nat, b: nat)
    requires a <= b <= |p|
  {
    i + (b - a) <= |s| &&
    forall m | a <= m < b :: p[m] != '%' && (p[m] == '_' || p[m] == s[i + (m - a)])
  }

  // ---------------------------------------------------------------- steps

  lemma LikeTail(s: string, i: nat, p: string, a: nat)
    requires i <= |s| && a < |p|
    ensures p[a] != '%' ==>
              (Like(s[i..], p[a..]) <==> i < |s| && (p[a] == '_' || p[a] == s[i]) && Like(s[i + 1..], p[a + 1..]))
    ensures p[a] == '%' ==>
              (Like(s[i..], p[a..]) <==> exists k :: i <= k <= |s| && Like(s[k..], p[a + 1..]))
  {
    var t, q := s[i..], p[a..];
    assert q[1..] == p[a + 1..];
    if p[a] == '%' {
      if Like(t, q) {
        var k :| 0 <= k <= |t| && Like(t[k..], q[1..]);
        assert t[k..] == s[i + k..];
      }
      if k :| i <= k <= |s| && Like(s[k..], p[a + 1..]) {
        assert t[k - i..] == s[k..];
        assert 0 <= k - i <= |t| && Like(t[k - i..], q[1..]);
      }
    } else if i < |s| {
      assert t[1..] == s[i + 1..];
    }
  }

  /** A matched segment without `%` can be taken off both sides. */
  lemma {:induction false} LikeSegment(s: string, i: nat, p: string, a: nat, b: nat)
    requires a <= b <= |p| && Fits(s, i, p, a, b)
    ensures Like(s[i..], p[a..]) <==> Like(s[i + (b - a)..], p[b..])
    decreases b - a
  {
    if a < b {
      LikeTail(s, i, p, a);
      LikeSegment(s, i + 1, p, a + 1, b);
    }
  }

  /** A string that matches fits every leading segment without `%`. */
  lemma {:induction false} LikeFits(s: string, i: nat, p: string, a: nat, b: nat)
    requires i <= |s| && a <= b <= |p| && (forall j | a <= j < b :: p[j] != '%') && Like(s[i..], p[a..])
    ensures Fits(s, i, p, a, b)
    decreases b - a
  {
    if a < b {
      LikeTail(s, i, p, a);
      LikeFits(s, i + 1, p, a + 1, b);
    }
  }

  /** The remaining pattern is matched at or after `i`. */
  ghost predicate LaterMatch(s: string, i: nat, p: string, a: nat)
    requires a <= |p|
  {
    exists k :: i <= k <= |s| && Like(s[k..], p[a..])
  }

  /** Taking the earliest place for a segment before the next `%` loses nothing. */
  lemma EarliestEnough(s: string, i: nat, p: string, a: nat, b: nat)
    requires a <= b < |p| && Fits(s, i, p, a, b) && p[b] == '%'
    ensures LaterMatch(s, i, p, a) <==> LaterMatch(s, i + (b - a), p, b + 1)
  {
    hide Like;
    var n := b - a;
    if LaterMatch(s, i, p, a) {
      var k :| i <= k <= |s| && Like(s[k..], p[a..]);
      LikeFits(s, k, p, a, b);
      LikeSegment(s, k, p, a, b);
      LikeTail(s, k + n, p, b);
      var m :| k + n <= m <= |s| && Like(s[m..], p[b + 1..]);
    }
    if LaterMatch(s, i + n, p, b + 1) {
      LikeTail(s, i + n, p, b);
      LikeSegment(s, i, p, a, b);
      assert Like(s[i..], p[a..]);
    }
  }

  /** At the end of the string no later place has room for the segment. */
  lemma NoLaterPlace(s: string, i: nat, p: string, a: nat, b: nat)
    requires a <= b <= |p| && Fits(s, i, p, a, b) && i + (b - a) == |s|
    ensures LaterMatch(s, i, p, a) <==> Like(s[|s|..], p[b..])
  {
    LikeSegment(s, i, p, a, b);
    if LaterMatch(s, i, p, a) {
      var k :| i <= k <= |s| && Like(s[k..], p[a..]);
      LikeFits(s, k, p, a, b);
      assert k == i;
    }
  }

  /** The empty string matches exactly the patterns made of `%`. */
  lemma {:induction false} LikeEmpty(p: string, a: nat)
    requires a <= |p|
    ensures Like("", p[a..]) <==> forall j | a <= j < |p| :: p[j] == '%'
    decreases |p| - a
  {
    if a < |p| {
      LikeTail("", 0, p, a);
      assert ""[0..] == "";
      LikeEmpty(p, a + 1);
      if p[a] == '%' && Like("", p[a + 1..]) {
        assert 0 <= 0 <= |""| && Like(""[0..], p[a + 1..]);
      }
    }
  }

  lemma FitsMore(s: string, i: nat, p: string, a: nat, b: nat)
    requires a <= b < |p| && Fits(s, i, p, a, b) && i + (b - a) < |s|
    requires p[b] != '%' && (p[b] == '_' || p[b] == s[i + (b - a)])
    ensures Fits(s, i, p, a, b + 1)
  {
  }

  // ---------------------------------------------------------------- the matcher

  /** What remains to be decided: with no `%` seen, the rest of the string against the rest of the pattern;
      otherwise whether the pattern after the last `%` is matched at or after where that `%` now ends. */
  ghost predicate Remains(s: string, p: string, star: int, starAt: nat, si: nat, pi: nat)
    requires pi <= |p| && si <= |s| && star < |p|
  {
    if star < 0 then Like(s[si..], p[pi..]) else LaterMatch(s, starAt, p, star + 1)
  }

  /** Where the matcher stands: after the last `%`, the pattern up to `pi` fits the string up to `si`. */
  predicate Placed(s: string, p: string, star: int, starAt: nat, si: nat, pi: nat) {
    && si <= |s| && pi <= |p| && -1 <= star < pi && starAt <= si && (star < 0 ==> starAt == 0)
    && (star >= 0 ==> p[star] == '%' && si == starAt + (pi - (star + 1)) && Fits(s, starAt, p, star + 1, pi))
  }

  lemma OnPercent(s: string, p: string, star: int, starAt: nat, si: nat, pi: nat)
    requires Placed(s, p, star, starAt, si, pi) && pi < |p| && p[pi] == '%'
    ensures Placed(s, p, pi, si, si, pi + 1)
    ensures Remains(s, p, star, starAt, si, pi) <==> Remains(s, p, pi, si, si, pi + 1)
  {
    if star >= 0 {
      EarliestEnough(s, starAt, p, star + 1, pi);
    } else {
      LikeTail(s, si, p, pi);
    }
  }

  lemma OnByte(s: string, p: string, star: int, starAt: nat, si: nat, pi: nat)
    requires Placed(s, p, star, starAt, si, pi) && si < |s| && pi < |p| && p[pi] != '%' &&
             (p[pi] == '_' || p[pi] == s[si])
    ensures Placed(s, p, star, starAt, si + 1, pi + 1)
    ensures Remains(s, p, star, starAt, si, pi) <==> Remains(s, p, star, starAt, si + 1, pi + 1)
  {
    if star >= 0 {
      FitsMore(s, starAt, p, star + 1, pi);
    } else {
      LikeTail(s, si, p, pi);
    }
  }

  predicate Stuck(s: string, p: string, si: nat, pi: nat) {
    si < |s| && pi <= |p| && (pi == |p| || (p[pi] != '%' && p[pi] != '_' && p[pi] != s[si]))
  }

  lemma StuckFails(s: string, p: string, si: nat, pi: nat)
    requires Stuck(s, p, si, pi)
    ensures !Like(s[si..], p[pi..])
  {
    if pi < |p| {
      LikeTail(s, si, p, pi);
    }
  }

  lemma OnMismatch(s: string, p: string, star: int, starAt: nat, si: nat, pi: nat)
    requires Placed(s, p, star, starAt, si, pi) && Stuck(s, p, si, pi) && star >= 0
    ensures Placed(s, p, star, starAt + 1, starAt + 1, star + 1)
    ensures Remains(s, p, star, starAt, si, pi) <==> Remains(s, p, star, starAt + 1, starAt + 1, star + 1)
  {
    StuckFails(s, p, si, pi);
    LikeSegment(s, starAt, p, star + 1, pi);
  }

  lemma AtEnd(s: string, p: string, star: int, starAt: nat, pi: nat)
    requires Placed(s, p, star, starAt, |s|, pi)
    ensures Remains(s, p, star, starAt, |s|, pi) <==> forall j | pi <= j < |p| :: p[j] == '%'
  {
    assert s[|s|..] == "";
    LikeEmpty(p, pi);
    if star >= 0 {
      NoLaterPlace(s, starAt, p, star + 1, pi);
    }
  }

  /** Decide LIKE with one backtracking point. */
  method LikeMatch(s: string, p: string) returns (matched: bool)
    ensures matched <==> Like(s, p)
  {
    var si, pi := 0, 0;
    var star: int, starAt := -1, 0;
    assert s[0..] == s && p[0..] == p && Remains(s, p, star, starAt, si, pi) == Like(s, p);
    hide Like, LaterMatch;
    while si < |s|
      invariant Placed(s, p, star, starAt, si, pi)
      invariant Like(s, p) <==> Remains(s, p, star, starAt, si, pi)
      decreases |s| - starAt, |p| - star, |s| - si
    {
      if pi < |p| && p[pi] == '%' {
        OnPercent(s, p, star, starAt, si, pi);
        star, starAt, pi := pi, si, pi + 1;
      } else if pi < |p| && (p[pi] == '_' || p[pi] == s[si]) {
        OnByte(s, p, star, starAt, si, pi);
        si, pi := si + 1, pi + 1;
      } else if star >= 0 {
        OnMismatch(s, p, star, starAt, si, pi);
        starAt := starAt + 1;
        pi, si := star + 1, starAt;
      } else {
        StuckFails(s, p, si, pi);
        return false;
      }
    }
    AtEnd(s, p, star, starAt, pi);
    ghost var rest := pi;
    while pi < |p| && p[pi] == '%'
      invariant rest <= pi <= |p| && forall j | rest <= j < pi :: p[j] == '%'
    {
      pi := pi + 1;
    }
    matched := pi == |p|;
  }
}
