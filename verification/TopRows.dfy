/** Which rows are the first `n` of a multiset in key order, how that set changes row by row, and that it
    is what sorting everything and taking `n` gives. */
module TopRows {
  import opened Machine
  import opened SortKeys

  /** `kept` holds the first `n` of everything seen, `dropped` the rest: nothing dropped sorts before
      anything kept, and nothing is dropped while there is room. */
  ghost predicate TopOf<T(!new)>(kept: multiset<T>, dropped: multiset<T>, n: nat, key: T -> seq<Byte>) {
    && |kept| <= n && (dropped != multiset{} ==> |kept| == n)
    && forall a: T, b: T | a in kept && b in dropped :: !Less(key(b), key(a))
  }

  ghost predicate WorstOf<T(!new)>(w: T, kept: multiset<T>, key: T -> seq<Byte>) {
    w in kept && forall a: T | a in kept :: !Less(key(w), key(a))
  }

  // ---------------------------------------------------------------- one more row

  lemma Admit<T(!new)>(kept: multiset<T>, dropped: multiset<T>, n: nat, key: T -> seq<Byte>, x: T)
    requires TopOf(kept, dropped, n, key) && |kept| < n
    ensures TopOf(kept + multiset{x}, dropped, n, key)
  {
  }

  /** Rows no better than the worst of a full heap stay out. */
  lemma Refuse<T(!new)>(kept: multiset<T>, dropped: multiset<T>, n: nat, key: T -> seq<Byte>, w: T, out: multiset<T>)
    requires TopOf(kept, dropped, n, key) && |kept| == n && WorstOf(w, kept, key)
    requires forall b: T | b in out :: !Less(key(b), key(w))
    ensures TopOf(kept, dropped + out, n, key)
  {
    forall a: T, b: T | a in kept && b in dropped + out ensures !Less(key(b), key(a)) {
      if b in out {
        NotLessTransitive(key(a), key(w), key(b));
      }
    }
  }

  /** A better row takes the place of the worst. */
  lemma Replace<T(!new)>(kept: multiset<T>, dropped: multiset<T>, n: nat, key: T -> seq<Byte>, w: T, x: T)
    requires TopOf(kept, dropped, n, key) && |kept| == n && WorstOf(w, kept, key) && Less(key(x), key(w))
    ensures TopOf(kept - multiset{w} + multiset{x}, dropped + multiset{w}, n, key)
  {
    LessAsymmetric(key(x), key(w));
    forall a: T, b: T | a in kept - multiset{w} + multiset{x} && b in dropped + multiset{w}
        ensures !Less(key(b), key(a)) {
      if a == x && b in dropped {
        NotLessTransitive(key(x), key(w), key(b));
      } else if a == x {
        assert b == w;
      } else {
        assert a in kept;
      }
    }
  }

  // ---------------------------------------------------------------- merging two heaps

  lemma SizeOfMeet<T>(a: multiset<T>, b: multiset<T>)
    ensures |a| == |a - b| + |a * b| && |b| == |b - a| + |a * b|
  {
    assert a == (a - b) + (a * b) && b == (b - a) + (a * b);
  }

  /** The first `n` of some rows and of the first `n` of others are the first `n` of them all. */
  lemma MergeTops<T(!new)>(kept: multiset<T>, dropped: multiset<T>, theirs: multiset<T>, left: multiset<T>, n: nat,
          key: T -> seq<Byte>)
    requires TopOf(kept, dropped, n, key) && TopOf(theirs, left, n, key) && theirs <= kept + dropped
    ensures TopOf(kept, dropped + left, n, key)
  {
    if left != multiset{} {
      var others := kept + dropped - theirs;
      assert kept + dropped == theirs + others;
      assert |kept| + |dropped| == |kept + dropped| == |theirs + others| == |theirs| + |others|;
      forall a: T, b: T | a in kept && b in left ensures !Less(key(b), key(a)) {
        if a !in theirs {
          Displaced(kept, dropped, theirs, a);
          var e: T :| e in theirs && e in dropped;
          NotLessTransitive(key(a), key(e), key(b));
        }
      }
    }
  }

  /** When a full heap of the same size keeps a row that is not theirs, one of theirs was dropped. */
  lemma Displaced<T(!new)>(kept: multiset<T>, dropped: multiset<T>, theirs: multiset<T>, a: T)
    requires theirs <= kept + dropped && |theirs| >= |kept| && a in kept && a !in theirs
    ensures exists e: T :: e in theirs && e in dropped
  {
    SizeOfMeet(theirs, kept);
    assert a in kept - theirs;
    assert |theirs - kept| > 0;
    var e: T :| e in theirs - kept;
    assert e in theirs && e in dropped;
  }

  // ---------------------------------------------------------------- sorting and taking

  predicate InOrder<T>(s: seq<T>, key: T -> seq<Byte>) {
    forall i, j {:trigger s[i], s[j]} | 0 <= i < j < |s| :: !Less(key(s[j]), key(s[i]))
  }

  /** Where `x` goes: behind everything that does not sort after it. */
  function Insert<T>(s: seq<T>, x: T, key: T -> seq<Byte>): seq<T> {
    if s == [] then [x]
    else if Less(key(x), key(s[|s| - 1])) then Insert(s[..|s| - 1], x, key) + [s[|s| - 1]]
    else s + [x]
  }

  lemma {:induction false} InsertKeeps<T>(s: seq<T>, x: T, key: T -> seq<Byte>)
    requires InOrder(s, key)
    ensures InOrder(Insert(s, x, key), key) && multiset(Insert(s, x, key)) == multiset(s) + multiset{x}
  {
    if s != [] {
      var n := |s| - 1;
      assert s == s[..n] + [s[n]];
      if Less(key(x), key(s[n])) {
        InsertKeeps(s[..n], x, key);
        var r := Insert(s[..n], x, key);
        LessAsymmetric(key(x), key(s[n]));
        forall i | 0 <= i < |r| ensures !Less(key(s[n]), key(r[i])) {
          assert r[i] in multiset(r);
        }
      } else {
        forall i | 0 <= i < |s| ensures !Less(key(x), key(s[i])) {
          if i < n {
            NotLessTransitive(key(s[i]), key(s[n]), key(x));
          }
        }
      }
    }
  }

  lemma {:induction false} SomeOrder<T(!new)>(m: multiset<T>, key: T -> seq<Byte>) returns (s: seq<T>)
    ensures InOrder(s, key) && multiset(s) == m
    decreases |m|
  {
    if m == multiset{} {
      s := [];
    } else {
      var x: T :| x in m;
      var rest := SomeOrder(m - multiset{x}, key);
      InsertKeeps(rest, x, key);
      s := Insert(rest, x, key);
    }
  }

  /** Ordering a multiset leaves no choice of keys: two orders of it agree position by position. */
  lemma {:induction false} OrdersAgree<T>(a: seq<T>, b: seq<T>, key: T -> seq<Byte>)
    requires InOrder(a, key) && InOrder(b, key) && multiset(a) == multiset(b)
    ensures |a| == |b| && forall i | 0 <= i < |a| :: key(a[i]) == key(b[i])
  {
    assert |a| == |multiset(a)| == |multiset(b)| == |b|;
    if a != [] {
      assert a[0] in multiset(b);
      var j :| 0 <= j < |b| && b[j] == a[0];
      assert a == [a[0]] + a[1..];
      WithoutOne(b, j, key);
      assert multiset(Without(b, j)) == multiset(a[1..]);
      OrdersAgree(a[1..], Without(b, j), key);
      forall i | 0 <= i < |a| ensures key(a[i]) == key(b[i]) {
        AgreeAt(a, b, j, i, key);
      }
    }
  }

  ghost function Without<T>(b: seq<T>, j: nat): seq<T>
    requires j < |b|
  {
    b[..j] + b[j + 1..]
  }

  lemma WithoutCounts<T>(b: seq<T>, j: nat)
    requires j < |b|
    ensures multiset(Without(b, j)) == multiset(b) - multiset{b[j]}
  {
    assert b == b[..j] + [b[j]] + b[j + 1..];
  }

  lemma WithoutOne<T>(b: seq<T>, j: nat, key: T -> seq<Byte>)
    requires j < |b| && InOrder(b, key)
    ensures InOrder(Without(b, j), key) && multiset(Without(b, j)) == multiset(b) - multiset{b[j]}
  {
    WithoutCounts(b, j);
    forall i, k | 0 <= i < k < |b| - 1 ensures !Less(key(Without(b, j)[k]), key(Without(b, j)[i])) {
      assert Without(b, j)[k] == b[if k < j then k else k + 1] && Without(b, j)[i] == b[if i < j then i else i + 1];
    }
  }

  lemma AgreeAt<T>(a: seq<T>, b: seq<T>, j: nat, i: nat, key: T -> seq<Byte>)
    requires InOrder(a, key) && InOrder(b, key) && multiset(a) == multiset(b) && |a| == |b| && j < |b| && b[j] == a[0]
    requires i < |a| && forall k | 0 <= k < |a| - 1 :: key(a[1..][k]) == key(Without(b, j)[k])
    ensures key(a[i]) == key(b[i])
  {
    if i <= j {
      LevelUpTo(a, b, j, i, key);
    }
    if i > 0 {
      assert key(a[1..][i - 1]) == key(Without(b, j)[i - 1]);
      assert a[i] == a[1..][i - 1];
      if i <= j {
        LevelUpTo(a, b, j, i - 1, key);
      }
    }
  }

  /** Everything in front of the place where `b` holds the first of `a` is level with it. */
  lemma LevelUpTo<T>(a: seq<T>, b: seq<T>, j: nat, i: nat, key: T -> seq<Byte>)
    requires InOrder(a, key) && InOrder(b, key) && multiset(a) == multiset(b) && |a| > 0 && j < |b| && b[j] == a[0] &&
             i <= j
    ensures key(b[i]) == key(a[0])
  {
    assert b[i] in multiset(a);
    var k :| 0 <= k < |a| && a[k] == b[i];
    LessIrreflexive(key(a[0]));
    assert !Less(key(a[k]), key(a[0])) && !Less(key(b[j]), key(b[i]));
    LessTotal(key(a[0]), key(b[i]));
  }

  /** The kept rows in order carry, position by position, the keys of the first rows of any sorted
      arrangement of everything seen. */
  lemma SortThenTake<T(!new)>(top: seq<T>, dropped: multiset<T>, n: nat, key: T -> seq<Byte>, all: seq<T>)
    requires TopOf(multiset(top), dropped, n, key) && InOrder(top, key)
    requires InOrder(all, key) && multiset(all) == multiset(top) + dropped
    ensures |top| == (if n < |all| then n else |all|)
    ensures forall i | 0 <= i < |top| :: key(top[i]) == key(all[i])
  {
    var rest := SomeOrder(dropped, key);
    var whole := top + rest;
    forall i, j | 0 <= i < j < |whole| ensures !Less(key(whole[j]), key(whole[i])) {
      if i < |top| <= j {
        assert whole[i] in multiset(top) && whole[j] in multiset(rest);
      }
    }
    OrdersAgree(whole, all, key);
    forall i | 0 <= i < |top| ensures key(top[i]) == key(all[i]) {
      assert whole[i] == top[i];
    }
    assert |rest| == |dropped|;
  }
}
