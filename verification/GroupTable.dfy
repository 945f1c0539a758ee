/** Finding or creating the group of every row of a batch, in rounds of linear probing. */
module GroupTable {
  import opened LinearProbing

  /** Equal keys hash equally. */
  ghost predicate Consistent<R(!new)>(hashOf: R -> nat, matches: (R, R) -> bool) {
    forall a, b {:trigger matches(a, b)} | matches(a, b) :: hashOf(a) == hashOf(b)
  }

  /** A directory that links every stored row by the hash of its key. */
  ghost predicate Table<R>(d: Directory, rows: seq<R>, hashes: seq<nat>, hashOf: R -> nat) {
    && Clustered(d) && LinksAll(d, hashes) && |hashes| == |rows|
    && forall r {:trigger rows[r]} | 0 <= r < |rows| :: hashes[r] == hashOf(rows[r])
  }

  /** No two stored rows have equal keys. */
  predicate OneRowPerKey<R>(rows: seq<R>, matches: (R, R) -> bool) {
    forall r, s | 0 <= r < s < |rows| :: !matches(rows[r], rows[s])
  }

  /** The first `k` slots probed for `x` are occupied by rows with other keys. */
  predicate Missed<R>(d: Directory, rows: seq<R>, matches: (R, R) -> bool, h: nat, x: R, k: nat)
    requires 0 < |d| && k <= |d|
  {
    Full(d, h, k) && forall j {:trigger Probed(d, h, j)} | 0 <= j < k ::
      d[Probed(d, h, j)].row < |rows| ==> !matches(rows[d[Probed(d, h, j)].row], x)
  }

  /** A row that finds an empty slot has a key no stored row has. */
  lemma NewKey<R(!new)>(d: Directory, rows: seq<R>, hashes: seq<nat>, hashOf: R -> nat, matches: (R, R) -> bool, x: R,
          k: nat, r: nat)
    requires Table(d, rows, hashes, hashOf) && Consistent(hashOf, matches) && k < |d|
    requires Missed(d, rows, matches, hashOf(x), x, k) && d[Probed(d, hashOf(x), k)].Empty? && r < |rows|
    ensures !matches(rows[r], x)
  {
    if matches(rows[r], x) {
      var at: map<nat, nat> :| LinksAt(d, hashes, at) && at.Keys == Below(|hashes|);
      assert r in at && d[at[r]] == Entry(hashOf(x), r);
      EntryBeforeGap(d, hashOf(x), k, at[r]);
    }
  }

  lemma NextBelow(n: nat)
    ensures Below(n) + {n} == Below(n + 1)
  {
  }

  lemma LinkedNext(d: Directory, hashes: seq<nat>, h: nat, k: nat)
    requires Clustered(d) && LinksAll(d, hashes) && k < |d| && Full(d, h, k) && d[Probed(d, h, k)].Empty?
    ensures var d' := d[Probed(d, h, k) := Entry(h, |hashes|)]; Clustered(d') && LinksAll(d', hashes + [h])
  {
    var more := hashes + [h];
    MoreRows(d, hashes, [h], Below(|hashes|));
    assert more[|hashes|] == h;
    Linked(d, more, Below(|hashes|), |hashes|, k);
    NextBelow(|hashes|);
  }

  /** Storing a row and linking it at the empty slot it found. */
  lemma Created<R(!new)>(d: Directory, rows: seq<R>, hashes: seq<nat>, hashOf: R -> nat, x: R, k: nat)
    requires Table(d, rows, hashes, hashOf) && k < |d| && Full(d, hashOf(x), k) && d[Probed(d, hashOf(x), k)].Empty?
    ensures Table(d[Probed(d, hashOf(x), k) := Entry(hashOf(x), |rows|)], rows + [x], hashes + [hashOf(x)], hashOf)
  {
    LinkedNext(d, hashes, hashOf(x), k);
  }

  /** What a row has missed stays missed when a slot is filled and a row is stored. */
  lemma StillMissed<R>(d: Directory, rows: seq<R>, matches: (R, R) -> bool, h: nat, x: R, k: nat, b: nat, e: Slot, y: R)
    requires 0 < |d| && k <= |d| && b < |d| && d[b].Empty? && e.Entry? && Missed(d, rows, matches, h, x, k)
    requires forall c {:trigger d[c]} | 0 <= c < |d| && d[c].Entry? :: d[c].row < |rows|
    ensures Missed(d[b := e], rows + [y], matches, h, x, k)
  {
    var d' := d[b := e];
    forall j | 0 <= j < k
      ensures d'[Probed(d', h, j)].Entry?
      ensures d'[Probed(d', h, j)].row < |rows + [y]| ==> !matches((rows + [y])[d'[Probed(d', h, j)].row], x)
    {
      assert d[Probed(d, h, j)].Entry?;
    }
  }

  lemma RowsLinked<R>(d: Directory, rows: seq<R>, hashes: seq<nat>, hashOf: R -> nat)
    requires Table(d, rows, hashes, hashOf)
    ensures forall c {:trigger d[c]} | 0 <= c < |d| && d[c].Entry? ::
            d[c].row < |rows| && d[c].hash == hashOf(rows[d[c].row])
  {
    var at: map<nat, nat> :| LinksAt(d, hashes, at) && at.Keys == Below(|hashes|);
    forall c | 0 <= c < |d| && d[c].Entry? ensures d[c].row < |rows| && d[c].hash == hashOf(rows[d[c].row]) {
      assert d[c].row in at && at[d[c].row] == c;
    }
  }

  // ---------------------------------------------------------------- the rounds

  /** The table while a batch is being placed: `addr` gives each batch row's stored row and `created`
      lists the batch rows that became stored rows. */
  datatype Groups<R> = Groups(d: Directory, rows: seq<R>, hashes: seq<nat>, addr: seq<nat>, created: seq<nat>)

  /** `n` rows were stored before; batch row `created[c]` became stored row `n + c`. */
  ghost predicate Sound<R>(g: Groups<R>, n: nat, batch: seq<R>, hashOf: R -> nat, matches: (R, R) -> bool) {
    && Table(g.d, g.rows, g.hashes, hashOf) && OneRowPerKey(g.rows, matches)
    && |g.addr| == |batch| && |g.rows| == n + |g.created|
    && forall c {:trigger g.created[c]} | 0 <= c < |g.created| ::
         g.created[c] < |batch| && g.rows[n + c] == batch[g.created[c]]
  }

  /** Batch row i has found its group. */
  predicate Found<R>(g: Groups<R>, batch: seq<R>, matches: (R, R) -> bool, i: nat) {
    i < |batch| == |g.addr| && g.addr[i] < |g.rows| && matches(g.rows[g.addr[i]], batch[i])
  }

  /** Batch row i has probed `k` slots without finding its group. */
  predicate Looking<R>(g: Groups<R>, batch: seq<R>, hashOf: R -> nat, matches: (R, R) -> bool, i: nat, k: nat) {
    0 < |g.d| && k <= |g.d| && i < |batch| && Missed(g.d, g.rows, matches, hashOf(batch[i]), batch[i], k)
  }

  /** The slot batch row i probes next holds an entry with another hash, or one whose row it must
      compare itself with. */
  predicate Differs<R>(g: Groups<R>, batch: seq<R>, hashOf: R -> nat, i: nat, k: nat) {
    0 < |g.d| && k < |g.d| && i < |batch| &&
    var slot := g.d[Probed(g.d, hashOf(batch[i]), k)];
    slot.Entry? && slot.hash != hashOf(batch[i])
  }

  predicate Compared<R>(g: Groups<R>, batch: seq<R>, hashOf: R -> nat, i: nat, k: nat) {
    0 < |g.d| && k < |g.d| && i < |batch| == |g.addr| &&
    var slot := g.d[Probed(g.d, hashOf(batch[i]), k)];
    slot.Entry? && slot.hash == hashOf(batch[i]) && slot.row == g.addr[i]
  }

  /** Create a group for batch row i, whose next slot is empty. */
  function Create<R>(g: Groups<R>, batch: seq<R>, hashOf: R -> nat, i: nat, b: nat): Groups<R>
    requires i < |batch| == |g.addr| && b < |g.d|
  {
    Groups(g.d[b := Entry(hashOf(batch[i]), |g.rows|)], g.rows + [batch[i]], g.hashes + [hashOf(batch[i])],
           g.addr[i := |g.rows|], g.created + [i])
  }

  lemma CreateSound<R(!new)>(g: Groups<R>, n: nat, batch: seq<R>, hashOf: R -> nat, matches: (R, R) -> bool, i: nat,
          k: nat)
    requires Sound(g, n, batch, hashOf, matches) && Consistent(hashOf, matches) && k < |g.d|
    requires Looking(g, batch, hashOf, matches, i, k) && g.d[Probed(g.d, hashOf(batch[i]), k)].Empty?
    ensures Sound(Create(g, batch, hashOf, i, Probed(g.d, hashOf(batch[i]), k)), n, batch, hashOf, matches)
  {
    hide LinksAll, Table;
    Created(g.d, g.rows, g.hashes, hashOf, batch[i], k);
    forall r | 0 <= r < |g.rows| ensures !matches(g.rows[r], batch[i]) {
      NewKey(g.d, g.rows, g.hashes, hashOf, matches, batch[i], k, r);
    }
  }

  /** What holds of batch row u in `g` still holds in `g'`. */
  predicate Keeps<R>(g: Groups<R>, g': Groups<R>, batch: seq<R>, hashOf: R -> nat, matches: (R, R) -> bool, u: nat,
          k: nat) {
    && (Found(g, batch, matches, u) ==> Found(g', batch, matches, u))
    && (Differs(g, batch, hashOf, u, k) ==> Differs(g', batch, hashOf, u, k))
    && (Compared(g, batch, hashOf, u, k) ==> Compared(g', batch, hashOf, u, k))
    && (Looking(g, batch, hashOf, matches, u, k) ==> Looking(g', batch, hashOf, matches, u, k))
  }

  /** Creating a group for one row leaves the others where they are. */
  lemma CreateKeeps<R>(g: Groups<R>, batch: seq<R>, hashOf: R -> nat, matches: (R, R) -> bool, i: nat, b: nat, u: nat,
          k: nat)
    requires i < |batch| == |g.addr| && b < |g.d| && g.d[b].Empty? && u != i && Table(g.d, g.rows, g.hashes, hashOf)
    ensures Keeps(g, Create(g, batch, hashOf, i, b), batch, hashOf, matches, u, k)
  {
    if Looking(g, batch, hashOf, matches, u, k) {
      RowsLinked(g.d, g.rows, g.hashes, hashOf);
      StillMissed(g.d, g.rows, matches, hashOf(batch[u]), batch[u], k, b, Entry(hashOf(batch[i]), |g.rows|), batch[i]);
    }
  }

  /** A row whose slot did not hold its group moves on. */
  lemma MovesOn<R(!new)>(g: Groups<R>, batch: seq<R>, hashOf: R -> nat, matches: (R, R) -> bool, i: nat, k: nat)
    requires Table(g.d, g.rows, g.hashes, hashOf) && Consistent(hashOf, matches)
    requires Looking(g, batch, hashOf, matches, i, k)
    requires Differs(g, batch, hashOf, i, k) || (Compared(g, batch, hashOf, i, k) && !Found(g, batch, matches, i))
    ensures Looking(g, batch, hashOf, matches, i, k + 1)
  {
    RowsLinked(g.d, g.rows, g.hashes, hashOf);
  }

  datatype Outcome = Made | Compare | Skip

  /** One row probes one slot: it creates a group, asks to be compared, or moves on. */
  method ProbeOne<R(!new)>(g: Groups<R>, ghost n: nat, batch: seq<R>, hashOf: R -> nat, matches: (R, R) -> bool, i: nat,
          bucket: nat, ghost k: nat)
    returns (g': Groups<R>, outcome: Outcome)
    requires Sound(g, n, batch, hashOf, matches) && Consistent(hashOf, matches) && k < |g.d|
    requires Looking(g, batch, hashOf, matches, i, k) && bucket == Probed(g.d, hashOf(batch[i]), k) &&
             matches(batch[i], batch[i])
    ensures Sound(g', n, batch, hashOf, matches) && |g'.d| == |g.d|
    ensures |g.rows| <= |g'.rows| && g'.rows[..|g.rows|] == g.rows
    ensures |g'.rows| == |g.rows| + if outcome.Made? then 1 else 0
    ensures forall u: nat | u != i :: Keeps(g, g', batch, hashOf, matches, u, k)
    ensures match outcome
            case Made => Found(g', batch, matches, i)
            case Compare => Compared(g', batch, hashOf, i, k) && Looking(g', batch, hashOf, matches, i, k)
            case Skip => Differs(g', batch, hashOf, i, k) && Looking(g', batch, hashOf, matches, i, k)
  {
    var slot := g.d[bucket];
    if slot.Empty? {
      CreateSound(g, n, batch, hashOf, matches, i, k);
      forall u: nat | u != i ensures Keeps(g, Create(g, batch, hashOf, i, bucket), batch, hashOf, matches, u, k) {
        CreateKeeps(g, batch, hashOf, matches, i, bucket, u, k);
      }
      return Create(g, batch, hashOf, i, bucket), Made;
    } else if slot.hash == hashOf(batch[i]) {
      return g.(addr := g.addr[i := slot.row]), Compare;
    } else {
      return g, Skip;
    }
  }

  /** The sequence lists the set's elements, each once. */
  ghost predicate Lists(xs: seq<nat>, s: set<nat>) {
    && (forall i, j | 0 <= i < j < |xs| :: xs[i] != xs[j])
    && forall x {:trigger x in s} {:trigger x in xs} :: x in xs <==> x in s
  }

  lemma ListsMore(xs: seq<nat>, s: set<nat>, x: nat)
    requires Lists(xs, s) && x !in s
    ensures Lists(xs + [x], s + {x})
  {
  }

  /** Where a round stands: `todo` have not probed yet, `waiting` are to be compared, `moving` met another
      hash, and everyone else has found their group. */
  ghost predicate Standing<R>(g: Groups<R>, batch: seq<R>, hashOf: R -> nat, matches: (R, R) -> bool, k: nat,
          todo: set<nat>, waiting: set<nat>, moving: set<nat>) {
    && (forall u {:trigger u in todo} | u in todo :: Looking(g, batch, hashOf, matches, u, k))
    && (forall u {:trigger u in waiting} | u in waiting ::
          Looking(g, batch, hashOf, matches, u, k) && Compared(g, batch, hashOf, u, k))
    && (forall u {:trigger u in moving} | u in moving ::
          Looking(g, batch, hashOf, matches, u, k) && Differs(g, batch, hashOf, u, k))
    && (forall u: nat {:trigger Found(g, batch, matches, u)} | u < |batch| && u !in todo && u !in waiting &&
       u !in moving ::
          Found(g, batch, matches, u))
  }

  lemma StandingStep<R>(g: Groups<R>, g': Groups<R>, batch: seq<R>, hashOf: R -> nat, matches: (R, R) -> bool, k: nat,
          todo: set<nat>, waiting: set<nat>, moving: set<nat>, i: nat, outcome: Outcome)
    requires Standing(g, batch, hashOf, matches, k, todo, waiting, moving) && i in todo && i !in waiting && i !in moving
    requires forall u: nat | u != i :: Keeps(g, g', batch, hashOf, matches, u, k)
    requires match outcome
             case Made => Found(g', batch, matches, i)
             case Compare => Compared(g', batch, hashOf, i, k) && Looking(g', batch, hashOf, matches, i, k)
             case Skip => Differs(g', batch, hashOf, i, k) && Looking(g', batch, hashOf, matches, i, k)
    ensures Standing(g', batch, hashOf, matches, k, todo - {i},
                     if outcome.Compare? then waiting + {i} else waiting, if outcome.Skip? then moving + {i}
                         else moving)
  {
    forall u: nat | u < |batch| && u != i && u !in todo && u !in waiting && u !in moving
        ensures Found(g', batch, matches, u) {
      assert Keeps(g, g', batch, hashOf, matches, u, k) && Found(g, batch, matches, u);
    }
    forall u: nat | u != i && (u in todo || u in waiting || u in moving)
        ensures Keeps(g, g', batch, hashOf, matches, u, k) {
    }
  }

  /** Every row still looking probes one slot, in turn. */
  method ProbeAll<R(!new)>(g0: Groups<R>, ghost n: nat, batch: seq<R>, hashOf: R -> nat, matches: (R, R) -> bool,
          sel: seq<nat>, ghost whole: set<nat>, buckets: seq<nat>, ghost k: nat)
    returns (g: Groups<R>, compare: seq<nat>, again: seq<nat>, ghost waiting: set<nat>, ghost moving: set<nat>)
    requires Sound(g0, n, batch, hashOf, matches) && Consistent(hashOf, matches) && k < |g0.d|
    requires Lists(sel, whole) && Standing(g0, batch, hashOf, matches, k, whole, {}, {})
    requires |buckets| == |batch| && forall i | i in whole ::
             i < |batch| && buckets[i] == Probed(g0.d, hashOf(batch[i]), k)
    requires forall x {:trigger matches(x, x)} :: matches(x, x)
    ensures Sound(g, n, batch, hashOf, matches) && |g.d| == |g0.d| && |g0.rows| <= |g.rows| &&
            g.rows[..|g0.rows|] == g0.rows
    ensures |g.rows| + |compare| + |again| == |g0.rows| + |sel|
    ensures Lists(compare, waiting) && Lists(again, moving) && waiting !! moving && waiting + moving <= whole
    ensures Standing(g, batch, hashOf, matches, k, {}, waiting, moving)
  {
    hide Table, OneRowPerKey;
    g, compare, again := g0, [], [];
    waiting, moving := {}, {};
    ghost var todo: set<nat> := whole;
    for m := 0 to |sel|
      invariant Sound(g, n, batch, hashOf, matches) && |g.d| == |g0.d| && |g0.rows| <= |g.rows| &&
                g.rows[..|g0.rows|] == g0.rows
      invariant |g.rows| + |compare| + |again| == |g0.rows| + m
      invariant Lists(compare, waiting) && Lists(again, moving) && waiting !! moving && waiting !! todo &&
                moving !! todo
      invariant todo + waiting + moving <= whole && (forall j | m <= j < |sel| :: sel[j] in todo) &&
                forall j | 0 <= j < m :: sel[j] !in todo
      invariant Standing(g, batch, hashOf, matches, k, todo, waiting, moving)
    {
      var i := sel[m];
      assert i in todo && Looking(g, batch, hashOf, matches, i, k);
      var g', outcome := ProbeOne(g, n, batch, hashOf, matches, i, buckets[i], k);
      StandingStep(g, g', batch, hashOf, matches, k, todo, waiting, moving, i, outcome);
      g, todo := g', todo - {i};
      if outcome.Compare? {
        ListsMore(compare, waiting, i);
        compare, waiting := compare + [i], waiting + {i};
      } else if outcome.Skip? {
        ListsMore(again, moving, i);
        again, moving := again + [i], moving + {i};
      }
    }
    assert todo == {};
  }

  /** The rows that met an equal hash compare themselves with the row they met; those that differ
      move on with the rest. */
  method CompareAll<R(!new)>(g: Groups<R>, batch: seq<R>, hashOf: R -> nat, matches: (R, R) -> bool, compare: seq<nat>,
          again0: seq<nat>, ghost waiting: set<nat>, ghost moving: set<nat>, ghost k: nat)
    returns (again: seq<nat>, ghost left: set<nat>)
    requires Table(g.d, g.rows, g.hashes, hashOf) && Consistent(hashOf, matches) && k < |g.d| && |g.addr| == |batch|
    requires Lists(compare, waiting) && Lists(again0, moving) && waiting !! moving
    requires Standing(g, batch, hashOf, matches, k, {}, waiting, moving)
    ensures Lists(again, left) && |again| <= |compare| + |again0| && left <= waiting + moving
    ensures k + 1 <= |g.d| && Standing(g, batch, hashOf, matches, k + 1, left, {}, {})
  {
    hide LinksAll, Compared, Found;
    again, left := again0, moving;
    ghost var found: set<nat> := {};
    for m := 0 to |compare|
      invariant Lists(again, left) && |again| <= m + |again0| && moving <= left <= moving + waiting
      invariant forall u | u in left :: u in moving || !Found(g, batch, matches, u)
      invariant forall j | 0 <= j < m :: compare[j] in left || Found(g, batch, matches, compare[j])
      invariant forall j | m <= j < |compare| :: compare[j] !in left
    {
      hide Table, Consistent;
      var i := compare[m];
      assert i in waiting;
      RowFound(g, batch, hashOf, matches, i, k);
      if !matches(g.rows[g.addr[i]], batch[i]) {
        ListsMore(again, left, i);
        again, left := again + [i], left + {i};
      }
    }
    forall u | u in left ensures Looking(g, batch, hashOf, matches, u, k + 1) {
      if u in moving {
        MovesOn(g, batch, hashOf, matches, u, k);
      } else {
        assert u in waiting;
        MovesOn(g, batch, hashOf, matches, u, k);
      }
    }
    forall u: nat | u < |batch| && u !in left ensures Found(g, batch, matches, u) {
      if u in waiting {
        var j :| 0 <= j < |compare| && compare[j] == u;
      }
    }
  }

  lemma RowFound<R>(g: Groups<R>, batch: seq<R>, hashOf: R -> nat, matches: (R, R) -> bool, i: nat, k: nat)
    requires Table(g.d, g.rows, g.hashes, hashOf) && Compared(g, batch, hashOf, i, k)
    ensures g.addr[i] < |g.rows| && (Found(g, batch, matches, i) <==> matches(g.rows[g.addr[i]], batch[i]))
  {
    RowsLinked(g.d, g.rows, g.hashes, hashOf);
  }

  lemma StandingBuckets<R>(g: Groups<R>, batch: seq<R>, hashOf: R -> nat, matches: (R, R) -> bool, k: nat,
          left: set<nat>)
    requires Table(g.d, g.rows, g.hashes, hashOf) && |g.rows| < |g.d| && k <= |g.d|
    requires Standing(g, batch, hashOf, matches, k, left, {}, {}) && left != {}
    ensures k < |g.d| && forall u | u in left :: u < |batch|
  {
    var u :| u in left;
    assert Looking(g, batch, hashOf, matches, u, k);
    BelowSize(|g.hashes|);
    ProbeStops(g.d, g.hashes, Below(|g.hashes|), hashOf(batch[u]), k);
  }

  lemma BelowSize(n: nat)
    ensures |Below(n)| == n
  {
  }

  /** The next bucket of every row that moves on. */
  method Advance<R>(g: Groups<R>, batch: seq<R>, hashOf: R -> nat, buckets: seq<nat>, sel: seq<nat>,
          ghost left: set<nat>, ghost k: nat)
    returns (next: seq<nat>)
    requires 0 < |g.d| && k + 1 < |g.d| && |buckets| == |batch| && Lists(sel, left)
    requires forall u | u in left :: u < |batch| && buckets[u] == Probed(g.d, hashOf(batch[u]), k)
    ensures |next| == |batch| && forall u | u in left :: next[u] == Probed(g.d, hashOf(batch[u]), k + 1)
  {
    next := buckets;
    forall j | 0 <= j < |sel| ensures sel[j] in left {
      assert sel[j] in sel;
    }
    for m := 0 to |sel|
      invariant |next| == |batch|
      invariant forall j | 0 <= j < m :: sel[j] < |batch| && next[sel[j]] == Probed(g.d, hashOf(batch[sel[j]]), k + 1)
      invariant forall j | m <= j < |sel| :: sel[j] < |batch| && next[sel[j]] == Probed(g.d, hashOf(batch[sel[j]]), k)
    {
      next := next[sel[m] := if next[sel[m]] + 1 == |g.d| then 0 else next[sel[m]] + 1];
    }
    forall u | u in left ensures next[u] == Probed(g.d, hashOf(batch[u]), k + 1) {
      var j :| 0 <= j < |sel| && sel[j] == u;
    }
  }

  function Homes<R>(d: Directory, batch: seq<R>, hashOf: R -> nat): (bs: seq<nat>)
    requires 0 < |d|
    ensures |bs| == |batch| && forall i | 0 <= i < |batch| :: bs[i] == Probed(d, hashOf(batch[i]), 0)
  {
    seq(|batch|, i requires 0 <= i < |batch| => hashOf(batch[i]) % |d|)
  }

  /** The identity selection. */
  function Upto(n: nat): seq<nat> {
    seq(n, i requires 0 <= i < n => i)
  }

  lemma UptoLists(n: nat)
    ensures Lists(Upto(n), Below(n))
  {
    forall x ensures x in Upto(n) <==> x in Below(n) {
      if x in Below(n) {
        assert Upto(n)[x] == x;
      }
    }
  }

  lemma StartLooking<R>(g: Groups<R>, batch: seq<R>, hashOf: R -> nat, matches: (R, R) -> bool)
    requires 0 < |g.d|
    ensures Standing(g, batch, hashOf, matches, 0, Below(|batch|), {}, {})
  {
  }

  /** Place a whole batch. Rounds go on until no row is looking; `k` slots have been probed by every row
      still looking, and since a slot is always free no row probes them all. */
  method FindOrCreate<R(!new)>(d: Directory, rows: seq<R>, hashes: seq<nat>, batch: seq<R>, hashOf: R -> nat,
          matches: (R, R) -> bool)
    returns (g: Groups<R>)
    requires Table(d, rows, hashes, hashOf) && OneRowPerKey(rows, matches) && Consistent(hashOf, matches)
    requires 0 < |d| && |rows| + |batch| < |d| && forall x {:trigger matches(x, x)} :: matches(x, x)
    ensures Sound(g, |rows|, batch, hashOf, matches) && |g.d| == |d| && |rows| <= |g.rows| && g.rows[..|rows|] == rows
    ensures forall i: nat | i < |batch| :: Found(g, batch, matches, i)
    ensures |g.rows| <= |rows| + |batch|
  {
    hide OneRowPerKey, Table;
    g := Groups(d, rows, hashes, seq(|batch|, _ => 0), []);
    var buckets: seq<nat> := Homes(d, batch, hashOf);
    var sel: seq<nat> := Upto(|batch|);
    ghost var left: set<nat> := Below(|batch|);
    ghost var k: nat := 0;
    UptoLists(|batch|);
    StartLooking(g, batch, hashOf, matches);
    while sel != []
      invariant Sound(g, |rows|, batch, hashOf, matches) && |g.d| == |d| && |rows| <= |g.rows| &&
                g.rows[..|rows|] == rows
      invariant |g.rows| + |sel| <= |rows| + |batch| && Lists(sel, left) && k <= |d|
      invariant Standing(g, batch, hashOf, matches, k, left, {}, {})
      invariant sel != [] ==> k < |d| && AtProbe(g.d, batch, hashOf, buckets, left, k)
      decreases |d| - k
    {
      g, sel, left, buckets := Round(g, |rows|, batch, hashOf, matches, sel, left, buckets, k);
      k := k + 1;
    }
  }

  /** Every row of the set is at the slot of its k-th probe. */
  ghost predicate AtProbe<R>(d: Directory, batch: seq<R>, hashOf: R -> nat, buckets: seq<nat>, left: set<nat>, k: nat)
    requires 0 < |d| && k < |d|
  {
    |buckets| == |batch| && forall u | u in left :: u < |batch| && buckets[u] == Probed(d, hashOf(batch[u]), k)
  }

  /** One round: everyone still looking probes a slot, hash-equal rows are compared, the rest move on. */
  method Round<R(!new)>(g0: Groups<R>, ghost n: nat, batch: seq<R>, hashOf: R -> nat, matches: (R, R) -> bool,
          sel: seq<nat>, ghost left: set<nat>, buckets: seq<nat>, ghost k: nat)
    returns (g: Groups<R>, sel': seq<nat>, ghost left': set<nat>, buckets': seq<nat>)
    requires Sound(g0, n, batch, hashOf, matches) && Consistent(hashOf, matches) && k < |g0.d| &&
             |g0.rows| + |sel| < |g0.d|
    requires Lists(sel, left) && Standing(g0, batch, hashOf, matches, k, left, {}, {})
    requires AtProbe(g0.d, batch, hashOf, buckets, left, k) && forall x {:trigger matches(x, x)} :: matches(x, x)
    ensures Sound(g, n, batch, hashOf, matches) && |g.d| == |g0.d| && |g0.rows| <= |g.rows| &&
            g.rows[..|g0.rows|] == g0.rows
    ensures |g.rows| + |sel'| <= |g0.rows| + |sel| && Lists(sel', left')
    ensures Standing(g, batch, hashOf, matches, k + 1, left', {}, {})
    ensures sel' != [] ==> k + 1 < |g.d| && AtProbe(g.d, batch, hashOf, buckets', left', k + 1)
  {
    hide Table, OneRowPerKey;
    var compare: seq<nat>, again: seq<nat>;
    ghost var waiting: set<nat>, moving: set<nat>;
    g, compare, again, waiting, moving := ProbeAll(g0, n, batch, hashOf, matches, sel, left, buckets, k);
    sel', left' := CompareAll(g, batch, hashOf, matches, compare, again, waiting, moving, k);
    buckets' := buckets;
    if sel' != [] {
      assert sel'[0] in left';
      StandingBuckets(g, batch, hashOf, matches, k + 1, left');
      buckets' := Advance(g, batch, hashOf, buckets, sel', left', k);
    }
  }

  // ---------------------------------------------------------------- the table refines a map

  ghost predicate Equivalence<R(!new)>(matches: (R, R) -> bool) {
    && (forall x {:trigger matches(x, x)} :: matches(x, x))
    && (forall x, y {:trigger matches(x, y)} | matches(x, y) :: matches(y, x))
    && (forall x, y, z {:trigger matches(x, y), matches(y, z)} | matches(x, y) && matches(y, z) :: matches(x, z))
  }

  lemma OneMatch<R(!new)>(rows: seq<R>, matches: (R, R) -> bool, x: R, r: nat, s: nat)
    requires Equivalence(matches) && OneRowPerKey(rows, matches) && r < |rows| && s < |rows|
    requires matches(rows[r], x) && matches(rows[s], x)
    ensures r == s
  {
    assert matches(x, rows[s]) && matches(x, rows[r]);
    assert matches(rows[r], rows[s]) && matches(rows[s], rows[r]);
  }

  /** Placing a batch is looking its keys up in a map that grows by the missing ones: rows get the same
      address exactly when their keys are equal, a key that was stored keeps its row, and one row is
      created for each key that was not, by a batch row with that key. */
  lemma GroupsRefineMap<R(!new)>(g: Groups<R>, rows: seq<R>, batch: seq<R>, hashOf: R -> nat, matches: (R, R) -> bool,
          i: nat, j: nat)
    requires Equivalence(matches) && Sound(g, |rows|, batch, hashOf, matches) && |rows| <= |g.rows| &&
             g.rows[..|rows|] == rows
    requires forall u: nat | u < |batch| :: Found(g, batch, matches, u)
    requires i < |batch| && j < |batch|
    ensures |g.addr| == |batch| && (g.addr[i] == g.addr[j] <==> matches(batch[i], batch[j]))
    ensures forall r | 0 <= r < |rows| && matches(rows[r], batch[i]) :: g.addr[i] == r
    ensures (exists r :: 0 <= r < |rows| && matches(rows[r], batch[i])) <==> g.addr[i] < |rows|
    ensures g.addr[i] >= |rows| ==>
              var c := g.addr[i] - |rows|;
                  c < |g.created| && g.created[c] < |batch| && matches(batch[g.created[c]], batch[i])
  {
    assert Found(g, batch, matches, i) && Found(g, batch, matches, j);
    if g.addr[i] == g.addr[j] {
      assert matches(batch[i], g.rows[g.addr[i]]);
    }
    if matches(batch[i], batch[j]) {
      assert matches(g.rows[g.addr[i]], batch[j]);
      OneMatch(g.rows, matches, batch[j], g.addr[i], g.addr[j]);
    }
    forall r | 0 <= r < |rows| && matches(rows[r], batch[i]) ensures g.addr[i] == r {
      assert g.rows[r] == rows[r];
      OneMatch(g.rows, matches, batch[i], g.addr[i], r);
    }
    if g.addr[i] < |rows| {
      assert g.rows[g.addr[i]] == rows[g.addr[i]];
    } else {
      assert g.created[g.addr[i] - |rows|] < |batch|;
    }
  }
}
