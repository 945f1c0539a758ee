/** A directory of slots searched by linear probing. */
module LinearProbing {

  /** A slot holds the hash and the number of a stored row. */
  datatype Slot = Empty | Entry(hash: nat, row: nat)

  type Directory = seq<Slot>

  /** The k-th slot probed for a hash, wrapping around at the end. */
  function Probed(d: Directory, h: nat, k: nat): (b: nat)
    requires 0 < |d| && k < |d|
    ensures b < |d|
  {
    var home := h % |d|;
    if home + k < |d| then home + k else home + k - |d|
  }

  /** The first `k` slots probed for `h` are occupied. */
  predicate Full(d: Directory, h: nat, k: nat)
    requires 0 < |d| && k <= |d|
  {
    forall j {:trigger Probed(d, h, j)} | 0 <= j < k :: d[Probed(d, h, j)].Entry?
  }

  /** How many probes lead from the home of `h` to slot `b`. */
  function Distance(d: Directory, h: nat, b: nat): (k: nat)
    requires 0 < |d| && b < |d|
    ensures k < |d| && Probed(d, h, k) == b
  {
    var home := h % |d|;
    if home <= b then b - home else b + |d| - home
  }

  lemma ProbedOnce(d: Directory, h: nat, j: nat, k: nat)
    requires 0 < |d| && j < |d| && k < |d| && Probed(d, h, j) == Probed(d, h, k)
    ensures j == k
  {
  }

  /** Every entry is reached from its home without crossing an empty slot. */
  predicate Clustered(d: Directory) {
    0 < |d| && forall b {:trigger Reached(d, b)} | 0 <= b < |d| && d[b].Entry? :: Reached(d, b)
  }

  predicate Reached(d: Directory, b: nat)
    requires 0 < |d| && b < |d| && d[b].Entry?
  {
    Full(d, d[b].hash, Distance(d, d[b].hash, b))
  }

  /** The directory links exactly these rows, each with its hash and from exactly one slot. */
  ghost predicate Links(d: Directory, hashes: seq<nat>, rows: set<nat>) {
    exists at: map<nat, nat> :: LinksAt(d, hashes, at) && at.Keys == rows
  }

  ghost predicate LinksAt(d: Directory, hashes: seq<nat>, at: map<nat, nat>) {
    && (forall r {:trigger at[r]} | r in at :: r < |hashes| && at[r] < |d| && d[at[r]] == Entry(hashes[r], r))
    && (forall b {:trigger d[b]} | 0 <= b < |d| && d[b].Entry? :: d[b].row in at && at[d[b].row] == b)
  }

  /** The directory links every row. */
  ghost predicate LinksAll(d: Directory, hashes: seq<nat>) {
    Links(d, hashes, Below(|hashes|))
  }

  // ---------------------------------------------------------------- a free slot exists

  /** The rows in the first `n` slots. */
  function RowsIn(d: Directory, n: nat): set<nat>
    requires n <= |d|
  {
    if n == 0 then {} else RowsIn(d, n - 1) + if d[n - 1].Entry? then {d[n - 1].row} else {}
  }

  lemma {:induction false} FullRows(d: Directory, hashes: seq<nat>, at: map<nat, nat>, n: nat)
    requires LinksAt(d, hashes, at) && n <= |d| && forall b | 0 <= b < n :: d[b].Entry?
    ensures |RowsIn(d, n)| == n && forall r | r in RowsIn(d, n) :: r in at && at[r] < n
  {
    if n > 0 {
      FullRows(d, hashes, at, n - 1);
      var r := d[n - 1].row;
      assert at[r] == n - 1;
      assert r !in RowsIn(d, n - 1);
    }
  }

  function Below(n: nat): (s: set<nat>)
    ensures |s| == n && forall i: nat :: i in s <==> i < n
  {
    if n == 0 then {} else Below(n - 1) + {n - 1}
  }

  lemma SubsetSize(a: set<nat>, b: set<nat>)
    requires a <= b
    ensures |a| <= |b|
    decreases a
  {
    if a != {} {
      var x :| x in a;
      SubsetSize(a - {x}, b - {x});
    }
  }

  /** With fewer rows than slots, some slot is empty. */
  lemma FreeSlot(d: Directory, hashes: seq<nat>, rows: set<nat>) returns (b: nat)
    requires Links(d, hashes, rows) && |rows| < |d|
    ensures b < |d| && d[b].Empty?
  {
    var at: map<nat, nat> :| LinksAt(d, hashes, at) && at.Keys == rows;
    if forall c | 0 <= c < |d| :: d[c].Entry? {
      FullRows(d, hashes, at, |d|);
      SubsetSize(RowsIn(d, |d|), rows);
      assert false;
    }
    b :| 0 <= b < |d| && d[b].Empty?;
  }

  /** So probing never goes all the way round. */
  lemma ProbeStops(d: Directory, hashes: seq<nat>, rows: set<nat>, h: nat, k: nat)
    requires Links(d, hashes, rows) && |rows| < |d| && k <= |d| && Full(d, h, k)
    ensures k < |d|
  {
    var b := FreeSlot(d, hashes, rows);
    var j := Distance(d, h, b);
    assert !d[Probed(d, h, j)].Entry?;
  }

  // ---------------------------------------------------------------- linking a row

  /** Filling the first empty slot probed for a hash keeps the clusters. */
  lemma StillClustered(d: Directory, h: nat, r: nat, k: nat)
    requires Clustered(d) && k < |d| && Full(d, h, k) && d[Probed(d, h, k)].Empty?
    ensures Clustered(d[Probed(d, h, k) := Entry(h, r)])
  {
    var b := Probed(d, h, k);
    var d' := d[b := Entry(h, r)];
    forall c | 0 <= c < |d'| && d'[c].Entry? ensures Reached(d', c) {
      if c == b {
        ProbedOnce(d, h, k, Distance(d, h, b));
        StillFull(d, d', h, k);
      } else {
        assert Reached(d, c);
        StillFull(d, d', d[c].hash, Distance(d, d[c].hash, c));
      }
    }
  }

  lemma StillLinks(d: Directory, hashes: seq<nat>, rows: set<nat>, r: nat, b: nat)
    requires r < |hashes| && r !in rows && Links(d, hashes, rows) && b < |d| && d[b].Empty?
    ensures Links(d[b := Entry(hashes[r], r)], hashes, rows + {r})
  {
    var at: map<nat, nat> :| LinksAt(d, hashes, at) && at.Keys == rows;
    assert LinksAt(d[b := Entry(hashes[r], r)], hashes, at[r := b]);
    assert at[r := b].Keys == rows + {r};
  }

  /** Linking a row at the first empty slot probed for its hash keeps the directory good. */
  lemma Linked(d: Directory, hashes: seq<nat>, rows: set<nat>, r: nat, k: nat)
    requires r < |hashes| && r !in rows
    requires Clustered(d) && Links(d, hashes, rows) && k < |d| && Full(d, hashes[r], k) &&
             d[Probed(d, hashes[r], k)].Empty?
    ensures var d' := d[Probed(d, hashes[r], k) := Entry(hashes[r], r)]; Clustered(d') && Links(d', hashes, rows + {r})
  {
    StillClustered(d, hashes[r], r, k);
    StillLinks(d, hashes, rows, r, Probed(d, hashes[r], k));
  }

  /** More rows may be stored without being linked. */
  lemma MoreRows(d: Directory, hashes: seq<nat>, more: seq<nat>, rows: set<nat>)
    requires Links(d, hashes, rows)
    ensures Links(d, hashes + more, rows)
  {
    var at: map<nat, nat> :| LinksAt(d, hashes, at) && at.Keys == rows;
    assert LinksAt(d, hashes + more, at);
  }

  /** Filling slots keeps runs full. */
  lemma StillFull(d: Directory, d': Directory, h: nat, k: nat)
    requires 0 < |d| == |d'| && k <= |d| && Full(d, h, k)
    requires forall b | 0 <= b < |d| && d[b].Entry? :: d'[b].Entry?
    ensures Full(d', h, k)
  {
    forall j | 0 <= j < k ensures d'[Probed(d', h, j)].Entry? {
      assert d[Probed(d, h, j)].Entry?;
    }
  }

  lemma EmptyDirectory(n: nat)
    requires n > 0
    ensures var d: Directory := seq(n, _ => Empty); Clustered(d) && forall hashes :: Links(d, hashes, {})
  {
    var d: Directory := seq(n, _ => Empty);
    forall hashes: seq<nat> ensures Links(d, hashes, {}) {
      assert LinksAt(d, hashes, map[]);
    }
  }

  // ---------------------------------------------------------------- searching

  /** An entry with hash `h` lies before the first empty slot probed for `h`. */
  lemma EntryBeforeGap(d: Directory, h: nat, k: nat, b: nat)
    requires Clustered(d) && k < |d| && d[Probed(d, h, k)].Empty? && b < |d| && d[b].Entry? && d[b].hash == h
    ensures Distance(d, h, b) < k
  {
    assert Reached(d, b);
  }

  /** The rows with hash `h`, in the order probing meets them from its k-th probe on. */
  function Walk(d: Directory, h: nat, k: nat): seq<nat>
    requires 0 < |d| && k <= |d|
    decreases |d| - k
  {
    if k == |d| || d[Probed(d, h, k)].Empty? then []
    else (if d[Probed(d, h, k)].hash == h then [d[Probed(d, h, k)].row] else []) + Walk(d, h, k + 1)
  }

  /** A row met by the rest of the walk sits in a slot still ahead. */
  lemma {:induction false} WalkSound(d: Directory, h: nat, k: nat, r: nat) returns (b: nat)
    requires 0 < |d| && k <= |d| && r in Walk(d, h, k)
    ensures b < |d| && d[b] == Entry(h, r) && k <= Distance(d, h, b)
    decreases |d| - k
  {
    b := Probed(d, h, k);
    if d[b].hash == h && r == d[b].row {
      ProbedOnce(d, h, k, Distance(d, h, b));
    } else {
      b := WalkSound(d, h, k + 1, r);
    }
  }

  /** An entry with the hash in a slot still ahead is met by the rest of the walk. */
  lemma {:induction false} WalkComplete(d: Directory, h: nat, k: nat, b: nat)
    requires Clustered(d) && k <= |d| && b < |d| && d[b].Entry? && d[b].hash == h && k <= Distance(d, h, b)
    ensures d[b].row in Walk(d, h, k)
    decreases |d| - k
  {
    if d[Probed(d, h, k)].Empty? {
      EntryBeforeGap(d, h, k, b);
    } else if k < Distance(d, h, b) {
      WalkComplete(d, h, k + 1, b);
    }
  }

  predicate NoRepeats(rows: seq<nat>) {
    forall i, j | 0 <= i < j < |rows| :: rows[i] != rows[j]
  }

  lemma {:induction false} WalkDistinct(d: Directory, hashes: seq<nat>, at: map<nat, nat>, h: nat, k: nat)
    requires 0 < |d| && LinksAt(d, hashes, at) && k <= |d|
    ensures NoRepeats(Walk(d, h, k))
    decreases |d| - k
  {
    if k < |d| && d[Probed(d, h, k)].Entry? {
      var b := Probed(d, h, k);
      var r, rest := d[b].row, Walk(d, h, k + 1);
      WalkDistinct(d, hashes, at, h, k + 1);
      if d[b].hash == h && r in rest {
        var c := WalkSound(d, h, k + 1, r);
        ProbedOnce(d, h, k, Distance(d, h, b));
        assert false;
      }
    }
  }

  /** Walking from the home of `h` meets every row with that hash exactly once and no other row. */
  lemma WalkExact(d: Directory, hashes: seq<nat>, h: nat)
    requires Clustered(d) && LinksAll(d, hashes)
    ensures forall r: nat {:trigger r in Walk(d, h, 0)} :: r in Walk(d, h, 0) <==> r < |hashes| && hashes[r] == h
    ensures NoRepeats(Walk(d, h, 0))
  {
    var at: map<nat, nat> :| LinksAt(d, hashes, at) && at.Keys == Below(|hashes|);
    WalkDistinct(d, hashes, at, h, 0);
    forall r: nat ensures r in Walk(d, h, 0) <==> r < |hashes| && hashes[r] == h {
      if r in Walk(d, h, 0) {
        var b := WalkSound(d, h, 0, r);
      }
      if r < |hashes| && hashes[r] == h {
        assert r in at;
        WalkComplete(d, h, 0, at[r]);
      }
    }
  }
}
