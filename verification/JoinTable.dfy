/** Building and probing a directory over stored rows. */
module JoinTable {
  import opened Machine
  import opened LinearProbing
  import opened GroupTable

  // ---------------------------------------------------------------- linking rows

  /** Link a row at the first empty slot from its home. */
  method Link(d: Directory, ghost hashes: seq<nat>, ghost linked: set<nat>, h: nat, r: nat) returns (d': Directory)
    requires Clustered(d) && Links(d, hashes, linked) && |linked| < |d|
    requires r < |hashes| && r !in linked && hashes[r] == h
    ensures |d'| == |d| && Clustered(d') && Links(d', hashes, linked + {r})
  {
    var bucket := h % |d|;
    ghost var k: nat := 0;
    while d[bucket].Entry?
      invariant k < |d| && bucket == Probed(d, h, k) && Full(d, h, k)
      decreases |d| - k
    {
      ProbeStops(d, hashes, linked, h, k + 1);
      bucket := if bucket + 1 == |d| then 0 else bucket + 1;
      k := k + 1;
    }
    Linked(d, hashes, linked, r, k);
    d' := d[bucket := Entry(h, r)];
  }

  ghost function Slots(d: Directory, hashes: seq<nat>): (at: map<nat, nat>)
    requires LinksAll(d, hashes)
    ensures LinksAt(d, hashes, at) && at.Keys == Below(|hashes|)
  {
    var at: map<nat, nat> :| LinksAt(d, hashes, at) && at.Keys == Below(|hashes|);
    at
  }

  lemma EntryOf(d: Directory, hashes: seq<nat>, at: map<nat, nat>, b: nat)
    requires LinksAt(d, hashes, at) && b < |d| && d[b].Entry?
    ensures d[b].row in at && at[d[b].row] == b && d[b].row < |hashes| && d[b].hash == hashes[d[b].row]
    ensures forall r | r in at && at[r] == b :: r == d[b].row
  {
  }

  /** Re-link every entry of a directory into a larger one. */
  method Rehash(d: Directory, ghost hashes: seq<nat>, capacity: nat) returns (d': Directory)
    requires LinksAll(d, hashes) && |hashes| < capacity
    ensures |d'| == capacity && Clustered(d') && LinksAll(d', hashes)
  {
    hide Clustered, Links;
    ghost var at: map<nat, nat> := Slots(d, hashes);
    ghost var linked: set<nat> := {};
    d' := seq(capacity, _ => Empty);
    EmptyDirectory(capacity);
    for b := 0 to |d|
      invariant |d'| == capacity && Clustered(d') && Links(d', hashes, linked) && linked <= Below(|hashes|)
      invariant forall r {:trigger r in linked} | r in at :: r in linked <==> at[r] < b
    {
      if d[b].Entry? {
        EntryOf(d, hashes, at, b);
        SubsetSize(linked, Below(|hashes|));
        BelowSize(|hashes|);
        d' := Link(d', hashes, linked, d[b].hash, d[b].row);
        linked := linked + {d[b].row};
      }
    }
    assert linked == Below(|hashes|);
  }

  /** Link every stored row into an empty directory. */
  method BuildFrom(hashes: seq<nat>, capacity: nat) returns (d: Directory)
    requires |hashes| < capacity
    ensures |d| == capacity && Clustered(d) && LinksAll(d, hashes)
  {
    d := seq(capacity, _ => Empty);
    EmptyDirectory(capacity);
    for i := 0 to |hashes|
      invariant |d| == capacity && Clustered(d) && Links(d, hashes, Below(i))
    {
      d := Link(d, hashes, Below(i), hashes[i], i);
      NextBelow(i);
    }
  }

  // ---------------------------------------------------------------- probing

  /** Stored row `row` met by probe row `probe`. */
  datatype Pair = Pair(row: nat, probe: nat)

  function Paired(rows: seq<nat>, p: nat): seq<Pair> {
    seq(|rows|, i requires 0 <= i < |rows| => Pair(rows[i], p))
  }

  /** The hash-equal pairs of the first `n` selected probe rows. */
  function Candidates<R>(d: Directory, keys: seq<R>, hashOf: R -> nat, sel: seq<nat>, n: nat): seq<Pair>
    requires 0 < |d| && n <= |sel| && forall i | 0 <= i < |sel| :: sel[i] < |keys|
  {
    if n == 0 then []
    else Candidates(d, keys, hashOf, sel, n - 1) + Paired(Walk(d, hashOf(keys[sel[n - 1]]), 0), sel[n - 1])
  }

  predicate Agrees<R>(rows: seq<R>, keys: seq<R>, matches: (R, R) -> bool, c: Pair) {
    c.row < |rows| && c.probe < |keys| && matches(rows[c.row], keys[c.probe])
  }

  /** The candidates whose keys really are equal. */
  function Kept<R>(rows: seq<R>, keys: seq<R>, matches: (R, R) -> bool, cs: seq<Pair>): seq<Pair> {
    if cs == [] then []
    else Kept(rows, keys, matches, cs[..|cs| - 1]) +
         if Agrees(rows, keys, matches, cs[|cs| - 1]) then [cs[|cs| - 1]] else []
  }

  lemma {:induction false} KeptAppend<R>(rows: seq<R>, keys: seq<R>, matches: (R, R) -> bool, a: seq<Pair>,
          b: seq<Pair>)
    ensures Kept(rows, keys, matches, a + b) == Kept(rows, keys, matches, a) + Kept(rows, keys, matches, b)
  {
    if b == [] {
      assert a + b == a;
    } else {
      var n := |b| - 1;
      assert (a + b)[..|a| + n] == a + b[..n];
      KeptAppend(rows, keys, matches, a, b[..n]);
    }
  }

  /** Verify the buffered candidates. */
  method Flush<R>(rows: seq<R>, keys: seq<R>, matches: (R, R) -> bool, cand: seq<Pair>, out0: seq<Pair>)
    returns (out: seq<Pair>)
    requires forall c | c in cand :: c.row < |rows| && c.probe < |keys|
    ensures out == out0 + Kept(rows, keys, matches, cand)
  {
    out := out0;
    for i := 0 to |cand|
      invariant out == out0 + Kept(rows, keys, matches, cand[..i])
    {
      assert cand[..i + 1][..i] == cand[..i] && cand[i] in cand;
      if matches(rows[cand[i].row], keys[cand[i].probe]) {
        out := out + [cand[i]];
      }
    }
    assert cand[..|cand|] == cand;
  }

  /** What one probe row's walk contributes from its k-th probe on. */
  function Emitted<R>(d: Directory, rows: seq<R>, keys: seq<R>, matches: (R, R) -> bool, h: nat, k: nat,
          p: nat): seq<Pair>
    requires 0 < |d| && k <= |d|
  {
    Kept(rows, keys, matches, Paired(Walk(d, h, k), p))
  }

  lemma EmittedStep<R>(d: Directory, rows: seq<R>, keys: seq<R>, matches: (R, R) -> bool, h: nat, k: nat, p: nat)
    requires 0 < |d| && k < |d| && d[Probed(d, h, k)].Entry?
    ensures var e := d[Probed(d, h, k)];
            var c := Pair(e.row, p);
            Emitted(d, rows, keys, matches, h, k, p) ==
            (if e.hash == h && Agrees(rows, keys, matches, c) then [c] else []) +
              Emitted(d, rows, keys, matches, h, k + 1, p)
  {
    var e := d[Probed(d, h, k)];
    var c, rest := Pair(e.row, p), Paired(Walk(d, h, k + 1), p);
    if e.hash == h {
      assert Paired(Walk(d, h, k), p) == [c] + rest;
      KeptAppend(rows, keys, matches, [c], rest);
      KeptOne(rows, keys, matches, [], c);
      assert [] + [c] == [c];
    } else {
      assert Walk(d, h, k) == Walk(d, h, k + 1);
    }
  }

  lemma Regroup(out: seq<Pair>, a: seq<Pair>, x: seq<Pair>, b: seq<Pair>)
    ensures out + a + (x + b) == out + (a + x) + b
  {
  }

  /** Chase one probe row's cluster, flushing the candidate buffer whenever it is full. */
  method ProbeOneRow<R>(d: Directory, rows: seq<R>, ghost hashes: seq<nat>, keys: seq<R>, hashOf: R -> nat,
          matches: (R, R) -> bool, p: nat, cand0: seq<Pair>, out0: seq<Pair>)
    returns (cand: seq<Pair>, out: seq<Pair>)
    requires Table(d, rows, hashes, hashOf) && |rows| < |d| && p < |keys| && |cand0| < VECTOR_SIZE
    requires forall c | c in cand0 :: c.row < |rows| && c.probe < |keys|
    ensures |cand| < VECTOR_SIZE && forall c | c in cand :: c.row < |rows| && c.probe < |keys|
    ensures out + Kept(rows, keys, matches, cand) ==
            out0 + Kept(rows, keys, matches, cand0) + Emitted(d, rows, keys, matches, hashOf(keys[p]), 0, p)
  {
    hide Emitted, Kept, Clustered, LinksAll, Walk;
    RowsLinked(d, rows, hashes, hashOf);
    var h := hashOf(keys[p]);
    var bucket := h % |d|;
    ghost var k: nat := 0;
    cand, out := cand0, out0;
    ghost var total := out + Kept(rows, keys, matches, cand) + Emitted(d, rows, keys, matches, h, 0, p);
    while d[bucket].Entry?
      invariant k < |d| && bucket == Probed(d, h, k) && Full(d, h, k) && |cand| < VECTOR_SIZE
      invariant forall c | c in cand :: c.row < |rows| && c.probe < |keys|
      invariant out + Kept(rows, keys, matches, cand) + Emitted(d, rows, keys, matches, h, k, p) == total
      decreases |d| - k
    {
      StillRoom(d, rows, hashes, hashOf, h, k);
      EmittedStep(d, rows, keys, matches, h, k, p);
      if d[bucket].hash == h {
        var c := Pair(d[bucket].row, p);
        KeptOne(rows, keys, matches, cand, c);
        Regroup(out, Kept(rows, keys, matches, cand), if Agrees(rows, keys, matches, c) then [c] else [],
                Emitted(d, rows, keys, matches, h, k + 1, p));
        cand := cand + [c];
        if |cand| == VECTOR_SIZE {
          out := Flush(rows, keys, matches, cand, out);
          cand := [];
          KeptNothing(rows, keys, matches);
        }
      }
      bucket := if bucket + 1 == |d| then 0 else bucket + 1;
      k := k + 1;
    }
    EmittedEnd(d, rows, keys, matches, h, k, p);
  }

  lemma StillRoom<R>(d: Directory, rows: seq<R>, hashes: seq<nat>, hashOf: R -> nat, h: nat, k: nat)
    requires Table(d, rows, hashes, hashOf) && |rows| < |d| && k < |d| && Full(d, h, k) && d[Probed(d, h, k)].Entry?
    ensures k + 1 < |d| && Full(d, h, k + 1)
  {
    BelowSize(|hashes|);
    ProbeStops(d, hashes, Below(|hashes|), h, k + 1);
  }

  lemma KeptNothing<R>(rows: seq<R>, keys: seq<R>, matches: (R, R) -> bool)
    ensures Kept(rows, keys, matches, []) == []
  {
  }

  lemma EmittedEnd<R>(d: Directory, rows: seq<R>, keys: seq<R>, matches: (R, R) -> bool, h: nat, k: nat, p: nat)
    requires 0 < |d| && k < |d| && d[Probed(d, h, k)].Empty?
    ensures Emitted(d, rows, keys, matches, h, k, p) == []
  {
  }

  lemma KeptOne<R>(rows: seq<R>, keys: seq<R>, matches: (R, R) -> bool, cs: seq<Pair>, c: Pair)
    ensures Kept(rows, keys, matches, cs + [c]) ==
            Kept(rows, keys, matches, cs) + if Agrees(rows, keys, matches, c) then [c] else []
  {
    assert (cs + [c])[..|cs|] == cs;
  }

  /** Emit the pairs with equal keys, whatever the buffer flushes do. */
  method Probe<R>(d: Directory, rows: seq<R>, ghost hashes: seq<nat>, keys: seq<R>, hashOf: R -> nat,
          matches: (R, R) -> bool, sel: seq<nat>)
    returns (out: seq<Pair>)
    requires Table(d, rows, hashes, hashOf) && |rows| < |d| && forall i | 0 <= i < |sel| :: sel[i] < |keys|
    ensures out == Kept(rows, keys, matches, Candidates(d, keys, hashOf, sel, |sel|))
  {
    hide Table, Kept, Walk;
    var cand: seq<Pair> := [];
    out := [];
    KeptNothing(rows, keys, matches);
    for n := 0 to |sel|
      invariant |cand| < VECTOR_SIZE && forall c | c in cand :: c.row < |rows| && c.probe < |keys|
      invariant out + Kept(rows, keys, matches, cand) == Kept(rows, keys, matches, Candidates(d, keys, hashOf, sel, n))
    {
      KeptAppend(rows, keys, matches, Candidates(d, keys, hashOf, sel, n),
        Paired(Walk(d, hashOf(keys[sel[n]]), 0), sel[n]));
      cand, out := ProbeOneRow(d, rows, hashes, keys, hashOf, matches, sel[n], cand, out);
    }
    out := Flush(rows, keys, matches, cand, out);
  }

  // ---------------------------------------------------------------- a probe is an exact equi-join

  predicate NoPairTwice(cs: seq<Pair>) {
    forall i, j | 0 <= i < j < |cs| :: cs[i] != cs[j]
  }

  lemma {:induction false} KeptMember<R>(rows: seq<R>, keys: seq<R>, matches: (R, R) -> bool, cs: seq<Pair>, c: Pair)
    ensures c in Kept(rows, keys, matches, cs) <==> c in cs && Agrees(rows, keys, matches, c)
  {
    if cs != [] {
      var n := |cs| - 1;
      KeptMember(rows, keys, matches, cs[..n], c);
      assert cs == cs[..n] + [cs[n]];
    }
  }

  lemma {:induction false} KeptOnce<R>(rows: seq<R>, keys: seq<R>, matches: (R, R) -> bool, cs: seq<Pair>)
    requires NoPairTwice(cs)
    ensures NoPairTwice(Kept(rows, keys, matches, cs))
  {
    if cs != [] {
      var n := |cs| - 1;
      KeptOnce(rows, keys, matches, cs[..n]);
      KeptMember(rows, keys, matches, cs[..n], cs[n]);
    }
  }

  /** A selection of `n` rows: each index in range, none twice. */
  predicate Selects(sel: seq<nat>, n: nat) {
    (forall i | 0 <= i < |sel| :: sel[i] < n) && forall i, j | 0 <= i < j < |sel| :: sel[i] != sel[j]
  }

  lemma {:induction false} CandidatesExact<R>(d: Directory, rows: seq<R>, hashes: seq<nat>, keys: seq<R>,
          hashOf: R -> nat, sel: seq<nat>, n: nat)
    requires Table(d, rows, hashes, hashOf) && n <= |sel| && Selects(sel, |keys|)
    ensures forall c: Pair {:trigger c in Candidates(d, keys, hashOf, sel, n)} ::
              c in Candidates(d, keys, hashOf, sel, n) <==>
              c.probe in sel[..n] && c.row < |rows| && hashOf(rows[c.row]) == hashOf(keys[c.probe])
    ensures NoPairTwice(Candidates(d, keys, hashOf, sel, n))
  {
    if n > 0 {
      var p := sel[n - 1];
      var h := hashOf(keys[p]);
      var before, more := Candidates(d, keys, hashOf, sel, n - 1), Paired(Walk(d, h, 0), p);
      CandidatesExact(d, rows, hashes, keys, hashOf, sel, n - 1);
      WalkExact(d, hashes, h);
      PairedExact(Walk(d, h, 0), p);
      assert sel[..n] == sel[..n - 1] + [p];
      forall c: Pair ensures c in before + more <==>
                       c.probe in sel[..n] && c.row < |rows| && hashOf(rows[c.row]) == hashOf(keys[c.probe]) {
        assert c in before + more <==> c in before || c in more;
      }
      AppendOnce(before, more);
    } else {
      assert sel[..n] == [];
    }
  }

  lemma PairedExact(rows: seq<nat>, p: nat)
    requires NoRepeats(rows)
    ensures NoPairTwice(Paired(rows, p))
    ensures forall c: Pair {:trigger c in Paired(rows, p)} :: c in Paired(rows, p) <==> c.probe == p && c.row in rows
  {
    var ps := Paired(rows, p);
    forall c: Pair ensures c in ps <==> c.probe == p && c.row in rows {
      if c.probe == p && c.row in rows {
        var i :| 0 <= i < |rows| && rows[i] == c.row;
        assert ps[i] == c;
      }
    }
  }

  lemma AppendOnce(a: seq<Pair>, b: seq<Pair>)
    requires NoPairTwice(a) && NoPairTwice(b) && forall c | c in a :: c !in b
    ensures NoPairTwice(a + b)
  {
    forall i, j | 0 <= i < j < |a + b| ensures (a + b)[i] != (a + b)[j] {
      if i < |a| <= j {
        assert a[i] in a && b[j - |a|] in b;
      }
    }
  }

  /** A probe emits each pair of a stored row and a selected probe row with equal keys exactly once, and
      nothing else. */
  lemma ProbeExact<R(!new)>(d: Directory, rows: seq<R>, hashes: seq<nat>, keys: seq<R>, hashOf: R -> nat,
          matches: (R, R) -> bool, sel: seq<nat>)
    requires Table(d, rows, hashes, hashOf) && Consistent(hashOf, matches) && Selects(sel, |keys|)
    ensures var out := Kept(rows, keys, matches, Candidates(d, keys, hashOf, sel, |sel|));
            && NoPairTwice(out)
            && forall c: Pair {:trigger c in out} :: c in out <==> c.probe in sel && Agrees(rows, keys, matches, c)
  {
    var cs := Candidates(d, keys, hashOf, sel, |sel|);
    CandidatesExact(d, rows, hashes, keys, hashOf, sel, |sel|);
    assert sel[..|sel|] == sel;
    KeptOnce(rows, keys, matches, cs);
    forall c: Pair ensures c in Kept(rows, keys, matches, cs) <==> c.probe in sel && Agrees(rows, keys, matches, c) {
      KeptMember(rows, keys, matches, cs, c);
    }
  }
}
