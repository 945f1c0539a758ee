/** What every action keeps: how the version chains, the undo buffers and the watermark stand to the
    reference history. The state is good when every slot, every transaction, every commit record and
    the bookkeeping of the locked sections are good. */
module MvccInvariant {
  import opened MvccModel

  // ---------------------------------------------------------------- slots

  predicate IsPublished(s: State, rid: Rid)
    requires rid in s.base
  {
    s.base[rid].ts <= s.lastCommit
  }

  /** The timestamp of the version just above chain position `i`. */
  function AboveTs(s: State, rid: Rid, i: nat): Ts
    requires rid in s.base && i <= |Chain(s, rid)|
  {
    if i == 0 then s.base[rid].ts else Chain(s, rid)[i - 1].ts
  }

  /** The first published timestamp at which chain position `i` is no longer current. */
  function Up(s: State, rid: Rid, i: nat): Ts
    requires rid in s.base && i <= |Chain(s, rid)|
  {
    if i == 0 && !IsPublished(s, rid) then s.lastCommit + 1 else AboveTs(s, rid, i)
  }

  /** The history has value `v` for `rid` throughout `lo <= t < hi`, and no commit strictly between
      `lo` and `hi` wrote it. */
  ghost predicate Covered(s: State, rid: Rid, lo: Ts, hi: Ts, v: Option<Row>)
    requires |s.dbs| == s.lastCommit - s.origin + 1 && hi <= s.lastCommit + 1
  {
    (forall t | s.origin <= t < hi && lo <= t :: At(s, t, rid) == v) &&
    (forall k | 0 <= k < |s.log| && lo < s.origin + k + 1 < hi :: rid !in s.log[k].writes)
  }

  /** A version newer than the recovered database was written by the commit it is stamped with. */
  predicate WrittenAt(s: State, rid: Rid, ts: Ts) {
    s.origin < ts <= s.origin + |s.log| ==> rid in s.log[ts - s.origin - 1].writes
  }

  ghost predicate VersionOk(s: State, rid: Rid, i: nat)
    requires rid in s.base && i < |Chain(s, rid)|
    requires s.origin <= s.lastCommit && |s.dbs| == s.lastCommit - s.origin + 1
  {
    var v := Chain(s, rid)[i];
    v.ts < Up(s, rid, i) <= s.lastCommit + 1 && WrittenAt(s, rid, v.ts) &&
    Covered(s, rid, v.ts, Up(s, rid, i), Value(v.deleted, v.row))
  }

  /** The chain lists the slot's committed versions in order, and each is the history's value
      for exactly the timestamps between its own and the next newer one. */
  ghost predicate VersionsOk(s: State, rid: Rid)
    requires rid in s.base
  {
    s.lastCommit == s.origin + |s.log| && |s.dbs| == |s.log| + 1 && WrittenAt(s, rid, s.base[rid].ts) &&
    var c := Chain(s, rid);
    (IsPublished(s, rid) ==> Covered(s, rid, s.base[rid].ts, s.lastCommit + 1, BaseValue(s, rid))) &&
    (forall i | 0 <= i < |c| :: VersionOk(s, rid, i)) &&
    Up(s, rid, |c|) <= s.lastCommit + 1 &&
    Covered(s, rid, 0, Up(s, rid, |c|), None)
  }

  /** `t` wrote `rid` and has neither stamped it nor rolled it back. */
  predicate Unsettled(s: State, t: TxnId, rid: Rid) {
    t in s.txns && s.txns[t].state in {RUNNING, TAINTED} && rid in s.txns[t].writes &&
    (t in s.aborting ==> rid in s.aborting[t]) &&
    (Committing(s, t) ==> rid in s.inCommit.value.left)
  }

  /** The commit in progress has stamped `rid` and is not yet published. */
  predicate Stamped(s: State, t: TxnId, rid: Rid) {
    Committing(s, t) && !s.inCommit.value.stage.Published? && t in s.txns &&
    rid in s.txns[t].writes && rid !in s.inCommit.value.left
  }

  /** The undo log that chain position `i` stands for. */
  function LogFor(s: State, rid: Rid, i: nat): UndoLog
    requires i < |Chain(s, rid)|
  {
    var c := Chain(s, rid);
    UndoLog(c[i].ts, c[i].deleted, c[i].row, if i + 1 < |c| then Some(c[i + 1].link) else None)
  }

  /** A chain position is held by its owner's undo buffer, or its owner was collected and every
      snapshot in use sees a newer version. */
  predicate NodeOk(s: State, rid: Rid, i: nat, wm: Ts)
    requires rid in s.base && i < |Chain(s, rid)|
  {
    var link := Chain(s, rid)[i].link;
    TXN_START <= link.txn < s.nextId &&
    if link.txn !in s.txns then
      AboveTs(s, rid, i) <= wm
    else
      var x := s.txns[link.txn];
      link.idx < |x.undo| && x.undo[link.idx] == LogFor(s, rid, i) &&
      rid in x.writes && Chain(s, rid)[i].ts <= x.readTs &&
      match x.state
      case COMMITTED => AboveTs(s, rid, i) == x.commitTs
      case ABORTED => false
      case _ => i == 0 && (s.base[rid].ts == link.txn || Stamped(s, link.txn, rid))
  }

  /** An uncommitted base belongs to a writer that has not settled it; a stamped one to the commit in
      progress; any other base is published. */
  predicate StampOk(s: State, rid: Rid)
    requires rid in s.base
  {
    var ts := s.base[rid].ts;
    var c := Chain(s, rid);
    (rid in s.head <==> c != []) &&
    (c != [] ==> s.head[rid] == c[0].link) &&
    (ts >= TXN_START ==> Unsettled(s, ts, rid) && (c == [] || c[0].link.txn == ts)) &&
    (s.lastCommit < ts < TXN_START ==> s.inCommit.Some? && Stamped(s, s.inCommit.value.tid, rid) &&
                                       ts == s.inCommit.value.ts &&
                                       (c == [] || c[0].link.txn == s.inCommit.value.tid))
  }

  ghost predicate RidOk(s: State, rid: Rid, wm: Ts)
    requires rid in s.base
  {
    StampOk(s, rid) && VersionsOk(s, rid) &&
    forall i | 0 <= i < |Chain(s, rid)| :: NodeOk(s, rid, i, wm)
  }

  // ---------------------------------------------------------------- transactions

  /** The scan returned what it selects from the database at `n` commits, under the own writes. */
  ghost predicate ScanOk(s: State, n: nat, scan: Scan) {
    n < |s.dbs| &&
    scan.seen == SelectRows(scan.oid, scan.pred, Overlay(s.dbs[n], scan.own))
  }

  predicate WriteAt(s: State, t: TxnId, rid: Rid)
    requires t in s.txns
  {
    (rid in s.txns[t].writes ==> rid in s.base) &&
    (Unsettled(s, t, rid) ==> rid in s.base && s.base[rid].ts == t)
  }

  ghost predicate TxnOk(s: State, t: TxnId)
    requires t in s.txns
  {
    var x := s.txns[t];
    s.origin <= x.readTs <= s.lastCommit &&
    (forall rid :: WriteAt(s, t, rid)) &&
    (x.state == COMMITTED ==>
      x.readTs < x.commitTs &&
      ((Committing(s, t) && !s.inCommit.value.stage.Published?) || CommittedAs(s, t, x))) &&
    ScansOk(s, x.readTs - s.origin, x.scans)
  }

  /** The history has `t`'s commit at its commit timestamp. */
  predicate CommittedAs(s: State, t: TxnId, x: Txn) {
    s.origin < x.commitTs <= s.origin + |s.log| &&
    var rec := s.log[x.commitTs - s.origin - 1];
    rec.tid == t && rec.writes.Keys == x.writes && rec.readTs == x.readTs
  }

  // ---------------------------------------------------------------- history

  /** Commit `k` took the database from one state to the next. */
  predicate SerialStep(s: State, k: nat)
    requires k < |s.log|
  {
    |s.dbs| == |s.log| + 1 && s.dbs[k + 1] == Overlay(s.dbs[k], s.log[k].writes)
  }

  /** Commit `k` read its snapshot; a serializable writer also read the database just before it; no
      concurrent commit wrote what it wrote; and while any snapshot may predate it, its transaction is
      still tracked. */
  ghost predicate RecordOk(s: State, k: nat, wm: Ts)
    requires k < |s.log|
  {
    SerialStep(s, k) && s.log[k].writes.Keys <= s.base.Keys &&
    RecordReads(s, k, s.log[k]) && NoOverlap(s, k, s.log[k]) && (s.origin + k + 1 > wm ==> RecordKept(s, k))
  }

  ghost predicate ScansOk(s: State, n: nat, scans: seq<Scan>) {
    forall j {:trigger ScanOk(s, n, scans[j])} | 0 <= j < |scans| :: ScanOk(s, n, scans[j])
  }

  ghost predicate RecordReads(s: State, k: nat, rec: Commit) {
    s.origin <= rec.readTs <= s.origin + k &&
    ScansOk(s, rec.readTs - s.origin, rec.scans) &&
    (rec.iso == SERIALIZABLE && rec.writes != map[] ==> ScansOk(s, k, rec.scans))
  }

  /** No commit between the snapshot of `rec` and commit `k` wrote a slot that `rec` wrote. */
  ghost predicate NoOverlap(s: State, k: nat, rec: Commit)
    requires k <= |s.log|
  {
    forall j | 0 <= j < k && rec.readTs <= s.origin + j :: s.log[j].writes.Keys !! rec.writes.Keys
  }

  predicate RecordKept(s: State, k: nat)
    requires k < |s.log|
  {
    var u := s.log[k].tid;
    u in s.txns && s.txns[u].state == COMMITTED && s.txns[u].commitTs == s.origin + k + 1
  }

  // ---------------------------------------------------------------- bookkeeping

  predicate CommitRunOk(s: State) {
    s.inCommit.Some? ==>
      var c := s.inCommit.value;
      c.tid in s.txns && c.tid < s.nextId && c.tid !in s.aborting &&
      c.left <= s.txns[c.tid].writes && c.ts < TXN_START &&
      (forall rid | rid in s.txns[c.tid].writes && rid !in c.left && !c.stage.Published? ::
         rid in s.base && s.base[rid].ts == c.ts) &&
      match c.stage
      case Stamping => s.txns[c.tid].state == RUNNING && c.ts == s.lastCommit + 1
      case Marked => c.left == {} && s.txns[c.tid].state == COMMITTED && c.ts == s.lastCommit + 1 &&
                     s.txns[c.tid].commitTs == c.ts
      case Published => c.left == {} && s.txns[c.tid].state == COMMITTED && c.ts == s.lastCommit
  }

  /** What the serializable commit in progress was validated for. */
  ghost predicate ValidatedOk(s: State) {
    s.inCommit.Some? && !s.inCommit.value.stage.Published? && s.inCommit.value.tid in s.txns ==>
      var x := s.txns[s.inCommit.value.tid];
      x.iso == SERIALIZABLE && x.writes != {} ==> ScansOk(s, |s.log|, x.scans)
  }

  /** Exactly the open, committing and retiring transactions are registered, at their snapshots. */
  predicate Registered(s: State, t: TxnId) {
    (t in s.txns && s.txns[t].state in {RUNNING, TAINTED}) || Committing(s, t) || t in s.retiring
  }

  predicate LiveAt(s: State, t: TxnId) {
    (t in s.live <==> Registered(s, t)) &&
    (t in s.live ==> t < s.nextId && s.origin <= s.live[t] <= s.lastCommit &&
                     (t in s.txns ==> s.live[t] == s.txns[t].readTs)) &&
    (t in s.retiring && t in s.txns ==> s.txns[t].state == ABORTED) &&
    (t in s.aborting ==> t in s.txns && s.txns[t].state in {RUNNING, TAINTED} &&
                         s.aborting[t] <= s.txns[t].writes)
  }

  ghost predicate LiveOk(s: State) {
    (forall t :: LiveAt(s, t)) &&
    s.origin <= s.wmCommit <= s.lastCommit &&
    (s.inCommit.None? || !s.inCommit.value.stage.Published? ==> s.wmCommit == s.lastCommit)
  }

  ghost predicate CountersOk(s: State) {
    s.lastCommit == s.origin + |s.log| && |s.dbs| == |s.log| + 1 && s.lastCommit < TXN_START <= s.nextId &&
    s.chain.Keys == s.base.Keys && s.head.Keys <= s.base.Keys &&
    (forall t | t in s.txns :: TXN_START <= t < s.nextId) &&
    forall n | 0 <= n < |s.dbs| :: s.dbs[n].Keys <= s.base.Keys
  }

  ghost predicate Inv(s: State) {
    var wm := Watermark(s);
    CountersOk(s) && LiveOk(s) && CommitRunOk(s) && ValidatedOk(s) &&
    (forall m | m in s.gcMarks :: m <= wm) &&
    (forall t {:trigger TxnOk(s, t)} | t in s.txns :: TxnOk(s, t)) &&
    (forall rid {:trigger RidOk(s, rid, wm)} | rid in s.base :: RidOk(s, rid, wm)) &&
    (forall k | 0 <= k < |s.log| :: RecordOk(s, k, wm))
  }

  // ---------------------------------------------------------------- the history is serial

  /** The database after executing the first `n` commits one after another on `db0`. */
  ghost function SerialDb(db0: Db, log: seq<Commit>, n: nat): Db
    requires n <= |log|
  {
    if n == 0 then db0 else Overlay(SerialDb(db0, log, n - 1), log[n - 1].writes)
  }

  lemma {:induction false} DbsAreSerial(s: State, n: nat)
    requires |s.dbs| == |s.log| + 1 && n <= |s.log|
    requires forall k | 0 <= k < |s.log| :: SerialStep(s, k)
    ensures s.dbs[n] == SerialDb(s.dbs[0], s.log, n)
  {
    if n > 0 {
      DbsAreSerial(s, n - 1);
      assert SerialStep(s, n - 1);
    }
  }

  /** A slot untouched by the commits in `(a, b]` has the same value at both ends. */
  lemma {:induction false} Untouched(s: State, a: nat, b: nat, rid: Rid)
    requires a <= b <= |s.log| && |s.dbs| == |s.log| + 1
    requires forall k | 0 <= k < |s.log| :: SerialStep(s, k)
    requires forall k | a <= k < b :: rid !in s.log[k].writes
    ensures Get(s.dbs[a], rid) == Get(s.dbs[b], rid)
    decreases b - a
  {
    if a < b {
      Untouched(s, a, b - 1, rid);
      assert SerialStep(s, b - 1);
    }
  }

  // ---------------------------------------------------------------- reading the store

  /** Walking the undo logs finds the history's value, for any snapshot the watermark protects. */
  lemma {:induction false} WalkReadsHistory(s: State, rid: Rid, i: nat, r: Ts, wm: Ts)
    requires rid in s.base && i <= |Chain(s, rid)| && RidOk(s, rid, wm)
    requires s.origin <= r < Up(s, rid, i) && wm <= r <= s.lastCommit
    ensures WalkFrom(s, rid, i, r) == At(s, r, rid)
    decreases |Chain(s, rid)| - i
  {
    var c := Chain(s, rid);
    if i < |c| {
      assert VersionOk(s, rid, i);
      assert c[i].link.txn in s.txns by {
        assert NodeOk(s, rid, i, wm);
        assert AboveTs(s, rid, i) >= Up(s, rid, i) > r;
      }
      if c[i].ts > r {
        assert Up(s, rid, i + 1) == c[i].ts;
        WalkReadsHistory(s, rid, i + 1, r, wm);
        assert WalkFrom(s, rid, i, r) == WalkFrom(s, rid, i + 1, r);
      } else {
        assert At(s, r, rid) == Value(c[i].deleted, c[i].row);
        assert WalkFrom(s, rid, i, r) == Value(c[i].deleted, c[i].row);
      }
    } else {
      assert Covered(s, rid, 0, Up(s, rid, |c|), None);
      assert At(s, r, rid) == None;
    }
  }

  lemma LiveAboveWatermark(s: State, t: TxnId)
    requires t in s.live
    ensures Watermark(s) <= s.live[t]
  {
    WatermarkOldest(s);
  }

  /** A transaction sees its own writes over the database of its snapshot. */
  lemma VisibleIsSnapshot(s: State, t: TxnId, rid: Rid)
    requires Inv(s) && t in s.txns && s.txns[t].state in {RUNNING, TAINTED}
    ensures s.origin <= s.txns[t].readTs < s.origin + |s.dbs|
    ensures Visible(s, t, rid) == Get(Overlay(DbAt(s, s.txns[t].readTs), OwnWrites(s, t)), rid)
  {
    var r := s.txns[t].readTs;
    var wm := Watermark(s);
    assert TxnOk(s, t);
    assert LiveAt(s, t);
    LiveAboveWatermark(s, t);
    if rid !in s.base {
      assert s.dbs[r - s.origin].Keys <= s.base.Keys;
    } else {
      assert RidOk(s, rid, wm);
      if s.base[rid].ts != t && s.base[rid].ts > r {
        WalkReadsHistory(s, rid, 0, r, wm);
      } else if s.base[rid].ts != t {
        assert Covered(s, rid, s.base[rid].ts, s.lastCommit + 1, BaseValue(s, rid));
        assert At(s, r, rid) == BaseValue(s, rid);
      }
    }
  }
}
