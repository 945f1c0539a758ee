/** What holds over whole runs: snapshots are stable, commits are atomic, the collector never takes
    what a snapshot or a validation needs, and serializable histories are serial. */
module MvccTheorems {
  import opened MvccModel
  import opened MvccInvariant
  import opened MvccFrames
  import opened MvccSteps
  import opened MvccCommit
  import opened MvccAbort

  lemma InitInv(s: State)
    requires Init(s)
    ensures Inv(s)
  {
    WatermarkOldest(s);
    forall rid | rid in s.base ensures RidOk(s, rid, Watermark(s)) {
      assert At(s, s.origin, rid) == BaseValue(s, rid);
    }
    assert s.dbs[0].Keys <= s.base.Keys by {
      forall rid | rid in s.dbs[0] ensures rid in s.base {
        assert Get(s.dbs[0], rid).Some?;
      }
    }
  }

  lemma StepKeeps(s: State, a: Action)
    requires Inv(s) && Enabled(s, a)
    ensures Keeps(s, Apply(s, a))
  {
    match a
    case Begin(iso) => BeginKeeps(s, iso);
    case Insert(t, rid, row) => InsertKeeps(s, t, rid, row);
    case Modify(t, rid, delete, row) => ModifyKeeps(s, t, rid, delete, row);
    case Read(t, oid, pred) => ReadKeeps(s, t, oid, pred);
    case StartCommit(t) => StartCommitKeeps(s, t);
    case StampOne(rid) => StampKeeps(s, rid);
    case MarkCommitted => MarkKeeps(s);
    case Publish => PublishKeeps(s);
    case RetireCommit => RetireCommitKeeps(s);
    case StartAbort(t) => StartAbortKeeps(s, t);
    case RollbackOne(t, rid) => RollbackKeeps(s, t, rid);
    case MarkAborted(t) => MarkAbortedKeeps(s, t);
    case RetireAbort(t) => RetireAbortKeeps(s, t);
    case ReadMark => ReadMarkKeeps(s);
    case Collect(mark) => CollectKeeps(s, mark);
  }

  /** The past is fixed: history only grows, and a tracked transaction keeps its snapshot and logs. */
  ghost predicate Past(s: State, s': State) {
    HistoryExtends(s, s') && s.nextId <= s'.nextId &&
    forall t | t in s'.txns && t < s.nextId ::
      t in s.txns && s'.txns[t].readTs == s.txns[t].readTs && s.txns[t].undo <= s'.txns[t].undo
  }

  lemma StepHistory(s: State, a: Action)
    requires Inv(s) && Enabled(s, a)
    ensures HistoryExtends(s, Apply(s, a)) && s.nextId <= Apply(s, a).nextId
  {
    hide Committing, Watermark, LiveOk, TxnOk;
  }

  /** No action changes a tracked transaction's snapshot or any undo log it has filed. */
  lemma StepSnapshots(s: State, a: Action, t: TxnId)
    requires Enabled(s, a) && t in Apply(s, a).txns && t < s.nextId
    ensures t in s.txns && Apply(s, a).txns[t].readTs == s.txns[t].readTs
    ensures s.txns[t].undo <= Apply(s, a).txns[t].undo
  {
    match a
    case Modify(u, rid, delete, row) =>
      ModifySnapshots(s, u, rid, delete, row, t);
    case RollbackOne(u, rid) =>
      assert DoRollbackOne(s, u, rid).txns == s.txns;
    case _ =>
  }

  lemma ModifySnapshots(s: State, u: TxnId, rid: Rid, delete: bool, row: Row, t: TxnId)
    requires u in s.txns && rid in s.base && t in DoModify(s, u, rid, delete, row).txns
    ensures t in s.txns && s.txns[t].readTs == DoModify(s, u, rid, delete, row).txns[t].readTs
    ensures s.txns[t].undo <= DoModify(s, u, rid, delete, row).txns[t].undo
  {
    hide Chain;
    var was, x := s.base[rid], s.txns[u];
    if was.ts == u {
    } else if was.ts <= x.readTs {
    } else {
    }
  }

  lemma StepPast(s: State, a: Action)
    requires Inv(s) && Enabled(s, a)
    ensures Past(s, Apply(s, a))
  {
    StepHistory(s, a);
    var s' := Apply(s, a);
    forall t | t in s'.txns && t < s.nextId
      ensures t in s.txns && s'.txns[t].readTs == s.txns[t].readTs && s.txns[t].undo <= s'.txns[t].undo
    {
      StepSnapshots(s, a, t);
    }
  }

  /** Every run from a good state stays good, and the watermark never falls. */
  lemma {:induction false} RunKeeps(s: State, run: seq<Action>)
    requires Inv(s) && IsRun(s, run)
    ensures Keeps(s, Final(s, run)) && Past(s, Final(s, run))
    decreases |run|
  {
    if run != [] {
      var s1 := Apply(s, run[0]);
      StepKeeps(s, run[0]);
      StepPast(s, run[0]);
      RunKeeps(s1, run[1..]);
      PastTransitive(s, s1, Final(s1, run[1..]));
    }
  }

  lemma PastTransitive(s: State, s1: State, s2: State)
    requires Past(s, s1) && Past(s1, s2)
    ensures Past(s, s2)
  {
  }

  predicate Open(s: State, t: TxnId) {
    t in s.txns && s.txns[t].state in {RUNNING, TAINTED}
  }

  // ---------------------------------------------------------------- snapshots

  lemma VisibleStable(s1: State, s2: State, t: TxnId, rid: Rid)
    requires Inv(s1) && Inv(s2) && Past(s1, s2) && Open(s1, t) && Open(s2, t)
    ensures var r := s1.txns[t].readTs;
            s1.origin <= r < s1.origin + |s1.dbs| &&
            Visible(s1, t, rid) == Get(Overlay(DbAt(s1, r), OwnWrites(s1, t)), rid) &&
            Visible(s2, t, rid) == Get(Overlay(DbAt(s1, r), OwnWrites(s2, t)), rid)
  {
    VisibleIsSnapshot(s1, t, rid);
    VisibleIsSnapshot(s2, t, rid);
    assert s2.txns[t].readTs == s1.txns[t].readTs;
    assert DbAt(s2, s1.txns[t].readTs) == DbAt(s1, s1.txns[t].readTs);
  }

  /** Snapshot stability: however transactions and the collector interleave, an open transaction
      reads at every later point the database its snapshot had, under its own writes. */
  lemma SnapshotStable(s0: State, run1: seq<Action>, run2: seq<Action>, t: TxnId, rid: Rid)
    requires Init(s0) && IsRun(s0, run1) && IsRun(Final(s0, run1), run2)
    requires Open(Final(s0, run1), t) && Open(Final(Final(s0, run1), run2), t)
    ensures var s1 := Final(s0, run1);
            var s2 := Final(s1, run2);
            var r := s1.txns[t].readTs;
            s1.origin <= r < s1.origin + |s1.dbs| &&
            Visible(s2, t, rid) == Get(Overlay(DbAt(s1, r), OwnWrites(s2, t)), rid) &&
            (rid !in OwnWrites(s1, t) && rid !in OwnWrites(s2, t) ==> Visible(s2, t, rid) == Visible(s1, t, rid))
  {
    InitInv(s0);
    RunKeeps(s0, run1);
    RunKeeps(Final(s0, run1), run2);
    VisibleStable(Final(s0, run1), Final(Final(s0, run1), run2), t, rid);
  }

  /** Commits are seen all or nothing: what an open transaction reads from any slot is the result of
      executing the same whole number of commits one after another, then its own writes. */
  lemma CommitsAtomic(s0: State, run: seq<Action>, t: TxnId, rid: Rid)
    requires Init(s0) && IsRun(s0, run) && Open(Final(s0, run), t)
    ensures var s := Final(s0, run);
            var n := s.txns[t].readTs - s.origin;
            0 <= n <= |s.log| && s0.dbs != [] &&
            Visible(s, t, rid) == Get(Overlay(SerialDb(s0.dbs[0], s.log, n), OwnWrites(s, t)), rid)
  {
    hide SerialDb, Overlay, Final, Visible, Keeps, ValidatedOk, Apply, Init;
    InitInv(s0);
    RunKeeps(s0, run);
    var s := Final(s0, run);
    VisibleIsSnapshot(s, t, rid);
    HistorySerial(s, s.txns[t].readTs - s.origin);
    assert s.dbs[0] == s0.dbs[0];
  }

  lemma HistorySerial(s: State, n: nat)
    requires Inv(s) && n <= |s.log|
    ensures s.dbs[n] == SerialDb(s.dbs[0], s.log, n)
  {
    forall k | 0 <= k < |s.log| ensures SerialStep(s, k) {
      assert RecordOk(s, k, Watermark(s));
    }
    DbsAreSerial(s, n);
  }

  /** GC safety: a walk never reaches a collected undo log before it has found its version. */
  lemma WalkMeetsNoCollectedLog(s0: State, run: seq<Action>, t: TxnId, rid: Rid, i: nat)
    requires Init(s0) && IsRun(s0, run) && Open(Final(s0, run), t)
    requires var s := Final(s0, run);
             rid in s.base && i < |Chain(s, rid)| && AboveTs(s, rid, i) > s.txns[t].readTs
    ensures var s := Final(s0, run);
            var link := Chain(s, rid)[i].link;
            link.txn in s.txns && link.idx < |s.txns[link.txn].undo| &&
            s.txns[link.txn].undo[link.idx] == LogFor(s, rid, i)
  {
    InitInv(s0);
    RunKeeps(s0, run);
    var s := Final(s0, run);
    assert LiveAt(s, t) && RidOk(s, rid, Watermark(s));
    LiveAboveWatermark(s, t);
    assert NodeOk(s, rid, i, Watermark(s));
  }

  /** The watermark's registrations are exactly the unfinished transactions' snapshots, and neither
      of its two error paths is reachable. */
  lemma WatermarkNeverThrows(s0: State, run: seq<Action>, t: TxnId)
    requires Init(s0) && IsRun(s0, run)
    ensures var s := Final(s0, run);
            (t in s.live <==> Registered(s, t)) &&
            (t in s.live && t in s.txns ==> s.live[t] == s.txns[t].readTs) &&
            s.wmCommit <= s.lastCommit &&
            (Enabled(s, RetireAbort(t)) ==> t in s.live) &&
            (Enabled(s, RetireCommit) ==> s.inCommit.value.tid in s.live)
  {
    InitInv(s0);
    RunKeeps(s0, run);
    var s := Final(s0, run);
    assert LiveAt(s, t);
    if s.inCommit.Some? {
      assert LiveAt(s, s.inCommit.value.tid);
    }
  }

  /** GC never drops a transaction that some open transaction's validation must still examine. */
  lemma ValidationSeesEveryLaterWriter(s0: State, run: seq<Action>, t: TxnId, rid: Rid, k: nat)
    requires Init(s0) && IsRun(s0, run) && CanRun(Final(s0, run), t)
    requires var s := Final(s0, run);
             k < |s.log| && rid in s.log[k].writes && s.txns[t].readTs <= s.origin + k
    ensures IsSuspect(Final(s0, run), t, Final(s0, run).log[k].tid, rid)
  {
    InitInv(s0);
    RunKeeps(s0, run);
    LaterWriterIsSuspect(Final(s0, run), t, rid, k);
  }

  // ---------------------------------------------------------------- serializability

  /** Run alone on `db`, the transaction of `rec` gets the scan results it got in the history. */
  ghost predicate ReplaysOn(db: Db, rec: Commit) {
    forall j | 0 <= j < |rec.scans| ::
      rec.scans[j].seen == SelectRows(rec.scans[j].oid, rec.scans[j].pred, Overlay(db, rec.scans[j].own))
  }

  predicate WritesSerializably(rec: Commit) {
    rec.writes != map[] ==> rec.iso == SERIALIZABLE
  }

  /** Where commit `k` stands in the serial order: a writer at its commit, a reader at its snapshot. */
  function SerialPosition(s: State, k: nat): int
    requires k < |s.log|
  {
    if s.log[k].writes != map[] then k else s.log[k].readTs - s.origin
  }

  /** When every writer is serializable the history is serial: executing the commits in timestamp
      order, with each read-only transaction at its snapshot, gives every scan the result it had,
      and the database of every later snapshot is the one that serial execution produces. */
  lemma SerializableHistory(s0: State, run: seq<Action>)
    requires Init(s0) && IsRun(s0, run)
    requires forall k | 0 <= k < |Final(s0, run).log| :: WritesSerializably(Final(s0, run).log[k])
    ensures var s := Final(s0, run);
            s0.dbs != [] && s.lastCommit == s.origin + |s.log| &&
            (forall k | 0 <= k < |s.log| :: 0 <= SerialPosition(s, k) <= k &&
               ReplaysOn(SerialDb(s0.dbs[0], s.log, SerialPosition(s, k)), s.log[k])) &&
            (forall n | 0 <= n <= |s.log| :: n < |s.dbs| && s.dbs[n] == SerialDb(s0.dbs[0], s.log, n))
  {
    InitInv(s0);
    RunKeeps(s0, run);
    var s := Final(s0, run);
    assert s.dbs[0] == s0.dbs[0];
    forall n | 0 <= n <= |s.log| ensures n < |s.dbs| && s.dbs[n] == SerialDb(s0.dbs[0], s.log, n) {
      HistorySerial(s, n);
    }
    forall k | 0 <= k < |s.log|
      ensures 0 <= SerialPosition(s, k) <= k
      ensures ReplaysOn(SerialDb(s0.dbs[0], s.log, SerialPosition(s, k)), s.log[k])
    {
      RecordReplays(s, k);
      HistorySerial(s, SerialPosition(s, k));
    }
  }

  lemma RecordReplays(s: State, k: nat)
    requires Inv(s) && k < |s.log|
    requires WritesSerializably(s.log[k])
    ensures 0 <= SerialPosition(s, k) <= k < |s.dbs| && ReplaysOn(s.dbs[SerialPosition(s, k)], s.log[k])
  {
    assert RecordOk(s, k, Watermark(s));
    var rec := s.log[k];
    forall j | 0 <= j < |rec.scans|
      ensures rec.scans[j].seen ==
        SelectRows(rec.scans[j].oid, rec.scans[j].pred, Overlay(s.dbs[SerialPosition(s, k)], rec.scans[j].own))
    {
      assert ScanOk(s, rec.readTs - s.origin, rec.scans[j]);
      if rec.writes != map[] {
        assert ScanOk(s, k, rec.scans[j]);
      }
    }
  }

  // ---------------------------------------------------------------- first updater wins

  /** Another transaction holds `rid` uncommitted, or a commit after `t`'s snapshot wrote it. */
  ghost predicate Overtaken(s: State, t: TxnId, rid: Rid)
    requires t in s.txns
  {
    (exists u :: u != t && Unsettled(s, u, rid)) || (exists u :: Stamped(s, u, rid)) ||
    (exists k :: 0 <= k < |s.log| && s.txns[t].readTs <= s.origin + k && rid in s.log[k].writes)
  }

  /** An update or delete of a slot that was overtaken taints the transaction and changes nothing
      else; any other goes through and puts the transaction's stamp on the slot. */
  lemma FirstUpdaterWins(s0: State, run: seq<Action>, t: TxnId, rid: Rid, delete: bool, row: Row)
    requires Init(s0) && IsRun(s0, run)
    requires CanRun(Final(s0, run), t) && rid in Final(s0, run).base
    ensures var s := Final(s0, run);
            var s' := DoModify(s, t, rid, delete, row);
            if Overtaken(s, t, rid) then s' == s.(txns := s.txns[t := s.txns[t].(state := TAINTED)])
            else s'.txns[t].state == RUNNING && s'.base[rid].ts == t
  {
    InitInv(s0);
    RunKeeps(s0, run);
    OvertakenIff(Final(s0, run), t, rid);
  }

  lemma OvertakenIff(s: State, t: TxnId, rid: Rid)
    requires Inv(s) && CanRun(s, t) && rid in s.base
    ensures Overtaken(s, t, rid) <==> s.base[rid].ts != t && s.base[rid].ts > s.txns[t].readTs
  {
    var wm := Watermark(s);
    assert RidOk(s, rid, wm) && TxnOk(s, t);
    if u :| u != t && Unsettled(s, u, rid) {
      assert TxnOk(s, u);
      assert WriteAt(s, u, rid);
    } else if u :| Stamped(s, u, rid) {
      assert s.base[rid].ts == s.inCommit.value.ts;
    } else if k :| 0 <= k < |s.log| && s.txns[t].readTs <= s.origin + k && rid in s.log[k].writes {
      LateWriteAbove(s, t, rid, k, wm);
    } else {
      NoLateWrite(s, t, rid, wm);
    }
  }

  lemma LateWriteAbove(s: State, t: TxnId, rid: Rid, k: nat, wm: Ts)
    requires rid in s.base && RidOk(s, rid, wm) && k < |s.log| && CountersOk(s) && t in s.txns
    requires s.txns[t].readTs <= s.origin + k && rid in s.log[k].writes
    ensures s.base[rid].ts != t && s.base[rid].ts > s.txns[t].readTs
  {
    if s.base[rid].ts == t {
      StampedAlone(s, t, rid, k, wm);
    }
    var ts, rec := s.base[rid].ts, s.log[k];
    assert ts <= s.origin + k ==> rid !in rec.writes;
  }

  /** Conversely, a base newer than the snapshot is a later commit's or somebody's open write. */
  lemma NoLateWrite(s: State, t: TxnId, rid: Rid, wm: Ts)
    requires rid in s.base && RidOk(s, rid, wm) && CountersOk(s) && t in s.txns
    requires !Overtaken(s, t, rid) && s.origin <= s.txns[t].readTs
    ensures s.base[rid].ts == t || s.base[rid].ts <= s.txns[t].readTs
  {
    var r, ts := s.txns[t].readTs, s.base[rid].ts;
    assert StampOk(s, rid) && WrittenAt(s, rid, ts);
    assert r < ts <= s.lastCommit ==> r <= s.origin + (ts - s.origin - 1);
  }

  /** No lost update: of two commits whose spans overlap, at most one wrote any given slot. */
  lemma NoLostUpdate(s0: State, run: seq<Action>, j: nat, k: nat, rid: Rid)
    requires Init(s0) && IsRun(s0, run)
    requires var s := Final(s0, run); j < k < |s.log| && s.log[k].readTs <= s.origin + j
    ensures var s := Final(s0, run); !(rid in s.log[j].writes && rid in s.log[k].writes)
  {
    InitInv(s0);
    RunKeeps(s0, run);
    var s := Final(s0, run);
    assert RecordOk(s, k, Watermark(s));
  }
}
