/** The transaction manager as an object: one method per locked section, each proved to take the
    state from `s` to the state the step protocol prescribes, so that everything proved of runs holds
    of any interleaving of these methods. */
module MvccManager {
  import opened MvccModel
  import opened MvccInvariant
  import opened MvccSteps
  import opened MvccCommit
  import opened MvccAbort
  import opened MvccTheorems
  import opened MvccWrites
  import Watermarks

  /** The transactions registered at timestamp `ts`. */
  function ReadersAt(live: map<TxnId, Ts>, ts: Ts): set<TxnId> {
    set t | t in live && live[t] == ts
  }

  /** The watermark's multiset is that of the registered transactions' snapshots. */
  ghost predicate SameReaders(live: map<TxnId, Ts>, readers: multiset<Ts>) {
    forall ts {:trigger ReadersAt(live, ts)} :: readers[ts] == |ReadersAt(live, ts)|
  }

  lemma AddedAt(live: map<TxnId, Ts>, t: TxnId, ts: Ts, x: Ts)
    requires t !in live
    ensures |ReadersAt(live[t := ts], x)| == |ReadersAt(live, x)| + if x == ts then 1 else 0
  {
    assert ReadersAt(live[t := ts], x) == if x == ts then ReadersAt(live, x) + {t} else ReadersAt(live, x);
  }

  lemma ReaderAdded(live: map<TxnId, Ts>, readers: multiset<Ts>, t: TxnId, ts: Ts)
    requires SameReaders(live, readers) && t !in live
    ensures SameReaders(live[t := ts], readers + multiset{ts})
  {
    forall x ensures (readers + multiset{ts})[x] == |ReadersAt(live[t := ts], x)| {
      AddedAt(live, t, ts, x);
    }
  }

  lemma RemovedAt(live: map<TxnId, Ts>, t: TxnId, x: Ts)
    requires t in live
    ensures |ReadersAt(live - {t}, x)| == |ReadersAt(live, x)| - if x == live[t] then 1 else 0
  {
    assert ReadersAt(live - {t}, x) == if x == live[t] then ReadersAt(live, x) - {t} else ReadersAt(live, x);
    assert x == live[t] ==> t in ReadersAt(live, x);
  }

  lemma ReaderRemoved(live: map<TxnId, Ts>, readers: multiset<Ts>, t: TxnId)
    requires SameReaders(live, readers) && t in live
    ensures live[t] in readers && SameReaders(live - {t}, readers - multiset{live[t]})
  {
    assert t in ReadersAt(live, live[t]);
    forall x ensures (readers - multiset{live[t]})[x] == |ReadersAt(live - {t}, x)| {
      RemovedAt(live, t, x);
    }
  }

  /** The least registered timestamp is the oldest snapshot. */
  lemma LeastReader(s: State, readers: multiset<Ts>, w: Ts)
    requires SameReaders(s.live, readers)
    requires readers == multiset{} ==> w == s.wmCommit
    requires readers != multiset{} ==> w in readers && forall r | r in readers :: w <= r
    ensures w == Watermark(s)
  {
    WatermarkOldest(s);
    if s.live == map[] {
      forall ts ensures readers[ts] == 0 {
        assert ReadersAt(s.live, ts) == {};
      }
      assert readers == multiset{};
    } else {
      var t :| t in s.live && s.live[t] == Watermark(s);
      assert t in ReadersAt(s.live, s.live[t]);
      assert Watermark(s) in readers;
      assert ReadersAt(s.live, w) != {};
      var u :| u in ReadersAt(s.live, w);
    }
  }

  class TransactionManager {
    var txns: map<TxnId, Txn>
    var nextId: TxnId
    var lastCommit: Ts
    var base: map<Rid, Tuple>
    var head: map<Rid, UndoLink>
    const running: Watermarks.Watermark

    // who is where in a locked section, and the reference history
    ghost var live: map<TxnId, Ts>
    ghost var inCommit: Option<CommitRun>
    ghost var aborting: map<TxnId, set<Rid>>
    ghost var retiring: set<TxnId>
    ghost var gcMarks: set<Ts>
    ghost var origin: Ts
    ghost var dbs: seq<Db>
    ghost var log: seq<Commit>
    ghost var chain: map<Rid, seq<Ver>>

    ghost function St(): State
      reads this, running
    {
      State(txns, nextId, lastCommit, base, head, live, running.commitTs, inCommit, aborting, retiring, gcMarks,
            origin, dbs, log, chain)
    }

    /** The watermark object counts exactly the registered snapshots. */
    ghost predicate Linked()
      reads this, running
    {
      running.Valid() && SameReaders(live, running.live)
    }

    ghost predicate Valid()
      reads this, running
    {
      Linked() && Inv(St())
    }

    /** A recovered database: the counters start at the high-water mark of the persisted rows. */
    constructor (recovered: map<Rid, Tuple>, ts: Ts)
      requires ts < TXN_START && forall rid | rid in recovered :: recovered[rid].ts <= ts
      ensures Valid() && fresh(running) && Init(St()) && base == recovered && lastCommit == ts
    {
      txns, nextId, lastCommit, base, head := map[], TXN_START, ts, recovered, map[];
      running := new Watermarks.Watermark(ts);
      live, inCommit, aborting, retiring, gcMarks := map[], None, map[], {}, {};
      origin, log := ts, [];
      dbs := [map rid | rid in recovered && !recovered[rid].deleted :: recovered[rid].row];
      chain := map rid | rid in recovered :: [];
      new;
      assert Init(St());
      InitInv(St());
      forall x ensures running.live[x] == |ReadersAt(live, x)| {
        assert ReadersAt(live, x) == {};
      }
    }

    /** Starts a transaction at the newest published timestamp; the watermark never refuses it. */
    method BeginShared(iso: Isolation) returns (t: TxnId)
      requires Linked() && nextId !in live && running.commitTs <= lastCommit
      modifies this, running
      ensures Linked() && t == old(nextId) && St() == DoBegin(old(St()), iso)
    {
      hide ReadersAt, SameReaders, Valid;
      t := nextId;
      var readTs := lastCommit;
      ReaderAdded(live, running.live, t, readTs);
      txns, nextId := txns[t := Txn(iso, RUNNING, readTs, 0, [], {}, [])], nextId + 1;
      live := live[t := readTs];
      var ok := running.AddTxn(readTs);
      assert ok;
    }

    // ---------------------------------------------------------------- reading

    /** The version `t` sees: the base if it is `t`'s own or old enough, else the first old enough
        version down the undo links. */
    method ReconstructVisible(t: TxnId, rid: Rid) returns (v: Option<Row>)
      requires Valid() && t in txns && rid in base
      ensures v == Visible(St(), t, rid)
    {
      var r := txns[t].readTs;
      if base[rid].ts == t || base[rid].ts <= r {
        return Value(base[rid].deleted, base[rid].row);
      }
      ghost var c := Chain(St(), rid);
      assert RidOk(St(), rid, Watermark(St()));
      var link := if rid in head then Some(head[rid]) else None;
      ghost var i := 0;
      while link.Some?
        invariant 0 <= i <= |c| && link == if i < |c| then Some(c[i].link) else None
        invariant WalkFrom(St(), rid, 0, r) == WalkFrom(St(), rid, i, r)
        decreases |c| - i
      {
        if link.value.txn !in txns {
          return None;
        }
        assert NodeOk(St(), rid, i, Watermark(St()));
        var undo := txns[link.value.txn].undo[link.value.idx];
        if undo.ts <= r {
          return Value(undo.deleted, undo.row);
        }
        link := undo.prev;
        i := i + 1;
      }
      v := None;
    }

    /** Does a version newer than `t`'s snapshot, or the one it read, match one of its scans? */
    method RidConflictsWithReads(t: TxnId, rid: Rid) returns (conflict: bool)
      requires Valid() && t in txns && rid in base
      ensures conflict == RidConflicts(St(), txns[t], rid)
    {
      var x := txns[t];
      if base[rid].ts < TXN_START {
        if IsScanTuple(x, rid.oid, Value(base[rid].deleted, base[rid].row)) {
          return true;
        }
        if base[rid].ts <= x.readTs {
          return false;
        }
      }
      ghost var c := Chain(St(), rid);
      assert RidOk(St(), rid, Watermark(St()));
      var link := if rid in head then Some(head[rid]) else None;
      ghost var i := 0;
      while link.Some?
        invariant 0 <= i <= |c| && link == if i < |c| then Some(c[i].link) else None
        invariant WalkConflicts(St(), x, rid, 0) == WalkConflicts(St(), x, rid, i)
        decreases |c| - i
      {
        if link.value.txn !in txns {
          return false;
        }
        assert NodeOk(St(), rid, i, Watermark(St()));
        var undo := txns[link.value.txn].undo[link.value.idx];
        if IsScanTuple(x, rid.oid, Value(undo.deleted, undo.row)) {
          return true;
        }
        if undo.ts <= x.readTs {
          return false;
        }
        link := undo.prev;
        i := i + 1;
      }
      conflict := false;
    }

    /** The slots written by tracked transactions that committed after `t`'s snapshot. */
    method Suspects(t: TxnId) returns (rids: set<Rid>)
      requires Valid() && t in txns
      ensures forall rid :: rid in rids <==> exists u :: IsSuspect(St(), t, u, rid)
    {
      rids := {};
      var todo := txns.Keys;
      while todo != {}
        invariant todo <= txns.Keys
        invariant forall rid :: rid in rids <==> exists u :: u !in todo && IsSuspect(St(), t, u, rid)
        decreases |todo|
      {
        var u :| u in todo;
        ghost var before := todo;
        if u != t && txns[u].state == COMMITTED && txns[u].commitTs > txns[t].readTs {
          rids := rids + txns[u].writes;
        }
        todo := todo - {u};
        forall rid ensures rid in rids <==> exists w :: w !in todo && IsSuspect(St(), t, w, rid) {
          if IsSuspect(St(), t, u, rid) {
            assert u !in todo;
          }
        }
      }
    }

    method VerifyTxn(t: TxnId) returns (ok: bool)
      requires Valid() && t in txns
      ensures ok == Verify(St(), t)
    {
      if txns[t].iso != SERIALIZABLE || txns[t].writes == {} {
        return true;
      }
      var todo := Suspects(t);
      ghost var all := todo;
      while todo != {}
        invariant todo <= all
        invariant forall rid | rid in all && rid !in todo && rid in base :: !RidConflicts(St(), txns[t], rid)
        decreases |todo|
      {
        var rid :| rid in todo;
        if rid in base {
          var conflict := RidConflictsWithReads(t, rid);
          if conflict {
            ghost var u :| IsSuspect(St(), t, u, rid);
            return false;
          }
        }
        todo := todo - {rid};
      }
      ok := true;
    }

    // ---------------------------------------------------------------- writing

    method MvccInsert(t: TxnId, rid: Rid, row: Row)
      requires CanRun(St(), t) && rid !in base
      modifies this`base, this`txns, this`chain
      ensures St() == DoInsert(old(St()), t, rid, row)
      ensures Visible(St(), t, rid) == Some(row)
      ensures forall other | other != rid :: Visible(St(), t, other) == old(Visible(St(), t, other))
    {
      ghost var s := St();
      forall other | other != rid ensures Visible(DoInsert(s, t, rid, row), t, other) == Visible(s, t, other) {
        InsertShows(s, t, rid, row, other);
      }
      base := base[rid := Tuple(t, false, row)];
      txns := txns[t := txns[t].(writes := txns[t].writes + {rid})];
      chain := chain[rid := []];
    }

    /** The shared write path of update and delete; a conflict taints the transaction. A delete that goes
        through leaves the transaction no row in the slot, an update the new one. */
    method ApplyMvccModify(t: TxnId, rid: Rid, delete: bool, row: Row) returns (conflict: bool)
      requires CanRun(St(), t) && rid in base
      modifies this`base, this`head, this`txns, this`chain
      ensures St() == DoModify(old(St()), t, rid, delete, row)
      ensures t in txns && (conflict <==> txns[t].state == TAINTED)
      ensures !conflict ==> Visible(St(), t, rid) == if delete then None else Some(row)
      ensures forall other | other != rid :: Visible(St(), t, other) == old(Visible(St(), t, other))
    {
      ModifyShowsAll(St(), t, rid, delete, row);
      hide DoModify, Visible, CanRun;
      conflict := ModifySlot(t, rid, delete, row);
    }

    method ModifySlot(t: TxnId, rid: Rid, delete: bool, row: Row) returns (conflict: bool)
      requires CanRun(St(), t) && rid in base
      modifies this`base, this`head, this`txns, this`chain
      ensures St() == DoModify(old(St()), t, rid, delete, row)
      ensures t in txns && txns[t].state == if conflict then TAINTED else RUNNING
    {
      var was := base[rid];
      var x := txns[t];
      var tuple := Tuple(t, delete, if delete then was.row else row);
      if was.ts == t {
        base := base[rid := tuple];
        txns := txns[t := x.(writes := x.writes + {rid})];
        conflict := false;
      } else if was.ts <= x.readTs {
        var kept := if was.deleted then [] else was.row;
        var prev := if rid in head then Some(head[rid]) else None;
        var link := UndoLink(t, |x.undo|);
        chain := chain[rid := [Ver(link, was.ts, was.deleted, kept)] + Chain(St(), rid)];
        base := base[rid := tuple];
        head := head[rid := link];
        txns := txns[t := x.(undo := x.undo + [UndoLog(was.ts, was.deleted, kept, prev)],
                             writes := x.writes + {rid})];
        conflict := false;
      } else {
        txns := txns[t := x.(state := TAINTED)];
        conflict := true;
      }
    }

    // ---------------------------------------------------------------- commit

    method MvccStampCommit(rid: Rid)
      requires inCommit.Some? && inCommit.value.ts == lastCommit + 1 && rid in base
      modifies this`base, this`inCommit
      ensures St() == DoStampOne(old(St()), rid)
    {
      base := base[rid := base[rid].(ts := lastCommit + 1)];
      inCommit := Some(inCommit.value.(left := inCommit.value.left - {rid}));
    }

    method MarkCommitted(t: TxnId)
      requires Committing(St(), t) && t in txns && inCommit.value.ts == lastCommit + 1
      modifies this`txns, this`inCommit
      ensures St() == DoMarkCommitted(old(St()))
    {
      txns := txns[t := txns[t].(state := COMMITTED, commitTs := lastCommit + 1)];
      inCommit := Some(inCommit.value.(stage := Marked));
    }

    method Publish(t: TxnId)
      requires Committing(St(), t) && t in txns && inCommit.value.ts == lastCommit + 1
      modifies this`lastCommit, this`log, this`dbs, this`inCommit
      ensures St() == DoPublish(old(St()))
    {
      ghost var s' := DoPublish(St());
      lastCommit := lastCommit + 1;
      log, dbs := s'.log, s'.dbs;
      inCommit := Some(inCommit.value.(stage := Published));
    }

    method RetireCommit(t: TxnId)
      requires Linked() && Committing(St(), t) && t in txns && t in live && live[t] == txns[t].readTs
      requires inCommit.value.ts == lastCommit
      modifies this`live, this`inCommit, running
      ensures Linked() && St() == DoRetireCommit(old(St()))
    {
      ReaderRemoved(live, running.live, t);
      running.UpdateCommitTs(lastCommit);
      var ok := running.RemoveTxn(txns[t].readTs);
      assert ok;
      live, inCommit := live - {t}, None;
    }

    /** Gives the commit timestamp to all slots in the transaction's write set, slot by slot. */
    method StampAll(t: TxnId)
      requires Inv(St()) && Committing(St(), t) && inCommit.value.stage.Stamping?
      requires inCommit.value.left == txns[t].writes
      modifies this`base, this`inCommit
      ensures Inv(St()) && StampedFrom(old(St()), St(), {})
    {
      ghost var s := St();
      var todo := txns[t].writes;
      while todo != {}
        invariant Inv(St()) && StampedFrom(s, St(), todo)
        decreases |todo|
      {
        var rid :| rid in todo;
        StampStep(s, St(), todo, rid);
        MvccStampCommit(rid);
        todo := todo - {rid};
      }
    }

    /** Commits without interruption. An accepted transaction becomes the next record of the history,
        with the rows it had written, and leaves the watermark; a rejected one is left for Abort. */
    method Commit(t: TxnId) returns (ok: bool)
      requires Valid() && CanRun(St(), t) && inCommit.None? && lastCommit + 1 < TXN_START
      modifies this, running
      ensures Linked() && ok == Verify(old(St()), t)
      ensures if ok then CommitOutcome(old(St()), t, St()) else St() == old(St())
    {
      hide Inv, CountersOk, Keeps, CommitRunOk, RidConflicts, TxnOk, LiveOk, StampedFrom;
      ok := VerifyTxn(t);
      if ok {
        ghost var s := St();
        StartCommitKeeps(s, t);
        inCommit := Some(CommitRun(t, lastCommit + 1, txns[t].writes, Stamping));
        StampAll(t);
        CommitConcludes(s, St(), t);
        MarkCommitted(t);
        Publish(t);
        RetireCommit(t);
      }
    }

    // ---------------------------------------------------------------- abort

    /** Restores the committed pre-image, or tombstones a fresh insert. */
    method MvccRollback(t: TxnId, rid: Rid)
      requires t in txns && t in aborting && rid in base
      modifies this`base, this`head, this`chain, this`aborting
      ensures St() == DoRollbackOne(old(St()), t, rid)
    {
      ghost var s' := DoRollbackOne(St(), t, rid);
      if rid in head && head[rid].txn == t && head[rid].idx < |txns[t].undo| {
        var undo := txns[t].undo[head[rid].idx];
        base := base[rid := Tuple(undo.ts, undo.deleted, if undo.deleted then base[rid].row else undo.row)];
        head := if undo.prev.Some? then head[rid := undo.prev.value] else head - {rid};
      } else {
        base := base[rid := base[rid].(ts := 0, deleted := true)];
      }
      chain, aborting := s'.chain, s'.aborting;
    }

    method RollbackAll(t: TxnId)
      requires Inv(St()) && t in txns && t in aborting && aborting[t] == txns[t].writes
      modifies this`base, this`head, this`chain, this`aborting
      ensures Inv(St()) && RolledFrom(old(St()), St(), t, {})
    {
      ghost var s := St();
      var todo := txns[t].writes;
      while todo != {}
        invariant Inv(St()) && RolledFrom(s, St(), t, todo)
        decreases |todo|
      {
        var rid :| rid in todo;
        RolledStep(s, St(), t, todo, rid);
        MvccRollback(t, rid);
        todo := todo - {rid};
      }
    }

    method MarkAborted(t: TxnId)
      requires t in txns
      modifies this`txns, this`aborting, this`retiring
      ensures St() == DoMarkAborted(old(St()), t)
    {
      txns := txns[t := txns[t].(state := ABORTED)];
      aborting, retiring := aborting - {t}, retiring + {t};
    }

    method RetireAbort(t: TxnId, readTs: Ts)
      requires Linked() && t in live && live[t] == readTs
      modifies this`live, this`retiring, running
      ensures Linked() && St() == DoRetireAbort(old(St()), t)
    {
      ReaderRemoved(live, running.live, t);
      var ok := running.RemoveTxn(readTs);
      assert ok;
      live, retiring := live - {t}, retiring - {t};
    }

    /** Rolls a transaction back without interruption and deregisters it. */
    method Abort(t: TxnId)
      requires Valid() && t in txns && txns[t].state in {RUNNING, TAINTED} && t !in aborting && !Committing(St(), t)
      modifies this, running
      ensures Linked() && AbortOutcome(old(St()), t, St())
    {
      ghost var s := St();
      StartAbortKeeps(s, t);
      aborting := aborting[t := txns[t].writes];
      RollbackAll(t);
      AbortConcludes(s, St(), t);
      MarkAborted(t);
      RetireAbort(t, txns[t].readTs);
    }

    // ---------------------------------------------------------------- garbage collection

    /** One collection pass: reads the watermark, then erases every collectible transaction. */
    method GarbageCollection() returns (reclaimed: nat)
      requires Linked() && gcMarks == {}
      modifies this`txns
      ensures Linked() && St() == DoCollect(DoReadMark(old(St())), Watermark(old(St())))
      ensures reclaimed == |old(txns)| - |txns|
      ensures forall t | t in old(txns) ::
                t !in txns <==> old(txns)[t].state == ABORTED ||
                                (old(txns)[t].state == COMMITTED && old(txns)[t].commitTs <= Watermark(old(St())))
      ensures forall t | t in txns :: t in old(txns) && txns[t] == old(txns)[t]
    {
      hide DoReadMark, DoCollect, IsOldest, ReadersAt, SameReaders, Valid, Watermark;
      var mark := running.GetWatermark();
      LeastReader(St(), running.live, mark);
      CollectPass(St(), mark);
      txns, reclaimed := Erase(txns, mark);
    }
  }

  lemma CollectPass(s: State, mark: Ts)
    requires s.gcMarks == {} && mark == Watermark(s)
    ensures DoCollect(DoReadMark(s), mark) ==
            s.(txns := map u | u in s.txns && !Collectible(s.txns[u], mark) :: s.txns[u])
  {
    assert {mark} - {mark} == {};
  }

  /** Drops every collectible transaction from the map. */
  method Erase(txns: map<TxnId, Txn>, mark: Ts) returns (kept: map<TxnId, Txn>, reclaimed: nat)
    ensures kept == map u | u in txns && !Collectible(txns[u], mark) :: txns[u]
    ensures reclaimed == |txns| - |kept|
  {
    kept, reclaimed := txns, 0;
    var todo := txns.Keys;
    while todo != {}
      invariant todo <= kept.Keys
      invariant kept == map u | u in txns && (u in todo || !Collectible(txns[u], mark)) :: txns[u]
      invariant reclaimed + |kept| == |txns|
      decreases |todo|
    {
      var u :| u in todo;
      if Collectible(kept[u], mark) {
        assert (kept - {u}).Keys == kept.Keys - {u};
        kept := kept - {u};
        reclaimed := reclaimed + 1;
      }
      todo := todo - {u};
    }
  }

  // ---------------------------------------------------------------- whole commits

  /** `s2` is `s1` with all but `todo` of the committing transaction's slots stamped. */
  ghost predicate StampedFrom(s1: State, s2: State, todo: set<Rid>) {
    s1.inCommit.Some? && todo <= s1.inCommit.value.left &&
    s2 == s1.(base := s2.base, inCommit := Some(s1.inCommit.value.(left := todo))) &&
    s2.base.Keys == s1.base.Keys &&
    forall rid | rid in s1.base :: s2.base[rid] ==
      if rid in s1.inCommit.value.left && rid !in todo then s1.base[rid].(ts := s1.inCommit.value.ts) else s1.base[rid]
  }

  lemma StampStep(s1: State, s2: State, todo: set<Rid>, rid: Rid)
    requires Inv(s2) && StampedFrom(s1, s2, todo) && rid in todo && s2.inCommit.value.stage.Stamping?
    ensures rid in s2.base && s2.inCommit.value.ts == s2.lastCommit + 1
    ensures Inv(DoStampOne(s2, rid)) && StampedFrom(s1, DoStampOne(s2, rid), todo - {rid})
  {
    var t := s2.inCommit.value.tid;
    assert TxnOk(s2, t) && WriteAt(s2, t, rid);
    StampKeeps(s2, rid);
  }

  /** The transaction committed: one timestamp later, one record more, holding its own writes; it is
      deregistered and nothing else about the transactions changed. */
  ghost predicate CommitOutcome(s: State, t: TxnId, s': State)
    requires t in s.txns
  {
    Inv(s') && s'.inCommit.None? && s'.lastCommit == s.lastCommit + 1 && s'.live == s.live - {t} &&
    s'.txns == s.txns[t := s.txns[t].(state := COMMITTED, commitTs := s'.lastCommit)] &&
    s'.log == s.log + [Commit(t, s.txns[t].iso, s.txns[t].readTs, OwnWrites(s, t), s.txns[t].scans)] &&
    s.dbs != [] && s'.dbs == s.dbs + [Overlay(s.dbs[|s.dbs| - 1], OwnWrites(s, t))]
  }

  lemma CommitConcludes(s: State, s2: State, t: TxnId)
    requires Inv(s) && Enabled(s, StartCommit(t)) && Inv(s2) && StampedFrom(DoStartCommit(s, t), s2, {})
    ensures t in s2.live && s2.live[t] == s2.txns[t].readTs
    ensures CommitOutcome(s, t, DoRetireCommit(DoPublish(DoMarkCommitted(s2))))
  {
    assert LiveAt(s2, t);
    MarkKeeps(s2);
    var s3 := DoMarkCommitted(s2);
    PublishKeeps(s3);
    RetireCommitKeeps(DoPublish(s3));
    OwnIsWritten(s, t);
    RecordOfOwn(s, s2, t);
  }

  lemma RecordOfOwn(s: State, s2: State, t: TxnId)
    requires t in s.txns && StampedFrom(DoStartCommit(s, t), s2, {})
    requires OwnWrites(s, t) == map rid | rid in s.txns[t].writes && rid in s.base :: BaseValue(s, rid)
    ensures CommitRecord(DoMarkCommitted(s2)) ==
            Commit(t, s.txns[t].iso, s.txns[t].readTs, OwnWrites(s, t), s.txns[t].scans)
  {
    assert CommitRecord(DoMarkCommitted(s2)).writes == OwnWrites(s, t);
  }

  // ---------------------------------------------------------------- whole aborts

  /** `s2` is `s1` with all but `todo` of the aborting transaction's slots rolled back. */
  ghost predicate RolledFrom(s1: State, s2: State, t: TxnId, todo: set<Rid>) {
    t in s1.txns && t in s1.aborting && todo <= s1.txns[t].writes &&
    s2 == s1.(base := s2.base, head := s2.head, chain := s2.chain, aborting := s1.aborting[t := todo]) &&
    s2.base.Keys == s1.base.Keys &&
    forall rid | rid in s1.base && rid !in s1.txns[t].writes :: s2.base[rid] == s1.base[rid]
  }

  lemma RolledStep(s1: State, s2: State, t: TxnId, todo: set<Rid>, rid: Rid)
    requires Inv(s2) && RolledFrom(s1, s2, t, todo) && rid in todo
    ensures rid in s2.base
    ensures Inv(DoRollbackOne(s2, t, rid)) && RolledFrom(s1, DoRollbackOne(s2, t, rid), t, todo - {rid})
  {
    assert TxnOk(s2, t) && WriteAt(s2, t, rid);
    RollbackKeeps(s2, t, rid);
  }

  /** The transaction aborted: the published history and every slot it had not written are as before,
      it holds no slot, and it is deregistered. */
  ghost predicate AbortOutcome(s: State, t: TxnId, s': State)
    requires t in s.txns
  {
    Inv(s') && s'.log == s.log && s'.dbs == s.dbs && s'.live == s.live - {t} &&
    s'.txns == s.txns[t := s.txns[t].(state := ABORTED)] && OwnWrites(s', t) == map[] &&
    s'.base.Keys == s.base.Keys &&
    forall rid | rid in s.base && rid !in s.txns[t].writes :: s'.base[rid] == s.base[rid]
  }

  lemma AbortConcludes(s: State, s2: State, t: TxnId)
    requires Inv(s) && Enabled(s, StartAbort(t)) && Inv(s2) && RolledFrom(DoStartAbort(s, t), s2, t, {})
    ensures t in s2.live && s2.live[t] == s2.txns[t].readTs
    ensures AbortOutcome(s, t, DoRetireAbort(DoMarkAborted(s2, t), t))
  {
    hide CountersOk, Watermark, ValidatedOk, RidOk, CommitRunOk, Verify, Enabled, CanRun;
    assert LiveAt(s2, t);
    MarkAbortedKeeps(s2, t);
    RetireAbortKeeps(DoMarkAborted(s2, t), t);
    NothingOwned(s2, t);
  }

  /** What a committing transaction wrote is what its stamps say. */
  lemma OwnIsWritten(s: State, t: TxnId)
    requires Inv(s) && CanRun(s, t)
    ensures OwnWrites(s, t) == map rid | rid in s.txns[t].writes && rid in s.base :: BaseValue(s, rid)
  {
    assert TxnOk(s, t);
    forall rid ensures rid in s.txns[t].writes <==> rid in s.base && s.base[rid].ts == t {
      assert WriteAt(s, t, rid);
      if rid in s.base {
        assert RidOk(s, rid, Watermark(s));
      }
    }
  }

  lemma NothingOwned(s: State, t: TxnId)
    requires Inv(s) && t in s.txns && t in s.aborting && s.aborting[t] == {}
    ensures OwnWrites(s, t) == map[]
  {
    forall rid | rid in s.base ensures s.base[rid].ts != t {
      assert RidOk(s, rid, Watermark(s));
    }
  }

  /** A transaction that has just begun sees everything published and nothing else. */
  lemma BeginSeesPublished(s: State, iso: Isolation, rid: Rid)
    requires Inv(s)
    ensures Visible(DoBegin(s, iso), s.nextId, rid) == At(s, s.lastCommit, rid)
  {
    var s' := DoBegin(s, iso);
    BeginKeeps(s, iso);
    VisibleIsSnapshot(s', s.nextId, rid);
    assert rid !in OwnWrites(s', s.nextId) by {
      if rid in s.base {
        assert RidOk(s, rid, Watermark(s));
      }
    }
  }
}
