/** The abort path and garbage collection. */
module MvccAbort {
  import opened MvccModel
  import opened MvccInvariant
  import opened MvccFrames
  import opened MvccSteps
  import opened MvccCommit

  // ---------------------------------------------------------------- starting and leaving an abort

  lemma StartAbortKeeps(s: State, t: TxnId)
    requires Inv(s) && Enabled(s, StartAbort(t))
    ensures Keeps(s, DoStartAbort(s, t))
  {
    var s' := DoStartAbort(s, t);
    WatermarkOldest(s);
    WatermarkOldest(s');
    forall u ensures LiveAt(s', u) {
      assert LiveAt(s, u);
    }
    ValidatedFrame(s, s');
    ControlOnlyKeeps(s, s');
  }

  lemma RetireAbortKeeps(s: State, t: TxnId)
    requires Inv(s) && Enabled(s, RetireAbort(t))
    ensures Keeps(s, DoRetireAbort(s, t))
  {
    var s' := DoRetireAbort(s, t);
    RetireAbortControl(s, t);
    ControlOnlyKeeps(s, s');
  }

  lemma RetireAbortControl(s: State, t: TxnId)
    requires ControlOk(s) && Enabled(s, RetireAbort(t))
    ensures ControlOk(DoRetireAbort(s, t)) && Watermark(s) <= Watermark(DoRetireAbort(s, t))
  {
    var s' := DoRetireAbort(s, t);
    assert LiveAt(s, t);
    forall u ensures LiveAt(s', u) {
      assert LiveAt(s, u);
    }
    if s.inCommit.Some? {
      assert LiveAt(s, s.inCommit.value.tid);
      assert s.inCommit.value.tid in s'.live;
    }
    ValidatedFrame(s, s');
    WatermarkRises(s, s');
  }

  // ---------------------------------------------------------------- rolling one slot back

  /** A step that touches one slot and what is left to roll back. */
  ghost predicate SlotStep(s: State, s': State, t: TxnId, rid: Rid) {
    s' == s.(base := s'.base, head := s'.head, chain := s'.chain, aborting := s'.aborting) &&
    t in s.aborting && s'.aborting == s.aborting[t := s.aborting[t] - {rid}] &&
    s'.base.Keys == s.base.Keys && s'.chain.Keys == s.chain.Keys && s'.head.Keys <= s.head.Keys &&
    forall r | r in s.base && r != rid :: SameSlot(s, s', r)
  }

  lemma RollbackIsSlotStep(s: State, t: TxnId, rid: Rid)
    requires CountersOk(s) && Enabled(s, RollbackOne(t, rid))
    ensures SlotStep(s, DoRollbackOne(s, t, rid), t, rid)
  {
  }

  lemma RollingBack(s: State, t: TxnId, rid: Rid)
    requires Enabled(s, RollbackOne(t, rid)) && TxnOk(s, t) && LiveAt(s, t) && CommitRunOk(s)
    ensures s.base[rid].ts == t && Unsettled(s, t, rid)
  {
    assert WriteAt(s, t, rid);
  }

  lemma RollbackControl(s: State, s': State, t: TxnId, rid: Rid)
    requires ControlOk(s) && SlotStep(s, s', t, rid) && t in s.txns && rid in s.base && s.base[rid].ts == t
    ensures ControlOk(s') && Watermark(s') == Watermark(s)
  {
    WatermarkOldest(s);
    WatermarkOldest(s');
    assert LiveAt(s, t);
    forall u ensures LiveAt(s', u) {
      assert LiveAt(s, u);
    }
    ValidatedFrame(s, s');
  }

  /** Restoring the pre-image makes the next version down the base again. */
  lemma RestoreSlot(s: State, t: TxnId, rid: Rid, wm: Ts)
    requires Enabled(s, RollbackOne(t, rid)) && RidOk(s, rid, wm) && s.lastCommit < TXN_START
    requires s.base[rid].ts == t >= TXN_START && Chain(s, rid) != []
    ensures RidOk(DoRollbackOne(s, t, rid), rid, wm)
  {
    var s' := DoRollbackOne(s, t, rid);
    RestoredFields(s, t, rid, wm);
    hide DoRollbackOne;
    var c, c' := Chain(s, rid), Chain(s', rid);
    CoveredFrame(s, s', rid, c[0].ts, s.lastCommit + 1, Value(c[0].deleted, c[0].row));
    forall i | 0 <= i < |c'| ensures VersionOk(s', rid, i) && NodeOk(s', rid, i, wm) {
      RestoredVersion(s, s', t, rid, wm, i);
    }
    assert Up(s', rid, |c'|) == Up(s, rid, |c|);
    CoveredFrame(s, s', rid, 0, Up(s, rid, |c|), None);
    assert StampOk(s', rid);
    hide VersionOk, NodeOk, Covered;
  }

  /** The slot as the pre-image and the older link leave it. */
  ghost predicate Restored(s: State, s': State, t: TxnId, rid: Rid) {
    && rid in s.base && Chain(s, rid) != [] && SameHistory(s, s') && s'.txns == s.txns && s'.nextId == s.nextId
    && s'.inCommit == s.inCommit && rid in s'.base && Chain(s', rid) == Chain(s, rid)[1..]
    && s'.base[rid].ts == Chain(s, rid)[0].ts
    && BaseValue(s', rid) == Value(Chain(s, rid)[0].deleted, Chain(s, rid)[0].row)
    && (rid in s'.head <==> Chain(s', rid) != []) && (rid in s'.head ==> s'.head[rid] == Chain(s', rid)[0].link)
    && (forall u | u != t :: u in s'.aborting <==> u in s.aborting)
    && (forall u | u != t && u in s.aborting :: s'.aborting[u] == s.aborting[u])
  }

  lemma RestoredFields(s: State, t: TxnId, rid: Rid, wm: Ts)
    requires Enabled(s, RollbackOne(t, rid)) && RidOk(s, rid, wm) && s.lastCommit < TXN_START
    requires s.base[rid].ts == t >= TXN_START && Chain(s, rid) != []
    ensures Restored(s, DoRollbackOne(s, t, rid), t, rid)
    ensures VersionOk(s, rid, 0) && Chain(s, rid)[0].ts <= s.lastCommit
  {
    assert NodeOk(s, rid, 0, wm) && VersionOk(s, rid, 0);
    assert s.txns[t].undo[s.head[rid].idx] == LogFor(s, rid, 0);
  }

  lemma RestoredVersion(s: State, s': State, t: TxnId, rid: Rid, wm: Ts, i: nat)
    requires Restored(s, s', t, rid) && RidOk(s, rid, wm) && s.base[rid].ts == t >= TXN_START && i < |Chain(s', rid)|
    requires s.lastCommit < TXN_START && Chain(s, rid)[0].ts <= s.lastCommit
    ensures VersionOk(s', rid, i) && NodeOk(s', rid, i, wm)
  {
    var c' := Chain(s', rid);
    assert VersionOk(s, rid, i + 1) && NodeOk(s, rid, i + 1, wm);
    assert AboveTs(s', rid, i) == AboveTs(s, rid, i + 1);
    assert LogFor(s', rid, i) == LogFor(s, rid, i + 1);
    CoveredFrame(s, s', rid, c'[i].ts, Up(s, rid, i + 1), Value(c'[i].deleted, c'[i].row));
  }

  /** A fresh insert becomes a tombstone that every snapshot sees as absent. */
  lemma TombstoneSlot(s: State, t: TxnId, rid: Rid, wm: Ts)
    requires Enabled(s, RollbackOne(t, rid)) && RidOk(s, rid, wm) && s.lastCommit < TXN_START
    requires s.base[rid].ts == t >= TXN_START && Chain(s, rid) == []
    ensures RidOk(DoRollbackOne(s, t, rid), rid, wm)
  {
    var s' := DoRollbackOne(s, t, rid);
    CoveredFrame(s, s', rid, 0, s.lastCommit + 1, None);
    assert StampOk(s', rid);
  }

  lemma RollbackOtherSlots(s: State, s': State, t: TxnId, rid: Rid, wm: Ts)
    requires SlotsOk(s, wm) && SlotStep(s, s', t, rid)
    ensures forall r | r in s.base && r != rid :: RidOk(s', r, wm)
  {
    assert TxnsCarry(s, s', wm);
    forall r | r in s.base && r != rid ensures RidOk(s', r, wm) {
      assert WritersCarry(s, s', r);
      RidFrame(s, s', r, wm, wm);
    }
  }

  lemma RollbackTxns(s: State, s': State, t: TxnId, rid: Rid)
    requires TxnsOk(s) && SlotStep(s, s', t, rid) && rid in s.base && s.base[rid].ts == t
    ensures TxnsOk(s')
  {
    forall u | u in s'.txns ensures TxnOk(s', u) {
      assert TxnOk(s, u);
      forall r ensures WriteAt(s, u, r) ==> WriteAt(s', u, r) {
      }
      TxnFrame(s, s', u);
    }
  }

  lemma RollbackKeeps(s: State, t: TxnId, rid: Rid)
    requires Inv(s) && Enabled(s, RollbackOne(t, rid))
    ensures Keeps(s, DoRollbackOne(s, t, rid))
  {
    var s' := DoRollbackOne(s, t, rid);
    var wm := Watermark(s);
    RollbackIsSlotStep(s, t, rid);
    assert TxnOk(s, t) && LiveAt(s, t) && RidOk(s, rid, wm);
    RollingBack(s, t, rid);
    RollbackControl(s, s', t, rid);
    if Chain(s, rid) == [] {
      TombstoneSlot(s, t, rid, wm);
    } else {
      RestoreSlot(s, t, rid, wm);
    }
    RollbackOtherSlots(s, s', t, rid, wm);
    RollbackTxns(s, s', t, rid);
    assert TxnsCarry(s, s', wm);
    LogFrame(s, s', wm, wm);
    Assemble(s, s');
  }

  // ---------------------------------------------------------------- marking the transaction aborted

  lemma MarkAbortedControl(s: State, t: TxnId)
    requires ControlOk(s) && Enabled(s, MarkAborted(t))
    ensures ControlOk(DoMarkAborted(s, t)) && Watermark(DoMarkAborted(s, t)) == Watermark(s)
  {
    var s' := DoMarkAborted(s, t);
    WatermarkOldest(s);
    WatermarkOldest(s');
    forall u ensures LiveAt(s', u) {
      assert LiveAt(s, u);
    }
    assert LiveAt(s, t);
    ValidatedFrame(s, s');
  }

  /** A transaction with nothing left to roll back owns no version in any chain. */
  lemma MarkAbortedSlot(s: State, t: TxnId, rid: Rid, wm: Ts)
    requires Enabled(s, MarkAborted(t)) && LiveAt(s, t) && CommitRunOk(s)
    requires rid in s.base && RidOk(s, rid, wm) && s.lastCommit < TXN_START <= t
    ensures RidOk(DoMarkAborted(s, t), rid, wm)
  {
    var s' := DoMarkAborted(s, t);
    VersionsFrame(s, s', rid);
    forall i | 0 <= i < |Chain(s', rid)| ensures NodeOk(s', rid, i, wm) {
      assert NodeOk(s, rid, i, wm);
      assert Chain(s, rid)[i].link.txn != t;
      assert AboveTs(s', rid, i) == AboveTs(s, rid, i);
      assert LogFor(s', rid, i) == LogFor(s, rid, i);
    }
    assert StampOk(s', rid);
  }

  lemma MarkAbortedTxns(s: State, t: TxnId)
    requires TxnsOk(s) && Enabled(s, MarkAborted(t))
    ensures TxnsOk(DoMarkAborted(s, t))
  {
    var s' := DoMarkAborted(s, t);
    forall u | u in s'.txns ensures TxnOk(s', u) {
      assert TxnOk(s, u);
      forall r ensures WriteAt(s', u, r) {
        assert WriteAt(s, u, r);
      }
      if u != t {
        TxnFrame(s, s', u);
      } else {
        ScansFrame(s, s', s.txns[t].readTs - s.origin, s.txns[t].scans);
      }
    }
  }

  lemma MarkAbortedKeeps(s: State, t: TxnId)
    requires Inv(s) && Enabled(s, MarkAborted(t))
    ensures Keeps(s, DoMarkAborted(s, t))
  {
    var s' := DoMarkAborted(s, t);
    var wm := Watermark(s);
    MarkAbortedControl(s, t);
    assert LiveAt(s, t);
    forall rid | rid in s'.base ensures RidOk(s', rid, wm) {
      assert RidOk(s, rid, wm);
      MarkAbortedSlot(s, t, rid, wm);
    }
    MarkAbortedTxns(s, t);
    forall k | 0 <= k < |s'.log| ensures RecordOk(s', k, wm) {
      RecordFrame(s, s', k, wm, wm);
    }
    Assemble(s, s');
  }

  // ---------------------------------------------------------------- garbage collection

  lemma ReadMarkKeeps(s: State)
    requires Inv(s)
    ensures Keeps(s, DoReadMark(s))
  {
    var s' := DoReadMark(s);
    var wm := Watermark(s);
    WatermarkOldest(s);
    WatermarkOldest(s');
    assert Watermark(s') == wm;
    forall u ensures LiveAt(s', u) {
      assert LiveAt(s, u);
    }
    ValidatedFrame(s, s');
    MarksDoNotMatter(s, s');
  }

  /** The marks pending collectors hold matter only through their bound. */
  lemma MarksDoNotMatter(s: State, s': State)
    requires Inv(s) && s' == s.(gcMarks := s'.gcMarks) && ControlOk(s') && Watermark(s') == Watermark(s)
    requires forall m | m in s'.gcMarks :: m <= Watermark(s)
    ensures Inv(s')
  {
    hide RidOk, SlotsOk, TxnOk, RecordOk, Collectible, NodeOk, StampOk, VersionsOk;
    var wm := Watermark(s);
    assert TxnsCarry(s, s', wm);
    SlotsFrame(s, s', wm, wm);
    assert forall rid | rid in s.base :: SameSlot(s, s', rid);
    TxnsFrame(s, s');
    LogFrame(s, s', wm, wm);
  }

  lemma CollectControl(s: State, mark: Ts)
    requires Inv(s) && Enabled(s, Collect(mark))
    ensures ControlOk(DoCollect(s, mark)) && Watermark(DoCollect(s, mark)) == Watermark(s)
    ensures SameControl(s, DoCollect(s, mark))
  {
    var s' := DoCollect(s, mark);
    WatermarkOldest(s);
    WatermarkOldest(s');
    if s.inCommit.Some? {
      var t := s.inCommit.value.tid;
      assert TxnOk(s, t) && LiveAt(s, t);
      LiveAboveWatermark(s, t);
      assert t in s'.txns;
    }
    forall u ensures LiveAt(s', u) {
      assert LiveAt(s, u);
    }
    ValidatedFrame(s, s');
  }

  /** Collecting with a mark read earlier is safe: the watermark has only risen since. */
  lemma CollectKeeps(s: State, mark: Ts)
    requires Inv(s) && Enabled(s, Collect(mark))
    ensures Keeps(s, DoCollect(s, mark))
  {
    hide Keeps, ControlOk, RidOk, TxnOk, RecordOk, Watermark;
    var s' := DoCollect(s, mark);
    var wm := Watermark(s);
    CollectControl(s, mark);
    CollectShape(s, mark, wm);
    hide DoCollect;
    SlotsFrame(s, s', wm, wm);
    TxnsFrame(s, s');
    LogFrame(s, s', wm, wm);
    Assemble(s, s');
  }

  lemma CollectShape(s: State, mark: Ts, wm: Ts)
    requires mark <= wm
    ensures TxnsCarry(s, DoCollect(s, mark), wm) && DoCollect(s, mark).gcMarks <= s.gcMarks
    ensures forall rid | rid in s.base :: SameSlot(s, DoCollect(s, mark), rid)
    ensures SameHistory(s, DoCollect(s, mark)) && DoCollect(s, mark).base == s.base
  {
  }
}
