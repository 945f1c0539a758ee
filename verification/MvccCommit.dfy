/** The commit path: validation, stamping, marking, publishing and leaving the watermark. */
module MvccCommit {
  import opened MvccModel
  import opened MvccInvariant
  import opened MvccFrames
  import opened MvccSteps

  // ---------------------------------------------------------------- validation

  /** No tested version matches, so neither does the value the history has at the snapshot. */
  lemma {:induction false} QuietWalk(s: State, x: Txn, rid: Rid, i: nat, wm: Ts)
    requires rid in s.base && i <= |Chain(s, rid)| && RidOk(s, rid, wm)
    requires s.origin <= x.readTs < Up(s, rid, i) && wm <= x.readTs <= s.lastCommit
    requires !WalkConflicts(s, x, rid, i)
    ensures !IsScanTuple(x, rid.oid, At(s, x.readTs, rid))
    decreases |Chain(s, rid)| - i
  {
    var c := Chain(s, rid);
    if i < |c| {
      assert VersionOk(s, rid, i);
      assert c[i].link.txn in s.txns by {
        assert NodeOk(s, rid, i, wm);
        assert AboveTs(s, rid, i) >= Up(s, rid, i) > x.readTs;
      }
      if c[i].ts > x.readTs {
        assert Up(s, rid, i + 1) == c[i].ts;
        QuietWalk(s, x, rid, i + 1, wm);
      } else {
        assert At(s, x.readTs, rid) == Value(c[i].deleted, c[i].row);
      }
    } else {
      assert Covered(s, rid, 0, Up(s, rid, |c|), None);
      assert At(s, x.readTs, rid) == None;
    }
  }

  /** ... and at the newest published timestamp. */
  lemma QuietTop(s: State, x: Txn, rid: Rid, wm: Ts)
    requires rid in s.base && RidOk(s, rid, wm) && s.inCommit.None? && s.lastCommit < TXN_START
    requires wm <= s.lastCommit && !RidConflicts(s, x, rid)
    ensures !IsScanTuple(x, rid.oid, At(s, s.lastCommit, rid))
  {
    var c := Chain(s, rid);
    if IsPublished(s, rid) {
      assert Covered(s, rid, s.base[rid].ts, s.lastCommit + 1, BaseValue(s, rid));
      assert At(s, s.lastCommit, rid) == BaseValue(s, rid);
    } else if c != [] {
      assert VersionOk(s, rid, 0) && NodeOk(s, rid, 0, wm);
      assert At(s, s.lastCommit, rid) == Value(c[0].deleted, c[0].row);
    } else {
      assert Covered(s, rid, 0, Up(s, rid, 0), None);
      assert At(s, s.lastCommit, rid) == None;
    }
  }

  /** A commit after the snapshot that wrote `rid` makes `rid` a suspect: its transaction has not
      been collected while the snapshot is registered. */
  lemma LaterWriterIsSuspect(s: State, t: TxnId, rid: Rid, k: nat)
    requires Inv(s) && CanRun(s, t) && k < |s.log| && rid in s.log[k].writes
    requires s.txns[t].readTs <= s.origin + k
    ensures IsSuspect(s, t, s.log[k].tid, rid)
  {
    assert LiveAt(s, t);
    LiveAboveWatermark(s, t);
    assert RecordOk(s, k, Watermark(s));
    var u := s.log[k].tid;
    assert TxnOk(s, u);
  }

  /** What a scan predicate selects in one slot. */
  ghost function Filter(pred: Row -> bool, v: Option<Row>): Option<Row> {
    if v.Some? && pred(v.value) then v else None
  }

  lemma SlotSelectionUnchanged(s: State, t: TxnId, rid: Rid, j: nat)
    requires Inv(s) && CanRun(s, t) && s.inCommit.None? && Verify(s, t)
    requires s.txns[t].iso == SERIALIZABLE && s.txns[t].writes != {}
    requires j < |s.txns[t].scans| && s.txns[t].scans[j].oid == rid.oid
    ensures s.origin <= s.txns[t].readTs <= s.lastCommit && |s.dbs| == s.lastCommit - s.origin + 1
    ensures var pred := s.txns[t].scans[j].pred;
            Filter(pred, At(s, s.txns[t].readTs, rid)) == Filter(pred, At(s, s.lastCommit, rid))
  {
    var x := s.txns[t];
    var a, wm := x.readTs - s.origin, Watermark(s);
    assert TxnOk(s, t) && LiveAt(s, t);
    LiveAboveWatermark(s, t);
    if k :| a <= k < |s.log| && rid in s.log[k].writes {
      LaterWriterIsSuspect(s, t, rid, k);
      assert RecordOk(s, k, wm) && RidOk(s, rid, wm);
      assert !RidConflicts(s, x, rid);
      QuietTop(s, x, rid, wm);
      QuietSnapshot(s, x, rid, wm);
    } else {
      forall k | 0 <= k < |s.log| ensures SerialStep(s, k) {
        assert RecordOk(s, k, wm);
      }
      Untouched(s, a, |s.log|, rid);
    }
  }

  lemma QuietSnapshot(s: State, x: Txn, rid: Rid, wm: Ts)
    requires rid in s.base && RidOk(s, rid, wm) && s.lastCommit < TXN_START
    requires s.origin <= x.readTs <= s.lastCommit && wm <= x.readTs && !RidConflicts(s, x, rid)
    ensures !IsScanTuple(x, rid.oid, At(s, x.readTs, rid))
  {
    if s.base[rid].ts <= x.readTs {
      assert Covered(s, rid, s.base[rid].ts, s.lastCommit + 1, BaseValue(s, rid));
      assert At(s, x.readTs, rid) == BaseValue(s, rid);
    } else {
      QuietWalk(s, x, rid, 0, wm);
    }
  }

  /** Databases that agree slot by slot under `pred` select the same rows, under any own writes. */
  lemma SameSelection(oid: nat, pred: Row -> bool, was: Db, now: Db, own: Writes)
    requires forall rid: Rid | rid.oid == oid :: Filter(pred, Get(was, rid)) == Filter(pred, Get(now, rid))
    ensures SelectRows(oid, pred, Overlay(was, own)) == SelectRows(oid, pred, Overlay(now, own))
  {
    var a, b := SelectRows(oid, pred, Overlay(was, own)), SelectRows(oid, pred, Overlay(now, own));
    forall rid ensures Get(a, rid) == Get(b, rid) {
      assert Filter(pred, Get(was, rid)) == Filter(pred, Get(now, rid)) || rid.oid != oid;
    }
    SameDb(a, b);
  }

  /** Validation is sound: each recorded scan of an accepted serializable writer would return the
      same rows from the newest published database. */
  lemma VerifySound(s: State, t: TxnId, j: nat)
    requires Inv(s) && CanRun(s, t) && s.inCommit.None? && Verify(s, t)
    requires s.txns[t].iso == SERIALIZABLE && s.txns[t].writes != {} && j < |s.txns[t].scans|
    ensures ScanOk(s, |s.log|, s.txns[t].scans[j])
  {
    var x := s.txns[t];
    var scan := x.scans[j];
    assert TxnOk(s, t);
    assert ScanOk(s, x.readTs - s.origin, scan);
    var was, now := s.dbs[x.readTs - s.origin], s.dbs[|s.log|];
    forall rid: Rid | rid.oid == scan.oid
      ensures Filter(scan.pred, Get(was, rid)) == Filter(scan.pred, Get(now, rid))
    {
      SlotSelectionUnchanged(s, t, rid, j);
    }
    SameSelection(scan.oid, scan.pred, was, now, scan.own);
  }

  // ---------------------------------------------------------------- taking the commit mutex

  lemma StartCommitControl(s: State, t: TxnId)
    requires Inv(s) && Enabled(s, StartCommit(t))
    ensures ControlOk(DoStartCommit(s, t)) && Watermark(DoStartCommit(s, t)) == Watermark(s)
  {
    var s' := DoStartCommit(s, t);
    WatermarkOldest(s);
    WatermarkOldest(s');
    forall u ensures LiveAt(s', u) {
      assert LiveAt(s, u);
    }
    if s.txns[t].iso == SERIALIZABLE && s.txns[t].writes != {} {
      forall j | 0 <= j < |s.txns[t].scans| ensures ScanOk(s, |s.log|, s.txns[t].scans[j]) {
        VerifySound(s, t, j);
      }
      ScansFrame(s, s', |s.log|, s.txns[t].scans);
    }
  }

  /** Steps that change only who is where keep every slot, transaction and record. */
  lemma ControlOnlyKeeps(s: State, s': State)
    requires Inv(s) && ControlOk(s') && Watermark(s) <= Watermark(s')
    requires s'.gcMarks <= s.gcMarks && SameHistory(s, s')
    requires s'.txns == s.txns && s'.base == s.base && s'.head == s.head && s'.chain == s.chain
    requires s'.nextId == s.nextId
    requires forall u, rid :: Unsettled(s, u, rid) == Unsettled(s', u, rid)
    requires forall u, rid | Stamped(s, u, rid) :: Stamped(s', u, rid) && s'.inCommit.value.ts == s.inCommit.value.ts
    requires s.inCommit.Some? && s.inCommit.value.stage.Marked? ==> s'.inCommit == s.inCommit
    ensures Keeps(s, s')
  {
    var wm, wm' := Watermark(s), Watermark(s');
    assert TxnsCarry(s, s', wm');
    forall rid | rid in s'.base ensures RidOk(s', rid, wm') {
      assert WritersCarry(s, s', rid);
      RidFrame(s, s', rid, wm, wm');
    }
    forall u | u in s'.txns ensures TxnOk(s', u) {
      assert TxnOk(s, u);
      forall rid ensures WriteAt(s, u, rid) ==> WriteAt(s', u, rid) {
      }
      TxnFrame(s, s', u);
    }
    LogFrame(s, s', wm, wm');
    Assemble(s, s');
  }

  lemma StartCommitKeeps(s: State, t: TxnId)
    requires Inv(s) && Enabled(s, StartCommit(t))
    ensures Keeps(s, DoStartCommit(s, t))
  {
    StartCommitControl(s, t);
    ControlOnlyKeeps(s, DoStartCommit(s, t));
  }

  lemma RetireCommitControl(s: State)
    requires ControlOk(s) && Enabled(s, RetireCommit)
    ensures ControlOk(DoRetireCommit(s)) && Watermark(s) <= Watermark(DoRetireCommit(s))
  {
    var s' := DoRetireCommit(s);
    WatermarkRises(s, s');
    forall u ensures LiveAt(s', u) {
      assert LiveAt(s, u);
    }
  }

  lemma RetireCommitKeeps(s: State)
    requires Inv(s) && Enabled(s, RetireCommit)
    ensures Keeps(s, DoRetireCommit(s))
  {
    RetireCommitControl(s);
    ControlOnlyKeeps(s, DoRetireCommit(s));
  }

  // ---------------------------------------------------------------- stamping one slot

  lemma StampControl(s: State, rid: Rid)
    requires Inv(s) && Enabled(s, StampOne(rid))
    ensures ControlOk(DoStampOne(s, rid)) && Watermark(DoStampOne(s, rid)) == Watermark(s)
    ensures s.base[rid].ts == s.inCommit.value.tid
  {
    var s' := DoStampOne(s, rid);
    var t := s.inCommit.value.tid;
    WatermarkOldest(s);
    WatermarkOldest(s');
    assert TxnOk(s, t) && LiveAt(s, t);
    assert WriteAt(s, t, rid);
    forall u ensures LiveAt(s', u) {
      assert LiveAt(s, u);
    }
    ValidatedFrame(s, s');
  }

  lemma StampSlot(s: State, rid: Rid, wm: Ts)
    requires Enabled(s, StampOne(rid)) && RidOk(s, rid, wm) && CommitRunOk(s) && s.lastCommit < TXN_START
    requires s.base[rid].ts == s.inCommit.value.tid >= TXN_START
    ensures RidOk(DoStampOne(s, rid), rid, wm)
  {
    var s' := DoStampOne(s, rid);
    var c := Chain(s, rid);
    assert Stamped(s', s.inCommit.value.tid, rid);
    forall i | 0 <= i < |c| ensures VersionOk(s', rid, i) && NodeOk(s', rid, i, wm) {
      assert VersionOk(s, rid, i) && NodeOk(s, rid, i, wm);
      CoveredFrame(s, s', rid, c[i].ts, Up(s, rid, i), Value(c[i].deleted, c[i].row));
      assert i > 0 ==> AboveTs(s', rid, i) == AboveTs(s, rid, i);
      assert LogFor(s', rid, i) == LogFor(s, rid, i);
    }
    CoveredFrame(s, s', rid, 0, Up(s, rid, |c|), None);
    assert StampOk(s', rid);
  }

  lemma StampOthers(s: State, rid: Rid, wm: Ts)
    requires SlotsOk(s, wm) && TxnsOk(s) && Enabled(s, StampOne(rid)) && CommitRunOk(s)
    requires s.base[rid].ts == s.inCommit.value.tid
    ensures forall r | r in s.base && r != rid :: RidOk(DoStampOne(s, rid), r, wm)
    ensures TxnsOk(DoStampOne(s, rid))
  {
    var s' := DoStampOne(s, rid);
    assert TxnsCarry(s, s', wm);
    forall r | r in s.base && r != rid ensures RidOk(s', r, wm) {
      assert WritersCarry(s, s', r);
      RidFrame(s, s', r, wm, wm);
    }
    forall u | u in s'.txns ensures TxnOk(s', u) {
      assert TxnOk(s, u);
      forall r ensures WriteAt(s, u, r) ==> WriteAt(s', u, r) {
      }
      TxnFrame(s, s', u);
    }
  }

  lemma StampKeeps(s: State, rid: Rid)
    requires Inv(s) && Enabled(s, StampOne(rid))
    ensures Keeps(s, DoStampOne(s, rid))
  {
    var s' := DoStampOne(s, rid);
    var wm := Watermark(s);
    StampControl(s, rid);
    assert RidOk(s, rid, wm);
    StampSlot(s, rid, wm);
    StampOthers(s, rid, wm);
    assert TxnsCarry(s, s', wm);
    LogFrame(s, s', wm, wm);
    Assemble(s, s');
  }

  // ---------------------------------------------------------------- marking the transaction committed

  lemma MarkControl(s: State)
    requires Inv(s) && Enabled(s, MarkCommitted)
    ensures ControlOk(DoMarkCommitted(s)) && Watermark(DoMarkCommitted(s)) == Watermark(s)
  {
    var s' := DoMarkCommitted(s);
    var t := s.inCommit.value.tid;
    WatermarkOldest(s);
    WatermarkOldest(s');
    forall u ensures LiveAt(s', u) {
      assert LiveAt(s, u);
    }
    ValidatedFrame(s, s');
  }

  lemma MarkSlot(s: State, rid: Rid, wm: Ts)
    requires Enabled(s, MarkCommitted) && CommitRunOk(s)
    requires rid in s.base && RidOk(s, rid, wm)
    ensures RidOk(DoMarkCommitted(s), rid, wm)
  {
    var s' := DoMarkCommitted(s);
    VersionsFrame(s, s', rid);
    forall i | 0 <= i < |Chain(s', rid)| ensures NodeOk(s', rid, i, wm) {
      assert NodeOk(s, rid, i, wm);
      assert AboveTs(s', rid, i) == AboveTs(s, rid, i);
      assert LogFor(s', rid, i) == LogFor(s, rid, i);
    }
    assert StampOk(s', rid);
  }

  lemma MarkTxns(s: State)
    requires TxnsOk(s) && Enabled(s, MarkCommitted) && CommitRunOk(s)
    ensures TxnsOk(DoMarkCommitted(s))
  {
    var s' := DoMarkCommitted(s);
    var t := s.inCommit.value.tid;
    forall u | u in s'.txns ensures TxnOk(s', u) {
      assert TxnOk(s, u);
      forall r ensures WriteAt(s', u, r) {
        assert WriteAt(s, u, r);
      }
      if u != t {
        TxnFrame(s, s', u);
      } else {
        ScansFrame(s, s', s.txns[t].readTs - s.origin, s.txns[t].scans);
      }
    }
  }

  lemma MarkKeeps(s: State)
    requires Inv(s) && Enabled(s, MarkCommitted)
    ensures Keeps(s, DoMarkCommitted(s))
  {
    var s' := DoMarkCommitted(s);
    var wm := Watermark(s);
    MarkControl(s);
    forall rid | rid in s'.base ensures RidOk(s', rid, wm) {
      assert RidOk(s, rid, wm);
      MarkSlot(s, rid, wm);
    }
    MarkTxns(s);
    forall k | 0 <= k < |s'.log| ensures RecordOk(s', k, wm) {
      RecordFrame(s, s', k, wm, wm);
    }
    Assemble(s, s');
  }

  // ---------------------------------------------------------------- publishing

  lemma PublishedAt(s: State, rid: Rid)
    requires CountersOk(s) && Enabled(s, Publish) && s.inCommit.value.ts == s.lastCommit + 1
    requires forall r | r in s.txns[s.inCommit.value.tid].writes :: r in s.base
    ensures var s' := DoPublish(s);
            At(s', s'.lastCommit, rid) ==
              (if rid in s.txns[s.inCommit.value.tid].writes then BaseValue(s, rid) else At(s, s.lastCommit, rid))
    ensures forall t | s.origin <= t <= s.lastCommit :: At(DoPublish(s), t, rid) == At(s, t, rid)
  {
  }

  /** A value that lasted to the end of the old history lasts one timestamp more if the commit did
      not write the slot. */
  lemma CoveredGrows(s: State, rid: Rid, lo: Ts, hi: Ts, v: Option<Row>)
    requires CountersOk(s) && Enabled(s, Publish) && s.inCommit.value.ts == s.lastCommit + 1
    requires forall r | r in s.txns[s.inCommit.value.tid].writes :: r in s.base
    requires hi <= s.lastCommit + 1 && Covered(s, rid, lo, hi, v)
    ensures Covered(DoPublish(s), rid, lo, hi, v)
    ensures hi == s.lastCommit + 1 && lo <= s.lastCommit && rid !in s.txns[s.inCommit.value.tid].writes ==>
              Covered(DoPublish(s), rid, lo, hi + 1, v)
  {
    var s' := DoPublish(s);
    PublishedAt(s, rid);
    forall t | s.origin <= t < hi && lo <= t ensures At(s', t, rid) == v {
      assert At(s, t, rid) == v;
    }
    if hi == s.lastCommit + 1 && lo <= s.lastCommit && rid !in s.txns[s.inCommit.value.tid].writes {
      assert At(s, s.lastCommit, rid) == v;
    }
  }

  lemma PublishVersion(s: State, rid: Rid, i: nat)
    requires CountersOk(s) && Enabled(s, Publish) && CommitRunOk(s)
    requires rid in s.base && StampOk(s, rid) && i < |Chain(s, rid)| && VersionOk(s, rid, i)
    ensures VersionOk(DoPublish(s), rid, i)
  {
    var s' := DoPublish(s);
    var v := Chain(s, rid)[i];
    assert Chain(s', rid) == Chain(s, rid);
    CoveredGrows(s, rid, v.ts, Up(s, rid, i), Value(v.deleted, v.row));
    assert i > 0 ==> Up(s', rid, i) == Up(s, rid, i);
  }

  lemma PublishBase(s: State, rid: Rid)
    requires CountersOk(s) && Enabled(s, Publish) && CommitRunOk(s)
    requires rid in s.base && StampOk(s, rid) && VersionsOk(s, rid) && IsPublished(DoPublish(s), rid)
    ensures var s' := DoPublish(s);
            Covered(s', rid, s'.base[rid].ts, s'.lastCommit + 1, BaseValue(s', rid)) &&
            WrittenAt(s', rid, s'.base[rid].ts)
  {
    PublishedAt(s, rid);
    if IsPublished(s, rid) {
      CoveredGrows(s, rid, s.base[rid].ts, s.lastCommit + 1, BaseValue(s, rid));
    }
  }

  lemma PublishVersions(s: State, rid: Rid)
    requires CountersOk(s) && Enabled(s, Publish) && CommitRunOk(s)
    requires rid in s.base && VersionsOk(s, rid) && StampOk(s, rid)
    ensures VersionsOk(DoPublish(s), rid)
  {
    var s' := DoPublish(s);
    var c := Chain(s, rid);
    if IsPublished(s', rid) {
      PublishBase(s, rid);
    }
    forall i | 0 <= i < |c| ensures VersionOk(s', rid, i) {
      assert VersionOk(s, rid, i);
      PublishVersion(s, rid, i);
    }
    CoveredGrows(s, rid, 0, Up(s, rid, |c|), None);
  }

  lemma PublishSlot(s: State, rid: Rid, wm: Ts, wm': Ts)
    requires CountersOk(s) && Enabled(s, Publish) && CommitRunOk(s) && wm <= wm'
    requires rid in s.base && RidOk(s, rid, wm)
    ensures RidOk(DoPublish(s), rid, wm')
  {
    var s' := DoPublish(s);
    PublishVersions(s, rid);
    forall i | 0 <= i < |Chain(s', rid)| ensures NodeOk(s', rid, i, wm') {
      assert NodeOk(s, rid, i, wm);
      assert AboveTs(s', rid, i) == AboveTs(s, rid, i);
      assert LogFor(s', rid, i) == LogFor(s, rid, i);
    }
    assert StampOk(s', rid);
  }

  lemma PublishControl(s: State)
    requires ControlOk(s) && Enabled(s, Publish)
    ensures ControlOk(DoPublish(s)) && Watermark(DoPublish(s)) == Watermark(s)
  {
    var s' := DoPublish(s);
    WatermarkOldest(s);
    WatermarkOldest(s');
    forall u ensures LiveAt(s', u) {
      assert LiveAt(s, u);
    }
    forall n | 0 <= n < |s'.dbs| ensures s'.dbs[n].Keys <= s'.base.Keys {
      if n == |s.dbs| {
        assert s.dbs[n - 1].Keys <= s.base.Keys;
      }
    }
  }

  lemma PublishTxns(s: State)
    requires TxnsOk(s) && CountersOk(s) && Enabled(s, Publish) && CommitRunOk(s)
    ensures TxnsOk(DoPublish(s))
  {
    var s' := DoPublish(s);
    var t := s.inCommit.value.tid;
    assert CommittedAs(s', t, s.txns[t]) by {
      assert CommitRecord(s).writes.Keys == s.txns[t].writes;
    }
    forall u | u in s'.txns ensures TxnOk(s', u) {
      assert TxnOk(s, u);
      forall r ensures WriteAt(s, u, r) ==> WriteAt(s', u, r) {
      }
      TxnFrame(s, s', u);
    }
  }

  lemma PublishReads(s: State)
    requires CountersOk(s) && Enabled(s, Publish) && CommitRunOk(s) && ValidatedOk(s)
    requires TxnOk(s, s.inCommit.value.tid)
    ensures RecordReads(DoPublish(s), |s.log|, CommitRecord(s))
  {
    var s' := DoPublish(s);
    var x := s.txns[s.inCommit.value.tid];
    var rec := CommitRecord(s);
    ScansFrame(s, s', x.readTs - s.origin, x.scans);
    if rec.iso == SERIALIZABLE && rec.writes != map[] {
      assert exists rid :: rid in rec.writes;
      ScansFrame(s, s', |s.log|, x.scans);
    }
  }

  /** A slot some commit after `t`'s snapshot wrote is not one `t` has put its stamp on. */
  lemma StampedAlone(s: State, t: TxnId, rid: Rid, k: nat, wm: Ts)
    requires rid in s.base && RidOk(s, rid, wm) && k < |s.log| && s.lastCommit == s.origin + |s.log|
    requires t in s.txns && s.txns[t].readTs <= s.origin + k && s.lastCommit < s.base[rid].ts
    requires Chain(s, rid) != [] ==> Chain(s, rid)[0].link.txn == t
    ensures rid !in s.log[k].writes
  {
    var c := Chain(s, rid);
    if c != [] {
      assert NodeOk(s, rid, 0, wm) && VersionOk(s, rid, 0);
    } else {
      assert Covered(s, rid, 0, Up(s, rid, 0), None);
    }
  }

  lemma PublishAlone(s: State, wm: Ts)
    requires CountersOk(s) && Enabled(s, Publish) && CommitRunOk(s) && SlotsOk(s, wm)
    ensures NoOverlap(s, |s.log|, CommitRecord(s))
  {
    var t := s.inCommit.value.tid;
    var rec := CommitRecord(s);
    forall j | 0 <= j < |s.log| && rec.readTs <= s.origin + j ensures s.log[j].writes.Keys !! rec.writes.Keys {
      forall rid | rid in rec.writes ensures rid !in s.log[j].writes {
        assert RidOk(s, rid, wm);
        StampedAlone(s, t, rid, j, wm);
      }
    }
  }

  lemma PublishRecord(s: State, wm: Ts)
    requires CountersOk(s) && Enabled(s, Publish) && CommitRunOk(s) && ValidatedOk(s) && SlotsOk(s, wm)
    requires TxnOk(s, s.inCommit.value.tid)
    ensures RecordOk(DoPublish(s), |s.log|, wm)
  {
    var s' := DoPublish(s);
    assert s'.log[|s.log|] == CommitRecord(s);
    PublishReads(s);
    PublishAlone(s, wm);
    assert NoOverlap(s', |s.log|, CommitRecord(s));
    assert SerialStep(s', |s.log|);
  }

  lemma PublishSlots(s: State, wm: Ts)
    requires CountersOk(s) && Enabled(s, Publish) && CommitRunOk(s) && SlotsOk(s, wm)
    ensures SlotsOk(DoPublish(s), wm)
  {
    forall rid | rid in s.base ensures RidOk(DoPublish(s), rid, wm) {
      assert RidOk(s, rid, wm);
      PublishSlot(s, rid, wm, wm);
    }
  }

  lemma PublishLog(s: State, wm: Ts)
    requires CountersOk(s) && Enabled(s, Publish) && CommitRunOk(s) && ValidatedOk(s) && LogOk(s, wm) && SlotsOk(s, wm)
    requires TxnOk(s, s.inCommit.value.tid)
    ensures LogOk(DoPublish(s), wm)
  {
    var s' := DoPublish(s);
    PublishRecord(s, wm);
    forall k | 0 <= k < |s'.log| ensures RecordOk(s', k, wm) {
      if k < |s.log| {
        RecordFrame(s, s', k, wm, wm);
      }
    }
  }

  lemma PublishKeeps(s: State)
    requires Inv(s) && Enabled(s, Publish)
    ensures Keeps(s, DoPublish(s))
  {
    PublishControl(s);
    PublishSlots(s, Watermark(s));
    PublishTxns(s);
    assert TxnOk(s, s.inCommit.value.tid);
    PublishLog(s, Watermark(s));
    Assemble(s, DoPublish(s));
  }
}
