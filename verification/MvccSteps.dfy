/** Every action keeps the invariant and never lowers the watermark. */
module MvccSteps {
  import opened MvccModel
  import opened MvccInvariant
  import opened MvccFrames

  ghost predicate Keeps(s: State, s': State) {
    Inv(s') && Watermark(s) <= Watermark(s')
  }

  /** The bookkeeping half of the invariant. */
  ghost predicate ControlOk(s: State) {
    CountersOk(s) && LiveOk(s) && CommitRunOk(s) && ValidatedOk(s)
  }

  lemma Assemble(s: State, s': State)
    requires Inv(s) && ControlOk(s') && s'.gcMarks <= s.gcMarks && Watermark(s) <= Watermark(s')
    requires TxnsOk(s') && SlotsOk(s', Watermark(s')) && LogOk(s', Watermark(s'))
    ensures Keeps(s, s')
  {
  }

  lemma ValidatedFrame(s: State, s': State)
    requires CountersOk(s) && ValidatedOk(s) && SameHistory(s, s')
    requires s'.inCommit.Some? && !s'.inCommit.value.stage.Published? && s'.inCommit.value.tid in s'.txns ==>
               s.inCommit.Some? && !s.inCommit.value.stage.Published? &&
               s.inCommit.value.tid == s'.inCommit.value.tid && s.inCommit.value.tid in s.txns &&
               var x, x' := s.txns[s.inCommit.value.tid], s'.txns[s'.inCommit.value.tid];
               x'.iso == x.iso && x'.writes == x.writes && x'.scans == x.scans
    ensures ValidatedOk(s')
  {
    if s'.inCommit.Some? && !s'.inCommit.value.stage.Published? && s'.inCommit.value.tid in s'.txns {
      var x := s.txns[s.inCommit.value.tid];
      if x.iso == SERIALIZABLE && x.writes != {} {
        ScansFrame(s, s', |s.log|, x.scans);
      }
    }
  }

  // ---------------------------------------------------------------- begin

  lemma BeginControl(s: State, iso: Isolation)
    requires ControlOk(s)
    ensures ControlOk(DoBegin(s, iso)) && Watermark(s) <= Watermark(DoBegin(s, iso))
  {
    var s' := DoBegin(s, iso);
    WatermarkRises(s, s');
    ValidatedFrame(s, s');
    forall u ensures LiveAt(s', u) {
      assert LiveAt(s, u);
    }
  }

  lemma BeginKeeps(s: State, iso: Isolation)
    requires Inv(s)
    ensures Keeps(s, DoBegin(s, iso))
  {
    var s' := DoBegin(s, iso);
    var wm, wm' := Watermark(s), Watermark(s');
    BeginControl(s, iso);
    assert TxnsCarry(s, s', wm');
    SlotsFrame(s, s', wm, wm');
    TxnsFrame(s, s');
    assert TxnOk(s', s.nextId);
    LogFrame(s, s', wm, wm');
    Assemble(s, s');
  }

  // ---------------------------------------------------------------- statements

  /** A step of one running transaction that only grows it, and leaves the watermark alone. */
  ghost predicate Statement(s: State, s': State, t: TxnId) {
    CanRun(s, t) &&
    s' == s.(txns := s'.txns, base := s'.base, head := s'.head, chain := s'.chain) &&
    s'.txns.Keys == s.txns.Keys && TxnGrows(s.txns[t], s'.txns[t]) &&
    (forall u | u in s.txns && u != t :: s'.txns[u] == s.txns[u]) &&
    s.base.Keys <= s'.base.Keys
  }

  lemma StatementControl(s: State, s': State, t: TxnId)
    requires ControlOk(s) && Statement(s, s', t)
    requires s'.chain.Keys == s'.base.Keys && s'.head.Keys <= s'.base.Keys
    requires s.inCommit.Some? && !s.inCommit.value.stage.Published? ==>
               forall rid | rid in s.base && s.base[rid].ts == s.inCommit.value.ts :: s'.base[rid] == s.base[rid]
    ensures ControlOk(s') && Watermark(s') == Watermark(s)
  {
    forall u ensures LiveAt(s', u) {
      assert LiveAt(s, u);
    }
    if s.inCommit.Some? {
      assert s'.txns[s.inCommit.value.tid] == s.txns[s.inCommit.value.tid];
    }
    ValidatedFrame(s, s');
    WatermarkOldest(s);
    WatermarkOldest(s');
  }

  /** The other transactions are not disturbed by a statement on `rid`. */
  lemma OthersKeep(s: State, s': State, t: TxnId, rid: Rid)
    requires TxnsOk(s) && Statement(s, s', t)
    requires forall r | r in s.base && r != rid :: s'.base[r] == s.base[r]
    requires forall u | u in s.txns && u != t && WriteAt(s, u, rid) :: WriteAt(s', u, rid)
    ensures forall u | u in s.txns && u != t :: TxnOk(s', u)
  {
    forall u | u in s.txns && u != t ensures TxnOk(s', u) {
      assert TxnOk(s, u);
      forall r ensures WriteAt(s, u, r) ==> WriteAt(s', u, r) {
      }
      TxnFrame(s, s', u);
    }
  }

  lemma StatementSlots(s: State, s': State, t: TxnId, rid: Rid, wm: Ts)
    requires SlotsOk(s, wm) && Statement(s, s', t) && CommitRunOk(s)
    requires forall u | u in s.txns :: u < s.nextId
    requires forall r | r in s'.base && r != rid :: SameSlot(s, s', r)
    requires rid in s'.base ==> RidOk(s', rid, wm)
    ensures SlotsOk(s', wm)
  {
    assert TxnsCarry(s, s', wm);
    SlotsFrame(s, s', wm, wm);
  }

  lemma StatementKeeps(s: State, s': State, t: TxnId)
    requires Inv(s) && Statement(s, s', t) && ControlOk(s') && Watermark(s') == Watermark(s)
    requires SlotsOk(s', Watermark(s')) && TxnOk(s', t)
    requires forall u | u in s.txns && u != t :: TxnOk(s', u)
    ensures Keeps(s, s')
  {
    assert TxnsCarry(s, s', Watermark(s));
    LogFrame(s, s', Watermark(s), Watermark(s));
    Assemble(s, s');
  }

  /** A slot without a base tuple never had a value. */
  lemma NeverHeld(s: State, rid: Rid)
    requires Inv(s) && rid !in s.base
    ensures Covered(s, rid, 0, s.lastCommit + 1, None)
  {
    forall r | s.origin <= r < s.lastCommit + 1 ensures At(s, r, rid) == None {
      assert s.dbs[r - s.origin].Keys <= s.base.Keys;
    }
    forall k | 0 <= k < |s.log| ensures rid !in s.log[k].writes {
      assert RecordOk(s, k, Watermark(s));
    }
  }

  /** A transaction that has just put its stamp on `rid` is good. */
  lemma WriterOk(s: State, s': State, t: TxnId, rid: Rid)
    requires Statement(s, s', t) && TxnOk(s, t) && rid in s'.base && s'.base[rid].ts == t
    requires s'.txns[t].writes == s.txns[t].writes + {rid} && s'.txns[t].scans == s.txns[t].scans
    requires s'.txns[t].state == RUNNING
    requires forall r | r in s'.base && r != rid :: SameSlot(s, s', r)
    ensures TxnOk(s', t)
  {
    forall r ensures WriteAt(s', t, r) {
      assert WriteAt(s, t, r);
    }
    ScansFrame(s, s', s.txns[t].readTs - s.origin, s.txns[t].scans);
  }

  /** A statement that puts the transaction's stamp on `rid` and touches no other slot. */
  ghost predicate StampsSlot(s: State, s': State, t: TxnId, rid: Rid) {
    && Statement(s, s', t) && s'.chain.Keys == s'.base.Keys && s'.head.Keys <= s'.base.Keys
    && rid in s'.base && s'.base[rid].ts == t && (forall r | r in s'.base && r != rid :: SameSlot(s, s', r))
    && s'.txns[t].writes == s.txns[t].writes + {rid} && s'.txns[t].scans == s.txns[t].scans
    && s'.txns[t].state == RUNNING
  }

  /** Nobody else's uncommitted write is on the slot. */
  lemma OthersOffSlot(s: State, s': State, t: TxnId, rid: Rid, u: TxnId)
    requires StampsSlot(s, s', t, rid) && CountersOk(s) && TxnOk(s, t) && u in s.txns && u != t && WriteAt(s, u, rid)
    requires rid in s.base ==> s.base[rid].ts == t || s.base[rid].ts <= s.txns[t].readTs
    ensures WriteAt(s', u, rid)
  {
  }

  lemma WriteControl(s: State, s': State, t: TxnId, rid: Rid)
    requires ControlOk(s) && StampsSlot(s, s', t, rid) && s.origin <= s.txns[t].readTs <= s.lastCommit
    requires rid in s.base ==> s.base[rid].ts == t || s.base[rid].ts <= s.txns[t].readTs
    ensures ControlOk(s') && Watermark(s') == Watermark(s)
  {
    StatementControl(s, s', t);
  }

  /** Such a statement keeps the invariant once the slot itself is good. */
  lemma WriteKeeps(s: State, s': State, t: TxnId, rid: Rid)
    requires Inv(s) && StampsSlot(s, s', t, rid) && RidOk(s', rid, Watermark(s))
    requires rid in s.base ==> s.base[rid].ts == t || s.base[rid].ts <= s.txns[t].readTs
    ensures Keeps(s, s')
  {
    assert TxnOk(s, t);
    forall u | u in s.txns && u != t && WriteAt(s, u, rid) ensures WriteAt(s', u, rid) {
      OthersOffSlot(s, s', t, rid, u);
    }
    hide RidOk, Watermark, LiveOk, ValidatedOk, RecordOk;
    WriteControl(s, s', t, rid);
    WriterOk(s, s', t, rid);
    StatementSlots(s, s', t, rid, Watermark(s));
    OthersKeep(s, s', t, rid);
    StatementKeeps(s, s', t);
  }

  lemma InsertShape(s: State, t: TxnId, rid: Rid, row: Row)
    requires CountersOk(s) && CanRun(s, t) && rid !in s.base
    ensures StampsSlot(s, DoInsert(s, t, rid, row), t, rid) && SameHistory(s, DoInsert(s, t, rid, row))
  {
  }

  lemma InsertSlot(s: State, t: TxnId, rid: Rid, row: Row)
    requires Inv(s) && CanRun(s, t) && rid !in s.base
    ensures RidOk(DoInsert(s, t, rid, row), rid, Watermark(s))
  {
    var s' := DoInsert(s, t, rid, row);
    NeverHeld(s, rid);
    CoveredFrame(s, s', rid, 0, s.lastCommit + 1, None);
  }

  lemma InsertKeeps(s: State, t: TxnId, rid: Rid, row: Row)
    requires Inv(s) && Enabled(s, Insert(t, rid, row))
    ensures Keeps(s, DoInsert(s, t, rid, row))
  {
    hide DoInsert, StampsSlot, RidOk, Keeps;
    InsertShape(s, t, rid, row);
    InsertSlot(s, t, rid, row);
    WriteKeeps(s, DoInsert(s, t, rid, row), t, rid);
  }

  /** Overwriting one's own uncommitted version in place. */
  lemma OverwriteSlot(s: State, s': State, t: TxnId, rid: Rid, wm: Ts)
    requires Statement(s, s', t) && rid in s.base && RidOk(s, rid, wm) && s.lastCommit < TXN_START
    requires s.base[rid].ts == t >= TXN_START && s'.base[rid].ts == t
    requires s'.head == s.head && s'.chain == s.chain && s'.txns[t].state == RUNNING
    ensures RidOk(s', rid, wm)
  {
    var c := Chain(s, rid);
    forall i | 0 <= i < |c| ensures VersionOk(s', rid, i) && NodeOk(s', rid, i, wm) {
      OverwriteVersion(s, s', t, rid, wm, i);
    }
    CoveredFrame(s, s', rid, 0, Up(s, rid, |c|), None);
    hide VersionOk, NodeOk, Covered;
  }

  lemma OverwriteVersion(s: State, s': State, t: TxnId, rid: Rid, wm: Ts, i: nat)
    requires Statement(s, s', t) && rid in s.base && RidOk(s, rid, wm) && s.lastCommit < TXN_START
    requires s.base[rid].ts == t >= TXN_START && s'.base[rid].ts == t
    requires s'.head == s.head && s'.chain == s.chain && s'.txns[t].state == RUNNING && i < |Chain(s, rid)|
    ensures VersionOk(s', rid, i) && NodeOk(s', rid, i, wm)
  {
    var c := Chain(s, rid);
    assert VersionOk(s, rid, i) && NodeOk(s, rid, i, wm);
    CoveredFrame(s, s', rid, c[i].ts, Up(s, rid, i), Value(c[i].deleted, c[i].row));
    assert AboveTs(s', rid, i) == AboveTs(s, rid, i) && LogFor(s', rid, i) == LogFor(s, rid, i);
  }

  /** Filing the version that was read and putting an uncommitted one on top. */
  lemma FileNode(s: State, t: TxnId, rid: Rid, delete: bool, row: Row, wm: Ts, i: nat)
    requires CanRun(s, t) && rid in s.base && RidOk(s, rid, wm) && TxnOk(s, t) && CommitRunOk(s)
    requires TXN_START <= t < s.nextId
    requires s.base[rid].ts != t && s.base[rid].ts <= s.txns[t].readTs && s.lastCommit < TXN_START
    requires i <= |Chain(s, rid)|
    ensures NodeOk(DoModify(s, t, rid, delete, row), rid, i, wm)
  {
    var s' := DoModify(s, t, rid, delete, row);
    assert Chain(s', rid) == [Chain(s', rid)[0]] + Chain(s, rid);
    if i > 0 {
      assert NodeOk(s, rid, i - 1, wm);
      assert AboveTs(s', rid, i) == AboveTs(s, rid, i - 1);
      assert LogFor(s', rid, i) == LogFor(s, rid, i - 1);
    }
  }

  lemma FileVersions(s: State, t: TxnId, rid: Rid, delete: bool, row: Row)
    requires CanRun(s, t) && rid in s.base && VersionsOk(s, rid) && TXN_START <= t
    requires s.base[rid].ts != t && s.base[rid].ts <= s.txns[t].readTs <= s.lastCommit < TXN_START
    ensures VersionsOk(DoModify(s, t, rid, delete, row), rid)
  {
    hide Covered, Committing, SameHistory, At;
    var s' := DoModify(s, t, rid, delete, row);
    var c, c' := Chain(s, rid), Chain(s', rid);
    assert c' == [c'[0]] + c;
    CoveredFrame(s, s', rid, s.base[rid].ts, s.lastCommit + 1, BaseValue(s, rid));
    forall i | 0 <= i < |c'| ensures VersionOk(s', rid, i) {
      if i > 0 {
        assert VersionOk(s, rid, i - 1);
        assert Up(s', rid, i) == Up(s, rid, i - 1);
        CoveredFrame(s, s', rid, c[i - 1].ts, Up(s, rid, i - 1), Value(c[i - 1].deleted, c[i - 1].row));
      }
    }
    assert Up(s', rid, |c'|) == Up(s, rid, |c|);
    CoveredFrame(s, s', rid, 0, Up(s, rid, |c|), None);
  }

  lemma FileSlot(s: State, t: TxnId, rid: Rid, delete: bool, row: Row, wm: Ts)
    requires CanRun(s, t) && rid in s.base && RidOk(s, rid, wm) && TxnOk(s, t) && CommitRunOk(s)
    requires TXN_START <= t < s.nextId
    requires s.base[rid].ts != t && s.base[rid].ts <= s.txns[t].readTs && s.lastCommit < TXN_START
    ensures RidOk(DoModify(s, t, rid, delete, row), rid, wm)
  {
    var s' := DoModify(s, t, rid, delete, row);
    forall i | 0 <= i < |Chain(s', rid)| ensures NodeOk(s', rid, i, wm) {
      FileNode(s, t, rid, delete, row, wm, i);
    }
    FileVersions(s, t, rid, delete, row);
    assert StampOk(s', rid);
  }

  /** A step that only grows the running transaction itself. */
  lemma TxnOnlyKeeps(s: State, t: TxnId, x': Txn)
    requires Inv(s) && CanRun(s, t) && TxnGrows(s.txns[t], x') && x'.writes == s.txns[t].writes
    requires s.origin <= x'.readTs
    requires ScansOk(s, x'.readTs - s.origin, x'.scans)
    ensures Keeps(s, s.(txns := s.txns[t := x']))
  {
    var s' := s.(txns := s.txns[t := x']);
    var wm := Watermark(s);
    StatementControl(s, s', t);
    TxnOnlySlots(s, t, x', wm);
    TxnOnlyTxn(s, t, x');
    OthersKeep(s, s', t, Rid(0, 0));
    StatementKeeps(s, s', t);
  }

  lemma TxnOnlyTxn(s: State, t: TxnId, x': Txn)
    requires CanRun(s, t) && TxnOk(s, t) && TxnGrows(s.txns[t], x') && x'.writes == s.txns[t].writes
    requires s.origin <= x'.readTs
    requires ScansOk(s, x'.readTs - s.origin, x'.scans)
    ensures TxnOk(s.(txns := s.txns[t := x']), t)
  {
    var s' := s.(txns := s.txns[t := x']);
    forall r ensures WriteAt(s', t, r) {
      assert WriteAt(s, t, r);
    }
    ScansFrame(s, s', x'.readTs - s.origin, x'.scans);
  }

  lemma TxnOnlySlots(s: State, t: TxnId, x': Txn, wm: Ts)
    requires SlotsOk(s, wm) && CanRun(s, t) && TxnGrows(s.txns[t], x')
    requires forall u | u in s.txns :: u < s.nextId
    requires s.inCommit.Some? ==> s.inCommit.value.tid in s.txns
    ensures SlotsOk(s.(txns := s.txns[t := x']), wm)
    ensures forall rid | rid in s.base :: SameSlot(s, s.(txns := s.txns[t := x']), rid)
  {
    var s' := s.(txns := s.txns[t := x']);
    assert TxnsCarry(s, s', wm);
    SlotsFrame(s, s', wm, wm);
    assert forall rid | rid in s.base :: SameSlot(s, s', rid);
  }

  lemma OverwriteShape(s: State, t: TxnId, rid: Rid, delete: bool, row: Row)
    requires CountersOk(s) && CanRun(s, t) && rid in s.base && s.base[rid].ts == t
    ensures StampsSlot(s, DoModify(s, t, rid, delete, row), t, rid)
  {
  }

  lemma FileShape(s: State, t: TxnId, rid: Rid, delete: bool, row: Row)
    requires CountersOk(s) && CanRun(s, t) && rid in s.base && s.base[rid].ts != t && s.base[rid].ts <= s.txns[t].readTs
    ensures StampsSlot(s, DoModify(s, t, rid, delete, row), t, rid)
  {
  }

  lemma OverwriteKeeps(s: State, t: TxnId, rid: Rid, delete: bool, row: Row)
    requires Inv(s) && CanRun(s, t) && rid in s.base && s.base[rid].ts == t
    ensures Keeps(s, DoModify(s, t, rid, delete, row))
  {
    var s' := DoModify(s, t, rid, delete, row);
    assert RidOk(s, rid, Watermark(s));
    OverwriteShape(s, t, rid, delete, row);
    OverwriteSlot(s, s', t, rid, Watermark(s));
    hide DoModify, StampsSlot, RidOk, Keeps;
    WriteKeeps(s, s', t, rid);
  }

  lemma FileKeeps(s: State, t: TxnId, rid: Rid, delete: bool, row: Row)
    requires Inv(s) && CanRun(s, t) && rid in s.base && s.base[rid].ts != t && s.base[rid].ts <= s.txns[t].readTs
    ensures Keeps(s, DoModify(s, t, rid, delete, row))
  {
    hide DoModify, StampsSlot, Keeps;
    var s' := DoModify(s, t, rid, delete, row);
    assert TxnOk(s, t) && RidOk(s, rid, Watermark(s));
    hide RidOk, TxnOk;
    FileShape(s, t, rid, delete, row);
    FileSlot(s, t, rid, delete, row, Watermark(s));
    WriteKeeps(s, s', t, rid);
  }

  lemma ModifyKeeps(s: State, t: TxnId, rid: Rid, delete: bool, row: Row)
    requires Inv(s) && Enabled(s, Modify(t, rid, delete, row))
    ensures Keeps(s, DoModify(s, t, rid, delete, row))
  {
    if s.base[rid].ts == t {
      OverwriteKeeps(s, t, rid, delete, row);
    } else if s.base[rid].ts <= s.txns[t].readTs {
      FileKeeps(s, t, rid, delete, row);
    } else {
      assert TxnOk(s, t);
      TxnOnlyKeeps(s, t, s.txns[t].(state := TAINTED));
    }
  }

  /** A scan records exactly what its snapshot selects. */
  lemma ReadOk(s: State, t: TxnId, oid: nat, pred: Row -> bool)
    requires Inv(s) && CanRun(s, t)
    ensures var r := s.txns[t].readTs;
            s.origin <= r < s.origin + |s.dbs| &&
            ScanResult(s, t, oid, pred) == SelectRows(oid, pred, Overlay(DbAt(s, r), OwnWrites(s, t)))
  {
    var r := s.txns[t].readTs;
    assert TxnOk(s, t);
    var view := Overlay(DbAt(s, r), OwnWrites(s, t));
    var result, expected := ScanResult(s, t, oid, pred), SelectRows(oid, pred, view);
    forall rid ensures Get(result, rid) == Get(expected, rid) {
      VisibleIsSnapshot(s, t, rid);
      assert Get(view, rid) == Visible(s, t, rid);
    }
    SameDb(result, expected);
  }

  lemma SameDb(a: Db, b: Db)
    requires forall rid :: Get(a, rid) == Get(b, rid)
    ensures a == b
  {
    forall rid ensures rid in a <==> rid in b {
      assert Get(a, rid) == Get(b, rid);
    }
    forall rid | rid in a ensures a[rid] == b[rid] {
      assert Get(a, rid) == Get(b, rid);
    }
  }

  lemma ReadKeeps(s: State, t: TxnId, oid: nat, pred: Row -> bool)
    requires Inv(s) && CanRun(s, t)
    ensures Keeps(s, DoRead(s, t, oid, pred))
  {
    var x, x' := s.txns[t], DoRead(s, t, oid, pred).txns[t];
    assert TxnOk(s, t);
    ReadOk(s, t, oid, pred);
    forall j | 0 <= j < |x'.scans| ensures ScanOk(s, x.readTs - s.origin, x'.scans[j]) {
      if j < |x.scans| {
        assert ScanOk(s, x.readTs - s.origin, x.scans[j]);
      }
    }
    TxnOnlyKeeps(s, t, x');
  }
}
