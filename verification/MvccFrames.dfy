/** What carries over from one state to the next when an action leaves a slot, a transaction or a
    commit record alone. */
module MvccFrames {
  import opened MvccModel
  import opened MvccInvariant

  ghost predicate SameHistory(s: State, s': State) {
    s'.origin == s.origin && s'.lastCommit == s.lastCommit && s'.dbs == s.dbs && s'.log == s.log
  }

  ghost predicate HistoryExtends(s: State, s': State) {
    s'.origin == s.origin && s.lastCommit <= s'.lastCommit && s.dbs <= s'.dbs && s.log <= s'.log
  }

  predicate SameSlot(s: State, s': State, rid: Rid) {
    rid in s.base && rid in s'.base && s'.base[rid] == s.base[rid] && Chain(s', rid) == Chain(s, rid) &&
    (rid in s'.head <==> rid in s.head) && (rid in s.head ==> s'.head[rid] == s.head[rid])
  }

  /** A transaction may gain undo logs, writes and scans, and may be tainted. */
  predicate TxnGrows(x: Txn, x': Txn) {
    x.undo <= x'.undo && x.writes <= x'.writes && x'.commitTs == x.commitTs && x'.readTs == x.readTs &&
    x'.iso == x.iso && (x'.state == x.state || (x.state == RUNNING && x'.state == TAINTED))
  }

  /** Tracked transactions only grow, or are dropped when collectible; new ones have new ids. */
  ghost predicate TxnsCarry(s: State, s': State, mark: Ts) {
    s.nextId <= s'.nextId &&
    (forall u | u in s'.txns && u < s.nextId :: u in s.txns) &&
    (forall u | u in s.txns :: if u in s'.txns then TxnGrows(s.txns[u], s'.txns[u])
                               else Collectible(s.txns[u], mark))
  }

  /** No writer of `rid` settles it in the step. */
  ghost predicate WritersCarry(s: State, s': State, rid: Rid) {
    (forall u | Unsettled(s, u, rid) :: Unsettled(s', u, rid)) &&
    (forall u | Stamped(s, u, rid) :: Stamped(s', u, rid) && s'.inCommit.value.ts == s.inCommit.value.ts)
  }

  lemma VersionsFrame(s: State, s': State, rid: Rid)
    requires SameHistory(s, s') && SameSlot(s, s', rid) && VersionsOk(s, rid)
    ensures VersionsOk(s', rid)
  {
    var c := Chain(s, rid);
    if IsPublished(s, rid) {
      CoveredFrame(s, s', rid, s.base[rid].ts, s.lastCommit + 1, BaseValue(s, rid));
    }
    forall i | 0 <= i < |c| ensures VersionOk(s', rid, i) {
      assert VersionOk(s, rid, i);
      CoveredFrame(s, s', rid, c[i].ts, Up(s, rid, i), Value(c[i].deleted, c[i].row));
    }
    CoveredFrame(s, s', rid, 0, Up(s, rid, |c|), None);
  }

  lemma CoveredFrame(s: State, s': State, rid: Rid, lo: Ts, hi: Ts, v: Option<Row>)
    requires SameHistory(s, s') && |s.dbs| == s.lastCommit - s.origin + 1 && hi <= s.lastCommit + 1
    requires Covered(s, rid, lo, hi, v)
    ensures Covered(s', rid, lo, hi, v)
  {
    forall t | s.origin <= t < hi && lo <= t ensures At(s', t, rid) == v {
      assert At(s, t, rid) == v;
    }
  }

  lemma NodeFrame(s: State, s': State, rid: Rid, i: nat, wm: Ts, wm': Ts)
    requires SameSlot(s, s', rid) && i < |Chain(s, rid)| && NodeOk(s, rid, i, wm)
    requires wm <= wm' && TxnsCarry(s, s', wm') && WritersCarry(s, s', rid)
    ensures NodeOk(s', rid, i, wm')
  {
    var u := Chain(s, rid)[i].link.txn;
    assert AboveTs(s', rid, i) == AboveTs(s, rid, i);
    assert LogFor(s', rid, i) == LogFor(s, rid, i);
    if u in s.txns && u in s'.txns {
      assert TxnGrows(s.txns[u], s'.txns[u]);
    }
  }

  lemma RidFrame(s: State, s': State, rid: Rid, wm: Ts, wm': Ts)
    requires SameHistory(s, s') && SameSlot(s, s', rid) && RidOk(s, rid, wm)
    requires wm <= wm' && TxnsCarry(s, s', wm') && WritersCarry(s, s', rid)
    ensures RidOk(s', rid, wm')
  {
    VersionsFrame(s, s', rid);
    forall i | 0 <= i < |Chain(s', rid)| ensures NodeOk(s', rid, i, wm') {
      NodeFrame(s, s', rid, i, wm, wm');
    }
    assert StampOk(s', rid);
  }

  lemma ScansFrame(s: State, s': State, n: nat, scans: seq<Scan>)
    requires s.dbs <= s'.dbs && ScansOk(s, n, scans)
    ensures ScansOk(s', n, scans)
  {
    forall j | 0 <= j < |scans| ensures ScanOk(s', n, scans[j]) {
      assert ScanOk(s, n, scans[j]);
    }
  }

  lemma TxnFrame(s: State, s': State, u: TxnId)
    requires u in s.txns && u in s'.txns && s'.txns[u] == s.txns[u] && TxnOk(s, u)
    requires HistoryExtends(s, s') && s.nextId <= s'.nextId && s.base.Keys <= s'.base.Keys
    requires forall rid :: WriteAt(s, u, rid) ==> WriteAt(s', u, rid)
    requires Committing(s, u) && !s.inCommit.value.stage.Published? && s.txns[u].state == COMMITTED ==>
               (Committing(s', u) && !s'.inCommit.value.stage.Published?) || CommittedAs(s', u, s.txns[u])
    ensures TxnOk(s', u)
  {
    var x := s.txns[u];
    forall rid ensures WriteAt(s', u, rid) {
      assert WriteAt(s, u, rid);
    }
    ScansFrame(s, s', x.readTs - s.origin, x.scans);
  }

  lemma RecordFrame(s: State, s': State, k: nat, wm: Ts, wm': Ts)
    requires k < |s.log| && |s.dbs| == |s.log| + 1 && |s'.dbs| == |s'.log| + 1
    requires RecordOk(s, k, wm) && wm <= wm' && HistoryExtends(s, s') && s.base.Keys <= s'.base.Keys
    requires forall u | u in s.txns && s.txns[u].state == COMMITTED && s.txns[u].commitTs > wm' ::
               u in s'.txns && s'.txns[u].state == COMMITTED && s'.txns[u].commitTs == s.txns[u].commitTs
    ensures RecordOk(s', k, wm')
  {
    var rec := s.log[k];
    assert SerialStep(s, k);
    assert s'.dbs[k + 1] == s.dbs[k + 1];
    ScansFrame(s, s', rec.readTs - s.origin, rec.scans);
    if rec.iso == SERIALIZABLE && rec.writes != map[] {
      ScansFrame(s, s', k, rec.scans);
    }
  }

  /** Registering at the newest timestamp, or dropping a registration, never lowers the watermark. */
  lemma WatermarkRises(s: State, s': State)
    requires LiveOk(s)
    requires forall t | t in s'.live :: (t in s.live && s'.live[t] == s.live[t]) || s'.live[t] >= s.lastCommit
    requires s'.live == map[] ==> s'.wmCommit >= s.wmCommit && (s.live == map[] || s'.wmCommit >= s.lastCommit)
    ensures Watermark(s) <= Watermark(s')
  {
    WatermarkOldest(s);
    WatermarkOldest(s');
    if s'.live != map[] {
      var t :| t in s'.live && s'.live[t] == Watermark(s');
      if s.live != map[] && !(t in s.live && s'.live[t] == s.live[t]) {
        var u :| u in s.live && s.live[u] == Watermark(s);
        assert LiveAt(s, u);
      }
    } else if s.live != map[] {
      var u :| u in s.live && s.live[u] == Watermark(s);
      assert LiveAt(s, u);
    }
  }

  // ---------------------------------------------------------------- all slots, all transactions

  ghost predicate SlotsOk(s: State, wm: Ts) {
    forall rid {:trigger RidOk(s, rid, wm)} | rid in s.base :: RidOk(s, rid, wm)
  }

  ghost predicate TxnsOk(s: State) {
    forall t {:trigger TxnOk(s, t)} | t in s.txns :: TxnOk(s, t)
  }

  ghost predicate LogOk(s: State, wm: Ts) {
    forall k | 0 <= k < |s.log| :: RecordOk(s, k, wm)
  }

  predicate SameControl(s: State, s': State) {
    s'.aborting == s.aborting && s'.inCommit == s.inCommit &&
    (s.inCommit.Some? ==> s.inCommit.value.tid in s'.txns)
  }

  lemma WritersCarryOn(s: State, s': State, rid: Rid, mark: Ts)
    requires TxnsCarry(s, s', mark) && SameControl(s, s')
    ensures WritersCarry(s, s', rid)
  {
    forall u | Unsettled(s, u, rid) ensures Unsettled(s', u, rid) {
      assert u in s.txns;
    }
    forall u | Stamped(s, u, rid) ensures Stamped(s', u, rid) && s'.inCommit.value.ts == s.inCommit.value.ts {
      assert u in s.txns;
    }
  }

  /** Slots the step does not touch stay good. */
  lemma SlotsFrame(s: State, s': State, wm: Ts, wm': Ts)
    requires SlotsOk(s, wm) && SameHistory(s, s') && SameControl(s, s')
    requires wm <= wm' && TxnsCarry(s, s', wm')
    ensures forall rid | rid in s.base && SameSlot(s, s', rid) :: RidOk(s', rid, wm')
  {
    forall rid | rid in s.base && SameSlot(s, s', rid) ensures RidOk(s', rid, wm') {
      WritersCarryOn(s, s', rid, wm');
      RidFrame(s, s', rid, wm, wm');
    }
  }

  /** Transactions the step does not touch stay good. */
  lemma TxnsFrame(s: State, s': State)
    requires TxnsOk(s) && SameHistory(s, s') && SameControl(s, s')
    requires s.nextId <= s'.nextId && s.base.Keys <= s'.base.Keys
    requires forall u, rid | u in s.txns && u in s'.txns && s'.txns[u] == s.txns[u] && WriteAt(s, u, rid) ::
               WriteAt(s', u, rid)
    ensures forall u | u in s.txns && u in s'.txns && s'.txns[u] == s.txns[u] :: TxnOk(s', u)
  {
    forall u | u in s.txns && u in s'.txns && s'.txns[u] == s.txns[u] ensures TxnOk(s', u) {
      TxnFrame(s, s', u);
    }
  }

  lemma LogFrame(s: State, s': State, wm: Ts, wm': Ts)
    requires LogOk(s, wm) && SameHistory(s, s') && |s.dbs| == |s.log| + 1 && s.base.Keys <= s'.base.Keys
    requires wm <= wm' && TxnsCarry(s, s', wm')
    ensures LogOk(s', wm')
  {
    forall k | 0 <= k < |s'.log| ensures RecordOk(s', k, wm') {
      RecordFrame(s, s', k, wm, wm');
    }
  }
}
