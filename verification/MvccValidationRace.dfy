/** Validation reads a slot's base tuple and head link under the page latch and then walks the undo
    logs after the latch is released. This module compares that split check with one made in a single
    step: they agree unless the transaction that held the slot uncommitted was aborted and collected
    in between, and a run exists in which that makes validation miss a conflict. */
module MvccValidationRace {
  import opened MvccModel
  import opened MvccInvariant
  import opened MvccTheorems

  /** The walk: links as they stood in `s1`, undo logs looked up in `s2`. */
  predicate SplitWalk(s1: State, s2: State, x: Txn, rid: Rid, i: nat)
    decreases |Chain(s1, rid)| - i
  {
    var c := Chain(s1, rid);
    i < |c| && c[i].link.txn in s2.txns && c[i].link.idx < |s2.txns[c[i].link.txn].undo| &&
    var u := s2.txns[c[i].link.txn].undo[c[i].link.idx];
    IsScanTuple(x, rid.oid, Value(u.deleted, u.row)) ||
    (u.ts > x.readTs && SplitWalk(s1, s2, x, rid, i + 1))
  }

  predicate SplitConflicts(s1: State, s2: State, x: Txn, rid: Rid)
    requires rid in s1.base
  {
    if s1.base[rid].ts < TXN_START then
      IsScanTuple(x, rid.oid, BaseValue(s1, rid)) ||
      (s1.base[rid].ts > x.readTs && SplitWalk(s1, s2, x, rid, 0))
    else
      SplitWalk(s1, s2, x, rid, 0)
  }

  /** The slot was not held uncommitted, or its holder is still tracked when the walk happens. */
  predicate HolderKept(s1: State, s2: State, rid: Rid)
    requires rid in s1.base
  {
    s1.base[rid].ts < TXN_START || Chain(s1, rid) == [] || s1.base[rid].ts in s2.txns
  }

  /** The logs a validation needs are still held when it walks: their owners committed after the
      snapshot, which is registered throughout. */
  lemma OwnerKept(s1: State, s2: State, t: TxnId, rid: Rid, i: nat)
    requires Inv(s1) && Inv(s2) && Past(s1, s2) && Open(s1, t) && Open(s2, t) && s1.inCommit.None?
    requires rid in s1.base && HolderKept(s1, s2, rid)
    requires i < |Chain(s1, rid)| && AboveTs(s1, rid, i) > s1.txns[t].readTs
    ensures Chain(s1, rid)[i].link.txn in s1.txns && Chain(s1, rid)[i].link.txn in s2.txns
  {
    var u := Chain(s1, rid)[i].link.txn;
    assert RidOk(s1, rid, Watermark(s1)) && LiveAt(s1, t) && LiveAt(s2, t);
    assert NodeOk(s1, rid, i, Watermark(s1));
    LiveAboveWatermark(s1, t);
    LiveAboveWatermark(s2, t);
    assert TxnOk(s1, u);
    if s1.txns[u].state == COMMITTED {
      var k := s1.txns[u].commitTs - s1.origin - 1;
      assert s2.log[k] == s1.log[k];
      assert RecordOk(s2, k, Watermark(s2));
    } else {
      assert s1.base[rid].ts == u;
    }
  }

  lemma {:induction false} SplitWalkAgrees(s1: State, s2: State, t: TxnId, rid: Rid, i: nat)
    requires Inv(s1) && Inv(s2) && Past(s1, s2) && Open(s1, t) && Open(s2, t) && s1.inCommit.None?
    requires rid in s1.base && HolderKept(s1, s2, rid) && i <= |Chain(s1, rid)|
    requires AboveTs(s1, rid, i) > s1.txns[t].readTs
    ensures SplitWalk(s1, s2, s1.txns[t], rid, i) == WalkConflicts(s1, s1.txns[t], rid, i)
    decreases |Chain(s1, rid)| - i
  {
    var c := Chain(s1, rid);
    if i < |c| {
      OwnerKept(s1, s2, t, rid, i);
      LogKept(s1, s2, rid, i);
      if c[i].ts > s1.txns[t].readTs {
        SplitWalkAgrees(s1, s2, t, rid, i + 1);
      }
    }
  }

  lemma LogKept(s1: State, s2: State, rid: Rid, i: nat)
    requires Inv(s1) && Past(s1, s2) && rid in s1.base && i < |Chain(s1, rid)|
    requires var u := Chain(s1, rid)[i].link.txn; u in s1.txns && u in s2.txns
    ensures var link := Chain(s1, rid)[i].link;
            link.idx < |s2.txns[link.txn].undo| && s2.txns[link.txn].undo[link.idx] == LogFor(s1, rid, i)
  {
    assert RidOk(s1, rid, Watermark(s1));
    assert NodeOk(s1, rid, i, Watermark(s1));
  }

  /** Over every run: while `t` validates, the split check of a slot gives the answer the slot had
      when its base was read, if and only if its uncommitted holder is still tracked or there was no
      conflict to miss. */
  lemma SplitCheckExact(s0: State, run1: seq<Action>, run2: seq<Action>, t: TxnId, rid: Rid)
    requires Init(s0) && IsRun(s0, run1) && IsRun(Final(s0, run1), run2)
    requires Open(Final(s0, run1), t) && Open(Final(Final(s0, run1), run2), t)
    requires Final(s0, run1).inCommit.None? && rid in Final(s0, run1).base
    ensures var s1 := Final(s0, run1);
            var s2 := Final(s1, run2);
            SplitConflicts(s1, s2, s1.txns[t], rid) == RidConflicts(s1, s1.txns[t], rid) <==>
            HolderKept(s1, s2, rid) || !RidConflicts(s1, s1.txns[t], rid)
  {
    InitInv(s0);
    RunKeeps(s0, run1);
    RunKeeps(Final(s0, run1), run2);
    SplitCheckAgrees(Final(s0, run1), Final(Final(s0, run1), run2), t, rid);
  }

  lemma SplitCheckAgrees(s1: State, s2: State, t: TxnId, rid: Rid)
    requires Inv(s1) && Inv(s2) && Past(s1, s2) && Open(s1, t) && Open(s2, t) && s1.inCommit.None?
    requires rid in s1.base
    ensures SplitConflicts(s1, s2, s1.txns[t], rid) == RidConflicts(s1, s1.txns[t], rid) <==>
            HolderKept(s1, s2, rid) || !RidConflicts(s1, s1.txns[t], rid)
  {
    assert TxnOk(s1, t) && RidOk(s1, rid, Watermark(s1));
    if HolderKept(s1, s2, rid) {
      if s1.base[rid].ts > s1.txns[t].readTs {
        SplitWalkAgrees(s1, s2, t, rid, 0);
      }
    } else {
      assert StampOk(s1, rid);
    }
  }
}
