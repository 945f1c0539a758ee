/** What transactions write is what they read back, what is published, and nothing else: the store agrees
    with a ledger kept from the statements alone. */
module MvccWrites {
  import opened MvccModel
  import opened MvccInvariant
  import opened MvccTheorems

  // ---------------------------------------------------------------- one statement

  /** The walk looks at the slot's versions and at who is tracked. */
  lemma {:induction false} SameWalk(s: State, s': State, rid: Rid, i: nat, r: Ts)
    requires Chain(s', rid) == Chain(s, rid) && s'.txns.Keys == s.txns.Keys
    ensures WalkFrom(s', rid, i, r) == WalkFrom(s, rid, i, r)
    decreases |Chain(s, rid)| - i
  {
    if i < |Chain(s, rid)| {
      SameWalk(s, s', rid, i + 1, r);
    }
  }

  /** A statement of `t` on one slot leaves what `t` sees in another. */
  lemma SameElsewhere(s: State, s': State, t: TxnId, rid: Rid, other: Rid)
    requires t in s.txns && other != rid && s'.txns.Keys == s.txns.Keys && s'.txns[t].readTs == s.txns[t].readTs
    requires other in s'.base <==> other in s.base
    requires other in s.base ==> s'.base[other] == s.base[other]
    requires Chain(s', other) == Chain(s, other)
    ensures Visible(s', t, other) == Visible(s, t, other)
  {
    SameWalk(s, s', other, 0, s.txns[t].readTs);
  }

  /** A transaction sees the row it inserted, and everything else as before. */
  lemma InsertShows(s: State, t: TxnId, rid: Rid, row: Row, other: Rid)
    requires CanRun(s, t) && rid !in s.base
    ensures var s' := DoInsert(s, t, rid, row);
            Visible(s', t, rid) == Some(row) && (other != rid ==> Visible(s', t, other) == Visible(s, t, other))
  {
    if other != rid {
      SameElsewhere(s, DoInsert(s, t, rid, row), t, rid, other);
    }
  }

  /** An update that goes through shows the new row and a delete none, to the transaction itself; everything
      else it sees as before. One that does not changes nothing it sees. */
  lemma ModifyShows(s: State, t: TxnId, rid: Rid, delete: bool, row: Row, other: Rid)
    requires CanRun(s, t) && rid in s.base
    ensures var s' := DoModify(s, t, rid, delete, row);
            && (s'.txns[t].state == RUNNING ==> Visible(s', t, rid) == if delete then None else Some(row))
            && (s'.txns[t].state == TAINTED ==> Visible(s', t, rid) == Visible(s, t, rid))
            && (other != rid ==> Visible(s', t, other) == Visible(s, t, other))
  {
    var s' := DoModify(s, t, rid, delete, row);
    ModifyParts(s, t, rid, delete, row);
    hide DoModify, WalkFrom, Chain, CanRun;
    if s'.txns[t].state == TAINTED {
      SameWalk(s, s', rid, 0, s.txns[t].readTs);
    }
    if other != rid {
      SameElsewhere(s, s', t, rid, other);
    }
  }

  /** What a modification leaves alone, and what it puts into the slot. */
  lemma ModifyParts(s: State, t: TxnId, rid: Rid, delete: bool, row: Row)
    requires CanRun(s, t) && rid in s.base
    ensures var s' := DoModify(s, t, rid, delete, row);
            && s'.txns.Keys == s.txns.Keys && s'.txns[t].readTs == s.txns[t].readTs
            && s'.base.Keys == s.base.Keys && s'.base == s.base[rid := s'.base[rid]]
            && (forall other | other != rid :: Chain(s', other) == Chain(s, other))
            && (s'.txns[t].state == RUNNING ==> s'.base[rid].ts == t)
            && (s'.txns[t].state == RUNNING ==> BaseValue(s', rid) == if delete then None else Some(row))
            && (s'.txns[t].state == TAINTED ==> s'.base == s.base && Chain(s', rid) == Chain(s, rid))
  {
    var was, x := s.base[rid], s.txns[t];
    if was.ts == t {
    } else if was.ts <= x.readTs {
    } else {
    }
  }

  lemma ModifyShowsAll(s: State, t: TxnId, rid: Rid, delete: bool, row: Row)
    requires CanRun(s, t) && rid in s.base
    ensures var s' := DoModify(s, t, rid, delete, row);
            && (s'.txns[t].state == RUNNING ==> Visible(s', t, rid) == if delete then None else Some(row))
            && forall other | other != rid :: Visible(s', t, other) == Visible(s, t, other)
  {
    ModifyParts(s, t, rid, delete, row);
    hide DoModify, Visible;
    ModifyShows(s, t, rid, delete, row, rid);
    forall other | other != rid
      ensures Visible(DoModify(s, t, rid, delete, row), t, other) == Visible(s, t, other)
    {
      ModifyShows(s, t, rid, delete, row, other);
    }
  }

  // ---------------------------------------------------------------- the ledger

  /** What a statement adds to the writes of `t`: an inserted row, an updated row or a deletion, unless
      another transaction has overtaken the slot. */
  ghost function Noted(s: State, a: Action, t: TxnId, w: Writes): Writes {
    match a
    case Insert(u, rid, row) => if u == t then w[rid := Some(row)] else w
    case Modify(u, rid, delete, row) =>
      if u == t && t in s.txns && !Overtaken(s, t, rid) then w[rid := if delete then None else Some(row)] else w
    case _ => w
  }

  /** The writes of `t` over a run, the last one of each slot. */
  ghost function Ledger(s: State, run: seq<Action>, t: TxnId, w: Writes): Writes
    requires IsRun(s, run)
    decreases |run|
  {
    if run == [] then w else Ledger(Apply(s, run[0]), run[1..], t, Noted(s, run[0], t, w))
  }

  /** Its writes stand in the store, stamped or not, and are not published yet. */
  predicate Pending(s: State, t: TxnId) {
    t in s.txns &&
    ((s.txns[t].state in {RUNNING, TAINTED} && t !in s.aborting) ||
     (Committing(s, t) && !s.inCommit.value.stage.Published?))
  }

  predicate StandsAt(s: State, w: Writes, rid: Rid)
    requires rid in w
  {
    rid in s.base && BaseValue(s, rid) == w[rid]
  }

  ghost predicate Stands(s: State, t: TxnId, w: Writes)
    requires t in s.txns
  {
    w.Keys == s.txns[t].writes && forall rid | rid in w :: StandsAt(s, w, rid)
  }

  /** The records of `t` hold the ledger; it has at most one, and none while it is unfinished. */
  ghost predicate Recorded(s: State, t: TxnId, w: Writes) {
    forall k | 0 <= k < |s.log| && s.log[k].tid == t ::
      s.log[k].writes == w && t < s.nextId && !Pending(s, t) && !(t in s.txns && s.txns[t].state in {RUNNING, TAINTED})
  }

  ghost predicate Agrees(s: State, t: TxnId, w: Writes) {
    (t >= s.nextId ==> w == map[]) && (Pending(s, t) ==> Stands(s, t, w)) && Recorded(s, t, w)
  }

  // ---------------------------------------------------------------- every step keeps them in agreement

  /** A pending write carries its writer's stamp, or the timestamp being committed. */
  lemma HeldByWriter(s: State, t: TxnId, rid: Rid)
    requires Inv(s) && Pending(s, t) && rid in s.txns[t].writes
    ensures rid in s.base && (s.base[rid].ts == t || (Committing(s, t) && s.base[rid].ts == s.lastCommit + 1))
    ensures t >= TXN_START > s.lastCommit + 1 || !Committing(s, t)
  {
    assert TxnOk(s, t) && WriteAt(s, t, rid);
  }

  /** Another transaction's statement does not reach a pending write. */
  lemma OutOfReach(s: State, t: TxnId, u: TxnId, rid: Rid)
    requires Inv(s) && Pending(s, t) && rid in s.txns[t].writes && CanRun(s, u) && u != t
    ensures rid in s.base && s.base[rid].ts != u && s.base[rid].ts > s.txns[u].readTs
  {
    HeldByWriter(s, t, rid);
    assert TxnOk(s, u);
  }

  /** Only slots out of `t`'s reach, or their stamps, change; `t` and the history stay. */
  ghost predicate Aside(s: State, s': State, t: TxnId) {
    && s'.log == s.log && s.nextId <= s'.nextId && (t >= s.nextId ==> !Pending(s', t))
    && (Pending(s', t) ==> Pending(s, t) && s'.txns[t].writes == s.txns[t].writes)
    && (Pending(s', t) ==> forall rid | rid in s.txns[t].writes ::
          (rid in s.base ==> rid in s'.base && BaseValue(s', rid) == BaseValue(s, rid)))
    && (t in s'.txns && t < s.nextId ==> t in s.txns)
    && (t in s'.txns && t in s.txns && s'.txns[t].state in {RUNNING, TAINTED} ==> s.txns[t].state in {RUNNING, TAINTED})
  }

  lemma AsideAgrees(s: State, s': State, t: TxnId, w: Writes)
    requires Agrees(s, t, w) && Aside(s, s', t)
    ensures Agrees(s', t, w)
  {
    if Pending(s', t) {
      forall rid | rid in w ensures StandsAt(s', w, rid) {
        assert StandsAt(s, w, rid);
      }
    }
  }

  lemma BeginAgrees(s: State, iso: Isolation, t: TxnId, w: Writes)
    requires Inv(s) && Agrees(s, t, w)
    ensures Agrees(DoBegin(s, iso), t, w)
  {
    var s' := DoBegin(s, iso);
    if t == s.nextId {
      assert s.inCommit.Some? ==> s.inCommit.value.tid < s.nextId;
      assert LiveAt(s, t);
    } else {
      AsideAgrees(s, s', t, w);
    }
  }

  lemma InsertAgrees(s: State, u: TxnId, rid: Rid, row: Row, t: TxnId, w: Writes)
    requires Inv(s) && Agrees(s, t, w) && CanRun(s, u) && rid !in s.base
    ensures Agrees(DoInsert(s, u, rid, row), t, if u == t then w[rid := Some(row)] else w)
  {
    var s' := DoInsert(s, u, rid, row);
    if u == t {
      var w' := w[rid := Some(row)];
      forall r | r in w' ensures StandsAt(s', w', r) {
        if r != rid {
          assert StandsAt(s, w, r);
        }
      }
    } else {
      if Pending(s, t) {
        forall r | r in s.txns[t].writes ensures r != rid {
          HeldByWriter(s, t, r);
        }
      }
      AsideAgrees(s, s', t, w);
    }
  }

  lemma ModifyAgrees(s: State, u: TxnId, rid: Rid, delete: bool, row: Row, t: TxnId, w: Writes)
    requires Inv(s) && Agrees(s, t, w) && CanRun(s, u) && rid in s.base
    ensures Agrees(DoModify(s, u, rid, delete, row), t, Noted(s, Modify(u, rid, delete, row), t, w))
  {
    OvertakenIff(s, u, rid);
    assert u < s.nextId;
    hide Inv, Agrees, DoModify, Overtaken;
    if u != t {
      OtherModifyAgrees(s, u, rid, delete, row, t, w);
    } else if Overtaken(s, t, rid) {
      TaintAgrees(s, rid, delete, row, t, w);
    } else {
      OwnModifyAgrees(s, rid, delete, row, t, w);
    }
  }

  lemma TaintAgrees(s: State, rid: Rid, delete: bool, row: Row, t: TxnId, w: Writes)
    requires Agrees(s, t, w) && CanRun(s, t) && rid in s.base && t < s.nextId
    requires s.base[rid].ts != t && s.base[rid].ts > s.txns[t].readTs
    ensures Agrees(DoModify(s, t, rid, delete, row), t, w)
  {
    AsideAgrees(s, DoModify(s, t, rid, delete, row), t, w);
  }

  /** What another's modification leaves of `t`. */
  lemma ModifyOther(s: State, u: TxnId, rid: Rid, delete: bool, row: Row, t: TxnId)
    requires CanRun(s, u) && rid in s.base && u != t
    ensures var s' := DoModify(s, u, rid, delete, row);
            && s'.txns.Keys == s.txns.Keys && (t in s.txns ==> s'.txns[t] == s.txns[t])
            && s'.(txns := s.txns, base := s.base, head := s.head, chain := s.chain) == s
            && s'.base.Keys == s.base.Keys && s'.base == s.base[rid := s'.base[rid]]
            && (s.base[rid].ts != u && s.base[rid].ts > s.txns[u].readTs ==> s'.base == s.base)
  {
    hide Chain;
    var was, x := s.base[rid], s.txns[u];
    if was.ts == u {
    } else if was.ts <= x.readTs {
    } else {
    }
  }

  lemma OtherModifyAgrees(s: State, u: TxnId, rid: Rid, delete: bool, row: Row, t: TxnId, w: Writes)
    requires Inv(s) && Agrees(s, t, w) && CanRun(s, u) && rid in s.base && u != t
    ensures Agrees(DoModify(s, u, rid, delete, row), t, w)
  {
    if Pending(s, t) && rid in s.txns[t].writes {
      OutOfReach(s, t, u, rid);
    }
    assert t in s.txns ==> t < s.nextId;
    ModifyOther(s, u, rid, delete, row, t);
    hide Inv, DoModify;
    AsideAgrees(s, DoModify(s, u, rid, delete, row), t, w);
  }

  lemma OwnModifyAgrees(s: State, rid: Rid, delete: bool, row: Row, t: TxnId, w: Writes)
    requires Inv(s) && Agrees(s, t, w) && CanRun(s, t) && rid in s.base
    requires s.base[rid].ts == t || s.base[rid].ts <= s.txns[t].readTs
    ensures Agrees(DoModify(s, t, rid, delete, row), t, w[rid := if delete then None else Some(row)])
  {
    var s' := DoModify(s, t, rid, delete, row);
    var w' := w[rid := if delete then None else Some(row)];
    assert s'.txns[t].writes == s.txns[t].writes + {rid};
    assert s'.base == s.base[rid := Tuple(t, delete, s'.base[rid].row)];
    assert BaseValue(s', rid) == w'[rid];
    forall r | r in w' ensures StandsAt(s', w', r) {
      if r != rid {
        assert StandsAt(s, w, r);
      }
    }
  }

  lemma RollbackAgrees(s: State, u: TxnId, rid: Rid, t: TxnId, w: Writes)
    requires Inv(s) && Agrees(s, t, w) && Enabled(s, RollbackOne(u, rid))
    ensures Agrees(DoRollbackOne(s, u, rid), t, w)
  {
    var s' := DoRollbackOne(s, u, rid);
    assert LiveAt(s, u) && TxnOk(s, u) && WriteAt(s, u, rid);
    assert s'.txns == s.txns && s'.base == s.base[rid := s'.base[rid]];
    if Pending(s, t) {
      forall r | r in s.txns[t].writes && Pending(s', t) ensures r != rid {
        HeldByWriter(s, t, r);
      }
    }
    hide Inv;
    AsideAgrees(s, s', t, w);
  }

  lemma PublishAgrees(s: State, t: TxnId, w: Writes)
    requires Inv(s) && Agrees(s, t, w) && Enabled(s, Publish)
    ensures Agrees(DoPublish(s), t, w)
  {
    var s', u := DoPublish(s), s.inCommit.value.tid;
    assert u < s.nextId && s.txns[u].state == COMMITTED;
    hide Inv;
    if t == u {
      assert Pending(s, t);
      assert CommitRecord(s).writes == w by {
        forall rid | rid in w ensures StandsAt(s, w, rid) {
        }
      }
      assert s'.log == s.log + [CommitRecord(s)];
    } else {
      assert Pending(s', t) ==> Pending(s, t);
      forall rid | rid in w && Pending(s', t) ensures StandsAt(s', w, rid) {
        assert StandsAt(s, w, rid);
      }
      forall k | 0 <= k < |s'.log| && s'.log[k].tid == t ensures k < |s.log| && s.log[k].tid == t {
        assert CommitRecord(s).tid == u;
      }
    }
  }

  lemma CommitAgrees(s: State, a: Action, t: TxnId, w: Writes)
    requires Inv(s) && Agrees(s, t, w) && Enabled(s, a)
    requires a.StartCommit? || a.StampOne? || a.MarkCommitted? || a.RetireCommit?
    ensures Agrees(Apply(s, a), t, w)
  {
    assert CommitRunOk(s) && forall u | u in s.txns :: u < s.nextId;
    hide Inv, Watermark, Verify, CommitRunOk, Agrees, Recorded, Stands, DoBegin, DoModify, DoInsert, DoRollbackOne;
    AsideAgrees(s, Apply(s, a), t, w);
  }

  lemma ControlAgrees(s: State, a: Action, t: TxnId, w: Writes)
    requires Inv(s) && Agrees(s, t, w) && Enabled(s, a)
    requires a.Read? || a.StartAbort? || a.MarkAborted? || a.RetireAbort? || a.ReadMark? || a.Collect?
    ensures Agrees(Apply(s, a), t, w)
  {
    assert forall u | u in s.txns :: u < s.nextId;
    hide Inv, Watermark, Verify, Agrees, Recorded, Stands, DoBegin, DoModify, DoInsert, DoRollbackOne;
    AsideAgrees(s, Apply(s, a), t, w);
  }

  lemma StepAgrees(s: State, a: Action, t: TxnId, w: Writes)
    requires Inv(s) && Agrees(s, t, w) && Enabled(s, a)
    ensures Agrees(Apply(s, a), t, Noted(s, a, t, w))
  {
    hide Agrees, Inv;
    match a
    case Begin(iso) => BeginAgrees(s, iso, t, w);
    case Insert(u, rid, row) => InsertAgrees(s, u, rid, row, t, w);
    case Modify(u, rid, delete, row) => ModifyAgrees(s, u, rid, delete, row, t, w);
    case RollbackOne(u, rid) => RollbackAgrees(s, u, rid, t, w);
    case Publish => PublishAgrees(s, t, w);
    case StartCommit(_) => CommitAgrees(s, a, t, w);
    case StampOne(_) => CommitAgrees(s, a, t, w);
    case MarkCommitted => CommitAgrees(s, a, t, w);
    case RetireCommit => CommitAgrees(s, a, t, w);
    case _ => ControlAgrees(s, a, t, w);
  }

  // ---------------------------------------------------------------- over whole runs

  lemma {:induction false} RunAgrees(s: State, run: seq<Action>, t: TxnId, w: Writes)
    requires Inv(s) && IsRun(s, run) && Agrees(s, t, w)
    ensures Agrees(Final(s, run), t, Ledger(s, run, t, w))
    decreases |run|
  {
    if run != [] {
      hide Agrees, Noted, Enabled;
      StepAgrees(s, run[0], t, w);
      StepKeeps(s, run[0]);
      RunAgrees(Apply(s, run[0]), run[1..], t, Noted(s, run[0], t, w));
    }
  }

  lemma ReachedAgrees(s0: State, run: seq<Action>, t: TxnId)
    requires Init(s0) && IsRun(s0, run)
    ensures Inv(Final(s0, run)) && Agrees(Final(s0, run), t, Ledger(s0, run, t, map[]))
  {
    InitInv(s0);
    RunKeeps(s0, run);
    RunAgrees(s0, run, t, map[]);
  }

  lemma OwnWritesAgree(s: State, t: TxnId, w: Writes)
    requires Inv(s) && CanRun(s, t) && Agrees(s, t, w)
    ensures OwnWrites(s, t) == w
  {
    assert TxnOk(s, t);
    forall rid ensures rid in w <==> rid in s.base && s.base[rid].ts == t {
      assert WriteAt(s, t, rid);
      if rid in s.base {
        assert RidOk(s, rid, Watermark(s));
      }
    }
    forall rid | rid in w ensures StandsAt(s, w, rid) {
    }
  }

  /** Over every run: what an open transaction holds in the store is what its statements wrote, deletions
      included. */
  lemma WritesStand(s0: State, run: seq<Action>, t: TxnId)
    requires Init(s0) && IsRun(s0, run) && CanRun(Final(s0, run), t)
    ensures OwnWrites(Final(s0, run), t) == Ledger(s0, run, t, map[])
  {
    ReachedAgrees(s0, run, t);
    OwnWritesAgree(Final(s0, run), t, Ledger(s0, run, t, map[]));
  }

  /** Over every run: an open transaction reads its last write of a slot, and the database of its snapshot
      where it has written nothing. */
  lemma ReadsItsWrites(s0: State, run: seq<Action>, t: TxnId, rid: Rid)
    requires Init(s0) && IsRun(s0, run) && CanRun(Final(s0, run), t)
    ensures var s, w := Final(s0, run), Ledger(s0, run, t, map[]);
            && s.origin <= s.txns[t].readTs < s.origin + |s.dbs|
            && Visible(s, t, rid) == if rid in w then w[rid] else At(s, s.txns[t].readTs, rid)
  {
    ReachedAgrees(s0, run, t);
    WritesStand(s0, run, t);
    hide Ledger, Final, OwnWrites, Visible, Overlay, Agrees, IsRun;
    VisibleIsSnapshot(Final(s0, run), t, rid);
  }

  /** Over every run: each published database is the one before it with the last write of every slot by the
      transaction that committed, and every other slot as it was. */
  lemma CommitsPublishWrites(s0: State, run: seq<Action>, k: nat, rid: Rid)
    requires Init(s0) && IsRun(s0, run) && k < |Final(s0, run).log|
    ensures var s := Final(s0, run);
            var w := Ledger(s0, run, s.log[k].tid, map[]);
            && |s.dbs| == |s.log| + 1
            && Get(s.dbs[k + 1], rid) == if rid in w then w[rid] else Get(s.dbs[k], rid)
  {
    var s := Final(s0, run);
    ReachedAgrees(s0, run, s.log[k].tid);
    assert RecordOk(s, k, Watermark(s));
    assert s.log[k].writes == Ledger(s0, run, s.log[k].tid, map[]);
  }
}
