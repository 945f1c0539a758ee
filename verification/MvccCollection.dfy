/** What a collection pass drops: everything no registered snapshot needs, so nothing is left once no
    transaction is open. */
module MvccCollection {
  import opened MvccModel
  import opened MvccInvariant
  import opened MvccTheorems

  /** The state after a pass that reads the watermark and then drops transactions. */
  ghost function Collected(s: State): State {
    DoCollect(DoReadMark(s), Watermark(s))
  }

  /** Over every run: a pass keeps a transaction if and only if it is open, or committed with a registered
      snapshot from before its commit. */
  lemma PassKeepsExactly(s0: State, run: seq<Action>, t: TxnId)
    requires Init(s0) && IsRun(s0, run) && t in Final(s0, run).txns
    ensures var s := Final(s0, run);
            t in Collected(s).txns <==>
            || s.txns[t].state in {RUNNING, TAINTED}
            || (s.txns[t].state == COMMITTED && exists u :: u in s.live && s.live[u] < s.txns[t].commitTs)
  {
    InitInv(s0);
    RunKeeps(s0, run);
    KeepsExactly(Final(s0, run), t);
  }

  lemma KeepsExactly(s: State, t: TxnId)
    requires Inv(s) && t in s.txns
    ensures t in Collected(s).txns <==>
            || s.txns[t].state in {RUNNING, TAINTED}
            || (s.txns[t].state == COMMITTED && exists u :: u in s.live && s.live[u] < s.txns[t].commitTs)
  {
    WatermarkOldest(s);
    assert TxnOk(s, t) && LiveAt(s, t);
    if s.inCommit.Some? {
      assert LiveAt(s, s.inCommit.value.tid);
    }
    if s.live != map[] {
      var u :| u in s.live && s.live[u] == Watermark(s);
    }
  }

  /** With no transaction open or finishing, a pass leaves none. */
  lemma QuietPassEmpties(s0: State, run: seq<Action>)
    requires Init(s0) && IsRun(s0, run)
    requires var s := Final(s0, run);
             s.inCommit.None? && s.retiring == {} && forall t | t in s.txns :: s.txns[t].state in {COMMITTED, ABORTED}
    ensures Collected(Final(s0, run)).txns == map[]
  {
    InitInv(s0);
    RunKeeps(s0, run);
    var s := Final(s0, run);
    forall t ensures t !in s.live {
      assert LiveAt(s, t);
    }
    forall t | t in s.txns ensures t !in Collected(s).txns {
      KeepsExactly(s, t);
    }
  }
}
