/** Histories whose writers were validated by the split check. Whether a slot conflicts depends on the
    published history alone, so no step but a commit changes it, and a validation that passes every
    suspect while their holders stay tracked accepts exactly what a single-step validation would. */
module MvccSplitHistory {
  import opened MvccModel
  import opened MvccInvariant
  import opened MvccSteps
  import opened MvccTheorems
  import opened MvccValidationRace

  // ---------------------------------------------------------------- conflicts and history

  /** At timestamp `ts` the slot held a row that a scan of `x` selects. */
  predicate MatchesAt(s: State, x: Txn, rid: Rid, ts: Ts) {
    s.origin <= ts < s.origin + |s.dbs| && IsScanTuple(x, rid.oid, At(s, ts, rid))
  }

  /** From the snapshot of `x` up to `hi`, exclusive, the slot held such a row at some time. */
  ghost predicate MatchesBefore(s: State, x: Txn, rid: Rid, hi: Ts) {
    exists ts: Ts :: x.readTs <= ts < hi && MatchesAt(s, x, rid, ts)
  }

  /** A covered stretch matches everywhere or nowhere. */
  lemma CoveredMatches(s: State, x: Txn, rid: Rid, lo: Ts, hi: Ts, v: Option<Row>)
    requires |s.dbs| == s.lastCommit - s.origin + 1 && hi <= s.lastCommit + 1 && Covered(s, rid, lo, hi, v)
    requires lo < hi && s.origin <= x.readTs < hi
    ensures MatchesBefore(s, x, rid, hi) <==>
            IsScanTuple(x, rid.oid, v) || (x.readTs < lo && MatchesBefore(s, x, rid, lo))
  {
    var first := if lo < x.readTs then x.readTs else lo;
    assert At(s, first, rid) == v;
    if IsScanTuple(x, rid.oid, v) {
      assert MatchesAt(s, x, rid, first);
    } else if MatchesBefore(s, x, rid, hi) {
      var ts :| x.readTs <= ts < hi && MatchesAt(s, x, rid, ts);
      assert ts < lo;
    }
  }

  /** The walk of the undo logs finds a conflict exactly where the history has one. */
  lemma {:induction false} WalkIsHistory(s: State, x: Txn, rid: Rid, i: nat, wm: Ts)
    requires rid in s.base && i <= |Chain(s, rid)| && RidOk(s, rid, wm)
    requires s.origin <= x.readTs < Up(s, rid, i) && wm <= x.readTs <= s.lastCommit
    ensures WalkConflicts(s, x, rid, i) <==> MatchesBefore(s, x, rid, Up(s, rid, i))
    decreases |Chain(s, rid)| - i
  {
    var c := Chain(s, rid);
    if i < |c| {
      assert VersionOk(s, rid, i) && NodeOk(s, rid, i, wm);
      assert AboveTs(s, rid, i) >= Up(s, rid, i);
      CoveredMatches(s, x, rid, c[i].ts, Up(s, rid, i), Value(c[i].deleted, c[i].row));
      if c[i].ts > x.readTs {
        assert Up(s, rid, i + 1) == c[i].ts;
        WalkIsHistory(s, x, rid, i + 1, wm);
      }
    } else {
      assert Covered(s, rid, 0, Up(s, rid, |c|), None);
      CoveredMatches(s, x, rid, 0, Up(s, rid, |c|), None);
    }
  }

  /** Outside a commit, a slot conflicts with an open transaction exactly when some database from its
      snapshot to now has in that slot a row one of its scans selects. */
  lemma ConflictsAreHistory(s: State, t: TxnId, rid: Rid)
    requires Inv(s) && Open(s, t) && s.inCommit.None? && rid in s.base
    ensures RidConflicts(s, s.txns[t], rid) <==> MatchesBefore(s, s.txns[t], rid, s.lastCommit + 1)
  {
    var x, wm := s.txns[t], Watermark(s);
    assert TxnOk(s, t) && LiveAt(s, t) && RidOk(s, rid, wm);
    LiveAboveWatermark(s, t);
    assert StampOk(s, rid);
    if s.base[rid].ts < TXN_START {
      assert Covered(s, rid, s.base[rid].ts, s.lastCommit + 1, BaseValue(s, rid));
      CoveredMatches(s, x, rid, s.base[rid].ts, s.lastCommit + 1, BaseValue(s, rid));
      if s.base[rid].ts > x.readTs {
        WalkIsHistory(s, x, rid, 0, wm);
      }
    } else {
      WalkIsHistory(s, x, rid, 0, wm);
    }
  }

  // ---------------------------------------------------------------- what validation decides

  /** A commit after `t`'s snapshot wrote the slot. */
  ghost predicate WrittenLater(s: State, t: TxnId, rid: Rid)
    requires t in s.txns
  {
    exists k :: 0 <= k < |s.log| && s.txns[t].readTs <= s.origin + k && rid in s.log[k].writes
  }

  /** The suspects are the slots later commits wrote. */
  lemma SuspectsAreWritten(s: State, t: TxnId, rid: Rid)
    requires Inv(s) && CanRun(s, t) && s.inCommit.None?
    ensures (exists u :: IsSuspect(s, t, u, rid)) <==> WrittenLater(s, t, rid)
    ensures WrittenLater(s, t, rid) ==> rid in s.base
  {
    if u :| IsSuspect(s, t, u, rid) {
      assert TxnOk(s, u) && CommittedAs(s, u, s.txns[u]);
      var k := s.txns[u].commitTs - s.origin - 1;
      assert rid in s.log[k].writes;
    }
    if WrittenLater(s, t, rid) {
      var k :| 0 <= k < |s.log| && s.txns[t].readTs <= s.origin + k && rid in s.log[k].writes;
      assert RecordOk(s, k, Watermark(s));
      MvccCommit.LaterWriterIsSuspect(s, t, rid, k);
    }
  }

  /** Over every run: a serializable writer is refused if and only if a slot some later commit wrote has held,
      at its snapshot or since, a row one of its scans selects. */
  lemma ValidationExact(s0: State, run: seq<Action>, t: TxnId)
    requires Init(s0) && IsRun(s0, run) && CanRun(Final(s0, run), t) && Final(s0, run).inCommit.None?
    requires Final(s0, run).txns[t].iso == SERIALIZABLE && Final(s0, run).txns[t].writes != {}
    ensures var s := Final(s0, run);
            Verify(s, t) <==>
            forall rid | WrittenLater(s, t, rid) :: !MatchesBefore(s, s.txns[t], rid, s.lastCommit + 1)
  {
    InitInv(s0);
    RunKeeps(s0, run);
    var s := Final(s0, run);
    ValidatesExactly(s, t);
  }

  lemma ValidatesExactly(s: State, t: TxnId)
    requires Inv(s) && CanRun(s, t) && s.inCommit.None? && s.txns[t].iso == SERIALIZABLE && s.txns[t].writes != {}
    ensures Verify(s, t) <==>
            forall rid | WrittenLater(s, t, rid) :: !MatchesBefore(s, s.txns[t], rid, s.lastCommit + 1)
  {
    hide Inv, RidConflicts, MatchesBefore, WrittenLater, IsSuspect;
    var x, now := s.txns[t], s.lastCommit + 1;
    if Verify(s, t) {
      forall rid | WrittenLater(s, t, rid) ensures !MatchesBefore(s, x, rid, now) {
        SuspectsAreWritten(s, t, rid);
        ConflictsAreHistory(s, t, rid);
        var u :| IsSuspect(s, t, u, rid);
      }
    }
    if forall rid | WrittenLater(s, t, rid) :: !MatchesBefore(s, x, rid, now) {
      forall u, rid | IsSuspect(s, t, u, rid) && rid in s.base ensures !RidConflicts(s, x, rid) {
        SuspectsAreWritten(s, t, rid);
        ConflictsAreHistory(s, t, rid);
      }
    }
  }

  // ---------------------------------------------------------------- quiet steps

  /** The transaction whose step it is, if any one transaction's. */
  predicate IsStepOf(a: Action, t: TxnId) {
    match a
    case Insert(u, _, _) => u == t
    case Modify(u, _, _, _) => u == t
    case Read(u, _, _) => u == t
    case StartCommit(u) => u == t
    case StartAbort(u) => u == t
    case RollbackOne(u, _) => u == t
    case MarkAborted(u) => u == t
    case RetireAbort(u) => u == t
    case _ => false
  }

  /** While `t` validates, nobody else commits and `t` itself takes no step. */
  predicate QuietFor(a: Action, t: TxnId) {
    !a.StartCommit? && !IsStepOf(a, t)
  }

  /** What such a step leaves as it was. */
  ghost predicate Undisturbed(s: State, s': State, t: TxnId) {
    && s'.inCommit.None? && s'.dbs == s.dbs && s'.origin == s.origin && s'.lastCommit == s.lastCommit
    && CanRun(s', t) && t in s.txns && s'.txns[t] == s.txns[t] && s.base.Keys <= s'.base.Keys
    && forall u, rid {:trigger IsSuspect(s', t, u, rid)} | IsSuspect(s', t, u, rid) :: IsSuspect(s, t, u, rid)
  }

  /** Only a transaction that is not committed changes. */
  ghost predicate OthersChange(s: State, s': State) {
    forall u {:trigger u in s'.txns} | u in s'.txns && s'.txns[u].state == COMMITTED ::
        u in s.txns && s'.txns[u] == s.txns[u]
  }

  lemma UndisturbedBy(s: State, s': State, t: TxnId)
    requires s'.inCommit.None? && s'.dbs == s.dbs && s'.origin == s.origin && s'.lastCommit == s.lastCommit
    requires CanRun(s', t) && t in s.txns && s'.txns[t] == s.txns[t] && s.base.Keys <= s'.base.Keys &&
             OthersChange(s, s')
    ensures Undisturbed(s, s', t)
  {
  }

  /** A step of one transaction's statements. */
  lemma QuietStatement(s: State, a: Action, t: TxnId)
    requires CountersOk(s) && Enabled(s, a) && s.inCommit.None? && CanRun(s, t) && QuietFor(a, t)
    requires a.Begin? || a.Insert? || a.Modify? || a.Read?
    ensures Undisturbed(s, Apply(s, a), t)
  {
    hide Undisturbed, Verify, Watermark, ScanResult, OwnWrites;
    if a.Modify? {
      QuietModify(s, a, t);
    } else {
      UndisturbedBy(s, Apply(s, a), t);
    }
  }

  lemma QuietModify(s: State, a: Action, t: TxnId)
    requires Enabled(s, a) && s.inCommit.None? && CanRun(s, t) && a.Modify? && a.t != t
    ensures Undisturbed(s, Apply(s, a), t)
  {
    hide Undisturbed, Verify, DoModify;
    ModifyTouches(s, a.t, a.rid, a.delete, a.row);
    UndisturbedBy(s, Apply(s, a), t);
  }

  /** An update or delete changes the slot and its own transaction, and does not commit it. */
  lemma ModifyTouches(s: State, u: TxnId, rid: Rid, delete: bool, row: Row)
    requires u in s.txns && rid in s.base && s.txns[u].state == RUNNING
    ensures var s' := DoModify(s, u, rid, delete, row);
            && s'.inCommit == s.inCommit && s'.dbs == s.dbs && s'.origin == s.origin && s'.lastCommit == s.lastCommit
            && s'.aborting == s.aborting && s'.base.Keys == s.base.Keys
            && u in s'.txns && s'.txns == s.txns[u := s'.txns[u]] && s'.txns[u].state != COMMITTED
  {
    hide Chain;
    var was, x := s.base[rid], s.txns[u];
    if was.ts == u {
    } else if was.ts <= x.readTs {
    } else {
    }
  }

  /** A step of a rollback or of the collector. */
  lemma QuietCleanup(s: State, a: Action, t: TxnId)
    requires Enabled(s, a) && s.inCommit.None? && CanRun(s, t) && QuietFor(a, t)
    requires !(a.Begin? || a.Insert? || a.Modify? || a.Read?)
    ensures Undisturbed(s, Apply(s, a), t)
  {
    hide Undisturbed, Verify, Watermark;
    UndisturbedBy(s, Apply(s, a), t);
  }

  lemma QuietStep(s: State, a: Action, t: TxnId)
    requires Inv(s) && Enabled(s, a) && s.inCommit.None? && CanRun(s, t) && QuietFor(a, t)
    ensures Undisturbed(s, Apply(s, a), t)
  {
    hide Undisturbed, Enabled, Apply;
    if a.Begin? || a.Insert? || a.Modify? || a.Read? {
      QuietStatement(s, a, t);
    } else {
      QuietCleanup(s, a, t);
    }
  }

  lemma UndisturbedItself(s: State, t: TxnId)
    requires s.inCommit.None? && CanRun(s, t)
    ensures Undisturbed(s, s, t)
  {
  }

  lemma UndisturbedTransitive(s: State, s1: State, s2: State, t: TxnId)
    requires Undisturbed(s, s1, t) && Undisturbed(s1, s2, t)
    ensures Undisturbed(s, s2, t)
  {
  }

  /** No quiet stretch changes whether a slot conflicts. */
  lemma ConflictsUndisturbed(s: State, s': State, t: TxnId, rid: Rid)
    requires Inv(s) && Inv(s') && s.inCommit.None? && CanRun(s, t) && Undisturbed(s, s', t) && rid in s.base
    ensures rid in s'.base && RidConflicts(s', s'.txns[t], rid) == RidConflicts(s, s.txns[t], rid)
  {
    ConflictsAreHistory(s, t, rid);
    ConflictsAreHistory(s', t, rid);
    var x := s.txns[t];
    forall ts: Ts ensures MatchesAt(s', x, rid, ts) == MatchesAt(s, x, rid, ts) {
    }
  }

  // ---------------------------------------------------------------- traces

  /** A commit may start without its validation being part of the step. */
  ghost predicate MayGo(s: State, a: Action) {
    if a.StartCommit? then s.inCommit.None? && CanRun(s, a.t) && s.lastCommit + 1 < TXN_START else Enabled(s, a)
  }

  ghost function Go(s: State, a: Action): State
    requires MayGo(s, a)
  {
    if a.StartCommit? then DoStartCommit(s, a.t) else Apply(s, a)
  }

  /** The states an execution passes through. */
  ghost predicate Trace(states: seq<State>, run: seq<Action>) {
    && |states| == |run| + 1
    && forall k {:trigger run[k]} | 0 <= k < |run| :: MayGo(states[k], run[k]) && states[k + 1] == Go(states[k], run[k])
  }

  /** From step `q` to step `p` transaction `t` holds the commit mutex and validates. */
  ghost predicate Validating(states: seq<State>, run: seq<Action>, q: nat, p: nat, t: TxnId) {
    && q <= p < |states| && |run| + 1 == |states| && states[q].inCommit.None? && CanRun(states[q], t)
    && forall k {:trigger run[k]} | q <= k < p :: QuietFor(run[k], t)
  }

  /** The check read the slot's base at step `i`, walked at step `j` and found no conflict. With
      `kept`, the slot's holder was still tracked at the walk. */
  ghost predicate PassedAt(states: seq<State>, i: nat, j: nat, t: TxnId, rid: Rid, kept: bool) {
    && i <= j < |states| && t in states[i].txns && rid in states[i].base
    && !SplitConflicts(states[i], states[j], states[i].txns[t], rid)
    && (kept ==> HolderKept(states[i], states[j], rid))
  }

  ghost predicate Passed(states: seq<State>, q: nat, p: nat, t: TxnId, rid: Rid, kept: bool) {
    exists i: nat, j: nat {:trigger PassedAt(states, i, j, t, rid, kept)} ::
      q <= i && j <= p && PassedAt(states, i, j, t, rid, kept)
  }

  /** Every suspect collected at step `q` passed the check by step `p`. */
  ghost predicate AllPassed(states: seq<State>, q: nat, p: nat, t: TxnId, kept: bool)
    requires q < |states| && t in states[q].txns
  {
    forall u, rid {:trigger IsSuspect(states[q], t, u, rid)} | IsSuspect(states[q], t, u, rid) &&
        rid in states[q].base ::
      Passed(states, q, p, t, rid, kept)
  }

  /** The commit starting at step `p` was validated by the split check, if it needed to be. */
  ghost predicate SplitVerified(states: seq<State>, run: seq<Action>, p: nat, kept: bool)
    requires p < |run| && |states| == |run| + 1 && run[p].StartCommit? && run[p].t in states[p].txns
  {
    var t := run[p].t;
    states[p].txns[t].iso == SERIALIZABLE && states[p].txns[t].writes != {} ==>
      exists q: nat {:trigger Validating(states, run, q, p, t)} ::
        Validating(states, run, q, p, t) && AllPassed(states, q, p, t, kept)
  }

  ghost predicate AllVerified(states: seq<State>, run: seq<Action>, kept: bool)
    requires Trace(states, run)
  {
    forall p {:trigger run[p]} | 0 <= p < |run| && run[p].StartCommit? :: SplitVerified(states, run, p, kept)
  }

  // ---------------------------------------------------------------- verified traces are runs

  /** The first `k` steps are a run, and every state so far is good and follows from those before it. */
  ghost predicate GoodTo(states: seq<State>, run: seq<Action>, k: nat) {
    && k <= |run| && |states| == |run| + 1 && IsRun(states[0], run[..k]) && Final(states[0], run[..k]) == states[k]
    && (forall i {:trigger states[i]} | 0 <= i <= k :: Inv(states[i]))
    && (forall i, j {:trigger Past(states[i], states[j])} | 0 <= i <= j <= k :: Past(states[i], states[j]))
  }

  lemma {:induction false} QuietAt(states: seq<State>, run: seq<Action>, q: nat, p: nat, t: TxnId, i: nat)
    requires Trace(states, run) && GoodTo(states, run, p) && Validating(states, run, q, p, t) && q <= i <= p
    ensures states[i].inCommit.None? && CanRun(states[i], t)
    ensures i < p ==> Undisturbed(states[i], states[i + 1], t)
    decreases i
  {
    hide GoodTo, Enabled, Apply, CanRun, IsSuspect;
    GoodState(states, run, p, i);
    if q < i {
      QuietAt(states, run, q, p, t, i - 1);
    }
    if i < p {
      assert QuietFor(run[i], t);
      QuietStep(states[i], run[i], t);
    }
  }

  lemma {:induction false} Stretch(states: seq<State>, run: seq<Action>, q: nat, p: nat, t: TxnId, i: nat, j: nat)
    requires Trace(states, run) && GoodTo(states, run, p) && Validating(states, run, q, p, t) && q <= i <= j <= p
    ensures states[i].inCommit.None? && CanRun(states[i], t) && Undisturbed(states[i], states[j], t)
    decreases j
  {
    hide GoodTo, Trace, CanRun, Undisturbed;
    QuietAt(states, run, q, p, t, i);
    if i < j {
      Stretch(states, run, q, p, t, i, j - 1);
      QuietAt(states, run, q, p, t, j - 1);
      UndisturbedTransitive(states[i], states[j - 1], states[j], t);
    } else {
      UndisturbedItself(states[i], t);
    }
  }

  lemma GoodState(states: seq<State>, run: seq<Action>, p: nat, i: nat)
    requires GoodTo(states, run, p) && i <= p
    ensures Inv(states[i])
  {
    hide Inv, Past;
  }

  /** A suspect that passed does not conflict when the commit starts. */
  lemma PassedIsQuiet(states: seq<State>, run: seq<Action>, q: nat, p: nat, t: TxnId, rid: Rid)
    requires Trace(states, run) && GoodTo(states, run, p) && Validating(states, run, q, p, t)
    requires Passed(states, q, p, t, rid, true)
    ensures t in states[p].txns && rid in states[p].base && !RidConflicts(states[p], states[p].txns[t], rid)
  {
    var i: nat, j: nat :| q <= i && j <= p && PassedAt(states, i, j, t, rid, true);
    Stretch(states, run, q, p, t, i, j);
    Stretch(states, run, q, p, t, i, p);
    assert Inv(states[i]) && Inv(states[j]) && Inv(states[p]) && Past(states[i], states[j]);
    hide GoodTo, Inv, Past, Trace, Validating, RidConflicts, SplitConflicts, HolderKept;
    SplitCheckAgrees(states[i], states[j], t, rid);
    ConflictsUndisturbed(states[i], states[p], t, rid);
  }

  lemma VerifiedStep(states: seq<State>, run: seq<Action>, p: nat)
    requires Trace(states, run) && p < |run| && GoodTo(states, run, p) && run[p].StartCommit?
    requires SplitVerified(states, run, p, true)
    ensures Enabled(states[p], run[p])
  {
    var t := run[p].t;
    var s := states[p];
    if s.txns[t].iso == SERIALIZABLE && s.txns[t].writes != {} {
      var q: nat :| Validating(states, run, q, p, t) && AllPassed(states, q, p, t, true);
      Stretch(states, run, q, p, t, q, p);
      GoodState(states, run, p, q);
      hide GoodTo, Trace, RidConflicts;
      forall u, rid | IsSuspect(s, t, u, rid) && rid in s.base ensures !RidConflicts(s, s.txns[t], rid) {
        assert IsSuspect(states[q], t, u, rid);
        assert TxnOk(states[q], u) && WriteAt(states[q], u, rid);
        PassedIsQuiet(states, run, q, p, t, rid);
      }
    }
  }

  lemma {:induction false} RunAppend(s: State, run: seq<Action>, a: Action)
    requires IsRun(s, run) && Enabled(Final(s, run), a)
    ensures IsRun(s, run + [a]) && Final(s, run + [a]) == Apply(Final(s, run), a)
    decreases |run|
  {
    hide Enabled, Apply;
    if run == [] {
      assert run + [a] == [a];
      assert IsRun(Apply(s, a), [a][1..]);
    } else {
      RunAppend(Apply(s, run[0]), run[1..], a);
      assert (run + [a])[1..] == run[1..] + [a];
    }
  }

  lemma GoIsApply(s: State, a: Action)
    requires Enabled(s, a)
    ensures MayGo(s, a) && Go(s, a) == Apply(s, a)
  {
  }

  lemma KeepsInv(s: State, s': State)
    requires Keeps(s, s')
    ensures Inv(s')
  {
  }

  lemma PastItself(s: State)
    ensures Past(s, s)
  {
  }

  lemma GoodStep(states: seq<State>, run: seq<Action>, k: nat)
    requires Trace(states, run) && k < |run| && GoodTo(states, run, k) && Enabled(states[k], run[k])
    ensures GoodTo(states, run, k + 1)
  {
    hide Enabled, Apply, Inv, Past;
    assert run[..k + 1] == run[..k] + [run[k]];
    RunAppend(states[0], run[..k], run[k]);
    GoIsApply(states[k], run[k]);
    StepKeeps(states[k], run[k]);
    StepPast(states[k], run[k]);
    KeepsInv(states[k], states[k + 1]);
    PastItself(states[k + 1]);
    forall i | 0 <= i <= k ensures Past(states[i], states[k + 1]) {
      assert Past(states[i], states[k]);
      PastTransitive(states[i], states[k], states[k + 1]);
    }
  }

  lemma {:induction false} VerifiedPrefix(states: seq<State>, run: seq<Action>, k: nat)
    requires Trace(states, run) && Init(states[0]) && AllVerified(states, run, true) && k <= |run|
    ensures GoodTo(states, run, k)
  {
    hide CommitRunOk, Get, AllPassed, CanRun, Inv, ValidatedOk, BaseValue, LiveOk;
    if k == 0 {
      InitInv(states[0]);
      PastItself(states[0]);
    } else {
      VerifiedPrefix(states, run, k - 1);
      hide GoodTo, Enabled, Init;
      if run[k - 1].StartCommit? {
        VerifiedStep(states, run, k - 1);
      }
      GoodStep(states, run, k - 1);
    }
  }

  /** When every serializable writer passed the split check with the slots' holders tracked, the
      execution is a run in which validation is one step, whatever happened in between. */
  lemma SplitRunIsRun(states: seq<State>, run: seq<Action>)
    requires Trace(states, run) && Init(states[0]) && AllVerified(states, run, true)
    ensures IsRun(states[0], run) && Final(states[0], run) == states[|run|]
  {
    VerifiedPrefix(states, run, |run|);
    assert run[..|run|] == run;
  }

  /** So its history is serial in the order of the commit timestamps. */
  lemma SplitHistorySerial(states: seq<State>, run: seq<Action>)
    requires Trace(states, run) && Init(states[0]) && AllVerified(states, run, true)
    requires forall k | 0 <= k < |states[|run|].log| :: WritesSerializably(states[|run|].log[k])
    ensures var s := states[|run|];
            states[0].dbs != [] &&
            forall k | 0 <= k < |s.log| :: 0 <= SerialPosition(s, k) <= k &&
              ReplaysOn(SerialDb(states[0].dbs[0], s.log, SerialPosition(s, k)), s.log[k])
  {
    SplitRunIsRun(states, run);
    SerializableHistory(states[0], run);
  }
}
