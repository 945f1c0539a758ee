/** A waiting schema change, or a waiting close, is not overtaken: until an exclusive lease is granted no
    shared lease is, so it waits only for the leases already out. A connection asked to close lets no
    further call in. */
module LeasePriority {
  import opened Counting
  import opened SchemaLeases
  import opened SchemaLeaseSafety
  import opened SchemaLeaseTheorems

  /** A step that gives somebody the exclusive lease. */
  predicate GrantsExclusive(a: Step) {
    a.TakeExclusive? || a.TakeClose?
  }

  predicate NoGrant(run: seq<Step>) {
    forall i | 0 <= i < |run| :: !GrantsExclusive(run[i])
  }

  /** Whoever holds a shared lease in `s'` held it in `s`: no connection and no statement has got one. */
  predicate NoNewHolder(s: State, s': State) {
    && |s.conns| <= |s'.conns| && |s.calls| <= |s'.calls|
    && (forall c {:trigger s'.conns[c]} | 0 <= c < |s'.conns| && s'.conns[c].leased ::
          c < |s.conns| && s.conns[c].leased)
    && (forall k {:trigger s'.calls[k]} | 0 <= k < |s'.calls| && OwnsShared(s'.calls[k]) ::
          k < |s.calls| && OwnsShared(s.calls[k]))
  }

  predicate OvertakesNobody(s: State, s': State) {
    s'.waiting >= s.waiting && s'.shared <= s.shared && NoNewHolder(s, s')
  }

  /** At most one call and one connection change, and neither gets a shared lease. */
  lemma OneChanges(s: State, s': State, k: nat, c: nat)
    requires |s'.calls| == |s.calls| && |s'.conns| == |s.conns| && s'.waiting >= s.waiting && s'.shared <= s.shared
    requires s'.calls == s.calls ||
             (k < |s.calls| && s'.calls == s.calls[k := s'.calls[k]] && s'.calls[k].at != Dml(true))
    requires s'.conns == s.conns ||
             (c < |s.conns| && s'.conns == s.conns[c := s'.conns[c]] && (s'.conns[c].leased ==> s.conns[c].leased))
    ensures OvertakesNobody(s, s')
  {
  }

  lemma CallOvertakesNobody(s: State, a: Step)
    requires Enabled(s, a)
    requires a.Guard? || a.StartDml? || a.EndDml? || a.StartDdl? || a.EndDdl? || a.StartBegin? || a.Begun? ||
             a.EndTxn? || a.Unguard? || a.Return?
    ensures OvertakesNobody(s, Apply(s, a))
  {
    hide OvertakesNobody;
    OneChanges(s, Apply(s, a), a.k, s.calls[a.k].conn);
  }

  lemma ConnOvertakesNobody(s: State, a: Step)
    requires Enabled(s, a)
    requires a.CloseConn? || a.Reconcile? || a.DropConn? || a.Mark? || a.CloseIdle? || a.Seal?
    ensures OvertakesNobody(s, Apply(s, a))
  {
    hide OvertakesNobody, Count;
    OneChanges(s, Apply(s, a), 0, a.c);
  }

  /** While somebody waits for the exclusive lease, no step but its grant lets the waiting end, and no step
      gives out a shared lease. */
  lemma StepOvertakesNobody(s: State, a: Step)
    requires Enabled(s, a) && s.waiting > 0 && !GrantsExclusive(a)
    ensures OvertakesNobody(s, Apply(s, a))
  {
    match a
    case Connect =>
    case Admit(_) =>
    case TakeShared(_) =>
    case TakeLease(_) =>
    case StartClose =>
    case Drained =>
    case QueueClose =>
    case Persist =>
    case ReleaseClose =>
    case CloseConn(_) => ConnOvertakesNobody(s, a);
    case Reconcile(_) => ConnOvertakesNobody(s, a);
    case DropConn(_) => ConnOvertakesNobody(s, a);
    case Mark(_) => ConnOvertakesNobody(s, a);
    case CloseIdle(_) => ConnOvertakesNobody(s, a);
    case Seal(_) => ConnOvertakesNobody(s, a);
    case _ => CallOvertakesNobody(s, a);
  }

  lemma HoldersTransitive(s: State, s1: State, s2: State)
    requires NoNewHolder(s, s1) && NoNewHolder(s1, s2)
    ensures NoNewHolder(s, s2)
  {
  }

  /** Over every run, from a state with a waiting writer until an exclusive lease is granted: the shared
      leases only become fewer, and none of them is new. */
  lemma {:induction false} WritersAreNotOvertaken(s: State, run: seq<Step>)
    requires CanRun(s, run) && s.waiting > 0 && NoGrant(run)
    ensures OvertakesNobody(s, After(s, run))
    decreases |run|
  {
    if run != [] {
      var s1 := Apply(s, run[0]);
      assert !GrantsExclusive(run[0]);
      StepOvertakesNobody(s, run[0]);
      hide Enabled, Apply;
      assert forall i | 0 <= i < |run[1..]| :: run[1..][i] == run[i + 1];
      WritersAreNotOvertaken(s1, run[1..]);
      HoldersTransitive(s, s1, After(s1, run[1..]));
    }
  }

  predicate NoSharedHolder(s: State) {
    (forall c | 0 <= c < |s.conns| :: !IsLeased(s.conns[c])) &&
      (forall k | 0 <= k < |s.calls| :: !OwnsShared(s.calls[k]))
  }

  predicate NoWriter(s: State) {
    s.stage != Holding && s.stage != Persisted && forall k | 0 <= k < |s.calls| :: !HasExclusive(s.calls[k])
  }

  predicate NoWaitingWriter(s: State) {
    s.stage != LeaseWaiting && forall k | 0 <= k < |s.calls| :: !WantsExclusive(s.calls[k])
  }

  lemma CountersMean(s: State)
    requires Inv(s)
    ensures s.shared == 0 <==> NoSharedHolder(s)
    ensures !s.exclusive <==> NoWriter(s)
    ensures s.waiting == 0 <==> NoWaitingWriter(s)
  {
    CountNone(s.conns, IsLeased);
    CountNone(s.calls, OwnsShared);
    CountNone(s.calls, HasExclusive);
    CountNone(s.calls, WantsExclusive);
  }

  lemma WaiterCounts(s: State, k: nat)
    requires Inv(s)
    ensures s.stage == LeaseWaiting ==> s.waiting > 0
    ensures k < |s.calls| ==> s.calls[k].conn < |s.conns| && (s.calls[k].at == DdlWaiting ==> s.waiting > 0)
  {
    assert k < |s.calls| ==> CallOk(s, k);
    if k < |s.calls| && s.calls[k].at == DdlWaiting {
      CountSome(s.calls, k, WantsExclusive);
    }
  }

  /** A waiting schema change, and the waiting close, can take the exclusive lease exactly when nobody holds
      a lease of either kind; a waiting statement or transaction can take a shared one exactly when no schema
      change and no close holds or waits for the exclusive lease. */
  lemma GrantsExact(s: State, k: nat)
    requires Reachable(s)
    ensures s.stage == LeaseWaiting ==> (Enabled(s, TakeClose) <==> NoSharedHolder(s) && NoWriter(s))
    ensures k < |s.calls| ==>
              match s.calls[k].at
              case DdlWaiting => Enabled(s, TakeExclusive(k)) <==> NoSharedHolder(s) && NoWriter(s)
              case DmlWaiting => Enabled(s, TakeShared(k)) <==> NoWriter(s) && NoWaitingWriter(s)
              case BeginWaiting => Enabled(s, TakeLease(k)) <==> NoWriter(s) && NoWaitingWriter(s)
              case _ => true
  {
    hide Inv, NoSharedHolder, NoWriter, NoWaitingWriter, Reachable, Count;
    ReachableInv(s);
    CountersMean(s);
    WaiterCounts(s, k);
  }

  // ---------------------------------------------------------------- the lease of a transaction

  /** The step ends the transaction of `c`, or fails to begin it, or closes the connection. */
  predicate GivesBack(s: State, a: Step, c: nat)
    requires Enabled(s, a) && c < |s.conns|
  {
    match a
    case EndTxn(k) => s.calls[k].conn == c
    case Begun(k, ok) => s.calls[k].conn == c && !ok
    case Unguard(k, reconcile) => s.calls[k].conn == c && (reconcile || s.conns[c].closing)
    case Reconcile(d) => d == c
    case CloseConn(d) => d == c && !s.conns[c].busy
    case CloseIdle(d) => d == c && !s.conns[c].busy && s.conns[c].closing
    case Seal(d) => d == c
    case _ => false
  }

  /** The lease and the transaction of `c` after the step. */
  predicate HoldsExactly(s: State, s': State, a: Step, c: nat)
    requires Enabled(s, a) && c < |s.conns|
  {
    && c < |s'.conns|
    && (s'.conns[c].leased <==>
        if s.conns[c].leased then !GivesBack(s, a, c) else a.TakeLease? && s.calls[a.k].conn == c)
    && (s'.conns[c].txn <==>
        if s.conns[c].txn then !GivesBack(s, a, c) else a.Begun? && a.ok && s.calls[a.k].conn == c)
  }

  lemma CallHolds(s: State, a: Step, c: nat)
    requires Enabled(s, a) && c < |s.conns|
    requires a.EndTxn? || a.Begun? || a.TakeLease? || a.Guard?
    requires (a.Begun? && s.calls[a.k].conn == c ==> !s.conns[c].txn)
    ensures HoldsExactly(s, Apply(s, a), a, c)
  {
    hide Count;
  }

  lemma LeavingHolds(s: State, a: Step, c: nat)
    requires Enabled(s, a) && c < |s.conns| && a.Unguard?
    requires s.conns[c].closed ==> !s.conns[c].leased && !s.conns[c].txn
    ensures HoldsExactly(s, Apply(s, a), a, c)
  {
    hide Count;
    if s.conns[s.calls[a.k].conn].closing {
    } else if a.reconcile {
    } else {
    }
  }

  lemma ClosingHolds(s: State, a: Step, c: nat)
    requires Enabled(s, a) && c < |s.conns|
    requires a.CloseConn? || a.Reconcile? || a.CloseIdle? || a.Seal? || a.DropConn? || a.Mark?
    requires s.conns[c].closed ==> !s.conns[c].leased && !s.conns[c].txn
    ensures HoldsExactly(s, Apply(s, a), a, c)
  {
    hide Count;
  }

  /** A connection holds its transaction's lease from the step that grants it, and its transaction from the
      step that begins it, to the first step that ends the transaction; no other step touches either. */
  lemma LeaseChangesExactly(s: State, a: Step, c: nat)
    requires Reachable(s) && Enabled(s, a) && c < |s.conns|
    ensures HoldsExactly(s, Apply(s, a), a, c)
  {
    hide Reachable, Count, LeasesOk, StageOk;
    ReachableInv(s);
    assert ConnOk(s, c);
    match a
    case Begun(k, _) =>
      assert CallOk(s, k);
      CallHolds(s, a, c);
    case EndTxn(_) => CallHolds(s, a, c);
    case TakeLease(_) => CallHolds(s, a, c);
    case Guard(_) => CallHolds(s, a, c);
    case Unguard(_, _) => LeavingHolds(s, a, c);
    case CloseConn(_) => ClosingHolds(s, a, c);
    case Reconcile(_) => ClosingHolds(s, a, c);
    case CloseIdle(_) => ClosingHolds(s, a, c);
    case Seal(_) => ClosingHolds(s, a, c);
    case DropConn(_) => ClosingHolds(s, a, c);
    case Mark(_) => ClosingHolds(s, a, c);
    case _ =>
  }

  // ---------------------------------------------------------------- a connection asked to close

  predicate IsShut(x: Conn) {
    x.closing || x.closed
  }

  predicate Shut(s: State, c: nat) {
    c < |s.conns| && IsShut(s.conns[c])
  }

  /** Every call inside its guard on `c` was inside it before. */
  predicate NobodyEnters(s: State, s': State, c: nat) {
    |s.calls| <= |s'.calls| &&
    forall k {:trigger s'.calls[k]} | 0 <= k < |s'.calls| && s'.calls[k].conn == c && Guarded(s'.calls[k]) ::
      k < |s.calls| && s.calls[k].conn == c && Guarded(s.calls[k])
  }

  /** At most one call and one connection change; no call enters the guard of a shut connection and the
      connection does not reopen. */
  lemma OneStaysShut(s: State, s': State, k: nat, d: nat, c: nat)
    requires Shut(s, c) && |s'.calls| == |s.calls| && |s'.conns| == |s.conns|
    requires s'.calls == s.calls ||
             (k < |s.calls| && s'.calls == s.calls[k := s'.calls[k]] && s'.calls[k].conn == s.calls[k].conn &&
              (Guarded(s'.calls[k]) ==> Guarded(s.calls[k]) || s.calls[k].conn != c))
    requires s'.conns == s.conns ||
             (d < |s.conns| && s'.conns == s.conns[d := s'.conns[d]] && (IsShut(s.conns[d]) ==> IsShut(s'.conns[d])))
    ensures Shut(s', c) && NobodyEnters(s, s', c)
  {
  }

  lemma CallStaysShut(s: State, a: Step, c: nat)
    requires Enabled(s, a) && Shut(s, c)
    requires a.StartDml? || a.TakeShared? || a.EndDml? || a.StartDdl? || a.TakeExclusive? || a.EndDdl? ||
             a.StartBegin? || a.TakeLease? || a.Begun? || a.EndTxn?
    ensures Shut(Apply(s, a), c) && NobodyEnters(s, Apply(s, a), c)
  {
    hide NobodyEnters, Count;
    OneStaysShut(s, Apply(s, a), a.k, s.calls[a.k].conn, c);
  }

  lemma EntryStaysShut(s: State, a: Step, c: nat)
    requires Enabled(s, a) && Shut(s, c) && (a.Guard? || a.Unguard? || a.Return?)
    ensures Shut(Apply(s, a), c) && NobodyEnters(s, Apply(s, a), c)
  {
    hide NobodyEnters, Count;
    OneStaysShut(s, Apply(s, a), a.k, s.calls[a.k].conn, c);
  }

  lemma ConnStaysShut(s: State, a: Step, c: nat)
    requires Enabled(s, a) && Shut(s, c)
    requires a.CloseConn? || a.Reconcile? || a.DropConn? || a.Mark? || a.CloseIdle? || a.Seal?
    ensures Shut(Apply(s, a), c) && NobodyEnters(s, Apply(s, a), c)
  {
    hide NobodyEnters, Count;
    OneStaysShut(s, Apply(s, a), 0, a.c, c);
  }

  lemma ShutStep(s: State, a: Step, c: nat)
    requires Enabled(s, a) && Shut(s, c)
    ensures Shut(Apply(s, a), c) && NobodyEnters(s, Apply(s, a), c)
  {
    match a
    case Connect =>
    case Admit(_) =>
    case StartClose =>
    case Drained =>
    case QueueClose =>
    case TakeClose =>
    case Persist =>
    case ReleaseClose =>
    case CloseConn(_) => ConnStaysShut(s, a, c);
    case Reconcile(_) => ConnStaysShut(s, a, c);
    case DropConn(_) => ConnStaysShut(s, a, c);
    case Mark(_) => ConnStaysShut(s, a, c);
    case CloseIdle(_) => ConnStaysShut(s, a, c);
    case Seal(_) => ConnStaysShut(s, a, c);
    case Guard(_) => EntryStaysShut(s, a, c);
    case Unguard(_, _) => EntryStaysShut(s, a, c);
    case Return(_) => EntryStaysShut(s, a, c);
    case _ => CallStaysShut(s, a, c);
  }

  /** Over every run, from the moment a connection is asked to close: it stays so, it is never reopened,
      and no further call gets past its statement guard. */
  lemma {:induction false} ShutAdmitsNobody(s: State, run: seq<Step>, c: nat)
    requires CanRun(s, run) && Shut(s, c)
    ensures Shut(After(s, run), c) && NobodyEnters(s, After(s, run), c)
    decreases |run|
  {
    if run != [] {
      ShutStep(s, run[0], c);
      hide Enabled, Apply;
      ShutAdmitsNobody(Apply(s, run[0]), run[1..], c);
    }
  }

  /** A call gets past the guard exactly when its connection is not shut and no other call is inside. */
  lemma GuardExact(s: State, k: nat)
    requires Reachable(s) && Enabled(s, Guard(k))
    ensures var c := s.calls[k].conn;
            && (Apply(s, Guard(k)).calls[k].at == Ready <==>
                !Shut(s, c) && forall j | 0 <= j < |s.calls| && s.calls[j].conn == c :: !Guarded(s.calls[j]))
            && Apply(s, Guard(k)).calls[k].at in {Ready, Refused}
  {
    var c := s.calls[k].conn;
    ReachableInv(s);
    assert ConnOk(s, c);
    CountNone(s.calls, GuardedOn(c));
  }
}
