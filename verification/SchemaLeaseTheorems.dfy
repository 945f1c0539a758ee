/** What the lease and shutdown protocol guarantees in every state it can reach. */
module SchemaLeaseTheorems {
  import opened Counting
  import opened SchemaLeases
  import opened SchemaLeaseSafety

  /** Some run from the start leads to `s`. */
  ghost predicate Reachable(s: State) {
    exists run: seq<Step> {:trigger CanRun(Init(), run)} :: CanRun(Init(), run) && After(Init(), run) == s
  }

  lemma ReachableInv(s: State)
    requires Reachable(s)
    ensures Inv(s)
  {
    var run: seq<Step> :| CanRun(Init(), run) && After(Init(), run) == s;
    ReachedInv(run);
  }

  /** The counters are the holders: `shared` the leased transactions and running statements, `active`
      the calls that have not returned. */
  lemma CountersExact(s: State)
    requires Reachable(s)
    ensures s.shared == Count(s.conns, IsLeased) + Count(s.calls, OwnsShared)
    ensures s.active == Count(s.calls, IsActive)
    ensures s.waiting == Count(s.calls, WantsExclusive) + One(s.stage == LeaseWaiting)
  {
    ReachableInv(s);
  }

  /** Nobody else holds anything while the exclusive lease is held. */
  lemma ExclusiveIsAlone(s: State, c: nat, k: nat)
    requires Inv(s) && s.exclusive
    ensures c < |s.conns| ==> !s.conns[c].leased && !s.conns[c].txn
    ensures k < |s.calls| ==> !s.calls[k].at.Dml? && s.calls[k].at != BeginLeased
  {
    CountNone(s.conns, IsLeased);
    CountNone(s.calls, OwnsShared);
    if k < |s.calls| {
      assert CallOk(s, k);
      assert !OwnsShared(s.calls[k]) && !IsLeased(s.conns[s.calls[k].conn]);
    }
    if c < |s.conns| {
      assert ConnOk(s, c);
      assert !IsLeased(s.conns[c]);
    }
  }

  /** A schema change runs alone: no transaction is open on any connection, no statement is running, no
      other schema change and no durable close. */
  lemma DdlRunsAlone(s: State, k: nat)
    requires Reachable(s) && k < |s.calls| && s.calls[k].at == Ddl
    ensures forall c | 0 <= c < |s.conns| :: !s.conns[c].txn && !s.conns[c].leased
    ensures forall u | 0 <= u < |s.calls| && u != k ::
            !s.calls[u].at.Dml? && s.calls[u].at != Ddl && s.calls[u].at != BeginLeased
    ensures s.stage != Holding && s.stage != Persisted
  {
    ReachableInv(s);
    CountSome(s.calls, k, HasExclusive);
    forall c | 0 <= c < |s.conns| ensures !s.conns[c].txn && !s.conns[c].leased {
      ExclusiveIsAlone(s, c, k);
    }
    forall u | 0 <= u < |s.calls| && u != k
      ensures !s.calls[u].at.Dml? && s.calls[u].at != Ddl && s.calls[u].at != BeginLeased
    {
      ExclusiveIsAlone(s, 0, u);
      if HasExclusive(s.calls[u]) {
        if u < k {
          CountTwo(s.calls, u, k, HasExclusive);
        } else {
          CountTwo(s.calls, k, u, HasExclusive);
        }
      }
    }
  }

  /** When the durable close runs, every call has returned, every connection found is closed, no
      transaction is open anywhere, and it has not run before. */
  lemma PersistIsQuiet(s: State)
    requires Reachable(s) && Enabled(s, Persist)
    ensures s.persisted == 0
    ensures forall k | 0 <= k < |s.calls| :: s.calls[k].at == Gone
    ensures forall c | 0 <= c < |s.conns| :: !s.conns[c].txn && (s.conns[c].closed || s.conns[c].dropped)
  {
    ReachableInv(s);
    CountNone(s.calls, IsActive);
    forall k | 0 <= k < |s.calls| ensures s.calls[k].at == Gone {
      assert !IsActive(s.calls[k]);
    }
    forall c | 0 <= c < |s.conns| ensures !s.conns[c].txn && (s.conns[c].closed || s.conns[c].dropped) {
      ExclusiveIsAlone(s, c, 0);
      assert ConnOk(s, c);
    }
  }

  lemma PersistedAtMostOnce(s: State)
    requires Reachable(s)
    ensures s.persisted <= 1 && (s.stage == Closed ==> s.persisted == 1)
  {
    ReachableInv(s);
  }

  /** Between statements a connection holds the lease exactly while its transaction is open. */
  lemma LeaseFollowsTransaction(s: State, c: nat)
    requires Reachable(s) && c < |s.conns|
    ensures s.conns[c].txn ==> s.conns[c].leased && s.shared > 0 && !s.exclusive
    ensures !s.conns[c].busy ==> (s.conns[c].leased <==> s.conns[c].txn)
    ensures s.conns[c].closed ==> !s.conns[c].txn && !s.conns[c].leased
  {
    ReachableInv(s);
    assert ConnOk(s, c);
    if s.conns[c].txn {
      LeasedIsShared(s, c);
    }
  }

  /** Giving back a lease never finds the manager without one to give back. */
  lemma ReleasesAreSafe(s: State, k: nat)
    requires Reachable(s) && k < |s.calls|
    ensures s.calls[k].at == Dml(true) || s.calls[k].at == BeginLeased ==> s.shared > 0
    ensures s.calls[k].at == Ddl ==> s.exclusive
    ensures s.calls[k].at == DdlWaiting ==> s.waiting > 0
    ensures s.calls[k].at != Gone ==> s.active > 0
  {
    ReachableInv(s);
    assert CallOk(s, k);
    match s.calls[k].at
    case Dml(own) =>
      CountSome(s.calls, k, IsActive);
      if own {
        CountSome(s.calls, k, OwnsShared);
      }
    case BeginLeased =>
      CountSome(s.calls, k, IsActive);
      LeasedIsShared(s, s.calls[k].conn);
    case Ddl =>
      CountSome(s.calls, k, IsActive);
      CountSome(s.calls, k, HasExclusive);
    case DdlWaiting =>
      CountSome(s.calls, k, IsActive);
      CountSome(s.calls, k, WantsExclusive);
    case Gone =>
    case _ =>
      CountSome(s.calls, k, IsActive);
  }

  // ---------------------------------------------------------------- shutdown is never stuck

  /** A step of the closing thread, of a call already admitted, or of a dropped connection's destructor:
      no new call, no new connection and no decision of a session is needed. */
  predicate OwnStep(s: State, a: Step) {
    match a
    case Connect => false
    case Admit(_) => false
    case CloseConn(c) => c < |s.conns| && s.conns[c].dropped && !s.conns[c].closed
    case Reconcile(_) => false
    case DropConn(_) => false
    case _ => true
  }

  /** The steps that bring shutdown closer to its end. */
  predicate Forward(s: State, a: Step) {
    match a
    case Guard(_) => true
    case TakeShared(_) => true
    case EndDml(_) => true
    case TakeExclusive(_) => true
    case EndDdl(_) => true
    case TakeLease(_) => true
    case Begun(_, ok) => ok
    case Unguard(_, reconcile) => !reconcile
    case Return(_) => true
    case CloseConn(c) => c < |s.conns| && s.conns[c].dropped && !s.conns[c].closed
    case Mark(_) => true
    case CloseIdle(_) => true
    case Drained => true
    case Seal(_) => true
    case QueueClose => true
    case TakeClose => true
    case Persist => true
    case ReleaseClose => true
    case _ => false
  }

  /** A call that waits for no lease can take its next step. */
  lemma CallCanStep(s: State, k: nat) returns (a: Step)
    requires Inv(s) && Reachable(s) && k < |s.calls| && s.calls[k].at != Gone
    requires s.calls[k].at != DmlWaiting && s.calls[k].at != DdlWaiting && s.calls[k].at != BeginWaiting
    ensures Enabled(s, a) && OwnStep(s, a) && Forward(s, a)
  {
    hide Reachable, LeasesOk, After, Count, IsActive, ConnOk, CanRun;
    assert CallOk(s, k);
    ReleasesAreSafe(s, k);
    hide Inv;
    match s.calls[k].at
    case Admitted => a := Guard(k);
    case Refused => a := Return(k);
    case Ready =>
      if s.conns[s.calls[k].conn].leased {
        LeaseGivesShared(s, s.calls[k].conn);
      }
      a := Unguard(k, false);
    case Dml(_) => a := EndDml(k);
    case Ddl => a := EndDdl(k);
    case BeginLeased => a := Begun(k, true);
    case Leaving => a := Return(k);
  }

  lemma LeaseGivesShared(s: State, c: nat)
    requires Reachable(s) && c < |s.conns| && s.conns[c].leased
    ensures s.shared > 0
  {
    ReachableInv(s);
    LeasedIsShared(s, c);
  }

  predicate Waits(x: Call) {
    x.at == DmlWaiting || x.at == DdlWaiting || x.at == BeginWaiting || x.at == Gone
  }

  /** Where every call left waits for a lease, only an idle transaction can be in the way, and after
      marking and closing the idle connections none is left but on dropped connections. */
  lemma OnlyDroppedInTheWay(s: State, c: nat)
    requires Inv(s) && s.stage == Draining && c < |s.conns| && s.conns[c].leased
    requires forall k | 0 <= k < |s.calls| :: Waits(s.calls[k])
    ensures s.conns[c].dropped
  {
    assert ConnOk(s, c);
    forall k | 0 <= k < |s.calls| ensures !GuardedOn(c)(s.calls[k]) {
      assert CallOk(s, k) && Waits(s.calls[k]);
    }
    CountNone(s.calls, GuardedOn(c));
  }

  lemma {:induction false} SomeCounted<T>(xs: seq<T>, f: T -> bool) returns (i: nat)
    requires Count(xs, f) > 0
    ensures i < |xs| && f(xs[i])
  {
    var n := |xs| - 1;
    if f(xs[n]) {
      i := n;
    } else {
      i := SomeCounted(xs[..n], f);
    }
  }

  /** With no lease held, whoever waits for one can take it: the exclusive waiters first. */
  lemma WaiterCanStep(s: State, k: nat) returns (a: Step)
    requires Inv(s) && s.shared == 0 && !s.exclusive && k < |s.calls| && Waits(s.calls[k]) && s.calls[k].at != Gone
    requires s.stage == Draining
    ensures Enabled(s, a) && OwnStep(s, a) && Forward(s, a)
  {
    assert CallOk(s, k);
    if s.waiting > 0 {
      var u := SomeCounted(s.calls, WantsExclusive);
      assert CallOk(s, u);
      a := TakeExclusive(u);
    } else {
      if s.calls[k].at == DdlWaiting {
        CountSome(s.calls, k, WantsExclusive);
        assert false;
      }
      a := if s.calls[k].at == DmlWaiting then TakeShared(k) else TakeLease(k);
    }
  }

  lemma DrainingCanStep(s: State) returns (a: Step)
    requires Reachable(s) && s.stage == Draining
    ensures Enabled(s, a) && OwnStep(s, a) && Forward(s, a)
  {
    ReachableInv(s);
    if s.active == 0 {
      a := Drained;
    } else {
      var k := SomeCounted(s.calls, IsActive);
      if u :| 0 <= u < |s.calls| && !Waits(s.calls[u]) {
        a := CallCanStep(s, u);
      } else {
        NobodyExclusive(s);
        if s.shared == 0 {
          a := WaiterCanStep(s, k);
        } else {
          CountNone(s.calls, OwnsShared);
          var c := SomeCounted(s.conns, IsLeased);
          OnlyDroppedInTheWay(s, c);
          assert ConnOk(s, c);
          a := CloseConn(c);
        }
      }
    }
  }

  lemma NobodyExclusive(s: State)
    requires Inv(s) && s.stage == Draining && forall k | 0 <= k < |s.calls| :: Waits(s.calls[k])
    ensures !s.exclusive && Count(s.calls, OwnsShared) == 0
  {
    CountNone(s.calls, HasExclusive);
    CountNone(s.calls, OwnsShared);
  }

  /** With no call active, nobody is inside a guard and nobody holds a lease of its own. */
  lemma NobodyActive(s: State, c: nat)
    requires Inv(s) && s.active == 0 && c < |s.conns|
    ensures !s.conns[c].busy && Count(s.calls, OwnsShared) == 0 && Count(s.calls, HasExclusive) == 0
  {
    CountNone(s.calls, IsActive);
    forall k | 0 <= k < |s.calls| ensures s.calls[k].at == Gone {
      assert !IsActive(s.calls[k]);
    }
    CountNone(s.calls, GuardedOn(c));
    CountNone(s.calls, OwnsShared);
    CountNone(s.calls, HasExclusive);
    assert ConnOk(s, c);
  }

  /** The loops over the connections found go on while any is left. */
  lemma LoopCanStep(s: State) returns (a: Step)
    requires Reachable(s) && (s.stage.Marking? || s.stage.Idling? || s.stage.Sealing?)
    ensures Enabled(s, a) && OwnStep(s, a) && Forward(s, a)
  {
    ReachableInv(s);
    if s.stage == Sealing({}) {
      a := QueueClose;
    } else {
      var c :| c in s.stage.left;
      assert c in s.snapshot;
      if s.conns[c].leased {
        LeaseGivesShared(s, c);
      }
      match s.stage
      case Marking(_) => a := Mark(c);
      case Idling(_) => a := CloseIdle(c);
      case Sealing(_) =>
        NobodyActive(s, c);
        a := Seal(c);
    }
  }

  /** The last lease is the closing thread's as soon as no dropped connection still holds one. */
  lemma LastLeaseCanStep(s: State) returns (a: Step)
    requires Reachable(s) && s.stage == LeaseWaiting
    ensures Enabled(s, a) && OwnStep(s, a) && Forward(s, a)
  {
    ReachableInv(s);
    CountNone(s.calls, IsActive);
    forall k | 0 <= k < |s.calls| ensures s.calls[k].at == Gone {
      assert !IsActive(s.calls[k]);
    }
    CountNone(s.calls, OwnsShared);
    CountNone(s.calls, HasExclusive);
    if s.shared == 0 {
      a := TakeClose;
    } else {
      var c := SomeCounted(s.conns, IsLeased);
      assert ConnOk(s, c);
      a := CloseConn(c);
    }
  }

  /** Once it has begun, shutdown is never stuck: until it is done, some step can be taken that needs no
      new call and no decision of any session. */
  lemma ShutdownNeverStuck(s: State) returns (a: Step)
    requires Reachable(s) && s.stage != Open && s.stage != Closed
    ensures Enabled(s, a) && OwnStep(s, a) && Forward(s, a)
  {
    ReachableInv(s);
    match s.stage
    case Draining => a := DrainingCanStep(s);
    case Marking(left) => a := LoopCanStep(s);
    case Idling(left) => a := LoopCanStep(s);
    case Sealing(left) => a := LoopCanStep(s);
    case LeaseWaiting => a := LastLeaseCanStep(s);
    case Holding => a := Persist;
    case Persisted => a := ReleaseClose;
  }
}
