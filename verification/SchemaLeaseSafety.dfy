/** What every interleaving of sessions and shutdown keeps, and what follows for DDL and the durable
    close. */
module SchemaLeaseSafety {
  import opened Counting
  import opened SchemaLeases

  // ---------------------------------------------------------------- the invariant

  function One(b: bool): nat {
    if b then 1 else 0
  }

  /** A busy connection runs exactly one statement; a closed one is idle and holds nothing; a connection
      that is not busy has a transaction exactly when it holds the lease. */
  predicate ConnOk(s: State, c: nat)
    requires c < |s.conns|
  {
    var x := s.conns[c];
    && Count(s.calls, GuardedOn(c)) == One(x.busy)
    && (x.closed ==> !x.busy && !x.txn && !x.leased && !x.closing)
    && (x.txn ==> x.leased) && (!x.busy ==> (x.leased <==> x.txn))
    && (x.dropped ==> Count(s.calls, ActiveOn(c)) == 0)
    && (s.stage != Open ==> c in s.snapshot || x.dropped)
  }

  /** Where a call stands says what its connection holds. */
  predicate CallOk(s: State, k: nat)
    requires k < |s.calls|
  {
    s.calls[k].conn < |s.conns| &&
    var x := s.conns[s.calls[k].conn];
    match s.calls[k].at
    case Ready => x.leased <==> x.txn
    case Dml(own) => if own then !x.leased && !x.txn else x.leased && x.txn
    case BeginLeased => x.leased && !x.txn
    case DmlWaiting => !x.leased && !x.txn
    case DdlWaiting => !x.leased && !x.txn
    case Ddl => !x.leased && !x.txn
    case BeginWaiting => !x.leased && !x.txn
    case _ => true
  }

  /** The lease manager's counters are the holders and waiters, and an exclusive lease excludes all. */
  predicate LeasesOk(s: State) {
    && s.shared == Count(s.conns, IsLeased) + Count(s.calls, OwnsShared)
    && s.waiting == Count(s.calls, WantsExclusive) + One(s.stage == LeaseWaiting)
    && One(s.exclusive) == Count(s.calls, HasExclusive) + One(s.stage == Holding || s.stage == Persisted)
    && (s.exclusive ==> s.shared == 0)
  }

  /** Of the connections in `cs`, all but those `left` are closed. */
  predicate AllClosed(s: State, cs: set<nat>, left: set<nat>) {
    forall c {:trigger c in cs} | c in cs :: c in left || (c < |s.conns| && s.conns[c].closed)
  }

  predicate AllMarked(s: State, cs: set<nat>, left: set<nat>) {
    forall c {:trigger c in cs} | c in cs :: c in left || (c < |s.conns| && (s.conns[c].closed || s.conns[c].closing))
  }

  /** Closed, or to be closed by the call that is still inside its guard. */
  predicate AllSettled(s: State, cs: set<nat>, left: set<nat>) {
    forall c {:trigger c in cs} | c in cs ::
      c in left || (c < |s.conns| && (s.conns[c].closed || (s.conns[c].closing && s.conns[c].busy)))
  }

  /** How far the closing thread has got with the connections it found; past draining no call is active. */
  predicate StageOk(s: State) {
    && (forall c {:trigger c in s.snapshot} | c in s.snapshot :: c < |s.conns|)
    && s.persisted == One(s.stage == Persisted || s.stage == Closed)
    && match s.stage
       case Open => true
       case Marking(left) => left != {} && left <= s.snapshot && AllMarked(s, s.snapshot, left)
       case Idling(left) => left != {} && left <= s.snapshot && AllMarked(s, s.snapshot, {}) &&
           AllSettled(s, s.snapshot, left)
       case Draining => AllSettled(s, s.snapshot, {})
       case Sealing(left) => left <= s.snapshot && s.active == 0 && AllClosed(s, s.snapshot, left)
       case _ => s.active == 0 && AllClosed(s, s.snapshot, {})
  }

  predicate Inv(s: State) {
    && (forall c {:trigger ConnOk(s, c)} | 0 <= c < |s.conns| :: ConnOk(s, c))
    && (forall k {:trigger CallOk(s, k)} | 0 <= k < |s.calls| :: CallOk(s, k))
    && s.active == Count(s.calls, IsActive) && LeasesOk(s) && StageOk(s)
  }

  // ---------------------------------------------------------------- counting facts

  lemma {:induction false} CountTwo<T>(xs: seq<T>, i: nat, j: nat, f: T -> bool)
    requires i < j < |xs| && f(xs[i]) && f(xs[j])
    ensures Count(xs, f) >= 2
  {
    var n := |xs| - 1;
    if j == n {
      CountSome(xs[..n], i, f);
    } else {
      CountTwo(xs[..n], i, j, f);
    }
  }

  /** Only one call at a time is inside a connection's guard. */
  lemma AloneInside(s: State, k: nat, u: nat)
    requires k < |s.calls| && u < |s.calls| && k != u && s.calls[k].conn < |s.conns|
    requires ConnOk(s, s.calls[k].conn) && Guarded(s.calls[k]) && s.calls[u].conn == s.calls[k].conn
    ensures !Guarded(s.calls[u])
  {
    if Guarded(s.calls[u]) {
      var f := GuardedOn(s.calls[k].conn);
      if k < u {
        CountTwo(s.calls, k, u, f);
      } else {
        CountTwo(s.calls, u, k, f);
      }
    }
  }

  /** A call inside a guard keeps its connection busy; a connection that is not busy has none. */
  lemma InsideIsBusy(s: State, k: nat)
    requires k < |s.calls| && s.calls[k].conn < |s.conns| && ConnOk(s, s.calls[k].conn) && Guarded(s.calls[k])
    ensures s.conns[s.calls[k].conn].busy && !s.conns[s.calls[k].conn].closed && !s.conns[s.calls[k].conn].dropped
  {
    CountSome(s.calls, k, GuardedOn(s.calls[k].conn));
    CountSome(s.calls, k, ActiveOn(s.calls[k].conn));
  }

  lemma LeasedIsShared(s: State, c: nat)
    requires LeasesOk(s) && c < |s.conns| && s.conns[c].leased
    ensures s.shared > 0 && !s.exclusive
  {
    CountSome(s.conns, c, IsLeased);
  }

  // ---------------------------------------------------------------- a step inside one call

  /** `s'` moves call k and changes its connection, and perhaps the lease counters. */
  predicate Inside(s: State, s': State, k: nat) {
    && k < |s.calls| == |s'.calls| && s.calls[k].conn < |s.conns| == |s'.conns| && s'.calls[k].conn == s.calls[k].conn
    && s'.calls == s.calls[k := s'.calls[k]] && s'.conns == s.conns[s.calls[k].conn := s'.conns[s.calls[k].conn]]
    && s' == s.(calls := s'.calls, conns := s'.conns, shared := s'.shared, waiting := s'.waiting,
               exclusive := s'.exclusive, active := s'.active)
  }

  lemma InsideConn(s: State, s': State, k: nat, c: nat)
    requires Inside(s, s', k) && c < |s.conns| && c != s.calls[k].conn && ConnOk(s, c)
    ensures ConnOk(s', c)
  {
    CountMove(s.calls, k, s'.calls[k], GuardedOn(c));
    CountMove(s.calls, k, s'.calls[k], ActiveOn(c));
  }

  lemma InsideCall(s: State, s': State, k: nat, u: nat)
    requires Inside(s, s', k) && u < |s.calls| && u != k && CallOk(s, u)
    requires s.calls[u].conn == s.calls[k].conn ==> !Guarded(s.calls[u]) || s'.conns == s.conns
    ensures CallOk(s', u)
  {
  }

  /** Everything but the counters, for a step inside one call. */
  lemma InsideKeeps(s: State, s': State, k: nat)
    requires Inv(s) && Inside(s, s', k) && CallOk(s', k) && ConnOk(s', s.calls[k].conn)
    requires s'.conns == s.conns ||
             forall u | 0 <= u < |s.calls| && u != k && s.calls[u].conn == s.calls[k].conn :: !Guarded(s.calls[u])
    ensures forall c {:trigger ConnOk(s', c)} | 0 <= c < |s'.conns| :: ConnOk(s', c)
    ensures forall u {:trigger CallOk(s', u)} | 0 <= u < |s'.calls| :: CallOk(s', u)
  {
    forall c | 0 <= c < |s'.conns| ensures ConnOk(s', c) {
      assert ConnOk(s, c);
      if c != s.calls[k].conn {
        InsideConn(s, s', k, c);
      }
    }
    forall u | 0 <= u < |s'.calls| ensures CallOk(s', u) {
      assert CallOk(s, u);
      if u != k {
        InsideCall(s, s', k, u);
      }
    }
  }

  /** How the counts change when call k moves and its connection changes. */
  lemma InsideCounts(s: State, s': State, k: nat)
    requires Inside(s, s', k)
    ensures var c := s.calls[k].conn;
            && Count(s'.conns, IsLeased) + One(s.conns[c].leased) == Count(s.conns, IsLeased) + One(s'.conns[c].leased)
            && Count(s'.calls, OwnsShared) + One(OwnsShared(s.calls[k])) == Count(s.calls, OwnsShared) +
               One(OwnsShared(s'.calls[k]))
            && Count(s'.calls, WantsExclusive) + One(WantsExclusive(s.calls[k])) == Count(s.calls, WantsExclusive) +
               One(WantsExclusive(s'.calls[k]))
            && Count(s'.calls, HasExclusive) + One(HasExclusive(s.calls[k])) == Count(s.calls, HasExclusive) +
               One(HasExclusive(s'.calls[k]))
            && Count(s'.calls, IsActive) + One(IsActive(s.calls[k])) == Count(s.calls, IsActive) +
               One(IsActive(s'.calls[k]))
  {
    var c := s.calls[k].conn;
    CountMove(s.conns, c, s'.conns[c], IsLeased);
    CountMove(s.calls, k, s'.calls[k], OwnsShared);
    CountMove(s.calls, k, s'.calls[k], WantsExclusive);
    CountMove(s.calls, k, s'.calls[k], HasExclusive);
    CountMove(s.calls, k, s'.calls[k], IsActive);
  }

  /** A step taken inside a statement guard, staying inside it. */
  predicate Statement(a: Step) {
    a.StartDml? || a.TakeShared? || a.EndDml? || a.StartDdl? || a.TakeExclusive? || a.EndDdl? ||
    a.StartBegin? || a.TakeLease? || a.Begun? || a.EndTxn?
  }

  /** `s'` moves call k within its guard and changes at most what its connection holds. */
  ghost predicate Shaped(s: State, s': State, k: nat) {
    && Inside(s, s', k) && Guarded(s.calls[k]) && Guarded(s'.calls[k]) && s'.active == s.active && CallOk(s', k)
    && var x, x' := s.conns[s.calls[k].conn], s'.conns[s.calls[k].conn];
       && x'.busy == x.busy && x'.closed == x.closed && x'.closing == x.closing && x'.dropped == x.dropped
       && (x'.txn ==> x'.leased)
  }

  lemma DmlShape(s: State, a: Step)
    requires Enabled(s, a) && (a.StartDml? || a.TakeShared? || a.EndDml? || a.StartBegin?)
    requires a.k < |s.calls| && CallOk(s, a.k) && ConnOk(s, s.calls[a.k].conn)
    ensures Shaped(s, Apply(s, a), a.k)
  {
    hide Count;
  }

  lemma DdlShape(s: State, a: Step)
    requires Enabled(s, a) && (a.StartDdl? || a.TakeExclusive? || a.EndDdl?)
    requires a.k < |s.calls| && CallOk(s, a.k) && ConnOk(s, s.calls[a.k].conn)
    ensures Shaped(s, Apply(s, a), a.k)
  {
    hide Count;
  }

  lemma TxnShape(s: State, a: Step)
    requires Enabled(s, a) && (a.TakeLease? || a.Begun? || a.EndTxn?)
    requires a.k < |s.calls| && CallOk(s, a.k) && ConnOk(s, s.calls[a.k].conn)
    ensures Shaped(s, Apply(s, a), a.k)
  {
    hide Count;
  }

  lemma StatementShape(s: State, a: Step)
    requires Inv(s) && Enabled(s, a) && Statement(a)
    ensures Shaped(s, Apply(s, a), a.k)
  {
    assert CallOk(s, a.k) && ConnOk(s, s.calls[a.k].conn);
    hide StageOk, Count, ConnOk, LeasesOk, CallOk, Apply, Enabled, Shaped;
    if a.StartDml? || a.TakeShared? || a.EndDml? || a.StartBegin? {
      DmlShape(s, a);
    } else if a.StartDdl? || a.TakeExclusive? || a.EndDdl? {
      DdlShape(s, a);
    } else {
      TxnShape(s, a);
    }
  }

  lemma StatementConn(s: State, a: Step)
    requires Inv(s) && Enabled(s, a) && Statement(a)
    ensures ConnOk(Apply(s, a), s.calls[a.k].conn)
  {
    hide Apply, Enabled;
    StatementShape(s, a);
    var k, c, s' := a.k, s.calls[a.k].conn, Apply(s, a);
    assert ConnOk(s, c);
    InsideIsBusy(s, k);
    CountMove(s.calls, k, s'.calls[k], GuardedOn(c));
    CountMove(s.calls, k, s'.calls[k], ActiveOn(c));
  }

  /** One statement step balances the lease counters. */
  lemma DmlLeases(s: State, a: Step)
    requires Inv(s) && Enabled(s, a) && (a.StartDml? || a.TakeShared? || a.EndDml? || a.StartBegin?)
    ensures LeasesOk(Apply(s, a)) && Apply(s, a).active == Count(Apply(s, a).calls, IsActive)
  {
    hide StageOk, Count, ConnOk;
    StatementShape(s, a);
    InsideCounts(s, Apply(s, a), a.k);
  }

  lemma DdlLeases(s: State, a: Step)
    requires Inv(s) && Enabled(s, a) && (a.StartDdl? || a.TakeExclusive? || a.EndDdl?)
    ensures LeasesOk(Apply(s, a)) && Apply(s, a).active == Count(Apply(s, a).calls, IsActive)
  {
    hide StageOk, Count, ConnOk;
    StatementShape(s, a);
    InsideCounts(s, Apply(s, a), a.k);
  }

  lemma TxnLeases(s: State, a: Step)
    requires Inv(s) && Enabled(s, a) && (a.TakeLease? || a.Begun? || a.EndTxn?)
    ensures LeasesOk(Apply(s, a)) && Apply(s, a).active == Count(Apply(s, a).calls, IsActive)
  {
    hide StageOk, Count, ConnOk;
    StatementShape(s, a);
    InsideCounts(s, Apply(s, a), a.k);
    assert CallOk(s, a.k);
  }

  lemma StatementKeeps(s: State, a: Step)
    requires Inv(s) && Enabled(s, a) && Statement(a)
    ensures Inv(Apply(s, a))
  {
    hide Apply, Enabled, LeasesOk;
    var s' := Apply(s, a);
    StatementShape(s, a);
    StatementConn(s, a);
    forall u | 0 <= u < |s.calls| && u != a.k && s.calls[u].conn == s.calls[a.k].conn ensures !Guarded(s.calls[u]) {
      assert ConnOk(s, s.calls[a.k].conn);
      AloneInside(s, a.k, u);
    }
    InsideKeeps(s, s', a.k);
    if a.StartDml? || a.TakeShared? || a.EndDml? || a.StartBegin? {
      DmlLeases(s, a);
    } else if a.StartDdl? || a.TakeExclusive? || a.EndDdl? {
      DdlLeases(s, a);
    } else {
      TxnLeases(s, a);
    }
    InsideIsBusy(s, a.k);
    StageFrame(s, s');
  }

  /** A closed connection stays closed, a marked one stays marked or closes, and a marked busy one closes
      when its call leaves the guard. */
  predicate Advances(x: Conn, x': Conn) {
    && (x.closed ==> x'.closed) && (x.closing ==> x'.closing || x'.closed)
    && (x.closing && x.busy ==> x'.closed || (x'.closing && x'.busy))
  }

  /** The stage facts survive when every connection only advances and nobody becomes active. */
  lemma StageFrame(s: State, s': State)
    requires StageOk(s) && s'.stage == s.stage && s'.snapshot == s.snapshot && s'.persisted == s.persisted
    requires |s.conns| <= |s'.conns| &&
             (forall c {:trigger s.conns[c]} | 0 <= c < |s.conns| :: Advances(s.conns[c], s'.conns[c]))
    requires s.active == 0 ==> s'.active == 0
    ensures StageOk(s')
  {
  }

  // ---------------------------------------------------------------- a step on an idle connection

  /** `s'` ends what connection c holds, or closes it; nobody is inside its guard. */
  predicate Emptied(s: State, s': State, c: nat) {
    && c < |s.conns| == |s'.conns| && !s.conns[c].busy && !s.conns[c].closed
    && s'.conns[c].(closed := s.conns[c].closed, closing := s.conns[c].closing) ==
       s.conns[c].(txn := false, leased := false)
    && s'.conns[c].closing == (!s'.conns[c].closed && s.conns[c].closing)
    && s'.conns == s.conns[c := s'.conns[c]]
    && s'.shared + One(s.conns[c].leased) == s.shared
    && s' == s.(conns := s'.conns, shared := s'.shared, stage := s'.stage)
  }

  lemma EmptiedConn(s: State, s': State, c: nat, d: nat)
    requires Emptied(s, s', c) && d < |s.conns| && ConnOk(s, d) && (s'.stage != Open ==> s.stage != Open)
    ensures ConnOk(s', d)
  {
  }

  lemma EmptiedCall(s: State, s': State, c: nat, u: nat)
    requires Emptied(s, s', c) && ConnOk(s, c) && u < |s.calls| && CallOk(s, u)
    ensures CallOk(s', u)
  {
    CountNone(s.calls, GuardedOn(c));
    assert !GuardedOn(c)(s.calls[u]);
  }

  lemma EmptiedLeases(s: State, s': State, c: nat)
    requires Emptied(s, s', c) && LeasesOk(s)
    requires (s'.stage == LeaseWaiting <==> s.stage == LeaseWaiting)
    requires (s'.stage == Holding || s'.stage == Persisted <==> s.stage == Holding || s.stage == Persisted)
    ensures LeasesOk(s')
  {
    CountMove(s.conns, c, s'.conns[c], IsLeased);
  }

  /** Everything but the stage facts. */
  predicate Core(s: State) {
    && (forall c {:trigger ConnOk(s, c)} | 0 <= c < |s.conns| :: ConnOk(s, c))
    && (forall k {:trigger CallOk(s, k)} | 0 <= k < |s.calls| :: CallOk(s, k))
    && s.active == Count(s.calls, IsActive) && LeasesOk(s)
  }

  lemma EmptiedKeeps(s: State, s': State, c: nat)
    requires Inv(s) && Emptied(s, s', c) && (s'.stage != Open ==> s.stage != Open)
    requires (s'.stage == LeaseWaiting <==> s.stage == LeaseWaiting)
    requires (s'.stage == Holding || s'.stage == Persisted <==> s.stage == Holding || s.stage == Persisted)
    ensures Core(s')
  {
    hide LeasesOk;
    forall d | 0 <= d < |s'.conns| ensures ConnOk(s', d) {
      assert ConnOk(s, d);
      EmptiedConn(s, s', c, d);
    }
    forall u | 0 <= u < |s'.calls| ensures CallOk(s', u) {
      assert CallOk(s, u) && ConnOk(s, c);
      EmptiedCall(s, s', c, u);
    }
    EmptiedLeases(s, s', c);
  }

  /** Only flags that nobody's standing depends on change, or the stage moves on. */
  predicate Flagged(s: State, s': State, c: nat) {
    && c < |s.conns| == |s'.conns| && s'.conns == s.conns[c := s'.conns[c]]
    && s'.conns[c] == s.conns[c].(closing := s'.conns[c].closing, dropped := s'.conns[c].dropped)
    && (s'.conns[c].closing ==> !s.conns[c].closed) && (s.conns[c].dropped ==> s'.conns[c].dropped)
    && (s'.conns[c].dropped ==> Count(s.calls, ActiveOn(c)) == 0)
    && s' == s.(conns := s'.conns, stage := s'.stage)
    && (s'.stage != Open ==> s.stage != Open)
    && (s'.stage == LeaseWaiting <==> s.stage == LeaseWaiting)
    && (s'.stage == Holding || s'.stage == Persisted <==> s.stage == Holding || s.stage == Persisted)
  }

  lemma FlaggedKeeps(s: State, s': State, c: nat)
    requires Inv(s) && Flagged(s, s', c)
    ensures Core(s')
  {
    forall d | 0 <= d < |s'.conns| ensures ConnOk(s', d) {
      assert ConnOk(s, d);
    }
    forall u | 0 <= u < |s'.calls| ensures CallOk(s', u) {
      assert CallOk(s, u);
    }
    CountMove(s.conns, c, s'.conns[c], IsLeased);
  }

  // ---------------------------------------------------------------- admission, guard and return

  lemma ConnectKeeps(s: State)
    requires Inv(s) && Enabled(s, Connect)
    ensures Inv(Apply(s, Connect))
  {
    var s' := Apply(s, Connect);
    forall c | 0 <= c < |s'.conns| ensures ConnOk(s', c) {
      if c < |s.conns| {
        assert ConnOk(s, c);
      } else {
        CountNone(s.calls, GuardedOn(c));
        forall k | 0 <= k < |s.calls| ensures !GuardedOn(c)(s.calls[k]) {
          assert CallOk(s, k);
        }
      }
    }
    forall k | 0 <= k < |s'.calls| ensures CallOk(s', k) {
      assert CallOk(s, k);
    }
    CountAppend(s.conns, [Conn(false, false, false, false, false, false)], IsLeased);
  }

  lemma AdmitKeeps(s: State, c: nat)
    requires Inv(s) && Enabled(s, Admit(c))
    ensures Inv(Apply(s, Admit(c)))
  {
    var s', more := Apply(s, Admit(c)), [Call(c, Admitted)];
    forall d | 0 <= d < |s'.conns| ensures ConnOk(s', d) {
      assert ConnOk(s, d);
      CountAppend(s.calls, more, GuardedOn(d));
      CountAppend(s.calls, more, ActiveOn(d));
    }
    forall k | 0 <= k < |s'.calls| ensures CallOk(s', k) {
      assert k < |s.calls| ==> CallOk(s, k);
    }
    CountAppend(s.calls, more, OwnsShared);
    CountAppend(s.calls, more, WantsExclusive);
    CountAppend(s.calls, more, HasExclusive);
    CountAppend(s.calls, more, IsActive);
  }

  // ---------------------------------------------------------------- entering and leaving the guard

  /** Assembles a step that moves one call, once its own facts are known. */
  lemma OneCallKeeps(s: State, s': State, k: nat)
    requires Inv(s) && Inside(s, s', k) && CallOk(s', k) && ConnOk(s', s.calls[k].conn)
    requires s'.conns == s.conns ||
             forall u | 0 <= u < |s.calls| && u != k && s.calls[u].conn == s.calls[k].conn :: !Guarded(s.calls[u])
    requires LeasesOk(s') && s'.active == Count(s'.calls, IsActive) && s'.active <= s.active
    requires Advances(s.conns[s.calls[k].conn], s'.conns[s.calls[k].conn])
    ensures Inv(s')
  {
    hide LeasesOk, CallOk, ConnOk, Count;
    InsideKeeps(s, s', k);
    StageFrame(s, s');
  }

  lemma GuardConn(s: State, k: nat)
    requires Inv(s) && Enabled(s, Guard(k))
    ensures var s', c := Apply(s, Guard(k)), s.calls[k].conn;
            Inside(s, s', k) && CallOk(s', k) && ConnOk(s', c) && Advances(s.conns[c], s'.conns[c])
  {
    hide StageOk, LeasesOk, Count;
    var s', c := Apply(s, Guard(k)), s.calls[k].conn;
    assert CallOk(s, k) && ConnOk(s, c);
    CountMove(s.calls, k, s'.calls[k], GuardedOn(c));
    CountMove(s.calls, k, s'.calls[k], ActiveOn(c));
  }

  lemma GuardKeeps(s: State, k: nat)
    requires Inv(s) && Enabled(s, Guard(k))
    ensures Inv(Apply(s, Guard(k)))
  {
    hide Count;
    var s', c := Apply(s, Guard(k)), s.calls[k].conn;
    GuardConn(s, k);
    InsideCounts(s, s', k);
    if s'.conns != s.conns {
      assert ConnOk(s, c);
      CountNone(s.calls, GuardedOn(c));
      forall u | 0 <= u < |s.calls| && u != k && s.calls[u].conn == c ensures !Guarded(s.calls[u]) {
        assert !GuardedOn(c)(s.calls[u]);
      }
    }
    hide CallOk, ConnOk, StageOk;
    OneCallKeeps(s, s', k);
  }

  lemma UnguardConn(s: State, k: nat, reconcile: bool)
    requires Inv(s) && Enabled(s, Unguard(k, reconcile))
    ensures var s', c := Apply(s, Unguard(k, reconcile)), s.calls[k].conn;
            Inside(s, s', k) && CallOk(s', k) && ConnOk(s', c) && Advances(s.conns[c], s'.conns[c])
  {
    hide StageOk, LeasesOk, Count;
    var s', c := Apply(s, Unguard(k, reconcile)), s.calls[k].conn;
    assert CallOk(s, k) && ConnOk(s, c);
    InsideIsBusy(s, k);
    CountMove(s.calls, k, s'.calls[k], GuardedOn(c));
    CountMove(s.calls, k, s'.calls[k], ActiveOn(c));
  }

  lemma UnguardLeases(s: State, k: nat, reconcile: bool)
    requires Inv(s) && Enabled(s, Unguard(k, reconcile))
    ensures var s' := Apply(s, Unguard(k, reconcile));
            LeasesOk(s') && s'.active == Count(s'.calls, IsActive) && s'.active == s.active
  {
    hide StageOk, Count, ConnOk, CallOk, Advances, RequestClose, Next;
    UnguardConn(s, k, reconcile);
    InsideCounts(s, Apply(s, Unguard(k, reconcile)), k);
  }

  lemma UnguardKeeps(s: State, k: nat, reconcile: bool)
    requires Inv(s) && Enabled(s, Unguard(k, reconcile))
    ensures Inv(Apply(s, Unguard(k, reconcile)))
  {
    hide Apply, Count, StageOk, LeasesOk, CallOk;
    var s', c := Apply(s, Unguard(k, reconcile)), s.calls[k].conn;
    UnguardConn(s, k, reconcile);
    UnguardLeases(s, k, reconcile);
    forall u | 0 <= u < |s.calls| && u != k && s.calls[u].conn == c ensures !Guarded(s.calls[u]) {
      assert ConnOk(s, c);
      AloneInside(s, k, u);
    }
    OneCallKeeps(s, s', k);
  }

  lemma ReturnKeeps(s: State, k: nat)
    requires Inv(s) && Enabled(s, Return(k))
    ensures Inv(Apply(s, Return(k)))
  {
    hide Count;
    var s', c := Apply(s, Return(k)), s.calls[k].conn;
    assert CallOk(s, k) && ConnOk(s, c);
    CountMove(s.calls, k, s'.calls[k], GuardedOn(c));
    CountMove(s.calls, k, s'.calls[k], ActiveOn(c));
    InsideCounts(s, s', k);
    OneCallKeeps(s, s', k);
  }

  // ---------------------------------------------------------------- closing connections

  lemma CloseConnKeeps(s: State, c: nat)
    requires Inv(s) && Enabled(s, CloseConn(c))
    ensures Inv(Apply(s, CloseConn(c)))
  {
    var s' := Apply(s, CloseConn(c));
    assert ConnOk(s, c);
    if s.conns[c].closed {
    } else {
      if s.conns[c].busy {
        FlaggedKeeps(s, s', c);
      } else {
        EmptiedKeeps(s, s', c);
      }
      hide ConnOk, CallOk, Count, LeasesOk;
      StageFrame(s, s');
    }
  }

  lemma ReconcileKeeps(s: State, c: nat)
    requires Inv(s) && Enabled(s, Reconcile(c))
    ensures Inv(Apply(s, Reconcile(c)))
  {
    var s' := Apply(s, Reconcile(c));
    EmptiedKeeps(s, s', c);
    StageFrame(s, s');
  }

  lemma DropConnKeeps(s: State, c: nat)
    requires Inv(s) && Enabled(s, DropConn(c))
    ensures Inv(Apply(s, DropConn(c)))
  {
    var s' := Apply(s, DropConn(c));
    assert ConnOk(s, c);
    FlaggedKeeps(s, s', c);
    StageFrame(s, s');
  }

  /** Connection c advances, the others stay as they are. */
  predicate OneAdvances(s: State, s': State, c: nat) {
    && c < |s.conns| == |s'.conns| && s'.conns == s.conns[c := s'.conns[c]] && Advances(s.conns[c], s'.conns[c])
    && s'.snapshot == s.snapshot && s'.persisted == s.persisted && s'.active == s.active
  }

  lemma MarkStage(s: State, s': State, c: nat)
    requires StageOk(s) && s.stage.Marking? && OneAdvances(s, s', c) && (s'.conns[c].closed || s'.conns[c].closing)
    requires s'.stage == Next(Next(Marking(s.stage.left - {c}), s.snapshot), s.snapshot)
    ensures StageOk(s')
  {
  }

  lemma IdleStage(s: State, s': State, c: nat)
    requires StageOk(s) && s.stage.Idling? && OneAdvances(s, s', c)
    requires s'.conns[c].closed || (s'.conns[c].closing && s'.conns[c].busy)
    requires s'.stage == Next(Idling(s.stage.left - {c}), s.snapshot)
    ensures StageOk(s')
  {
  }

  lemma SealStage(s: State, s': State, c: nat)
    requires StageOk(s) && s.stage.Sealing? && OneAdvances(s, s', c) && s'.conns[c].closed
    requires s'.stage == Sealing(s.stage.left - {c})
    ensures StageOk(s')
  {
  }

  lemma MarkKeeps(s: State, c: nat)
    requires Inv(s) && Enabled(s, Mark(c))
    ensures Inv(Apply(s, Mark(c)))
  {
    var s' := Apply(s, Mark(c));
    assert ConnOk(s, c);
    MarkStage(s, s', c);
    hide StageOk, CallOk, ConnOk, LeasesOk, Count;
    FlaggedKeeps(s, s', c);
  }

  lemma CloseIdleKeeps(s: State, c: nat)
    requires Inv(s) && Enabled(s, CloseIdle(c))
    ensures Inv(Apply(s, CloseIdle(c)))
  {
    var s' := Apply(s, CloseIdle(c));
    assert ConnOk(s, c);
    assert c in s.snapshot;
    IdleStage(s, s', c);
    hide StageOk, CallOk, ConnOk, LeasesOk, Count;
    if s.conns[c].closing && !s.conns[c].busy {
      EmptiedKeeps(s, s', c);
    } else {
      FlaggedKeeps(s, s', c);
    }
  }

  lemma SealKeeps(s: State, c: nat)
    requires Inv(s) && Enabled(s, Seal(c))
    ensures Inv(Apply(s, Seal(c)))
  {
    var s' := Apply(s, Seal(c));
    assert ConnOk(s, c);
    SealStage(s, s', c);
    hide StageOk, CallOk, ConnOk, LeasesOk, Count;
    if s.conns[c].closed {
      FlaggedKeeps(s, s', c);
    } else {
      EmptiedKeeps(s, s', c);
    }
  }

  // ---------------------------------------------------------------- the closing thread

  predicate ClosingStep(a: Step) {
    a.StartClose? || a.Drained? || a.QueueClose? || a.TakeClose? || a.Persist? || a.ReleaseClose?
  }

  lemma ClosingStage(s: State, a: Step)
    requires StageOk(s) && Enabled(s, a) && ClosingStep(a)
    ensures StageOk(Apply(s, a))
  {
  }

  lemma ClosingLeases(s: State, a: Step)
    requires LeasesOk(s) && Enabled(s, a) && ClosingStep(a)
    ensures LeasesOk(Apply(s, a))
  {
    hide Count, FinishClose, RequestClose, Abort;
  }

  lemma ClosingConn(s: State, a: Step, c: nat)
    requires Enabled(s, a) && ClosingStep(a) && c < |s.conns| && ConnOk(s, c)
    ensures c < |Apply(s, a).conns| && ConnOk(Apply(s, a), c)
  {
  }

  lemma ClosingStepKeeps(s: State, a: Step)
    requires Inv(s) && Enabled(s, a) && ClosingStep(a)
    ensures Inv(Apply(s, a))
  {
    hide LeasesOk, StageOk, ConnOk, Count;
    var s' := Apply(s, a);
    forall c | 0 <= c < |s'.conns| ensures ConnOk(s', c) {
      assert ConnOk(s, c);
      ClosingConn(s, a, c);
    }
    forall k | 0 <= k < |s'.calls| ensures CallOk(s', k) {
      assert CallOk(s, k);
    }
    ClosingStage(s, a);
    ClosingLeases(s, a);
  }

  // ---------------------------------------------------------------- every run

  lemma StepKeeps(s: State, a: Step)
    requires Inv(s) && Enabled(s, a)
    ensures Inv(Apply(s, a))
  {
    hide Inv, Enabled, Apply;
    match a
    case Connect => ConnectKeeps(s);
    case Admit(c) => AdmitKeeps(s, c);
    case Guard(k) => GuardKeeps(s, k);
    case Unguard(k, reconcile) => UnguardKeeps(s, k, reconcile);
    case Return(k) => ReturnKeeps(s, k);
    case CloseConn(c) => CloseConnKeeps(s, c);
    case Reconcile(c) => ReconcileKeeps(s, c);
    case DropConn(c) => DropConnKeeps(s, c);
    case Mark(c) => MarkKeeps(s, c);
    case CloseIdle(c) => CloseIdleKeeps(s, c);
    case Seal(c) => SealKeeps(s, c);
    case _ =>
      if Statement(a) {
        StatementKeeps(s, a);
      } else {
        ClosingStepKeeps(s, a);
      }
  }

  lemma {:induction false} RunKeeps(s: State, run: seq<Step>)
    requires Inv(s) && CanRun(s, run)
    ensures Inv(After(s, run))
    decreases |run|
  {
    if run != [] {
      hide Inv, Enabled, Apply;
      StepKeeps(s, run[0]);
      RunKeeps(Apply(s, run[0]), run[1..]);
    }
  }

  /** Every state the protocol can reach satisfies the invariant. */
  lemma ReachedInv(run: seq<Step>)
    requires CanRun(Init(), run)
    ensures Inv(After(Init(), run))
  {
    RunKeeps(Init(), run);
  }
}
