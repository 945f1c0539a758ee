/** Schema leases, sessions and shutdown as a step protocol. Every locked section is one step; the API
    calls of all sessions and the closing thread interleave freely. */
module SchemaLeases {
  import opened Counting

  /** A connection. `leased` says whether it holds the shared lease of an explicit transaction; a dropped
      connection is one nobody refers to any more, whose destructor will close it. */
  datatype Conn = Conn(busy: bool, closing: bool, closed: bool, txn: bool, leased: bool, dropped: bool)

  /** Where an API call is: holding its operation token only; refused by the statement guard; between
      statements; waiting for or holding its own shared lease (or using the transaction's); waiting for
      or holding the exclusive lease; beginning a transaction; past its last statement; past its guard;
      returned. */
  datatype Position =
    | Admitted | Refused | Ready
    | DmlWaiting | Dml(own: bool) | DdlWaiting | Ddl
    | BeginWaiting | BeginLeased
    | Leaving | Gone

  datatype Call = Call(conn: nat, at: Position)

  /** The closing thread: marks every connection, closes the idle ones, waits for the calls, closes the
      rest, waits for and holds the exclusive lease, has made the database durable, and is done. */
  datatype Stage =
    | Open | Marking(left: set<nat>) | Idling(left: set<nat>) | Draining | Sealing(left: set<nat>)
    | LeaseWaiting | Holding | Persisted | Closed

  /** `shared`, `waiting` and `exclusive` are the lease manager's, `active` the instance's count of
      admitted calls; `persisted` counts how often the durable close ran. */
  datatype State = State(
    conns: seq<Conn>, calls: seq<Call>, shared: nat, waiting: nat, exclusive: bool, active: nat,
    stage: Stage, snapshot: set<nat>, persisted: nat)

  function Init(): State {
    State([], [], 0, 0, false, 0, Open, {}, 0)
  }

  // ---------------------------------------------------------------- helpers

  predicate IsLeased(c: Conn) { c.leased }
  predicate OwnsShared(x: Call) { x.at == Dml(true) }
  predicate WantsExclusive(x: Call) { x.at == DdlWaiting }
  predicate HasExclusive(x: Call) { x.at == Ddl }
  predicate IsActive(x: Call) { x.at != Gone }

  /** Inside its statement guard. */
  predicate Guarded(x: Call) {
    !(x.at == Admitted || x.at == Refused || x.at == Leaving || x.at == Gone)
  }

  function GuardedOn(c: nat): Call -> bool {
    (x: Call) => x.conn == c && Guarded(x)
  }

  function ActiveOn(c: nat): Call -> bool {
    (x: Call) => x.conn == c && IsActive(x)
  }

  function Move(s: State, k: nat, at: Position): State
    requires k < |s.calls|
  {
    s.(calls := s.calls[k := Call(s.calls[k].conn, at)])
  }

  function SetConn(s: State, c: nat, x: Conn): State
    requires c < |s.conns|
  {
    s.(conns := s.conns[c := x])
  }

  /** End the connection's transaction and give back its lease. */
  function Abort(s: State, c: nat): State
    requires c < |s.conns| && (s.conns[c].leased ==> s.shared > 0)
  {
    SetConn(s, c, s.conns[c].(txn := false, leased := false)).(shared := if s.conns[c].leased then s.shared - 1
      else s.shared)
  }

  /** Finish closing a connection that is not busy. */
  function FinishClose(s: State, c: nat): State
    requires c < |s.conns| && (s.conns[c].leased ==> s.shared > 0)
  {
    if s.conns[c].closed then s
    else
      var t := Abort(s, c);
      SetConn(t, c, t.conns[c].(closed := true, closing := false))
  }

  /** Ask a connection to close, closing it at once if it is not busy. */
  function RequestClose(s: State, c: nat): State
    requires c < |s.conns| && (s.conns[c].leased ==> s.shared > 0)
  {
    if s.conns[c].closed then s
    else if s.conns[c].busy then SetConn(s, c, s.conns[c].(closing := true))
    else FinishClose(s, c)
  }

  // ---------------------------------------------------------------- steps

  datatype Step =
    | Connect
    | Admit(c: nat)
    | Guard(k: nat)
    | StartDml(k: nat) | TakeShared(k: nat) | EndDml(k: nat)
    | StartDdl(k: nat) | TakeExclusive(k: nat) | EndDdl(k: nat)
    | StartBegin(k: nat) | TakeLease(k: nat) | Begun(k: nat, ok: bool)
    | EndTxn(k: nat)
    | Unguard(k: nat, reconcile: bool)
    | Return(k: nat)
    | CloseConn(c: nat) | Reconcile(c: nat) | DropConn(c: nat)
    | StartClose | Mark(c: nat) | CloseIdle(c: nat) | Drained | Seal(c: nat)
    | QueueClose | TakeClose | Persist | ReleaseClose

  predicate At(s: State, k: nat, at: Position) {
    k < |s.calls| && s.calls[k].at == at && s.calls[k].conn < |s.conns|
  }

  function ConnOf(s: State, k: nat): Conn
    requires k < |s.calls| && s.calls[k].conn < |s.conns|
  {
    s.conns[s.calls[k].conn]
  }

  predicate Enabled(s: State, a: Step) {
    match a
    case Connect => s.stage == Open
    case Admit(c) => s.stage == Open && c < |s.conns| && !s.conns[c].dropped
    case Guard(k) => At(s, k, Admitted)
    case StartDml(k) => At(s, k, Ready)
    case TakeShared(k) => At(s, k, DmlWaiting) && !s.exclusive && s.waiting == 0
    case EndDml(k) => (At(s, k, Dml(true)) && s.shared > 0) || At(s, k, Dml(false))
    case StartDdl(k) => At(s, k, Ready) && !ConnOf(s, k).txn
    case TakeExclusive(k) => At(s, k, DdlWaiting) && !s.exclusive && s.shared == 0 && s.waiting > 0
    case EndDdl(k) => At(s, k, Ddl)
    case StartBegin(k) => At(s, k, Ready) && !ConnOf(s, k).txn
    case TakeLease(k) => At(s, k, BeginWaiting) && !s.exclusive && s.waiting == 0
    case Begun(k, ok) => At(s, k, BeginLeased) && s.shared > 0
    case EndTxn(k) => At(s, k, Ready) && ConnOf(s, k).txn && s.shared > 0
    case Unguard(k, _) => At(s, k, Ready) && (ConnOf(s, k).leased ==> s.shared > 0)
    case Return(k) => (At(s, k, Leaving) || At(s, k, Refused)) && s.active > 0
    case CloseConn(c) => c < |s.conns| && (s.conns[c].leased ==> s.shared > 0)
    case Reconcile(c) => c < |s.conns| && !s.conns[c].closed && !s.conns[c].busy && (s.conns[c].leased ==> s.shared > 0)
    case DropConn(c) => c < |s.conns| && Count(s.calls, ActiveOn(c)) == 0
    case StartClose => s.stage == Open
    case Mark(c) => s.stage.Marking? && c in s.stage.left && c < |s.conns|
    case CloseIdle(c) => s.stage.Idling? && c in s.stage.left && c < |s.conns| && (s.conns[c].leased ==> s.shared > 0)
    case Drained => s.stage == Draining && s.active == 0
    case Seal(c) => s.stage.Sealing? && c in s.stage.left && c < |s.conns| && !s.conns[c].busy &&
        (s.conns[c].leased ==> s.shared > 0)
    case QueueClose => s.stage == Sealing({})
    case TakeClose => s.stage == LeaseWaiting && !s.exclusive && s.shared == 0 && s.waiting > 0
    case Persist => s.stage == Holding
    case ReleaseClose => s.stage == Persisted
  }

  function Next(stage: Stage, all: set<nat>): Stage {
    match stage
    case Marking(left) => if left == {} then Idling(all) else stage
    case Idling(left) => if left == {} then Draining else stage
    case _ => stage
  }

  function Apply(s: State, a: Step): State
    requires Enabled(s, a)
  {
    match a
    case Connect => s.(conns := s.conns + [Conn(false, false, false, false, false, false)])
    case Admit(c) => s.(calls := s.calls + [Call(c, Admitted)], active := s.active + 1)
    case Guard(k) =>
      var x := ConnOf(s, k);
      if x.closed || x.closing || x.busy then Move(s, k, Refused)
      else SetConn(Move(s, k, Ready), s.calls[k].conn, x.(busy := true))
    case StartDml(k) => Move(s, k, if ConnOf(s, k).leased then Dml(false) else DmlWaiting)
    case TakeShared(k) => Move(s, k, Dml(true)).(shared := s.shared + 1)
    case EndDml(k) => Move(s, k, Ready).(shared := if s.calls[k].at.own then s.shared - 1 else s.shared)
    case StartDdl(k) => Move(s, k, DdlWaiting).(waiting := s.waiting + 1)
    case TakeExclusive(k) => Move(s, k, Ddl).(waiting := s.waiting - 1, exclusive := true)
    case EndDdl(k) => Move(s, k, Ready).(exclusive := false)
    case StartBegin(k) => Move(s, k, BeginWaiting)
    case TakeLease(k) => SetConn(Move(s, k, BeginLeased), s.calls[k].conn, ConnOf(s, k).(leased := true)).(shared :=
        s.shared + 1)
    case Begun(k, ok) =>
      if ok then SetConn(Move(s, k, Ready), s.calls[k].conn, ConnOf(s, k).(txn := true))
      else SetConn(Move(s, k, Ready), s.calls[k].conn, ConnOf(s, k).(leased := false)).(shared := s.shared - 1)
    case EndTxn(k) => Move(SetConn(s, s.calls[k].conn, ConnOf(s, k).(txn := false, leased := false)), k, Ready).(
        shared := if ConnOf(s, k).leased then s.shared - 1 else s.shared)
    case Unguard(k, reconcile) =>
      var c := s.calls[k].conn;
      var t := SetConn(Move(s, k, Leaving), c, s.conns[c].(busy := false));
      if s.conns[c].closing then FinishClose(t, c) else if reconcile then Abort(t, c) else t
    case Return(k) => Move(s, k, Gone).(active := s.active - 1)
    case CloseConn(c) => RequestClose(s, c)
    case Reconcile(c) => Abort(s, c)
    case DropConn(c) => SetConn(s, c, s.conns[c].(dropped := true))
    case StartClose =>
      var all := set c: nat | c < |s.conns| && !s.conns[c].dropped;
      s.(stage := Next(Next(Marking(all), all), all), snapshot := all)
    case Mark(c) =>
      SetConn(s, c, s.conns[c].(closing := !s.conns[c].closed)).(stage :=
        Next(Next(Marking(s.stage.left - {c}), s.snapshot), s.snapshot))
    case CloseIdle(c) =>
      (if s.conns[c].closing &&
        !s.conns[c].busy then FinishClose(s, c) else s).(stage := Next(Idling(s.stage.left - {c}), s.snapshot))
    case Drained => s.(stage := Sealing(s.snapshot))
    case Seal(c) => RequestClose(s, c).(stage := Sealing(s.stage.left - {c}))
    case QueueClose => s.(stage := LeaseWaiting, waiting := s.waiting + 1)
    case TakeClose => s.(stage := Holding, waiting := s.waiting - 1, exclusive := true)
    case Persist => s.(stage := Persisted, persisted := s.persisted + 1)
    case ReleaseClose => s.(stage := Closed, exclusive := false)
  }

  predicate CanRun(s: State, run: seq<Step>)
    decreases |run|
  {
    run == [] || (Enabled(s, run[0]) && CanRun(Apply(s, run[0]), run[1..]))
  }

  function After(s: State, run: seq<Step>): State
    requires CanRun(s, run)
    decreases |run|
  {
    if run == [] then s else After(Apply(s, run[0]), run[1..])
  }
}
