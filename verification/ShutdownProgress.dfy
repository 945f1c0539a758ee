/** Shutdown can always be finished: by steps that bring it forward, each of which leaves less to do. */
module ShutdownProgress {
  import opened Counting
  import opened SchemaLeases
  import opened SchemaLeaseSafety
  import opened SchemaLeaseTheorems

  // ---------------------------------------------------------------- what is left to do

  /** The steps ahead of a call that starts no further statement. */
  function CallAhead(x: Call): nat {
    match x.at
    case Gone => 0
    case Leaving => 1
    case Refused => 1
    case Ready => 2
    case Dml(_) => 3
    case Ddl => 3
    case BeginLeased => 3
    case DmlWaiting => 4
    case DdlWaiting => 4
    case BeginWaiting => 4
    case Admitted => 5
  }

  function CallsAhead(calls: seq<Call>): nat {
    if calls == [] then 0 else CallsAhead(calls[..|calls| - 1]) + CallAhead(calls[|calls| - 1])
  }

  predicate IsOpen(c: Conn) { !c.closed }

  /** The steps ahead of the closing thread, `n` connections having been found. */
  function StageAhead(stage: Stage, n: nat): nat {
    match stage
    case Open => 0
    case Marking(left) => |left| + 2 * n + 7
    case Idling(left) => |left| + n + 6
    case Draining => n + 5
    case Sealing(left) => |left| + 4
    case LeaseWaiting => 3
    case Holding => 2
    case Persisted => 1
    case Closed => 0
  }

  function Left(s: State): nat {
    CallsAhead(s.calls) + Count(s.conns, IsOpen) + StageAhead(s.stage, |s.snapshot|)
  }

  // ---------------------------------------------------------------- every such step leaves less

  lemma {:induction false} CallsMove(calls: seq<Call>, k: nat, x: Call)
    requires k < |calls|
    ensures CallsAhead(calls[k := x]) + CallAhead(calls[k]) == CallsAhead(calls) + CallAhead(x)
  {
    var n := |calls| - 1;
    if k == n {
      assert calls[k := x][..n] == calls[..n];
    } else {
      assert calls[k := x][..n] == calls[..n][k := x];
      CallsMove(calls[..n], k, x);
    }
  }

  /** One call moves, one connection changes without opening again, and the stage stays. */
  predicate Moves(s: State, s': State, k: nat, c: nat) {
    && k < |s.calls| && c < |s.conns| && |s'.calls| == |s.calls| && |s'.conns| == |s.conns|
    && s'.calls == s.calls[k := s'.calls[k]] && s'.conns == s.conns[c := s'.conns[c]]
    && (s.conns[c].closed ==> s'.conns[c].closed) && s'.stage == s.stage && s'.snapshot == s.snapshot
    && CallAhead(s'.calls[k]) < CallAhead(s.calls[k])
  }

  lemma MoveLeavesLess(s: State, s': State, k: nat, c: nat)
    requires Moves(s, s', k, c)
    ensures Left(s') < Left(s)
  {
    CallsMove(s.calls, k, s'.calls[k]);
    CountMove(s.conns, c, s'.conns[c], IsOpen);
  }

  /** A connection is closed or changed otherwise, and the closing thread goes on or stays. */
  predicate Closes(s: State, s': State, c: nat) {
    && s'.calls == s.calls && s'.snapshot == s.snapshot && c < |s.conns| == |s'.conns|
    && s'.conns == s.conns[c := s'.conns[c]] && (s.conns[c].closed ==> s'.conns[c].closed)
    && StageAhead(s'.stage, |s'.snapshot|) <= StageAhead(s.stage, |s.snapshot|)
    && (StageAhead(s'.stage, |s'.snapshot|) < StageAhead(s.stage, |s.snapshot|) ||
        (s'.conns[c].closed && !s.conns[c].closed))
  }

  lemma CloseLeavesLess(s: State, s': State, c: nat)
    requires Closes(s, s', c)
    ensures Left(s') < Left(s)
  {
    CountMove(s.conns, c, s'.conns[c], IsOpen);
  }

  lemma CallStepMoves(s: State, a: Step, k: nat)
    requires Enabled(s, a) && Forward(s, a) && k < |s.calls| && s.calls[k].conn < |s.conns|
    requires a in {Guard(k), TakeShared(k), EndDml(k), TakeExclusive(k), EndDdl(k), TakeLease(k), Begun(k, true),
                   Unguard(k, false), Return(k)}
    ensures Moves(s, Apply(s, a), k, s.calls[k].conn)
  {
  }

  lemma StageNext(left: set<nat>, c: nat, all: set<nat>)
    requires c in left
    ensures |left - {c}| == |left| - 1
    ensures StageAhead(Next(Next(Marking(left - {c}), all), all), |all|) < StageAhead(Marking(left), |all|)
    ensures StageAhead(Next(Idling(left - {c}), all), |all|) < StageAhead(Idling(left), |all|)
  {
  }

  lemma LoopStepCloses(s: State, a: Step, c: nat)
    requires Inv(s) && Enabled(s, a) && Forward(s, a) && a in {CloseConn(c), Mark(c), CloseIdle(c), Seal(c)}
    ensures Closes(s, Apply(s, a), c)
  {
    assert ConnOk(s, c);
    if !a.CloseConn? {
      StageNext(s.stage.left, c, s.snapshot);
    } else {
      NotBusy(s, c);
    }
  }

  /** A dropped connection is idle. */
  lemma NotBusy(s: State, c: nat)
    requires Inv(s) && c < |s.conns| && s.conns[c].dropped
    ensures !s.conns[c].busy
  {
    assert ConnOk(s, c);
    CountNone(s.calls, ActiveOn(c));
    forall k | 0 <= k < |s.calls| ensures !GuardedOn(c)(s.calls[k]) {
      assert !ActiveOn(c)(s.calls[k]);
    }
    CountNone(s.calls, GuardedOn(c));
  }

  lemma ForwardLeavesLess(s: State, a: Step)
    requires Inv(s) && Enabled(s, a) && Forward(s, a)
    ensures Left(Apply(s, a)) < Left(s)
  {
    if a.Guard? || a.TakeShared? || a.EndDml? || a.TakeExclusive? || a.EndDdl? || a.TakeLease? || a.Begun? ||
       a.Unguard? || a.Return? {
      CallStepMoves(s, a, a.k);
      MoveLeavesLess(s, Apply(s, a), a.k, s.calls[a.k].conn);
    } else if a.CloseConn? || a.Mark? || a.CloseIdle? || a.Seal? {
      LoopStepCloses(s, a, a.c);
      CloseLeavesLess(s, Apply(s, a), a.c);
    }
  }

  // ---------------------------------------------------------------- to the end

  lemma {:induction false} RunOn(s: State, run: seq<Step>, a: Step)
    requires CanRun(s, run) && Enabled(After(s, run), a)
    ensures CanRun(s, run + [a]) && After(s, run + [a]) == Apply(After(s, run), a)
    decreases |run|
  {
    if run != [] {
      assert (run + [a])[1..] == run[1..] + [a];
      RunOn(Apply(s, run[0]), run[1..], a);
    } else {
      assert (run + [a])[1..] == [];
    }
  }

  lemma ReachableNext(s: State, a: Step)
    requires Reachable(s) && Enabled(s, a)
    ensures Reachable(Apply(s, a))
  {
    var run: seq<Step> :| CanRun(Init(), run) && After(Init(), run) == s;
    RunOn(Init(), run, a);
  }

  /** Every step of the run needs no new call and no decision of any session. */
  predicate AllOwn(s: State, run: seq<Step>)
    requires CanRun(s, run)
    decreases |run|
  {
    run == [] || (OwnStep(s, run[0]) && AllOwn(Apply(s, run[0]), run[1..]))
  }

  /** From every state that shutdown can reach, the calls already admitted, the destructors of dropped
      connections and the closing thread alone can bring it to its end. */
  lemma {:induction false} ShutdownCompletes(s: State) returns (run: seq<Step>)
    requires Reachable(s) && s.stage != Open
    ensures CanRun(s, run) && After(s, run).stage == Closed && AllOwn(s, run) && |run| <= Left(s)
    decreases Left(s)
  {
    if s.stage == Closed {
      run := [];
    } else {
      var a := ShutdownNeverStuck(s);
      ReachableInv(s);
      ForwardLeavesLess(s, a);
      ReachableNext(s, a);
      StaysClosing(s, a);
      var rest := ShutdownCompletes(Apply(s, a));
      run := [a] + rest;
      assert run[1..] == rest;
    }
  }

  lemma StaysClosing(s: State, a: Step)
    requires Enabled(s, a) && s.stage != Open
    ensures Apply(s, a).stage != Open
  {
  }
}
