/** A run in which the split validation check misses a conflict. */
module MvccRaceExample {
  import opened MvccModel
  import opened MvccTheorems
  import opened MvccValidationRace
  import opened MvccSplitHistory

  const T1: TxnId := TXN_START
  const T2: TxnId := TXN_START + 1
  const T3: TxnId := TXN_START + 2
  const R: Rid := Rid(0, 0)
  const Q: Rid := Rid(0, 1)
  const ALL: Row -> bool := (row: Row) => true
  const SCAN: Scan := Scan(0, ALL, map[], map[R := "a"])

  /** One table holding one row "a". */
  function Start(): State {
    State(map[], TXN_START, 0, map[R := Tuple(0, false, "a")], map[], map[], 0, None, map[], {}, {},
          0, [map[R := "a"]], [], map[R := []])
  }

  /** T1 has scanned the table and inserted a row, so it is a serializable writer. */
  function Scanned(): State {
    Start().(
      txns := map[T1 := Txn(SERIALIZABLE, RUNNING, 0, 0, [], {Q}, [SCAN])],
      nextId := T2, live := map[T1 := 0],
      base := map[R := Tuple(0, false, "a"), Q := Tuple(T1, false, "q")],
      chain := map[R := [], Q := []])
  }

  const FIRST: Ver := Ver(UndoLink(T2, 0), 0, false, "a")
  const SECOND: Ver := Ver(UndoLink(T3, 0), 1, false, "b")

  /** The slots as T2's commit leaves them. */
  const BASE: map<Rid, Tuple> := map[R := Tuple(1, false, "b"), Q := Tuple(T1, false, "q")]
  const HEAD: map<Rid, UndoLink> := map[R := UndoLink(T2, 0)]
  const CHAIN: map<Rid, seq<Ver>> := map[R := [FIRST], Q := []]

  /** T2 has scanned the table too and overwritten the row T1 read. */
  function Overwritten(): State {
    var s := Scanned();
    s.(
      txns := s.txns[T2 := Txn(SERIALIZABLE, RUNNING, 0, 0, [UndoLog(0, false, "a", None)], {R}, [SCAN])],
      nextId := T3, live := s.live[T2 := 0],
      base := s.base[R := Tuple(T2, false, "b")],
      head := map[R := UndoLink(T2, 0)],
      chain := s.chain[R := [FIRST]])
  }

  /** ... and committed. */
  function Committed(): State {
    var s := Overwritten();
    s.(
      txns := s.txns[T2 := s.txns[T2].(state := COMMITTED, commitTs := 1)],
      live := map[T1 := 0], base := s.base[R := Tuple(1, false, "b")],
      lastCommit := 1, wmCommit := 1,
      dbs := [map[R := "a"], map[R := "b"]],
      log := [Commit(T2, SERIALIZABLE, 0, map[R := Some("b")], [SCAN])])
  }

  /** T3 holds the row uncommitted: this is where T1's validation reads its base and head link. */
  function Held(): State {
    var s := Committed();
    s.(
      txns := s.txns[T3 := Txn(SNAPSHOT, RUNNING, 1, 0, [UndoLog(1, false, "b", Some(UndoLink(T2, 0)))], {R}, [])],
      nextId := TXN_START + 3, live := s.live[T3 := 1],
      base := s.base[R := Tuple(T3, false, "c")],
      head := map[R := UndoLink(T3, 0)],
      chain := s.chain[R := [SECOND, FIRST]])
  }

  /** T3 has rolled back and been collected: this is where T1's validation walks. */
  function Gone(): State {
    var s := Held();
    s.(txns := s.txns - {T3}, base := BASE, head := HEAD, chain := CHAIN,
       retiring := {T3})
  }

  ghost predicate Goes(s: State, a: Action, s': State) {
    MayGo(s, a) && Go(s, a) == s'
  }

  // ---------------------------------------------------------------- T1 scans and writes

  function Begun(): State {
    Start().(txns := map[T1 := Txn(SERIALIZABLE, RUNNING, 0, 0, [], {}, [])], nextId := T2, live := map[T1 := 0])
  }

  function Seen(): State {
    Begun().(txns := map[T1 := Txn(SERIALIZABLE, RUNNING, 0, 0, [], {}, [SCAN])])
  }

  lemma GoBegin()
    ensures Init(Start()) && Goes(Start(), Begin(SERIALIZABLE), Begun())
  {
    var s0 := Start();
    assert forall rid :: Get(s0.dbs[0], rid) == if rid in s0.base then BaseValue(s0, rid) else None;
  }

  lemma GoRead()
    ensures Goes(Begun(), Read(T1, 0, ALL), Seen())
  {
    var s := Begun();
    assert OwnWrites(s, T1) == map[];
    assert ScanResult(s, T1, 0, ALL) == map[R := "a"];
    assert Apply(s, Read(T1, 0, ALL)).txns[T1].scans == Seen().txns[T1].scans;
  }

  lemma GoInsert()
    ensures Goes(Seen(), Insert(T1, Q, "q"), Scanned())
  {
    assert Apply(Seen(), Insert(T1, Q, "q")).txns[T1].writes == {Q};
  }

  // ---------------------------------------------------------------- T2 overwrites and commits

  function T2Begun(): State {
    var s := Scanned();
    s.(txns := s.txns[T2 := Txn(SERIALIZABLE, RUNNING, 0, 0, [], {}, [])], nextId := T3, live := s.live[T2 := 0])
  }

  function T2Seen(): State {
    var s := T2Begun();
    s.(txns := s.txns[T2 := s.txns[T2].(scans := [SCAN])])
  }

  lemma GoBegin2()
    ensures Goes(Scanned(), Begin(SERIALIZABLE), T2Begun())
  {
  }

  lemma GoRead2()
    ensures Goes(T2Begun(), Read(T2, 0, ALL), T2Seen())
  {
    var s := T2Begun();
    assert OwnWrites(s, T2) == map[];
    assert ScanResult(s, T2, 0, ALL) == map[R := "a"];
    assert Go(s, Read(T2, 0, ALL)).txns[T2] == T2Seen().txns[T2];
  }

  lemma GoModify2()
    ensures Goes(T2Seen(), Modify(T2, R, false, "b"), Overwritten())
  {
    var s := Apply(T2Seen(), Modify(T2, R, false, "b"));
    assert s.txns[T2] == Overwritten().txns[T2];
    assert s.chain[R] == [FIRST];
  }

  function Mutex(): State {
    Overwritten().(inCommit := Some(CommitRun(T2, 1, {R}, Stamping)))
  }

  function Stamp(): State {
    var s := Overwritten();
    s.(base := s.base[R := Tuple(1, false, "b")], inCommit := Some(CommitRun(T2, 1, {}, Stamping)))
  }

  function Mark(): State {
    var s := Stamp();
    s.(txns := s.txns[T2 := s.txns[T2].(state := COMMITTED, commitTs := 1)],
       inCommit := Some(CommitRun(T2, 1, {}, Marked)))
  }

  function Public(): State {
    Mark().(lastCommit := 1, dbs := Committed().dbs, log := Committed().log,
            inCommit := Some(CommitRun(T2, 1, {}, Published)))
  }

  lemma GoCommit()
    ensures Goes(Overwritten(), StartCommit(T2), Mutex())
    ensures Goes(Mutex(), StampOne(R), Stamp())
    ensures Goes(Stamp(), MarkCommitted, Mark())
  {
    assert {R} - {R} == {};
  }

  lemma MarkFacts()
    ensures var s := Mark();
            && s.inCommit == Some(CommitRun(T2, 1, {}, Marked)) && s.dbs == [map[R := "a"]] && s.log == []
            && T2 in s.txns && s.txns[T2].iso == SERIALIZABLE && s.txns[T2].readTs == 0 && s.txns[T2].writes == {R}
            && s.txns[T2].scans == [SCAN] && R in s.base && s.base[R] == Tuple(1, false, "b")
    ensures Public() ==
            Mark().(lastCommit := 1, dbs := Public().dbs, log := Public().log, inCommit := Public().inCommit)
  {
  }

  lemma PublicFacts()
    ensures Public().dbs == [map[R := "a"], map[R := "b"]]
    ensures Public().log == [Commit(T2, SERIALIZABLE, 0, map[R := Some("b")], [SCAN])]
    ensures Public().inCommit == Some(CommitRun(T2, 1, {}, Published))
  {
  }

  lemma FirstRecord()
    ensures Mark().inCommit.Some? && T2 in Mark().txns && Mark().inCommit.value.tid == T2
    ensures CommitRecord(Mark()) == Commit(T2, SERIALIZABLE, 0, map[R := Some("b")], [SCAN])
    ensures Overlay(map[R := "a"], map[R := Some("b")]) == map[R := "b"]
  {
    MarkFacts();
    hide Mark;
    assert CommitRecord(Mark()).writes == map[R := Some("b")];
  }

  lemma GoPublish()
    ensures Goes(Mark(), Publish, Public())
  {
    MarkFacts();
    PublicFacts();
    FirstRecord();
    hide Mark, Public, CommitRecord, Overlay, Verify;
    var s := Mark();
    assert Go(s, Publish).dbs == Public().dbs;
    assert Go(s, Publish).log == Public().log;
  }

  lemma GoRetire()
    ensures Goes(Public(), RetireCommit, Committed())
  {
    assert Public().live - {T2} == map[T1 := 0];
  }

  // ---------------------------------------------------------------- T3 holds the row, aborts, is collected

  function T3Begun(): State {
    var s := Committed();
    s.(txns := s.txns[T3 := Txn(SNAPSHOT, RUNNING, 1, 0, [], {}, [])], nextId := TXN_START + 3,
       live := s.live[T3 := 1])
  }

  lemma GoBegin3()
    ensures Goes(Committed(), Begin(SNAPSHOT), T3Begun())
  {
  }

  lemma GoModify3()
    ensures Goes(T3Begun(), Modify(T3, R, false, "c"), Held())
  {
    var s := Apply(T3Begun(), Modify(T3, R, false, "c"));
    assert s.txns[T3] == Held().txns[T3];
    assert s.chain[R] == [SECOND, FIRST];
  }

  function Aborting(): State {
    Held().(aborting := map[T3 := {R}])
  }

  function RolledBack(): State {
    Held().(base := BASE, head := HEAD, chain := CHAIN,
            aborting := map[T3 := {}])
  }

  function Aborted3(): State {
    var s := RolledBack();
    s.(txns := s.txns[T3 := s.txns[T3].(state := ABORTED)], aborting := map[], retiring := {T3})
  }

  function MarkRead(): State {
    Aborted3().(gcMarks := {0})
  }

  lemma GoStartAbort()
    ensures Goes(Held(), StartAbort(T3), Aborting())
  {
  }

  lemma HeldSlot()
    ensures var s := Aborting();
            && T3 in s.txns && s.txns[T3].undo == [UndoLog(1, false, "b", Some(UndoLink(T2, 0)))]
            && s.head == map[R := UndoLink(T3, 0)] && s.chain.Keys == {R, Q} && s.chain[R] == [SECOND, FIRST] &&
               s.chain[Q] == []
            && s.base == map[R := Tuple(T3, false, "c"), Q := Tuple(T1, false, "q")] && s.aborting == map[T3 := {R}]
  {
  }

  lemma RestoredSlot()
    ensures Aborting().(base := BASE, head := HEAD, chain := CHAIN, aborting := map[T3 := {}]) == RolledBack()
  {
    hide Held;
  }

  lemma RolledSlot()
    ensures var s := Go(Aborting(), RollbackOne(T3, R));
            s.base == BASE && s.head == HEAD && s.chain == CHAIN && s.aborting == map[T3 := {}]
  {
    HeldSlot();
    hide Aborting;
    var s := Go(Aborting(), RollbackOne(T3, R));
    assert s.chain == CHAIN;
    assert {R} - {R} == {};
    assert s.aborting == map[T3 := {}] && s.head == HEAD;
    assert s.base == BASE;
  }

  lemma GoRollback()
    ensures Goes(Aborting(), RollbackOne(T3, R), RolledBack())
  {
    HeldSlot();
    RolledSlot();
    RestoredSlot();
    hide Aborting, RolledBack;
  }

  lemma GoMarkAborted()
    ensures Goes(RolledBack(), MarkAborted(T3), Aborted3())
  {
    assert RolledBack().aborting - {T3} == map[];
  }

  lemma GoReadMark()
    ensures Goes(Aborted3(), ReadMark, MarkRead())
  {
    var s := Aborted3();
    WatermarkOldest(s);
    assert T1 in s.live && s.live[T1] == 0;
    assert Watermark(s) == 0;
  }

  lemma TrackedBeforeCollection()
    ensures MarkRead().txns.Keys == {T1, T2, T3} && Gone().txns.Keys == {T1, T2}
    ensures MarkRead().txns[T1] == Gone().txns[T1] && MarkRead().txns[T2] == Gone().txns[T2]
    ensures Gone().txns[T1].state == RUNNING && Gone().txns[T2].state == COMMITTED && Gone().txns[T2].commitTs == 1
    ensures MarkRead().txns[T3].state == ABORTED && MarkRead().gcMarks == {0}
    ensures MarkRead().(txns := Gone().txns, gcMarks := {}) == Gone()
  {
  }

  lemma GoCollect()
    ensures Goes(MarkRead(), Collect(0), Gone())
  {
    TrackedBeforeCollection();
    hide MarkRead, Gone;
    assert Go(MarkRead(), Collect(0)).txns == Gone().txns;
    assert Go(MarkRead(), Collect(0)).gcMarks == {};
  }

  // ---------------------------------------------------------------- T1 commits all the same

  function Starting1(): State {
    Gone().(inCommit := Some(CommitRun(T1, 2, {Q}, Stamping)))
  }

  function Stamped1(): State {
    var s := Gone();
    s.(base := s.base[Q := Tuple(2, false, "q")], inCommit := Some(CommitRun(T1, 2, {}, Stamping)))
  }

  function Marked1(): State {
    var s := Stamped1();
    s.(txns := s.txns[T1 := s.txns[T1].(state := COMMITTED, commitTs := 2)],
       inCommit := Some(CommitRun(T1, 2, {}, Marked)))
  }

  function Skewed(): State {
    Marked1().(lastCommit := 2, dbs := [map[R := "a"], map[R := "b"], map[R := "b", Q := "q"]],
               log := [Commit(T2, SERIALIZABLE, 0, map[R := Some("b")], [SCAN]),
                       Commit(T1, SERIALIZABLE, 0, map[Q := Some("q")], [SCAN])],
               inCommit := Some(CommitRun(T1, 2, {}, Published)))
  }

  lemma GoStart1()
    ensures Goes(Gone(), StartCommit(T1), Starting1()) && Goes(Starting1(), StampOne(Q), Stamped1())
  {
    assert {Q} - {Q} == {};
  }

  lemma GoMark1()
    ensures Goes(Stamped1(), MarkCommitted, Marked1())
  {
  }

  lemma MarkedFacts()
    ensures var s := Marked1();
            && s.inCommit == Some(CommitRun(T1, 2, {}, Marked)) && s.dbs == [map[R := "a"], map[R := "b"]]
            && s.log == [Commit(T2, SERIALIZABLE, 0, map[R := Some("b")], [SCAN])]
            && T1 in s.txns && s.txns[T1].iso == SERIALIZABLE && s.txns[T1].readTs == 0 && s.txns[T1].writes == {Q}
            && s.txns[T1].scans == [SCAN] && Q in s.base && s.base[Q] == Tuple(2, false, "q")
    ensures Skewed() ==
            Marked1().(lastCommit := 2, dbs := Skewed().dbs, log := Skewed().log, inCommit := Skewed().inCommit)
  {
  }

  lemma LastRecord()
    ensures Marked1().inCommit.Some? && T1 in Marked1().txns && Marked1().inCommit.value.tid == T1
    ensures CommitRecord(Marked1()) == Commit(T1, SERIALIZABLE, 0, map[Q := Some("q")], [SCAN])
    ensures Overlay(map[R := "b"], map[Q := Some("q")]) == map[R := "b", Q := "q"]
  {
    MarkedFacts();
    hide Marked1;
    assert CommitRecord(Marked1()).writes == map[Q := Some("q")];
  }

  lemma GoPublish1()
    ensures Goes(Marked1(), Publish, Skewed())
  {
    MarkedFacts();
    SkewedFacts();
    LastRecord();
    hide Marked1, Skewed, CommitRecord, Overlay, Verify;
    var s := Marked1();
    assert Go(s, Publish).dbs == Skewed().dbs;
    assert Go(s, Publish).log == Skewed().log;
  }

  lemma SkewedFacts()
    ensures Skewed().dbs == [map[R := "a"], map[R := "b"], map[R := "b", Q := "q"]]
    ensures Skewed().log == [Commit(T2, SERIALIZABLE, 0, map[R := Some("b")], [SCAN]),
                             Commit(T1, SERIALIZABLE, 0, map[Q := Some("q")], [SCAN])]
    ensures Skewed().inCommit == Some(CommitRun(T1, 2, {}, Published))
  {
  }

  // ---------------------------------------------------------------- the whole run

  /** The states and the steps of the run. */
  function States(): seq<State> {
    [Start(), Begun(), Seen(), Scanned(), T2Begun(), T2Seen(), Overwritten(), Mutex(), Stamp(), Mark(), Public(),
     Committed(), T3Begun(), Held(), Aborting(), RolledBack(), Aborted3(), MarkRead(), Gone(), Starting1(), Stamped1(),
     Marked1(), Skewed()]
  }

  ghost function Steps(): seq<Action> {
    [Begin(SERIALIZABLE), Read(T1, 0, ALL), Insert(T1, Q, "q"), Begin(SERIALIZABLE), Read(T2, 0, ALL),
     Modify(T2, R, false, "b"), StartCommit(T2), StampOne(R), MarkCommitted, Publish, RetireCommit, Begin(SNAPSHOT),
     Modify(T3, R, false, "c"), StartAbort(T3), RollbackOne(T3, R), MarkAborted(T3), ReadMark, Collect(0),
     StartCommit(T1), StampOne(Q), MarkCommitted, Publish]
  }

  lemma FirstHalf(k: nat)
    requires k < 11
    ensures Goes(States()[k], Steps()[k], States()[k + 1])
  {
    hide Start, Begun, Seen, Scanned, T2Begun, T2Seen, Overwritten, Mutex, Stamp, Mark, Public, Committed, Goes;
    hide T3Begun, Held, Aborting, RolledBack, Aborted3, MarkRead, Gone, Starting1, Stamped1, Marked1, Skewed;
    GoBegin();
    GoRead();
    GoInsert();
    GoBegin2();
    GoRead2();
    GoModify2();
    GoCommit();
    GoPublish();
    GoRetire();
  }

  lemma SecondHalf(k: nat)
    requires 11 <= k < 22
    ensures Goes(States()[k], Steps()[k], States()[k + 1])
  {
    hide Start, Begun, Seen, Scanned, T2Begun, T2Seen, Overwritten, Mutex, Stamp, Mark, Public, Committed, Goes;
    hide T3Begun, Held, Aborting, RolledBack, Aborted3, MarkRead, Gone, Starting1, Stamped1, Marked1, Skewed;
    GoBegin3();
    GoModify3();
    GoStartAbort();
    GoRollback();
    GoMarkAborted();
    GoReadMark();
    GoCollect();
    GoStart1();
    GoMark1();
    GoPublish1();
  }

  lemma RaceTrace()
    ensures Trace(States(), Steps()) && Init(States()[0])
  {
    GoBegin();
    hide Start, Begun, Seen, Scanned, T2Begun, T2Seen, Overwritten, Mutex, Stamp, Mark, Public, Committed, MayGo, Go;
    hide T3Begun, Held, Aborting, RolledBack, Aborted3, MarkRead, Gone, Starting1, Stamped1, Marked1, Skewed;
    forall k | 0 <= k < 22
      ensures MayGo(States()[k], Steps()[k]) && States()[k + 1] == Go(States()[k], Steps()[k])
    {
      if k < 11 {
        FirstHalf(k);
      } else {
        SecondHalf(k);
      }
    }
  }

  // ---------------------------------------------------------------- what the checks answer

  lemma ConflictWhenHeld()
    ensures RidConflicts(Held(), Held().txns[T1], R)
  {
    assert Chain(Held(), R)[0] == SECOND;
    assert Held().txns[T1].scans[0].pred("b");
    assert IsScanTuple(Held().txns[T1], 0, Some("b"));
  }

  lemma ConflictWhenGone()
    ensures RidConflicts(Gone(), Gone().txns[T1], R)
  {
    assert Gone().txns[T1].scans[0].pred("b");
    assert IsScanTuple(Gone().txns[T1], 0, Some("b"));
  }

  /** The missed conflict: T2 committed a change to the row T1 scanned, a single-step check sees it
      both before and after T3's abort, yet the split check accepts T1. */
  lemma SplitCheckCanMiss()
    ensures IsSuspect(Held(), T1, T2, R) && IsSuspect(Gone(), T1, T2, R)
    ensures RidConflicts(Held(), Held().txns[T1], R) && RidConflicts(Gone(), Gone().txns[T1], R)
    ensures !SplitConflicts(Held(), Gone(), Held().txns[T1], R) && !HolderKept(Held(), Gone(), R)
  {
    ConflictWhenHeld();
    ConflictWhenGone();
    assert Chain(Held(), R)[0] == SECOND;
  }

  // ---------------------------------------------------------------- the history is not serial

  /** Executed one after another in this order, the commits get the scan results they got. */
  ghost predicate SerialIn(db: Db, log: seq<Commit>, order: seq<nat>)
    decreases |order|
  {
    order == [] ||
    (order[0] < |log| && ReplaysOn(db, log[order[0]]) && SerialIn(Overlay(db, log[order[0]].writes), log, order[1..]))
  }

  /** The order names every commit once. */
  predicate Permutes(order: seq<nat>, n: nat) {
    |order| == n && (forall i | 0 <= i < n :: order[i] < n) && forall i, j | 0 <= i < j < n :: order[i] != order[j]
  }

  lemma ScanSeesOthers()
    ensures !ReplaysOn(map[R := "b"], Skewed().log[1])
    ensures !ReplaysOn(map[R := "a", Q := "q"], Skewed().log[0])
  {
    SkewedFacts();
    hide Skewed;
    assert Overlay(map[R := "b"], SCAN.own) == map[R := "b"];
    assert SelectRows(0, ALL, map[R := "b"])[R] == "b";
    assert Overlay(map[R := "a", Q := "q"], SCAN.own) == map[R := "a", Q := "q"];
    assert Q in SelectRows(0, ALL, map[R := "a", Q := "q"]);
    assert Skewed().log[1].scans[0] == SCAN && Skewed().log[0].scans[0] == SCAN;
  }

  lemma WritesApplied()
    ensures |Skewed().log| == 2
    ensures Overlay(map[R := "a"], Skewed().log[0].writes) == map[R := "b"]
    ensures Overlay(map[R := "a"], Skewed().log[1].writes) == map[R := "a", Q := "q"]
  {
    SkewedFacts();
    hide Skewed;
    assert Overlay(map[R := "a"], map[R := Some("b")]) == map[R := "b"];
    assert Overlay(map[R := "a"], map[Q := Some("q")]) == map[R := "a", Q := "q"];
  }

  lemma NoSerialOrder(order: seq<nat>)
    requires Permutes(order, 2)
    ensures !SerialIn(map[R := "a"], Skewed().log, order)
  {
    ScanSeesOthers();
    WritesApplied();
    hide ReplaysOn, Overlay, Skewed;
    assert order[1..][0] == order[1] == 1 - order[0];
  }

  lemma Milestones()
    ensures |States()| == 23 && |Steps()| == 22
    ensures States()[6] == Overwritten() && States()[13] == Held() && States()[18] == Gone()
    ensures forall p | 0 <= p < 22 && Steps()[p].StartCommit? :: p == 6 || p == 18
    ensures Steps()[6] == StartCommit(T2) && Steps()[18] == StartCommit(T1)
    ensures forall k | 13 <= k < 18 :: QuietFor(Steps()[k], T1)
  {
    hide Start, Begun, Seen, Scanned, T2Begun, T2Seen, Overwritten, Mutex, Stamp, Mark, Public, Committed;
    hide T3Begun, Held, Aborting, RolledBack, Aborted3, MarkRead, Gone, Starting1, Stamped1, Marked1, Skewed;
  }

  lemma NoSuspects(u: TxnId, rid: Rid)
    ensures T2 in Overwritten().txns && !IsSuspect(Overwritten(), T2, u, rid)
    ensures CanRun(Overwritten(), T2) && Overwritten().inCommit.None?
  {
  }

  lemma OneSuspect(u: TxnId, rid: Rid)
    ensures T1 in Held().txns && (IsSuspect(Held(), T1, u, rid) ==> rid == R)
    ensures CanRun(Held(), T1) && Held().inCommit.None? && R in Held().base
  {
  }

  ghost predicate VerifiedAt(states: seq<State>, run: seq<Action>, p: nat) {
    && p < |run| && |states| == |run| + 1 && run[p].StartCommit? && run[p].t in states[p].txns
    && SplitVerified(states, run, p, false)
  }

  /** T2's commit has no suspect to check. */
  lemma SecondVerified()
    ensures VerifiedAt(States(), Steps(), 6)
  {
    hide States, Steps, Overwritten, Held, Gone, IsSuspect, CanRun, Passed;
    Milestones();
    NoSuspects(T2, R);
    assert Validating(States(), Steps(), 6, 6, T2);
    forall u, rid ensures !IsSuspect(Overwritten(), T2, u, rid) {
      NoSuspects(u, rid);
    }
    assert AllPassed(States(), 6, 6, T2, false);
  }

  /** T1's check reads the row while T3 holds it and walks when T3 is gone. */
  lemma FirstVerified()
    ensures VerifiedAt(States(), Steps(), 18)
  {
    TrackedBeforeCollection();
    hide States, Steps, Overwritten, Held, Gone, IsSuspect, CanRun, SplitConflicts;
    Milestones();
    OneSuspect(T2, R);
    SplitCheckCanMiss();
    assert Validating(States(), Steps(), 13, 18, T1);
    assert PassedAt(States(), 13, 18, T1, R, false);
    assert Passed(States(), 13, 18, T1, R, false);
    forall u, rid | IsSuspect(Held(), T1, u, rid) ensures rid == R {
      OneSuspect(u, rid);
    }
    assert AllPassed(States(), 13, 18, T1, false);
  }

  lemma BothVerified()
    requires Trace(States(), Steps())
    ensures AllVerified(States(), Steps(), false)
  {
    hide Trace, States, Steps, SplitVerified;
    Milestones();
    FirstVerified();
    SecondVerified();
  }

  lemma AllSerializable(k: nat)
    requires k < 2
    ensures k < |Skewed().log| && WritesSerializably(Skewed().log[k])
  {
    SkewedFacts();
    hide Skewed;
  }

  lemma LastState()
    ensures States()[22] == Skewed() && States()[0].dbs == [map[R := "a"]]
  {
    hide Begun, Seen, Scanned, T2Begun, T2Seen, Overwritten, Mutex, Stamp, Mark, Public, Committed;
    hide T3Begun, Held, Aborting, RolledBack, Aborted3, MarkRead, Gone, Starting1, Stamped1, Marked1, Skewed;
  }

  /** The split check is not enough: here is an execution in which every writer is serializable and
      passed it, and no order of the two commits explains what both of them read. */
  lemma SplitHistoryNotSerial()
    ensures Trace(States(), Steps()) && Init(States()[0]) && AllVerified(States(), Steps(), false)
    ensures States()[|Steps()|] == Skewed() && States()[0].dbs == [map[R := "a"]]
    ensures forall k | 0 <= k < |Skewed().log| :: WritesSerializably(Skewed().log[k])
    ensures forall order | Permutes(order, |Skewed().log|) :: !SerialIn(map[R := "a"], Skewed().log, order)
  {
    RaceTrace();
    BothVerified();
    SkewedFacts();
    Milestones();
    LastState();
    hide *;
    assert |Skewed().log| == 2;
    forall k | 0 <= k < 2 ensures WritesSerializably(Skewed().log[k]) {
      AllSerializable(k);
    }
    forall order | Permutes(order, 2) ensures !SerialIn(map[R := "a"], Skewed().log, order) {
      NoSerialOrder(order);
    }
  }
}
