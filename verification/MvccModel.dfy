/** The multi-version store as a step protocol.

    Every locked section of the transaction manager (one page latch, one hold of the map mutex, one
    store under the commit mutex) is one action; a run is any sequence of enabled actions, so any
    interleaving of transactions and of the collector is a run.

    Beside the store itself the state carries a reference history: `log` has one record per published
    commit, `dbs` the database found at start-up and after each of those commits, and `chain` lists,
    newest first, every version a slot ever had below its base tuple, whether or not its undo log is
    still held.
    The history is never consulted by an action; it is what the store is compared with. */
module MvccModel {

  datatype Option<+T> = None | Some(value: T)

  type TxnId = nat
  type Ts = nat
  type Row = seq<char>

  /** First transaction id. A tuple stamped at or above it is an uncommitted write of that id. */
  const TXN_START: nat := 0x4000_0000_0000_0000

  datatype Rid = Rid(oid: nat, slot: nat)

  datatype UndoLink = UndoLink(txn: TxnId, idx: nat)

  /** A version kept in the undo buffer of the transaction that overwrote it. */
  datatype UndoLog = UndoLog(ts: Ts, deleted: bool, row: Row, prev: Option<UndoLink>)

  /** A base tuple: its stamp, tombstone flag and bytes. */
  datatype Tuple = Tuple(ts: Ts, deleted: bool, row: Row)

  datatype TxnState = RUNNING | TAINTED | COMMITTED | ABORTED
  datatype Isolation = SNAPSHOT | SERIALIZABLE

  type Writes = map<Rid, Option<Row>>
  type Db = map<Rid, Row>

  /** A scan as a transaction recorded it. `own` holds the writes the transaction had made by then
      and `seen` the rows the scan returned. */
  datatype Scan = Scan(oid: nat, pred: Row -> bool, own: Writes, seen: Db)

  datatype Txn = Txn(
    iso: Isolation, state: TxnState, readTs: Ts, commitTs: Ts,
    undo: seq<UndoLog>, writes: set<Rid>, scans: seq<Scan>)

  /** The holder of the commit mutex and how far it has got. */
  datatype Stage = Stamping | Marked | Published
  datatype CommitRun = CommitRun(tid: TxnId, ts: Ts, left: set<Rid>, stage: Stage)

  /** A version of a slot, and the undo link under which its overwriter filed it. */
  datatype Ver = Ver(link: UndoLink, ts: Ts, deleted: bool, row: Row)

  /** One published commit. */
  datatype Commit = Commit(tid: TxnId, iso: Isolation, readTs: Ts, writes: Writes, scans: seq<Scan>)

  datatype State = State(
    // the store
    txns: map<TxnId, Txn>,
    nextId: TxnId,
    lastCommit: Ts,
    base: map<Rid, Tuple>,
    head: map<Rid, UndoLink>,
    // the watermark: registered read timestamps, and the commit timestamp it falls back to
    live: map<TxnId, Ts>,
    wmCommit: Ts,
    // who is where in a locked section
    inCommit: Option<CommitRun>,
    aborting: map<TxnId, set<Rid>>,
    retiring: set<TxnId>,
    gcMarks: set<Ts>,
    // the reference history
    origin: Ts,
    dbs: seq<Db>,
    log: seq<Commit>,
    chain: map<Rid, seq<Ver>>)

  // ---------------------------------------------------------------- the reference history

  function Get(db: Db, rid: Rid): (v: Option<Row>) {
    if rid in db then Some(db[rid]) else None
  }

  /** A database after a transaction's writes; a write of `None` deletes. */
  function Overlay(db: Db, w: Writes): (r: Db)
    ensures forall rid :: Get(r, rid) == if rid in w then w[rid] else Get(db, rid)
  {
    map rid | rid in db.Keys + w.Keys && (rid in w ==> w[rid].Some?)
      :: if rid in w then w[rid].value else db[rid]
  }

  /** The committed database as of timestamp `t`. */
  function DbAt(s: State, t: Ts): Db
    requires s.origin <= t < s.origin + |s.dbs|
  {
    s.dbs[t - s.origin]
  }

  function At(s: State, t: Ts, rid: Rid): Option<Row>
    requires s.origin <= t < s.origin + |s.dbs|
  {
    Get(s.dbs[t - s.origin], rid)
  }

  /** The rows of table `oid` that satisfy `pred`. */
  ghost function SelectRows(oid: nat, pred: Row -> bool, db: Db): Db {
    map rid | rid in db && rid.oid == oid && pred(db[rid]) :: db[rid]
  }

  // ---------------------------------------------------------------- reading

  function Value(deleted: bool, row: Row): Option<Row> {
    if deleted then None else Some(row)
  }

  function BaseValue(s: State, rid: Rid): Option<Row>
    requires rid in s.base
  {
    Value(s.base[rid].deleted, s.base[rid].row)
  }

  function Chain(s: State, rid: Rid): seq<Ver> {
    if rid in s.chain then s.chain[rid] else []
  }

  /** What a walk of the undo chain from position `i` returns at snapshot `r`: it stops at the first
      version at or before `r`, at the end of the chain, and at a log whose owner was collected. */
  function WalkFrom(s: State, rid: Rid, i: nat, r: Ts): Option<Row>
    decreases |Chain(s, rid)| - i
  {
    var c := Chain(s, rid);
    if i >= |c| || c[i].link.txn !in s.txns then None
    else if c[i].ts <= r then Value(c[i].deleted, c[i].row)
    else WalkFrom(s, rid, i + 1, r)
  }

  /** The version of `rid` that transaction `t` sees. */
  function Visible(s: State, t: TxnId, rid: Rid): Option<Row>
    requires t in s.txns
  {
    if rid !in s.base then None
    else if s.base[rid].ts == t || s.base[rid].ts <= s.txns[t].readTs then BaseValue(s, rid)
    else WalkFrom(s, rid, 0, s.txns[t].readTs)
  }

  /** The uncommitted writes of `t`, by the stamps it left on the base tuples. */
  function OwnWrites(s: State, t: TxnId): Writes {
    map rid | rid in s.base && s.base[rid].ts == t :: BaseValue(s, rid)
  }

  function ScanResult(s: State, t: TxnId, oid: nat, pred: Row -> bool): Db
    requires t in s.txns
  {
    map rid | rid in s.base && rid.oid == oid && Visible(s, t, rid).Some? && pred(Visible(s, t, rid).value)
      :: Visible(s, t, rid).value
  }

  // ---------------------------------------------------------------- watermark

  ghost predicate IsOldest(live: map<TxnId, Ts>, r: Ts) {
    (exists t :: t in live && live[t] == r) && forall t :: t in live ==> r <= live[t]
  }

  lemma OldestExists(live: map<TxnId, Ts>)
    requires live != map[]
    ensures exists r :: IsOldest(live, r)
  {
    var t :| t in live;
    var rest := map u | u in live && u != t :: live[u];
    assert rest.Keys == live.Keys - {t};
    if rest == map[] {
      assert live.Keys == rest.Keys + {t} == {t};
      assert IsOldest(live, live[t]);
    } else {
      assert rest.Keys < live.Keys;
      OldestExists(rest);
      var r :| IsOldest(rest, r);
      var u :| u in rest && rest[u] == r;
      assert forall v :: v in live ==> v == t || v in rest;
      if live[t] <= r {
        assert IsOldest(live, live[t]);
      } else {
        assert live[u] == r;
        assert IsOldest(live, r);
      }
    }
  }

  /** The watermark: the oldest registered read timestamp, else the last commit the watermark knows. */
  ghost function Watermark(s: State): Ts {
    if s.live == map[] then s.wmCommit
    else
      OldestExists(s.live);
      var r :| IsOldest(s.live, r); r
  }

  lemma WatermarkOldest(s: State)
    ensures s.live == map[] ==> Watermark(s) == s.wmCommit
    ensures s.live != map[] ==> IsOldest(s.live, Watermark(s))
  {
    if s.live != map[] { OldestExists(s.live); }
  }

  // ---------------------------------------------------------------- validation

  predicate IsScanTuple(x: Txn, oid: nat, v: Option<Row>) {
    v.Some? && exists j :: 0 <= j < |x.scans| && x.scans[j].oid == oid && x.scans[j].pred(v.value)
  }

  /** Does a version of `rid` from chain position `i` down to the one read at `r` match a scan of `x`? */
  predicate WalkConflicts(s: State, x: Txn, rid: Rid, i: nat)
    decreases |Chain(s, rid)| - i
  {
    var c := Chain(s, rid);
    i < |c| && c[i].link.txn in s.txns &&
    (IsScanTuple(x, rid.oid, Value(c[i].deleted, c[i].row)) ||
     (c[i].ts > x.readTs && WalkConflicts(s, x, rid, i + 1)))
  }

  predicate RidConflicts(s: State, x: Txn, rid: Rid)
    requires rid in s.base
  {
    if s.base[rid].ts < TXN_START then
      IsScanTuple(x, rid.oid, BaseValue(s, rid)) ||
      (s.base[rid].ts > x.readTs && WalkConflicts(s, x, rid, 0))
    else
      WalkConflicts(s, x, rid, 0)
  }

  /** `u` wrote the slot, committed later than what `t` reads, and has not been collected. */
  predicate IsSuspect(s: State, t: TxnId, u: TxnId, rid: Rid)
    requires t in s.txns
  {
    u in s.txns && u != t && s.txns[u].state == COMMITTED && s.txns[u].commitTs > s.txns[t].readTs &&
    rid in s.txns[u].writes
  }

  /** Commit-time backward validation. */
  ghost predicate Verify(s: State, t: TxnId)
    requires t in s.txns
  {
    s.txns[t].iso == SERIALIZABLE && s.txns[t].writes != {} ==>
      forall u, rid :: IsSuspect(s, t, u, rid) && rid in s.base ==> !RidConflicts(s, s.txns[t], rid)
  }

  // ---------------------------------------------------------------- actions

  datatype Action =
    | Begin(iso: Isolation)
    | Insert(t: TxnId, rid: Rid, row: Row)
    | Modify(t: TxnId, rid: Rid, delete: bool, row: Row)
    | Read(t: TxnId, oid: nat, pred: Row -> bool)
    | StartCommit(t: TxnId)
    | StampOne(rid: Rid)
    | MarkCommitted
    | Publish
    | RetireCommit
    | StartAbort(t: TxnId)
    | RollbackOne(t: TxnId, rid: Rid)
    | MarkAborted(t: TxnId)
    | RetireAbort(t: TxnId)
    | ReadMark
    | Collect(mark: Ts)

  /** `t` may execute statements: open, and neither committing nor rolling back. */
  predicate CanRun(s: State, t: TxnId) {
    t in s.txns && s.txns[t].state == RUNNING && t !in s.aborting && !Committing(s, t)
  }

  predicate Committing(s: State, t: TxnId) {
    s.inCommit.Some? && s.inCommit.value.tid == t
  }

  ghost predicate Enabled(s: State, a: Action) {
    match a
    case Begin(_) => true
    case Insert(t, rid, _) => CanRun(s, t) && rid !in s.base
    case Modify(t, rid, _, _) => CanRun(s, t) && rid in s.base
    case Read(t, _, _) => CanRun(s, t)
    case StartCommit(t) => s.inCommit.None? && CanRun(s, t) && Verify(s, t) && s.lastCommit + 1 < TXN_START
    case StampOne(rid) =>
      s.inCommit.Some? && s.inCommit.value.stage.Stamping? && rid in s.inCommit.value.left && rid in s.base
    case MarkCommitted =>
      s.inCommit.Some? && s.inCommit.value.stage.Stamping? && s.inCommit.value.left == {} &&
      s.inCommit.value.tid in s.txns
    case Publish =>
      s.inCommit.Some? && s.inCommit.value.stage.Marked? && s.inCommit.value.tid in s.txns
    case RetireCommit => s.inCommit.Some? && s.inCommit.value.stage.Published?
    case StartAbort(t) =>
      t in s.txns && s.txns[t].state in {RUNNING, TAINTED} && t !in s.aborting && !Committing(s, t)
    case RollbackOne(t, rid) => t in s.txns && t in s.aborting && rid in s.aborting[t] && rid in s.base
    case MarkAborted(t) => t in s.txns && t in s.aborting && s.aborting[t] == {}
    case RetireAbort(t) => t in s.retiring
    case ReadMark => true
    case Collect(mark) => mark in s.gcMarks
  }

  function DoBegin(s: State, iso: Isolation): State {
    var x := Txn(iso, RUNNING, s.lastCommit, 0, [], {}, []);
    s.(txns := s.txns[s.nextId := x], nextId := s.nextId + 1, live := s.live[s.nextId := s.lastCommit])
  }

  function DoInsert(s: State, t: TxnId, rid: Rid, row: Row): State
    requires t in s.txns
  {
    s.(base := s.base[rid := Tuple(t, false, row)],
       chain := s.chain[rid := []],
       txns := s.txns[t := s.txns[t].(writes := s.txns[t].writes + {rid})])
  }

  /** Own version: overwrite in place. Version at or before the snapshot: file it and overwrite.
      Anything else: first updater wins, the transaction is tainted. */
  function DoModify(s: State, t: TxnId, rid: Rid, delete: bool, row: Row): State
    requires t in s.txns && rid in s.base
  {
    var was := s.base[rid];
    var x := s.txns[t];
    var tuple := Tuple(t, delete, if delete then was.row else row);
    if was.ts == t then
      s.(base := s.base[rid := tuple], txns := s.txns[t := x.(writes := x.writes + {rid})])
    else if was.ts <= x.readTs then
      var kept := if was.deleted then [] else was.row;
      var prev := if rid in s.head then Some(s.head[rid]) else None;
      var link := UndoLink(t, |x.undo|);
      s.(base := s.base[rid := tuple],
         head := s.head[rid := link],
         chain := s.chain[rid := [Ver(link, was.ts, was.deleted, kept)] + Chain(s, rid)],
         txns := s.txns[t := x.(undo := x.undo + [UndoLog(was.ts, was.deleted, kept, prev)],
                                writes := x.writes + {rid})])
    else
      s.(txns := s.txns[t := x.(state := TAINTED)])
  }

  function DoRead(s: State, t: TxnId, oid: nat, pred: Row -> bool): State
    requires t in s.txns
  {
    var scan := Scan(oid, pred, OwnWrites(s, t), ScanResult(s, t, oid, pred));
    s.(txns := s.txns[t := s.txns[t].(scans := s.txns[t].scans + [scan])])
  }

  function DoStartCommit(s: State, t: TxnId): State
    requires t in s.txns
  {
    s.(inCommit := Some(CommitRun(t, s.lastCommit + 1, s.txns[t].writes, Stamping)))
  }

  function DoStampOne(s: State, rid: Rid): State
    requires s.inCommit.Some? && rid in s.base
  {
    var c := s.inCommit.value;
    s.(base := s.base[rid := s.base[rid].(ts := c.ts)], inCommit := Some(c.(left := c.left - {rid})))
  }

  function DoMarkCommitted(s: State): State
    requires s.inCommit.Some? && s.inCommit.value.tid in s.txns
  {
    var c := s.inCommit.value;
    s.(txns := s.txns[c.tid := s.txns[c.tid].(state := COMMITTED, commitTs := c.ts)],
       inCommit := Some(c.(stage := Marked)))
  }

  /** The record the history gains when the commit in progress is published. */
  function CommitRecord(s: State): Commit
    requires s.inCommit.Some? && s.inCommit.value.tid in s.txns
  {
    var t := s.inCommit.value.tid;
    var x := s.txns[t];
    Commit(t, x.iso, x.readTs, map rid | rid in x.writes && rid in s.base :: BaseValue(s, rid), x.scans)
  }

  function DoPublish(s: State): State
    requires s.inCommit.Some? && s.inCommit.value.tid in s.txns
  {
    var c := s.inCommit.value;
    var rec := CommitRecord(s);
    s.(lastCommit := c.ts,
       log := s.log + [rec],
       dbs := s.dbs + [Overlay(if s.dbs == [] then map[] else s.dbs[|s.dbs| - 1], rec.writes)],
       inCommit := Some(c.(stage := Published)))
  }

  function DoRetireCommit(s: State): State
    requires s.inCommit.Some?
  {
    var c := s.inCommit.value;
    s.(wmCommit := c.ts, live := s.live - {c.tid}, inCommit := None)
  }

  function DoStartAbort(s: State, t: TxnId): State
    requires t in s.txns
  {
    s.(aborting := s.aborting[t := s.txns[t].writes])
  }

  /** Restore the pre-image and re-point the head, or tombstone a fresh insert at stamp 0. */
  function DoRollbackOne(s: State, t: TxnId, rid: Rid): State
    requires t in s.txns && t in s.aborting && rid in s.base
  {
    var s1 := s.(aborting := s.aborting[t := s.aborting[t] - {rid}]);
    if rid in s.head && s.head[rid].txn == t && s.head[rid].idx < |s.txns[t].undo| then
      var u := s.txns[t].undo[s.head[rid].idx];
      var back := Tuple(u.ts, u.deleted, if u.deleted then s.base[rid].row else u.row);
      s1.(base := s.base[rid := back],
          head := if u.prev.Some? then s.head[rid := u.prev.value] else s.head - {rid},
          chain := s.chain[rid := if Chain(s, rid) == [] then [] else Chain(s, rid)[1..]])
    else
      s1.(base := s.base[rid := s.base[rid].(ts := 0, deleted := true)])
  }

  function DoMarkAborted(s: State, t: TxnId): State
    requires t in s.txns
  {
    s.(txns := s.txns[t := s.txns[t].(state := ABORTED)],
       aborting := s.aborting - {t},
       retiring := s.retiring + {t})
  }

  function DoRetireAbort(s: State, t: TxnId): State {
    s.(live := s.live - {t}, retiring := s.retiring - {t})
  }

  ghost function DoReadMark(s: State): State {
    s.(gcMarks := s.gcMarks + {Watermark(s)})
  }

  predicate Collectible(x: Txn, mark: Ts) {
    x.state == ABORTED || (x.state == COMMITTED && x.commitTs <= mark)
  }

  function DoCollect(s: State, mark: Ts): State {
    s.(txns := map t | t in s.txns && !Collectible(s.txns[t], mark) :: s.txns[t],
       gcMarks := s.gcMarks - {mark})
  }

  ghost function Apply(s: State, a: Action): State
    requires Enabled(s, a)
  {
    match a
    case Begin(iso) => DoBegin(s, iso)
    case Insert(t, rid, row) => DoInsert(s, t, rid, row)
    case Modify(t, rid, delete, row) => DoModify(s, t, rid, delete, row)
    case Read(t, oid, pred) => DoRead(s, t, oid, pred)
    case StartCommit(t) => DoStartCommit(s, t)
    case StampOne(rid) => DoStampOne(s, rid)
    case MarkCommitted => DoMarkCommitted(s)
    case Publish => DoPublish(s)
    case RetireCommit => DoRetireCommit(s)
    case StartAbort(t) => DoStartAbort(s, t)
    case RollbackOne(t, rid) => DoRollbackOne(s, t, rid)
    case MarkAborted(t) => DoMarkAborted(s, t)
    case RetireAbort(t) => DoRetireAbort(s, t)
    case ReadMark => DoReadMark(s)
    case Collect(mark) => DoCollect(s, mark)
  }

  // ---------------------------------------------------------------- runs

  /** A freshly opened database: committed rows only, no transaction, counters at the recovered mark. */
  ghost predicate Init(s: State) {
    s.txns == map[] && s.nextId == TXN_START && s.lastCommit < TXN_START &&
    s.head == map[] && s.live == map[] && s.wmCommit == s.lastCommit &&
    s.inCommit.None? && s.aborting == map[] && s.retiring == {} && s.gcMarks == {} &&
    s.origin == s.lastCommit && s.log == [] &&
    (forall rid :: rid in s.base ==> s.base[rid].ts <= s.origin) &&
    |s.dbs| == 1 &&
    (forall rid :: Get(s.dbs[0], rid) == if rid in s.base then BaseValue(s, rid) else None) &&
    s.chain.Keys == s.base.Keys && (forall rid :: rid in s.chain ==> s.chain[rid] == [])
  }

  /** `run` is executable from `s`, each action enabled where it is taken. */
  ghost predicate IsRun(s: State, run: seq<Action>)
    decreases |run|
  {
    run == [] || (Enabled(s, run[0]) && IsRun(Apply(s, run[0]), run[1..]))
  }

  ghost function Final(s: State, run: seq<Action>): State
    requires IsRun(s, run)
    decreases |run|
  {
    if run == [] then s else Final(Apply(s, run[0]), run[1..])
  }
}
