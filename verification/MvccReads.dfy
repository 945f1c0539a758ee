/** Every scan is on record as it happened: over a run, the scans a transaction carries, and those its
    commit record carries, are the reads it made, each with the rows its snapshot and its own writes up
    to that read select. */
module MvccReads {
  import opened MvccModel
  import opened MvccInvariant
  import opened MvccSteps
  import opened MvccTheorems
  import opened MvccWrites

  /** What a read by `t` sees when its writes so far are `w`. */
  ghost function Seen(s: State, t: TxnId, w: Writes, oid: nat, pred: Row -> bool): Scan {
    var db := if t in s.txns && s.origin <= s.txns[t].readTs < s.origin + |s.dbs| then DbAt(s, s.txns[t].readTs)
      else map[];
    Scan(oid, pred, w, SelectRows(oid, pred, Overlay(db, w)))
  }

  ghost function Looked(s: State, a: Action, t: TxnId, w: Writes, scans: seq<Scan>): seq<Scan> {
    match a
    case Read(u, oid, pred) => if u == t then scans + [Seen(s, t, w, oid, pred)] else scans
    case _ => scans
  }

  /** The reads of `t` over a run, in order. */
  ghost function Reads(s: State, run: seq<Action>, t: TxnId, w: Writes, scans: seq<Scan>): seq<Scan>
    requires IsRun(s, run)
    decreases |run|
  {
    if run == [] then scans
    else Reads(Apply(s, run[0]), run[1..], t, Noted(s, run[0], t, w), Looked(s, run[0], t, w, scans))
  }

  /** The transaction and its record carry these scans; it has no record while it may still read. */
  ghost predicate Carries(s: State, t: TxnId, scans: seq<Scan>) {
    && (t >= s.nextId ==> scans == [])
    && (t in s.txns ==> s.txns[t].scans == scans)
    && forall k | 0 <= k < |s.log| && s.log[k].tid == t :: s.log[k].scans == scans && t < s.nextId && !CanRun(s, t)
  }

  lemma ReadCarries(s: State, oid: nat, pred: Row -> bool, t: TxnId, w: Writes, scans: seq<Scan>)
    requires Inv(s) && Agrees(s, t, w) && Carries(s, t, scans) && CanRun(s, t)
    ensures Carries(Apply(s, Read(t, oid, pred)), t, scans + [Seen(s, t, w, oid, pred)])
  {
    ReadOk(s, t, oid, pred);
    OwnWritesAgree(s, t, w);
    assert t < s.nextId;
  }

  /** Neither the transaction's scans nor the history change, and a finished one does not run again. */
  ghost predicate Untouched(s: State, s': State, t: TxnId) {
    && s'.log == s.log && s.nextId <= s'.nextId
    && (t in s'.txns && t in s.txns ==> s'.txns[t].scans == s.txns[t].scans)
    && (t in s'.txns && t !in s.txns ==> t >= s.nextId && s'.txns[t].scans == [])
    && (CanRun(s', t) ==> CanRun(s, t) || t >= s.nextId)
  }

  lemma UntouchedCarries(s: State, s': State, t: TxnId, scans: seq<Scan>)
    requires Carries(s, t, scans) && Untouched(s, s', t)
    ensures Carries(s', t, scans)
  {
  }

  lemma StatementCarries(s: State, a: Action, t: TxnId, scans: seq<Scan>)
    requires Inv(s) && Carries(s, t, scans) && Enabled(s, a) && (a.Begin? || a.Insert? || (a.Read? && a.t != t))
    ensures Carries(Apply(s, a), t, scans)
  {
    assert forall u | u in s.txns :: u < s.nextId;
    hide Inv, Carries, DoModify, ScanResult, OwnWrites;
    UntouchedCarries(s, Apply(s, a), t, scans);
  }

  lemma OwnModifyScans(s: State, t: TxnId, rid: Rid, delete: bool, row: Row)
    requires CanRun(s, t) && rid in s.base
    ensures Untouched(s, DoModify(s, t, rid, delete, row), t)
  {
    hide Chain;
    var was, x := s.base[rid], s.txns[t];
    if was.ts == t {
    } else if was.ts <= x.readTs {
    } else {
    }
  }

  lemma ModifyCarries(s: State, u: TxnId, rid: Rid, delete: bool, row: Row, t: TxnId, scans: seq<Scan>)
    requires Carries(s, t, scans) && CanRun(s, u) && rid in s.base
    ensures Carries(DoModify(s, u, rid, delete, row), t, scans)
  {
    if u != t {
      ModifyOther(s, u, rid, delete, row, t);
    } else {
      OwnModifyScans(s, t, rid, delete, row);
    }
    hide DoModify, Carries;
    UntouchedCarries(s, DoModify(s, u, rid, delete, row), t, scans);
  }

  lemma EndCarries(s: State, a: Action, t: TxnId, scans: seq<Scan>)
    requires Inv(s) && Carries(s, t, scans) && Enabled(s, a)
    requires !a.Begin? && !a.Insert? && !a.Modify? && !a.Read? && !a.Publish?
    ensures Carries(Apply(s, a), t, scans)
  {
    assert forall u | u in s.txns :: u < s.nextId;
    hide Inv, Carries, Verify, Watermark, DoModify, DoInsert, DoBegin, DoRead;
    UntouchedCarries(s, Apply(s, a), t, scans);
  }

  lemma PublishCarries(s: State, t: TxnId, scans: seq<Scan>)
    requires Inv(s) && Carries(s, t, scans) && Enabled(s, Publish)
    ensures Carries(DoPublish(s), t, scans)
  {
    var u := s.inCommit.value.tid;
    assert u < s.nextId && s.txns[u].state == COMMITTED;
    hide Inv;
    assert DoPublish(s).log == s.log + [CommitRecord(s)] && CommitRecord(s).tid == u;
    assert CommitRecord(s).scans == s.txns[u].scans;
  }

  lemma StepCarries(s: State, a: Action, t: TxnId, w: Writes, scans: seq<Scan>)
    requires Inv(s) && Agrees(s, t, w) && Carries(s, t, scans) && Enabled(s, a)
    ensures Carries(Apply(s, a), t, Looked(s, a, t, w, scans))
  {
    hide Inv, Agrees, Carries;
    if a.Read? && a.t == t {
      ReadCarries(s, a.oid, a.pred, t, w, scans);
    } else if a.Modify? {
      ModifyCarries(s, a.t, a.rid, a.delete, a.row, t, scans);
    } else if a.Begin? || a.Insert? || a.Read? {
      StatementCarries(s, a, t, scans);
    } else if a.Publish? {
      PublishCarries(s, t, scans);
    } else {
      EndCarries(s, a, t, scans);
    }
  }

  lemma {:induction false} RunCarries(s: State, run: seq<Action>, t: TxnId, w: Writes, scans: seq<Scan>)
    requires Inv(s) && IsRun(s, run) && Agrees(s, t, w) && Carries(s, t, scans)
    ensures Carries(Final(s, run), t, Reads(s, run, t, w, scans))
    decreases |run|
  {
    if run != [] {
      hide Agrees, Noted, Looked, Enabled, Carries;
      StepAgrees(s, run[0], t, w);
      StepCarries(s, run[0], t, w, scans);
      StepKeeps(s, run[0]);
      RunCarries(Apply(s, run[0]), run[1..], t, Noted(s, run[0], t, w), Looked(s, run[0], t, w, scans));
    }
  }

  /** Over every run: the scans of a transaction still known, and those of each committed one, are exactly
      the reads it made. */
  lemma ScansAreReads(s0: State, run: seq<Action>, t: TxnId, k: nat)
    requires Init(s0) && IsRun(s0, run)
    ensures var s, made := Final(s0, run), Reads(s0, run, t, map[], []);
            && (t in s.txns ==> s.txns[t].scans == made)
            && (k < |s.log| && s.log[k].tid == t ==> s.log[k].scans == made)
  {
    InitInv(s0);
    RunCarries(s0, run, t, map[], []);
  }
}
