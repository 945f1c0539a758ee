/** The reference-counted read timestamps of live transactions, and their minimum. */
module Watermarks {

  /** `m` holds the multiplicities of `s`. */
  ghost predicate Counts(m: map<nat, nat>, s: multiset<nat>) {
    (forall k :: k in m <==> k in s) && (forall k | k in m :: m[k] == s[k])
  }

  lemma LeastKeyExists(m: map<nat, nat>, k: nat)
    requires k in m
    ensures exists least :: least in m && forall j | j in m :: least <= j
    decreases k
  {
    if j :| j in m && j < k {
      LeastKeyExists(m, j);
    }
  }

  method LeastKey(m: map<nat, nat>) returns (k: nat)
    requires m != map[]
    ensures k in m && forall j | j in m :: k <= j
  {
    ghost var some :| some in m;
    LeastKeyExists(m, some);
    k :| k in m && forall j | j in m :: k <= j;
  }

  function Incremented(m: map<nat, nat>, k: nat): map<nat, nat> {
    m[k := (if k in m then m[k] else 0) + 1]
  }

  lemma CountsIncremented(m: map<nat, nat>, s: multiset<nat>, k: nat)
    requires Counts(m, s)
    ensures Counts(Incremented(m, k), s + multiset{k})
  {
  }

  function Decremented(m: map<nat, nat>, k: nat): map<nat, nat>
    requires k in m && m[k] > 0
  {
    if m[k] == 1 then m - {k} else m[k := m[k] - 1]
  }

  lemma CountsDecremented(m: map<nat, nat>, s: multiset<nat>, k: nat)
    requires Counts(m, s) && k in m
    ensures m[k] > 0 && Counts(Decremented(m, k), s - multiset{k})
  {
  }

  class Watermark {
    var commitTs: nat
    var mark: nat
    var readers: map<nat, nat>
    /** The live read timestamps, with repetition. */
    ghost var live: multiset<nat>

    ghost predicate Valid()
      reads this
    {
      Counts(readers, live) && (readers != map[] ==> mark in readers && forall k | k in readers :: mark <= k)
    }

    constructor (ts: nat)
      ensures Valid() && live == multiset{} && commitTs == ts
    {
      commitTs := ts;
      mark := ts;
      readers := map[];
      live := multiset{};
    }

    /** Registers a reader; refused exactly when it reads before the last known commit. */
    method AddTxn(readTs: nat) returns (ok: bool)
      requires Valid()
      modifies this
      ensures Valid() && commitTs == old(commitTs)
      ensures ok <==> readTs >= commitTs
      ensures live == if ok then old(live) + multiset{readTs} else old(live)
    {
      if readTs < commitTs {
        return false;
      }
      var wasEmpty := readers == map[];
      CountsIncremented(readers, live, readTs);
      readers := Incremented(readers, readTs);
      live := live + multiset{readTs};
      if wasEmpty || readTs < mark {
        mark := readTs;
      }
      ok := true;
    }

    /** Deregisters a reader; refused exactly when no reader is registered at that timestamp. */
    method RemoveTxn(readTs: nat) returns (ok: bool)
      requires Valid()
      modifies this
      ensures Valid() && commitTs == old(commitTs)
      ensures ok <==> readTs in old(live)
      ensures live == if ok then old(live) - multiset{readTs} else old(live)
    {
      if readTs !in readers {
        return false;
      }
      CountsDecremented(readers, live, readTs);
      readers := Decremented(readers, readTs);
      live := live - multiset{readTs};
      if readers != map[] {
        mark := LeastKey(readers);
      }
      ok := true;
    }

    method UpdateCommitTs(ts: nat)
      requires Valid()
      modifies this`commitTs
      ensures Valid() && commitTs == ts
    {
      commitTs := ts;
    }

    /** The oldest live read timestamp, or the last known commit when nothing is live. */
    method GetWatermark() returns (w: nat)
      requires Valid()
      ensures live == multiset{} ==> w == commitTs
      ensures live != multiset{} ==> w in live && forall r | r in live :: w <= r
    {
      if readers == map[] {
        w := commitTs;
        assert forall k :: k !in live;
      } else {
        w := mark;
      }
    }
  }
}
