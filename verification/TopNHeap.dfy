/** The bounded heap behind ORDER BY with LIMIT, fed chunk by chunk and merged across workers. */
module TopN {
  import opened Machine
  import opened SortKeys
  import opened TopRows
  import opened TopNEntries

  /** Row `sel[i]` of a chunk with the `i`-th of the keys selected for it. */
  function Paired<R>(rows: seq<R>, keys: seq<seq<Datum>>, sel: seq<nat>): (r: seq<Offer<R>>)
    requires |keys| == |sel| && forall i {:trigger sel[i]} | 0 <= i < |sel| :: sel[i] < |rows|
    ensures |r| == |sel| && forall i {:trigger r[i]} | 0 <= i < |r| :: r[i] == Offer(rows[sel[i]], keys[i])
  {
    seq(|sel|, i requires 0 <= i < |sel| => Offer(rows[sel[i]], keys[i]))
  }

  /** Every row of a chunk with its keys. */
  function Chunk<R>(rows: seq<R>, keys: seq<seq<Datum>>): (r: seq<Offer<R>>)
    requires |keys| == |rows|
    ensures |r| == |rows|
  {
    seq(|rows|, i requires 0 <= i < |rows| => Offer(rows[i], keys[i]))
  }

  function Everything(n: nat): (sel: seq<nat>)
    ensures |sel| == n && forall i {:trigger sel[i]} | 0 <= i < n :: sel[i] == i
  {
    seq(n, i requires 0 <= i < n => i)
  }

  predicate AllTyped(cols: seq<Column>, keys: seq<seq<Datum>>) {
    forall i {:trigger keys[i]} | 0 <= i < |keys| :: RowTyped(cols, keys[i])
  }

  /** A row the prefilter cannot rule out: NULL, or a code no larger than the worst kept one. */
  predicate Candidate(cols: seq<Column>, row: seq<Datum>, threshold: int)
    requires ColumnsOk(cols) && Prefilters(cols) && RowTyped(cols, row)
  {
    !row[0].Int? || CodeOf(cols, row) <= threshold
  }

  /** Every position listed is that of a candidate, or every one that of a row ruled out. */
  ghost predicate Chosen(cols: seq<Column>, keys: seq<seq<Datum>>, sel: seq<nat>, threshold: int, yes: bool)
    requires ColumnsOk(cols) && Prefilters(cols) && AllTyped(cols, keys)
  {
    forall k {:trigger sel[k]} | 0 <= k < |sel| :: sel[k] < |keys| && Candidate(cols, keys[sel[k]], threshold) == yes
  }

  lemma ChosenMore(cols: seq<Column>, keys: seq<seq<Datum>>, sel: seq<nat>, threshold: int, i: nat, yes: bool)
    requires ColumnsOk(cols) && Prefilters(cols) && AllTyped(cols, keys) && Chosen(cols, keys, sel, threshold, yes)
    requires i < |keys| && Candidate(cols, keys[i], threshold) == yes
    ensures Chosen(cols, keys, sel + [i], threshold, yes)
  {
    hide RowTyped, Candidate;
  }

  /** The positions of the candidates in order, and those of the rows ruled out. */
  method PrefilterCodes<R(!new)>(cols: seq<Column>, ghost rows: seq<R>, keys: seq<seq<Datum>>, threshold: int)
    returns (sel: seq<nat>, ghost out: seq<nat>)
    requires ColumnsOk(cols) && Prefilters(cols) && AllTyped(cols, keys) && |rows| == |keys|
    ensures Chosen(cols, keys, sel, threshold, true) && Chosen(cols, keys, out, threshold, false)
    ensures |sel| + |out| == |keys| && Parted(rows, keys, sel, out, |keys|)
  {
    hide Parted, Chosen, Key, OrderCode;
    sel, out := [], [];
    PartedNone(rows, keys);
    ChosenNone(cols, keys, threshold);
    var i := 0;
    while i < |keys|
      invariant 0 <= i <= |keys| && |sel| + |out| == i && Parted(rows, keys, sel, out, i)
      invariant Chosen(cols, keys, sel, threshold, true) && Chosen(cols, keys, out, threshold, false)
    {
      PartedMore(rows, keys, sel, out, i);
      var row := keys[i];
      if !row[0].Int? || CodeOf(cols, row) <= threshold {
        ChosenMore(cols, keys, sel, threshold, i, true);
        sel := sel + [i];
      } else {
        ChosenMore(cols, keys, out, threshold, i, false);
        out := out + [i];
      }
      i := i + 1;
    }
  }

  lemma ChosenNone(cols: seq<Column>, keys: seq<seq<Datum>>, threshold: int)
    requires ColumnsOk(cols) && Prefilters(cols) && AllTyped(cols, keys)
    ensures Chosen(cols, keys, [], threshold, true) && Chosen(cols, keys, [], threshold, false)
  {
  }

  ghost predicate Indices(sel: seq<nat>, n: nat) {
    forall i {:trigger sel[i]} | 0 <= i < |sel| :: sel[i] < n
  }

  /** The first `i` rows of the chunk are those selected and those ruled out, each once. */
  ghost predicate Parted<R(!new)>(rows: seq<R>, keys: seq<seq<Datum>>, sel: seq<nat>, out: seq<nat>, i: nat) {
    && |rows| == |keys| && i <= |keys| && Indices(sel, |keys|) && Indices(out, |keys|)
    && multiset(Chunk(rows, keys)[..i]) ==
       multiset(Paired(rows, Sliced(keys, sel), sel)) + multiset(Paired(rows, Sliced(keys, out), out))
  }

  lemma PartedNone<R(!new)>(rows: seq<R>, keys: seq<seq<Datum>>)
    requires |rows| == |keys|
    ensures Parted(rows, keys, [], [], 0)
  {
  }

  lemma PartedMore<R(!new)>(rows: seq<R>, keys: seq<seq<Datum>>, sel: seq<nat>, out: seq<nat>, i: nat)
    requires Parted(rows, keys, sel, out, i) && i < |keys|
    ensures Parted(rows, keys, sel + [i], out, i + 1) && Parted(rows, keys, sel, out + [i], i + 1)
  {
    hide Paired, Sliced, Chunk;
    var all := Chunk(rows, keys);
    assert all[..i + 1] == all[..i] + [all[i]];
    PairedMore(rows, keys, sel, i);
    PairedMore(rows, keys, out, i);
  }

  /** The selected rows of a chunk's keys. */
  function Sliced(keys: seq<seq<Datum>>, sel: seq<nat>): (r: seq<seq<Datum>>)
    requires forall i {:trigger sel[i]} | 0 <= i < |sel| :: sel[i] < |keys|
    ensures |r| == |sel| && forall i {:trigger r[i]} | 0 <= i < |r| :: r[i] == keys[sel[i]]
  {
    seq(|sel|, i requires 0 <= i < |sel| => keys[sel[i]])
  }

  lemma PairedMore<R>(rows: seq<R>, keys: seq<seq<Datum>>, sel: seq<nat>, i: nat)
    requires |rows| == |keys| && i < |keys| && forall k {:trigger sel[k]} | 0 <= k < |sel| :: sel[k] < |keys|
    ensures forall k {:trigger (sel + [i])[k]} | 0 <= k < |sel| + 1 :: (sel + [i])[k] < |keys|
    ensures Paired(rows, Sliced(keys, sel + [i]), sel + [i]) == Paired(rows, Sliced(keys, sel), sel) +
            [Chunk(rows, keys)[i]]
  {
  }

  class TopNHeap<R(!new)> {
    const cols: seq<Column>
    const limit: nat
    var heap: seq<Entry>
    var payload: seq<R>
    var finalized: bool

    /** What was offered with each payload row, and the offered rows no longer kept. */
    ghost var offers: seq<Offer<R>>
    ghost var dropped: multiset<Offer<R>>

    ghost predicate Valid()
      reads this
    {
      && ColumnsOk(cols) && Aligned(payload, offers) && Keeps(cols, heap, offers, dropped, limit)
      && (if finalized then Ascending(heap) else Fronted(heap))
    }

    /** The kept rows, in heap order. */
    ghost function Kept(): seq<Offer<R>>
      reads this
      requires Valid()
    {
      KeptOf(cols, heap, offers, dropped, limit)
    }

    /** Every row the heap has been offered, directly or through a merged heap. */
    ghost function Seen(): multiset<Offer<R>>
      reads this
      requires Valid()
    {
      SeenOf(cols, heap, offers, dropped, limit)
    }

    constructor (cols: seq<Column>, limit: nat)
      requires ColumnsOk(cols)
      ensures Valid() && !finalized && Seen() == multiset{} && this.cols == cols && this.limit == limit
    {
      this.cols, this.limit := cols, limit;
      heap, payload, finalized, offers, dropped := [], [], false, [], multiset{};
    }

    predicate ShouldAdd(key: seq<Byte>)
      reads this
      requires limit > 0
    {
      |heap| < limit || Less(key, heap[0].key)
    }

    /** Add an entry, the worst making room for it when the heap is full. */
    method Push(e: Entry)
      requires limit > 0
      modifies `heap
      ensures Fronted(heap)
      ensures old(|heap|) < limit ==> multiset(heap) == multiset(old(heap)) + multiset{e}
      ensures old(|heap|) >= limit ==> multiset(heap) == multiset(old(heap)[1..]) + multiset{e}
    {
      if |heap| >= limit {
        heap := PopHeap(heap);
      }
      heap := PushHeap(heap, e);
    }

    /** Take one more row into account; the entry addresses the payload row it is about to get. */
    method Consider(e: Entry, ghost o: Offer<R>, ghost offs: seq<Offer<R>>, ghost out: multiset<Offer<R>>)
      returns (added: bool, ghost offs': seq<Offer<R>>, ghost out': multiset<Offer<R>>)
      requires ColumnsOk(cols) && limit > 0 && Keeps(cols, heap, offs, out, limit) && Fronted(heap)
      requires e.index == |offs| && EntryOk(cols, e, offs + [o])
      modifies `heap
      ensures added == old(ShouldAdd(e.key)) && (!added ==> heap == old(heap)) &&
              offs' == (if added then offs + [o] else offs)
      ensures Keeps(cols, heap, offs', out', limit) && Fronted(heap)
      ensures SeenOf(cols, heap, offs', out', limit) == old(SeenOf(cols, heap, offs, out, limit)) + multiset{o}
    {
      hide EntryOk, TopOf, Less, RowTyped, Key, CodeOf, Fronted, Keeps, SeenOf;
      added, offs', out' := ShouldAdd(e.key), offs, out;
      KeepsSize(cols, heap, offs, out, limit);
      if added {
        ghost var before := heap;
        Push(e);
        offs' := offs + [o];
        if |before| < limit {
          EnterKeeps(cols, before, offs, out, limit, e, o, heap);
        } else {
          EvictKeeps(cols, before, offs, out, limit, e, o, heap);
          out' := out + multiset{offs[before[0].index]};
        }
      } else {
        EntryKeyIsRowKey(cols, e, offs, o);
        PassKeeps(cols, heap, offs, out, limit, multiset{o});
        out' := out + multiset{o};
      }
    }

    /** Compact the payload to the live rows, once enough dead ones have gathered or when forced. */
    method Reduce(force: bool)
      requires Valid()
      modifies this
      ensures Valid() && finalized == old(finalized) && Kept() == old(Kept()) && Seen() == old(Seen())
      ensures |payload| == |heap| || (!force && (|payload| < 2 * VECTOR_SIZE || |payload| < 2 * limit))
    {
      if !force && |payload| < (if 2 * VECTOR_SIZE < 2 * limit then 2 * limit else 2 * VECTOR_SIZE) {
        return;
      }
      if |payload| == |heap| {
        return;
      }
      Compact();
    }

    /** Drop the rows no entry refers to; the rest are stored in the order of the entries. */
    method Compact()
      requires Valid()
      modifies this
      ensures Valid() && finalized == old(finalized) && |payload| == |heap|
      ensures Kept() == old(Kept()) && Seen() == old(Seen())
    {
      hide Keeps, EntryOk, Fronted, Ascending, Aligned, KeptOf, SeenOf, Picked;
      IndicesInPayload(cols, heap, offers, dropped, limit);
      var sel, entries := Renumber(heap);
      CompactAligned(payload, offers, heap, sel);
      CompactKeeps(cols, heap, entries, offers, dropped, limit);
      payload := Picked(payload, sel);
      offers := Items(heap, offers);
      heap := entries;
    }

    /** Offer the rows `sel` of a chunk, `keys` being their ORDER BY columns. */
    method SinkRows(rows: seq<R>, keys: seq<seq<Datum>>, sel: seq<nat>)
      requires Valid() && !finalized && limit > 0
      requires |keys| == |sel| && AllTyped(cols, keys) && Indices(sel, |rows|)
      modifies this
      ensures Valid() && !finalized && Seen() == old(Seen()) + multiset(Paired(rows, keys, sel))
    {
      hide Keeps, EntryOk, Key, RowTyped, CodeOf, SeenOf, Fronted;
      var append: seq<nat> := [];
      ghost var offs, out, given := offers, dropped, Paired(rows, keys, sel);
      var i := 0;
      while i < |keys|
        invariant 0 <= i <= |keys| && payload == old(payload) && !finalized && offers == old(offers) &&
                  dropped == old(dropped)
        invariant Indices(append, |rows|) && Aligned(payload + Picked(rows, append), offs)
        invariant Keeps(cols, heap, offs, out, limit) && Fronted(heap)
        invariant SeenOf(cols, heap, offs, out, limit) == old(Seen()) + multiset(given[..i])
        invariant append == [] ==> offs == offers
      {
        assert given[..i + 1] == given[..i] + [given[i]];
        var e := MakeEntry(cols, keys[i], |payload| + |append|, offs, given[i]);
        var added;
        added, offs, out := Consider(e, given[i], offs, out);
        if added {
          AlignedMore(payload, rows, append, sel[i], offs, given[i]);
          append := append + [sel[i]];
        }
        i := i + 1;
      }
      assert given[..i] == given;
      dropped := out;
      if append == [] {
        return;
      }
      payload := payload + Picked(rows, append);
      offers := offs;
      Reduce(false);
    }

    /** Offer every row of a chunk. */
    method Sink(rows: seq<R>, keys: seq<seq<Datum>>)
      requires Valid() && !finalized && |rows| == |keys| && AllTyped(cols, keys)
      modifies this
      ensures Valid() && !finalized && Seen() == old(Seen()) + multiset(Chunk(rows, keys))
    {
      if limit == 0 || |rows| == 0 {
        NothingKept(cols, heap, offers, dropped, limit, Chunk(rows, keys));
        dropped := dropped + multiset(Chunk(rows, keys));
        return;
      }
      KeepsSize(cols, heap, offers, dropped, limit);
      if Prefilters(cols) && |heap| >= limit && heap[0].valid {
        var sel, out := PrefilterCodes(cols, rows, keys, heap[0].code);
        if |sel| < |rows| {
          SinkCandidates(rows, keys, sel, out);
          return;
        }
      }
      SinkRows(rows, keys, Everything(|rows|));
      assert Paired(rows, keys, Everything(|rows|)) == Chunk(rows, keys);
    }

    /** Offer the candidates only: the rows ruled out by their code cannot beat the worst kept row. */
    method SinkCandidates(rows: seq<R>, keys: seq<seq<Datum>>, sel: seq<nat>, ghost out: seq<nat>)
      requires Valid() && !finalized && |rows| == |keys| && AllTyped(cols, keys) && limit > 0
      requires Prefilters(cols) && |heap| == limit && heap[0].valid
      requires Chosen(cols, keys, sel, heap[0].code, true) && Chosen(cols, keys, out, heap[0].code, false)
      requires Parted(rows, keys, sel, out, |keys|)
      modifies this
      ensures Valid() && !finalized && Seen() == old(Seen()) + multiset(Chunk(rows, keys))
    {
      hide Keeps, Fronted, SeenOf;
      ghost var ruled := Paired(rows, Sliced(keys, out), out);
      RuledOutKeeps(cols, heap, offers, dropped, limit, rows, keys, out);
      assert Chunk(rows, keys)[..|keys|] == Chunk(rows, keys);
      dropped := dropped + multiset(ruled);
      if |sel| > 0 {
        SinkRows(rows, Sliced(keys, sel), sel);
      }
    }

    /** Bring the entries, and the stored rows with them, into the order they are delivered in. */
    method Finalize()
      requires Valid()
      modifies this
      ensures Valid() && finalized && Seen() == old(Seen()) && multiset(Kept()) == multiset(old(Kept()))
    {
      hide Keeps, Fronted, Ascending, Aligned;
      if finalized {
        return;
      }
      ghost var before := heap;
      heap := SortHeap(heap);
      ReorderKeeps(cols, before, heap, offers, dropped, limit);
      finalized := true;
      Reduce(true);
    }

    /** Merge a worker's heap into this one. */
    method Combine(other: TopNHeap<R>)
      requires Valid() && !finalized && other.Valid() && other != this && other.cols == cols && other.limit == limit
      modifies this, other
      ensures Valid() && !finalized && other.Valid()
      ensures Seen() == old(Seen()) + old(other.Seen()) && other.Seen() == old(other.Seen())
    {
      KeepsSize(cols, other.heap, other.offers, other.dropped, limit);
      if limit == 0 || |other.heap| == 0 {
        MergeNothing(cols, heap, offers, dropped, other.heap, other.offers, other.dropped, limit);
        dropped := dropped + other.dropped;
        return;
      }
      other.Finalize();
      MergeSorted(other);
    }

    /** The entries of a finalized heap come best first, so the first that does not qualify ends the merge. */
    method MergeSorted(other: TopNHeap<R>)
      requires Valid() && !finalized && other.Valid() && other.finalized && other != this && other.cols == cols &&
               other.limit == limit > 0
      modifies this
      ensures Valid() && !finalized && Seen() == old(Seen()) + other.Seen()
    {
      hide Keeps, EntryOk, SeenOf, Ascending, KeptOf, Fronted, Aligned, CodeOf, Items, KeyBy, Picked, TopOf, Key;
      hide EntriesOk, EntryKey;
      var append: seq<nat> := [];
      ghost var offs, out, given := offers, dropped, other.Kept();
      var i := 0;
      assert |offers| == |payload| by {
        AlignedSizes(payload, offers);
      }
      AlignedNone(payload, other.payload, offers);
      KeptFacts(cols, other.heap, other.offers, other.dropped, limit);
      while i < |other.heap|
        invariant 0 <= i <= |other.heap| && payload == old(payload) && !finalized && offers == old(offers) &&
                  dropped == old(dropped)
        invariant |offs| == |payload| + |append| && Indices(append, |other.payload|) &&
                  Aligned(payload + Picked(other.payload, append), offs)
        invariant Keeps(cols, heap, offs, out, limit) && Fronted(heap)
        invariant SeenOf(cols, heap, offs, out, limit) == old(Seen()) + multiset(given[..i])
        invariant append == [] ==> offs == offers
      {
        var e := other.heap[i].(index := |payload| + |append|);
        MovedEntry(cols, other.heap[i], other.offers, e, offs, given[i]);
        if !ShouldAdd(e.key) {
          break;
        }
        assert given[..i + 1] == given[..i] + [given[i]];
        var added;
        added, offs, out := Consider(e, given[i], offs, out);
        AlignedKept(other.payload, other.offers, other.heap, i);
        AlignedMore(payload, other.payload, append, other.heap[i].index, offs, given[i]);
        append := append + [other.heap[i].index];
        i := i + 1;
      }
      RestRefused(cols, heap, offs, out, other.heap, other.offers, other.dropped, limit, i);
      MergeRest(cols, heap, offs, out, other.heap, other.offers, other.dropped, limit, i, old(Seen()));
      dropped := out + multiset(given[i..]) + other.dropped;
      if append == [] {
        return;
      }
      payload := payload + Picked(other.payload, append);
      offers := offs;
      Reduce(false);
    }

    /** Up to a vector of rows starting at `pos`, in output order. */
    method GetData(pos: nat) returns (rows: seq<R>)
      requires Valid() && finalized
      ensures |rows| == (if pos >= |heap| then 0 else if |heap| - pos < VECTOR_SIZE then |heap| - pos else VECTOR_SIZE)
      ensures forall i {:trigger rows[i]} | 0 <= i < |rows| :: rows[i] == Kept()[pos + i].row
    {
      if pos >= |heap| {
        return [];
      }
      var count := if |heap| - pos < VECTOR_SIZE then |heap| - pos else VECTOR_SIZE;
      var sel: seq<nat> := [];
      IndicesInPayload(cols, heap, offers, dropped, limit);
      hide Keeps, EntryOk, Ascending;
      while |sel| < count
        invariant |sel| <= count && forall k {:trigger sel[k]} | 0 <= k < |sel| :: sel[k] == heap[pos + k].index
      {
        sel := sel + [heap[pos + |sel|].index];
      }
      rows := Picked(payload, sel);
    }

    /** All rows in output order, a vector at a time. */
    method Drain() returns (rows: seq<R>)
      requires Valid() && finalized
      ensures |rows| == |Kept()| && forall i {:trigger rows[i]} | 0 <= i < |rows| :: rows[i] == Kept()[i].row
    {
      KeptFacts(cols, heap, offers, dropped, limit);
      hide Keeps, Ascending, KeptOf, EntryOk;
      rows := [];
      var pos := 0;
      while pos < |heap|
        invariant |rows| == (if pos < |heap| then pos else |heap|)
        invariant forall i {:trigger rows[i]} | 0 <= i < |rows| :: rows[i] == Kept()[i].row
      {
        var more := GetData(pos);
        rows := rows + more;
        pos := pos + VECTOR_SIZE;
      }
    }

    /** A finalized heap holds, in order, the keys of the first rows of everything it was offered, sorted. */
    lemma Delivers(all: seq<Offer<R>>)
      requires Valid() && finalized && InOrder(all, KeyBy(cols)) && multiset(all) == Seen()
      ensures |Kept()| == (if limit < |all| then limit else |all|)
      ensures forall i | 0 <= i < |Kept()| :: RowKey(cols, Kept()[i]) == RowKey(cols, all[i])
    {
      KeptFacts(cols, heap, offers, dropped, limit);
      assert InOrder(Kept(), KeyBy(cols)) by {
        forall i, j | 0 <= i < j < |heap| ensures !Less(RowKey(cols, Kept()[j]), RowKey(cols, Kept()[i])) {
          assert EntryKey(heap[i]) == RowKey(cols, Kept()[i]) && EntryKey(heap[j]) == RowKey(cols, Kept()[j]);
        }
      }
      hide Ascending, EntryOk, RowTyped, Key;
      var key: Offer<R> -> seq<Byte> := KeyBy(cols);
      SortThenTake(Kept(), dropped, limit, key, all);
      forall i | 0 <= i < |Kept()| ensures RowKey(cols, Kept()[i]) == RowKey(cols, all[i]) {
        assert key(Kept()[i]) == key(all[i]);
      }
    }

    /** Where no order hangs on NULL against a column's largest integer, that is SQL's order: the heap holds
        the sort columns of the first rows of everything it was offered, ordered as SQL has it. */
    lemma DeliversSql(all: seq<Offer<R>>)
      requires Valid() && finalized && multiset(all) == Seen() && SqlOrdered(cols, all)
      ensures |Kept()| == (if limit < |all| then limit else |all|)
      ensures forall i | 0 <= i < |Kept()| :: Kept()[i].cols == all[i].cols
    {
      hide Valid, Seen, Kept, SqlOrdered;
      SqlOrderIsKeyOrder(cols, all);
      Delivers(all);
      forall i | 0 <= i < |Kept()| ensures Kept()[i].cols == all[i].cols {
        assert Kept()[i] in multiset(all) by {
          KeptIsSeen(i);
        }
        var j :| 0 <= j < |all| && all[j] == Kept()[i];
        SameKeySameColumns(cols, all, i, j);
      }
    }

    lemma KeptIsSeen(i: nat)
      requires Valid() && i < |Kept()|
      ensures Kept()[i] in Seen()
    {
      assert Kept()[i] in multiset(Kept());
    }
  }

  /** Rows of the declared types in SQL's order, no two of which hang on NULL against a column's largest
      integer. */
  ghost predicate SqlOrdered<R>(cols: seq<Column>, all: seq<Offer<R>>) {
    && (forall i {:trigger all[i]} | 0 <= i < |all| :: RowTyped(cols, all[i].cols) && RowUtf8(all[i].cols))
    && (forall i, j {:trigger all[i], all[j]} | 0 <= i < |all| && 0 <= j < |all| ::
          !Confused(cols, all[i].cols, all[j].cols))
    && forall i, j {:trigger all[i], all[j]} | 0 <= i < j < |all| :: !RowLess(cols, all[j].cols, all[i].cols)
  }

  lemma SqlOrderIsKeyOrder<R>(cols: seq<Column>, all: seq<Offer<R>>)
    requires SqlOrdered(cols, all)
    ensures InOrder(all, KeyBy(cols))
  {
    hide RowTyped, RowUtf8, Confused, RowLess, Less, Key;
    forall i, j | 0 <= i < j < |all| ensures !Less(RowKey(cols, all[j]), RowKey(cols, all[i])) {
      KeyOrderIsSql(cols, all[j].cols, all[i].cols);
    }
  }

  lemma SameKeySameColumns<R>(cols: seq<Column>, all: seq<Offer<R>>, i: nat, j: nat)
    requires SqlOrdered(cols, all) && i < |all| && j < |all| && RowKey(cols, all[i]) == RowKey(cols, all[j])
    ensures all[i].cols == all[j].cols
  {
    hide RowTyped, RowUtf8, Confused, RowLess, Less, Key;
    KeyOrderIsSql(cols, all[i].cols, all[j].cols);
  }

  /** The entry for a row with these keys at this place. */
  method MakeEntry<R>(cols: seq<Column>, row: seq<Datum>, index: nat, ghost offers: seq<Offer<R>>, ghost o: Offer<R>)
    returns (e: Entry)
    requires ColumnsOk(cols) && RowTyped(cols, row) && index == |offers| && o.cols == row
    ensures e.index == index && e.key == Key(cols, row) && EntryOk(cols, e, offers + [o])
  {
    var valid := Prefilters(cols) && row[0].Int?;
    e := Entry(Key(cols, row), index, if valid then CodeOf(cols, row) else 0, valid);
  }

  /** Where the live rows are, and the entries numbered in heap order. */
  method Renumber(heap: seq<Entry>) returns (sel: seq<nat>, entries: seq<Entry>)
    ensures |sel| == |entries| == |heap|
    ensures forall k {:trigger sel[k]} | 0 <= k < |heap| :: sel[k] == heap[k].index
    ensures forall k {:trigger entries[k]} | 0 <= k < |heap| :: entries[k] == heap[k].(index := k)
  {
    sel, entries := [], [];
    var i := 0;
    while i < |heap|
      invariant 0 <= i <= |heap| && |sel| == |entries| == i
      invariant forall k {:trigger sel[k]} | 0 <= k < i :: sel[k] == heap[k].index
      invariant forall k {:trigger entries[k]} | 0 <= k < i :: entries[k] == heap[k].(index := k)
    {
      sel, entries := sel + [heap[i].index], entries + [heap[i].(index := i)];
      i := i + 1;
    }
  }

  /** The rows at the given positions. */
  function Picked<R>(rows: seq<R>, sel: seq<nat>): (r: seq<R>)
    requires forall i {:trigger sel[i]} | 0 <= i < |sel| :: sel[i] < |rows|
    ensures |r| == |sel| && forall i {:trigger r[i]} | 0 <= i < |r| :: r[i] == rows[sel[i]]
  {
    seq(|sel|, i requires 0 <= i < |sel| => rows[sel[i]])
  }

  lemma AlignedMore<R>(payload: seq<R>, rows: seq<R>, append: seq<nat>, k: nat, offs: seq<Offer<R>>, o: Offer<R>)
    requires Indices(append, |rows|) && k < |rows| && |offs| == |payload| + |append| + 1 && offs[|offs| - 1] == o &&
             o.row == rows[k]
    requires Aligned(payload + Picked(rows, append), offs[..|offs| - 1])
    ensures Indices(append + [k], |rows|) && Aligned(payload + Picked(rows, append + [k]), offs)
  {
    assert Picked(rows, append + [k]) == Picked(rows, append) + [rows[k]];
    var was := payload + Picked(rows, append);
    assert payload + Picked(rows, append + [k]) == was + [rows[k]];
    forall i | 0 <= i < |offs| ensures offs[i].row == (was + [rows[k]])[i] {
      if i < |was| {
        assert offs[i] == offs[..|offs| - 1][i] && was[i] == offs[..|offs| - 1][i].row;
      }
    }
  }

  ghost predicate Aligned<R>(payload: seq<R>, offers: seq<Offer<R>>) {
    |payload| == |offers| && forall i {:trigger payload[i]} {:trigger offers[i]} | 0 <= i < |payload| ::
      offers[i].row == payload[i]
  }

  lemma EntryKeyIsRowKey<R>(cols: seq<Column>, e: Entry, offers: seq<Offer<R>>, o: Offer<R>)
    requires ColumnsOk(cols) && e.index == |offers| && EntryOk(cols, e, offers + [o])
    ensures RowKey(cols, o) == e.key
  {
  }

  lemma AlignedSizes<R>(payload: seq<R>, offers: seq<Offer<R>>)
    requires Aligned(payload, offers)
    ensures |payload| == |offers|
  {
  }

  lemma AlignedNone<R>(payload: seq<R>, rows: seq<R>, offers: seq<Offer<R>>)
    requires Aligned(payload, offers)
    ensures Aligned(payload + Picked(rows, []), offers)
  {
    assert payload + Picked(rows, []) == payload;
  }

  lemma AlignedKept<R>(payload: seq<R>, offers: seq<Offer<R>>, heap: seq<Entry>, i: nat)
    requires Aligned(payload, offers) && i < |heap| && heap[i].index < |offers|
    ensures heap[i].index < |payload| && offers[heap[i].index].row == payload[heap[i].index]
  {
  }

  /** The kept rows are those the entries address. */
  lemma KeptFacts<R(!new)>(cols: seq<Column>, heap: seq<Entry>, offers: seq<Offer<R>>, dropped: multiset<Offer<R>>,
          n: nat)
    requires ColumnsOk(cols) && Keeps(cols, heap, offers, dropped, n)
    ensures |KeptOf(cols, heap, offers, dropped, n)| == |heap|
    ensures forall i {:trigger heap[i]} | 0 <= i < |heap| ::
              EntryOk(cols, heap[i], offers) && heap[i].index < |offers| &&
                KeptOf(cols, heap, offers, dropped, n)[i] == offers[heap[i].index]
  {
  }

  /** An entry that moves with its row to another payload still stands for it. */
  lemma MovedEntry<R>(cols: seq<Column>, e: Entry, offers: seq<Offer<R>>, e': Entry, offers': seq<Offer<R>>,
          o: Offer<R>)
    requires ColumnsOk(cols) && EntryOk(cols, e, offers) && o == offers[e.index] && e' == e.(index := |offers'|)
    ensures EntryOk(cols, e', offers' + [o])
  {
  }

  lemma MergeNothing<R(!new)>(cols: seq<Column>, heap: seq<Entry>, offers: seq<Offer<R>>, dropped: multiset<Offer<R>>,
          heap': seq<Entry>, offers': seq<Offer<R>>, dropped': multiset<Offer<R>>, n: nat)
    requires ColumnsOk(cols) && Keeps(cols, heap, offers, dropped, n) && Keeps(cols, heap', offers', dropped', n) &&
             (n == 0 || heap' == [])
    ensures Keeps(cols, heap, offers, dropped + dropped', n)
    ensures SeenOf(cols, heap, offers, dropped + dropped', n) == SeenOf(cols, heap, offers, dropped, n) +
            SeenOf(cols, heap', offers', dropped', n)
  {
    KeepsSize(cols, heap, offers, dropped, n);
    KeepsSize(cols, heap', offers', dropped', n);
    assert Items(heap', offers') == [];
    if n > 0 {
      assert dropped' == multiset{} && dropped + dropped' == dropped;
    }
  }

  /** None of the rest of a sorted heap beats the front once its next entry does not. */
  lemma RestRefused<R(!new)>(cols: seq<Column>, heap: seq<Entry>, offs: seq<Offer<R>>, out: multiset<Offer<R>>,
          theirs: seq<Entry>, offers': seq<Offer<R>>, dropped': multiset<Offer<R>>, n: nat, i: nat)
    requires ColumnsOk(cols) && Keeps(cols, heap, offs, out, n) && Fronted(heap) &&
             Keeps(cols, theirs, offers', dropped', n) && Ascending(theirs)
    requires n > 0 && i <= |theirs| && (i < |theirs| ==> |heap| >= n && !Less(theirs[i].key, heap[0].key))
    ensures i <= |KeptOf(cols, theirs, offers', dropped', n)|
    ensures var rest := multiset(KeptOf(cols, theirs, offers', dropped', n)[i..]);
            && Keeps(cols, heap, offs, out + rest, n)
            && SeenOf(cols, heap, offs, out + rest, n) == SeenOf(cols, heap, offs, out, n) + rest
  {
    var rest := KeptOf(cols, theirs, offers', dropped', n)[i..];
    KeepsSize(cols, heap, offs, out, n);
    if i == |theirs| {
      NothingKept(cols, heap, offs, out, n, rest);
    } else {
      forall o | o in multiset(rest) ensures !Less(RowKey(cols, o), heap[0].key) {
        var k :| 0 <= k < |rest| && rest[k] == o;
        assert EntryOk(cols, theirs[i + k], offers');
        if k > 0 {
          NotLessTransitive(heap[0].key, theirs[i].key, theirs[i + k].key);
        }
      }
      PassKeeps(cols, heap, offs, out, n, multiset(rest));
    }
  }

  /** With all their kept rows taken into account, what they dropped is dropped too. */
  lemma MergeRest<R(!new)>(cols: seq<Column>, heap: seq<Entry>, offs: seq<Offer<R>>, out: multiset<Offer<R>>,
          theirs: seq<Entry>, offers': seq<Offer<R>>, dropped': multiset<Offer<R>>, n: nat, i: nat,
          before: multiset<Offer<R>>)
    requires ColumnsOk(cols) && Keeps(cols, heap, offs, out, n) && Keeps(cols, theirs, offers', dropped', n)
    requires i <= |KeptOf(cols, theirs, offers', dropped', n)|
    requires SeenOf(cols, heap, offs, out, n) == before + multiset(KeptOf(cols, theirs, offers', dropped', n)[..i])
    requires var rest := multiset(KeptOf(cols, theirs, offers', dropped', n)[i..]);
             Keeps(cols, heap, offs, out + rest, n)
    ensures var final := out + multiset(KeptOf(cols, theirs, offers', dropped', n)[i..]) + dropped';
            && Keeps(cols, heap, offs, final, n)
            && SeenOf(cols, heap, offs, final, n) == before + SeenOf(cols, theirs, offers', dropped', n)
  {
    var given := KeptOf(cols, theirs, offers', dropped', n);
    assert given == given[..i] + given[i..];
    var kept := multiset(Items(heap, offs));
    SumParts(kept, out, multiset(given[i..]), before, multiset(given[..i]), multiset(given), dropped');
    hide TopOf, EntriesOk, Items;
    MergeTops(kept, out + multiset(given[i..]), multiset(given), dropped', n, KeyBy(cols));
  }

  lemma SumParts<T>(kept: multiset<T>, out: multiset<T>, rest: multiset<T>, before: multiset<T>, first: multiset<T>,
          given: multiset<T>, more: multiset<T>)
    requires kept + out == before + first && given == first + rest
    ensures kept + (out + rest) == before + given && given <= kept + (out + rest)
    ensures kept + (out + rest + more) == before + (given + more)
  {
    assert kept + (out + rest) == (kept + out) + rest == before + given;
    assert kept + (out + rest + more) == (kept + (out + rest)) + more;
  }

  lemma IndicesInPayload<R(!new)>(cols: seq<Column>, heap: seq<Entry>, offers: seq<Offer<R>>,
          dropped: multiset<Offer<R>>, n: nat)
    requires ColumnsOk(cols) && Keeps(cols, heap, offers, dropped, n)
    ensures forall i {:trigger heap[i]} | 0 <= i < |heap| :: heap[i].index < |offers|
  {
  }

  lemma CompactAligned<R>(payload: seq<R>, offers: seq<Offer<R>>, heap: seq<Entry>, sel: seq<nat>)
    requires Aligned(payload, offers) && |sel| == |heap| &&
             (forall i {:trigger heap[i]} | 0 <= i < |heap| :: heap[i].index < |offers|)
    requires forall k {:trigger sel[k]} | 0 <= k < |heap| :: sel[k] == heap[k].index
    ensures Indices(sel, |payload|) && Aligned(Picked(payload, sel), Items(heap, offers))
  {
    var items := Items(heap, offers);
    assert Indices(sel, |payload|);
    var picked := Picked(payload, sel);
    forall k | 0 <= k < |items| ensures items[k].row == picked[k] {
      assert sel[k] == heap[k].index;
    }
  }

  /** Gathering the live rows and numbering the entries anew changes no entry's row. */
  lemma CompactKeeps<R(!new)>(cols: seq<Column>, heap: seq<Entry>, heap': seq<Entry>, offers: seq<Offer<R>>,
          dropped: multiset<Offer<R>>, n: nat)
    requires ColumnsOk(cols) && Keeps(cols, heap, offers, dropped, n)
    requires |heap'| == |heap| && forall k {:trigger heap'[k]} | 0 <= k < |heap| :: heap'[k] == heap[k].(index := k)
    ensures EntriesOk(cols, heap', Items(heap, offers)) && Items(heap', Items(heap, offers)) == Items(heap, offers)
    ensures Keeps(cols, heap', Items(heap, offers), dropped, n)
    ensures KeptOf(cols, heap', Items(heap, offers), dropped, n) == KeptOf(cols, heap, offers, dropped, n)
    ensures SeenOf(cols, heap', Items(heap, offers), dropped, n) == SeenOf(cols, heap, offers, dropped, n)
    ensures (Fronted(heap) ==> Fronted(heap')) && (Ascending(heap) ==> Ascending(heap'))
  {
    var items := Items(heap, offers);
    forall k | 0 <= k < |heap'| ensures EntryOk(cols, heap'[k], items) {
      assert EntryOk(cols, heap[k], offers);
    }
    assert Items(heap', items) == items;
  }

  lemma NothingKept<R(!new)>(cols: seq<Column>, heap: seq<Entry>, offers: seq<Offer<R>>, dropped: multiset<Offer<R>>,
          n: nat, more: seq<Offer<R>>)
    requires ColumnsOk(cols) && Keeps(cols, heap, offers, dropped, n) && (n == 0 || more == [])
    ensures Keeps(cols, heap, offers, dropped + multiset(more), n)
    ensures SeenOf(cols, heap, offers, dropped + multiset(more), n) == SeenOf(cols, heap, offers, dropped, n) +
            multiset(more)
  {
    KeepsSize(cols, heap, offers, dropped, n);
    if more == [] {
      assert dropped + multiset(more) == dropped;
    }
  }

  /** A code larger than the worst kept one means a key larger than the worst kept one. */
  lemma RuledOutKeeps<R(!new)>(cols: seq<Column>, heap: seq<Entry>, offers: seq<Offer<R>>, dropped: multiset<Offer<R>>,
          n: nat, rows: seq<R>, keys: seq<seq<Datum>>, out: seq<nat>)
    requires ColumnsOk(cols) && Keeps(cols, heap, offers, dropped, n) && |heap| == n > 0 && Fronted(heap)
    requires Prefilters(cols) && heap[0].valid && |rows| == |keys| && AllTyped(cols, keys)
    requires Indices(out, |keys|) && Chosen(cols, keys, out, heap[0].code, false)
    ensures var ruled := multiset(Paired(rows, Sliced(keys, out), out));
            && Keeps(cols, heap, offers, dropped + ruled, n)
            && SeenOf(cols, heap, offers, dropped + ruled, n) == SeenOf(cols, heap, offers, dropped, n) + ruled
  {
    var ruled := Paired(rows, Sliced(keys, out), out);
    forall o | o in multiset(ruled) ensures !Less(RowKey(cols, o), heap[0].key) {
      var i :| 0 <= i < |ruled| && ruled[i] == o;
      RuledOutKey(cols, heap[0], offers, keys[out[i]]);
    }
    PassKeeps(cols, heap, offers, dropped, n, multiset(ruled));
  }

  lemma RuledOutKey<R>(cols: seq<Column>, front: Entry, offers: seq<Offer<R>>, row: seq<Datum>)
    requires ColumnsOk(cols) && Prefilters(cols) && EntryOk(cols, front, offers) && front.valid
    requires RowTyped(cols, row) && !Candidate(cols, row, front.code)
    ensures !Less(Key(cols, row), front.key)
  {
    LargerCodeLargerKey(cols, offers[front.index].cols, row);
  }

  lemma KeepsSize<R(!new)>(cols: seq<Column>, heap: seq<Entry>, offers: seq<Offer<R>>, dropped: multiset<Offer<R>>,
          n: nat)
    requires ColumnsOk(cols) && Keeps(cols, heap, offers, dropped, n)
    ensures |heap| <= n && (dropped != multiset{} ==> |heap| == n)
  {
    assert |multiset(Items(heap, offers))| == |Items(heap, offers)|;
  }
}
