/** The entries of a top-n heap: what each one stands for, the standard heap operations on them, and how
    a heap changes when a row enters. */
module TopNEntries {
  import opened Machine
  import opened SortKeys
  import opened TopRows

  /** A row offered to the heap with its evaluated ORDER BY columns. */
  datatype Offer<R> = Offer(row: R, cols: seq<Datum>)

  /** A kept row: its sort key, its place in the payload, and the order code of its first sort column. */
  datatype Entry = Entry(key: seq<Byte>, index: nat, code: int, valid: bool)

  predicate ColumnsOk(cols: seq<Column>) {
    forall i | 0 <= i < |cols| :: cols[i].kind.Integer? ==> cols[i].kind.width in {1, 2, 4, 8}
  }

  /** The prefilter works on a first sort column of integers. */
  predicate Prefilters(cols: seq<Column>) {
    cols != [] && cols[0].kind.Integer?
  }

  function CodeOf(cols: seq<Column>, row: seq<Datum>): int
    requires ColumnsOk(cols) && Prefilters(cols) && RowTyped(cols, row) && row[0].Int?
  {
    OrderCode(cols[0].kind, cols[0].desc, row[0].n)
  }

  function RowKey<R>(cols: seq<Column>, o: Offer<R>): seq<Byte> {
    if RowTyped(cols, o.cols) then Key(cols, o.cols) else []
  }

  function KeyBy<R>(cols: seq<Column>): Offer<R> -> seq<Byte> {
    (o: Offer<R>) => RowKey(cols, o)
  }

  /** The entry addresses its own row and carries that row's key and code. */
  predicate EntryOk<R>(cols: seq<Column>, e: Entry, offers: seq<Offer<R>>)
    requires ColumnsOk(cols)
  {
    && e.index < |offers| && RowTyped(cols, offers[e.index].cols) && e.key == Key(cols, offers[e.index].cols)
    && e.valid == (Prefilters(cols) && offers[e.index].cols[0].Int?)
    && (e.valid ==> e.code == CodeOf(cols, offers[e.index].cols))
  }

  predicate EntriesOk<R>(cols: seq<Column>, heap: seq<Entry>, offers: seq<Offer<R>>)
    requires ColumnsOk(cols)
  {
    forall i {:trigger heap[i]} | 0 <= i < |heap| :: EntryOk(cols, heap[i], offers)
  }

  /** The rows the entries stand for, in heap order. */
  function Items<R>(heap: seq<Entry>, offers: seq<Offer<R>>): (r: seq<Offer<R>>)
    requires forall i {:trigger heap[i]} | 0 <= i < |heap| :: heap[i].index < |offers|
    ensures |r| == |heap| && forall i {:trigger r[i]} | 0 <= i < |r| :: r[i] == offers[heap[i].index]
  {
    seq(|heap|, i requires 0 <= i < |heap| => offers[heap[i].index])
  }

  /** The front entry is a worst one. */
  predicate Fronted(heap: seq<Entry>) {
    forall i {:trigger heap[i]} | 0 <= i < |heap| :: !Less(heap[0].key, heap[i].key)
  }

  function EntryKey(e: Entry): seq<Byte> {
    e.key
  }

  predicate Ascending(heap: seq<Entry>) {
    InOrder(heap, EntryKey)
  }

  /** The heap keeps the first `n` of the rows it stands for and those dropped. */
  ghost predicate Keeps<R(!new)>(cols: seq<Column>, heap: seq<Entry>, offers: seq<Offer<R>>,
          dropped: multiset<Offer<R>>, n: nat)
    requires ColumnsOk(cols)
  {
    EntriesOk(cols, heap, offers) && TopOf(multiset(Items(heap, offers)), dropped, n, KeyBy(cols))
  }

  /** The kept rows in heap order, and every row accounted for. */
  ghost function KeptOf<R(!new)>(cols: seq<Column>, heap: seq<Entry>, offers: seq<Offer<R>>,
          dropped: multiset<Offer<R>>, n: nat): seq<Offer<R>>
    requires ColumnsOk(cols) && Keeps(cols, heap, offers, dropped, n)
  {
    Items(heap, offers)
  }

  ghost function SeenOf<R(!new)>(cols: seq<Column>, heap: seq<Entry>, offers: seq<Offer<R>>,
          dropped: multiset<Offer<R>>, n: nat): multiset<Offer<R>>
    requires ColumnsOk(cols) && Keeps(cols, heap, offers, dropped, n)
  {
    multiset(KeptOf(cols, heap, offers, dropped, n)) + dropped
  }

  // ---------------------------------------------------------------- the standard heap operations

  /** Bring a largest entry to the front. */
  method BringWorst(h: seq<Entry>) returns (r: seq<Entry>)
    ensures multiset(r) == multiset(h) && Fronted(r)
  {
    r := h;
    if |h| > 0 {
      LessIrreflexive(h[0].key);
    }
    var i := 1;
    while i < |h|
      invariant |r| == |h| && multiset(r) == multiset(h) && (|h| > 0 ==> 1 <= i <= |h|)
      invariant forall k {:trigger r[k]} | 0 <= k < i && k < |r| :: !Less(r[0].key, r[k].key)
    {
      if Less(r[0].key, r[i].key) {
        forall k | 0 <= k < i ensures !Less(r[i].key, r[k].key) {
          LessAsymmetric(r[0].key, r[i].key);
          NotLessTransitive(r[k].key, r[0].key, r[i].key);
        }
        r := r[0 := r[i]][i := r[0]];
      }
      LessIrreflexive(r[0].key);
      i := i + 1;
    }
    if |h| > 0 {
      LessIrreflexive(r[0].key);
    }
  }

  method PushHeap(h: seq<Entry>, x: Entry) returns (r: seq<Entry>)
    ensures multiset(r) == multiset(h) + multiset{x} && Fronted(r)
  {
    r := BringWorst(h + [x]);
  }

  method PopHeap(h: seq<Entry>) returns (r: seq<Entry>)
    requires h != []
    ensures multiset(r) == multiset(h[1..]) && Fronted(r)
  {
    r := BringWorst(h[1..]);
  }

  method SortHeap(h: seq<Entry>) returns (r: seq<Entry>)
    ensures multiset(r) == multiset(h) && Ascending(r)
  {
    r := [];
    var i := 0;
    while i < |h|
      invariant 0 <= i <= |h| && multiset(r) == multiset(h[..i]) && Ascending(r)
    {
      assert h[..i + 1] == h[..i] + [h[i]];
      InsertKeeps(r, h[i], EntryKey);
      r := Insert(r, h[i], EntryKey);
      i := i + 1;
    }
    assert h[..i] == h;
  }

  // ---------------------------------------------------------------- the rows do not depend on heap order

  lemma {:induction false} ItemsPermute<R>(a: seq<Entry>, b: seq<Entry>, offers: seq<Offer<R>>)
    requires multiset(a) == multiset(b) && (forall i {:trigger a[i]} | 0 <= i < |a| :: a[i].index < |offers|)
    ensures forall i {:trigger b[i]} | 0 <= i < |b| :: b[i].index < |offers|
    ensures multiset(Items(a, offers)) == multiset(Items(b, offers))
  {
    assert |a| == |multiset(a)| == |multiset(b)| == |b|;
    forall i | 0 <= i < |b| ensures b[i].index < |offers| {
      assert b[i] in multiset(a);
    }
    if a != [] {
      assert a[0] in multiset(b);
      var j :| 0 <= j < |b| && b[j] == a[0];
      WithoutCounts(a, 0);
      WithoutCounts(b, j);
      ItemsSplit(a, 0, offers);
      ItemsSplit(b, j, offers);
      ItemsPermute(Without(a, 0), Without(b, j), offers);
    }
  }

  lemma ItemsSplit<R>(b: seq<Entry>, j: nat, offers: seq<Offer<R>>)
    requires j < |b| && (forall i {:trigger b[i]} | 0 <= i < |b| :: b[i].index < |offers|)
    ensures forall i {:trigger Without(b, j)[i]} | 0 <= i < |b| - 1 :: Without(b, j)[i].index < |offers|
    ensures multiset(Items(b, offers)) == multiset(Items(Without(b, j), offers)) + multiset{offers[b[j].index]}
  {
    var r := Items(b, offers);
    assert Items(Without(b, j), offers) == Without(r, j);
    WithoutCounts(r, j);
  }

  lemma EntriesPermute<R>(cols: seq<Column>, a: seq<Entry>, b: seq<Entry>, offers: seq<Offer<R>>)
    requires ColumnsOk(cols) && EntriesOk(cols, a, offers) && multiset(a) == multiset(b)
    ensures EntriesOk(cols, b, offers)
  {
    forall i | 0 <= i < |b| ensures EntryOk(cols, b[i], offers) {
      assert b[i] in multiset(a);
    }
  }

  lemma ReorderKeeps<R(!new)>(cols: seq<Column>, a: seq<Entry>, b: seq<Entry>, offers: seq<Offer<R>>,
          dropped: multiset<Offer<R>>, n: nat)
    requires ColumnsOk(cols) && Keeps(cols, a, offers, dropped, n) && multiset(a) == multiset(b)
    ensures Keeps(cols, b, offers, dropped, n) && multiset(Items(a, offers)) == multiset(Items(b, offers)) && |a| == |b|
  {
    assert |a| == |multiset(a)| == |multiset(b)| == |b|;
    EntriesPermute(cols, a, b, offers);
    ItemsPermute(a, b, offers);
  }

  /** The front of a heap is a worst of the rows kept. */
  lemma FrontIsWorst<R(!new)>(cols: seq<Column>, heap: seq<Entry>, offers: seq<Offer<R>>)
    requires ColumnsOk(cols) && EntriesOk(cols, heap, offers) && heap != [] && Fronted(heap)
    ensures WorstOf(offers[heap[0].index], multiset(Items(heap, offers)), KeyBy(cols))
    ensures KeyBy(cols)(offers[heap[0].index]) == heap[0].key
  {
    var items := Items(heap, offers);
    assert EntryOk(cols, heap[0], offers) && items[0] in multiset(items);
    forall a | a in multiset(items) ensures !Less(heap[0].key, KeyBy(cols)(a)) {
      var i :| 0 <= i < |items| && items[i] == a;
      assert EntryOk(cols, heap[i], offers);
    }
  }

  // ---------------------------------------------------------------- a row enters

  lemma LongerOffers<R>(cols: seq<Column>, heap: seq<Entry>, offers: seq<Offer<R>>, o: Offer<R>)
    requires ColumnsOk(cols) && EntriesOk(cols, heap, offers)
    ensures EntriesOk(cols, heap, offers + [o]) && Items(heap, offers + [o]) == Items(heap, offers)
  {
    forall i | 0 <= i < |heap| ensures EntryOk(cols, heap[i], offers + [o]) {
      assert EntryOk(cols, heap[i], offers);
    }
  }

  lemma AppendedItems<R>(cols: seq<Column>, heap: seq<Entry>, offers: seq<Offer<R>>, e: Entry, o: Offer<R>)
    requires ColumnsOk(cols) && EntriesOk(cols, heap, offers) && e.index == |offers| && EntryOk(cols, e, offers + [o])
    ensures EntriesOk(cols, heap + [e], offers + [o]) && Items(heap + [e], offers + [o]) == Items(heap, offers) + [o]
  {
    LongerOffers(cols, heap, offers, o);
    hide EntryOk;
    assert EntriesOk(cols, heap + [e], offers + [o]);
    var more := Items(heap + [e], offers + [o]);
    assert more[..|heap|] == Items(heap, offers + [o]);
    assert more == more[..|heap|] + [more[|heap|]];
  }

  /** There is room: the row is kept. */
  lemma EnterKeeps<R(!new)>(cols: seq<Column>, heap: seq<Entry>, offers: seq<Offer<R>>, dropped: multiset<Offer<R>>,
          n: nat, e: Entry, o: Offer<R>, heap': seq<Entry>)
    requires ColumnsOk(cols) && Keeps(cols, heap, offers, dropped, n) && |heap| < n
    requires e.index == |offers| && EntryOk(cols, e, offers + [o]) && multiset(heap') == multiset(heap) + multiset{e}
    ensures Keeps(cols, heap', offers + [o], dropped, n)
    ensures SeenOf(cols, heap', offers + [o], dropped, n) == SeenOf(cols, heap, offers, dropped, n) + multiset{o}
  {
    Admit(multiset(Items(heap, offers)), dropped, n, KeyBy(cols), o);
    AppendedItems(cols, heap, offers, e, o);
    ReorderKeeps(cols, heap + [e], heap', offers + [o], dropped, n);
  }

  lemma TailItems<R>(cols: seq<Column>, heap: seq<Entry>, offers: seq<Offer<R>>)
    requires ColumnsOk(cols) && EntriesOk(cols, heap, offers) && heap != []
    ensures EntriesOk(cols, heap[1..], offers) && Items(heap[1..], offers) == Items(heap, offers)[1..]
  {
  }

  lemma EvictedItems<R>(cols: seq<Column>, heap: seq<Entry>, offers: seq<Offer<R>>, e: Entry, o: Offer<R>)
    requires ColumnsOk(cols) && EntriesOk(cols, heap, offers) && heap != []
    requires e.index == |offers| && EntryOk(cols, e, offers + [o])
    ensures EntriesOk(cols, heap[1..] + [e], offers + [o]) && heap[0].index < |offers|
    ensures multiset(Items(heap[1..] + [e], offers + [o])) ==
            multiset(Items(heap, offers)) - multiset{offers[heap[0].index]} + multiset{o}
  {
    assert EntryOk(cols, heap[0], offers);
    hide EntryOk;
    TailItems(cols, heap, offers);
    AppendedItems(cols, heap[1..], offers, e, o);
    WithoutCounts(Items(heap, offers), 0);
    assert Without(Items(heap, offers), 0) == Items(heap, offers)[1..];
  }

  lemma Exchange<T>(m: multiset<T>, m': multiset<T>, out: multiset<T>, w: T, o: T)
    requires m' + multiset{w} == m + multiset{o}
    ensures m' + (out + multiset{w}) == m + out + multiset{o}
  {
    assert m' + (out + multiset{w}) == (m' + multiset{w}) + out;
  }

  /** The heap is full and the row beats the front, which goes. */
  lemma EvictKeeps<R(!new)>(cols: seq<Column>, heap: seq<Entry>, offers: seq<Offer<R>>, dropped: multiset<Offer<R>>,
          n: nat, e: Entry, o: Offer<R>, heap': seq<Entry>)
    requires ColumnsOk(cols) && Keeps(cols, heap, offers, dropped, n) && |heap| == n > 0 && Fronted(heap) &&
             Less(e.key, heap[0].key)
    requires e.index == |offers| && EntryOk(cols, e, offers + [o]) &&
             multiset(heap') == multiset(heap[1..]) + multiset{e}
    ensures heap[0].index < |offers|
    ensures var w := offers[heap[0].index];
            && Keeps(cols, heap', offers + [o], dropped + multiset{w}, n)
            && SeenOf(cols, heap', offers + [o], dropped + multiset{w}, n) == SeenOf(cols, heap, offers, dropped, n) +
               multiset{o}
  {
    hide Items;
    EvictedTop(cols, heap, offers, dropped, n, e, o);
    EvictedItems(cols, heap, offers, e, o);
    hide EntryOk, Less, Fronted, TopOf, Keeps;
    var w, more := offers[heap[0].index], heap[1..] + [e];
    ReorderKeeps(cols, more, heap', offers + [o], dropped + multiset{w}, n);
    Exchange(multiset(Items(heap, offers)), multiset(Items(more, offers + [o])), dropped, w, o);
  }

  lemma EvictedTop<R(!new)>(cols: seq<Column>, heap: seq<Entry>, offers: seq<Offer<R>>, dropped: multiset<Offer<R>>,
          n: nat, e: Entry, o: Offer<R>)
    requires ColumnsOk(cols) && Keeps(cols, heap, offers, dropped, n) && |heap| == n > 0 && Fronted(heap) &&
             Less(e.key, heap[0].key)
    requires e.index == |offers| && EntryOk(cols, e, offers + [o])
    ensures heap[0].index < |offers| && offers[heap[0].index] in multiset(Items(heap, offers))
    ensures Keeps(cols, heap[1..] + [e], offers + [o], dropped + multiset{offers[heap[0].index]}, n)
  {
    assert EntryOk(cols, heap[0], offers);
    FrontIsWorst(cols, heap, offers);
    assert KeyBy(cols)(o) == e.key;
    hide EntryOk, Less, Fronted;
    Replace(multiset(Items(heap, offers)), dropped, n, KeyBy(cols), offers[heap[0].index], o);
    EvictedItems(cols, heap, offers, e, o);
  }

  /** The row does not beat the front of a full heap: it is dropped. */
  lemma PassKeeps<R(!new)>(cols: seq<Column>, heap: seq<Entry>, offers: seq<Offer<R>>, dropped: multiset<Offer<R>>,
          n: nat, out: multiset<Offer<R>>)
    requires ColumnsOk(cols) && Keeps(cols, heap, offers, dropped, n) && |heap| == n > 0 && Fronted(heap)
    requires forall o | o in out :: !Less(RowKey(cols, o), heap[0].key)
    ensures Keeps(cols, heap, offers, dropped + out, n)
    ensures SeenOf(cols, heap, offers, dropped + out, n) == SeenOf(cols, heap, offers, dropped, n) + out
  {
    FrontIsWorst(cols, heap, offers);
    assert EntryOk(cols, heap[0], offers);
    var key: Offer<R> -> seq<Byte> := KeyBy(cols);
    forall o | o in out ensures !Less(key(o), key(offers[heap[0].index])) {
      assert key(o) == RowKey(cols, o);
    }
    Refuse(multiset(Items(heap, offers)), dropped, n, key, offers[heap[0].index], out);
  }
}
