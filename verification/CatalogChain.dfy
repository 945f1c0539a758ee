/** The catalog record on disk: a chain of pages headed by page 0, each pointing to the next. */
module CatalogChain {
  import opened Machine
  import opened ByteBuffers
  import opened SchemaCodec
  import opened CatalogRecord

  const PAGE_SIZE: nat := 8192
  const ROOT_PAYLOAD: nat := 8180
  const CHAIN_PAYLOAD: nat := 8188
  const MAGIC: nat := 0xB0BDB001
  const INVALID_PAGE: int := -1
  const ROOT_PAGE: int := 0

  const EMPTY: Catalog := Catalog([], 0, 0, 0, [], [])

  type Disk = map<int, seq<Byte>>

  // ---------------------------------------------------------------- the layout

  function PagesNeeded(n: nat): (k: nat)
    ensures k >= 1
  {
    1 + if n > ROOT_PAYLOAD then (n - ROOT_PAYLOAD + CHAIN_PAYLOAD - 1) / CHAIN_PAYLOAD else 0
  }

  /** How much of an `n`-byte record stands on the pages before page `i`. */
  function Offset(n: nat, i: nat): (k: nat)
    ensures k <= n
  {
    if i == 0 then 0
    else if n < ROOT_PAYLOAD + (i - 1) * CHAIN_PAYLOAD then n else ROOT_PAYLOAD + (i - 1) * CHAIN_PAYLOAD
  }

  predicate PageId(id: int) {
    0 <= id < 0x8000_0000
  }

  /** A chain of different pages headed by the root page. */
  predicate ChainOk(pages: seq<int>) {
    && pages != [] && pages[0] == ROOT_PAGE
    && (forall i {:trigger pages[i]} | 0 <= i < |pages| :: PageId(pages[i]))
    && (forall i, j {:trigger pages[i], pages[j]} | 0 <= i < j < |pages| :: pages[i] != pages[j])
  }

  function NextOf(pages: seq<int>, i: nat): int {
    if i + 1 < |pages| then pages[i + 1] else INVALID_PAGE
  }

  /** The bytes in front of a page's payload. */
  function Header(next: int, n: nat, i: nat): (bs: seq<Byte>)
    requires Int32(next) && n < 0x1_0000_0000
    ensures |bs| == if i == 0 then 12 else 4
  {
    (if i == 0 then Bytes(MAGIC, 4) + Bytes(n, 4) else []) + SignedBytes(next)
  }

  function Zeros(n: nat): seq<Byte> {
    seq(n, _ => 0)
  }

  lemma OffsetStep(n: nat, i: nat)
    ensures Offset(n, i) <= Offset(n, i + 1) <= n
    ensures Offset(n, i + 1) - Offset(n, i) <= if i == 0 then ROOT_PAYLOAD else CHAIN_PAYLOAD
    ensures Offset(n, i + 1) == Offset(n, i) + (var cap := if i == 0 then ROOT_PAYLOAD else CHAIN_PAYLOAD;
                                                if cap < n - Offset(n, i) then cap else n - Offset(n, i))
  {
  }

  lemma NeededSuffice(n: nat, k: nat)
    requires PagesNeeded(n) <= k
    ensures Offset(n, k) == n
  {
  }

  /** What page `i` of the chain holds: its header, its slice of the record, and zeros. */
  function Image(pages: seq<int>, record: seq<Byte>, i: nat): (page: seq<Byte>)
    requires ChainOk(pages) && i < |pages| && |record| < 0x1_0000_0000
    ensures |page| == PAGE_SIZE
  {
    OffsetStep(|record|, i);
    var front := Header(NextOf(pages, i), |record|, i) + record[Offset(|record|, i)..Offset(|record|, i + 1)];
    front + Zeros(PAGE_SIZE - |front|)
  }

  ghost predicate DiskOk(disk: Disk) {
    forall id {:trigger disk[id]} | id in disk :: |disk[id]| == PAGE_SIZE
  }

  /** A page never written reads as zeros. */
  function PageAt(disk: Disk, id: int): (page: seq<Byte>)
    requires DiskOk(disk)
    ensures |page| == PAGE_SIZE
  {
    if id in disk then disk[id] else Zeros(PAGE_SIZE)
  }

  /** The file starts with a catalog. */
  predicate HasCatalog(disk: Disk)
    requires DiskOk(disk)
  {
    Next(PageAt(disk, ROOT_PAGE), 4).value.0 == MAGIC
  }

  /** The magic number, then the record's length, then the next page. */
  predicate RootHeader(page: seq<Byte>, n: nat, next: int) {
    && |page| >= 12 && Next(page, 4).value.0 == MAGIC
    && var behind := Next(page, 4).value.1;
       Next(behind, 4).value.0 == n && NextSigned(Next(behind, 4).value.1, 4).value.0 == next
  }

  /** The page a page of the chain points to. */
  function LinkOf(page: seq<Byte>): int
    requires |page| == PAGE_SIZE
  {
    NextSigned(page, 4).value.0
  }

  /** No page outside the chain has changed. */
  ghost predicate Untouched(before: Disk, after: Disk, pages: seq<int>) {
    forall id | id in before && id !in pages :: id in after && after[id] == before[id]
  }

  /** The first `k` pages of the chain are on disk. */
  ghost predicate Written(disk: Disk, pages: seq<int>, record: seq<Byte>, k: nat)
    requires ChainOk(pages) && |record| < 0x1_0000_0000
  {
    k <= |pages| && forall i {:trigger pages[i]} | 0 <= i < k ::
      pages[i] in disk && disk[pages[i]] == Image(pages, record, i)
  }

  /** The disk holds the record along the chain, with or without spare pages behind it. */
  ghost predicate Holds(disk: Disk, pages: seq<int>, record: seq<Byte>) {
    DiskOk(disk) && ChainOk(pages) && |record| < 0x1_0000_0000 && PagesNeeded(|record|) <= |pages| &&
    Written(disk, pages, record, |pages|)
  }

  // ---------------------------------------------------------------- reading one page back

  /** A header, a payload and padding come apart again. */
  lemma Apart(a: seq<Byte>, b: seq<Byte>, c: seq<Byte>)
    ensures var s := a + b + c; s[..|a|] == a && s[|a|..] == b + c && s[|a|..|a| + |b|] == b
  {
    var s := a + b + c;
    assert s == a + (b + c);
  }

  lemma ImageApart(pages: seq<int>, record: seq<Byte>, i: nat)
    requires ChainOk(pages) && i < |pages| && |record| < 0x1_0000_0000
    ensures var page, h, n := Image(pages, record, i), Header(NextOf(pages, i), |record|, i), |record|;
            && Offset(n, i) <= Offset(n, i + 1) <= n && |h| + Offset(n, i + 1) - Offset(n, i) <= PAGE_SIZE
            && page[..|h|] == h &&
               page[|h|..|h| + Offset(n, i + 1) - Offset(n, i)] == record[Offset(n, i)..Offset(n, i + 1)]
            && page == h + page[|h|..]
  {
    OffsetStep(|record|, i);
    hide Header, Offset;
    var h, slice := Header(NextOf(pages, i), |record|, i), record[Offset(|record|, i)..Offset(|record|, i + 1)];
    Apart(h, slice, Zeros(PAGE_SIZE - |h + slice|));
  }

  /** The root page's header reads back as the magic number, the length and the next page. */
  lemma RootReads(next: int, n: nat, rest: seq<Byte>)
    requires Int32(next) && n < 0x1_0000_0000
    ensures var bs := Header(next, n, 0) + rest;
            && Next(bs, 4) == Ok((MAGIC, Bytes(n, 4) + (SignedBytes(next) + rest)))
            && Next(Bytes(n, 4) + (SignedBytes(next) + rest), 4) == Ok((n, SignedBytes(next) + rest))
            && NextSigned(SignedBytes(next) + rest, 4) == Ok((next, rest))
  {
    Widths();
    Joined(Bytes(MAGIC, 4) + Bytes(n, 4), SignedBytes(next), rest);
    Joined(Bytes(MAGIC, 4), Bytes(n, 4), SignedBytes(next) + rest);
    NextOfBytes(MAGIC, 4, Bytes(n, 4) + (SignedBytes(next) + rest));
    NextOfBytes(n, 4, SignedBytes(next) + rest);
    NextOfSigned(next, 4, rest);
  }

  lemma LinkReads(next: int, n: nat, i: nat, rest: seq<Byte>)
    requires Int32(next) && n < 0x1_0000_0000 && i > 0
    ensures NextSigned(Header(next, n, i) + rest, 4) == Ok((next, rest))
  {
    Widths();
    assert Header(next, n, i) == SignedBytes(next);
    NextOfSigned(next, 4, rest);
  }

  // ---------------------------------------------------------------- the database file

  lemma ChainGrows(pages: seq<int>, id: int)
    requires ChainOk(pages) && PageId(id) && forall i {:trigger pages[i]} | 0 <= i < |pages| :: pages[i] < id
    ensures ChainOk(pages + [id])
  {
  }

  lemma WrittenNone(disk: Disk, pages: seq<int>, record: seq<Byte>)
    requires ChainOk(pages) && |record| < 0x1_0000_0000
    ensures Written(disk, pages, record, 0) && Offset(|record|, 0) == 0
  {
  }

  /** Writing the next page of the chain leaves the pages before it as they are. */
  lemma WriteMore(disk: Disk, pages: seq<int>, record: seq<Byte>, k: nat)
    requires DiskOk(disk) && ChainOk(pages) && |record| < 0x1_0000_0000 && k < |pages| &&
             Written(disk, pages, record, k)
    ensures DiskOk(disk[pages[k] := Image(pages, record, k)]) &&
            Written(disk[pages[k] := Image(pages, record, k)], pages, record, k + 1)
  {
    hide Image;
  }

  class Database {
    var disk: Disk
    var pages: seq<int>
    var nextPage: int
    var catalog: Catalog

    ghost predicate Valid()
      reads this
    {
      && DiskOk(disk) && ChainOk(pages) && nextPage <= 0x7fff_ffff && CatalogOk(catalog)
      && forall i {:trigger pages[i]} | 0 <= i < |pages| :: pages[i] < nextPage
    }

    /** The record's length and the page ids it may still need are within the format. */
    ghost predicate Room()
      reads this
    {
      var n := |SerializeCatalog(nextPage, catalog)|;
      n < 0x1_0000_0000 && nextPage + PagesNeeded(n) <= 0x7fff_ffff
    }

    constructor (disk: Disk)
      requires DiskOk(disk)
      ensures Valid() && this.disk == disk && pages == [ROOT_PAGE] && nextPage == 1 && catalog == EMPTY
    {
      this.disk, pages, nextPage, catalog := disk, [ROOT_PAGE], 1, EMPTY;
    }

    /** Lengthen the chain to `k` pages with ids no page has. */
    method Reserve(k: nat)
      requires Valid() && (|pages| < k ==> nextPage + k <= 0x7fff_ffff)
      modifies `pages, `nextPage
      ensures Valid() && old(pages) <= pages && |pages| == if old(|pages|) < k then k else old(|pages|)
      ensures nextPage - old(nextPage) == |pages| - old(|pages|)
    {
      while |pages| < k
        invariant Valid() && old(pages) <= pages && |pages| <= (if old(|pages|) < k then k else old(|pages|))
        invariant nextPage - old(nextPage) == |pages| - old(|pages|)
      {
        ChainGrows(pages, nextPage);
        pages, nextPage := pages + [nextPage], nextPage + 1;
      }
    }

    /** Write the record along the chain, lengthening it where the record needs more pages. */
    method WriteCatalogChain(record: seq<Byte>)
      requires Valid() && |record| < 0x1_0000_0000
      requires |pages| < PagesNeeded(|record|) ==> nextPage + PagesNeeded(|record|) <= 0x7fff_ffff
      modifies `disk, `pages, `nextPage
      ensures Valid() && Holds(disk, pages, record) && old(pages) <= pages
      ensures PagesNeeded(|record|) <= old(|pages|) ==> pages == old(pages) && nextPage == old(nextPage)
      ensures Untouched(old(disk), disk, pages)
    {
      hide Image, Written, PagesNeeded, ChainOk, DiskOk, Untouched;
      Reserve(PagesNeeded(|record|));
      WritePages(record);
    }

    /** Every page of the chain in turn, spare pages too. */
    method WritePages(record: seq<Byte>)
      requires Valid() && |record| < 0x1_0000_0000
      modifies `disk
      ensures Valid() && Written(disk, pages, record, |pages|) && Untouched(old(disk), disk, pages)
    {
      hide Image, Header, Written, Offset, ChainOk, DiskOk;
      var offset: nat := 0;
      var i := 0;
      WrittenNone(disk, pages, record);
      while i < |pages|
        invariant 0 <= i <= |pages| && DiskOk(disk) && Written(disk, pages, record, i) && offset == Offset(|record|, i)
        invariant Untouched(old(disk), disk, pages)
      {
        WriteMore(disk, pages, record, i);
        var page;
        page, offset := FillPage(record, NextOf(pages, i), i, offset, pages);
        assert pages[i] in pages;
        disk := disk[pages[i] := page];
        i := i + 1;
      }
    }

    /** Read the chain back: nothing on a fresh file, otherwise the record and every page of the chain. */
    method ReadCatalogChain(ghost chain: seq<int>, ghost content: seq<Byte>) returns (ok: bool, record: seq<Byte>)
      requires DiskOk(disk) && (HasCatalog(disk) ==> Holds(disk, chain, content))
      modifies `pages
      ensures ok == HasCatalog(disk)
      ensures if ok then record == content && pages == chain else pages == old(pages)
    {
      hide Holds, HasCatalog, Offset, DiskOk;
      var total, next, first;
      ok, total, next, first := ReadRoot(chain, content);
      if !ok {
        return false, [];
      }
      pages := [ROOT_PAGE];
      record := FollowChain(chain, content, total, next, first);
    }

    /** The root page: whether there is a catalog, its length, the next page and its first part. */
    method ReadRoot(ghost chain: seq<int>, ghost content: seq<Byte>)
      returns (ok: bool, total: nat, next: int, first: seq<Byte>)
      requires DiskOk(disk) && (HasCatalog(disk) ==> Holds(disk, chain, content))
      ensures ok == HasCatalog(disk)
      ensures ok ==> total == |content| && next == NextOf(chain, 0) && first == content[..Offset(|content|, 1)]
      ensures ok ==> 0 < |chain| && chain[..1] == [ROOT_PAGE]
    {
      hide Holds, PageAt, Offset, NextOf, NextSigned, DiskOk, Next;
      var page := PageAt(disk, ROOT_PAGE);
      var head := new ByteReader(page);
      var magic := head.GetUnsigned(4);
      if magic.value != MAGIC {
        return false, 0, 0, [];
      }
      RootPage(disk, chain, content);
      var length := head.GetUnsigned(4);
      var link := head.GetSigned(4);
      total, next := length.value, link.value;
      var take := if ROOT_PAYLOAD < total then ROOT_PAYLOAD else total;
      return true, total, next, page[12..12 + take];
    }

    /** The rest of the record, and the rest of the chain to its last page. */
    method FollowChain(ghost chain: seq<int>, ghost content: seq<Byte>, total: nat, first: int, start: seq<Byte>)
      returns (record: seq<Byte>)
      requires Holds(disk, chain, content) && total == |content| && first == NextOf(chain, 0)
      requires 0 < |chain| && pages == chain[..1] && start == content[..Offset(|content|, 1)]
      modifies `pages
      ensures record == content && pages == chain
    {
      hide Holds, Offset, ChainOk;
      assert DiskOk(disk) by {
        HoldsDisk(disk, chain, content);
      }
      hide DiskOk;
      var next := first;
      record := start;
      while next != INVALID_PAGE
        invariant 0 < |pages| <= |chain| && pages == chain[..|pages|]
        invariant next == NextOf(chain, |pages| - 1) && record == content[..Offset(|content|, |pages|)]
        decreases |chain| - |pages|
      {
        LinkedPage(disk, chain, content, |pages|, next);
        var page, link := ReadLink(next);
        pages, next := pages + [next], link;
        if |record| < total {
          var chunk := if CHAIN_PAYLOAD < total - |record| then CHAIN_PAYLOAD else total - |record|;
          record := record + page[4..4 + chunk];
        }
      }
      AllRead(disk, chain, content, |pages|);
    }

    /** A page and the id of the page after it. */
    method ReadLink(id: int) returns (page: seq<Byte>, next: int)
      requires DiskOk(disk)
      ensures page == PageAt(disk, id) && next == LinkOf(page)
    {
      page := PageAt(disk, id);
      var body := new ByteReader(page);
      var link := body.GetSigned(4);
      next := link.value;
    }

    /** Size the record, reserve the pages it needs, and write it again with the allocator's state after
        that: no page of the chain can be handed out again. */
    method Close()
      requires Valid() && Room()
      modifies `disk, `pages, `nextPage
      ensures Valid() && Int32(nextPage) && old(pages) <= pages &&
              Holds(disk, pages, SerializeCatalog(nextPage, catalog))
    {
      hide PagesNeeded, PutWord, PutInt32, PutBody, CatalogOk, Holds, Untouched;
      var sizing := SerializeCatalog(nextPage, catalog);
      Reserve(PagesNeeded(|sizing|));
      var record := SerializeCatalog(nextPage, catalog);
      WriteCatalogChain(record);
    }
  }

  /** Open a file: load the catalog it holds, or start an empty one. */
  method Open(disk: Disk, ghost chain: seq<int>, ghost content: seq<Byte>) returns (r: Result<Database>)
    requires DiskOk(disk) && (HasCatalog(disk) ==> Holds(disk, chain, content))
    ensures r.Ok? ==> fresh(r.value) && r.value.disk == disk
    ensures !HasCatalog(disk) ==>
            r.Ok? && r.value.catalog == EMPTY && r.value.nextPage == 1 && r.value.pages == [ROOT_PAGE]
    ensures HasCatalog(disk) ==>
              match LoadCatalog(content)
              case Ok((next, c)) => r.Ok? && r.value.nextPage == next && r.value.catalog == c && r.value.pages == chain
              case Truncated => r == Truncated
              case Unsupported => r == Unsupported
  {
    hide LoadCatalog, Holds;
    var db := new Database(disk);
    var ok, record := db.ReadCatalogChain(chain, content);
    if ok {
      var loaded := LoadCatalog(record);
      if !loaded.Ok? {
        return loaded.PropagateFailure();
      }
      db.nextPage, db.catalog := loaded.value.0, loaded.value.1;
    }
    return Ok(db);
  }

  /** Closing a database and opening its file again gives back the catalog, the allocator's state and the
      chain, spare pages included. */
  method CloseThenOpen(db: Database) returns (r: Result<Database>)
    requires db.Valid() && db.Room()
    modifies db
    ensures db.Valid() && db.catalog == old(db.catalog) && old(db.pages) <= db.pages
    ensures r.Ok? && r.value.catalog == db.catalog && r.value.nextPage == db.nextPage && r.value.pages == db.pages
    ensures r.value.disk == db.disk && r.value.Valid()
  {
    hide SerializeCatalog, LoadCatalog, Holds, CatalogOk;
    db.Close();
    ghost var content := SerializeCatalog(db.nextPage, db.catalog);
    RootPage(db.disk, db.pages, content);
    CatalogRoundTrip(db.nextPage, db.catalog);
    r := Open(db.disk, db.pages, content);
  }

  lemma HoldsDisk(disk: Disk, chain: seq<int>, content: seq<Byte>)
    requires Holds(disk, chain, content)
    ensures DiskOk(disk)
  {
  }

  /** What the root page tells: the length, the next page and the first part of the record. */
  lemma RootPage(disk: Disk, chain: seq<int>, content: seq<Byte>)
    requires DiskOk(disk) && Holds(disk, chain, content)
    ensures HasCatalog(disk) && 0 < |chain| && chain[..1] == [ROOT_PAGE]
    ensures RootHeader(PageAt(disk, ROOT_PAGE), |content|, NextOf(chain, 0))
    ensures var page, n := PageAt(disk, ROOT_PAGE), |content|;
            && 12 + Offset(n, 1) <= PAGE_SIZE && page[12..12 + Offset(n, 1)] == content[..Offset(n, 1)]
            && Offset(n, 1) == if ROOT_PAYLOAD < n then ROOT_PAYLOAD else n
  {
    assert chain[0] == ROOT_PAGE;
    assert disk[ROOT_PAGE] == Image(chain, content, 0);
    hide Image, Header, Holds, DiskOk, ChainOk;
    var page, n := PageAt(disk, ROOT_PAGE), |content|;
    ImageApart(chain, content, 0);
    RootReads(NextOf(chain, 0), n, page[12..]);
  }

  /** The page behind a page of the chain. */
  lemma LinkedId(disk: Disk, chain: seq<int>, content: seq<Byte>, i: nat, id: int)
    requires DiskOk(disk) && Holds(disk, chain, content) && 0 < i <= |chain| && id == NextOf(chain, i - 1) &&
             id != INVALID_PAGE
    ensures i < |chain| && id == chain[i] && ChainOk(chain) && |content| < 0x1_0000_0000
    ensures PageAt(disk, id) == Image(chain, content, i) && chain[..i + 1] == chain[..i] + [id]
  {
    hide Image;
    assert chain[i] == id;
  }

  /** A later page's link and its part of the record. */
  lemma LinkedImage(chain: seq<int>, content: seq<Byte>, i: nat)
    requires ChainOk(chain) && |content| < 0x1_0000_0000 && 0 < i < |chain|
    ensures LinkOf(Image(chain, content, i)) == NextOf(chain, i)
    ensures var page, n := Image(chain, content, i), |content|;
            && Offset(n, i) <= Offset(n, i + 1) <= n && 4 + Offset(n, i + 1) - Offset(n, i) <= PAGE_SIZE
            && page[4..4 + Offset(n, i + 1) - Offset(n, i)] == content[Offset(n, i)..Offset(n, i + 1)]
  {
    assert Int32(NextOf(chain, i));
    hide Image, Header, Offset, ChainOk, NextSigned;
    var page := Image(chain, content, i);
    ImageApart(chain, content, i);
    LinkReads(NextOf(chain, i), |content|, i, page[4..]);
  }

  /** What a later page tells: the page after it and the next part of the record. */
  lemma LinkedPage(disk: Disk, chain: seq<int>, content: seq<Byte>, i: nat, id: int)
    requires DiskOk(disk) && Holds(disk, chain, content) && 0 < i <= |chain| && id == NextOf(chain, i - 1) &&
             id != INVALID_PAGE
    ensures i < |chain| && chain[..i + 1] == chain[..i] + [id] && LinkOf(PageAt(disk, id)) == NextOf(chain, i)
    ensures var page, n := PageAt(disk, id), |content|;
            && Offset(n, i) <= Offset(n, i + 1) <= n && 4 + Offset(n, i + 1) - Offset(n, i) <= PAGE_SIZE
            && content[..Offset(n, i + 1)] == content[..Offset(n, i)] + page[4..4 + Offset(n, i + 1) - Offset(n, i)]
            && Offset(n, i + 1) - Offset(n, i) ==
               (if CHAIN_PAYLOAD < n - Offset(n, i) then CHAIN_PAYLOAD else n - Offset(n, i))
  {
    var n := |content|;
    OffsetStep(n, i);
    hide Image, Offset, Holds, DiskOk, ChainOk, LinkOf, PageAt;
    LinkedId(disk, chain, content, i, id);
    LinkedImage(chain, content, i);
    assert content[..Offset(n, i + 1)] == content[..Offset(n, i)] + content[Offset(n, i)..Offset(n, i + 1)];
  }

  lemma AllRead(disk: Disk, chain: seq<int>, content: seq<Byte>, k: nat)
    requires Holds(disk, chain, content) && 0 < k <= |chain| && NextOf(chain, k - 1) == INVALID_PAGE
    ensures k == |chain| && chain[..k] == chain && content[..Offset(|content|, k)] == content
  {
    hide Written, DiskOk, PagesNeeded;
    assert forall i {:trigger chain[i]} | 0 <= i < |chain| :: chain[i] != INVALID_PAGE;
    assert k == |chain|;
    NeededSuffice(|content|, k);
  }

  /** Header and payload of one page of the chain, over zeros. */
  method FillPage(record: seq<Byte>, next: int, i: nat, offset: nat, ghost pages: seq<int>)
    returns (page: seq<Byte>, offset': nat)
    requires ChainOk(pages) && i < |pages| && next == NextOf(pages, i) && |record| < 0x1_0000_0000 &&
             offset == Offset(|record|, i)
    ensures page == Image(pages, record, i) && offset' == Offset(|record|, i + 1)
  {
    OffsetStep(|record|, i);
    Widths();
    var header := new ByteWriter();
    if i == 0 {
      header.PutUnsigned(MAGIC, 4);
      header.PutUnsigned(|record|, 4);
    }
    header.PutSigned(next, 4);
    assert header.buf == Header(next, |record|, i);
    page, offset' := header.buf, offset;
    if offset < |record| {
      var cap := if i == 0 then ROOT_PAYLOAD else CHAIN_PAYLOAD;
      var chunk := if cap < |record| - offset then cap else |record| - offset;
      page, offset' := page + record[offset..offset + chunk], offset + chunk;
    }
    page := page + Zeros(PAGE_SIZE - |page|);
  }
}
