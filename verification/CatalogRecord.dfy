/** The catalog as one record of bytes: allocator state, commit timestamp, tables and indexes. Writing a
    value puts its bytes in front of what follows; reading it takes them off again. */
module CatalogRecord {
  import opened Machine
  import opened ByteBuffers
  import opened SchemaCodec

  const VERSION: nat := 4
  const NO_PAGE: int := -1

  /** A table's rows live in pages of this file, or in the files of a folder. */
  datatype Storage = Heap(first: int, last: int) | Parquet(path: seq<Byte>)

  datatype Table = Table(
    oid: nat, name: seq<Byte>, schema: seq<Column>, storage: Storage, keys: seq<nat>, autoId: bool, nextId: int)

  datatype Index = Index(
    oid: nat, name: seq<Byte>, table: seq<Byte>, keys: seq<nat>, keySize: nat, header: int, schema: seq<Column>)

  datatype Catalog = Catalog(
    free: seq<int>, nextTable: nat, nextIndex: nat, commitTs: int, tables: seq<Table>, indexes: seq<Index>)

  // ---------------------------------------------------------------- what fits the format

  predicate Word(v: nat) {
    v < 0x1_0000_0000
  }

  predicate Int64(v: int) {
    -0x8000_0000_0000_0000 <= v < 0x8000_0000_0000_0000
  }

  predicate SchemaOk(cs: seq<Column>) {
    ColumnsOk(cs) && Word(|cs|)
  }

  predicate WordsOk(ks: seq<nat>) {
    Word(|ks|) && forall i {:trigger ks[i]} | 0 <= i < |ks| :: Word(ks[i])
  }

  predicate StorageOk(s: Storage) {
    match s
    case Heap(first, last) => Int32(first) && Int32(last)
    case Parquet(path) => Word(|path|)
  }

  predicate TableOk(t: Table) {
    Word(t.oid) && Word(|t.name|) && SchemaOk(t.schema) && StorageOk(t.storage) && WordsOk(t.keys) && Int64(t.nextId)
  }

  predicate IndexOk(x: Index) {
    && Word(x.oid) && Word(|x.name|) && Word(|x.table|) && WordsOk(x.keys) && Int32(x.header) && SchemaOk(x.schema)
    && (x.keySize == 8 || x.keySize == 16 || x.keySize == 32 || x.keySize == 64)
  }

  predicate CatalogOk(c: Catalog) {
    && Word(|c.free|) && (forall i {:trigger c.free[i]} | 0 <= i < |c.free| :: Int32(c.free[i]))
    && Word(c.nextTable) && Word(c.nextIndex) && Int64(c.commitTs)
    && Word(|c.tables|) && (forall i {:trigger c.tables[i]} | 0 <= i < |c.tables| :: TableOk(c.tables[i]))
    && Word(|c.indexes|) && (forall i {:trigger c.indexes[i]} | 0 <= i < |c.indexes| :: IndexOk(c.indexes[i]))
  }

  // ---------------------------------------------------------------- fields

  type Bs = seq<Byte>

  function PutWord(v: nat, rest: Bs): (bs: Bs)
    ensures |bs| == 4 + |rest|
  {
    Bytes(v, 4) + rest
  }

  function PutInt32(v: int, rest: Bs): (bs: Bs)
    ensures |bs| == 4 + |rest|
  {
    (if Int32(v) then SignedBytes(v) else Bytes(0, 4)) + rest
  }

  function PutInt64(v: int, rest: Bs): (bs: Bs)
    ensures |bs| == 8 + |rest|
  {
    Widths();
    (if Int64(v) then Bytes(Unsigned(v, 8), 8) else Bytes(0, 8)) + rest
  }

  function PutText(s: Bs, rest: Bs): Bs {
    Widths();
    if Word(|s|) then StringBytes(s) + rest else rest
  }

  function PutSchema(cs: seq<Column>, rest: Bs): Bs {
    if SchemaOk(cs) then SchemaBytes(cs) + rest else rest
  }

  lemma WordReads(v: nat, rest: Bs)
    requires Word(v)
    ensures Next(PutWord(v, rest), 4) == Ok((v, rest))
  {
    Widths();
    NextOfBytes(v, 4, rest);
  }

  lemma ByteReads(v: nat, rest: Bs)
    requires v < 256
    ensures Next(Bytes(v, 1) + rest, 1) == Ok((v, rest))
  {
    assert Pow256(1) == 256;
    NextOfBytes(v, 1, rest);
  }

  lemma Int32Reads(v: int, rest: Bs)
    requires Int32(v)
    ensures NextSigned(PutInt32(v, rest), 4) == Ok((v, rest))
  {
    Widths();
    NextOfSigned(v, 4, rest);
  }

  lemma Int64Reads(v: int, rest: Bs)
    requires Int64(v)
    ensures NextSigned(PutInt64(v, rest), 8) == Ok((v, rest))
  {
    Widths();
    NextOfSigned(v, 8, rest);
  }

  lemma TextReads(s: Bs, rest: Bs)
    requires Word(|s|)
    ensures NextString(PutText(s, rest)) == Ok((s, rest))
  {
    Widths();
    NextOfString(s, rest);
  }

  lemma SchemaReads(cs: seq<Column>, rest: Bs)
    requires SchemaOk(cs)
    ensures ParseSchema(PutSchema(cs, rest)) == Ok((cs, rest))
  {
    SchemaRoundTrip(cs, rest);
  }

  // ---------------------------------------------------------------- lists

  function PutMany<T>(xs: seq<T>, put: (T, Bs) -> Bs, rest: Bs): Bs {
    if xs == [] then rest else put(xs[0], PutMany(xs[1..], put, rest))
  }

  /** A list is its length and its elements. */
  function PutList<T>(xs: seq<T>, put: (T, Bs) -> Bs, rest: Bs): Bs {
    PutWord(|xs|, PutMany(xs, put, rest))
  }

  function ParseMany<T>(bs: Bs, n: nat, parse: Bs -> Result<(T, Bs)>): Result<(seq<T>, Bs)>
    decreases n
  {
    if n == 0 then Ok(([], bs))
    else
      var x :- parse(bs);
      var more :- ParseMany(x.1, n - 1, parse);
      Ok(([x.0] + more.0, more.1))
  }

  function ParseList<T>(bs: Bs, parse: Bs -> Result<(T, Bs)>): Result<(seq<T>, Bs)> {
    var n :- Next(bs, 4);
    ParseMany(n.1, n.0, parse)
  }

  /** Whatever follows, the element reads back. */
  ghost predicate ReadsBack<T(!new)>(x: T, put: (T, Bs) -> Bs, parse: Bs -> Result<(T, Bs)>) {
    forall rest: Bs {:trigger put(x, rest)} :: parse(put(x, rest)) == Ok((x, rest))
  }

  lemma {:induction false} ManyReads<T(!new)>(xs: seq<T>, put: (T, Bs) -> Bs, parse: Bs -> Result<(T, Bs)>, rest: Bs)
    requires forall i {:trigger xs[i]} | 0 <= i < |xs| :: ReadsBack(xs[i], put, parse)
    ensures ParseMany(PutMany(xs, put, rest), |xs|, parse) == Ok((xs, rest))
  {
    if xs != [] {
      ManyReads(xs[1..], put, parse, rest);
      assert ReadsBack(xs[0], put, parse);
      assert [xs[0]] + xs[1..] == xs;
    }
  }

  lemma ListReads<T(!new)>(xs: seq<T>, put: (T, Bs) -> Bs, parse: Bs -> Result<(T, Bs)>, rest: Bs)
    requires Word(|xs|) && forall i {:trigger xs[i]} | 0 <= i < |xs| :: ReadsBack(xs[i], put, parse)
    ensures ParseList(PutList(xs, put, rest), parse) == Ok((xs, rest))
  {
    WordReads(|xs|, PutMany(xs, put, rest));
    ManyReads(xs, put, parse, rest);
  }

  function NextWord(bs: Bs): Result<(nat, Bs)> {
    Next(bs, 4)
  }

  function NextInt32(bs: Bs): Result<(int, Bs)> {
    NextSigned(bs, 4)
  }

  lemma WordsRead(ks: seq<nat>, rest: Bs)
    requires WordsOk(ks)
    ensures ParseList(PutList(ks, PutWord, rest), NextWord) == Ok((ks, rest))
  {
    forall i | 0 <= i < |ks| ensures ReadsBack(ks[i], PutWord, NextWord) {
      forall more: Bs ensures NextWord(PutWord(ks[i], more)) == Ok((ks[i], more)) {
        WordReads(ks[i], more);
      }
    }
    ListReads(ks, PutWord, NextWord, rest);
  }

  // ---------------------------------------------------------------- tables

  /** Only a table in this file has pages, only one outside it has a folder. */
  function FirstPage(s: Storage): int {
    if s.Heap? then s.first else NO_PAGE
  }

  function LastPage(s: Storage): int {
    if s.Heap? then s.last else NO_PAGE
  }

  function Format(s: Storage): nat {
    if s.Heap? then 0 else 1
  }

  function Folder(s: Storage): Bs {
    if s.Heap? then [] else s.path
  }

  function MakeStorage(format: nat, first: int, last: int, folder: Bs): Result<Storage> {
    if format == 0 then Ok(Heap(first, last)) else if format == 1 then Ok(Parquet(folder)) else Unsupported
  }

  function PutTableEnd(t: Table, rest: Bs): Bs {
    PutList(t.keys, PutWord, Bytes(if t.autoId then 1 else 0, 1) + PutInt64(t.nextId, PutText(Folder(t.storage), rest)))
  }

  function PutTable(t: Table, rest: Bs): Bs {
    PutWord(t.oid, PutText(t.name, PutSchema(t.schema,
      PutInt32(FirstPage(t.storage),
        PutInt32(LastPage(t.storage), Bytes(Format(t.storage), 1) + PutTableEnd(t, rest))))))
  }

  function ParseTableEnd(bs: Bs): Result<((seq<nat>, bool, int, Bs), Bs)> {
    var keys :- ParseList(bs, NextWord);
    var autoId :- Next(keys.1, 1);
    var nextId :- NextSigned(autoId.1, 8);
    var folder :- NextString(nextId.1);
    Ok(((keys.0, autoId.0 != 0, nextId.0, folder.0), folder.1))
  }

  function ParseTable(bs: Bs): Result<(Table, Bs)> {
    var oid :- Next(bs, 4);
    var name :- NextString(oid.1);
    var schema :- ParseSchema(name.1);
    var first :- NextSigned(schema.1, 4);
    var last :- NextSigned(first.1, 4);
    var format :- Next(last.1, 1);
    var end :- ParseTableEnd(format.1);
    var (keys, autoId, nextId, folder) := end.0;
    var storage :- MakeStorage(format.0, first.0, last.0, folder);
    Ok((Table(oid.0, name.0, schema.0, storage, keys, autoId, nextId), end.1))
  }

  lemma TableEndReads(t: Table, rest: Bs)
    requires TableOk(t)
    ensures ParseTableEnd(PutTableEnd(t, rest)) == Ok(((t.keys, t.autoId, t.nextId, Folder(t.storage)), rest))
  {
    hide PutText, PutInt64, Bytes, Next, NextSigned, NextString, ParseList, PutList;
    var text := PutText(Folder(t.storage), rest);
    var id := PutInt64(t.nextId, text);
    var flag: nat := if t.autoId then 1 else 0;
    WordsRead(t.keys, Bytes(flag, 1) + id);
    ByteReads(flag, id);
    Int64Reads(t.nextId, text);
    TextReads(Folder(t.storage), rest);
  }

  lemma TableReads(t: Table, rest: Bs)
    requires TableOk(t)
    ensures ParseTable(PutTable(t, rest)) == Ok((t, rest))
  {
    hide PutWord, PutText, PutSchema, PutInt32, Bytes, Next, NextSigned, NextString, ParseSchema, PutTableEnd,
         ParseTableEnd;
    hide ColumnsOk;
    var end := PutTableEnd(t, rest);
    var form := Bytes(Format(t.storage), 1) + end;
    var last := PutInt32(LastPage(t.storage), form);
    var first := PutInt32(FirstPage(t.storage), last);
    var schema := PutSchema(t.schema, first);
    WordReads(t.oid, PutText(t.name, schema));
    TextReads(t.name, schema);
    SchemaReads(t.schema, first);
    Int32Reads(FirstPage(t.storage), last);
    Int32Reads(LastPage(t.storage), form);
    ByteReads(Format(t.storage), end);
    TableEndReads(t, rest);
  }

  // ---------------------------------------------------------------- indexes

  function PutIndex(x: Index, rest: Bs): Bs {
    PutWord(x.oid, PutText(x.name, PutText(x.table,
      PutList(x.keys, PutWord, PutWord(x.keySize, PutInt32(x.header, PutSchema(x.schema, rest)))))))
  }

  /** Only four key sizes can be reopened. */
  function ParseIndex(bs: Bs): Result<(Index, Bs)> {
    var oid :- Next(bs, 4);
    var name :- NextString(oid.1);
    var table :- NextString(name.1);
    var keys :- ParseList(table.1, NextWord);
    var keySize :- Next(keys.1, 4);
    var header :- NextSigned(keySize.1, 4);
    var schema :- ParseSchema(header.1);
    if keySize.0 == 8 || keySize.0 == 16 || keySize.0 == 32 || keySize.0 == 64 then
      Ok((Index(oid.0, name.0, table.0, keys.0, keySize.0, header.0, schema.0), schema.1))
    else Unsupported
  }

  lemma IndexReads(x: Index, rest: Bs)
    requires IndexOk(x)
    ensures ParseIndex(PutIndex(x, rest)) == Ok((x, rest))
  {
    hide PutWord, PutText, PutSchema, PutInt32, PutList, Next, NextSigned, NextString, ParseSchema, ParseList,
         ColumnsOk;
    var schema := PutSchema(x.schema, rest);
    var header := PutInt32(x.header, schema);
    var size := PutWord(x.keySize, header);
    var keys := PutList(x.keys, PutWord, size);
    WordReads(x.oid, PutText(x.name, PutText(x.table, keys)));
    TextReads(x.name, PutText(x.table, keys));
    TextReads(x.table, keys);
    WordsRead(x.keys, size);
    WordReads(x.keySize, header);
    Int32Reads(x.header, schema);
    SchemaReads(x.schema, rest);
  }

  // ---------------------------------------------------------------- the record

  function PutBody(c: Catalog, rest: Bs): Bs {
    PutList(c.free, PutInt32, PutWord(c.nextTable, PutWord(c.nextIndex, PutInt64(c.commitTs,
      PutList(c.tables, PutTable, PutList(c.indexes, PutIndex, rest))))))
  }

  /** The record: its version, the page allocator's next id, and the catalog. */
  function SerializeCatalog(nextPage: int, c: Catalog): (bs: Bs)
    ensures |bs| == 8 + |PutBody(c, [])|
  {
    PutWord(VERSION, PutInt32(nextPage, PutBody(c, [])))
  }

  function ParseBody(bs: Bs): Result<(Catalog, Bs)> {
    var free :- ParseList(bs, NextInt32);
    var nextTable :- Next(free.1, 4);
    var nextIndex :- Next(nextTable.1, 4);
    var commitTs :- NextSigned(nextIndex.1, 8);
    var tables :- ParseList(commitTs.1, ParseTable);
    var indexes :- ParseList(tables.1, ParseIndex);
    Ok((Catalog(free.0, nextTable.0, nextIndex.0, commitTs.0, tables.0, indexes.0), indexes.1))
  }

  /** The allocator's next id and the catalog; another version is refused. */
  function LoadCatalog(bs: Bs): Result<(int, Catalog)> {
    var version :- Next(bs, 4);
    if version.0 != VERSION then Unsupported
    else
      var nextPage :- NextSigned(version.1, 4);
      var body :- ParseBody(nextPage.1);
      Ok((nextPage.0, body.0))
  }

  lemma FreeReads(free: seq<int>, rest: Bs)
    requires Word(|free|) && forall i {:trigger free[i]} | 0 <= i < |free| :: Int32(free[i])
    ensures ParseList(PutList(free, PutInt32, rest), NextInt32) == Ok((free, rest))
  {
    forall i | 0 <= i < |free| ensures ReadsBack(free[i], PutInt32, NextInt32) {
      forall more: Bs ensures NextInt32(PutInt32(free[i], more)) == Ok((free[i], more)) {
        Int32Reads(free[i], more);
      }
    }
    ListReads(free, PutInt32, NextInt32, rest);
  }

  lemma TablesRead(ts: seq<Table>, rest: Bs)
    requires Word(|ts|) && forall i {:trigger ts[i]} | 0 <= i < |ts| :: TableOk(ts[i])
    ensures ParseList(PutList(ts, PutTable, rest), ParseTable) == Ok((ts, rest))
  {
    hide TableOk, PutTable, ParseTable;
    forall i | 0 <= i < |ts| ensures ReadsBack(ts[i], PutTable, ParseTable) {
      forall more: Bs ensures ParseTable(PutTable(ts[i], more)) == Ok((ts[i], more)) {
        TableReads(ts[i], more);
      }
    }
    ListReads(ts, PutTable, ParseTable, rest);
  }

  lemma IndexesRead(xs: seq<Index>, rest: Bs)
    requires Word(|xs|) && forall i {:trigger xs[i]} | 0 <= i < |xs| :: IndexOk(xs[i])
    ensures ParseList(PutList(xs, PutIndex, rest), ParseIndex) == Ok((xs, rest))
  {
    hide IndexOk, PutIndex, ParseIndex;
    forall i | 0 <= i < |xs| ensures ReadsBack(xs[i], PutIndex, ParseIndex) {
      forall more: Bs ensures ParseIndex(PutIndex(xs[i], more)) == Ok((xs[i], more)) {
        IndexReads(xs[i], more);
      }
    }
    ListReads(xs, PutIndex, ParseIndex, rest);
  }

  lemma BodyReads(c: Catalog, rest: Bs)
    requires CatalogOk(c)
    ensures ParseBody(PutBody(c, rest)) == Ok((c, rest))
  {
    hide PutWord, PutInt64, PutList, Next, NextSigned, ParseList, TableOk, IndexOk;
    var indexes := PutList(c.indexes, PutIndex, rest);
    var tables := PutList(c.tables, PutTable, indexes);
    var ts := PutInt64(c.commitTs, tables);
    var oids := PutWord(c.nextIndex, ts);
    FreeReads(c.free, PutWord(c.nextTable, oids));
    WordReads(c.nextTable, oids);
    WordReads(c.nextIndex, ts);
    Int64Reads(c.commitTs, tables);
    TablesRead(c.tables, indexes);
    IndexesRead(c.indexes, rest);
  }

  /** Loading a serialized catalog gives back the allocator's next id and the catalog. */
  lemma CatalogRoundTrip(nextPage: int, c: Catalog)
    requires Int32(nextPage) && CatalogOk(c)
    ensures LoadCatalog(SerializeCatalog(nextPage, c)) == Ok((nextPage, c))
  {
    hide PutWord, PutInt32, Next, NextSigned, PutBody, ParseBody;
    WordReads(VERSION, PutInt32(nextPage, PutBody(c, [])));
    Int32Reads(nextPage, PutBody(c, []));
    BodyReads(c, []);
  }
}
