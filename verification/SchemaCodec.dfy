/** Column types and schemas as bytes. */
module SchemaCodec {
  import opened Machine
  import opened ByteBuffers

  const DECIMAL: nat := 90
  const STRING: nat := 100
  const STRUCT: nat := 110
  const LIST: nat := 111
  const ARRAY: nat := 112

  /** A plain type is its id; a decimal, a list and an array carry more. */
  datatype LogicalType =
    | Scalar(id: nat)
    | Decimal(width: int, scale: int)
    | List(child: LogicalType)
    | Array(child: LogicalType, size: nat)

  predicate Int32(v: int) {
    -0x8000_0000 <= v < 0x8000_0000
  }

  /** A type the factories build. */
  predicate TypeOk(t: LogicalType) {
    match t
    case Scalar(id) => id < 65536 && id != DECIMAL && id != LIST && id != ARRAY
    case Decimal(width, scale) => Int32(width) && Int32(scale) && width <= 18
    case List(child) => TypeOk(child)
    case Array(child, size) => TypeOk(child) && size < 0x1_0000_0000_0000_0000
  }

  lemma Widths()
    ensures Pow256(2) == 65536 && Pow256(3) == 0x100_0000 && Pow256(4) == 0x1_0000_0000 &&
            Pow256(8) == 0x1_0000_0000_0000_0000
  {
    assert Pow256(1) == 256;
    assert Pow256(5) == 0x100_0000_0000 && Pow256(6) == 0x1_0000_0000_0000 && Pow256(7) == 0x100_0000_0000_0000;
  }

  // ---------------------------------------------------------------- types

  function SignedBytes(v: int): seq<Byte>
    requires Int32(v)
  {
    Widths();
    Bytes(Unsigned(v, 4), 4)
  }

  function TypeBytes(t: LogicalType): (bs: seq<Byte>)
    requires TypeOk(t)
  {
    match t
    case Scalar(id) => Bytes(id, 2)
    case Decimal(width, scale) => Bytes(DECIMAL, 2) + (SignedBytes(width) + SignedBytes(scale))
    case List(child) => Bytes(LIST, 2) + (Bytes(0, 8) + TypeBytes(child))
    case Array(child, size) => Bytes(ARRAY, 2) + (Bytes(size, 8) + TypeBytes(child))
  }

  /** The type at the front of some bytes and the bytes behind it. A list's size is read and ignored. */
  function ParseType(bs: seq<Byte>): (r: Result<(LogicalType, seq<Byte>)>)
    ensures r.Ok? ==> |r.value.1| < |bs|
    decreases |bs|
  {
    var id :- Next(bs, 2);
    if id.0 == DECIMAL then
      var width :- NextSigned(id.1, 4);
      var scale :- NextSigned(width.1, 4);
      if width.0 > 18 then Unsupported else Ok((Decimal(width.0, scale.0), scale.1))
    else if id.0 == LIST then
      var size :- Next(id.1, 8);
      var child :- ParseType(size.1);
      Ok((List(child.0), child.1))
    else if id.0 == ARRAY then
      var size :- Next(id.1, 8);
      var child :- ParseType(size.1);
      Ok((Array(child.0, size.0), child.1))
    else Ok((Scalar(id.0), id.1))
  }

  lemma Joined(a: seq<Byte>, b: seq<Byte>, c: seq<Byte>)
    ensures a + b + c == a + (b + c)
  {
  }

  /** Reading a written type gives it back and leaves exactly what followed it. */
  lemma {:induction false} TypeRoundTrip(t: LogicalType, rest: seq<Byte>)
    requires TypeOk(t)
    ensures ParseType(TypeBytes(t) + rest) == Ok((t, rest))
  {
    Widths();
    hide Bytes, Next, NextSigned, SignedBytes, Pow256;
    match t
    case Scalar(id) =>
      NextOfBytes(id, 2, rest);
    case Decimal(width, scale) =>
      DecimalRoundTrip(width, scale, rest);
    case List(child) =>
      TypeRoundTrip(child, rest);
      NestedFront(LIST, 0, child, rest);
    case Array(child, size) =>
      TypeRoundTrip(child, rest);
      NestedFront(ARRAY, size, child, rest);
  }

  lemma DecimalRoundTrip(width: int, scale: int, rest: seq<Byte>)
    requires TypeOk(Decimal(width, scale))
    ensures ParseType(TypeBytes(Decimal(width, scale)) + rest) == Ok((Decimal(width, scale), rest))
  {
    Widths();
    var a, b := SignedBytes(width), SignedBytes(scale);
    NextOfSigned(width, 4, b + rest);
    NextOfSigned(scale, 4, rest);
    hide Bytes, Next, NextSigned, SignedBytes;
    Joined(Bytes(DECIMAL, 2), a + b, rest);
    Joined(a, b, rest);
    NextOfBytes(DECIMAL, 2, a + (b + rest));
  }

  lemma TypeLength(t: LogicalType)
    requires TypeOk(t)
    ensures |TypeBytes(t)| ==
            match t
            case Scalar(_) => 2
            case Decimal(_, _) => 10
            case List(child) => 10 + |TypeBytes(child)|
            case Array(child, _) => 10 + |TypeBytes(child)|
  {
  }

  /** What is read as a type is one the factories build, and as many bytes are consumed as it is written in:
      a decimal wider than 18 digits is never returned. */
  lemma {:induction false} ParsedTypeOk(bs: seq<Byte>)
    ensures var r := ParseType(bs);
            r.Ok? ==> TypeOk(r.value.0) && |TypeBytes(r.value.0)| <= |bs| &&
                      r.value.1 == bs[|TypeBytes(r.value.0)|..]
    decreases |bs|
  {
    Widths();
    var r := ParseType(bs);
    if r.Ok? {
      var id := Next(bs, 2).value;
      if id.0 == DECIMAL {
        assert bs[2..][4..][4..] == bs[10..];
        TypeLength(r.value.0);
      } else if id.0 == LIST || id.0 == ARRAY {
        var size := Next(id.1, 8).value;
        ParsedTypeOk(size.1);
        var child := ParseType(size.1).value.0;
        var n := |TypeBytes(child)|;
        TypeLength(r.value.0);
        assert bs[2..][8..][n..] == bs[10 + n..];
      } else {
        TypeLength(r.value.0);
      }
    }
  }

  /** The id and the size in front of an element type. */
  lemma NestedFront(id: nat, size: nat, child: LogicalType, rest: seq<Byte>)
    requires TypeOk(child) && id < 65536 && size < 0x1_0000_0000_0000_0000
    ensures var bs := Bytes(id, 2) + (Bytes(size, 8) + TypeBytes(child)) + rest;
            && Next(bs, 2) == Ok((id, Bytes(size, 8) + (TypeBytes(child) + rest)))
            && Next(Bytes(size, 8) + (TypeBytes(child) + rest), 8) == Ok((size, TypeBytes(child) + rest))
  {
    Widths();
    hide Bytes, Next, TypeBytes;
    var body := TypeBytes(child);
    Joined(Bytes(id, 2), Bytes(size, 8) + body, rest);
    Joined(Bytes(size, 8), body, rest);
    NextOfBytes(id, 2, Bytes(size, 8) + (body + rest));
    NextOfBytes(size, 8, body + rest);
  }

  method SerializeLogicalType(w: ByteWriter, t: LogicalType)
    requires TypeOk(t)
    modifies w
    ensures w.buf == old(w.buf) + TypeBytes(t)
    decreases t
  {
    Widths();
    hide Bytes, Unsigned;
    ghost var before := w.buf;
    match t {
      case Scalar(id) =>
        w.PutUnsigned(id, 2);
      case Decimal(width, scale) =>
        w.PutUnsigned(DECIMAL, 2);
        w.PutSigned(width, 4);
        w.PutSigned(scale, 4);
        Regrouped(before, Bytes(DECIMAL, 2), SignedBytes(width), SignedBytes(scale));
      case List(child) =>
        w.PutUnsigned(LIST, 2);
        w.PutUnsigned(0, 8);
        SerializeLogicalType(w, child);
        Regrouped(before, Bytes(LIST, 2), Bytes(0, 8), TypeBytes(child));
      case Array(child, size) =>
        w.PutUnsigned(ARRAY, 2);
        w.PutUnsigned(size, 8);
        SerializeLogicalType(w, child);
        Regrouped(before, Bytes(ARRAY, 2), Bytes(size, 8), TypeBytes(child));
    }
  }

  lemma Regrouped(x: seq<Byte>, a: seq<Byte>, b: seq<Byte>, c: seq<Byte>)
    ensures x + a + b + c == x + (a + (b + c))
  {
    Joined(a, b, c);
    Joined(x, a + b, c);
    Joined(x, a, b);
  }

  method DeserializeLogicalType(r: ByteReader) returns (t: Result<LogicalType>)
    requires r.Valid()
    modifies r
    ensures r.Valid() && old(r.pos) <= r.pos
    ensures match ParseType(old(r.Rest()))
            case Ok((v, rest)) => t == Ok(v) && r.Rest() == rest
            case Truncated => t == Truncated
            case Unsupported => t == Unsupported
    decreases |r.data| - r.pos
  {
    var id := r.GetUnsigned(2);
    if !id.Ok? {
      return Truncated;
    }
    if id.value == DECIMAL {
      var width := r.GetSigned(4);
      if !width.Ok? {
        return Truncated;
      }
      var scale := r.GetSigned(4);
      if !scale.Ok? {
        return Truncated;
      }
      t := if width.value > 18 then Unsupported else Ok(Decimal(width.value, scale.value));
    } else if id.value == LIST || id.value == ARRAY {
      var size := r.GetUnsigned(8);
      if !size.Ok? {
        return Truncated;
      }
      var child := DeserializeLogicalType(r);
      if !child.Ok? {
        return child;
      }
      t := Ok(if id.value == LIST then List(child.value) else Array(child.value, size.value));
    } else {
      t := Ok(Scalar(id.value));
    }
  }

  // ---------------------------------------------------------------- schemas

  /** `length` is the bytes a value takes in a row. */
  datatype Column = Column(name: seq<Byte>, kind: LogicalType, length: nat)

  /** The size of a fixed-width type; text, lists and arrays have none. */
  function FixedSize(t: LogicalType): Result<nat> {
    match t
    case Scalar(id) =>
      if id == STRING || id == STRUCT then Unsupported
      else if id == 0 || id == 1 || id == 5 then Ok(1)
      else if id == 2 || id == 6 then Ok(2)
      else if id == 3 || id == 7 || id == 80 || id == 200 then Ok(4)
      else if id == 4 || id == 8 || id == 9 || id == 10 || id == 81 || id == 201 then Ok(8)
      else Ok(1)
    case Decimal(width, _) => Ok(if width <= 4 then 2 else if width <= 9 then 4 else 8)
    case _ => Unsupported
  }

  /** A decimal of up to 18 digits takes the fewest bytes, 2, 4 or 8, whose signed range holds its largest
      value. */
  lemma DecimalSizeLeast(width: nat, scale: nat)
    requires width <= 18
    ensures var size := FixedSize(Decimal(width, scale)).value;
            && size in {2, 4, 8} && Digits(width) < Pow256(size) / 2
            && forall less | less in {2, 4, 8} && less < size :: Digits(width) >= Pow256(less) / 2
  {
    Widths();
    DigitTable();
    DigitsGrow(width, if width <= 4 then 4 else if width <= 9 then 9 else 18);
    DigitsGrow(if width <= 4 then 0 else if width <= 9 then 5 else 10, width);
    hide Pow256, Digits;
  }

  lemma DigitTable()
    ensures Digits(4) == 9_999 && Digits(5) == 99_999 && Digits(9) == 999_999_999
    ensures Digits(10) == 9_999_999_999 && Digits(18) == 999_999_999_999_999_999
  {
    assert Digits(2) == 99 && Digits(4) == 9_999;
    assert Digits(7) == 9_999_999 && Digits(9) == 999_999_999;
    assert Digits(12) == 999_999_999_999 && Digits(14) == 99_999_999_999_999 && Digits(16) == 9_999_999_999_999_999;
  }

  lemma {:induction false} DigitsGrow(m: nat, n: nat)
    requires m <= n
    ensures Digits(m) <= Digits(n)
  {
    if m < n {
      DigitsGrow(m, n - 1);
    }
  }

  /** The largest number of so many decimal digits. */
  function Digits(n: nat): nat {
    if n == 0 then 0 else 10 * Digits(n - 1) + 9
  }

  /** A fixed-width column has its type's size whatever length is declared; a structure has none at all. */
  function MakeColumn(name: seq<Byte>, t: LogicalType, length: nat): Result<Column> {
    if FixedSize(t).Ok? then Ok(Column(name, t, FixedSize(t).value))
    else if t == Scalar(STRUCT) then Unsupported
    else Ok(Column(name, t, length))
  }

  /** A column a constructor builds, within the widths of the format. */
  predicate ColumnOk(c: Column) {
    TypeOk(c.kind) && |c.name| < 0x1_0000_0000 && c.length < 0x1_0000_0000 &&
      MakeColumn(c.name, c.kind, c.length) == Ok(c)
  }

  predicate ColumnsOk(cs: seq<Column>) {
    forall i {:trigger cs[i]} | 0 <= i < |cs| :: ColumnOk(cs[i])
  }

  function ColumnBytes(c: Column): seq<Byte>
    requires ColumnOk(c)
  {
    Widths();
    StringBytes(c.name) + (TypeBytes(c.kind) + Bytes(c.length, 4))
  }

  function ColumnsBytes(cs: seq<Column>): seq<Byte>
    requires ColumnsOk(cs)
  {
    if cs == [] then [] else ColumnBytes(cs[0]) + ColumnsBytes(cs[1..])
  }

  function SchemaBytes(cs: seq<Column>): seq<Byte>
    requires ColumnsOk(cs) && |cs| < 0x1_0000_0000
  {
    Bytes(|cs|, 4) + ColumnsBytes(cs)
  }

  function ParseColumn(bs: seq<Byte>): Result<(Column, seq<Byte>)> {
    var name :- NextString(bs);
    var kind :- ParseType(name.1);
    var length :- Next(kind.1, 4);
    var c :- MakeColumn(name.0, kind.0, length.0);
    Ok((c, length.1))
  }

  function ParseColumns(bs: seq<Byte>, n: nat): Result<(seq<Column>, seq<Byte>)>
    decreases n
  {
    if n == 0 then Ok(([], bs))
    else
      var c :- ParseColumn(bs);
      var more :- ParseColumns(c.1, n - 1);
      Ok(([c.0] + more.0, more.1))
  }

  function ParseSchema(bs: seq<Byte>): Result<(seq<Column>, seq<Byte>)> {
    var n :- Next(bs, 4);
    ParseColumns(n.1, n.0)
  }

  lemma ColumnRoundTrip(c: Column, rest: seq<Byte>)
    requires ColumnOk(c)
    ensures ParseColumn(ColumnBytes(c) + rest) == Ok((c, rest))
  {
    Widths();
    hide TypeOk, ParseType, Bytes, Next, NextString, StringBytes;
    var tail := Bytes(c.length, 4) + rest;
    Joined(StringBytes(c.name), TypeBytes(c.kind) + Bytes(c.length, 4), rest);
    Joined(TypeBytes(c.kind), Bytes(c.length, 4), rest);
    NextOfString(c.name, TypeBytes(c.kind) + tail);
    TypeRoundTrip(c.kind, tail);
    NextOfBytes(c.length, 4, rest);
  }

  lemma {:induction false} ColumnsRoundTrip(cs: seq<Column>, rest: seq<Byte>)
    requires ColumnsOk(cs)
    ensures ParseColumns(ColumnsBytes(cs) + rest, |cs|) == Ok((cs, rest))
  {
    if cs == [] {
      assert ColumnsBytes(cs) + rest == rest;
    } else {
      assert ColumnOk(cs[0]) && ColumnsOk(cs[1..]);
      hide ColumnBytes, ParseColumn, ColumnOk, ParseColumns;
      var tail := ColumnsBytes(cs[1..]) + rest;
      Joined(ColumnBytes(cs[0]), ColumnsBytes(cs[1..]), rest);
      ColumnRoundTrip(cs[0], tail);
      ColumnsRoundTrip(cs[1..], rest);
      ParsedOne(cs, ColumnBytes(cs[0]) + tail, tail, rest);
    }
  }

  lemma ParsedOne(cs: seq<Column>, bs: seq<Byte>, tail: seq<Byte>, rest: seq<Byte>)
    requires cs != [] && ParseColumn(bs) == Ok((cs[0], tail)) && ParseColumns(tail, |cs| - 1) == Ok((cs[1..], rest))
    ensures ParseColumns(bs, |cs|) == Ok((cs, rest))
  {
    hide ParseColumn;
    assert [cs[0]] + cs[1..] == cs;
  }

  /** Reading a written schema gives it back and leaves exactly what followed it. */
  lemma SchemaRoundTrip(cs: seq<Column>, rest: seq<Byte>)
    requires ColumnsOk(cs) && |cs| < 0x1_0000_0000
    ensures ParseSchema(SchemaBytes(cs) + rest) == Ok((cs, rest))
  {
    Widths();
    hide Bytes, Next, ColumnsBytes, ParseColumns;
    Joined(Bytes(|cs|, 4), ColumnsBytes(cs), rest);
    NextOfBytes(|cs|, 4, ColumnsBytes(cs) + rest);
    ColumnsRoundTrip(cs, rest);
  }

  method SerializeColumn(w: ByteWriter, c: Column)
    requires ColumnOk(c)
    modifies w
    ensures w.buf == old(w.buf) + ColumnBytes(c)
  {
    Widths();
    hide Bytes, StringBytes, TypeBytes;
    ghost var before := w.buf;
    w.PutString(c.name);
    SerializeLogicalType(w, c.kind);
    w.PutUnsigned(c.length, 4);
    Regrouped(before, StringBytes(c.name), TypeBytes(c.kind), Bytes(c.length, 4));
  }

  method SerializeSchema(w: ByteWriter, cs: seq<Column>)
    requires ColumnsOk(cs) && |cs| < 0x1_0000_0000
    modifies w
    ensures w.buf == old(w.buf) + SchemaBytes(cs)
  {
    Widths();
    hide Bytes, ColumnBytes, ColumnOk;
    ghost var before := w.buf;
    w.PutUnsigned(|cs|, 4);
    Joined(before, Bytes(|cs|, 4), ColumnsBytes(cs));
    var i := 0;
    assert cs[0..] == cs;
    while i < |cs|
      invariant 0 <= i <= |cs| && w.buf + ColumnsBytes(cs[i..]) == before + SchemaBytes(cs)
    {
      ghost var so := w.buf;
      assert cs[i..][0] == cs[i] && cs[i..][1..] == cs[i + 1..];
      SerializeColumn(w, cs[i]);
      Joined(so, ColumnBytes(cs[i]), ColumnsBytes(cs[i + 1..]));
      i := i + 1;
    }
    assert ColumnsBytes(cs[i..]) == [];
  }

  method DeserializeColumn(r: ByteReader) returns (c: Result<Column>)
    requires r.Valid()
    modifies r
    ensures r.Valid()
    ensures match ParseColumn(old(r.Rest()))
            case Ok((v, rest)) => c == Ok(v) && r.Rest() == rest
            case Truncated => c == Truncated
            case Unsupported => c == Unsupported
  {
    var name := r.GetString();
    if !name.Ok? {
      return Truncated;
    }
    var kind := DeserializeLogicalType(r);
    if !kind.Ok? {
      return kind.PropagateFailure();
    }
    var length := r.GetUnsigned(4);
    if !length.Ok? {
      return Truncated;
    }
    c := MakeColumn(name.value, kind.value, length.value);
  }

  method DeserializeSchema(r: ByteReader) returns (cs: Result<seq<Column>>)
    requires r.Valid()
    modifies r
    ensures r.Valid()
    ensures match ParseSchema(old(r.Rest()))
            case Ok((v, rest)) => cs == Ok(v) && r.Rest() == rest
            case Truncated => cs == Truncated
            case Unsupported => cs == Unsupported
  {
    hide ParseColumns, Value;
    var n := r.GetUnsigned(4);
    if !n.Ok? {
      return Truncated;
    }
    cs := DeserializeColumns(r, n.value);
  }

  method DeserializeColumns(r: ByteReader, n: nat) returns (cs: Result<seq<Column>>)
    requires r.Valid()
    modifies r
    ensures r.Valid()
    ensures match ParseColumns(old(r.Rest()), n)
            case Ok((v, rest)) => cs == Ok(v) && r.Rest() == rest
            case Truncated => cs == Truncated
            case Unsupported => cs == Unsupported
  {
    hide ParseColumn, ParseColumns, Resumed;
    ghost var all := ParseColumns(r.Rest(), n);
    var done: seq<Column> := [];
    ResumedAtStart(all);
    while |done| < n
      invariant r.Valid() && |done| <= n && Resumed(all, done, ParseColumns(r.Rest(), n - |done|))
    {
      ghost var so := r.Rest();
      var c := DeserializeColumn(r);
      ResumedMore(all, done, so, n - |done|);
      if !c.Ok? {
        return c.PropagateFailure();
      }
      done := done + [c.value];
    }
    ResumedAtEnd(all, done, r.Rest());
    cs := Ok(done);
  }

  lemma ResumedAtEnd(all: Result<(seq<Column>, seq<Byte>)>, done: seq<Column>, bs: seq<Byte>)
    requires Resumed(all, done, ParseColumns(bs, 0))
    ensures all == Ok((done, bs))
  {
    assert done + [] == done;
  }

  lemma ResumedAtStart(all: Result<(seq<Column>, seq<Byte>)>)
    ensures Resumed(all, [], all)
  {
    if all.Ok? {
      assert [] + all.value.0 == all.value.0;
    }
  }

  lemma ResumedMore(all: Result<(seq<Column>, seq<Byte>)>, done: seq<Column>, bs: seq<Byte>, n: nat)
    requires n > 0 && Resumed(all, done, ParseColumns(bs, n))
    ensures match ParseColumn(bs)
            case Ok((c, rest)) => Resumed(all, done + [c], ParseColumns(rest, n - 1))
            case Truncated => all == Truncated
            case Unsupported => all == Unsupported
  {
    hide ParseColumn;
    if ParseColumn(bs).Ok? {
      var (c, rest) := ParseColumn(bs).value;
      if ParseColumns(rest, n - 1).Ok? {
        var more := ParseColumns(rest, n - 1).value.0;
        assert done + ([c] + more) == done + [c] + more;
      }
    }
  }

  /** What is read from the start is what is done and what is read from here. */
  ghost predicate Resumed(all: Result<(seq<Column>, seq<Byte>)>, done: seq<Column>,
          rest: Result<(seq<Column>, seq<Byte>)>) {
    match rest
    case Ok((cs, bs)) => all == Ok((done + cs, bs))
    case Truncated => all == Truncated
    case Unsupported => all == Unsupported
  }
}
