/** Sort keys: the byte string made of a row's sort columns, and which order of rows results when such
    strings are compared byte by byte. */
module SortKeys {
  import opened Machine

  /** An integer of `width` bytes, or text. */
  datatype Kind = Integer(width: nat, signed: bool) | Text

  datatype Datum = Null | Int(n: int) | Str(bytes: seq<Byte>)

  datatype Column = Column(kind: Kind, desc: bool)

  // ---------------------------------------------------------------- the columns' values

  /** Half the range of a width: the weight of the sign bit. */
  function Half(w: nat): int
    requires w > 0
  {
    128 * Pow256(w - 1)
  }

  function Max(kind: Kind): int
    requires kind.Integer? && kind.width > 0
  {
    if kind.signed then Half(kind.width) - 1 else Pow256(kind.width) - 1
  }

  function Min(kind: Kind): int
    requires kind.Integer? && kind.width > 0
  {
    if kind.signed then -Half(kind.width) else 0
  }

  predicate KindOk(kind: Kind) {
    kind.Integer? ==> kind.width > 0
  }

  /** A value of the kind. */
  predicate Typed(kind: Kind, v: Datum)
    requires KindOk(kind)
  {
    match v
    case Null => true
    case Int(n) => kind.Integer? && Min(kind) <= n <= Max(kind)
    case Str(_) => kind.Text?
  }

  /** UTF-8 never holds the byte 255. */
  predicate Utf8(v: Datum) {
    v.Str? ==> forall i | 0 <= i < |v.bytes| :: v.bytes[i] != 255
  }

  predicate RowUtf8(row: seq<Datum>) {
    forall i | 0 <= i < |row| :: Utf8(row[i])
  }

  predicate RowTyped(cols: seq<Column>, row: seq<Datum>) {
    |row| == |cols| && forall i | 0 <= i < |cols| :: KindOk(cols[i].kind) && Typed(cols[i].kind, row[i])
  }

  // ---------------------------------------------------------------- the encoding

  /** The `w` low bytes of `u`, most significant first. */
  function BigEndian(u: nat, w: nat): (bs: seq<Byte>)
    ensures |bs| == w
  {
    if w == 0 then [] else BigEndian(u / 256, w - 1) + [u % 256]
  }

  function TwosComplement(n: int, w: nat): (u: int)
    requires w > 0 && -Half(w) <= n < Half(w)
    ensures 0 <= u < Pow256(w)
  {
    if n < 0 then n + Pow256(w) else n
  }

  function FlipSign(b: Byte): Byte {
    if b >= 128 then b - 128 else b + 128
  }

  function EncodeSigned(n: int, w: nat): (bs: seq<Byte>)
    requires w > 0 && -Half(w) <= n < Half(w)
    ensures |bs| == w
  {
    var bs := BigEndian(TwosComplement(n, w), w);
    bs[0 := FlipSign(bs[0])]
  }

  /** The text's bytes, each one up (and 255 round to 0), between a marker and a delimiter. */
  function EncodeText(s: seq<Byte>): seq<Byte> {
    [1] + Raised(s) + [0]
  }

  function Up(b: Byte): Byte {
    if b == 255 then 0 else b + 1
  }

  function Raised(s: seq<Byte>): (r: seq<Byte>)
    ensures |r| == |s| && forall i | 0 <= i < |s| :: r[i] == Up(s[i])
  {
    seq(|s|, i requires 0 <= i < |s| => Up(s[i]))
  }

  function Encode(kind: Kind, v: Datum): seq<Byte>
    requires KindOk(kind) && Typed(kind, v)
  {
    match v
    case Null => if kind.Integer? then seq(kind.width, _ => 255) else [2]
    case Int(n) => if kind.signed then EncodeSigned(n, kind.width) else BigEndian(n, kind.width)
    case Str(s) => EncodeText(s)
  }

  function Complement(bs: seq<Byte>): (cs: seq<Byte>)
    ensures |cs| == |bs| && forall i | 0 <= i < |bs| :: cs[i] == 255 - bs[i]
  {
    seq(|bs|, i requires 0 <= i < |bs| => 255 - bs[i])
  }

  /** Descending order turns all bytes of the encoding over. */
  function EncodeColumn(c: Column, v: Datum): seq<Byte>
    requires KindOk(c.kind) && Typed(c.kind, v)
  {
    if c.desc then Complement(Encode(c.kind, v)) else Encode(c.kind, v)
  }

  function Key(cols: seq<Column>, row: seq<Datum>): seq<Byte>
    requires RowTyped(cols, row)
  {
    if cols == [] then [] else EncodeColumn(cols[0], row[0]) + Key(cols[1..], row[1..])
  }

  /** Byte strings compare at their first difference, and a proper prefix comes first. */
  predicate Less(a: seq<Byte>, b: seq<Byte>) {
    b != [] && (a == [] || a[0] < b[0] || (a[0] == b[0] && Less(a[1..], b[1..])))
  }

  // ---------------------------------------------------------------- the order of values

  /** SQL's order, NULL last. */
  predicate SqlLess(v: Datum, w: Datum) {
    match v
    case Null => false
    case Int(n) => w.Null? || (w.Int? && n < w.n)
    case Str(s) => w.Null? || (w.Str? && Less(s, w.bytes))
  }

  predicate ColumnLess(c: Column, v: Datum, w: Datum) {
    if c.desc then SqlLess(w, v) else SqlLess(v, w)
  }

  predicate RowLess(cols: seq<Column>, r: seq<Datum>, t: seq<Datum>)
    requires |r| == |t| == |cols|
  {
    cols != [] && (ColumnLess(cols[0], r[0], t[0]) || (r[0] == t[0] && RowLess(cols[1..], r[1..], t[1..])))
  }

  /** NULL of an integer column shares its key with the column's largest value. */
  function Clamp(kind: Kind, v: Datum): Datum
    requires KindOk(kind)
  {
    if v.Null? && kind.Integer? then Int(Max(kind)) else v
  }

  function ClampRow(cols: seq<Column>, row: seq<Datum>): (r: seq<Datum>)
    requires RowTyped(cols, row)
    ensures |r| == |row|
  {
    seq(|row|, i requires 0 <= i < |row| => Clamp(cols[i].kind, row[i]))
  }

  // ---------------------------------------------------------------- comparing byte strings

  /** Less by a byte both have, so that nothing appended matters. */
  predicate Below(a: seq<Byte>, b: seq<Byte>) {
    a != [] && b != [] && (a[0] < b[0] || (a[0] == b[0] && Below(a[1..], b[1..])))
  }

  lemma {:induction false} BelowDecides(a: seq<Byte>, b: seq<Byte>, p: seq<Byte>, q: seq<Byte>)
    requires Below(a, b)
    ensures Less(a + p, b + q) && !Less(b + q, a + p)
  {
    assert (a + p)[0] == a[0] && (b + q)[0] == b[0];
    if a[0] == b[0] {
      assert (a + p)[1..] == a[1..] + p && (b + q)[1..] == b[1..] + q;
      BelowDecides(a[1..], b[1..], p, q);
    }
  }

  lemma {:induction false} EqualPrefix(a: seq<Byte>, p: seq<Byte>, q: seq<Byte>)
    ensures Less(a + p, a + q) <==> Less(p, q)
  {
    if a == [] {
      assert a + p == p && a + q == q;
    } else {
      assert (a + p)[1..] == a[1..] + p && (a + q)[1..] == a[1..] + q;
      EqualPrefix(a[1..], p, q);
    }
  }

  lemma {:induction false} BelowExtends(a: seq<Byte>, b: seq<Byte>, p: seq<Byte>, q: seq<Byte>)
    requires Below(a, b)
    ensures Below(a + p, b + q)
  {
    assert (a + p)[0] == a[0] && (b + q)[0] == b[0];
    if a[0] == b[0] {
      assert (a + p)[1..] == a[1..] + p && (b + q)[1..] == b[1..] + q;
      BelowExtends(a[1..], b[1..], p, q);
    }
  }

  lemma {:induction false} BelowBehind(a: seq<Byte>, p: seq<Byte>, q: seq<Byte>)
    ensures Below(a + p, a + q) <==> Below(p, q)
  {
    if a == [] {
      assert a + p == p && a + q == q;
    } else {
      assert (a + p)[1..] == a[1..] + p && (a + q)[1..] == a[1..] + q;
      BelowBehind(a[1..], p, q);
    }
  }

  lemma {:induction false} ComplementBelow(a: seq<Byte>, b: seq<Byte>)
    requires Below(a, b)
    ensures Below(Complement(b), Complement(a))
  {
    assert Complement(a)[1..] == Complement(a[1..]) && Complement(b)[1..] == Complement(b[1..]);
    if a[0] == b[0] {
      ComplementBelow(a[1..], b[1..]);
    }
  }

  lemma {:induction false} LessIrreflexive(a: seq<Byte>)
    ensures !Less(a, a)
  {
    if a != [] {
      LessIrreflexive(a[1..]);
    }
  }

  lemma {:induction false} LessTransitive(a: seq<Byte>, b: seq<Byte>, c: seq<Byte>)
    requires Less(a, b) && Less(b, c)
    ensures Less(a, c)
  {
    if a != [] && a[0] == b[0] && b[0] == c[0] {
      LessTransitive(a[1..], b[1..], c[1..]);
    }
  }

  lemma {:induction false} LessTotal(a: seq<Byte>, b: seq<Byte>)
    ensures Less(a, b) || Less(b, a) || a == b
  {
    if a != [] && b != [] && a[0] == b[0] {
      LessTotal(a[1..], b[1..]);
      assert a == [a[0]] + a[1..] && b == [b[0]] + b[1..];
    }
  }

  /** "Not less" is transitive: the order is a total preorder on keys. */
  lemma NotLessTransitive(a: seq<Byte>, b: seq<Byte>, c: seq<Byte>)
    requires !Less(b, a) && !Less(c, b)
    ensures !Less(c, a)
  {
    LessTotal(a, b);
    LessTotal(b, c);
    if Less(c, a) {
      if Less(a, b) {
        LessTransitive(c, a, b);
      }
    }
  }

  lemma LessAsymmetric(a: seq<Byte>, b: seq<Byte>)
    requires Less(a, b)
    ensures !Less(b, a)
  {
    if Less(b, a) {
      LessTransitive(a, b, a);
      LessIrreflexive(a);
    }
  }

  // ---------------------------------------------------------------- integers

  lemma {:induction false} BigEndianOrder(u: nat, v: nat, w: nat)
    requires u < v < Pow256(w)
    ensures Below(BigEndian(u, w), BigEndian(v, w))
  {
    if u / 256 < v / 256 {
      BigEndianOrder(u / 256, v / 256, w - 1);
      BelowExtends(BigEndian(u / 256, w - 1), BigEndian(v / 256, w - 1), [u % 256], [v % 256]);
    } else {
      BelowBehind(BigEndian(u / 256, w - 1), [u % 256], [v % 256]);
    }
  }

  lemma {:induction false} BigEndianFull(w: nat)
    ensures BigEndian(Pow256(w) - 1, w) == seq(w, _ => 255)
  {
    if w > 0 {
      BigEndianFull(w - 1);
      assert (Pow256(w) - 1) / 256 == Pow256(w - 1) - 1;
    }
  }

  /** Flipping the sign byte of the two's complement offsets the value by half the range. */
  lemma {:induction false} SignedIsOffset(n: int, w: nat)
    requires w > 0 && -Half(w) <= n < Half(w)
    ensures EncodeSigned(n, w) == BigEndian(n + Half(w), w)
    decreases w
  {
    var u := TwosComplement(n, w);
    if w == 1 {
      assert BigEndian(u / 256, 0) == [] && BigEndian((n + Half(1)) / 256, 0) == [];
    } else {
      SignedIsOffset(n / 256, w - 1);
      assert u / 256 == TwosComplement(n / 256, w - 1);
      assert (n + Half(w)) / 256 == n / 256 + Half(w - 1);
      assert (n + Half(w)) % 256 == n % 256 == u % 256;
      var front := BigEndian(u / 256, w - 1);
      assert (front + [u % 256])[0 := FlipSign(front[0])] == front[0 := FlipSign(front[0])] + [u % 256];
    }
  }

  lemma IntegerIsOffset(kind: Kind, n: int)
    requires kind.Integer? && kind.width > 0 && Min(kind) <= n <= Max(kind)
    ensures 0 <= n - Min(kind) < Pow256(kind.width)
    ensures Encode(kind, Int(n)) == BigEndian(n - Min(kind), kind.width)
  {
    if kind.signed {
      SignedIsOffset(n, kind.width);
    }
  }

  lemma NullIsMax(kind: Kind)
    requires kind.Integer? && kind.width > 0
    ensures Min(kind) <= Max(kind) && Encode(kind, Null) == Encode(kind, Int(Max(kind)))
  {
    IntegerIsOffset(kind, Max(kind));
    BigEndianFull(kind.width);
  }

  lemma IntegerOrder(kind: Kind, n: int, m: int)
    requires kind.Integer? && kind.width > 0 && Min(kind) <= n < m <= Max(kind)
    ensures Below(Encode(kind, Int(n)), Encode(kind, Int(m)))
  {
    IntegerIsOffset(kind, n);
    IntegerIsOffset(kind, m);
    BigEndianOrder(n - Min(kind), m - Min(kind), kind.width);
  }

  // ---------------------------------------------------------------- text

  /** At the first difference of the two texts a byte 255 stands. */
  predicate Wraps(s: seq<Byte>, t: seq<Byte>) {
    if s == [] || t == [] then (s != [] && s[0] == 255) || (t != [] && t[0] == 255)
    else if s[0] != t[0] then s[0] == 255 || t[0] == 255
    else Wraps(s[1..], t[1..])
  }

  /** The bytes behind the marker of a text's encoding. */
  function Tail(s: seq<Byte>): seq<Byte> {
    Raised(s) + [0]
  }

  lemma TailStep(s: seq<Byte>)
    requires s != []
    ensures Tail(s)[0] == Up(s[0]) && Tail(s)[1..] == Tail(s[1..])
  {
  }

  lemma TailNeverBelowEmpty(s: seq<Byte>)
    ensures !Below(s, [0])
  {
  }

  /** Whether two different texts keep their order whatever follows: exactly when no byte 255 stands at
      their first difference. */
  lemma {:induction false} TailOrder(s: seq<Byte>, t: seq<Byte>)
    requires s != t
    ensures ((Less(s, t) <==> Below(Tail(s), Tail(t))) && (Less(t, s) <==> Below(Tail(t), Tail(s)))) <==> !Wraps(s, t)
  {
    if s == [] {
      TailStep(t);
      TailNeverBelowEmpty(Tail(t));
      assert Tail(s) == [0];
      assert Below(Tail(s), Tail(t)) <==> t[0] != 255;
    } else if t == [] {
      TailStep(s);
      TailNeverBelowEmpty(Tail(s));
      assert Tail(t) == [0];
      assert Below(Tail(t), Tail(s)) <==> s[0] != 255;
    } else {
      TailStep(s);
      TailStep(t);
      if s[0] == t[0] {
        assert s[1..] != t[1..] by {
          assert s == [s[0]] + s[1..] && t == [t[0]] + t[1..];
        }
        TailOrder(s[1..], t[1..]);
      }
    }
  }

  lemma {:induction false} UtfNeverWraps(s: seq<Byte>, t: seq<Byte>)
    requires (forall i | 0 <= i < |s| :: s[i] != 255) && (forall i | 0 <= i < |t| :: t[i] != 255)
    ensures !Wraps(s, t)
  {
    if s != [] && t != [] && s[0] == t[0] {
      UtfNeverWraps(s[1..], t[1..]);
    }
  }

  lemma TextOrderExact(s: seq<Byte>, t: seq<Byte>)
    requires s != t
    ensures ((Less(s, t) <==> Below(EncodeText(s), EncodeText(t))) &&
            (Less(t, s) <==> Below(EncodeText(t), EncodeText(s))))
            <==> !Wraps(s, t)
  {
    TailOrder(s, t);
    assert EncodeText(s) == [1] + Tail(s) && EncodeText(t) == [1] + Tail(t);
    BelowBehind([1], Tail(s), Tail(t));
    BelowBehind([1], Tail(t), Tail(s));
  }

  /** The byte 255 comes round to the delimiter: such a text sorts before a smaller one. */
  lemma TextWrapExample()
    ensures Less([97], [255]) && Less(EncodeText([255]), EncodeText([97]))
  {
    assert EncodeText([255]) == [1, 0, 0] && EncodeText([97]) == [1, 98, 0];
    assert [1, 0, 0][1..] == [0, 0] && [1, 98, 0][1..] == [98, 0];
  }

  lemma TextOrder(s: seq<Byte>, t: seq<Byte>)
    requires Utf8(Str(s)) && Utf8(Str(t)) && Less(s, t)
    ensures Below(EncodeText(s), EncodeText(t))
  {
    LessIrreflexive(s);
    UtfNeverWraps(s, t);
    TextOrderExact(s, t);
  }

  // ---------------------------------------------------------------- one column

  lemma DatumOrder(kind: Kind, v: Datum, w: Datum)
    requires KindOk(kind) && Typed(kind, v) && Typed(kind, w) && Utf8(v) && Utf8(w)
    requires SqlLess(Clamp(kind, v), Clamp(kind, w))
    ensures Below(Encode(kind, v), Encode(kind, w))
  {
    if kind.Integer? {
      NullIsMax(kind);
      IntegerOrder(kind, Clamp(kind, v).n, Clamp(kind, w).n);
    } else if w.Str? {
      TextOrder(v.bytes, w.bytes);
    }
  }

  lemma ClampSame(kind: Kind, v: Datum, w: Datum)
    requires KindOk(kind) && Typed(kind, v) && Typed(kind, w) && Clamp(kind, v) == Clamp(kind, w)
    ensures Encode(kind, v) == Encode(kind, w)
  {
    if kind.Integer? {
      NullIsMax(kind);
    }
  }

  lemma ColumnOrder(c: Column, v: Datum, w: Datum)
    requires KindOk(c.kind) && Typed(c.kind, v) && Typed(c.kind, w) && Utf8(v) && Utf8(w)
    requires ColumnLess(c, Clamp(c.kind, v), Clamp(c.kind, w))
    ensures Below(EncodeColumn(c, v), EncodeColumn(c, w))
  {
    if c.desc {
      DatumOrder(c.kind, w, v);
      ComplementBelow(Encode(c.kind, w), Encode(c.kind, v));
    } else {
      DatumOrder(c.kind, v, w);
    }
  }

  lemma ClampedTotal(c: Column, v: Datum, w: Datum)
    requires KindOk(c.kind) && Typed(c.kind, v) && Typed(c.kind, w)
    ensures var v', w' := Clamp(c.kind, v), Clamp(c.kind, w);
            ColumnLess(c, v', w') || ColumnLess(c, w', v') || v' == w'
  {
    if v.Str? && w.Str? {
      LessTotal(v.bytes, w.bytes);
    }
  }

  // ---------------------------------------------------------------- the whole key

  /** Comparing keys is comparing rows column by column, each in its own direction, with an integer NULL
      standing level with its column's largest value. */
  lemma {:induction false} KeyOrder(cols: seq<Column>, r: seq<Datum>, t: seq<Datum>)
    requires RowTyped(cols, r) && RowTyped(cols, t) && RowUtf8(r) && RowUtf8(t)
    ensures Less(Key(cols, r), Key(cols, t)) <==> RowLess(cols, ClampRow(cols, r), ClampRow(cols, t))
    ensures Key(cols, r) == Key(cols, t) <==> ClampRow(cols, r) == ClampRow(cols, t)
  {
    if cols == [] {
      assert ClampRow(cols, r) == ClampRow(cols, t);
    } else {
      var c := cols[0];
      KeyStep(cols, r, t);
      ClampedTotal(c, r[0], t[0]);
      if ColumnLess(c, Clamp(c.kind, r[0]), Clamp(c.kind, t[0])) {
        ColumnOrder(c, r[0], t[0]);
        BelowDecides(EncodeColumn(c, r[0]), EncodeColumn(c, t[0]), Key(cols[1..], r[1..]), Key(cols[1..], t[1..]));
        LessIrreflexive(Key(cols, t));
        ColumnLessIrreflexive(c, Clamp(c.kind, r[0]), Clamp(c.kind, t[0]));
      } else if ColumnLess(c, Clamp(c.kind, t[0]), Clamp(c.kind, r[0])) {
        ColumnOrder(c, t[0], r[0]);
        BelowDecides(EncodeColumn(c, t[0]), EncodeColumn(c, r[0]), Key(cols[1..], t[1..]), Key(cols[1..], r[1..]));
        LessIrreflexive(Key(cols, t));
        ColumnLessIrreflexive(c, Clamp(c.kind, t[0]), Clamp(c.kind, r[0]));
      } else {
        ClampSame(c.kind, r[0], t[0]);
        KeyOrder(cols[1..], r[1..], t[1..]);
        EqualPrefix(EncodeColumn(c, r[0]), Key(cols[1..], r[1..]), Key(cols[1..], t[1..]));
        SamePrefix(EncodeColumn(c, r[0]), Key(cols[1..], r[1..]), Key(cols[1..], t[1..]));
      }
    }
  }

  lemma SamePrefix(a: seq<Byte>, p: seq<Byte>, q: seq<Byte>)
    ensures a + p == a + q <==> p == q
  {
    assert (a + p)[|a|..] == p && (a + q)[|a|..] == q;
  }

  lemma ColumnLessIrreflexive(c: Column, v: Datum, w: Datum)
    requires ColumnLess(c, v, w)
    ensures v != w
  {
    if v == w && v.Str? {
      LessIrreflexive(v.bytes);
    }
  }

  lemma KeyStep(cols: seq<Column>, r: seq<Datum>, t: seq<Datum>)
    requires cols != [] && RowTyped(cols, r) && RowTyped(cols, t)
    ensures RowTyped(cols[1..], r[1..]) && RowTyped(cols[1..], t[1..])
    ensures ClampRow(cols, r)[1..] == ClampRow(cols[1..], r[1..]) &&
            ClampRow(cols, t)[1..] == ClampRow(cols[1..], t[1..])
    ensures ClampRow(cols, r) == ClampRow(cols, t) <==>
            Clamp(cols[0].kind, r[0]) == Clamp(cols[0].kind, t[0]) &&
              ClampRow(cols[1..], r[1..]) == ClampRow(cols[1..], t[1..])
  {
    HeadTail(ClampRow(cols, r), ClampRow(cols, t));
  }

  lemma HeadTail<T>(r: seq<T>, t: seq<T>)
    requires r != [] && t != []
    ensures r == t <==> r[0] == t[0] && r[1..] == t[1..]
  {
    assert r == [r[0]] + r[1..] && t == [t[0]] + t[1..];
  }

  lemma ClampHead(cols: seq<Column>, r: seq<Datum>)
    requires cols != [] && RowTyped(cols, r)
    ensures ClampRow(cols, r)[0] == Clamp(cols[0].kind, r[0])
  {
  }

  /** NULL and the largest value of an integer column. */
  predicate Clash(kind: Kind, v: Datum, w: Datum)
    requires KindOk(kind)
  {
    kind.Integer? && ((v == Null && w == Int(Max(kind))) || (w == Null && v == Int(Max(kind))))
  }

  /** The first column in which the rows differ holds NULL and the largest value, and the later columns do
      not happen to order the rows the same way. */
  predicate Confused(cols: seq<Column>, r: seq<Datum>, t: seq<Datum>)
    requires RowTyped(cols, r) && RowTyped(cols, t)
    decreases |cols|
  {
    cols != [] &&
    var c, cs, r', t' := cols[0], cols[1..], r[1..], t[1..];
    if r[0] == t[0] then Confused(cs, r', t')
    else
      Clash(c.kind, r[0], t[0]) &&
      !if ColumnLess(c, r[0], t[0]) then RowLess(cs, ClampRow(cs, r'), ClampRow(cs, t'))
       else RowLess(cs, ClampRow(cs, t'), ClampRow(cs, r'))
  }

  /** The keys of two rows stand as SQL orders the rows, NULLs last ascending and first descending. */
  predicate AsSql(cols: seq<Column>, r: seq<Datum>, t: seq<Datum>)
    requires RowTyped(cols, r) && RowTyped(cols, t)
  {
    && (Less(Key(cols, r), Key(cols, t)) <==> RowLess(cols, r, t))
    && (Less(Key(cols, t), Key(cols, r)) <==> RowLess(cols, t, r))
    && (Key(cols, r) == Key(cols, t) <==> r == t)
  }

  /** The same of the rows the keys stand for. */
  predicate ClampedAsSql(cols: seq<Column>, r: seq<Datum>, t: seq<Datum>)
    requires RowTyped(cols, r) && RowTyped(cols, t)
  {
    var r', t' := ClampRow(cols, r), ClampRow(cols, t);
    && (RowLess(cols, r', t') <==> RowLess(cols, r, t))
    && (RowLess(cols, t', r') <==> RowLess(cols, t, r))
    && (r' == t' <==> r == t)
  }

  lemma ClampOrder(c: Column, v: Datum, w: Datum)
    requires KindOk(c.kind) && Typed(c.kind, v) && Typed(c.kind, w)
    ensures Clamp(c.kind, v) == Clamp(c.kind, w) <==> v == w || Clash(c.kind, v, w)
    ensures !Clash(c.kind, v, w) ==> (ColumnLess(c, Clamp(c.kind, v), Clamp(c.kind, w)) <==> ColumnLess(c, v, w))
    ensures v != w ==> (ColumnLess(c, v, w) <==> !ColumnLess(c, w, v))
  {
    if v.Str? && w.Str? {
      LessTotal(v.bytes, w.bytes);
      if Less(v.bytes, w.bytes) {
        LessAsymmetric(v.bytes, w.bytes);
      }
    }
  }

  lemma ColumnAsymmetric(c: Column, v: Datum, w: Datum)
    requires ColumnLess(c, v, w)
    ensures !ColumnLess(c, w, v) && v != w
  {
    ColumnLessIrreflexive(c, v, w);
    if v.Str? && w.Str? {
      if c.desc {
        LessAsymmetric(w.bytes, v.bytes);
      } else {
        LessAsymmetric(v.bytes, w.bytes);
      }
    }
  }

  lemma NotBelowItself(c: Column, v: Datum)
    ensures !ColumnLess(c, v, v)
  {
    if v.Str? {
      LessIrreflexive(v.bytes);
    }
  }

  lemma {:induction false} RowAsymmetric(cols: seq<Column>, r: seq<Datum>, t: seq<Datum>)
    requires |r| == |t| == |cols| && RowLess(cols, r, t)
    ensures !RowLess(cols, t, r) && r != t
  {
    var c := cols[0];
    if ColumnLess(c, r[0], t[0]) {
      ColumnAsymmetric(c, r[0], t[0]);
    } else {
      NotBelowItself(c, t[0]);
      RowAsymmetric(cols[1..], r[1..], t[1..]);
    }
  }

  lemma {:induction false} ClampedRows(cols: seq<Column>, r: seq<Datum>, t: seq<Datum>)
    requires RowTyped(cols, r) && RowTyped(cols, t)
    ensures ClampedAsSql(cols, r, t) <==> !Confused(cols, r, t)
    decreases |cols|
  {
    if cols != [] {
      if r[0] == t[0] {
        KeyStep(cols, r, t);
        ClampedRows(cols[1..], r[1..], t[1..]);
        EqualHead(cols, r, t);
      } else if Clash(cols[0].kind, r[0], t[0]) {
        ClashHead(cols, r, t);
      } else {
        ClearHead(cols, r, t);
      }
    }
  }

  lemma EqualHead(cols: seq<Column>, r: seq<Datum>, t: seq<Datum>)
    requires RowTyped(cols, r) && RowTyped(cols, t) && cols != [] && r[0] == t[0]
    ensures RowTyped(cols[1..], r[1..]) && RowTyped(cols[1..], t[1..])
    ensures ClampedAsSql(cols, r, t) <==> ClampedAsSql(cols[1..], r[1..], t[1..])
  {
    KeyStep(cols, r, t);
    ClampHead(cols, r);
    ClampHead(cols, t);
    var r', t' := ClampRow(cols, r), ClampRow(cols, t);
    HeadTail(r, t);
    HeadTail(r', t');
    SameHead(cols, r, t);
    SameHead(cols, r', t');
    hide Clamp, ClampRow, RowLess, ColumnLess, Typed;
  }

  /** Any other difference in front decides, and the keys show it. */
  lemma ClearHead(cols: seq<Column>, r: seq<Datum>, t: seq<Datum>)
    requires RowTyped(cols, r) && RowTyped(cols, t) && cols != [] && r[0] != t[0]
    requires !Clash(cols[0].kind, r[0], t[0])
    ensures ClampedAsSql(cols, r, t)
  {
    ClampHead(cols, r);
    ClampHead(cols, t);
    ClampOrder(cols[0], r[0], t[0]);
    ClampOrder(cols[0], t[0], r[0]);
    hide Clamp, ClampRow, ColumnLess, Typed;
  }

  lemma SameHead(cols: seq<Column>, r: seq<Datum>, t: seq<Datum>)
    requires |r| == |t| == |cols| > 0 && r[0] == t[0]
    ensures RowLess(cols, r, t) == RowLess(cols[1..], r[1..], t[1..])
    ensures RowLess(cols, t, r) == RowLess(cols[1..], t[1..], r[1..])
  {
    NotBelowItself(cols[0], r[0]);
  }

  /** With NULL and the largest value in front, the later columns decide. */
  lemma ClashHead(cols: seq<Column>, r: seq<Datum>, t: seq<Datum>)
    requires RowTyped(cols, r) && RowTyped(cols, t) && cols != [] && Clash(cols[0].kind, r[0], t[0])
    ensures ClampedAsSql(cols, r, t) <==> !Confused(cols, r, t)
  {
    var c, cs := cols[0], cols[1..];
    KeyStep(cols, r, t);
    ClampHead(cols, r);
    ClampHead(cols, t);
    var r', t' := ClampRow(cols, r), ClampRow(cols, t);
    assert r'[0] == t'[0] && r[0] != t[0];
    SameHead(cols, r', t');
    HeadTail(r, t);
    HeadTail(r', t');
    if RowLess(cs, r'[1..], t'[1..]) {
      RowAsymmetric(cs, r'[1..], t'[1..]);
    } else if RowLess(cs, t'[1..], r'[1..]) {
      RowAsymmetric(cs, t'[1..], r'[1..]);
    }
  }

  /** Two rows sort as SQL has it if and only if the order does not hang on NULL against a column's largest
      value. */
  lemma KeyOrderIsSql(cols: seq<Column>, r: seq<Datum>, t: seq<Datum>)
    requires RowTyped(cols, r) && RowTyped(cols, t) && RowUtf8(r) && RowUtf8(t)
    ensures AsSql(cols, r, t) <==> !Confused(cols, r, t)
  {
    KeyOrder(cols, r, t);
    KeyOrder(cols, t, r);
    ClampedRows(cols, r, t);
    hide RowTyped, RowUtf8, RowLess, Less, Key, ClampRow, Confused;
  }

  /** In no column does one row hold NULL and the other the largest value. */
  predicate NoClash(cols: seq<Column>, r: seq<Datum>, t: seq<Datum>)
    requires RowTyped(cols, r) && RowTyped(cols, t)
  {
    forall i | 0 <= i < |cols| :: !Clash(cols[i].kind, r[i], t[i])
  }

  lemma {:induction false} NoClashIsSql(cols: seq<Column>, r: seq<Datum>, t: seq<Datum>)
    requires RowTyped(cols, r) && RowTyped(cols, t) && NoClash(cols, r, t)
    ensures !Confused(cols, r, t)
    decreases |cols|
  {
    if cols != [] && r[0] == t[0] {
      KeyStep(cols, r, t);
      NoClashIsSql(cols[1..], r[1..], t[1..]);
    }
  }

  /** NULL sorts strictly after an integer, ascending, exactly when that is not the largest: the two
      then share their key. */
  lemma NullLastExact(kind: Kind, n: int)
    requires kind.Integer? && kind.width > 0 && Min(kind) <= n <= Max(kind)
    ensures Less(Encode(kind, Int(n)), Encode(kind, Null)) <==> n != Max(kind)
    ensures Encode(kind, Int(n)) == Encode(kind, Null) <==> n == Max(kind)
  {
    NullIsMax(kind);
    if n != Max(kind) {
      IntegerOrder(kind, n, Max(kind));
      BelowDecides(Encode(kind, Int(n)), Encode(kind, Null), [], []);
      assert Encode(kind, Int(n)) + [] == Encode(kind, Int(n)) && Encode(kind, Null) + [] == Encode(kind, Null);
    }
    LessIrreflexive(Encode(kind, Null));
  }

  // ---------------------------------------------------------------- order codes

  const SIGN: int := 0x8000_0000_0000_0000

  /** The 64-bit code of an integer that grows with its place in the order. */
  function OrderCode(kind: Kind, desc: bool, n: int): (code: int)
    requires kind.Integer? && 0 < kind.width <= 8 && Min(kind) <= n <= Max(kind)
    ensures 0 <= code < 2 * SIGN
  {
    WidthFits(kind.width);
    var code :=
      if kind.signed then (var u := TwosComplement(n, 8); if u >= SIGN then u - SIGN else u + SIGN) else n;
    if desc then 2 * SIGN - 1 - code else code
  }

  lemma {:induction false} PowGrows(w: nat, x: nat)
    requires w <= x
    ensures Pow256(w) <= Pow256(x)
  {
    if w < x {
      PowGrows(w, x - 1);
    }
  }

  lemma WidthFits(w: nat)
    requires 0 < w <= 8
    ensures Pow256(w) <= Pow256(8) == 2 * SIGN && Half(w) <= Half(8) == SIGN
  {
    PowGrows(w, 8);
    PowGrows(w - 1, 7);
    assert Pow256(7) == 0x1_00_0000_0000_0000 by {
      assert Pow256(1) == 256 && Pow256(2) == 65536 && Pow256(3) == 0x100_0000 && Pow256(4) == 0x1_0000_0000;
      assert Pow256(5) == 0x100_0000_0000 && Pow256(6) == 0x1_0000_0000_0000;
    }
  }

  lemma OrderCodeMonotone(kind: Kind, desc: bool, n: int, m: int)
    requires kind.Integer? && 0 < kind.width <= 8 && Min(kind) <= n <= Max(kind) && Min(kind) <= m <= Max(kind)
    ensures OrderCode(kind, desc, n) < OrderCode(kind, desc, m) <==> if desc then m < n else n < m
  {
    WidthFits(kind.width);
  }

  /** A row whose first column has the larger order code has the larger key: the code alone may rule it
      out. */
  lemma LargerCodeLargerKey(cols: seq<Column>, r: seq<Datum>, t: seq<Datum>)
    requires cols != [] && RowTyped(cols, r) && RowTyped(cols, t)
    requires cols[0].kind.Integer? && cols[0].kind.width <= 8 && r[0].Int? && t[0].Int?
    requires OrderCode(cols[0].kind, cols[0].desc, r[0].n) < OrderCode(cols[0].kind, cols[0].desc, t[0].n)
    ensures Less(Key(cols, r), Key(cols, t)) && !Less(Key(cols, t), Key(cols, r))
  {
    var c := cols[0];
    OrderCodeMonotone(c.kind, c.desc, r[0].n, t[0].n);
    KeyStep(cols, r, t);
    ColumnOrder(c, r[0], t[0]);
    BelowDecides(EncodeColumn(c, r[0]), EncodeColumn(c, t[0]), Key(cols[1..], r[1..]), Key(cols[1..], t[1..]));
  }
}
