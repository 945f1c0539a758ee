/** Dates as text: written as YYYY-MM-DD with " (BC)" behind a year before 1, and read back. */
module DateText {
  import opened Calendar

  // ---------------------------------------------------------------- decimal digits

  predicate IsDigit(c: char) {
    '0' <= c <= '9'
  }

  predicate IsSpace(c: char) {
    c == ' ' || c == '\t' || c == '\n' || c == '\U{b}' || c == '\U{c}' || c == '\r'
  }

  function Digit(n: int): char
    requires 0 <= n < 10
  {
    '0' + n as char
  }

  function DigitValue(c: char): (n: int)
    requires IsDigit(c)
    ensures 0 <= n < 10 && Digit(n) == c
  {
    c as int - '0' as int
  }

  function Pow10(w: nat): (p: int)
    ensures p >= 1
  {
    if w == 0 then 1 else 10 * Pow10(w - 1)
  }

  /** The last `w` decimal digits of `n`, zeros in front. */
  function Decimal(n: nat, w: nat): (s: string)
    ensures |s| == w && forall i {:trigger s[i]} | 0 <= i < w :: IsDigit(s[i])
  {
    if w == 0 then "" else Decimal(n / 10, w - 1) + [Digit(n % 10)]
  }

  // ---------------------------------------------------------------- writing

  /** The year as it is shown: the years 0, -1, ... are 1 BC, 2 BC, ... */
  function Shown(year: int): (n: int)
    ensures n >= 1
  {
    if year <= 0 then 1 - year else year
  }

  /** Four digits, and one more for each power of ten the year reaches from 10000 on. */
  function YearDigits(n: int): (w: nat)
    ensures 4 <= w <= 8
  {
    4 + (if n >= 10000 then 1 else 0) + (if n >= 100000 then 1 else 0) + (if n >= 1000000 then 1 else 0) +
    (if n >= 10000000 then 1 else 0)
  }

  /** A date's text. */
  function Text(d: Date): string
    requires 1 <= d.month <= 12 && 1 <= d.day <= 31
  {
    var n := Shown(d.year);
    Decimal(n, YearDigits(n)) + "-" + Decimal(d.month, 2) + "-" + Decimal(d.day, 2) + if d.year <= 0 then " (BC)"
      else ""
  }

  /** How long a date's text is and how long its year, which becomes the one shown: at least four digits, and
      otherwise as many as it has. */
  method Length(d: Date) returns (length: nat, yearLength: nat, addBc: bool, shown: int)
    requires 1 <= d.month <= 12 && 1 <= d.day <= 31
    ensures length == |Text(d)| && shown >= 1 && d.year == if addBc then 1 - shown else shown
    ensures yearLength <= length && Text(d)[..yearLength] == Decimal(shown, yearLength)
    ensures shown < 100000000 ==> shown < Pow10(yearLength) && (yearLength == 4 || Pow10(yearLength - 1) <= shown)
    ensures addBc == (d.year <= 0) && shown == Shown(d.year) && yearLength == YearDigits(shown)
  {
    var year := d.year;
    length, yearLength, addBc, shown := 6, 4, false, year;
    if year <= 0 {
      length, shown, addBc := length + 5, -year + 1, true;
    }
    yearLength := yearLength + if shown >= 10000 then 1 else 0;
    yearLength := yearLength + if shown >= 100000 then 1 else 0;
    yearLength := yearLength + if shown >= 1000000 then 1 else 0;
    yearLength := yearLength + if shown >= 10000000 then 1 else 0;
    length := length + yearLength;
    YearDigitsLeast(shown);
    hide Decimal, Pow10;
    assert Text(d)[..yearLength] == Decimal(shown, yearLength);
  }

  /** The last two of `w` digits, and those in front of them. */
  lemma TwoDigits(n: nat, w: nat)
    requires w >= 2
    ensures Decimal(n, w)[..w - 2] == Decimal(n / 100, w - 2)
    ensures Decimal(n, w)[w - 2] == Digit(n % 100 / 10) && Decimal(n, w)[w - 1] == Digit(n % 10)
  {
    assert n / 10 / 10 == n / 100 && n / 10 % 10 == n % 100 / 10;
  }

  lemma {:induction false} LeadingZeros(w: nat)
    ensures forall i {:trigger Decimal(0, w)[i]} | 0 <= i < w :: Decimal(0, w)[i] == '0'
  {
    if w > 0 {
      LeadingZeros(w - 1);
    }
  }

  /** The digits from `start` on are written and those in front are the digits of `v`. */
  ghost predicate Written(data: seq<char>, digits: string, start: nat, v: nat) {
    && start <= |digits| <= |data| && digits[..start] == Decimal(v, start)
    && forall i {:trigger data[i]} | start <= i < |digits| :: data[i] == digits[i]
  }

  lemma WriteTwo(data: seq<char>, data': seq<char>, digits: string, start: nat, v: nat)
    requires Written(data, digits, start, v) && start >= 2 && |data'| == |data|
    requires forall i {:trigger data'[i]} | start <= i < |data| :: data'[i] == data[i]
    requires data'[start - 2] == Digit(v % 100 / 10) && data'[start - 1] == Digit(v % 10)
    ensures Written(data', digits, start - 2, v / 100)
  {
    TwoDigits(v, start);
    assert digits[..start - 2] == digits[..start][..start - 2];
    assert digits[start - 2] == digits[..start][start - 2] && digits[start - 1] == digits[..start][start - 1];
  }

  lemma WriteOne(data: seq<char>, data': seq<char>, digits: string, start: nat, v: nat)
    requires Written(data, digits, start, v) && start >= 1 && |data'| == |data| && v < 10
    requires forall i {:trigger data'[i]} | start <= i < |data| :: data'[i] == data[i]
    requires data'[start - 1] == Digit(v)
    ensures Written(data', digits, start - 1, 0)
  {
    assert digits[..start - 1] == digits[..start][..start - 1];
    assert digits[start - 1] == digits[..start][start - 1];
  }

  /** The digits of `value` fill the buffer up to `end`, from the last one on; what is left in front would be zeros. */
  method FormatUnsigned(data: array<char>, value: nat, end: nat) returns (start: nat)
    requires end <= data.Length && value < Pow10(end) && end > 0
    modifies data
    ensures Written(data[..], Decimal(value, end), start, 0)
  {
    hide Written, Decimal;
    var v: nat := value;
    start := end;
    WrittenNone(data[..], value, end);
    while v >= 100
      invariant 0 < start <= end && v < Pow10(start) && Written(data[..], Decimal(value, end), start, v)
    {
      AtLeastThree(v, start);
      ghost var was := data[..];
      data[start - 1] := Digit(v % 100 % 10);
      data[start - 2] := Digit(v % 100 / 10);
      WriteTwo(was, data[..], Decimal(value, end), start, v);
      v, start := v / 100, start - 2;
    }
    ghost var was := data[..];
    if v < 10 {
      data[start - 1] := Digit(v);
      WriteOne(was, data[..], Decimal(value, end), start, v);
      start := start - 1;
    } else {
      AtLeastTwo(v, start);
      data[start - 1] := Digit(v % 10);
      data[start - 2] := Digit(v / 10);
      WriteTwo(was, data[..], Decimal(value, end), start, v);
      start := start - 2;
    }
  }

  lemma WrittenNone(data: seq<char>, value: nat, end: nat)
    requires end <= |data|
    ensures Written(data, Decimal(value, end), end, value)
  {
    assert Decimal(value, end)[..end] == Decimal(value, end);
  }

  lemma AtLeastTwo(v: nat, w: nat)
    requires 10 <= v < Pow10(w)
    ensures w >= 2
  {
    assert Pow10(0) == 1 && Pow10(1) == 10;
  }

  lemma AtLeastThree(v: nat, w: nat)
    requires 100 <= v < Pow10(w)
    ensures w >= 3 && v / 100 < Pow10(w - 2)
  {
    assert Pow10(0) == 1 && Pow10(1) == 10 && Pow10(2) == 100;
  }

  lemma YearFits(n: int)
    requires 0 <= n < 100000000
    ensures n < Pow10(YearDigits(n))
  {
    YearDigitsLeast(n);
  }

  lemma YearDigitsLeast(n: int)
    ensures 0 <= n < 100000000 ==>
              n < Pow10(YearDigits(n)) && (YearDigits(n) == 4 || Pow10(YearDigits(n) - 1) <= n)
  {
    assert Pow10(4) == 10000 by { assert Pow10(2) == 100; }
    assert Pow10(6) == 1000000 && Pow10(8) == 100000000;
  }

  /** Write the date into a buffer of the length asked for. */
  method Format(data: array<char>, d: Date, shown: int, yearLength: nat, addBc: bool)
    requires 1 <= d.month <= 12 && 1 <= d.day <= 31 && shown == Shown(d.year) < 100000000
    requires yearLength == YearDigits(shown) && addBc == (d.year <= 0)
    requires data.Length == yearLength + 6 + if addBc then 5 else 0
    modifies data
    ensures data[..] == Text(d)
  {
    YearFits(shown);
    FormatYear(data, shown, yearLength);
    PutTwo(data, yearLength, d.month);
    PutTwo(data, yearLength + 3, d.day);
    var tail := yearLength + 6;
    if addBc {
      data[tail], data[tail + 1], data[tail + 2], data[tail + 3], data[tail + 4] := ' ', '(', 'B', 'C', ')';
    }
    hide Decimal;
    TextFrom(data[..], d);
  }

  lemma TextFrom(s: string, d: Date)
    requires 1 <= d.month <= 12 && 1 <= d.day <= 31
    requires var w, n := YearDigits(Shown(d.year)), Shown(d.year);
             && |s| == w + 6 + (if d.year <= 0 then 5 else 0)
             && (forall i {:trigger s[i]} | 0 <= i < w :: s[i] == Decimal(n, w)[i])
             && s[w] == '-' && s[w + 1] == Decimal(d.month, 2)[0] && s[w + 2] == Decimal(d.month, 2)[1]
             && s[w + 3] == '-' && s[w + 4] == Decimal(d.day, 2)[0] && s[w + 5] == Decimal(d.day, 2)[1]
             && (d.year <= 0 ==>
                s[w + 6] == ' ' && s[w + 7] == '(' && s[w + 8] == 'B' && s[w + 9] == 'C' && s[w + 10] == ')')
    ensures s == Text(d)
  {
    hide Decimal;
    var n := Shown(d.year);
    var bc := if d.year <= 0 then " (BC)" else "";
    Assemble(s, Decimal(n, YearDigits(n)), "-" + Decimal(d.month, 2), "-" + Decimal(d.day, 2), bc);
    assert Text(d) == Decimal(n, YearDigits(n)) + ("-" + Decimal(d.month, 2)) + ("-" + Decimal(d.day, 2)) + bc;
  }

  /** The year in exactly `w` digits. */
  method FormatYear(data: array<char>, n: nat, w: nat)
    requires 0 < w <= data.Length && n < Pow10(w)
    modifies data
    ensures forall i {:trigger data[i]} | 0 <= i < w :: data[i] == Decimal(n, w)[i]
  {
    var p := FormatUnsigned(data, n, w);
    LeadingZeros(p);
    assert Decimal(n, w)[..p] == Decimal(0, p);
    assert forall i | p <= i < w :: data[..][i] == data[i];
    ghost var digits := Decimal(n, w);
    assert forall i | 0 <= i < p :: digits[i] == digits[..p][i];
    hide Decimal, Written;
    while p > 0
      invariant 0 <= p <= w && forall i {:trigger data[i]} | p <= i < w :: data[i] == digits[i]
    {
      p := p - 1;
      data[p] := '0';
    }
  }

  lemma Assemble(s: string, a: string, b: string, c: string, e: string)
    requires |s| == |a| + |b| + |c| + |e|
    requires (forall i {:trigger a[i]} | 0 <= i < |a| :: s[i] == a[i]) &&
             (forall i {:trigger b[i]} | 0 <= i < |b| :: s[|a| + i] == b[i])
    requires forall i {:trigger c[i]} | 0 <= i < |c| :: s[|a| + |b| + i] == c[i]
    requires forall i {:trigger e[i]} | 0 <= i < |e| :: s[|a| + |b| + |c| + i] == e[i]
    ensures s == a + b + c + e
  {
    var n, m, k := |a|, |a| + |b|, |a| + |b| + |c|;
    assert s[..n] == a && s[n..m] == b && s[m..k] == c && s[k..] == e;
    assert s == s[..n] + s[n..m] + s[m..k] + s[k..];
  }

  /** A dash and two digits. */
  method PutTwo(data: array<char>, at: nat, n: int)
    requires at + 3 <= data.Length && 0 <= n < 100
    modifies data
    ensures data[at] == '-' && data[at + 1] == Decimal(n, 2)[0] && data[at + 2] == Decimal(n, 2)[1]
    ensures forall i {:trigger data[i]} | 0 <= i < data.Length && !(at <= i < at + 3) :: data[i] == old(data[i])
  {
    TwoDigits(n, 2);
    data[at] := '-';
    if n < 10 {
      data[at + 1], data[at + 2] := '0', Digit(n);
    } else {
      data[at + 1], data[at + 2] := Digit(n / 10), Digit(n % 10);
    }
  }
}
