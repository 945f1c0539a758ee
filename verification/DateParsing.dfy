/** Reading a date from text, and that reading what was written gives the day back. */
module DateParsing {
  import opened Calendar
  import opened DateText
  import opened DateGrammar

  // ---------------------------------------------------------------- the reader

  method SkipSpacesAt(buf: string, from: nat) returns (pos: nat)
    requires from <= |buf|
    ensures pos == SkipSpaces(buf, from)
  {
    pos := from;
    while pos < |buf| && IsSpace(buf[pos])
      invariant from <= pos <= |buf| && SkipSpaces(buf, pos) == SkipSpaces(buf, from)
    {
      pos := pos + 1;
    }
  }

  /** The year's digits, one by one; too many of them end the reading. */
  method ReadYear(buf: string, from: nat) returns (ok: bool, pos: nat, year: int)
    requires from <= |buf|
    ensures ok == Number(buf[from..SkipDigits(buf, from)]).Some?
    ensures ok ==> pos == SkipDigits(buf, from) && year == Number(buf[from..pos]).value
  {
    pos, year := from, 0;
    ghost var end := SkipDigits(buf, from);
    while pos < |buf| && IsDigit(buf[pos])
      invariant from <= pos <= end && SkipDigits(buf, pos) == end && Number(buf[from..pos]) == Some(year)
    {
      assert buf[from..pos + 1][..pos - from] == buf[from..pos];
      if year >= 100000000 {
        assert buf[from..end][..pos + 1 - from] == buf[from..pos + 1];
        TooLong(buf[from..end], pos + 1 - from);
        return false, pos, year;
      }
      year := DigitValue(buf[pos]) + year * 10;
      pos := pos + 1;
    }
    return true, pos, year;
  }

  /** Once too many digits are read, more do not help. */
  lemma {:induction false} TooLong(s: string, k: nat)
    requires k <= |s| && (forall i {:trigger s[i]} | 0 <= i < |s| :: IsDigit(s[i])) && Number(s[..k]).None?
    ensures Number(s).None?
  {
    if k == |s| {
      assert s[..k] == s;
    } else {
      assert s[..|s| - 1][..k] == s[..k];
      TooLong(s[..|s| - 1], k);
    }
  }

  method ReadEnding(buf: string, year: int, negative: bool, pos: nat, strict: bool) returns (r: Option<(int, nat)>)
    requires pos <= |buf|
    ensures r == Ending(buf, year, negative, pos, strict)
  {
    var y, p := year, pos;
    if BcAt(buf, pos) {
      if negative || year == 0 {
        return None;
      }
      y, p := -year + 1, pos + 5;
    }
    if strict {
      p := SkipSpacesAt(buf, p);
      if p < |buf| {
        return None;
      }
    } else if p < |buf| && IsDigit(buf[p]) {
      return None;
    }
    return Some((y, p));
  }

  /** The day a text spells as a date, and where reading it stopped. */
  method TryConvertDate(buf: string, strict: bool) returns (r: Option<(int, nat)>)
    ensures ReadsAs(buf, strict, r) && r == ParseDate(buf, strict)
  {
    r := ReadDate(buf, strict);
    DateReadsAs(buf, strict);
  }

  method ReadDate(buf: string, strict: bool) returns (r: Option<(int, nat)>)
    ensures r == ParseDate(buf, strict)
  {
    if |buf| == 0 {
      return None;
    }
    var pos := SkipSpacesAt(buf, 0);
    if pos >= |buf| {
      return None;
    }
    var negative := buf[pos] == '-';
    if negative {
      pos := pos + 1;
      if pos >= |buf| {
        return None;
      }
    }
    if !IsDigit(buf[pos]) {
      return None;
    }
    var ok, end, year := ReadYear(buf, pos);
    if !ok {
      return None;
    }
    year := if negative then -year else year;
    var fields := MonthAndDay(buf, end);
    if fields.None? {
      return None;
    }
    var ending := ReadEnding(buf, year, negative, fields.value.2, strict);
    if ending.None? {
      return None;
    }
    var days := TryFromDate(Date(ending.value.0, fields.value.0, fields.value.1));
    return if days.None? then None else Some((days.value, ending.value.1));
  }

  // ---------------------------------------------------------------- reading what was written

  lemma {:induction false} NumberOfDecimal(n: nat, w: nat)
    requires n < Pow10(w) && n < 1000000000
    ensures Number(Decimal(n, w)) == Some(n)
  {
    if w > 0 {
      var s := Decimal(n, w);
      assert s[..w - 1] == Decimal(n / 10, w - 1);
      NumberOfDecimal(n / 10, w - 1);
    }
  }

  lemma DoubleDigitOfDecimal(buf: string, pos: nat, n: nat)
    requires pos + 2 <= |buf| && n < 100 && buf[pos] == Decimal(n, 2)[0] && buf[pos + 1] == Decimal(n, 2)[1]
    ensures DoubleDigit(buf, pos) == Some((n, pos + 2))
  {
    TwoDigits(n, 2);
  }

  /** Where the parts of a text stand. */
  lemma TextParts(d: Date)
    requires IsValid(d)
    ensures var w, s := YearDigits(Shown(d.year)), Text(d);
            && |s| == w + 6 + (if d.year <= 0 then 5 else 0) && s[..w] == Decimal(Shown(d.year), w)
            && s[w] == '-' && s[w + 1] == Decimal(d.month, 2)[0] && s[w + 2] == Decimal(d.month, 2)[1]
            && s[w + 3] == '-' && s[w + 4] == Decimal(d.day, 2)[0] && s[w + 5] == Decimal(d.day, 2)[1]
            && (d.year <= 0 ==>
               s[w + 6] == ' ' && s[w + 7] == '(' && s[w + 8] == 'B' && s[w + 9] == 'C' && s[w + 10] == ')')
  {
    hide Decimal;
  }

  lemma WrittenFields(d: Date, rest: string)
    requires IsValid(d)
    ensures var w := YearDigits(Shown(d.year)); MonthAndDay(Text(d) + rest, w) == Some((d.month, d.day, w + 6))
  {
    TextParts(d);
    hide Decimal, Text;
    var w, s := YearDigits(Shown(d.year)), Text(d) + rest;
    DoubleDigitOfDecimal(s, w + 1, d.month);
    DoubleDigitOfDecimal(s, w + 4, d.day);
  }

  lemma WrittenYear(d: Date, rest: string)
    requires IsValid(d)
    ensures var n, s := Shown(d.year), Text(d) + rest;
            && |s| > 0 && SkipSpaces(s, 0) == 0 && IsDigit(s[0]) && SkipDigits(s, 0) == YearDigits(n)
            && Number(s[0..YearDigits(n)]) == Some(n)
  {
    TextParts(d);
    var n, s := Shown(d.year), Text(d) + rest;
    var w := YearDigits(n);
    forall i | 0 <= i < w ensures IsDigit(s[i]) {
      assert s[i] == Text(d)[..w][i];
    }
    hide Text;
    DigitsEnd(s, 0, w);
    YearFits(n);
    assert s[0..w] == Text(d)[..w];
    NumberOfDecimal(n, w);
  }

  /** What may follow a date that is read loosely: nothing, or a space and a digit. */
  predicate MayFollow(rest: string) {
    rest == "" || (|rest| >= 2 && rest[0] == ' ' && IsDigit(rest[1]))
  }

  lemma WrittenEnding(d: Date, rest: string, strict: bool)
    requires IsValid(d) && MayFollow(rest) && (strict ==> rest == "")
    ensures var n := Shown(d.year);
            Ending(Text(d) + rest, n, false, YearDigits(n) + 6, strict) == Some((d.year, |Text(d)|))
  {
    TextParts(d);
    hide Text, Decimal;
    var s, p := Text(d) + rest, YearDigits(Shown(d.year)) + 6;
    assert rest != "" ==> s[|Text(d)|] == ' ' && s[|Text(d)| + 1] == rest[1];
    assert BcAt(s, p) <==> d.year <= 0;
  }

  /** Reading the text of a date gives its day number and stops where the text ends. */
  lemma DateThenRest(d: Date, rest: string, strict: bool)
    requires IsValid(d) && MayFollow(rest) && (strict ==> rest == "")
    ensures ParseDate(Text(d) + rest, strict) == Some((FromDate(d), |Text(d)|))
  {
    WrittenYear(d, rest);
    WrittenFields(d, rest);
    WrittenEnding(d, rest, strict);
    TextParts(d);
    hide Text, Decimal, Number, SkipDigits, MonthAndDay, IsValid, FromDate, Ending;
    var n, s := Shown(d.year), Text(d) + rest;
    assert s[0] != '-';
    assert Date(d.year, d.month, d.day) == d;
  }

  /** Reading the text of a date gives its day number and uses the whole text, strict or not. */
  lemma DateRoundTrip(d: Date, strict: bool)
    requires IsValid(d)
    ensures ParseDate(Text(d), strict) == Some((FromDate(d), |Text(d)|))
  {
    hide Text, ParseDate, FromDate;
    DateThenRest(d, "", strict);
    assert Text(d) + "" == Text(d);
  }
}
