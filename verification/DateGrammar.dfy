/** The texts that are read as dates, given by what they are made of. */
module DateGrammar {
  import opened Calendar
  import opened DateText

  // ---------------------------------------------------------------- what the reader computes

  function SkipSpaces(buf: string, pos: nat): (p: nat)
    requires pos <= |buf|
    ensures pos <= p <= |buf|
    decreases |buf| - pos
  {
    if pos < |buf| && IsSpace(buf[pos]) then SkipSpaces(buf, pos + 1) else pos
  }

  function SkipDigits(buf: string, pos: nat): (p: nat)
    requires pos <= |buf|
    ensures pos <= p <= |buf| && forall i {:trigger buf[i]} | pos <= i < p :: IsDigit(buf[i])
    decreases |buf| - pos
  {
    if pos < |buf| && IsDigit(buf[pos]) then SkipDigits(buf, pos + 1) else pos
  }

  /** The number some digits spell, unless it grows past nine digits. */
  function Number(s: string): Option<int>
    requires forall i {:trigger s[i]} | 0 <= i < |s| :: IsDigit(s[i])
  {
    if s == "" then Some(0)
    else match Number(s[..|s| - 1])
      case None => None
      case Some(n) => if n >= 100000000 then None else Some(10 * n + DigitValue(s[|s| - 1]))
  }

  /** One or two digits, and where they end. */
  function DoubleDigit(buf: string, pos: nat): (r: Option<(int, nat)>)
    ensures r.Some? ==> pos < r.value.1 <= |buf|
  {
    if !(pos < |buf| && IsDigit(buf[pos])) then None
    else if pos + 1 < |buf| && IsDigit(buf[pos + 1]) then
      Some((10 * DigitValue(buf[pos]) + DigitValue(buf[pos + 1]), pos + 2))
    else Some((DigitValue(buf[pos]), pos + 1))
  }

  predicate IsSeparator(c: char) {
    c == ' ' || c == '-' || c == '/' || c == '\\'
  }

  predicate BcAt(buf: string, pos: nat) {
    && pos + 5 <= |buf| && IsSpace(buf[pos]) && buf[pos + 1] == '(' && (buf[pos + 2] == 'b' || buf[pos + 2] == 'B')
    && (buf[pos + 3] == 'c' || buf[pos + 3] == 'C') && buf[pos + 4] == ')'
  }

  /** Month and day behind the year, with the separator found in between, and where they end. */
  function MonthAndDay(buf: string, pos: nat): (r: Option<(int, int, nat)>)
    ensures r.Some? ==> pos < r.value.2 <= |buf|
  {
    if pos >= |buf| || !IsSeparator(buf[pos]) then None
    else match DoubleDigit(buf, pos + 1)
      case None => None
      case Some((month, p)) =>
        if p >= |buf| || buf[p] != buf[pos] || p + 1 >= |buf| then None
        else match DoubleDigit(buf, p + 1)
          case None => None
          case Some((day, q)) => Some((month, day, q))
  }

  /** Behind the day: an optional " (BC)", then only spaces, or in the loose form anything but a digit. */
  function Ending(buf: string, year: int, negative: bool, pos: nat, strict: bool): (r: Option<(int, nat)>)
    requires pos <= |buf|
    ensures r.Some? ==> pos <= r.value.1 <= |buf|
  {
    if BcAt(buf, pos) && (negative || year == 0) then None
    else
      var (y, p) := if BcAt(buf, pos) then (1 - year, pos + 5) else (year, pos);
      var q := if strict then SkipSpaces(buf, p) else p;
      if q < |buf| && (strict || IsDigit(buf[q])) then None else Some((y, q))
  }

  /** The day number a text spells, and where reading it stopped. */
  function ParseDate(buf: string, strict: bool): (r: Option<(int, nat)>)
    ensures r.Some? ==> r.value.1 <= |buf|
  {
    var start := SkipSpaces(buf, 0);
    var negative := start < |buf| && buf[start] == '-';
    var first := if negative then start + 1 else start;
    if first >= |buf| || !IsDigit(buf[first]) then None
    else
      var end := SkipDigits(buf, first);
      match Number(buf[first..end])
      case None => None
      case Some(n) =>
        var year := if negative then -n else n;
        match MonthAndDay(buf, end)
        case None => None
        case Some((month, day, p)) =>
          match Ending(buf, year, negative, p, strict)
          case None => None
          case Some((y, q)) =>
            match TryFromDate(Date(y, month, day))
            case None => None
            case Some(days) => Some((days, q))
  }

  // ---------------------------------------------------------------- the grammar

  predicate AllSpaces(s: string) {
    forall i {:trigger s[i]} | 0 <= i < |s| :: IsSpace(s[i])
  }

  predicate AllDigits(s: string) {
    forall i {:trigger s[i]} | 0 <= i < |s| :: IsDigit(s[i])
  }

  /** The number some digits spell. */
  function Value(s: string): nat
    requires AllDigits(s)
  {
    if s == "" then 0 else 10 * Value(s[..|s| - 1]) + DigitValue(s[|s| - 1])
  }

  /** The parts of a date's text, the separator standing twice. */
  datatype DateParts = DateParts(spaces: string, sign: string, year: string, separator: char, month: string,
                                 day: string, bc: string, rest: string)

  function Spelled(p: DateParts): string {
    p.spaces + p.sign + p.year + [p.separator] + p.month + [p.separator] + p.day + p.bc + p.rest
  }

  predicate IsBc(s: string) {
    |s| == 5 && IsSpace(s[0]) && s[1..] in ["(bc)", "(bC)", "(Bc)", "(BC)"]
  }

  predicate IsField(s: string) {
    1 <= |s| <= 2 && AllDigits(s)
  }

  /** Spaces, a year of less than ten significant digits, month and day. A year other than 0 without a sign may
      be marked BC, and the mark is never left to the rest. Strictly read, only spaces may follow; loosely
      read, anything but a digit. */
  predicate DateSyntax(p: DateParts, strict: bool) {
    && AllSpaces(p.spaces) && (p.sign == "" || p.sign == "-")
    && p.year != "" && AllDigits(p.year) && Value(p.year) < 1000000000
    && IsSeparator(p.separator) && IsField(p.month) && IsField(p.day)
    && (p.bc == "" || (IsBc(p.bc) && p.sign == "" && Value(p.year) != 0))
    && (p.bc == "" && |p.rest| >= 5 ==> !IsBc(p.rest[..5]))
    && (if strict then AllSpaces(p.rest) else p.rest == "" || !IsDigit(p.rest[0]))
  }

  /** The date the parts name; 1 BC is the year 0. */
  function DateOf(p: DateParts): Date
    requires AllDigits(p.year) && AllDigits(p.month) && AllDigits(p.day)
  {
    var n: int := Value(p.year);
    Date(if p.bc != "" then 1 - n else if p.sign == "-" then -n else n, Value(p.month), Value(p.day))
  }

  predicate Names(p: DateParts, strict: bool, days: int) {
    DateSyntax(p, strict) && IsValid(DateOf(p)) && days == FromDate(DateOf(p))
  }

  /** The text names the day, and reading it stops at `end`: behind everything when strict, before the rest
      otherwise. */
  ghost predicate SpellsDate(buf: string, strict: bool, days: int, end: nat) {
    exists p :: Spelled(p) == buf && Names(p, strict, days) && end == |buf| - if strict then 0 else |p.rest|
  }

  // ---------------------------------------------------------------- numbers

  lemma {:induction false} NumberIsValue(s: string)
    requires AllDigits(s)
    ensures Number(s) == if Value(s) < 1000000000 then Some(Value(s)) else None
  {
    if s != "" {
      NumberIsValue(s[..|s| - 1]);
    }
  }

  lemma FieldValue(s: string)
    requires IsField(s)
    ensures Value(s) == if |s| == 1 then DigitValue(s[0]) else 10 * DigitValue(s[0]) + DigitValue(s[1])
  {
    assert Value("") == 0;
    assert s[..1][..0] == "" && Value(s[..1]) == DigitValue(s[0]);
    if |s| == 1 {
      assert s[..1] == s;
    }
  }

  /** One or two digits that no digit follows are a field, and the other way round. */
  lemma FieldAt(buf: string, pos: nat, end: nat)
    requires pos <= end <= |buf| && IsField(buf[pos..end]) && (end < |buf| ==> !IsDigit(buf[end]))
    ensures DoubleDigit(buf, pos) == Some((Value(buf[pos..end]), end))
  {
    FieldValue(buf[pos..end]);
    assert buf[pos..end][0] == buf[pos];
    assert end == pos + 2 ==> buf[pos..end][1] == buf[pos + 1];
  }

  lemma FieldRead(buf: string, pos: nat)
    requires DoubleDigit(buf, pos).Some?
    ensures var (n, end) := DoubleDigit(buf, pos).value; IsField(buf[pos..end]) && n == Value(buf[pos..end])
  {
    var end := DoubleDigit(buf, pos).value.1;
    assert buf[pos..end][0] == buf[pos];
    assert end == pos + 2 ==> buf[pos..end][1] == buf[pos + 1];
    FieldValue(buf[pos..end]);
  }

  lemma {:induction false} DigitsEnd(buf: string, pos: nat, end: nat)
    requires pos <= end <= |buf| && (forall i {:trigger buf[i]} | pos <= i < end :: IsDigit(buf[i]))
    requires end < |buf| ==> !IsDigit(buf[end])
    ensures SkipDigits(buf, pos) == end
    decreases end - pos
  {
    if pos < end {
      DigitsEnd(buf, pos + 1, end);
    }
  }

  lemma {:induction false} SpacesEnd(buf: string, pos: nat, end: nat)
    requires pos <= end <= |buf| && (forall i {:trigger buf[i]} | pos <= i < end :: IsSpace(buf[i]))
    requires end < |buf| ==> !IsSpace(buf[end])
    ensures SkipSpaces(buf, pos) == end
    decreases end - pos
  {
    if pos < end {
      SpacesEnd(buf, pos + 1, end);
    }
  }

  lemma {:induction false} SkippedSpaces(buf: string, pos: nat)
    requires pos <= |buf|
    ensures var end := SkipSpaces(buf, pos);
            && (forall i {:trigger buf[i]} | pos <= i < end :: IsSpace(buf[i])) && (end < |buf| ==> !IsSpace(buf[end]))
    decreases |buf| - pos
  {
    if pos < |buf| && IsSpace(buf[pos]) {
      SkippedSpaces(buf, pos + 1);
    }
  }

  lemma {:induction false} SkippedDigits(buf: string, pos: nat)
    requires pos <= |buf|
    ensures var end := SkipDigits(buf, pos); end < |buf| ==> !IsDigit(buf[end])
    decreases |buf| - pos
  {
    if pos < |buf| && IsDigit(buf[pos]) {
      SkippedDigits(buf, pos + 1);
    }
  }

  // ---------------------------------------------------------------- every such text is read

  /** Where the parts end. */
  datatype Places = Places(start: nat, first: nat, year: nat, month: nat, day: nat, bc: nat)

  predicate Ordered(buf: string, at: Places) {
    at.start <= at.first <= at.year < at.month < at.day <= at.bc <= |buf| && at.month < |buf|
  }

  function PlacesOf(p: DateParts): Places {
    var first := |p.spaces| + |p.sign|;
    var year := first + |p.year|;
    var month := year + 1 + |p.month|;
    var day := month + 1 + |p.day|;
    Places(|p.spaces|, first, year, month, day, day + |p.bc|)
  }

  /** The parts between the places. */
  function PartsAt(buf: string, at: Places): DateParts
    requires Ordered(buf, at)
  {
    DateParts(buf[..at.start], buf[at.start..at.first], buf[at.first..at.year], buf[at.year],
              buf[at.year + 1..at.month], buf[at.month + 1..at.day], buf[at.day..at.bc], buf[at.bc..])
  }

  lemma FrontPieces(s: string, from: nat, a: string, b: string, c: string, d: char, tail: string)
    requires from <= |s| && s[from..] == a + b + c + ([d] + tail)
    ensures var i, j, k := from + |a|, from + |a| + |b|, from + |a| + |b| + |c|;
            && k < |s| && s[from..i] == a && s[i..j] == b && s[j..k] == c && s[k] == d && s[k + 1..] == tail
  {
    var t := s[from..];
    var i, j, k := |a|, |a| + |b|, |a| + |b| + |c|;
    assert t[..i] == a && t[i..j] == b && t[j..k] == c && t[k] == d && t[k + 1..] == tail;
    assert s[from..from + i] == t[..i] && s[from + i..from + j] == t[i..j] && s[from + j..from + k] == t[j..k];
    assert s[from + k + 1..] == t[k + 1..];
  }

  /** A piece, a character and the rest, wherever they stand. */
  lemma PieceBack(s: string, from: nat, piece: string, c: char, tail: string)
    requires from <= |s| && s[from..] == piece + ([c] + tail)
    ensures var end := from + |piece|;
            end < |s| && s[from..end] == piece && s[end] == c && s[end + 1..] == tail
  {
    var t, n := s[from..], |piece|;
    assert t[..n] == piece && t[n] == c && t[n + 1..] == tail;
    assert s[from..from + n] == t[..n] && s[from + n + 1..] == t[n + 1..];
  }

  lemma EndBack(s: string, from: nat, day: string, bc: string, rest: string)
    requires from <= |s| && s[from..] == day + (bc + rest)
    ensures var end := from + |day|;
            && |s| == end + |bc| + |rest| && s[from..end] == day && s[end..end + |bc|] == bc
            && s[end + |bc|..] == rest
  {
    var t, n, m := s[from..], |day|, |day| + |bc|;
    assert t[..n] == day && t[n..] == bc + rest && t[n..m] == bc && t[m..] == rest;
    assert s[from..from + n] == t[..n] && s[from + n..from + m] == t[n..m] && s[from + m..] == t[m..];
  }

  /** Each part stands between its places. */
  predicate Stand(s: string, at: Places, p: DateParts) {
    && Ordered(s, at) && s[..at.start] == p.spaces && s[at.start..at.first] == p.sign && s[at.first..at.year] == p.year
    && s[at.year] == p.separator && s[at.year + 1..at.month] == p.month && s[at.month] == p.separator
    && s[at.month + 1..at.day] == p.day && s[at.day..at.bc] == p.bc && s[at.bc..] == p.rest
  }

  lemma Placed(s: string, p: DateParts, tail: string, end: string)
    requires p.month != "" && p.day != "" && s == p.spaces + p.sign + p.year + ([p.separator] + tail)
    requires tail == p.month + ([p.separator] + end) && end == p.day + (p.bc + p.rest)
    ensures Stand(s, PlacesOf(p), p)
  {
    var year := |p.spaces| + |p.sign| + |p.year|;
    assert s[0..] == s;
    FrontPieces(s, 0, p.spaces, p.sign, p.year, p.separator, tail);
    PieceBack(s, year + 1, p.month, p.separator, end);
    EndBack(s, year + 1 + |p.month| + 1, p.day, p.bc, p.rest);
  }

  /** The places of the parts cut the text into the same parts again. */
  lemma PartsBack(p: DateParts)
    requires p.month != "" && p.day != ""
    ensures Ordered(Spelled(p), PlacesOf(p)) && PartsAt(Spelled(p), PlacesOf(p)) == p
    ensures Spelled(p)[PlacesOf(p).month] == p.separator == Spelled(p)[PlacesOf(p).year]
    ensures |p.rest| == |Spelled(p)| - PlacesOf(p).bc
  {
    SpelledParts(p);
    hide Spelled, PlacesOf;
    var end := p.day + (p.bc + p.rest);
    Placed(Spelled(p), p, p.month + ([p.separator] + end), end);
  }

  lemma SpelledParts(p: DateParts)
    ensures Spelled(p) == p.spaces + p.sign + p.year +
                          ([p.separator] + (p.month + ([p.separator] + (p.day + (p.bc + p.rest)))))
  {
    var front := p.spaces + p.sign + p.year;
    assert Spelled(p) == front + [p.separator] + p.month + [p.separator] + p.day + (p.bc + p.rest);
    assert Spelled(p) == front + [p.separator] + p.month + [p.separator] + (p.day + (p.bc + p.rest));
    assert Spelled(p) == front + [p.separator] + p.month + ([p.separator] + (p.day + (p.bc + p.rest)));
  }

  lemma SpelledBack(buf: string, at: Places)
    requires Ordered(buf, at) && buf[at.month] == buf[at.year]
    ensures Spelled(PartsAt(buf, at)) == buf
  {
  }

  lemma BcIs(buf: string, pos: nat)
    ensures BcAt(buf, pos) <==> pos + 5 <= |buf| && IsBc(buf[pos..pos + 5])
  {
    if pos + 5 <= |buf| {
      var s := buf[pos..pos + 5];
      assert s[0] == buf[pos];
      assert s[1..] == [buf[pos + 1], buf[pos + 2], buf[pos + 3], buf[pos + 4]];
    }
  }

  /** The places cut the text into a date. */
  predicate Cuts(buf: string, at: Places, strict: bool) {
    Ordered(buf, at) && buf[at.month] == buf[at.year] && DateSyntax(PartsAt(buf, at), strict)
  }

  /** The first digit, and the sign in front of it. */
  lemma SignCut(buf: string, at: Places, strict: bool)
    requires Cuts(buf, at, strict)
    ensures at.first < |buf| && IsDigit(buf[at.first]) && at.start <= at.first
    ensures var negative := buf[at.start] == '-';
            negative == (PartsAt(buf, at).sign == "-") && at.first == if negative then at.start + 1 else at.start
  {
    hide AllSpaces, IsBc, IsField, Value;
    var p := PartsAt(buf, at);
    assert p.year[0] == buf[at.first];
    assert p.sign == "-" ==> p.sign[0] == buf[at.start] && |p.sign| == 1;
  }

  lemma StartCut(buf: string, at: Places, strict: bool)
    requires Cuts(buf, at, strict)
    ensures SkipSpaces(buf, 0) == at.start < |buf| && at.first < |buf| && IsDigit(buf[at.first])
    ensures var negative := buf[at.start] == '-';
            negative == (PartsAt(buf, at).sign == "-") && at.first == if negative then at.start + 1 else at.start
  {
    SignCut(buf, at, strict);
    var spaces := buf[..at.start];
    assert AllSpaces(spaces);
    hide PartsAt, DateSyntax, SkipSpaces;
    assert forall i | 0 <= i < at.start :: buf[i] == spaces[i];
    SpacesEnd(buf, 0, at.start);
  }

  lemma YearCut(buf: string, at: Places, strict: bool)
    requires Cuts(buf, at, strict)
    ensures SkipDigits(buf, at.first) == at.year && Number(buf[at.first..at.year]) == Some(Value(PartsAt(buf, at).year))
  {
    var p := PartsAt(buf, at);
    assert forall i | at.first <= i < at.year :: buf[i] == p.year[i - at.first];
    DigitsEnd(buf, at.first, at.year);
    NumberIsValue(p.year);
  }

  /** No digit follows the day. */
  lemma DayEnds(buf: string, at: Places, strict: bool)
    requires Cuts(buf, at, strict)
    ensures at.day < |buf| ==> !IsDigit(buf[at.day])
  {
    var p := PartsAt(buf, at);
    assert p.bc != "" ==> p.bc[0] == buf[at.day];
    assert p.bc == "" && p.rest != "" ==> p.rest[0] == buf[at.day];
  }

  lemma FieldsCut(buf: string, at: Places, strict: bool)
    requires Cuts(buf, at, strict)
    ensures var p := PartsAt(buf, at); MonthAndDay(buf, at.year) == Some((Value(p.month), Value(p.day), at.day))
  {
    DayEnds(buf, at, strict);
    assert IsSeparator(buf[at.year]) && !IsDigit(buf[at.month]);
    hide DoubleDigit, Value, AllDigits, AllSpaces, IsBc, IsDigit;
    FieldAt(buf, at.year + 1, at.month);
    FieldAt(buf, at.month + 1, at.day);
  }

  lemma BcCut(buf: string, at: Places, strict: bool)
    requires Cuts(buf, at, strict)
    ensures BcAt(buf, at.day) <==> PartsAt(buf, at).bc != ""
    ensures at.bc == if BcAt(buf, at.day) then at.day + 5 else at.day
  {
    hide BcAt, IsBc, AllSpaces, AllDigits, Value, IsField;
    var p := PartsAt(buf, at);
    BcIs(buf, at.day);
    assert IsBc(p.bc) ==> |p.bc| == 5 by {
      BcLength(p.bc);
    }
    assert p.bc == "" && |p.rest| >= 5 ==> p.rest[..5] == buf[at.day..at.day + 5];
    assert |p.bc| == 5 ==> p.bc == buf[at.day..at.day + 5];
  }

  lemma BcLength(s: string)
    ensures IsBc(s) ==> |s| == 5
  {
  }

  lemma RestCut(buf: string, at: Places, strict: bool)
    requires Cuts(buf, at, strict)
    ensures if strict then SkipSpaces(buf, at.bc) == |buf| else at.bc < |buf| ==> !IsDigit(buf[at.bc])
  {
    var p := PartsAt(buf, at);
    assert forall i | at.bc <= i < |buf| :: buf[i] == p.rest[i - at.bc];
    if strict {
      SpacesEnd(buf, at.bc, |buf|);
    }
  }

  lemma EndingCut(buf: string, at: Places, strict: bool)
    requires Cuts(buf, at, strict)
    ensures var p := PartsAt(buf, at);
            var n: int := Value(p.year);
            Ending(buf, if p.sign == "-" then -n else n, p.sign == "-", at.day, strict) ==
            Some((DateOf(p).year, if strict then |buf| else at.bc))
  {
    BcCut(buf, at, strict);
    RestCut(buf, at, strict);
    hide BcAt, IsBc, AllSpaces, Value, IsField, SkipSpaces, IsDigit, IsSeparator, IsSpace;
  }

  /** A text that can be cut into a date is read as that date. */
  lemma CutRead(buf: string, at: Places, strict: bool)
    requires Cuts(buf, at, strict) && IsValid(DateOf(PartsAt(buf, at)))
    ensures ParseDate(buf, strict) == Some((FromDate(DateOf(PartsAt(buf, at))), if strict then |buf| else at.bc))
  {
    hide Cumulative, DoubleDigit, CumulativeYearDays, PartsAt, IsField, IsDigit, DigitValue, Cuts;
    StartCut(buf, at, strict);
    YearCut(buf, at, strict);
    FieldsCut(buf, at, strict);
    EndingCut(buf, at, strict);
    hide SkipSpaces, SkipDigits, Number, MonthAndDay, Ending, IsValid, FromDate, Value, DateSyntax;
  }

  // ---------------------------------------------------------------- only such texts are read

  /** The places where the reader finds the parts up to the day. */
  predicate Found(buf: string, at: Places) {
    && at.start == SkipSpaces(buf, 0) < |buf|
    && at.first == (if buf[at.start] == '-' then at.start + 1 else at.start) < |buf| && IsDigit(buf[at.first])
    && at.year == SkipDigits(buf, at.first) < |buf| && AllDigits(buf[at.first..at.year])
    && Number(buf[at.first..at.year]).Some?
    && IsSeparator(buf[at.year])
    && DoubleDigit(buf, at.year + 1).Some? && DoubleDigit(buf, at.year + 1).value.1 == at.month < |buf|
    && buf[at.month] == buf[at.year]
    && DoubleDigit(buf, at.month + 1).Some? && DoubleDigit(buf, at.month + 1).value.1 == at.day
    && at.bc == if BcAt(buf, at.day) then at.day + 5 else at.day
  }

  lemma ReadFound(buf: string, strict: bool) returns (at: Places)
    requires ParseDate(buf, strict).Some?
    ensures Found(buf, at)
    ensures Ending(buf, SignedYear(buf, at), buf[at.start] == '-', at.day, strict).Some?
    ensures IsValid(Date(Ending(buf, SignedYear(buf, at), buf[at.start] == '-', at.day, strict).value.0,
                         DoubleDigit(buf, at.year + 1).value.0, DoubleDigit(buf, at.month + 1).value.0))
  {
    hide SkipSpaces, SkipDigits, Number, DoubleDigit, Ending, IsValid, FromDate, BcAt, IsDigit, IsSeparator;
    var start := SkipSpaces(buf, 0);
    var first := if buf[start] == '-' then start + 1 else start;
    var year := SkipDigits(buf, first);
    assert AllDigits(buf[first..year]);
    var month := DoubleDigit(buf, year + 1).value.1;
    var day := DoubleDigit(buf, month + 1).value.1;
    at := Places(start, first, year, month, day, if BcAt(buf, day) then day + 5 else day);
  }

  function SignedYear(buf: string, at: Places): int
    requires Found(buf, at)
  {
    var n := Number(buf[at.first..at.year]).value;
    if buf[at.start] == '-' then -n else n
  }

  lemma FoundFront(buf: string, at: Places)
    requires Found(buf, at)
    ensures at.start <= at.first < at.year && AllSpaces(buf[..at.start])
    ensures var sign, year := buf[at.start..at.first], buf[at.first..at.year];
            && (if buf[at.start] == '-' then sign == "-" else sign == "") && year != "" && AllDigits(year)
            && Value(year) < 1000000000 && Number(year) == Some(Value(year))
  {
    SkippedSpaces(buf, 0);
    NumberIsValue(buf[at.first..at.year]);
  }

  lemma FoundFields(buf: string, at: Places)
    requires Found(buf, at)
    ensures at.year < at.month < at.day <= |buf|
    ensures var month, day := buf[at.year + 1..at.month], buf[at.month + 1..at.day];
            && IsField(month) && IsField(day)
            && DoubleDigit(buf, at.year + 1).value.0 == Value(month) &&
               DoubleDigit(buf, at.month + 1).value.0 == Value(day)
  {
    FieldRead(buf, at.year + 1);
    FieldRead(buf, at.month + 1);
  }

  lemma FoundEnding(buf: string, at: Places, year: int, negative: bool, strict: bool)
    requires at.day <= |buf| && at.bc == (if BcAt(buf, at.day) then at.day + 5 else at.day)
    requires Ending(buf, year, negative, at.day, strict).Some?
    ensures at.day <= at.bc <= |buf|
    ensures var bc, rest := buf[at.day..at.bc], buf[at.bc..];
            && (bc == "" || (IsBc(bc) && !negative && year != 0))
            && (bc == "" && |rest| >= 5 ==> !IsBc(rest[..5]))
            && (if strict then AllSpaces(rest) else rest == "" || !IsDigit(rest[0]))
            && Ending(buf, year, negative, at.day, strict).value.0 == if bc != "" then 1 - year else year
  {
    BcIs(buf, at.day);
    SkippedSpaces(buf, at.bc);
    var rest := buf[at.bc..];
    assert at.bc == at.day && |rest| >= 5 ==> rest[..5] == buf[at.day..at.day + 5];
    assert rest != "" ==> rest[0] == buf[at.bc];
  }

  /** A text that is read can be cut into a date. */
  lemma ReadCut(buf: string, strict: bool) returns (at: Places)
    requires ParseDate(buf, strict).Some?
    ensures Cuts(buf, at, strict) && IsValid(DateOf(PartsAt(buf, at)))
  {
    hide ParseDate, DoubleDigit, Value, MonthAndDay, IsSpace, MonthLength, AllDigits, Ending, IsValid;
    hide IsSeparator, AllSpaces, IsDigit, SkipSpaces, IsBc;
    at := ReadFound(buf, strict);
    FoundFront(buf, at);
    FoundFields(buf, at);
    FoundEnding(buf, at, SignedYear(buf, at), buf[at.start] == '-', strict);
    assert IsSeparator(buf[at.year]) && buf[at.month] == buf[at.year];
    var p := PartsAt(buf, at);
    assert DateSyntax(p, strict);
  }

  lemma ReadSpells(buf: string, strict: bool, days: int, end: nat)
    requires ParseDate(buf, strict) == Some((days, end))
    ensures SpellsDate(buf, strict, days, end)
  {
    var at := ReadCut(buf, strict);
    CutRead(buf, at, strict);
    SpelledBack(buf, at);
    var p := PartsAt(buf, at);
    assert |p.rest| == |buf| - at.bc;
    hide ParseDate, Spelled, PartsAt, DateSyntax, DateOf, IsValid, FromDate;
    assert Names(p, strict, days);
  }

  lemma PartsRead(p: DateParts, strict: bool)
    requires DateSyntax(p, strict) && IsValid(DateOf(p))
    ensures ParseDate(Spelled(p), strict) ==
            Some((FromDate(DateOf(p)), |Spelled(p)| - if strict then 0 else |p.rest|))
  {
    hide ParseDate, Spelled, PartsAt, DateOf, IsValid, FromDate, PlacesOf, AllDigits, AllSpaces, IsBc, Value;
    PartsBack(p);
    CutRead(Spelled(p), PlacesOf(p), strict);
  }

  lemma SpelledReads(buf: string, strict: bool, days: int, end: nat)
    requires SpellsDate(buf, strict, days, end)
    ensures ParseDate(buf, strict) == Some((days, end))
  {
    hide ParseDate, Spelled, DateSyntax, DateOf, IsValid, FromDate;
    var p :| Spelled(p) == buf && Names(p, strict, days) && end == |buf| - if strict then 0 else |p.rest|;
    PartsRead(p, strict);
  }

  /** The reader accepts exactly the texts of the grammar, with the day they name. */
  lemma ReadsGrammar(buf: string, strict: bool, days: int, end: nat)
    ensures ParseDate(buf, strict) == Some((days, end)) <==> SpellsDate(buf, strict, days, end)
  {
    hide ParseDate, SpellsDate;
    if ParseDate(buf, strict) == Some((days, end)) {
      ReadSpells(buf, strict, days, end);
    }
    if SpellsDate(buf, strict, days, end) {
      SpelledReads(buf, strict, days, end);
    }
  }

  /** What the reader returns is what the text spells; nothing, if it spells no date. */
  ghost predicate ReadsAs(buf: string, strict: bool, r: Option<(int, nat)>) {
    forall days, end: nat :: r == Some((days, end)) <==> SpellsDate(buf, strict, days, end)
  }

  lemma DateReadsAs(buf: string, strict: bool)
    ensures ReadsAs(buf, strict, ParseDate(buf, strict))
  {
    hide ParseDate, SpellsDate;
    forall days, end: nat {
      ReadsGrammar(buf, strict, days, end);
    }
  }
}
