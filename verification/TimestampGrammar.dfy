/** The texts that are read as times of day and as timestamps, given by what they are made of. */
module TimestampGrammar {
  import opened Calendar
  import opened DateText
  import opened DateGrammar

  // ---------------------------------------------------------------- what the reader computes

  /** The microseconds since midnight. */
  function TimeOf(hour: int, minute: int, second: int, micros: int): int {
    hour * MICROS_PER_HOUR + minute * MICROS_PER_MINUTE + second * MICROS_PER_SEC + micros
  }

  function TwoDigitsAt(buf: string, pos: nat, max: int): Option<(int, nat)> {
    if pos + 1 >= |buf| || !IsDigit(buf[pos]) || !IsDigit(buf[pos + 1]) then None
    else
      var v := 10 * DigitValue(buf[pos]) + DigitValue(buf[pos + 1]);
      if v <= max then Some((v, pos + 2)) else None
  }

  /** Decimals as microseconds; the seventh and later ones are ignored. */
  function Fraction(s: string): int
    requires forall i {:trigger s[i]} | 0 <= i < |s| :: IsDigit(s[i])
  {
    if s == "" then 0
    else
      var n := |s| - 1;
      Fraction(s[..n]) + if n < 6 then DigitValue(s[n]) * Pow10(5 - n) else 0
  }

  /** The seconds and their fraction behind hours and minutes, both optional. */
  function SecondsAt(buf: string, pos: nat): (r: Option<(int, int, nat)>)
    requires pos <= |buf|
    ensures r.Some? ==> r.value.2 <= |buf|
  {
    if !(pos < |buf| && buf[pos] == ':') then Some((0, 0, pos))
    else match TwoDigitsAt(buf, pos + 1, 59)
      case None => None
      case Some((second, p)) =>
        if !(p < |buf| && buf[p] == '.') then Some((second, 0, p))
        else
          var end := SkipDigits(buf, p + 1);
          if end == p + 1 then None else Some((second, Fraction(buf[p + 1..end]), end))
  }

  /** The time of day from `pos` to the end of the text. */
  function ParseTime(buf: string, pos: nat): Option<int> {
    match TwoDigitsAt(buf, pos, 23)
    case None => None
    case Some((hour, p)) =>
      if p >= |buf| || buf[p] != ':' then None
      else match TwoDigitsAt(buf, p + 1, 59)
        case None => None
        case Some((minute, q)) =>
          match SecondsAt(buf, q)
          case None => None
          case Some((second, micros, end)) =>
            if SkipSpaces(buf, end) != |buf| then None
            else Some(TimeOf(hour, minute, second, micros))
  }

  /** What follows a date: nothing but spaces for midnight, or a time behind spaces or a T. */
  function ParseRest(buf: string, pos: nat): Option<int>
    requires pos <= |buf|
  {
    var start := SkipSpaces(buf, pos);
    if start == |buf| then Some(0)
    else ParseTime(buf, if buf[start] == 'T' || buf[start] == 't' then start + 1 else start)
  }

  // ---------------------------------------------------------------- the grammar

  /** The parts of what follows a date; the second carries its colon and the fraction its point. */
  datatype TimeParts = TimeParts(spaces: string, mark: string, hour: string, minute: string, second: string,
                                 fraction: string, trail: string)

  function SpelledTime(q: TimeParts): string {
    q.spaces + q.mark + q.hour + ":" + q.minute + q.second + q.fraction + q.trail
  }

  predicate IsPair(s: string, max: int) {
    |s| == 2 && AllDigits(s) && Value(s) <= max
  }

  predicate TimeSyntax(q: TimeParts) {
    && AllSpaces(q.spaces) && (q.mark == "" || q.mark == "T" || q.mark == "t")
    && IsPair(q.hour, 23) && IsPair(q.minute, 59) && IsSecond(q.second) && IsFraction(q.fraction)
    && (q.second == "" ==> q.fraction == "") && AllSpaces(q.trail)
  }

  predicate IsSecond(s: string) {
    s == "" || (|s| == 3 && s[0] == ':' && IsPair(s[1..], 59))
  }

  predicate IsFraction(s: string) {
    s == "" || (|s| >= 2 && s[0] == '.' && AllDigits(s[1..]))
  }

  /** Decimals as microseconds: six of them count, missing ones are zeros. */
  function Micros(s: string): int
    requires AllDigits(s)
  {
    if |s| <= 6 then Value(s) * Pow10(6 - |s|) else Value(s[..6])
  }

  /** The time of day the parts name. */
  function TimeNamed(q: TimeParts): int
    requires TimeSyntax(q)
  {
    TimeOf(Value(q.hour), Value(q.minute), if q.second == "" then 0 else Value(q.second[1..]),
           if q.fraction == "" then 0 else Micros(q.fraction[1..]))
  }

  predicate NamesTime(q: TimeParts, time: int) {
    TimeSyntax(q) && time == TimeNamed(q)
  }

  /** Spaces alone stand for midnight. */
  ghost predicate SpellsTime(rest: string, time: int) {
    (AllSpaces(rest) && time == 0) || exists q :: SpelledTime(q) == rest && NamesTime(q, time)
  }

  /** A date, loosely read, and behind it a time of day. */
  ghost predicate SpellsTimestamp(buf: string, day: int, time: int) {
    exists p :: SpellsBoth(p, buf, day, time)
  }

  ghost predicate SpellsBoth(p: DateParts, buf: string, day: int, time: int) {
    Spelled(p) == buf && Names(p, false, day) && SpellsTime(p.rest, time)
  }

  // ---------------------------------------------------------------- numbers

  lemma PairAt(buf: string, pos: nat, max: int)
    ensures TwoDigitsAt(buf, pos, max).Some? <==> pos + 2 <= |buf| && IsPair(buf[pos..pos + 2], max)
    ensures TwoDigitsAt(buf, pos, max).Some? ==> TwoDigitsAt(buf, pos, max).value == (Value(buf[pos..pos + 2]), pos + 2)
  {
    if pos + 2 <= |buf| {
      var s := buf[pos..pos + 2];
      assert s[0] == buf[pos] && s[1] == buf[pos + 1];
      if AllDigits(s) {
        FieldValue(s);
      }
    }
  }

  lemma {:induction false} ShortFraction(s: string)
    requires AllDigits(s) && |s| <= 6
    ensures Fraction(s) == Value(s) * Pow10(6 - |s|)
  {
    if s != "" {
      var n := |s| - 1;
      ShortFraction(s[..n]);
      Shifted(Value(s[..n]), DigitValue(s[n]), Pow10(5 - n));
    }
  }

  lemma Shifted(v: int, d: int, p: int)
    ensures v * (10 * p) + d * p == (10 * v + d) * p
  {
  }

  lemma {:induction false} FractionIsMicros(s: string)
    requires AllDigits(s)
    ensures Fraction(s) == Micros(s)
  {
    if |s| <= 6 {
      ShortFraction(s);
    } else {
      var n := |s| - 1;
      FractionIsMicros(s[..n]);
      assert s[..n][..6] == s[..6];
      if n == 6 {
        assert Value(s[..n]) * Pow10(0) == Value(s[..n]);
      }
    }
  }

  // ---------------------------------------------------------------- every such text is read

  datatype TimePlaces = TimePlaces(start: nat, hour: nat, second: nat, fraction: nat)

  predicate InOrder(buf: string, pos: nat, at: TimePlaces) {
    pos <= at.start <= at.hour && at.hour + 5 <= at.second <= at.fraction <= |buf|
  }

  function TimePartsAt(buf: string, pos: nat, at: TimePlaces): TimeParts
    requires InOrder(buf, pos, at)
  {
    TimeParts(buf[pos..at.start], buf[at.start..at.hour], buf[at.hour..at.hour + 2],
              buf[at.hour + 3..at.hour + 5], buf[at.hour + 5..at.second], buf[at.second..at.fraction],
              buf[at.fraction..])
  }

  predicate CutsTime(buf: string, pos: nat, at: TimePlaces) {
    InOrder(buf, pos, at) && buf[at.hour + 2] == ':' && TimeSyntax(TimePartsAt(buf, pos, at))
  }

  lemma StartTime(buf: string, pos: nat, at: TimePlaces)
    requires CutsTime(buf, pos, at)
    ensures SkipSpaces(buf, pos) == at.start < |buf|
    ensures at.hour == if buf[at.start] == 'T' || buf[at.start] == 't' then at.start + 1 else at.start
  {
    var q := TimePartsAt(buf, pos, at);
    assert forall i | pos <= i < at.start :: buf[i] == q.spaces[i - pos];
    assert q.mark != "" ==> q.mark[0] == buf[at.start];
    assert IsDigit(q.hour[0]) && q.hour[0] == buf[at.hour];
    SpacesEnd(buf, pos, at.start);
  }

  lemma OnlySpaces(buf: string, pos: nat)
    requires pos <= |buf|
    ensures AllSpaces(buf[pos..]) <==> SkipSpaces(buf, pos) == |buf|
    ensures AllSpaces(buf[pos..]) ==> ParseRest(buf, pos) == Some(0)
  {
    SkippedSpaces(buf, pos);
    assert forall i | pos <= i < |buf| :: buf[i] == buf[pos..][i - pos];
    if AllSpaces(buf[pos..]) {
      SpacesEnd(buf, pos, |buf|);
    }
  }

  lemma TrailTime(buf: string, pos: nat, at: TimePlaces)
    requires CutsTime(buf, pos, at)
    ensures SkipSpaces(buf, at.fraction) == |buf| && (at.fraction < |buf| ==> IsSpace(buf[at.fraction]))
  {
    hide SkipSpaces;
    var trail := TimePartsAt(buf, pos, at).trail;
    assert AllSpaces(trail) && (trail != "" ==> trail[0] == buf[at.fraction]);
    OnlySpaces(buf, at.fraction);
  }

  lemma FractionTime(buf: string, pos: nat, at: TimePlaces)
    requires CutsTime(buf, pos, at) && at.second < at.fraction
    ensures buf[at.second] == '.' && SkipDigits(buf, at.second + 1) == at.fraction > at.second + 1
    ensures buf[at.second + 1..at.fraction] == TimePartsAt(buf, pos, at).fraction[1..]
  {
    hide InOrder, SkipDigits, SkipSpaces;
    TrailTime(buf, pos, at);
    var q := TimePartsAt(buf, pos, at);
    assert q.fraction[0] == buf[at.second];
    assert forall i | at.second + 1 <= i < at.fraction :: buf[i] == q.fraction[1..][i - at.second - 1];
    DigitsEnd(buf, at.second + 1, at.fraction);
  }

  lemma SecondsTime(buf: string, pos: nat, at: TimePlaces)
    requires CutsTime(buf, pos, at)
    ensures var q := TimePartsAt(buf, pos, at);
            SecondsAt(buf, at.hour + 5) ==
            Some((if q.second == "" then 0 else Value(q.second[1..]),
                  if q.fraction == "" then 0 else Micros(q.fraction[1..]), at.fraction))
  {
    var q, m := TimePartsAt(buf, pos, at), at.hour + 5;
    TrailTime(buf, pos, at);
    if q.second != "" {
      assert q.second[0] == buf[m] && q.second[1..] == buf[m + 1..m + 3];
      PairAt(buf, m + 1, 59);
      if q.fraction != "" {
        FractionTime(buf, pos, at);
        FractionIsMicros(q.fraction[1..]);
      }
    }
  }

  lemma ClockTime(buf: string, pos: nat, at: TimePlaces)
    requires CutsTime(buf, pos, at)
    ensures ParseTime(buf, at.hour) == Some(TimeNamed(TimePartsAt(buf, pos, at)))
  {
    hide SkipSpaces, SecondsAt, TwoDigitsAt, IsSecond, IsFraction, AllSpaces, Micros, Value, IsPair, TimeOf;
    TrailTime(buf, pos, at);
    SecondsTime(buf, pos, at);
    PairAt(buf, at.hour, 23);
    PairAt(buf, at.hour + 3, 59);
  }

  lemma CutTimeRead(buf: string, pos: nat, at: TimePlaces)
    requires CutsTime(buf, pos, at)
    ensures ParseRest(buf, pos) == Some(TimeNamed(TimePartsAt(buf, pos, at)))
  {
    hide SkipSpaces, ParseTime, TimePartsAt, TimeNamed, TimeSyntax;
    StartTime(buf, pos, at);
    ClockTime(buf, pos, at);
  }

  // ---------------------------------------------------------------- only such texts are read

  lemma SecondsRead(buf: string, pos: nat) returns (second: nat)
    requires pos <= |buf| && SecondsAt(buf, pos).Some?
    ensures var end := SecondsAt(buf, pos).value.2;
            && pos <= second <= end <= |buf| && IsSecond(buf[pos..second]) && IsFraction(buf[second..end])
            && (second == pos ==> end == second)
  {
    if pos < |buf| && buf[pos] == ':' {
      second := pos + 3;
      var end := SecondsAt(buf, pos).value.2;
      PairAt(buf, pos + 1, 59);
      assert buf[pos..second][1..] == buf[pos + 1..pos + 3] && buf[pos..second][0] == ':';
      assert end > second ==> buf[second..end][0] == '.' && buf[second..end][1..] == buf[second + 1..end] &&
                              AllDigits(buf[second + 1..end]);
    } else {
      second := pos;
    }
  }

  /** Where the reader finds a time. */
  lemma TimeFound(buf: string, pos: nat) returns (hour: nat)
    requires pos <= |buf| && SkipSpaces(buf, pos) < |buf| && ParseRest(buf, pos).Some?
    ensures var start := SkipSpaces(buf, pos);
            hour == if buf[start] == 'T' || buf[start] == 't' then start + 1 else start
    ensures hour + 5 <= |buf| && IsPair(buf[hour..hour + 2], 23) && buf[hour + 2] == ':'
    ensures IsPair(buf[hour + 3..hour + 5], 59) && SecondsAt(buf, hour + 5).Some?
    ensures SkipSpaces(buf, SecondsAt(buf, hour + 5).value.2) == |buf|
  {
    hide SkipSpaces, SecondsAt, TwoDigitsAt, Value, IsPair;
    var start := SkipSpaces(buf, pos);
    hour := if buf[start] == 'T' || buf[start] == 't' then start + 1 else start;
    PairAt(buf, hour, 23);
    PairAt(buf, hour + 3, 59);
  }

  lemma TimeReadCut(buf: string, pos: nat) returns (at: TimePlaces)
    requires pos <= |buf| && SkipSpaces(buf, pos) < |buf| && ParseRest(buf, pos).Some?
    ensures CutsTime(buf, pos, at)
  {
    hide SkipSpaces, SecondsAt, ParseRest, IsSecond, IsFraction, IsPair, AllSpaces;
    var start := SkipSpaces(buf, pos);
    var hour := TimeFound(buf, pos);
    var second := SecondsRead(buf, hour + 5);
    var end := SecondsAt(buf, hour + 5).value.2;
    SpacesBefore(buf, pos);
    OnlySpaces(buf, end);
    MarkRead(buf, start, hour);
    at := TimePlaces(start, hour, second, end);
  }

  lemma SpacesBefore(buf: string, pos: nat)
    requires pos <= |buf|
    ensures AllSpaces(buf[pos..SkipSpaces(buf, pos)])
  {
    SkippedSpaces(buf, pos);
  }

  lemma MarkRead(buf: string, start: nat, hour: nat)
    requires start < |buf| && hour == if buf[start] == 'T' || buf[start] == 't' then start + 1 else start
    ensures var mark := buf[start..hour]; mark == "" || mark == "T" || mark == "t"
  {
  }

  // ---------------------------------------------------------------- parts and places

  lemma TimeSpelledBack(buf: string, pos: nat, at: TimePlaces)
    requires InOrder(buf, pos, at) && buf[at.hour + 2] == ':'
    ensures SpelledTime(TimePartsAt(buf, pos, at)) == buf[pos..]
  {
    var m := at.hour;
    assert buf[m..m + 5] == buf[m..m + 2] + ":" + buf[m + 3..m + 5];
    assert buf[pos..] == buf[pos..at.start] + buf[at.start..m] + buf[m..m + 5] + buf[m + 5..at.second] +
                         buf[at.second..at.fraction] + buf[at.fraction..];
  }

  function TimePlacesOf(pos: nat, q: TimeParts): TimePlaces {
    var start := pos + |q.spaces|;
    var second := start + |q.mark| + 5 + |q.second|;
    TimePlaces(start, start + |q.mark|, second, second + |q.fraction|)
  }

  lemma TimePlaced(buf: string, pos: nat, q: TimeParts, back: string)
    requires pos <= |buf| && buf[pos..] == q.spaces + q.mark + q.hour + ([':'] + back)
    requires back == q.minute + q.second + (q.fraction + q.trail) && |q.hour| == |q.minute| == 2
    ensures var at := TimePlacesOf(pos, q);
            InOrder(buf, pos, at) && buf[at.hour + 2] == ':' && TimePartsAt(buf, pos, at) == q
  {
    FrontPieces(buf, pos, q.spaces, q.mark, q.hour, ':', back);
    BackPieces(buf, pos + |q.spaces| + |q.mark| + 3, q.minute, q.second, q.fraction, q.trail);
  }

  lemma TimePlacesBack(buf: string, pos: nat, q: TimeParts)
    requires pos <= |buf| && buf[pos..] == SpelledTime(q) && |q.hour| == |q.minute| == 2
    ensures var at := TimePlacesOf(pos, q);
            InOrder(buf, pos, at) && buf[at.hour + 2] == ':' && TimePartsAt(buf, pos, at) == q
  {
    Regrouped(q);
    hide SpelledTime, TimePlacesOf;
    TimePlaced(buf, pos, q, q.minute + q.second + (q.fraction + q.trail));
  }

  lemma Regrouped(q: TimeParts)
    ensures SpelledTime(q) == q.spaces + q.mark + q.hour + ([':'] + (q.minute + q.second + (q.fraction + q.trail)))
  {
    var front := q.spaces + q.mark + q.hour;
    assert SpelledTime(q) == front + ":" + (q.minute + q.second + (q.fraction + q.trail));
  }

  lemma BackPieces(s: string, from: nat, a: string, b: string, c: string, d: string)
    requires from <= |s| && s[from..] == a + b + (c + d)
    ensures var i, j, k := from + |a|, from + |a| + |b|, from + |a| + |b| + |c|;
            k <= |s| && s[from..i] == a && s[i..j] == b && s[j..k] == c && s[k..] == d
  {
    var t := s[from..];
    var i, j, k := |a|, |a| + |b|, |a| + |b| + |c|;
    assert t[..i] == a && t[i..j] == b && t[j..k] == c && t[k..] == d;
    assert s[from..from + i] == t[..i] && s[from + i..from + j] == t[i..j] && s[from + j..from + k] == t[j..k];
    assert s[from + k..] == t[k..];
  }

  // ---------------------------------------------------------------- the two agree

  /** What follows a date is read exactly when it spells a time of day, and as that time. */
  lemma RestReadsGrammar(buf: string, pos: nat, time: int)
    requires pos <= |buf|
    ensures ParseRest(buf, pos) == Some(time) <==> SpellsTime(buf[pos..], time)
  {
    hide ParseRest, SpelledTime, TimeSyntax, TimeNamed;
    if ParseRest(buf, pos) == Some(time) {
      RestSpells(buf, pos, time);
    }
    if SpellsTime(buf[pos..], time) {
      if AllSpaces(buf[pos..]) && time == 0 {
        OnlySpaces(buf, pos);
      } else {
        var q :| SpelledTime(q) == buf[pos..] && NamesTime(q, time);
        SpelledRest(buf, pos, q);
      }
    }
  }

  lemma RestSpells(buf: string, pos: nat, time: int)
    requires pos <= |buf| && ParseRest(buf, pos) == Some(time)
    ensures SpellsTime(buf[pos..], time)
  {
    OnlySpaces(buf, pos);
    if SkipSpaces(buf, pos) < |buf| {
      var at := TimeReadCut(buf, pos);
      CutTimeRead(buf, pos, at);
      TimeSpelledBack(buf, pos, at);
      hide ParseRest, SpelledTime, TimeSyntax, TimeNamed, TimePartsAt, AllSpaces;
      assert NamesTime(TimePartsAt(buf, pos, at), time);
    }
  }

  lemma SpelledRest(buf: string, pos: nat, q: TimeParts)
    requires pos <= |buf| && SpelledTime(q) == buf[pos..] && TimeSyntax(q)
    ensures ParseRest(buf, pos) == Some(TimeNamed(q))
  {
    hide ParseRest, SpelledTime, TimeNamed, TimePartsAt, AllSpaces, IsSecond, IsFraction;
    TimePlacesBack(buf, pos, q);
    CutTimeRead(buf, pos, TimePlacesOf(pos, q));
  }

  lemma RestIsSuffix(p: DateParts)
    ensures |p.rest| <= |Spelled(p)| && Spelled(p)[|Spelled(p)| - |p.rest|..] == p.rest
  {
  }

  /** A day and a time of day are read, one behind the other, exactly from the texts that spell them. */
  lemma StampReadsGrammar(buf: string, day: int, time: int)
    ensures SpellsTimestamp(buf, day, time) <==>
            var date := ParseDate(buf, false);
            date.Some? && date.value.0 == day && ParseRest(buf, date.value.1) == Some(time)
  {
    hide ParseDate, ParseRest, Spelled, DateSyntax, DateOf, IsValid, FromDate, SpellsTime;
    if SpellsTimestamp(buf, day, time) {
      var p :| SpellsBoth(p, buf, day, time);
      PartsRead(p, false);
      RestIsSuffix(p);
      RestReadsGrammar(buf, |buf| - |p.rest|, time);
    }
    var date := ParseDate(buf, false);
    if date.Some? && date.value.0 == day && ParseRest(buf, date.value.1) == Some(time) {
      var end := date.value.1;
      ReadSpells(buf, false, day, end);
      var p :| Spelled(p) == buf && Names(p, false, day) && end == |buf| - |p.rest|;
      RestIsSuffix(p);
      RestReadsGrammar(buf, end, time);
      assert SpellsBoth(p, buf, day, time);
    }
  }
}
