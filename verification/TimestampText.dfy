/** Timestamps as text: a date, a space and HH:MM:SS with up to six decimals, written and read back. */
module TimestampText {
  import opened Calendar
  import opened DateText
  import opened DateGrammar
  import opened DateParsing
  import opened Machine
  import opened TimestampGrammar

  // ---------------------------------------------------------------- writing

  /** The zeros at the end of some digits, the first digit never counted. */
  function TrailingZeros(s: string): (n: nat)
    ensures n <= |s| && (s != "" ==> n < |s|)
    ensures forall i | |s| - n <= i < |s| :: s[i] == '0'
  {
    if |s| > 1 && s[|s| - 1] == '0' then 1 + TrailingZeros(s[..|s| - 1]) else 0
  }

  /** The microseconds as the shortest fraction. */
  function Decimals(micros: nat): (r: string)
    ensures 1 <= |r| <= 6 && forall i {:trigger r[i]} | 0 <= i < |r| :: IsDigit(r[i])
  {
    var s := Decimal(micros, 6);
    s[..6 - TrailingZeros(s)]
  }

  /** A time of day: hours, minutes and seconds, and the fraction unless it is zero. */
  function TimeText(hour: nat, minute: nat, second: nat, micros: nat): (r: string)
    ensures |r| == 8 + if micros == 0 then 0 else 1 + |Decimals(micros)|
  {
    Decimal(hour, 2) + ":" + Decimal(minute, 2) + ":" + Decimal(second, 2) + if micros == 0 then ""
      else "." + Decimals(micros)
  }

  lemma SixDigits()
    ensures Pow10(6) == 1000000
  {
    assert Pow10(2) == 100 && Pow10(4) == 10000;
  }

  /** Fill the buffer with the six digits and count the zeros at their end. */
  method FormatMicros(data: array<char>, micros: nat) returns (zeros: nat)
    requires data.Length == 6 && micros < 1000000
    modifies data
    ensures data[..] == Decimal(micros, 6) && zeros == TrailingZeros(Decimal(micros, 6))
  {
    SixDigits();
    FormatYear(data, micros, 6);
    ghost var digits := Decimal(micros, 6);
    assert data[..] == digits;
    hide Decimal;
    zeros := 0;
    var i := 5;
    assert digits[..6] == digits;
    while i > 0 && data[i] == '0'
      invariant 0 <= i <= 5 && zeros == 5 - i && TrailingZeros(digits) == zeros + TrailingZeros(digits[..i + 1])
    {
      assert digits[..i + 1][..i] == digits[..i] && digits[..i + 1][i] == data[i];
      zeros, i := zeros + 1, i - 1;
    }
    assert digits[..i + 1][i] == data[i];
  }

  /** How long a time's text is; the digits of its fraction go into the buffer. */
  method TimeLength(micros: nat, buffer: array<char>) returns (length: nat)
    requires buffer.Length == 6 && micros < 1000000
    modifies buffer
    ensures micros != 0 ==> buffer[..] == Decimal(micros, 6)
    ensures forall h: nat, m: nat, s: nat :: length == |TimeText(h, m, s, micros)|
  {
    if micros == 0 {
      return 8;
    }
    var zeros := FormatMicros(buffer, micros);
    length := 15 - zeros;
  }

  method PutDigits(data: array<char>, at: nat, n: nat)
    requires at + 2 <= data.Length && n < 100
    modifies data
    ensures data[at] == Decimal(n, 2)[0] && data[at + 1] == Decimal(n, 2)[1]
    ensures forall i {:trigger data[i]} | 0 <= i < data.Length && !(at <= i < at + 2) :: data[i] == old(data[i])
  {
    TwoDigits(n, 2);
    if n < 10 {
      data[at], data[at + 1] := '0', Digit(n);
    } else {
      data[at], data[at + 1] := Digit(n / 10), Digit(n % 10);
    }
  }

  method FormatTime(data: array<char>, hour: nat, minute: nat, second: nat, micros: nat, buffer: array<char>)
    requires hour < 100 && minute < 100 && second < 100 && data != buffer && buffer.Length == 6
    requires data.Length == |TimeText(hour, minute, second, micros)| &&
             (micros != 0 ==> buffer[..] == Decimal(micros, 6))
    modifies data
    ensures data[..] == TimeText(hour, minute, second, micros)
  {
    data[2], data[5] := ':', ':';
    PutDigits(data, 0, hour);
    PutDigits(data, 3, minute);
    PutDigits(data, 6, second);
    if data.Length > 8 {
      CopyFraction(data, buffer);
      assert data[..][9..] == buffer[..][..data.Length - 9];
    }
    hide Decimal;
    TimeFrom(data[..], hour, minute, second, micros);
  }

  /** The point and as many digits as there is room for. */
  method CopyFraction(data: array<char>, buffer: array<char>)
    requires data != buffer && buffer.Length == 6 && 9 <= data.Length <= 15
    modifies data
    ensures data[8] == '.' && forall i {:trigger data[9 + i]} | 0 <= i < data.Length - 9 :: data[9 + i] == buffer[i]
    ensures forall i {:trigger data[i]} | 0 <= i < 8 :: data[i] == old(data[i])
  {
    data[8] := '.';
    var k := 0;
    while 9 + k < data.Length
      invariant 0 <= k <= data.Length - 9 && data[8] == '.'
      invariant forall i {:trigger data[9 + i]} | 0 <= i < k :: data[9 + i] == buffer[i]
      invariant forall i {:trigger data[i]} | 0 <= i < 8 :: data[i] == old(data[i])
    {
      data[9 + k] := buffer[k];
      k := k + 1;
    }
  }

  lemma TimeFrom(t: string, hour: nat, minute: nat, second: nat, micros: nat)
    requires |t| == |TimeText(hour, minute, second, micros)| && t[2] == ':' && t[5] == ':'
    requires t[0] == Decimal(hour, 2)[0] && t[1] == Decimal(hour, 2)[1] && t[3] == Decimal(minute, 2)[0]
    requires t[4] == Decimal(minute, 2)[1] && t[6] == Decimal(second, 2)[0] && t[7] == Decimal(second, 2)[1]
    requires micros != 0 ==> t[8] == '.' && t[9..] == Decimals(micros)
    ensures t == TimeText(hour, minute, second, micros)
  {
    hide Decimal, Decimals;
    var tail := if micros == 0 then "" else "." + Decimals(micros);
    assert t[8..] == tail by {
      assert micros != 0 ==> t[8..] == [t[8]] + t[9..];
    }
    forall i | 0 <= i < |tail| ensures t[8 + i] == tail[i] {
      assert t[8 + i] == t[8..][i];
    }
    Assemble(t, Decimal(hour, 2), ":" + Decimal(minute, 2), ":" + Decimal(second, 2), tail);
    assert TimeText(hour, minute, second, micros) == Decimal(hour, 2) + (":" + Decimal(minute, 2)) +
           (":" + Decimal(second, 2)) + tail;
  }

  // ---------------------------------------------------------------- the reader

  method ReadFraction(buf: string, from: nat) returns (end: nat, micros: int)
    requires from <= |buf|
    ensures end == SkipDigits(buf, from) && micros == Fraction(buf[from..end])
  {
    end, micros := from, 0;
    var scale := 100000;
    SixDigits();
    while end < |buf| && IsDigit(buf[end])
      invariant from <= end <= SkipDigits(buf, from) && SkipDigits(buf, end) == SkipDigits(buf, from)
      invariant micros == Fraction(buf[from..end]) && scale == if end - from < 6 then Pow10(5 - (end - from)) else 0
    {
      assert buf[from..end + 1][..end - from] == buf[from..end];
      if scale > 0 {
        micros, scale := micros + DigitValue(buf[end]) * scale, scale / 10;
      }
      end := end + 1;
    }
  }

  method ReadTime(buf: string, from: nat) returns (r: Option<int>)
    requires from <= |buf|
    ensures r == ParseTime(buf, from)
  {
    hide Fraction, SkipDigits;
    var hours := TwoDigitsAt(buf, from, 23);
    if hours.None? || hours.value.1 >= |buf| || buf[hours.value.1] != ':' {
      return None;
    }
    var minutes := TwoDigitsAt(buf, hours.value.1 + 1, 59);
    if minutes.None? {
      return None;
    }
    var pos, second, micros := minutes.value.1, 0, 0;
    if pos < |buf| && buf[pos] == ':' {
      var seconds := TwoDigitsAt(buf, pos + 1, 59);
      if seconds.None? {
        return None;
      }
      second, pos := seconds.value.0, seconds.value.1;
      if pos < |buf| && buf[pos] == '.' {
        var end;
        end, micros := ReadFraction(buf, pos + 1);
        if end == pos + 1 {
          return None;
        }
        pos := end;
      }
    }
    pos := SkipSpacesAt(buf, pos);
    if pos != |buf| {
      return None;
    }
    return Some(TimeOf(hours.value.0, minutes.value.0, second, micros));
  }

  /** What reading comes to; the third case is arithmetic that leaves 64 bits. */
  datatype Outcome = Refused | Read(timestamp: Int64) | Overflow

  function ReadText(buf: string): Outcome {
    match ParseDate(buf, false)
    case None => Refused
    case Some((day, end)) =>
      if FromDatetime(day).None? then Overflow
      else match ParseRest(buf, end)
        case None => Refused
        case Some(time) => match AtTime(day, time)
          case None => Overflow
          case Some(t) => Read(t)
  }

  /** What the reader returns is the timestamp the text spells, if it spells one. */
  ghost predicate ReadsAsStamp(buf: string, r: Outcome) {
    forall t: Int64 ::
      r == Read(t) <==> exists day, time :: SpellsTimestamp(buf, day, time) && AtTime(day, time) == Some(t)
  }

  method TryConvertTimestamp(buf: string) returns (r: Outcome)
    ensures ReadsAsStamp(buf, r) && r == ReadText(buf)
  {
    r := ReadStamp(buf);
    hide ReadText, SpellsTimestamp, AtTime;
    forall t: Int64 {
      ReadsExactly(buf, t);
    }
  }

  method ReadStamp(buf: string) returns (r: Outcome)
    ensures r == ReadText(buf)
  {
    hide ParseTime, ParseDate;
    var date := ReadDate(buf, false);
    if date.None? {
      return Refused;
    }
    var midnight := FromDatetime(date.value.0);
    if midnight.None? {
      return Overflow;
    }
    var pos := SkipSpacesAt(buf, date.value.1);
    if pos == |buf| {
      return Read(midnight.value);
    }
    if buf[pos] == 'T' || buf[pos] == 't' {
      pos := pos + 1;
    }
    var time := ReadTime(buf, pos);
    if time.None? {
      return Refused;
    }
    var t := AtTime(date.value.0, time.value);
    return if t.None? then Overflow else Read(t.value);
  }

  /** A timestamp is read exactly from the texts that spell a day and a time of day making it. */
  lemma ReadsExactly(buf: string, t: Int64)
    ensures ReadText(buf) == Read(t) <==>
            exists day, time :: SpellsTimestamp(buf, day, time) && AtTime(day, time) == Some(t)
  {
    hide ParseDate, ParseRest, SpellsTimestamp;
    if ReadText(buf) == Read(t) {
      var date := ParseDate(buf, false).value;
      var time := ParseRest(buf, date.1).value;
      StampReadsGrammar(buf, date.0, time);
    }
    if day, time :| SpellsTimestamp(buf, day, time) && AtTime(day, time) == Some(t) {
      StampReadsGrammar(buf, day, time);
    }
  }

  /** Of the texts that spell a day and a time of day, exactly those out of range overflow. */
  lemma OverflowsExactly(buf: string, day: int, time: int)
    requires SpellsTimestamp(buf, day, time) && 0 <= time < MICROS_PER_DAY
    ensures ReadText(buf).Overflow? <==> !InRange(day, time)
    ensures ReadText(buf).Read? <==> InRange(day, time)
  {
    hide ParseDate, ParseRest, SpellsTimestamp;
    StampReadsGrammar(buf, day, time);
    SplitUndoesJoin(day, time);
  }

  // ---------------------------------------------------------------- reading what was written

  lemma TwoDigitsOfDecimal(buf: string, pos: nat, n: nat, max: int)
    requires pos + 2 <= |buf| && n < 100 && n <= max && buf[pos] == Decimal(n, 2)[0] && buf[pos + 1] == Decimal(n, 2)[1]
    ensures TwoDigitsAt(buf, pos, max) == Some((n, pos + 2))
  {
    TwoDigits(n, 2);
  }

  /** The first `w` digits of a fraction, as a number of the last of them. */
  lemma {:induction false} FractionOfDecimal(n: nat, w: nat)
    requires w <= 6 && n < Pow10(w)
    ensures Fraction(Decimal(n, w)) == n * Pow10(6 - w)
  {
    if w > 0 {
      var s := Decimal(n, w);
      assert s[..w - 1] == Decimal(n / 10, w - 1);
      FractionOfDecimal(n / 10, w - 1);
      assert Pow10(6 - (w - 1)) == 10 * Pow10(6 - w);
      Scaled(n, Pow10(6 - w));
    }
  }

  lemma Scaled(n: nat, p: int)
    ensures n / 10 * (10 * p) + n % 10 * p == n * p
  {
    assert n == n / 10 * 10 + n % 10;
    assert n * p == (n / 10 * 10 + n % 10) * p;
  }

  /** Zeros at the end of the fraction add nothing. */
  lemma {:induction false} ZerosAddNothing(s: string, k: nat)
    requires k <= |s| && (forall i {:trigger s[i]} | 0 <= i < |s| :: IsDigit(s[i]))
    requires forall i {:trigger s[i]} | k <= i < |s| :: s[i] == '0'
    ensures Fraction(s[..k]) == Fraction(s)
  {
    if k == |s| {
      assert s[..k] == s;
    } else {
      var n := |s| - 1;
      assert s[..n][..k] == s[..k];
      ZerosAddNothing(s[..n], k);
      assert DigitValue(s[n]) == 0;
    }
  }

  lemma DecimalsRead(micros: nat)
    requires micros < 1000000
    ensures Fraction(Decimals(micros)) == micros
  {
    SixDigits();
    var s := Decimal(micros, 6);
    FractionOfDecimal(micros, 6);
    assert micros * Pow10(0) == micros;
    hide Decimal, Fraction;
    ZerosAddNothing(s, 6 - TrailingZeros(s));
  }

  /** Where the parts of a time's text stand. */
  lemma TimeParts(t: string, hour: nat, minute: nat, second: nat, micros: nat)
    requires t == TimeText(hour, minute, second, micros)
    ensures |t| == 8 + (if micros == 0 then 0 else 1 + |Decimals(micros)|)
    ensures t[0] == Decimal(hour, 2)[0] && t[1] == Decimal(hour, 2)[1] && t[2] == ':'
    ensures t[3] == Decimal(minute, 2)[0] && t[4] == Decimal(minute, 2)[1] && t[5] == ':'
    ensures t[6] == Decimal(second, 2)[0] && t[7] == Decimal(second, 2)[1]
    ensures micros != 0 ==> t[8] == '.' && t[9..] == Decimals(micros)
  {
    hide Decimal, Decimals;
  }

  /** The same where it ends a longer text. */
  lemma LaterParts(front: string, t: string)
    requires |t| >= 8
    ensures var s, p := front + t, |front|;
            && |s| == p + |t| && s[p] == t[0] && s[p + 1] == t[1] && s[p + 2] == t[2] && s[p + 3] == t[3] &&
               s[p + 4] == t[4]
            && s[p + 5] == t[5] && s[p + 6] == t[6] && s[p + 7] == t[7]
            && (|t| > 8 ==> s[p + 8] == t[8] && s[p + 9..] == t[9..])
  {
  }

  lemma WrittenSeconds(front: string, hour: nat, minute: nat, second: nat, micros: nat)
    requires second < 60 && micros < 1000000
    ensures var s, p := front + TimeText(hour, minute, second, micros), |front|;
            SecondsAt(s, p + 5) == Some((second, micros, |s|))
  {
    var t, p := TimeText(hour, minute, second, micros), |front|;
    var s := front + t;
    TimeParts(t, hour, minute, second, micros);
    LaterParts(front, t);
    DecimalsRead(micros);
    hide TimeText, Decimal, Fraction, Decimals;
    TwoDigitsOfDecimal(s, p + 6, second, 59);
    if micros != 0 {
      forall i | p + 9 <= i < |s| ensures IsDigit(s[i]) {
        assert s[i] == s[p + 9..][i - (p + 9)];
      }
      DigitsEnd(s, p + 9, |s|);
      assert s[p + 9..|s|] == s[p + 9..];
    }
  }

  lemma WrittenTime(front: string, hour: nat, minute: nat, second: nat, micros: nat)
    requires hour < 24 && minute < 60 && second < 60 && micros < 1000000
    ensures ParseTime(front + TimeText(hour, minute, second, micros), |front|) ==
            Some(TimeOf(hour, minute, second, micros))
  {
    var t, p := TimeText(hour, minute, second, micros), |front|;
    var s := front + t;
    TimeParts(t, hour, minute, second, micros);
    LaterParts(front, t);
    WrittenSeconds(front, hour, minute, second, micros);
    hide TimeText, Decimal, SecondsAt, Decimals, TimeOf;
    TwoDigitsOfDecimal(s, p, hour, 23);
    TwoDigitsOfDecimal(s, p + 3, minute, 59);
  }

  /** The text of a date and a time of day. */
  function Stamp(d: Date, hour: nat, minute: nat, second: nat, micros: nat): string
    requires IsValid(d)
  {
    Text(d) + (" " + TimeText(hour, minute, second, micros))
  }

  /** Reading the text of a date and a time of day gives their timestamp, before the year 1 too, exactly
      where there is one. */
  lemma TimestampRoundTrip(d: Date, hour: nat, minute: nat, second: nat, micros: nat)
    requires IsValid(d) && hour < 24 && minute < 60 && second < 60 && micros < 1000000
    ensures var day, time, r := FromDate(d), TimeOf(hour, minute, second, micros),
                ReadText(Stamp(d, hour, minute, second, micros));
            && (InRange(day, time) ==> r.Read? && AtTime(day, time) == Some(r.timestamp))
            && (!InRange(day, time) ==> r.Overflow?)
  {
    hide Text, TimeText, ParseTime, ParseDate, ReadText, Stamp, FromDate, MayFollow, IsDigit, AtTime, InRange;
    var front, time := Text(d), TimeText(hour, minute, second, micros);
    TimeFollows(hour, minute, second, micros);
    DateThenRest(d, " " + time, false);
    WrittenTime(front + " ", hour, minute, second, micros);
    var s := front + (" " + time);
    StampIs(d, hour, minute, second, micros);
    Rejoined(front, time);
    SplitUndoesJoin(FromDate(d), TimeOf(hour, minute, second, micros));
    hide TimeOf;
    ReadInTwo(s, front, time, FromDate(d), TimeOf(hour, minute, second, micros));
  }

  lemma StampIs(d: Date, hour: nat, minute: nat, second: nat, micros: nat)
    requires IsValid(d)
    ensures Stamp(d, hour, minute, second, micros) == Text(d) + (" " + TimeText(hour, minute, second, micros))
  {
  }

  lemma Rejoined(front: string, time: string)
    ensures front + (" " + time) == front + " " + time && |front + " "| == |front| + 1
  {
  }

  /** A date, a space and a time read as the two together. */
  lemma ReadInTwo(s: string, front: string, time: string, day: int, tod: int)
    requires s == front + " " + time && |time| > 0 && IsDigit(time[0])
    requires ParseDate(s, false) == Some((day, |front|)) && ParseTime(s, |front| + 1) == Some(tod)
    ensures ReadText(s) == match AtTime(day, tod) case None => Overflow case Some(t) => Read(t)
  {
    hide ParseDate, ParseTime;
    OneSpace(s, front, time);
  }

  lemma TimeFollows(hour: nat, minute: nat, second: nat, micros: nat)
    ensures var time := TimeText(hour, minute, second, micros); |time| >= 8 && IsDigit(time[0]) && MayFollow(" " + time)
  {
    var time := TimeText(hour, minute, second, micros);
    TimeParts(time, hour, minute, second, micros);
    assert (" " + time)[1] == time[0];
  }

  lemma OneSpace(s: string, front: string, time: string)
    requires s == front + " " + time && |time| > 0 && IsDigit(time[0])
    ensures SkipSpaces(s, |front|) == |front| + 1 < |s| && s[|front| + 1] == time[0]
  {
    assert s[|front|] == ' ' && s[|front| + 1] == time[0];
  }

  // ---------------------------------------------------------------- timestamps there and back

  /** A timestamp's text, unless splitting it leaves 64 bits: reading it gives the timestamp back. */
  method CastTimestamp(t: Int64) returns (text: Option<string>)
    ensures text.Some? <==> t >= -LAST_DAY * MICROS_PER_DAY
    ensures text.Some? ==> ReadText(text.value) == Read(t)
  {
    hide GetTime, ParseDate, Decimals, GetDate, CumulativeYearDays, Cumulative, MonthLength, Decimal;
    var time := GetTime(t);
    if time.None? {
      return None;
    }
    var date := Convert(GetDate(t));
    var hour, minute, second, micros := ConvertTime(time.value);
    hide Text, TimeText, Stamp, FromDate, ReadText, IsValid;
    var front := DatePart(date);
    var back := TimePart(hour, minute, second, micros);
    TimestampRoundTrip(date, hour, minute, second, micros);
    SplitUndoesJoin(GetDate(t), time.value);
    JoinUndoesSplit(t);
    StampIs(date, hour, minute, second, micros);
    text := Some(front + (" " + back));
  }

  method DatePart(d: Date) returns (text: string)
    requires IsValid(d)
    ensures text == Text(d)
  {
    var length, yearLength, addBc, shown := Length(d);
    var data := new char[length];
    Format(data, d, shown, yearLength, addBc);
    text := data[..];
  }

  method TimePart(hour: nat, minute: nat, second: nat, micros: nat) returns (text: string)
    requires hour < 24 && minute < 60 && second < 60 && micros < 1000000
    ensures text == TimeText(hour, minute, second, micros)
  {
    var buffer := new char[6];
    var length := TimeLength(micros, buffer);
    var data := new char[length];
    FormatTime(data, hour, minute, second, micros, buffer);
    text := data[..];
  }

  lemma DayOf(d: Date, n: int)
    requires RealDate(d) && YearStart(d.year) + Cumulative(IsLeapYear(d.year), d.month - 1) + d.day - 1 == n
    ensures FromDate(d) == n
  {
    hide FromDate, YearStart, Cumulative, IsLeapYear;
    FromDateIsOffset(d);
  }

  /** The first and the last day that have a midnight. */
  lemma DaysInRange()
    ensures FromDate(Date(-290308, 12, 22)) == -LAST_DAY && FromDate(Date(294247, 1, 10)) == LAST_DAY
  {
    hide FromDate;
    assert Cumulative(true, 11) == 335;
    DayOf(Date(-290308, 12, 22), -LAST_DAY);
    DayOf(Date(294247, 1, 10), LAST_DAY);
  }

  lemma FarDay()
    ensures IsValid(Date(300000, 1, 1)) && FromDate(Date(300000, 1, 1)) == 108_853_222
  {
    hide FromDate;
    DayOf(Date(300000, 1, 1), 108_853_222);
  }

  lemma FarYear()
    ensures Decimal(300000, 6) == "300000"
  {
    assert Decimal(30, 2) == "30";
    assert Decimal(3000, 4) == "3000";
  }

  lemma FarText()
    ensures Text(Date(300000, 1, 1)) == "300000-01-01" && TimeText(0, 0, 0, 0) == "00:00:00"
  {
    FarYear();
    assert Decimal(1, 2) == "01" && Decimal(0, 2) == "00";
    hide Decimal;
  }

  /** A valid date the reader accepts whose timestamp does not fit 64 bits. */
  lemma FarDateOverflows()
    ensures var d := Date(300000, 1, 1);
            IsValid(d) && Stamp(d, 0, 0, 0, 0) == "300000-01-01 00:00:00" && ReadText("300000-01-01 00:00:00").Overflow?
  {
    hide ReadText, FromDate, Text, TimeText, Stamp, YearStart, IsValid, Decimal;
    var d := Date(300000, 1, 1);
    FarDay();
    FarText();
    StampIs(d, 0, 0, 0, 0);
    TimestampRoundTrip(d, 0, 0, 0, 0);
  }
}
