/** Proleptic Gregorian dates as day numbers: 1970-01-01 is day 0. */
module Calendar {
  import opened Machine

  datatype Option<+T> = None | Some(value: T)

  datatype Date = Date(year: int, month: int, day: int)

  const EPOCH_YEAR: int := 1970
  const YEAR_INTERVAL: int := 400
  const DAYS_PER_YEAR_INTERVAL: int := 146097

  const MIN_DATE: Date := Date(-5877641, 6, 23)
  const MAX_DATE: Date := Date(5881580, 7, 11)

  const NORMAL_DAYS: seq<int> := [0, 31, 28, 31, 30, 31, 30, 31, 31, 30, 31, 30, 31]
  const LEAP_DAYS: seq<int> := [0, 31, 29, 31, 30, 31, 30, 31, 31, 30, 31, 30, 31]
  const CUMULATIVE_DAYS: seq<int> := [0, 31, 59, 90, 120, 151, 181, 212, 243, 273, 304, 334, 365]
  const CUMULATIVE_LEAP_DAYS: seq<int> := [0, 31, 60, 91, 121, 152, 182, 213, 244, 274, 305, 335, 366]

  // ---------------------------------------------------------------- the calendar

  predicate IsLeapYear(year: int) {
    year % 4 == 0 && (year % 100 != 0 || year % 400 == 0)
  }

  function YearLength(year: int): int {
    if IsLeapYear(year) then 366 else 365
  }

  function MonthLength(leap: bool, month: int): int
    requires 1 <= month <= 12
  {
    if leap then LEAP_DAYS[month] else NORMAL_DAYS[month]
  }

  /** The days of the year before the end of month `m`. */
  function Cumulative(leap: bool, m: int): int
    requires 0 <= m <= 12
  {
    if leap then CUMULATIVE_LEAP_DAYS[m] else CUMULATIVE_DAYS[m]
  }

  /** The table of the days before the first of January of the `i`-th year from 1970 on. */
  function CumulativeYearDays(i: nat): int {
    if i == 0 then 0 else CumulativeYearDays(i - 1) + YearLength(EPOCH_YEAR + i - 1)
  }

  /** The table of the month a day of the year, counted from 0, falls in. */
  function MonthOfDay(leap: bool, day: int, m: int): (r: int)
    requires 1 <= m <= 12 && Cumulative(leap, m - 1) <= day < Cumulative(leap, 12)
    ensures m <= r <= 12 && Cumulative(leap, r - 1) <= day < Cumulative(leap, r)
    decreases 12 - m
  {
    if day < Cumulative(leap, m) then m else MonthOfDay(leap, day, m + 1)
  }

  /** A date the calendar has. */
  predicate RealDate(d: Date) {
    1 <= d.month <= 12 && 1 <= d.day <= MonthLength(IsLeapYear(d.year), d.month)
  }

  predicate Before(a: Date, b: Date) {
    a.year < b.year || (a.year == b.year && (a.month < b.month || (a.month == b.month && a.day < b.day)))
  }

  /** The day after a date. */
  function NextDay(d: Date): (n: Date)
    requires RealDate(d)
    ensures RealDate(n) && Before(d, n)
  {
    if d.day < MonthLength(IsLeapYear(d.year), d.month) then d.(day := d.day + 1)
    else if d.month < 12 then Date(d.year, d.month + 1, 1)
    else Date(d.year + 1, 1, 1)
  }

  // ---------------------------------------------------------------- dates to day numbers

  predicate IsValid(d: Date) {
    && 1 <= d.month <= 12 && 1 <= d.day
    && (d.year <= MIN_DATE.year ==>
          d.year == MIN_DATE.year && !(d.month < MIN_DATE.month || (d.month == MIN_DATE.month && d.day < MIN_DATE.day)))
    && (d.year >= MAX_DATE.year ==>
          d.year == MAX_DATE.year && !(d.month > MAX_DATE.month || (d.month == MAX_DATE.month && d.day > MAX_DATE.day)))
    && d.day <= MonthLength(IsLeapYear(d.year), d.month)
  }

  /** The day number, from the table of one 400-year cycle and whole cycles before or after it. */
  function FromDate(d: Date): int
    requires 1 <= d.month <= 12
  {
    var n := Cumulative(IsLeapYear(d.year), d.month - 1) + d.day - 1;
    if d.year < 1970 then
      var diff := 1970 - d.year;
      n + CumulativeYearDays(400 - diff % 400) - DAYS_PER_YEAR_INTERVAL - diff / 400 * DAYS_PER_YEAR_INTERVAL
    else if d.year >= 2370 then
      var diff := d.year - 2370;
      n + CumulativeYearDays(diff % 400) + DAYS_PER_YEAR_INTERVAL + diff / 400 * DAYS_PER_YEAR_INTERVAL
    else
      n + CumulativeYearDays(d.year - 1970)
  }

  function TryFromDate(d: Date): Option<int> {
    if IsValid(d) then Some(FromDate(d)) else None
  }

  // ---------------------------------------------------------------- counting years

  /** The leap years up to and including `y`, counted from year 0. */
  function LeapsTo(y: int): int {
    y / 4 - y / 100 + y / 400
  }

  /** The day number of the first of January. */
  function YearStart(y: int): int {
    365 * (y - 1970) + LeapsTo(y - 1) - LeapsTo(1969)
  }

  /** Quotient and remainder by the calendar's divisors are the only ones. */
  lemma DivideBy4(x: int, q: int, r: int)
    requires x == 4 * q + r && 0 <= r < 4
    ensures x / 4 == q && x % 4 == r
  {
  }

  lemma DivideBy100(x: int, q: int, r: int)
    requires x == 100 * q + r && 0 <= r < 100
    ensures x / 100 == q && x % 100 == r
  {
  }

  lemma DivideBy400(x: int, q: int, r: int)
    requires x == 400 * q + r && 0 <= r < 400
    ensures x / 400 == q && x % 400 == r
  {
  }

  lemma StepBy4(y: int)
    ensures y / 4 == (y - 1) / 4 + if y % 4 == 0 then 1 else 0
  {
    var x := y - 1;
    if x % 4 == 3 {
      DivideBy4(y, x / 4 + 1, 0);
    } else {
      DivideBy4(y, x / 4, x % 4 + 1);
    }
  }

  lemma StepBy100(y: int)
    ensures y / 100 == (y - 1) / 100 + if y % 100 == 0 then 1 else 0
  {
    var x := y - 1;
    if x % 100 == 99 {
      DivideBy100(y, x / 100 + 1, 0);
    } else {
      DivideBy100(y, x / 100, x % 100 + 1);
    }
  }

  lemma StepBy400(y: int)
    ensures y / 400 == (y - 1) / 400 + if y % 400 == 0 then 1 else 0
  {
    var x := y - 1;
    if x % 400 == 399 {
      DivideBy400(y, x / 400 + 1, 0);
    } else {
      DivideBy400(y, x / 400, x % 400 + 1);
    }
  }

  lemma Divisors(y: int)
    ensures (y % 400 == 0 ==> y % 100 == 0) && (y % 100 == 0 ==> y % 4 == 0)
  {
    if y % 400 == 0 {
      DivideBy100(y, 4 * (y / 400), 0);
    }
    if y % 100 == 0 {
      DivideBy4(y, 25 * (y / 100), 0);
    }
  }

  lemma LeapsStep(y: int)
    ensures LeapsTo(y) == LeapsTo(y - 1) + if IsLeapYear(y) then 1 else 0
  {
    StepBy4(y);
    StepBy100(y);
    StepBy400(y);
    Divisors(y);
  }

  lemma YearStartStep(y: int)
    ensures YearStart(y + 1) == YearStart(y) + YearLength(y)
  {
    hide LeapsTo, IsLeapYear;
    LeapsStep(y);
  }

  lemma YearStartCycle(y: int, k: int)
    ensures YearStart(y + 400 * k) == YearStart(y) + 146097 * k
  {
    var x := y - 1;
    DivideBy4(x + 400 * k, x / 4 + 100 * k, x % 4);
    DivideBy100(x + 400 * k, x / 100 + 4 * k, x % 100);
    DivideBy400(x + 400 * k, x / 400 + k, x % 400);
  }

  lemma {:induction false} TableIsYearStart(i: nat)
    ensures CumulativeYearDays(i) == YearStart(1970 + i)
  {
    if i > 0 {
      TableIsYearStart(i - 1);
      YearStartStep(1970 + i - 1);
    }
  }

  /** All three branches give the first of January's day number plus the day of the year. */
  lemma FromDateIsOffset(d: Date)
    requires 1 <= d.month <= 12
    ensures FromDate(d) == YearStart(d.year) + Cumulative(IsLeapYear(d.year), d.month - 1) + d.day - 1
  {
    if d.year < 1970 {
      var diff := 1970 - d.year;
      TableIsYearStart(400 - diff % 400);
      YearStartCycle(d.year, 1 + diff / 400);
    } else if d.year >= 2370 {
      var diff := d.year - 2370;
      TableIsYearStart(diff % 400);
      YearStartCycle(1970 + diff % 400, 1 + diff / 400);
    } else {
      TableIsYearStart(d.year - 1970);
    }
  }

  /** Day 0 is 1970-01-01 and every next day counts one: the numbering has no gap and no repeat, in
      years before and after 0 alike. */
  lemma DaysCountOn(d: Date)
    requires RealDate(d)
    ensures FromDate(NextDay(d)) == FromDate(d) + 1 && FromDate(Date(1970, 1, 1)) == 0
  {
    hide FromDate, LeapsTo;
    FromDateIsOffset(d);
    FromDateIsOffset(NextDay(d));
    FromDateIsOffset(Date(1970, 1, 1));
    YearStartStep(d.year);
    MonthTables(IsLeapYear(d.year), d.month);
  }

  lemma MonthTables(leap: bool, m: int)
    requires 1 <= m <= 12
    ensures Cumulative(leap, m) == Cumulative(leap, m - 1) + MonthLength(leap, m)
    ensures Cumulative(leap, 0) == 0 && Cumulative(leap, 12) == (if leap then 366 else 365)
  {
  }

  // ---------------------------------------------------------------- order

  lemma {:induction false} YearStartGrows(y: int, z: int)
    requires y < z
    ensures YearStart(y) + YearLength(y) <= YearStart(z)
    decreases z - y
  {
    if y + 1 < z {
      YearStartGrows(y, z - 1);
      YearStartStep(z - 1);
    } else {
      YearStartStep(y);
    }
  }

  lemma {:induction false} MonthsGrow(leap: bool, m: int, k: int)
    requires 1 <= m < k <= 12
    ensures Cumulative(leap, m - 1) + MonthLength(leap, m) <= Cumulative(leap, k - 1)
    decreases k - m
  {
    MonthTables(leap, m);
    MonthTables(leap, k - 1);
    if m + 1 < k {
      MonthsGrow(leap, m, k - 1);
    }
  }

  lemma DayOfYear(d: Date)
    requires RealDate(d)
    ensures 0 <= Cumulative(IsLeapYear(d.year), d.month - 1) + d.day - 1 < YearLength(d.year)
  {
    MonthTables(IsLeapYear(d.year), d.month);
    if d.month < 12 {
      MonthsGrow(IsLeapYear(d.year), d.month, 12);
      MonthTables(IsLeapYear(d.year), 12);
    }
  }

  lemma EarlierCountsLess(a: Date, b: Date)
    requires RealDate(a) && RealDate(b) && Before(a, b)
    ensures FromDate(a) < FromDate(b)
  {
    hide FromDate, YearStart;
    FromDateIsOffset(a);
    FromDateIsOffset(b);
    DayOfYear(a);
    DayOfYear(b);
    if a.year < b.year {
      YearStartGrows(a.year, b.year);
    } else if a.month < b.month {
      MonthsGrow(IsLeapYear(a.year), a.month, b.month);
    }
  }

  /** Day numbers order dates, and different dates have different numbers. */
  lemma DayNumbersOrder(a: Date, b: Date)
    requires RealDate(a) && RealDate(b)
    ensures FromDate(a) < FromDate(b) <==> Before(a, b)
    ensures FromDate(a) == FromDate(b) <==> a == b
  {
    if Before(a, b) {
      EarlierCountsLess(a, b);
    } else if Before(b, a) {
      EarlierCountsLess(b, a);
    }
  }

  lemma RangeEnds()
    ensures RealDate(MIN_DATE) && FromDate(MIN_DATE) == -0x8000_0000
    ensures RealDate(MAX_DATE) && FromDate(MAX_DATE) == 0x7fff_ffff
  {
    hide FromDate;
    FromDateIsOffset(MIN_DATE);
    FromDateIsOffset(MAX_DATE);
  }

  /** The dates accepted are exactly the calendar's dates whose day number fits 32 bits. */
  lemma ValidExactly(d: Date)
    ensures IsValid(d) <==> RealDate(d) && -0x8000_0000 <= FromDate(d) < 0x8000_0000
  {
    if RealDate(d) {
      RangeEnds();
      hide FromDate;
      DayNumbersOrder(d, MIN_DATE);
      DayNumbersOrder(d, MAX_DATE);
    }
  }

  // ---------------------------------------------------------------- day numbers to dates

  /** Bring a day number into one 400-year cycle and find its year there. */
  method ExtractYearOffset(d: int) returns (n: int, year: int, offset: nat)
    ensures offset < 400 && CumulativeYearDays(offset) <= n < CumulativeYearDays(offset + 1)
    ensures exists k: int :: n == d - 146097 * k && year == 1970 + 400 * k + offset
  {
    n, year := d, EPOCH_YEAR;
    ghost var k := 0;
    while n < 0
      invariant n == d - 146097 * k && year == 1970 + 400 * k
      invariant d >= 0 ==> n == d
      invariant n >= 0 ==> n < 146097 || d >= 0
      decreases -n
    {
      n, year, k := n + DAYS_PER_YEAR_INTERVAL, year - YEAR_INTERVAL, k - 1;
    }
    while n >= DAYS_PER_YEAR_INTERVAL
      invariant n == d - 146097 * k && year == 1970 + 400 * k && n >= 0
    {
      n, year, k := n - DAYS_PER_YEAR_INTERVAL, year + YEAR_INTERVAL, k + 1;
    }
    offset := n / 365;
    NotBeyond(n);
    while n < CumulativeYearDays(offset)
      invariant offset <= 400 && n < CumulativeYearDays(offset + 1)
      invariant n == d - 146097 * k && year == 1970 + 400 * k && 0 <= n < 146097
    {
      offset := offset - 1;
    }
    CycleEnds();
    year := year + offset;
    assert n == d - 146097 * k && year == 1970 + 400 * k + offset;
  }

  /** Assuming 365 days for every year finds a year that is not too early. */
  lemma NotBeyond(n: int)
    requires 0 <= n < 146097
    ensures n / 365 <= 400 && n < CumulativeYearDays(n / 365 + 1)
  {
    TableIsYearStart(n / 365 + 1);
    LeapsGrow(1969, 1970 + n / 365);
  }

  lemma {:induction false} LeapsGrow(y: int, z: int)
    requires y <= z
    ensures LeapsTo(y) <= LeapsTo(z)
    decreases z - y
  {
    if y < z {
      hide LeapsTo, IsLeapYear;
      LeapsGrow(y, z - 1);
      LeapsStep(z);
    }
  }

  lemma CycleEnds()
    ensures CumulativeYearDays(400) == 146097
  {
    TableIsYearStart(400);
  }

  /** Break a day number into its date: the only date of the calendar with that number. */
  method Convert(d: int) returns (date: Date)
    ensures RealDate(date) && FromDate(date) == d
    ensures forall e: Date | RealDate(e) && FromDate(e) == d :: e == date
    ensures -0x8000_0000 <= d < 0x8000_0000 ==> IsValid(date)
  {
    hide FromDate, IsLeapYear, IsValid, YearStart;
    var n, year, offset := ExtractYearOffset(d);
    var day := n - CumulativeYearDays(offset);
    var leap := CumulativeYearDays(offset + 1) - CumulativeYearDays(offset) == 366;
    ghost var k: int :| n == d - 146097 * k && year == 1970 + 400 * k + offset;
    LeapRepeats(1970 + offset, k);
    MonthTables(leap, 12);
    var month := MonthOfDay(leap, day, 1);
    MonthTables(leap, month);
    date := Date(year, month, day - Cumulative(leap, month - 1) + 1);
    FromDateIsOffset(date);
    TableIsYearStart(offset);
    YearStartCycle(1970 + offset, k);
    ValidExactly(date);
    forall e: Date | RealDate(e) && FromDate(e) == d ensures e == date {
      DayNumbersOrder(e, date);
    }
  }

  lemma LeapRepeats(y: int, k: int)
    ensures IsLeapYear(y + 400 * k) == IsLeapYear(y)
  {
    DivideBy4(y + 400 * k, y / 4 + 100 * k, y % 4);
    DivideBy100(y + 400 * k, y / 100 + 4 * k, y % 100);
    DivideBy400(y + 400 * k, y / 400 + k, y % 400);
  }

  // ---------------------------------------------------------------- timestamps

  const MICROS_PER_SEC: int := 1_000_000
  const MICROS_PER_MINUTE: int := 60_000_000
  const MICROS_PER_HOUR: int := 3_600_000_000
  const MICROS_PER_DAY: int := 86_400_000_000

  /** Division that truncates toward zero. */
  function Truncated(a: int, b: int): int
    requires b > 0
  {
    if a >= 0 then a / b else -((-a) / b)
  }

  /** The last day whose midnight is a timestamp, and the last microsecond of that day which is one. */
  const LAST_DAY: int := 106_751_991
  const LAST_TIME: int := 14_454_775_807

  /** The day a timestamp falls on: the largest whole day not after it, before the epoch too. */
  function GetDate(timestamp: Int64): (day: int)
    ensures day * MICROS_PER_DAY <= timestamp < (day + 1) * MICROS_PER_DAY
    ensures -LAST_DAY - 1 <= day <= LAST_DAY
  {
    var before := if timestamp < 0 then 1 else 0;
    Truncated(timestamp + before, MICROS_PER_DAY) - before
  }

  /** Midnight of a day, unless the product leaves 64 bits. */
  function FromDatetime(day: int): (midnight: Option<Int64>)
    ensures midnight.Some? <==> -LAST_DAY <= day <= LAST_DAY
  {
    var product := day * MICROS_PER_DAY;
    if FitsInt64(product) then Some(product) else None
  }

  /** The microseconds into a timestamp's day, unless that day's midnight leaves 64 bits. */
  function GetTime(timestamp: Int64): (time: Option<int>)
    ensures time.Some? <==> timestamp >= -LAST_DAY * MICROS_PER_DAY
    ensures time.Some? ==>
              0 <= time.value < MICROS_PER_DAY && GetDate(timestamp) * MICROS_PER_DAY + time.value == timestamp
  {
    match FromDatetime(GetDate(timestamp))
    case None => None
    case Some(midnight) => Some(timestamp - midnight)
  }

  /** A day and a time of day as one timestamp, unless a product or a sum leaves 64 bits. */
  function AtTime(day: int, time: int): Option<Int64> {
    match FromDatetime(day)
    case None => None
    case Some(midnight) => if FitsInt64(midnight + time) then Some(midnight + time) else None
  }

  /** The days and times of day that make a timestamp. */
  predicate InRange(day: int, time: int) {
    -LAST_DAY <= day < LAST_DAY || (day == LAST_DAY && time <= LAST_TIME)
  }

  /** A day and a time of day make a timestamp exactly within the range, and splitting it gives them
      back. */
  lemma SplitUndoesJoin(day: int, time: int)
    requires 0 <= time < MICROS_PER_DAY
    ensures AtTime(day, time).Some? <==> InRange(day, time)
    ensures var t := AtTime(day, time); t.Some? ==> GetDate(t.value) == day && GetTime(t.value) == Some(time)
  {
  }

  /** A timestamp is what its day and time of day make, on all days but the first. */
  lemma JoinUndoesSplit(timestamp: Int64)
    ensures var time := GetTime(timestamp);
            (time.Some? && AtTime(GetDate(timestamp), time.value) == Some(timestamp)) <==>
            timestamp >= -LAST_DAY * MICROS_PER_DAY
  {
  }

  /** The earliest timestamp cannot be split. */
  lemma EarliestHasNoTime()
    ensures GetTime(-0x8000_0000_0000_0000).None?
  {
  }

  /** Break the time of day into fields, each within its range, that add up to it. */
  method ConvertTime(time: int) returns (hour: int, minute: int, second: int, micros: int)
    requires 0 <= time < MICROS_PER_DAY
    ensures 0 <= hour < 24 && 0 <= minute < 60 && 0 <= second < 60 && 0 <= micros < MICROS_PER_SEC
    ensures hour * MICROS_PER_HOUR + minute * MICROS_PER_MINUTE + second * MICROS_PER_SEC + micros == time
  {
    var left := time;
    hour := left / MICROS_PER_HOUR;
    left := left - hour * MICROS_PER_HOUR;
    minute := left / MICROS_PER_MINUTE;
    left := left - minute * MICROS_PER_MINUTE;
    second := left / MICROS_PER_SEC;
    micros := left - second * MICROS_PER_SEC;
  }
}
