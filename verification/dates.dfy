/** Transaction dates.

    The normaliser parses each provider date with Go's
    `time.Parse("2006-01-02", s)` and stores `UnixNano() / int64(time.Millisecond)`.
    The layout accepts exactly an RFC 3339 `full-date` (section 5.6 of RFC 3339:
    four-digit year, two-digit month, two-digit day, separated by '-') whose
    month lies in 01-12 and whose day respects the month lengths and leap-year
    rule of section 5.7 of RFC 3339. The parsed time is UTC midnight.
 */
module Dates {
  import opened Base

  datatype Date = Date(year: int, month: int, day: int)

  predicate IsLeapYear(y: int)
  {
    y % 4 == 0 && (y % 100 != 0 || y % 400 == 0)
  }

  function DaysInMonth(y: int, m: int): int
    requires 1 <= m <= 12
  {
    if m == 2 then (if IsLeapYear(y) then 29 else 28)
    else if m == 4 || m == 6 || m == 9 || m == 11 then 30
    else 31
  }

  /** A calendar date the layout can denote. */
  predicate Valid(d: Date)
  {
    0 <= d.year <= 9999 && 1 <= d.month <= 12 && 1 <= d.day <= DaysInMonth(d.year, d.month)
  }

  predicate IsDigit(c: char)
  {
    '0' <= c <= '9'
  }

  function DigitVal(c: char): int
    requires IsDigit(c)
  {
    c as int - '0' as int
  }

  function Digit(n: int): (c: char)
    requires 0 <= n < 10
    ensures IsDigit(c) && DigitVal(c) == n
  {
    ('0' as int + n) as char
  }

  /** The text has the shape DDDD-DD-DD. */
  predicate Shaped(s: string)
  {
    && |s| == 10
    && s[4] == '-' && s[7] == '-'
    && IsDigit(s[0]) && IsDigit(s[1]) && IsDigit(s[2]) && IsDigit(s[3])
    && IsDigit(s[5]) && IsDigit(s[6]) && IsDigit(s[8]) && IsDigit(s[9])
  }

  /** time.Parse("2006-01-02", s): exactly four year digits, two month digits
      in 01-12 and two day digits within the month; no further text. */
  function Parse(s: string): (r: Result<Date>)
    ensures r.Err? ==> r.error == DateParseError(s)
    ensures r.Ok? ==> Valid(r.value)
  {
    if !Shaped(s) then Err(DateParseError(s))
    else
      var y := DigitVal(s[0]) * 1000 + DigitVal(s[1]) * 100 + DigitVal(s[2]) * 10 + DigitVal(s[3]);
      var m := DigitVal(s[5]) * 10 + DigitVal(s[6]);
      var d := DigitVal(s[8]) * 10 + DigitVal(s[9]);
      if m < 1 || 12 < m then Err(DateParseError(s))
      else if d < 1 || DaysInMonth(y, m) < d then Err(DateParseError(s))
      else Ok(Date(y, m, d))
  }

  /** The text the layout prints for a date. */
  function Format(d: Date): (s: string)
    requires Valid(d)
    ensures |s| == 10
  {
    [ Digit(d.year / 1000), Digit(d.year / 100 % 10), Digit(d.year / 10 % 10), Digit(d.year % 10), '-',
      Digit(d.month / 10), Digit(d.month % 10), '-',
      Digit(d.day / 10), Digit(d.day % 10) ]
  }

  lemma SplitFour(y: int)
    requires 0 <= y <= 9999
    ensures 0 <= y / 1000 < 10
    ensures y == (y / 1000) * 1000 + (y / 100 % 10) * 100 + (y / 10 % 10) * 10 + y % 10
  {
    assert y == (y / 10) * 10 + y % 10;
    assert y / 10 == (y / 100) * 10 + (y / 10) % 10;
    assert y / 100 == (y / 1000) * 10 + (y / 100) % 10;
  }

  lemma JoinFour(a: int, b: int, c: int, e: int)
    requires 0 <= a < 10 && 0 <= b < 10 && 0 <= c < 10 && 0 <= e < 10
    ensures var y := a * 1000 + b * 100 + c * 10 + e;
      y / 1000 == a && y / 100 % 10 == b && y / 10 % 10 == c && y % 10 == e
  {
    var y := a * 1000 + b * 100 + c * 10 + e;
    assert y == (a * 100 + b * 10 + c) * 10 + e;
    assert y / 10 == a * 100 + b * 10 + c;
    assert y / 10 == (a * 10 + b) * 10 + c;
    assert y / 100 == a * 10 + b;
  }

  /** Every valid date survives printing and parsing. */
  lemma ParseFormat(d: Date)
    requires Valid(d)
    ensures Parse(Format(d)) == Ok(d)
  {
    var s := Format(d);
    SplitFour(d.year);
    assert Shaped(s);
    assert DigitVal(s[0]) * 1000 + DigitVal(s[1]) * 100 + DigitVal(s[2]) * 10 + DigitVal(s[3]) == d.year;
    assert DigitVal(s[5]) * 10 + DigitVal(s[6]) == d.month;
    assert DigitVal(s[8]) * 10 + DigitVal(s[9]) == d.day;
  }

  /** Parsing accepts only valid dates, and only their canonical text. */
  lemma FormatParse(s: string)
    requires Parse(s).Ok?
    ensures Valid(Parse(s).value)
    ensures Format(Parse(s).value) == s
  {
    var d := Parse(s).value;
    JoinFour(DigitVal(s[0]), DigitVal(s[1]), DigitVal(s[2]), DigitVal(s[3]));
    var t := Format(d);
    assert t[0] == s[0] && t[1] == s[1] && t[2] == s[2] && t[3] == s[3];
    assert t[5] == s[5] && t[6] == s[6] && t[8] == s[8] && t[9] == s[9];
    assert t == s;
  }

  /** Days from 1970-01-01 to 1 March of year `y` (negative before the
      epoch), counted era by era of 400 years. */
  function MarchFirst(y: int): int
    requires y >= -1
  {
    var era := y / 400;
    var yoe := y - era * 400;
    era * 146097 + yoe * 365 + yoe / 4 - yoe / 100 - 719468
  }

  /** Days from 1 March to the given month and day of a year taken to start
      on 1 March (January and February belong to the previous such year). */
  function DayOfMarchYear(month: int, day: int): int
    requires 1 <= month <= 12
  {
    var mp := if month > 2 then month - 3 else month + 9;
    (153 * mp + 2) / 5 + day - 1
  }

  /** Days from 1970-01-01 to `d` in the proleptic Gregorian calendar. */
  function DaysFromCivil(d: Date): int
    requires Valid(d)
  {
    var y := if d.month <= 2 then d.year - 1 else d.year;
    MarchFirst(y) + DayOfMarchYear(d.month, d.day)
  }

  /** The calendar day after `d`. */
  function NextDay(d: Date): Date
    requires Valid(d)
  {
    if d.day < DaysInMonth(d.year, d.month) then Date(d.year, d.month, d.day + 1)
    else if d.month < 12 then Date(d.year, d.month + 1, 1)
    else Date(d.year + 1, 1, 1)
  }

  /** Euclidean remainder by a positive divisor is fixed by any quotient
      that leaves a remainder in range. */
  lemma ModOf(a: int, n: int, q: int, r: int)
    requires n > 0 && 0 <= r < n && a == n * q + r
    ensures a % n == r
  {
    var q', r' := a / n, a % n;
    assert a == n * q' + r';
    assert n * q == n * (q - q') + n * q';
    assert n * q' == n * (q' - q) + n * q;
    if q > q' {
      AtLeastOnce(n, q - q');
    } else if q < q' {
      AtLeastOnce(n, q' - q);
    }
  }

  lemma AtLeastOnce(n: int, k: int)
    requires n > 0 && k >= 1
    ensures n * k >= n
    decreases k
  {
    if k > 1 {
      AtLeastOnce(n, k - 1);
      assert n * k == n * (k - 1) + n;
    }
  }

  /** Shifting by whole 400-year eras keeps the remainders the leap-year rule reads. */
  lemma EraShift(era: int, x: int)
    requires 0 <= x <= 400
    ensures (era * 400 + x) % 4 == x % 4
    ensures (era * 400 + x) % 100 == x % 100
    ensures (era * 400 + x) % 400 == x % 400
  {
    ModOf(era * 400 + x, 4, era * 100 + x / 4, x % 4);
    ModOf(era * 400 + x, 100, era * 4 + x / 100, x % 100);
    ModOf(era * 400 + x, 400, era + x / 400, x % 400);
  }

  /** Inside one era, year k+1 adds a day exactly when it is a leap year. */
  lemma LeapStepInEra(k: int)
    requires 0 <= k < 399
    ensures (k + 1) / 4 - k / 4 - ((k + 1) / 100 - k / 100)
            == (if (k + 1) % 4 == 0 && (k + 1) % 100 != 0 then 1 else 0)
  {
    var q4, r4 := k / 4, k % 4;
    assert k == 4 * q4 + r4;
    if r4 == 3 {
      assert k + 1 == 4 * (q4 + 1);
    } else {
      assert k + 1 == 4 * q4 + (r4 + 1);
    }
    var q100, r100 := k / 100, k % 100;
    assert k == 100 * q100 + r100;
    if r100 == 99 {
      assert k + 1 == 100 * (q100 + 1);
    } else {
      assert k + 1 == 100 * q100 + (r100 + 1);
    }
  }

  /** A March-based year is 366 days long exactly when the February it ends
      with has a 29th. */
  lemma MarchFirstStep(y: int)
    requires y >= -1
    ensures MarchFirst(y + 1) == MarchFirst(y) + 365 + (if IsLeapYear(y + 1) then 1 else 0)
  {
    var era := y / 400;
    var yoe := y - era * 400;
    if yoe == 399 {
      assert y + 1 == (era + 1) * 400 + 0;
      assert (y + 1) / 400 == era + 1;
      EraShift(era + 1, 0);
      assert IsLeapYear(y + 1);
    } else {
      assert y + 1 == era * 400 + (yoe + 1);
      assert (y + 1) / 400 == era;
      EraShift(era, yoe + 1);
      LeapStepInEra(yoe);
      assert IsLeapYear(y + 1) <==> (yoe + 1) % 4 == 0 && (yoe + 1) % 100 != 0;
    }
  }

  /** The last day of a month other than February or December is followed
      by the first of the next month, one March-year day later. */
  lemma MonthEndStep(y: int, m: int)
    requires 1 <= m < 12 && m != 2
    ensures DayOfMarchYear(m + 1, 1) == DayOfMarchYear(m, DaysInMonth(y, m)) + 1
  {
  }

  /** The last day of February is the last day of its March-based year. */
  lemma FebruaryEndStep(y: int)
    requires y >= 0
    ensures DayOfMarchYear(2, DaysInMonth(y, 2)) == 364 + (if IsLeapYear(y) then 1 else 0)
    ensures DayOfMarchYear(3, 1) == 0
  {
  }

  /** The day count advances by exactly one from each day to the next: with
      `DaysFromCivil(1970-01-01) == 0` this pins the count down completely. */
  lemma NextDayCounts(d: Date)
    requires Valid(d) && Valid(NextDay(d))
    ensures DaysFromCivil(NextDay(d)) == DaysFromCivil(d) + 1
  {
    if d.day < DaysInMonth(d.year, d.month) {
    } else if d.month == 2 {
      MarchFirstStep(d.year - 1);
      FebruaryEndStep(d.year);
    } else if d.month < 12 {
      MonthEndStep(d.year, d.month);
    } else {
      assert DayOfMarchYear(12, 31) + 1 == DayOfMarchYear(1, 1);
    }
  }

  lemma EpochIsDayZero()
    ensures DaysFromCivil(Date(1970, 1, 1)) == 0
  {
  }

  /** Go's UnixNano is meaningful (fits int64) only between the years 1678 and
      2262; over years 1678-2261 the day count stays within these bounds. */
  lemma DaysInInt64Range(d: Date)
    requires Valid(d) && 1678 <= d.year <= 2261
    ensures -106650 <= DaysFromCivil(d) <= 106650
  {
    var y := if d.month <= 2 then d.year - 1 else d.year;
    assert 1677 <= y <= 2261;
    if y < 2000 {
      assert y / 400 == 4;
    } else {
      assert y / 400 == 5;
    }
  }

  const MinInt64: int := -0x8000_0000_0000_0000
  const TwoTo64: int := 0x1_0000_0000_0000_0000
  const NanosPerDay: int := 86_400 * 1_000_000_000
  const NanosPerMilli: int := 1_000_000
  const MillisPerDay: int := 86_400_000

  /** Two's-complement wrap of an integer into int64, as Go's int64 arithmetic does. */
  function WrapInt64(x: int): (r: int)
    ensures MinInt64 <= r < MinInt64 + TwoTo64
    ensures (r - x) % TwoTo64 == 0
  {
    (x - MinInt64) % TwoTo64 + MinInt64
  }

  /** Go's integer division, which truncates toward zero. */
  function QuoTrunc(a: int, b: int): int
    requires b > 0
  {
    if a >= 0 then a / b else -((-a) / b)
  }

  /** `parsedDate.UnixNano() / int64(time.Millisecond)` for UTC midnight of `d`,
      with UnixNano's int64 wrap-around written out. */
  function UnixMillis(d: Date): (r: int)
    requires Valid(d)
    ensures -9_223_372_036_854 <= r <= 9_223_372_036_854
  {
    QuoTrunc(WrapInt64(DaysFromCivil(d) * NanosPerDay), NanosPerMilli)
  }

  /** Within the years UnixNano can represent, the stored value is exactly the
      day count times 86 400 000 milliseconds. */
  lemma UnixMillisExact(d: Date)
    requires Valid(d) && 1678 <= d.year <= 2261
    ensures UnixMillis(d) == DaysFromCivil(d) * MillisPerDay
  {
    var days := DaysFromCivil(d);
    DaysInInt64Range(d);
    var nanos := days * NanosPerDay;
    assert MinInt64 <= nanos < MinInt64 + TwoTo64;
    assert WrapInt64(nanos) == nanos;
    assert nanos == (days * MillisPerDay) * NanosPerMilli;
    if days >= 0 {
      assert nanos / NanosPerMilli == days * MillisPerDay;
    } else {
      assert (-nanos) == (-days * MillisPerDay) * NanosPerMilli;
      assert (-nanos) / NanosPerMilli == -days * MillisPerDay;
    }
  }
}
