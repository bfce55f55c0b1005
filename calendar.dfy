/** The date part: the Gregorian leap-year rule, the length of the year, and the
    1-based ordinal day of the year obtained as the whole number of days between
    local midnight of "January 0" (December 31 of the previous year) and now.

    Time is modelled as ECMAScript does it: a day number from `DayFromYear` plus the
    days before the month, times 86400000 ms, plus the milliseconds into the day.
    The server clock has a fixed offset from UTC, so local and UTC milliseconds
    differ by a constant. */
module Calendar {

  const MsPerDay: int := 86400000

  /** JavaScript's `%` for a positive divisor: the remainder takes the sign of the dividend. */
  function JsRem(a: int, b: int): (r: int)
    requires b > 0
    ensures -b < r < b
    ensures (r == 0) == (a % b == 0)
    ensures a >= 0 ==> r == a % b
  {
    NegatedRemainder(a, b);
    if a >= 0 then a % b else -((-a) % b)
  }

  /** `(year % 4 === 0 && year % 100 !== 0) || year % 400 === 0` */
  predicate IsLeapYear(year: int) {
    (JsRem(year, 4) == 0 && JsRem(year, 100) != 0) || JsRem(year, 400) == 0
  }

  /** `isLeapYear ? 366 : 365` */
  function TotalDays(year: int): (n: int)
    ensures n == 366 <==> IsLeapYear(year)
    ensures n == 365 <==> !IsLeapYear(year)
  {
    if IsLeapYear(year) then 366 else 365
  }

  /** The leap-year test agrees with the divisibility rule, for negative years too. */
  lemma LeapYearRule(year: int)
    ensures IsLeapYear(year) <==> (year % 4 == 0 && year % 100 != 0) || year % 400 == 0
  {
  }

  lemma LeapYearExamples()
    ensures IsLeapYear(2000) && IsLeapYear(2024)
    ensures !IsLeapYear(1900) && !IsLeapYear(2023)
    ensures TotalDays(2024) == 366 && TotalDays(2023) == 365
  {
  }

  /** Length of month `month` (1 = January) of `year`; February has 29 days in a leap year. */
  function MonthLength(year: int, month: int): (n: int)
    requires 1 <= month <= 12
    ensures 28 <= n <= 31
    ensures month == 2 ==> (n == 29 <==> IsLeapYear(year))
  {
    if month == 2 then (if IsLeapYear(year) then 29 else 28)
    else if month == 4 || month == 6 || month == 9 || month == 11 then 30
    else 31
  }

  /** Days of `year` before the first of `month`, as the running sum of the month lengths. */
  function DaysBeforeMonth(year: int, month: int): (n: int)
    requires 1 <= month <= 13
    ensures 28 * (month - 1) <= n <= 31 * (month - 1)
  {
    if month == 1 then 0 else DaysBeforeMonth(year, month - 1) + MonthLength(year, month - 1)
  }

  /** The twelve months add up to the length of the year. */
  lemma {:induction false} TwelveMonthsMakeAYear(year: int)
    ensures DaysBeforeMonth(year, 13) == TotalDays(year)
  {
    var feb := MonthLength(year, 2);
    assert DaysBeforeMonth(year, 3) == 31 + feb;
    assert DaysBeforeMonth(year, 5) == 31 + feb + 31 + 30;
    assert DaysBeforeMonth(year, 7) == 31 + feb + 31 + 30 + 31 + 30;
    assert DaysBeforeMonth(year, 9) == 31 + feb + 184;
    assert DaysBeforeMonth(year, 11) == 31 + feb + 245;
    assert DaysBeforeMonth(year, 13) == 31 + feb + 306;
  }

  /** A later month starts no earlier than the end of an earlier one. */
  lemma {:induction false} MonthsInOrder(year: int, m1: int, m2: int)
    requires 1 <= m1 < m2 <= 13
    ensures DaysBeforeMonth(year, m1) + MonthLength(year, m1) <= DaysBeforeMonth(year, m2)
  {
    if m2 > m1 + 1 {
      MonthsInOrder(year, m1, m2 - 1);
    }
  }

  predicate ValidDate(year: int, month: int, day: int) {
    1 <= month <= 12 && 1 <= day <= MonthLength(year, month)
  }

  /** The ordinal date: 1 on January 1, counting every day of the year. */
  function Ordinal(year: int, month: int, day: int): (n: int)
    requires ValidDate(year, month, day)
    ensures 1 <= n <= TotalDays(year)
  {
    MonthsInOrder(year, month, 13);
    TwelveMonthsMakeAYear(year);
    DaysBeforeMonth(year, month) + day
  }

  /** Wall-clock time on the server after the time-zone conversion. */
  datatype LocalTime = LocalTime(year: int, month: int, day: int, msOfDay: int)

  predicate ValidTime(t: LocalTime) {
    ValidDate(t.year, t.month, t.day) && 0 <= t.msOfDay < MsPerDay
  }

  /** ECMAScript `DayFromYear`: the day number of January 1 of `year`, with 1970-01-01 as day 0.
      Dafny's `/` by a positive divisor rounds down, as `floor` does there. */
  function DayFromYear(year: int): int {
    365 * (year - 1970) + (year - 1969) / 4 - (year - 1901) / 100 + (year - 1601) / 400
  }

  /** ECMAScript `MakeDay(year, monthIndex, date)` for a month index in 0..11; `date` may be
      0, which names the last day of the previous month. The `Date` constructor reaches it
      with the year unchanged for a year outside 0..99. */
  function MakeDay(year: int, monthIndex: int, date: int): int
    requires 0 <= monthIndex <= 11
  {
    DayFromYear(year) + DaysBeforeMonth(year, monthIndex + 1) + date - 1
  }

  /** Local milliseconds of `new Date(year, monthIndex, date)` plus `ms` into that day, for a
      year outside 0..99 (JavaScript reads those as 1900 + year). */
  function LocalMs(year: int, monthIndex: int, date: int, ms: int): int
    requires 0 <= monthIndex <= 11
  {
    MakeDay(year, monthIndex, date) * MsPerDay + ms
  }

  /** `getTime()` of a local time on a clock `offsetMs` ahead of UTC. */
  function TimeValue(localMs: int, offsetMs: int): int {
    localMs - offsetMs
  }

  /** `Math.floor((now.getTime() - new Date(year, 0, 0).getTime()) / 86400000)` for a year
      outside 0..99 (JavaScript reads those as 1900 + year in `new Date`). */
  function DayOfYear(now: LocalTime, offsetMs: int): int
    requires ValidTime(now)
  {
    var nowMs := TimeValue(LocalMs(now.year, now.month - 1, now.day, now.msOfDay), offsetMs);
    var startMs := TimeValue(LocalMs(now.year, 0, 0, 0), offsetMs);
    (nowMs - startMs) / MsPerDay
  }

  /** `totalDays - dayOfYear` */
  function DaysLeft(now: LocalTime, offsetMs: int): int
    requires ValidTime(now)
  {
    TotalDays(now.year) - DayOfYear(now, offsetMs)
  }

  /** Whole days plus a part of a day, divided by the day length, leave the whole days. */
  lemma FloorOfDays(days: int, ms: int)
    requires 0 <= ms < MsPerDay
    ensures (days * MsPerDay + ms) / MsPerDay == days
  {
  }

  /** The floor of the millisecond difference is the ordinal date, whatever the clock offset. */
  lemma {:induction false} DayOfYearIsOrdinal(now: LocalTime, offsetMs: int)
    requires ValidTime(now)
    ensures DayOfYear(now, offsetMs) == Ordinal(now.year, now.month, now.day)
    ensures 1 <= DayOfYear(now, offsetMs) <= TotalDays(now.year)
  {
    var n := Ordinal(now.year, now.month, now.day);
    var nowMs := TimeValue(LocalMs(now.year, now.month - 1, now.day, now.msOfDay), offsetMs);
    var startMs := TimeValue(LocalMs(now.year, 0, 0, 0), offsetMs);
    assert nowMs - startMs == n * MsPerDay + now.msOfDay;
    FloorOfDays(n, now.msOfDay);
  }

  /** January 1 is day 1 and December 31 is the last day, at any time of day. */
  lemma {:induction false} FirstAndLastDay(year: int, ms: int, offsetMs: int)
    requires 0 <= ms < MsPerDay
    ensures DayOfYear(LocalTime(year, 1, 1, ms), offsetMs) == 1
    ensures DayOfYear(LocalTime(year, 12, 31, ms), offsetMs) == TotalDays(year)
    ensures DaysLeft(LocalTime(year, 12, 31, ms), offsetMs) == 0
  {
    DayOfYearIsOrdinal(LocalTime(year, 1, 1, ms), offsetMs);
    DayOfYearIsOrdinal(LocalTime(year, 12, 31, ms), offsetMs);
    TwelveMonthsMakeAYear(year);
  }

  /** Only December 31 has the last ordinal. */
  lemma {:induction false} LastOrdinalIsDecember31(year: int, month: int, day: int)
    requires ValidDate(year, month, day)
    ensures Ordinal(year, month, day) == TotalDays(year) <==> month == 12 && day == 31
  {
    TwelveMonthsMakeAYear(year);
    if month < 12 {
      MonthsInOrder(year, month, 12);
    }
  }

  /** `daysLeft` lies in [0, totalDays - 1] and is 0 exactly on the last day of the year. */
  lemma {:induction false} DaysLeftRange(now: LocalTime, offsetMs: int)
    requires ValidTime(now)
    ensures 0 <= DaysLeft(now, offsetMs) <= TotalDays(now.year) - 1
    ensures DaysLeft(now, offsetMs) == 0 <==> now.month == 12 && now.day == 31
  {
    DayOfYearIsOrdinal(now, offsetMs);
    LastOrdinalIsDecember31(now.year, now.month, now.day);
  }

  /** Two dates of one year with the same ordinal are the same date. */
  lemma {:induction false} OrdinalInjective(year: int, m1: int, d1: int, m2: int, d2: int)
    requires ValidDate(year, m1, d1) && ValidDate(year, m2, d2)
    requires Ordinal(year, m1, d1) == Ordinal(year, m2, d2)
    ensures m1 == m2 && d1 == d2
  {
    if m1 < m2 {
      MonthsInOrder(year, m1, m2);
    } else if m2 < m1 {
      MonthsInOrder(year, m2, m1);
    }
  }

  /** The month holding ordinal `n`, searching forward from `month`. */
  function MonthOfOrdinal(year: int, n: int, month: int): (m: int)
    requires 1 <= month <= 12
    requires DaysBeforeMonth(year, month) < n <= TotalDays(year)
    ensures month <= m <= 12
    ensures DaysBeforeMonth(year, m) < n <= DaysBeforeMonth(year, m) + MonthLength(year, m)
    decreases 12 - month
  {
    if month == 12 || n <= DaysBeforeMonth(year, month + 1) then
      TwelveMonthsMakeAYear(year);
      month
    else
      MonthOfOrdinal(year, n, month + 1)
  }

  /** The date of ordinal `n` in `year`: the inverse of `Ordinal`. */
  function DateOfOrdinal(year: int, n: int): (md: (int, int))
    requires 1 <= n <= TotalDays(year)
    ensures ValidDate(year, md.0, md.1)
    ensures Ordinal(year, md.0, md.1) == n
  {
    var m := MonthOfOrdinal(year, n, 1);
    (m, n - DaysBeforeMonth(year, m))
  }

  /** Every valid date is recovered from its ordinal, so each day 1..TotalDays(year)
      names exactly one date. */
  lemma {:induction false} OrdinalRoundTrip(year: int, month: int, day: int)
    requires ValidDate(year, month, day)
    ensures DateOfOrdinal(year, Ordinal(year, month, day)) == (month, day)
  {
    var md := DateOfOrdinal(year, Ordinal(year, month, day));
    OrdinalInjective(year, md.0, md.1, month, day);
  }

  /** The time line advances by exactly TotalDays(year) days from one January 1 to the next,
      so the leap rule and the day numbering agree. */
  lemma {:induction false} YearLengthOnTimeline(year: int)
    ensures DayFromYear(year + 1) - DayFromYear(year) == TotalDays(year)
  {
    FloorStep(year - 1969, 4);
    FloorStep(year - 1901, 100);
    FloorStep(year - 1601, 400);
    ShiftedRemainder(year, 4, 492);
    ShiftedRemainder(year, 100, 19);
    ShiftedRemainder(year, 400, 4);
  }

  /** The day after December 31 of `year` is January 1 of `year + 1`. */
  lemma {:induction false} NewYear(year: int)
    ensures MakeDay(year, 11, 31) + 1 == MakeDay(year + 1, 0, 1)
  {
    YearLengthOnTimeline(year);
    TwelveMonthsMakeAYear(year);
  }

  /** Quotient and remainder are determined by `a == b * q + r` with `0 <= r < b`. */
  lemma DivModUnique(a: int, b: int, q: int, r: int)
    requires b > 0 && a == b * q + r && 0 <= r < b
    ensures a / b == q && a % b == r
  {
    var q0, r0 := a / b, a % b;
    var k := q - q0;
    assert b * q - b * q0 == r0 - r;
    assert b * k == r0 - r;
    if k >= 1 {
      PositiveMultiple(b, k);
    } else if k <= -1 {
      PositiveMultiple(b, -k);
    }
  }

  /** `-a` is a multiple of `b` exactly when `a` is. */
  lemma NegatedRemainder(a: int, b: int)
    requires b > 0
    ensures ((-a) % b == 0) == (a % b == 0)
  {
    var q := a / b;
    if a % b == 0 {
      DivModUnique(-a, b, -q, 0);
    } else {
      DivModUnique(-a, b, -q - 1, b - a % b);
    }
  }

  lemma PositiveMultiple(b: int, k: int)
    requires b > 0 && k >= 1
    ensures b * k >= b
  {
    assert b * k == b * (k - 1) + b;
  }

  lemma FloorStep(a: int, b: int)
    requires b > 0
    ensures (a + 1) / b - a / b == if (a + 1) % b == 0 then 1 else 0
  {
    var q, r := a / b, a % b;
    if r == b - 1 {
      DivModUnique(a + 1, b, q + 1, 0);
    } else {
      DivModUnique(a + 1, b, q, r + 1);
    }
  }

  lemma ShiftedRemainder(a: int, b: int, k: int)
    requires b > 0
    ensures (a - b * k) % b == a % b
  {
    var q, r := a / b, a % b;
    DivModUnique(a - b * k, b, q - k, r);
  }
}
