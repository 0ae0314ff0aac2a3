/** Calendar arithmetic behind the controllers' `new Date(year, month - 1, 1)` /
    `new Date(year, month, 0, 23, 59, 59, 999)` ranges. An instant is a date of
    the local calendar plus the milliseconds since its midnight; time zones are
    not modelled (local time is taken to be UTC). */
module Calendar {
  import opened Common

  const MS_PER_DAY: int := 86400000

  datatype Instant = Instant(year: int, month: int, day: int, ms: int)

  predicate IsLeapYear(y: int) {
    y % 4 == 0 && (y % 100 != 0 || y % 400 == 0)
  }

  function DaysInMonth(y: int, m: int): (n: int)
    requires 1 <= m <= 12
    ensures 28 <= n <= 31
  {
    if m == 2 then (if IsLeapYear(y) then 29 else 28)
    else if m == 4 || m == 6 || m == 9 || m == 11 then 30
    else 31
  }

  /** A real calendar instant: month 1..12, a day that exists in that month, ms within the day. */
  predicate ValidInstant(t: Instant) {
    1 <= t.month <= 12 && 1 <= t.day <= DaysInMonth(t.year, t.month) && 0 <= t.ms < MS_PER_DAY
  }

  function YearLength(y: int): int {
    if IsLeapYear(y) then 366 else 365
  }

  /** Days from a fixed origin to January 1 of year y (proleptic Gregorian calendar). */
  function DaysBeforeYear(y: int): int {
    365 * y + (y - 1) / 4 - (y - 1) / 100 + (y - 1) / 400
  }

  /** Days from January 1 of year y to day 1 of month m (meaningful for 1 <= m <= 12). */
  function DaysBeforeMonth(y: int, m: int): int {
    var leap := if IsLeapYear(y) && m > 2 then 1 else 0;
    leap + (if m <= 1 then 0 else if m == 2 then 31 else if m == 3 then 59
            else if m == 4 then 90 else if m == 5 then 120 else if m == 6 then 151
            else if m == 7 then 181 else if m == 8 then 212 else if m == 9 then 243
            else if m == 10 then 273 else if m == 11 then 304 else 334)
  }

  /** Days since 1970-01-01 of the date (y, m, d). */
  function EpochDay(y: int, m: int, d: int): int {
    DaysBeforeYear(y) + DaysBeforeMonth(y, m) + d - 1 - DaysBeforeYear(1970)
  }

  /** `date.getTime()`: milliseconds since 1970-01-01 00:00:00.000. */
  function EpochMs(t: Instant): int {
    EpochDay(t.year, t.month, t.day) * MS_PER_DAY + t.ms
  }

  /** Euclidean division has one quotient: n == k * q + r with 0 <= r < k fixes q. */
  lemma QuotientUnique(n: int, k: int, q: int, r: int)
    requires k > 0 && 0 <= r < k && n == k * q + r
    ensures n / k == q
  {
    var q0, r0 := n / k, n % k;
    assert n == k * q0 + r0 && 0 <= r0 < k;
    assert k * (q0 - q) == r - r0 by {
      assert k * (q0 - q) == k * q0 - k * q;
    }
    if q0 > q {
      MulMonotone(k, 1, q0 - q);
    } else if q0 < q {
      MulMonotone(k, q0 - q, -1);
    }
  }

  /** Stepping from y - 1 to y moves the quotient by k exactly when y is a multiple of k. */
  lemma DivStep(y: int, k: int)
    requires k > 0
    ensures y / k - (y - 1) / k == (if y % k == 0 then 1 else 0)
  {
    var q, r := y / k, y % k;
    assert y == k * q + r && 0 <= r < k;
    if r == 0 {
      assert y - 1 == k * (q - 1) + (k - 1) by {
        assert k * (q - 1) == k * q - k;
      }
      QuotientUnique(y - 1, k, q - 1, k - 1);
    } else {
      QuotientUnique(y - 1, k, q, r - 1);
    }
  }

  /** One year after January 1 of y comes January 1 of y + 1. */
  lemma YearStep(y: int)
    ensures DaysBeforeYear(y + 1) == DaysBeforeYear(y) + YearLength(y)
  {
    DivStep(y, 4);
    DivStep(y, 100);
    DivStep(y, 400);
  }

  lemma {:induction false} YearsAreOrdered(y1: int, y2: int)
    requires y1 < y2
    ensures DaysBeforeYear(y1) + YearLength(y1) <= DaysBeforeYear(y2)
    decreases y2 - y1
  {
    YearStep(y1);
    if y1 + 1 < y2 {
      YearsAreOrdered(y1 + 1, y2);
    }
  }

  /** A month ends no later than the next month of the same year starts, and December ends the year. */
  lemma MonthsAreOrdered(y: int, m1: int, m2: int)
    requires 1 <= m1 < m2 <= 12
    ensures DaysBeforeMonth(y, m1) + DaysInMonth(y, m1) <= DaysBeforeMonth(y, m2)
  {
  }

  lemma MonthWithinYear(y: int, m: int)
    requires 1 <= m <= 12
    ensures DaysBeforeMonth(y, m) + DaysInMonth(y, m) <= YearLength(y)
  {
  }

  /** Lexicographic order on (year, month, day, ms). */
  predicate Before(a: Instant, b: Instant) {
    || a.year < b.year
    || (a.year == b.year && a.month < b.month)
    || (a.year == b.year && a.month == b.month && a.day < b.day)
    || (a.year == b.year && a.month == b.month && a.day == b.day && a.ms < b.ms)
  }

  lemma BeforeMeansEarlier(a: Instant, b: Instant)
    requires ValidInstant(a) && ValidInstant(b) && Before(a, b)
    ensures EpochMs(a) < EpochMs(b)
  {
    if a.year < b.year {
      YearsAreOrdered(a.year, b.year);
      MonthWithinYear(a.year, a.month);
      assert EpochDay(a.year, a.month, a.day) < EpochDay(b.year, b.month, b.day);
    } else if a.month < b.month {
      MonthsAreOrdered(a.year, a.month, b.month);
      assert EpochDay(a.year, a.month, a.day) < EpochDay(b.year, b.month, b.day);
    } else if a.day < b.day {
      assert EpochDay(a.year, a.month, a.day) < EpochDay(b.year, b.month, b.day);
    }
  }

  /** On real instants, calendar order and time order agree: comparing dates the
      way Mongo does (by getTime()) is comparing them field by field. */
  lemma OrderAgreesWithTime(a: Instant, b: Instant)
    requires ValidInstant(a) && ValidInstant(b)
    ensures Before(a, b) <==> EpochMs(a) < EpochMs(b)
    ensures a == b <==> EpochMs(a) == EpochMs(b)
  {
    if Before(a, b) {
      BeforeMeansEarlier(a, b);
    } else if Before(b, a) {
      BeforeMeansEarlier(b, a);
    } else {
      assert a == b;
    }
  }

  /** `new Date(y, ...)` reads a year 0..99 as 1900..1999. */
  function JsYear(y: int): int {
    if 0 <= y <= 99 then 1900 + y else y
  }

  /** An inclusive [start, end] range of instants, as in `{ $gte: start, $lte: end }`. */
  datatype Range = Range(start: Instant, end: Instant)

  predicate InRange(t: Instant, r: Range) {
    EpochMs(r.start) <= EpochMs(t) <= EpochMs(r.end)
  }

  datatype YearMonth = YearMonth(year: int, month: int)

  /** The calendar month `new Date(year, month - 1, ...)` lands in: a month outside
      1..12 carries into earlier or later years (floor division, as the Date
      constructor does). */
  function NormalMonth(month: int, year: int): (ym: YearMonth)
    ensures 1 <= ym.month <= 12
    ensures 12 * ym.year + ym.month == 12 * JsYear(year) + month
    ensures 1 <= month <= 12 ==> ym == YearMonth(JsYear(year), month)
  {
    YearMonth(JsYear(year) + (month - 1) / 12, (month - 1) % 12 + 1)
  }

  /** getMonthRange(month, year): day 1 at 00:00:00.000 to the last day at 23:59:59.999. */
  function MonthRange(month: int, year: int): (r: Range)
    ensures ValidInstant(r.start) && ValidInstant(r.end)
  {
    var ym := NormalMonth(month, year);
    Range(Instant(ym.year, ym.month, 1, 0), Instant(ym.year, ym.month, DaysInMonth(ym.year, ym.month), MS_PER_DAY - 1))
  }

  /** January 1 00:00:00.000 to December 31 23:59:59.999 of the year. */
  function YearRange(year: int): (r: Range)
    ensures ValidInstant(r.start) && ValidInstant(r.end)
  {
    var y := JsYear(year);
    Range(Instant(y, 1, 1, 0), Instant(y, 12, 31, MS_PER_DAY - 1))
  }

  /** The first instant of the calendar month after the one (month, year) lands in. */
  function NextMonthStart(month: int, year: int): Instant {
    var ym := NormalMonth(month, year);
    if ym.month == 12 then Instant(ym.year + 1, 1, 1, 0) else Instant(ym.year, ym.month + 1, 1, 0)
  }

  /** The month range ends one millisecond before the next month begins (what "day 0 of
      the next month" means), so consecutive months tile the time line. */
  lemma MonthRangeEndsBeforeNextMonth(month: int, year: int)
    ensures EpochMs(MonthRange(month, year).end) + 1 == EpochMs(NextMonthStart(month, year))
    ensures EpochMs(MonthRange(month, year).start) < EpochMs(MonthRange(month, year).end)
  {
    var ym := NormalMonth(month, year);
    if ym.month == 12 {
      YearStep(ym.year);
    }
  }

  /** A real instant lies in the month range exactly when it falls in the calendar month asked for. */
  lemma InMonthRange(t: Instant, month: int, year: int)
    requires ValidInstant(t)
    ensures InRange(t, MonthRange(month, year)) <==> YearMonth(t.year, t.month) == NormalMonth(month, year)
  {
    var r := MonthRange(month, year);
    OrderAgreesWithTime(r.start, t);
    OrderAgreesWithTime(t, r.end);
  }

  /** A real instant lies in the year range exactly when its year is the one asked for. */
  lemma InYearRange(t: Instant, year: int)
    requires ValidInstant(t)
    ensures InRange(t, YearRange(year)) <==> t.year == JsYear(year)
  {
    var r := YearRange(year);
    OrderAgreesWithTime(r.start, t);
    OrderAgreesWithTime(t, r.end);
  }

  /** The `YYYY-MM-DD` prefix of `toISOString()`, as a date triple. */
  datatype DayKey = DayKey(year: int, month: int, day: int)

  function DayKeyOf(t: Instant): DayKey {
    DayKey(t.year, t.month, t.day)
  }

  /** String order of zero-padded `YYYY-MM-DD` keys, i.e. chronological order. */
  predicate DayKeyLe(a: DayKey, b: DayKey) {
    || a.year < b.year
    || (a.year == b.year && a.month < b.month)
    || (a.year == b.year && a.month == b.month && a.day <= b.day)
  }
}
