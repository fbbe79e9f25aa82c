/** Proleptic-Gregorian calendar dates, as Python's `datetime.date` has them:
    a (year, month, day) triple, partial construction (ValueError on an
    impossible day), tuple ordering, and `± timedelta(days = n)` as a walk of
    n days whose effect on the day ordinal (`date.toordinal()`) is integer
    addition. */
module Dates {

  datatype Date = Date(year: int, month: int, day: int)

  /** Divisible by 4 and not by 100, unless by 400. */
  predicate IsLeap(y: int) {
    y % 4 == 0 && (y % 100 != 0 || y % 400 == 0)
  }

  function DaysInMonth(y: int, m: int): (n: int)
    requires 1 <= m <= 12
    ensures 28 <= n <= 31
    ensures n == 29 <==> m == 2 && IsLeap(y)
  {
    if m == 2 then (if IsLeap(y) then 29 else 28)
    else if m == 4 || m == 6 || m == 9 || m == 11 then 30
    else 31
  }

  /** The dates `datetime.date(y, m, d)` accepts. */
  predicate Valid(d: Date) {
    1 <= d.month <= 12 && 1 <= d.day <= DaysInMonth(d.year, d.month)
  }

  /** Outcome of `datetime.date(y, m, d)`: the date, or the ValueError it raises. */
  datatype DateResult = Ok(date: Date) | InvalidDate

  function MakeDate(y: int, m: int, d: int): DateResult {
    if Valid(Date(y, m, d)) then Ok(Date(y, m, d)) else InvalidDate
  }

  /** A month/day pair exists in some year but not in year y only when it is
      February 29 and y is not a leap year. */
  lemma MakeDateFailsOnlyOnLeapDay(y: int, other: int, m: int, d: int)
    requires MakeDate(other, m, d).Ok?
    ensures MakeDate(y, m, d).InvalidDate? <==> m == 2 && d == 29 && !IsLeap(y)
    ensures MakeDate(y, m, d).Ok? ==> MakeDate(y, m, d).date == Date(y, m, d)
  {
  }

  /** Python compares dates as (year, month, day) tuples. */
  predicate Before(a: Date, b: Date) {
    a.year < b.year
    || (a.year == b.year && (a.month < b.month || (a.month == b.month && a.day < b.day)))
  }

  predicate AtOrBefore(a: Date, b: Date) {
    Before(a, b) || a == b
  }

  /** Same calendar day of the year. */
  predicate OnMonthDay(d: Date, m: int, day: int) {
    d.month == m && d.day == day
  }

  // ---------------------------------------------------------------- ordinals

  /** Days in the years before y (Python's `_days_before_year`). */
  function DaysBeforeYear(y: int): int {
    var p := y - 1;
    p * 365 + p / 4 - p / 100 + p / 400
  }

  function YearLength(y: int): int {
    if IsLeap(y) then 366 else 365
  }

  /** Days in year y before the first of month m (Python's `_days_before_month`). */
  function DaysBeforeMonth(y: int, m: int): int
    requires 1 <= m <= 12
  {
    [0, 31, 59, 90, 120, 151, 181, 212, 243, 273, 304, 334][m - 1]
    + (if m > 2 && IsLeap(y) then 1 else 0)
  }

  /** `date.toordinal()`: 0001-01-01 has ordinal 1. */
  function ToOrdinal(d: Date): int
    requires Valid(d)
  {
    DaysBeforeYear(d.year) + DaysBeforeMonth(d.year, d.month) + d.day
  }

  lemma YearStep(y: int)
    ensures DaysBeforeYear(y + 1) == DaysBeforeYear(y) + YearLength(y)
  {
    var p := y - 1;
    assert y / 4 - p / 4 == (if y % 4 == 0 then 1 else 0);
    assert y / 100 - p / 100 == (if y % 100 == 0 then 1 else 0);
    assert y / 400 - p / 400 == (if y % 400 == 0 then 1 else 0);
  }

  lemma {:induction false} YearsAdvance(y1: int, y2: int)
    requires y1 < y2
    ensures DaysBeforeYear(y1) + YearLength(y1) <= DaysBeforeYear(y2)
    decreases y2 - y1
  {
    YearStep(y1);
    if y1 + 1 < y2 {
      YearsAdvance(y1 + 1, y2);
    }
  }

  lemma MonthStep(y: int, m: int)
    requires 1 <= m <= 12
    ensures m < 12 ==> DaysBeforeMonth(y, m + 1) == DaysBeforeMonth(y, m) + DaysInMonth(y, m)
    ensures m == 12 ==> DaysBeforeMonth(y, m) + DaysInMonth(y, m) == YearLength(y)
  {
  }

  /** Each day of a valid date lies inside its year's block of ordinals. */
  lemma OrdinalWithinYear(d: Date)
    requires Valid(d)
    ensures DaysBeforeYear(d.year) < ToOrdinal(d) <= DaysBeforeYear(d.year) + YearLength(d.year)
  {
  }

  /** Tuple order and ordinal order agree. */
  lemma OrdinalMonotone(a: Date, b: Date)
    requires Valid(a) && Valid(b)
    ensures Before(a, b) <==> ToOrdinal(a) < ToOrdinal(b)
  {
    if a.year < b.year {
      YearsAdvance(a.year, b.year);
      OrdinalWithinYear(a);
      OrdinalWithinYear(b);
    } else if b.year < a.year {
      YearsAdvance(b.year, a.year);
      OrdinalWithinYear(a);
      OrdinalWithinYear(b);
    }
  }

  /** `toordinal` is injective on valid dates. */
  lemma OrdinalInjective(a: Date, b: Date)
    requires Valid(a) && Valid(b)
    requires ToOrdinal(a) == ToOrdinal(b)
    ensures a == b
  {
    OrdinalMonotone(a, b);
    OrdinalMonotone(b, a);
  }

  // ---------------------------------------------------------- day arithmetic

  /** The next calendar day. */
  function NextDay(d: Date): (r: Date)
    requires Valid(d)
    ensures Valid(r) && ToOrdinal(r) == ToOrdinal(d) + 1
  {
    MonthStep(d.year, d.month);
    if d.day < DaysInMonth(d.year, d.month) then Date(d.year, d.month, d.day + 1)
    else if d.month < 12 then Date(d.year, d.month + 1, 1)
    else (YearStep(d.year); Date(d.year + 1, 1, 1))
  }

  /** The previous calendar day. */
  function PrevDay(d: Date): (r: Date)
    requires Valid(d)
    ensures Valid(r) && ToOrdinal(r) == ToOrdinal(d) - 1
  {
    if d.day > 1 then Date(d.year, d.month, d.day - 1)
    else if d.month > 1 then
      (MonthStep(d.year, d.month - 1); Date(d.year, d.month - 1, DaysInMonth(d.year, d.month - 1)))
    else (YearStep(d.year - 1); MonthStep(d.year - 1, 12); Date(d.year - 1, 12, 31))
  }

  /** `d + timedelta(days = n)`: its ordinal is `d.toordinal() + n`. */
  function AddDays(d: Date, n: int): (r: Date)
    requires Valid(d)
    ensures Valid(r) && ToOrdinal(r) == ToOrdinal(d) + n
    decreases if n < 0 then -n else n
  {
    if n == 0 then d
    else if n > 0 then AddDays(NextDay(d), n - 1)
    else AddDays(PrevDay(d), n + 1)
  }

  /** AddDays is exactly `date.fromordinal(d.toordinal() + n)`: the one valid
      date whose ordinal is shifted by n. */
  lemma AddDaysCharacterized(d: Date, n: int, e: Date)
    requires Valid(d) && Valid(e)
    ensures e == AddDays(d, n) <==> ToOrdinal(e) == ToOrdinal(d) + n
  {
    if ToOrdinal(e) == ToOrdinal(d) + n {
      OrdinalInjective(e, AddDays(d, n));
    }
  }

  /** Shifting forward and back again returns the original date. */
  lemma AddDaysRoundTrip(d: Date, n: int)
    requires Valid(d)
    ensures AddDays(AddDays(d, n), -n) == d
  {
    AddDaysCharacterized(AddDays(d, n), -n, d);
  }

  /** A positive shift moves strictly later; a negative one strictly earlier. */
  lemma AddDaysOrder(d: Date, n: int)
    requires Valid(d)
    ensures n > 0 ==> Before(d, AddDays(d, n))
    ensures n < 0 ==> Before(AddDays(d, n), d)
  {
    OrdinalMonotone(d, AddDays(d, n));
    OrdinalMonotone(AddDays(d, n), d);
  }

  /** Two valid dates on the same month/day in consecutive years are 365 or
      366 days apart. */
  lemma AnniversaryGap(a: Date, b: Date)
    requires Valid(a) && Valid(b)
    requires b.year == a.year + 1 && a.month == b.month && a.day == b.day
    ensures 365 <= ToOrdinal(b) - ToOrdinal(a) <= 366
  {
    YearStep(a.year);
  }

  /** A date at most 31 days after another is in the same year, or the first
      is in December and the second in the following January. */
  lemma NearbyDates(a: Date, b: Date)
    requires Valid(a) && Valid(b)
    requires 0 <= ToOrdinal(b) - ToOrdinal(a) <= 31
    ensures b.year == a.year
         || (b.year == a.year + 1 && a.month == 12 && b.month == 1)
  {
    OrdinalWithinYear(a);
    OrdinalWithinYear(b);
    if b.year < a.year {
      YearsAdvance(b.year, a.year);
    } else if b.year > a.year + 1 {
      YearsAdvance(a.year, a.year + 1);
      YearsAdvance(a.year + 1, b.year);
    } else if b.year == a.year + 1 {
      YearStep(a.year);
    }
  }
}
