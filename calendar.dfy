/** The proleptic Gregorian calendar as Python's `datetime` computes it: which
    (year, month, day) triples the constructor accepts, the day ordinal behind
    `toordinal()` and `weekday()`, and the successor that `+ timedelta(days=1)`
    yields. */
module Calendar {
  import opened Wrappers

  datatype Date = Date(year: int, month: int, day: int)

  /** `datetime.MINYEAR` and `datetime.MAXYEAR`. */
  const MinYear := 1
  const MaxYear := 9999

  /** The value `datetime.weekday()` returns for a Saturday (Monday is 0). */
  const Saturday := 5

  predicate IsLeap(y: int) {
    y % 4 == 0 && (y % 100 != 0 || y % 400 == 0)
  }

  function DaysInYear(y: int): int {
    if IsLeap(y) then 366 else 365
  }

  function DaysInMonth(y: int, m: int): (n: int)
    requires 1 <= m <= 12
    ensures 28 <= n <= 31
    ensures n == 29 <==> m == 2 && IsLeap(y)
  {
    if m == 2 then (if IsLeap(y) then 29 else 28)
    else if m == 4 || m == 6 || m == 9 || m == 11 then 30
    else 31
  }

  /** The dates for which `datetime(year, month, day)` does not raise ValueError. */
  predicate IsValid(d: Date) {
    MinYear <= d.year <= MaxYear && 1 <= d.month <= 12 && 1 <= d.day <= DaysInMonth(d.year, d.month)
  }

  datatype DateError = ValueError

  /** `datetime(year, month, day)`. */
  function MakeDate(year: int, month: int, day: int): Result<Date, DateError> {
    if IsValid(Date(year, month, day)) then Success(Date(year, month, day)) else Failure(ValueError)
  }

  /** Chronological order, which on dates is the order of (year, month, day). */
  predicate Before(a: Date, b: Date) {
    a.year < b.year
    || (a.year == b.year && a.month < b.month)
    || (a.year == b.year && a.month == b.month && a.day < b.day)
  }

  function DaysBeforeYear(y: int): int
    requires y >= 1
  {
    var p := y - 1;
    p * 365 + p / 4 - p / 100 + p / 400
  }

  function DaysBeforeMonth(y: int, m: int): int
    requires 1 <= m <= 12
  {
    [0, 31, 59, 90, 120, 151, 181, 212, 243, 273, 304, 334][m - 1]
      + (if m > 2 && IsLeap(y) then 1 else 0)
  }

  /** `date.toordinal()`: 0001-01-01 is day 1. */
  function Ordinal(d: Date): int
    requires IsValid(d)
  {
    DaysBeforeYear(d.year) + DaysBeforeMonth(d.year, d.month) + d.day
  }

  /** `date.weekday()`: Monday is 0, Sunday is 6. */
  function Weekday(d: Date): (w: int)
    requires IsValid(d)
    ensures 0 <= w < 7
  {
    (Ordinal(d) + 6) % 7
  }

  /** The calendar day after d; the year may step past MaxYear, where Python's
      `d + timedelta(days=1)` would raise OverflowError. */
  function NextDay(d: Date): Date
    requires IsValid(d)
  {
    if d.day < DaysInMonth(d.year, d.month) then Date(d.year, d.month, d.day + 1)
    else if d.month < 12 then Date(d.year, d.month + 1, 1)
    else Date(d.year + 1, 1, 1)
  }

  lemma DaysBeforeYearStep(y: int)
    requires y >= 1
    ensures DaysBeforeYear(y + 1) == DaysBeforeYear(y) + DaysInYear(y)
  {
    QuarterStep(y - 1);
    CenturyStep(y - 1);
    QuadricentennialStep(y - 1);
  }

  /** Going from year count p to p + 1 adds one multiple of 4 exactly when p + 1 is one. */
  lemma QuarterStep(p: int)
    ensures (p + 1) / 4 == p / 4 + (if (p + 1) % 4 == 0 then 1 else 0)
  {
  }

  lemma CenturyStep(p: int)
    ensures (p + 1) / 100 == p / 100 + (if (p + 1) % 100 == 0 then 1 else 0)
  {
  }

  lemma QuadricentennialStep(p: int)
    ensures (p + 1) / 400 == p / 400 + (if (p + 1) % 400 == 0 then 1 else 0)
  {
  }

  lemma {:induction false} DaysBeforeYearMonotone(y: int, z: int)
    requires 1 <= y < z
    ensures DaysBeforeYear(y) + DaysInYear(y) <= DaysBeforeYear(z)
    decreases z - y
  {
    DaysBeforeYearStep(y);
    if y + 1 < z {
      DaysBeforeYearMonotone(y + 1, z);
    }
  }

  lemma DaysBeforeMonthStep(y: int, m: int)
    requires 1 <= m < 12
    ensures DaysBeforeMonth(y, m + 1) == DaysBeforeMonth(y, m) + DaysInMonth(y, m)
  {
  }

  lemma DaysBeforeLastMonth(y: int)
    ensures DaysBeforeMonth(y, 12) + DaysInMonth(y, 12) == DaysInYear(y)
  {
  }

  lemma {:induction false} DaysBeforeMonthMonotone(y: int, m: int, n: int)
    requires 1 <= m < n <= 12
    ensures DaysBeforeMonth(y, m) + DaysInMonth(y, m) <= DaysBeforeMonth(y, n)
    decreases n - m
  {
    DaysBeforeMonthStep(y, m);
    if m + 1 < n {
      DaysBeforeMonthMonotone(y, m + 1, n);
    }
  }

  /** A valid date's ordinal lies within its year. */
  lemma OrdinalWithinYear(d: Date)
    requires IsValid(d)
    ensures DaysBeforeYear(d.year) < Ordinal(d) <= DaysBeforeYear(d.year) + DaysInYear(d.year)
  {
    if d.month < 12 {
      DaysBeforeMonthMonotone(d.year, d.month, 12);
    }
    DaysBeforeLastMonth(d.year);
  }

  /** The ordinal is strictly increasing in chronological order, so it numbers
      the valid dates without repetition. */
  lemma OrdinalMonotone(a: Date, b: Date)
    requires IsValid(a) && IsValid(b)
    ensures Before(a, b) <==> Ordinal(a) < Ordinal(b)
  {
    if a.year < b.year {
      OrdinalWithinYear(a);
      OrdinalWithinYear(b);
      DaysBeforeYearMonotone(a.year, b.year);
    } else if b.year < a.year {
      OrdinalWithinYear(a);
      OrdinalWithinYear(b);
      DaysBeforeYearMonotone(b.year, a.year);
    } else if a.month < b.month {
      DaysBeforeMonthMonotone(a.year, a.month, b.month);
    } else if b.month < a.month {
      DaysBeforeMonthMonotone(a.year, b.month, a.month);
    }
  }

  lemma OrdinalInjective(a: Date, b: Date)
    requires IsValid(a) && IsValid(b) && Ordinal(a) == Ordinal(b)
    ensures a == b
  {
    OrdinalMonotone(a, b);
    OrdinalMonotone(b, a);
  }

  /** The successor of a valid date is one day later, inside or across month and
      year boundaries; it is valid unless it steps past 9999-12-31. */
  lemma NextDayOrdinal(d: Date)
    requires IsValid(d)
    ensures var e := NextDay(d);
      (d.year < MaxYear || d.month < 12 || d.day < 31 ==> IsValid(e))
      && (IsValid(e) ==> Ordinal(e) == Ordinal(d) + 1)
  {
    var e := NextDay(d);
    if d.day == DaysInMonth(d.year, d.month) {
      if d.month < 12 {
        DaysBeforeMonthStep(d.year, d.month);
      } else {
        DaysBeforeLastMonth(d.year);
        DaysBeforeYearStep(d.year);
      }
    }
  }

  /** NextDay is the calendar successor: strictly later, and no valid date lies
      strictly between d and it. */
  lemma NextDayIsSuccessor(d: Date, x: Date)
    requires IsValid(d) && IsValid(NextDay(d)) && IsValid(x)
    ensures Before(d, NextDay(d))
    ensures !(Before(d, x) && Before(x, NextDay(d)))
  {
    NextDayOrdinal(d);
    OrdinalMonotone(d, NextDay(d));
    OrdinalMonotone(d, x);
    OrdinalMonotone(x, NextDay(d));
  }

  /** 0001-01-01 is a Monday, and each day advances the weekday by one. */
  lemma WeekdayOfNextDay(d: Date)
    requires IsValid(d) && IsValid(NextDay(d))
    ensures Weekday(Date(1, 1, 1)) == 0
    ensures Weekday(NextDay(d)) == (Weekday(d) + 1) % 7
  {
    NextDayOrdinal(d);
    var o := Ordinal(d);
    assert Weekday(d) == (o + 6) % 7;
    assert Weekday(NextDay(d)) == (o + 7) % 7;
    SuccessorMod7(o + 6);
  }

  lemma SuccessorMod7(x: int)
    ensures (x + 1) % 7 == (x % 7 + 1) % 7
  {
  }
}
