/**
 * The proleptic Gregorian calendar as Python's `datetime.date` sees it: a date is a
 * (year, month, day) triple, `toordinal()` numbers the days so that 0001-01-01 is day 1,
 * `weekday()` is 0 for Monday up to 6 for Sunday, and `date + timedelta(days=n)` is the
 * date whose ordinal is n more.
 */
module Calendar {

  datatype Date = Date(year: int, month: int, day: int)

  const Monday := 0
  const Thursday := 3
  const Saturday := 5
  const Sunday := 6

  predicate IsLeapYear(y: int) {
    y % 4 == 0 && (y % 100 != 0 || y % 400 == 0)
  }

  function DaysInYear(y: int): int {
    if IsLeapYear(y) then 366 else 365
  }

  function DaysInMonth(y: int, m: int): (n: int)
    ensures 28 <= n <= 31
    ensures m == 2 ==> (n == 29 <==> IsLeapYear(y))
  {
    if m == 2 then (if IsLeapYear(y) then 29 else 28)
    else if m == 4 || m == 6 || m == 9 || m == 11 then 30
    else 31
  }

  predicate IsValid(d: Date) {
    1 <= d.month <= 12 && 1 <= d.day <= DaysInMonth(d.year, d.month)
  }

  /** The dates Python can represent (the 1..9999 bound on years is not modelled). */
  type CivilDate = d: Date | IsValid(d) witness Date(1, 1, 1)

  /** Days of a common year before the first of each month. */
  const CommonDaysBeforeMonth: seq<int> := [0, 31, 59, 90, 120, 151, 181, 212, 243, 273, 304, 334]

  function DaysBeforeMonth(y: int, m: int): int
    requires 1 <= m <= 12
  {
    CommonDaysBeforeMonth[m - 1] + (if m > 2 && IsLeapYear(y) then 1 else 0)
  }

  /** Days before January 1st of year y, counted from 0001-01-01. */
  function DaysBeforeYear(y: int): int {
    var p := y - 1;
    365 * p + p / 4 - p / 100 + p / 400
  }

  /** `date.toordinal()` */
  function Ordinal(d: CivilDate): int {
    DaysBeforeYear(d.year) + DaysBeforeMonth(d.year, d.month) + d.day
  }

  /** `date.weekday()`: 0 is Monday, 6 is Sunday. */
  function Weekday(d: CivilDate): (w: int)
    ensures 0 <= w < 7
  {
    (Ordinal(d) + 6) % 7
  }

  /** `(a - b).days` */
  function DaysBetween(a: CivilDate, b: CivilDate): int {
    Ordinal(a) - Ordinal(b)
  }

  /** Strict chronological order on triples, read as (year, month, day). */
  predicate Before(a: Date, b: Date) {
    a.year < b.year || (a.year == b.year && (a.month < b.month || (a.month == b.month && a.day < b.day)))
  }

  lemma DaysBeforeYearStep(y: int)
    ensures DaysBeforeYear(y + 1) == DaysBeforeYear(y) + DaysInYear(y)
  {
    QuotientStep4(y);
    QuotientStep100(y);
    QuotientStep400(y);
  }

  lemma QuotientStep4(y: int)
    ensures y / 4 == (y - 1) / 4 + (if y % 4 == 0 then 1 else 0)
  {
  }

  lemma QuotientStep100(y: int)
    ensures y / 100 == (y - 1) / 100 + (if y % 100 == 0 then 1 else 0)
  {
  }

  lemma QuotientStep400(y: int)
    ensures y / 400 == (y - 1) / 400 + (if y % 400 == 0 then 1 else 0)
  {
  }

  lemma {:induction false} DaysBeforeYearGrows(y1: int, y2: int)
    requires y1 <= y2
    ensures DaysBeforeYear(y1) + 365 * (y2 - y1) <= DaysBeforeYear(y2)
    decreases y2 - y1
  {
    if y1 < y2 {
      DaysBeforeYearStep(y2 - 1);
      DaysBeforeYearGrows(y1, y2 - 1);
    }
  }

  /** Every month ends no later than the next one begins. */
  lemma MonthsInOrder(y: int, m1: int, m2: int)
    requires 1 <= m1 < m2 <= 12
    ensures DaysBeforeMonth(y, m1) + DaysInMonth(y, m1) <= DaysBeforeMonth(y, m2)
  {
  }

  lemma DayOfYearBounds(d: CivilDate)
    ensures 1 <= DaysBeforeMonth(d.year, d.month) + d.day <= DaysInYear(d.year)
  {
  }

  /** The ordinal orders dates chronologically. */
  lemma OrdinalOrder(a: CivilDate, b: CivilDate)
    ensures Before(a, b) <==> Ordinal(a) < Ordinal(b)
  {
    DayOfYearBounds(a);
    DayOfYearBounds(b);
    if a.year < b.year {
      DaysBeforeYearStep(a.year);
      DaysBeforeYearGrows(a.year + 1, b.year);
    } else if b.year < a.year {
      DaysBeforeYearStep(b.year);
      DaysBeforeYearGrows(b.year + 1, a.year);
    } else if a.month < b.month {
      MonthsInOrder(a.year, a.month, b.month);
    } else if b.month < a.month {
      MonthsInOrder(a.year, b.month, a.month);
    }
  }

  /** Two dates are one date exactly when they have one ordinal: neither comes before the other. */
  lemma OrdinalInjective(a: CivilDate, b: CivilDate)
    ensures a == b <==> Ordinal(a) == Ordinal(b)
  {
    OrdinalOrder(a, b);
    OrdinalOrder(b, a);
  }

  /** `date + timedelta(days=1)` */
  function NextDay(d: CivilDate): (r: CivilDate)
    ensures Ordinal(r) == Ordinal(d) + 1
  {
    if d.day < DaysInMonth(d.year, d.month) then
      Date(d.year, d.month, d.day + 1)
    else if d.month < 12 then
      Date(d.year, d.month + 1, 1)
    else
      DaysBeforeYearStep(d.year);
      Date(d.year + 1, 1, 1)
  }

  /** `date - timedelta(days=1)` */
  function PrevDay(d: CivilDate): (r: CivilDate)
    ensures Ordinal(r) == Ordinal(d) - 1
  {
    if d.day > 1 then
      Date(d.year, d.month, d.day - 1)
    else if d.month > 1 then
      Date(d.year, d.month - 1, DaysInMonth(d.year, d.month - 1))
    else
      DaysBeforeYearStep(d.year - 1);
      Date(d.year - 1, 12, 31)
  }

  /** `date + timedelta(days=n)`, for any sign of n. */
  function AddDays(d: CivilDate, n: int): (r: CivilDate)
    ensures Ordinal(r) == Ordinal(d) + n
    decreases if n < 0 then -n else n
  {
    if n == 0 then d
    else if n > 0 then AddDays(NextDay(d), n - 1)
    else AddDays(PrevDay(d), n + 1)
  }

  /** The date n days on is the only date with that ordinal. */
  lemma AddDaysUnique(d: CivilDate, n: int, x: CivilDate)
    ensures x == AddDays(d, n) <==> Ordinal(x) == Ordinal(d) + n
  {
    OrdinalInjective(x, AddDays(d, n));
  }

  lemma ShiftMod7(q: int, x: int)
    ensures (7 * q + x) % 7 == x % 7
  {
  }

  lemma ModShift7(a: int, n: int)
    ensures (a + n) % 7 == (a % 7 + n) % 7
  {
    ShiftMod7(a / 7, a % 7 + n);
    assert a + n == 7 * (a / 7) + (a % 7 + n);
  }

  lemma AddDaysWeekday(d: CivilDate, n: int)
    ensures Weekday(AddDays(d, n)) == (Weekday(d) + n) % 7
  {
    ModShift7(Ordinal(d) + 6, n);
  }

  /** A date whose ordinal lies between two dates of one year is in that year. */
  lemma SameYearBetween(lo: CivilDate, x: CivilDate, hi: CivilDate)
    requires lo.year == hi.year
    requires Ordinal(lo) <= Ordinal(x) <= Ordinal(hi)
    ensures x.year == lo.year
    ensures lo.month <= x.month <= hi.month
  {
    OrdinalOrder(x, lo);
    OrdinalOrder(hi, x);
    assert !Before(x, lo) && !Before(hi, x);
  }
}
