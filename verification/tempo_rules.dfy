/**
 * The Tempo calendar rules: French public holidays (eight fixed dates and three dates
 * that follow Easter) and the adjustment of a forecast day for holidays, Sundays and
 * red Saturdays.
 */
module TempoRules {
  import opened Wrappers
  import opened Calendar

  /** The fixed French public holidays, as (month, day). */
  const FixedHolidays: seq<(int, int)> :=
    [(1, 1), (5, 1), (5, 8), (7, 14), (8, 15), (11, 1), (11, 11), (12, 25)]

  /**
   * The quantity `h + l - 7 * m` of the anonymous Gregorian algorithm
   * (Meeus/Jones/Butcher): the number of days from March 22nd to Easter Sunday.
   * Every divisor is a positive constant, so Dafny's `/` and `%` agree with
   * Python's `//` and `%` for every year, negative ones included.
   */
  function PaschalOffset(year: int): (n: int)
    ensures 0 <= n <= 34
    ensures (n - WeekTerm(year)) % 7 == 0
  {
    var a := year % 19;
    var b := year / 100;
    var c := year % 100;
    var d := b / 4;
    var e := b % 4;
    var f := (b + 8) / 25;
    var g := (b - f + 1) / 3;
    var h := (19 * a + b - d - g + 15) % 30;
    var i := c / 4;
    var k := c % 4;
    var l := (32 + 2 * e + 2 * i - h - k) % 7;
    var m := (a + 11 * h + 22 * l) / 451;
    assert 0 <= m <= 1 && (m == 1 ==> h >= 28 && l == 6);
    assert m == 0 ==> h + l <= 34;
    WeekTermCongruence(32 + 2 * e + 2 * i - k, h, m);
    h + l - 7 * m
  }

  lemma WeekTermCongruence(x: int, h: int, m: int)
    ensures (h + (x - h) % 7 - 7 * m - x) % 7 == 0
  {
    var q := (x - h) / 7;
    assert h + (x - h) % 7 - 7 * m - x == 7 * (-q - m);
    ShiftMod7(-q - m, 0);
  }

  /**
   * The term `32 + 2 * e + 2 * i - k` through which the algorithm fixes the weekday: the
   * offset differs from it by a multiple of 7.
   */
  function WeekTerm(year: int): int {
    32 + 2 * ((year / 100) % 4) + 2 * ((year % 100) / 4) - (year % 100) % 4
  }

  /** Easter Sunday of `year`: the month and day are read off `h + l - 7 * m + 114`. */
  function ComputeEaster(year: int): (easter: CivilDate)
    ensures easter.year == year
    ensures (easter.month == 3 && 22 <= easter.day) || (easter.month == 4 && easter.day <= 25)
  {
    var n := PaschalOffset(year);
    Date(year, (n + 114) / 31, (n + 114) % 31 + 1)
  }

  /** Easter Monday, Ascension Thursday and Whit Monday of `year`. */
  function GetMovableHolidays(year: int): (r: seq<CivilDate>)
    ensures |r| == 3
    ensures Ordinal(r[0]) == Ordinal(ComputeEaster(year)) + 1
    ensures Ordinal(r[1]) == Ordinal(ComputeEaster(year)) + 39
    ensures Ordinal(r[2]) == Ordinal(ComputeEaster(year)) + 50
  {
    var easter := ComputeEaster(year);
    [AddDays(easter, 1), AddDays(easter, 39), AddDays(easter, 50)]
  }

  /**
   * A fixed holiday in any year, or one of the year's movable holidays. The source
   * guards the movable lookup with a handler that answers false on an exception;
   * `ComputeEaster` always yields a valid date, so that handler is never reached.
   */
  predicate IsFrenchHoliday(date: CivilDate)
    ensures (date.month, date.day) in FixedHolidays ==> IsFrenchHoliday(date)
    ensures (date.month, date.day) !in FixedHolidays ==>
      (IsFrenchHoliday(date) <==> Ordinal(date) - Ordinal(ComputeEaster(date.year)) in {1, 39, 50})
  {
    ShiftedFromEaster(date, ComputeEaster(date.year), GetMovableHolidays(date.year));
    (date.month, date.day) in FixedHolidays || date in GetMovableHolidays(date.year)
  }

  /** A forecast for one day (the fields the rules read and write). */
  datatype ForecastDay = ForecastDay(
    date: CivilDate,
    color: string,
    probability: Option<real>,
    indicator: Option<string>,
    source: string)

  /** The probability given to a red Saturday once it is turned white. */
  function SaturdayWhiteProbability(probability: Option<real>): (p: real)
    ensures p <= 1.0
    ensures probability.GetOr(0.0) <= 1.0 ==> probability.GetOr(0.0) <= p
    ensures 0.0 <= probability.GetOr(0.0) ==> 0.1 <= p
  {
    var original := probability.GetOr(0.0);
    if original > 0.6 then 1.0
    else if original + 0.1 <= 1.0 then original + 0.1 else 1.0
  }

  /**
   * The Tempo rules, in priority order: a holiday is blue with indicator "F"; a
   * Sunday is blue with indicator "D"; a red Saturday turns white; any other day
   * keeps its colour and probability and loses its indicator.
   */
  function AdjustForecastDay(forecast: ForecastDay): (r: ForecastDay)
    ensures r.date == forecast.date && r.source == forecast.source
    ensures r.indicator == Some("F") <==> IsFrenchHoliday(forecast.date)
    ensures r.indicator == Some("D") <==> !IsFrenchHoliday(forecast.date) && Weekday(forecast.date) == Sunday
    ensures r.indicator.None? <==> !IsFrenchHoliday(forecast.date) && Weekday(forecast.date) != Sunday
    ensures IsFrenchHoliday(forecast.date) || Weekday(forecast.date) == Saturday || Weekday(forecast.date) == Sunday
            ==> r.color != "rouge"
    ensures r.color == forecast.color || r.color == "bleu" || r.color == "blanc"
  {
    var date := forecast.date;
    var weekday := Weekday(date);
    if IsFrenchHoliday(date) then
      ForecastDay(date, "bleu", None, Some("F"), forecast.source)
    else if weekday == Sunday then
      ForecastDay(date, "bleu", None, Some("D"), forecast.source)
    else if weekday == Saturday && forecast.color == "rouge" then
      ForecastDay(date, "blanc", Some(SaturdayWhiteProbability(forecast.probability)), None, forecast.source)
    else
      ForecastDay(forecast.date, forecast.color, forecast.probability, None, forecast.source)
  }

  /** `[adjust_forecast_day(f) for f in forecasts]` */
  function ApplyTempoRules(forecasts: seq<ForecastDay>): (r: seq<ForecastDay>)
    ensures |r| == |forecasts|
    ensures forall i :: 0 <= i < |r| ==> r[i] == AdjustForecastDay(forecasts[i])
  {
    if forecasts == [] then []
    else [AdjustForecastDay(forecasts[0])] + ApplyTempoRules(forecasts[1..])
  }

  // ---------------------------------------------------------------------------
  // Easter and the movable holidays

  lemma Mod7Of7Multiple(q: int)
    ensures (7 * q + 6) % 7 == 6
  {
  }

  /** Whatever the year, the algorithm lands on a Sunday. */
  lemma EasterIsSunday(year: int)
    ensures Weekday(ComputeEaster(year)) == Sunday
  {
    var easter := ComputeEaster(year);
    var leap := if IsLeapYear(year) then 1 else 0;
    assert DaysBeforeMonth(year, easter.month) + easter.day == 81 + leap + PaschalOffset(year);
    DaysBeforeYearStep(year);
    assert DaysBeforeYear(year) + leap == 365 * (year - 1) + year / 4 - year / 100 + year / 400;
    PaschalWeek(year);
  }

  /** The ordinal of March 22nd plus the offset, shifted by 6, is a multiple of 7 plus 6. */
  lemma PaschalWeek(year: int)
    ensures (365 * (year - 1) + year / 4 - year / 100 + year / 400 + 81 + PaschalOffset(year) + 6) % 7 == 6
  {
    var n := PaschalOffset(year);
    var t := (n - WeekTerm(year)) / 7;
    assert n == WeekTerm(year) + 7 * t;
    YearQuotients(year);
    WeekSum(year, year / 400, (year / 100) % 4, (year % 100) / 4, (year % 100) % 4, -t, 0, n);
  }

  /** The leap-year quotients of `year` through its century and its year within the century. */
  lemma YearQuotients(year: int)
    ensures year == 100 * (year / 100) + 4 * ((year % 100) / 4) + (year % 100) % 4
    ensures year / 100 == 4 * ((year / 100) / 4) + (year / 100) % 4
    ensures year / 4 == 25 * (year / 100) + (year % 100) / 4
    ensures year / 400 == (year / 100) / 4
  {
  }

  lemma WeekSum(year: int, p: int, e: int, i: int, k: int, q: int, m: int, n: int)
    requires year == 100 * (4 * p + e) + 4 * i + k
    requires n == 32 + 2 * e + 2 * i - k - 7 * q - 7 * m
    ensures (365 * (year - 1) + (25 * (4 * p + e) + i) - (4 * p + e) + p + 81 + n + 6) % 7 == 6
  {
    var w := 20871 * p + 5218 * e + 209 * i + 52 * k - 36 - q - m;
    assert 365 * (year - 1) + (25 * (4 * p + e) + i) - (4 * p + e) + p + 81 + n + 6 == 7 * w + 6;
    Mod7Of7Multiple(w);
  }

  /** Easter 2025 is April 20th. */
  lemma Easter2025()
    ensures ComputeEaster(2025) == Date(2025, 4, 20)
  {
    assert 2025 % 19 == 11 && 2025 / 100 == 20 && 2025 % 100 == 25;
    assert (19 * 11 + 20 - 5 - 6 + 15) % 30 == 23;
    assert (32 + 2 * 0 + 2 * 6 - 23 - 1) % 7 == 6;
    assert (11 + 11 * 23 + 22 * 6) / 451 == 0;
  }

  /** Easter 2026 is April 5th. */
  lemma Easter2026()
    ensures ComputeEaster(2026) == Date(2026, 4, 5)
  {
    assert 2026 % 19 == 12 && 2026 / 100 == 20 && 2026 % 100 == 26;
    assert (19 * 12 + 20 - 5 - 6 + 15) % 30 == 12;
    assert (32 + 2 * 0 + 2 * 6 - 12 - 2) % 7 == 2;
    assert (12 + 11 * 12 + 22 * 2) / 451 == 0;
  }

  /** Easter Monday and Whit Monday are Mondays and Ascension is a Thursday. */
  lemma MovableHolidayWeekdays(year: int)
    ensures Weekday(GetMovableHolidays(year)[0]) == Monday
    ensures Weekday(GetMovableHolidays(year)[1]) == Thursday
    ensures Weekday(GetMovableHolidays(year)[2]) == Monday
  {
    var easter := ComputeEaster(year);
    var r := GetMovableHolidays(year);
    EasterIsSunday(year);
    AddDaysWeekday(easter, 1);
    AddDaysWeekday(easter, 39);
    AddDaysWeekday(easter, 50);
    assert Weekday(r[0]) == (6 + 1) % 7;
    assert Weekday(r[1]) == (6 + 39) % 7;
    assert Weekday(r[2]) == (6 + 50) % 7;
  }

  /** Easter falls between March 22nd and April 25th of its year. */
  lemma EasterWindow(year: int)
    ensures Ordinal(Date(year, 3, 22)) <= Ordinal(ComputeEaster(year)) <= Ordinal(Date(year, 4, 25))
  {
    var easter := ComputeEaster(year);
    OrdinalOrder(Date(year, 3, 22), easter);
    OrdinalOrder(easter, Date(year, 4, 25));
  }

  /** A date n days after Easter lies within the n-day shift of Easter's window. */
  lemma EasterOffsetWithin(year: int, n: int, lo: CivilDate, hi: CivilDate)
    requires lo.year == year && hi.year == year
    requires Ordinal(lo) == Ordinal(Date(year, 3, 22)) + n
    requires Ordinal(hi) == Ordinal(Date(year, 4, 25)) + n
    ensures AddDays(ComputeEaster(year), n).year == year
    ensures lo.month <= AddDays(ComputeEaster(year), n).month <= hi.month
  {
    EasterWindow(year);
    SameYearBetween(lo, AddDays(ComputeEaster(year), n), hi);
  }

  /**
   * The movable holidays fall in the same year as their Easter: Easter Monday in
   * March 23 .. April 26, Ascension in April 30 .. June 3, Whit Monday in May 11 .. June 14.
   */
  lemma MovableHolidayMonths(year: int)
    ensures forall d :: d in GetMovableHolidays(year) ==> d.year == year
    ensures 3 <= GetMovableHolidays(year)[0].month <= 4
    ensures 4 <= GetMovableHolidays(year)[1].month <= 6
    ensures 5 <= GetMovableHolidays(year)[2].month <= 6
  {
    var easter := ComputeEaster(year);
    EasterMondayMonth(year);
    AscensionMonth(year);
    WhitMondayMonth(year);
    var r := GetMovableHolidays(year);
    assert r[0] == AddDays(easter, 1) && r[1] == AddDays(easter, 39) && r[2] == AddDays(easter, 50);
  }

  lemma EasterMondayMonth(year: int)
    ensures AddDays(ComputeEaster(year), 1).year == year
    ensures 3 <= AddDays(ComputeEaster(year), 1).month <= 4
  {
    EasterOffsetWithin(year, 1, Date(year, 3, 23), Date(year, 4, 26));
  }

  lemma AscensionMonth(year: int)
    ensures AddDays(ComputeEaster(year), 39).year == year
    ensures 4 <= AddDays(ComputeEaster(year), 39).month <= 6
  {
    EasterOffsetWithin(year, 39, Date(year, 4, 30), Date(year, 6, 3));
  }

  lemma WhitMondayMonth(year: int)
    ensures AddDays(ComputeEaster(year), 50).year == year
    ensures 5 <= AddDays(ComputeEaster(year), 50).month <= 6
  {
    EasterOffsetWithin(year, 50, Date(year, 5, 11), Date(year, 6, 14));
  }

  /** A date of the same year whose day of the year is n more is the date n days on. */
  lemma ShiftWithinYear(d: CivilDate, n: int, x: CivilDate)
    requires d.year == x.year
    requires DaysBeforeMonth(x.year, x.month) + x.day == DaysBeforeMonth(d.year, d.month) + d.day + n
    ensures AddDays(d, n) == x
  {
    AddDaysUnique(d, n, x);
  }

  /** The movable holidays of 2025, as the calendar gives them. */
  lemma MovableHolidays2025()
    ensures GetMovableHolidays(2025) == [Date(2025, 4, 21), Date(2025, 5, 29), Date(2025, 6, 9)]
  {
    Easter2025();
    MovableHolidaysFrom(2025, Date(2025, 4, 20), Date(2025, 4, 21), Date(2025, 5, 29), Date(2025, 6, 9));
  }

  /** The movable holidays of 2026, as the calendar gives them. */
  lemma MovableHolidays2026()
    ensures GetMovableHolidays(2026) == [Date(2026, 4, 6), Date(2026, 5, 14), Date(2026, 5, 25)]
  {
    Easter2026();
    MovableHolidaysFrom(2026, Date(2026, 4, 5), Date(2026, 4, 6), Date(2026, 5, 14), Date(2026, 5, 25));
  }

  /** Given the year's Easter, three dates of that year 1, 39 and 50 days on are its movable holidays. */
  lemma MovableHolidaysFrom(year: int, easter: CivilDate, monday: CivilDate, ascension: CivilDate, whit: CivilDate)
    requires ComputeEaster(year) == easter
    requires monday.year == year && ascension.year == year && whit.year == year
    requires DaysBeforeMonth(year, monday.month) + monday.day == DaysBeforeMonth(year, easter.month) + easter.day + 1
    requires DaysBeforeMonth(year, ascension.month) + ascension.day == DaysBeforeMonth(year, easter.month) + easter.day + 39
    requires DaysBeforeMonth(year, whit.month) + whit.day == DaysBeforeMonth(year, easter.month) + easter.day + 50
    ensures GetMovableHolidays(year) == [monday, ascension, whit]
  {
    ShiftWithinYear(easter, 1, monday);
    ShiftWithinYear(easter, 39, ascension);
    ShiftWithinYear(easter, 50, whit);
  }

  // ---------------------------------------------------------------------------
  // Holidays

  /** Three dates 1, 39 and 50 days after a given day hold exactly the dates at those offsets. */
  lemma ShiftedFromEaster(date: CivilDate, easter: CivilDate, r: seq<CivilDate>)
    requires |r| == 3
    requires Ordinal(r[0]) == Ordinal(easter) + 1
    requires Ordinal(r[1]) == Ordinal(easter) + 39
    requires Ordinal(r[2]) == Ordinal(easter) + 50
    ensures date in r <==> Ordinal(date) - Ordinal(easter) in {1, 39, 50}
  {
    assert date in r <==> date == r[0] || date == r[1] || date == r[2];
    var k := Ordinal(date) - Ordinal(easter);
    if k == 1 {
      OrdinalInjective(date, r[0]);
    } else if k == 39 {
      OrdinalInjective(date, r[1]);
    } else if k == 50 {
      OrdinalInjective(date, r[2]);
    }
  }

  /** Epiphany (January 6th) is never a holiday. */
  lemma EpiphanyIsNotHoliday(year: int)
    ensures !IsFrenchHoliday(Date(year, 1, 6))
  {
    var jan6: CivilDate := Date(year, 1, 6);
    var easter := ComputeEaster(year);
    OrdinalOrder(jan6, easter);
  }

  /** A movable holiday never falls on a weekend. */
  lemma MovableHolidayIsWeekday(date: CivilDate)
    requires date in GetMovableHolidays(date.year)
    ensures Weekday(date) == Monday || Weekday(date) == Thursday
  {
    MovableHolidayWeekdays(date.year);
  }

  // ---------------------------------------------------------------------------
  // The adjustment rules, branch by branch

  /** Rule 1: a holiday is blue with indicator "F", whatever its weekday or colour. */
  lemma HolidayRule(forecast: ForecastDay)
    requires IsFrenchHoliday(forecast.date)
    ensures AdjustForecastDay(forecast)
         == ForecastDay(forecast.date, "bleu", None, Some("F"), forecast.source)
  {
  }

  /** Rule 2: a Sunday that is not a holiday is blue with indicator "D". */
  lemma SundayRule(forecast: ForecastDay)
    requires !IsFrenchHoliday(forecast.date) && Weekday(forecast.date) == Sunday
    ensures AdjustForecastDay(forecast)
         == ForecastDay(forecast.date, "bleu", None, Some("D"), forecast.source)
  {
  }

  /**
   * Rule 3: a red Saturday that is not a holiday turns white without indicator; a
   * probability above 0.6 becomes 1.0, any other (a missing one read as 0.0) gains 0.1.
   */
  lemma SaturdayRedRule(forecast: ForecastDay)
    requires !IsFrenchHoliday(forecast.date) && Weekday(forecast.date) == Saturday
    requires forecast.color == "rouge"
    ensures var r := AdjustForecastDay(forecast);
      && r.date == forecast.date && r.source == forecast.source
      && r.color == "blanc" && r.indicator.None? && r.probability.Some?
      && r.probability.value <= 1.0
      && (forecast.probability.GetOr(0.0) > 0.6 ==> r.probability.value == 1.0)
      && (forecast.probability.GetOr(0.0) <= 0.6 ==> r.probability.value == forecast.probability.GetOr(0.0) + 0.1)
  {
  }

  /** Rule 4: any other day keeps colour and probability and has no indicator. */
  lemma DefaultRule(forecast: ForecastDay)
    requires !IsFrenchHoliday(forecast.date) && Weekday(forecast.date) != Sunday
    requires !(Weekday(forecast.date) == Saturday && forecast.color == "rouge")
    ensures AdjustForecastDay(forecast) == forecast.(indicator := None)
  {
  }

  /** Adjusting an adjusted forecast changes nothing. */
  lemma AdjustIdempotent(forecast: ForecastDay)
    ensures AdjustForecastDay(AdjustForecastDay(forecast)) == AdjustForecastDay(forecast)
  {
  }

  /** Applying the rules to an adjusted list changes nothing. */
  lemma {:induction false} ApplyTempoRulesIdempotent(forecasts: seq<ForecastDay>)
    ensures ApplyTempoRules(ApplyTempoRules(forecasts)) == ApplyTempoRules(forecasts)
  {
    var once := ApplyTempoRules(forecasts);
    var twice := ApplyTempoRules(once);
    forall i | 0 <= i < |twice|
      ensures twice[i] == once[i]
    {
      AdjustIdempotent(forecasts[i]);
    }
  }

  /** The rules commute with concatenation: each day is adjusted on its own. */
  lemma {:induction false} ApplyTempoRulesAppend(xs: seq<ForecastDay>, ys: seq<ForecastDay>)
    ensures ApplyTempoRules(xs + ys) == ApplyTempoRules(xs) + ApplyTempoRules(ys)
  {
    var lhs := ApplyTempoRules(xs + ys);
    var rhs := ApplyTempoRules(xs) + ApplyTempoRules(ys);
    assert |lhs| == |rhs|;
    forall i | 0 <= i < |lhs|
      ensures lhs[i] == rhs[i]
    {
      if i < |xs| {
        assert (xs + ys)[i] == xs[i];
      } else {
        assert (xs + ys)[i] == ys[i - |xs|];
      }
    }
  }

  /** The code checks holidays first: a holiday on a Sunday gets "F", and a red holiday is blue. */
  lemma HolidayBeforeSunday()
    ensures Weekday(Date(2023, 1, 1)) == Sunday
    ensures AdjustForecastDay(ForecastDay(Date(2023, 1, 1), "rouge", Some(0.5), None, "open_dpe")).indicator == Some("F")
    ensures AdjustForecastDay(ForecastDay(Date(2025, 7, 14), "rouge", Some(0.5), None, "open_dpe")).color == "bleu"
  {
    assert (7, 14) in FixedHolidays;
    assert (1, 1) in FixedHolidays;
  }
}
