# RTE Tempo: holiday rules and forecast accuracy, in Dafny

This project models the two logic modules of the RTE Tempo Home Assistant component
and proves properties of the model.

- **Tempo rules** (`tempo_rules.dfy`, module `TempoRules`). French public holidays are
  eight fixed (month, day) pairs plus Easter Monday, Ascension and Whit Monday. Easter is
  computed with the anonymous Gregorian algorithm (Meeus/Jones/Butcher). A forecast day
  is adjusted by four rules, in priority order:
  1. a holiday is blue with indicator "F";
  2. a Sunday is blue with indicator "D";
  3. a red Saturday turns white, with a raised probability;
  4. any other day keeps its colour and probability and loses its indicator.

  This module is made of pure functions. Their properties are lemmas.
- **Accuracy analysis** (`accuracy.dfy`, module `Accuracy`). The recorded states of the
  six forecast sensors (horizons J-2 .. J-7) are grouped by target date and by the day
  the forecast was made. The latest forecast of each day is kept, and each horizon h
  takes the forecast made exactly h days before its target. Actual colours come from
  the current-colour sensor, plus tomorrow's official colour. The past matrix compares
  every forecast with the actual colour. Sundays and holidays give "-". The future
  matrix shows the forecasts already made for J+2 .. J+7. Accuracy per horizon and the
  totals are counted over the past matrix.

  The source builds these with loops that append and count. The model has the same
  loops as methods. Each method is proved against a specification function or
  predicate, and lemmas state what those specifications mean.
- **Calendar** (`calendar.dfy`, module `Calendar`). Python's `datetime.date` as a
  (year, month, day) triple that must be a real date. It has `toordinal()`,
  `weekday()` and `date + timedelta(days=n)`. `AddDays` is proved to move the ordinal
  by exactly n.
- **Wrappers** (`wrappers.dfy`): an `Option` type for Python's `None`.

The recorder, `hass.states` and `date.today()` are parameters of the model. A sensor's
history is a sequence of `SensorState` values. Each value holds the state text, the
parsed `date` attribute and the `last_changed` instant, taken as a UTC day and a time
on that day. `today` is a date that is passed in.

## Model

| member | source | states |
|---|---|---|
| Calendar.Weekday | custom_components/rtetempo/tempo_rules.py:121 | `weekday()` is in 0 .. 6, with 0 for Monday. |
| Calendar.AddDays | custom_components/rtetempo/tempo_rules.py:73-75 | `date + timedelta(days=n)` is a valid date whose ordinal is exactly n more, for n of either sign. |
| Calendar.AddDaysUnique | custom_components/rtetempo/tempo_rules.py:73-75 | The date n days on is the only date with that ordinal. |
| Calendar.AddDaysWeekday | custom_components/rtetempo/tempo_rules.py:121 | Moving n days moves the weekday by n modulo 7. |
| Calendar.Ordinal | custom_components/rtetempo/accuracy.py:217 | `toordinal()`: days before the year, plus days before the month, plus the day. Its meaning is stated by `OrdinalOrder` and `OrdinalInjective`. |
| Calendar.OrdinalOrder | custom_components/rtetempo/accuracy.py:213 | Comparing dates by ordinal is chronological (year, month, day) order. |
| Calendar.OrdinalInjective | custom_components/rtetempo/accuracy.py:213 | Two dates are equal exactly when their ordinals are. |
| Calendar.SameYearBetween | custom_components/rtetempo/tempo_rules.py:71-76 | A date between two dates of one year lies in that year, and between their months. |
| TempoRules.PaschalOffset | custom_components/rtetempo/tempo_rules.py:40-51 | The algorithm's `h + l - 7m` is 0 .. 34 days after March 22nd for every year. It differs from the weekday term `32 + 2e + 2i - k` by a multiple of 7. |
| TempoRules.ComputeEaster | custom_components/rtetempo/tempo_rules.py:29-54 | The result is a valid date of the given year, between March 22nd and April 25th. |
| TempoRules.EasterIsSunday | custom_components/rtetempo/tempo_rules.py:29-54 | The computed date is a Sunday, for every year. |
| TempoRules.EasterWindow | custom_components/rtetempo/tempo_rules.py:29-54 | Easter's ordinal lies between those of March 22nd and April 25th. |
| TempoRules.Easter2025 | tests/test_tempo_rules.py:141-142 | Easter 2025 is April 20th. |
| TempoRules.Easter2026 | tests/test_tempo_rules.py:154-155 | Easter 2026 is April 5th. |
| TempoRules.GetMovableHolidays | custom_components/rtetempo/tempo_rules.py:71-76 | Exactly three dates, in order: Easter + 1, Easter + 39 and Easter + 50 days. |
| TempoRules.MovableHolidayWeekdays | custom_components/rtetempo/tempo_rules.py:60-63 | Easter Monday and Whit Monday are Mondays. Ascension is a Thursday. |
| TempoRules.MovableHolidayMonths | custom_components/rtetempo/tempo_rules.py:71-76 | All three fall in Easter's year: Easter Monday in March–April, Ascension in April–June, Whit Monday in May–June. |
| TempoRules.MovableHolidays2025 | tests/test_tempo_rules.py:144-148 | The 2025 movable holidays are April 21st, May 29th and June 9th. |
| TempoRules.MovableHolidays2026 | tests/test_tempo_rules.py:157-161 | The 2026 movable holidays are April 6th, May 14th and May 25th. |
| TempoRules.IsFrenchHoliday | custom_components/rtetempo/tempo_rules.py:79-100 | Every (month, day) of the fixed table is a holiday in every year. Off the table, a date is a holiday exactly when it is 1, 39 or 50 days after its year's Easter. |
| TempoRules.ShiftedFromEaster | custom_components/rtetempo/tempo_rules.py:96-97 | Membership in the three-date list is exactly an offset of 1, 39 or 50 days from Easter. |
| TempoRules.EpiphanyIsNotHoliday | tests/test_tempo_rules.py:176-179 | January 6th is not a holiday in any year. |
| TempoRules.MovableHolidayIsWeekday | custom_components/rtetempo/tempo_rules.py:60-63 | A movable holiday is a Monday or a Thursday, never a weekend. |
| TempoRules.SaturdayWhiteProbability | custom_components/rtetempo/tempo_rules.py:145-151 | The new probability is at most 1.0. It is no lower than the original when the original is at most 1.0, and at least 0.1 when the original is not negative. A missing original is read as 0.0. |
| TempoRules.AdjustForecastDay | custom_components/rtetempo/tempo_rules.py:103-170 | Date and source are kept. Indicator "F" holds exactly on holidays, "D" exactly on other Sundays, none on other days. Holidays, Saturdays and Sundays are never red. The colour is the original, blue or white. |
| TempoRules.HolidayRule | custom_components/rtetempo/tempo_rules.py:124-131 | A holiday gives blue, no probability and "F", whatever the weekday and colour. |
| TempoRules.SundayRule | custom_components/rtetempo/tempo_rules.py:134-141 | A Sunday that is not a holiday gives blue, no probability and "D". |
| TempoRules.SaturdayRedRule | custom_components/rtetempo/tempo_rules.py:144-159 | A red Saturday that is not a holiday gives white and no indicator. The probability is 1.0 above 0.6, otherwise p + 0.1 capped at 1.0, with a missing p read as 0.0. |
| TempoRules.DefaultRule | custom_components/rtetempo/tempo_rules.py:164-170 | Any other day is the input with its indicator cleared. |
| TempoRules.AdjustIdempotent | custom_components/rtetempo/tempo_rules.py:103-170 | Adjusting twice gives the same day as adjusting once. |
| TempoRules.HolidayBeforeSunday | custom_components/rtetempo/tempo_rules.py:123-141 | The holiday rule comes first: Sunday 2023-01-01 gets "F", and a red 14 July is blue. |
| TempoRules.ApplyTempoRules | custom_components/rtetempo/tempo_rules.py:173-184 | Same length as the input, and element i is the adjustment of input element i. |
| TempoRules.ApplyTempoRulesIdempotent | custom_components/rtetempo/tempo_rules.py:173-184 | Applying the rules to an adjusted list changes nothing. |
| TempoRules.ApplyTempoRulesAppend | custom_components/rtetempo/tempo_rules.py:173-184 | Applying the rules to a concatenation gives the concatenation of the results. |
| Accuracy.Lower | custom_components/rtetempo/accuracy.py:113 | Same length, and each character lower-cased. |
| Accuracy.StateColor | custom_components/rtetempo/accuracy.py:110-115 | A state gives a colour only when it is present and its lower-cased text is "bleu", "blanc" or "rouge". The colour is that lower-cased text. |
| Accuracy.StateColorOfColor | custom_components/rtetempo/accuracy.py:113-115 | A state whose lower-cased text is a colour gives that colour. |
| Accuracy.RecordForecastAt | custom_components/rtetempo/accuracy.py:108-130 | One grouping step leaves every other (target, forecast day) entry alone. For a matching state it keeps the stored entry unless the state is strictly later, and then stores the state. |
| Accuracy.GroupByTarget | custom_components/rtetempo/accuracy.py:106-130 | Every kept entry is a colour, recorded on the forecast day it is filed under. |
| Accuracy.GroupStates | custom_components/rtetempo/accuracy.py:106-130 | The loop computes the grouping of the sensor's states. |
| Accuracy.GroupKeepsLatest | custom_components/rtetempo/accuracy.py:127-130 | A (target, forecast day) entry exists exactly when some state matches it. The entry is the latest matching state; on a tie, the first one stays. |
| Accuracy.MergeHorizon | custom_components/rtetempo/accuracy.py:133-143 | Each target takes, at horizon h, the forecast made exactly h days before it. The rest of the result is unchanged. |
| Accuracy.MergedBeforeAt | custom_components/rtetempo/accuracy.py:102-143 | After horizons 2 .. k-1, cell (t, h) exists exactly when horizon h picked t, and it holds that pick. |
| Accuracy.GetForecastHistoryByTargetDate | custom_components/rtetempo/accuracy.py:90-145 | The loop over the six sensors computes the forecast history. |
| Accuracy.ForecastHistoryLatest | custom_components/rtetempo/accuracy.py:108-143 | The colour for target t at horizon h is that of the latest J-h state targeting t and recorded h days before t. The cell exists exactly when such a state exists. |
| Accuracy.ForecastHistoryShape | custom_components/rtetempo/accuracy.py:102-143 | Every entry of the history is a colour at a horizon between 2 and 7. |
| Accuracy.ActualsFrom | custom_components/rtetempo/accuracy.py:157-168 | Only the three colours are stored. |
| Accuracy.ActualsKeepLast | custom_components/rtetempo/accuracy.py:166-168 | A day has an actual colour exactly when some state records a colour on it. That colour is from the last such state. |
| Accuracy.ActualColors | custom_components/rtetempo/accuracy.py:157-178 | Every stored value is one of the three colours. When the next-colour entity has a colour, tomorrow holds it. Every other day, and tomorrow when there is no next colour, keeps exactly the recorded colour, if any. |
| Accuracy.GetActualColors | custom_components/rtetempo/accuracy.py:147-178 | The loop and the tomorrow entry compute the actual colours. |
| Accuracy.IsExcluded | custom_components/rtetempo/accuracy.py:59-63 | Sundays and holidays are excluded, so every fixed holiday is. An excluded day off the fixed table is a Sunday, a Monday or a Thursday. |
| Accuracy.Compare | custom_components/rtetempo/accuracy.py:180-186 | "✓" exactly when the forecast equals the actual colour on a counted day. "✗" exactly when it differs on a counted day. "-" exactly when there is no forecast or the day is excluded. |
| Accuracy.ExcludedIffForcedBlue | custom_components/rtetempo/accuracy.py:59-63 | Sundays and holidays are excluded exactly on the days the Tempo rules force to blue with an indicator. |
| Accuracy.SaturdayIsCounted | custom_components/rtetempo/accuracy.py:59-63 | A Saturday that is not a holiday is not excluded. |
| Accuracy.CellsAt | custom_components/rtetempo/accuracy.py:227-230 | A row filled for horizons lo .. 7 has exactly those keys, each holding its own cell. |
| Accuracy.RowKeys | custom_components/rtetempo/accuracy.py:227-230 | A row filled from J-7 down to J-2 has exactly the six horizons as keys. |
| Accuracy.BuildPastRow | custom_components/rtetempo/accuracy.py:220-230 | The loop fills each horizon with the forecast for the date and its comparison with the actual colour. |
| Accuracy.LatestDate | custom_components/rtetempo/accuracy.py:206 | The result is in the set and no date of the set is later. |
| Accuracy.SortDatesDescending | custom_components/rtetempo/accuracy.py:206 | The result holds exactly the given dates, in strictly descending order. |
| Accuracy.BuildPastMatrix | custom_components/rtetempo/accuracy.py:188-234 | Each row is the compared row of a date with an actual colour that is not after tomorrow and at most `days` old. Every such date has a row. Rows are newest first. |
| Accuracy.PastRowsComplete | custom_components/rtetempo/accuracy.py:220-230 | Every past row carries its actual colour and all six horizons. Each horizon holds the forecast and its comparison result. |
| Accuracy.PastMatrixUnique | custom_components/rtetempo/accuracy.py:206-232 | Two matrices meeting the past-matrix contract are equal, so the contract fixes the result. |
| Accuracy.RowTableUnique | custom_components/rtetempo/accuracy.py:206-232 | Two newest-first tables with one row per dated actual in the window, made by the same row maker, are equal. |
| Accuracy.BuildFutureRow | custom_components/rtetempo/accuracy.py:265-282 | The loop fills horizon h with the recorded forecast when it is already made, and with nothing otherwise. |
| Accuracy.ForecastDayPassed | custom_components/rtetempo/accuracy.py:273-277 | The J-h forecast for today + n is made on or before today exactly when h >= n. |
| Accuracy.BuildFutureMatrix | custom_components/rtetempo/accuracy.py:236-286 | Exactly six rows: row i is the row of today + i + 2. Dates ascend strictly. |
| Accuracy.FutureRowDate | custom_components/rtetempo/accuracy.py:262 | The row for n days ahead is dated n days after today. |
| Accuracy.FutureRowDiagonal | custom_components/rtetempo/accuracy.py:271-282 | A future row has the six horizons. Its forecast day is after today exactly when h < n, and then horizon h is empty. Otherwise horizon h holds the recorded forecast, if there is one. |
| Accuracy.ResultAt | custom_components/rtetempo/accuracy.py:307-308 | The result of a row at a horizon, "-" when the horizon is missing. Its counts are stated by `CountRow` and `CorrectCount`. |
| Accuracy.CorrectCount | custom_components/rtetempo/accuracy.py:306-313 | The correct forecasts never outnumber the valid ones. |
| Accuracy.HorizonAccuracy | custom_components/rtetempo/accuracy.py:315-318 | The accuracy lies in 0 .. 100, and is 0 when no row has a valid result. |
| Accuracy.PercentageBounds | custom_components/rtetempo/accuracy.py:318 | 100 · part / whole lies in 0 .. 100 when part <= whole. |
| Accuracy.CalculateHorizonAccuracy | custom_components/rtetempo/accuracy.py:288-318 | The loop computes 100 · correct / valid over the rows whose result is not "-", and 0 when there are none. |
| Accuracy.CountsAppend | custom_components/rtetempo/accuracy.py:306-313 | The valid and correct counts of a concatenation are the sums of the parts' counts. |
| Accuracy.AccuracyIgnoresDash | custom_components/rtetempo/accuracy.py:310 | Inserting a row whose result is "-" or missing does not change the accuracy. |
| Accuracy.AccuracyExtremes | custom_components/rtetempo/accuracy.py:306-318 | All forecasts right gives 100. All wrong gives 0. |
| Accuracy.AccuracyByHorizon | custom_components/rtetempo/accuracy.py:330-332 | One accuracy for each horizon 2 .. 7, and each equals that horizon's accuracy. |
| Accuracy.CountRow | custom_components/rtetempo/accuracy.py:340-347 | One row's "✓", "✗" and "-" counts over the six horizons, summing to 6. |
| Accuracy.CountPredictions | custom_components/rtetempo/accuracy.py:335-347 | The three totals are the cells of each mark over all rows, and they sum to 6 × rows. |
| Accuracy.RecentRows | custom_components/rtetempo/accuracy.py:353-357 | The kept rows are exactly the rows dated on or after the cutoff, and there are no more of them than rows. The result is empty exactly when every row is older. |
| Accuracy.RecentRowsSingle | custom_components/rtetempo/accuracy.py:354-357 | A single row is kept exactly when it is dated on or after the cutoff. |
| Accuracy.RecentRowsAppend | custom_components/rtetempo/accuracy.py:354-357 | Filtering a concatenation concatenates the filtered parts. With the single-row case, this fixes the order and multiplicity of the kept rows. |
| Accuracy.Analyze | custom_components/rtetempo/accuracy.py:320-370 | The past matrix meets its contract. The future matrix is the six rows J+2 .. J+7. There is one accuracy per horizon. The 30-day accuracy is J-2's. The 7-day accuracy is J-2's over the last week's rows. The totals count each mark and sum to 6 × total days. |

## Left out

- Years are unbounded. Python's 1 .. 9999 range and its `OverflowError` are not modelled. Neither is the 1583–4099 validity range in `compute_easter`'s docstring: the proofs hold for every year.
- `is_french_holiday` guards the movable lookup with an exception handler that returns false and logs. `ComputeEaster` always gives a valid date, so the model has no such branch. Logging is left out throughout.
- Probabilities and percentages are exact reals. IEEE float arithmetic is not modelled.
- HorizonAccuracy: the source's `round(..., 1)` to one decimal is not modelled. The model returns the exact percentage.
- CalculateHorizonAccuracy: same as HorizonAccuracy; the one-decimal rounding is not modelled.
- The recorder reads (`_get_raw_history`), `hass.states.get` and `datetime.date.today()` / `datetime.now()` are I/O. They become parameters: the sensors' histories, the next-colour state and `today`. The `days + 10` read window and the recorder's error handler are not modelled. The history passed in is whatever that read returns.
- `last_changed` is modelled as its UTC calendar day and time. `strftime("%Y-%m-%d")` of that timestamp is that day.
- `date.today()` is read several times in the source. The model uses one `today` throughout, so a run that crosses midnight is not modelled.
- Dates are kept as dates, not ISO strings. A target attribute that is missing, empty or not an ISO date has no target in the model. The source also skips such targets, at its `fromisoformat` step. For four-digit years, `sorted` on ISO strings is chronological order, which is the order the model uses. Two different strings naming one date (which Python 3.11's `fromisoformat` accepts) are not modelled.
- `str.lower()` is modelled on the letters A–Z only, which covers the three colour names.
- `HorizonForecast.to_dict`, the row dictionaries and the JSON layout of `analyze`'s result are represented by datatypes (`HorizonForecast`, `PastRow`, `FutureRow`, `Report`). Their string keys (`"j7"`, `"accuracy_j2"`, ...) become horizon integers.
- `async`/`await` and the `AccuracyAnalyzer` object are left out. The analyzer holds only `hass`, so its methods are modelled as functions and methods of a module.
- `ForecastDay` is defined in `forecast.py`, which is not part of this model. Its fields are taken to be those the rules read and write.
- `tests/test_tempo_rules.py:186-239` expects a holiday on a Sunday to get "D" and a red holiday to turn white. The code at `custom_components/rtetempo/tempo_rules.py:124-131` checks holidays first and always gives blue with "F". The model follows the code; see `TempoRules.HolidayBeforeSunday`.
