/**
 * Forecast accuracy: forecasts recorded at horizons J-7 .. J-2 are grouped by target
 * date, compared with the colour the day actually had, and counted. Sundays and French
 * holidays are left out of the comparison. The recorder history, the current entity
 * states and today's date are parameters.
 */
module Accuracy {
  import opened Wrappers
  import opened Calendar
  import opened TempoRules

  // ---------------------------------------------------------------------------
  // Colours and recorded states

  predicate IsTempoColor(s: string) {
    s == "bleu" || s == "blanc" || s == "rouge"
  }

  predicate IsHorizon(h: int) {
    2 <= h <= 7
  }

  /** The horizons J-2 .. J-7. */
  const Horizons: set<int> := {2, 3, 4, 5, 6, 7}

  function LowerChar(c: char): char {
    if 'A' <= c <= 'Z' then (c as int + 32) as char else c
  }

  /** `str.lower()` on the letters A-Z. */
  function Lower(s: string): (r: string)
    ensures |r| == |s|
    ensures forall i :: 0 <= i < |s| ==> r[i] == LowerChar(s[i])
  {
    if s == [] then [] else [LowerChar(s[0])] + Lower(s[1..])
  }

  /**
   * The colour a recorded state stands for: the state lower-cased, when that is one of
   * the three colours; nothing for a missing state, "unknown", "unavailable" or any
   * other text.
   */
  function StateColor(state: Option<string>): (c: Option<string>)
    ensures c.Some? ==> IsTempoColor(c.value)
    ensures c.Some? ==> state.Some? && c.value == Lower(state.value)
  {
    match state
    case None => None
    case Some(s) =>
      if s == "unknown" || s == "unavailable" then
        assert Lower(s)[0] == s[0];
        None
      else if IsTempoColor(Lower(s)) then Some(Lower(s))
      else None
  }

  /** A state whose lower-cased text is a colour stands for that colour. */
  lemma StateColorOfColor(state: Option<string>)
    requires state.Some? && IsTempoColor(Lower(state.value))
    ensures StateColor(state) == Some(Lower(state.value))
  {
  }

  /** Microseconds since midnight (UTC). */
  type TimeOfDay = t: int | 0 <= t < 86_400_000_000

  /** A `last_changed` timestamp: its UTC calendar day and its time on that day. */
  datatype Instant = Instant(day: CivilDate, time: TimeOfDay)

  /** `a > b` on timestamps. */
  predicate Later(a: Instant, b: Instant) {
    Before(b.day, a.day) || (a.day == b.day && a.time > b.time)
  }

  /**
   * One recorded state of a sensor: its state text, the target date in its `date`
   * attribute (absent when the attribute is missing, empty or not an ISO date) and
   * its `last_changed` timestamp.
   */
  datatype SensorState = SensorState(state: Option<string>, target: Option<CivilDate>, lastChanged: Instant)

  /** A forecast colour with the time it was recorded. */
  datatype Stamped = Stamped(color: string, at: Instant)

  /** Target date -> day the forecast was made -> the forecast kept for that day. */
  type Grouped = map<CivilDate, map<CivilDate, Stamped>>

  /** Target date -> horizon -> forecast colour. */
  type History = map<CivilDate, map<int, string>>

  // ---------------------------------------------------------------------------
  // Grouping the forecast history (specification)

  /** One step of the grouping loop: a later forecast made the same day replaces the kept one. */
  function RecordForecast(byTarget: Grouped, s: SensorState): Grouped {
    var color := StateColor(s.state);
    if color.None? || s.target.None? then byTarget
    else
      var target := s.target.value;
      var forecastDay := s.lastChanged.day;
      var byDay := if target in byTarget then byTarget[target] else map[];
      if forecastDay !in byDay || Later(s.lastChanged, byDay[forecastDay].at) then
        byTarget[target := byDay[forecastDay := Stamped(color.value, s.lastChanged)]]
      else byTarget
  }

  /** The grouping of a sensor's states, in recorder order. */
  function GroupByTarget(states: seq<SensorState>): (r: Grouped)
    ensures forall t, f :: t in r && f in r[t] ==> IsTempoColor(r[t][f].color) && r[t][f].at.day == f
    decreases |states|
  {
    if states == [] then map[]
    else RecordForecast(GroupByTarget(states[..|states| - 1]), states[|states| - 1])
  }

  /** The targets among `targets` that have a forecast made exactly h days before them. */
  function PicksAmong(byTarget: Grouped, h: int, targets: set<CivilDate>): map<CivilDate, string> {
    map t | t in targets && t in byTarget && AddDays(t, -h) in byTarget[t] :: byTarget[t][AddDays(t, -h)].color
  }

  function AtHorizon(byTarget: Grouped, h: int): map<CivilDate, string> {
    PicksAmong(byTarget, h, byTarget.Keys)
  }

  function CellsOf(result: History, t: CivilDate): map<int, string> {
    if t in result then result[t] else map[]
  }

  /** `result[t][h] = picks[t]` for every picked target t. */
  function Merge(result: History, picks: map<CivilDate, string>, h: int): History {
    map t | t in result.Keys + picks.Keys :: if t in picks then CellsOf(result, t)[h := picks[t]] else result[t]
  }

  /** `states.get(sensor, [])`: a sensor without history has no states. */
  function StatesOf(history: map<int, seq<SensorState>>, h: int): seq<SensorState> {
    if h in history then history[h] else []
  }

  /** The picks of the J-h sensor: each target with the colour forecast h days before it. */
  function Picks(history: map<int, seq<SensorState>>, h: int): map<CivilDate, string> {
    AtHorizon(GroupByTarget(StatesOf(history, h)), h)
  }

  /** The merge of the picks of horizons 2 .. k-1, in that order. */
  function MergedBefore(picks: int -> map<CivilDate, string>, k: int): History
    requires 2 <= k <= 8
    decreases k
  {
    if k == 2 then map[] else Merge(MergedBefore(picks, k - 1), picks(k - 1), k - 1)
  }

  /** The forecast history once the sensors of horizons 2 .. k-1 are processed. */
  function HistoryBefore(history: map<int, seq<SensorState>>, k: int): History
    requires 2 <= k <= 8
  {
    MergedBefore(h => Picks(history, h), k)
  }

  function ForecastHistory(history: map<int, seq<SensorState>>): History {
    HistoryBefore(history, 8)
  }

  // ---------------------------------------------------------------------------
  // Grouping the forecast history (the loops)

  /** The inner loop of the grouping: one sensor's states by target and forecast day. */
  method GroupStates(states: seq<SensorState>) returns (byTarget: Grouped)
    ensures byTarget == GroupByTarget(states)
  {
    byTarget := map[];
    for i := 0 to |states|
      invariant byTarget == GroupByTarget(states[..i])
    {
      var state := states[i];
      assert states[..i + 1][..i] == states[..i];
      var color := StateColor(state.state);
      if color.Some? && state.target.Some? {
        var target := state.target.value;
        var forecastDay := state.lastChanged.day;
        var byDay := if target in byTarget then byTarget[target] else map[];
        if forecastDay !in byDay || Later(state.lastChanged, byDay[forecastDay].at) {
          byTarget := byTarget[target := byDay[forecastDay := Stamped(color.value, state.lastChanged)]];
        }
      }
    }
    assert states[..|states|] == states;
  }

  /** The second loop of the grouping: each target takes the forecast made h days before it. */
  method MergeHorizon(result: History, byTarget: Grouped, h: int) returns (merged: History)
    ensures merged == Merge(result, AtHorizon(byTarget, h), h)
  {
    merged := result;
    ghost var picked: map<CivilDate, string> := map[];
    var targets := byTarget.Keys;
    while targets != {}
      invariant targets <= byTarget.Keys
      invariant picked == PicksAmong(byTarget, h, byTarget.Keys - targets)
      invariant merged == Merge(result, picked, h)
      decreases |targets|
    {
      var target :| target in targets;
      var expected := AddDays(target, -h);
      PicksAmongStep(byTarget, h, byTarget.Keys - targets, target);
      if expected in byTarget[target] {
        MergeStep(result, picked, h, target, byTarget[target][expected].color);
        merged := merged[target := CellsOf(merged, target)[h := byTarget[target][expected].color]];
        picked := picked[target := byTarget[target][expected].color];
      }
      assert byTarget.Keys - (targets - {target}) == (byTarget.Keys - targets) + {target};
      targets := targets - {target};
    }
    assert byTarget.Keys - targets == byTarget.Keys;
  }

  lemma PicksAmongStep(byTarget: Grouped, h: int, done: set<CivilDate>, t: CivilDate)
    requires t in byTarget && t !in done
    ensures var f := AddDays(t, -h);
      PicksAmong(byTarget, h, done + {t})
        == if f in byTarget[t] then PicksAmong(byTarget, h, done)[t := byTarget[t][f].color]
           else PicksAmong(byTarget, h, done)
  {
    var f := AddDays(t, -h);
    var lhs := PicksAmong(byTarget, h, done + {t});
    var prev := PicksAmong(byTarget, h, done);
    var rhs := if f in byTarget[t] then prev[t := byTarget[t][f].color] else prev;
    forall u
      ensures u in lhs <==> u in rhs
      ensures u in lhs ==> lhs[u] == rhs[u]
    {
      PicksAmongAt(byTarget, h, done + {t}, u);
      PicksAmongAt(byTarget, h, done, u);
    }
    SameMaps(lhs, rhs);
  }

  /** Two maps with the same keys and the same value at each key are equal. */
  lemma SameMaps<K, V>(a: map<K, V>, b: map<K, V>)
    requires forall k :: k in a <==> k in b
    requires forall k :: k in a ==> a[k] == b[k]
    ensures a == b
  {
  }

  lemma PicksAmongAt(byTarget: Grouped, h: int, targets: set<CivilDate>, u: CivilDate)
    ensures var f := AddDays(u, -h);
      && (u in PicksAmong(byTarget, h, targets) <==> u in targets && u in byTarget && f in byTarget[u])
      && (u in PicksAmong(byTarget, h, targets) ==> PicksAmong(byTarget, h, targets)[u] == byTarget[u][f].color)
  {
  }

  /**
   * The forecasts by target date and horizon: for each horizon h, the states of the
   * J-h sensor are grouped by target and by the day they were made, keeping the latest
   * per day, and the target gets the forecast made exactly h days before it.
   */
  method GetForecastHistoryByTargetDate(history: map<int, seq<SensorState>>) returns (result: History)
    ensures result == ForecastHistory(history)
  {
    result := map[];
    for h := 2 to 8
      invariant result == HistoryBefore(history, h)
    {
      var byTarget := GroupStates(StatesOf(history, h));
      result := MergeHorizon(result, byTarget, h);
      HistoryBeforeStep(history, h);
    }
  }

  lemma HistoryBeforeStep(history: map<int, seq<SensorState>>, h: int)
    requires 2 <= h < 8
    ensures HistoryBefore(history, h + 1)
         == Merge(HistoryBefore(history, h), AtHorizon(GroupByTarget(StatesOf(history, h)), h), h)
  {
    assert HistoryBefore(history, h + 1) == Merge(HistoryBefore(history, h), Picks(history, h), h);
  }

  lemma MergeStep(result: History, picks: map<CivilDate, string>, h: int, t: CivilDate, color: string)
    requires t !in picks
    ensures Merge(result, picks[t := color], h)
         == Merge(result, picks, h)[t := CellsOf(Merge(result, picks, h), t)[h := color]]
  {
    var lhs := Merge(result, picks[t := color], h);
    var rhs := Merge(result, picks, h)[t := CellsOf(Merge(result, picks, h), t)[h := color]];
    forall u
      ensures u in lhs <==> u in rhs
      ensures u in lhs ==> lhs[u] == rhs[u]
    {
    }
    SameMaps(lhs, rhs);
  }

  // ---------------------------------------------------------------------------
  // What the grouping keeps

  /** s is a kept-colour state for target t, made on day f. */
  predicate Matches(s: SensorState, t: CivilDate, f: CivilDate) {
    StateColor(s.state).Some? && s.target == Some(t) && s.lastChanged.day == f
  }

  function StampOf(s: SensorState): Stamped
    requires StateColor(s.state).Some?
  {
    Stamped(StateColor(s.state).value, s.lastChanged)
  }

  /**
   * states[i] is the forecast kept for (t, f): no matching state is later than it, and
   * every matching state before it is strictly earlier (on a tie the first one stays).
   */
  predicate KeepsLatest(states: seq<SensorState>, i: int, t: CivilDate, f: CivilDate) {
    && 0 <= i < |states| && Matches(states[i], t, f)
    && (forall j :: 0 <= j < |states| && Matches(states[j], t, f) ==> !Later(states[j].lastChanged, states[i].lastChanged))
    && (forall j :: 0 <= j < i && Matches(states[j], t, f) ==> Later(states[i].lastChanged, states[j].lastChanged))
  }

  /** What one grouping step does to the forecast kept for (t, f). */
  lemma RecordForecastAt(before: Grouped, s: SensorState, t: CivilDate, f: CivilDate)
    ensures var g := RecordForecast(before, s);
      && (!Matches(s, t, f) ==> ((t in g && f in g[t]) <==> (t in before && f in before[t])))
      && (!Matches(s, t, f) && t in g && f in g[t] ==> g[t][f] == before[t][f])
    ensures var g := RecordForecast(before, s);
      Matches(s, t, f) ==>
        (t in g && f in g[t]
         && g[t][f] == if t in before && f in before[t] && !Later(s.lastChanged, before[t][f].at)
                       then before[t][f] else StampOf(s))
  {
  }

  /** The kept forecast of a prefix stays kept, or gives way to a strictly later last state. */
  lemma KeepsLatestStep(states: seq<SensorState>, i: int, t: CivilDate, f: CivilDate)
    requires states != []
    requires KeepsLatest(states[..|states| - 1], i, t, f)
    ensures var s := states[|states| - 1];
      !(Matches(s, t, f) && Later(s.lastChanged, states[i].lastChanged)) ==> KeepsLatest(states, i, t, f)
    ensures var s := states[|states| - 1];
      Matches(s, t, f) && Later(s.lastChanged, states[i].lastChanged) ==> KeepsLatest(states, |states| - 1, t, f)
  {
    var n := |states| - 1;
    assert forall j :: 0 <= j < n ==> states[j] == states[..n][j];
  }

  /** The first matching state is kept. */
  lemma KeepsLatestFirst(states: seq<SensorState>, t: CivilDate, f: CivilDate)
    requires states != [] && Matches(states[|states| - 1], t, f)
    requires forall j :: 0 <= j < |states| - 1 ==> !Matches(states[j], t, f)
    ensures KeepsLatest(states, |states| - 1, t, f)
  {
  }

  /** Per target and forecast day, the grouping keeps the latest forecast of that day. */
  lemma {:induction false} GroupKeepsLatest(states: seq<SensorState>, t: CivilDate, f: CivilDate)
    ensures var g := GroupByTarget(states);
      (t in g && f in g[t]) <==> exists i :: 0 <= i < |states| && Matches(states[i], t, f)
    ensures var g := GroupByTarget(states);
      t in g && f in g[t] ==> exists i :: KeepsLatest(states, i, t, f) && g[t][f] == StampOf(states[i])
    decreases |states|
  {
    if states != [] {
      var n := |states| - 1;
      var prefix := states[..n];
      var s := states[n];
      GroupKeepsLatest(prefix, t, f);
      var before := GroupByTarget(prefix);
      RecordForecastAt(before, s, t, f);
      assert forall j :: 0 <= j < n ==> states[j] == prefix[j];
      if t in before && f in before[t] {
        var i :| KeepsLatest(prefix, i, t, f) && before[t][f] == StampOf(prefix[i]);
        KeepsLatestStep(states, i, t, f);
      } else if Matches(s, t, f) {
        KeepsLatestFirst(states, t, f);
      }
    }
  }

  /** Horizon h of a target is filled exactly by the pick of horizon h for that target. */
  lemma {:induction false} MergedBeforeAt(picks: int -> map<CivilDate, string>, k: int, t: CivilDate, h: int)
    requires 2 <= k <= 8
    ensures var r := MergedBefore(picks, k);
      && ((t in r && h in r[t]) <==> (2 <= h < k && t in picks(h)))
      && (t in r && h in r[t] ==> r[t][h] == picks(h)[t])
      && (t in r ==> r[t].Keys != {})
    decreases k
  {
    if k > 2 {
      MergedBeforeAt(picks, k - 1, t, h);
      MergeAt(MergedBefore(picks, k - 1), picks(k - 1), k - 1, t, h);
    }
  }

  /** Cell (t, h) after merging the picks of horizon m. */
  lemma MergeAt(result: History, picks: map<CivilDate, string>, m: int, t: CivilDate, h: int)
    ensures var r := Merge(result, picks, m);
      && ((t in r && h in r[t]) <==> ((h == m && t in picks) || (t in result && h in result[t])))
      && (t in r && h in r[t] ==> r[t][h] == if h == m && t in picks then picks[t] else result[t][h])
      && (t in r && t !in picks ==> t in result && r[t] == result[t])
      && (t in r && t in picks ==> m in r[t])
  {
  }

  /**
   * The forecast history holds, for target t and horizon h, exactly the colour of the
   * latest state of the J-h sensor that targets t and was recorded h days before t.
   */
  lemma ForecastHistoryLatest(history: map<int, seq<SensorState>>, t: CivilDate, h: int)
    requires IsHorizon(h)
    ensures var fh := ForecastHistory(history);
      var states := StatesOf(history, h);
      var f := AddDays(t, -h);
      && ((t in fh && h in fh[t]) <==> exists i :: 0 <= i < |states| && Matches(states[i], t, f))
      && (t in fh && h in fh[t] ==> exists i :: KeepsLatest(states, i, t, f) && fh[t][h] == StampOf(states[i]).color)
  {
    var fh := ForecastHistory(history);
    var states := StatesOf(history, h);
    var f := AddDays(t, -h);
    var g: Grouped := GroupByTarget(states);
    var picks := Picks(history, h);
    MergedBeforeAt(p => Picks(history, p), 8, t, h);
    assert (t in fh && h in fh[t]) <==> t in picks;
    assert t in fh && h in fh[t] ==> fh[t][h] == picks[t];
    assert t in picks <==> t in g && f in g[t];
    assert t in picks ==> picks[t] == g[t][f].color;
    GroupKeepsLatest(states, t, f);
  }

  /** Every entry of the forecast history is a colour at one of the horizons J-2 .. J-7. */
  lemma ForecastHistoryShape(history: map<int, seq<SensorState>>, t: CivilDate, h: int)
    requires t in ForecastHistory(history) && h in ForecastHistory(history)[t]
    ensures IsHorizon(h) && IsTempoColor(ForecastHistory(history)[t][h])
  {
    MergedBeforeAt(p => Picks(history, p), 8, t, h);
  }

  // ---------------------------------------------------------------------------
  // Actual colours

  /** s records a colour on day d. */
  predicate ColorOn(s: SensorState, d: CivilDate) {
    StateColor(s.state).Some? && s.lastChanged.day == d
  }

  /** The actual colour per day: a later state overwrites an earlier one of the same day. */
  function ActualsFrom(states: seq<SensorState>): (r: map<CivilDate, string>)
    ensures forall d :: d in r ==> IsTempoColor(r[d])
    decreases |states|
  {
    if states == [] then map[]
    else
      var rest := ActualsFrom(states[..|states| - 1]);
      var s := states[|states| - 1];
      match StateColor(s.state)
      case None => rest
      case Some(color) => rest[s.lastChanged.day := color]
  }

  /** The recorded colours, with tomorrow's official colour when the next-colour entity has one. */
  function ActualColors(states: seq<SensorState>, nextColor: Option<string>, today: CivilDate): (r: map<CivilDate, string>)
    ensures forall d :: d in r ==> IsTempoColor(r[d])
    ensures StateColor(nextColor).Some? ==>
      AddDays(today, 1) in r && r[AddDays(today, 1)] == StateColor(nextColor).value
    ensures StateColor(nextColor).None? ==>
      (AddDays(today, 1) in r <==> AddDays(today, 1) in ActualsFrom(states))
    ensures forall d :: d in r && (d != AddDays(today, 1) || StateColor(nextColor).None?) ==>
      d in ActualsFrom(states) && r[d] == ActualsFrom(states)[d]
    ensures forall d :: d in ActualsFrom(states) ==> d in r
  {
    var actuals := ActualsFrom(states);
    match StateColor(nextColor)
    case None => actuals
    case Some(color) => actuals[AddDays(today, 1) := color]
  }

  method GetActualColors(states: seq<SensorState>, nextColor: Option<string>, today: CivilDate)
    returns (result: map<CivilDate, string>)
    ensures result == ActualColors(states, nextColor, today)
  {
    result := map[];
    for i := 0 to |states|
      invariant result == ActualsFrom(states[..i])
    {
      assert states[..i + 1][..i] == states[..i];
      var color := StateColor(states[i].state);
      if color.Some? {
        result := result[states[i].lastChanged.day := color.value];
      }
    }
    assert states[..|states|] == states;
    var tomorrow := AddDays(today, 1);
    var color := StateColor(nextColor);
    if color.Some? {
      result := result[tomorrow := color.value];
    }
  }

  /** states[i] is the last state recording a colour on day d. */
  predicate LastColorOn(states: seq<SensorState>, i: int, d: CivilDate) {
    0 <= i < |states| && ColorOn(states[i], d) && forall j :: i < j < |states| ==> !ColorOn(states[j], d)
  }

  /** The colour kept for day d is that of the last state recording a colour on d. */
  lemma {:induction false} ActualsKeepLast(states: seq<SensorState>, d: CivilDate)
    ensures d in ActualsFrom(states) <==> exists i :: 0 <= i < |states| && ColorOn(states[i], d)
    ensures d in ActualsFrom(states) ==>
      exists i :: LastColorOn(states, i, d) && ActualsFrom(states)[d] == StateColor(states[i].state).value
    decreases |states|
  {
    if states != [] {
      var n := |states| - 1;
      var prefix := states[..n];
      ActualsKeepLast(prefix, d);
      assert forall j :: 0 <= j < n ==> states[j] == prefix[j];
      if ColorOn(states[n], d) {
        assert LastColorOn(states, n, d);
      } else if d in ActualsFrom(prefix) {
        var i :| LastColorOn(prefix, i, d) && ActualsFrom(prefix)[d] == StateColor(prefix[i].state).value;
        assert LastColorOn(states, i, d);
      }
    }
  }

  // ---------------------------------------------------------------------------
  // Comparing a forecast with the actual colour

  /** Sundays and French holidays are left out of the accuracy figures. */
  predicate IsExcluded(date: CivilDate)
    ensures (date.month, date.day) in FixedHolidays ==> IsExcluded(date)
    ensures IsExcluded(date) && (date.month, date.day) !in FixedHolidays ==>
      Weekday(date) == Sunday || Weekday(date) == Monday || Weekday(date) == Thursday
  {
    HolidayWeekday(date);
    Weekday(date) == Sunday || IsFrenchHoliday(date)
  }

  /** A holiday off the fixed table is a movable one, so a Monday or a Thursday. */
  lemma HolidayWeekday(date: CivilDate)
    ensures IsFrenchHoliday(date) && (date.month, date.day) !in FixedHolidays ==>
      Weekday(date) == Monday || Weekday(date) == Thursday
  {
    if date in GetMovableHolidays(date.year) {
      MovableHolidayIsWeekday(date);
    }
  }

  /** The result symbols "✓", "✗" and "-". */
  datatype Mark = Check | Cross | Dash

  /** No forecast or an excluded day gives "-"; otherwise "✓" exactly when the forecast was right. */
  function Compare(predicted: Option<string>, actual: string, date: CivilDate): (r: Mark)
    ensures r == Check <==> predicted == Some(actual) && !IsExcluded(date)
    ensures r == Cross <==> predicted.Some? && predicted.value != actual && !IsExcluded(date)
    ensures r == Dash <==> predicted.None? || IsExcluded(date)
  {
    if predicted.None? then Dash
    else if IsExcluded(date) then Dash
    else if predicted.value == actual then Check
    else Cross
  }

  /** The excluded days are exactly the days the Tempo rules force to blue with an indicator. */
  lemma ExcludedIffForcedBlue(forecast: ForecastDay)
    ensures IsExcluded(forecast.date) <==> AdjustForecastDay(forecast).indicator.Some?
    ensures IsExcluded(forecast.date) ==> AdjustForecastDay(forecast).color == "bleu"
  {
  }

  /** A Saturday that is not a holiday counts. */
  lemma SaturdayIsCounted(date: CivilDate)
    requires Weekday(date) == Saturday && !IsFrenchHoliday(date)
    ensures !IsExcluded(date)
  {
  }

  // ---------------------------------------------------------------------------
  // The cells of a row

  /** The cells of horizons lo .. 7 of a matrix row, filled from J-7 down. */
  function CellsFrom<T>(cell: int -> T, lo: int): map<int, T>
    decreases 8 - lo
  {
    if lo > 7 then map[] else CellsFrom(cell, lo + 1)[lo := cell(lo)]
  }

  /** The cells of horizons lo .. 7 hold exactly those horizons, each with its own cell. */
  lemma {:induction false} CellsAt<T>(cell: int -> T, lo: int, h: int)
    ensures h in CellsFrom(cell, lo) <==> lo <= h <= 7
    ensures h in CellsFrom(cell, lo) ==> CellsFrom(cell, lo)[h] == cell(h)
    decreases 8 - lo
  {
    if lo <= 7 {
      CellsAt(cell, lo + 1, h);
    }
  }

  /** A row built from lo = 2 has the six horizons J-7 .. J-2 as its keys. */
  lemma RowKeys<T>(cell: int -> T)
    ensures CellsFrom(cell, 2).Keys == Horizons
  {
    forall k
      ensures k in CellsFrom(cell, 2) <==> k in Horizons
    {
      CellsAt(cell, 2, k);
    }
  }

  // ---------------------------------------------------------------------------
  // The past matrix

  /** `{"color": ..., "result": ...}` */
  datatype HorizonForecast = HorizonForecast(color: Option<string>, result: Mark)

  /** `{"date": ..., "actual": ..., "j7": ..., ..., "j2": ...}`, the horizons keyed by h. */
  datatype PastRow = PastRow(date: CivilDate, actual: string, horizons: map<int, HorizonForecast>)

  /** `forecasts.get(date, {}).get(h)` */
  function Predicted(forecasts: History, date: CivilDate, h: int): Option<string> {
    if date in forecasts && h in forecasts[date] then Some(forecasts[date][h]) else None
  }

  function PastCell(forecasts: History, date: CivilDate, actual: string, h: int): HorizonForecast {
    HorizonForecast(Predicted(forecasts, date, h), Compare(Predicted(forecasts, date, h), actual, date))
  }

  /** The row of a date: its actual colour and one compared cell for each horizon J-7 .. J-2. */
  function PastRowFor(forecasts: History, date: CivilDate, actual: string): PastRow {
    PastRow(date, actual, CellsFrom(k => PastCell(forecasts, date, actual, k), 2))
  }

  /** Not after tomorrow, and at most `days` days before today. */
  predicate InPastWindow(date: CivilDate, today: CivilDate, days: int) {
    Ordinal(date) <= Ordinal(today) + 1 && DaysBetween(today, date) <= days
  }

  /** How a row is made from a date and its actual colour. */
  type RowMaker = (CivilDate, string) -> PastRow

  /** The row of a date that has an actual colour and lies in the window. */
  predicate IsPastRow(row: PastRow, rowOf: RowMaker, actuals: map<CivilDate, string>, today: CivilDate, days: int) {
    && row.date in actuals
    && InPastWindow(row.date, today, days)
    && row == rowOf(row.date, actuals[row.date])
  }

  /**
   * The shape of a past matrix, whatever its rows hold: one row for each date with an
   * actual colour in the window, and no other, newest first.
   */
  predicate IsRowTable(matrix: seq<PastRow>, rowOf: RowMaker, actuals: map<CivilDate, string>,
                       today: CivilDate, days: int)
  {
    && (forall i :: 0 <= i < |matrix| ==> IsPastRow(matrix[i], rowOf, actuals, today, days))
    && (forall d :: d in actuals && InPastWindow(d, today, days) ==>
          exists i :: 0 <= i < |matrix| && matrix[i].date == d)
    && (forall i, j :: 0 <= i < j < |matrix| ==> Ordinal(matrix[j].date) < Ordinal(matrix[i].date))
  }

  /** A past matrix: that shape, each row comparing the forecasts for its date with its actual colour. */
  predicate IsPastMatrix(matrix: seq<PastRow>, forecasts: History, actuals: map<CivilDate, string>,
                         today: CivilDate, days: int)
  {
    IsRowTable(matrix, (d: CivilDate, a: string) => PastRowFor(forecasts, d, a), actuals, today, days)
  }

  /** The latest date of a non-empty set. */
  method LatestDate(dates: set<CivilDate>) returns (latest: CivilDate)
    requires dates != {}
    ensures latest in dates
    ensures forall d :: d in dates ==> Ordinal(d) <= Ordinal(latest)
  {
    latest :| latest in dates;
    var rest := dates - {latest};
    while rest != {}
      invariant rest <= dates && latest in dates
      invariant forall d :: d in dates && d !in rest ==> Ordinal(d) <= Ordinal(latest)
      decreases |rest|
    {
      var d :| d in rest;
      if Ordinal(d) > Ordinal(latest) {
        latest := d;
      }
      rest := rest - {d};
    }
  }

  /** `sorted(dates, reverse=True)` */
  method SortDatesDescending(dates: set<CivilDate>) returns (sorted: seq<CivilDate>)
    ensures forall d :: d in sorted <==> d in dates
    ensures forall i, j :: 0 <= i < j < |sorted| ==> Ordinal(sorted[j]) < Ordinal(sorted[i])
  {
    sorted := [];
    var rest := dates;
    while rest != {}
      invariant rest <= dates
      invariant SortedSoFar(sorted, rest, dates)
      decreases |rest|
    {
      var latest := LatestDate(rest);
      SortStep(sorted, rest, dates, latest);
      sorted := sorted + [latest];
      rest := rest - {latest};
    }
  }

  /**
   * The state of the sort: `sorted` holds the dates taken so far, newest first, and every
   * date still to take is older than all of them.
   */
  ghost predicate SortedSoFar(sorted: seq<CivilDate>, rest: set<CivilDate>, dates: set<CivilDate>) {
    && (forall d :: d in sorted <==> d in dates && d !in rest)
    && (forall i, j :: 0 <= i < j < |sorted| ==> Ordinal(sorted[j]) < Ordinal(sorted[i]))
    && (forall d, i :: d in rest && 0 <= i < |sorted| ==> Ordinal(d) < Ordinal(sorted[i]))
  }

  lemma SortStep(sorted: seq<CivilDate>, rest: set<CivilDate>, dates: set<CivilDate>, latest: CivilDate)
    requires rest <= dates && SortedSoFar(sorted, rest, dates)
    requires latest in rest && forall d :: d in rest ==> Ordinal(d) <= Ordinal(latest)
    ensures SortedSoFar(sorted + [latest], rest - {latest}, dates)
  {
    var s := sorted + [latest];
    forall d | d in rest - {latest}
      ensures Ordinal(d) < Ordinal(latest)
    {
      OrdinalInjective(d, latest);
    }
    forall i, j | 0 <= i < j < |s|
      ensures Ordinal(s[j]) < Ordinal(s[i])
    {
      assert s[i] == sorted[i];
    }
    forall d, i | d in rest - {latest} && 0 <= i < |s|
      ensures Ordinal(d) < Ordinal(s[i])
    {
    }
    forall d
      ensures d in s <==> d in dates && d !in rest - {latest}
    {
      assert d in s <==> d in sorted || d == latest;
    }
  }

  /** The row of one date: each horizon's forecast, J-7 first, with its result. */
  method BuildPastRow(forecasts: History, date: CivilDate, actual: string) returns (row: PastRow)
    ensures row == PastRowFor(forecasts, date, actual)
  {
    var cells: map<int, HorizonForecast> := map[];
    for h := 8 downto 2
      invariant cells == CellsFrom(k => PastCell(forecasts, date, actual, k), h)
    {
      var predicted := Predicted(forecasts, date, h);
      var result := Compare(predicted, actual, date);
      cells := cells[h := HorizonForecast(predicted, result)];
    }
    row := PastRow(date, actual, cells);
  }

  /**
   * The past matrix: for each date with an actual colour, newest first, skipping dates
   * after tomorrow and dates more than `days` days old, a row comparing each horizon's
   * forecast with the actual colour.
   */
  method BuildPastMatrix(forecasts: History, actuals: map<CivilDate, string>, today: CivilDate, days: int)
    returns (matrix: seq<PastRow>)
    ensures IsPastMatrix(matrix, forecasts, actuals, today, days)
  {
    var tomorrow := AddDays(today, 1);
    var dates := SortDatesDescending(actuals.Keys);
    matrix := [];
    ghost var index: seq<int> := [];
    ghost var rowOf: RowMaker := (d: CivilDate, a: string) => PastRowFor(forecasts, d, a);
    for i := 0 to |dates|
      invariant PastRowsBuilt(matrix, index, dates, i, rowOf, actuals, today, days)
    {
      var date := dates[i];
      var actual := actuals[date];
      if Ordinal(date) > Ordinal(tomorrow) {
        PastRowSkipped(matrix, index, dates, i, rowOf, actuals, today, days);
        continue;
      }
      if DaysBetween(today, date) > days {
        PastRowSkipped(matrix, index, dates, i, rowOf, actuals, today, days);
        continue;
      }
      var row := BuildPastRow(forecasts, date, actual);
      PastRowAdded(matrix, index, dates, i, rowOf, actuals, today, days, row);
      matrix := matrix + [row];
      index := index + [i];
    }
    PastRowsDone(matrix, index, dates, rowOf, actuals, today, days);
  }

  /**
   * The state of the past-matrix loop after the first i sorted dates: row r comes from
   * sorted date index[r], the indices grow, every row is the row of its date, and every
   * date so far that lies in the window has a row.
   */
  ghost predicate PastRowsBuilt(matrix: seq<PastRow>, index: seq<int>, dates: seq<CivilDate>, i: int,
                                rowOf: RowMaker, actuals: map<CivilDate, string>, today: CivilDate, days: int)
  {
    && |index| == |matrix|
    && (forall r :: 0 <= r < |matrix| ==> 0 <= index[r] < i && index[r] < |dates| && matrix[r].date == dates[index[r]])
    && (forall r, s :: 0 <= r < s < |matrix| ==> index[r] < index[s])
    && (forall r :: 0 <= r < |matrix| ==> IsPastRow(matrix[r], rowOf, actuals, today, days))
    && (forall k :: 0 <= k < i && k < |dates| && InPastWindow(dates[k], today, days) ==> k in index)
  }

  lemma PastRowSkipped(matrix: seq<PastRow>, index: seq<int>, dates: seq<CivilDate>, i: int,
                       rowOf: RowMaker, actuals: map<CivilDate, string>, today: CivilDate, days: int)
    requires PastRowsBuilt(matrix, index, dates, i, rowOf, actuals, today, days)
    requires 0 <= i < |dates|
    requires Ordinal(dates[i]) > Ordinal(today) + 1 || DaysBetween(today, dates[i]) > days
    ensures PastRowsBuilt(matrix, index, dates, i + 1, rowOf, actuals, today, days)
  {
  }

  lemma PastRowAdded(matrix: seq<PastRow>, index: seq<int>, dates: seq<CivilDate>, i: int,
                     rowOf: RowMaker, actuals: map<CivilDate, string>, today: CivilDate, days: int, row: PastRow)
    requires PastRowsBuilt(matrix, index, dates, i, rowOf, actuals, today, days)
    requires 0 <= i < |dates| && dates[i] in actuals && InPastWindow(dates[i], today, days)
    requires row.date == dates[i] && IsPastRow(row, rowOf, actuals, today, days)
    ensures PastRowsBuilt(matrix + [row], index + [i], dates, i + 1, rowOf, actuals, today, days)
  {
    var m, x := matrix + [row], index + [i];
    forall r | 0 <= r < |m|
      ensures 0 <= x[r] < i + 1 && x[r] < |dates| && m[r].date == dates[x[r]]
      ensures IsPastRow(m[r], rowOf, actuals, today, days)
    {
      if r < |matrix| {
        assert m[r] == matrix[r] && x[r] == index[r];
      }
    }
    forall r, s | 0 <= r < s < |m|
      ensures x[r] < x[s]
    {
      assert x[r] == index[r];
    }
    forall k | 0 <= k < i + 1 && k < |dates| && InPastWindow(dates[k], today, days)
      ensures k in x
    {
      if k < i {
        assert k in index;
      } else {
        assert x[|matrix|] == i;
      }
    }
  }

  lemma PastRowsDone(matrix: seq<PastRow>, index: seq<int>, dates: seq<CivilDate>,
                     rowOf: RowMaker, actuals: map<CivilDate, string>, today: CivilDate, days: int)
    requires PastRowsBuilt(matrix, index, dates, |dates|, rowOf, actuals, today, days)
    requires forall d :: d in dates <==> d in actuals
    requires forall i, j :: 0 <= i < j < |dates| ==> Ordinal(dates[j]) < Ordinal(dates[i])
    ensures IsRowTable(matrix, rowOf, actuals, today, days)
  {
    forall d | d in actuals && InPastWindow(d, today, days)
      ensures exists r :: 0 <= r < |matrix| && matrix[r].date == d
    {
      var k :| 0 <= k < |dates| && dates[k] == d;
      var r :| 0 <= r < |index| && index[r] == k;
      assert matrix[r].date == d;
    }
    forall r, s | 0 <= r < s < |matrix|
      ensures Ordinal(matrix[s].date) < Ordinal(matrix[r].date)
    {
      assert index[r] < index[s];
    }
  }

  /** Every row of a past matrix has all six horizons, each with a colour and a result. */
  lemma PastRowsComplete(matrix: seq<PastRow>, forecasts: History, actuals: map<CivilDate, string>,
                         today: CivilDate, days: int, i: int, h: int)
    requires IsPastMatrix(matrix, forecasts, actuals, today, days)
    requires 0 <= i < |matrix|
    ensures matrix[i].horizons.Keys == Horizons
    ensures IsHorizon(h) ==>
      h in matrix[i].horizons
      && matrix[i].horizons[h].color == Predicted(forecasts, matrix[i].date, h)
      && matrix[i].horizons[h].result == Compare(matrix[i].horizons[h].color, matrix[i].actual, matrix[i].date)
    ensures matrix[i].actual == actuals[matrix[i].date]
  {
    var row := matrix[i];
    RowKeys(k => PastCell(forecasts, row.date, row.actual, k));
    CellsAt(k => PastCell(forecasts, row.date, row.actual, k), 2, h);
  }

  /** The contract of the past matrix leaves no choice: two matrices meeting it are equal. */
  lemma PastMatrixUnique(m1: seq<PastRow>, m2: seq<PastRow>, forecasts: History,
                         actuals: map<CivilDate, string>, today: CivilDate, days: int)
    requires IsPastMatrix(m1, forecasts, actuals, today, days)
    requires IsPastMatrix(m2, forecasts, actuals, today, days)
    ensures m1 == m2
  {
    RowTableUnique(m1, m2, (d: CivilDate, a: string) => PastRowFor(forecasts, d, a), actuals, today, days);
  }

  /** Two tables of the same shape built by the same row maker are equal. */
  lemma {:induction false} RowTableUnique(m1: seq<PastRow>, m2: seq<PastRow>, rowOf: RowMaker,
                                          actuals: map<CivilDate, string>, today: CivilDate, days: int)
    requires IsRowTable(m1, rowOf, actuals, today, days)
    requires IsRowTable(m2, rowOf, actuals, today, days)
    ensures m1 == m2
    decreases |m1| + |m2|
  {
    RowTableNonEmpty(m1, m2, rowOf, actuals, today, days);
    RowTableNonEmpty(m2, m1, rowOf, actuals, today, days);
    if m1 != [] {
      var d1, d2 := m1[0].date, m2[0].date;
      var j2 :| 0 <= j2 < |m2| && m2[j2].date == d1;
      var j1 :| 0 <= j1 < |m1| && m1[j1].date == d2;
      assert Ordinal(d1) == Ordinal(d2);
      OrdinalInjective(d1, d2);
      assert d1 == d2;
      var rest := Restricted(actuals, d1);
      RowTableTail(m1, rowOf, actuals, today, days, d1);
      RowTableTail(m2, rowOf, actuals, today, days, d1);
      RowTableUnique(m1[1..], m2[1..], rowOf, rest, today, days);
      assert m1[0] == rowOf(d1, actuals[d1]) == m2[0];
      SameHeadAndTail(m1, m2);
    }
  }

  /** A table is empty only when no date has an actual colour in the window. */
  lemma RowTableNonEmpty(m: seq<PastRow>, other: seq<PastRow>, rowOf: RowMaker,
                         actuals: map<CivilDate, string>, today: CivilDate, days: int)
    requires IsRowTable(m, rowOf, actuals, today, days)
    requires IsRowTable(other, rowOf, actuals, today, days)
    ensures other != [] ==> m != []
  {
    if other != [] {
      var d := other[0].date;
      assert d in actuals && InPastWindow(d, today, days);
    }
  }

  lemma SameHeadAndTail<T>(a: seq<T>, b: seq<T>)
    requires a != [] && b != [] && a[0] == b[0] && a[1..] == b[1..]
    ensures a == b
  {
    assert a == [a[0]] + a[1..];
    assert b == [b[0]] + b[1..];
  }

  function Restricted(actuals: map<CivilDate, string>, d: CivilDate): map<CivilDate, string> {
    map e | e in actuals && Ordinal(e) < Ordinal(d) :: actuals[e]
  }

  lemma RowTableTail(m: seq<PastRow>, rowOf: RowMaker, actuals: map<CivilDate, string>,
                     today: CivilDate, days: int, d: CivilDate)
    requires IsRowTable(m, rowOf, actuals, today, days)
    requires m != [] && m[0].date == d
    ensures IsRowTable(m[1..], rowOf, Restricted(actuals, d), today, days)
  {
    var rest := Restricted(actuals, d);
    var tail := m[1..];
    forall i | 0 <= i < |tail|
      ensures IsPastRow(tail[i], rowOf, rest, today, days)
    {
      assert tail[i] == m[i + 1];
      assert Ordinal(m[i + 1].date) < Ordinal(m[0].date);
    }
    forall i, j | 0 <= i < j < |tail|
      ensures Ordinal(tail[j].date) < Ordinal(tail[i].date)
    {
      assert tail[i] == m[i + 1] && tail[j] == m[j + 1];
    }
    forall e | e in rest && InPastWindow(e, today, days)
      ensures exists i :: 0 <= i < |tail| && tail[i].date == e
    {
      var i :| 0 <= i < |m| && m[i].date == e;
      assert i != 0;
      assert tail[i - 1].date == e;
    }
  }

  // ---------------------------------------------------------------------------
  // The future matrix

  /** `{"date": ..., "j7": {"color": ...}, ..., "j2": {"color": ...}}`, the horizons keyed by h. */
  datatype FutureRow = FutureRow(date: CivilDate, horizons: map<int, Option<string>>)

  /**
   * The row of the day `daysAhead` days after today: horizon h holds the recorded
   * forecast when it has already been made (h >= daysAhead), and nothing otherwise.
   */
  function FutureRowFor(forecasts: History, today: CivilDate, daysAhead: int): FutureRow {
    var target := AddDays(today, daysAhead);
    FutureRow(target, CellsFrom(k => FutureCell(forecasts, target, daysAhead, k), 2))
  }

  function FutureCell(forecasts: History, target: CivilDate, daysAhead: int, h: int): Option<string> {
    if h >= daysAhead then Predicted(forecasts, target, h) else None
  }

  /** The cells of one future row, horizon J-7 first. */
  method BuildFutureRow(forecasts: History, today: CivilDate, daysAhead: int) returns (row: FutureRow)
    ensures row == FutureRowFor(forecasts, today, daysAhead)
  {
    var target := AddDays(today, daysAhead);
    var cells: map<int, Option<string>> := map[];
    for h := 8 downto 2
      invariant cells == CellsFrom(k => FutureCell(forecasts, target, daysAhead, k), h)
    {
      var forecastDate := AddDays(target, -h);
      ForecastDayPassed(today, daysAhead, h);
      if Ordinal(forecastDate) <= Ordinal(today) {
        cells := cells[h := Predicted(forecasts, target, h)];
      } else {
        cells := cells[h := None];
      }
    }
    row := FutureRow(target, cells);
  }

  /** The forecast for the day `daysAhead` days on at horizon h is made on or before today exactly when h >= daysAhead. */
  lemma ForecastDayPassed(today: CivilDate, daysAhead: int, h: int)
    ensures Ordinal(AddDays(AddDays(today, daysAhead), -h)) <= Ordinal(today) <==> h >= daysAhead
  {
  }

  /** The future matrix: the six days J+2 .. J+7, nearest first. */
  method BuildFutureMatrix(forecasts: History, today: CivilDate) returns (matrix: seq<FutureRow>)
    ensures |matrix| == 6
    ensures forall i :: 0 <= i < 6 ==> matrix[i] == FutureRowFor(forecasts, today, i + 2)
    ensures forall i, j :: 0 <= i < j < 6 ==> Ordinal(matrix[i].date) < Ordinal(matrix[j].date)
  {
    matrix := [];
    for daysAhead := 2 to 8
      invariant |matrix| == daysAhead - 2
      invariant forall i :: 0 <= i < |matrix| ==> matrix[i] == FutureRowFor(forecasts, today, i + 2)
    {
      var row := BuildFutureRow(forecasts, today, daysAhead);
      FutureRowsAppend(matrix, row, forecasts, today);
      matrix := matrix + [row];
    }
    FutureRowsAscending(matrix, forecasts, today);
  }

  lemma FutureRowsAppend(matrix: seq<FutureRow>, row: FutureRow, forecasts: History, today: CivilDate)
    requires forall i :: 0 <= i < |matrix| ==> matrix[i] == FutureRowFor(forecasts, today, i + 2)
    requires row == FutureRowFor(forecasts, today, |matrix| + 2)
    ensures forall i :: 0 <= i < |matrix| + 1 ==> (matrix + [row])[i] == FutureRowFor(forecasts, today, i + 2)
  {
  }

  lemma FutureRowsAscending(matrix: seq<FutureRow>, forecasts: History, today: CivilDate)
    requires |matrix| == 6
    requires forall i :: 0 <= i < 6 ==> matrix[i] == FutureRowFor(forecasts, today, i + 2)
    ensures forall i, j :: 0 <= i < j < 6 ==> Ordinal(matrix[i].date) < Ordinal(matrix[j].date)
  {
    forall i, j | 0 <= i < j < 6
      ensures Ordinal(matrix[i].date) < Ordinal(matrix[j].date)
    {
      FutureRowDate(forecasts, today, i + 2);
      FutureRowDate(forecasts, today, j + 2);
    }
  }

  lemma FutureRowDate(forecasts: History, today: CivilDate, daysAhead: int)
    ensures Ordinal(FutureRowFor(forecasts, today, daysAhead).date) == Ordinal(today) + daysAhead
  {
  }

  /** Horizon h of a future row is empty whenever its forecast day is still to come. */
  lemma FutureRowDiagonal(forecasts: History, today: CivilDate, daysAhead: int, h: int)
    requires IsHorizon(h)
    ensures var row := FutureRowFor(forecasts, today, daysAhead);
      && row.horizons.Keys == Horizons
      && h in row.horizons
      && (Ordinal(AddDays(row.date, -h)) > Ordinal(today) <==> h < daysAhead)
      && (h < daysAhead ==> row.horizons[h].None?)
      && (h >= daysAhead ==> row.horizons[h] == Predicted(forecasts, row.date, h))
  {
    var target := AddDays(today, daysAhead);
    RowKeys(k => FutureCell(forecasts, target, daysAhead, k));
    CellsAt(k => FutureCell(forecasts, target, daysAhead, k), 2, h);
  }

  // ---------------------------------------------------------------------------
  // Accuracy per horizon

  /** `row.get(f"j{h}", {}).get("result", "-")` */
  function ResultAt(row: PastRow, h: int): Mark {
    if h in row.horizons then row.horizons[h].result else Dash
  }

  /** Rows whose result at h is "✓" or "✗". */
  function ValidCount(rows: seq<PastRow>, h: int): nat
    decreases |rows|
  {
    if rows == [] then 0
    else ValidCount(rows[..|rows| - 1], h) + (if ResultAt(rows[|rows| - 1], h) != Dash then 1 else 0)
  }

  /** Rows whose result at h is "✓". */
  function CorrectCount(rows: seq<PastRow>, h: int): (n: nat)
    ensures n <= ValidCount(rows, h)
    decreases |rows|
  {
    if rows == [] then 0
    else CorrectCount(rows[..|rows| - 1], h) + (if ResultAt(rows[|rows| - 1], h) == Check then 1 else 0)
  }

  /** The percentage of counted forecasts at h that were right; 0 when none counts. */
  function HorizonAccuracy(rows: seq<PastRow>, h: int): (r: real)
    ensures 0.0 <= r <= 100.0
    ensures ValidCount(rows, h) == 0 ==> r == 0.0
  {
    var valid := ValidCount(rows, h);
    var correct := CorrectCount(rows, h);
    if valid == 0 then 0.0
    else
      PercentageBounds(correct, valid);
      100.0 * (correct as real) / (valid as real)
  }

  lemma PercentageBounds(part: nat, whole: nat)
    requires part <= whole && 0 < whole
    ensures 0.0 <= 100.0 * (part as real) / (whole as real) <= 100.0
  {
    var q := (part as real) / (whole as real);
    assert q * (whole as real) == part as real;
    assert q <= 1.0;
  }

  method CalculateHorizonAccuracy(pastMatrix: seq<PastRow>, horizon: int) returns (accuracy: real)
    ensures accuracy == HorizonAccuracy(pastMatrix, horizon)
  {
    var valid: seq<Mark> := [];
    var correct := 0;
    for i := 0 to |pastMatrix|
      invariant |valid| == ValidCount(pastMatrix[..i], horizon)
      invariant correct == CorrectCount(pastMatrix[..i], horizon)
    {
      assert pastMatrix[..i + 1][..i] == pastMatrix[..i];
      var result := ResultAt(pastMatrix[i], horizon);
      if result != Dash {
        valid := valid + [result];
        if result == Check {
          correct := correct + 1;
        }
      }
    }
    assert pastMatrix[..|pastMatrix|] == pastMatrix;
    if |valid| == 0 {
      return 0.0;
    }
    accuracy := 100.0 * (correct as real) / (|valid| as real);
  }

  lemma {:induction false} CountsAppend(xs: seq<PastRow>, ys: seq<PastRow>, h: int)
    ensures ValidCount(xs + ys, h) == ValidCount(xs, h) + ValidCount(ys, h)
    ensures CorrectCount(xs + ys, h) == CorrectCount(xs, h) + CorrectCount(ys, h)
    decreases |ys|
  {
    if ys == [] {
      assert xs + ys == xs;
    } else {
      var n := |ys| - 1;
      assert (xs + ys)[..|xs + ys| - 1] == xs + ys[..n];
      CountsAppend(xs, ys[..n], h);
    }
  }

  /** A row whose result at h is "-" (or missing) does not change the accuracy at h. */
  lemma AccuracyIgnoresDash(xs: seq<PastRow>, row: PastRow, ys: seq<PastRow>, h: int)
    requires ResultAt(row, h) == Dash
    ensures HorizonAccuracy(xs + [row] + ys, h) == HorizonAccuracy(xs + ys, h)
  {
    CountsAppend(xs + [row], ys, h);
    CountsAppend(xs, [row], h);
    CountsAppend(xs, ys, h);
    assert ValidCount([row], h) == 0 && CorrectCount([row], h) == 0 by {
      assert [row][..0] == [];
    }
  }

  lemma {:induction false} AllCorrectCounts(rows: seq<PastRow>, h: int)
    requires forall i :: 0 <= i < |rows| ==> ResultAt(rows[i], h) == Check
    ensures CorrectCount(rows, h) == ValidCount(rows, h) == |rows|
    decreases |rows|
  {
    if rows != [] {
      AllCorrectCounts(rows[..|rows| - 1], h);
    }
  }

  lemma {:induction false} AllIncorrectCounts(rows: seq<PastRow>, h: int)
    requires forall i :: 0 <= i < |rows| ==> ResultAt(rows[i], h) == Cross
    ensures CorrectCount(rows, h) == 0 && ValidCount(rows, h) == |rows|
    decreases |rows|
  {
    if rows != [] {
      AllIncorrectCounts(rows[..|rows| - 1], h);
    }
  }

  /** All forecasts right gives 100; all wrong gives 0. */
  lemma AccuracyExtremes(rows: seq<PastRow>, h: int)
    requires rows != []
    ensures (forall i :: 0 <= i < |rows| ==> ResultAt(rows[i], h) == Check) ==> HorizonAccuracy(rows, h) == 100.0
    ensures (forall i :: 0 <= i < |rows| ==> ResultAt(rows[i], h) == Cross) ==> HorizonAccuracy(rows, h) == 0.0
  {
    if forall i :: 0 <= i < |rows| ==> ResultAt(rows[i], h) == Check {
      AllCorrectCounts(rows, h);
    }
    if forall i :: 0 <= i < |rows| ==> ResultAt(rows[i], h) == Cross {
      AllIncorrectCounts(rows, h);
    }
  }

  /** `accuracy_j2` .. `accuracy_j7`, keyed by horizon. */
  method AccuracyByHorizon(pastMatrix: seq<PastRow>) returns (accuracies: map<int, real>)
    ensures accuracies.Keys == Horizons
    ensures forall h :: h in Horizons ==> accuracies[h] == HorizonAccuracy(pastMatrix, h)
  {
    accuracies := map[];
    for h := 2 to 8
      invariant forall k :: k in accuracies <==> 2 <= k < h
      invariant forall k :: 2 <= k < h ==> accuracies[k] == HorizonAccuracy(pastMatrix, k)
    {
      var accuracy := CalculateHorizonAccuracy(pastMatrix, h);
      accuracies := accuracies[h := accuracy];
    }
    assert forall k :: k in accuracies.Keys <==> k in Horizons;
  }

  // ---------------------------------------------------------------------------
  // Totals over all horizons

  /** Horizons 2 .. k-1 of a row whose result is `mark`. */
  function RowMarks(row: PastRow, mark: Mark, k: int): nat
    requires 2 <= k <= 8
    decreases k
  {
    if k == 2 then 0 else RowMarks(row, mark, k - 1) + (if ResultAt(row, k - 1) == mark then 1 else 0)
  }

  /** Cells of all rows whose result is `mark`. */
  function MarkCount(rows: seq<PastRow>, mark: Mark): nat
    decreases |rows|
  {
    if rows == [] then 0 else MarkCount(rows[..|rows| - 1], mark) + RowMarks(rows[|rows| - 1], mark, 8)
  }

  /** The totals of `analyze`: cells marked "✓", "✗" and "-" over horizons 2 .. 7. */
  method CountPredictions(pastMatrix: seq<PastRow>) returns (correct: nat, incorrect: nat, excluded: nat)
    ensures correct == MarkCount(pastMatrix, Check)
    ensures incorrect == MarkCount(pastMatrix, Cross)
    ensures excluded == MarkCount(pastMatrix, Dash)
    ensures correct + incorrect + excluded == 6 * |pastMatrix|
  {
    correct, incorrect, excluded := 0, 0, 0;
    for i := 0 to |pastMatrix|
      invariant correct == MarkCount(pastMatrix[..i], Check)
      invariant incorrect == MarkCount(pastMatrix[..i], Cross)
      invariant excluded == MarkCount(pastMatrix[..i], Dash)
      invariant correct + incorrect + excluded == 6 * i
    {
      assert pastMatrix[..i + 1][..i] == pastMatrix[..i];
      var c, x, e := CountRow(pastMatrix[i]);
      correct, incorrect, excluded := correct + c, incorrect + x, excluded + e;
    }
    assert pastMatrix[..|pastMatrix|] == pastMatrix;
  }

  /** The inner loop of the totals: one row's results over horizons 2 .. 7. */
  method CountRow(row: PastRow) returns (correct: nat, incorrect: nat, excluded: nat)
    ensures correct == RowMarks(row, Check, 8)
    ensures incorrect == RowMarks(row, Cross, 8)
    ensures excluded == RowMarks(row, Dash, 8)
    ensures correct + incorrect + excluded == 6
  {
    correct, incorrect, excluded := 0, 0, 0;
    for h := 2 to 8
      invariant correct == RowMarks(row, Check, h)
      invariant incorrect == RowMarks(row, Cross, h)
      invariant excluded == RowMarks(row, Dash, h)
      invariant correct + incorrect + excluded == h - 2
    {
      var result := ResultAt(row, h);
      if result == Check {
        correct := correct + 1;
      } else if result == Cross {
        incorrect := incorrect + 1;
      } else if result == Dash {
        excluded := excluded + 1;
      }
    }
  }

  // ---------------------------------------------------------------------------
  // The analysis

  /** `[x for x in xs if keep(x)]` */
  function Filter<T>(xs: seq<T>, keep: T -> bool): (r: seq<T>)
    ensures |r| <= |xs|
    ensures forall i :: 0 <= i < |r| ==> r[i] in xs && keep(r[i])
    ensures forall i :: 0 <= i < |xs| && keep(xs[i]) ==> xs[i] in r
    ensures r == [] <==> forall i :: 0 <= i < |xs| ==> !keep(xs[i])
    decreases |xs|
  {
    if xs == [] then []
    else
      var rest := Filter(xs[1..], keep);
      assert forall i :: 1 <= i < |xs| ==> xs[i] == xs[1..][i - 1];
      if keep(xs[0]) then [xs[0]] + rest else rest
  }

  /** The filter keeps order and multiplicity: filtering a concatenation concatenates the filtered parts. */
  lemma {:induction false} FilterAppend<T>(xs: seq<T>, ys: seq<T>, keep: T -> bool)
    ensures Filter(xs + ys, keep) == Filter(xs, keep) + Filter(ys, keep)
    decreases |xs|
  {
    if xs == [] {
      assert xs + ys == ys;
    } else {
      assert (xs + ys)[0] == xs[0];
      assert (xs + ys)[1..] == xs[1..] + ys;
      FilterAppend(xs[1..], ys, keep);
    }
  }

  /** Rows dated on or after `cutoff`, in their order. */
  function RecentRows(rows: seq<PastRow>, cutoff: CivilDate): (r: seq<PastRow>)
    ensures forall i :: 0 <= i < |r| ==> r[i] in rows && Ordinal(r[i].date) >= Ordinal(cutoff)
    ensures forall i :: 0 <= i < |rows| && Ordinal(rows[i].date) >= Ordinal(cutoff) ==> rows[i] in r
    ensures |r| <= |rows|
    ensures r == [] <==> forall i :: 0 <= i < |rows| ==> Ordinal(rows[i].date) < Ordinal(cutoff)
  {
    Filter(rows, (row: PastRow) => Ordinal(row.date) >= Ordinal(cutoff))
  }

  /** A single row is kept exactly when it is dated on or after the cutoff. */
  lemma RecentRowsSingle(row: PastRow, cutoff: CivilDate)
    ensures RecentRows([row], cutoff) == if Ordinal(row.date) >= Ordinal(cutoff) then [row] else []
  {
    assert [row][1..] == [];
  }

  /**
   * The 7-day filter keeps the order and the multiplicity of the rows: filtering a
   * concatenation is concatenating the filtered parts, so with `RecentRowsSingle` the
   * result is fixed row by row.
   */
  lemma RecentRowsAppend(xs: seq<PastRow>, ys: seq<PastRow>, cutoff: CivilDate)
    ensures RecentRows(xs + ys, cutoff) == RecentRows(xs, cutoff) + RecentRows(ys, cutoff)
  {
    FilterAppend(xs, ys, (row: PastRow) => Ordinal(row.date) >= Ordinal(cutoff));
  }

  datatype Report = Report(
    accuracy30d: real,
    accuracy7d: real,
    horizonAccuracy: map<int, real>,
    totalDays: nat,
    correctPredictions: nat,
    incorrectPredictions: nat,
    excludedPredictions: nat,
    pastMatrix: seq<PastRow>,
    futureMatrix: seq<FutureRow>)

  /**
   * The full analysis. `pastHistory` and `futureHistory` are the forecast sensors'
   * recorder histories over the windows the past and future matrices read,
   * `currentColors` the current-colour sensor's history and `nextColor` the state of
   * the next-colour entity.
   */
  method Analyze(pastHistory: map<int, seq<SensorState>>, futureHistory: map<int, seq<SensorState>>,
                 currentColors: seq<SensorState>, nextColor: Option<string>, today: CivilDate, days: int)
    returns (report: Report)
    ensures IsPastMatrix(report.pastMatrix, ForecastHistory(pastHistory),
                         ActualColors(currentColors, nextColor, today), today, days)
    ensures |report.futureMatrix| == 6
    ensures forall i :: 0 <= i < 6 ==> report.futureMatrix[i] == FutureRowFor(ForecastHistory(futureHistory), today, i + 2)
    ensures report.horizonAccuracy.Keys == Horizons
    ensures forall h :: h in Horizons ==> report.horizonAccuracy[h] == HorizonAccuracy(report.pastMatrix, h)
    ensures report.accuracy30d == report.horizonAccuracy[2]
    ensures report.accuracy7d == HorizonAccuracy(RecentRows(report.pastMatrix, AddDays(today, -7)), 2)
    ensures report.totalDays == |report.pastMatrix|
    ensures report.correctPredictions == MarkCount(report.pastMatrix, Check)
    ensures report.incorrectPredictions == MarkCount(report.pastMatrix, Cross)
    ensures report.excludedPredictions == MarkCount(report.pastMatrix, Dash)
    ensures report.correctPredictions + report.incorrectPredictions + report.excludedPredictions
         == 6 * report.totalDays
  {
    var pastForecasts := GetForecastHistoryByTargetDate(pastHistory);
    var actuals := GetActualColors(currentColors, nextColor, today);
    var pastMatrix := BuildPastMatrix(pastForecasts, actuals, today, days);
    var futureForecasts := GetForecastHistoryByTargetDate(futureHistory);
    var futureMatrix := BuildFutureMatrix(futureForecasts, today);

    var horizonAccuracy := AccuracyByHorizon(pastMatrix);

    var correct, incorrect, excluded := CountPredictions(pastMatrix);
    var accuracy30d := CalculateHorizonAccuracy(pastMatrix, 2);

    var cutoff := AddDays(today, -7);
    var recent := RecentRows(pastMatrix, cutoff);
    var accuracy7d := 0.0;
    if recent != [] {
      accuracy7d := CalculateHorizonAccuracy(recent, 2);
    }

    report := Report(accuracy30d, accuracy7d, horizonAccuracy, |pastMatrix|,
                     correct, incorrect, excluded, pastMatrix, futureMatrix);
  }
}
