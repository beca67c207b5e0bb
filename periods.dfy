/**
 * The time arithmetic of `UsageCalculator` (src/sdk/usage-calculator.js):
 * resolving a named period to its start and naming the bucket of an instant.
 */
module Periods {
  import opened JsValues
  import opened Results
  import opened Time

  datatype GroupBy = Hour | Day | Week | Month

  /** `['hour', 'day', 'week', 'month'].includes(v)`, with the matching granularity. */
  function ParseGroupBy(v: Value): (g: Option<GroupBy>)
    ensures g.Some? <==> v in {Str("hour"), Str("day"), Str("week"), Str("month")}
  {
    if v == Str("hour") then Some(Hour)
    else if v == Str("day") then Some(Day)
    else if v == Str("week") then Some(Week)
    else if v == Str("month") then Some(Month)
    else None
  }

  /** Midnight (UTC) on the first day of the month of `now`. */
  function MonthStart(now: int): int {
    var days := DayNumber(now);
    (days - (CivilFromDays(days).day - 1)) * DAY_MS
  }

  /** `now` moved back to the last Sunday, keeping its time of day. */
  function WeekStart(now: int): int {
    now - DayOfWeek(now) * DAY_MS
  }

  /** `_getStartDate(period)`: the first instant of a named period ending at `now`. */
  function StartDate(period: Value, now: int): (r: Result<int>)
    ensures r.Ok? <==>
      period in {Str("current_month"), Str("last_30_days"), Str("last_28_days"), Str("current_week")}
    ensures r.Err? ==> r.error == InvalidPeriod
  {
    if period == Str("current_month") then Ok(MonthStart(now))
    else if period == Str("last_30_days") then Ok(now - 30 * DAY_MS)
    else if period == Str("last_28_days") then Ok(now - 28 * DAY_MS)
    else if period == Str("current_week") then Ok(WeekStart(now))
    else Err(InvalidPeriod)
  }

  lemma DayNumberShift(t: int, k: int)
    ensures DayNumber(t - k * DAY_MS) == DayNumber(t) - k
    ensures (t - k * DAY_MS) % DAY_MS == t % DAY_MS
  {
    var q, r := t / DAY_MS, t % DAY_MS;
    assert t - k * DAY_MS == (q - k) * DAY_MS + r;
  }

  lemma WeekStartIsSunday(now: int)
    ensures now - WeekStart(now) == DayOfWeek(now) * DAY_MS
    ensures DayOfWeek(WeekStart(now)) == 0
    ensures WeekStart(now) % DAY_MS == now % DAY_MS
  {
    DayNumberShift(now, DayOfWeek(now));
  }

  lemma MonthStartIsMidnightOfDayOne(now: int)
    ensures MonthStart(now) <= now
    ensures MonthStart(now) % DAY_MS == 0
    ensures DayNumber(now) - DayNumber(MonthStart(now)) == CivilFromDays(DayNumber(now)).day - 1
  {
    DaysBackAtMidnight(now, CivilFromDays(DayNumber(now)).day - 1);
  }

  /** Midnight `k` days before the day of `now` is at or before `now` and on the expected day. */
  lemma DaysBackAtMidnight(now: int, k: int)
    requires 0 <= k
    ensures (DayNumber(now) - k) * DAY_MS <= now
    ensures (DayNumber(now) - k) * DAY_MS % DAY_MS == 0
    ensures DayNumber((DayNumber(now) - k) * DAY_MS) == DayNumber(now) - k
  {
    var days := DayNumber(now);
    DayNumberShift(days * DAY_MS, k);
    assert days * DAY_MS - k * DAY_MS == (days - k) * DAY_MS;
    assert days * DAY_MS <= now;
  }

  /** What each period's start means relative to `now`. */
  lemma StartDateWindow(period: Value, now: int)
    requires StartDate(period, now).Ok?
    ensures StartDate(period, now).value <= now
    ensures period == Str("last_30_days") ==> now - StartDate(period, now).value == 30 * 86400000
    ensures period == Str("last_28_days") ==> now - StartDate(period, now).value == 28 * 86400000
    ensures period == Str("current_week") ==>
      var s := StartDate(period, now).value;
      && now - s == DayOfWeek(now) * DAY_MS
      && now - s < 7 * DAY_MS
      && DayOfWeek(s) == 0
      && s % DAY_MS == now % DAY_MS
    ensures period == Str("current_month") ==>
      var s := StartDate(period, now).value;
      && s % DAY_MS == 0
      && DayNumber(now) - DayNumber(s) == CivilFromDays(DayNumber(now)).day - 1
  {
    if period == Str("current_week") {
      WeekStartIsSunday(now);
    } else if period == Str("current_month") {
      MonthStartIsMidnightOfDayOne(now);
    }
  }

  /** Every named period starts no later than `now`. */
  lemma StartDateNotAfterNow(period: Value, now: int)
    requires StartDate(period, now).Ok?
    ensures StartDate(period, now).value <= now
  {
    StartDateWindow(period, now);
  }

  /** `_getPeriodKey(date, groupBy)`: a prefix of the ISO text of the instant (or of its week's start). */
  function PeriodKey(t: int, g: GroupBy): (key: string)
    ensures g == Day || g == Week ==> |key| == 10
    ensures g == Month ==> |key| == 7
    ensures g == Hour ==> |key| == 20 && key[13..] == ":00:00Z"
  {
    match g
    case Hour => IsoString(t)[..13] + ":00:00Z"
    case Day => IsoString(t)[..10]
    case Week => IsoString(WeekStart(t))[..10]
    case Month => IsoString(t)[..7]
  }

  /** The number of the hour, day, week or month an instant falls in. */
  function PeriodIndex(t: int, g: GroupBy): int {
    match g
    case Hour => t / HOUR_MS
    case Day => DayNumber(t)
    case Week => DayNumber(t) - DayOfWeek(t)
    case Month =>
      var c := CivilFromDays(DayNumber(t));
      c.year * 12 + c.month - 1
  }

  lemma SameHourSameKey(t1: int, t2: int)
    requires t1 / HOUR_MS == t2 / HOUR_MS
    ensures PeriodKey(t1, Hour) == PeriodKey(t2, Hour)
  {
    var h := t1 / HOUR_MS;
    assert DayNumber(t1) == h / 24 == DayNumber(t2);
    assert t1 % DAY_MS / HOUR_MS == h % 24 == t2 % DAY_MS / HOUR_MS;
    assert HourText(t1) == HourText(t2);
  }

  lemma SameWeekSameKey(t1: int, t2: int)
    requires DayNumber(t1) - DayOfWeek(t1) == DayNumber(t2) - DayOfWeek(t2)
    ensures PeriodKey(t1, Week) == PeriodKey(t2, Week)
  {
    DayNumberShift(t1, DayOfWeek(t1));
    DayNumberShift(t2, DayOfWeek(t2));
    assert DayNumber(WeekStart(t1)) == DayNumber(WeekStart(t2));
  }

  lemma SameMonthSameKey(t1: int, t2: int)
    requires PeriodIndex(t1, Month) == PeriodIndex(t2, Month)
    ensures PeriodKey(t1, Month) == PeriodKey(t2, Month)
  {
    var c1, c2 := CivilFromDays(DayNumber(t1)), CivilFromDays(DayNumber(t2));
    assert c1.year == c2.year && c1.month == c2.month;
    var p := YearText(c1.year) + "-" + Pad(c1.month, 2);
    assert DateText(DayNumber(t1)) == p + "-" + Pad(c1.day, 2);
    assert DateText(DayNumber(t2)) == p + "-" + Pad(c2.day, 2);
    assert IsoString(t1)[..7] == DateText(DayNumber(t1))[..7] == p[..7];
    assert IsoString(t2)[..7] == DateText(DayNumber(t2))[..7] == p[..7];
  }

  /** Two instants in the same hour, day, week or month get the same period key. */
  lemma SamePeriodSameKey(t1: int, t2: int, g: GroupBy)
    requires PeriodIndex(t1, g) == PeriodIndex(t2, g)
    ensures PeriodKey(t1, g) == PeriodKey(t2, g)
  {
    match g
    case Hour => SameHourSameKey(t1, t2);
    case Day =>
    case Week => SameWeekSameKey(t1, t2);
    case Month => SameMonthSameKey(t1, t2);
  }
}
