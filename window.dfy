/**
 * The schedule window evaluator: `ScheduleSpec.Contains` and the helpers it
 * dispatches to. An instant is a whole number of seconds since
 * 1970-01-01T00:00:00Z; a time zone is a fixed offset east of UTC, looked up
 * by name. Inside the evaluator every comparison is between wall-clock
 * seconds of the schedule's zone, which orders instants exactly as the
 * absolute times do because one offset applies to all of them.
 */
module Window {
  import opened Wrappers
  import Civil
  import Layout
  import opened Types

  type Instant = int

  /** The zone database: zone name to its offset east of UTC, in seconds. */
  type Zones = map<string, int>

  datatype Error =
    | UnknownLocation(zone: string)
    | StartTimeUnparsable(startTime: string)
    | EndTimeUnparsable(endTime: string)
    | StartDayOfWeekNotFound(day: string)
    | EndDayOfWeekInvalid(day: string)
    | UnsupportedScheduleType(scheduleType: ScheduleType)

  const D: int := Civil.SecondsPerDay

  /** The evaluator's own weekday table. */
  const WeekdayTable: map<string, int> := map[
    "Sunday" := 0,
    "Monday" := 1,
    "Tuesday" := 2,
    "Wednesday" := 3,
    "Thursday" := 4,
    "Friday" := 5,
    "Saturday" := 6]

  /** The evaluator's table and the exported `Weekdays` table are the same map. */
  lemma WeekdayTablesAgree()
    ensures WeekdayTable == Weekdays
  {
  }

  /**
   * `time.LoadLocation`: the empty name and "UTC" are UTC and need no
   * database; any other name is found with its offset or is an error naming it.
   */
  function LoadLocation(zones: Zones, name: string): (r: Result<int, Error>)
    ensures name == "" || name == "UTC" ==> r == Ok(0)
    ensures r.Err? <==> name != "" && name != "UTC" && name !in zones
    ensures r.Err? ==> r.error == UnknownLocation(name)
    ensures r.Ok? && name != "" && name != "UTC" ==> r.value == zones[name]
  {
    if name == "" || name == "UTC" then Ok(0)
    else if name in zones then Ok(zones[name])
    else Err(UnknownLocation(name))
  }

  /** A window as two wall-clock instants, the start inclusive and the end exclusive. */
  datatype Span = Span(start: int, end: int)

  /** Wall-clock seconds of a date and time. */
  function LocalSeconds(t: Layout.DateTime): int
    requires Layout.ValidDateTime(t)
  {
    Civil.DaysFromCivil(t.year, t.month, t.day) * D + Layout.SecondsOfDay(t.clock)
  }

  /**
   * `normalizeTime`: the "15:04" start and end on the date of `now`; a window
   * whose end comes before its start wraps past midnight, so the start moves
   * back a day (before the start of today's window) or the end moves forward
   * one.
   */
  function NormalizeTime(s: ScheduleSpec, now: int): (r: Result<Span, Error>)
    ensures r.Ok? ==> r.value.start <= r.value.end < r.value.start + D
  {
    match Layout.ParseClock(s.startTime)
    case None => Err(StartTimeUnparsable(s.startTime))
    case Some(sc) =>
      match Layout.ParseClock(s.endTime)
      case None => Err(EndTimeUnparsable(s.endTime))
      case Some(ec) =>
        var day := now / D;
        var start := day * D + Layout.SecondsOfDay(sc);
        var end := day * D + Layout.SecondsOfDay(ec);
        if end < start then
          if now < start then Ok(Span(start - D, end)) else Ok(Span(start, end + D))
        else Ok(Span(start, end))
  }

  /**
   * The errors come from the start time first, then the end time; a
   * normalised window is shorter than a day, starts today or yesterday and
   * ends today or tomorrow.
   */
  lemma NormalizeTimeSpec(s: ScheduleSpec, now: int)
    ensures var r := NormalizeTime(s, now);
      && (Layout.ParseClock(s.startTime).None? ==> r == Err(StartTimeUnparsable(s.startTime)))
      && (Layout.ParseClock(s.startTime).Some? && Layout.ParseClock(s.endTime).None? ==>
            r == Err(EndTimeUnparsable(s.endTime)))
      && (r.Ok? <==> Layout.ParseClock(s.startTime).Some? && Layout.ParseClock(s.endTime).Some?)
      && (r.Ok? ==> r.value.start <= r.value.end < r.value.start + D)
      && (r.Ok? ==> r.value.start / D == now / D || r.value.start / D == now / D - 1)
      && (r.Ok? ==> r.value.end / D == now / D || r.value.end / D == now / D + 1)
  {
    if NormalizeTime(s, now).Ok? {
      var sc, ec := Layout.ParseClock(s.startTime).value, Layout.ParseClock(s.endTime).value;
      var day := now / D;
      var start := day * D + Layout.SecondsOfDay(sc);
      var end := day * D + Layout.SecondsOfDay(ec);
      assert start / D == day && end / D == day;
      assert (start - D) / D == day - 1 && (end + D) / D == day + 1;
    }
  }

  /**
   * `normalizeDateTime`, written for monthly windows: the "02T15:04" day and
   * time are put in the year and month of `now`, and a window whose end comes
   * before its start wraps over a year the same way `normalizeTime` wraps
   * over a day. Two days of one month lie less than a year apart, so the
   * window never ends before it starts.
   */
  function NormalizeDateTime(s: ScheduleSpec, now: int): (r: Result<Span, Error>)
    ensures r.Ok? ==> r.value.start <= r.value.end
  {
    match Layout.ParseDayClock(s.startTime)
    case None => Err(StartTimeUnparsable(s.startTime))
    case Some(sd) =>
      match Layout.ParseDayClock(s.endTime)
      case None => Err(EndTimeUnparsable(s.endTime))
      case Some(ed) =>
        var today := Civil.CivilFromDays(now / D);
        Ok(MonthWindow(today.year, today.month, sd, ed, now))
  }

  /**
   * The window of `normalizeDateTime` once both bounds are parsed: day and
   * time placed in year `y` and month `m` (a day past the month's end rolls
   * over), and `AddDate(-1, 0, 0)` / `AddDate(1, 0, 0)` when it wraps.
   */
  function MonthWindow(y: int, m: int, sd: Layout.DayClock, ed: Layout.DayClock, now: int): (r: Span)
    requires 1 <= m <= 12 && 1 <= sd.day <= 31 && 1 <= ed.day <= 31
    requires Layout.ValidClock(sd.clock) && Layout.ValidClock(ed.clock)
    ensures r.start <= r.end
  {
    Civil.AddYearsBounds(Civil.DaysFromCivil(y, m, sd.day));
    Civil.AddYearsBounds(Civil.DaysFromCivil(y, m, ed.day));
    var startDay, endDay := Civil.DaysFromCivil(y, m, sd.day), Civil.DaysFromCivil(y, m, ed.day);
    var start := startDay * D + Layout.SecondsOfDay(sd.clock);
    var end := endDay * D + Layout.SecondsOfDay(ed.clock);
    if end < start then
      if now < start then Span(Civil.AddYears(startDay, -1) * D + Layout.SecondsOfDay(sd.clock), end)
      else Span(start, Civil.AddYears(endDay, 1) * D + Layout.SecondsOfDay(ed.clock))
    else Span(start, end)
  }

  /** Errors come from the start time first, then the end time. */
  lemma NormalizeDateTimeErrors(s: ScheduleSpec, now: int)
    ensures var r := NormalizeDateTime(s, now);
      && (r.Ok? <==> Layout.ParseDayClock(s.startTime).Some? && Layout.ParseDayClock(s.endTime).Some?)
      && (Layout.ParseDayClock(s.startTime).None? ==> r == Err(StartTimeUnparsable(s.startTime)))
      && (Layout.ParseDayClock(s.startTime).Some? && Layout.ParseDayClock(s.endTime).None? ==>
            r == Err(EndTimeUnparsable(s.endTime)))
  {
  }

  /** The three weekdays `normalizeWeekday` hands back. */
  datatype WeekdayRange = WeekdayRange(today: int, startDay: int, endDay: int)

  /** Cyclic membership of a weekday in a range that may wrap over Saturday. */
  predicate InWeekdayRange(today: int, startDay: int, endDay: int) {
    if startDay <= endDay then startDay <= today <= endDay
    else today >= startDay || today <= endDay
  }

  /**
   * `normalizeWeekday`: both day names looked up, and the weekday of the
   * window's start. A range whose start day comes after its end day is
   * rotated so that it starts at 0.
   */
  function NormalizeWeekday(s: ScheduleSpec, start: int): (r: Result<WeekdayRange, Error>)
    ensures r.Ok? ==> 0 <= r.value.startDay <= r.value.endDay < 7 && 0 <= r.value.today < 7
  {
    if s.startDayOfWeek !in WeekdayTable then Err(StartDayOfWeekNotFound(s.startDayOfWeek))
    else if s.endDayOfWeek !in WeekdayTable then Err(EndDayOfWeekInvalid(s.endDayOfWeek))
    else
      var startDay, endDay := WeekdayTable[s.startDayOfWeek], WeekdayTable[s.endDayOfWeek];
      var today := Civil.WeekdayOfDay(start / D);
      if startDay > endDay then
        Ok(WeekdayRange((7 + today - startDay) % 7, 0, 7 - startDay + endDay))
      else Ok(WeekdayRange(today, startDay, endDay))
  }

  /**
   * The start day is looked up first, then the end day; the three weekdays
   * handed back lie in 0..6 and the range no longer wraps.
   */
  lemma NormalizeWeekdaySpec(s: ScheduleSpec, start: int)
    ensures var r := NormalizeWeekday(s, start);
      && (s.startDayOfWeek !in WeekdayTable ==> r == Err(StartDayOfWeekNotFound(s.startDayOfWeek)))
      && (s.startDayOfWeek in WeekdayTable && s.endDayOfWeek !in WeekdayTable ==>
            r == Err(EndDayOfWeekInvalid(s.endDayOfWeek)))
      && (r.Ok? <==> s.startDayOfWeek in WeekdayTable && s.endDayOfWeek in WeekdayTable)
      && (r.Ok? ==> 0 <= r.value.today < 7 && 0 <= r.value.startDay < 7 && 0 <= r.value.endDay < 7)
      && (r.Ok? ==> r.value.startDay <= r.value.endDay)
  {
  }

  /** `containsDaily`: it fails exactly when a clock time does not parse. */
  function ContainsDaily(s: ScheduleSpec, now: int): (r: Result<bool, Error>)
    ensures r.Err? <==> Layout.ParseClock(s.startTime).None? || Layout.ParseClock(s.endTime).None?
  {
    match NormalizeTime(s, now)
    case Err(e) => Err(e)
    case Ok(w) => Ok(w.start <= now < w.end)
  }

  /**
   * `containsWeekly`: the daily test, on the days the weekday range admits.
   * It fails exactly when a clock time does not parse or a day name is unknown.
   */
  function ContainsWeekly(s: ScheduleSpec, now: int): (r: Result<bool, Error>)
    ensures r.Err? <==>
      || Layout.ParseClock(s.startTime).None? || Layout.ParseClock(s.endTime).None?
      || s.startDayOfWeek !in WeekdayTable || s.endDayOfWeek !in WeekdayTable
  {
    match NormalizeTime(s, now)
    case Err(e) => Err(e)
    case Ok(w) =>
      match NormalizeWeekday(s, w.start)
      case Err(e) => Err(e)
      case Ok(days) =>
        if days.startDay <= days.today <= days.endDay then Ok(w.start <= now < w.end)
        else Ok(false)
  }

  /** `containsOneShot`: an absolute "2006-01-02T15:04" interval; it fails exactly when a bound does not parse. */
  function ContainsOneShot(s: ScheduleSpec, now: int): (r: Result<bool, Error>)
    ensures r.Err? <==> Layout.ParseDateTime(s.startTime).None? || Layout.ParseDateTime(s.endTime).None?
  {
    match Layout.ParseDateTime(s.startTime)
    case None => Err(StartTimeUnparsable(s.startTime))
    case Some(st) =>
      match Layout.ParseDateTime(s.endTime)
      case None => Err(EndTimeUnparsable(s.endTime))
      case Some(en) => Ok(LocalSeconds(st) <= now < LocalSeconds(en))
  }

  /**
   * `ScheduleSpec.Contains`: load the zone, move `now` to its wall clock,
   * and dispatch on the schedule type. Monthly has no case here, so an
   * answer needs a loadable zone and one of the three other types.
   */
  function Contains(s: ScheduleSpec, now: Instant, zones: Zones): (r: Result<bool, Error>)
    ensures r.Ok? ==> LoadLocation(zones, s.timeZone).Ok? && s.scheduleType in {Daily, Weekly, OneShot}
  {
    match LoadLocation(zones, s.timeZone)
    case Err(e) => Err(e)
    case Ok(offset) =>
      var local := now + offset;
      if s.scheduleType == Daily then ContainsDaily(s, local)
      else if s.scheduleType == Weekly then ContainsWeekly(s, local)
      else if s.scheduleType == OneShot then ContainsOneShot(s, local)
      else Err(UnsupportedScheduleType(s.scheduleType))
  }
}
