/** What the window evaluator guarantees, stated over all inputs, and the cases its tests pin down. */
module WindowLemmas {
  import opened Wrappers
  import Civil
  import Layout
  import opened Types
  import opened Window

  /** The clock-face reading of a daily window: [start, end), or wrapped past midnight when end < start. */
  predicate InClockWindow(startOfDay: int, endOfDay: int, t: int) {
    if startOfDay <= endOfDay then startOfDay <= t < endOfDay
    else t >= startOfDay || t < endOfDay
  }

  /**
   * A daily window holds exactly the times of day on its clock face,
   * whatever the date: half-open, wrapping past midnight when the end is
   * earlier than the start, and empty when the two are equal.
   */
  lemma {:induction false} DailyHalfOpen(s: ScheduleSpec, now: int)
    requires Layout.ParseClock(s.startTime).Some? && Layout.ParseClock(s.endTime).Some?
    ensures ContainsDaily(s, now) ==
      Ok(InClockWindow(
        Layout.SecondsOfDay(Layout.ParseClock(s.startTime).value),
        Layout.SecondsOfDay(Layout.ParseClock(s.endTime).value),
        now % D))
  {
    var day := now / D;
    assert now == day * D + now % D;
  }

  /** A window whose end equals its start never holds. */
  lemma {:induction false} EmptyDailyWindow(s: ScheduleSpec, now: int)
    requires Layout.ParseClock(s.startTime).Some?
    requires Layout.ParseClock(s.endTime) == Layout.ParseClock(s.startTime)
    ensures ContainsDaily(s, now) == Ok(false)
  {
    DailyHalfOpen(s, now);
  }

  /** The rotated range test of `normalizeWeekday` is cyclic membership in the unrotated range. */
  lemma {:induction false} NormalizeWeekdayCyclic(s: ScheduleSpec, start: int)
    requires s.startDayOfWeek in WeekdayTable && s.endDayOfWeek in WeekdayTable
    ensures var r := NormalizeWeekday(s, start).value;
      (r.startDay <= r.today <= r.endDay) ==
      InWeekdayRange(Civil.WeekdayOfDay(start / D), WeekdayTable[s.startDayOfWeek], WeekdayTable[s.endDayOfWeek])
  {
    var today := Civil.WeekdayOfDay(start / D);
    var sd, ed := WeekdayTable[s.startDayOfWeek], WeekdayTable[s.endDayOfWeek];
    assert 0 <= sd < 7 && 0 <= ed < 7;
    if sd > ed {
      if today >= sd {
        assert (7 + today - sd) % 7 == today - sd;
      } else {
        assert (7 + today - sd) % 7 == 7 + today - sd;
      }
    }
  }

  /**
   * A weekly window is the daily window with the same times, on the days
   * whose window STARTS inside the weekday range: the after-midnight tail
   * of a window belongs to the day it began.
   */
  lemma {:induction false} WeeklyIsDailyOnRangeDays(s: ScheduleSpec, now: int)
    requires NormalizeTime(s, now).Ok?
    requires s.startDayOfWeek in WeekdayTable && s.endDayOfWeek in WeekdayTable
    ensures ContainsWeekly(s, now) ==
      Ok(ContainsDaily(s, now).value &&
         InWeekdayRange(Civil.WeekdayOfDay(NormalizeTime(s, now).value.start / D),
                        WeekdayTable[s.startDayOfWeek], WeekdayTable[s.endDayOfWeek]))
  {
    NormalizeWeekdayCyclic(s, NormalizeTime(s, now).value.start);
  }

  /** A weekly match is always a daily match with the same start and end times. */
  lemma {:induction false} WeeklyImpliesDaily(s: ScheduleSpec, now: int)
    requires ContainsWeekly(s, now) == Ok(true)
    ensures ContainsDaily(s, now) == Ok(true)
  {
    WeeklyIsDailyOnRangeDays(s, now);
  }

  /** Between midnight and a wrapped window's end, the weekday that counts is yesterday's. */
  lemma {:induction false} TailCountsForPreviousDay(s: ScheduleSpec, now: int)
    requires Layout.ParseClock(s.startTime).Some? && Layout.ParseClock(s.endTime).Some?
    requires s.startDayOfWeek in WeekdayTable && s.endDayOfWeek in WeekdayTable
    requires now % D < Layout.SecondsOfDay(Layout.ParseClock(s.endTime).value)
               < Layout.SecondsOfDay(Layout.ParseClock(s.startTime).value)
    ensures ContainsWeekly(s, now) ==
      Ok(InWeekdayRange(Civil.WeekdayOfDay(now / D - 1), WeekdayTable[s.startDayOfWeek], WeekdayTable[s.endDayOfWeek]))
  {
    WeeklyIsDailyOnRangeDays(s, now);
    DailyHalfOpen(s, now);
    var day := now / D;
    assert now == day * D + now % D;
    var w := NormalizeTime(s, now).value;
    assert w.start == (day - 1) * D + Layout.SecondsOfDay(Layout.ParseClock(s.startTime).value);
    assert w.start / D == day - 1;
  }

  /** A weekly window from Sunday to Saturday is exactly the daily window, at every instant. */
  lemma {:induction false} EverydayIsDaily(s: ScheduleSpec, now: int)
    requires s.startDayOfWeek == "Sunday" && s.endDayOfWeek == "Saturday"
    ensures ContainsWeekly(s, now) == ContainsDaily(s, now)
  {
    if NormalizeTime(s, now).Ok? {
      WeeklyIsDailyOnRangeDays(s, now);
    }
  }

  /** The same, through `Contains`: an everyday Weekly schedule answers as a Daily one would. */
  lemma EverydayWeeklyContains(s: ScheduleSpec, now: Instant, zones: Zones)
    requires s.scheduleType == Weekly && s.startDayOfWeek == "Sunday" && s.endDayOfWeek == "Saturday"
    ensures Contains(s, now, zones) == Contains(s.(scheduleType := Daily), now, zones)
  {
    if LoadLocation(zones, s.timeZone).Err? {
      SameZoneFailure(s, s.(scheduleType := Daily), now, zones);
    } else {
      EverydayWeeklyLoaded(s, now, zones);
    }
  }

  /** The case of `EverydayWeeklyContains` where the zone loads: both sides are the daily answer. */
  lemma EverydayWeeklyLoaded(s: ScheduleSpec, now: Instant, zones: Zones)
    requires s.scheduleType == Weekly && s.startDayOfWeek == "Sunday" && s.endDayOfWeek == "Saturday"
    requires LoadLocation(zones, s.timeZone).Ok?
    ensures Contains(s, now, zones) == Contains(s.(scheduleType := Daily), now, zones)
  {
    var local := now + LoadLocation(zones, s.timeZone).value;
    EverydayWeeklyAnswer(s, now, zones, local);
    DailyAnswerAs(s.(scheduleType := Daily), s, now, zones, local);
  }

  /** An everyday Weekly schedule gives the daily answer at its zone's wall clock ... */
  lemma EverydayWeeklyAnswer(s: ScheduleSpec, now: Instant, zones: Zones, local: int)
    requires s.scheduleType == Weekly && s.startDayOfWeek == "Sunday" && s.endDayOfWeek == "Saturday"
    requires LoadLocation(zones, s.timeZone).Ok? && local == now + LoadLocation(zones, s.timeZone).value
    ensures Contains(s, now, zones) == ContainsDaily(s, local)
  {
    DispatchWeekly(s, now, zones);
    EverydayIsDaily(s, local);
  }

  /**
   * A Daily schedule answers as the Daily evaluator of any schedule with
   * the same two times would at its zone's wall clock.
   */
  lemma DailyAnswerAs(a: ScheduleSpec, b: ScheduleSpec, now: Instant, zones: Zones, local: int)
    requires a.scheduleType == Daily && a.startTime == b.startTime && a.endTime == b.endTime
    requires LoadLocation(zones, a.timeZone).Ok? && local == now + LoadLocation(zones, a.timeZone).value
    ensures Contains(a, now, zones) == ContainsDaily(b, local)
  {
    DispatchDaily(a, now, zones);
    SameDailyFields(a, b, local);
  }

  /** The same for Weekly schedules, which also share the two day names. */
  lemma WeeklyAnswerAs(a: ScheduleSpec, b: ScheduleSpec, now: Instant, zones: Zones, local: int)
    requires a.scheduleType == Weekly && a.startTime == b.startTime && a.endTime == b.endTime
    requires a.startDayOfWeek == b.startDayOfWeek && a.endDayOfWeek == b.endDayOfWeek
    requires LoadLocation(zones, a.timeZone).Ok? && local == now + LoadLocation(zones, a.timeZone).value
    ensures Contains(a, now, zones) == ContainsWeekly(b, local)
  {
    DispatchWeekly(a, now, zones);
    SameWeeklyFields(a, b, local);
  }

  /** `Contains` hands the zone's wall clock to the Daily evaluator for a Daily schedule. */
  lemma DispatchDaily(s: ScheduleSpec, now: Instant, zones: Zones)
    requires LoadLocation(zones, s.timeZone).Ok? && s.scheduleType == Daily
    ensures Contains(s, now, zones) == ContainsDaily(s, now + LoadLocation(zones, s.timeZone).value)
  {
  }

  /** ... to the Weekly evaluator for a Weekly schedule. */
  lemma DispatchWeekly(s: ScheduleSpec, now: Instant, zones: Zones)
    requires LoadLocation(zones, s.timeZone).Ok? && s.scheduleType == Weekly
    ensures Contains(s, now, zones) == ContainsWeekly(s, now + LoadLocation(zones, s.timeZone).value)
  {
  }

  /** ... and to the OneShot evaluator for a OneShot schedule. */
  lemma DispatchOneShot(s: ScheduleSpec, now: Instant, zones: Zones)
    requires LoadLocation(zones, s.timeZone).Ok? && s.scheduleType == OneShot
    ensures Contains(s, now, zones) == ContainsOneShot(s, now + LoadLocation(zones, s.timeZone).value)
  {
  }

  /** The Daily evaluator reads only the two times. */
  lemma SameDailyFields(a: ScheduleSpec, b: ScheduleSpec, now: int)
    requires a.startTime == b.startTime && a.endTime == b.endTime
    ensures ContainsDaily(a, now) == ContainsDaily(b, now)
  {
    assert NormalizeTime(a, now) == NormalizeTime(b, now);
  }

  /** The Weekly evaluator reads only the two times and the two day names. */
  lemma SameWeeklyFields(a: ScheduleSpec, b: ScheduleSpec, now: int)
    requires a.startTime == b.startTime && a.endTime == b.endTime
    requires a.startDayOfWeek == b.startDayOfWeek && a.endDayOfWeek == b.endDayOfWeek
    ensures ContainsWeekly(a, now) == ContainsWeekly(b, now)
  {
    assert NormalizeTime(a, now) == NormalizeTime(b, now);
    if NormalizeTime(a, now).Ok? {
      var w := NormalizeTime(a, now).value;
      assert NormalizeWeekday(a, w.start) == NormalizeWeekday(b, w.start);
    }
  }

  /**
   * The normalised start falls on the day before `now` exactly when the
   * window wraps past midnight and `now` is earlier in the day than its start.
   */
  lemma {:induction false} NormalizedStartDay(s: ScheduleSpec, now: int)
    requires Layout.ParseClock(s.startTime).Some? && Layout.ParseClock(s.endTime).Some?
    ensures var startOfDay := Layout.SecondsOfDay(Layout.ParseClock(s.startTime).value);
      var endOfDay := Layout.SecondsOfDay(Layout.ParseClock(s.endTime).value);
      NormalizeTime(s, now).value.start / D ==
        if endOfDay < startOfDay && now % D < startOfDay then now / D - 1 else now / D
  {
    var day := now / D;
    assert now == day * D + now % D;
  }

  /**
   * A weekly window holds at `now` exactly when the clock face holds and the
   * weekday range holds the day the window started: yesterday inside the
   * after-midnight tail, today otherwise.
   */
  lemma {:induction false} WeeklyHalfOpen(s: ScheduleSpec, now: int)
    requires Layout.ParseClock(s.startTime).Some? && Layout.ParseClock(s.endTime).Some?
    requires s.startDayOfWeek in WeekdayTable && s.endDayOfWeek in WeekdayTable
    ensures var startOfDay := Layout.SecondsOfDay(Layout.ParseClock(s.startTime).value);
      var endOfDay := Layout.SecondsOfDay(Layout.ParseClock(s.endTime).value);
      var startedOn := if endOfDay < startOfDay && now % D < startOfDay then now / D - 1 else now / D;
      ContainsWeekly(s, now) ==
        Ok(InClockWindow(startOfDay, endOfDay, now % D) &&
           InWeekdayRange(Civil.WeekdayOfDay(startedOn), WeekdayTable[s.startDayOfWeek], WeekdayTable[s.endDayOfWeek]))
  {
    WeeklyIsDailyOnRangeDays(s, now);
    DailyHalfOpen(s, now);
    NormalizedStartDay(s, now);
  }

  /** Lexicographic order of dates and times, field by field. */
  predicate Before(a: Layout.DateTime, b: Layout.DateTime) {
    || a.year < b.year
    || (a.year == b.year && a.month < b.month)
    || (a.year == b.year && a.month == b.month && a.day < b.day)
    || (a.year == b.year && a.month == b.month && a.day == b.day && a.clock.hour < b.clock.hour)
    || (a.year == b.year && a.month == b.month && a.day == b.day && a.clock.hour == b.clock.hour
        && a.clock.minute < b.clock.minute)
  }

  lemma {:induction false} DayNumberIncreases(a: Layout.DateTime, b: Layout.DateTime)
    requires Layout.ValidDateTime(a) && Layout.ValidDateTime(b)
    requires a.year < b.year || (a.year == b.year && a.month < b.month)
             || (a.year == b.year && a.month == b.month && a.day < b.day)
    ensures Civil.DaysFromCivil(a.year, a.month, a.day) < Civil.DaysFromCivil(b.year, b.month, b.day)
  {
    Civil.MonthFitsYear(a.year, a.month);
    Civil.YearLength(a.year);
    if a.year < b.year {
      if a.year + 1 < b.year { Civil.DaysBeforeYearMonotone(a.year + 1, b.year); }
    } else if a.month < b.month {
      Civil.MonthStartsIncrease(a.year, a.month, b.month);
    }
  }

  /** Wall-clock seconds order dates and times exactly as their fields do. */
  lemma {:induction false} LocalSecondsOrder(a: Layout.DateTime, b: Layout.DateTime)
    requires Layout.ValidDateTime(a) && Layout.ValidDateTime(b)
    ensures LocalSeconds(a) < LocalSeconds(b) <==> Before(a, b)
  {
    if a.year != b.year || a.month != b.month || a.day != b.day {
      if Before(a, b) { DayNumberIncreases(a, b); } else { DayNumberIncreases(b, a); }
    }
  }

  /**
   * A OneShot window holds exactly the wall-clock dates and times from its
   * start (inclusive) to its end (exclusive), in calendar order.
   */
  lemma {:induction false} OneShotHalfOpen(s: ScheduleSpec, t: Layout.DateTime, zones: Zones)
    requires s.scheduleType == OneShot && LoadLocation(zones, s.timeZone).Ok?
    requires Layout.ValidDateTime(t)
    requires Layout.ParseDateTime(s.startTime).Some? && Layout.ParseDateTime(s.endTime).Some?
    ensures Contains(s, LocalSeconds(t) - LoadLocation(zones, s.timeZone).value, zones) ==
      Ok(!Before(t, Layout.ParseDateTime(s.startTime).value) && Before(t, Layout.ParseDateTime(s.endTime).value))
  {
    LocalSecondsOrder(t, Layout.ParseDateTime(s.startTime).value);
    LocalSecondsOrder(t, Layout.ParseDateTime(s.endTime).value);
  }

  /**
   * Every failure is an error value, never a crash: an unknown zone, a type
   * with no case (Monthly among them), an unparsable time, an unknown day name.
   */
  lemma ContainsErrors(s: ScheduleSpec, now: Instant, zones: Zones)
    ensures LoadLocation(zones, s.timeZone).Err? ==> Contains(s, now, zones) == Err(UnknownLocation(s.timeZone))
    ensures LoadLocation(zones, s.timeZone).Ok? && s.scheduleType !in {Daily, Weekly, OneShot} ==>
              Contains(s, now, zones) == Err(UnsupportedScheduleType(s.scheduleType))
    ensures LoadLocation(zones, s.timeZone).Ok? && s.scheduleType in {Daily, Weekly}
            && Layout.ParseClock(s.startTime).None? ==>
              Contains(s, now, zones) == Err(StartTimeUnparsable(s.startTime))
    ensures LoadLocation(zones, s.timeZone).Ok? && s.scheduleType in {Daily, Weekly}
            && Layout.ParseClock(s.startTime).Some? && Layout.ParseClock(s.endTime).None? ==>
              Contains(s, now, zones) == Err(EndTimeUnparsable(s.endTime))
    ensures LoadLocation(zones, s.timeZone).Ok? && s.scheduleType == OneShot
            && Layout.ParseDateTime(s.startTime).None? ==>
              Contains(s, now, zones) == Err(StartTimeUnparsable(s.startTime))
    ensures LoadLocation(zones, s.timeZone).Ok? && s.scheduleType == OneShot
            && Layout.ParseDateTime(s.startTime).Some? && Layout.ParseDateTime(s.endTime).None? ==>
              Contains(s, now, zones) == Err(EndTimeUnparsable(s.endTime))
    ensures LoadLocation(zones, s.timeZone).Ok? && s.scheduleType == Weekly
            && Layout.ParseClock(s.startTime).Some? && Layout.ParseClock(s.endTime).Some?
            && s.startDayOfWeek !in WeekdayTable ==>
              Contains(s, now, zones) == Err(StartDayOfWeekNotFound(s.startDayOfWeek))
    ensures LoadLocation(zones, s.timeZone).Ok? && s.scheduleType == Weekly
            && Layout.ParseClock(s.startTime).Some? && Layout.ParseClock(s.endTime).Some?
            && s.startDayOfWeek in WeekdayTable && s.endDayOfWeek !in WeekdayTable ==>
              Contains(s, now, zones) == Err(EndDayOfWeekInvalid(s.endDayOfWeek))
  {
  }

  /** Monthly never reaches `normalizeDateTime`: `Contains` has no case for it. */
  lemma MonthlyUnreachable(s: ScheduleSpec, now: Instant, zones: Zones)
    requires s.scheduleType == Monthly && LoadLocation(zones, s.timeZone).Ok?
    ensures Contains(s, now, zones) == Err(UnsupportedScheduleType(Monthly))
  {
  }

  /** Two schedules agreeing on the window fields answer alike when their zone fails to load ... */
  lemma SameZoneFailure(a: ScheduleSpec, b: ScheduleSpec, now: Instant, zones: Zones)
    requires a.timeZone == b.timeZone && LoadLocation(zones, a.timeZone).Err?
    ensures Contains(a, now, zones) == Contains(b, now, zones)
  {
  }

  /** ... when both are Daily ... */
  lemma SameDailyContains(a: ScheduleSpec, b: ScheduleSpec, now: Instant, zones: Zones)
    requires a.scheduleType == Daily == b.scheduleType && a.timeZone == b.timeZone
    requires a.startTime == b.startTime && a.endTime == b.endTime
    requires LoadLocation(zones, a.timeZone).Ok?
    ensures Contains(a, now, zones) == Contains(b, now, zones)
  {
    var local := now + LoadLocation(zones, a.timeZone).value;
    DailyAnswerAs(a, a, now, zones, local);
    DailyAnswerAs(b, a, now, zones, local);
  }

  /** ... when both are Weekly ... */
  lemma SameWeeklyContains(a: ScheduleSpec, b: ScheduleSpec, now: Instant, zones: Zones)
    requires a.scheduleType == Weekly == b.scheduleType && a.timeZone == b.timeZone
    requires a.startTime == b.startTime && a.endTime == b.endTime
    requires a.startDayOfWeek == b.startDayOfWeek && a.endDayOfWeek == b.endDayOfWeek
    requires LoadLocation(zones, a.timeZone).Ok?
    ensures Contains(a, now, zones) == Contains(b, now, zones)
  {
    var local := now + LoadLocation(zones, a.timeZone).value;
    WeeklyAnswerAs(a, a, now, zones, local);
    WeeklyAnswerAs(b, a, now, zones, local);
  }

  /** ... and when both are OneShot. */
  lemma SameOneShotContains(a: ScheduleSpec, b: ScheduleSpec, now: Instant, zones: Zones)
    requires a.scheduleType == OneShot == b.scheduleType && a.timeZone == b.timeZone
    requires a.startTime == b.startTime && a.endTime == b.endTime
    requires LoadLocation(zones, a.timeZone).Ok?
    ensures Contains(a, now, zones) == Contains(b, now, zones)
  {
    DispatchOneShot(a, now, zones);
    DispatchOneShot(b, now, zones);
  }

  /**
   * `Contains` reads only the type, zone, times and day names: suspension,
   * name and replica bounds make no difference to it.
   */
  lemma ContainsReadsWindowFieldsOnly(a: ScheduleSpec, b: ScheduleSpec, now: Instant, zones: Zones)
    requires a.scheduleType == b.scheduleType && a.timeZone == b.timeZone
    requires a.startTime == b.startTime && a.endTime == b.endTime
    requires a.startDayOfWeek == b.startDayOfWeek && a.endDayOfWeek == b.endDayOfWeek
    ensures Contains(a, now, zones) == Contains(b, now, zones)
  {
    if LoadLocation(zones, a.timeZone).Err? {
      SameZoneFailure(a, b, now, zones);
    } else if a.scheduleType == Daily {
      SameDailyContains(a, b, now, zones);
    } else if a.scheduleType == Weekly {
      SameWeeklyContains(a, b, now, zones);
    } else if a.scheduleType == OneShot {
      SameOneShotContains(a, b, now, zones);
    } else {
      ContainsErrors(a, now, zones);
      ContainsErrors(b, now, zones);
    }
  }
}
