/**
 * The evaluator's test tables (contains_test.go, contains_weekly_test.go),
 * each case stated as a lemma about the model. All instants are UTC.
 */
module WindowTests {
  import opened Wrappers
  import Civil
  import Layout
  import opened Types
  import opened Window
  import opened WindowLemmas

  /** `time.Date(y, m, d, h, mi, 0, 0, time.UTC)`. */
  function UtcAt(y: int, m: int, d: int, h: int, mi: int): Instant
    requires 1 <= m <= 12
  {
    Civil.DaysFromCivil(y, m, d) * D + h * 3600 + mi * 60
  }

  function Spec(t: ScheduleType, startTime: string, endTime: string, startDay: string, endDay: string): ScheduleSpec {
    ScheduleSpec(t, "", false, "", startTime, endTime, startDay, endDay, None, 1, [])
  }

  const NoZones: Zones := map[]

  lemma UtcAtParts(y: int, m: int, d: int, h: int, mi: int)
    requires 1 <= m <= 12 && 0 <= h < 24 && 0 <= mi < 60
    ensures UtcAt(y, m, d, h, mi) / D == Civil.DaysFromCivil(y, m, d)
    ensures UtcAt(y, m, d, h, mi) % D == h * 3600 + mi * 60
  {
  }

  /** A Daily case in UTC, reduced to its clock face. */
  lemma DailyCase(st: string, en: string, s: Layout.Clock, e: Layout.Clock,
                  y: int, m: int, d: int, h: int, mi: int)
    requires Layout.ValidClock(s) && Layout.FormatClock(s) == st
    requires Layout.ValidClock(e) && Layout.FormatClock(e) == en
    requires 1 <= m <= 12 && 0 <= h < 24 && 0 <= mi < 60
    ensures Contains(Spec(Daily, st, en, "", ""), UtcAt(y, m, d, h, mi), NoZones) ==
      Ok(InClockWindow(Layout.SecondsOfDay(s), Layout.SecondsOfDay(e), h * 3600 + mi * 60))
  {
    var sp := Spec(Daily, st, en, "", "");
    Layout.ClockRoundTrip(s);
    Layout.ClockRoundTrip(e);
    UtcAtParts(y, m, d, h, mi);
    DispatchDaily(sp, UtcAt(y, m, d, h, mi), NoZones);
    DailyHalfOpen(sp, UtcAt(y, m, d, h, mi));
  }

  /** A Weekly case in UTC: its answer is the clock face and the weekday the window started on. */
  lemma WeeklyCase(st: string, en: string, sd: string, ed: string, s: Layout.Clock, e: Layout.Clock,
                   y: int, m: int, d: int, h: int, mi: int, expected: bool)
    requires Layout.ValidClock(s) && Layout.FormatClock(s) == st
    requires Layout.ValidClock(e) && Layout.FormatClock(e) == en
    requires sd in WeekdayTable && ed in WeekdayTable
    requires 1 <= m <= 12 && 0 <= h < 24 && 0 <= mi < 60
    requires var t := h * 3600 + mi * 60;
      var startOfDay, endOfDay := Layout.SecondsOfDay(s), Layout.SecondsOfDay(e);
      var day := Civil.DaysFromCivil(y, m, d);
      var startedOn := if endOfDay < startOfDay && t < startOfDay then day - 1 else day;
      expected == (InClockWindow(startOfDay, endOfDay, t) &&
                   InWeekdayRange(Civil.WeekdayOfDay(startedOn), WeekdayTable[sd], WeekdayTable[ed]))
    ensures Contains(Spec(Weekly, st, en, sd, ed), UtcAt(y, m, d, h, mi), NoZones) == Ok(expected)
  {
    var sp := Spec(Weekly, st, en, sd, ed);
    Layout.ClockRoundTrip(s);
    Layout.ClockRoundTrip(e);
    UtcAtParts(y, m, d, h, mi);
    DispatchWeekly(sp, UtcAt(y, m, d, h, mi), NoZones);
    WeeklyHalfOpen(sp, UtcAt(y, m, d, h, mi));
  }

  /** September 2018 starts on a Saturday: the 2nd is a Sunday, the 3rd a Monday. */
  lemma September2018()
    ensures Civil.DaysFromCivil(2018, 9, 2) == 17776
    ensures Civil.DaysFromCivil(2018, 9, 3) == 17777
    ensures Civil.DaysFromCivil(2018, 9, 4) == 17778
    ensures Civil.DaysFromCivil(2018, 9, 5) == 17779
    ensures Civil.DaysFromCivil(2018, 9, 6) == 17780
    ensures Civil.WeekdayOfDay(17775) == 6
    ensures Civil.WeekdayOfDay(17776) == 0
    ensures Civil.WeekdayOfDay(17777) == 1
    ensures Civil.WeekdayOfDay(17778) == 2
    ensures Civil.WeekdayOfDay(17779) == 3
    ensures Civil.WeekdayOfDay(17780) == 4
  {
  }

  /** contains_test.go, Daily: 10:00-19:00 at 11:00 and at 20:00. */
  lemma DailyTable()
    ensures Contains(Spec(Daily, "10:00", "19:00", "", ""), UtcAt(2018, 9, 2, 11, 0), NoZones) == Ok(true)
    ensures Contains(Spec(Daily, "10:00", "19:00", "", ""), UtcAt(2018, 9, 2, 20, 0), NoZones) == Ok(false)
  {
    DailyCase("10:00", "19:00", Layout.Clock(10, 0), Layout.Clock(19, 0), 2018, 9, 2, 11, 0);
    DailyCase("10:00", "19:00", Layout.Clock(10, 0), Layout.Clock(19, 0), 2018, 9, 2, 20, 0);
  }

  /** contains_test.go, Daily past midnight: 23:00-03:00 and 23:00-01:00 at 02:00. */
  lemma DailyPastMidnightTable()
    ensures Contains(Spec(Daily, "23:00", "03:00", "", ""), UtcAt(2018, 9, 2, 2, 0), NoZones) == Ok(true)
    ensures Contains(Spec(Daily, "23:00", "01:00", "", ""), UtcAt(2018, 9, 2, 2, 0), NoZones) == Ok(false)
  {
    DailyCase("23:00", "03:00", Layout.Clock(23, 0), Layout.Clock(3, 0), 2018, 9, 2, 2, 0);
    DailyCase("23:00", "01:00", Layout.Clock(23, 0), Layout.Clock(1, 0), 2018, 9, 2, 2, 0);
  }

  /** contains_weekly_test.go, Monday 10:00-19:00 ("1day case" 1-4). */
  lemma WeeklyOneDayTable()
    ensures Contains(Spec(Weekly, "10:00", "19:00", "Monday", "Monday"), UtcAt(2018, 9, 2, 11, 0), NoZones) == Ok(false)
    ensures Contains(Spec(Weekly, "10:00", "19:00", "Monday", "Monday"), UtcAt(2018, 9, 3, 9, 0), NoZones) == Ok(false)
    ensures Contains(Spec(Weekly, "10:00", "19:00", "Monday", "Monday"), UtcAt(2018, 9, 3, 10, 0), NoZones) == Ok(true)
    ensures Contains(Spec(Weekly, "10:00", "19:00", "Monday", "Monday"), UtcAt(2018, 9, 3, 11, 0), NoZones) == Ok(true)
  {
    September2018();
    var s, e := Layout.Clock(10, 0), Layout.Clock(19, 0);
    WeeklyCase("10:00", "19:00", "Monday", "Monday", s, e, 2018, 9, 2, 11, 0, false);
    WeeklyCase("10:00", "19:00", "Monday", "Monday", s, e, 2018, 9, 3, 9, 0, false);
    WeeklyCase("10:00", "19:00", "Monday", "Monday", s, e, 2018, 9, 3, 10, 0, true);
    WeeklyCase("10:00", "19:00", "Monday", "Monday", s, e, 2018, 9, 3, 11, 0, true);
  }

  /** contains_weekly_test.go, Monday 10:00-19:00 ("1day case" 5-8). */
  lemma WeeklyOneDayLateTable()
    ensures Contains(Spec(Weekly, "10:00", "19:00", "Monday", "Monday"), UtcAt(2018, 9, 3, 18, 0), NoZones) == Ok(true)
    ensures Contains(Spec(Weekly, "10:00", "19:00", "Monday", "Monday"), UtcAt(2018, 9, 3, 19, 0), NoZones) == Ok(false)
    ensures Contains(Spec(Weekly, "10:00", "19:00", "Monday", "Monday"), UtcAt(2018, 9, 3, 20, 0), NoZones) == Ok(false)
    ensures Contains(Spec(Weekly, "10:00", "19:00", "Monday", "Monday"), UtcAt(2018, 9, 4, 11, 0), NoZones) == Ok(false)
  {
    September2018();
    var s, e := Layout.Clock(10, 0), Layout.Clock(19, 0);
    WeeklyCase("10:00", "19:00", "Monday", "Monday", s, e, 2018, 9, 3, 18, 0, true);
    WeeklyCase("10:00", "19:00", "Monday", "Monday", s, e, 2018, 9, 3, 19, 0, false);
    WeeklyCase("10:00", "19:00", "Monday", "Monday", s, e, 2018, 9, 3, 20, 0, false);
    WeeklyCase("10:00", "19:00", "Monday", "Monday", s, e, 2018, 9, 4, 11, 0, false);
  }

  /** contains_weekly_test.go, Monday 10:00-10:30 ("1day case with minutes"). */
  lemma WeeklyMinutesTable()
    ensures Contains(Spec(Weekly, "10:00", "10:30", "Monday", "Monday"), UtcAt(2018, 9, 3, 9, 50), NoZones) == Ok(false)
    ensures Contains(Spec(Weekly, "10:00", "10:30", "Monday", "Monday"), UtcAt(2018, 9, 3, 10, 20), NoZones) == Ok(true)
    ensures Contains(Spec(Weekly, "10:00", "10:30", "Monday", "Monday"), UtcAt(2018, 9, 3, 10, 40), NoZones) == Ok(false)
  {
    September2018();
    var s, e := Layout.Clock(10, 0), Layout.Clock(10, 30);
    WeeklyCase("10:00", "10:30", "Monday", "Monday", s, e, 2018, 9, 3, 9, 50, false);
    WeeklyCase("10:00", "10:30", "Monday", "Monday", s, e, 2018, 9, 3, 10, 20, true);
    WeeklyCase("10:00", "10:30", "Monday", "Monday", s, e, 2018, 9, 3, 10, 40, false);
  }

  /** contains_weekly_test.go, Monday 15:00-01:00 ("EndTime is over 24o'clock" 1-4). */
  lemma WeeklyPastMidnightTable()
    ensures Contains(Spec(Weekly, "15:00", "01:00", "Monday", "Monday"), UtcAt(2018, 9, 3, 0, 0), NoZones) == Ok(false)
    ensures Contains(Spec(Weekly, "15:00", "01:00", "Monday", "Monday"), UtcAt(2018, 9, 3, 14, 0), NoZones) == Ok(false)
    ensures Contains(Spec(Weekly, "15:00", "01:00", "Monday", "Monday"), UtcAt(2018, 9, 3, 15, 0), NoZones) == Ok(true)
    ensures Contains(Spec(Weekly, "15:00", "01:00", "Monday", "Monday"), UtcAt(2018, 9, 3, 19, 0), NoZones) == Ok(true)
  {
    September2018();
    var s, e := Layout.Clock(15, 0), Layout.Clock(1, 0);
    WeeklyCase("15:00", "01:00", "Monday", "Monday", s, e, 2018, 9, 3, 0, 0, false);
    WeeklyCase("15:00", "01:00", "Monday", "Monday", s, e, 2018, 9, 3, 14, 0, false);
    WeeklyCase("15:00", "01:00", "Monday", "Monday", s, e, 2018, 9, 3, 15, 0, true);
    WeeklyCase("15:00", "01:00", "Monday", "Monday", s, e, 2018, 9, 3, 19, 0, true);
  }

  /** contains_weekly_test.go, Monday 15:00-01:00 ("EndTime is over 24o'clock" 5-7). */
  lemma WeeklyPastMidnightLateTable()
    ensures Contains(Spec(Weekly, "15:00", "01:00", "Monday", "Monday"), UtcAt(2018, 9, 4, 0, 0), NoZones) == Ok(true)
    ensures Contains(Spec(Weekly, "15:00", "01:00", "Monday", "Monday"), UtcAt(2018, 9, 4, 1, 0), NoZones) == Ok(false)
    ensures Contains(Spec(Weekly, "15:00", "01:00", "Monday", "Monday"), UtcAt(2018, 9, 4, 2, 0), NoZones) == Ok(false)
  {
    September2018();
    var s, e := Layout.Clock(15, 0), Layout.Clock(1, 0);
    WeeklyCase("15:00", "01:00", "Monday", "Monday", s, e, 2018, 9, 4, 0, 0, true);
    WeeklyCase("15:00", "01:00", "Monday", "Monday", s, e, 2018, 9, 4, 1, 0, false);
    WeeklyCase("15:00", "01:00", "Monday", "Monday", s, e, 2018, 9, 4, 2, 0, false);
  }

  /** contains_weekly_test.go, Monday 15:00-01:30 ("EndTime is over 24o'clock with minutes case"). */
  lemma WeeklyPastMidnightMinutesTable()
    ensures Contains(Spec(Weekly, "15:00", "01:30", "Monday", "Monday"), UtcAt(2018, 9, 4, 1, 20), NoZones) == Ok(true)
    ensures Contains(Spec(Weekly, "15:00", "01:30", "Monday", "Monday"), UtcAt(2018, 9, 4, 1, 30), NoZones) == Ok(false)
    ensures Contains(Spec(Weekly, "15:00", "01:30", "Monday", "Monday"), UtcAt(2018, 9, 5, 1, 20), NoZones) == Ok(false)
  {
    September2018();
    var s, e := Layout.Clock(15, 0), Layout.Clock(1, 30);
    WeeklyCase("15:00", "01:30", "Monday", "Monday", s, e, 2018, 9, 4, 1, 20, true);
    WeeklyCase("15:00", "01:30", "Monday", "Monday", s, e, 2018, 9, 4, 1, 30, false);
    WeeklyCase("15:00", "01:30", "Monday", "Monday", s, e, 2018, 9, 5, 1, 20, false);
  }

  /** contains_weekly_test.go, Monday to Tuesday 15:00-01:30 ("EndTime is over 24o'clock 2days" 1-3). */
  lemma WeeklyTwoDaysTable()
    ensures Contains(Spec(Weekly, "15:00", "01:30", "Monday", "Tuesday"), UtcAt(2018, 9, 3, 16, 0), NoZones) == Ok(true)
    ensures Contains(Spec(Weekly, "15:00", "01:30", "Monday", "Tuesday"), UtcAt(2018, 9, 4, 16, 0), NoZones) == Ok(true)
    ensures Contains(Spec(Weekly, "15:00", "01:30", "Monday", "Tuesday"), UtcAt(2018, 9, 5, 1, 0), NoZones) == Ok(true)
  {
    September2018();
    var s, e := Layout.Clock(15, 0), Layout.Clock(1, 30);
    WeeklyCase("15:00", "01:30", "Monday", "Tuesday", s, e, 2018, 9, 3, 16, 0, true);
    WeeklyCase("15:00", "01:30", "Monday", "Tuesday", s, e, 2018, 9, 4, 16, 0, true);
    WeeklyCase("15:00", "01:30", "Monday", "Tuesday", s, e, 2018, 9, 5, 1, 0, true);
  }

  /** contains_weekly_test.go, Monday to Tuesday 15:00-01:30 ("EndTime is over 24o'clock 2days" 4-5). */
  lemma WeeklyTwoDaysLateTable()
    ensures Contains(Spec(Weekly, "15:00", "01:30", "Monday", "Tuesday"), UtcAt(2018, 9, 5, 2, 0), NoZones) == Ok(false)
    ensures Contains(Spec(Weekly, "15:00", "01:30", "Monday", "Tuesday"), UtcAt(2018, 9, 6, 16, 0), NoZones) == Ok(false)
  {
    September2018();
    var s, e := Layout.Clock(15, 0), Layout.Clock(1, 30);
    WeeklyCase("15:00", "01:30", "Monday", "Tuesday", s, e, 2018, 9, 5, 2, 0, false);
    WeeklyCase("15:00", "01:30", "Monday", "Tuesday", s, e, 2018, 9, 6, 16, 0, false);
  }

  /** contains_weekly_test.go, Monday to Wednesday 15:00-01:30 ("the middle day in 3days" 1-4). */
  lemma WeeklyMiddleDayTable()
    ensures Contains(Spec(Weekly, "15:00", "01:30", "Monday", "Wednesday"), UtcAt(2018, 9, 4, 14, 0), NoZones) == Ok(false)
    ensures Contains(Spec(Weekly, "15:00", "01:30", "Monday", "Wednesday"), UtcAt(2018, 9, 4, 15, 0), NoZones) == Ok(true)
    ensures Contains(Spec(Weekly, "15:00", "01:30", "Monday", "Wednesday"), UtcAt(2018, 9, 4, 16, 0), NoZones) == Ok(true)
    ensures Contains(Spec(Weekly, "15:00", "01:30", "Monday", "Wednesday"), UtcAt(2018, 9, 4, 23, 0), NoZones) == Ok(true)
  {
    September2018();
    var s, e := Layout.Clock(15, 0), Layout.Clock(1, 30);
    WeeklyCase("15:00", "01:30", "Monday", "Wednesday", s, e, 2018, 9, 4, 14, 0, false);
    WeeklyCase("15:00", "01:30", "Monday", "Wednesday", s, e, 2018, 9, 4, 15, 0, true);
    WeeklyCase("15:00", "01:30", "Monday", "Wednesday", s, e, 2018, 9, 4, 16, 0, true);
    WeeklyCase("15:00", "01:30", "Monday", "Wednesday", s, e, 2018, 9, 4, 23, 0, true);
  }

  /** contains_weekly_test.go, Monday to Wednesday 15:00-01:30 ("the middle day in 3days" 5-7). */
  lemma WeeklyMiddleDayLateTable()
    ensures Contains(Spec(Weekly, "15:00", "01:30", "Monday", "Wednesday"), UtcAt(2018, 9, 5, 0, 0), NoZones) == Ok(true)
    ensures Contains(Spec(Weekly, "15:00", "01:30", "Monday", "Wednesday"), UtcAt(2018, 9, 5, 1, 0), NoZones) == Ok(true)
    ensures Contains(Spec(Weekly, "15:00", "01:30", "Monday", "Wednesday"), UtcAt(2018, 9, 5, 2, 0), NoZones) == Ok(false)
  {
    September2018();
    var s, e := Layout.Clock(15, 0), Layout.Clock(1, 30);
    WeeklyCase("15:00", "01:30", "Monday", "Wednesday", s, e, 2018, 9, 5, 0, 0, true);
    WeeklyCase("15:00", "01:30", "Monday", "Wednesday", s, e, 2018, 9, 5, 1, 0, true);
    WeeklyCase("15:00", "01:30", "Monday", "Wednesday", s, e, 2018, 9, 5, 2, 0, false);
  }

  /** contains_weekly_test.go, Tuesday to Sunday 15:00-01:30 ("StartDayOfWeek is bigger than EndDayOfWeek"). */
  lemma WeeklyWrappedDaysTable()
    ensures Contains(Spec(Weekly, "15:00", "01:30", "Tuesday", "Sunday"), UtcAt(2018, 9, 3, 1, 20), NoZones) == Ok(true)
    ensures Contains(Spec(Weekly, "15:00", "01:30", "Tuesday", "Sunday"), UtcAt(2018, 9, 3, 16, 20), NoZones) == Ok(false)
    ensures Contains(Spec(Weekly, "15:00", "01:30", "Tuesday", "Sunday"), UtcAt(2018, 9, 4, 1, 20), NoZones) == Ok(false)
    ensures Contains(Spec(Weekly, "15:00", "01:30", "Tuesday", "Sunday"), UtcAt(2018, 9, 5, 1, 20), NoZones) == Ok(true)
  {
    September2018();
    var s, e := Layout.Clock(15, 0), Layout.Clock(1, 30);
    WeeklyCase("15:00", "01:30", "Tuesday", "Sunday", s, e, 2018, 9, 3, 1, 20, true);
    WeeklyCase("15:00", "01:30", "Tuesday", "Sunday", s, e, 2018, 9, 3, 16, 20, false);
    WeeklyCase("15:00", "01:30", "Tuesday", "Sunday", s, e, 2018, 9, 4, 1, 20, false);
    WeeklyCase("15:00", "01:30", "Tuesday", "Sunday", s, e, 2018, 9, 5, 1, 20, true);
  }

  /** contains_weekly_test.go, Sunday to Saturday 15:00-01:30 ("everyday"). */
  lemma WeeklyEverydayTable()
    ensures Contains(Spec(Weekly, "15:00", "01:30", "Sunday", "Saturday"), UtcAt(2018, 9, 3, 1, 20), NoZones) == Ok(true)
    ensures Contains(Spec(Weekly, "15:00", "01:30", "Sunday", "Saturday"), UtcAt(2018, 9, 3, 16, 0), NoZones) == Ok(true)
    ensures Contains(Spec(Weekly, "15:00", "01:30", "Sunday", "Saturday"), UtcAt(2018, 9, 5, 1, 20), NoZones) == Ok(true)
  {
    September2018();
    var s, e := Layout.Clock(15, 0), Layout.Clock(1, 30);
    WeeklyCase("15:00", "01:30", "Sunday", "Saturday", s, e, 2018, 9, 3, 1, 20, true);
    WeeklyCase("15:00", "01:30", "Sunday", "Saturday", s, e, 2018, 9, 3, 16, 0, true);
    WeeklyCase("15:00", "01:30", "Sunday", "Saturday", s, e, 2018, 9, 5, 1, 20, true);
  }

  /** A OneShot case in UTC: the answer is where the wall-clock reading falls between the two parsed bounds. */
  lemma OneShotCase(st: string, en: string, sd: Layout.DateTime, ed: Layout.DateTime, t: Layout.DateTime, expected: bool)
    requires Layout.ValidDateTime(sd) && 0 <= sd.year <= 9999 && Layout.FormatDateTime(sd) == st
    requires Layout.ValidDateTime(ed) && 0 <= ed.year <= 9999 && Layout.FormatDateTime(ed) == en
    requires Layout.ValidDateTime(t)
    requires expected == (!Before(t, sd) && Before(t, ed))
    ensures Contains(Spec(OneShot, st, en, "", ""), LocalSeconds(t), NoZones) == Ok(expected)
  {
    Layout.DateTimeRoundTrip(sd);
    Layout.DateTimeRoundTrip(ed);
    assert LoadLocation(NoZones, "") == Ok(0);
    OneShotHalfOpen(Spec(OneShot, st, en, "", ""), t, NoZones);
  }

  /** contains_test.go, OneShot: 2018-09-01T10:00 to 2018-09-10T19:00 holds at 2018-09-10 11:00 ... */
  lemma OneShotTable()
    ensures Contains(Spec(OneShot, "2018-09-01T10:00", "2018-09-10T19:00", "", ""), UtcAt(2018, 9, 10, 11, 0), NoZones) == Ok(true)
  {
    var start := Layout.DateTime(2018, 9, 1, Layout.Clock(10, 0));
    var end := Layout.DateTime(2018, 9, 10, Layout.Clock(19, 0));
    var t := Layout.DateTime(2018, 9, 10, Layout.Clock(11, 0));
    assert Layout.FormatDateTime(start) == "2018-09-01T10:00";
    assert Layout.FormatDateTime(end) == "2018-09-10T19:00";
    assert UtcAt(2018, 9, 10, 11, 0) == LocalSeconds(t);
    OneShotCase("2018-09-01T10:00", "2018-09-10T19:00", start, end, t, true);
  }

  /** ... and 2018-09-01T10:00 to 2018-09-05T19:00 no longer holds at 2018-09-10 20:00. */
  lemma OneShotOverTable()
    ensures Contains(Spec(OneShot, "2018-09-01T10:00", "2018-09-05T19:00", "", ""), UtcAt(2018, 9, 10, 20, 0), NoZones) == Ok(false)
  {
    var start := Layout.DateTime(2018, 9, 1, Layout.Clock(10, 0));
    var end := Layout.DateTime(2018, 9, 5, Layout.Clock(19, 0));
    var t := Layout.DateTime(2018, 9, 10, Layout.Clock(20, 0));
    assert Layout.FormatDateTime(start) == "2018-09-01T10:00";
    assert Layout.FormatDateTime(end) == "2018-09-05T19:00";
    assert UtcAt(2018, 9, 10, 20, 0) == LocalSeconds(t);
    OneShotCase("2018-09-01T10:00", "2018-09-05T19:00", start, end, t, false);
  }

  /**
   * contains_test.go, Monthly: the tests expect answers, but `Contains`
   * rejects the type, and their "MM-DDTHH:MM" strings would not parse under
   * the "02T15:04" layout of `normalizeDateTime` either.
   */
  lemma MonthlyTableFails()
    ensures Contains(Spec(Monthly, "09-01T10:00", "09-10T19:00", "", ""), UtcAt(2018, 9, 10, 11, 0), NoZones)
            == Err(UnsupportedScheduleType(Monthly))
    ensures Layout.ParseDayClock("09-01T10:00") == None
    ensures Layout.ParseDayClock("12-01T10:00") == None
    ensures NormalizeDateTime(Spec(Monthly, "09-01T10:00", "09-10T19:00", "", ""), UtcAt(2018, 9, 10, 11, 0))
            == Err(StartTimeUnparsable("09-01T10:00"))
  {
  }
}
