/**
 * `ScheduleSpec.IsCompleted`: whether a OneShot schedule is over. The end
 * time is parsed as UTC whatever the schedule's zone, and the start time,
 * zone and suspension are never read.
 */
module Completion {
  import opened Wrappers
  import Layout
  import opened Types
  import opened Window
  import opened WindowLemmas

  /** `IsCompleted` as written: it answers whether the end is still AHEAD of `now`. */
  function IsCompleted(s: ScheduleSpec, now: Instant): (r: Result<bool, Error>)
    ensures s.scheduleType != OneShot ==> r == Ok(false)
    ensures s.scheduleType == OneShot ==> (r.Err? <==> Layout.ParseDateTime(s.endTime).None?)
    ensures r == Ok(true) <==>
      s.scheduleType == OneShot && Layout.ParseDateTime(s.endTime).Some?
      && now < LocalSeconds(Layout.ParseDateTime(s.endTime).value)
  {
    if s.scheduleType != OneShot then Ok(false)
    else
      match Layout.ParseDateTime(s.endTime)
      case None => Err(EndTimeUnparsable(s.endTime))
      case Some(end) => Ok(LocalSeconds(end) > now)
  }

  /** The answer depends on the type, the end time and `now` alone. */
  lemma IsCompletedReadsEndTimeOnly(a: ScheduleSpec, b: ScheduleSpec, now: Instant)
    requires a.scheduleType == b.scheduleType && a.endTime == b.endTime
    ensures IsCompleted(a, now) == IsCompleted(b, now)
  {
  }

  /** As written, a UTC OneShot schedule reports itself completed throughout its own window. */
  lemma {:induction false} CompletedWhileActive(s: ScheduleSpec, now: Instant, zones: Zones)
    requires s.scheduleType == OneShot && (s.timeZone == "" || s.timeZone == "UTC")
    requires Contains(s, now, zones) == Ok(true)
    ensures IsCompleted(s, now) == Ok(true)
  {
    assert Contains(s, now, zones) == ContainsOneShot(s, now);
  }

  /** The end instant of 2018-09-10T19:00 UTC, and the two instants the test table probes. */
  const TestEnd: Layout.DateTime := Layout.DateTime(2018, 9, 10, Layout.Clock(19, 0))
  const TestSpec: ScheduleSpec :=
    ScheduleSpec(OneShot, "", false, "", "2018-09-01T10:00", "2018-09-10T19:00", "", "", None, 1, [])

  /**
   * schedule_types_test.go expects `true` an hour after the end and `false`
   * a minute before it; as written the answers are the other way round.
   */
  lemma {:induction false} IsCompletedContradictsTests()
    ensures IsCompleted(TestSpec, LocalSeconds(TestEnd) + 3600) == Ok(false)
    ensures IsCompleted(TestSpec, LocalSeconds(TestEnd) - 60) == Ok(true)
  {
    assert Layout.FormatDateTime(TestEnd) == "2018-09-10T19:00";
    Layout.DateTimeRoundTrip(TestEnd);
  }

  /** The intended check: a OneShot schedule is completed once `now` has reached its end. */
  function HasEnded(s: ScheduleSpec, now: Instant): (r: Result<bool, Error>)
    ensures s.scheduleType != OneShot ==> r == Ok(false)
    ensures r.Err? <==> s.scheduleType == OneShot && Layout.ParseDateTime(s.endTime).None?
  {
    if s.scheduleType != OneShot then Ok(false)
    else
      match Layout.ParseDateTime(s.endTime)
      case None => Err(EndTimeUnparsable(s.endTime))
      case Some(end) => Ok(now >= LocalSeconds(end))
  }

  /**
   * The answer of the corrected check at any wall-clock date and time: a
   * parsable OneShot schedule has ended exactly when that date and time is
   * not before its end.
   */
  lemma {:induction false} HasEndedAt(s: ScheduleSpec, t: Layout.DateTime)
    requires s.scheduleType == OneShot && Layout.ValidDateTime(t) && Layout.ParseDateTime(s.endTime).Some?
    ensures HasEnded(s, LocalSeconds(t)) == Ok(!Before(t, Layout.ParseDateTime(s.endTime).value))
  {
    LocalSecondsOrder(t, Layout.ParseDateTime(s.endTime).value);
  }

  /** Completion is terminal: once completed, a schedule stays completed at every later instant. */
  lemma HasEndedIsTerminal(s: ScheduleSpec, now: Instant, later: Instant)
    requires HasEnded(s, now) == Ok(true) && now <= later
    ensures HasEnded(s, later) == Ok(true)
  {
  }

  /** A completed UTC OneShot schedule never contains an instant again. */
  lemma {:induction false} EndedNeverContains(s: ScheduleSpec, now: Instant, later: Instant, zones: Zones)
    requires s.timeZone == "" || s.timeZone == "UTC"
    requires HasEnded(s, now) == Ok(true) && now <= later
    ensures Contains(s, later, zones) != Ok(true)
  {
    assert Contains(s, later, zones) == ContainsOneShot(s, later);
  }

  /** The corrected check agrees with both rows of the test table, and with the window on either side of the end. */
  lemma {:induction false} HasEndedMatchesTests()
    ensures HasEnded(TestSpec, LocalSeconds(TestEnd) + 3600) == Ok(true)
    ensures HasEnded(TestSpec, LocalSeconds(TestEnd) - 60) == Ok(false)
    ensures HasEnded(TestSpec, LocalSeconds(TestEnd)) == Ok(true)
  {
    assert Layout.FormatDateTime(TestEnd) == "2018-09-10T19:00";
    Layout.DateTimeRoundTrip(TestEnd);
  }

  /** For a UTC OneShot schedule, completion and containment never hold together. */
  lemma {:induction false} EndedExcludesContains(s: ScheduleSpec, now: Instant, zones: Zones)
    requires s.scheduleType == OneShot && (s.timeZone == "" || s.timeZone == "UTC")
    requires Contains(s, now, zones) == Ok(true)
    ensures HasEnded(s, now) == Ok(false)
  {
    assert Contains(s, now, zones) == ContainsOneShot(s, now);
  }
}
