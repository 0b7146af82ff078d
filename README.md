# scheduled-pod-autoscaler, modelled in Dafny

This project models the decision core of the scheduled-pod-autoscaler
Kubernetes controller:

- **The window evaluator** (`ScheduleSpec.Contains`). It decides whether an
  instant falls inside a schedule's window:
  - Daily: `HH:MM` to `HH:MM`, wrapping past midnight.
  - Weekly: the daily window, on the days of a weekday range that may wrap
    over Saturday.
  - OneShot: an absolute `YYYY-MM-DDTHH:MM` interval.
  - Monthly: `normalizeDateTime` exists, but `Contains` never dispatches to it.
- **The OneShot completion check** (`ScheduleSpec.IsCompleted`).
- **The API types**: the schedule type and condition enumerations, the
  schedule record with its validation and defaulting markers, and the
  `Weekdays` table.
- **The status condition list**: `findCondition` and `setCondition`.
- **The reconcile decision**:
  - the schedules are sorted stably by name;
  - the first schedule whose window contains `now` overrides the HPA's
    replica bounds and metrics;
  - otherwise the baseline HPA spec is written back;
  - the HPA is created from the baseline first when it is missing.

## Layout

| file | module | contents |
|---|---|---|
| `wrappers.dfy` | `Wrappers` | `Option` and `Result` |
| `civil.dfy` | `Civil` | proleptic Gregorian day numbers both ways, weekdays, `AddDate` in years |
| `layout.dfy` | `Layout` | Go's `time.Parse` for the layouts `15:04`, `2006-01-02T15:04` and `02T15:04`; canonical formatting and round trips |
| `types.dfy` | `Types` | enums, `ScheduleSpec`, `Weekdays`, marker validation and defaulting |
| `window.dfy` | `Window` | `Contains` and its helpers, the zone lookup |
| `window_lemmas.dfy` | `WindowLemmas` | the evaluator's properties over all inputs |
| `window_tests.dfy` | `WindowTests` | every case of the evaluator's Go test tables, as lemmas |
| `completion.dfy` | `Completion` | `IsCompleted` as written and the corrected check |
| `status.dfy` | `Status` | the condition list as a class: `FindCondition`, `SetCondition` as written, the corrected update |
| `reconcile.dfy` | `Reconcile` | name order, first match, the `Reconcile` method and its specification `Decide` |

## Time

- An instant is a whole number of seconds since 1970-01-01T00:00:00Z.
- A time zone is a fixed offset east of UTC, looked up by name in a map.
  - The empty name and `UTC` need no lookup.
  - An unknown name is an error.
- The evaluator works on the zone's wall-clock seconds, which is the instant
  plus the offset.
- The day number is the wall-clock seconds divided by 86400.
- The weekday is (day + 4) mod 7, because 1970-01-01 was a Thursday.

## Model

| member | source | states |
|---|---|---|
| `Window.WeekdayTablesAgree` | apis/autoscaling/v1/contains.go:11-19 | the evaluator's weekday table is the exported `Weekdays` map, entry for entry |
| `Window.LoadLocation` | apis/autoscaling/v1/contains.go:22-25 | "" and "UTC" load as offset 0; a name fails exactly when it is neither of those nor in the zone database, and then with that name; otherwise its offset comes from the database |
| `Window.Contains` | apis/autoscaling/v1/contains.go:21-39 | `ScheduleSpec.Contains`: an answer needs a loadable zone and a Daily, Weekly or OneShot type; every other case is an error |
| `Window.ContainsDaily` | apis/autoscaling/v1/contains.go:41-49 | `containsDaily`: fails exactly when the start or end time does not parse under `15:04` |
| `Window.ContainsWeekly` | apis/autoscaling/v1/contains.go:51-68 | `containsWeekly`: fails exactly when a time does not parse or a day name is not in the weekday table |
| `Window.ContainsOneShot` | apis/autoscaling/v1/contains.go:70-83 | `containsOneShot`: fails exactly when the start or end does not parse under `2006-01-02T15:04` |
| `Window.NormalizeTime` | apis/autoscaling/v1/contains.go:115-143 | `normalizeTime`: every window it returns starts no later than it ends and lasts less than a day |
| `Window.NormalizeWeekday` | apis/autoscaling/v1/contains.go:145-166 | `normalizeWeekday`: the three weekdays it returns lie in 0..6, and the rotated range starts no later than it ends |
| `Window.NormalizeDateTime` | apis/autoscaling/v1/contains.go:85-113 | `normalizeDateTime`: every window it returns has start ≤ end |
| `Window.MonthWindow` | apis/autoscaling/v1/contains.go:96-112 | the `time.Date` placement and the `AddDate(±1, 0, 0)` wrap: for days 1..31 of any month, the window never ends before it starts |
| `WindowLemmas.ContainsErrors` | apis/autoscaling/v1/contains.go:21-39 | every failure is an error value, in the code's order: unknown zone, unsupported type, start then end time unparsable (per layout), unknown start day, then invalid end day |
| `WindowLemmas.MonthlyUnreachable` | apis/autoscaling/v1/contains.go:29-38 | a Monthly schedule in a loadable zone is always rejected as an unsupported type |
| `WindowLemmas.DispatchDaily` | apis/autoscaling/v1/contains.go:27-32 | a Daily schedule in a loadable zone answers as the daily evaluator at the zone's wall clock |
| `WindowLemmas.DispatchWeekly` | apis/autoscaling/v1/contains.go:27-34 | the same for Weekly and the weekly evaluator |
| `WindowLemmas.DispatchOneShot` | apis/autoscaling/v1/contains.go:27-36 | the same for OneShot and the absolute-interval evaluator |
| `Window.NormalizeTimeSpec` | apis/autoscaling/v1/contains.go:115-143 | the start time's error comes first, then the end time's; the window exists exactly when both parse; start ≤ end < start + one day; the start is on now's date or the day before; the end is on now's date or the day after |
| `WindowLemmas.DailyHalfOpen` | apis/autoscaling/v1/contains.go:41-49 | a daily window holds exactly when now's time of day T satisfies S ≤ T < E (when S ≤ E) or T ≥ S or T < E (when E < S), on every date |
| `WindowLemmas.EmptyDailyWindow` | apis/autoscaling/v1/contains.go:41-49 | a window whose end equals its start never holds |
| `WindowLemmas.NormalizedStartDay` | apis/autoscaling/v1/contains.go:134-140 | the normalised start moves to the previous day exactly when the window wraps and now is earlier than its start time |
| `Window.NormalizeWeekdaySpec` | apis/autoscaling/v1/contains.go:145-166 | the start day is looked up first, then the end day; the result exists exactly when both are known; all three weekdays lie in 0..6; the returned range never wraps |
| `WindowLemmas.NormalizeWeekdayCyclic` | apis/autoscaling/v1/contains.go:157-163 | the rotated test start ≤ today ≤ end holds exactly when today lies in the unrotated range, read cyclically |
| `WindowLemmas.WeeklyIsDailyOnRangeDays` | apis/autoscaling/v1/contains.go:51-68 | a weekly window holds exactly when the daily window with the same times holds and the weekday of the normalised start is in the range |
| `WindowLemmas.WeeklyImpliesDaily` | apis/autoscaling/v1/contains.go:51-68 | a weekly match is always a daily match with the same times |
| `WindowLemmas.TailCountsForPreviousDay` | apis/autoscaling/v1/contains.go:57-64 | after midnight, inside a wrapped window's tail, the weekday that counts is yesterday's |
| `WindowLemmas.WeeklyHalfOpen` | apis/autoscaling/v1/contains.go:51-68 | a weekly window holds exactly when the clock face holds and the range contains the day the window started |
| `WindowLemmas.EverydayIsDaily` | apis/autoscaling/v1/contains.go:62 | with Sunday..Saturday the weekly evaluator gives the daily answer at every instant |
| `WindowLemmas.EverydayWeeklyContains` | apis/autoscaling/v1/contains.go:21-68 | through `Contains`: an everyday Weekly schedule answers exactly as the same schedule typed Daily |
| `WindowLemmas.OneShotHalfOpen` | apis/autoscaling/v1/contains.go:70-83 | a OneShot window holds exactly the wall-clock dates and times from its start (inclusive) to its end (exclusive), in calendar order |
| `WindowLemmas.LocalSecondsOrder` | apis/autoscaling/v1/contains.go:82 | comparing instants orders dates and times exactly as their fields do |
| `WindowLemmas.ContainsReadsWindowFieldsOnly` | apis/autoscaling/v1/contains.go:21-83 | `Contains` reads only the type, zone, times and day names; suspension, name, replica bounds and metrics never change its answer |
| `Window.NormalizeDateTimeErrors` | apis/autoscaling/v1/contains.go:85-96 | the monthly window exists exactly when both `02T15:04` times parse; the start's error comes first |
| `Civil.AddYearsBounds` | apis/autoscaling/v1/contains.go:104-110 | moving a date one year back or on with `AddDate` moves it at least 365 days |
| `Civil.RollsIntoNextMonth` | apis/autoscaling/v1/contains.go:97-102 | for every year and month, a day past the month's end is that many days into the next month, and December rolls into January of the next year |
| `Civil.AddYearsOfValidDate` | apis/autoscaling/v1/contains.go:104-110 | on every date that needs no normalising, `AddDate` by n years moves the year alone and keeps the month and day |
| `Civil.AddYearsAfterNormalising` | apis/autoscaling/v1/contains.go:97-110 | one example of the two rules together: 30 February 2020 is 1 March 2020, and one year earlier is 1 March 2019 |
| `Civil.CivilRoundTrip` | apis/autoscaling/v1/contains.go:126-132 | a valid civil date and its day number determine each other |
| `Layout.ClockRoundTrip` | apis/autoscaling/v1/contains.go:116-124 | every clock time survives formatting and parsing under `15:04` |
| `Layout.DateTimeRoundTrip` | apis/autoscaling/v1/contains.go:71-79 | every date and time of years 0..9999 survives formatting and parsing under `2006-01-02T15:04` |
| `Layout.ParseClock` | apis/autoscaling/v1/contains.go:116-124 | `time.Parse("15:04", s)`: every clock time it returns has an hour of 0..23 and a minute of 0..59 |
| `Layout.ParseClockOnlyCanonical` | apis/autoscaling/v1/contains.go:116-124 | every string that `15:04` accepts is the `HH:MM` of the parsed clock, or, for an hour below ten, that spelling without its leading zero; with `ClockRoundTrip` this gives exactly the strings accepted |
| `Layout.MalformedClocksRejected` | apis/autoscaling/v1/contains.go:116-124 | examples of rejected strings: hour 24, minute 60, a one-digit minute, trailing text and the empty string |
| `Layout.ParseDateTime` | apis/autoscaling/v1/contains.go:71-79 | `time.ParseInLocation("2006-01-02T15:04", s)`: every value it returns is a valid calendar date of years 0..9999 with a valid clock time |
| `Layout.ParseDayClock` | apis/autoscaling/v1/contains.go:86-94 | a parsed `02T15:04` value has a day in 1..31 and a valid clock time |
| `WindowTests.DailyTable` | apis/autoscaling/v1/contains_test.go:15-26 | the Daily 10:00-19:00 cases answer as the test expects |
| `WindowTests.DailyPastMidnightTable` | apis/autoscaling/v1/contains_test.go:27-38 | the Daily cases that wrap past midnight answer as the test expects |
| `WindowTests.OneShotTable` | apis/autoscaling/v1/contains_test.go:119-124 | the first OneShot case answers as the test expects |
| `WindowTests.OneShotOverTable` | apis/autoscaling/v1/contains_test.go:125-130 | the second OneShot case answers as the test expects |
| `WindowTests.MonthlyTableFails` | apis/autoscaling/v1/contains_test.go:60-92 | the Monthly test inputs are rejected: `Contains` has no Monthly case, and their `MM-DDTHH:MM` strings do not parse under `02T15:04` |
| `WindowTests.WeeklyOneDayTable` | apis/autoscaling/v1/contains_weekly_test.go:16-39 | "1day case" 1-4 answer as the test expects |
| `WindowTests.WeeklyOneDayLateTable` | apis/autoscaling/v1/contains_weekly_test.go:40-63 | "1day case" 5-8 answer as the test expects |
| `WindowTests.WeeklyMinutesTable` | apis/autoscaling/v1/contains_weekly_test.go:66-89 | "1day case with minutes" answer as the test expects |
| `WindowTests.WeeklyPastMidnightTable` | apis/autoscaling/v1/contains_weekly_test.go:92-115 | "EndTime is over 24o'clock" 1-4 answer as the test expects |
| `WindowTests.WeeklyPastMidnightLateTable` | apis/autoscaling/v1/contains_weekly_test.go:116-133 | "EndTime is over 24o'clock" 5-7 answer as the test expects |
| `WindowTests.WeeklyPastMidnightMinutesTable` | apis/autoscaling/v1/contains_weekly_test.go:136-153 | the "with minutes" past-midnight cases answer as the test expects |
| `WindowTests.WeeklyTwoDaysTable` | apis/autoscaling/v1/contains_weekly_test.go:156-173 | "2days" 1-3 answer as the test expects |
| `WindowTests.WeeklyTwoDaysLateTable` | apis/autoscaling/v1/contains_weekly_test.go:174-185 | "2days" 4-5 answer as the test expects |
| `WindowTests.WeeklyMiddleDayTable` | apis/autoscaling/v1/contains_weekly_test.go:188-211 | "the middle day in 3days" 1-4 answer as the test expects |
| `WindowTests.WeeklyMiddleDayLateTable` | apis/autoscaling/v1/contains_weekly_test.go:212-229 | "the middle day in 3days" 5-7 answer as the test expects |
| `WindowTests.WeeklyWrappedDaysTable` | apis/autoscaling/v1/contains_weekly_test.go:232-255 | the cases where the start weekday is after the end weekday answer as the test expects |
| `WindowTests.WeeklyEverydayTable` | apis/autoscaling/v1/contains_weekly_test.go:258-275 | the "everyday" cases answer as the test expects |
| `Types.EnumerationSizes` | apis/autoscaling/v1/schedule_types.go:92-109 | there are exactly four schedule types and five condition values, all distinct |
| `Types.WeekdaysTable` | apis/autoscaling/v1/scheduledpodautoscaler_types.go:96-104 | `Weekdays` holds exactly the seven English day names, with distinct ordinals 0..6 from Sunday = 0 to Saturday = 6 |
| `Types.WithDefaults` | apis/autoscaling/v1/scheduledpodautoscaler_types.go:57-62 | a missing MinReplicas becomes 1; a given one is kept |
| `Types.DefaultedBounds` | apis/autoscaling/v1/scheduledpodautoscaler_types.go:57-85 | after defaulting, a schedule the markers admit has both bounds present and ≥ 1, and is still admitted |
| `Completion.IsCompleted` | apis/autoscaling/v1/schedule_types.go:111-122 | non-OneShot types give false with no error; an unparsable end time gives an error; otherwise the answer is true exactly when now is strictly before the end |
| `Completion.IsCompletedReadsEndTimeOnly` | apis/autoscaling/v1/schedule_types.go:111-122 | the answer depends only on the type, the end time and now; the start time, zone and suspension are never read |
| `Completion.CompletedWhileActive` | apis/autoscaling/v1/schedule_types.go:121 | as written, a UTC OneShot schedule reports itself completed at every instant its window contains |
| `Completion.IsCompletedContradictsTests` | apis/autoscaling/v1/schedule_types_test.go:15-26 | as written, the answers at one hour after the end and one minute before it are the opposite of the test's |
| `Completion.HasEnded` | apis/autoscaling/v1/schedule_types.go:111-119 | the corrected check fails exactly when a OneShot end time is unparsable, and is false for other types |
| `Completion.HasEndedAt` | apis/autoscaling/v1/schedule_types.go:111-122 | for every parsable OneShot schedule and every valid wall-clock date and time t, the corrected check answers true exactly when t is not before the end |
| `Completion.HasEndedMatchesTests` | apis/autoscaling/v1/schedule_types_test.go:15-26 | the corrected check agrees with both test rows, and holds at the end instant itself |
| `Completion.HasEndedIsTerminal` | apis/autoscaling/v1/schedule_types.go:111-122 | once the corrected check holds, it holds at every later instant |
| `Completion.EndedNeverContains` | apis/autoscaling/v1/contains.go:70-83 | a UTC OneShot schedule that has ended never contains a later instant |
| `Completion.EndedExcludesContains` | apis/autoscaling/v1/contains.go:70-83 | for a UTC OneShot schedule, the corrected check and containment never hold together |
| `Status.FirstIndex` | controllers/autoscaling/status.go:32-40 | the index of the first entry of the given type: none exactly when no entry has it |
| `Status.FindCondition` | controllers/autoscaling/status.go:32-40 | none exactly when no entry has the type; otherwise a copy of the first entry of that type |
| `Status.SetCondition` | controllers/autoscaling/status.go:10-30 | as written: an absent type is appended, stamped with now, after the unchanged earlier entries; a present type leaves the list exactly as it was; at most one entry per type is preserved |
| `Status.SetConditionInPlace` | controllers/autoscaling/status.go:10-30 | the corrected update: the list becomes the intended upsert of the old list |
| `Status.Upsert` | controllers/autoscaling/status.go:10-30 | the intended `setCondition` on the list: afterwards an entry of the type exists, and the list grew by one exactly when the type was absent |
| `Status.Updated` | controllers/autoscaling/status.go:23-29 | the intended update keeps the type, always takes the new reason and message, and takes the new status and moves the transition time to now only when the status changed |
| `Status.AppendKeepsTypesUnique` | controllers/autoscaling/status.go:15-21 | appending a condition of a type not yet present keeps at most one entry per type |
| `Status.UpsertKeepsTypesUnique` | controllers/autoscaling/status.go:10-30 | the intended update never adds a second entry for a type |
| `Status.UpsertSetsCondition` | controllers/autoscaling/status.go:15-29 | after the intended update, the entry of the type carries the new status, reason and message; its time is now when the entry is new or its status changed, and is kept otherwise |
| `Status.UpsertKeepsOthers` | controllers/autoscaling/status.go:15-29 | entries of other types keep their place and content; the list grows by one exactly when the type was absent |
| `Status.UpsertIdempotent` | controllers/autoscaling/status.go:10-30 | setting the same condition twice equals setting it once, whatever the clock says the second time |
| `Status.LostWriteWitness` | controllers/autoscaling/status.go:32-35 | a list holding Available=False already has the type of a new Available=True, so `SetCondition` as written leaves it unchanged, while the intended update turns it into [Available=True] with the new reason and time |
| `Reconcile.NameLessIrreflexive` | controllers/autoscaling/scheduledpodautoscaler_controller.go:78-80 | Go's string `<` never relates a name to itself |
| `Reconcile.NameLessTransitive` | controllers/autoscaling/scheduledpodautoscaler_controller.go:78-80 | Go's string `<` is transitive |
| `Reconcile.NameLessTotal` | controllers/autoscaling/scheduledpodautoscaler_controller.go:78-80 | two different names are ordered one way or the other |
| `Reconcile.SortByName` | controllers/autoscaling/scheduledpodautoscaler_controller.go:78-80 | `sort.SliceStable` by name: the result is a permutation of the list |
| `Reconcile.Ordered` | controllers/autoscaling/scheduledpodautoscaler_controller.go:77-81 | the evaluation order, sorted only when there are two or more schedules, is a permutation of the list |
| `Reconcile.OrderedSameMembers` | controllers/autoscaling/scheduledpodautoscaler_controller.go:77-81 | the evaluation order holds exactly the schedules of the list |
| `Reconcile.OrderedIsStableSort` | controllers/autoscaling/scheduledpodautoscaler_controller.go:77-81 | the evaluation order is a permutation of the list, sorted by name, and stable: the schedules of each name keep their relative order |
| `Reconcile.SortByNameSorted` | controllers/autoscaling/scheduledpodautoscaler_controller.go:78-80 | the sort's result is in name order |
| `Reconcile.SortByNameStable` | controllers/autoscaling/scheduledpodautoscaler_controller.go:78-80 | the sort keeps the relative order of the schedules of each name |
| `Reconcile.FirstMatch` | controllers/autoscaling/scheduledpodautoscaler_controller.go:85-102 | the loop's scan: a match it returns answered yes |
| `Reconcile.FirstMatchErrorSource` | controllers/autoscaling/scheduledpodautoscaler_controller.go:86-89 | an error it returns is the answer of some schedule of the list |
| `Reconcile.Decide` | controllers/autoscaling/scheduledpodautoscaler_controller.go:77-107 | the spec written to the HPA is the baseline or the current spec overridden by a schedule of the list that answered yes; an error is the answer of a schedule of the list |
| `Reconcile.FirstMatchAt` | controllers/autoscaling/scheduledpodautoscaler_controller.go:85-101 | a schedule that answers yes, with every schedule before it answering no, is the match whatever follows it |
| `Reconcile.FirstMatchErrorAt` | controllers/autoscaling/scheduledpodautoscaler_controller.go:86-89 | a schedule whose evaluation fails, with every schedule before it answering no, aborts the scan with its error |
| `Reconcile.FirstMatchNone` | controllers/autoscaling/scheduledpodautoscaler_controller.go:85-102 | there is no match exactly when every schedule answers no |
| `Reconcile.FirstMatchSound` | controllers/autoscaling/scheduledpodautoscaler_controller.go:91 | a match is a schedule of the list that answered yes |
| `Reconcile.FirstMatchIgnoresTail` | controllers/autoscaling/scheduledpodautoscaler_controller.go:85-101 | once a match or an error is reached, schedules after it cannot change the outcome |
| `Reconcile.MatchIndex` | controllers/autoscaling/scheduledpodautoscaler_controller.go:85-101 | the match sits at a position before which every schedule answered no |
| `Reconcile.Override` | controllers/autoscaling/scheduledpodautoscaler_controller.go:91-94 | a match sets the HPA's max replicas, min replicas and metrics from the schedule; the target reference and behaviour stay as they were |
| `Reconcile.Reconcile` | controllers/autoscaling/scheduledpodautoscaler_controller.go:56-110 | a failed lookup aborts; a missing HPA is created from the baseline, and a failed create aborts; otherwise the spec handed to Update is the decision of `Decide` on the current (or created) HPA, an evaluation error aborts with no update, and Update's failure is reported |
| `Reconcile.WinnerHasSmallestMatchingName` | controllers/autoscaling/scheduledpodautoscaler_controller.go:77-101 | every schedule whose name is smaller than the winner's answers no |
| `Reconcile.BaselineWhenNothingMatches` | controllers/autoscaling/scheduledpodautoscaler_controller.go:104-107 | when no schedule contains now, the baseline spec is written back, whatever the HPA held |
| `Reconcile.SoleMatchWins` | controllers/autoscaling/scheduledpodautoscaler_controller.go:85-100 | when exactly one schedule matches and all others answer no, its bounds and metrics are written over the current HPA |
| `Reconcile.SmallestMatchWinsOverLaterErrors` | controllers/autoscaling/scheduledpodautoscaler_controller.go:77-101 | a matching schedule with a unique name wins when every smaller-named schedule answers no, even when schedules with greater names would fail to evaluate |
| `Reconcile.SoleErrorAborts` | controllers/autoscaling/scheduledpodautoscaler_controller.go:86-89 | a schedule whose evaluation fails, when every other schedule answers no, aborts the decision with its error |
| `Reconcile.SuspendedScheduleStillWins` | controllers/autoscaling/scheduledpodautoscaler_controller.go:85-102 | with the real evaluator, a suspended schedule that alone contains now still overrides the HPA: suspension is never consulted |

## Left out

- Time-zone data: zones are fixed offsets from a name-to-offset map. Daylight-saving transitions and historical offset changes of the tz database are not modelled. `time.Date` and `AddDate` are therefore exact day arithmetic on the wall clock.
- Sub-minute precision: the layouts carry minutes only. Instants are whole seconds, and Go's nanoseconds are not modelled.
- Error text: errors are values naming their cause, such as `StartTimeUnparsable(text)`. The `fmt.Errorf` wording is not modelled.
- Kubernetes API calls in `Reconcile`: the fetch of the HPA is the `HpaLookup` input. The outcomes of Create and Update are boolean inputs. The specs handed to Create and Update are outputs.
- The fetch of the ScheduledPodAutoscaler itself: the fetched spec is the input `spa`.
- `SetControllerReference` and its possible failure are not modelled. Owner references carry no decision logic.
- The HPA's object metadata (name, namespace) is not modelled.
- Reconcile.Reconcile: the clock reading and the zone database reach it through the `contains` parameter. The controller passes `Reconcile.Evaluate(now, zones)`, and the lemmas about `Decide` state the evaluator explicitly where it matters.
- Reconcile.SortByName: `sort.SliceStable` reorders the schedule list in place. The model computes the sorted order as a value. The reordered list is never written back by `Reconcile`, so nothing outside observes the difference.
- Schedules without a `maxReplicas` (the older `ScheduleSpec` revision, where it is optional) are not modelled. The record holds the union of the fields the evaluator and the controller read, with `maxReplicas` required as the newer revision declares it.
- The HPA `behavior` field is carried as an opaque string. Metrics are opaque values.
- `controllers/autoscaling/schedule_controller.go` is not part of this model; it only fetches objects and sets an owner reference. `main.go` (process wiring) and `controllers/autoscaling/metrics.go` (gauge registration) are not part of it either.
- Status.SetCondition: the branch for a nil list allocates a local list nobody sees. The model states nothing for a null list beyond what `modifies` allows.

## Where the code and the design disagree

The model follows the code in each case.

- **Aggregation.** The design describes taking the maximum bounds over all active schedules, independent of order. The code lets the first matching schedule in name order win. With two schedules of the same name, the input order therefore decides.
- **Suspend.** The design excludes suspended schedules. The code never reads the flag (`Reconcile.SuspendedScheduleStillWins`, `WindowLemmas.ContainsReadsWindowFieldsOnly`).
- **Monthly.** The design evaluates Monthly windows from `MM-DDTHH:MM` strings. The code has no Monthly case in `Contains`, and its `normalizeDateTime` parses `02T15:04`, so those strings would be rejected as well (`WindowTests.MonthlyTableFails`).
- **Test tables.** `contains_test.go` and `contains_weekly_test.go` build their schedules with `TypeDaily`, `TypeWeekly`, `TypeMonthly` and `TypeOneShot`. `schedule_types.go:95-98` declares only `Monthly`, `Weekly`, `Daily` and `OneShot`, so those two test files do not compile as written. The `WindowTests` lemmas read them with the declared constants and take their expected values as the intended behaviour. `schedule_types_test.go` uses the declared `OneShot`.
- **Completion.** The design says a OneShot schedule is completed once `now ≥ end`. The code answers `end > now` (see Findings).

## Findings

| source | as written | input that shows it | evidently intended | confidence | as-written member | corrected member |
|---|---|---|---|---|---|---|
| apis/autoscaling/v1/schedule_types.go:121 | `IsCompleted` answers whether the end time is still after `now` | end 2018-09-10T19:00, now 2018-09-10T20:00 UTC: the answer is false, and the test expects true; at 18:59 it is true, and the test expects false | completed once `now` has reached the end | high; not executed | `Completion.IsCompletedContradictsTests` | `Completion.HasEndedAt` |
| controllers/autoscaling/status.go:32-35 | `findCondition` returns the address of the loop variable, so `setCondition`'s update of an existing entry writes to a copy | list [Available=False], new condition Available=True: the list is left unchanged | the entry in the list takes the new status, reason and message | high; not executed | `Status.LostWriteWitness` | `Status.SetConditionInPlace` |
