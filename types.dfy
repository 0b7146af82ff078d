/**
 * The API types of package `autoscaling/v1`: the schedule types and
 * schedule condition values, the schedule record, the `Weekdays` table and
 * the validation and defaulting that the kubebuilder markers ask the API
 * server for.
 */
module Types {
  import opened Wrappers

  /** Go's `int32`. */
  newtype int32 = x: int | -0x8000_0000 <= x < 0x8000_0000

  /** `ScheduleType` is a Go string type; any string can arrive from the API. */
  type ScheduleType = string

  const Monthly: ScheduleType := "Monthly"
  const Weekly: ScheduleType := "Weekly"
  const Daily: ScheduleType := "Daily"
  const OneShot: ScheduleType := "OneShot"

  /** The values the `Enum=Monthly;Weekly;Daily;OneShot` marker admits. */
  const ScheduleTypes: set<ScheduleType> := {Monthly, Weekly, Daily, OneShot}

  type ScheduleConditionType = string

  const ScheduleAvailable: ScheduleConditionType := "Available"
  const ScheduleSuspend: ScheduleConditionType := "Suspend"
  const ScheduleProgressing: ScheduleConditionType := "Progressing"
  const ScheduleDegraded: ScheduleConditionType := "Degraded"
  const ScheduleCompleted: ScheduleConditionType := "Completed"

  const ScheduleConditionTypes: set<ScheduleConditionType> :=
    {ScheduleAvailable, ScheduleSuspend, ScheduleProgressing, ScheduleDegraded, ScheduleCompleted}

  /** A metric target of the autoscaler: carried along, never inspected. */
  datatype Metric = Metric(descriptor: string)

  /**
   * One schedule. Two revisions of `ScheduleSpec` exist side by side; this
   * record holds the union of the fields the evaluator and the controller read.
   */
  datatype ScheduleSpec = ScheduleSpec(
    scheduleType: ScheduleType,
    timeZone: string,
    suspend: bool,
    name: string,
    startTime: string,
    endTime: string,
    startDayOfWeek: string,
    endDayOfWeek: string,
    minReplicas: Option<int32>,
    maxReplicas: int32,
    metrics: seq<Metric>)

  /** The exported weekday table, Sunday = 0 .. Saturday = 6. */
  const Weekdays: map<string, int> := map[
    "Monday" := 1,
    "Tuesday" := 2,
    "Wednesday" := 3,
    "Thursday" := 4,
    "Friday" := 5,
    "Saturday" := 6,
    "Sunday" := 0]

  const DayNames: seq<string> := ["Sunday", "Monday", "Tuesday", "Wednesday", "Thursday", "Friday", "Saturday"]

  /** What the kubebuilder markers on the schedule fields let through the API server. */
  predicate ValidSchedule(s: ScheduleSpec) {
    && s.scheduleType in ScheduleTypes
    && s.maxReplicas >= 1
    && (s.minReplicas.Some? ==> s.minReplicas.value >= 1)
    && (s.startDayOfWeek == "" || s.startDayOfWeek in Weekdays)
    && (s.endDayOfWeek == "" || s.endDayOfWeek in Weekdays)
  }

  /** The `default=1` marker on MinReplicas, applied by the API server. */
  function WithDefaults(s: ScheduleSpec): (r: ScheduleSpec)
    ensures r.minReplicas.Some?
    ensures s.minReplicas.Some? ==> r == s
    ensures s.minReplicas.None? ==> r == s.(minReplicas := Some(1))
  {
    if s.minReplicas.None? then s.(minReplicas := Some(1)) else s
  }

  /** After defaulting, a valid schedule names both bounds, each at least 1. */
  lemma DefaultedBounds(s: ScheduleSpec)
    requires ValidSchedule(s)
    ensures ValidSchedule(WithDefaults(s))
    ensures WithDefaults(s).minReplicas.Some? && WithDefaults(s).minReplicas.value >= 1
    ensures WithDefaults(s).maxReplicas >= 1
  {
  }

  /** There are exactly four schedule types and five condition values, all distinct. */
  lemma EnumerationSizes()
    ensures |ScheduleTypes| == 4
    ensures |ScheduleConditionTypes| == 5
  {
  }

  /**
   * `Weekdays` names exactly the seven English days, and gives them the
   * distinct ordinals 0..6 in calendar order from Sunday.
   */
  lemma {:induction false} WeekdaysTable()
    ensures Weekdays.Keys == {"Sunday", "Monday", "Tuesday", "Wednesday", "Thursday", "Friday", "Saturday"}
    ensures forall i :: 0 <= i < 7 ==> Weekdays[DayNames[i]] == i
    ensures forall a, b :: a in Weekdays && b in Weekdays && a != b ==> Weekdays[a] != Weekdays[b]
    ensures forall a :: a in Weekdays ==> 0 <= Weekdays[a] < 7
  {
    assert forall i :: 0 <= i < 7 ==> Weekdays[DayNames[i]] == i;
  }
}
