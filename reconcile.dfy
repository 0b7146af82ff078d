/**
 * The decision at the heart of `ScheduledPodAutoscalerReconciler.Reconcile`:
 * order the schedules by name, let the first one whose window contains
 * `now` override the autoscaler's replica bounds and metrics, and otherwise
 * put the baseline spec back. The API server calls are parameters and
 * results: what the HPA lookup found, whether Create and Update succeed,
 * and which specs were handed to Create and Update.
 */
module Reconcile {
  import opened Wrappers
  import opened Types
  import opened Window

  /** The part of a `HorizontalPodAutoscalerSpec` the controller reads or writes. */
  datatype HpaSpec = HpaSpec(
    scaleTargetRef: string,
    minReplicas: Option<int32>,
    maxReplicas: int32,
    metrics: seq<Metric>,
    behavior: string)

  /** The spec of a `ScheduledPodAutoscaler`: the baseline and the schedule list. */
  datatype AutoscalerSpec = AutoscalerSpec(horizontalPodAutoscalerSpec: HpaSpec, schedules: seq<ScheduleSpec>)

  /** What fetching the HPA of the same name returned. */
  datatype HpaLookup = Found(spec: HpaSpec) | NotFound | LookupFailed

  datatype ReconcileError = FetchFailed | CreateFailed | EvaluationFailed(cause: Error) | UpdateFailed

  // ---------------------------------------------------------------------------------------------
  // Ordering by name

  /** Go's `<` on strings: lexicographic, character by character. */
  predicate NameLess(a: string, b: string)
  {
    if |a| == 0 then |b| > 0
    else if |b| == 0 then false
    else if a[0] != b[0] then a[0] < b[0]
    else NameLess(a[1..], b[1..])
  }

  lemma {:induction false} NameLessIrreflexive(a: string)
    ensures !NameLess(a, a)
  {
    if |a| > 0 {
      NameLessIrreflexive(a[1..]);
    }
  }

  lemma {:induction false} NameLessTransitive(a: string, b: string, c: string)
    requires NameLess(a, b) && NameLess(b, c)
    ensures NameLess(a, c)
  {
    if |a| > 0 && |b| > 0 && |c| > 0 && a[0] == b[0] && b[0] == c[0] {
      NameLessTransitive(a[1..], b[1..], c[1..]);
    }
  }

  lemma {:induction false} NameLessTotal(a: string, b: string)
    requires a != b
    ensures NameLess(a, b) || NameLess(b, a)
  {
    if |a| > 0 && |b| > 0 && a[0] == b[0] {
      assert a == [a[0]] + a[1..] && b == [b[0]] + b[1..];
      NameLessTotal(a[1..], b[1..]);
    }
  }

  /** No schedule is followed by one whose name is smaller. */
  predicate SortedByName(s: seq<ScheduleSpec>) {
    forall i, j :: 0 <= i < j < |s| ==> !NameLess(s[j].name, s[i].name)
  }

  /** Insert `x` into a sorted list after every schedule whose name is not greater than its own. */
  function Insert(x: ScheduleSpec, s: seq<ScheduleSpec>): (r: seq<ScheduleSpec>)
    ensures multiset(r) == multiset(s) + multiset{x}
  {
    if |s| == 0 then [x]
    else if NameLess(x.name, s[0].name) then [x] + s
    else
      assert s == [s[0]] + s[1..];
      [s[0]] + Insert(x, s[1..])
  }

  /** `sort.SliceStable` by name, as a stable insertion sort taking the schedules in list order. */
  function SortByName(s: seq<ScheduleSpec>): (r: seq<ScheduleSpec>)
    ensures multiset(r) == multiset(s)
  {
    if |s| == 0 then []
    else
      assert s == s[..|s| - 1] + [s[|s| - 1]];
      Insert(s[|s| - 1], SortByName(s[..|s| - 1]))
  }

  /** The order in which `Reconcile` evaluates the schedules: sorted when there are two or more. */
  function Ordered(s: seq<ScheduleSpec>): (r: seq<ScheduleSpec>)
    ensures multiset(r) == multiset(s)
  {
    if |s| >= 2 then SortByName(s) else s
  }

  /** The evaluation order holds exactly the schedules of the list. */
  lemma OrderedSameMembers(s: seq<ScheduleSpec>)
    ensures forall x :: x in Ordered(s) <==> x in s
  {
    forall x
      ensures x in Ordered(s) <==> x in s
    {
      assert x in multiset(Ordered(s)) <==> x in multiset(s);
    }
  }

  lemma {:induction false} InsertSorted(x: ScheduleSpec, s: seq<ScheduleSpec>)
    requires SortedByName(s)
    ensures SortedByName(Insert(x, s))
  {
    if |s| == 0 {
    } else if NameLess(x.name, s[0].name) {
      var r := [x] + s;
      forall i, j | 0 <= i < j < |r|
        ensures !NameLess(r[j].name, r[i].name)
      {
        if i == 0 && NameLess(r[j].name, x.name) {
          if j == 1 {
            NameLessTransitive(s[0].name, x.name, s[0].name);
            NameLessIrreflexive(s[0].name);
          } else {
            NameLessTransitive(r[j].name, x.name, s[0].name);
          }
        }
      }
    } else {
      InsertSorted(x, s[1..]);
      var t := Insert(x, s[1..]);
      var r := [s[0]] + t;
      forall i, j | 0 <= i < j < |r|
        ensures !NameLess(r[j].name, r[i].name)
      {
        if i == 0 {
          assert r[j] == t[j - 1] && t[j - 1] in multiset(t);
        } else {
          assert r[i] == t[i - 1] && r[j] == t[j - 1];
        }
      }
    }
  }

  lemma {:induction false} SortByNameSorted(s: seq<ScheduleSpec>)
    ensures SortedByName(SortByName(s))
  {
    if |s| > 0 {
      SortByNameSorted(s[..|s| - 1]);
      InsertSorted(s[|s| - 1], SortByName(s[..|s| - 1]));
    }
  }

  /** The schedules named `k`, in list order. */
  function Named(s: seq<ScheduleSpec>, k: string): seq<ScheduleSpec>
  {
    if |s| == 0 then []
    else (if s[0].name == k then [s[0]] else []) + Named(s[1..], k)
  }

  lemma {:induction false} NamedAppend(a: seq<ScheduleSpec>, b: seq<ScheduleSpec>, k: string)
    ensures Named(a + b, k) == Named(a, k) + Named(b, k)
  {
    if |a| == 0 {
      assert a + b == b;
    } else {
      assert (a + b)[0] == a[0] && (a + b)[1..] == a[1..] + b;
      NamedAppend(a[1..], b, k);
    }
  }

  lemma {:induction false} NamedNone(s: seq<ScheduleSpec>, k: string)
    requires forall j :: 0 <= j < |s| ==> s[j].name != k
    ensures Named(s, k) == []
  {
    if |s| > 0 {
      NamedNone(s[1..], k);
    }
  }

  lemma NamedCons(c: ScheduleSpec, s: seq<ScheduleSpec>, k: string)
    ensures Named([c] + s, k) == (if c.name == k then [c] else []) + Named(s, k)
  {
    assert ([c] + s)[0] == c && ([c] + s)[1..] == s;
  }

  lemma SortedTail(s: seq<ScheduleSpec>)
    requires SortedByName(s) && |s| > 0
    ensures SortedByName(s[1..])
  {
    forall i, j | 0 <= i < j < |s| - 1
      ensures !NameLess(s[1..][j].name, s[1..][i].name)
    {
      assert s[1..][j] == s[j + 1] && s[1..][i] == s[i + 1];
    }
  }

  lemma {:induction false} InsertNamed(x: ScheduleSpec, s: seq<ScheduleSpec>, k: string)
    requires SortedByName(s)
    ensures Named(Insert(x, s), k) == Named(s, k) + (if x.name == k then [x] else [])
  {
    if |s| == 0 {
      assert Insert(x, s) == [x] + s;
      NamedCons(x, s, k);
    } else if NameLess(x.name, s[0].name) {
      assert Insert(x, s) == [x] + s;
      NamedCons(x, s, k);
      if x.name == k {
        NoneNamedAfterSmaller(x, s);
        NamedNone(s, k);
      }
    } else {
      var t := Insert(x, s[1..]);
      assert Insert(x, s) == [s[0]] + t;
      NamedCons(s[0], t, k);
      SortedTail(s);
      InsertNamed(x, s[1..], k);
      assert s == [s[0]] + s[1..];
      NamedCons(s[0], s[1..], k);
    }
  }

  /** In a sorted list whose head is greater than `x`, no schedule carries `x`'s name. */
  lemma NoneNamedAfterSmaller(x: ScheduleSpec, s: seq<ScheduleSpec>)
    requires SortedByName(s) && |s| > 0 && NameLess(x.name, s[0].name)
    ensures forall j :: 0 <= j < |s| ==> s[j].name != x.name
  {
    forall j | 0 <= j < |s|
      ensures s[j].name != x.name
    {
      if j == 0 {
        NameLessIrreflexive(x.name);
      }
    }
  }

  /** Splitting off the last schedule of a list splits its schedules named `k` the same way. */
  lemma NamedSnoc(s: seq<ScheduleSpec>, k: string)
    requires |s| > 0
    ensures Named(s, k) == Named(s[..|s| - 1], k) + (if s[|s| - 1].name == k then [s[|s| - 1]] else [])
  {
    var p, x := s[..|s| - 1], s[|s| - 1];
    assert s == p + [x];
    NamedAppend(p, [x], k);
    assert [x] == [x] + [];
    NamedCons(x, [], k);
  }

  /** The sort is stable: the schedules of any one name keep their relative order. */
  lemma {:induction false} SortByNameStable(s: seq<ScheduleSpec>, k: string)
    ensures Named(SortByName(s), k) == Named(s, k)
  {
    if |s| > 0 {
      var p, x := s[..|s| - 1], s[|s| - 1];
      SortByNameSorted(p);
      calc {
        Named(SortByName(s), k);
        Named(Insert(x, SortByName(p)), k);
        { InsertNamed(x, SortByName(p), k); }
        Named(SortByName(p), k) + (if x.name == k then [x] else []);
        { SortByNameStable(p, k); }
        Named(p, k) + (if x.name == k then [x] else []);
        { NamedSnoc(s, k); }
        Named(s, k);
      }
    }
  }

  /** The evaluation order is a permutation of the list, sorted by name, and stable. */
  lemma OrderedIsStableSort(s: seq<ScheduleSpec>)
    ensures multiset(Ordered(s)) == multiset(s)
    ensures SortedByName(Ordered(s))
    ensures forall k :: Named(Ordered(s), k) == Named(s, k)
  {
    SortByNameSorted(s);
    forall k
      ensures Named(Ordered(s), k) == Named(s, k)
    {
      SortByNameStable(s, k);
    }
  }

  // ---------------------------------------------------------------------------------------------
  // The first match

  /** How a schedule answers "does your window contain now?". */
  type Evaluator = ScheduleSpec -> Result<bool, Error>

  /** The evaluator `Reconcile` uses: `Contains` at the instant `now`. */
  function Evaluate(now: Instant, zones: Zones): Evaluator
  {
    s => Contains(s, now, zones)
  }

  /** The first schedule that answers yes, or the error of a schedule reached before any did. */
  function FirstMatch(s: seq<ScheduleSpec>, eval: Evaluator): (r: Result<Option<ScheduleSpec>, Error>)
    ensures r.Ok? && r.value.Some? ==> eval(r.value.value) == Ok(true)
  {
    if |s| == 0 then Ok(None)
    else
      match eval(s[0])
      case Err(e) => Err(e)
      case Ok(true) => Ok(Some(s[0]))
      case Ok(false) => FirstMatch(s[1..], eval)
  }

  /** A schedule that answers yes, with every schedule before it answering no, is the match whatever follows it. */
  lemma {:induction false} FirstMatchAt(s: seq<ScheduleSpec>, i: nat, eval: Evaluator)
    requires i < |s| && eval(s[i]) == Ok(true)
    requires forall j :: 0 <= j < i ==> eval(s[j]) == Ok(false)
    ensures FirstMatch(s, eval) == Ok(Some(s[i]))
  {
    if i > 0 {
      FirstMatchAt(s[1..], i - 1, eval);
    }
  }

  /** A schedule whose evaluation fails, with every schedule before it answering no, aborts the run with its error. */
  lemma {:induction false} FirstMatchErrorAt(s: seq<ScheduleSpec>, i: nat, eval: Evaluator)
    requires i < |s| && eval(s[i]).Err?
    requires forall j :: 0 <= j < i ==> eval(s[j]) == Ok(false)
    ensures FirstMatch(s, eval) == Err(eval(s[i]).error)
  {
    if i > 0 {
      FirstMatchErrorAt(s[1..], i - 1, eval);
    }
  }

  /** There is no match exactly when every schedule answers no. */
  lemma {:induction false} FirstMatchNone(s: seq<ScheduleSpec>, eval: Evaluator)
    ensures FirstMatch(s, eval) == Ok(None) <==>
      forall j :: 0 <= j < |s| ==> eval(s[j]) == Ok(false)
  {
    if |s| > 0 {
      FirstMatchNone(s[1..], eval);
      if eval(s[0]) == Ok(false) {
        forall j | 0 <= j < |s| && eval(s[j]) != Ok(false)
          ensures j > 0 && eval(s[1..][j - 1]) != Ok(false)
        {
        }
      }
    }
  }

  /** When `m` is the only schedule answering yes and nothing answers with an error, `m` is the match. */
  lemma {:induction false} FirstMatchSoleYes(s: seq<ScheduleSpec>, m: ScheduleSpec, eval: Evaluator)
    requires m in s && eval(m) == Ok(true)
    requires forall j :: 0 <= j < |s| && s[j] != m ==> eval(s[j]) == Ok(false)
    ensures FirstMatch(s, eval) == Ok(Some(m))
  {
    if s[0] != m {
      assert m in s[1..];
      FirstMatchSoleYes(s[1..], m, eval);
    }
  }

  /** One step of the scan from position `i`. */
  lemma FirstMatchStep(s: seq<ScheduleSpec>, i: nat, eval: Evaluator)
    requires i < |s|
    ensures FirstMatch(s[i..], eval) ==
      match eval(s[i])
      case Err(e) => Err(e)
      case Ok(true) => Ok(Some(s[i]))
      case Ok(false) => FirstMatch(s[i + 1..], eval)
  {
    assert s[i..][0] == s[i] && s[i..][1..] == s[i + 1..];
  }

  /** A match is a schedule of the list that answered yes. */
  lemma {:induction false} FirstMatchSound(s: seq<ScheduleSpec>, eval: Evaluator)
    requires FirstMatch(s, eval).Ok? && FirstMatch(s, eval).value.Some?
    ensures FirstMatch(s, eval).value.value in s
    ensures eval(FirstMatch(s, eval).value.value) == Ok(true)
  {
    if eval(s[0]) == Ok(false) {
      FirstMatchSound(s[1..], eval);
    }
  }

  /** An error is the answer of a schedule of the list. */
  lemma {:induction false} FirstMatchErrorSource(s: seq<ScheduleSpec>, eval: Evaluator)
    requires FirstMatch(s, eval).Err?
    ensures exists x :: x in s && eval(x) == Err(FirstMatch(s, eval).error)
  {
    if eval(s[0]).Err? {
      assert s[0] in s;
    } else {
      FirstMatchErrorSource(s[1..], eval);
      var x :| x in s[1..] && eval(x) == Err(FirstMatch(s, eval).error);
      assert x in s;
    }
  }


  /** Once a match or an error is reached the scan stops, so nothing appended to the list changes the outcome. */
  lemma {:induction false} FirstMatchIgnoresTail(s: seq<ScheduleSpec>, t: seq<ScheduleSpec>, eval: Evaluator)
    requires FirstMatch(s, eval) != Ok(None)
    ensures FirstMatch(s + t, eval) == FirstMatch(s, eval)
  {
    assert |s| > 0;
    assert (s + t)[0] == s[0];
    if eval(s[0]) == Ok(false) {
      assert (s + t)[1..] == s[1..] + t;
      FirstMatchIgnoresTail(s[1..], t, eval);
    }
  }

  // ---------------------------------------------------------------------------------------------
  // The decision

  /** A matching schedule overrides the replica bounds and the metrics, nothing else. */
  function Override(hpa: HpaSpec, schedule: ScheduleSpec): (r: HpaSpec)
    ensures r.scaleTargetRef == hpa.scaleTargetRef && r.behavior == hpa.behavior
    ensures r.minReplicas == schedule.minReplicas && r.maxReplicas == schedule.maxReplicas
    ensures r.metrics == schedule.metrics
  {
    hpa.(maxReplicas := schedule.maxReplicas, minReplicas := schedule.minReplicas, metrics := schedule.metrics)
  }

  /**
   * The HPA spec `Reconcile` writes, starting from the HPA's current spec, or
   * the evaluation error; `contains` answers for each schedule (the controller
   * uses `Evaluate(now, zones)`).
   */
  function Decide(spa: AutoscalerSpec, current: HpaSpec, contains: Evaluator): (r: Result<HpaSpec, Error>)
    ensures r.Ok? ==>
      || r.value == spa.horizontalPodAutoscalerSpec
      || exists m :: m in spa.schedules && contains(m) == Ok(true) && r.value == Override(current, m)
    ensures r.Err? ==> exists x :: x in spa.schedules && contains(x) == Err(r.error)
  {
    match FirstMatch(Ordered(spa.schedules), contains)
    case Err(e) =>
      FirstMatchErrorSource(Ordered(spa.schedules), contains);
      OrderedSameMembers(spa.schedules);
      Err(e)
    case Ok(Some(m)) =>
      FirstMatchSound(Ordered(spa.schedules), contains);
      OrderedSameMembers(spa.schedules);
      Ok(Override(current, m))
    case Ok(None) => Ok(spa.horizontalPodAutoscalerSpec)
  }

  /**
   * `Reconcile`, from the fetched autoscaler on. `created` is the spec handed
   * to Create and `updated` the spec handed to Update; the schedule list is
   * put in name order, then scanned until the first match or error.
   * `contains` is `schedule.Contains(now)`: `Evaluate(now, zones)` with the
   * clock reading and the zone database of this run.
   */
  method Reconcile(spa: AutoscalerSpec, lookup: HpaLookup, createSucceeds: bool, updateSucceeds: bool,
                   contains: Evaluator)
    returns (created: Option<HpaSpec>, updated: Option<HpaSpec>, outcome: Result<(), ReconcileError>)
    ensures lookup.LookupFailed? ==> created == None && updated == None && outcome == Err(FetchFailed)
    ensures lookup.NotFound? ==> created == Some(spa.horizontalPodAutoscalerSpec)
    ensures lookup.Found? ==> created == None
    ensures lookup.NotFound? && !createSucceeds ==> updated == None && outcome == Err(CreateFailed)
    ensures lookup.Found? || (lookup.NotFound? && createSucceeds) ==>
      var current := if lookup.Found? then lookup.spec else spa.horizontalPodAutoscalerSpec;
      match Decide(spa, current, contains)
      case Err(e) => updated == None && outcome == Err(EvaluationFailed(e))
      case Ok(h) => updated == Some(h) && outcome == if updateSucceeds then Ok(()) else Err(UpdateFailed)
  {
    created, updated := None, None;
    var hpa: HpaSpec;
    match lookup {
      case LookupFailed =>
        return created, updated, Err(FetchFailed);
      case NotFound =>
        hpa := spa.horizontalPodAutoscalerSpec;
        created := Some(hpa);
        if !createSucceeds {
          return created, updated, Err(CreateFailed);
        }
      case Found(spec) =>
        hpa := spec;
    }
    ghost var current := hpa;

    var schedules := spa.schedules;
    if |schedules| >= 2 {
      schedules := SortByName(schedules);
    }

    var i := 0;
    while i < |schedules|
      invariant 0 <= i <= |schedules| && schedules == Ordered(spa.schedules) && hpa == current
      invariant FirstMatch(schedules, contains) == FirstMatch(schedules[i..], contains)
    {
      FirstMatchStep(schedules, i, contains);
      var isContains := contains(schedules[i]);
      if isContains.Err? {
        assert Decide(spa, current, contains) == Err(isContains.error);
        return created, updated, Err(EvaluationFailed(isContains.error));
      }
      if isContains.value {
        hpa := hpa.(maxReplicas := schedules[i].maxReplicas);
        hpa := hpa.(minReplicas := schedules[i].minReplicas);
        hpa := hpa.(metrics := schedules[i].metrics);
        assert Decide(spa, current, contains) == Ok(hpa);
        updated := Some(hpa);
        outcome := if updateSucceeds then Ok(()) else Err(UpdateFailed);
        return;
      }
      i := i + 1;
    }

    assert Decide(spa, current, contains) == Ok(spa.horizontalPodAutoscalerSpec);
    hpa := spa.horizontalPodAutoscalerSpec;
    updated := Some(hpa);
    outcome := if updateSucceeds then Ok(()) else Err(UpdateFailed);
  }

  /** In a sorted list, a schedule with a smaller name comes earlier. */
  lemma SmallerNameEarlier(s: seq<ScheduleSpec>, a: nat, b: nat)
    requires SortedByName(s) && a < |s| && b < |s|
    requires NameLess(s[a].name, s[b].name)
    ensures a < b
  {
    if a == b {
      NameLessIrreflexive(s[a].name);
    }
  }

  /** The winning schedule beats every schedule with a smaller name: none of those contains `now`. */
  lemma WinnerHasSmallestMatchingName(spa: AutoscalerSpec, contains: Evaluator, x: ScheduleSpec)
    requires FirstMatch(Ordered(spa.schedules), contains).Ok?
    requires FirstMatch(Ordered(spa.schedules), contains).value.Some?
    requires x in spa.schedules
    requires NameLess(x.name, FirstMatch(Ordered(spa.schedules), contains).value.value.name)
    ensures contains(x) == Ok(false)
  {
    var o := Ordered(spa.schedules);
    var m := FirstMatch(o, contains).value.value;
    OrderedIsStableSort(spa.schedules);
    assert x in multiset(o);
    var a :| 0 <= a < |o| && o[a] == x;
    var b := MatchIndex(o, contains);
    SmallerNameEarlier(o, a, b);
  }

  /** The index of the match in the list, with every schedule before it answering no. */
  lemma {:induction false} MatchIndex(s: seq<ScheduleSpec>, eval: Evaluator) returns (b: nat)
    requires FirstMatch(s, eval).Ok? && FirstMatch(s, eval).value.Some?
    ensures b < |s| && s[b] == FirstMatch(s, eval).value.value
    ensures forall j :: 0 <= j < b ==> eval(s[j]) == Ok(false)
  {
    if eval(s[0]) == Ok(true) {
      b := 0;
    } else {
      var c := MatchIndex(s[1..], eval);
      b := c + 1;
    }
  }

  /** When no schedule contains `now`, the baseline spec is written back, whatever the HPA held. */
  lemma BaselineWhenNothingMatches(spa: AutoscalerSpec, current: HpaSpec, contains: Evaluator)
    requires forall x :: x in spa.schedules ==> contains(x) == Ok(false)
    ensures Decide(spa, current, contains) == Ok(spa.horizontalPodAutoscalerSpec)
  {
    var o := Ordered(spa.schedules);
    OrderedIsStableSort(spa.schedules);
    forall j | 0 <= j < |o|
      ensures contains(o[j]) == Ok(false)
    {
      assert o[j] in multiset(o);
    }
    FirstMatchNone(o, contains);
  }

  /**
   * When `m` is the only schedule whose window contains `now` and every
   * other schedule answers no, `m`'s bounds and metrics are written.
   */
  lemma SoleMatchWins(spa: AutoscalerSpec, current: HpaSpec, contains: Evaluator, m: ScheduleSpec)
    requires m in spa.schedules && contains(m) == Ok(true)
    requires forall x :: x in spa.schedules && x != m ==> contains(x) == Ok(false)
    ensures Decide(spa, current, contains) == Ok(Override(current, m))
  {
    var o := Ordered(spa.schedules);
    OrderedIsStableSort(spa.schedules);
    assert m in multiset(o);
    forall j | 0 <= j < |o| && o[j] != m
      ensures contains(o[j]) == Ok(false)
    {
      assert o[j] in multiset(o);
    }
    FirstMatchSoleYes(o, m, contains);
  }

  /** The first position of `m` in a list that holds it. */
  lemma {:induction false} FirstPosition(s: seq<ScheduleSpec>, m: ScheduleSpec) returns (b: nat)
    requires m in s
    ensures b < |s| && s[b] == m
    ensures forall j :: 0 <= j < b ==> s[j] != m
  {
    if s[0] == m {
      b := 0;
    } else {
      assert m in s[1..];
      var c := FirstPosition(s[1..], m);
      b := c + 1;
    }
  }

  /**
   * A matching schedule whose name is unique and smaller than that of every
   * other matching schedule wins, even when schedules with greater names
   * would fail to evaluate: those are never reached.
   */
  lemma SmallestMatchWinsOverLaterErrors(spa: AutoscalerSpec, current: HpaSpec, contains: Evaluator, m: ScheduleSpec)
    requires m in spa.schedules && contains(m) == Ok(true)
    requires forall y :: y in spa.schedules && y != m ==> y.name != m.name
    requires forall y :: y in spa.schedules && NameLess(y.name, m.name) ==> contains(y) == Ok(false)
    ensures Decide(spa, current, contains) == Ok(Override(current, m))
  {
    var o := Ordered(spa.schedules);
    OrderedIsStableSort(spa.schedules);
    assert m in multiset(o);
    var b := FirstPosition(o, m);
    forall j | 0 <= j < b
      ensures contains(o[j]) == Ok(false)
    {
      assert o[j] in multiset(o);
      assert !NameLess(o[b].name, o[j].name);
      NameLessTotal(o[j].name, m.name);
    }
    FirstMatchAt(o, b, contains);
  }

  /** A schedule that fails to evaluate, with every other schedule answering no, aborts the run with its error. */
  lemma SoleErrorAborts(spa: AutoscalerSpec, current: HpaSpec, contains: Evaluator, x: ScheduleSpec)
    requires x in spa.schedules && contains(x).Err?
    requires forall y :: y in spa.schedules && y != x ==> contains(y) == Ok(false)
    ensures Decide(spa, current, contains) == Err(contains(x).error)
  {
    var o := Ordered(spa.schedules);
    OrderedIsStableSort(spa.schedules);
    assert x in multiset(o);
    var b := FirstPosition(o, x);
    forall j | 0 <= j < b
      ensures contains(o[j]) == Ok(false)
    {
      assert o[j] in multiset(o);
    }
    FirstMatchErrorAt(o, b, contains);
  }

  /**
   * With the controller's evaluator: a suspended schedule whose window
   * contains `now` still overrides the HPA when no other schedule matches.
   */
  lemma SuspendedScheduleStillWins(spa: AutoscalerSpec, current: HpaSpec, now: Instant, zones: Zones, m: ScheduleSpec)
    requires m.suspend && m in spa.schedules && Contains(m, now, zones) == Ok(true)
    requires forall x :: x in spa.schedules && x != m ==> Contains(x, now, zones) == Ok(false)
    ensures Decide(spa, current, Evaluate(now, zones)) == Ok(Override(current, m))
  {
    SoleMatchWins(spa, current, Evaluate(now, zones), m);
  }
}
