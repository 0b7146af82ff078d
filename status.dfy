/**
 * The condition list of a status: `findCondition` looks a condition up by
 * type and `setCondition` inserts or updates one. The Go slice the caller
 * passes by reference is a `ConditionList` object whose `items` the methods reassign;
 * the wall clock is the parameter `now`.
 */
module Status {
  import opened Wrappers

  /** One entry of a status' condition list. */
  datatype Condition = Condition(
    conditionType: string,
    status: string,
    reason: string,
    message: string,
    lastTransitionTime: int)

  /** The slice a `*[]Condition` points to. */
  class ConditionList {
    var items: seq<Condition>

    constructor (items: seq<Condition>)
      ensures this.items == items
    {
      this.items := items;
    }
  }

  /** Some entry has the type `t`. */
  predicate HasType(cs: seq<Condition>, t: string) {
    exists i :: 0 <= i < |cs| && cs[i].conditionType == t
  }

  /** At most one entry per condition type. */
  predicate UniqueTypes(cs: seq<Condition>) {
    forall i, j :: 0 <= i < j < |cs| ==> cs[i].conditionType != cs[j].conditionType
  }

  /** The index of the first entry of type `t`, if any. */
  function FirstIndex(cs: seq<Condition>, t: string): (r: Option<nat>)
    ensures r.None? <==> !HasType(cs, t)
    ensures r.Some? ==> r.value < |cs| && cs[r.value].conditionType == t
    ensures r.Some? ==> forall j :: 0 <= j < r.value ==> cs[j].conditionType != t
  {
    if |cs| == 0 then None
    else if cs[0].conditionType == t then Some(0)
    else
      match FirstIndex(cs[1..], t)
      case None => None
      case Some(i) => Some(i + 1)
  }

  /** `findCondition`: a copy of the first entry of the given type, or none. */
  method FindCondition(conditions: seq<Condition>, conditionType: string) returns (current: Option<Condition>)
    ensures current.None? <==> !HasType(conditions, conditionType)
    ensures current.Some? ==> current.value.conditionType == conditionType
    ensures current.Some? ==> current == Some(conditions[FirstIndex(conditions, conditionType).value])
  {
    var i := 0;
    while i < |conditions|
      invariant 0 <= i <= |conditions|
      invariant forall j :: 0 <= j < i ==> conditions[j].conditionType != conditionType
    {
      if conditions[i].conditionType == conditionType {
        return Some(conditions[i]);
      }
      i := i + 1;
    }
    return None;
  }

  /** What an update is meant to do to the existing entry `c`. */
  function Updated(c: Condition, newCondition: Condition, now: int): (r: Condition)
    ensures r.conditionType == c.conditionType
    ensures r.status == newCondition.status
    ensures r.reason == newCondition.reason && r.message == newCondition.message
    ensures r.lastTransitionTime == if c.status == newCondition.status then c.lastTransitionTime else now
  {
    if c.status != newCondition.status then
      c.(status := newCondition.status, lastTransitionTime := now,
         reason := newCondition.reason, message := newCondition.message)
    else
      c.(reason := newCondition.reason, message := newCondition.message)
  }

  /** The intended effect of `setCondition` on the list: update the entry of that type in place, or append one. */
  function Upsert(cs: seq<Condition>, newCondition: Condition, now: int): (r: seq<Condition>)
    ensures HasType(r, newCondition.conditionType)
    ensures |r| == if HasType(cs, newCondition.conditionType) then |cs| else |cs| + 1
  {
    match FirstIndex(cs, newCondition.conditionType)
    case None =>
      var r := cs + [newCondition.(lastTransitionTime := now)];
      assert r[|cs|].conditionType == newCondition.conditionType;
      r
    case Some(i) =>
      var r := cs[i := Updated(cs[i], newCondition, now)];
      assert r[i].conditionType == newCondition.conditionType;
      r
  }

  /**
   * `setCondition` as written. The lookup hands back the address of a loop
   * copy, so the update branch writes to `current` alone and the caller's
   * list is left as it was; a nil list is replaced by a local one nobody sees.
   */
  method SetCondition(conditions: ConditionList?, newCondition: Condition, now: int)
    modifies conditions
    ensures conditions != null && !HasType(old(conditions.items), newCondition.conditionType) ==>
      conditions.items == old(conditions.items) + [newCondition.(lastTransitionTime := now)]
    ensures conditions != null && HasType(old(conditions.items), newCondition.conditionType) ==>
      conditions.items == old(conditions.items)
    ensures conditions != null && UniqueTypes(old(conditions.items)) ==> UniqueTypes(conditions.items)
  {
    var list := conditions;
    if list == null {
      list := new ConditionList([]);
    }
    var current := FindCondition(list.items, newCondition.conditionType);
    if current.None? {
      if UniqueTypes(list.items) {
        AppendKeepsTypesUnique(list.items, newCondition.(lastTransitionTime := now));
      }
      list.items := list.items + [newCondition.(lastTransitionTime := now)];
      return;
    }
    // The write lands in the copy `current`, not in `list.items`.
    var c := current.value;
    if c.status != newCondition.status {
      c := c.(status := newCondition.status, lastTransitionTime := now);
    }
    c := c.(reason := newCondition.reason, message := newCondition.message);
  }

  /** The corrected `setCondition`: the update goes through the entry's index into the list itself. */
  method SetConditionInPlace(conditions: ConditionList?, newCondition: Condition, now: int)
    modifies conditions
    ensures conditions != null ==> conditions.items == Upsert(old(conditions.items), newCondition, now)
  {
    var list := conditions;
    if list == null {
      list := new ConditionList([]);
    }
    var i := 0;
    while i < |list.items|
      invariant 0 <= i <= |list.items|
      invariant conditions != null ==> list == conditions && list.items == old(conditions.items)
      invariant forall j :: 0 <= j < i ==> list.items[j].conditionType != newCondition.conditionType
    {
      if list.items[i].conditionType == newCondition.conditionType {
        list.items := list.items[i := Updated(list.items[i], newCondition, now)];
        return;
      }
      i := i + 1;
    }
    list.items := list.items + [newCondition.(lastTransitionTime := now)];
  }

  /** Appending an entry of a type not yet present keeps the types unique. */
  lemma AppendKeepsTypesUnique(cs: seq<Condition>, c: Condition)
    requires UniqueTypes(cs) && !HasType(cs, c.conditionType)
    ensures UniqueTypes(cs + [c])
  {
    forall i, j | 0 <= i < j < |cs + [c]|
      ensures (cs + [c])[i].conditionType != (cs + [c])[j].conditionType
    {
      if j == |cs| {
        assert cs[i].conditionType != c.conditionType;
      }
    }
  }

  /** The upsert never adds a second entry for a type. */
  lemma UpsertKeepsTypesUnique(cs: seq<Condition>, newCondition: Condition, now: int)
    requires UniqueTypes(cs)
    ensures UniqueTypes(Upsert(cs, newCondition, now))
  {
    if FirstIndex(cs, newCondition.conditionType).None? {
      AppendKeepsTypesUnique(cs, newCondition.(lastTransitionTime := now));
    }
  }

  /**
   * After the upsert the first entry of the type carries the new status,
   * reason and message, and its transition time moves to `now` exactly when
   * the status changed (or the entry is new).
   */
  lemma UpsertSetsCondition(cs: seq<Condition>, newCondition: Condition, now: int)
    ensures var r := Upsert(cs, newCondition, now);
      var k := FirstIndex(r, newCondition.conditionType);
      && k.Some?
      && r[k.value].status == newCondition.status
      && r[k.value].reason == newCondition.reason
      && r[k.value].message == newCondition.message
      && r[k.value].lastTransitionTime ==
         (match FirstIndex(cs, newCondition.conditionType)
         case None => now
         case Some(i) => if cs[i].status == newCondition.status then cs[i].lastTransitionTime else now)
  {
    var t := newCondition.conditionType;
    var r := Upsert(cs, newCondition, now);
    match FirstIndex(cs, t)
    case None =>
      assert r[|cs|].conditionType == t;
      FirstIndexIs(r, t, |cs|);
    case Some(i) =>
      assert r[i].conditionType == t;
      FirstIndexIs(r, t, i);
  }

  /** The first entry of type `t` is at `i` when `i` has that type and nothing before it does. */
  lemma FirstIndexIs(cs: seq<Condition>, t: string, i: nat)
    requires i < |cs| && cs[i].conditionType == t
    requires forall j :: 0 <= j < i ==> cs[j].conditionType != t
    ensures FirstIndex(cs, t) == Some(i)
  {
    assert HasType(cs, t);
  }

  /** Entries of other types keep their place and content; the list grows by one exactly when the type was absent. */
  lemma UpsertKeepsOthers(cs: seq<Condition>, newCondition: Condition, now: int)
    ensures var r := Upsert(cs, newCondition, now);
      && |r| == (if HasType(cs, newCondition.conditionType) then |cs| else |cs| + 1)
      && forall j :: 0 <= j < |cs| && cs[j].conditionType != newCondition.conditionType ==> r[j] == cs[j]
  {
  }

  /** Setting the same condition twice is the same as setting it once, whatever the clock says the second time. */
  lemma UpsertIdempotent(cs: seq<Condition>, newCondition: Condition, now: int, later: int)
    ensures Upsert(Upsert(cs, newCondition, now), newCondition, later) == Upsert(cs, newCondition, now)
  {
    var t := newCondition.conditionType;
    var r := Upsert(cs, newCondition, now);
    match FirstIndex(cs, t)
    case None =>
      assert r[|cs|].conditionType == t;
      FirstIndexIs(r, t, |cs|);
      assert r[|cs| := Updated(r[|cs|], newCondition, later)] == r;
    case Some(i) =>
      assert r[i].conditionType == t;
      FirstIndexIs(r, t, i);
      assert r[i := Updated(r[i], newCondition, later)] == r;
  }

  /**
   * The lost write: a list holding `Available=False` and a new
   * `Available=True` condition. `setCondition` as written leaves the list as
   * it was; the upsert flips the status and stamps the time.
   */
  lemma LostWriteWitness()
    ensures var old_ := Condition("Available", "False", "", "", 0);
      var new_ := Condition("Available", "True", "Ready", "", 0);
      && HasType([old_], new_.conditionType)
      && Upsert([old_], new_, 5) == [Condition("Available", "True", "Ready", "", 5)]
      && Upsert([old_], new_, 5) != [old_]
  {
    var old_ := Condition("Available", "False", "", "", 0);
    assert [old_][0].conditionType == "Available";
  }
}
