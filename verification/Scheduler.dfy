/**
 Turning a plan into a schedule, and writing the schedule to the placement and
 override resources so that a second reconciliation finds nothing to do.
 */
module Scheduler {
  import opened Collections
  import opened PlannerModel
  import opened PlannerPass
  import opened PlannerPhases
  import opened PlannerOverflow
  import opened PlannerPromise
  import opened PlannerOrder
  import opened PlannerKeeps
  import opened Planner
  import opened Sorting
  import opened Strings

  // ---------- The schedule ----------

  function Combined(current: map<string, int>, plan: map<string, int>, overflow: map<string, int>): map<string, int> {
    map k | k in current.Keys + plan.Keys :: At(plan, k) + At(overflow, k)
  }

  /** The plan with its overflow added, and zero for clusters that only replicas were counted in. */
  ghost predicate Combines(current: map<string, int>, plan: map<string, int>, overflow: map<string, int>, result: map<string, int>) {
    && (forall k :: k in result <==> k in current || k in plan)
    && (forall k :: k in plan && k in result ==> result[k] == if k in overflow then plan[k] + overflow[k] else plan[k])
    && (forall k :: k in result && k !in plan ==> result[k] == 0)
  }

  method CombineInto(current: map<string, int>, plan: map<string, int>, overflow: map<string, int>)
    returns (result: map<string, int>)
    requires overflow.Keys <= plan.Keys
    ensures result == Combined(current, plan, overflow)
    ensures Combines(current, plan, overflow, result)
  {
    result := map k | k in current.Keys :: 0;
    var keys := plan.Keys;
    while keys != {}
      invariant keys <= plan.Keys
      invariant result.Keys == current.Keys + (plan.Keys - keys)
      invariant forall k :: k in result ==> result[k] == if k in keys then 0 else At(plan, k)
      decreases keys
    {
      var k :| k in keys;
      keys := keys - {k};
      result := result[k := plan[k]];
    }
    keys := overflow.Keys;
    while keys != {}
      invariant keys <= overflow.Keys
      invariant result.Keys == current.Keys + plan.Keys
      invariant forall k :: k in result ==> result[k] == At(plan, k) + if k in keys then 0 else At(overflow, k)
      decreases keys
    {
      var k :| k in keys;
      keys := keys - {k};
      result := result[k := result[k] + overflow[k]];
    }
  }

  ghost predicate IsSchedule(spec: PreferenceSpec, clusterNames: seq<string>, current: map<string, int>, capacity: map<string, int>,
                             order: seq<Preference>, result: map<string, int>)
  {
    var r, zeros := Request(spec.total, spec.rebalance, current, capacity), Unpreferred(spec, clusterNames);
    && ValidInput(r, order) && Fresh(zeros, order)
    && result == Combined(current, Planned(r, order, zeros).plan, ReportedOverflow(r, Planned(r, order, zeros)))
  }

  /** The result is that of a plan which keeps every promise to its caller. */
  ghost predicate Scheduled(spec: PreferenceSpec, clusterNames: seq<string>, current: map<string, int>, capacity: map<string, int>,
                            key: string, hash: (string, string) -> nat, result: map<string, int>)
  {
    exists plan: map<string, int>, overflow: map<string, int> ::
      && Fulfils(spec, clusterNames, current, capacity, key, hash, plan, overflow)
      && Combines(current, plan, overflow, result)
  }

  lemma OverflowWithinPlan(r: Request, order: seq<Preference>, zeros: map<string, int>)
    requires ValidInput(r, order) && Fresh(zeros, order)
    ensures ReportedOverflow(r, Planned(r, order, zeros)).Keys <= Planned(r, order, zeros).plan.Keys
  {
    PlannedOverflowSound(r, order, zeros);
    PlanConserves(r, order, zeros);
  }

  method Schedule(spec: PreferenceSpec, clusterNames: seq<string>, current: map<string, int>, capacity: map<string, int>,
                  key: string, hash: (string, string) -> nat)
    returns (result: map<string, int>, ghost order: seq<Preference>)
    requires ValidPreferenceSpec(spec) && NoRepeats(clusterNames)
    ensures Ready(spec, clusterNames, key, hash, order)
    ensures IsSchedule(spec, clusterNames, current, capacity, order, result)
    ensures Scheduled(spec, clusterNames, current, capacity, key, hash, result)
    ensures forall k :: k in result <==> k in clusterNames || k in current
    ensures forall k :: k in result && k !in clusterNames ==> result[k] == 0
  {
    var plan, overflow;
    plan, overflow, order := Plan(spec, clusterNames, current, capacity, key, hash);
    ghost var r, zeros := Request(spec.total, spec.rebalance, current, capacity), Unpreferred(spec, clusterNames);
    OrderReady(spec, clusterNames, current, capacity, key, hash, order);
    OverflowWithinPlan(r, order, zeros);
    result := CombineInto(current, plan, overflow);
  }

  /** A schedule covers exactly the clusters asked for: those replicas were counted in are among them. */
  lemma ScheduleCoversClusters(spec: PreferenceSpec, clusterNames: seq<string>, current: map<string, int>, capacity: map<string, int>,
                               key: string, hash: (string, string) -> nat, order: seq<Preference>, result: map<string, int>)
    requires ValidPreferenceSpec(spec) && NoRepeats(clusterNames)
    requires IsSortedOrder(spec, clusterNames, key, hash, order)
    requires IsSchedule(spec, clusterNames, current, capacity, order, result)
    requires forall k :: k in current ==> k in clusterNames
    ensures forall k :: k in result <==> k in clusterNames
  {
    OrderReady(spec, clusterNames, current, capacity, key, hash, order);
    PlanConserves(Request(spec.total, spec.rebalance, current, capacity), order, Unpreferred(spec, clusterNames));
  }

  /**
   Every scheduled count, overflow included, stays within the cluster's maximum, and without rebalancing
   it exceeds the capacity by no more than the replicas that could not be placed.  It is negative only
   where the capacity is, and while no capacity is negative it never exceeds the requested total.
   */
  lemma ScheduleWithinBounds(spec: PreferenceSpec, clusterNames: seq<string>, current: map<string, int>, capacity: map<string, int>,
                             order: seq<Preference>, result: map<string, int>, k: string)
    requires IsSchedule(spec, clusterNames, current, capacity, order, result)
    requires k in result
    ensures forall p :: p in order && p.name == k && p.spec.maxReplicas.Some? ==> result[k] <= p.spec.maxReplicas.value
    ensures k in capacity && !spec.rebalance && Listed(k, order) ==>
              result[k] <= capacity[k] + Planned(Request(spec.total, spec.rebalance, current, capacity), order, Unpreferred(spec, clusterNames)).remaining
    ensures result[k] < 0 ==> Listed(k, order) && k in capacity && capacity[k] < 0
    ensures CapacitiesNonNegative(Request(spec.total, spec.rebalance, current, capacity)) ==> 0 <= result[k] <= spec.total
  {
    var r, zeros := Request(spec.total, spec.rebalance, current, capacity), Unpreferred(spec, clusterNames);
    var s := Planned(r, order, zeros);
    PlanConserves(r, order, zeros);
    PlannedOverflowSound(r, order, zeros);
    if CapacitiesNonNegative(r) { TotalOfNonNegative(s.plan, order); }
    if Listed(k, order) {
      var i :| 0 <= i < |order| && order[i].name == k;
      assert order[i] in order;
      assert Floored(r, order[i], At(s.plan, k));
    } else {
      assert At(s.plan, k) == 0;
    }
  }

  /** One cluster with a weight and no limit is enough for everything to be placed. */
  lemma UnlimitedClusterTakesTheRest(r: Request, order: seq<Preference>, zeros: map<string, int>, p: Preference)
    requires ValidInput(r, order) && Fresh(zeros, order)
    requires p in order && p.spec.weight > 0 && p.spec.maxReplicas.None? && p.name !in r.capacity
    ensures Planned(r, order, zeros).remaining == 0
    ensures Total(Planned(r, order, zeros).plan, order) == r.total
  {
    PlanConserves(r, order, zeros);
    if Planned(r, order, zeros).remaining > 0 {
      UnplacedOnlyWhenSaturated(r, order, zeros, p);
    }
  }

  /** Without any preference, every cluster counts with weight 1. */
  function WithDefault(spec: PreferenceSpec): PreferenceSpec {
    if spec.clusters == map[] then spec.(clusters := map["*" := ClusterPreferences(0, None, 1)]) else spec
  }

  lemma {:induction false} PlacedCombined(current: map<string, int>, plan: map<string, int>, overflow: map<string, int>, names: seq<string>)
    requires forall name :: name in names ==> name in plan
    ensures Placed(Combined(current, plan, overflow), names) == Placed(plan, names) + Placed(overflow, names)
  {
    if names != [] {
      assert names[|names|-1] in names;
      PlacedCombined(current, plan, overflow, names[..|names|-1]);
    }
  }

  lemma {:induction false} PlacedNonNegative(m: map<string, int>, names: seq<string>)
    requires forall k :: k in m ==> m[k] > 0
    ensures Placed(m, names) >= 0
    ensures m == map[] ==> Placed(m, names) == 0
  {
    if names != [] { PlacedNonNegative(m, names[..|names|-1]); }
  }

  /** Under the default preference one cluster of unknown capacity is enough to place everything. */
  lemma DefaultPlacesEverything(spec: PreferenceSpec, clusterNames: seq<string>, current: map<string, int>, capacity: map<string, int>,
                                plan: map<string, int>, overflow: map<string, int>, name: string)
    requires spec.clusters == map[]
    requires PlacesWhatFits(WithDefault(spec), clusterNames, capacity, plan, overflow)
    requires OverflowMeans(WithDefault(spec), clusterNames, capacity, plan, overflow)
    requires WithinLimits(WithDefault(spec), clusterNames, capacity, plan)
    requires name in clusterNames && name !in capacity
    ensures Placed(plan, clusterNames) == spec.total
    ensures Placed(Combined(current, plan, overflow), clusterNames) >= spec.total
    ensures !spec.rebalance || capacity == map[] ==> Placed(Combined(current, plan, overflow), clusterNames) == spec.total
  {
    assert name in plan && Governing(WithDefault(spec), name) == ClusterPreferences(0, None, 1);
    PlacedCombined(current, plan, overflow, clusterNames);
    PlacedNonNegative(overflow, clusterNames);
    if !spec.rebalance || capacity == map[] {
      assert forall k :: k !in overflow;
    }
  }

  /** The overflow never lifts a count above its cluster's maximum, or above the total. */
  lemma ScheduledWithinMaximums(spec: PreferenceSpec, clusterNames: seq<string>, current: map<string, int>, capacity: map<string, int>,
                                key: string, hash: (string, string) -> nat, result: map<string, int>, name: string)
    requires Scheduled(spec, clusterNames, current, capacity, key, hash, result) && name in clusterNames
    ensures name in result
    ensures Preferred(spec, name) && Governing(spec, name).maxReplicas.Some? ==> result[name] <= Governing(spec, name).maxReplicas.value
  {
    var plan, overflow :|
      && Fulfils(spec, clusterNames, current, capacity, key, hash, plan, overflow)
      && Combines(current, plan, overflow, result);
    assert name in plan;
  }

  lemma {:induction false} OnesAndNothings(names: seq<string>, weights: map<string, int>, minimums: map<string, int>)
    requires forall name :: name in names ==> name in weights && weights[name] == 1 && name in minimums && minimums[name] == 0
    ensures Placed(weights, names) == |names| && Placed(minimums, names) == 0
  {
    if names != [] {
      assert names[|names|-1] in names;
      OnesAndNothings(names[..|names|-1], weights, minimums);
    }
  }

  /** Under the default preference, and without capacities, replicas are spread evenly up to rounding. */
  lemma DefaultSpreadsEvenly(total: int, rebalance: bool, clusterNames: seq<string>, current: map<string, int>,
                             key: string, hash: (string, string) -> nat, result: map<string, int>, name: string)
    requires var spec := PreferenceSpec(total, rebalance, map["*" := ClusterPreferences(0, None, 1)]);
      Scheduled(spec, clusterNames, current, map[], key, hash, result)
    requires (rebalance || current == map[]) && 0 <= total && name in clusterNames
    ensures name in result
    ensures ByWeight(result[name], total, 1, |clusterNames|, |clusterNames| - 1)
  {
    var spec := PreferenceSpec(total, rebalance, map["*" := ClusterPreferences(0, None, 1)]);
    var plan, overflow :|
      && Fulfils(spec, clusterNames, current, map[], key, hash, plan, overflow)
      && Combines(current, plan, overflow, result);
    assert NoLimits(spec, current, map[]);
    EvenPlan(spec, clusterNames, plan, name);
    assert name !in overflow;
  }

  lemma EvenPlan(spec: PreferenceSpec, clusterNames: seq<string>, plan: map<string, int>, name: string)
    requires spec.clusters == map["*" := ClusterPreferences(0, None, 1)] && 0 <= spec.total
    requires WithinLimits(spec, clusterNames, map[], plan) && SharesByWeight(spec, clusterNames, plan)
    requires name in clusterNames
    ensures name in plan && ByWeight(plan[name], spec.total, 1, |clusterNames|, |clusterNames| - 1)
  {
    forall n | n in clusterNames ensures Preferred(spec, n) && Governing(spec, n) == ClusterPreferences(0, None, 1) { }
    OnesAndNothings(clusterNames, Weights(spec, clusterNames), Minimums(spec, clusterNames, map[]));
  }

  /** The scheduling result, once running replicas and capacities have been counted. */
  method SchedulingResult(spec: PreferenceSpec, clusterNames: seq<string>, current: map<string, int>, capacity: map<string, int>,
                          key: string, hash: (string, string) -> nat)
    returns (result: map<string, int>)
    requires ValidPreferenceSpec(spec) && NoRepeats(clusterNames)
    requires forall k :: k in current ==> k in clusterNames
    ensures spec.clusters != map[] ==> Scheduled(spec, clusterNames, current, capacity, key, hash, result)
    ensures spec.clusters == map[] ==>
      Scheduled(PreferenceSpec(spec.total, spec.rebalance, map["*" := ClusterPreferences(0, None, 1)]),
                clusterNames, current, capacity, key, hash, result)
    ensures forall k :: k in result <==> k in clusterNames
    ensures NoneNegative(capacity) ==> forall k :: k in result ==> 0 <= result[k] <= spec.total
    ensures forall k :: k in result && Preferred(spec, k) && Governing(spec, k).maxReplicas.Some? ==>
              result[k] <= Governing(spec, k).maxReplicas.value
    ensures spec.clusters == map[] && capacity == map[] && (spec.rebalance || current == map[]) ==>
      forall k :: k in result ==> ByWeight(result[k], spec.total, 1, |clusterNames|, |clusterNames| - 1)
    ensures spec.clusters == map[] && (exists name :: name in clusterNames && name !in capacity) ==>
              Placed(result, clusterNames) >= spec.total
    ensures spec.clusters == map[] && (exists name :: name in clusterNames && name !in capacity) && !spec.rebalance ==>
              Placed(result, clusterNames) == spec.total
  {
    ghost var order;
    result, order := Schedule(WithDefault(spec), clusterNames, current, capacity, key, hash);
    if NoneNegative(capacity) {
      forall k | k in result ensures 0 <= result[k] <= spec.total {
        ScheduleWithinBounds(WithDefault(spec), clusterNames, current, capacity, order, result, k);
      }
    }
    forall k | k in result && Preferred(spec, k) && Governing(spec, k).maxReplicas.Some?
      ensures result[k] <= Governing(spec, k).maxReplicas.value
    {
      ScheduledWithinMaximums(WithDefault(spec), clusterNames, current, capacity, key, hash, result, k);
    }
    if spec.clusters == map[] {
      DefaultResult(spec, clusterNames, current, capacity, key, hash, result);
    }
  }

  lemma DefaultResult(spec: PreferenceSpec, clusterNames: seq<string>, current: map<string, int>, capacity: map<string, int>,
                      key: string, hash: (string, string) -> nat, result: map<string, int>)
    requires spec.clusters == map[] && 0 <= spec.total
    requires Scheduled(WithDefault(spec), clusterNames, current, capacity, key, hash, result)
    requires forall k :: k in result <==> k in clusterNames
    ensures capacity == map[] && (spec.rebalance || current == map[]) ==>
      forall k :: k in result ==> ByWeight(result[k], spec.total, 1, |clusterNames|, |clusterNames| - 1)
    ensures forall name :: name in clusterNames && name !in capacity ==>
      Placed(result, clusterNames) >= spec.total && (!spec.rebalance ==> Placed(result, clusterNames) == spec.total)
  {
    if capacity == map[] && (spec.rebalance || current == map[]) {
      forall k | k in result ensures ByWeight(result[k], spec.total, 1, |clusterNames|, |clusterNames| - 1) {
        DefaultSpreadsEvenly(spec.total, spec.rebalance, clusterNames, current, key, hash, result, k);
      }
    }
    var plan, overflow :|
      && Fulfils(WithDefault(spec), clusterNames, current, capacity, key, hash, plan, overflow)
      && Combines(current, plan, overflow, result);
    forall name | name in clusterNames && name !in capacity
      ensures Placed(result, clusterNames) >= spec.total && (!spec.rebalance ==> Placed(result, clusterNames) == spec.total)
    {
      DefaultPlacesEverything(spec, clusterNames, current, capacity, plan, overflow, name);
      CombinesSum(current, plan, overflow, result, clusterNames);
    }
  }

  lemma {:induction false} CombinesSum(current: map<string, int>, plan: map<string, int>, overflow: map<string, int>,
                                       result: map<string, int>, names: seq<string>)
    requires Combines(current, plan, overflow, result) && forall name :: name in names ==> name in plan
    ensures Placed(result, names) == Placed(Combined(current, plan, overflow), names)
  {
    if names != [] {
      assert names[|names|-1] in names;
      CombinesSum(current, plan, overflow, result, names[..|names|-1]);
    }
  }

  // ---------- Overrides ----------

  datatype ClusterOverride = ClusterOverride(clusterName: string, replicas: Option<int>)

  /** Go's conversion of an int64 to an int32. */
  function ToInt32(x: int): int {
    (x + 0x8000_0000) % 0x1_0000_0000 - 0x8000_0000
  }

  predicate UniqueNames(overrides: seq<ClusterOverride>) {
    forall i, j :: 0 <= i < j < |overrides| ==> overrides[i].clusterName != overrides[j].clusterName
  }

  predicate EntryMatches(o: ClusterOverride, result: map<string, int>) {
    o.clusterName in result && o.replicas == Some(ToInt32(result[o.clusterName]))
  }

  ghost predicate AllMatch(overrides: seq<ClusterOverride>, result: map<string, int>) {
    forall o :: o in overrides ==> EntryMatches(o, result)
  }

  /** The overrides say exactly what the result does: one entry per cluster, with its count. */
  ghost predicate Represents(overrides: seq<ClusterOverride>, result: map<string, int>) {
    && UniqueNames(overrides)
    && AllMatch(overrides, result)
    && (forall name :: name in result ==> exists i :: 0 <= i < |overrides| && overrides[i].clusterName == name)
  }

  method OverridesFor(result: map<string, int>) returns (overrides: seq<ClusterOverride>)
    ensures Represents(overrides, result)
  {
    overrides := [];
    var names := result.Keys;
    while names != {}
      invariant names <= result.Keys
      invariant UniqueNames(overrides)
      invariant forall o :: o in overrides ==> EntryMatches(o, result) && o.clusterName !in names
      invariant forall name :: name in result && name !in names ==>
                  exists i :: 0 <= i < |overrides| && overrides[i].clusterName == name
      decreases names
    {
      var name :| name in names;
      var before := overrides;
      overrides := overrides + [ClusterOverride(name, Some(ToInt32(result[name])))];
      names := names - {name};
      forall other | other in result && other !in names
        ensures exists i :: 0 <= i < |overrides| && overrides[i].clusterName == other
      {
        if other == name {
          assert overrides[|before|].clusterName == other;
        } else {
          var i :| 0 <= i < |before| && before[i].clusterName == other;
          assert overrides[i].clusterName == other;
        }
      }
    }
  }

  method OverrideUpdateNeeded(overrides: seq<ClusterOverride>, result: map<string, int>) returns (needed: bool)
    ensures !needed <==> AllMatch(overrides, result) && |overrides| == |result|
  {
    var checkLen := 0;
    for i := 0 to |overrides|
      invariant checkLen == i
      invariant forall k :: 0 <= k < i ==> EntryMatches(overrides[k], result)
    {
      var override := overrides[i];
      assert override in overrides;
      if override.clusterName !in result || override.replicas.None? || ToInt32(result[override.clusterName]) != override.replicas.value {
        return true;
      }
      checkLen := checkLen + 1;
    }
    return checkLen != |result|;
  }

  function NameList(overrides: seq<ClusterOverride>): seq<string> {
    seq(|overrides|, i requires 0 <= i < |overrides| => overrides[i].clusterName)
  }

  function NamesOf(overrides: seq<ClusterOverride>): set<string> {
    set name | name in NameList(overrides)
  }

  lemma NameListed(overrides: seq<ClusterOverride>, name: string)
    ensures name in NamesOf(overrides) <==> exists i :: 0 <= i < |overrides| && overrides[i].clusterName == name
  {
    if i :| 0 <= i < |overrides| && overrides[i].clusterName == name {
      assert NameList(overrides)[i] == name;
    }
  }

  lemma MatchingNames(overrides: seq<ClusterOverride>, result: map<string, int>)
    requires AllMatch(overrides, result)
    ensures NamesOf(overrides) <= result.Keys
    ensures NamesOf(overrides) == result.Keys <==>
      forall name :: name in result ==> exists i :: 0 <= i < |overrides| && overrides[i].clusterName == name
  {
    forall name ensures name in NamesOf(overrides) ==> name in result {
      NameListed(overrides, name);
      if i :| 0 <= i < |overrides| && overrides[i].clusterName == name { assert overrides[i] in overrides; }
    }
    forall name ensures name in NamesOf(overrides) <==> exists i :: 0 <= i < |overrides| && overrides[i].clusterName == name {
      NameListed(overrides, name);
    }
  }

  /** With unique cluster names, no update is needed exactly when the overrides already represent the result. */
  lemma NoUpdateIffRepresented(overrides: seq<ClusterOverride>, result: map<string, int>)
    requires UniqueNames(overrides)
    ensures AllMatch(overrides, result) && |overrides| == |result| <==> Represents(overrides, result)
  {
    DistinctCount(NameList(overrides));
    assert |result| == |result.Keys|;
    if AllMatch(overrides, result) {
      MatchingNames(overrides, result);
      if |overrides| == |result| { SubsetOfSameSize(NamesOf(overrides), result.Keys); }
    }
  }

  /** When the check is content, every scheduled cluster has an override exactly if no cluster name is repeated. */
  lemma AllNamedIffUnique(overrides: seq<ClusterOverride>, result: map<string, int>)
    requires AllMatch(overrides, result) && |overrides| == |result|
    ensures (forall name :: name in result ==> exists i :: 0 <= i < |overrides| && overrides[i].clusterName == name)
       <==> UniqueNames(overrides)
  {
    if UniqueNames(overrides) { NoUpdateIffRepresented(overrides, result); }
    MatchingNames(overrides, result);
    DistinctCount(NameList(overrides));
    assert |result| == |result.Keys|;
    assert NoRepeats(NameList(overrides)) ==> UniqueNames(overrides) by {
      assert forall i :: 0 <= i < |overrides| ==> NameList(overrides)[i] == overrides[i].clusterName;
    }
  }

  /** So duplicate names defeat it: a cluster without an override goes unnoticed. */
  lemma DuplicateNamesHideMissingCluster(a: string, b: string, n: int)
    requires a != b
    ensures
      var overrides := [ClusterOverride(a, Some(ToInt32(n))), ClusterOverride(a, Some(ToInt32(n)))];
      var result := map[a := n, b := n];
      && AllMatch(overrides, result) && |overrides| == |result|
      && b in result && forall i :: 0 <= i < |overrides| ==> overrides[i].clusterName != b
  {
    var result := map[a := n, b := n];
    assert result.Keys == {a, b};
    assert |result| == |result.Keys|;
  }

  /** Read back as a map, the overrides are the schedule itself whenever its counts fit an int32. */
  lemma OverridesReadBack(overrides: seq<ClusterOverride>, result: map<string, int>, name: string)
    requires Represents(overrides, result) && name in result
    requires -0x8000_0000 <= result[name] < 0x8000_0000
    ensures exists i :: 0 <= i < |overrides| && overrides[i] == ClusterOverride(name, Some(result[name]))
  {
    var i :| 0 <= i < |overrides| && overrides[i].clusterName == name;
    assert overrides[i] in overrides;
    assert ToInt32(result[name]) == result[name];
    assert overrides[i] == ClusterOverride(name, Some(result[name]));
  }

  /** The check is content with the overrides. */
  ghost predicate Content(overrides: seq<ClusterOverride>, result: map<string, int>) {
    AllMatch(overrides, result) && |overrides| == |result|
  }

  /**
   Bring the stored override in line with the result.  `stored` is what the API server holds,
   if anything; a read or a write may fail.
   */
  method ReconcileOverride(stored: Option<seq<ClusterOverride>>, result: map<string, int>, readFails: bool, writeFails: bool)
    returns (now: Option<seq<ClusterOverride>>, wrote: bool, ok: bool)
    ensures ok ==> now.Some? && Content(now.value, result)
    ensures wrote ==> ok && Represents(now.value, result)
    ensures ok && (stored.Some? ==> UniqueNames(stored.value)) ==> Represents(now.value, result)
    ensures !wrote ==> now == stored
    ensures !readFails ==> (wrote <==> !writeFails && !(stored.Some? && Content(stored.value, result)))
    ensures stored.Some? && Content(stored.value, result) ==> now == stored && (ok <==> !readFails)
  {
    if readFails {
      return stored, false, false;
    }
    match stored
    case None =>
      var overrides := OverridesFor(result);
      NoUpdateIffRepresented(overrides, result);
      if writeFails {
        return stored, false, false;
      }
      return Some(overrides), true, true;
    case Some(existing) =>
      if UniqueNames(existing) { NoUpdateIffRepresented(existing, result); }
      var needed := OverrideUpdateNeeded(existing, result);
      if needed {
        var overrides := OverridesFor(result);
        NoUpdateIffRepresented(overrides, result);
        if writeFails {
          return stored, false, false;
        }
        return Some(overrides), true, true;
      }
      return stored, false, true;
  }

  // ---------- Placement ----------

  /** Compared as sorted slices; a nil slice (None) is different from an empty one. */
  method PlacementUpdateNeeded(names: Option<seq<string>>, newNames: Option<seq<string>>) returns (needed: bool)
    ensures !needed <==>
      (names.None? && newNames.None?) ||
      (names.Some? && newNames.Some? && multiset(names.value) == multiset(newNames.value))
  {
    if names.None? || newNames.None? {
      return names.Some? || newNames.Some?;
    }
    var a := SortStrings(names.value);
    var b := SortStrings(newNames.value);
    if multiset(a) == multiset(b) {
      SortedStringsUnique(a, b);
    }
    return a != b;
  }

  /** What the server keeps of a list of names: an empty one is left out, and reads back as nil. */
  function Kept(names: seq<string>): Option<seq<string>> {
    if names == [] then None else Some(names)
  }

  /** The placement names exactly the scheduled clusters, each once. */
  ghost predicate Places(placement: Option<seq<string>>, result: map<string, int>) {
    multiset(if placement.Some? then placement.value else []) == multiset(result.Keys)
  }

  method ReconcilePlacement(stored: Option<Option<seq<string>>>, result: map<string, int>, newNames: seq<string>,
                            readFails: bool, writeFails: bool)
    returns (now: Option<Option<seq<string>>>, wrote: bool, ok: bool)
    requires multiset(newNames) == multiset(result.Keys)
    ensures ok ==> now.Some? && Places(now.value, result)
    ensures wrote ==> ok && (now.value.None? <==> newNames == [])
    ensures wrote && now.value.Some? ==> if stored.None? then now.value.value == newNames else Sorted(StringLess, now.value.value)
    ensures ok && !wrote ==> stored.Some? && stored.value.Some?
    ensures ok && newNames != [] ==> now.value.Some?
    ensures !wrote ==> now == stored
    ensures !readFails ==> (wrote <==> !writeFails && !(stored.Some? && stored.value.Some? && Places(stored.value, result)))
    ensures !readFails && stored.Some? && stored.value.Some? && Places(stored.value, result) ==> ok
    ensures readFails ==> !ok
  {
    if readFails {
      return stored, false, false;
    }
    var needed, names := true, newNames;
    if stored.Some? {
      needed := PlacementUpdateNeeded(stored.value, Some(newNames));
      names := SortStrings(newNames); // comparing the lists has sorted them in place
    }
    if !needed {
      return stored, false, true;
    }
    if writeFails {
      return stored, false, false;
    }
    if names == [] { assert multiset(names) == multiset{}; }
    return Some(Kept(names)), true, true;
  }

  // ---------- Both ----------

  /** Failing reads and writes of the two resources. */
  datatype ApiFaults = ApiFaults(readPlacement: bool, writePlacement: bool, readOverride: bool, writeOverride: bool)

  /** What the server holds needs no update for this result. */
  ghost predicate InPlace(result: map<string, int>, placement: Option<Option<seq<string>>>, override: Option<seq<ClusterOverride>>) {
    && placement.Some? && placement.value.Some? && Places(placement.value, result)
    && override.Some? && Content(override.value, result)
  }

  method ReconcileTargets(result: map<string, int>, placement: Option<Option<seq<string>>>, override: Option<seq<ClusterOverride>>,
                          faults: ApiFaults)
    returns (placementNow: Option<Option<seq<string>>>, overrideNow: Option<seq<ClusterOverride>>, wrote: bool, ok: bool)
    ensures ok ==> placementNow.Some? && Places(placementNow.value, result)
    ensures ok ==> overrideNow.Some? && Content(overrideNow.value, result)
    ensures ok && (override.Some? ==> UniqueNames(override.value)) ==> Represents(overrideNow.value, result)
    ensures ok && result != map[] ==> InPlace(result, placementNow, overrideNow)
    ensures !wrote ==> placementNow == placement && overrideNow == override
    ensures !faults.readPlacement && !faults.readOverride ==> (ok && !wrote <==> InPlace(result, placement, override))
  {
    var names: seq<string> := [];
    var rest := result.Keys;
    while rest != {}
      invariant rest <= result.Keys && NoRepeats(names)
      invariant forall n :: n in names <==> n in result && n !in rest
      decreases rest
    {
      var n :| n in rest;
      rest := rest - {n};
      names := names + [n];
    }
    OnceEach(names, result.Keys);
    overrideNow := override;
    placementNow, wrote, ok := ReconcilePlacement(placement, result, names, faults.readPlacement, faults.writePlacement);
    if !ok {
      return;
    }
    if result != map[] {
      var name :| name in result;
      assert name in names;
    }
    var wroteOverride;
    overrideNow, wroteOverride, ok := ReconcileOverride(override, result, faults.readOverride, faults.writeOverride);
    wrote := wrote || wroteOverride;
  }

  /** The overrides say for every cluster the scheduled count itself, and nothing else. */
  ghost predicate ReadsBack(overrides: seq<ClusterOverride>, result: map<string, int>) {
    forall name, count :: ClusterOverride(name, Some(count)) in overrides <==> name in result && result[name] == count
  }

  lemma RepresentsReadsBack(overrides: seq<ClusterOverride>, result: map<string, int>)
    requires Represents(overrides, result)
    requires forall name :: name in result ==> -0x8000_0000 <= result[name] <= INT32_MAX
    ensures ReadsBack(overrides, result)
  {
    forall name, count ensures ClusterOverride(name, Some(count)) in overrides <==> name in result && result[name] == count {
      if name in result && result[name] == count { OverridesReadBack(overrides, result, name); }
      if ClusterOverride(name, Some(count)) in overrides { assert EntryMatches(ClusterOverride(name, Some(count)), result); }
    }
  }

  /**
   A whole reconciliation, from the preference to what is stored: with an int32 total and capacities
   that are not negative the stored overrides read back as exactly the schedule, and once that is in
   place a reconciliation coming to the same schedule writes nothing.
   */
  method ReconcilePreference(spec: PreferenceSpec, clusterNames: seq<string>, current: map<string, int>, capacity: map<string, int>,
                             key: string, hash: (string, string) -> nat,
                             placement: Option<Option<seq<string>>>, override: Option<seq<ClusterOverride>>, faults: ApiFaults)
    returns (result: map<string, int>, placementNow: Option<Option<seq<string>>>, overrideNow: Option<seq<ClusterOverride>>,
             wrote: bool, ok: bool)
    requires ValidPreferenceSpec(spec) && NoRepeats(clusterNames)
    requires forall k :: k in current ==> k in clusterNames
    ensures spec.clusters != map[] ==> Scheduled(spec, clusterNames, current, capacity, key, hash, result)
    ensures spec.clusters == map[] ==>
      Scheduled(PreferenceSpec(spec.total, spec.rebalance, map["*" := ClusterPreferences(0, None, 1)]),
                clusterNames, current, capacity, key, hash, result)
    ensures forall k :: k in result <==> k in clusterNames
    ensures forall k :: k in result && Preferred(spec, k) && Governing(spec, k).maxReplicas.Some? ==>
              result[k] <= Governing(spec, k).maxReplicas.value
    ensures ok ==> placementNow.Some? && Places(placementNow.value, result) && overrideNow.Some?
    ensures ok && spec.total <= INT32_MAX && (forall k :: k in capacity ==> capacity[k] >= 0)
            && (override.Some? ==> UniqueNames(override.value)) ==>
              ReadsBack(overrideNow.value, result) && UniqueNames(overrideNow.value)
    ensures ok && clusterNames != [] ==> InPlace(result, placementNow, overrideNow)
    ensures !faults.readPlacement && !faults.readOverride ==> (ok && !wrote <==> InPlace(result, placement, override))
    ensures !wrote ==> placementNow == placement && overrideNow == override
  {
    result := SchedulingResult(spec, clusterNames, current, capacity, key, hash);
    if clusterNames != [] { assert clusterNames[0] in result; }
    placementNow, overrideNow, wrote, ok := ReconcileTargets(result, placement, override, faults);
    if ok && Represents(overrideNow.value, result) && spec.total <= INT32_MAX && (forall k :: k in capacity ==> capacity[k] >= 0) {
      RepresentsReadsBack(overrideNow.value, result);
    }
  }
}
