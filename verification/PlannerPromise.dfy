/**
 What a plan promises its caller, in terms of the call alone: the preferences given, the available
 clusters, and what runs and fits there.
 */
module PlannerPromise {
  import opened Collections
  import opened PlannerModel

  /** The part of a replica scheduling preference that planning reads. */
  datatype PreferenceSpec =
    PreferenceSpec(total: int, rebalance: bool, clusters: map<string, ClusterPreferences>)

  ghost predicate ValidPreferenceSpec(spec: PreferenceSpec) {
    0 <= spec.total && forall name :: name in spec.clusters ==> ValidSpec(spec.clusters[name])
  }

  ghost predicate NoneNegative(capacity: map<string, int>) {
    forall name :: name in capacity ==> capacity[name] >= 0
  }

  predicate Preferred(spec: PreferenceSpec, name: string) {
    name in spec.clusters || "*" in spec.clusters
  }

  /** The cluster's own preferences, or those given for "*" if it has none of its own. */
  function Governing(spec: PreferenceSpec, name: string): ClusterPreferences
    requires Preferred(spec, name)
  {
    spec.clusters[if name in spec.clusters then name else "*"]
  }

  /** The sum of the counts over the clusters listed. */
  function Placed(counts: map<string, int>, names: seq<string>): int {
    if names == [] then 0 else Placed(counts, names[..|names|-1]) + At(counts, names[|names|-1])
  }

  // ---------- What the clusters ask for ----------

  function CappedBy(capacity: map<string, int>, name: string, count: int): int {
    if name in capacity then Min(count, capacity[name]) else count
  }

  /** The cluster's minimum, as far as its capacity allows. */
  function MinimumOf(spec: PreferenceSpec, capacity: map<string, int>, name: string): int
    requires Preferred(spec, name)
  {
    CappedBy(capacity, name, Governing(spec, name).minReplicas)
  }

  /** The running replicas that the cluster's maximum and capacity allow it to keep. */
  function RunningOf(spec: PreferenceSpec, current: map<string, int>, capacity: map<string, int>, name: string): int
    requires Preferred(spec, name) && name in current
  {
    var max := Governing(spec, name).maxReplicas;
    CappedBy(capacity, name, if max.Some? then Min(max.value, current[name]) else current[name])
  }

  /** Its minimum and the running replicas it may keep. */
  function FloorOf(spec: PreferenceSpec, current: map<string, int>, capacity: map<string, int>, name: string): int
    requires Preferred(spec, name)
  {
    if name in current then Max(MinimumOf(spec, capacity, name), RunningOf(spec, current, capacity, name))
    else MinimumOf(spec, capacity, name)
  }

  function Minimums(spec: PreferenceSpec, available: seq<string>, capacity: map<string, int>): map<string, int> {
    map name | name in available && Preferred(spec, name) :: MinimumOf(spec, capacity, name)
  }

  function Floors(spec: PreferenceSpec, available: seq<string>, current: map<string, int>, capacity: map<string, int>): map<string, int> {
    map name | name in available && Preferred(spec, name) :: FloorOf(spec, current, capacity, name)
  }

  function Weights(spec: PreferenceSpec, available: seq<string>): map<string, int> {
    map name | name in available && Preferred(spec, name) :: Governing(spec, name).weight
  }

  // ---------- The promises ----------

  /** A cluster without preferences gets nothing; any other stays within its maximum and its capacity. */
  ghost predicate WithinLimits(spec: PreferenceSpec, available: seq<string>, capacity: map<string, int>, plan: map<string, int>) {
    && (forall name :: name in plan <==> name in available)
    && (forall name :: name in plan && !Preferred(spec, name) ==> plan[name] == 0)
    && (forall name :: name in plan && Preferred(spec, name) ==>
          var max := Governing(spec, name).maxReplicas;
          && (max.Some? ==> plan[name] <= max.value)
          && (name in capacity ==> plan[name] <= capacity[name])
          && (plan[name] < 0 ==> name in capacity && plan[name] == capacity[name]))
  }

  /**
   No more than the total is placed, and less only when every weighted cluster is at its maximum or at
   its capacity; in the latter case its overflow says so.
   */
  ghost predicate PlacesWhatFits(spec: PreferenceSpec, available: seq<string>, capacity: map<string, int>,
                                 plan: map<string, int>, overflow: map<string, int>)
  {
    && Placed(plan, available) <= spec.total
    && (Placed(plan, available) < spec.total ==>
          forall name :: name in plan && Preferred(spec, name) && Governing(spec, name).weight > 0 ==>
            || Governing(spec, name).maxReplicas == Some(plan[name])
            || (name in capacity && plan[name] == capacity[name] && name in overflow))
  }

  /**
   Overflow is only reported for clusters at their capacity, within their maximum, and without
   rebalancing up to what is unplaced.
   */
  ghost predicate OverflowMeans(spec: PreferenceSpec, available: seq<string>, capacity: map<string, int>,
                                plan: map<string, int>, overflow: map<string, int>)
  {
    forall name :: name in overflow ==>
      && name in plan && Preferred(spec, name) && name in capacity && plan[name] == capacity[name] && overflow[name] > 0
      && (Governing(spec, name).maxReplicas.Some? ==> plan[name] + overflow[name] <= Governing(spec, name).maxReplicas.value)
      && (NoneNegative(capacity) ==> plan[name] + overflow[name] <= spec.total)
      && (!spec.rebalance ==> overflow[name] <= spec.total - Placed(plan, available))
  }

  /** Every cluster gets its minimum exactly when the minimums add up to no more than the total. */
  ghost predicate MinimumsServed(spec: PreferenceSpec, available: seq<string>, capacity: map<string, int>, plan: map<string, int>) {
    (forall name :: name in plan && Preferred(spec, name) ==> plan[name] >= MinimumOf(spec, capacity, name))
    <==> Placed(Minimums(spec, available, capacity), available) <= spec.total
  }

  /** If a cluster misses its minimum, any lighter one, or one as heavy with a larger hash, gets nothing. */
  ghost predicate HeavierFirst(spec: PreferenceSpec, capacity: map<string, int>, key: string, hash: (string, string) -> nat,
                               plan: map<string, int>)
  {
    forall a, b :: a in plan && b in plan && Preferred(spec, a) && Preferred(spec, b) ==>
      var p, q := Governing(spec, a), Governing(spec, b);
      plan[a] < MinimumOf(spec, capacity, a) && (p.weight > q.weight || (p.weight == q.weight && hash(a, key) < hash(b, key))) ==>
        plan[b] == 0
  }

  /**
   Every cluster keeps its minimum and its running replicas exactly when these floors add up to no more
   than the total.
   */
  ghost predicate RunningKept(spec: PreferenceSpec, available: seq<string>, current: map<string, int>, capacity: map<string, int>,
                              plan: map<string, int>)
  {
    (forall name :: name in plan && Preferred(spec, name) ==> plan[name] >= FloorOf(spec, current, capacity, name))
    <==> Placed(Floors(spec, available, current, capacity), available) <= spec.total
  }

  /** A running replica is given up only when the whole total is placed. */
  ghost predicate MovedOnlyWhenAllPlaced(spec: PreferenceSpec, available: seq<string>, current: map<string, int>, capacity: map<string, int>,
                                         plan: map<string, int>)
  {
    forall name :: name in plan && Preferred(spec, name) && name in current && plan[name] < RunningOf(spec, current, capacity, name) ==>
      Placed(plan, available) == spec.total
  }

  /** No maximum, no capacity, and nothing running that is to be kept. */
  ghost predicate NoLimits(spec: PreferenceSpec, current: map<string, int>, capacity: map<string, int>) {
    && (spec.rebalance || current == map[]) && capacity == map[]
    && forall name :: name in spec.clusters ==> spec.clusters[name].maxReplicas.None?
  }

  /** A share of `amount` by weight: less than a replica too much, and too little only by what rounding gave the others. */
  predicate ByWeight(share: int, amount: int, weight: int, weights: int, others: int) {
    amount * weight - others * (weights - 1) <= share * weights < amount * weight + weights
  }

  /** Every cluster gets its minimum and, of the rest, its share by weight up to rounding; nothing is left. */
  ghost predicate SharesByWeight(spec: PreferenceSpec, available: seq<string>, plan: map<string, int>) {
    var minimum, weights := Placed(Minimums(spec, available, map[]), available), Placed(Weights(spec, available), available);
    minimum <= spec.total && weights > 0 ==>
      && Placed(plan, available) == spec.total
      && forall name :: name in plan && Preferred(spec, name) ==>
           ByWeight(plan[name] - Governing(spec, name).minReplicas, spec.total - minimum, Governing(spec, name).weight, weights, |available| - 1)
  }

  ghost predicate Fulfils(spec: PreferenceSpec, available: seq<string>, current: map<string, int>, capacity: map<string, int>,
                          key: string, hash: (string, string) -> nat, plan: map<string, int>, overflow: map<string, int>)
  {
    && WithinLimits(spec, available, capacity, plan)
    && PlacesWhatFits(spec, available, capacity, plan, overflow)
    && OverflowMeans(spec, available, capacity, plan, overflow)
    && (NoneNegative(capacity) ==> MinimumsServed(spec, available, capacity, plan))
    && (NoneNegative(capacity) ==> HeavierFirst(spec, capacity, key, hash, plan))
    && (!spec.rebalance && NoneNegative(capacity) ==> RunningKept(spec, available, current, capacity, plan))
    && (!spec.rebalance ==> MovedOnlyWhenAllPlaced(spec, available, current, capacity, plan))
    && (NoLimits(spec, current, capacity) ==> SharesByWeight(spec, available, plan))
  }
}
