/**
 The planning algorithm itself: gathering and sorting the preferences, the three
 phases over mutable maps, and trimming the overflow.
 */
module Planner {
  import opened Collections
  import opened PlannerModel
  import opened PlannerPass
  import opened PlannerPhases
  import opened PlannerPromise
  import opened PlannerOrder
  import opened PlannerKeeps
  import opened Sorting
  import opened Strings

  /** Overflow is lowered to what is unplaced, and dropped where that leaves nothing. */
  method TrimOverflow(overflow: map<string, int>, remaining: int) returns (trimmed: map<string, int>)
    ensures trimmed == Trimmed(overflow, remaining)
    ensures forall k :: k in trimmed <==> k in overflow && overflow[k] > 0 && remaining > 0
    ensures forall k :: k in trimmed ==>
              trimmed[k] <= overflow[k] && trimmed[k] <= remaining && (trimmed[k] == overflow[k] || trimmed[k] == remaining)
  {
    trimmed := map[];
    var keys := overflow.Keys;
    while keys != {}
      invariant keys <= overflow.Keys
      invariant trimmed == map k | k in overflow && k !in keys && Min(overflow[k], remaining) > 0 :: Min(overflow[k], remaining)
      decreases keys
    {
      var k :| k in keys;
      keys := keys - {k};
      var value := Min(overflow[k], remaining);
      if value > 0 {
        trimmed := trimmed[k := value];
      }
    }
  }

  method GatherPreferences(spec: PreferenceSpec, available: seq<string>, key: string, hash: (string, string) -> nat)
    returns (preferences: seq<Preference>, plan: map<string, int>)
    ensures preferences == Gathered(spec, available, key, hash)
    ensures plan == Unpreferred(spec, available)
  {
    preferences, plan := [], map[];
    for i := 0 to |available|
      invariant preferences == Gathered(spec, available[..i], key, hash)
      invariant plan == Unpreferred(spec, available[..i])
    {
      var cluster := available[i];
      assert available[..i+1][..i] == available[..i];
      if cluster in spec.clusters {
        preferences := preferences + [Preference(cluster, hash(cluster, key), spec.clusters[cluster])];
      } else if "*" in spec.clusters {
        preferences := preferences + [Preference(cluster, hash(cluster, key), spec.clusters["*"])];
      } else {
        plan := plan[cluster := 0];
      }
    }
    assert available[..|available|] == available;
  }

  method SortPreferences(preferences: seq<Preference>) returns (sorted: seq<Preference>)
    ensures Sorted(Before, sorted) && multiset(sorted) == multiset(preferences)
    ensures forall i, j :: 0 <= i < j < |sorted| ==>
              sorted[i].spec.weight > sorted[j].spec.weight
              || (sorted[i].spec.weight == sorted[j].spec.weight && sorted[i].hash <= sorted[j].hash)
  {
    BeforeIsWeakOrder();
    var slice := new Preference[|preferences|](i requires 0 <= i < |preferences| => preferences[i]);
    assert slice[..] == preferences;
    Sort(slice, Before);
    sorted := slice[..];
    forall i, j | 0 <= i < j < |sorted|
      ensures sorted[i].spec.weight > sorted[j].spec.weight
           || (sorted[i].spec.weight == sorted[j].spec.weight && sorted[i].hash <= sorted[j].hash)
    {
      HeaviestFirst(sorted, i, j);
    }
  }

  /** The minimum phase: in sorted order, each cluster's minimum as far as its capacity and the total allow. */
  method AssignMinimums(ghost r: Request, preferences: seq<Preference>, capacity: map<string, int>, total: int, zeros: map<string, int>)
    returns (remaining: int, plan: map<string, int>)
    requires capacity == r.capacity && total == r.total
    ensures State(remaining, plan, map[], map[]) == MinPhase(r, preferences, Start(r, zeros))
  {
    remaining, plan := total, zeros;
    assert preferences[..|preferences|] == preferences;
    for i := 0 to |preferences|
      invariant State(remaining, plan, map[], map[]) == MinPhase(r, preferences[..i], Start(r, zeros))
    {
      var preference := preferences[i];
      assert preferences[..i+1][..i] == preferences[..i];
      var min := Min(preference.spec.minReplicas, remaining);
      if preference.name in capacity {
        min := Min(min, capacity[preference.name]);
      }
      remaining := remaining - min;
      plan := plan[preference.name := min];
    }
  }

  /** How many of the running replicas the cluster may keep: as many as its maximum and its capacity both allow. */
  method KeepTarget(ghost r: Request, preference: Preference, count: int, capacity: map<string, int>) returns (target: int)
    requires preference.name in r.current && r.current[preference.name] == count && capacity == r.capacity
    ensures target == Keepable(r, preference)
    ensures target <= count && Bounded(r, preference, target)
    ensures target == count || Saturated(r, preference, target)
  {
    target := count;
    if preference.spec.maxReplicas.Some? {
      target := Min(preference.spec.maxReplicas.value, target);
    }
    if preference.name in capacity {
      target := Min(capacity[preference.name], target);
    }
  }

  /** Without rebalancing, keep running replicas where they are as far as maximum and capacity allow. */
  method Preallocate(ghost r: Request, preferences: seq<Preference>, current: map<string, int>, capacity: map<string, int>,
                     remaining0: int, plan0: map<string, int>)
    returns (remaining: int, plan: map<string, int>, preallocated: map<string, int>)
    requires current == r.current && capacity == r.capacity
    ensures State(remaining, plan, preallocated, map[]) == PrePhase(r, preferences, State(remaining0, plan0, map[], map[]))
  {
    remaining, plan, preallocated := remaining0, plan0, map[];
    assert preferences[..|preferences|] == preferences;
    for i := 0 to |preferences|
      invariant State(remaining, plan, preallocated, map[])
             == PrePhase(r, preferences[..i], State(remaining0, plan0, map[], map[]))
    {
      var preference := preferences[i];
      assert preferences[..i+1][..i] == preferences[..i];
      var planned := At(plan, preference.name);
      if preference.name in current && current[preference.name] > planned {
        var target := KeepTarget(r, preference, current[preference.name], capacity);
        var extra := Min(target - planned, remaining);
        if extra < 0 {
          extra := 0;
        }
        remaining := remaining - extra;
        preallocated := preallocated[preference.name := extra];
        plan := plan[preference.name := extra + planned];
      }
    }
  }

  method SumWeights(preferences: seq<Preference>) returns (weightSum: int)
    ensures weightSum == WeightSum(preferences)
  {
    weightSum := 0;
    assert preferences[..|preferences|] == preferences;
    for i := 0 to |preferences|
      invariant weightSum == WeightSum(preferences[..i])
    {
      assert preferences[..i+1][..i] == preferences[..i];
      weightSum := weightSum + preferences[i].spec.weight;
    }
  }

  /** `total` replicas for the cluster out of the wanted ones, `spill` more if only its capacity allowed. */
  predicate Clamped(r: Request, p: Preference, wanted: int, total: int, full: bool, spill: int) {
    && total + spill == MaxAt(p, wanted)
    && total == CapAt(r, p.name, total + spill)
    && spill >= 0
    && (full <==> total < wanted)
  }

  lemma AssignStepFrom(r: Request, p: Preference, d: int, weightSum: int, q: Progress, used: int, total: int, full: bool, spill: int)
    requires weightSum > 0
    requires var share := Min(Share(d, p.spec.weight, weightSum), q.state.remaining);
      && used == Min(share, At(q.state.preallocated, p.name))
      && Clamped(r, p, At(q.state.plan, p.name) + share - used, total, full, spill)
    ensures var s, start := q.state, At(q.state.plan, p.name);
      AssignStep(r, p, d, weightSum, q) ==
      Progress(
        State(s.remaining - (total - start),
              s.plan[p.name := total],
              s.preallocated[p.name := At(s.preallocated, p.name) - used],
              if spill > 0 then s.overflow[p.name := spill] else s.overflow),
        if full then q.kept else q.kept + [p],
        q.modified || used > 0 || total > start)
  {
  }

  /** What one cluster is given in a pass: its new count, the preallocation it used, and what did not fit its capacity. */
  method AssignCluster(ghost r: Request, preference: Preference, capacity: map<string, int>, share: int, prealloc: int, start: int)
    returns (usedPrealloc: int, total: int, full: bool, spill: int)
    requires capacity == r.capacity
    ensures usedPrealloc == Min(share, prealloc)
    ensures Clamped(r, preference, start + share - usedPrealloc, total, full, spill)
  {
    usedPrealloc := Min(share, prealloc);
    var extra := share - usedPrealloc;
    total := start + extra;
    full, spill := false, 0;
    if preference.spec.maxReplicas.Some? && total > preference.spec.maxReplicas.value {
      total := preference.spec.maxReplicas.value;
      full := true;
    }
    if preference.name in capacity && total > capacity[preference.name] {
      spill := total - capacity[preference.name];
      total := capacity[preference.name];
      full := true;
    }
  }

  /** One iteration of the distribution loop, over the clusters that are not full yet. */
  method DistributeOnce(ghost r: Request, preferences: seq<Preference>, capacity: map<string, int>, ghost s: State,
                        remaining0: int, plan0: map<string, int>, preallocated0: map<string, int>, overflow0: map<string, int>)
    returns (modified: bool, newPreferences: seq<Preference>,
             remaining: int, plan: map<string, int>, preallocated: map<string, int>, overflow: map<string, int>)
    requires capacity == r.capacity && s == State(remaining0, plan0, preallocated0, overflow0)
    ensures Progress(State(remaining, plan, preallocated, overflow), newPreferences, modified) == Pass(r, preferences, s)
  {
    remaining, plan, preallocated, overflow := remaining0, plan0, preallocated0, overflow0;
    modified, newPreferences := false, [];
    var weightSum := SumWeights(preferences);
    var distributeInThisLoop := remaining;
    ghost var q := Progress(s, [], false);
    assert preferences[..|preferences|] == preferences;
    for i := 0 to |preferences|
      invariant q == Progress(State(remaining, plan, preallocated, overflow), newPreferences, modified)
      invariant if weightSum > 0 then q == Assigned(r, preferences[..i], distributeInThisLoop, weightSum, s)
                else q == Progress(s, [], false)
    {
      if weightSum > 0 {
        var preference := preferences[i];
        assert preferences[..i+1][..i] == preferences[..i];
        var start := At(plan, preference.name);
        var share := Min(Share(distributeInThisLoop, preference.spec.weight, weightSum), remaining);
        var prealloc := At(preallocated, preference.name);
        var usedPrealloc, total, full, spill := AssignCluster(r, preference, capacity, share, prealloc, start);
        AssignStepFrom(r, preference, distributeInThisLoop, weightSum, q, usedPrealloc, total, full, spill);
        q := AssignStep(r, preference, distributeInThisLoop, weightSum, q);
        preallocated := preallocated[preference.name := prealloc - usedPrealloc];
        overflow := if spill > 0 then overflow[preference.name := spill] else overflow;
        newPreferences := if full then newPreferences else newPreferences + [preference];
        remaining := remaining - (total - start);
        plan := plan[preference.name := total];
        modified := modified || usedPrealloc > 0 || total > start;
      } else {
        break;
      }
    }
  }

  /** Passes follow each other while they change something and replicas are left. */
  method Distribute(ghost r: Request, ghost all: seq<Preference>, preferences0: seq<Preference>, capacity: map<string, int>, ghost s0: State,
                    remaining0: int, plan0: map<string, int>, preallocated0: map<string, int>)
    returns (remaining: int, plan: map<string, int>, overflow: map<string, int>)
    requires capacity == r.capacity && s0 == State(remaining0, plan0, preallocated0, map[])
    requires LoopReady(r, all, preferences0, s0)
    ensures var s := Distributed(r, all, preferences0, s0);
      remaining == s.remaining && plan == s.plan && overflow == s.overflow
  {
    remaining, plan, overflow := remaining0, plan0, map[];
    var preallocated, preferences, modified := preallocated0, preferences0, true;
    ghost var s := s0;
    while modified && remaining > 0
      invariant s == State(remaining, plan, preallocated, overflow)
      invariant LoopReady(r, all, preferences, s)
      invariant Distributed(r, all, preferences0, s0) == if modified then Distributed(r, all, preferences, s) else s
      decreases modified, Max(0, PlannerPass.Pending(all, s))
    {
      PassKeepsReady(r, all, preferences, s);
      modified, preferences, remaining, plan, preallocated, overflow :=
        DistributeOnce(r, preferences, capacity, s, remaining, plan, preallocated, overflow);
      s := State(remaining, plan, preallocated, overflow);
    }
  }

  /**
   The planner.  `order` is the sorted preference list it worked with: any arrangement that
   sorting may produce, so everything proved about the result holds for all of them.
   */
  method Plan(spec: PreferenceSpec, available: seq<string>, current: map<string, int>, capacity: map<string, int>,
              key: string, hash: (string, string) -> nat)
    returns (plan: map<string, int>, overflow: map<string, int>, ghost order: seq<Preference>)
    requires ValidPreferenceSpec(spec) && NoRepeats(available)
    ensures Ready(spec, available, key, hash, order)
    ensures var s := PlannedFor(spec, available, current, capacity, key, hash, order);
      && plan == s.plan
      && overflow == ReportedOverflow(Request(spec.total, spec.rebalance, current, capacity), s)
      && (if spec.rebalance then overflow == s.overflow
          else
            && (forall k :: k in overflow <==> k in s.overflow && s.overflow[k] > 0 && s.remaining > 0)
            && (forall k :: k in overflow ==> overflow[k] == if s.overflow[k] < s.remaining then s.overflow[k] else s.remaining))
    ensures Fulfils(spec, available, current, capacity, key, hash, plan, overflow)
  {
    ghost var r := Request(spec.total, spec.rebalance, current, capacity);
    var preferences, zeros := GatherPreferences(spec, available, key, hash);
    preferences := SortPreferences(preferences);
    order := preferences;
    OrderReady(spec, available, current, capacity, key, hash, order);
    PlannedFulfils(spec, available, current, capacity, key, hash, order);
    BeforeLoopReady(r, order, zeros);

    var remaining;
    remaining, plan := AssignMinimums(r, preferences, capacity, spec.total, zeros);
    var preallocated: map<string, int> := map[];
    if !spec.rebalance {
      remaining, plan, preallocated := Preallocate(r, preferences, current, capacity, remaining, plan);
    }
    remaining, plan, overflow :=
      Distribute(r, order, preferences, capacity, BeforeLoop(r, order, zeros), remaining, plan, preallocated);
    if !spec.rebalance {
      overflow := TrimOverflow(overflow, remaining);
    }
  }
}
