/** Every plan keeps the promises made to its caller. */
module PlannerKeeps {
  import opened Collections
  import opened PlannerModel
  import opened PlannerPass
  import opened PlannerFairness
  import opened PlannerPhases
  import opened PlannerPriorities
  import opened PlannerOverflow
  import opened PlannerPromise
  import opened PlannerOrder
  import opened Sorting
  import opened Strings

  // ---------- What is reported ----------

  /** Without rebalancing, overflow is trimmed to what could not be placed anywhere. */
  function Trimmed(overflow: map<string, int>, remaining: int): map<string, int> {
    map k | k in overflow && Min(overflow[k], remaining) > 0 :: Min(overflow[k], remaining)
  }

  function ReportedOverflow(r: Request, s: State): map<string, int> {
    if r.rebalance then s.overflow else Trimmed(s.overflow, s.remaining)
  }

  // ---------- Sums over the clusters as they are listed ----------

  lemma {:induction false} TotalAppend(m: map<string, int>, a: seq<Preference>, b: seq<Preference>)
    ensures Total(m, a + b) == Total(m, a) + Total(m, b)
  {
    if b == [] {
      assert a + b == a;
    } else {
      assert (a + b)[..|a+b|-1] == a + b[..|b|-1];
      TotalAppend(m, a, b[..|b|-1]);
    }
  }

  lemma TotalWithoutOne(m: map<string, int>, ps: seq<Preference>, i: nat)
    requires i < |ps|
    ensures Total(m, ps) == Total(m, Without(ps, i)) + At(m, ps[i].name)
  {
    assert ps == ps[..i] + ([ps[i]] + ps[i+1..]);
    TotalAppend(m, ps[..i], ps[i+1..]);
    TotalAppend(m, ps[..i], [ps[i]] + ps[i+1..]);
    TotalAppend(m, [ps[i]], ps[i+1..]);
    assert Total(m, [ps[i]]) == Total(m, []) + At(m, ps[i].name);
  }

  lemma {:induction false} TotalPermuted(m: map<string, int>, a: seq<Preference>, b: seq<Preference>)
    requires multiset(a) == multiset(b)
    ensures Total(m, a) == Total(m, b)
  {
    if a == [] {
      assert |b| == |multiset(b)| == |multiset(a)|;
    } else {
      var i := RemoveSame(a, b);
      TotalWithoutOne(m, a, 0);
      TotalWithoutOne(m, b, i);
      TotalPermuted(m, Without(a, 0), Without(b, i));
    }
  }

  lemma {:induction false} PlacedIsTotal(m: map<string, int>, spec: PreferenceSpec, available: seq<string>, key: string, hash: (string, string) -> nat)
    requires forall name :: name in available && !Preferred(spec, name) ==> At(m, name) == 0
    ensures Placed(m, available) == Total(m, Gathered(spec, available, key, hash))
  {
    if available != [] {
      var front, name := available[..|available|-1], available[|available|-1];
      PlacedIsTotal(m, spec, front, key, hash);
      if Preferred(spec, name) {
        assert Gathered(spec, available, key, hash) == Gathered(spec, front, key, hash) + [PreferenceOf(spec, key, hash, name)];
      } else {
        assert Gathered(spec, available, key, hash) == Gathered(spec, front, key, hash);
      }
    }
  }

  lemma {:induction false} MinSumIsTotal(r: Request, ps: seq<Preference>, counts: map<string, int>)
    requires forall p :: p in ps ==> At(counts, p.name) == CappedMin(r, p)
    ensures MinSum(r, ps) == Total(counts, ps)
  {
    if ps != [] { MinSumIsTotal(r, ps[..|ps|-1], counts); }
  }

  lemma {:induction false} KeepSumIsTotal(r: Request, ps: seq<Preference>, counts: map<string, int>)
    requires forall p :: p in ps ==> At(counts, p.name) == KeepFloor(r, p)
    ensures KeepSum(r, ps) == Total(counts, ps)
  {
    if ps != [] { KeepSumIsTotal(r, ps[..|ps|-1], counts); }
  }

  lemma {:induction false} WeightSumIsTotal(ps: seq<Preference>, counts: map<string, int>)
    requires forall p :: p in ps ==> At(counts, p.name) == p.spec.weight
    ensures WeightSum(ps) == Total(counts, ps)
  {
    if ps != [] { WeightSumIsTotal(ps[..|ps|-1], counts); }
  }

  lemma {:induction false} GatheredLength(spec: PreferenceSpec, available: seq<string>, key: string, hash: (string, string) -> nat)
    ensures |Gathered(spec, available, key, hash)| <= |available|
  {
    if available != [] { GatheredLength(spec, available[..|available|-1], key, hash); }
  }

  // ---------- The plan of a call ----------

  ghost predicate Ready(spec: PreferenceSpec, available: seq<string>, key: string, hash: (string, string) -> nat, order: seq<Preference>) {
    ValidPreferenceSpec(spec) && NoRepeats(available) && IsSortedOrder(spec, available, key, hash, order)
  }

  /** The state in which planning ends for this call, when sorting has arranged the preferences as in `order`. */
  ghost function PlannedFor(spec: PreferenceSpec, available: seq<string>, current: map<string, int>, capacity: map<string, int>,
                            key: string, hash: (string, string) -> nat, order: seq<Preference>): State
    requires Ready(spec, available, key, hash, order)
  {
    OrderReady(spec, available, current, capacity, key, hash, order);
    Planned(Request(spec.total, spec.rebalance, current, capacity), order, Unpreferred(spec, available))
  }

  lemma Members(spec: PreferenceSpec, available: seq<string>, key: string, hash: (string, string) -> nat, order: seq<Preference>)
    requires Ready(spec, available, key, hash, order)
    ensures forall p :: p in order ==>
              p.name in available && Preferred(spec, p.name) && p == PreferenceOf(spec, key, hash, p.name)
    ensures forall name :: name in available && Preferred(spec, name) ==> PreferenceOf(spec, key, hash, name) in order
    ensures |order| <= |available|
  {
    GatheredFacts(spec, available, key, hash);
    PermutationDistinct(Gathered(spec, available, key, hash), order);
    GatheredLength(spec, available, key, hash);
    assert |order| == |multiset(order)| == |Gathered(spec, available, key, hash)|;
  }

  lemma SumsAgree(counts: map<string, int>, spec: PreferenceSpec, available: seq<string>, key: string, hash: (string, string) -> nat,
                  order: seq<Preference>)
    requires Ready(spec, available, key, hash, order)
    requires forall name :: name in available && !Preferred(spec, name) ==> At(counts, name) == 0
    ensures Placed(counts, available) == Total(counts, order)
  {
    PlacedIsTotal(counts, spec, available, key, hash);
    TotalPermuted(counts, order, Gathered(spec, available, key, hash));
  }

  /** What is placed on the available clusters and what is unplaced make up the total. */
  lemma PlacedAndUnplaced(spec: PreferenceSpec, available: seq<string>, current: map<string, int>, capacity: map<string, int>,
                          key: string, hash: (string, string) -> nat, order: seq<Preference>)
    requires Ready(spec, available, key, hash, order)
    ensures var s := PlannedFor(spec, available, current, capacity, key, hash, order);
      && Placed(s.plan, available) + s.remaining == spec.total && s.remaining >= 0
      && forall name :: name in s.plan <==> name in available
  {
    var r, zeros := Request(spec.total, spec.rebalance, current, capacity), Unpreferred(spec, available);
    OrderReady(spec, available, current, capacity, key, hash, order);
    PlanConserves(r, order, zeros);
    var plan := Planned(r, order, zeros).plan;
    forall name | name in available && !Preferred(spec, name) ensures At(plan, name) == 0 {
      assert name in zeros;
    }
    SumsAgree(plan, spec, available, key, hash, order);
  }

  lemma LimitsKept(spec: PreferenceSpec, available: seq<string>, current: map<string, int>, capacity: map<string, int>,
                   key: string, hash: (string, string) -> nat, order: seq<Preference>)
    requires Ready(spec, available, key, hash, order)
    ensures WithinLimits(spec, available, capacity, PlannedFor(spec, available, current, capacity, key, hash, order).plan)
  {
    var r, zeros := Request(spec.total, spec.rebalance, current, capacity), Unpreferred(spec, available);
    OrderReady(spec, available, current, capacity, key, hash, order);
    Members(spec, available, key, hash, order);
    PlanConserves(r, order, zeros);
    var plan := Planned(r, order, zeros).plan;
    forall name | name in plan && Preferred(spec, name)
      ensures Bounded(r, PreferenceOf(spec, key, hash, name), plan[name]) && Floored(r, PreferenceOf(spec, key, hash, name), plan[name])
    {
      assert name !in zeros;
      assert PreferenceOf(spec, key, hash, name) in order;
    }
    forall name | name in plan && !Preferred(spec, name) ensures name in zeros {
      assert Listed(name, order) ==> Preferred(spec, name);
    }
  }

  lemma PlacingKept(spec: PreferenceSpec, available: seq<string>, current: map<string, int>, capacity: map<string, int>,
                    key: string, hash: (string, string) -> nat, order: seq<Preference>)
    requires Ready(spec, available, key, hash, order)
    ensures var r, s := Request(spec.total, spec.rebalance, current, capacity), PlannedFor(spec, available, current, capacity, key, hash, order);
      PlacesWhatFits(spec, available, capacity, s.plan, ReportedOverflow(r, s))
  {
    var r, zeros := Request(spec.total, spec.rebalance, current, capacity), Unpreferred(spec, available);
    OrderReady(spec, available, current, capacity, key, hash, order);
    Members(spec, available, key, hash, order);
    PlacedAndUnplaced(spec, available, current, capacity, key, hash, order);
    PlannedOverflowSound(r, order, zeros);
    var s := Planned(r, order, zeros);
    forall name | s.remaining > 0 && name in s.plan && Preferred(spec, name) && Governing(spec, name).weight > 0
      ensures Reported(r, PreferenceOf(spec, key, hash, name), s)
      ensures name in s.overflow ==> s.overflow[name] > 0
    {
      UnplacedIsReported(r, order, zeros, PreferenceOf(spec, key, hash, name));
      assert name in s.overflow ==> Spilled(r, order, s, name);
    }
  }

  lemma OverflowKept(spec: PreferenceSpec, available: seq<string>, current: map<string, int>, capacity: map<string, int>,
                     key: string, hash: (string, string) -> nat, order: seq<Preference>)
    requires Ready(spec, available, key, hash, order)
    ensures var r, s := Request(spec.total, spec.rebalance, current, capacity), PlannedFor(spec, available, current, capacity, key, hash, order);
      OverflowMeans(spec, available, capacity, s.plan, ReportedOverflow(r, s))
  {
    var r, zeros := Request(spec.total, spec.rebalance, current, capacity), Unpreferred(spec, available);
    OrderReady(spec, available, current, capacity, key, hash, order);
    Members(spec, available, key, hash, order);
    PlacedAndUnplaced(spec, available, current, capacity, key, hash, order);
    PlannedOverflowSound(r, order, zeros);
    var s := Planned(r, order, zeros);
    forall name | name in s.overflow
      ensures Spilled(r, order, s, name) && name in s.plan && Preferred(spec, name) && PreferenceOf(spec, key, hash, name) in order
    {
      assert Listed(name, order);
    }
  }

  lemma MinimumsKept(spec: PreferenceSpec, available: seq<string>, current: map<string, int>, capacity: map<string, int>,
                     key: string, hash: (string, string) -> nat, order: seq<Preference>)
    requires Ready(spec, available, key, hash, order) && NoneNegative(capacity)
    ensures MinimumsServed(spec, available, capacity, PlannedFor(spec, available, current, capacity, key, hash, order).plan)
  {
    var r, zeros := Request(spec.total, spec.rebalance, current, capacity), Unpreferred(spec, available);
    OrderReady(spec, available, current, capacity, key, hash, order);
    Members(spec, available, key, hash, order);
    PlacedAndUnplaced(spec, available, current, capacity, key, hash, order);
    var minimums := Minimums(spec, available, capacity);
    MinSumIsTotal(r, order, minimums);
    SumsAgree(minimums, spec, available, key, hash, order);
    MinimumsMetIffTheyFit(r, order, zeros);
    var plan := Planned(r, order, zeros).plan;
    assert (forall name :: name in plan && Preferred(spec, name) ==> plan[name] >= MinimumOf(spec, capacity, name))
      <==> AllAtLeastMin(r, order, plan) by
    {
      assert forall p :: p in order ==> p.name in plan && CappedMin(r, p) == MinimumOf(spec, capacity, p.name);
      assert forall name :: name in plan && Preferred(spec, name) ==> PreferenceOf(spec, key, hash, name) in order;
    }
  }

  lemma HeavierServedFirst(spec: PreferenceSpec, available: seq<string>, current: map<string, int>, capacity: map<string, int>,
                           key: string, hash: (string, string) -> nat, order: seq<Preference>)
    requires Ready(spec, available, key, hash, order) && NoneNegative(capacity)
    ensures HeavierFirst(spec, capacity, key, hash, PlannedFor(spec, available, current, capacity, key, hash, order).plan)
  {
    var r, zeros := Request(spec.total, spec.rebalance, current, capacity), Unpreferred(spec, available);
    OrderReady(spec, available, current, capacity, key, hash, order);
    Members(spec, available, key, hash, order);
    PlacedAndUnplaced(spec, available, current, capacity, key, hash, order);
    var plan := Planned(r, order, zeros).plan;
    forall a, b | a in plan && b in plan && Preferred(spec, a) && Preferred(spec, b)
                  && plan[a] < MinimumOf(spec, capacity, a)
                  && (Governing(spec, a).weight > Governing(spec, b).weight
                      || (Governing(spec, a).weight == Governing(spec, b).weight && hash(a, key) < hash(b, key)))
      ensures plan[b] == 0
    {
      var p, q := PreferenceOf(spec, key, hash, a), PreferenceOf(spec, key, hash, b);
      var i :| 0 <= i < |order| && order[i] == p;
      var j :| 0 <= j < |order| && order[j] == q;
      assert Before(order[i], order[j]);
      MissedMinimumStarvesLater(r, order, zeros, i);
      assert i < j && NoneNegativeAfter(r, order, i);
    }
  }

  lemma RunningFloorsKept(spec: PreferenceSpec, available: seq<string>, current: map<string, int>, capacity: map<string, int>,
                          key: string, hash: (string, string) -> nat, order: seq<Preference>)
    requires Ready(spec, available, key, hash, order) && NoneNegative(capacity) && !spec.rebalance
    ensures RunningKept(spec, available, current, capacity, PlannedFor(spec, available, current, capacity, key, hash, order).plan)
  {
    var r, zeros := Request(spec.total, spec.rebalance, current, capacity), Unpreferred(spec, available);
    OrderReady(spec, available, current, capacity, key, hash, order);
    Members(spec, available, key, hash, order);
    PlacedAndUnplaced(spec, available, current, capacity, key, hash, order);
    var floors := Floors(spec, available, current, capacity);
    KeepSumIsTotal(r, order, floors);
    SumsAgree(floors, spec, available, key, hash, order);
    RunningKeptIffTheyFit(r, order, zeros);
    var plan := Planned(r, order, zeros).plan;
    assert (forall name :: name in plan && Preferred(spec, name) ==> plan[name] >= FloorOf(spec, current, capacity, name))
      <==> AllKept(r, order, plan) by
    {
      assert forall p :: p in order ==> p.name in plan && KeepFloor(r, p) == FloorOf(spec, current, capacity, p.name);
      assert forall name :: name in plan && Preferred(spec, name) ==> PreferenceOf(spec, key, hash, name) in order;
    }
  }

  lemma MovingKept(spec: PreferenceSpec, available: seq<string>, current: map<string, int>, capacity: map<string, int>,
                   key: string, hash: (string, string) -> nat, order: seq<Preference>)
    requires Ready(spec, available, key, hash, order) && !spec.rebalance
    ensures MovedOnlyWhenAllPlaced(spec, available, current, capacity, PlannedFor(spec, available, current, capacity, key, hash, order).plan)
  {
    var r, zeros := Request(spec.total, spec.rebalance, current, capacity), Unpreferred(spec, available);
    OrderReady(spec, available, current, capacity, key, hash, order);
    Members(spec, available, key, hash, order);
    PlacedAndUnplaced(spec, available, current, capacity, key, hash, order);
    var plan := Planned(r, order, zeros).plan;
    forall name | name in plan && Preferred(spec, name) && name in current && plan[name] < RunningOf(spec, current, capacity, name)
      ensures Placed(plan, available) == spec.total
    {
      RunningMovedOnlyWhenAllPlaced(r, order, zeros, PreferenceOf(spec, key, hash, name));
    }
  }

  /** Letting more clusters round up before only widens the bound. */
  lemma WiderRounding(share: int, amount: int, weight: int, weights: int, before: nat, others: nat)
    requires Proportional(share, amount, weight, weights, before) && before <= others && weights > 0
    ensures ByWeight(share, amount, weight, weights, others)
  {
    ProductGrows(before, others, weights - 1, weights - 1);
  }

  lemma SumsForShares(spec: PreferenceSpec, available: seq<string>, current: map<string, int>, key: string, hash: (string, string) -> nat,
                      order: seq<Preference>)
    requires Ready(spec, available, key, hash, order)
    ensures MinSum(Request(spec.total, spec.rebalance, current, map[]), order) == Placed(Minimums(spec, available, map[]), available)
    ensures WeightSum(order) == Placed(Weights(spec, available), available)
  {
    Members(spec, available, key, hash, order);
    MinSumIsTotal(Request(spec.total, spec.rebalance, current, map[]), order, Minimums(spec, available, map[]));
    WeightSumIsTotal(order, Weights(spec, available));
    SumsAgree(Minimums(spec, available, map[]), spec, available, key, hash, order);
    SumsAgree(Weights(spec, available), spec, available, key, hash, order);
  }

  lemma UnlimitedCall(spec: PreferenceSpec, available: seq<string>, current: map<string, int>,
                      key: string, hash: (string, string) -> nat, order: seq<Preference>)
    requires Ready(spec, available, key, hash, order) && NoLimits(spec, current, map[])
    ensures var r := Request(spec.total, spec.rebalance, current, map[]);
      ValidInput(r, order) && Fresh(Unpreferred(spec, available), order) && Unlimited(r, order)
  {
    OrderReady(spec, available, current, map[], key, hash, order);
    Members(spec, available, key, hash, order);
  }

  lemma ShareAt(r: Request, order: seq<Preference>, zeros: map<string, int>, i: nat, got: int, amount: int, weight: int, weights: int)
    requires ValidInput(r, order) && Fresh(zeros, order) && Unlimited(r, order)
    requires i < |order| && weight == order[i].spec.weight
    requires got == At(Planned(r, order, zeros).plan, order[i].name) - order[i].spec.minReplicas
    requires amount == r.total - MinSum(r, order) >= 0
    requires weights == WeightSum(order) > 0
    ensures Planned(r, order, zeros).remaining == 0
    ensures Proportional(got, amount, weight, weights, i)
  {
    UnlimitedPlanIsProportional(r, order, zeros, i);
  }

  lemma ShareKept(spec: PreferenceSpec, available: seq<string>, current: map<string, int>,
                  key: string, hash: (string, string) -> nat, order: seq<Preference>, name: string, amount: int, weights: int)
    requires Ready(spec, available, key, hash, order) && NoLimits(spec, current, map[])
    requires amount == spec.total - MinSum(Request(spec.total, spec.rebalance, current, map[]), order) >= 0
    requires weights == WeightSum(order) > 0
    requires name in available && Preferred(spec, name)
    ensures var s := PlannedFor(spec, available, current, map[], key, hash, order);
      && s.remaining == 0
      && ByWeight(At(s.plan, name) - Governing(spec, name).minReplicas, amount, Governing(spec, name).weight, weights, |available| - 1)
  {
    Members(spec, available, key, hash, order);
    var p := PreferenceOf(spec, key, hash, name);
    var i :| 0 <= i < |order| && order[i] == p;
    var got := At(PlannedFor(spec, available, current, map[], key, hash, order).plan, name) - p.spec.minReplicas;
    UnlimitedCall(spec, available, current, key, hash, order);
    ShareAt(Request(spec.total, spec.rebalance, current, map[]), order, Unpreferred(spec, available), i, got, amount, p.spec.weight, weights);
    WiderRounding(got, amount, p.spec.weight, weights, i, |available| - 1);
  }

  lemma {:induction false} NobodyPreferred(spec: PreferenceSpec, names: seq<string>, weights: map<string, int>)
    requires forall name :: name in names ==> name !in weights
    ensures Placed(weights, names) == 0
  {
    if names != [] { NobodyPreferred(spec, names[..|names|-1], weights); }
  }

  lemma SharesKept(spec: PreferenceSpec, available: seq<string>, current: map<string, int>, capacity: map<string, int>,
                   key: string, hash: (string, string) -> nat, order: seq<Preference>)
    requires Ready(spec, available, key, hash, order) && NoLimits(spec, current, capacity)
    ensures SharesByWeight(spec, available, PlannedFor(spec, available, current, capacity, key, hash, order).plan)
  {
    PlacedAndUnplaced(spec, available, current, capacity, key, hash, order);
    SumsForShares(spec, available, current, key, hash, order);
    var weights := Weights(spec, available);
    if Placed(Minimums(spec, available, map[]), available) <= spec.total && Placed(weights, available) > 0 {
      var amount := spec.total - Placed(Minimums(spec, available, map[]), available);
      forall name | name in available && Preferred(spec, name)
        ensures var s := PlannedFor(spec, available, current, capacity, key, hash, order);
          && s.remaining == 0
          && ByWeight(At(s.plan, name) - Governing(spec, name).minReplicas, amount, Governing(spec, name).weight,
                      Placed(weights, available), |available| - 1)
      {
        ShareKept(spec, available, current, key, hash, order, name, amount, Placed(weights, available));
      }
      assert exists name :: name in available && Preferred(spec, name) by {
        if forall name :: name in available ==> !Preferred(spec, name) { NobodyPreferred(spec, available, weights); }
      }
    }
  }

  /** Whatever arrangement the sort produces, the plan and the overflow reported keep every promise. */
  lemma PlannedFulfils(spec: PreferenceSpec, available: seq<string>, current: map<string, int>, capacity: map<string, int>,
                       key: string, hash: (string, string) -> nat, order: seq<Preference>)
    requires Ready(spec, available, key, hash, order)
    ensures var r, s := Request(spec.total, spec.rebalance, current, capacity), PlannedFor(spec, available, current, capacity, key, hash, order);
      Fulfils(spec, available, current, capacity, key, hash, s.plan, ReportedOverflow(r, s))
  {
    LimitsKept(spec, available, current, capacity, key, hash, order);
    PlacingKept(spec, available, current, capacity, key, hash, order);
    OverflowKept(spec, available, current, capacity, key, hash, order);
    if NoneNegative(capacity) {
      MinimumsKept(spec, available, current, capacity, key, hash, order);
      HeavierServedFirst(spec, available, current, capacity, key, hash, order);
      if !spec.rebalance { RunningFloorsKept(spec, available, current, capacity, key, hash, order); }
    }
    if !spec.rebalance { MovingKept(spec, available, current, capacity, key, hash, order); }
    if NoLimits(spec, current, capacity) { SharesKept(spec, available, current, capacity, key, hash, order); }
  }
}
