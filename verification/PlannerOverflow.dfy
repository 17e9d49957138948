/**
 What the overflow map means, how far the pass count can really go, and when
 64-bit arithmetic is enough.
 */
module PlannerOverflow {
  import opened Collections
  import opened PlannerModel
  import opened PlannerPass
  import opened PlannerPhases

  // ---------- Overflow ----------

  /**
   The overflow of cluster k: the cluster is planned exactly at its capacity, and even with the
   overflow added it stays within its maximum and within the requested total.
   */
  ghost predicate Spilled(r: Request, all: seq<Preference>, s: State, k: string) {
    && k in s.overflow && s.overflow[k] > 0
    && k in r.capacity && At(s.plan, k) == r.capacity[k]
    && (forall p :: p in all && p.name == k && p.spec.maxReplicas.Some? ==>
          At(s.plan, k) + s.overflow[k] <= p.spec.maxReplicas.value)
    && (CapacitiesNonNegative(r) ==> At(s.plan, k) + s.overflow[k] <= r.total)
  }

  ghost predicate OverflowSound(r: Request, all: seq<Preference>, ps: seq<Preference>, s: State) {
    forall k :: k in s.overflow ==> Spilled(r, all, s, k) && !Listed(k, ps) && Listed(k, all)
  }

  lemma AssignSpills(r: Request, all: seq<Preference>, p: Preference, d: int, weightSum: int, q: Progress)
    requires ValidInput(r, all) && p in all && Sane(r, all, q.state)
    requires weightSum > 0 && d >= 0
    requires p.name !in q.state.overflow
    ensures var q' := AssignStep(r, p, d, weightSum, q);
      p.name in q'.state.overflow ==> Spilled(r, all, q'.state, p.name) && q'.kept == q.kept
  {
    ShareBounds(d, p.spec.weight, weightSum);
    if CapacitiesNonNegative(r) { TotalOfNonNegative(q.state.plan, all); }
    forall o | o in all && o.name == p.name ensures o == p { }
  }

  lemma OtherStaysSpilled(r: Request, all: seq<Preference>, p: Preference, d: int, weightSum: int, q: Progress, k: string)
    requires weightSum > 0 && k != p.name
    ensures var q' := AssignStep(r, p, d, weightSum, q);
      && (k in q'.state.overflow <==> k in q.state.overflow)
      && (Spilled(r, all, q.state, k) ==> Spilled(r, all, q'.state, k))
      && (Listed(k, q'.kept) ==> Listed(k, q.kept))
  {
    var q' := AssignStep(r, p, d, weightSum, q);
    assert At(q'.state.plan, k) == At(q.state.plan, k);
    if Listed(k, q'.kept) {
      var i :| 0 <= i < |q'.kept| && q'.kept[i].name == k;
      assert q.kept[i].name == k;
    }
  }

  lemma {:induction false} AssignedSpills(r: Request, all: seq<Preference>, ps: seq<Preference>, d: int, weightSum: int, s: State, k: string)
    requires LoopReady(r, all, ps, s) && OverflowSound(r, all, ps, s)
    requires weightSum > 0 && d == s.remaining > 0
    ensures var q := Assigned(r, ps, d, weightSum, s);
      k in q.state.overflow ==>
        Spilled(r, all, q.state, k) && !Listed(k, q.kept) && (k in s.overflow || Listed(k, ps))
    decreases |ps|
  {
    if ps != [] {
      var front, p := ps[..|ps|-1], ps[|ps|-1];
      var q := Assigned(r, front, d, weightSum, s);
      PrefixDistinct(ps);
      ListedSplit(ps);
      AssignedSoFar(r, all, front, d, weightSum, s);
      AssignedSpills(r, all, front, d, weightSum, s, k);
      assert Listed(p.name, ps);
      if k == p.name {
        AssignSpills(r, all, p, d, weightSum, q);
      } else {
        OtherStaysSpilled(r, all, p, d, weightSum, q, k);
      }
    }
  }

  lemma {:induction false} OverflowStaysSound(r: Request, all: seq<Preference>, ps: seq<Preference>, s: State)
    requires LoopReady(r, all, ps, s) && OverflowSound(r, all, ps, s)
    ensures OverflowSound(r, all, [], Distributed(r, all, ps, s))
    decreases Max(0, Pending(all, s))
  {
    if s.remaining > 0 {
      PassKeepsReady(r, all, ps, s);
      var q := Pass(r, ps, s);
      if WeightSum(ps) > 0 {
        forall k | k in q.state.overflow
          ensures Spilled(r, all, q.state, k) && !Listed(k, q.kept) && Listed(k, all)
        {
          AssignedSpills(r, all, ps, s.remaining, WeightSum(ps), s, k);
          if Listed(k, ps) {
            var i :| 0 <= i < |ps| && ps[i].name == k;
            assert ps[i] in all;
          }
        }
      }
      if q.modified { OverflowStaysSound(r, all, q.kept, q.state); }
    }
  }

  /** Every overflow of a finished plan is sound, and only clusters with preferences have one. */
  lemma PlannedOverflowSound(r: Request, all: seq<Preference>, zeros: map<string, int>)
    requires ValidInput(r, all) && Fresh(zeros, all)
    ensures OverflowSound(r, all, [], Planned(r, all, zeros))
  {
    MinPhaseSane(r, all, zeros);
    PrePhaseSane(r, all, all, MinPhase(r, all, Start(r, zeros)));
    BeforeLoopReady(r, all, zeros);
    OverflowStaysSound(r, all, all, BeforeLoop(r, all, zeros));
  }

  /** The cluster takes no more, and where that is for its capacity, an overflow says so. */
  predicate Reported(r: Request, p: Preference, s: State) {
    || p.spec.maxReplicas == Some(At(s.plan, p.name))
    || (p.name in r.capacity && r.capacity[p.name] == At(s.plan, p.name) && p.name in s.overflow)
  }

  /** The pass so far has reported every cluster it dropped. */
  ghost predicate DroppedReported(r: Request, ps: seq<Preference>, q: Progress) {
    forall p :: p in ps && p !in q.kept ==> Reported(r, p, q.state)
  }

  /** It has kept a cluster with a weight only by modifying it. */
  ghost predicate KeptModified(ps: seq<Preference>, q: Progress) {
    forall p :: p in q.kept ==> p in ps && (p.spec.weight > 0 ==> q.modified)
  }

  /** It has left the plan and the overflow of other clusters alone. */
  ghost predicate OthersLeft(ps: seq<Preference>, s: State, q: Progress) {
    forall k :: !Listed(k, ps) ==> (k in q.state.overflow <==> k in s.overflow) && At(q.state.plan, k) == At(s.plan, k)
  }

  lemma StepReports(r: Request, all: seq<Preference>, p: Preference, d: int, weightSum: int, q: Progress)
    requires ValidInput(r, all) && p in all && Sane(r, all, q.state) && weightSum > 0 && d > 0
    requires q.state.remaining > 0 || q.modified
    requires p !in q.kept
    ensures var q' := AssignStep(r, p, d, weightSum, q);
      (p !in q'.kept ==> Reported(r, p, q'.state)) && (p in q'.kept && p.spec.weight > 0 ==> q'.modified)
  {
    ShareBounds(d, p.spec.weight, weightSum);
    AssignEffect(r, all, p, d, weightSum, q);
  }

  lemma StepLeavesOthers(r: Request, p: Preference, d: int, weightSum: int, q: Progress, k: string)
    requires weightSum > 0 && k != p.name
    ensures var q' := AssignStep(r, p, d, weightSum, q);
      (k in q'.state.overflow <==> k in q.state.overflow) && At(q'.state.plan, k) == At(q.state.plan, k)
  {
  }

  lemma StepKeepsOthers(r: Request, p: Preference, d: int, weightSum: int, q: Progress, o: Preference)
    requires weightSum > 0 && o != p
    ensures o in AssignStep(r, p, d, weightSum, q).kept <==> o in q.kept
    ensures q.modified ==> AssignStep(r, p, d, weightSum, q).modified
  {
  }

  lemma DroppedReportedNext(r: Request, ps: seq<Preference>, d: int, weightSum: int, q: Progress)
    requires ps != [] && Distinct(ps) && weightSum > 0
    requires DroppedReported(r, ps[..|ps|-1], q)
    requires var q' := AssignStep(r, ps[|ps|-1], d, weightSum, q); ps[|ps|-1] !in q'.kept ==> Reported(r, ps[|ps|-1], q'.state)
    ensures DroppedReported(r, ps, AssignStep(r, ps[|ps|-1], d, weightSum, q))
  {
    var front, p := ps[..|ps|-1], ps[|ps|-1];
    var q' := AssignStep(r, p, d, weightSum, q);
    forall o | o in ps && o !in q'.kept ensures Reported(r, o, q'.state) {
      if o != p {
        var i :| 0 <= i < |front| && front[i] == o;
        assert ps[i].name != ps[|ps|-1].name;
        StepKeepsOthers(r, p, d, weightSum, q, o);
        StepLeavesOthers(r, p, d, weightSum, q, o.name);
      }
    }
  }

  lemma KeptModifiedNext(r: Request, ps: seq<Preference>, d: int, weightSum: int, q: Progress)
    requires ps != [] && weightSum > 0 && KeptModified(ps[..|ps|-1], q)
    requires var q' := AssignStep(r, ps[|ps|-1], d, weightSum, q);
      ps[|ps|-1] in q'.kept && ps[|ps|-1].spec.weight > 0 ==> q'.modified
    ensures KeptModified(ps, AssignStep(r, ps[|ps|-1], d, weightSum, q))
  {
    var p := ps[|ps|-1];
    forall o | o in AssignStep(r, p, d, weightSum, q).kept && o != p ensures o in q.kept && o in ps {
      StepKeepsOthers(r, p, d, weightSum, q, o);
      assert o in ps[..|ps|-1];
    }
  }

  lemma OthersLeftNext(r: Request, ps: seq<Preference>, d: int, weightSum: int, s: State, q: Progress)
    requires ps != [] && weightSum > 0 && OthersLeft(ps[..|ps|-1], s, q)
    ensures OthersLeft(ps, s, AssignStep(r, ps[|ps|-1], d, weightSum, q))
  {
    ListedSplit(ps);
    forall k | !Listed(k, ps)
      ensures var q' := AssignStep(r, ps[|ps|-1], d, weightSum, q);
        (k in q'.state.overflow <==> k in s.overflow) && At(q'.state.plan, k) == At(s.plan, k)
    {
      StepLeavesOthers(r, ps[|ps|-1], d, weightSum, q, k);
    }
  }

  lemma {:induction false} AssignedReports(r: Request, all: seq<Preference>, ps: seq<Preference>, d: int, weightSum: int, s: State)
    requires LoopReady(r, all, ps, s) && weightSum > 0 && d == s.remaining > 0
    ensures var q := Assigned(r, ps, d, weightSum, s);
      DroppedReported(r, ps, q) && KeptModified(ps, q) && OthersLeft(ps, s, q)
  {
    if ps != [] {
      var front, p := ps[..|ps|-1], ps[|ps|-1];
      var q := Assigned(r, front, d, weightSum, s);
      AssignedReports(r, all, front, d, weightSum, s);
      LastReports(r, all, ps, d, weightSum, s);
      DroppedReportedNext(r, ps, d, weightSum, q);
      KeptModifiedNext(r, ps, d, weightSum, q);
      OthersLeftNext(r, ps, d, weightSum, s, q);
    }
  }

  lemma LastReports(r: Request, all: seq<Preference>, ps: seq<Preference>, d: int, weightSum: int, s: State)
    requires LoopReady(r, all, ps, s) && weightSum > 0 && d == s.remaining > 0 && ps != []
    requires KeptModified(ps[..|ps|-1], Assigned(r, ps[..|ps|-1], d, weightSum, s))
    ensures var p, q' := ps[|ps|-1], Assigned(r, ps, d, weightSum, s);
      (p !in q'.kept ==> Reported(r, p, q'.state)) && (p in q'.kept && p.spec.weight > 0 ==> q'.modified)
  {
    var front, p := ps[..|ps|-1], ps[|ps|-1];
    PrefixDistinct(ps);
    AssignedSoFar(r, all, front, d, weightSum, s);
    assert p !in front;
    StepReports(r, all, p, d, weightSum, Assigned(r, front, d, weightSum, s));
  }

  lemma PassReports(r: Request, all: seq<Preference>, ps: seq<Preference>, s: State, p: Preference)
    requires LoopReady(r, all, ps, s) && s.remaining > 0 && p in all
    requires p !in ps ==> Reported(r, p, s)
    ensures var q := Pass(r, ps, s);
      (p.spec.weight > 0 && !q.modified) || (q.modified && p !in q.kept) ==> Reported(r, p, q.state)
  {
    PassFacts(r, all, ps, s);
    WeightsNonNegative(ps);
    if p !in ps { assert !Listed(p.name, ps); }
    if WeightSum(ps) > 0 { AssignedReports(r, all, ps, s.remaining, WeightSum(ps), s); }
  }

  /** If replicas stay unplaced, every cluster with a weight is at its maximum or has an overflow. */
  lemma {:induction false} LeftoverIsReported(r: Request, all: seq<Preference>, ps: seq<Preference>, s: State, p: Preference)
    requires LoopReady(r, all, ps, s) && p in all && p.spec.weight > 0
    requires p !in ps ==> Reported(r, p, s)
    requires Distributed(r, all, ps, s).remaining > 0
    ensures Reported(r, p, Distributed(r, all, ps, s))
    decreases Max(0, Pending(all, s))
  {
    PassKeepsReady(r, all, ps, s);
    PassReports(r, all, ps, s, p);
    var q := Pass(r, ps, s);
    if q.modified { LeftoverIsReported(r, all, q.kept, q.state, p); }
  }

  lemma UnplacedIsReported(r: Request, all: seq<Preference>, zeros: map<string, int>, p: Preference)
    requires ValidInput(r, all) && Fresh(zeros, all)
    requires Planned(r, all, zeros).remaining > 0 && p in all && p.spec.weight > 0
    ensures Reported(r, p, Planned(r, all, zeros))
  {
    BeforeLoopReady(r, all, zeros);
    LeftoverIsReported(r, all, all, BeforeLoop(r, all, zeros), p);
  }

  // ---------- The pass count is linear, not logarithmic ----------

  function OneCluster(name: string): Preference {
    Preference(name, 0, ClusterPreferences(0, None, 1))
  }

  lemma SinglePass(r: Request, p: Preference, s: State)
    requires p.spec.weight == 1
    ensures Pass(r, [p], s) == AssignStep(r, p, s.remaining, 1, Progress(s, [], false))
  {
    var front := [p][..|[p]|-1];
    assert front == [];
    assert WeightSum([p]) == WeightSum(front) + 1;
    assert Assigned(r, front, s.remaining, 1, s) == Progress(s, [], false);
  }

  lemma DrainingStep(r: Request, p: Preference, s: State, j: nat)
    requires p == OneCluster(p.name) && p.name !in r.capacity
    requires s.remaining == 1 && At(s.preallocated, p.name) == j
    ensures var q := Pass(r, [p], s);
      && q.modified && q.kept == [p]
      && (if j > 0 then q.state.remaining == 1 && At(q.state.preallocated, p.name) == j - 1
          else q.state.remaining == 0)
  {
    SinglePass(r, p, s);
    assert Share(1, 1, 1) == 1;
  }

  lemma {:induction false} DrainingPasses(r: Request, p: Preference, s: State, j: nat)
    requires p == OneCluster(p.name) && p.name !in r.capacity
    requires LoopReady(r, [p], [p], s)
    requires s.remaining == 1 && At(s.preallocated, p.name) == j
    ensures Passes(r, [p], [p], s) == j + 1
    decreases j
  {
    assert p in [p];
    PassKeepsReady(r, [p], [p], s);
    DrainingStep(r, p, s, j);
    if j > 0 { DrainingPasses(r, p, Pass(r, [p], s).state, j - 1); }
  }

  /**
   One cluster of weight 1 that already runs all but one of the requested replicas needs as many
   passes as there are replicas: the count grows linearly with the total, for every total.
   */
  lemma OneClusterNeedsTotalPasses(name: string, total: int)
    requires total >= 1
    ensures
      var r := Request(total, false, map[name := total - 1], map[]);
      var all := [OneCluster(name)];
      && LoopReady(r, all, all, BeforeLoop(r, all, map[]))
      && Passes(r, all, all, BeforeLoop(r, all, map[])) == total
  {
    var r := Request(total, false, map[name := total - 1], map[]);
    var p := OneCluster(name);
    var all := [p];
    BeforeLoopReady(r, all, map[]);
    var front := all[..|all|-1];
    assert front == [];
    assert MinPhase(r, front, Start(r, map[])) == Start(r, map[]);
    var s := MinPhase(r, all, Start(r, map[]));
    assert PrePhase(r, front, s) == s;
    assert PrePhase(r, all, s) == PreStep(r, p, s);
    DrainingPasses(r, p, BeforeLoop(r, all, map[]), total - 1);
  }

  // ---------- 64-bit arithmetic ----------

  const INT32_MAX := 0x7fff_ffff
  const INT64_MAX := 0x7fff_ffff_ffff_ffff

  /** No sum a pass computes for a share exceeds `limit`: the product and what is added to it to round up. */
  predicate PassWithin(ps: seq<Preference>, d: int, limit: int) {
    && 0 <= WeightSum(ps) <= limit
    && forall p :: p in ps ==> 0 <= d * p.spec.weight && d * p.spec.weight + WeightSum(ps) <= limit
  }

  /** The same for every pass of the loop. */
  ghost predicate LoopWithin(r: Request, all: seq<Preference>, ps: seq<Preference>, s: State, limit: int)
    requires LoopReady(r, all, ps, s)
    decreases Max(0, Pending(all, s))
  {
    if s.remaining <= 0 then true
    else
      PassKeepsReady(r, all, ps, s);
      var q := Pass(r, ps, s);
      PassWithin(ps, s.remaining, limit) && (q.modified ==> LoopWithin(r, all, q.kept, q.state, limit))
  }

  lemma {:induction false} KeptWeighsNoMore(r: Request, ps: seq<Preference>, d: int, weightSum: int, s: State)
    requires weightSum > 0
    requires forall p :: p in ps ==> ValidSpec(p.spec)
    ensures WeightSum(Assigned(r, ps, d, weightSum, s).kept) <= WeightSum(ps)
  {
    if ps != [] {
      var q := Assigned(r, ps[..|ps|-1], d, weightSum, s);
      KeptWeighsNoMore(r, ps[..|ps|-1], d, weightSum, s);
      assert (q.kept + [ps[|ps|-1]])[..|q.kept|] == q.kept;
    }
  }

  /** A pass whose weights are dropped to those of the clusters it keeps. */
  lemma PassKeptWeighsNoMore(r: Request, all: seq<Preference>, ps: seq<Preference>, s: State)
    requires LoopReady(r, all, ps, s)
    ensures WeightSum(Pass(r, ps, s).kept) <= WeightSum(ps)
  {
    WeightsNonNegative(ps);
    if WeightSum(ps) > 0 { KeptWeighsNoMore(r, ps, s.remaining, WeightSum(ps), s); }
  }

  lemma ProductGrows(a: int, b: int, c: int, d: int)
    requires 0 <= a <= b && 0 <= c <= d
    ensures 0 <= a * c <= b * d
  {
    assert b * d - a * c == (b - a) * d + a * (d - c);
  }

  lemma {:induction false} WeightWithinSum(ps: seq<Preference>, p: Preference)
    requires p in ps && forall o :: o in ps ==> ValidSpec(o.spec)
    ensures 0 <= p.spec.weight <= WeightSum(ps)
  {
    WeightsNonNegative(ps[..|ps|-1]);
    if p in ps[..|ps|-1] { WeightWithinSum(ps[..|ps|-1], p); }
  }

  lemma PassStaysWithin(ps: seq<Preference>, d: int, weights: int, limit: int)
    requires forall p :: p in ps ==> ValidSpec(p.spec)
    requires 0 <= d <= INT32_MAX && WeightSum(ps) <= weights
    requires INT32_MAX * weights + weights <= limit
    ensures PassWithin(ps, d, limit)
  {
    WeightsNonNegative(ps);
    forall p | p in ps ensures 0 <= d * p.spec.weight <= INT32_MAX * weights {
      WeightWithinSum(ps, p);
      ProductGrows(d, INT32_MAX, p.spec.weight, weights);
    }
  }

  lemma {:induction false} LoopStaysWithin(r: Request, all: seq<Preference>, ps: seq<Preference>, s: State, weights: int, limit: int)
    requires LoopReady(r, all, ps, s)
    requires s.remaining <= INT32_MAX && WeightSum(ps) <= weights && INT32_MAX * weights + weights <= limit
    ensures LoopWithin(r, all, ps, s, limit)
    decreases Max(0, Pending(all, s))
  {
    if s.remaining > 0 {
      PassStaysWithin(ps, s.remaining, weights, limit);
      PassKeepsReady(r, all, ps, s);
      PassKeptWeighsNoMore(r, all, ps, s);
      var q := Pass(r, ps, s);
      if q.modified {
        assert q.state.remaining <= s.remaining by { PassFacts(r, all, ps, s); }
        LoopStaysWithin(r, all, q.kept, q.state, weights, limit);
      }
    }
  }

  /** What clusters of negative capacity hand back to be placed elsewhere. */
  function HandedBack(r: Request, ps: seq<Preference>): int {
    if ps == [] then 0
    else
      var name := ps[|ps|-1].name;
      HandedBack(r, ps[..|ps|-1]) + if name in r.capacity then Max(0, -r.capacity[name]) else 0
  }

  lemma {:induction false} TotalCoversHandedBack(r: Request, ps: seq<Preference>, plan: map<string, int>)
    requires forall p :: p in ps ==> Floored(r, p, At(plan, p.name))
    ensures Total(plan, ps) >= -HandedBack(r, ps)
    ensures CapacitiesNonNegative(r) ==> HandedBack(r, ps) == 0
  {
    if ps != [] {
      assert ps[|ps|-1] in ps;
      TotalCoversHandedBack(r, ps[..|ps|-1], plan);
    }
  }

  lemma PlanningStaysWithin(r: Request, all: seq<Preference>, zeros: map<string, int>, weights: int, limit: int)
    requires ValidInput(r, all) && Fresh(zeros, all)
    requires r.total + HandedBack(r, all) <= INT32_MAX && WeightSum(all) <= weights && INT32_MAX * weights + weights <= limit
    ensures LoopReady(r, all, all, BeforeLoop(r, all, zeros))
    ensures LoopWithin(r, all, all, BeforeLoop(r, all, zeros), limit)
  {
    BeforeLoopReady(r, all, zeros);
    TotalCoversHandedBack(r, all, BeforeLoop(r, all, zeros).plan);
    LoopStaysWithin(r, all, all, BeforeLoop(r, all, zeros), weights, limit);
  }

  /**
   With what there is to place in the int32 range, and weights adding up to less than 2^32, neither the product
   nor the sum of any share of the whole loop leaves int64.
   */
  lemma PlanningFitsInt64(r: Request, all: seq<Preference>, zeros: map<string, int>)
    requires ValidInput(r, all) && Fresh(zeros, all)
    requires r.total + HandedBack(r, all) <= INT32_MAX && WeightSum(all) < 0x1_0000_0000
    ensures LoopReady(r, all, all, BeforeLoop(r, all, zeros))
    ensures LoopWithin(r, all, all, BeforeLoop(r, all, zeros), INT64_MAX)
  {
    PlanningStaysWithin(r, all, zeros, 0xffff_ffff, INT64_MAX);
  }

  function OnlyCluster(name: string, weight: int): Preference {
    Preference(name, 0, ClusterPreferences(0, None, weight))
  }

  /** That bound is exact: for one cluster asked for the largest int32, nothing overflows just as long as its weight is less than 2^32. */
  lemma WeightBoundIsExact(name: string, weight: int)
    requires weight >= 0
    ensures PassWithin([OnlyCluster(name, weight)], INT32_MAX, INT64_MAX) <==> weight < 0x1_0000_0000
  {
    var p := OnlyCluster(name, weight);
    assert [p][..0] == [];
    assert WeightSum([p]) == weight;
    assert p in [p];
  }

  // ---------- Shares computed with wraparound ----------

  /** Go's int64 arithmetic wraps around. */
  function Wrap64(n: int): int {
    (n + 0x8000_0000_0000_0000) % 0x1_0000_0000_0000_0000 - 0x8000_0000_0000_0000
  }

  /** Go's division truncates toward zero. */
  function Truncated(n: int, d: int): int
    requires d > 0
  {
    if n >= 0 then n / d else -((-n) / d)
  }

  /** The share as the code computes it, each operation on int64. */
  function WrappedShare(d: int, weight: int, weightSum: int): int
    requires weightSum > 0
  {
    Truncated(Wrap64(Wrap64(Wrap64(d * weight) + weightSum) - 1), weightSum)
  }

  lemma WrappedNumerator(product: int, weightSum: int)
    requires 0 <= product && 0 < weightSum && product + weightSum <= INT64_MAX + 1
    ensures Wrap64(Wrap64(Wrap64(product) + weightSum) - 1) == product + weightSum - 1
  {
  }

  /** A sum of 2^63 wraps around, and subtracting one wraps it back: the share is right all the same. */
  lemma WrappedShareIsShare(ps: seq<Preference>, d: int, p: Preference)
    requires PassWithin(ps, d, INT64_MAX + 1) && p in ps && WeightSum(ps) > 0
    ensures WrappedShare(d, p.spec.weight, WeightSum(ps)) == Share(d, p.spec.weight, WeightSum(ps))
  {
    WrappedNumerator(d * p.spec.weight, WeightSum(ps));
  }

  /** Every share of every pass of the loop is the one computed without bounds. */
  ghost predicate SharesSurvive(r: Request, all: seq<Preference>, ps: seq<Preference>, s: State)
    requires LoopReady(r, all, ps, s)
    decreases Max(0, Pending(all, s))
  {
    if s.remaining <= 0 then true
    else
      PassKeepsReady(r, all, ps, s);
      var q := Pass(r, ps, s);
      && (WeightSum(ps) > 0 ==> forall p :: p in ps ==>
           WrappedShare(s.remaining, p.spec.weight, WeightSum(ps)) == Share(s.remaining, p.spec.weight, WeightSum(ps)))
      && (q.modified ==> SharesSurvive(r, all, q.kept, q.state))
  }

  lemma {:induction false} WithinMeansSurvive(r: Request, all: seq<Preference>, ps: seq<Preference>, s: State)
    requires LoopReady(r, all, ps, s) && LoopWithin(r, all, ps, s, INT64_MAX + 1)
    ensures SharesSurvive(r, all, ps, s)
    decreases Max(0, Pending(all, s))
  {
    if s.remaining > 0 {
      PassKeepsReady(r, all, ps, s);
      var q := Pass(r, ps, s);
      if WeightSum(ps) > 0 {
        forall p | p in ps
          ensures WrappedShare(s.remaining, p.spec.weight, WeightSum(ps)) == Share(s.remaining, p.spec.weight, WeightSum(ps))
        {
          WrappedShareIsShare(ps, s.remaining, p);
        }
      }
      if q.modified { WithinMeansSurvive(r, all, q.kept, q.state); }
    }
  }

  /** With weights adding up to 2^32 a sum may wrap around, yet every share of the whole loop is still right. */
  lemma SharesSurviveWraparound(r: Request, all: seq<Preference>, zeros: map<string, int>)
    requires ValidInput(r, all) && Fresh(zeros, all)
    requires r.total + HandedBack(r, all) <= INT32_MAX && WeightSum(all) <= 0x1_0000_0000
    ensures LoopReady(r, all, all, BeforeLoop(r, all, zeros))
    ensures SharesSurvive(r, all, all, BeforeLoop(r, all, zeros))
  {
    PlanningStaysWithin(r, all, zeros, 0x1_0000_0000, INT64_MAX + 1);
    WithinMeansSurvive(r, all, all, BeforeLoop(r, all, zeros));
  }

  lemma WrappedBy(n: int) returns (k: int)
    ensures Wrap64(n) == n - k * 0x1_0000_0000_0000_0000
    ensures -0x8000_0000_0000_0000 <= Wrap64(n) <= INT64_MAX
  {
    k := (n + 0x8000_0000_0000_0000) / 0x1_0000_0000_0000_0000;
  }

  lemma QuotientBounds(n: int, d: int)
    requires d > 0
    ensures (n / d) * d <= n < (n / d) * d + d
  {
  }

  lemma SmallMultiple(m: int, d: int)
    requires -d < m * d < d
    ensures m == 0
  {
    if m >= 1 { ProductGrows(1, m, d, d); }
    if m <= -1 { ProductGrows(1, -m, d, d); }
  }

  lemma QuotientIs(n: int, d: int, q: int)
    requires d > 0
    ensures n / d == q <==> q * d <= n < q * d + d
  {
    QuotientBounds(n, d);
    if q * d <= n < q * d + d {
      assert (n / d - q) * d == (n / d) * d - q * d;
      SmallMultiple(n / d - q, d);
    }
  }

  /** That bound is exact too: one cluster asked for the largest int32 gets its share just as long as its weight is at most 2^32. */
  lemma SurvivalBoundIsExact(weight: int)
    requires 0 < weight <= INT64_MAX
    ensures WrappedShare(INT32_MAX, weight, weight) == Share(INT32_MAX, weight, weight) <==> weight <= 0x1_0000_0000
  {
    var a := INT32_MAX * weight;
    var i := WrappedBy(a);
    var j := WrappedBy(Wrap64(a) + weight);
    var k := WrappedBy(Wrap64(Wrap64(a) + weight) - 1);
    var n := Wrap64(Wrap64(Wrap64(a) + weight) - 1);
    QuotientIs(a + weight - 1, weight, INT32_MAX);
    if weight <= 0x1_0000_0000 {
      WrappedNumerator(a, weight);
    }
    if n >= 0 {
      QuotientIs(n, weight, INT32_MAX);
    } else {
      NegativeQuotient(n, weight);
    }
  }

  lemma NegativeQuotient(n: int, d: int)
    requires n < 0 < d
    ensures Truncated(n, d) <= 0
  {
  }
}
