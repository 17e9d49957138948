/**
 Distribution follows the weights: in every pass each cluster takes its exact proportional
 share up to rounding, unless it is full.
 */
module PlannerFairness {
  import opened Collections
  import opened PlannerModel
  import opened PlannerPass
  import opened PlannerRounding
  import opened PlannerPhases
  import opened PlannerPriorities

  /** What cluster p took in going from s to s': new replicas and preallocated ones accounted for. */
  function Taken(p: Preference, s: State, s': State): int {
    At(s'.plan, p.name) - At(s.plan, p.name) + At(s.preallocated, p.name) - At(s'.preallocated, p.name)
  }

  /** Less than one replica over the exact share, and short of it by less than one replica for each cluster served before. */
  predicate Proportional(taken: int, d: int, weight: int, weightSum: int, before: nat) {
    d * weight - before * (weightSum - 1) <= taken * weightSum < d * weight + weightSum
  }

  /** Proportional, or below that because the cluster is full. */
  predicate FairOrFull(r: Request, p: Preference, s: State, s': State, d: int, weightSum: int, before: nat) {
    || Proportional(Taken(p, s, s'), d, p.spec.weight, weightSum, before)
    || (Taken(p, s, s') * weightSum < d * p.spec.weight + weightSum && Saturated(r, p, At(s'.plan, p.name)))
  }

  /** Clusters served before take no more than their rounded-up shares. */
  lemma {:induction false} EnoughIsLeft(r: Request, all: seq<Preference>, ps: seq<Preference>, d: int, weightSum: int, s: State)
    requires LoopReady(r, all, ps, s) && weightSum > 0 && d == s.remaining > 0
    ensures Assigned(r, ps, d, weightSum, s).state.remaining >= d - ShareSum(ps, d, weightSum)
  {
    if ps != [] {
      var front := ps[..|ps|-1];
      FrontOfPass(r, all, ps, d, weightSum, s);
      EnoughIsLeft(r, all, front, d, weightSum, s);
      AssignEffect(r, all, ps[|ps|-1], d, weightSum, Assigned(r, front, d, weightSum, s));
    }
  }

  lemma AddShare(rest: int, share: int, sum: int, d: int, restWeight: int, weight: int, n: int)
    requires rest * sum <= d * restWeight + n * (sum - 1)
    requires share * sum <= d * weight + (sum - 1)
    ensures (rest + share) * sum <= d * (restWeight + weight) + (n + 1) * (sum - 1)
  {
    assert (rest + share) * sum == rest * sum + share * sum;
    assert d * (restWeight + weight) == d * restWeight + d * weight;
    assert (n + 1) * (sum - 1) == n * (sum - 1) + (sum - 1);
  }

  lemma {:induction false} SharesBounded(ps: seq<Preference>, d: int, weightSum: int)
    requires weightSum > 0 && d >= 0
    requires forall p :: p in ps ==> ValidSpec(p.spec)
    ensures ShareSum(ps, d, weightSum) * weightSum <= d * WeightSum(ps) + |ps| * (weightSum - 1)
  {
    if ps != [] {
      var front, w := ps[..|ps|-1], ps[|ps|-1].spec.weight;
      SharesBounded(front, d, weightSum);
      ShareBounds(d, w, weightSum);
      AddShare(ShareSum(front, d, weightSum), Share(d, w, weightSum), weightSum, d, WeightSum(front), w, |front|);
    }
  }

  /** What is left when a cluster's turn comes covers its share but for the rounding before it. */
  lemma LeftCoversShare(left: int, before: nat, sharesBefore: int, weightBefore: int, d: int, weight: int, weightSum: int)
    requires weightSum > 0 && d >= 0 && left >= d - sharesBefore
    requires sharesBefore * weightSum <= d * weightBefore + before * (weightSum - 1)
    requires weightBefore + weight <= weightSum
    ensures left * weightSum >= d * weight - before * (weightSum - 1)
  {
    assert (left + sharesBefore) * weightSum >= d * weightSum;
    assert left * weightSum + sharesBefore * weightSum == (left + sharesBefore) * weightSum;
    assert d * weightSum >= d * (weightBefore + weight);
    assert d * (weightBefore + weight) == d * weightBefore + d * weight;
  }

  /** Taking the rounded-up share, or all that is left, is proportional. */
  lemma TakingIsProportional(taken: int, share: int, left: int, d: int, weight: int, sum: int, before: nat)
    requires sum > 0 && d * weight <= share * sum <= d * weight + sum - 1
    requires left * sum >= d * weight - before * (sum - 1)
    requires taken <= share
    ensures taken * sum < d * weight + sum
    ensures taken == share || taken == left ==> Proportional(taken, d, weight, sum, before)
  {
    assert taken * sum <= share * sum;
    assert before * (sum - 1) >= 0;
  }

  lemma TurnIsFair(r: Request, all: seq<Preference>, p: Preference, d: int, weightSum: int, s: State, q: Progress, before: nat)
    requires ValidInput(r, all) && p in all && Sane(r, all, q.state)
    requires weightSum > 0 && d >= 0
    requires At(q.state.plan, p.name) == At(s.plan, p.name) && At(q.state.preallocated, p.name) == At(s.preallocated, p.name)
    requires q.state.remaining * weightSum >= d * p.spec.weight - before * (weightSum - 1)
    ensures FairOrFull(r, p, s, AssignStep(r, p, d, weightSum, q).state, d, weightSum, before)
  {
    var s' := AssignStep(r, p, d, weightSum, q).state;
    var share, taken := Share(d, p.spec.weight, weightSum), Taken(p, s, s');
    AssignEffect(r, all, p, d, weightSum, q);
    ShareBounds(d, p.spec.weight, weightSum);
    TakingIsProportional(taken, share, q.state.remaining, d, p.spec.weight, weightSum, before);
  }

  lemma LastIsFair(r: Request, all: seq<Preference>, ps: seq<Preference>, d: int, weightSum: int, s: State)
    requires LoopReady(r, all, ps, s) && weightSum > 0 && d == s.remaining > 0 && ps != []
    requires WeightSum(ps) <= weightSum
    ensures FairOrFull(r, ps[|ps|-1], s, Assigned(r, ps, d, weightSum, s).state, d, weightSum, |ps| - 1)
  {
    var front, p := ps[..|ps|-1], ps[|ps|-1];
    var q := Assigned(r, front, d, weightSum, s);
    FrontOfPass(r, all, ps, d, weightSum, s);
    UntouchedByFront(r, all, ps, d, weightSum, s);
    EnoughIsLeft(r, all, front, d, weightSum, s);
    SharesBounded(front, d, weightSum);
    LeftCoversShare(q.state.remaining, |front|, ShareSum(front, d, weightSum), WeightSum(front), d, p.spec.weight, weightSum);
    TurnIsFair(r, all, p, d, weightSum, s, q, |front|);
  }

  /** In one pass over clusters of total weight at most `weightSum`, the i-th cluster takes its fair share or is full. */
  lemma {:induction false} AssignedIsFair(r: Request, all: seq<Preference>, ps: seq<Preference>, d: int, weightSum: int, s: State, i: nat)
    requires LoopReady(r, all, ps, s) && weightSum > 0 && d == s.remaining > 0 && i < |ps|
    requires WeightSum(ps) <= weightSum
    ensures FairOrFull(r, ps[i], s, Assigned(r, ps, d, weightSum, s).state, d, weightSum, i)
    decreases |ps|
  {
    if i == |ps| - 1 {
      LastIsFair(r, all, ps, d, weightSum, s);
    } else {
      FrontStillReady(r, all, ps, weightSum, s);
      AssignedIsFair(r, all, ps[..|ps|-1], d, weightSum, s, i);
      LaterTurnsLeaveAlone(r, ps, d, weightSum, s, i);
      FairSame(r, ps[i], s, Assigned(r, ps[..|ps|-1], d, weightSum, s).state, Assigned(r, ps, d, weightSum, s).state, d, weightSum, i);
    }
  }

  lemma FrontStillReady(r: Request, all: seq<Preference>, ps: seq<Preference>, weightSum: int, s: State)
    requires LoopReady(r, all, ps, s) && ps != [] && WeightSum(ps) <= weightSum
    ensures LoopReady(r, all, ps[..|ps|-1], s) && WeightSum(ps[..|ps|-1]) <= weightSum
  {
    assert ps[|ps|-1] in ps;
  }

  /** Fairness only looks at the cluster itself. */
  lemma FairSame(r: Request, p: Preference, s: State, a: State, b: State, d: int, weightSum: int, before: nat)
    requires At(a.plan, p.name) == At(b.plan, p.name) && At(a.preallocated, p.name) == At(b.preallocated, p.name)
    ensures FairOrFull(r, p, s, a, d, weightSum, before) == FairOrFull(r, p, s, b, d, weightSum, before)
  {
  }

  lemma LaterTurnsLeaveAlone(r: Request, ps: seq<Preference>, d: int, weightSum: int, s: State, i: nat)
    requires Distinct(ps) && weightSum > 0 && i < |ps| - 1
    ensures var s', front' := Assigned(r, ps, d, weightSum, s).state, Assigned(r, ps[..|ps|-1], d, weightSum, s).state;
      At(s'.plan, ps[i].name) == At(front'.plan, ps[i].name)
      && At(s'.preallocated, ps[i].name) == At(front'.preallocated, ps[i].name)
  {
    assert ps[i].name != ps[|ps|-1].name;
  }

  lemma UntouchedByFront(r: Request, all: seq<Preference>, ps: seq<Preference>, d: int, weightSum: int, s: State)
    requires LoopReady(r, all, ps, s) && ps != [] && weightSum > 0 && d == s.remaining > 0
    ensures var s' := Assigned(r, ps[..|ps|-1], d, weightSum, s).state;
      At(s'.plan, ps[|ps|-1].name) == At(s.plan, ps[|ps|-1].name)
      && At(s'.preallocated, ps[|ps|-1].name) == At(s.preallocated, ps[|ps|-1].name)
  {
    PrefixDistinct(ps);
    AssignedSoFar(r, all, ps[..|ps|-1], d, weightSum, s);
  }

  /** Every pass of every loop is fair. */
  lemma PassIsFair(r: Request, all: seq<Preference>, ps: seq<Preference>, s: State, i: nat)
    requires LoopReady(r, all, ps, s) && s.remaining > 0 && i < |ps|
    requires WeightSum(ps) > 0
    ensures FairOrFull(r, ps[i], s, Pass(r, ps, s).state, s.remaining, WeightSum(ps), i)
  {
    AssignedIsFair(r, all, ps, s.remaining, WeightSum(ps), s, i);
  }

  // ---------- Plans without limits ----------

  /** No cluster has a maximum or a capacity, and no running replicas are to be kept. */
  predicate Unlimited(r: Request, all: seq<Preference>) {
    (r.rebalance || r.current == map[]) && r.capacity == map[] && forall p :: p in all ==> p.spec.maxReplicas.None?
  }

  lemma {:induction false} NoneFullSoFar(r: Request, ps: seq<Preference>, d: int, weightSum: int, s: State)
    requires weightSum > 0 && r.capacity == map[] && forall p :: p in ps ==> p.spec.maxReplicas.None?
    ensures |Assigned(r, ps, d, weightSum, s).kept| == |ps|
  {
    if ps != [] { NoneFullSoFar(r, ps[..|ps|-1], d, weightSum, s); }
  }

  /** Without limits one pass places everything. */
  lemma OnePassSuffices(r: Request, all: seq<Preference>, s: State)
    requires LoopReady(r, all, all, s) && Unlimited(r, all)
    requires WeightSum(all) > 0 && s.remaining > 0 && s.preallocated == map[]
    ensures Distributed(r, all, all, s) == Pass(r, all, s).state
    ensures Pass(r, all, s).state.remaining == 0
    ensures forall p :: p in all ==> At(Pass(r, all, s).state.preallocated, p.name) == 0
  {
    var q := Pass(r, all, s);
    PassKeepsReady(r, all, all, s);
    PassFacts(r, all, all, s);
    NoneFullSoFar(r, all, s.remaining, WeightSum(all), s);
    UnfilledPassPlacesAllButPreallocated(r, all, all, s);
    TotalOfUnlisted(map[], all);
    TotalOfNonNegative(q.state.preallocated, all);
  }

  lemma NothingToShare(weight: int, sum: int, before: nat)
    requires sum > 0
    ensures Proportional(0, 0, weight, sum, before)
  {
    assert before * (sum - 1) >= 0;
  }

  lemma NeverSaturated(r: Request, all: seq<Preference>, p: Preference, v: int)
    requires Unlimited(r, all) && p in all
    ensures !Saturated(r, p, v)
  {
  }

  lemma UnlimitedStart(r: Request, all: seq<Preference>, zeros: map<string, int>, p: Preference)
    requires ValidInput(r, all) && Fresh(zeros, all) && Unlimited(r, all)
    requires MinSum(r, all) <= r.total && p in all
    ensures LoopReady(r, all, all, BeforeLoop(r, all, zeros))
    ensures BeforeLoop(r, all, zeros).preallocated == map[]
    ensures BeforeLoop(r, all, zeros).remaining == r.total - MinSum(r, all) >= 0
    ensures At(BeforeLoop(r, all, zeros).plan, p.name) == p.spec.minReplicas
  {
    MinPhaseSane(r, all, zeros);
    SumMeansPrefixesFit(r, all);
    MinimumsExact(r, all, zeros);
    if !r.rebalance { NothingRunning(r, all, MinPhase(r, all, Start(r, zeros))); }
  }

  lemma {:induction false} NothingRunning(r: Request, ps: seq<Preference>, s: State)
    requires r.current == map[]
    ensures PrePhase(r, ps, s) == s
  {
    if ps != [] { NothingRunning(r, ps[..|ps|-1], s); }
  }

  lemma OnePassIsProportional(r: Request, all: seq<Preference>, s: State, i: nat, got: int, d: int)
    requires LoopReady(r, all, all, s) && Unlimited(r, all)
    requires WeightSum(all) > 0 && s.preallocated == map[] && i < |all|
    requires d == s.remaining && got == At(Distributed(r, all, all, s).plan, all[i].name) - At(s.plan, all[i].name)
    ensures Distributed(r, all, all, s).remaining == 0
    ensures Proportional(got, d, all[i].spec.weight, WeightSum(all), i)
  {
    if s.remaining == 0 {
      NothingToShare(all[i].spec.weight, WeightSum(all), i);
    } else {
      var s', p := Pass(r, all, s).state, all[i];
      OnePassSuffices(r, all, s);
      PassIsFair(r, all, all, s, i);
      assert p in all;
      NeverSaturated(r, all, p, At(s'.plan, p.name));
      assert Taken(p, s, s') == got;
    }
  }

  /**
   Without limits, a plan for clusters whose minimums fit gives every cluster its minimum and, of the
   rest, its proportional share up to rounding; nothing is left over.
   */
  lemma UnlimitedPlanIsProportional(r: Request, all: seq<Preference>, zeros: map<string, int>, i: nat)
    requires ValidInput(r, all) && Fresh(zeros, all) && Unlimited(r, all)
    requires WeightSum(all) > 0 && i < |all| && MinSum(r, all) <= r.total
    ensures Planned(r, all, zeros).remaining == 0
    ensures Proportional(At(Planned(r, all, zeros).plan, all[i].name) - all[i].spec.minReplicas,
                         r.total - MinSum(r, all), all[i].spec.weight, WeightSum(all), i)
  {
    var got, d := At(Planned(r, all, zeros).plan, all[i].name) - all[i].spec.minReplicas, r.total - MinSum(r, all);
    UnlimitedStart(r, all, zeros, all[i]);
    OnePassIsProportional(r, all, BeforeLoop(r, all, zeros), i, got, d);
  }
}
