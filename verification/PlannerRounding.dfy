/**
 Rounding up never leaves replicas behind: what a pass fails to place is bounded
 by the preallocation it accounted for, and how many passes that makes.
 */
module PlannerRounding {
  import opened Collections
  import opened PlannerModel
  import opened PlannerPass

  function ShareSum(ps: seq<Preference>, d: int, weightSum: int): int
    requires weightSum > 0
  {
    if ps == [] then 0
    else ShareSum(ps[..|ps|-1], d, weightSum) + Share(d, ps[|ps|-1].spec.weight, weightSum)
  }

  lemma SumCovers(rest: int, share: int, weightSum: int, d: int, weights: int, w: int)
    requires rest * weightSum >= d * weights && share * weightSum >= d * w
    ensures (rest + share) * weightSum >= d * (weights + w)
  {
    assert (rest + share) * weightSum == rest * weightSum + share * weightSum;
    assert d * (weights + w) == d * weights + d * w;
  }

  lemma {:induction false} SharesCover(ps: seq<Preference>, d: int, weightSum: int)
    requires weightSum > 0 && d >= 0
    requires forall p :: p in ps ==> ValidSpec(p.spec)
    ensures ShareSum(ps, d, weightSum) * weightSum >= d * WeightSum(ps)
  {
    if ps != [] {
      var front, w := ps[..|ps|-1], ps[|ps|-1].spec.weight;
      SharesCover(front, d, weightSum);
      ShareBounds(d, w, weightSum);
      SumCovers(ShareSum(front, d, weightSum), Share(d, w, weightSum), weightSum, d, WeightSum(front), w);
    }
  }

  lemma CancelFactor(a: int, b: int, w: int)
    requires w > 0 && a * w >= b * w
    ensures a >= b
  {
  }

  /** The rounded-up shares of all clusters together are at least the amount to distribute. */
  lemma SharesAddUp(ps: seq<Preference>, d: int)
    requires WeightSum(ps) > 0 && d >= 0
    requires forall p :: p in ps ==> ValidSpec(p.spec)
    ensures ShareSum(ps, d, WeightSum(ps)) >= d
  {
    SharesCover(ps, d, WeightSum(ps));
    CancelFactor(ShareSum(ps, d, WeightSum(ps)), d, WeightSum(ps));
  }

  /** Replicas left unplaced, less the preallocation accounted for so far. */
  ghost function Shortfall(all: seq<Preference>, s: State, q: Progress): int {
    q.state.remaining - (Total(s.preallocated, all) - Total(q.state.preallocated, all))
  }

  lemma ShortfallStep(r: Request, all: seq<Preference>, p: Preference, d: int, weightSum: int, s: State, q: Progress, sum: int)
    requires ValidInput(r, all) && p in all && Sane(r, all, q.state)
    requires weightSum > 0 && d >= 0
    requires Total(q.state.preallocated, all) <= Total(s.preallocated, all)
    requires Shortfall(all, s, q) <= Max(0, d - sum)
    requires |AssignStep(r, p, d, weightSum, q).kept| > |q.kept|
    ensures Shortfall(all, s, AssignStep(r, p, d, weightSum, q))
         <= Max(0, d - (sum + Share(d, p.spec.weight, weightSum)))
  {
    AssignEffect(r, all, p, d, weightSum, q);
    AssignKeepsSane(r, all, p, d, weightSum, q);
    ShareBounds(d, p.spec.weight, weightSum);
  }

  lemma FrontOfPass(r: Request, all: seq<Preference>, ps: seq<Preference>, d: int, weightSum: int, s: State)
    requires LoopReady(r, all, ps, s) && ps != []
    requires weightSum > 0 && d == s.remaining > 0
    ensures LoopReady(r, all, ps[..|ps|-1], s)
    ensures var q := Assigned(r, ps[..|ps|-1], d, weightSum, s);
      && Sane(r, all, q.state)
      && Total(q.state.preallocated, all) <= Total(s.preallocated, all)
      && |q.kept| < |ps|
  {
    AssignedSoFar(r, all, ps[..|ps|-1], d, weightSum, s);
  }

  lemma {:induction false} ShortfallSoFar(r: Request, all: seq<Preference>, ps: seq<Preference>, d: int, weightSum: int, s: State)
    requires LoopReady(r, all, ps, s)
    requires weightSum > 0 && d == s.remaining > 0
    requires |Assigned(r, ps, d, weightSum, s).kept| == |ps|
    ensures Shortfall(all, s, Assigned(r, ps, d, weightSum, s)) <= Max(0, d - ShareSum(ps, d, weightSum))
  {
    if ps != [] {
      var front, p := ps[..|ps|-1], ps[|ps|-1];
      FrontOfPass(r, all, ps, d, weightSum, s);
      ShortfallSoFar(r, all, front, d, weightSum, s);
      ShortfallStep(r, all, p, d, weightSum, s, Assigned(r, front, d, weightSum, s), ShareSum(front, d, weightSum));
    }
  }

  /**
   A pass that fills no cluster leaves at most as many replicas unplaced as the
   preallocation it consumed.
   */
  lemma UnfilledPassPlacesAllButPreallocated(r: Request, all: seq<Preference>, ps: seq<Preference>, s: State)
    requires LoopReady(r, all, ps, s) && s.remaining > 0 && WeightSum(ps) > 0
    requires |Pass(r, ps, s).kept| == |ps|
    ensures Pass(r, ps, s).state.remaining
         <= Total(s.preallocated, all) - Total(Pass(r, ps, s).state.preallocated, all)
  {
    ShortfallSoFar(r, all, ps, s.remaining, WeightSum(ps), s);
    SharesAddUp(ps, s.remaining);
  }

  /**
   Without preallocation (as when rebalancing) every pass places everything or
   drops a full cluster, so one pass more than there are clusters is enough.
   */
  lemma {:induction false} FewPassesWhenRebalancing(r: Request, all: seq<Preference>, ps: seq<Preference>, s: State)
    requires LoopReady(r, all, ps, s) && Total(s.preallocated, all) == 0
    ensures Passes(r, all, ps, s) <= |ps| + 1
    decreases |ps|
  {
    if s.remaining > 0 {
      PassKeepsReady(r, all, ps, s);
      PassFacts(r, all, ps, s);
      var q := Pass(r, ps, s);
      TotalNonNegative(q.state.preallocated, all);
      if q.modified {
        if |q.kept| == |ps| {
          UnfilledPassPlacesAllButPreallocated(r, all, ps, s);
        } else {
          FewPassesWhenRebalancing(r, all, q.kept, q.state);
        }
      }
    }
  }
}
