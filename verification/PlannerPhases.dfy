/**
 The invariant through the minimum and preallocation phases, the complete plan, and what
 follows for it: conservation, bounds, work conservation and the number of passes.
 */
module PlannerPhases {
  import opened Collections
  import opened PlannerModel
  import opened PlannerPass
  import opened PlannerRounding

  /** Clusters without preferences have been planned with zero; nothing else is in the plan yet. */
  predicate Fresh(zeros: map<string, int>, ps: seq<Preference>) {
    (forall k :: k in zeros ==> zeros[k] == 0) && forall p :: p in ps ==> p.name !in zeros
  }

  function Start(r: Request, zeros: map<string, int>): State {
    State(r.total, zeros, map[], map[])
  }

  lemma {:induction false} TotalOfUnlisted(m: map<string, int>, ps: seq<Preference>)
    requires forall p :: p in ps ==> p.name !in m
    ensures Total(m, ps) == 0
  {
    if ps != [] { TotalOfUnlisted(m, ps[..|ps|-1]); }
  }

  // ---------- Both phases keep the invariant at every assignment ----------

  lemma ListedSplit(ps: seq<Preference>)
    requires ps != []
    ensures forall k :: Listed(k, ps) <==> Listed(k, ps[..|ps|-1]) || k == ps[|ps|-1].name
  {
    forall k | Listed(k, ps[..|ps|-1]) || k == ps[|ps|-1].name ensures Listed(k, ps) {
      if k == ps[|ps|-1].name { assert ps[|ps|-1].name == k; }
      else { var i :| 0 <= i < |ps| - 1 && ps[..|ps|-1][i].name == k; assert ps[i].name == k; }
    }
    forall k | Listed(k, ps) && k != ps[|ps|-1].name ensures Listed(k, ps[..|ps|-1]) {
      var i :| 0 <= i < |ps| && ps[i].name == k;
      assert ps[..|ps|-1][i].name == k;
    }
  }

  /** The minimum phase plans exactly the listed clusters besides those already planned, and nothing else. */
  lemma {:induction false} MinPhaseCovers(r: Request, ps: seq<Preference>, zeros: map<string, int>)
    ensures var s := MinPhase(r, ps, Start(r, zeros));
      && s.preallocated == map[] && s.overflow == map[]
      && (forall k :: k in s.plan <==> k in zeros || Listed(k, ps))
      && (forall k :: !Listed(k, ps) ==> At(s.plan, k) == At(zeros, k))
  {
    if ps != [] {
      MinPhaseCovers(r, ps[..|ps|-1], zeros);
      ListedSplit(ps);
    }
  }

  lemma MinStepSane(r: Request, ps: seq<Preference>, s: State)
    requires ValidInput(r, ps) && ps != []
    requires Sane(r, ps[..|ps|-1], s) && s.preallocated == map[]
    ensures Sane(r, ps, MinStep(r, ps[|ps|-1], s))
  {
    var front, p := ps[..|ps|-1], ps[|ps|-1];
    var s' := MinStep(r, p, s);
    PrefixDistinct(ps);
    TotalSet(s.plan, front, p.name, s'.plan[p.name]);
    assert forall o :: o in ps ==> (o in front && o.name != p.name) || o == p;
    assert Total(s'.plan, ps) == Total(s'.plan, front) + s'.plan[p.name];
  }

  /** The minimum phase over any prefix of the list: conservation and bounds hold after each cluster. */
  lemma {:induction false} MinPhaseSane(r: Request, ps: seq<Preference>, zeros: map<string, int>)
    requires ValidInput(r, ps) && Fresh(zeros, ps)
    ensures Sane(r, ps, MinPhase(r, ps, Start(r, zeros)))
    ensures MinPhase(r, ps, Start(r, zeros)).preallocated == map[]
    ensures MinPhase(r, ps, Start(r, zeros)).overflow == map[]
  {
    MinPhaseCovers(r, ps, zeros);
    if ps != [] {
      MinPhaseSane(r, ps[..|ps|-1], zeros);
      MinStepSane(r, ps, MinPhase(r, ps[..|ps|-1], Start(r, zeros)));
    }
  }

  lemma PreStepSane(r: Request, all: seq<Preference>, p: Preference, s: State)
    requires ValidInput(r, all) && p in all && Sane(r, all, s)
    ensures Sane(r, all, PreStep(r, p, s))
    ensures PreStep(r, p, s).remaining <= s.remaining
    ensures PreStep(r, p, s).plan.Keys == s.plan.Keys
    ensures forall k :: At(PreStep(r, p, s).plan, k) >= At(s.plan, k)
    ensures forall k :: k != p.name ==> At(PreStep(r, p, s).plan, k) == At(s.plan, k)
  {
    var s' := PreStep(r, p, s);
    assert Listed(p.name, all);
    TotalSet(s.plan, all, p.name, s'.plan[p.name]);
    forall o | o in all ensures Bounded(r, o, s'.plan[o.name]) && Floored(r, o, s'.plan[o.name]) {
      if o.name == p.name { assert o == p; }
    }
  }

  /** Preallocation keeps conservation and bounds after each cluster, and only ever adds replicas. */
  lemma {:induction false} PrePhaseSane(r: Request, all: seq<Preference>, ps: seq<Preference>, s: State)
    requires ValidInput(r, all) && Within(ps, all) && Sane(r, all, s)
    ensures Sane(r, all, PrePhase(r, ps, s))
    ensures PrePhase(r, ps, s).remaining <= s.remaining
    ensures PrePhase(r, ps, s).overflow == s.overflow
    ensures PrePhase(r, ps, s).plan.Keys == s.plan.Keys
    ensures forall k :: At(PrePhase(r, ps, s).plan, k) >= At(s.plan, k)
    ensures forall k :: !Listed(k, ps) ==> At(PrePhase(r, ps, s).plan, k) == At(s.plan, k)
  {
    if ps != [] {
      PrePhaseSane(r, all, ps[..|ps|-1], s);
      PreStepSane(r, all, ps[|ps|-1], PrePhase(r, ps[..|ps|-1], s));
      ListedSplit(ps);
    }
  }

  // ---------- The plan ----------

  ghost function BeforeLoop(r: Request, all: seq<Preference>, zeros: map<string, int>): State {
    var s := MinPhase(r, all, Start(r, zeros));
    if r.rebalance then s else PrePhase(r, all, s)
  }

  lemma BeforeLoopReady(r: Request, all: seq<Preference>, zeros: map<string, int>)
    requires ValidInput(r, all) && Fresh(zeros, all)
    ensures LoopReady(r, all, all, BeforeLoop(r, all, zeros))
  {
    MinPhaseSane(r, all, zeros);
    PrePhaseSane(r, all, all, MinPhase(r, all, Start(r, zeros)));
  }

  /** The state in which planning ends, before the overflow is trimmed. */
  ghost function Planned(r: Request, all: seq<Preference>, zeros: map<string, int>): State
    requires ValidInput(r, all) && Fresh(zeros, all)
  {
    BeforeLoopReady(r, all, zeros);
    Distributed(r, all, all, BeforeLoop(r, all, zeros))
  }

  /** Conservation and bounds of the finished plan. */
  lemma PlanConserves(r: Request, all: seq<Preference>, zeros: map<string, int>)
    requires ValidInput(r, all) && Fresh(zeros, all)
    ensures Sane(r, all, Planned(r, all, zeros))
    ensures forall k :: k in zeros ==> At(Planned(r, all, zeros).plan, k) == 0
    ensures forall k :: k in Planned(r, all, zeros).plan <==> k in zeros || Listed(k, all)
  {
    var s := BeforeLoop(r, all, zeros);
    MinPhaseSane(r, all, zeros);
    MinPhaseCovers(r, all, zeros);
    PrePhaseSane(r, all, all, MinPhase(r, all, Start(r, zeros)));
    DistributedKeeps(r, all, all, s);
    assert forall k :: k in zeros ==> !Listed(k, all);
    forall k | Listed(k, all) ensures k in Planned(r, all, zeros).plan {
      var i :| 0 <= i < |all| && all[i].name == k;
      assert all[i] in all;
    }
  }

  /** A planned count is negative exactly where the estimated capacity is, and equals it there. */
  lemma NegativeExactlyWhereCapacityIs(r: Request, all: seq<Preference>, zeros: map<string, int>, p: Preference)
    requires ValidInput(r, all) && Fresh(zeros, all) && p in all
    ensures At(Planned(r, all, zeros).plan, p.name) < 0 <==> p.name in r.capacity && r.capacity[p.name] < 0
    ensures p.name in r.capacity && r.capacity[p.name] < 0 ==>
              At(Planned(r, all, zeros).plan, p.name) == r.capacity[p.name]
  {
    PlanConserves(r, all, zeros);
  }

  /** Work conservation over the whole plan. */
  lemma UnplacedOnlyWhenSaturated(r: Request, all: seq<Preference>, zeros: map<string, int>, p: Preference)
    requires ValidInput(r, all) && Fresh(zeros, all)
    requires Planned(r, all, zeros).remaining > 0
    requires p in all && p.spec.weight > 0
    ensures Saturated(r, p, At(Planned(r, all, zeros).plan, p.name))
  {
    BeforeLoopReady(r, all, zeros);
    LeftoverMeansSaturated(r, all, all, BeforeLoop(r, all, zeros), p);
  }

  /** The number of distribution passes of a whole planning call, in terms of its input. */
  lemma PlanningIsLinear(r: Request, all: seq<Preference>, zeros: map<string, int>)
    requires ValidInput(r, all) && Fresh(zeros, all)
    ensures LoopReady(r, all, all, BeforeLoop(r, all, zeros))
    ensures r.rebalance ==> Passes(r, all, all, BeforeLoop(r, all, zeros)) <= |all| + 1
    ensures CapacitiesNonNegative(r) ==> Passes(r, all, all, BeforeLoop(r, all, zeros)) <= r.total + 1
  {
    BeforeLoopReady(r, all, zeros);
    MinPhaseSane(r, all, zeros);
    var s1, s := MinPhase(r, all, Start(r, zeros)), BeforeLoop(r, all, zeros);
    TotalOfUnlisted(map[], all);
    if r.rebalance {
      FewPassesWhenRebalancing(r, all, all, s);
    }
    PrePhaseAccounts(r, all, all, s1);
    LinearlyManyPasses(r, all, all, s);
    if CapacitiesNonNegative(r) { TotalOfNonNegative(s1.plan, all); }
  }

  predicate CapacitiesNonNegative(r: Request) {
    forall k :: k in r.capacity ==> r.capacity[k] >= 0
  }

  lemma {:induction false} TotalOfNonNegative(m: map<string, int>, ps: seq<Preference>)
    requires forall p :: p in ps ==> At(m, p.name) >= 0
    ensures Total(m, ps) >= 0
    ensures forall p :: p in ps ==> At(m, p.name) <= Total(m, ps)
  {
    if ps != [] { TotalOfNonNegative(m, ps[..|ps|-1]); }
  }

  /** What preallocation hands out is exactly what it records. */
  lemma {:induction false} PrePhaseAccounts(r: Request, all: seq<Preference>, ps: seq<Preference>, s: State)
    requires ValidInput(r, all) && Within(ps, all) && Sane(r, all, s) && s.preallocated == map[]
    ensures Pending(all, PrePhase(r, ps, s)) == s.remaining
    ensures forall k :: k in PrePhase(r, ps, s).preallocated ==> Listed(k, ps)
  {
    if ps == [] {
      TotalOfUnlisted(map[], all);
    } else {
      var front, p := ps[..|ps|-1], ps[|ps|-1];
      var s' := PrePhase(r, front, s);
      PrePhaseAccounts(r, all, front, s);
      PrefixDistinct(ps);
      ListedSplit(ps);
      assert Listed(p.name, all);
      TotalSet(s'.preallocated, all, p.name, At(PreStep(r, p, s').preallocated, p.name));
    }
  }
}
