/**
 What every single assignment keeps, and what one whole distribution pass achieves.
 `all` is the full sorted preference list; `ps` are the clusters still considered.
 */
module PlannerPass {
  import opened Collections
  import opened PlannerModel

  // ---------- Sums over the preference list ----------

  lemma PrefixDistinct(ps: seq<Preference>)
    requires Distinct(ps) && ps != []
    ensures Distinct(ps[..|ps|-1])
    ensures !Listed(ps[|ps|-1].name, ps[..|ps|-1])
  {
  }

  lemma {:induction false} TotalSet(m: map<string, int>, ps: seq<Preference>, k: string, v: int)
    requires Distinct(ps)
    ensures Total(m[k := v], ps) == Total(m, ps) + (if Listed(k, ps) then v - At(m, k) else 0)
  {
    if ps != [] {
      var front, last := ps[..|ps|-1], ps[|ps|-1];
      PrefixDistinct(ps);
      TotalSet(m, front, k, v);
      if Listed(k, front) {
        var i :| 0 <= i < |front| && front[i].name == k;
        assert ps[i].name == k;
      } else if Listed(k, ps) {
        assert last.name == k;
      } else {
        assert ps[|ps|-1].name != k;
      }
    }
  }

  lemma {:induction false} TotalNonNegative(m: map<string, int>, ps: seq<Preference>)
    requires forall k :: k in m ==> m[k] >= 0
    ensures Total(m, ps) >= 0
  {
    if ps != [] { TotalNonNegative(m, ps[..|ps|-1]); }
  }

  // ---------- The invariant of every phase ----------

  predicate Bounded(r: Request, p: Preference, v: int) {
    && (p.spec.maxReplicas.Some? ==> v <= p.spec.maxReplicas.value)
    && (p.name in r.capacity ==> v <= r.capacity[p.name])
  }

  /** The cluster can take no more: it sits at its maximum or at its estimated capacity. */
  predicate Saturated(r: Request, p: Preference, v: int) {
    || p.spec.maxReplicas == Some(v)
    || (p.name in r.capacity && r.capacity[p.name] == v)
  }

  /** Nothing is negative unless a negative capacity says so, and then it is exactly that capacity. */
  predicate Floored(r: Request, p: Preference, v: int) {
    if p.name in r.capacity && r.capacity[p.name] < 0 then v == r.capacity[p.name] else v >= 0
  }

  ghost predicate Sane(r: Request, all: seq<Preference>, s: State) {
    && s.remaining >= 0
    && Total(s.plan, all) + s.remaining == r.total
    && (forall p :: p in all ==> p.name in s.plan)
    && (forall p :: p in all ==> Bounded(r, p, s.plan[p.name]) && Floored(r, p, s.plan[p.name]))
    && (forall k :: k in s.preallocated ==> s.preallocated[k] >= 0)
  }

  /** Replicas not yet placed plus preallocated ones not yet accounted for: the loop's measure. */
  function Pending(all: seq<Preference>, s: State): int {
    s.remaining + Total(s.preallocated, all)
  }

  lemma ShareBounds(d: int, weight: int, weightSum: int)
    requires d >= 0 && weight >= 0 && weightSum > 0
    ensures Share(d, weight, weightSum) >= 0
    ensures d > 0 && weight > 0 ==> Share(d, weight, weightSum) >= 1
    ensures d * weight <= Share(d, weight, weightSum) * weightSum <= d * weight + weightSum - 1
  {
    var n := d * weight + weightSum - 1;
    assert d * weight >= 0;
    assert d > 0 && weight > 0 ==> d * weight >= 1;
    assert n == weightSum * (n / weightSum) + n % weightSum;
  }

  /** What one assignment does, told from outside. */
  lemma AssignEffect(r: Request, all: seq<Preference>, p: Preference, d: int, weightSum: int, q: Progress)
    requires ValidInput(r, all) && p in all && Sane(r, all, q.state)
    requires weightSum > 0 && d >= 0
    ensures
      var s, s' := q.state, AssignStep(r, p, d, weightSum, q).state;
      var share := Min(Share(d, p.spec.weight, weightSum), s.remaining);
      var used := At(s.preallocated, p.name) - At(s'.preallocated, p.name);
      && s.plan[p.name] <= s'.plan[p.name]
      && s'.remaining == s.remaining - (s'.plan[p.name] - s.plan[p.name])
      && 0 <= s'.remaining
      && 0 <= used == Min(share, At(s.preallocated, p.name))
      && Bounded(r, p, s'.plan[p.name]) && Floored(r, p, s'.plan[p.name])
      && (s'.plan[p.name] - s.plan[p.name] == share - used || Saturated(r, p, s'.plan[p.name]))
      && s'.plan[p.name] - s.plan[p.name] <= share - used
      && (|AssignStep(r, p, d, weightSum, q).kept| > |q.kept| ==> s'.plan[p.name] - s.plan[p.name] == share - used)
  {
    ShareBounds(d, p.spec.weight, weightSum);
  }

  lemma AssignKeepsSane(r: Request, all: seq<Preference>, p: Preference, d: int, weightSum: int, q: Progress)
    requires ValidInput(r, all) && p in all && Sane(r, all, q.state)
    requires weightSum > 0 && d >= 0
    ensures Sane(r, all, AssignStep(r, p, d, weightSum, q).state)
    ensures
      var q' := AssignStep(r, p, d, weightSum, q);
      && Pending(all, q'.state) <= Pending(all, q.state) - (if q'.modified && !q.modified then 1 else 0)
      && Total(q'.state.preallocated, all) - Total(q.state.preallocated, all)
         == At(q'.state.preallocated, p.name) - At(q.state.preallocated, p.name)
  {
    AssignEffect(r, all, p, d, weightSum, q);
    var s, s' := q.state, AssignStep(r, p, d, weightSum, q).state;
    var i :| 0 <= i < |all| && all[i] == p;
    assert Listed(p.name, all);
    TotalSet(s.plan, all, p.name, s'.plan[p.name]);
    TotalSet(s.preallocated, all, p.name, s'.preallocated[p.name]);
    assert Sane(r, all, s') by {
      forall o | o in all ensures Bounded(r, o, s'.plan[o.name]) && Floored(r, o, s'.plan[o.name]) {
        if o.name == p.name {
          var j :| 0 <= j < |all| && all[j] == o;
          assert i == j;
        }
      }
    }
  }

  // ---------- One pass ----------

  predicate Within(ps: seq<Preference>, all: seq<Preference>) {
    Distinct(ps) && forall p :: p in ps ==> p in all
  }

  ghost predicate Grown(all: seq<Preference>, s: State, s': State) {
    && s'.remaining <= s.remaining
    && Total(s'.preallocated, all) <= Total(s.preallocated, all)
    && forall p :: p in all ==> At(s.plan, p.name) <= At(s'.plan, p.name)
  }

  /** A cluster that is not in the list is left alone. */
  ghost predicate Untouched(ps: seq<Preference>, s: State, s': State) {
    forall k :: !Listed(k, ps) ==>
      && (k in s'.plan <==> k in s.plan)
      && At(s'.plan, k) == At(s.plan, k)
      && At(s'.preallocated, k) == At(s.preallocated, k)
  }

  /** A cluster is dropped only when it is saturated. */
  ghost predicate KeptWell(r: Request, ps: seq<Preference>, q: Progress) {
    && Within(q.kept, ps) && |q.kept| <= |ps|
    && forall p :: p in ps && p !in q.kept ==> Saturated(r, p, At(q.state.plan, p.name))
  }

  /** A pass that modifies nothing has found every cluster with a weight saturated. */
  ghost predicate IdleMeansSaturated(r: Request, ps: seq<Preference>, s: State, q: Progress) {
    !q.modified ==>
      && q.state.remaining == s.remaining
      && forall p :: p in ps && p.spec.weight > 0 ==> Saturated(r, p, At(q.state.plan, p.name))
  }

  /** The pass so far, over the clusters `ps` and from state `s`. */
  ghost predicate PassSoFar(r: Request, all: seq<Preference>, ps: seq<Preference>, s: State, q: Progress) {
    && Sane(r, all, q.state)
    && Grown(all, s, q.state)
    && Pending(all, q.state) <= Pending(all, s) - (if q.modified then 1 else 0)
    && Untouched(ps, s, q.state)
    && KeptWell(r, ps, q)
    && IdleMeansSaturated(r, ps, s, q)
  }

  lemma StepUntouched(r: Request, ps: seq<Preference>, d: int, weightSum: int, s: State, q: Progress)
    requires ps != [] && weightSum > 0
    requires Untouched(ps[..|ps|-1], s, q.state)
    ensures Untouched(ps, s, AssignStep(r, ps[|ps|-1], d, weightSum, q).state)
  {
    var front, p := ps[..|ps|-1], ps[|ps|-1];
    assert forall k :: !Listed(k, ps) ==> !Listed(k, front) && k != p.name;
  }

  lemma StepKept(r: Request, all: seq<Preference>, ps: seq<Preference>, d: int, weightSum: int, q: Progress)
    requires ValidInput(r, all) && Within(ps, all) && ps != []
    requires weightSum > 0 && d >= 0
    requires Sane(r, all, q.state)
    requires KeptWell(r, ps[..|ps|-1], q)
    ensures KeptWell(r, ps, AssignStep(r, ps[|ps|-1], d, weightSum, q))
  {
    var front, p := ps[..|ps|-1], ps[|ps|-1];
    var q' := AssignStep(r, p, d, weightSum, q);
    assert forall o :: o in front ==> o in ps && o.name != p.name;
    assert forall o :: o in ps ==> o in front || o == p;
    AssignEffect(r, all, p, d, weightSum, q);
    assert forall o :: o in q.kept ==> o in front;
  }

  lemma StepIdle(r: Request, all: seq<Preference>, ps: seq<Preference>, d: int, weightSum: int, s: State, q: Progress)
    requires ValidInput(r, all) && Within(ps, all) && ps != []
    requires weightSum > 0 && d == s.remaining > 0
    requires Sane(r, all, q.state)
    requires IdleMeansSaturated(r, ps[..|ps|-1], s, q)
    ensures IdleMeansSaturated(r, ps, s, AssignStep(r, ps[|ps|-1], d, weightSum, q))
  {
    var front, p := ps[..|ps|-1], ps[|ps|-1];
    assert forall o :: o in front ==> o.name != p.name;
    assert forall o :: o in ps ==> o in front || o == p;
    AssignEffect(r, all, p, d, weightSum, q);
    ShareBounds(d, p.spec.weight, weightSum);
  }

  lemma {:induction false} AssignedSoFar(r: Request, all: seq<Preference>, ps: seq<Preference>, d: int, weightSum: int, s: State)
    requires ValidInput(r, all) && Within(ps, all) && Sane(r, all, s)
    requires weightSum > 0 && d == s.remaining > 0
    ensures PassSoFar(r, all, ps, s, Assigned(r, ps, d, weightSum, s))
  {
    if ps != [] {
      var q := Assigned(r, ps[..|ps|-1], d, weightSum, s);
      AssignedSoFar(r, all, ps[..|ps|-1], d, weightSum, s);
      AssignEffect(r, all, ps[|ps|-1], d, weightSum, q);
      AssignKeepsSane(r, all, ps[|ps|-1], d, weightSum, q);
      StepUntouched(r, ps, d, weightSum, s, q);
      StepKept(r, all, ps, d, weightSum, q);
      StepIdle(r, all, ps, d, weightSum, s, q);
    }
  }

  lemma {:induction false} WeightsNonNegative(ps: seq<Preference>)
    requires forall p :: p in ps ==> ValidSpec(p.spec)
    ensures WeightSum(ps) >= 0
    ensures forall p :: p in ps ==> p.spec.weight <= WeightSum(ps)
  {
    if ps != [] { WeightsNonNegative(ps[..|ps|-1]); }
  }

  lemma PassFacts(r: Request, all: seq<Preference>, ps: seq<Preference>, s: State)
    requires ValidInput(r, all) && Within(ps, all) && Sane(r, all, s) && s.remaining > 0
    ensures var q := Pass(r, ps, s);
      && Sane(r, all, q.state)
      && Grown(all, s, q.state)
      && Pending(all, q.state) <= Pending(all, s) - (if q.modified then 1 else 0)
      && Untouched(ps, s, q.state)
      && Within(q.kept, ps) && |q.kept| <= |ps|
      && IdleMeansSaturated(r, ps, s, q)
      && (q.modified ==> KeptWell(r, ps, q))
      && (q.modified ==> WeightSum(ps) > 0)
  {
    WeightsNonNegative(ps);
    if WeightSum(ps) > 0 {
      AssignedSoFar(r, all, ps, s.remaining, WeightSum(ps), s);
    }
  }

  // ---------- The whole loop ----------

  ghost predicate LoopReady(r: Request, all: seq<Preference>, ps: seq<Preference>, s: State) {
    ValidInput(r, all) && Within(ps, all) && Sane(r, all, s)
  }

  lemma PassKeepsReady(r: Request, all: seq<Preference>, ps: seq<Preference>, s: State)
    requires LoopReady(r, all, ps, s) && s.remaining > 0
    ensures LoopReady(r, all, Pass(r, ps, s).kept, Pass(r, ps, s).state)
    ensures Pass(r, ps, s).modified ==> Pending(all, Pass(r, ps, s).state) < Pending(all, s)
    ensures Pending(all, s) >= s.remaining
  {
    PassFacts(r, all, ps, s);
    TotalNonNegative(s.preallocated, all);
    var q := Pass(r, ps, s);
    TotalNonNegative(q.state.preallocated, all);
  }

  /** The distribution loop: passes follow each other while they change something and replicas are left. */
  ghost function Distributed(r: Request, all: seq<Preference>, ps: seq<Preference>, s: State): State
    requires LoopReady(r, all, ps, s)
    decreases Max(0, Pending(all, s))
  {
    if s.remaining <= 0 then s
    else
      PassKeepsReady(r, all, ps, s);
      var q := Pass(r, ps, s);
      if q.modified then Distributed(r, all, q.kept, q.state) else q.state
  }

  /** How many passes the loop makes. */
  ghost function Passes(r: Request, all: seq<Preference>, ps: seq<Preference>, s: State): nat
    requires LoopReady(r, all, ps, s)
    decreases Max(0, Pending(all, s))
  {
    if s.remaining <= 0 then 0
    else
      PassKeepsReady(r, all, ps, s);
      var q := Pass(r, ps, s);
      1 + if q.modified then Passes(r, all, q.kept, q.state) else 0
  }

  lemma {:induction false} DistributedKeeps(r: Request, all: seq<Preference>, ps: seq<Preference>, s: State)
    requires LoopReady(r, all, ps, s)
    ensures Sane(r, all, Distributed(r, all, ps, s))
    ensures Grown(all, s, Distributed(r, all, ps, s))
    ensures Untouched(ps, s, Distributed(r, all, ps, s))
    decreases Max(0, Pending(all, s))
  {
    if s.remaining > 0 {
      PassKeepsReady(r, all, ps, s);
      PassFacts(r, all, ps, s);
      var q := Pass(r, ps, s);
      if q.modified {
        DistributedKeeps(r, all, q.kept, q.state);
        assert forall k :: !Listed(k, ps) ==> !Listed(k, q.kept);
      }
    }
  }

  /** Each pass that changes something takes at least one replica off the measure, so the loop is linear. */
  lemma {:induction false} LinearlyManyPasses(r: Request, all: seq<Preference>, ps: seq<Preference>, s: State)
    requires LoopReady(r, all, ps, s)
    ensures Passes(r, all, ps, s) <= s.remaining + Total(s.preallocated, all) + 1
    decreases Max(0, Pending(all, s))
  {
    TotalNonNegative(s.preallocated, all);
    if s.remaining > 0 {
      PassKeepsReady(r, all, ps, s);
      var q := Pass(r, ps, s);
      if q.modified { LinearlyManyPasses(r, all, q.kept, q.state); }
    }
  }

  /** A cluster outside the list still in play is saturated already. */
  ghost predicate OthersSaturated(r: Request, all: seq<Preference>, ps: seq<Preference>, s: State) {
    forall p :: p in all && p !in ps ==> Saturated(r, p, At(s.plan, p.name))
  }

  lemma DroppedAreSaturated(r: Request, all: seq<Preference>, ps: seq<Preference>, s: State)
    requires LoopReady(r, all, ps, s) && OthersSaturated(r, all, ps, s) && s.remaining > 0
    requires Pass(r, ps, s).modified
    ensures OthersSaturated(r, all, Pass(r, ps, s).kept, Pass(r, ps, s).state)
  {
    PassFacts(r, all, ps, s);
    var q := Pass(r, ps, s);
    forall o | o in all && o !in q.kept ensures Saturated(r, o, At(q.state.plan, o.name)) {
      if o !in ps { assert !Listed(o.name, ps); }
    }
  }

  lemma IdlePassFoundAllSaturated(r: Request, all: seq<Preference>, ps: seq<Preference>, s: State, p: Preference)
    requires LoopReady(r, all, ps, s) && OthersSaturated(r, all, ps, s) && s.remaining > 0
    requires !Pass(r, ps, s).modified && p in all && p.spec.weight > 0
    ensures Saturated(r, p, At(Pass(r, ps, s).state.plan, p.name))
  {
    PassFacts(r, all, ps, s);
    if p !in ps { assert !Listed(p.name, ps); }
  }

  /** Work conservation: replicas stay unplaced only when every cluster with a weight can take no more. */
  lemma {:induction false} LeftoverMeansSaturated(r: Request, all: seq<Preference>, ps: seq<Preference>, s: State, p: Preference)
    requires LoopReady(r, all, ps, s) && OthersSaturated(r, all, ps, s)
    requires Distributed(r, all, ps, s).remaining > 0
    requires p in all && p.spec.weight > 0
    ensures Saturated(r, p, At(Distributed(r, all, ps, s).plan, p.name))
    decreases Max(0, Pending(all, s))
  {
    DistributedKeeps(r, all, ps, s);
    PassKeepsReady(r, all, ps, s);
    var q := Pass(r, ps, s);
    if q.modified {
      DroppedAreSaturated(r, all, ps, s);
      LeftoverMeansSaturated(r, all, q.kept, q.state, p);
    } else {
      IdlePassFoundAllSaturated(r, all, ps, s, p);
    }
  }
}
