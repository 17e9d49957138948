/**
 The vocabulary of the replica planner and, step by step, what each of its
 phases does to the planning state.  Planner.dfy ties the imperative
 algorithm to these functions; the other Planner files prove what the
 algorithm is for.
 */
module PlannerModel {
  import opened Collections

  datatype ClusterPreferences =
    ClusterPreferences(minReplicas: int, maxReplicas: Option<int>, weight: int)

  /** A cluster's preferences together with the name and the hash they are sorted by. */
  datatype Preference = Preference(name: string, hash: nat, spec: ClusterPreferences)

  /** What a planning call is given besides the list of clusters. */
  datatype Request =
    Request(total: int, rebalance: bool, current: map<string, int>, capacity: map<string, int>)

  datatype State = State(
    remaining: int,
    plan: map<string, int>,
    preallocated: map<string, int>,
    overflow: map<string, int>)

  /** The state of one distribution pass. */
  datatype Progress = Progress(state: State, kept: seq<Preference>, modified: bool)

  // ---------- Well-formed inputs ----------

  predicate Distinct(ps: seq<Preference>) {
    forall i, j :: 0 <= i < j < |ps| ==> ps[i].name != ps[j].name
  }

  predicate ValidSpec(spec: ClusterPreferences) {
    && 0 <= spec.weight
    && 0 <= spec.minReplicas
    && (spec.maxReplicas.Some? ==> spec.minReplicas <= spec.maxReplicas.value)
  }

  /** No capacity is assumed to be non-negative: the estimate is a difference that is never clamped. */
  predicate ValidInput(r: Request, ps: seq<Preference>) {
    && 0 <= r.total
    && Distinct(ps)
    && forall p :: p in ps ==> ValidSpec(p.spec)
  }

  predicate Listed(k: string, ps: seq<Preference>) {
    exists i :: 0 <= i < |ps| && ps[i].name == k
  }

  function Total(m: map<string, int>, ps: seq<Preference>): int {
    if ps == [] then 0 else Total(m, ps[..|ps|-1]) + At(m, ps[|ps|-1].name)
  }

  function WeightSum(ps: seq<Preference>): int {
    if ps == [] then 0 else WeightSum(ps[..|ps|-1]) + ps[|ps|-1].spec.weight
  }

  /** The value, lowered to the cluster's estimated capacity if it has one. */
  function CapAt(r: Request, name: string, v: int): int {
    if name in r.capacity then Min(v, r.capacity[name]) else v
  }

  function MaxAt(p: Preference, v: int): int {
    if p.spec.maxReplicas.Some? then Min(p.spec.maxReplicas.value, v) else v
  }

  // ---------- Minimum phase ----------

  function MinStep(r: Request, p: Preference, s: State): State {
    var min := CapAt(r, p.name, Min(p.spec.minReplicas, s.remaining));
    s.(remaining := s.remaining - min, plan := s.plan[p.name := min])
  }

  function MinPhase(r: Request, ps: seq<Preference>, s: State): State {
    if ps == [] then s else MinStep(r, ps[|ps|-1], MinPhase(r, ps[..|ps|-1], s))
  }

  // ---------- Preallocation phase ----------

  /** How many running replicas of the cluster its maximum and capacity allow it to keep. */
  function Keepable(r: Request, p: Preference): int
    requires p.name in r.current
  {
    CapAt(r, p.name, MaxAt(p, r.current[p.name]))
  }

  function PreStep(r: Request, p: Preference, s: State): State {
    var planned := At(s.plan, p.name);
    if p.name in r.current && r.current[p.name] > planned then
      var extra := Max(0, Min(Keepable(r, p) - planned, s.remaining));
      s.(remaining := s.remaining - extra,
         preallocated := s.preallocated[p.name := extra],
         plan := s.plan[p.name := extra + planned])
    else
      s
  }

  function PrePhase(r: Request, ps: seq<Preference>, s: State): State {
    if ps == [] then s else PreStep(r, ps[|ps|-1], PrePhase(r, ps[..|ps|-1], s))
  }

  // ---------- Distribution passes ----------

  /** The cluster's share of d replicas, fractions rounded up. */
  function Share(d: int, weight: int, weightSum: int): int
    requires weightSum > 0
  {
    (d * weight + weightSum - 1) / weightSum
  }

  function AssignStep(r: Request, p: Preference, d: int, weightSum: int, q: Progress): Progress
    requires weightSum > 0
  {
    var s := q.state;
    var start := At(s.plan, p.name);
    var share := Min(Share(d, p.spec.weight, weightSum), s.remaining);
    var prealloc := At(s.preallocated, p.name);
    var used := Min(share, prealloc);
    var wanted := start + (share - used);
    var allowed := MaxAt(p, wanted);
    var total := CapAt(r, p.name, allowed);
    var full := total < wanted;
    Progress(
      State(
        s.remaining - (total - start),
        s.plan[p.name := total],
        s.preallocated[p.name := prealloc - used],
        if total < allowed then s.overflow[p.name := allowed - total] else s.overflow),
      if full then q.kept else q.kept + [p],
      q.modified || used > 0 || total > start)
  }

  function Assigned(r: Request, ps: seq<Preference>, d: int, weightSum: int, s: State): Progress
    requires weightSum > 0
  {
    if ps == [] then Progress(s, [], false)
    else AssignStep(r, ps[|ps|-1], d, weightSum, Assigned(r, ps[..|ps|-1], d, weightSum, s))
  }

  /** One iteration of the distribution loop. */
  function Pass(r: Request, ps: seq<Preference>, s: State): Progress {
    if WeightSum(ps) > 0 then Assigned(r, ps, s.remaining, WeightSum(ps), s)
    else Progress(s, [], false)
  }
}
