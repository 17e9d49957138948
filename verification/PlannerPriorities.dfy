/**
 Who gets replicas when there are not enough: the minimum phase and the
 preallocation phase both serve the sorted list greedily, which gives exact
 conditions for every minimum to be met and for no running replica to be moved.
 */
module PlannerPriorities {
  import opened Collections
  import opened PlannerModel
  import opened PlannerPass
  import opened PlannerPhases

  function CappedMin(r: Request, p: Preference): int {
    CapAt(r, p.name, p.spec.minReplicas)
  }

  function MinSum(r: Request, ps: seq<Preference>): int {
    if ps == [] then 0 else MinSum(r, ps[..|ps|-1]) + CappedMin(r, ps[|ps|-1])
  }

  /** Replicas left for a cluster when those before it ask for `asked` out of `amount`. */
  function Left(amount: int, asked: int): int {
    Max(0, amount - asked)
  }

  /** Replicas left after each cluster in turn was given its capped minimum as far as replicas lasted. */
  function LeftAfter(r: Request, ps: seq<Preference>): int {
    if ps == [] then r.total else Left(LeftAfter(r, ps[..|ps|-1]), CappedMin(r, ps[|ps|-1]))
  }

  // ---------- Minimum phase ----------

  lemma MinStepIsGreedy(r: Request, p: Preference, s: State)
    requires s.remaining >= 0
    ensures MinStep(r, p, s).remaining == Left(s.remaining, CappedMin(r, p))
    ensures At(MinStep(r, p, s).plan, p.name) == Min(CappedMin(r, p), s.remaining)
  {
  }

  lemma {:induction false} MinimumsLeave(r: Request, ps: seq<Preference>, zeros: map<string, int>)
    requires 0 <= r.total
    ensures MinPhase(r, ps, Start(r, zeros)).remaining == LeftAfter(r, ps) >= 0
  {
    if ps != [] {
      var front := ps[..|ps|-1];
      MinimumsLeave(r, front, zeros);
      MinStepIsGreedy(r, ps[|ps|-1], MinPhase(r, front, Start(r, zeros)));
    }
  }

  /** While no capacity is negative nothing is handed back, and the minimums add up. */
  lemma {:induction false} LeftAfterSum(r: Request, ps: seq<Preference>)
    requires 0 <= r.total && CapacitiesNonNegative(r)
    requires forall p :: p in ps ==> ValidSpec(p.spec)
    ensures LeftAfter(r, ps) == Left(r.total, MinSum(r, ps))
    ensures MinSum(r, ps) >= 0
  {
    if ps != [] {
      LeftAfterSum(r, ps[..|ps|-1]);
      assert ps[|ps|-1] in ps;
    }
  }

  /**
   The minimum phase is greedy in sorted order: each capped minimum as far as replicas last.  A
   negative capacity hands replicas to the clusters after it; without any, the sum of the minimums
   before a cluster says what it gets.
   */
  lemma {:induction false} MinPhaseIsGreedy(r: Request, ps: seq<Preference>, zeros: map<string, int>, i: nat)
    requires ValidInput(r, ps) && i < |ps|
    ensures At(MinPhase(r, ps, Start(r, zeros)).plan, ps[i].name) == Min(CappedMin(r, ps[i]), LeftAfter(r, ps[..i]))
    ensures CapacitiesNonNegative(r) ==>
      At(MinPhase(r, ps, Start(r, zeros)).plan, ps[i].name) == Min(CappedMin(r, ps[i]), Left(r.total, MinSum(r, ps[..i])))
    decreases |ps|
  {
    var front, p := ps[..|ps|-1], ps[|ps|-1];
    if CapacitiesNonNegative(r) { LeftAfterSum(r, ps[..i]); }
    if i < |front| {
      assert front[..i] == ps[..i] && front[i] == ps[i] && ps[i].name != p.name;
      MinPhaseIsGreedy(r, front, zeros, i);
    } else {
      MinimumsLeave(r, front, zeros);
      MinStepIsGreedy(r, p, MinPhase(r, front, Start(r, zeros)));
    }
  }

  ghost predicate AllAtLeastMin(r: Request, ps: seq<Preference>, plan: map<string, int>) {
    forall p :: p in ps ==> At(plan, p.name) >= CappedMin(r, p)
  }

  /** However far the sorted list is followed, the capped minimums up to there fit the total. */
  ghost predicate PrefixesFit(r: Request, ps: seq<Preference>) {
    forall i :: 0 <= i <= |ps| ==> MinSum(r, ps[..i]) <= r.total
  }

  lemma PrefixNext(r: Request, ps: seq<Preference>, i: nat)
    requires i < |ps|
    ensures MinSum(r, ps[..i+1]) == MinSum(r, ps[..i]) + CappedMin(r, ps[i])
    ensures LeftAfter(r, ps[..i+1]) == Left(LeftAfter(r, ps[..i]), CappedMin(r, ps[i]))
  {
    assert ps[..i+1][..i] == ps[..i];
  }

  lemma {:induction false} PrefixesFitWalk(r: Request, ps: seq<Preference>, i: nat)
    requires i <= |ps| && PrefixesFit(r, ps)
    ensures LeftAfter(r, ps[..i]) == r.total - MinSum(r, ps[..i])
  {
    if i > 0 {
      PrefixesFitWalk(r, ps, i - 1);
      PrefixNext(r, ps, i - 1);
    }
  }

  lemma {:induction false} ServedWalk(r: Request, ps: seq<Preference>, i: nat)
    requires i <= |ps| && 0 <= r.total
    requires forall j :: 0 <= j < |ps| ==> CappedMin(r, ps[j]) <= LeftAfter(r, ps[..j])
    ensures LeftAfter(r, ps[..i]) == r.total - MinSum(r, ps[..i]) >= 0
  {
    if i > 0 {
      ServedWalk(r, ps, i - 1);
      PrefixNext(r, ps, i - 1);
    }
  }

  /** Whatever the capacities, the minimum phase serves every minimum exactly when they fit as far as one follows the list. */
  lemma MinPhaseServesIffPrefixesFit(r: Request, ps: seq<Preference>, zeros: map<string, int>)
    requires ValidInput(r, ps)
    ensures AllAtLeastMin(r, ps, MinPhase(r, ps, Start(r, zeros)).plan) <==> PrefixesFit(r, ps)
  {
    var plan := MinPhase(r, ps, Start(r, zeros)).plan;
    forall i | 0 <= i < |ps| ensures At(plan, ps[i].name) == Min(CappedMin(r, ps[i]), LeftAfter(r, ps[..i])) {
      MinPhaseIsGreedy(r, ps, zeros, i);
    }
    if AllAtLeastMin(r, ps, plan) {
      forall i | 0 <= i < |ps| ensures CappedMin(r, ps[i]) <= LeftAfter(r, ps[..i]) {
        assert ps[i] in ps;
      }
      forall i | 0 <= i <= |ps| ensures MinSum(r, ps[..i]) <= r.total { ServedWalk(r, ps, i); }
    }
    if PrefixesFit(r, ps) {
      forall p | p in ps ensures At(plan, p.name) >= CappedMin(r, p) {
        var i :| 0 <= i < |ps| && ps[i] == p;
        PrefixesFitWalk(r, ps, i);
        PrefixNext(r, ps, i);
      }
    }
  }

  lemma {:induction false} MinSumGrows(r: Request, ps: seq<Preference>, i: nat)
    requires i <= |ps| && CapacitiesNonNegative(r)
    requires forall p :: p in ps ==> ValidSpec(p.spec)
    ensures 0 <= MinSum(r, ps[..i]) <= MinSum(r, ps)
    decreases |ps|
  {
    if i < |ps| {
      assert ps[..|ps|-1][..i] == ps[..i];
      MinSumGrows(r, ps[..|ps|-1], i);
    } else {
      assert ps[..i] == ps;
      if ps != [] { MinSumGrows(r, ps[..|ps|-1], |ps| - 1); assert ps[..|ps|-1][..|ps|-1] == ps[..|ps|-1]; }
    }
  }

  /** Where every planned count reaches a floor, the floors add up to no more than the total. */
  lemma {:induction false} FloorsWithinTotal(r: Request, ps: seq<Preference>, plan: map<string, int>)
    requires forall p :: p in ps ==> At(plan, p.name) >= CappedMin(r, p)
    ensures MinSum(r, ps) <= Total(plan, ps)
  {
    if ps != [] { FloorsWithinTotal(r, ps[..|ps|-1], plan); }
  }

  /** With nothing left after the phases, planning ends there. */
  lemma NothingLeftNothingChanges(r: Request, all: seq<Preference>, zeros: map<string, int>)
    requires ValidInput(r, all) && Fresh(zeros, all)
    requires BeforeLoop(r, all, zeros).remaining == 0
    ensures Planned(r, all, zeros) == BeforeLoop(r, all, zeros)
  {
    BeforeLoopReady(r, all, zeros);
  }

  /** Planning never takes back what the minimum phase gave. */
  lemma MinimumsStay(r: Request, all: seq<Preference>, zeros: map<string, int>, p: Preference)
    requires ValidInput(r, all) && Fresh(zeros, all) && p in all
    ensures At(MinPhase(r, all, Start(r, zeros)).plan, p.name) <= At(BeforeLoop(r, all, zeros).plan, p.name)
    ensures At(BeforeLoop(r, all, zeros).plan, p.name) <= At(Planned(r, all, zeros).plan, p.name)
  {
    BeforeLoopReady(r, all, zeros);
    MinPhaseSane(r, all, zeros);
    PrePhaseSane(r, all, all, MinPhase(r, all, Start(r, zeros)));
    DistributedKeeps(r, all, all, BeforeLoop(r, all, zeros));
  }

  /** Without negative capacities it is enough that all minimums together fit. */
  lemma SumMeansPrefixesFit(r: Request, all: seq<Preference>)
    requires ValidInput(r, all) && CapacitiesNonNegative(r) && MinSum(r, all) <= r.total
    ensures PrefixesFit(r, all)
  {
    forall i | 0 <= i <= |all| ensures MinSum(r, all[..i]) <= r.total { MinSumGrows(r, all, i); }
  }

  lemma MinimumsExact(r: Request, all: seq<Preference>, zeros: map<string, int>)
    requires ValidInput(r, all) && PrefixesFit(r, all)
    ensures forall p :: p in all ==> At(MinPhase(r, all, Start(r, zeros)).plan, p.name) == CappedMin(r, p)
    ensures MinPhase(r, all, Start(r, zeros)).remaining == r.total - MinSum(r, all)
  {
    MinimumsLeave(r, all, zeros);
    PrefixesFitWalk(r, all, |all|);
    assert all[..|all|] == all;
    forall p | p in all ensures At(MinPhase(r, all, Start(r, zeros)).plan, p.name) == CappedMin(r, p) {
      var i :| 0 <= i < |all| && all[i] == p;
      MinPhaseIsGreedy(r, all, zeros, i);
      PrefixesFitWalk(r, all, i);
      PrefixNext(r, all, i);
    }
  }

  /** Whatever the capacities, minimums that fit as far as one follows the list are met in the end. */
  lemma MinimumsMetIfPrefixesFit(r: Request, all: seq<Preference>, zeros: map<string, int>)
    requires ValidInput(r, all) && Fresh(zeros, all) && PrefixesFit(r, all)
    ensures AllAtLeastMin(r, all, Planned(r, all, zeros).plan)
  {
    MinPhaseServesIffPrefixesFit(r, all, zeros);
    forall p | p in all ensures At(Planned(r, all, zeros).plan, p.name) >= CappedMin(r, p) {
      MinimumsStay(r, all, zeros, p);
    }
  }

  /**
   Every cluster gets its minimum (as far as its capacity allows) if these minimums fit the total however far
   one follows the list, and only if all together do.  Without negative capacities that is the same.
   */
  lemma MinimumsMetIffTheyFit(r: Request, all: seq<Preference>, zeros: map<string, int>)
    requires ValidInput(r, all) && Fresh(zeros, all)
    ensures PrefixesFit(r, all) ==> AllAtLeastMin(r, all, Planned(r, all, zeros).plan)
    ensures AllAtLeastMin(r, all, Planned(r, all, zeros).plan) ==> MinSum(r, all) <= r.total
    ensures CapacitiesNonNegative(r) ==> (AllAtLeastMin(r, all, Planned(r, all, zeros).plan) <==> MinSum(r, all) <= r.total)
  {
    PlanConserves(r, all, zeros);
    if AllAtLeastMin(r, all, Planned(r, all, zeros).plan) {
      FloorsWithinTotal(r, all, Planned(r, all, zeros).plan);
    }
    if CapacitiesNonNegative(r) && MinSum(r, all) <= r.total { SumMeansPrefixesFit(r, all); }
    if PrefixesFit(r, all) { MinimumsMetIfPrefixesFit(r, all, zeros); }
  }

  /** None of the clusters sorted after the i-th one has a negative capacity. */
  ghost predicate NoneNegativeAfter(r: Request, all: seq<Preference>, i: nat) {
    forall k :: i < k < |all| && all[k].name in r.capacity ==> r.capacity[all[k].name] >= 0
  }

  lemma {:induction false} ExhaustedStays(r: Request, all: seq<Preference>, i: nat, j: nat)
    requires ValidInput(r, all) && i < j <= |all| && NoneNegativeAfter(r, all, i)
    requires LeftAfter(r, all[..i+1]) == 0
    ensures LeftAfter(r, all[..j]) == 0
  {
    if j > i + 1 {
      ExhaustedStays(r, all, i, j - 1);
      PrefixNext(r, all, j - 1);
      assert all[j-1] in all;
    }
  }

  /** A cluster missing its minimum exhausts the total before the clusters sorted after it are looked at. */
  lemma MissedMinimumExhausts(r: Request, all: seq<Preference>, zeros: map<string, int>, i: nat)
    requires ValidInput(r, all) && i < |all| && NoneNegativeAfter(r, all, i)
    requires At(MinPhase(r, all, Start(r, zeros)).plan, all[i].name) < CappedMin(r, all[i])
    ensures forall j :: i < j < |all| ==> At(MinPhase(r, all, Start(r, zeros)).plan, all[j].name) == 0
    ensures MinPhase(r, all, Start(r, zeros)).remaining == 0
  {
    MinimumsLeave(r, all, zeros);
    MinPhaseIsGreedy(r, all, zeros, i);
    PrefixNext(r, all, i);
    forall j | i < j < |all| ensures At(MinPhase(r, all, Start(r, zeros)).plan, all[j].name) == 0 {
      MinPhaseIsGreedy(r, all, zeros, j);
      ExhaustedStays(r, all, i, j);
      assert all[j] in all;
    }
    ExhaustedStays(r, all, i, |all|);
    assert all[..|all|] == all;
  }

  lemma NothingLeftNothingPreallocated(r: Request, ps: seq<Preference>, s: State)
    requires s.remaining == 0
    ensures PrePhase(r, ps, s).remaining == 0
    ensures forall k :: At(PrePhase(r, ps, s).plan, k) == At(s.plan, k)
  {
  }

  /**
   If some cluster misses its minimum, every cluster sorted after it ends with nothing exactly when none
   of those has a negative capacity, and then the whole total has been placed.
   */
  lemma MissedMinimumStarvesLater(r: Request, all: seq<Preference>, zeros: map<string, int>, i: nat)
    requires ValidInput(r, all) && Fresh(zeros, all) && i < |all|
    requires At(Planned(r, all, zeros).plan, all[i].name) < CappedMin(r, all[i])
    ensures (forall j :: i < j < |all| ==> At(Planned(r, all, zeros).plan, all[j].name) == 0) <==> NoneNegativeAfter(r, all, i)
    ensures NoneNegativeAfter(r, all, i) ==> Planned(r, all, zeros).remaining == 0
  {
    if NoneNegativeAfter(r, all, i) {
      MinimumsStay(r, all, zeros, all[i]);
      MissedMinimumExhausts(r, all, zeros, i);
      NothingLeftNothingPreallocated(r, all, MinPhase(r, all, Start(r, zeros)));
      NothingLeftNothingChanges(r, all, zeros);
    } else {
      var k :| i < k < |all| && all[k].name in r.capacity && r.capacity[all[k].name] < 0;
      NegativeExactlyWhereCapacityIs(r, all, zeros, all[k]);
    }
  }

  function Wanting(name: string, min: int): Preference {
    Preference(name, 0, ClusterPreferences(min, None, 0))
  }

  lemma MinPhaseOfThree(r: Request, a: Preference, b: Preference, c: Preference, zeros: map<string, int>)
    ensures MinPhase(r, [a, b, c], Start(r, zeros)) == MinStep(r, c, MinStep(r, b, MinStep(r, a, Start(r, zeros))))
  {
    assert [a, b, c][..2] == [a, b] && [a, b][..1] == [a] && [a][..0] == [];
    assert MinPhase(r, [a], Start(r, zeros)) == MinStep(r, a, Start(r, zeros));
    assert MinPhase(r, [a, b], Start(r, zeros)) == MinStep(r, b, MinStep(r, a, Start(r, zeros)));
  }

  /** A negative capacity upsets the priority: the first cluster misses its minimum, yet the last one gets all of its own. */
  lemma NegativeCapacityUpsetsPriority()
    ensures
      var r := Request(1, true, map[], map["b" := -3]);
      var all := [Wanting("a", 2), Wanting("b", 0), Wanting("c", 3)];
      && ValidInput(r, all) && Fresh(map[], all)
      && At(Planned(r, all, map[]).plan, "a") < CappedMin(r, all[0])
      && At(Planned(r, all, map[]).plan, "c") == CappedMin(r, all[2]) == 3
  {
    var r := Request(1, true, map[], map["b" := -3]);
    var a, b, c := Wanting("a", 2), Wanting("b", 0), Wanting("c", 3);
    MinPhaseOfThree(r, a, b, c, map[]);
    NothingLeftNothingChanges(r, [a, b, c], map[]);
  }

  // ---------- Preallocation phase ----------

  /** Replicas the cluster runs, may keep, and has not been planned yet. */
  function Need(r: Request, p: Preference, plan: map<string, int>): int {
    if p.name in r.current && r.current[p.name] > At(plan, p.name)
    then Max(0, Keepable(r, p) - At(plan, p.name))
    else 0
  }

  function NeedSum(r: Request, ps: seq<Preference>, plan: map<string, int>): int {
    if ps == [] then 0 else NeedSum(r, ps[..|ps|-1], plan) + Need(r, ps[|ps|-1], plan)
  }

  lemma {:induction false} NeedSumGrows(r: Request, ps: seq<Preference>, i: nat, plan: map<string, int>)
    requires i <= |ps|
    ensures 0 <= NeedSum(r, ps[..i], plan) <= NeedSum(r, ps, plan)
    decreases |ps|
  {
    if i < |ps| {
      assert ps[..|ps|-1][..i] == ps[..i];
      NeedSumGrows(r, ps[..|ps|-1], i, plan);
    } else {
      assert ps[..i] == ps;
      if ps != [] { NeedSumGrows(r, ps[..|ps|-1], |ps| - 1, plan); assert ps[..|ps|-1][..|ps|-1] == ps[..|ps|-1]; }
    }
  }

  lemma PreStepIsGreedy(r: Request, all: seq<Preference>, p: Preference, s: State, s': State, asked: int)
    requires Sane(r, all, s') && asked >= 0
    requires s'.remaining == Left(s.remaining, asked) && At(s'.plan, p.name) == At(s.plan, p.name)
    ensures PreStep(r, p, s').remaining == Left(s.remaining, asked + Need(r, p, s.plan))
    ensures At(PreStep(r, p, s').plan, p.name)
         == At(s.plan, p.name) + Min(Need(r, p, s.plan), Left(s.remaining, asked))
    ensures forall k :: k != p.name ==> At(PreStep(r, p, s').plan, k) == At(s'.plan, k)
  {
  }

  lemma FrontOfPrePhase(r: Request, all: seq<Preference>, ps: seq<Preference>, s: State)
    requires ValidInput(r, all) && Within(ps, all) && Sane(r, all, s) && ps != []
    ensures Within(ps[..|ps|-1], all) && Sane(r, all, PrePhase(r, ps[..|ps|-1], s))
    ensures At(PrePhase(r, ps[..|ps|-1], s).plan, ps[|ps|-1].name) == At(s.plan, ps[|ps|-1].name)
    ensures NeedSum(r, ps[..|ps|-1], s.plan) >= 0
  {
    PrefixDistinct(ps);
    PrePhaseSane(r, all, ps[..|ps|-1], s);
    NeedSumGrows(r, ps, |ps| - 1, s.plan);
  }

  lemma {:induction false} PreallocationLeaves(r: Request, all: seq<Preference>, ps: seq<Preference>, s: State)
    requires ValidInput(r, all) && Within(ps, all) && Sane(r, all, s)
    ensures PrePhase(r, ps, s).remaining == Left(s.remaining, NeedSum(r, ps, s.plan))
  {
    if ps != [] {
      var front := ps[..|ps|-1];
      FrontOfPrePhase(r, all, ps, s);
      PreallocationLeaves(r, all, front, s);
      PreStepIsGreedy(r, all, ps[|ps|-1], s, PrePhase(r, front, s), NeedSum(r, front, s.plan));
    }
  }

  /** The preallocation phase in closed form: greedy in sorted order, each need as far as replicas last. */
  lemma {:induction false} PrePhaseIsGreedy(r: Request, all: seq<Preference>, ps: seq<Preference>, s: State, i: nat)
    requires ValidInput(r, all) && Within(ps, all) && Sane(r, all, s) && i < |ps|
    ensures PrePhase(r, ps, s).remaining == Left(s.remaining, NeedSum(r, ps, s.plan))
    ensures At(PrePhase(r, ps, s).plan, ps[i].name)
         == At(s.plan, ps[i].name) + Min(Need(r, ps[i], s.plan), Left(s.remaining, NeedSum(r, ps[..i], s.plan)))
    decreases |ps|
  {
    var front, p := ps[..|ps|-1], ps[|ps|-1];
    FrontOfPrePhase(r, all, ps, s);
    PreallocationLeaves(r, all, ps, s);
    PreallocationLeaves(r, all, front, s);
    PreStepIsGreedy(r, all, p, s, PrePhase(r, front, s), NeedSum(r, front, s.plan));
    if i < |front| {
      assert front[..i] == ps[..i] && front[i] == ps[i] && ps[i].name != p.name;
      PrePhaseIsGreedy(r, all, front, s, i);
    }
  }

  // ---------- Not moving running replicas ----------

  /** What the cluster should end with at least: its minimum and the running replicas it may keep. */
  function KeepFloor(r: Request, p: Preference): int {
    if p.name in r.current then Max(CappedMin(r, p), Keepable(r, p)) else CappedMin(r, p)
  }

  function KeepSum(r: Request, ps: seq<Preference>): int {
    if ps == [] then 0 else KeepSum(r, ps[..|ps|-1]) + KeepFloor(r, ps[|ps|-1])
  }

  lemma {:induction false} KeepSumBounds(r: Request, ps: seq<Preference>, plan: map<string, int>)
    ensures MinSum(r, ps) <= KeepSum(r, ps)
    ensures (forall p :: p in ps ==> At(plan, p.name) >= KeepFloor(r, p)) ==> KeepSum(r, ps) <= Total(plan, ps)
    ensures (forall p :: p in ps ==> At(plan, p.name) == CappedMin(r, p)) ==>
              NeedSum(r, ps, plan) == KeepSum(r, ps) - MinSum(r, ps)
  {
    if ps != [] { KeepSumBounds(r, ps[..|ps|-1], plan); }
  }

  ghost predicate AllKept(r: Request, ps: seq<Preference>, plan: map<string, int>) {
    forall p :: p in ps ==> At(plan, p.name) >= KeepFloor(r, p)
  }

  /** When everything to be kept fits, so does what is left to preallocate after the minimums. */
  lemma NeedsFit(r: Request, all: seq<Preference>, zeros: map<string, int>, p: Preference)
    requires ValidInput(r, all) && Fresh(zeros, all) && PrefixesFit(r, all)
    requires KeepSum(r, all) <= r.total && p in all
    ensures var s := MinPhase(r, all, Start(r, zeros));
      && Sane(r, all, s)
      && NeedSum(r, all, s.plan) <= s.remaining
      && At(s.plan, p.name) == CappedMin(r, p)
  {
    KeepSumBounds(r, all, MinPhase(r, all, Start(r, zeros)).plan);
    MinimumsExact(r, all, zeros);
    MinPhaseSane(r, all, zeros);
  }

  lemma NeedServedWhenAllFit(r: Request, all: seq<Preference>, s: State, i: nat)
    requires ValidInput(r, all) && Sane(r, all, s) && i < |all|
    requires NeedSum(r, all, s.plan) <= s.remaining
    ensures At(PrePhase(r, all, s).plan, all[i].name) == At(s.plan, all[i].name) + Need(r, all[i], s.plan)
  {
    PrePhaseIsGreedy(r, all, all, s, i);
    NeedSumGrows(r, all, i + 1, s.plan);
    assert all[..i+1][..i] == all[..i];
  }

  lemma RunningKeptIfTheyFit(r: Request, all: seq<Preference>, zeros: map<string, int>, p: Preference)
    requires ValidInput(r, all) && Fresh(zeros, all) && PrefixesFit(r, all) && !r.rebalance
    requires KeepSum(r, all) <= r.total && p in all
    ensures At(Planned(r, all, zeros).plan, p.name) >= KeepFloor(r, p)
  {
    NeedsFit(r, all, zeros, p);
    var i :| 0 <= i < |all| && all[i] == p;
    NeedServedWhenAllFit(r, all, MinPhase(r, all, Start(r, zeros)), i);
    MinimumsStay(r, all, zeros, p);
  }

  /**
   No needless moves: without rebalancing, every cluster keeps its minimum and all the running replicas its
   maximum and capacity allow only if all of that fits the requested total, and, where the minimums fit
   however far one follows the list, exactly then.  Without negative capacities they always do.
   */
  lemma RunningKeptIffTheyFit(r: Request, all: seq<Preference>, zeros: map<string, int>)
    requires ValidInput(r, all) && Fresh(zeros, all) && !r.rebalance
    ensures AllKept(r, all, Planned(r, all, zeros).plan) ==> KeepSum(r, all) <= r.total
    ensures CapacitiesNonNegative(r) && KeepSum(r, all) <= r.total ==> PrefixesFit(r, all)
    ensures PrefixesFit(r, all) || CapacitiesNonNegative(r) ==>
      (AllKept(r, all, Planned(r, all, zeros).plan) <==> KeepSum(r, all) <= r.total)
  {
    PlanConserves(r, all, zeros);
    KeepSumBounds(r, all, Planned(r, all, zeros).plan);
    if CapacitiesNonNegative(r) && KeepSum(r, all) <= r.total { SumMeansPrefixesFit(r, all); }
    if PrefixesFit(r, all) && KeepSum(r, all) <= r.total {
      forall p | p in all ensures At(Planned(r, all, zeros).plan, p.name) >= KeepFloor(r, p) {
        RunningKeptIfTheyFit(r, all, zeros, p);
      }
    }
  }

  lemma RoomMeansKept(r: Request, all: seq<Preference>, s: State, p: Preference)
    requires ValidInput(r, all) && Sane(r, all, s)
    requires p in all && p.name in r.current
    requires PrePhase(r, all, s).remaining > 0
    ensures At(PrePhase(r, all, s).plan, p.name) >= Keepable(r, p)
  {
    var i :| 0 <= i < |all| && all[i] == p;
    PrePhaseIsGreedy(r, all, all, s, i);
    NeedSumGrows(r, all, i + 1, s.plan);
    assert all[..i+1][..i] == all[..i];
  }

  /** Where a running replica is given up without rebalancing, everything requested has been placed. */
  lemma RunningMovedOnlyWhenAllPlaced(r: Request, all: seq<Preference>, zeros: map<string, int>, p: Preference)
    requires ValidInput(r, all) && Fresh(zeros, all) && !r.rebalance
    requires p in all && p.name in r.current
    requires At(Planned(r, all, zeros).plan, p.name) < Keepable(r, p)
    ensures Planned(r, all, zeros).remaining == 0
    ensures Total(Planned(r, all, zeros).plan, all) == r.total
  {
    MinPhaseSane(r, all, zeros);
    BeforeLoopReady(r, all, zeros);
    MinimumsStay(r, all, zeros, p);
    if BeforeLoop(r, all, zeros).remaining > 0 {
      RoomMeansKept(r, all, MinPhase(r, all, Start(r, zeros)), p);
    }
    NothingLeftNothingChanges(r, all, zeros);
    PlanConserves(r, all, zeros);
  }
}
