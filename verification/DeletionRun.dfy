/**
 Whole runs of a template's life: clusters come, go and change readiness, objects are propagated
 and deleted, the stores of the informers lag behind, and the template is finally released.
 Which objects outlive their template is decided by the state in which it is released.
 */
module DeletionRun {
  import opened Collections
  import opened Deletion

  /**
   A cluster that is or once was registered: whether it is and is ready, whether it holds the object, how
   many creations of it are on their way there, and what the store of its running informer says, if that
   has synced since it was started.  An update on its way is none of these: it cannot bring back an
   object that is gone.
   */
  datatype Member = Member(registered: bool, ready: bool, holds: bool, writes: nat, seen: Option<bool>)

  /**
   The template as the API server has it.  `noticed` says that the controller's cache shows the
   deletion, and `orphaned` remembers a release that was to orphan the objects.
   */
  datatype Life = Life(
    members: map<string, Member>,
    present: bool,
    finalizers: set<string>,
    deleting: bool,
    noticed: bool,
    orphaned: bool)

  datatype Step =
    | Ensure                        // both finalizers are put on the template
    | Propagate(cluster: string)    // the object is written to a ready cluster
    | Send(cluster: string)         // a creation is sent but does not finish in time
    | Land(cluster: string)         // a creation that was sent takes effect after all
    | Drop(cluster: string)         // a creation that was sent never takes effect
    | DeleteCopy(cluster: string)   // the object is deleted in the cluster
    | Observe(cluster: string)      // the cluster's store catches up
    | Join(cluster: string, ready: bool)   // the cluster is registered, perhaps again
    | Leave(cluster: string)               // it is unregistered, which deletes nothing in it
    | SetReady(cluster: string, ready: bool)
    | AskDelete(orphan: bool)       // the user deletes the template, the server keeps or removes the orphan finalizer
    | Notice                        // the controller's cache shows the deletion
    | Release                       // the controller releases the delete finalizer
    | Vanish                        // without finalizers the template goes away

  function Registered(l: Life): set<string> {
    set n | n in l.members && l.members[n].registered
  }

  function Ready(l: Life): set<string> {
    set n | n in l.members && l.members[n].registered && l.members[n].ready
  }

  function Unready(l: Life): set<string> {
    set n | n in l.members && l.members[n].registered && !l.members[n].ready
  }

  /** The running informers whose store shows the object. */
  function Holders(l: Life): set<string> {
    set n | n in Ready(l) && l.members[n].seen == Some(true)
  }

  /** Every running informer has synced once; its store may have fallen behind since. */
  predicate StoresSynced(l: Life) {
    forall n :: n in Ready(l) ==> l.members[n].seen.Some?
  }

  /** The controller still propagates: it has put on the finalizer and knows of no deletion, though there may be one. */
  predicate Propagating(l: Life) {
    l.present && !l.noticed && DELETE_FINALIZER in l.finalizers
  }

  function With(l: Life, c: string, m: Member): Life {
    l.(members := l.members[c := m])
  }

  ghost predicate Releasable(l: Life) {
    && l.present && l.deleting && l.noticed && StoresSynced(l)
    && DELETE_FINALIZER in l.finalizers
    && MayRelease(l.finalizers, Unready(l), Ready(l), Holders(l), {})
  }

  ghost predicate Next(l: Life, s: Step, l': Life) {
    match s
    case Ensure => l.present && !l.deleting && l' == l.(finalizers := l.finalizers + {DELETE_FINALIZER, ORPHAN_FINALIZER})
    case Propagate(c) => Propagating(l) && c in Ready(l) && l' == With(l, c, l.members[c].(holds := true))
    case Send(c) => Propagating(l) && c in Ready(l) && l' == With(l, c, l.members[c].(writes := l.members[c].writes + 1))
    case Land(c) =>
      c in l.members && l.members[c].writes > 0
      && l' == With(l, c, l.members[c].(writes := l.members[c].writes - 1, holds := true))
    case Drop(c) =>
      c in l.members && l.members[c].writes > 0 && l' == With(l, c, l.members[c].(writes := l.members[c].writes - 1))
    case DeleteCopy(c) => c in l.members && l' == With(l, c, l.members[c].(holds := false))
    case Observe(c) => c in Ready(l) && l' == With(l, c, l.members[c].(seen := Some(l.members[c].holds)))
    case Join(c, ready) =>
      c !in Registered(l)
      && l' == With(l, c, if c in l.members then l.members[c].(registered := true, ready := ready, seen := None)
                          else Member(true, ready, false, 0, None))
    case Leave(c) => c in Registered(l) && l' == With(l, c, l.members[c].(registered := false, ready := false, seen := None))
    case SetReady(c, ready) => c in Registered(l) && l' == With(l, c, l.members[c].(ready := ready, seen := None))
    case AskDelete(orphan) =>
      l.present && !l.deleting
      && l' == l.(deleting := true, finalizers := if orphan then l.finalizers else l.finalizers - {ORPHAN_FINALIZER})
    case Notice => l.deleting && l' == l.(noticed := true)
    case Release =>
      Releasable(l)
      && l' == l.(finalizers := l.finalizers - {DELETE_FINALIZER, ORPHAN_FINALIZER},
                  orphaned := ORPHAN_FINALIZER in l.finalizers)
    case Vanish =>
      l.present && l.deleting && l.finalizers == {} && l' == l.(present := false)
  }

  /** Nobody holds the object, nothing is on its way, and the template has just been made. */
  ghost predicate Initial(l: Life) {
    l.present && !l.deleting && !l.noticed && !l.orphaned && l.finalizers == {}
    && forall n :: n in l.members ==> !l.members[n].holds && l.members[n].writes == 0
  }

  ghost predicate Path(ls: seq<Life>, steps: seq<Step>) {
    && |ls| == |steps| + 1
    && forall i :: 0 <= i < |steps| ==> Next(ls[i], steps[i], ls[i+1])
  }

  ghost predicate Run(ls: seq<Life>, steps: seq<Step>) {
    Path(ls, steps) && Initial(ls[0])
  }

  predicate NothingOnItsWay(l: Life) {
    forall n :: n in l.members ==> l.members[n].writes == 0
  }

  predicate NothingLeft(l: Life) {
    forall n :: n in l.members ==> !l.members[n].holds
  }

  /** The template is gone, was not to orphan its objects, and yet a registered cluster holds one. */
  ghost predicate Outlived(l: Life) {
    !l.present && !l.orphaned && exists n :: n in Registered(l) && l.members[n].holds
  }

  /**
   A creation is on its way to the cluster, or it holds an object that no store can show: its own, though
   synced, is behind, or the cluster is not registered any more.
   */
  predicate Hides(m: Member) {
    m.writes > 0 || (m.holds && (!m.registered || m.seen == Some(false)))
  }

  ghost predicate Exposed(l: Life) {
    exists n :: n in l.members && Hides(l.members[n])
  }

  /** The release of objects that are not to be orphaned. */
  ghost predicate Releases(l: Life, s: Step) {
    s.Release? && ORPHAN_FINALIZER !in l.finalizers
  }

  // ---------- Safety ----------

  /** What holds in every state: who may still propagate, and which finalizers there are. */
  ghost predicate Orderly(l: Life) {
    && (l.noticed ==> l.deleting)
    && l.finalizers <= {DELETE_FINALIZER, ORPHAN_FINALIZER}
    && (!l.present || l.orphaned ==> l.deleting && DELETE_FINALIZER !in l.finalizers)
  }

  lemma {:induction false} RunsAreOrderly(ls: seq<Life>, steps: seq<Step>, i: nat)
    requires Run(ls, steps) && i < |ls|
    ensures Orderly(ls[i])
  {
    if i > 0 {
      RunsAreOrderly(ls, steps, i - 1);
      assert Next(ls[i-1], steps[i-1], ls[i]);
    }
  }

  /** A cluster that stands in nobody's way and hides nothing holds nothing. */
  lemma UnexposedHoldsNothing(l: Life)
    requires Releasable(l) && ORPHAN_FINALIZER !in l.finalizers
    ensures Exposed(l) <==> !(NothingLeft(l) && NothingOnItsWay(l))
  {
    forall n | n in Registered(l) ensures l.members[n].ready && l.members[n].seen == Some(false) {
      assert n !in Unready(l);
      assert n in Ready(l) && !HeldAnywhere(Ready(l), Holders(l), {});
      assert n !in Holders(l) && l.members[n].seen.Some?;
      assert !l.members[n].seen.value;
    }
    forall n | n in l.members ensures Hides(l.members[n]) <==> l.members[n].holds || l.members[n].writes > 0 {
      assert l.members[n].registered ==> n in Registered(l);
    }
  }

  /** Objects and writes are only out there while the finalizer protects them, unless they were orphaned. */
  ghost predicate Covered(l: Life) {
    (l.present && DELETE_FINALIZER in l.finalizers) || l.orphaned || (NothingLeft(l) && NothingOnItsWay(l))
  }

  lemma StepKeepsCovered(l: Life, s: Step, l': Life)
    requires Covered(l) && Next(l, s, l') && (Releases(l, s) ==> !Exposed(l))
    ensures Covered(l')
  {
    if Releases(l, s) { UnexposedHoldsNothing(l); }
  }

  lemma {:induction false} RunsAreCovered(ls: seq<Life>, steps: seq<Step>, i: nat)
    requires Run(ls, steps) && i < |ls|
    requires forall k :: 0 <= k < |steps| && Releases(ls[k], steps[k]) ==> !Exposed(ls[k])
    ensures Covered(ls[i])
  {
    if i > 0 {
      RunsAreCovered(ls, steps, i - 1);
      assert Next(ls[i-1], steps[i-1], ls[i]);
      StepKeepsCovered(ls[i-1], steps[i-1], ls[i]);
    }
  }

  /**
   Deletion safety over whole runs: unless the finalizer is released while a creation is on its way or a
   cluster holds an object that no store shows, no object outlives its template.
   */
  lemma NoObjectOutlivesItsTemplate(ls: seq<Life>, steps: seq<Step>, i: nat)
    requires Run(ls, steps) && i < |ls|
    requires forall k :: 0 <= k < |steps| && Releases(ls[k], steps[k]) ==> !Exposed(ls[k])
    ensures !Outlived(ls[i])
  {
    RunsAreCovered(ls, steps, i);
    RunsAreOrderly(ls, steps, i);
  }

  // ---------- The exact condition ----------

  /** Released, with nothing left to come. */
  predicate Settled(l: Life) {
    l.deleting && DELETE_FINALIZER !in l.finalizers && NothingLeft(l) && NothingOnItsWay(l)
  }

  lemma {:induction false} SettledStays(ls: seq<Life>, steps: seq<Step>, i: nat)
    requires Path(ls, steps) && i < |ls| && Settled(ls[0])
    ensures Settled(ls[i])
  {
    if i > 0 {
      SettledStays(ls, steps, i - 1);
      assert Next(ls[i-1], steps[i-1], ls[i]);
    }
  }

  /** Releasing now can be followed by steps after which an object has outlived its template. */
  ghost predicate CanOutlive(l: Life) {
    exists ls: seq<Life>, steps: seq<Step> ::
      Path(ls, steps) && steps != [] && ls[0] == l && steps[0].Release? && Outlived(ls[|ls|-1])
  }

  function Released(l: Life): Life {
    l.(finalizers := l.finalizers - {DELETE_FINALIZER, ORPHAN_FINALIZER}, orphaned := ORPHAN_FINALIZER in l.finalizers)
  }

  lemma ExposedCanOutlive(l: Life)
    requires Orderly(l) && Releasable(l) && ORPHAN_FINALIZER !in l.finalizers && Exposed(l)
    ensures CanOutlive(l)
  {
    var n :| n in l.members && Hides(l.members[n]);
    var l1 := Released(l);
    var l2 := l1.(present := false);
    assert Next(l, Release, l1);
    assert Next(l1, Vanish, l2);
    assert Path([l, l1, l2], [Release, Vanish]);
    if !l.members[n].holds {
      var l3 := With(l2, n, l2.members[n].(writes := l2.members[n].writes - 1, holds := true));
      assert Next(l2, Land(n), l3);
      assert Path([l, l1, l2, l3], [Release, Vanish, Land(n)]);
      HeldCanReturn([l, l1, l2, l3], [Release, Vanish, Land(n)], n);
    } else {
      HeldCanReturn([l, l1, l2], [Release, Vanish], n);
    }
  }

  /** Once the template is gone, a cluster that holds its object need at most be registered again. */
  lemma HeldCanReturn(ls: seq<Life>, steps: seq<Step>, n: string)
    requires Path(ls, steps) && steps != [] && steps[0].Release?
    requires var l := ls[|ls|-1]; !l.present && !l.orphaned && n in l.members && l.members[n].holds
    ensures CanOutlive(ls[0])
  {
    var l := ls[|ls|-1];
    if l.members[n].registered {
      assert n in Registered(l);
      assert Outlived(l);
    } else {
      var l' := With(l, n, l.members[n].(registered := true, ready := true, seen := None));
      assert Next(l, Join(n, true), l');
      var ls', steps' := ls + [l'], steps + [Join(n, true)];
      forall i | 0 <= i < |steps'| ensures Next(ls'[i], steps'[i], ls'[i+1]) {
        if i < |steps| { assert Next(ls[i], steps[i], ls[i+1]); }
      }
      assert Path(ls', steps');
      assert n in Registered(l');
      assert Outlived(l');
    }
  }

  lemma UnexposedCannotOutlive(l: Life)
    requires Releasable(l) && ORPHAN_FINALIZER !in l.finalizers && !Exposed(l)
    ensures !CanOutlive(l)
  {
    UnexposedHoldsNothing(l);
    forall ls: seq<Life>, steps: seq<Step>
      | Path(ls, steps) && steps != [] && ls[0] == l && steps[0].Release?
      ensures !Outlived(ls[|ls|-1])
    {
      assert Next(ls[0], steps[0], ls[1]);
      assert Path(ls[1..], steps[1..]) by {
        forall i | 0 <= i < |steps[1..]| ensures Next(ls[1..][i], steps[1..][i], ls[1..][i+1]) {
          assert Next(ls[i+1], steps[i+1], ls[i+2]);
        }
      }
      SettledStays(ls[1..], steps[1..], |ls| - 2);
    }
  }

  /**
   At every release in every run that is not to orphan the objects: an object can outlive the template
   exactly when, at that moment, a creation is on its way, a store is behind the object its cluster holds,
   or a cluster has left with it.
   */
  lemma OutlivesExactlyWhenExposed(ls: seq<Life>, steps: seq<Step>, i: nat)
    requires Run(ls, steps) && i < |ls|
    requires Releasable(ls[i]) && ORPHAN_FINALIZER !in ls[i].finalizers
    ensures CanOutlive(ls[i]) <==> Exposed(ls[i])
  {
    RunsAreOrderly(ls, steps, i);
    if Exposed(ls[i]) { ExposedCanOutlive(ls[i]); } else { UnexposedCannotOutlive(ls[i]); }
  }

  // ---------- All kinds of exposure occur ----------

  lemma FinalizersDiffer()
    ensures DELETE_FINALIZER != ORPHAN_FINALIZER
  {
    assert |DELETE_FINALIZER| != |ORPHAN_FINALIZER|;
  }

  lemma ExposedAlone(l: Life, c: string)
    requires l.members.Keys == {c} && Hides(l.members[c])
    requires l.members[c].registered ==> l.members[c].ready && l.members[c].seen == Some(false)
    requires l.present && l.deleting && l.noticed && l.finalizers == {DELETE_FINALIZER}
    ensures Releasable(l) && ORPHAN_FINALIZER !in l.finalizers && Exposed(l)
  {
    FinalizersDiffer();
    assert c in l.members;
    assert Unready(l) == {} && Holders(l) == {};
  }

  /** The common course of both runs: the cluster's store has synced empty, `step` writes, and the template is deleted. */
  lemma ExposedRun(c: string, step: Step, after: Member) returns (ls: seq<Life>, steps: seq<Step>)
    requires (step == Send(c) && after == Member(true, true, false, 1, Some(false)))
          || (step == Propagate(c) && after == Member(true, true, true, 0, Some(false)))
    ensures Run(ls, steps) && step in steps
    ensures var l := ls[|ls|-1];
      Releasable(l) && ORPHAN_FINALIZER !in l.finalizers && Exposed(l) && l.members == map[c := after]
  {
    var m := Member(true, true, false, 0, None);
    var l0 := Life(map[c := m], true, {}, false, false, false);
    var l1 := l0.(finalizers := {DELETE_FINALIZER, ORPHAN_FINALIZER});
    var l2 := With(l1, c, m.(seen := Some(false)));
    var l3 := With(l2, c, after);
    var l4 := l3.(deleting := true, finalizers := {DELETE_FINALIZER});
    var l5 := l4.(noticed := true);
    ls, steps := [l0, l1, l2, l3, l4, l5], [Ensure, Observe(c), step, AskDelete(false), Notice];
    FinalizersDiffer();
    assert Next(l0, Ensure, l1);
    assert Next(l1, Observe(c), l2) by { assert c in Ready(l1); }
    assert Next(l2, step, l3) by { assert c in Ready(l2); }
    assert Next(l3, AskDelete(false), l4) by { assert l3.finalizers - {ORPHAN_FINALIZER} == {DELETE_FINALIZER}; }
    assert Next(l4, Notice, l5);
    assert steps[2] == step;
    assert l5.members == map[c := after];
    ExposedAlone(l5, c);
  }

  /** A creation that timed out can land after the release. */
  lemma LateWriteOutlivesTemplate(c: string)
    ensures exists ls: seq<Life>, steps: seq<Step> ::
      Run(ls, steps) && Releasable(ls[|ls|-1]) && CanOutlive(ls[|ls|-1])
      && Send(c) in steps && NothingLeft(ls[|ls|-1])
  {
    var ls, steps := ExposedRun(c, Send(c), Member(true, true, false, 1, Some(false)));
    OutlivesExactlyWhenExposed(ls, steps, |ls| - 1);
  }

  /** So can an object written in time, if the store has not shown it when the template is deleted. */
  lemma UnseenObjectOutlivesTemplate(c: string)
    ensures exists ls: seq<Life>, steps: seq<Step> ::
      Run(ls, steps) && Releasable(ls[|ls|-1]) && CanOutlive(ls[|ls|-1])
      && Propagate(c) in steps && NothingOnItsWay(ls[|ls|-1])
  {
    var ls, steps := ExposedRun(c, Propagate(c), Member(true, true, true, 0, Some(false)));
    OutlivesExactlyWhenExposed(ls, steps, |ls| - 1);
  }

  /** The object has been propagated to the only cluster, and its store shows it. */
  lemma CopiedRun(c: string) returns (ls: seq<Life>, steps: seq<Step>)
    ensures Run(ls, steps)
    ensures ls[|ls|-1] == Life(map[c := Member(true, true, true, 0, Some(true))], true, {DELETE_FINALIZER, ORPHAN_FINALIZER}, false, false, false)
  {
    var m := Member(true, true, false, 0, None);
    var l0 := Life(map[c := m], true, {}, false, false, false);
    var l1 := l0.(finalizers := {DELETE_FINALIZER, ORPHAN_FINALIZER});
    var l2 := With(l1, c, m.(holds := true));
    var l3 := With(l2, c, m.(holds := true, seen := Some(true)));
    ls, steps := [l0, l1, l2, l3], [Ensure, Propagate(c), Observe(c)];
    assert Next(l0, Ensure, l1);
    assert Next(l1, Propagate(c), l2) by { assert c in Ready(l1); }
    assert Next(l2, Observe(c), l3) by { assert c in Ready(l2); }
    assert l3.members == map[c := Member(true, true, true, 0, Some(true))];
  }

  lemma Extended(ls: seq<Life>, steps: seq<Step>, s: Step, l: Life)
    requires Run(ls, steps) && Next(ls[|ls|-1], s, l)
    ensures Run(ls + [l], steps + [s])
  {
    forall i | 0 <= i < |steps + [s]| ensures Next((ls + [l])[i], (steps + [s])[i], (ls + [l])[i+1]) {
      if i < |steps| { assert Next(ls[i], steps[i], ls[i+1]); }
    }
  }

  lemma DepartedRun(c: string) returns (ls: seq<Life>, steps: seq<Step>)
    ensures Run(ls, steps) && Leave(c) in steps
    ensures var l := ls[|ls|-1];
      Releasable(l) && ORPHAN_FINALIZER !in l.finalizers && Exposed(l)
      && l.members == map[c := Member(false, false, true, 0, None)]
  {
    ls, steps := CopiedRun(c);
    var l := ls[|ls|-1];
    var l1 := With(l, c, Member(false, false, true, 0, None));
    var l2 := l1.(deleting := true, finalizers := {DELETE_FINALIZER});
    var l3 := l2.(noticed := true);
    FinalizersDiffer();
    assert c in Registered(l);
    Extended(ls, steps, Leave(c), l1);
    assert l1.finalizers - {ORPHAN_FINALIZER} == {DELETE_FINALIZER};
    Extended(ls + [l1], steps + [Leave(c)], AskDelete(false), l2);
    Extended(ls + [l1] + [l2], steps + [Leave(c)] + [AskDelete(false)], Notice, l3);
    ls, steps := ls + [l1] + [l2] + [l3], steps + [Leave(c)] + [AskDelete(false)] + [Notice];
    ExposedAlone(l3, c);
  }

  /** And so can the object of a cluster that leaves before the deletion, and is registered again after it. */
  lemma DepartedObjectOutlivesTemplate(c: string)
    ensures exists ls: seq<Life>, steps: seq<Step> ::
      Run(ls, steps) && Releasable(ls[|ls|-1]) && CanOutlive(ls[|ls|-1])
      && Leave(c) in steps && Registered(ls[|ls|-1]) == {} && NothingOnItsWay(ls[|ls|-1])
  {
    var ls, steps := DepartedRun(c);
    OutlivesExactlyWhenExposed(ls, steps, |ls| - 1);
  }
}
