/**
 Progress of propagation once nothing else changes: template, override and placement are
 fixed, caches have caught up, and rounds of reconciliation follow each other with any
 mix of success, failure and timeout.
 */
module Convergence {
  import opened Collections
  import opened Strings
  import opened Updater
  import opened PropagatedVersion
  import opened Sync
  import opened SyncRun

  /** The attempt reads the world as it is. */
  ghost predicate Current(w: World, a: Attempt) {
    && Authentic(w, a)
    && NoRepeats(a.selected + a.unselected)
    && a.cached == w.record
    && a.inputs.unreadable == {}
    && a.inputs.stores == (map c | c in w.live && (c in a.selected || c in a.unselected) :: w.live[c])
    && forall c :: c in a.selected ==> DesiredObject(a.inputs.template, a.inputs.override, a.inputs.path, c).Ok?
  }

  /** The clusters a reconcile has something to do in. */
  predicate Outstanding(w: World, a: Attempt, c: string) {
    var versions := RecordedFor(w.record, a.inputs.template.version, OverrideVersion(a.inputs.override));
    || (c in a.selected && (c !in w.live || c !in versions || versions[c] != w.live[c].version))
    || (c in a.unselected && c in w.live)
  }

  /** The record written in this round is there in the next. */
  predicate RecordKept(a: Attempt) {
    if a.cached.Some? then !a.api.updateFails else !a.api.createFails && a.api.keepsStatus
  }

  function Operations(a: Attempt): seq<Operation>
    requires OperationsFor(a.inputs, a.selected, a.unselected).Ok?
  {
    OperationsFor(a.inputs, a.selected, a.unselected).value
  }

  lemma {:induction false} ReadableSelected(inp: Inputs, selected: seq<string>)
    requires inp.unreadable == {}
    requires forall c :: c in selected ==> DesiredObject(inp.template, inp.override, inp.path, c).Ok?
    ensures SelectedOperations(inp, selected).Ok?
  {
    if selected != [] { ReadableSelected(inp, selected[..|selected|-1]); }
  }

  lemma {:induction false} ReadableUnselected(inp: Inputs, unselected: seq<string>)
    requires inp.unreadable == {}
    ensures UnselectedOperations(inp, unselected).Ok?
  {
    if unselected != [] { ReadableUnselected(inp, unselected[..|unselected|-1]); }
  }

  lemma Apart(a: Attempt, c: string)
    requires NoRepeats(a.selected + a.unselected)
    ensures !(c in a.selected && c in a.unselected)
  {
    var both := a.selected + a.unselected;
    forall i, j | 0 <= i < |a.selected| && 0 <= j < |a.unselected| ensures a.selected[i] != a.unselected[j] {
      assert both[i] != both[|a.selected|+j];
    }
  }

  lemma OperationsReadable(w: World, a: Attempt)
    requires Current(w, a)
    ensures OperationsFor(a.inputs, a.selected, a.unselected).Ok?
    ensures DistinctClusters(Operations(a))
    ensures forall op :: op in Operations(a) ==>
              if op.kind.Delete? then op.cluster in a.unselected && op.cluster !in a.selected
              else op.cluster in a.selected && op.cluster !in a.unselected
  {
    ReadableSelected(a.inputs, a.selected);
    ReadableUnselected(a.inputs, a.unselected);
    OneOperationPerCluster(a.inputs, a.selected, a.unselected);
    SelectedOperationsExactly(a.inputs, a.selected);
    UnselectedOperationsExactly(a.inputs, a.unselected);
    forall c ensures !(c in a.selected && c in a.unselected) { Apart(a, c); }
  }

  lemma OperationIffOutstanding(w: World, a: Attempt, c: string)
    requires Current(w, a) && OperationsFor(a.inputs, a.selected, a.unselected).Ok?
    ensures HasOperation(Operations(a), c) <==> Outstanding(w, a, c)
  {
    SelectedOperationsExactly(a.inputs, a.selected);
    UnselectedOperationsExactly(a.inputs, a.unselected);
    var s, u, ops := SelectedOperations(a.inputs, a.selected).value, UnselectedOperations(a.inputs, a.unselected).value, Operations(a);
    if HasOperation(ops, c) {
      var k :| 0 <= k < |ops| && ops[k].cluster == c;
      assert ops[k] in s || ops[k] in u;
    }
    if Outstanding(w, a, c) {
      if c in a.selected && OutOfStep(a.inputs, c) {
        var k :| 0 <= k < |s| && s[k].cluster == c;
        assert ops[k].cluster == c;
      } else {
        var k :| 0 <= k < |u| && u[k].cluster == c;
        assert ops[|s| + k].cluster == c;
      }
    }
  }

  /** Operations are computed for exactly the outstanding clusters. */
  lemma OperationsAreOutstanding(w: World, a: Attempt)
    requires Current(w, a)
    ensures OperationsFor(a.inputs, a.selected, a.unselected).Ok?
    ensures DistinctClusters(Operations(a))
    ensures forall c :: HasOperation(Operations(a), c) <==> Outstanding(w, a, c)
    ensures forall op :: op in Operations(a) ==>
              if op.kind.Delete? then op.cluster in a.unselected && op.cluster !in a.selected
              else op.cluster in a.selected && op.cluster !in a.unselected
  {
    OperationsReadable(w, a);
    forall c ensures HasOperation(Operations(a), c) <==> Outstanding(w, a, c) { OperationIffOutstanding(w, a, c); }
  }

  lemma InStepUntouched(w: World, a: Attempt, c: string)
    requires Consistent(w) && CanAttempt(w, a) && Current(w, a)
    requires !Outstanding(w, a, c)
    ensures SameIn(w, ApplyAll(w, Operations(a), a.applied), c)
    ensures c !in Updated(w, Operations(a), a)
  {
    var ops := Operations(a);
    OperationsAreOutstanding(w, a);
    ApplyAllKeeps(w, ops, a.applied);
    CollectedExactly(ops, Outcomes(w, ops, a.applied), a.arrivals);
  }

  /** A cluster in step before a round is in step after it. */
  lemma InStepStays(w: World, a: Attempt, c: string)
    requires Consistent(w) && CanAttempt(w, a) && Current(w, a)
    requires !Outstanding(w, a, c)
    ensures !Outstanding(Attempted(w, a), a, c)
    ensures !Outstanding(ApplyAll(w, Operations(a), a.applied), a, c)
  {
    InStepUntouched(w, a, c);
    ApplyAllKeeps(w, Operations(a), a.applied);
  }

  /** A reported cluster ends as its operation wants it, at the version reported. */
  lemma ReportedHolds(w: World, a: Attempt, c: string)
    requires Consistent(w) && CanAttempt(w, a) && Current(w, a)
    requires c in Updated(w, Operations(a), a)
    ensures var w' := ApplyAll(w, Operations(a), a.applied);
      && Outstanding(w, a, c)
      && (c in a.selected ==> c in w'.live && w'.live[c].version == Updated(w, Operations(a), a)[c] > 0)
      && (c in a.unselected ==> c !in w'.live)
  {
    var ops := Operations(a);
    OperationsAreOutstanding(w, a);
    CollectedExactly(ops, Outcomes(w, ops, a.applied), a.arrivals);
    ApplyAllKeeps(w, ops, a.applied);
    var k :| 0 <= k < |ops| && ops[k].cluster == c;
    AppliedHolds(w, ops, a.applied, k);
    assert ops[k] in ops;
  }

  /** A cluster whose operation was reported as successful is in step after the round, if the record was kept. */
  lemma ReportedIsInStep(w: World, a: Attempt, c: string)
    requires Consistent(w) && CanAttempt(w, a) && Current(w, a)
    requires RecordKept(a) && c in Updated(w, Operations(a), a)
    ensures !Outstanding(Attempted(w, a), a, c)
  {
    ReportedHolds(w, a, c);
    Apart(a, c);
  }

  /**
   Every round shrinks the outstanding work: nothing new becomes outstanding, and what was reported
   successful is done for good if the record of it was kept.
   */
  lemma RoundShrinks(w: World, a: Attempt, c: string)
    requires Consistent(w) && CanAttempt(w, a) && Current(w, a)
    requires Outstanding(Attempted(w, a), a, c)
    ensures Outstanding(w, a, c)
    ensures RecordKept(a) ==> c !in Updated(w, Operations(a), a)
  {
    if !Outstanding(w, a, c) { InStepStays(w, a, c); }
    if RecordKept(a) && c in Updated(w, Operations(a), a) { ReportedIsInStep(w, a, c); }
  }

  // ---------- A fully successful round ----------

  ghost predicate FullySuccessful(w: World, a: Attempt)
    requires CanAttempt(w, a)
  {
    |a.arrivals| >= |Operations(a)| && forall k :: 0 <= k < |Operations(a)| ==> a.applied[k]
  }

  /** What a cluster holds after a batch is what it held before, or a new version. */
  lemma {:induction false} SameOrFresh(w: World, ops: seq<Operation>, applied: seq<bool>, c: string)
    requires Consistent(w) && |applied| == |ops|
    ensures var w' := ApplyAll(w, ops, applied);
      c in w'.live ==> (c in w.live && w'.live[c].version == w.live[c].version) || w'.live[c].version > w.clock
  {
    if ops != [] {
      ApplyAllKeeps(w, ops[..|ops|-1], applied[..|ops|-1]);
      SameOrFresh(w, ops[..|ops|-1], applied[..|ops|-1], c);
    }
  }

  lemma RecordedIsOld(w: World, path: seq<string>, r: Record, c: string)
    requires Sound(w, path) && r in w.records && c in r.versions
    ensures r.versions[c] <= w.clock
  {
    assert EntrySound(w, path, r, c);
  }

  lemma UnkeptStaysOutstanding(w: World, a: Attempt, c: string)
    requires Sound(w, a.inputs.path) && CanAttempt(w, a) && Current(w, a)
    requires FullySuccessful(w, a) && !RecordKept(a)
    requires c in a.selected && Outstanding(w, a, c)
    ensures Outstanding(Attempted(w, a), a, c)
  {
    var ops := Operations(a);
    OperationsAreOutstanding(w, a);
    ApplyAllKeeps(w, ops, a.applied);
    var k :| 0 <= k < |ops| && ops[k].cluster == c;
    AppliedHolds(w, ops, a.applied, k);
    assert ops[k] in ops;
    SameOrFresh(w, ops, a.applied, c);
    Apart(a, c);
    if a.cached.Some? && c in a.cached.value.versions { RecordedIsOld(w, a.inputs.path, a.cached.value, c); }
  }

  lemma AllReported(w: World, a: Attempt, c: string)
    requires Consistent(w) && CanAttempt(w, a) && Current(w, a)
    requires FullySuccessful(w, a) && Outstanding(w, a, c)
    ensures c in Updated(w, Operations(a), a)
  {
    var ops := Operations(a);
    OperationsAreOutstanding(w, a);
    CollectedExactly(ops, Outcomes(w, ops, a.applied), a.arrivals);
    ArrivalsAreFew(ops, a.arrivals);
    var k :| 0 <= k < |ops| && ops[k].cluster == c;
    AppliedHolds(w, ops, a.applied, k);
    assert k in a.arrivals;
  }

  /**
   After a round in which every operation succeeded in time, nothing is outstanding if the record was
   kept.  If it was not, as on the very first round with a server that clears the status of created
   objects, exactly the selected clusters that were outstanding still are.
   */
  lemma AfterFullSuccess(w: World, a: Attempt, c: string)
    requires Sound(w, a.inputs.path) && CanAttempt(w, a) && Current(w, a)
    requires FullySuccessful(w, a)
    ensures Outstanding(Attempted(w, a), a, c) <==> !RecordKept(a) && c in a.selected && Outstanding(w, a, c)
  {
    var ops := Operations(a);
    if Outstanding(Attempted(w, a), a, c) {
      RoundShrinks(w, a, c);
      AllReported(w, a, c);
      if c !in a.selected {
        OperationsAreOutstanding(w, a);
        ApplyAllKeeps(w, ops, a.applied);
        var k :| 0 <= k < |ops| && ops[k].cluster == c;
        AppliedHolds(w, ops, a.applied, k);
      }
    }
    if !RecordKept(a) && c in a.selected && Outstanding(w, a, c) {
      UnkeptStaysOutstanding(w, a, c);
    }
  }

  /** A first round that succeeds everywhere leaves every selected cluster to be updated again when the server clears the status on creation. */
  lemma ClearedRecordRepeatsWork(w: World, a: Attempt, c: string)
    requires Sound(w, a.inputs.path) && CanAttempt(w, a) && Current(w, a)
    requires FullySuccessful(w, a)
    requires w.record.None? && !a.api.createFails && !a.api.keepsStatus
    requires c in a.selected
    ensures Outstanding(Attempted(w, a), a, c)
    ensures c in Attempted(w, a).live
  {
    AfterFullSuccess(w, a, c);
    AllReported(w, a, c);
    var ops := Operations(a);
    OperationsAreOutstanding(w, a);
    var k :| 0 <= k < |ops| && ops[k].cluster == c;
    AppliedHolds(w, ops, a.applied, k);
    assert ops[k] in ops;
    Apart(a, c);
  }

  // ---------- Rounds ----------

  /** The same template, override and placement in every round. */
  ghost predicate SameGoal(a: Attempt, b: Attempt) {
    && a.inputs.template == b.inputs.template && a.inputs.override == b.inputs.override && a.inputs.path == b.inputs.path
    && a.selected == b.selected && a.unselected == b.unselected
  }

  /** Round after round with caches caught up; a round with nothing to do changes nothing. */
  ghost predicate Rounds(ws: seq<World>, rs: seq<Attempt>) {
    && |ws| == |rs| + 1 && |rs| > 0
    && forall i :: 0 <= i < |rs| ==> Round(ws[i], rs[i], ws[i+1]) && SameGoal(rs[0], rs[i])
  }

  ghost predicate Round(w: World, a: Attempt, w': World) {
    && Sound(w, a.inputs.path) && Current(w, a)
    && if OperationsFor(a.inputs, a.selected, a.unselected) == Ok([]) then w' == w
       else CanAttempt(w, a) && RecordKept(a) && w' == Attempted(w, a)
  }

  /** What this round reports as done. */
  ghost predicate Reports(w: World, a: Attempt, c: string) {
    CanAttempt(w, a) && c in Updated(w, Operations(a), a)
  }

  lemma OutstandingSameGoal(w: World, a: Attempt, b: Attempt, c: string)
    requires SameGoal(a, b)
    ensures Outstanding(w, a, c) == Outstanding(w, b, c)
  {
  }

  lemma OneRound(w: World, a: Attempt, w': World, c: string)
    requires Round(w, a, w') && Outstanding(w', a, c)
    ensures Outstanding(w, a, c) && !Reports(w, a, c)
  {
    OperationsAreOutstanding(w, a);
    if OperationsFor(a.inputs, a.selected, a.unselected) != Ok([]) { RoundShrinks(w, a, c); }
  }

  /** Over any number of rounds: what is outstanding at the end always was, and was never reported as done. */
  lemma {:induction false} RoundsConverge(ws: seq<World>, rs: seq<Attempt>, n: nat, i: nat, c: string)
    requires Rounds(ws, rs) && i <= n <= |rs|
    requires Outstanding(ws[n], rs[0], c)
    ensures Outstanding(ws[i], rs[0], c)
    ensures forall k :: i <= k < n ==> !Reports(ws[k], rs[k], c)
    decreases n - i
  {
    if i < n {
      RoundsConverge(ws, rs, n, i + 1, c);
      OutstandingSameGoal(ws[i+1], rs[0], rs[i], c);
      OneRound(ws[i], rs[i], ws[i+1], c);
      OutstandingSameGoal(ws[i], rs[0], rs[i], c);
    }
  }

  /** Once every cluster has been reported as done in some round, nothing is outstanding any more. */
  lemma RoundsFinish(ws: seq<World>, rs: seq<Attempt>)
    requires Rounds(ws, rs)
    requires forall c :: Outstanding(ws[0], rs[0], c) ==> exists k :: 0 <= k < |rs| && Reports(ws[k], rs[k], c)
    ensures forall c :: !Outstanding(ws[|rs|], rs[0], c)
  {
    forall c | Outstanding(ws[|rs|], rs[0], c) ensures false {
      RoundsConverge(ws, rs, |rs|, 0, c);
    }
  }
}
