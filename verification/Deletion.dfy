/**
 Deleting a template: finalizers keep it until its objects are gone from all clusters, or
 are orphaned; and reconciling a template at all, which never propagates without them.
 */
module Deletion {
  import opened Collections
  import opened Strings
  import opened Updater
  import opened Informer
  import opened Placement
  import opened PropagatedVersion
  import opened Sync

  const DELETE_FINALIZER := "federation.kubernetes.io/delete-from-underlying-clusters"
  const ORPHAN_FINALIZER := "orphan"

  function Elements(names: seq<string>): set<string> {
    set n | n in names
  }

  // ---------- Finalizers of an object ----------

  class ObjectMeta {
    var finalizers: seq<string>

    constructor (finalizers: seq<string>)
      ensures this.finalizers == finalizers
    {
      this.finalizers := finalizers;
    }

    predicate HasFinalizer(finalizer: string)
      reads this
    {
      finalizer in finalizers
    }

    /** Adds what is missing; the list is left alone when nothing is. */
    method AddFinalizers(added: seq<string>) returns (updated: bool)
      modifies this
      ensures Elements(finalizers) == Elements(old(finalizers)) + Elements(added)
      ensures updated <==> !(Elements(added) <= Elements(old(finalizers)))
      ensures if updated then Ascending(finalizers) else finalizers == old(finalizers)
    {
      if forall f | f in added :: f in finalizers {
        return false;
      }
      SetListFacts(finalizers + added);
      ghost var f :| f in added && f !in finalizers;
      assert f in Elements(added) && f !in Elements(finalizers);
      finalizers := SetList(finalizers + added);
      return true;
    }

    /** Removes what is there; the list is left alone when nothing is. */
    method RemoveFinalizers(removed: seq<string>) returns (updated: bool)
      modifies this
      ensures Elements(finalizers) == Elements(old(finalizers)) - Elements(removed)
      ensures updated <==> Elements(removed) * Elements(old(finalizers)) != {}
      ensures if updated then Ascending(finalizers) else finalizers == old(finalizers)
    {
      if forall f | f in removed :: f !in finalizers {
        return false;
      }
      ghost var f :| f in removed && f in finalizers;
      assert f in Elements(removed) * Elements(finalizers);
      SetListFacts(finalizers);
      FilteredFacts(SetList(finalizers), removed, false);
      finalizers := Filtered(SetList(finalizers), removed, false);
      return true;
    }
  }

  // ---------- The deletion helper ----------

  /** Where the object is held, as far as the running target informers' stores know. */
  ghost predicate HeldAnywhere(running: set<string>, holders: set<string>, exempt: set<string>) {
    exists n :: n in running && n in holders && n !in exempt
  }

  /**
   The finalizer that protects the clusters' objects may go: the object is to be orphaned, or every
   registered cluster is ready and no store holds the object any more.
   */
  ghost predicate MayRelease(finalizers: set<string>, unready: set<string>, running: set<string>, holders: set<string>, exempt: set<string>) {
    || ORPHAN_FINALIZER in finalizers
    || (unready == {} && !HeldAnywhere(running, holders, exempt))
  }

  /**
   Objects are read from a cache, whose copy `obj` may lag behind the server.  The server refuses an
   update made from a lagging copy, so `updateFails` holds for one.
   */
  class DeletionHelper {
    const informer: FederatedInformer
    /** The template's finalizers as the API server has them. */
    var served: seq<string>

    constructor (informer: FederatedInformer, served: seq<string>)
      ensures this.informer == informer && this.served == served
    {
      this.informer := informer;
      this.served := served;
    }

    method UpdateObj(obj: ObjectMeta, fails: bool) returns (ok: bool)
      modifies this`served
      ensures ok == !fails && served == if fails then old(served) else obj.finalizers
    {
      if !fails {
        served := obj.finalizers;
      }
      return !fails;
    }

    /** Both finalizers are on the copy that was read, or are put on the server, before anything is propagated. */
    method EnsureFinalizers(obj: ObjectMeta, updateFails: bool) returns (ok: bool)
      requires obj.finalizers != served ==> updateFails
      modifies this`served, obj
      ensures var had := {DELETE_FINALIZER, ORPHAN_FINALIZER} <= Elements(old(obj.finalizers));
        && ok == (had || !updateFails)
        && Elements(served) == Elements(old(served)) + (if had || updateFails then {} else {DELETE_FINALIZER, ORPHAN_FINALIZER})
        && (had || updateFails ==> served == old(served))
    {
      var missing: seq<string> := [];
      if !obj.HasFinalizer(DELETE_FINALIZER) {
        missing := missing + [DELETE_FINALIZER];
      }
      if !obj.HasFinalizer(ORPHAN_FINALIZER) {
        missing := missing + [ORPHAN_FINALIZER];
      }
      if missing == [] {
        return true;
      }
      assert missing[0] in Elements(missing) && missing[0] !in Elements(obj.finalizers);
      assert Elements(missing) == {DELETE_FINALIZER, ORPHAN_FINALIZER} - Elements(obj.finalizers);
      ok := AddAndUpdate(obj, missing, updateFails);
    }

    method AddAndUpdate(obj: ObjectMeta, added: seq<string>, updateFails: bool) returns (ok: bool)
      requires obj.finalizers != served ==> updateFails
      modifies this`served, obj
      ensures var had := Elements(added) <= Elements(old(obj.finalizers));
        && ok == (had || !updateFails)
        && Elements(served) == Elements(old(served)) + (if had || updateFails then {} else Elements(added))
        && (had || updateFails ==> served == old(served))
    {
      var updated := obj.AddFinalizers(added);
      if !updated {
        return true;
      }
      ok := UpdateObj(obj, updateFails);
    }

    method RemoveAndUpdate(obj: ObjectMeta, removed: seq<string>, updateFails: bool) returns (ok: bool)
      requires obj.finalizers != served ==> updateFails
      modifies this`served, obj
      ensures var had := Elements(removed) * Elements(old(obj.finalizers)) != {};
        && ok == (!had || !updateFails)
        && Elements(served) == Elements(old(served)) - (if had && !updateFails then Elements(removed) else {})
        && (!had || updateFails ==> served == old(served))
    {
      var updated := obj.RemoveFinalizers(removed);
      if !updated {
        return true;
      }
      ok := UpdateObj(obj, updateFails);
    }

    /** The running target informers whose store holds the object. */
    method GetFromAllClusters(holders: set<string>) returns (names: seq<string>)
      ensures NoRepeats(names) && forall n :: n in names <==> n in informer.targets && n in holders
    {
      names := [];
      var rest := informer.targets.Keys;
      while rest != {}
        invariant rest <= informer.targets.Keys
        invariant NoRepeats(names) && forall n :: n in names <==> n in informer.targets && n !in rest && n in holders
        decreases rest
      {
        var n :| n in rest;
        rest := rest - {n};
        if n in holders {
          names := names + [n];
        }
      }
    }

    /** A delete for every held copy, the exempt ones (a namespace in the primary cluster) excepted. */
    method DeleteOperations(holders: set<string>, exempt: set<string>) returns (ops: seq<Operation>)
      ensures DistinctClusters(ops) && forall i :: 0 <= i < |ops| ==> ops[i].kind.Delete?
      ensures forall n :: HasOperation(ops, n) <==> n in informer.targets && n in holders && n !in exempt
    {
      var names := GetFromAllClusters(holders);
      ops := [];
      for i := 0 to |names|
        invariant DistinctClusters(ops) && forall k :: 0 <= k < |ops| ==> ops[k].kind.Delete?
        invariant forall n :: HasOperation(ops, n) <==> n in names[..i] && n !in exempt
      {
        assert names[..i+1] == names[..i] + [names[i]];
        if names[i] !in exempt {
          ghost var before := ops;
          ops := ops + [Operation(Delete, names[i], map[], 0)];
          assert ops[|before|].cluster == names[i];
          forall n | HasOperation(before, n) ensures HasOperation(ops, n) {
            var k :| 0 <= k < |before| && before[k].cluster == n;
            assert ops[k].cluster == n;
          }
          assert !HasOperation(before, names[i]);
        }
      }
      assert names[..|names|] == names;
    }

    /**
     Deletes the object from all clusters, and releases its finalizer exactly when there is nothing
     left to delete and nothing left to wait for.  `storeFails` and `updateFails` are failing reads
     of a store and a failing update of the template; `respond` is how clusters treat the deletes.
     */
    method HandleObjectInUnderlyingClusters(obj: ObjectMeta, holders: set<string>, exempt: set<string>,
                                            storeFails: bool, respond: Response, updateFails: bool)
      returns (ok: bool, ops: seq<Operation>)
      requires Responds(respond)
      requires obj.finalizers != served ==> updateFails
      modifies this`served, obj
      ensures DELETE_FINALIZER in old(obj.finalizers) ==>
        var may := MayRelease(Elements(old(obj.finalizers)), UnreadyIn(informer.store), informer.targets.Keys, holders, exempt);
        && ok == (may && !updateFails && (ORPHAN_FINALIZER in old(obj.finalizers) || !storeFails))
        && Elements(served) == if !ok then Elements(old(served))
                               else if ORPHAN_FINALIZER in old(served) then Elements(old(served)) - {DELETE_FINALIZER, ORPHAN_FINALIZER}
                               else Elements(old(served)) - {DELETE_FINALIZER}
      ensures !ok || DELETE_FINALIZER !in old(obj.finalizers) ==> served == old(served)
      ensures DELETE_FINALIZER !in old(obj.finalizers) ==> ok && ops == []
      ensures ORPHAN_FINALIZER in old(obj.finalizers) ==> ops == []
      ensures DistinctClusters(ops) && forall i :: 0 <= i < |ops| ==> ops[i].kind.Delete?
      ensures DELETE_FINALIZER in old(obj.finalizers) && ORPHAN_FINALIZER !in old(obj.finalizers) && !storeFails ==>
        forall n :: HasOperation(ops, n) <==> n in informer.targets && n in holders && n !in exempt
    {
      ops := [];
      if !obj.HasFinalizer(DELETE_FINALIZER) {
        return true, ops;
      }
      assert DELETE_FINALIZER in Elements(obj.finalizers);
      if obj.HasFinalizer(ORPHAN_FINALIZER) {
        assert Elements([DELETE_FINALIZER, ORPHAN_FINALIZER]) == {DELETE_FINALIZER, ORPHAN_FINALIZER};
        assert DELETE_FINALIZER in Elements([DELETE_FINALIZER, ORPHAN_FINALIZER]) * Elements(obj.finalizers);
        ok := RemoveAndUpdate(obj, [DELETE_FINALIZER, ORPHAN_FINALIZER], updateFails);
        return;
      }
      var unready := informer.GetUnreadyClusters();
      if storeFails {
        return false, ops;
      }
      ops := DeleteOperations(holders, exempt);
      var _, errors := ExecuteAll(ops, respond(ops).0, respond(ops).1);
      if errors != [] || |ops| > 0 {
        // After successful deletions, wait for the stores to observe them.
        if |ops| > 0 { assert HasOperation(ops, ops[0].cluster); }
        return false, ops;
      }
      assert forall n :: !HasOperation(ops, n);
      if |unready| != 0 {
        assert unready[0] in UnreadyIn(informer.store);
        return false, ops;
      }
      assert UnreadyIn(informer.store) == {};
      assert Elements([DELETE_FINALIZER]) == {DELETE_FINALIZER};
      assert DELETE_FINALIZER in Elements([DELETE_FINALIZER]) * Elements(obj.finalizers);
      ok := RemoveAndUpdate(obj, [DELETE_FINALIZER], updateFails);
    }
  }

  // ---------- Reconciling a template ----------

  /** What a reconcile finds besides the informer's clusters. */
  datatype Surroundings = Surroundings(
    clusterListSynced: bool,
    placementSynced: bool,
    syncedChannels: set<Channel>)

  /** The informer is in step with the registered clusters, and everything it runs has synced. */
  ghost predicate InSync(informer: FederatedInformer, env: Surroundings)
    reads informer
  {
    && env.clusterListSynced && env.placementSynced
    && informer.targets.Keys == ReadyIn(informer.store)
    && forall n :: n in informer.targets ==> informer.targets[n] in env.syncedChannels
  }

  method IsSynced(informer: FederatedInformer, env: Surroundings) returns (r: bool)
    ensures r <==> InSync(informer, env)
    ensures r <==>
      && env.clusterListSynced && env.placementSynced
      && (forall n :: n in informer.targets <==> n in informer.store && informer.store[n].ready)
      && forall n :: n in informer.targets ==> informer.targets[n] in env.syncedChannels
  {
    if !env.clusterListSynced {
      return false;
    }
    if !env.placementSynced {
      return false;
    }
    var clusters := informer.GetReadyClusters();
    assert (set n | n in clusters) == ReadyIn(informer.store);
    r := informer.ClustersSynced(clusters, env.syncedChannels);
  }

  /**
   Reconciling a template marked for deletion.  The finalizer that protects the clusters' objects is
   released only in a snapshot where the informers run for exactly the registered clusters, all of
   them ready and synced, and no store holds the object, unless the object is to be orphaned.
   */
  method ReconcileDeleted(helper: DeletionHelper, obj: ObjectMeta, env: Surroundings, holders: set<string>, exempt: set<string>,
                          storeFails: bool, respond: Response, updateFails: bool)
    returns (status: ReconcileStatus, ops: seq<Operation>)
    requires Responds(respond)
    requires obj.finalizers != helper.served ==> updateFails
    modifies helper`served, obj
    ensures !InSync(helper.informer, env) ==> status == NotSynced && ops == [] && helper.served == old(helper.served)
    ensures ORPHAN_FINALIZER in old(obj.finalizers) || DELETE_FINALIZER !in old(obj.finalizers) ==> ops == []
    ensures InSync(helper.informer, env) && DELETE_FINALIZER in old(obj.finalizers) && ORPHAN_FINALIZER !in old(obj.finalizers) && !storeFails ==>
      && (forall n :: HasOperation(ops, n) <==> n in helper.informer.targets && n in holders && n !in exempt)
      && DistinctClusters(ops) && forall i :: 0 <= i < |ops| ==> ops[i].kind.Delete?
    ensures InSync(helper.informer, env) ==>
      (status == AllOK <==>
        || DELETE_FINALIZER !in old(obj.finalizers)
        || (ORPHAN_FINALIZER in old(obj.finalizers) && !updateFails)
        || (UnreadyIn(helper.informer.store) == {} && !storeFails && !updateFails
            && forall n :: n in helper.informer.targets && n in holders ==> n in exempt))
    ensures status == AllOK || status == Error || !InSync(helper.informer, env)
    ensures DELETE_FINALIZER in old(helper.served) && ORPHAN_FINALIZER !in old(helper.served) ==>
      (DELETE_FINALIZER !in helper.served <==>
        && InSync(helper.informer, env)
        && helper.informer.targets.Keys == helper.informer.store.Keys
        && (forall n :: n in helper.informer.store && n in holders ==> n in exempt)
        && !storeFails && !updateFails)
    ensures DELETE_FINALIZER in old(helper.served) && ORPHAN_FINALIZER in old(helper.served) ==>
      (DELETE_FINALIZER !in helper.served <==> InSync(helper.informer, env) && !updateFails)
  {
    var synced := IsSynced(helper.informer, env);
    if !synced {
      return NotSynced, [];
    }
    ghost var store := helper.informer.store;
    AllReady(store);
    var ok;
    ok, ops := helper.HandleObjectInUnderlyingClusters(obj, holders, exempt, storeFails, respond, updateFails);
    status := if ok then AllOK else Error;
    assert DELETE_FINALIZER in helper.served <==> DELETE_FINALIZER in Elements(helper.served);
  }

  lemma AllReady(store: map<string, Cluster>)
    ensures UnreadyIn(store) == {} <==> ReadyIn(store) == store.Keys
  {
    assert store.Keys == ReadyIn(store) + UnreadyIn(store);
    assert ReadyIn(store) !! UnreadyIn(store);
  }

  /** The clusters can be read, and there is an object to write to the selected ones. */
  ghost predicate Operable(inp: Inputs, ready: set<string>, selected: seq<string>) {
    && (forall c :: c in ready ==> c !in inp.unreadable)
    && (selected != [] ==> inp.template.body.Some? && (inp.override.Some? && inp.override.value.entries.Some? ==> inp.path != []))
  }

  /** The operation writes the desired object to a selected cluster, or deletes it from another. */
  ghost predicate WantedOperation(inp: Inputs, ready: set<string>, selected: seq<string>, op: Operation) {
    && op.cluster in ready
    && (op.kind.Delete? <==> op.cluster !in selected)
    && (!op.kind.Delete? ==>
          && IsDesired(inp.template, inp.override, inp.path, op.cluster, op.obj)
          && (op.kind.Update? <==> op.cluster in inp.stores)
          && (op.kind.Update? ==> op.resourceVersion == inp.stores[op.cluster].version))
  }

  /** There is one operation, and the right one, for exactly the clusters out of step. */
  ghost predicate Wanted(inp: Inputs, ready: set<string>, selected: seq<string>, ops: seq<Operation>) {
    && DistinctClusters(ops)
    && (forall i :: 0 <= i < |ops| ==> WantedOperation(inp, ready, selected, ops[i]))
    && (forall c :: HasOperation(ops, c) <==>
          && c in ready
          && if c in selected then c !in inp.stores || c !in inp.versions || inp.versions[c] != inp.stores[c].version
             else c in inp.stores)
  }

  /**
   Reconciling a template that is not being deleted: nothing is propagated unless the caches are in
   sync, the template was read with both finalizers or has just been given them, and no status update
   of the record is pending.
   */
  method ReconcileLive(helper: DeletionHelper, recorder: Recorder, obj: ObjectMeta, env: Surroundings, namespaceKind: bool, key: string,
                       directive: Directive, inp: Inputs, stored: Option<Status>,
                       respond: Response, w: ApiWrite, updateFails: bool)
    returns (status: ReconcileStatus, ops: seq<Operation>, now: Option<Status>, ghost reached: bool, ghost selected: seq<string>)
    requires WellStored(stored) && Responds(respond)
    requires obj.finalizers != helper.served ==> updateFails
    requires inp.versions == RecordedFor(MeaningOf(stored), inp.template.version, OverrideVersion(inp.override))
    modifies helper`served, obj, recorder
    // whether the clusters are reached at all
    ensures var ensured := {DELETE_FINALIZER, ORPHAN_FINALIZER} <= Elements(old(obj.finalizers)) || !updateFails;
      && (reached <==> InSync(helper.informer, env) && ensured && !directive.Malformed? && (namespaceKind || key !in old(recorder.pending)))
      && (status == NotSynced <==> !InSync(helper.informer, env))
      && (status == NeedsRecheck <==>
            InSync(helper.informer, env) && ensured && !directive.Malformed? && !namespaceKind && key in old(recorder.pending))
    ensures !reached ==> ops == [] && now == stored && recorder.pending == old(recorder.pending) && status != AllOK
    ensures reached ==>
      {DELETE_FINALIZER, ORPHAN_FINALIZER} <= Elements(helper.served)
      || {DELETE_FINALIZER, ORPHAN_FINALIZER} <= Elements(old(obj.finalizers))
    ensures Elements(old(helper.served)) <= Elements(helper.served)
    // what is selected
    ensures reached ==> NoRepeats(selected)
    ensures reached ==>
      forall c :: c in selected <==> c in ReadyIn(helper.informer.store) && directive.Listing? && c in directive.names
    // what cannot be read or rendered stops it
    ensures reached && !Operable(inp, ReadyIn(helper.informer.store), selected) ==>
      status == Error && ops == [] && now == stored && recorder.pending == old(recorder.pending)
    // otherwise there is an operation for exactly the clusters out of step
    ensures reached && Operable(inp, ReadyIn(helper.informer.store), selected) ==>
      Wanted(inp, ReadyIn(helper.informer.store), selected, ops)
    // and what came of them is reported and recorded
    ensures reached && Operable(inp, ReadyIn(helper.informer.store), selected) && ops == [] ==>
      status == AllOK && now == stored && recorder.pending == old(recorder.pending)
    ensures ops != [] ==>
      var (outcomes, arrivals) := respond(ops);
      && (status == AllOK <==>
            |arrivals| >= |ops| && forall i :: 0 <= i < |arrivals| ==>
              outcomes[arrivals[i]].Succeeded? || (outcomes[arrivals[i]].NotFound? && ops[arrivals[i]].kind.Delete?))
      && MeaningOf(now) == NextRecord(MeaningOf(stored), inp.template.version, OverrideVersion(inp.override),
                                      Collected(ops, outcomes, arrivals), selected, w)
      && recorder.pending == PendingAfter(old(recorder.pending), key, MeaningOf(stored), inp.template.version,
                                          OverrideVersion(inp.override), Collected(ops, outcomes, arrivals), selected, w)
  {
    ops, now, reached, selected := [], stored, false, [];
    var synced := IsSynced(helper.informer, env);
    if !synced {
      status := NotSynced;
      return;
    }
    var ensured := helper.EnsureFinalizers(obj, updateFails);
    if !ensured {
      status := Error;
      return;
    }
    var clusterNames := helper.informer.GetReadyClusters();
    var placed := ComputePlacement(directive, clusterNames);
    PlacementPartitions(directive, clusterNames);
    if placed.Err? {
      status := Error;
      return;
    }
    if key in recorder.pending && !namespaceKind {
      status := NeedsRecheck;
      return;
    }
    var (chosen, others) := placed.value;
    reached, selected := true, chosen;
    SplitWithoutRepeats(chosen, others);
    status, ops, now := SyncToClusters(recorder, key, inp, stored, chosen, others, respond, w);
    OperationsAreWanted(inp, ReadyIn(helper.informer.store), chosen, others);
  }

  lemma SplitWithoutRepeats(a: seq<string>, b: seq<string>)
    requires NoRepeats(a + b)
    ensures NoRepeats(a) && forall c :: !(c in a && c in b)
    ensures forall c :: c in a + b <==> c in a || c in b
  {
    assert forall i :: 0 <= i < |a| ==> (a + b)[i] == a[i];
    forall i, j | 0 <= i < |a| && 0 <= j < |b| ensures a[i] != b[j] {
      assert (a + b)[i] == a[i] && (a + b)[|a| + j] == b[j];
    }
  }

  lemma WhichClusters(inp: Inputs, selected: seq<string>, unselected: seq<string>)
    requires OperationsFor(inp, selected, unselected).Ok?
    ensures forall c :: HasOperation(OperationsFor(inp, selected, unselected).value, c) <==>
              (c in selected && OutOfStep(inp, c)) || (c in unselected && c in inp.stores)
  {
    SelectedOperationsExactly(inp, selected);
    UnselectedOperationsExactly(inp, unselected);
    var a, b := SelectedOperations(inp, selected).value, UnselectedOperations(inp, unselected).value;
    assert forall i :: 0 <= i < |a| ==> a[i] in a;
    assert forall i :: 0 <= i < |b| ==> b[i] in b;
    forall c ensures HasOperation(a + b, c) <==> HasOperation(a, c) || HasOperation(b, c) { InEither(a, b, c); }
  }

  lemma WhichOperations(inp: Inputs, ready: set<string>, selected: seq<string>, unselected: seq<string>, op: Operation)
    requires OperationsFor(inp, selected, unselected).Ok? && op in OperationsFor(inp, selected, unselected).value
    requires forall c :: c in ready <==> c in selected || c in unselected
    requires forall c :: !(c in selected && c in unselected)
    ensures WantedOperation(inp, ready, selected, op)
  {
    SelectedOperationsExactly(inp, selected);
    UnselectedOperationsExactly(inp, unselected);
    var a, b := SelectedOperations(inp, selected).value, UnselectedOperations(inp, unselected).value;
    assert op in a || op in b;
    if op in a {
      assert IsSelectedOperation(inp, op);
      DesiredObjectIs(inp.template, inp.override, inp.path, op.cluster);
    }
  }

  lemma OperationsAreWanted(inp: Inputs, ready: set<string>, selected: seq<string>, unselected: seq<string>)
    requires NoRepeats(selected + unselected)
    requires forall c :: c in ready <==> c in selected || c in unselected
    requires forall c :: !(c in selected && c in unselected)
    ensures OperationsFor(inp, selected, unselected).Ok? <==> Operable(inp, ready, selected)
    ensures OperationsFor(inp, selected, unselected).Ok? ==>
              Wanted(inp, ready, selected, OperationsFor(inp, selected, unselected).value)
  {
    OperationsOkIff(inp, selected, unselected);
    if selected != [] { assert selected[0] in selected; }
    if OperationsFor(inp, selected, unselected).Ok? {
      var ops := OperationsFor(inp, selected, unselected).value;
      OneOperationPerCluster(inp, selected, unselected);
      WhichClusters(inp, selected, unselected);
      forall i | 0 <= i < |ops| ensures WantedOperation(inp, ready, selected, ops[i]) {
        WhichOperations(inp, ready, selected, unselected, ops[i]);
      }
    }
  }

  lemma InEither(a: seq<Operation>, b: seq<Operation>, c: string)
    ensures HasOperation(a + b, c) <==> HasOperation(a, c) || HasOperation(b, c)
  {
    if HasOperation(a, c) {
      var k :| 0 <= k < |a| && a[k].cluster == c;
      assert (a + b)[k].cluster == c;
    }
    if HasOperation(b, c) {
      var k :| 0 <= k < |b| && b[k].cluster == c;
      assert (a + b)[|a| + k].cluster == c;
    }
    if HasOperation(a + b, c) {
      var k :| 0 <= k < |a + b| && (a + b)[k].cluster == c;
      if k < |a| { assert a[k].cluster == c; } else { assert b[k - |a|].cluster == c; }
    }
  }
}
