/**
 One reconciliation of a federated resource: what each cluster should hold, which
 operations bring it there, executing them, and recording the versions written.
 */
module Sync {
  import opened Collections
  import opened Strings
  import opened Updater
  import opened PropagatedVersion

  /** A template as read: its version and the object body it carries, if any. */
  datatype Template = Template(version: Version, body: Option<Content>)

  datatype OverrideEntry = OverrideEntry(cluster: string, data: Option<string>)

  /** An override as read: its version and its list of per-cluster entries, if any. */
  datatype Override = Override(version: Version, entries: Option<seq<OverrideEntry>>)

  /** An object in a member cluster. */
  datatype ClusterObject = ClusterObject(content: Content, version: Version)

  function OverrideVersion(o: Option<Override>): Version {
    if o.Some? then o.value.version else 0
  }

  // ---------- The desired object ----------

  function FirstEntry(entries: seq<OverrideEntry>, cluster: string): Option<OverrideEntry> {
    if entries == [] then None
    else if entries[0].cluster == cluster then Some(entries[0])
    else FirstEntry(entries[1..], cluster)
  }

  /** The template body, with the field at `path` replaced by the cluster's first override entry. */
  function DesiredObject(t: Template, o: Option<Override>, path: seq<string>, cluster: string): Result<Content> {
    if t.body.None? then Err("no template body")
    else if o.None? || o.value.entries.None? then Ok(t.body.value)
    else if path == [] then Err("override path is missing")
    else
      var e := FirstEntry(o.value.entries.value, cluster);
      if e.Some? && e.value.data.Some? then Ok(t.body.value[path := e.value.data.value]) else Ok(t.body.value)
  }

  /** The i-th entry is the first one that names the cluster. */
  ghost predicate IsFirst(entries: seq<OverrideEntry>, cluster: string, i: int) {
    0 <= i < |entries| && entries[i].cluster == cluster && forall j :: 0 <= j < i ==> entries[j].cluster != cluster
  }

  /** There is a body, and no list of overrides without a field to override. */
  predicate Renderable(t: Template, o: Option<Override>, path: seq<string>) {
    t.body.Some? && (o.Some? && o.value.entries.Some? ==> path != [])
  }

  /** `obj` is the body, except that the first override entry of the cluster decides the field if it has data. */
  ghost predicate IsDesired(t: Template, o: Option<Override>, path: seq<string>, cluster: string, obj: Content) {
    && t.body.Some?
    && (o.None? || o.value.entries.None? ==> obj == t.body.value)
    && (o.Some? && o.value.entries.Some? ==>
          var entries := o.value.entries.value;
          && (forall i :: IsFirst(entries, cluster, i) ==>
                obj == if entries[i].data.Some? then t.body.value[path := entries[i].data.value] else t.body.value)
          && ((forall i :: !IsFirst(entries, cluster, i)) ==> obj == t.body.value))
  }

  lemma {:induction false} FirstEntryIsFirst(entries: seq<OverrideEntry>, cluster: string)
    ensures FirstEntry(entries, cluster).None? <==> forall i :: !IsFirst(entries, cluster, i)
    ensures forall i :: IsFirst(entries, cluster, i) ==> FirstEntry(entries, cluster) == Some(entries[i])
  {
    if entries != [] {
      var rest := entries[1..];
      FirstEntryIsFirst(rest, cluster);
      if entries[0].cluster == cluster {
        assert IsFirst(entries, cluster, 0);
      } else {
        forall i ensures IsFirst(entries, cluster, i) <==> i > 0 && IsFirst(rest, cluster, i - 1) {
          if i > 0 && IsFirst(rest, cluster, i - 1) {
            forall j | 0 <= j < i ensures entries[j].cluster != cluster { if j > 0 { assert entries[j] == rest[j-1]; } }
          }
          if IsFirst(entries, cluster, i) {
            assert i > 0;
            forall j | 0 <= j < i - 1 ensures rest[j].cluster != cluster { assert rest[j] == entries[j+1]; }
          }
        }
        if k :| IsFirst(rest, cluster, k) { assert IsFirst(entries, cluster, k + 1); }
      }
    }
  }

  /** What is desired in a cluster, and when that cannot be said. */
  lemma DesiredObjectIs(t: Template, o: Option<Override>, path: seq<string>, cluster: string)
    ensures DesiredObject(t, o, path, cluster).Ok? <==> Renderable(t, o, path)
    ensures DesiredObject(t, o, path, cluster).Ok? ==> IsDesired(t, o, path, cluster, DesiredObject(t, o, path, cluster).value)
  {
    if o.Some? && o.value.entries.Some? { FirstEntryIsFirst(o.value.entries.value, cluster); }
  }

  method ObjectForCluster(t: Template, o: Option<Override>, path: seq<string>, cluster: string) returns (r: Result<Content>)
    ensures r == DesiredObject(t, o, path, cluster)
    ensures r.Err? <==> t.body.None? || (o.Some? && o.value.entries.Some? && path == [])
    ensures r.Ok? && (o.None? || o.value.entries.None?) ==> r.value == t.body.value
    ensures r.Ok? && o.Some? && o.value.entries.Some? ==>
      var entries := o.value.entries.value;
      && (forall i :: 0 <= i < |entries| && entries[i].cluster == cluster && (forall j :: 0 <= j < i ==> entries[j].cluster != cluster) ==>
            r.value == if entries[i].data.Some? then t.body.value[path := entries[i].data.value] else t.body.value)
      && ((forall i :: 0 <= i < |entries| ==> entries[i].cluster != cluster) ==> r.value == t.body.value)
  {
    if t.body.None? {
      return Err("no template body");
    }
    var obj := t.body.value;
    if o.None? || o.value.entries.None? {
      return Ok(obj);
    }
    if path == [] {
      return Err("override path is missing");
    }
    var entries := o.value.entries.value;
    var i := 0;
    while i < |entries|
      invariant 0 <= i <= |entries| && obj == t.body.value
      invariant forall j :: 0 <= j < i ==> entries[j].cluster != cluster
      invariant FirstEntry(entries, cluster) == FirstEntry(entries[i..], cluster)
    {
      if entries[i].cluster == cluster {
        if entries[i].data.Some? {
          obj := obj[path := entries[i].data.value];
        }
        return Ok(obj);
      }
      assert entries[i..][1..] == entries[i+1..];
      i := i + 1;
    }
    return Ok(obj);
  }

  // ---------- Operations ----------

  /** What the operations of one reconcile are computed from. */
  datatype Inputs = Inputs(
    template: Template,
    override: Option<Override>,
    path: seq<string>,
    stores: map<string, ClusterObject>,
    unreadable: set<string>,
    versions: map<string, Version>)

  /** The operation a selected cluster needs, if any, given its desired object. */
  function SelectedOperation(inp: Inputs, cluster: string, desired: Content): Option<Operation> {
    if cluster !in inp.stores then Some(Operation(Add, cluster, desired, 0))
    else
      var clusterObj := inp.stores[cluster];
      if cluster !in inp.versions || inp.versions[cluster] != clusterObj.version
      then Some(Operation(Update, cluster, desired, clusterObj.version))
      else None
  }

  function UnselectedOperation(inp: Inputs, cluster: string): Option<Operation> {
    if cluster in inp.stores then Some(Operation(Delete, cluster, inp.stores[cluster].content, inp.stores[cluster].version))
    else None
  }

  function ListOf<T>(o: Option<T>): seq<T> {
    if o.Some? then [o.value] else []
  }

  function SelectedOperations(inp: Inputs, selected: seq<string>): Result<seq<Operation>> {
    if selected == [] then Ok([])
    else
      var front, c := SelectedOperations(inp, selected[..|selected|-1]), selected[|selected|-1];
      if front.Err? then front
      else
        var desired := DesiredObject(inp.template, inp.override, inp.path, c);
        if desired.Err? then Err(desired.message)
        else if c in inp.unreadable then Err("cannot read cluster")
        else Ok(front.value + ListOf(SelectedOperation(inp, c, desired.value)))
  }

  function UnselectedOperations(inp: Inputs, unselected: seq<string>): Result<seq<Operation>> {
    if unselected == [] then Ok([])
    else
      var front, c := UnselectedOperations(inp, unselected[..|unselected|-1]), unselected[|unselected|-1];
      if front.Err? then front
      else if c in inp.unreadable then Err("cannot read cluster")
      else Ok(front.value + ListOf(UnselectedOperation(inp, c)))
  }

  function OperationsFor(inp: Inputs, selected: seq<string>, unselected: seq<string>): Result<seq<Operation>> {
    var a := SelectedOperations(inp, selected);
    if a.Err? then a
    else
      var b := UnselectedOperations(inp, unselected);
      if b.Err? then b else Ok(a.value + b.value)
  }

  method ClusterOperations(inp: Inputs, selected: seq<string>, unselected: seq<string>) returns (r: Result<seq<Operation>>)
    ensures r == OperationsFor(inp, selected, unselected)
  {
    var operations: seq<Operation> := [];
    for i := 0 to |selected|
      invariant SelectedOperations(inp, selected[..i]) == Ok(operations)
    {
      var c := selected[i];
      assert selected[..i+1][..i] == selected[..i];
      ghost var before := operations;
      assert before + [] == before;
      var desired := ObjectForCluster(inp.template, inp.override, inp.path, c);
      if desired.Err? {
        SelectedErrorSpreads(inp, selected, i + 1);
        return Err(desired.message);
      }
      if c in inp.unreadable {
        SelectedErrorSpreads(inp, selected, i + 1);
        return Err("cannot read cluster");
      }
      if c in inp.stores {
        var clusterObj := inp.stores[c];
        if c !in inp.versions {
          operations := operations + [Operation(Update, c, desired.value, clusterObj.version)];
        } else if inp.versions[c] != clusterObj.version {
          operations := operations + [Operation(Update, c, desired.value, clusterObj.version)];
        }
      } else {
        operations := operations + [Operation(Add, c, desired.value, 0)];
      }
    }
    assert selected[..|selected|] == selected;
    ghost var forSelected := operations;
    ghost var forUnselected: seq<Operation> := [];
    for i := 0 to |unselected|
      invariant operations == forSelected + forUnselected
      invariant UnselectedOperations(inp, unselected[..i]) == Ok(forUnselected)
    {
      var c := unselected[i];
      assert unselected[..i+1][..i] == unselected[..i];
      assert forUnselected + [] == forUnselected;
      if c in inp.unreadable {
        UnselectedErrorSpreads(inp, unselected, i + 1);
        return Err("cannot read cluster");
      }
      if c in inp.stores {
        var op := Operation(Delete, c, inp.stores[c].content, inp.stores[c].version);
        operations := operations + [op];
        forUnselected := forUnselected + [op];
      }
    }
    assert unselected[..|unselected|] == unselected;
    return Ok(operations);
  }

  lemma {:induction false} SelectedErrorSpreads(inp: Inputs, selected: seq<string>, i: nat)
    requires i <= |selected| && SelectedOperations(inp, selected[..i]).Err?
    ensures SelectedOperations(inp, selected) == SelectedOperations(inp, selected[..i])
    decreases |selected|
  {
    if i == |selected| { assert selected[..i] == selected; }
    else {
      assert selected[..|selected|-1][..i] == selected[..i];
      SelectedErrorSpreads(inp, selected[..|selected|-1], i);
    }
  }

  lemma {:induction false} UnselectedErrorSpreads(inp: Inputs, unselected: seq<string>, i: nat)
    requires i <= |unselected| && UnselectedOperations(inp, unselected[..i]).Err?
    ensures UnselectedOperations(inp, unselected) == UnselectedOperations(inp, unselected[..i])
    decreases |unselected|
  {
    if i == |unselected| { assert unselected[..i] == unselected; }
    else {
      assert unselected[..|unselected|-1][..i] == unselected[..i];
      UnselectedErrorSpreads(inp, unselected[..|unselected|-1], i);
    }
  }

  // ---------- What the operations are ----------

  /** The cluster is out of step with the record: the object is missing or not the recorded one. */
  predicate OutOfStep(inp: Inputs, c: string) {
    c !in inp.stores || c !in inp.versions || inp.versions[c] != inp.stores[c].version
  }

  ghost predicate IsSelectedOperation(inp: Inputs, op: Operation) {
    && OutOfStep(inp, op.cluster)
    && DesiredObject(inp.template, inp.override, inp.path, op.cluster) == Ok(op.obj)
    && op.kind == (if op.cluster in inp.stores then Update else Add)
    && (op.kind.Update? ==> op.resourceVersion == inp.stores[op.cluster].version)
  }

  lemma {:induction false} SelectedOperationsExactly(inp: Inputs, selected: seq<string>)
    requires SelectedOperations(inp, selected).Ok?
    ensures forall op :: op in SelectedOperations(inp, selected).value ==> op.cluster in selected && IsSelectedOperation(inp, op)
    ensures forall c :: c in selected && OutOfStep(inp, c) ==> HasOperation(SelectedOperations(inp, selected).value, c)
    ensures forall c :: c in selected ==> DesiredObject(inp.template, inp.override, inp.path, c).Ok?
  {
    if selected != [] {
      var front, last := selected[..|selected|-1], selected[|selected|-1];
      SelectedOperationsExactly(inp, front);
      var a, b := SelectedOperations(inp, front).value, SelectedOperations(inp, selected).value;
      forall c | c in selected && OutOfStep(inp, c) ensures HasOperation(b, c) {
        if c == last {
          assert b[|a|].cluster == c;
        } else {
          assert c in front;
          var k :| 0 <= k < |a| && a[k].cluster == c;
          assert b[k].cluster == c;
        }
      }
    }
  }

  lemma {:induction false} UnselectedOperationsExactly(inp: Inputs, unselected: seq<string>)
    requires UnselectedOperations(inp, unselected).Ok?
    ensures forall op :: op in UnselectedOperations(inp, unselected).value ==>
              op.cluster in unselected && op.cluster in inp.stores && op.kind.Delete?
    ensures forall c :: c in unselected && c in inp.stores ==> HasOperation(UnselectedOperations(inp, unselected).value, c)
  {
    if unselected != [] {
      var front, last := unselected[..|unselected|-1], unselected[|unselected|-1];
      UnselectedOperationsExactly(inp, front);
      var a, b := UnselectedOperations(inp, front).value, UnselectedOperations(inp, unselected).value;
      forall c | c in unselected && c in inp.stores ensures HasOperation(b, c) {
        if c == last {
          assert b[|a|].cluster == c;
        } else {
          assert c in front;
          var k :| 0 <= k < |a| && a[k].cluster == c;
          assert b[k].cluster == c;
        }
      }
    }
  }

  lemma SelectedOkNext(inp: Inputs, selected: seq<string>)
    requires selected != []
    ensures SelectedOperations(inp, selected).Ok? <==>
      && SelectedOperations(inp, selected[..|selected|-1]).Ok?
      && selected[|selected|-1] !in inp.unreadable && Renderable(inp.template, inp.override, inp.path)
  {
    DesiredObjectIs(inp.template, inp.override, inp.path, selected[|selected|-1]);
  }

  /** There is an error exactly when some cluster cannot be read, or its object cannot be rendered. */
  lemma {:induction false} SelectedOkIff(inp: Inputs, selected: seq<string>)
    ensures SelectedOperations(inp, selected).Ok? <==>
      forall c :: c in selected ==> c !in inp.unreadable && Renderable(inp.template, inp.override, inp.path)
  {
    if selected != [] {
      SelectedOkIff(inp, selected[..|selected|-1]);
      SelectedOkNext(inp, selected);
      assert selected == selected[..|selected|-1] + [selected[|selected|-1]];
    }
  }

  lemma {:induction false} UnselectedOkIff(inp: Inputs, unselected: seq<string>)
    ensures UnselectedOperations(inp, unselected).Ok? <==> forall c :: c in unselected ==> c !in inp.unreadable
  {
    if unselected != [] {
      var front, last := unselected[..|unselected|-1], unselected[|unselected|-1];
      UnselectedOkIff(inp, front);
      assert forall c :: c in unselected <==> c in front || c == last;
    }
  }

  lemma OperationsOkIff(inp: Inputs, selected: seq<string>, unselected: seq<string>)
    ensures OperationsFor(inp, selected, unselected).Ok? <==>
      && (forall c :: c in selected ==> c !in inp.unreadable && Renderable(inp.template, inp.override, inp.path))
      && (forall c :: c in unselected ==> c !in inp.unreadable)
  {
    SelectedOkIff(inp, selected);
    UnselectedOkIff(inp, unselected);
  }

  /** The operations are in the order of the clusters they are for, one at most for each. */
  ghost predicate Subsequence(ops: seq<Operation>, names: seq<string>) {
    DistinctClusters(ops) && forall k :: 0 <= k < |ops| ==> ops[k].cluster in names
  }

  lemma {:induction false} SelectedDistinct(inp: Inputs, selected: seq<string>)
    requires SelectedOperations(inp, selected).Ok? && NoRepeats(selected)
    ensures Subsequence(SelectedOperations(inp, selected).value, selected)
  {
    if selected != [] {
      SelectedDistinct(inp, selected[..|selected|-1]);
    }
  }

  lemma {:induction false} UnselectedDistinct(inp: Inputs, unselected: seq<string>)
    requires UnselectedOperations(inp, unselected).Ok? && NoRepeats(unselected)
    ensures Subsequence(UnselectedOperations(inp, unselected).value, unselected)
  {
    if unselected != [] {
      UnselectedDistinct(inp, unselected[..|unselected|-1]);
    }
  }

  /** Over a partition of the clusters no cluster is operated on twice. */
  lemma OneOperationPerCluster(inp: Inputs, selected: seq<string>, unselected: seq<string>)
    requires NoRepeats(selected + unselected) && OperationsFor(inp, selected, unselected).Ok?
    ensures DistinctClusters(OperationsFor(inp, selected, unselected).value)
  {
    var both := selected + unselected;
    forall i, j | 0 <= i < j < |selected| ensures selected[i] != selected[j] { assert both[i] != both[j]; }
    forall i, j | 0 <= i < j < |unselected| ensures unselected[i] != unselected[j] {
      assert both[|selected|+i] != both[|selected|+j];
    }
    SelectedDistinct(inp, selected);
    UnselectedDistinct(inp, unselected);
    forall i, j | 0 <= i < |selected| && 0 <= j < |unselected| ensures selected[i] != unselected[j] {
      assert both[i] != both[|selected|+j];
    }
  }

  /** There is nothing to do exactly when every selected cluster holds its recorded version and no other cluster holds the object. */
  lemma NothingToDoIffInStep(inp: Inputs, selected: seq<string>, unselected: seq<string>)
    requires OperationsFor(inp, selected, unselected).Ok?
    ensures OperationsFor(inp, selected, unselected).value == [] <==>
      (forall c :: c in selected ==> !OutOfStep(inp, c)) && (forall c :: c in unselected ==> c !in inp.stores)
  {
    SelectedOperationsExactly(inp, selected);
    UnselectedOperationsExactly(inp, unselected);
    var a, b := SelectedOperations(inp, selected).value, UnselectedOperations(inp, unselected).value;
    if a != [] { assert a[0] in a; }
    if b != [] { assert b[0] in b; }
    if a + b == [] {
      assert |a| == 0 && |b| == 0;
    }
  }

  // ---------- The reconcile as a whole ----------

  datatype ReconcileStatus = AllOK | NeedsRecheck | Error | NotSynced

  /** Synchronizes the clusters, which treat the operations as `respond` says, and records what was written. */
  method SyncToClusters(recorder: Recorder, key: string, inp: Inputs, stored: Option<Status>,
                        selected: seq<string>, unselected: seq<string>, respond: Response, w: ApiWrite)
    returns (status: ReconcileStatus, operations: seq<Operation>, now: Option<Status>)
    requires WellStored(stored) && Responds(respond)
    requires inp.versions == RecordedFor(MeaningOf(stored), inp.template.version, OverrideVersion(inp.override))
    modifies recorder
    ensures WellStored(now)
    ensures match OperationsFor(inp, selected, unselected)
      case Err(_) => status == Error && operations == [] && now == stored && recorder.pending == old(recorder.pending)
      case Ok(ops) =>
        operations == ops &&
        if ops == [] then status == AllOK && now == stored && recorder.pending == old(recorder.pending)
        else
          var (outcomes, arrivals) := respond(ops);
          && MeaningOf(now) == NextRecord(MeaningOf(stored), inp.template.version, OverrideVersion(inp.override),
                                          Collected(ops, outcomes, arrivals), selected, w)
          && recorder.pending == PendingAfter(old(recorder.pending), key, MeaningOf(stored), inp.template.version,
                                              OverrideVersion(inp.override), Collected(ops, outcomes, arrivals), selected, w)
          && status == (if |arrivals| >= |ops| && (forall i :: 0 <= i < |arrivals| ==>
                           outcomes[arrivals[i]].Succeeded? || (outcomes[arrivals[i]].NotFound? && ops[arrivals[i]].kind.Delete?))
                        then AllOK else Error)
  {
    var propagated := GetClusterVersions(inp.template.version, OverrideVersion(inp.override), stored);
    var r := ClusterOperations(inp.(versions := propagated), selected, unselected);
    if r.Err? {
      return Error, [], stored;
    }
    operations := r.value;
    if operations == [] {
      return AllOK, operations, stored;
    }
    var updated, errors := ExecuteAll(operations, respond(operations).0, respond(operations).1);
    var recorded, wrote;
    now, recorded, wrote := recorder.UpdatePropagatedVersion(key, updated, inp.template.version, OverrideVersion(inp.override), stored, selected, w);
    status := if errors != [] then Error else AllOK;
  }
}
