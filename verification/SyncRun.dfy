/**
 Whole runs of propagation for one resource: users edit the template and the override,
 anybody writes to member clusters, caches lag behind by any amount, and reconciles
 succeed, fail or time out in any mix.
 */
module SyncRun {
  import opened Collections
  import opened Strings
  import opened Updater
  import opened PropagatedVersion
  import opened Sync

  /**
   The world.  Every write anywhere takes the next version from `clock`; `templates`, `overrides`
   and `written` remember everything that ever existed, `records` every record ever stored.
   */
  datatype World = World(
    clock: Version,
    templates: map<Version, Template>,
    overrides: map<Version, Override>,
    written: map<(string, Version), Content>,
    live: map<string, ClusterObject>,
    records: set<Record>,
    record: Option<Record>)

  ghost predicate Initial(w: World) {
    w == World(0, map[], map[], map[], map[], {}, None)
  }

  // ---------- Writes ----------

  function WriteObject(w: World, c: string, content: Content): World {
    var v := w.clock + 1;
    w.(clock := v, written := w.written[(c, v) := content], live := w.live[c := ClusterObject(content, v)])
  }

  /** The operation can be applied: nothing to overwrite, or exactly the object it was made for. */
  predicate Applicable(w: World, op: Operation) {
    match op.kind
    case Add => op.cluster !in w.live
    case Update => op.cluster in w.live && w.live[op.cluster].version == op.resourceVersion
    case Delete => true
  }

  /** An update that changes nothing leaves the object and its version alone. */
  function Apply(w: World, op: Operation): World {
    match op.kind
    case Add => WriteObject(w, op.cluster, op.obj)
    case Update =>
      if op.cluster in w.live && w.live[op.cluster].content == op.obj then w else WriteObject(w, op.cluster, op.obj)
    case Delete => w.(live := w.live - {op.cluster})
  }

  function ApplyAll(w: World, ops: seq<Operation>, applied: seq<bool>): World
    requires |applied| == |ops|
  {
    if ops == [] then w
    else
      var before := ApplyAll(w, ops[..|ops|-1], applied[..|ops|-1]);
      if applied[|ops|-1] then Apply(before, ops[|ops|-1]) else before
  }

  /** How each operation ends: those applied report the version the cluster then holds, the others fail. */
  function Outcomes(w: World, ops: seq<Operation>, applied: seq<bool>): (outcomes: seq<Outcome>)
    requires |applied| == |ops|
    ensures |outcomes| == |ops|
  {
    if ops == [] then []
    else
      var front, op := ops[..|ops|-1], ops[|ops|-1];
      var before := ApplyAll(w, front, applied[..|ops|-1]);
      Outcomes(w, front, applied[..|ops|-1]) +
      [if !applied[|ops|-1] then Failed
       else if op.cluster in Apply(before, op).live then Succeeded(Apply(before, op).live[op.cluster].version)
       else Succeeded(0)]
  }

  ghost predicate AllApplicable(w: World, ops: seq<Operation>, applied: seq<bool>)
    requires |applied| == |ops|
  {
    forall i :: 0 <= i < |ops| && applied[i] ==> Applicable(ApplyAll(w, ops[..i], applied[..i]), ops[i])
  }

  // ---------- Steps ----------

  /** What one reconcile reads, and how the world treats its requests. */
  datatype Attempt = Attempt(
    inputs: Inputs,
    cached: Option<Record>,
    selected: seq<string>,
    unselected: seq<string>,
    applied: seq<bool>,
    arrivals: seq<nat>,
    api: ApiWrite)

  function Updated(w: World, ops: seq<Operation>, a: Attempt): map<string, Version>
    requires |a.applied| == |ops| && ValidArrivals(ops, a.arrivals)
  {
    Collected(ops, Outcomes(w, ops, a.applied), a.arrivals)
  }

  /** Everything read is authentic, though it may be stale: it existed at some time. */
  ghost predicate Authentic(w: World, a: Attempt) {
    var inp := a.inputs;
    && inp.template.version in w.templates && w.templates[inp.template.version] == inp.template
    && (inp.override.Some? ==>
          inp.override.value.version in w.overrides && w.overrides[inp.override.value.version] == inp.override.value)
    && (a.cached.Some? ==> a.cached.value in w.records)
    && inp.versions == RecordedFor(a.cached, inp.template.version, OverrideVersion(inp.override))
    && (forall c :: c in inp.stores ==>
          (c, inp.stores[c].version) in w.written && w.written[(c, inp.stores[c].version)] == inp.stores[c].content)
  }

  ghost predicate CanAttempt(w: World, a: Attempt) {
    && Authentic(w, a)
    && NoRepeats(a.selected + a.unselected)
    && var r := OperationsFor(a.inputs, a.selected, a.unselected);
       r.Ok? && r.value != []
       && |a.applied| == |r.value| && ValidArrivals(r.value, a.arrivals) && AllApplicable(w, r.value, a.applied)
  }

  function Stored(w: World, r: Option<Record>): World {
    w.(record := r, records := if r.Some? then w.records + {r.value} else w.records)
  }

  /** The world after a reconcile that had something to do and wrote its record. */
  ghost function Attempted(w: World, a: Attempt): World
    requires CanAttempt(w, a)
  {
    var ops := OperationsFor(a.inputs, a.selected, a.unselected).value;
    Stored(ApplyAll(w, ops, a.applied),
           NextRecord(a.cached, a.inputs.template.version, OverrideVersion(a.inputs.override), Updated(w, ops, a), a.selected, a.api))
  }

  datatype Step =
    | EditTemplate(body: Option<Content>)
    | EditOverride(entries: Option<seq<OverrideEntry>>)
    | WriteInCluster(cluster: string, content: Content)
    | DeleteInCluster(cluster: string)
    | Reconcile(attempt: Attempt)
    | ReconcileUnrecorded(attempt: Attempt)

  ghost predicate Next(w: World, s: Step, w': World) {
    var v := w.clock + 1;
    match s
    case EditTemplate(body) => w' == w.(clock := v, templates := w.templates[v := Template(v, body)])
    case EditOverride(entries) => w' == w.(clock := v, overrides := w.overrides[v := Override(v, entries)])
    case WriteInCluster(c, content) => w' == WriteObject(w, c, content)
    case DeleteInCluster(c) => w' == w.(live := w.live - {c})
    case Reconcile(a) => CanAttempt(w, a) && w' == Attempted(w, a)
    // the server refuses the record, for instance because the cached one was stale
    case ReconcileUnrecorded(a) =>
      CanAttempt(w, a) && w' == ApplyAll(w, OperationsFor(a.inputs, a.selected, a.unselected).value, a.applied)
  }

  ghost predicate Run(ws: seq<World>, steps: seq<Step>) {
    && |ws| == |steps| + 1 && Initial(ws[0])
    && forall i :: 0 <= i < |steps| ==> Next(ws[i], steps[i], ws[i+1])
  }

  // ---------- The invariant ----------

  /** Versions are never reused, and what is live was written. */
  ghost predicate Consistent(w: World) {
    && (forall v :: v in w.templates ==> 0 < v <= w.clock && w.templates[v].version == v)
    && (forall v :: v in w.overrides ==> 0 < v <= w.clock && w.overrides[v].version == v)
    && (forall k :: k in w.written ==> 0 < k.1 <= w.clock)
    && (forall c :: c in w.live ==>
          (c, w.live[c].version) in w.written && w.written[(c, w.live[c].version)] == w.live[c].content)
  }

  /** The entry names an object that was written from exactly the template and override of its record. */
  ghost predicate EntrySound(w: World, path: seq<string>, r: Record, c: string) {
    c in r.versions && r.versions[c] != 0 ==>
      && (c, r.versions[c]) in w.written
      && r.template in w.templates
      && (r.override != 0 ==> r.override in w.overrides)
      && DesiredObject(w.templates[r.template], if r.override != 0 then Some(w.overrides[r.override]) else None, path, c)
         == Ok(w.written[(c, r.versions[c])])
  }

  ghost predicate RecordSound(w: World, path: seq<string>, r: Record) {
    forall c :: EntrySound(w, path, r, c)
  }

  ghost predicate Sound(w: World, path: seq<string>) {
    Consistent(w) && forall r :: r in w.records ==> RecordSound(w, path, r)
  }

  /** History only grows. */
  ghost predicate Extends(w: World, w': World) {
    && w.clock <= w'.clock
    && (forall k :: k in w.written ==> k in w'.written && w'.written[k] == w.written[k])
    && (forall v :: v in w.templates ==> v in w'.templates && w'.templates[v] == w.templates[v])
    && (forall v :: v in w.overrides ==> v in w'.overrides && w'.overrides[v] == w.overrides[v])
  }

  lemma RecordStaysSound(w: World, w': World, path: seq<string>, r: Record)
    requires RecordSound(w, path, r) && Extends(w, w')
    ensures RecordSound(w', path, r)
  {
    forall c ensures EntrySound(w', path, r, c) {
      assert EntrySound(w, path, r, c);
    }
  }

  /** In cluster c the two worlds hold the same. */
  ghost predicate SameIn(w: World, w': World, c: string) {
    (c in w'.live <==> c in w.live) && (c in w.live ==> w'.live[c] == w.live[c])
  }

  ghost predicate SameHistory(w: World, w': World) {
    && w'.records == w.records && w'.record == w.record
    && w'.templates == w.templates && w'.overrides == w.overrides
  }

  lemma WriteKeeps(w: World, c: string, content: Content)
    requires Consistent(w)
    ensures Consistent(WriteObject(w, c, content)) && Extends(w, WriteObject(w, c, content))
  {
    var w' := WriteObject(w, c, content);
    assert (c, w.clock + 1) !in w.written;
    assert Extends(w, w');
  }

  lemma ApplyKeeps(w: World, op: Operation)
    requires Consistent(w)
    ensures Consistent(Apply(w, op)) && Extends(w, Apply(w, op)) && SameHistory(w, Apply(w, op))
    ensures forall c :: c != op.cluster ==> SameIn(w, Apply(w, op), c)
    ensures if op.kind.Delete? then op.cluster !in Apply(w, op).live
            else op.cluster in Apply(w, op).live && Apply(w, op).live[op.cluster].content == op.obj
  {
    if !op.kind.Delete? { WriteKeeps(w, op.cluster, op.obj); }
  }

  lemma {:induction false} ApplyAllKeeps(w: World, ops: seq<Operation>, applied: seq<bool>)
    requires Consistent(w) && |applied| == |ops|
    ensures var w' := ApplyAll(w, ops, applied);
      && Consistent(w') && Extends(w, w') && SameHistory(w, w')
      && forall c :: !HasOperation(ops, c) ==> SameIn(w, w', c)
  {
    if ops != [] {
      var front := ops[..|ops|-1];
      ApplyAllKeeps(w, front, applied[..|ops|-1]);
      ApplyKeeps(ApplyAll(w, front, applied[..|ops|-1]), ops[|ops|-1]);
      forall c | !HasOperation(ops, c) ensures !HasOperation(front, c) && c != ops[|ops|-1].cluster {
        NotBefore(ops, c);
      }
    }
  }

  lemma NotBefore(ops: seq<Operation>, c: string)
    requires ops != [] && !HasOperation(ops, c)
    ensures !HasOperation(ops[..|ops|-1], c) && c != ops[|ops|-1].cluster
  {
    var front := ops[..|ops|-1];
    assert forall k :: 0 <= k < |front| ==> front[k] == ops[k];
  }

  lemma LastIsAlone(ops: seq<Operation>)
    requires ops != [] && DistinctClusters(ops)
    ensures !HasOperation(ops[..|ops|-1], ops[|ops|-1].cluster)
    ensures DistinctClusters(ops[..|ops|-1])
  {
  }

  /** The operation has ended as its outcome says. */
  ghost predicate Ended(w: World, w': World, op: Operation, applied: bool, o: Outcome) {
    if !applied then o.Failed? && SameIn(w, w', op.cluster)
    else
      && o.Succeeded?
      && if op.kind.Delete? then op.cluster !in w'.live
         else op.cluster in w'.live && w'.live[op.cluster] == ClusterObject(op.obj, o.version)
  }

  lemma EndedStays(w: World, w': World, w'': World, op: Operation, applied: bool, o: Outcome)
    requires Ended(w, w', op, applied, o) && SameIn(w', w'', op.cluster)
    ensures Ended(w, w'', op, applied, o)
  {
  }

  /** After the batch, each applied operation's cluster holds its object, at the version it reported. */
  lemma {:induction false} AppliedHolds(w: World, ops: seq<Operation>, applied: seq<bool>, k: nat)
    requires Consistent(w) && |applied| == |ops| && DistinctClusters(ops) && k < |ops|
    ensures Ended(w, ApplyAll(w, ops, applied), ops[k], applied[k], Outcomes(w, ops, applied)[k])
    decreases |ops|
  {
    var front, op, rest := ops[..|ops|-1], ops[|ops|-1], applied[..|ops|-1];
    var before, after := ApplyAll(w, front, rest), ApplyAll(w, ops, applied);
    LastIsAlone(ops);
    ApplyAllKeeps(w, front, rest);
    ApplyKeeps(before, op);
    if k < |front| {
      AppliedHolds(w, front, rest, k);
      assert Outcomes(w, ops, applied)[k] == Outcomes(w, front, rest)[k];
      assert SameIn(before, after, ops[k].cluster);
      EndedStays(w, before, after, ops[k], applied[k], Outcomes(w, ops, applied)[k]);
    }
  }

  // ---------- Soundness over runs ----------

  /** Reported versions name objects just written from the template and override of the attempt. */
  lemma UpdatedIsSound(w: World, a: Attempt, c: string)
    requires Consistent(w) && CanAttempt(w, a)
    ensures var ops := OperationsFor(a.inputs, a.selected, a.unselected).value;
      var w', updated := ApplyAll(w, ops, a.applied), Updated(w, ops, a);
      c in updated && updated[c] != 0 ==>
        && (c, updated[c]) in w'.written
        && DesiredObject(a.inputs.template, a.inputs.override, a.inputs.path, c) == Ok(w'.written[(c, updated[c])])
  {
    var ops := OperationsFor(a.inputs, a.selected, a.unselected).value;
    var outcomes := Outcomes(w, ops, a.applied);
    OneOperationPerCluster(a.inputs, a.selected, a.unselected);
    CollectedExactly(ops, outcomes, a.arrivals);
    ApplyAllKeeps(w, ops, a.applied);
    if c in Updated(w, ops, a) && Updated(w, ops, a)[c] != 0 {
      var k :| 0 <= k < |ops| && ops[k].cluster == c;
      AppliedHolds(w, ops, a.applied, k);
      SelectedOperationsExactly(a.inputs, a.selected);
      UnselectedOperationsExactly(a.inputs, a.unselected);
      assert ops[k] in ops;
    }
  }

  lemma AttemptKeepsSound(w: World, a: Attempt)
    requires Sound(w, a.inputs.path) && CanAttempt(w, a)
    ensures Sound(Attempted(w, a), a.inputs.path)
  {
    var path, inp := a.inputs.path, a.inputs;
    var ops := OperationsFor(inp, a.selected, a.unselected).value;
    var w1 := ApplyAll(w, ops, a.applied);
    var w' := Attempted(w, a);
    ApplyAllKeeps(w, ops, a.applied);
    assert Extends(w, w');
    forall r | r in w'.records ensures RecordSound(w', path, r) {
      if r in w.records {
        RecordStaysSound(w, w', path, r);
      } else {
        NewRecordSound(w, a, r);
      }
    }
  }

  lemma NewRecordSound(w: World, a: Attempt, r: Record)
    requires Sound(w, a.inputs.path) && CanAttempt(w, a)
    requires Attempted(w, a).record == Some(r)
    ensures RecordSound(Attempted(w, a), a.inputs.path, r)
  {
    var path, inp := a.inputs.path, a.inputs;
    var ops := OperationsFor(inp, a.selected, a.unselected).value;
    var w' := Attempted(w, a);
    ApplyAllKeeps(w, ops, a.applied);
    if a.cached.Some? { RecordStaysSound(w, w', path, a.cached.value); }
    forall c ensures EntrySound(w', path, r, c) {
      UpdatedIsSound(w, a, c);
      if a.cached.Some? { assert EntrySound(w', path, a.cached.value, c); }
    }
  }

  lemma StepKeepsSound(w: World, s: Step, w': World, path: seq<string>)
    requires Sound(w, path) && Next(w, s, w')
    requires s.Reconcile? || s.ReconcileUnrecorded? ==> s.attempt.inputs.path == path
    ensures Sound(w', path)
  {
    match s
    case Reconcile(a) => AttemptKeepsSound(w, a);
    case ReconcileUnrecorded(a) =>
      ApplyAllKeeps(w, OperationsFor(a.inputs, a.selected, a.unselected).value, a.applied);
      forall r | r in w'.records ensures RecordSound(w', path, r) { RecordStaysSound(w, w', path, r); }
    case _ =>
      assert Extends(w, w');
      forall r | r in w'.records ensures RecordSound(w', path, r) { RecordStaysSound(w, w', path, r); }
  }

  /** Over every run, every record ever stored names objects written from exactly its template and override. */
  lemma {:induction false} RunsAreSound(ws: seq<World>, steps: seq<Step>, path: seq<string>, i: nat)
    requires Run(ws, steps) && i < |ws|
    requires forall k :: 0 <= k < |steps| && (steps[k].Reconcile? || steps[k].ReconcileUnrecorded?) ==>
               steps[k].attempt.inputs.path == path
    ensures Sound(ws[i], path)
  {
    if i > 0 {
      RunsAreSound(ws, steps, path, i - 1);
      assert Next(ws[i-1], steps[i-1], ws[i]);
      StepKeepsSound(ws[i-1], steps[i-1], ws[i], path);
    }
  }

  /**
   Fixpoint soundness: at any moment of any run, with caches as stale as they may be, a reconcile
   that finds nothing to do has read the desired object in every selected cluster and none in the others.
   */
  lemma NothingToDoMeansPropagated(ws: seq<World>, steps: seq<Step>, path: seq<string>, i: nat, a: Attempt)
    requires Run(ws, steps) && i < |ws|
    requires forall k :: 0 <= k < |steps| && (steps[k].Reconcile? || steps[k].ReconcileUnrecorded?) ==>
               steps[k].attempt.inputs.path == path
    requires Authentic(ws[i], a) && a.inputs.path == path
    requires OperationsFor(a.inputs, a.selected, a.unselected) == Ok([])
    ensures forall c :: c in a.selected ==>
              c in a.inputs.stores
              && DesiredObject(a.inputs.template, a.inputs.override, path, c) == Ok(a.inputs.stores[c].content)
    ensures forall c :: c in a.unselected ==> c !in a.inputs.stores
  {
    RunsAreSound(ws, steps, path, i);
    NothingToDoIffInStep(a.inputs, a.selected, a.unselected);
    var w, inp := ws[i], a.inputs;
    forall c | c in a.selected
      ensures c in inp.stores && DesiredObject(inp.template, inp.override, path, c) == Ok(inp.stores[c].content)
    {
      assert !OutOfStep(inp, c);
      assert RecordSound(w, path, a.cached.value);
      assert EntrySound(w, path, a.cached.value, c);
    }
  }
}
