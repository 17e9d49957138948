/**
 Executing a batch of operations in member clusters in parallel, and collecting the
 versions they report, under every interleaving of completions, failures and timeout.
 */
module Updater {
  /** A resource version; 0 stands for the empty string. */
  type Version = nat

  /** What an object contains: a value for every field path. */
  type Content = map<seq<string>, string>

  datatype OperationType = Add | Update | Delete

  /** An update carries the resource version of the object it replaces. */
  datatype Operation = Operation(kind: OperationType, cluster: string, obj: Content, resourceVersion: Version)

  /** How an operation ends in its cluster. */
  datatype Outcome = Succeeded(version: Version) | NotFound | Failed | NoClient

  datatype UpdateError = OperationFailed(cluster: string) | TimedOut

  /** A delete that finds nothing has succeeded. */
  predicate Succeeds(op: Operation, outcome: Outcome) {
    outcome.Succeeded? || (outcome.NotFound? && op.kind.Delete?)
  }

  /** The version an operation reports; a delete reports none. */
  function ReportedVersion(op: Operation, outcome: Outcome): Version {
    if outcome.Succeeded? && !op.kind.Delete? then outcome.version else 0
  }

  predicate DistinctClusters(ops: seq<Operation>) {
    forall i, j :: 0 <= i < j < |ops| ==> ops[i].cluster != ops[j].cluster
  }

  predicate HasOperation(ops: seq<Operation>, c: string) {
    exists k :: 0 <= k < |ops| && ops[k].cluster == c
  }

  /** The results received before the timeout, as operation indices in order of arrival. */
  predicate ValidArrivals(ops: seq<Operation>, arrivals: seq<nat>) {
    && (forall i :: 0 <= i < |arrivals| ==> arrivals[i] < |ops|)
    && (forall i, j :: 0 <= i < j < |arrivals| ==> arrivals[i] != arrivals[j])
  }

  /** How member clusters treat a batch: the outcome of each operation, and which results arrive in time. */
  type Response = seq<Operation> -> (seq<Outcome>, seq<nat>)

  ghost predicate Responds(respond: Response) {
    forall ops :: |respond(ops).0| == |ops| && ValidArrivals(ops, respond(ops).1)
  }

  /** The version map after the given arrivals, later ones winning. */
  function Collected(ops: seq<Operation>, outcomes: seq<Outcome>, arrivals: seq<nat>): map<string, Version>
    requires |outcomes| == |ops| && forall i :: 0 <= i < |arrivals| ==> arrivals[i] < |ops|
  {
    if arrivals == [] then map[]
    else
      var before := Collected(ops, outcomes, arrivals[..|arrivals|-1]);
      var k := arrivals[|arrivals|-1];
      if Succeeds(ops[k], outcomes[k]) then before[ops[k].cluster := ReportedVersion(ops[k], outcomes[k])] else before
  }

  /** The loop that receives results; with fewer arrivals than operations the timeout strikes. */
  method ExecuteAll(ops: seq<Operation>, outcomes: seq<Outcome>, arrivals: seq<nat>)
    returns (versions: map<string, Version>, errors: seq<UpdateError>)
    requires |outcomes| == |ops| && ValidArrivals(ops, arrivals)
    ensures versions == Collected(ops, outcomes, arrivals)
    ensures errors == [] <==>
      |arrivals| >= |ops| && forall i :: 0 <= i < |arrivals| ==>
        outcomes[arrivals[i]].Succeeded? || (outcomes[arrivals[i]].NotFound? && ops[arrivals[i]].kind.Delete?)
    ensures TimedOut in errors <==> |arrivals| < |ops|
  {
    versions, errors := map[], [];
    var timedOut := false;
    var i := 0;
    ArrivalsAreFew(ops, arrivals);
    while i < |ops|
      invariant 0 <= i <= |arrivals|
      invariant !timedOut && versions == Collected(ops, outcomes, arrivals[..i])
      invariant TimedOut !in errors
      invariant errors == [] <==> forall j :: 0 <= j < i ==> Succeeds(ops[arrivals[j]], outcomes[arrivals[j]])
    {
      if i == |arrivals| {
        timedOut := true;
        break;
      }
      var k := arrivals[i];
      assert arrivals[..i+1][..i] == arrivals[..i];
      if !Succeeds(ops[k], outcomes[k]) {
        // Without a client the result does not even name its cluster.
        errors := errors + [OperationFailed(if outcomes[k].NoClient? then "" else ops[k].cluster)];
      } else {
        versions := versions[ops[k].cluster := ReportedVersion(ops[k], outcomes[k])];
      }
      i := i + 1;
    }
    assert arrivals[..|arrivals|] == arrivals;
    if timedOut {
      errors := errors + [TimedOut];
    }
  }

  lemma {:induction false} FewDistinct(s: seq<nat>, n: nat)
    requires forall i :: 0 <= i < |s| ==> s[i] < n
    requires forall i, j :: 0 <= i < j < |s| ==> s[i] != s[j]
    ensures |s| <= n
    ensures |s| == n ==> forall k :: 0 <= k < n ==> k in s
    decreases n
  {
    assert s != [] ==> s[0] < n;
    if n == 0 {
    } else if n - 1 in s {
      var i :| 0 <= i < |s| && s[i] == n - 1;
      var rest := s[..i] + s[i+1..];
      FewDistinct(rest, n - 1);
      assert forall k :: k in rest ==> k in s;
    } else {
      FewDistinct(s, n - 1);
    }
  }

  lemma ArrivalsAreFew(ops: seq<Operation>, arrivals: seq<nat>)
    requires ValidArrivals(ops, arrivals)
    ensures |arrivals| <= |ops|
    ensures |arrivals| == |ops| ==> forall k :: 0 <= k < |ops| ==> k in arrivals
  {
    FewDistinct(arrivals, |ops|);
  }

  /** With distinct clusters, the map holds exactly the clusters whose own operation was seen to succeed, with its version. */
  lemma {:induction false} CollectedExactly(ops: seq<Operation>, outcomes: seq<Outcome>, arrivals: seq<nat>)
    requires |outcomes| == |ops| && DistinctClusters(ops)
    requires forall i :: 0 <= i < |arrivals| ==> arrivals[i] < |ops|
    ensures forall k :: 0 <= k < |ops| ==>
      (ops[k].cluster in Collected(ops, outcomes, arrivals) <==>
         k in arrivals && (outcomes[k].Succeeded? || (outcomes[k].NotFound? && ops[k].kind.Delete?)))
    ensures forall k :: 0 <= k < |ops| && ops[k].cluster in Collected(ops, outcomes, arrivals) ==>
      Collected(ops, outcomes, arrivals)[ops[k].cluster] == if ops[k].kind.Delete? then 0 else outcomes[k].version
    ensures forall c :: c in Collected(ops, outcomes, arrivals) ==> HasOperation(ops, c)
  {
    if arrivals != [] {
      var front := arrivals[..|arrivals|-1];
      CollectedExactly(ops, outcomes, front);
      assert forall k :: k in arrivals <==> k in front || k == arrivals[|arrivals|-1];
    }
  }

  /** With distinct clusters, only which results arrived matters, not their order. */
  lemma ArrivalOrderIsIrrelevant(ops: seq<Operation>, outcomes: seq<Outcome>, a: seq<nat>, b: seq<nat>)
    requires |outcomes| == |ops| && DistinctClusters(ops)
    requires ValidArrivals(ops, a) && ValidArrivals(ops, b)
    requires forall k :: k in a <==> k in b
    ensures Collected(ops, outcomes, a) == Collected(ops, outcomes, b)
  {
    CollectedExactly(ops, outcomes, a);
    CollectedExactly(ops, outcomes, b);
    var va, vb := Collected(ops, outcomes, a), Collected(ops, outcomes, b);
    forall c ensures c in va <==> c in vb {
      if c in va { var k :| 0 <= k < |ops| && ops[k].cluster == c; assert ops[k].cluster in vb; }
      if c in vb { var k :| 0 <= k < |ops| && ops[k].cluster == c; assert ops[k].cluster in va; }
    }
    forall c | c in va ensures va[c] == vb[c] {
      var k :| 0 <= k < |ops| && ops[k].cluster == c;
      assert ops[k].cluster in va && ops[k].cluster in vb;
    }
  }

  /** No errors means that every operation's cluster is in the map, and no other. */
  lemma NoErrorsMeansAllClusters(ops: seq<Operation>, outcomes: seq<Outcome>, arrivals: seq<nat>)
    requires |outcomes| == |ops| && DistinctClusters(ops) && ValidArrivals(ops, arrivals)
    requires |arrivals| >= |ops|
    requires forall i :: 0 <= i < |arrivals| ==> Succeeds(ops[arrivals[i]], outcomes[arrivals[i]])
    ensures forall c :: c in Collected(ops, outcomes, arrivals) <==> HasOperation(ops, c)
  {
    ArrivalsAreFew(ops, arrivals);
    CollectedExactly(ops, outcomes, arrivals);
    forall c | HasOperation(ops, c) ensures c in Collected(ops, outcomes, arrivals) {
      var k :| 0 <= k < |ops| && ops[k].cluster == c;
      assert k in arrivals;
    }
  }

  /** Two operations on one cluster: the map then depends on which result arrives last. */
  lemma SharedClusterDependsOnOrder(c: string, obj: Content, v: Version, w: Version)
    requires v != w
    ensures
      var ops := [Operation(Add, c, obj, 0), Operation(Add, c, obj, 0)];
      var outcomes := [Succeeded(v), Succeeded(w)];
      && ValidArrivals(ops, [0, 1]) && ValidArrivals(ops, [1, 0])
      && Collected(ops, outcomes, [0, 1]) != Collected(ops, outcomes, [1, 0])
  {
    var ops := [Operation(Add, c, obj, 0), Operation(Add, c, obj, 0)];
    var outcomes := [Succeeded(v), Succeeded(w)];
    var a: seq<nat>, b: seq<nat> := [0, 1], [1, 0];
    assert a[..|a|-1] == [0] && b[..|b|-1] == [1];
    assert Collected(ops, outcomes, a)[c] == w && Collected(ops, outcomes, b)[c] == v;
  }
}
