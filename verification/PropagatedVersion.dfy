/**
 The record of which object versions were propagated from a template and an override:
 reading it, merging new versions into it, and writing it back only when it changed.
 */
module PropagatedVersion {
  import opened Collections
  import opened Strings
  import opened Sorting
  import opened Updater

  datatype ClusterVersion = ClusterVersion(cluster: string, version: Version)

  /** A status: cluster versions are a slice sorted by cluster name, or nil (None), which is not the same as empty. */
  datatype Status = Status(template: Version, override: Version, clusters: Option<seq<ClusterVersion>>)

  /** What a status means. */
  datatype Record = Record(template: Version, override: Version, versions: map<string, Version>)

  const EMPTY_RECORD := Record(0, 0, map[])
  const EMPTY_STATUS := Status(0, 0, None)

  // ---------- Slices and maps ----------

  predicate ByCluster(a: ClusterVersion, b: ClusterVersion) {
    StringLess(a.cluster, b.cluster)
  }

  function AsMap(clusters: seq<ClusterVersion>): map<string, Version> {
    if clusters == [] then map[]
    else AsMap(clusters[..|clusters|-1])[clusters[|clusters|-1].cluster := clusters[|clusters|-1].version]
  }

  ghost predicate Ordered(clusters: seq<ClusterVersion>) {
    forall i, j :: 0 <= i < j < |clusters| ==> ByCluster(clusters[i], clusters[j])
  }

  /** The slice lists exactly the entries of the map, in order of cluster name. */
  ghost predicate Lists(clusters: seq<ClusterVersion>, m: map<string, Version>) {
    && Ordered(clusters)
    && forall e :: e in clusters <==> e.cluster in m && m[e.cluster] == e.version
  }

  function Entries(s: Status): seq<ClusterVersion> {
    if s.clusters.Some? then s.clusters.value else []
  }

  function Meaning(s: Status): Record {
    Record(s.template, s.override, AsMap(Entries(s)))
  }

  /** What the server keeps of a status: an empty slice is left out, and reads back as nil. */
  function Kept(s: Status): Status {
    if Entries(s) == [] then s.(clusters := None) else s
  }

  lemma {:induction false} AsMapKeys(clusters: seq<ClusterVersion>, c: string)
    ensures c in AsMap(clusters) <==> exists i :: 0 <= i < |clusters| && clusters[i].cluster == c
  {
    if clusters != [] {
      var front, last := clusters[..|clusters|-1], clusters[|clusters|-1];
      AsMapKeys(front, c);
      assert last.cluster == clusters[|clusters|-1].cluster;
      if c in AsMap(front) {
        var i :| 0 <= i < |front| && front[i].cluster == c;
        assert clusters[i].cluster == c;
      } else if c != last.cluster {
        assert forall i :: 0 <= i < |front| ==> front[i] == clusters[i];
      }
    }
  }

  lemma {:induction false} AsMapValue(clusters: seq<ClusterVersion>, i: nat)
    requires Ordered(clusters) && i < |clusters|
    ensures clusters[i].cluster in AsMap(clusters) && AsMap(clusters)[clusters[i].cluster] == clusters[i].version
    decreases |clusters|
  {
    if i < |clusters| - 1 {
      assert clusters[..|clusters|-1][i] == clusters[i];
      AsMapValue(clusters[..|clusters|-1], i);
      assert ByCluster(clusters[i], clusters[|clusters|-1]);
      LessIsAsymmetric(clusters[i].cluster, clusters[|clusters|-1].cluster);
    }
  }

  lemma AsMapEntries(clusters: seq<ClusterVersion>)
    requires Ordered(clusters)
    ensures forall c :: c in AsMap(clusters) <==> exists i :: 0 <= i < |clusters| && clusters[i].cluster == c
    ensures forall i :: 0 <= i < |clusters| ==>
              clusters[i].cluster in AsMap(clusters) && AsMap(clusters)[clusters[i].cluster] == clusters[i].version
  {
    forall c ensures c in AsMap(clusters) <==> exists i :: 0 <= i < |clusters| && clusters[i].cluster == c { AsMapKeys(clusters, c); }
    forall i | 0 <= i < |clusters|
      ensures clusters[i].cluster in AsMap(clusters) && AsMap(clusters)[clusters[i].cluster] == clusters[i].version
    {
      AsMapValue(clusters, i);
    }
  }

  lemma AsMapLists(clusters: seq<ClusterVersion>)
    requires Ordered(clusters)
    ensures forall c, v :: c in AsMap(clusters) && AsMap(clusters)[c] == v <==> ClusterVersion(c, v) in clusters
  {
    AsMapEntries(clusters);
    forall c, v ensures c in AsMap(clusters) && AsMap(clusters)[c] == v <==> ClusterVersion(c, v) in clusters {
      if c in AsMap(clusters) {
        var i :| 0 <= i < |clusters| && clusters[i].cluster == c;
        assert clusters[i] == ClusterVersion(c, AsMap(clusters)[c]);
      }
      if ClusterVersion(c, v) in clusters {
        var i :| 0 <= i < |clusters| && clusters[i] == ClusterVersion(c, v);
      }
    }
  }

  /** Reading a listed slice gives back the map. */
  lemma ListedReadsBack(clusters: seq<ClusterVersion>, m: map<string, Version>)
    requires Lists(clusters, m)
    ensures AsMap(clusters) == m
  {
    AsMapEntries(clusters);
    forall c ensures c in AsMap(clusters) <==> c in m {
      if c in m { assert ClusterVersion(c, m[c]) in clusters; }
      if c in AsMap(clusters) {
        var i :| 0 <= i < |clusters| && clusters[i].cluster == c;
        assert clusters[i] in clusters;
      }
    }
    forall c | c in m ensures AsMap(clusters)[c] == m[c] {
      assert ClusterVersion(c, m[c]) in clusters;
    }
  }

  lemma OrderedIsSorted(clusters: seq<ClusterVersion>)
    requires Ordered(clusters)
    ensures Sorted(ByCluster, clusters)
    ensures forall i, j :: 0 <= i < j < |clusters| ==> clusters[i].cluster != clusters[j].cluster
  {
    forall i, j | 0 <= i < j < |clusters|
      ensures !ByCluster(clusters[j], clusters[i]) && clusters[i].cluster != clusters[j].cluster
    {
      assert ByCluster(clusters[i], clusters[j]);
      LessIsAsymmetric(clusters[i].cluster, clusters[j].cluster);
    }
  }

  lemma BothEmpty<T>(a: seq<T>, b: seq<T>)
    requires forall e :: e in a <==> e in b
    ensures a == [] <==> b == []
  {
    if a != [] { assert a[0] in b; }
    if b != [] { assert b[0] in a; }
  }

  /** A map has only one sorted slice, so comparing slices compares what they record. */
  lemma {:induction false} SliceIsCanonical(a: seq<ClusterVersion>, b: seq<ClusterVersion>)
    requires Ordered(a) && Ordered(b)
    requires forall e :: e in a <==> e in b
    ensures a == b
  {
    OrderedIsSorted(a);
    OrderedIsSorted(b);
    BothEmpty(a, b);
    if a != [] {
      assert a[0] in b;
      assert b[0] in a;
      assert a[0] == b[0];
      forall e ensures e in a[1..] <==> e in b[1..] {
        assert e in a <==> e == a[0] || e in a[1..];
        assert e in b <==> e == b[0] || e in b[1..];
      }
      SliceIsCanonical(a[1..], b[1..]);
      assert a == [a[0]] + a[1..] && b == [b[0]] + b[1..];
    }
  }

  lemma ByClusterIsWeakOrder()
    ensures StrictWeakOrder(ByCluster)
  {
    StringOrder();
  }

  lemma SortedEntries(clusters: seq<ClusterVersion>, sorted: seq<ClusterVersion>, m: map<string, Version>)
    requires Sorted(ByCluster, sorted) && multiset(sorted) == multiset(clusters)
    requires forall e :: e in clusters <==> e.cluster in m && m[e.cluster] == e.version
    requires forall e :: multiset(clusters)[e] <= 1
    ensures Lists(sorted, m)
  {
    forall e ensures e in sorted <==> e in clusters {
      assert e in sorted <==> e in multiset(sorted);
      assert e in clusters <==> e in multiset(clusters);
    }
    forall i, j | 0 <= i < j < |sorted| ensures ByCluster(sorted[i], sorted[j]) {
      assert sorted[i] in sorted && sorted[j] in sorted;
      if sorted[i] == sorted[j] { DuplicateCounts(sorted, i, j); }
      LessIsAsymmetric(sorted[i].cluster, sorted[j].cluster);
    }
  }

  /** Converts a map to a slice, visiting it in any order, and sorts the slice. */
  method SortedSlice(m: map<string, Version>) returns (sorted: seq<ClusterVersion>)
    ensures Lists(sorted, m)
  {
    var clusters: seq<ClusterVersion> := [];
    var keys := m.Keys;
    while keys != {}
      invariant keys <= m.Keys
      invariant forall e :: e in clusters <==> e.cluster in m && m[e.cluster] == e.version && e.cluster !in keys
      invariant forall e :: multiset(clusters)[e] <= 1
      decreases keys
    {
      var c :| c in keys;
      keys := keys - {c};
      clusters := clusters + [ClusterVersion(c, m[c])];
    }
    ByClusterIsWeakOrder();
    var slice := new ClusterVersion[|clusters|](i requires 0 <= i < |clusters| => clusters[i]);
    assert slice[..] == clusters;
    Sort(slice, ByCluster);
    sorted := slice[..];
    SortedEntries(clusters, sorted, m);
  }

  // ---------- Reading a record ----------

  /** The versions recorded for exactly this template and override version. */
  function RecordedFor(r: Option<Record>, template: Version, override: Version): map<string, Version> {
    if r.Some? && r.value.template == template && r.value.override == override then r.value.versions else map[]
  }

  function MeaningOf(s: Option<Status>): Option<Record> {
    if s.Some? then Some(Meaning(s.value)) else None
  }

  method GetClusterVersions(template: Version, override: Version, stored: Option<Status>) returns (versions: map<string, Version>)
    ensures versions == RecordedFor(MeaningOf(stored), template, override)
    ensures stored.None? || stored.value.template != template || stored.value.override != override ==> versions == map[]
    ensures stored.Some? && stored.value.template == template && stored.value.override == override && Ordered(Entries(stored.value)) ==>
      forall c, v :: c in versions && versions[c] == v <==> ClusterVersion(c, v) in Entries(stored.value)
  {
    if stored.Some? && Ordered(Entries(stored.value)) { AsMapLists(Entries(stored.value)); }
    versions := map[];
    if stored.None? {
      return;
    }
    var clusters := Entries(stored.value);
    assert clusters[..|clusters|] == clusters;
    if template == stored.value.template && override == stored.value.override {
      for i := 0 to |clusters|
        invariant versions == AsMap(clusters[..i])
      {
        assert clusters[..i+1][..i] == clusters[..i];
        versions := versions[clusters[i].cluster := clusters[i].version];
      }
    }
  }

  // ---------- Merging versions ----------

  /** New versions win; old ones are retained for selected clusters that have no new one; empty versions are dropped. */
  function Merged(updated: map<string, Version>, previous: map<string, Version>, selected: seq<string>): map<string, Version> {
    map c | c in updated.Keys + previous.Keys
          && (if c in updated then updated[c] else if c in selected then previous[c] else 0) != 0
      :: if c in updated then updated[c] else previous[c]
  }

  /** The versions before empty ones are dropped. */
  function Retained(updated: map<string, Version>, previous: map<string, Version>, selected: seq<string>): map<string, Version> {
    map c | c in updated.Keys + previous.Keys && (c in updated || c in selected)
      :: if c in updated then updated[c] else previous[c]
  }

  lemma RetainOne(updated: map<string, Version>, previous: map<string, Version>, e: ClusterVersion, selected: seq<string>)
    requires e.cluster !in previous
    ensures var before := Retained(updated, previous, selected);
      Retained(updated, previous[e.cluster := e.version], selected) ==
      if e.cluster in selected && e.cluster !in before then before[e.cluster := e.version] else before
  {
  }

  lemma LastIsNew(clusters: seq<ClusterVersion>)
    requires Ordered(clusters) && clusters != []
    ensures clusters[|clusters|-1].cluster !in AsMap(clusters[..|clusters|-1])
  {
    OrderedIsSorted(clusters);
    AsMapEntries(clusters[..|clusters|-1]);
  }

  /** What merging means, entry by entry. */
  lemma MergedMeans(newVersions: map<string, Version>, oldVersions: seq<ClusterVersion>, selected: seq<string>, merged: seq<ClusterVersion>)
    requires Ordered(oldVersions) && Lists(merged, Merged(newVersions, AsMap(oldVersions), selected))
    ensures forall c, v :: ClusterVersion(c, v) in merged <==>
      v != 0 && if c in newVersions then newVersions[c] == v else c in selected && ClusterVersion(c, v) in oldVersions
  {
    AsMapLists(oldVersions);
  }

  method MergeVersions(newVersions: map<string, Version>, oldVersions: seq<ClusterVersion>, selected: seq<string>)
    returns (merged: seq<ClusterVersion>)
    requires Ordered(oldVersions)
    ensures Lists(merged, Merged(newVersions, AsMap(oldVersions), selected))
    ensures forall c, v :: ClusterVersion(c, v) in merged <==>
      v != 0 && if c in newVersions then newVersions[c] == v else c in selected && ClusterVersion(c, v) in oldVersions
  {
    var versions := newVersions;
    assert oldVersions[..|oldVersions|] == oldVersions;
    for i := 0 to |oldVersions|
      invariant versions == Retained(newVersions, AsMap(oldVersions[..i]), selected)
    {
      var o := oldVersions[i];
      assert oldVersions[..i+1][..i] == oldVersions[..i];
      LastIsNew(oldVersions[..i+1]);
      RetainOne(newVersions, AsMap(oldVersions[..i]), o, selected);
      if o.cluster in selected && o.cluster !in versions {
        versions := versions[o.cluster := o.version];
      }
    }
    var kept := map c | c in versions && versions[c] != 0 :: versions[c];
    assert kept == Merged(newVersions, AsMap(oldVersions), selected);
    merged := SortedSlice(kept);
    MergedMeans(newVersions, oldVersions, selected, merged);
  }

  // ---------- Writing a record ----------

  /**
   How the API server takes a write: whether creating fails, whether it keeps the status of a
   created object or clears it, and whether the status update fails.
   */
  datatype ApiWrite = ApiWrite(createFails: bool, keepsStatus: bool, updateFails: bool)

  /** The record to store for this template and override after these versions were reported. */
  function Renewed(r: Record, template: Version, override: Version, updated: map<string, Version>, selected: seq<string>): Record {
    Record(template, override,
      Merged(updated, if r.template == template && r.override == override then r.versions else map[], selected))
  }

  /**
   What is stored after a reconcile has written the record.  A new record is created with the
   reported versions as they are; what creation returned is then written as the status.
   */
  function NextRecord(r: Option<Record>, template: Version, override: Version, updated: map<string, Version>,
                      selected: seq<string>, w: ApiWrite): Option<Record>
  {
    match r
    case None =>
      if w.createFails then None
      else if w.keepsStatus then Some(Record(template, override, updated)) else Some(EMPTY_RECORD)
    case Some(previous) =>
      if w.updateFails then Some(previous) else Some(Renewed(previous, template, override, updated, selected))
  }

  /**
   The stored record is left alone: it would not change, and it lists some cluster.  One that lists none
   is written again, because its nil slice never compares equal to the empty one just made.
   */
  predicate LeftAlone(r: Option<Record>, template: Version, override: Version, updated: map<string, Version>, selected: seq<string>) {
    r.Some? && Renewed(r.value, template, override, updated, selected) == r.value && r.value.versions != map[]
  }

  /**
   Which keys are marked after that.  Nothing is sent, or marked, when creating fails or the stored
   record is left alone; a failing status update clears the mark of its key.
   */
  function PendingAfter(pending: set<string>, key: string, r: Option<Record>, template: Version, override: Version,
                        updated: map<string, Version>, selected: seq<string>, w: ApiWrite): set<string>
  {
    if (r.None? && w.createFails) || LeftAlone(r, template, override, updated, selected) then pending
    else if w.updateFails then pending - {key}
    else pending + {key}
  }

  lemma KeptMeansTheSame(s: Status)
    requires Ordered(Entries(s))
    ensures Meaning(Kept(s)) == Meaning(s) && Kept(Kept(s)) == Kept(s) && Ordered(Entries(Kept(s)))
  {
  }

  /** A status as it is read back from the server. */
  ghost predicate WellStored(s: Option<Status>) {
    s.Some? ==> Ordered(Entries(s.value)) && Kept(s.value) == s.value
  }

  /**
   A stored status equals one just made exactly when both record the same and list some cluster.
   */
  lemma EquivalentIffSameMeaning(stored: Status, made: Status)
    requires Ordered(Entries(stored)) && Ordered(Entries(made))
    requires Kept(stored) == stored && made.clusters.Some?
    ensures stored == made <==> Meaning(stored) == Meaning(made) && Meaning(stored).versions != map[]
  {
    var a, b := Entries(stored), Entries(made);
    EmptyMeansNone(a);
    if Meaning(stored) == Meaning(made) {
      AsMapEntries(a);
      AsMapEntries(b);
      forall e ensures e in a <==> e in b {
        if e in a { SameEntry(a, b, e); }
        if e in b { SameEntry(b, a, e); }
      }
      SliceIsCanonical(a, b);
    }
  }

  lemma EmptyMeansNone(clusters: seq<ClusterVersion>)
    ensures AsMap(clusters) == map[] <==> clusters == []
  {
    if clusters != [] { assert clusters[|clusters|-1].cluster in AsMap(clusters); }
  }

  lemma SameEntry(a: seq<ClusterVersion>, b: seq<ClusterVersion>, e: ClusterVersion)
    requires Ordered(a) && Ordered(b) && AsMap(a) == AsMap(b) && e in a
    ensures e in b
  {
    AsMapEntries(a);
    AsMapEntries(b);
    var i :| 0 <= i < |a| && a[i] == e;
    assert a[i].cluster in AsMap(b);
    var j :| 0 <= j < |b| && b[j].cluster == e.cluster;
    assert b[j] == e;
  }

  method NewVersion(updated: map<string, Version>, template: Version, override: Version) returns (made: Status)
    ensures made.clusters.Some? && Ordered(Entries(made)) && Meaning(made) == Record(template, override, updated)
    ensures made.template == template && made.override == override
    ensures forall c, v :: ClusterVersion(c, v) in Entries(made) <==> c in updated && updated[c] == v
  {
    var clusters := SortedSlice(updated);
    ListedReadsBack(clusters, updated);
    made := Status(template, override, Some(clusters));
  }

  method RenewedStatus(stored: Status, updated: map<string, Version>, template: Version, override: Version, selected: seq<string>)
    returns (made: Status)
    requires Ordered(Entries(stored))
    ensures made.clusters.Some? && Ordered(Entries(made))
    ensures Meaning(made) == Renewed(Meaning(stored), template, override, updated, selected)
    ensures made.template == template && made.override == override
    ensures forall c, v :: ClusterVersion(c, v) in Entries(made) <==>
      v != 0 && if c in updated then updated[c] == v
                else c in selected && stored.template == template && stored.override == override && ClusterVersion(c, v) in Entries(stored)
  {
    var existing: seq<ClusterVersion> := [];
    if stored.template == template && stored.override == override {
      existing := Entries(stored);
    }
    var merged := MergeVersions(updated, existing, selected);
    ListedReadsBack(merged, Merged(updated, AsMap(existing), selected));
    made := Status(template, override, Some(merged));
  }

  /** The controller's side of writing records: the keys with a status update under way. */
  class Recorder {
    var pending: set<string>

    constructor ()
      ensures pending == {}
    {
      pending := {};
    }

    /** The informer reports an update of a record. */
    method OnUpdate(key: string)
      modifies this
      ensures pending == old(pending) - {key}
    {
      if key in pending {
        pending := pending - {key};
      }
    }

    /**
     Records the versions an update reported.  `stored` is the record this reconcile read and the
     server's answers are given by `w`; `now` is what the server holds afterwards if it held `stored`.
     */
    method UpdatePropagatedVersion(key: string, updated: map<string, Version>, template: Version, override: Version,
                                   stored: Option<Status>, selected: seq<string>, w: ApiWrite)
      returns (now: Option<Status>, ok: bool, wrote: bool)
      requires WellStored(stored)
      modifies this
      ensures WellStored(now)
      ensures MeaningOf(now) == NextRecord(MeaningOf(stored), template, override, updated, selected, w)
      // the mark
      ensures forall k :: k != key ==> (k in pending <==> k in old(pending))
      ensures wrote ==> key in pending
      ensures !ok && !(stored.None? && w.createFails) ==> w.updateFails && key !in pending
      ensures (ok && !wrote) || (stored.None? && w.createFails) ==> pending == old(pending) && now == stored
      // what is stored
      ensures stored.None? ==> (ok <==> !w.createFails && !w.updateFails) && (ok ==> wrote)
      ensures stored.None? && !w.createFails && w.keepsStatus ==>
        && now.Some?
        && now.value.template == template && now.value.override == override
        && forall c, v :: ClusterVersion(c, v) in Entries(now.value) <==> c in updated && updated[c] == v
      ensures stored.None? && !w.createFails && !w.keepsStatus ==> now == Some(Status(0, 0, None))
      ensures stored.Some? && ok ==>
        && now.Some?
        && now.value.template == template && now.value.override == override
        && forall c, v :: ClusterVersion(c, v) in Entries(now.value) <==>
             v != 0 && if c in updated then updated[c] == v
                       else c in selected && stored.value.template == template && stored.value.override == override
                            && ClusterVersion(c, v) in Entries(stored.value)
      ensures stored.Some? ==> (wrote <==> ok && (now != stored || Entries(stored.value) == []))
      // both, in terms of records
      ensures wrote <==> ok && !LeftAlone(MeaningOf(stored), template, override, updated, selected)
      ensures !ok && stored.Some? ==> now == stored
      ensures pending == PendingAfter(old(pending), key, MeaningOf(stored), template, override, updated, selected, w)
      ensures ok <==> match MeaningOf(stored)
        case None => !w.createFails && !w.updateFails
        case Some(_) => !w.updateFails || LeftAlone(MeaningOf(stored), template, override, updated, selected)
    {
      if stored.None? {
        if w.createFails {
          return None, false, false;
        }
        var made := NewVersion(updated, template, override);
        KeptMeansTheSame(made);
        var created := if w.keepsStatus then Kept(made) else EMPTY_STATUS;
        pending := pending + {key};
        if w.updateFails {
          pending := pending - {key};
          return Some(created), false, false;
        }
        return Some(created), true, true;
      }
      var status := RenewedStatus(stored.value, updated, template, override, selected);
      EquivalentIffSameMeaning(stored.value, status);
      KeptMeansTheSame(status);
      if stored.value == status {
        return stored, true, false;
      }
      pending := pending + {key};
      if w.updateFails {
        pending := pending - {key};
        return stored, false, false;
      }
      return Some(Kept(status)), true, true;
    }
  }
}
