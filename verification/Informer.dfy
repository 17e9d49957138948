/**
 The federated informer: which clusters it runs a target informer for, and the stop channel
 of each, as cluster events arrive and until it is stopped.
 */
module Informer {
  import opened Collections
  import opened Strings

  /** A registered cluster; `spec` stands for everything whose change restarts its informer. */
  datatype Cluster = Cluster(ready: bool, spec: string)

  /**
   A change the cluster informer observes.  `clientOk` says whether a client can be built if one is
   needed.  A vanished cluster is one whose deletion is only seen as a tombstone.
   */
  datatype Delta =
    | Upsert(name: string, cluster: Cluster, clientOk: bool)
    | Remove(name: string)
    | Vanish(name: string)

  type Channel = nat

  function ReadyIn(store: map<string, Cluster>): set<string> {
    set name | name in store && store[name].ready
  }

  function UnreadyIn(store: map<string, Cluster>): set<string> {
    set name | name in store && !store[name].ready
  }

  /** The registered clusters after a sequence of changes. */
  function StoreAfter(store: map<string, Cluster>, deltas: seq<Delta>): map<string, Cluster> {
    if deltas == [] then store
    else
      var before := StoreAfter(store, deltas[..|deltas|-1]);
      match deltas[|deltas|-1]
      case Upsert(name, cluster, _) => before[name := cluster]
      case Remove(name) => before - {name}
      case Vanish(name) => before - {name}
  }

  /** The latest change of a cluster decides whether it is registered, and how. */
  lemma {:induction false} LatestDecides(store: map<string, Cluster>, deltas: seq<Delta>, i: nat)
    requires i < |deltas| && forall j :: i < j < |deltas| ==> deltas[j].name != deltas[i].name
    ensures deltas[i].name in StoreAfter(store, deltas) <==> deltas[i].Upsert?
    ensures deltas[i].Upsert? ==> StoreAfter(store, deltas)[deltas[i].name] == deltas[i].cluster
  {
    if i < |deltas| - 1 { LatestDecides(store, deltas[..|deltas|-1], i); }
  }

  lemma {:induction false} OthersStay(store: map<string, Cluster>, deltas: seq<Delta>, name: string)
    requires forall d :: d in deltas ==> d.name != name
    ensures name in StoreAfter(store, deltas) <==> name in store
    ensures name in store ==> StoreAfter(store, deltas)[name] == store[name]
  {
    if deltas != [] {
      assert deltas[|deltas|-1] in deltas;
      OthersStay(store, deltas[..|deltas|-1], name);
    }
  }

  /** Whether a change makes the informer of an added or changed cluster start anew. */
  predicate Restarts(store: map<string, Cluster>, name: string, cluster: Cluster) {
    if name in store then store[name] != cluster else cluster.ready
  }

  /** The clusters without an informer for want of a client: each change that restarts one decides anew. */
  function ClientlessAfter(clientless: set<string>, store: map<string, Cluster>, deltas: seq<Delta>): set<string> {
    if deltas == [] then clientless
    else
      var front := deltas[..|deltas|-1];
      var before := ClientlessAfter(clientless, store, front);
      match deltas[|deltas|-1]
      case Upsert(name, cluster, clientOk) =>
        if !Restarts(StoreAfter(store, front), name, cluster) then before
        else if cluster.ready && !clientOk then before + {name} else before - {name}
      case Remove(name) => before - {name}
      case Vanish(_) => before
  }

  /** The change is one of the cluster, ready but without a client. */
  predicate Fails(d: Delta, name: string) {
    d.Upsert? && d.name == name && d.cluster.ready && !d.clientOk
  }

  /**
   A cluster is only left out for a failing client of its own, and until it is next restarted:
   no other cluster's failure counts.
   */
  lemma {:induction false} OnlyOwnFailureCounts(clientless: set<string>, store: map<string, Cluster>, deltas: seq<Delta>, name: string)
    requires name in ClientlessAfter(clientless, store, deltas) && name !in clientless
    ensures exists i :: 0 <= i < |deltas| && Fails(deltas[i], name)
                        && forall j :: i < j < |deltas| ==>
                             deltas[j] != Remove(name)
                             && !(deltas[j].Upsert? && deltas[j].name == name && Restarts(StoreAfter(store, deltas[..j]), name, deltas[j].cluster))
  {
    var front, d := deltas[..|deltas|-1], deltas[|deltas|-1];
    if !(Fails(d, name) && Restarts(StoreAfter(store, front), name, d.cluster)) {
      OnlyOwnFailureCounts(clientless, store, front, name);
      var i :| 0 <= i < |front| && Fails(front[i], name)
               && forall j :: i < j < |front| ==>
                    front[j] != Remove(name)
                    && !(front[j].Upsert? && front[j].name == name && Restarts(StoreAfter(store, front[..j]), name, front[j].cluster));
      assert Fails(deltas[i], name);
      forall j | i < j < |deltas|
        ensures deltas[j] != Remove(name)
        ensures !(deltas[j].Upsert? && deltas[j].name == name && Restarts(StoreAfter(store, deltas[..j]), name, deltas[j].cluster))
      {
        if j < |front| {
          assert front[j] == deltas[j] && front[..j] == deltas[..j];
        } else {
          assert deltas[..j] == front;
        }
      }
    }
  }

  lemma ReadyAfterUpsert(store: map<string, Cluster>, name: string, cluster: Cluster)
    ensures ReadyIn(store[name := cluster]) == ReadyIn(store) - {name} + (if cluster.ready then {name} else {})
    ensures ReadyIn(store - {name}) == ReadyIn(store) - {name}
  {
  }

  class FederatedInformer {
    /** The cluster informer's store, which is brought up to date before handlers run. */
    var store: map<string, Cluster>
    /** The stop channel of each running target informer. */
    var targets: map<string, Channel>
    /** Channels made and not yet closed; closing any other channel would panic. */
    var open: set<Channel>
    var nextChannel: Channel
    var stopped: bool
    /** Clusters for which no client could be built when their informer was last to start. */
    ghost var clientless: set<string>

    ghost predicate Valid()
      reads this
    {
      && (forall name :: name in targets ==> targets[name] in open)
      && (forall a, b :: a in targets && b in targets && a != b ==> targets[a] != targets[b])
      && (forall ch :: ch in open ==> ch < nextChannel)
    }

    /** Every open channel belongs to a running informer. */
    ghost predicate NothingLeaked()
      reads this
    {
      forall ch :: ch in open ==> exists name :: name in targets && targets[name] == ch
    }

    /** The running informers are exactly those of the ready clusters that a client could be built for. */
    ghost predicate Agrees()
      reads this
    {
      targets.Keys == ReadyIn(store) - clientless
    }

    constructor ()
      ensures Valid() && NothingLeaked() && Agrees() && !stopped
      ensures store == map[] && clientless == {}
    {
      store, targets, open, nextChannel, stopped := map[], map[], {}, 0, false;
      clientless := {};
    }

    method Close(ch: Channel)
      requires ch in open
      modifies this`open
      ensures open == old(open) - {ch}
    {
      open := open - {ch};
    }

    /** Starts a target informer for the cluster, if the store has it ready and a client can be built. */
    method AddCluster(name: string, clientOk: bool)
      requires Valid()
      modifies this`targets, this`open, this`nextChannel, this`clientless
      ensures Valid()
      ensures var started := name in store && store[name].ready && clientOk;
        && targets == (if started then old(targets)[name := old(nextChannel)] else old(targets))
        && open == (if started then old(open) + {old(nextChannel)} else old(open))
        && clientless == (if started then old(clientless) - {name} else old(clientless) + {name})
      ensures old(NothingLeaked()) && name !in old(targets) ==> NothingLeaked()
    {
      if name in store && store[name].ready && clientOk {
        var ch := nextChannel;
        nextChannel := nextChannel + 1;
        open := open + {ch};
        ghost var before := targets;
        targets := targets[name := ch];
        clientless := clientless - {name};
        if old(NothingLeaked()) && name !in before {
          forall c | c in open ensures exists n :: n in targets && targets[n] == c {
            if c == ch {
              assert targets[name] == c;
            } else {
              var n :| n in before && before[n] == c;
              assert targets[n] == c;
            }
          }
        }
      } else {
        clientless := clientless + {name};
      }
    }

    /** Stops the cluster's target informer, if one is running. */
    method DeleteCluster(name: string)
      requires Valid()
      modifies this`targets, this`open, this`clientless
      ensures Valid() && targets == old(targets) - {name} && clientless == old(clientless) - {name}
      ensures open == if name in old(targets) then old(open) - {old(targets)[name]} else old(open)
      ensures old(NothingLeaked()) ==> NothingLeaked()
    {
      ghost var before := targets;
      if name in targets {
        Close(targets[name]);
      }
      targets := targets - {name};
      clientless := clientless - {name};
      if old(NothingLeaked()) {
        forall c | c in open ensures exists n :: n in targets && targets[n] == c {
          var n :| n in before && before[n] == c;
          assert targets[n] == c;
        }
      }
    }

    method OnAdd(name: string, cluster: Cluster, clientOk: bool)
      requires Valid() && name in store && store[name] == cluster
      modifies this`targets, this`open, this`nextChannel, this`clientless
      ensures Valid()
      ensures old(NothingLeaked()) && name !in old(targets) ==> NothingLeaked()
      ensures targets.Keys == if cluster.ready && clientOk then old(targets.Keys) + {name} else old(targets.Keys)
      ensures cluster.ready && clientOk ==> targets[name] !in old(open) && open == old(open) + {targets[name]}
      ensures targets - {name} == old(targets) - {name}
      ensures clientless == if !cluster.ready then old(clientless)
                            else if clientOk then old(clientless) - {name} else old(clientless) + {name}
    {
      if cluster.ready {
        AddCluster(name, clientOk);
      }
    }

    /** A change of readiness or of the spec restarts the informer; any other update is ignored. */
    method OnUpdate(name: string, previous: Cluster, cluster: Cluster, clientOk: bool)
      requires Valid() && name in store && store[name] == cluster
      modifies this`targets, this`open, this`nextChannel, this`clientless
      ensures Valid()
      ensures old(NothingLeaked()) ==> NothingLeaked()
      ensures previous == cluster ==> targets == old(targets) && open == old(open) && clientless == old(clientless)
      ensures targets - {name} == old(targets) - {name}
      ensures previous != cluster ==>
        && targets.Keys == old(targets.Keys) - {name} + (if cluster.ready && clientOk then {name} else {})
        && clientless == old(clientless) - {name} + (if cluster.ready && !clientOk then {name} else {})
        && (cluster.ready && clientOk ==> targets[name] !in old(open) && targets[name] in open)
        && (name in old(targets) ==> old(targets)[name] !in open)
    {
      if previous.ready != cluster.ready || previous.spec != cluster.spec {
        DeleteCluster(name);
        if cluster.ready {
          AddCluster(name, clientOk);
        }
      }
    }

    /** An added or changed cluster: the store first, then the handler. */
    method ObserveUpsert(name: string, cluster: Cluster, clientOk: bool)
      requires Valid()
      modifies this
      ensures Valid() && stopped == old(stopped) && store == old(store)[name := cluster]
      ensures old(Agrees()) && old(NothingLeaked()) ==> Agrees() && NothingLeaked()
      ensures clientless == if !Restarts(old(store), name, cluster) then old(clientless)
                            else if cluster.ready && !clientOk then old(clientless) + {name} else old(clientless) - {name}
    {
      ReadyAfterUpsert(store, name, cluster);
      if name in store {
        var previous := store[name];
        store := store[name := cluster];
        OnUpdate(name, previous, cluster, clientOk);
      } else {
        store := store[name := cluster];
        OnAdd(name, cluster, clientOk);
      }
    }

    method ObserveRemove(name: string)
      requires Valid()
      modifies this
      ensures Valid() && stopped == old(stopped) && store == old(store) - {name}
      ensures old(Agrees()) && old(NothingLeaked()) ==> Agrees() && NothingLeaked()
      ensures clientless == old(clientless) - {name}
    {
      ReadyAfterUpsert(store, name, Cluster(false, ""));
      store := store - {name};
      DeleteCluster(name);
    }

    /** A tombstone is of no type the handler knows: the informer of a running cluster is left behind. */
    method ObserveVanish(name: string)
      requires Valid()
      modifies this
      ensures Valid() && stopped == old(stopped) && store == old(store) - {name}
      ensures old(Agrees()) ==> (Agrees() <==> name !in old(targets))
      ensures clientless == old(clientless)
    {
      ReadyAfterUpsert(store, name, Cluster(false, ""));
      store := store - {name};
    }

    method Observe(d: Delta)
      requires Valid()
      modifies this
      ensures Valid() && stopped == old(stopped)
      ensures store == match d
        case Upsert(name, cluster, _) => old(store)[name := cluster]
        case Remove(name) => old(store) - {name}
        case Vanish(name) => old(store) - {name}
      ensures store == StoreAfter(old(store), [d])
      ensures old(Agrees()) && old(NothingLeaked()) && !d.Vanish? ==> Agrees() && NothingLeaked()
      ensures old(Agrees()) && d.Vanish? ==> (Agrees() <==> d.name !in old(targets))
      ensures clientless == ClientlessAfter(old(clientless), old(store), [d])
    {
      assert [d][..0] == [];
      match d
      case Upsert(name, cluster, clientOk) => ObserveUpsert(name, cluster, clientOk);
      case Remove(name) => ObserveRemove(name);
      case Vanish(name) => ObserveVanish(name);
    }

    /** Any sequence of observed changes. */
    method ObserveAll(deltas: seq<Delta>)
      requires Valid()
      modifies this
      ensures Valid() && stopped == old(stopped) && store == StoreAfter(old(store), deltas)
      ensures forall i :: 0 <= i < |deltas| && (forall j :: i < j < |deltas| ==> deltas[j].name != deltas[i].name) ==>
                if deltas[i].Upsert? then deltas[i].name in store && store[deltas[i].name] == deltas[i].cluster
                else deltas[i].name !in store
      ensures old(Agrees()) && old(NothingLeaked()) && (forall d :: d in deltas ==> !d.Vanish?) ==>
                Agrees() && NothingLeaked()
      ensures clientless == ClientlessAfter(old(clientless), old(store), deltas)
      ensures old(clientless) == {} && (forall d :: d in deltas && d.Upsert? ==> d.clientOk) ==> clientless == {}
    {
      for i := 0 to |deltas|
        invariant Valid() && stopped == old(stopped) && store == StoreAfter(old(store), deltas[..i])
        invariant old(Agrees()) && old(NothingLeaked()) && (forall d :: d in deltas ==> !d.Vanish?) ==>
                    Agrees() && NothingLeaked()
        invariant clientless == ClientlessAfter(old(clientless), old(store), deltas[..i])
      {
        assert deltas[i] in deltas;
        assert deltas[..i+1][..i] == deltas[..i];
        Observe(deltas[i]);
        assert [deltas[i]][..0] == [];
      }
      assert deltas[..|deltas|] == deltas;
      forall i | 0 <= i < |deltas| && (forall j :: i < j < |deltas| ==> deltas[j].name != deltas[i].name)
        ensures if deltas[i].Upsert? then deltas[i].name in store && store[deltas[i].name] == deltas[i].cluster
                else deltas[i].name !in store
      {
        LatestDecides(old(store), deltas, i);
      }
      forall name | name in clientless && old(clientless) == {}
        ensures exists d :: d in deltas && d.Upsert? && !d.clientOk
      {
        OnlyOwnFailureCounts(old(clientless), old(store), deltas, name);
        var i :| 0 <= i < |deltas| && Fails(deltas[i], name);
        assert deltas[i] in deltas;
      }
    }

    /** Stops all target informers.  Removing each keeps a later cluster deletion from closing its channel again. */
    method Stop()
      requires Valid() && !stopped
      modifies this`targets, this`open, this`stopped
      ensures Valid() && stopped && targets == map[]
      ensures old(NothingLeaked()) ==> open == {}
    {
      stopped := true;
      while targets != map[]
        invariant Valid() && stopped
        invariant old(NothingLeaked()) ==> NothingLeaked()
        decreases targets.Keys
      {
        ghost var before := targets;
        var name :| name in targets;
        Close(targets[name]);
        targets := targets - {name};
        if old(NothingLeaked()) {
          forall c | c in open ensures exists n :: n in targets && targets[n] == c {
            var n :| n in before && before[n] == c;
            assert targets[n] == c;
          }
        }
        assert name in before.Keys && targets.Keys == before.Keys - {name};
      }
    }

    // ---------- Readers ----------

    method GetReadyClusters() returns (names: seq<string>)
      ensures NoRepeats(names) && forall n :: n in names <==> n in ReadyIn(store)
    {
      names := ListClusters(true);
    }

    method GetUnreadyClusters() returns (names: seq<string>)
      ensures NoRepeats(names) && forall n :: n in names <==> n in UnreadyIn(store)
    {
      names := ListClusters(false);
    }

    method ListClusters(ready: bool) returns (names: seq<string>)
      ensures NoRepeats(names) && forall n :: n in names <==> n in store && store[n].ready == ready
    {
      names := [];
      var items := store.Keys;
      while items != {}
        invariant items <= store.Keys
        invariant NoRepeats(names)
        invariant forall n :: n in names <==> n in store && n !in items && store[n].ready == ready
        decreases items
      {
        var item :| item in items;
        items := items - {item};
        if store[item].ready == ready {
          names := names + [item];
        }
      }
    }

    /** Whether the running informers are exactly those of the given clusters and all of them have synced. */
    method ClustersSynced(clusters: seq<string>, synced: set<Channel>) returns (r: bool)
      requires NoRepeats(clusters)
      ensures r <==> targets.Keys == (set n | n in clusters) && forall n :: n in targets ==> targets[n] in synced
    {
      DistinctCount(clusters);
      if |targets| != |clusters| {
        assert |targets.Keys| != |(set n | n in clusters)|;
        return false;
      }
      for i := 0 to |clusters|
        invariant forall k :: 0 <= k < i ==> clusters[k] in targets
      {
        if clusters[i] !in targets {
          assert clusters[i] in (set n | n in clusters);
          return false;
        }
      }
      SubsetOfSameSize((set n | n in clusters), targets.Keys);
      for i := 0 to |clusters|
        invariant forall k :: 0 <= k < i ==> clusters[k] in targets && targets[clusters[k]] in synced
      {
        if targets[clusters[i]] !in synced {
          return false;
        }
      }
      return true;
    }
  }
}
