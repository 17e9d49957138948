/**
 The preferences that planning works through: gathered for the available clusters, and sorted so that
 heavier clusters come first.  How the clusters are listed does not matter.
 */
module PlannerOrder {
  import opened Collections
  import opened PlannerModel
  import opened PlannerPass
  import opened PlannerPhases
  import opened PlannerPromise
  import opened Sorting
  import opened Strings

  predicate Before(a: Preference, b: Preference) {
    a.spec.weight > b.spec.weight || (a.spec.weight == b.spec.weight && a.hash < b.hash)
  }

  lemma BeforeIsWeakOrder()
    ensures StrictWeakOrder(Before)
  {
  }

  function PreferenceOf(spec: PreferenceSpec, key: string, hash: (string, string) -> nat, name: string): Preference
    requires Preferred(spec, name)
  {
    Preference(name, hash(name, key), Governing(spec, name))
  }

  function Gathered(spec: PreferenceSpec, available: seq<string>, key: string, hash: (string, string) -> nat): seq<Preference> {
    if available == [] then []
    else
      var name := available[|available|-1];
      Gathered(spec, available[..|available|-1], key, hash) +
      if Preferred(spec, name) then [PreferenceOf(spec, key, hash, name)] else []
  }

  function Unpreferred(spec: PreferenceSpec, available: seq<string>): map<string, int> {
    map name | name in available && !Preferred(spec, name) :: 0
  }

  lemma {:induction false} GatheredFacts(spec: PreferenceSpec, available: seq<string>, key: string, hash: (string, string) -> nat)
    requires ValidPreferenceSpec(spec) && NoRepeats(available)
    ensures var ps := Gathered(spec, available, key, hash);
      && Distinct(ps)
      && forall p :: p in ps <==>
           && p.name in available && p.hash == hash(p.name, key)
           && (if p.name in spec.clusters then p.spec == spec.clusters[p.name]
               else "*" in spec.clusters && p.spec == spec.clusters["*"])
  {
    if available != [] {
      var front := available[..|available|-1];
      GatheredFacts(spec, front, key, hash);
      assert forall n :: n in available <==> n in front || n == available[|available|-1];
    }
  }

  /**
   `order` is the gathered preferences, sorted: heavier clusters come first, and of equally heavy ones
   those with smaller hashes.
   */
  ghost predicate IsSortedOrder(spec: PreferenceSpec, available: seq<string>, key: string, hash: (string, string) -> nat, order: seq<Preference>) {
    && Sorted(Before, order)
    && multiset(order) == multiset(Gathered(spec, available, key, hash))
  }

  lemma HeaviestFirst(order: seq<Preference>, i: nat, j: nat)
    requires Sorted(Before, order) && i < j < |order|
    ensures order[i].spec.weight > order[j].spec.weight
         || (order[i].spec.weight == order[j].spec.weight && order[i].hash <= order[j].hash)
  {
    assert !Before(order[j], order[i]);
  }

  lemma {:induction false} NamesOnce(ps: seq<Preference>, p: Preference, o: Preference)
    requires Distinct(ps)
    ensures multiset(ps)[p] <= 1
    ensures p in ps && o in ps && p.name == o.name ==> p == o
  {
    if ps != [] {
      var front := ps[..|ps|-1];
      NamesOnce(front, p, o);
      assert ps == front + [ps[|ps|-1]];
      PrefixDistinct(ps);
    }
  }

  lemma PermutationDistinct(ps: seq<Preference>, order: seq<Preference>)
    requires Distinct(ps) && multiset(ps) == multiset(order)
    ensures Distinct(order)
    ensures forall p :: p in order <==> p in ps
  {
    forall p ensures p in order <==> p in ps {
      assert p in order <==> p in multiset(order);
      assert p in ps <==> p in multiset(ps);
    }
    forall i, j | 0 <= i < j < |order| ensures order[i].name != order[j].name {
      NamesOnce(ps, order[i], order[j]);
      if order[i] == order[j] {
        DuplicateCounts(order, i, j);
      }
    }
  }

  lemma OrderReady(spec: PreferenceSpec, available: seq<string>, current: map<string, int>, capacity: map<string, int>,
                   key: string, hash: (string, string) -> nat, order: seq<Preference>)
    requires ValidPreferenceSpec(spec) && NoRepeats(available)
    requires IsSortedOrder(spec, available, key, hash, order)
    ensures ValidInput(Request(spec.total, spec.rebalance, current, capacity), order) && Fresh(Unpreferred(spec, available), order)
    ensures forall name :: Listed(name, order) <==> name in available && Preferred(spec, name)
  {
    var ps := Gathered(spec, available, key, hash);
    GatheredFacts(spec, available, key, hash);
    PermutationDistinct(ps, order);
    forall name | name in available && Preferred(spec, name) ensures Listed(name, order) {
      assert PreferenceOf(spec, key, hash, name) in order;
    }
    forall name | Listed(name, order) ensures name in available && Preferred(spec, name) {
      var i :| 0 <= i < |order| && order[i].name == name;
      assert order[i] in order;
    }
  }

  function Without<T>(items: seq<T>, i: nat): seq<T>
    requires i < |items|
  {
    items[..i] + items[i+1..]
  }

  lemma WithoutOne<T>(items: seq<T>, i: nat, x: T)
    requires i < |items| && items[i] == x
    ensures multiset(Without(items, i)) == multiset(items) - multiset{x}
  {
    assert items == items[..i] + ([x] + items[i+1..]);
  }

  lemma RemoveSame<T>(a: seq<T>, b: seq<T>) returns (i: nat)
    requires multiset(a) == multiset(b) && a != []
    ensures i < |b| && b[i] == a[0]
    ensures multiset(Without(a, 0)) == multiset(Without(b, i))
  {
    assert a[0] in multiset(b);
    i :| 0 <= i < |b| && b[i] == a[0];
    WithoutOne(a, 0, a[0]);
    WithoutOne(b, i, a[0]);
  }

  // ---------- Order independence ----------

  lemma {:induction false} GatheredAppend(spec: PreferenceSpec, a: seq<string>, b: seq<string>, key: string, hash: (string, string) -> nat)
    ensures Gathered(spec, a + b, key, hash) == Gathered(spec, a, key, hash) + Gathered(spec, b, key, hash)
  {
    if b == [] {
      assert a + b == a;
    } else {
      assert (a + b)[..|a+b|-1] == a + b[..|b|-1];
      GatheredAppend(spec, a, b[..|b|-1], key, hash);
    }
  }

  lemma GatheredWithoutOne(spec: PreferenceSpec, names: seq<string>, i: nat, x: string, key: string, hash: (string, string) -> nat)
    requires i < |names| && names[i] == x
    ensures multiset(Gathered(spec, names, key, hash))
         == multiset(Gathered(spec, Without(names, i), key, hash)) + multiset(Gathered(spec, [x], key, hash))
  {
    assert names == names[..i] + ([x] + names[i+1..]);
    GatheredAppend(spec, names[..i], names[i+1..], key, hash);
    GatheredAppend(spec, names[..i], [x] + names[i+1..], key, hash);
    GatheredAppend(spec, [x], names[i+1..], key, hash);
  }

  lemma {:induction false} GatheredPermuted(spec: PreferenceSpec, a: seq<string>, b: seq<string>, key: string, hash: (string, string) -> nat)
    requires multiset(a) == multiset(b)
    ensures multiset(Gathered(spec, a, key, hash)) == multiset(Gathered(spec, b, key, hash))
  {
    if a == [] {
      assert |b| == |multiset(b)| == |multiset(a)|;
    } else {
      var i := RemoveSame(a, b);
      GatheredPermuted(spec, Without(a, 0), Without(b, i), key, hash);
      GatheredWithoutOne(spec, a, 0, a[0], key, hash);
      GatheredWithoutOne(spec, b, i, a[0], key, hash);
    }
  }

  /** No two clusters of equal weight share a hash. */
  ghost predicate NoTies(ps: seq<Preference>) {
    forall p, o :: p in ps && o in ps && p != o ==> p.spec.weight != o.spec.weight || p.hash != o.hash
  }

  /**
   However the available clusters are listed, and however the sort arranges them, the plan and the
   overflow are the same as long as no two clusters of equal weight share a hash.
   */
  lemma PlanIgnoresClusterOrder(spec: PreferenceSpec, available: seq<string>, available': seq<string>,
                                current: map<string, int>, capacity: map<string, int>, key: string, hash: (string, string) -> nat,
                                order: seq<Preference>, order': seq<Preference>)
    requires ValidPreferenceSpec(spec) && NoRepeats(available) && NoRepeats(available')
    requires multiset(available) == multiset(available')
    requires IsSortedOrder(spec, available, key, hash, order) && IsSortedOrder(spec, available', key, hash, order')
    requires NoTies(Gathered(spec, available, key, hash))
    ensures order == order'
    ensures var r := Request(spec.total, spec.rebalance, current, capacity);
      && ValidInput(r, order) && Fresh(Unpreferred(spec, available), order)
      && ValidInput(r, order') && Fresh(Unpreferred(spec, available'), order')
      && Planned(r, order, Unpreferred(spec, available)) == Planned(r, order', Unpreferred(spec, available'))
  {
    GatheredPermuted(spec, available, available', key, hash);
    BeforeIsWeakOrder();
    OrderReady(spec, available, current, capacity, key, hash, order);
    OrderReady(spec, available', current, capacity, key, hash, order');
    GatheredFacts(spec, available, key, hash);
    PermutationDistinct(Gathered(spec, available, key, hash), order);
    SortedIsUnique(Before, order, order');
    forall name ensures name in available <==> name in available' {
      assert name in available <==> name in multiset(available);
      assert name in available' <==> name in multiset(available');
    }
    assert Unpreferred(spec, available) == Unpreferred(spec, available');
  }
}
