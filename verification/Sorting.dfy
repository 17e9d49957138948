/**
 Sorting a slice in place through a comparison and swaps of neighbours, and what
 makes the result independent of the order one starts from.
 */
module Sorting {

  ghost predicate Sorted<T>(less: (T, T) -> bool, s: seq<T>) {
    forall i, j :: 0 <= i < j < |s| ==> !less(s[j], s[i])
  }

  /** The comparison is a strict weak order: asymmetric, and being incomparable is transitive. */
  ghost predicate StrictWeakOrder<T(!new)>(less: (T, T) -> bool) {
    && (forall x, y :: less(x, y) ==> !less(y, x))
    && (forall x, y, z :: !less(x, y) && !less(y, z) ==> !less(x, z))
  }

  ghost predicate Comparable<T(!new)>(less: (T, T) -> bool, s: seq<T>) {
    forall x, y :: x in s && y in s && x != y ==> less(x, y) || less(y, x)
  }

  /** Moves the item at i down to its place among the sorted items before it, by swaps of neighbours. */
  method Insert<T(!new)>(a: array<T>, less: (T, T) -> bool, i: nat)
    requires StrictWeakOrder(less) && i < a.Length && Sorted(less, a[..i])
    modifies a
    ensures Sorted(less, a[..i+1])
    ensures multiset(a[..]) == multiset(old(a[..]))
  {
    assert forall k, l :: 0 <= k < l < i ==> a[..i][l] == a[l] && a[..i][k] == a[k];
    var j := i;
    while 0 < j && less(a[j], a[j-1])
      invariant 0 <= j <= i
      invariant forall k, l :: 0 <= k < l <= i && k != j && l != j ==> !less(a[l], a[k])
      invariant forall l :: j < l <= i ==> !less(a[l], a[j])
      invariant multiset(a[..]) == multiset(old(a[..]))
    {
      a[j], a[j-1] := a[j-1], a[j];
      j := j - 1;
    }
    forall k | 0 <= k < j ensures !less(a[j], a[k]) {
      if k < j - 1 { assert !less(a[j-1], a[k]); }
    }
  }

  /** Insertion sort. */
  method Sort<T(!new)>(a: array<T>, less: (T, T) -> bool)
    requires StrictWeakOrder(less)
    modifies a
    ensures Sorted(less, a[..])
    ensures multiset(a[..]) == multiset(old(a[..]))
  {
    for i := 0 to a.Length
      invariant Sorted(less, a[..i])
      invariant multiset(a[..]) == multiset(old(a[..]))
    {
      Insert(a, less, i);
    }
    assert a[..a.Length] == a[..];
  }

  lemma SameFirst<T(!new)>(less: (T, T) -> bool, a: seq<T>, b: seq<T>)
    requires Comparable(less, a)
    requires Sorted(less, a) && Sorted(less, b)
    requires multiset(a) == multiset(b) && a != [] && b != []
    ensures a[0] == b[0]
  {
    assert a[0] in multiset(b) && b[0] in multiset(a);
    var k :| 0 <= k < |b| && b[k] == a[0];
    var m :| 0 <= m < |a| && a[m] == b[0];
  }

  /** Two sorted arrangements of the same elements are equal when no two different elements tie. */
  lemma {:induction false} SortedIsUnique<T(!new)>(less: (T, T) -> bool, a: seq<T>, b: seq<T>)
    requires Comparable(less, a)
    requires Sorted(less, a) && Sorted(less, b)
    requires multiset(a) == multiset(b)
    ensures a == b
  {
    assert |a| == |multiset(a)| == |multiset(b)| == |b|;
    if a != [] {
      SameFirst(less, a, b);
      assert a == [a[0]] + a[1..] && b == [b[0]] + b[1..];
      assert multiset(a[1..]) == multiset(a) - multiset{a[0]};
      assert multiset(b[1..]) == multiset(b) - multiset{b[0]};
      SortedIsUnique(less, a[1..], b[1..]);
    }
  }

  lemma DuplicateCounts<T>(s: seq<T>, i: nat, j: nat)
    requires i < j < |s| && s[i] == s[j]
    ensures multiset(s)[s[j]] >= 2
  {
    assert s == s[..j] + [s[j]] + s[j+1..];
    assert s[i] in s[..j];
  }
}
