/** The order in which Go compares and sorts strings. */
module Strings {
  import opened Sorting

  predicate StringLess(a: string, b: string) {
    if b == "" then false
    else if a == "" then true
    else a[0] < b[0] || (a[0] == b[0] && StringLess(a[1..], b[1..]))
  }

  lemma {:induction false} LessIsAsymmetric(a: string, b: string)
    ensures StringLess(a, b) ==> !StringLess(b, a)
    ensures a != b ==> StringLess(a, b) || StringLess(b, a)
  {
    if a != "" && b != "" {
      LessIsAsymmetric(a[1..], b[1..]);
      assert a == [a[0]] + a[1..] && b == [b[0]] + b[1..];
    }
  }

  lemma {:induction false} NotLessIsTransitive(a: string, b: string, c: string)
    requires !StringLess(a, b) && !StringLess(b, c)
    ensures !StringLess(a, c)
  {
    if a != "" && b != "" && c != "" && a[0] == b[0] == c[0] {
      NotLessIsTransitive(a[1..], b[1..], c[1..]);
    }
  }

  lemma StringOrder()
    ensures StrictWeakOrder(StringLess)
  {
    forall a, b ensures StringLess(a, b) ==> !StringLess(b, a) { LessIsAsymmetric(a, b); }
    forall a, b, c | !StringLess(a, b) && !StringLess(b, c) ensures !StringLess(a, c) { NotLessIsTransitive(a, b, c); }
  }

  lemma SortedStringsUnique(a: seq<string>, b: seq<string>)
    requires Sorted(StringLess, a) && Sorted(StringLess, b) && multiset(a) == multiset(b)
    ensures a == b
  {
    forall x, y | x in a && y in a && x != y ensures StringLess(x, y) || StringLess(y, x) { LessIsAsymmetric(x, y); }
    SortedIsUnique(StringLess, a, b);
  }

  method SortStrings(names: seq<string>) returns (sorted: seq<string>)
    ensures Sorted(StringLess, sorted) && multiset(sorted) == multiset(names)
  {
    StringOrder();
    var slice := new string[|names|](i requires 0 <= i < |names| => names[i]);
    assert slice[..] == names;
    Sort(slice, StringLess);
    sorted := slice[..];
  }

  // ---------- String sets, listed ----------

  /** A string set as Go lists it: sorted, each element once. */
  function Inserted(x: string, list: seq<string>): seq<string> {
    if list == [] then [x]
    else if x == list[0] then list
    else if StringLess(x, list[0]) then [x] + list
    else [list[0]] + Inserted(x, list[1..])
  }

  function SetList(names: seq<string>): seq<string> {
    if names == [] then [] else Inserted(names[|names|-1], SetList(names[..|names|-1]))
  }

  predicate Ascending(list: seq<string>) {
    forall i, j :: 0 <= i < j < |list| ==> StringLess(list[i], list[j])
  }

  lemma LessTransitive(a: string, b: string, c: string)
    requires StringLess(a, b) && StringLess(b, c)
    ensures StringLess(a, c)
  {
    LessIsAsymmetric(a, b);
    LessIsAsymmetric(b, c);
    LessIsAsymmetric(a, c);
    if !StringLess(a, c) {
      NotLessIsTransitive(a, c, b);
    }
  }

  lemma {:induction false} InsertedFacts(x: string, list: seq<string>)
    requires Ascending(list)
    ensures Ascending(Inserted(x, list))
    ensures forall y :: y in Inserted(x, list) <==> y == x || y in list
  {
    if list != [] && x != list[0] {
      LessIsAsymmetric(x, list[0]);
      if StringLess(x, list[0]) {
        forall i | 1 <= i < |list| ensures StringLess(x, list[i]) { LessTransitive(x, list[0], list[i]); }
      } else {
        InsertedFacts(x, list[1..]);
        var rest := Inserted(x, list[1..]);
        forall i | 0 <= i < |rest| ensures StringLess(list[0], rest[i]) {
          assert rest[i] in rest;
        }
      }
    }
  }

  lemma {:induction false} SetListFacts(names: seq<string>)
    ensures Ascending(SetList(names))
    ensures forall y :: y in SetList(names) <==> y in names
  {
    if names != [] {
      SetListFacts(names[..|names|-1]);
      InsertedFacts(names[|names|-1], SetList(names[..|names|-1]));
      assert forall y :: y in names <==> y in names[..|names|-1] || y == names[|names|-1];
    }
  }

  predicate NoRepeats(names: seq<string>) {
    forall i, j :: 0 <= i < j < |names| ==> names[i] != names[j]
  }

  lemma AscendingIsDistinct(list: seq<string>)
    requires Ascending(list)
    ensures NoRepeats(list)
  {
    forall i, j | 0 <= i < j < |list| ensures list[i] != list[j] {
      LessIsAsymmetric(list[i], list[j]);
    }
  }

  /** Counting the different names tells whether any repeats. */
  lemma {:induction false} DistinctCount(names: seq<string>)
    ensures |(set n | n in names)| <= |names|
    ensures |(set n | n in names)| == |names| <==> NoRepeats(names)
  {
    if names != [] {
      var front, last := names[..|names|-1], names[|names|-1];
      DistinctCount(front);
      assert (set n | n in names) == (set n | n in front) + {last};
      if last in front {
        var i :| 0 <= i < |front| && front[i] == last;
        assert names[i] == names[|names|-1];
        assert (set n | n in names) == (set n | n in front);
      }
    }
  }

  /** Listed once each, names are as a multiset what they are as a set. */
  lemma {:induction false} OnceEach(names: seq<string>, all: set<string>)
    requires NoRepeats(names) && forall n :: n in names <==> n in all
    ensures multiset(names) == multiset(all)
  {
    if names != [] {
      var front, last := names[..|names|-1], names[|names|-1];
      assert names == front + [last];
      OnceEach(front, all - {last});
      assert all == (all - {last}) + {last};
    } else {
      assert forall n :: n in all <==> n in names;
    }
  }
}
