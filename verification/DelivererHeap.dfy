/**
 The deliverer's heap: a slice of items ordered by delivery time together with the
 position of every key, kept exact under each swap.  Up, Down, HeapPush, HeapPop and
 HeapFix are the loops of Go's container/heap over this heap's Less and Swap.
 */
module DelivererHeap {

  /** Times are integers; what is delivered besides the key and the time is opaque text. */
  datatype Item = Item(key: string, value: string, time: int)

  /** `positions` is the exact inverse of `data`. */
  ghost predicate Indexed(data: seq<Item>, positions: map<string, int>) {
    && (forall i :: 0 <= i < |data| ==> data[i].key in positions && positions[data[i].key] == i)
    && (forall k :: k in positions ==> 0 <= positions[k] < |data| && data[positions[k]].key == k)
  }

  function Parent(i: int): int {
    (i - 1) / 2
  }

  ghost predicate EdgeOrdered(data: seq<Item>, i: int)
    requires 1 <= i < |data|
  {
    data[Parent(i)].time <= data[i].time
  }

  ghost predicate HeapOrdered(data: seq<Item>) {
    forall i :: 1 <= i < |data| ==> EdgeOrdered(data, i)
  }

  /** Among the first n items, those below position p are not earlier than p's parent. */
  ghost predicate BelowParentOf(data: seq<Item>, p: int, n: int)
    requires 0 <= p < |data| && n <= |data|
  {
    forall i :: 1 <= i < n && Parent(i) == p && 1 <= p ==> data[Parent(p)].time <= data[i].time
  }

  function Swapped(data: seq<Item>, i: int, j: int): seq<Item>
    requires 0 <= i < |data| && 0 <= j < |data|
  {
    data[i := data[j]][j := data[i]]
  }

  /** Sifting up has reached j: only the edge from j to its parent may be out of order. */
  ghost predicate UpState(data: seq<Item>, j: int) {
    && 0 <= j < |data|
    && (forall i :: 1 <= i < |data| && i != j ==> EdgeOrdered(data, i))
    && BelowParentOf(data, j, |data|)
  }

  /** Sifting down from i0 has reached i: among the first n items only the edges to i's children may be out of order. */
  ghost predicate DownState(data: seq<Item>, i0: int, i: int, n: int) {
    && 0 <= i0 <= i < |data| && 0 <= n <= |data|
    && (forall k :: 1 <= k < n && k != i0 && Parent(k) != i ==> EdgeOrdered(data, k))
    && (i > i0 && 1 <= i0 < n ==> EdgeOrdered(data, i0))
    && BelowParentOf(data, i, n)
  }

  lemma UpStep(data: seq<Item>, j: int)
    requires UpState(data, j) && 1 <= j && data[j].time < data[Parent(j)].time
    ensures UpState(Swapped(data, Parent(j), j), Parent(j))
  {
    var p, data' := Parent(j), Swapped(data, Parent(j), j);
    forall i | 1 <= i < |data'| && i != p ensures EdgeOrdered(data', i) {
      if i != j { assert EdgeOrdered(data, i); }
    }
    if 1 <= p { assert EdgeOrdered(data, p); }
    forall i | 1 <= i < |data'| && Parent(i) == p && 1 <= p ensures data'[Parent(p)].time <= data'[i].time {
      assert EdgeOrdered(data, i) || i == j;
    }
  }

  lemma UpDone(data: seq<Item>, j: int)
    requires UpState(data, j) && (j == 0 || data[j].time >= data[Parent(j)].time)
    ensures HeapOrdered(data)
  {
  }

  lemma DownStep(data: seq<Item>, i0: int, i: int, j: int, n: int)
    requires DownState(data, i0, i, n)
    requires 1 <= j < n && Parent(j) == i && data[j].time < data[i].time
    requires forall k :: 1 <= k < n && Parent(k) == i ==> data[j].time <= data[k].time
    ensures DownState(Swapped(data, i, j), i0, j, n)
  {
    var data' := Swapped(data, i, j);
    forall k | 1 <= k < n && k != i0 && Parent(k) != j ensures EdgeOrdered(data', k) {
      if Parent(k) != i { assert EdgeOrdered(data, k); }
    }
    if 1 <= i0 < n && i0 < i { assert EdgeOrdered(data, i0); }
    forall k | 1 <= k < n && Parent(k) == j ensures data'[i].time <= data'[k].time {
      assert EdgeOrdered(data, k);
    }
  }

  lemma DownDone(data: seq<Item>, i0: int, i: int, n: int)
    requires DownState(data, i0, i, n)
    requires forall k :: 1 <= k < n && Parent(k) == i ==> data[i].time <= data[k].time
    ensures forall k :: 1 <= k < n && k != i0 ==> EdgeOrdered(data, k)
  {
  }

  /** In a heap, replacing the item at p by an earlier one leaves a state that fixing can start from. */
  lemma Replaced(data: seq<Item>, p: int, item: Item)
    requires HeapOrdered(data) && 0 <= p < |data|
    ensures DownState(data[p := item], p, p, |data|)
  {
    var data' := data[p := item];
    forall k | 1 <= k < |data| && k != p && Parent(k) != p ensures EdgeOrdered(data', k) { assert EdgeOrdered(data, k); }
    forall k | 1 <= k < |data| && Parent(k) == p && 1 <= p ensures data'[Parent(p)].time <= data'[k].time {
      assert EdgeOrdered(data, k) && EdgeOrdered(data, p);
    }
  }

  /** Moving the last item to the root leaves a state, without its last place, that sifting down can start from. */
  lemma LastToRoot(data: seq<Item>)
    requires HeapOrdered(data) && |data| > 0
    ensures DownState(Swapped(data, 0, |data| - 1), 0, 0, |data| - 1)
  {
    var data' := Swapped(data, 0, |data| - 1);
    forall k | 1 <= k < |data| - 1 && Parent(k) != 0 ensures EdgeOrdered(data', k) { assert EdgeOrdered(data, k); }
  }

  lemma Appended(data: seq<Item>, item: Item)
    requires HeapOrdered(data)
    ensures UpState(data + [item], |data|)
  {
    var data' := data + [item];
    forall k | 1 <= k < |data| ensures EdgeOrdered(data', k) { assert EdgeOrdered(data, k); }
  }

  lemma {:induction false} RootIsEarliest(data: seq<Item>, i: nat)
    requires HeapOrdered(data) && i < |data|
    ensures data[0].time <= data[i].time
    decreases i
  {
    if i > 0 {
      assert EdgeOrdered(data, i);
      RootIsEarliest(data, Parent(i));
    }
  }

  class Heap {
    var keyPosition: map<string, int>
    var data: seq<Item>

    constructor ()
      ensures Valid() && data == [] && Pending() == map[]
    {
      keyPosition := map[];
      data := [];
    }

    ghost predicate Valid()
      reads this
    {
      Indexed(data, keyPosition) && HeapOrdered(data)
    }

    /** The abstract content: which item is pending under each key. */
    ghost function Pending(): map<string, Item>
      reads this
      requires Indexed(data, keyPosition)
    {
      map k | k in keyPosition :: data[keyPosition[k]]
    }

    predicate Less(i: int, j: int)
      reads this
      requires 0 <= i < |data| && 0 <= j < |data|
    {
      data[i].time < data[j].time
    }

    method Swap(i: int, j: int)
      requires Indexed(data, keyPosition) && 0 <= i < |data| && 0 <= j < |data|
      modifies this
      ensures Indexed(data, keyPosition) && Pending() == old(Pending())
      ensures data == old(data)[i := old(data)[j]][j := old(data)[i]]
    {
      keyPosition := keyPosition[data[i].key := j];
      keyPosition := keyPosition[data[j].key := i];
      data := data[i := data[j]][j := data[i]];
    }

    method Push(item: Item)
      requires Indexed(data, keyPosition) && item.key !in keyPosition
      modifies this
      ensures Indexed(data, keyPosition) && Pending() == old(Pending())[item.key := item]
      ensures data == old(data) + [item]
    {
      data := data + [item];
      keyPosition := keyPosition[item.key := |data| - 1];
    }

    method Pop() returns (item: Item)
      requires Indexed(data, keyPosition) && |data| > 0
      modifies this
      ensures Indexed(data, keyPosition) && Pending() == old(Pending()) - {item.key}
      ensures item == old(data)[|old(data)|-1] && data == old(data)[..|old(data)|-1]
    {
      var n := |data|;
      item := data[n-1];
      data := data[..n-1];
      keyPosition := keyPosition - {item.key};
    }

    /** Sift the item at j0 up. */
    method Up(j0: int)
      requires Indexed(data, keyPosition) && UpState(data, j0)
      modifies this
      ensures Valid() && Pending() == old(Pending())
    {
      var j := j0;
      while true
        invariant Indexed(data, keyPosition) && Pending() == old(Pending())
        invariant UpState(data, j)
        decreases j
      {
        // Go's division truncates, so the parent of the root is the root itself.
        var i := if j == 0 then 0 else Parent(j);
        if i == j || !Less(j, i) {
          UpDone(data, j);
          break;
        }
        UpStep(data, j);
        Swap(i, j);
        j := i;
      }
    }

    /** The earlier one of i's children among the first n items, the left one on a tie. */
    method EarlierChild(i: int, n: int) returns (j: int)
      requires 0 <= i && 2 * i + 1 < n <= |data|
      ensures 1 <= j < n && Parent(j) == i
      ensures forall k :: 1 <= k < n && Parent(k) == i ==> data[j].time <= data[k].time
    {
      var j1 := 2 * i + 1;
      j := j1;
      var j2 := j1 + 1;
      if j2 < n && Less(j2, j1) {
        j := j2;
      }
      assert forall k :: 1 <= k < n && Parent(k) == i ==> k == j1 || k == j2;
    }

    /** Sift the item at i0 down among the first n items. */
    method Down(i0: int, n: int) returns (moved: bool)
      requires Indexed(data, keyPosition) && DownState(data, i0, i0, n)
      modifies this
      ensures Indexed(data, keyPosition) && Pending() == old(Pending())
      ensures |data| == |old(data)| && data[n..] == old(data)[n..]
      ensures forall k :: 1 <= k < n && k != i0 ==> EdgeOrdered(data, k)
      ensures moved && 1 <= i0 < n ==> EdgeOrdered(data, i0)
      ensures !moved ==> data == old(data)
    {
      var i := i0;
      while 2 * i + 1 < n
        invariant Indexed(data, keyPosition) && Pending() == old(Pending())
        invariant |data| == |old(data)| && data[n..] == old(data)[n..]
        invariant DownState(data, i0, i, n)
        invariant i == i0 ==> data == old(data)
        decreases n - i
      {
        var j := EarlierChild(i, n);
        if !Less(j, i) {
          break;
        }
        DownStep(data, i0, i, j, n);
        Swap(i, j);
        i := j;
      }
      DownDone(data, i0, i, n);
      return i > i0;
    }

    method HeapPush(item: Item)
      requires Valid() && item.key !in keyPosition
      modifies this
      ensures Valid() && Pending() == old(Pending())[item.key := item]
    {
      Appended(data, item);
      Push(item);
      Up(|data| - 1);
    }

    /** Removes the earliest item. */
    method HeapPop() returns (item: Item)
      requires Valid() && |data| > 0
      modifies this
      ensures item == old(data)[0]
      ensures item.key in old(Pending()) && old(Pending())[item.key] == item
      ensures forall k :: k in old(Pending()) ==> item.time <= old(Pending())[k].time
      ensures Valid() && Pending() == old(Pending()) - {item.key}
      ensures |data| == |old(data)| - 1
    {
      forall i | 0 <= i < |data| ensures data[0].time <= data[i].time { RootIsEarliest(data, i); }
      var n := |data| - 1;
      LastToRoot(data);
      Swap(0, n);
      var _ := Down(0, n);
      ghost var sifted := data;
      item := Pop();
      forall k | 1 <= k < |data| ensures EdgeOrdered(data, k) { assert EdgeOrdered(sifted, k); }
    }

    /** Restores the order after the item at position i has changed. */
    method HeapFix(i: int)
      requires Indexed(data, keyPosition) && DownState(data, i, i, |data|)
      modifies this
      ensures Valid() && Pending() == old(Pending())
    {
      var moved := Down(i, |data|);
      if !moved {
        Up(i);
      }
    }

    /** Accept a request: a new key is pushed, a known key is replaced when the request is strictly earlier. */
    method Accept(item: Item)
      requires Valid()
      modifies this
      ensures Valid()
      ensures Pending() == Earliest(old(Pending()), item)
    {
      if item.key in keyPosition {
        var position := keyPosition[item.key];
        if item.time < data[position].time {
          Replaced(data, position, item);
          data := data[position := item];
          HeapFix(position);
        }
      } else {
        HeapPush(item);
      }
    }
  }

  /** The abstract effect of a request: under each key the earliest one is kept, the older one on a tie. */
  function Earliest(pending: map<string, Item>, item: Item): map<string, Item> {
    if item.key in pending && pending[item.key].time <= item.time then pending
    else pending[item.key := item]
  }
}
