/** The singly linked list and the sorted list (lib/list.cc) over their nodes. */
module Lists {
  import opened Base

  // ----- what the operations do to the sequence of items -----

  /** Without its first occurrence of x. */
  function Without<T(==)>(s: seq<T>, x: T): seq<T> {
    if s == [] then [] else if s[0] == x then s[1..] else [s[0]] + Without(s[1..], x)
  }

  lemma {:induction false} WithoutAt<T>(s: seq<T>, x: T, k: nat)
    requires k < |s| && s[k] == x && x !in s[..k]
    ensures Without(s, x) == Cut(s, k)
  {
    if k == 0 {
    } else {
      assert s[1..][..k - 1] == s[..k][1..];
      WithoutAt(s[1..], x, k - 1);
      var u, v := Without(s, x), s[..k] + s[k + 1..];
      assert u == [s[0]] + (s[1..][..k - 1] + s[1..][k..]);
      forall i | 0 <= i < |v| ensures u[i] == v[i] {
      }
    }
  }

  /** Before the first element that x is less than. */
  function Inserted<T>(s: seq<T>, x: T, compare: (T, T) -> int): seq<T> {
    if s == [] then [x] else if compare(x, s[0]) < 0 then [x] + s else [s[0]] + Inserted(s[1..], x, compare)
  }

  lemma {:induction false} InsertedAt<T>(s: seq<T>, x: T, compare: (T, T) -> int, k: nat)
    requires k <= |s| && (forall i :: 0 <= i < k ==> compare(x, s[i]) >= 0) && (k < |s| ==> compare(x, s[k]) < 0)
    ensures Inserted(s, x, compare) == Spliced(s, x, k)
  {
    if k == 0 {
    } else {
      InsertedAt(s[1..], x, compare, k - 1);
      var u, v := Inserted(s, x, compare), s[..k] + [x] + s[k..];
      assert u == [s[0]] + (s[1..][..k - 1] + [x] + s[1..][k - 1..]);
      forall i | 0 <= i < |v| ensures u[i] == v[i] {
      }
    }
  }

  ghost predicate Ordering<T(!new)>(compare: (T, T) -> int) {
    && (forall x, y :: compare(x, y) < 0 <==> compare(y, x) > 0)
    && (forall x, y, z :: compare(x, y) <= 0 && compare(y, z) <= 0 ==> compare(x, z) <= 0)
  }

  ghost predicate Sorted<T>(s: seq<T>, compare: (T, T) -> int) {
    forall i, j :: 0 <= i < j < |s| ==> compare(s[i], s[j]) <= 0
  }

  /** Insertion keeps the list sorted and adds just the item; equal items stay in insertion order. */
  lemma {:induction false} InsertedSorted<T(!new)>(s: seq<T>, x: T, compare: (T, T) -> int) returns (k: nat)
    requires Ordering(compare) && Sorted(s, compare)
    ensures Sorted(Inserted(s, x, compare), compare)
    ensures k <= |s| && Inserted(s, x, compare) == Spliced(s, x, k)
    ensures forall i :: 0 <= i < |s| && compare(x, s[i]) == 0 ==> i < k
  {
    k := 0;
    while k < |s| && compare(x, s[k]) >= 0
      invariant k <= |s| && forall i :: 0 <= i < k ==> compare(x, s[i]) >= 0
    {
      k := k + 1;
    }
    InsertedAt(s, x, compare, k);
    SortedSplice(s, x, compare, k);
  }

  lemma SortedSplice<T(!new)>(s: seq<T>, x: T, compare: (T, T) -> int, k: nat)
    requires Ordering(compare) && Sorted(s, compare) && k <= |s|
    requires (forall i :: 0 <= i < k ==> compare(x, s[i]) >= 0) && (k < |s| ==> compare(x, s[k]) < 0)
    ensures Sorted(Spliced(s, x, k), compare)
    ensures forall i :: k <= i < |s| ==> compare(x, s[i]) < 0
  {
    forall i | k <= i < |s| ensures compare(x, s[i]) < 0 {
      assert compare(x, s[k]) <= 0 && (i == k || compare(s[k], s[i]) <= 0);
    }
    hide Spliced;
    SplicedAt(s, x, k);
  }

  function Spliced<T>(s: seq<T>, x: T, k: nat): (t: seq<T>)
    requires k <= |s|
    ensures |t| == |s| + 1
  {
    s[..k] + [x] + s[k..]
  }

  lemma SplicedAt<T>(s: seq<T>, x: T, k: nat)
    requires k <= |s|
    ensures forall i {:trigger Spliced(s, x, k)[i]} :: 0 <= i <= |s| ==>
      Spliced(s, x, k)[i] == if i < k then s[i] else if i == k then x else s[i - 1]
  {
    var t := Spliced(s, x, k);
    forall i | 0 <= i <= |s| ensures t[i] == if i < k then s[i] else if i == k then x else s[i - 1] {
      if i > k {
        assert t[i] == s[k..][i - k - 1] == s[i - 1];
      }
    }
  }

  /** No item twice, after adding a new one or taking one out. */
  lemma DistinctAdd<T>(s: seq<T>, x: T, k: nat)
    requires Distinct(s) && x !in s && k <= |s|
    ensures Distinct(Spliced(s, x, k))
  {
    hide Spliced;
    SplicedAt(s, x, k);
    var t := Spliced(s, x, k);
    forall i, j | 0 <= i < j < |t| ensures t[i] != t[j] {
      assert i != k && j != k ==> t[i] == s[if i < k then i else i - 1] && t[j] == s[if j < k then j else j - 1];
    }
  }

  lemma DistinctFront<T>(s: seq<T>, x: T)
    requires Distinct(s) && x !in s
    ensures Distinct([x] + s)
  {
  }

  lemma LastOnly<T>(s: seq<T>)
    requires Distinct(s)
    ensures s != [] ==> forall i :: 0 <= i < |s| - 1 ==> s[i] != s[|s| - 1]
  {
  }

  function Cut<T>(s: seq<T>, k: nat): (t: seq<T>)
    requires k < |s|
    ensures |t| == |s| - 1
  {
    s[..k] + s[k + 1..]
  }

  lemma CutAt<T>(s: seq<T>, k: nat)
    requires k < |s|
    ensures forall i {:trigger Cut(s, k)[i]} :: 0 <= i < |s| - 1 ==> Cut(s, k)[i] == s[if i < k then i else i + 1]
  {
  }

  lemma DistinctCut<T>(s: seq<T>, k: nat)
    requires Distinct(s) && k < |s|
    ensures Distinct(Cut(s, k)) && s[k] !in Cut(s, k)
  {
    hide Cut;
    CutAt(s, k);
    var t := Cut(s, k);
    forall i, j | 0 <= i < j < |t| ensures t[i] != t[j] {
      assert t[i] == s[if i < k then i else i + 1] && t[j] == s[if j < k then j else j + 1];
    }
    forall i | 0 <= i < |t| ensures t[i] != s[k] {
      assert t[i] == s[if i < k then i else i + 1];
    }
  }

  lemma TailOf<T>(s: seq<T>)
    requires Distinct(s) && s != []
    ensures s == [s[0]] + s[1..] && Distinct(s[1..]) && (s[0] == s[|s| - 1] <==> |s| == 1)
  {
  }

  lemma StillAhead<T>(s: seq<T>, x: T, k: nat)
    requires x in s && k <= |s| && x !in s[..k]
    ensures k < |s|
  {
    assert s[..|s|] == s;
  }

  // ----- the nodes -----

  class ListElement<T> {
    var item: T
    var next: ListElement?<T>

    constructor (item: T)
      ensures this.item == item && next == null
    {
      this.item := item;
      next := null;
    }
  }

  /** The nodes from `first` on, each linked to the next. */
  ghost predicate Chained<T>(spine: seq<ListElement<T>>)
    reads spine
  {
    && Distinct(spine)
    && (forall i :: 0 <= i < |spine| - 1 ==> spine[i].next == spine[i + 1])
    && (spine != [] ==> spine[|spine| - 1].next == null)
  }

  ghost function Items<T>(spine: seq<ListElement<T>>): seq<T>
    reads spine
  {
    seq(|spine|, i requires 0 <= i < |spine| reads spine => spine[i].item)
  }

  /** A list without its first element. */
  lemma ChainTail<T>(spine: seq<ListElement<T>>)
    requires Chained(spine) && spine != []
    ensures Chained(spine[1..])
    ensures (set n: object | n in spine[1..]) <= (set n: object | n in spine)
  {
    hide Distinct;
    TailOf(spine);
    var rest := spine[1..];
    assert forall i :: 0 <= i < |rest| ==> rest[i] == spine[i + 1];
  }

  /** A list whose k-th element has been bypassed. */
  lemma ChainCut<T>(nodes: seq<ListElement<T>>, k: nat)
    requires 0 < k < |nodes| && Distinct(Cut(nodes, k))
    requires forall i :: 0 <= i < |nodes| - 1 && i != k - 1 ==> nodes[i].next == nodes[i + 1]
    requires k < |nodes| - 1 ==> nodes[|nodes| - 1].next == null
    requires if k < |nodes| - 1 then nodes[k - 1].next == nodes[k + 1] else nodes[k - 1].next == null
    ensures Chained(Cut(nodes, k))
  {
    hide Distinct, Cut;
    CutAt(nodes, k);
  }

  class List<T(==)> {
    var first: ListElement?<T>
    var last: ListElement?<T>
    var numInList: int
    ghost var spine: seq<ListElement<T>>

    ghost predicate Valid()
      reads this, spine
    {
      && Chained(spine) && Distinct(Items(spine)) && numInList == |spine|
      && (if spine == [] then first == null && last == null
          else first == spine[0] && last == spine[|spine| - 1])
    }

    /** The list and its elements. */
    ghost function Repr(): set<object>
      reads this
    {
      {this} + set n: object | n in spine
    }

    ghost function Contents(): seq<T>
      reads this, spine
    {
      Items(spine)
    }

    constructor ()
      ensures Valid() && Contents() == []
    {
      first, last, numInList, spine := null, null, 0, [];
    }

    method IsInList(item: T) returns (found: bool)
      requires Valid()
      ensures found <==> item in Contents()
    {
      var ptr := first;
      ghost var k := 0;
      while ptr != null
        invariant 0 <= k <= |spine| && (if k < |spine| then ptr == spine[k] else ptr == null)
        invariant item !in Contents()[..k]
        decreases |spine| - k
      {
        if item == ptr.item {
          assert Contents()[k] == item;
          return true;
        }
        ptr := ptr.next;
        k := k + 1;
      }
      return false;
    }

    /** The list may not hold the item already. */
    method Append(item: T)
      requires Valid() && item !in Contents()
      modifies this, last
      ensures Valid() && Contents() == old(Contents()) + [item]
      ensures fresh(Repr() - old(Repr()))
    {
      hide Distinct;
      ghost var items, nodes := Contents(), spine;
      var element := new ListElement(item);
      DistinctAppend(items, item);
      DistinctAppend(nodes, element);
      assert forall i :: 0 <= i < |nodes| - 1 ==> nodes[i] != last by { LastOnly(nodes); }
      if numInList == 0 {
        first := element;
        last := element;
      } else {
        last.next := element;
        last := element;
      }
      numInList := numInList + 1;
      spine := nodes + [element];
      assert Contents() == items + [item];
    }

    method Prepend(item: T)
      requires Valid() && item !in Contents()
      modifies this
      ensures Valid() && Contents() == [item] + old(Contents())
      ensures fresh(Repr() - old(Repr()))
    {
      hide Distinct;
      ghost var items, nodes := Contents(), spine;
      var element := new ListElement(item);
      DistinctFront(items, item);
      DistinctFront(nodes, element);
      if numInList == 0 {
        first := element;
        last := element;
      } else {
        element.next := first;
        first := element;
      }
      numInList := numInList + 1;
      spine := [element] + nodes;
      assert Contents() == [item] + items;
    }

    method RemoveFront() returns (thing: T)
      requires Valid() && Contents() != []
      modifies this
      ensures Valid() && old(Contents()) == [thing] + Contents() && spine == old(spine)[1..]
      ensures Repr() <= old(Repr())
    {
      ghost var items, nodes := Contents(), spine;
      TailOf(items);
      TailOf(nodes);
      hide Distinct;
      var element := first;
      thing := first.item;
      if first == last {
        first := null;
        last := null;
      } else {
        first := element.next;
      }
      numInList := numInList - 1;
      spine := nodes[1..];
      ChainTail(nodes);
      assert Contents() == items[1..];
    }

    /** The item's element is unlinked, and the item is gone. */
    method Remove(item: T)
      requires Valid() && item in Contents()
      modifies this, spine
      ensures Valid() && Contents() == Without(old(Contents()), item) && item !in Contents()
      ensures Repr() <= old(Repr())
    {
      if item == first.item {
        var removed := RemoveFront();
        WithoutAt(old(Contents()), item, 0);
      } else {
        var prev, k := FindBefore(item);
        Unlink(prev, k, item);
      }
    }

    /** The pointer loop of Remove: the element before the item's, which is the k-th. */
    method FindBefore(item: T) returns (prev: ListElement<T>, ghost k: nat)
      requires Valid() && item in Contents() && Contents()[0] != item
      ensures 0 < k < |spine| && spine[k].item == item && item !in Contents()[..k] && prev == spine[k - 1]
    {
      prev := first;
      var ptr := first.next;
      k := 1;
      while ptr != null && item != ptr.item
        invariant 0 < k <= |spine| && prev == spine[k - 1]
        invariant if k < |spine| then ptr == spine[k] else ptr == null
        invariant item !in Contents()[..k]
        decreases |spine| - k
      {
        assert Contents()[k] == ptr.item;
        assert Contents()[..k + 1] == Contents()[..k] + [ptr.item];
        prev := ptr;
        ptr := ptr.next;
        k := k + 1;
      }
      StillAhead(Contents(), item, k);
    }

    method Unlink(prev: ListElement<T>, ghost k: nat, item: T)
      requires Valid() && 0 < k < |spine| && prev == spine[k - 1]
      requires spine[k].item == item && item !in Contents()[..k]
      modifies this, prev
      ensures Valid() && Contents() == Without(old(Contents()), item) && item !in Contents()
      ensures Repr() <= old(Repr())
    {
      ghost var items, nodes := Contents(), spine;
      WithoutAt(items, item, k);
      DistinctCut(items, k);
      DistinctCut(nodes, k);
      assert forall i :: 0 <= i < |nodes| && i != k - 1 ==> nodes[i] != prev;
      assert if k < |nodes| - 1 then nodes[k].next == nodes[k + 1] else nodes[k].next == null;
      hide Distinct, Cut;
      prev.next := prev.next.next;
      if prev.next == null {
        last := prev;
      }
      numInList := numInList - 1;
      spine := Cut(nodes, k);
      ChainCut(nodes, k);
      CutAt(nodes, k);
      CutAt(items, k);
      hide Chained;
      assert Contents() == Cut(items, k);
    }

    /** SortedList::Insert. */
    method Insert(item: T, compare: (T, T) -> int)
      requires Valid() && item !in Contents()
      modifies this, spine
      ensures Valid() && Contents() == Inserted(old(Contents()), item, compare)
      ensures fresh(Repr() - old(Repr()))
    {
      if numInList == 0 {
        Append(item);
      } else if compare(item, first.item) < 0 {
        InsertedAt(Contents(), item, compare, 0);
        Prepend(item);
      } else {
        var prev, k := FindPlace(item, compare);
        InsertedAt(Contents(), item, compare, k);
        if prev.next == null {
          Append(item);
        } else {
          LinkAfter(prev, k, item);
        }
      }
    }

    /** The pointer loop of Insert: the element after which the item goes. */
    method FindPlace(item: T, compare: (T, T) -> int) returns (prev: ListElement<T>, ghost k: nat)
      requires Valid() && Contents() != [] && compare(item, Contents()[0]) >= 0
      ensures 0 < k <= |spine| && prev == spine[k - 1]
      ensures forall i :: 0 <= i < k ==> compare(item, Contents()[i]) >= 0
      ensures k < |spine| ==> compare(item, Contents()[k]) < 0
    {
      prev := first;
      k := 1;
      while prev.next != null && compare(item, prev.next.item) >= 0
        invariant 0 < k <= |spine| && prev == spine[k - 1]
        invariant forall i :: 0 <= i < k ==> compare(item, Contents()[i]) >= 0
        decreases |spine| - k
      {
        prev := prev.next;
        k := k + 1;
      }
    }

    method LinkAfter(prev: ListElement<T>, ghost k: nat, item: T)
      requires Valid() && 0 < k < |spine| && prev == spine[k - 1] && item !in Contents()
      modifies this, prev
      ensures Valid() && Contents() == Spliced(old(Contents()), item, k)
      ensures fresh(Repr() - old(Repr()))
    {
      ghost var items, nodes := Contents(), spine;
      var element := new ListElement(item);
      DistinctAdd(items, item, k);
      DistinctAdd(nodes, element, k);
      assert forall i :: 0 <= i < |nodes| && i != k - 1 ==> nodes[i] != prev;
      hide Distinct, Spliced;
      element.next := prev.next;
      prev.next := element;
      numInList := numInList + 1;
      spine := Spliced(nodes, element, k);
      SplicedAt(nodes, element, k);
      SplicedAt(items, item, k);
      assert Chained(spine);
      assert Contents() == Spliced(items, item, k);
    }
  }
}
