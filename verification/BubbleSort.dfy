/** The user program's shrinking-window bubble sort (test/sort.c). */
module BubbleSorts {

  predicate GoodOrder(curr: int, next: int, asc: int) {
    if asc == 1 then curr <= next else curr >= next
  }

  /** Positions lo..hi-1 are in the requested order, every pair of them. */
  ghost predicate Ordered(s: seq<int>, lo: int, hi: int, asc: int) {
    forall i, j :: 0 <= lo <= i < j < hi <= |s| ==> GoodOrder(s[i], s[j], asc)
  }

  /** Everything before position mid may stand before everything at mid..hi-1. */
  ghost predicate Below(s: seq<int>, mid: int, hi: int, asc: int) {
    forall i, j :: 0 <= i < mid <= j < hi <= |s| ==> GoodOrder(s[i], s[j], asc)
  }

  /** Within 0..right everything may stand before v. */
  ghost predicate Bounded(s: seq<int>, right: int, v: int, asc: int) {
    forall i :: 0 <= i <= right < |s| ==> GoodOrder(s[i], v, asc)
  }

  function Swap(s: seq<int>, j: nat): (t: seq<int>)
    requires j + 1 < |s|
    ensures |t| == |s| && multiset(t) == multiset(s)
  {
    var (head, tail) := (s[..j], s[j + 2..]);
    assert s == head + [s[j], s[j + 1]] + tail;
    head + [s[j + 1], s[j]] + tail
  }

  lemma SwapAt(s: seq<int>, j: nat)
    requires j + 1 < |s|
    ensures Swap(s, j) == s[j := s[j + 1]][j + 1 := s[j]]
  {
  }

  /** What the pass knows after looking at positions 0..j, the last swap having left an element at `from`. */
  ghost predicate Seen(s: seq<int>, from: int, j: int, asc: int) {
    Bounded(s, j, if 0 <= j < |s| then s[j] else 0, asc) && Ordered(s, from, j + 1, asc) && Below(s, from, j + 1, asc)
  }

  lemma KeepStep(s: seq<int>, from: nat, j: nat, asc: int)
    requires from <= j && j + 1 < |s| && Seen(s, from, j, asc) && GoodOrder(s[j], s[j + 1], asc)
    ensures Seen(s, from, j + 1, asc)
  {
  }

  lemma SwapStep(s: seq<int>, from: nat, j: nat, asc: int)
    requires from <= j && j + 1 < |s| && Seen(s, from, j, asc) && !GoodOrder(s[j], s[j + 1], asc)
    ensures Seen(Swap(s, j), j + 1, j + 1, asc)
  {
    SwapAt(s, j);
  }

  lemma SwapBelow(s: seq<int>, j: nat, mid: int, hi: int, asc: int)
    requires j + 1 < mid && j + 1 < |s| && Below(s, mid, hi, asc)
    ensures Below(Swap(s, j), mid, hi, asc)
  {
    SwapAt(s, j);
  }

  /** A swap cannot reach the end of a window whose last element is its extreme. */
  lemma SwapBounded(s: seq<int>, j: nat, right: nat, asc: int)
    requires j < right < |s| && Bounded(s, right, s[right], asc) && !GoodOrder(s[j], s[j + 1], asc)
    ensures j + 1 < right && Bounded(Swap(s, j), right, s[right], asc) && Swap(s, j)[right] == s[right]
  {
    SwapAt(s, j);
  }

  ghost predicate SameAfter(s: seq<int>, t: seq<int>, j: int) {
    |s| == |t| && forall i :: 0 <= i < |s| && j < i ==> s[i] == t[i]
  }

  lemma SwapSame(w: seq<int>, s: seq<int>, j: nat)
    requires j + 1 < |s| && SameAfter(w, s, j)
    ensures SameAfter(w, Swap(s, j), j + 1)
  {
    SwapAt(s, j);
  }

  method Exchange(a: array<int>, j: nat)
    requires j + 1 < a.Length
    modifies a
    ensures a[..] == Swap(old(a[..]), j)
  {
    hide Swap;
    SwapAt(a[..], j);
    var temp := a[j];
    a[j] := a[j + 1];
    a[j + 1] := temp;
  }

  /** One pass over the window 0..right, below the sorted rest right+1..n-1: afterwards last..right is in
      order above everything before it, and with no swap so is the whole window.  When the window's last
      element was already its extreme, the window shrinks. */
  method Pass(a: array<int>, right: nat, ghost n: nat, asc: int) returns (isSwapped: bool, lastSwapPos: nat)
    requires right < n <= a.Length && Below(a[..], right + 1, n, asc)
    modifies a
    ensures multiset(a[..]) == multiset(old(a[..])) && SameAfter(old(a[..]), a[..], right)
    ensures Below(a[..], right + 1, n, asc)
    ensures Seen(a[..], if isSwapped then lastSwapPos else 0, right, asc)
    ensures isSwapped ==> 1 <= lastSwapPos <= right
    ensures isSwapped && Bounded(old(a[..]), right, old(a[right]), asc) ==> lastSwapPos < right
  {
    hide Seen, Below, Ordered, Swap, Bounded, SameAfter;
    isSwapped, lastSwapPos := false, 1;
    ghost var from, s := 0, a[..];
    ghost var topped := Bounded(s, right, s[right], asc);
    FirstSeen(s, asc);
    for j := 0 to right
      invariant s == a[..] && |s| == a.Length && from == if isSwapped then lastSwapPos else 0
      invariant multiset(s) == multiset(old(a[..])) && SameAfter(old(a[..]), s, j)
      invariant Below(s, right + 1, n, asc)
      invariant 0 <= from <= j && Seen(s, from, j, asc)
      invariant isSwapped ==> 1 <= lastSwapPos
      invariant topped ==> Bounded(s, right, s[right], asc) && (isSwapped ==> lastSwapPos < right)
    {
      if !GoodOrder(a[j], a[j + 1], asc) {
        SwapStep(s, from, j, asc);
        SwapBelow(s, j, right + 1, n, asc);
        SwapSame(old(a[..]), s, j);
        if topped {
          SwapBounded(s, j, right, asc);
        }
        Exchange(a, j);
        isSwapped := true;
        lastSwapPos := j + 1;
        from, s := j + 1, Swap(s, j);
      } else {
        KeepStep(s, from, j, asc);
        KeepSame(old(a[..]), s, j);
      }
    }
  }

  lemma KeepSame(w: seq<int>, s: seq<int>, j: nat)
    requires SameAfter(w, s, j)
    ensures SameAfter(w, s, j + 1)
  {
  }

  lemma FirstSeen(s: seq<int>, asc: int)
    requires s != []
    ensures Seen(s, 0, 0, asc) && SameAfter(s, s, 0)
  {
  }

  /** The window's ordered part joins the sorted rest. */
  lemma Join(s: seq<int>, from: nat, right: nat, n: nat, asc: int)
    requires from <= right < n <= |s| && Seen(s, from, right, asc)
    requires Ordered(s, right + 1, n, asc) && Below(s, right + 1, n, asc)
    ensures Ordered(s, from, n, asc) && Below(s, from, n, asc) && Bounded(s, from, s[from], asc)
  {
  }

  /** BubbleSort: a sorted permutation for every length and either order.  A pass may leave
      the window as it is once, but after any pass its last element is already in place. */
  method BubbleSort(a: array<int>, n: int, asc: int)
    requires n <= a.Length
    modifies a
    ensures Ordered(a[..], 0, n, asc)
    ensures multiset(a[..]) == multiset(old(a[..])) && SameAfter(old(a[..]), a[..], n - 1)
  {
    var left, right := 0, n - 1;
    ghost var first := true;
    while left <= right
      invariant right < n && (n > 0 ==> right >= 0)
      invariant n > 0 ==> Ordered(a[..], right + 1, n, asc) && Below(a[..], right + 1, n, asc)
      invariant !first ==> right >= 0 && Bounded(a[..], right, a[right], asc)
      invariant multiset(a[..]) == multiset(old(a[..])) && SameAfter(old(a[..]), a[..], n - 1)
      decreases right, first
    {
      hide Seen, Below, Bounded;
      ghost var s := a[..];
      var isSwapped, lastSwapPos := Pass(a, right, n, asc);
      StillOrdered(s, a[..], right + 1, n, asc);
      Join(a[..], if isSwapped then lastSwapPos else 0, right, n, asc);
      if !isSwapped {
        break;
      }
      Rest(a[..], lastSwapPos, n, asc);
      right, first := lastSwapPos, false;
    }
  }

  lemma StillOrdered(s: seq<int>, t: seq<int>, lo: nat, hi: int, asc: int)
    requires SameAfter(s, t, lo - 1) && Ordered(s, lo, hi, asc)
    ensures Ordered(t, lo, hi, asc)
  {
  }

  lemma Rest(s: seq<int>, from: nat, n: nat, asc: int)
    requires from < n <= |s| && Ordered(s, from, n, asc) && Below(s, from, n, asc)
    ensures Ordered(s, from + 1, n, asc) && Below(s, from + 1, n, asc)
  {
  }
}
