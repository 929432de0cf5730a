/**
  The bounded top-k heap (src/runtime/Heap.cpp, include/lingodb/runtime/Heap.h).

  `log` records every element handed to insert and `dropped` those that did not stay;
  no method reads them.
*/
module Heap {
  import opened Basics
  import opened HeapSift
  import opened Orders

  /** No dropped element is less than a kept one. */
  ghost predicate NoneBetter<T(!new)>(less: (T, T) -> bool, dropped: multiset<T>, kept: multiset<T>)
  {
    forall d, x :: d in dropped && x in kept ==> !less(d, x)
  }

  /** `kept` are the `k` least elements of `all`, or all of them if there are fewer. */
  ghost predicate IsTopK<T(!new)>(less: (T, T) -> bool, all: multiset<T>, k: nat, kept: multiset<T>)
  {
    |kept| == Min(k, |all|) && kept <= all && NoneBetter(less, all - kept, kept)
  }

  /** The elements in slots 1 to `n`. */
  ghost function Elements<T>(s: seq<T>, n: nat): multiset<T>
    requires n < |s|
  {
    multiset(s[1..n + 1])
  }

  class Heap<T(!new)> {
    const less: (T, T) -> bool
    const maxElements: nat
    const data: array<T>
    var currElements: nat
    ghost var log: multiset<T>
    ghost var dropped: multiset<T>

    ghost predicate Valid()
      reads this, data
    {
      && maxElements >= 1 && data.Length == maxElements + 1 && currElements <= maxElements && StrictWeakOrder(less)
      && (currElements == maxElements ==> HeapFrom(less, data[..], 1, currElements))
      && (currElements < maxElements ==> dropped == multiset{})
      && log == Kept() + dropped && NoneBetter(less, dropped, Kept())
    }

    ghost function Kept(): multiset<T>
      reads this, data
      requires currElements < data.Length
    {
      Elements(data[..], currElements)
    }

    constructor (cmpFn: (T, T) -> bool, k: nat, filler: T)
      requires k >= 1 && StrictWeakOrder(cmpFn)
      ensures Valid() && log == multiset{} && maxElements == k && less == cmpFn && fresh(data)
    {
      less, maxElements, currElements := cmpFn, k, 0;
      data := new T[k + 1](_ => filler);
      log, dropped := multiset{}, multiset{};
      new;
      assert data[1..1] == [];
    }

    method SwapSlots(i: nat, j: nat)
      requires i < data.Length && j < data.Length
      modifies data
      ensures data[..] == Swap(old(data[..]), i, j)
    {
      data[i], data[j] := data[j], data[i];
    }

    method BubbleDown(i: nat, end: nat)
      requires 1 <= i && end < data.Length
      modifies data
      ensures data[..] == SiftDown(less, old(data[..]), i, end)
      decreases end - i
    {
      if 2 * i > end {
        return;
      }
      ghost var s := data[..];
      var c := 2 * i;
      if 2 * i + 1 <= end && less(data[2 * i], data[2 * i + 1]) {
        c := 2 * i + 1;
      }
      assert c == MaxChild(less, s, i, end);
      if less(data[i], data[c]) {
        SwapSlots(i, c);
        BubbleDown(c, end);
      }
    }

    method BuildHeap()
      requires currElements < data.Length && StrictWeakOrder(less)
      modifies data
      ensures HeapFrom(less, data[..], 1, currElements)
      ensures Rearranged(old(data[..]), data[..], 1, currElements + 1)
    {
      hide StrictWeakOrder, HeapFrom, Rearranged, SiftDown;
      BuildStart(less, data[..], currElements);
      var i := currElements;
      while i > 0
        invariant 0 <= i <= currElements
        invariant HeapFrom(less, data[..], i + 1, currElements)
        invariant Rearranged(old(data[..]), data[..], 1, currElements + 1)
      {
        ghost var s := data[..];
        BuildStep(less, s, i, currElements);
        BubbleDown(i, currElements);
        RearrangedTwice(old(data[..]), s, data[..], 1, currElements + 1);
        i := i - 1;
      }
    }

    method Insert(x: T)
      requires Valid()
      modifies this, data
      ensures Valid() && log == old(log) + multiset{x}
      ensures currElements == Min(maxElements, old(currElements) + 1)
    {
      if currElements < maxElements {
        Append(x);
      } else {
        Replace(x);
      }
    }

    /** While there is room; the heap is built when the last slot is taken. */
    method Append(x: T)
      requires Valid() && currElements < maxElements
      modifies this, data
      ensures Valid() && log == old(log) + multiset{x} && currElements == old(currElements) + 1
    {
      hide StrictWeakOrder, HeapFrom, Rearranged, SiftDown, NoneBetter, Elements;
      ghost var s, n := data[..], currElements;
      log := log + multiset{x};
      data[currElements + 1] := x;
      currElements := currElements + 1;
      assert data[..] == s[n + 1 := x];
      OneMore(s, n, x);
      if currElements == maxElements {
        ghost var r := data[..];
        BuildHeap();
        SameElements(r, data[..], currElements);
      }
      NothingDropped(less, Kept());
    }

    /** Once the heap is full: a new element less than the root takes its place. */
    method Replace(x: T)
      requires Valid() && currElements == maxElements
      modifies this, data
      ensures Valid() && log == old(log) + multiset{x} && currElements == old(currElements)
    {
      hide StrictWeakOrder, HeapFrom, Rearranged, SiftDown, NoneBetter, Elements;
      ghost var s, n := data[..], currElements;
      log := log + multiset{x};
      RootNotLess(less, s, n);
      if less(x, data[1]) {
        dropped := dropped + multiset{data[1]};
        data[1] := x;
        ghost var r := data[..];
        NewRoot(less, s, n, x, old(dropped));
        assert r == s[1 := x];
        BubbleDown(1, currElements);
        SameElements(r, data[..], n);
        assert Kept() + dropped == (Kept() + multiset{s[1]}) + old(dropped);
        assert log == (old(Kept()) + multiset{x}) + old(dropped);
      } else {
        dropped := dropped + multiset{x};
        DropNew(less, old(dropped), s[1], Kept(), x);
      }
    }

    /** Insert what another heap kept; what it dropped counts as dropped here. */
    method MergeWithOther(other: Heap<T>)
      requires Valid() && other.Valid() && other != this && other.data != data
      requires other.less == less && other.maxElements == maxElements
      modifies this, data
      ensures Valid() && log == old(log) + other.log
    {
      hide StrictWeakOrder, HeapFrom, NoneBetter, Elements;
      InsertSlots(other);
      AddDropped(other.data[..], other.currElements, other.dropped, old(log));
    }

    method InsertSlots(other: Heap<T>)
      requires Valid() && other.currElements < other.data.Length && other != this && other.data != data
      modifies this, data
      ensures Valid() && log == old(log) + Elements(other.data[..], other.currElements)
      ensures currElements == Min(maxElements, old(currElements) + other.currElements)
    {
      hide StrictWeakOrder, HeapFrom, NoneBetter, Elements, Valid;
      ghost var s := other.data[..];
      NoElements(s);
      ValidBound();
      var i := 1;
      while i <= other.currElements
        invariant 1 <= i <= other.currElements + 1 && Valid()
        invariant log == old(log) + Elements(s, i - 1)
        invariant currElements == Min(maxElements, old(currElements) + i - 1)
      {
        Insert(other.data[i]);
        NextElement(s, i);
        i := i + 1;
      }
    }

    lemma ValidBound()
      requires Valid()
      ensures currElements <= maxElements
    {
    }

    ghost method AddDropped(s: seq<T>, n: nat, others: multiset<T>, before: multiset<T>)
      requires Valid() && n < |s| && log == before + Elements(s, n) && NoneBetter(less, others, Elements(s, n))
      requires others != multiset{} ==> n == currElements == maxElements
      modifies `log, `dropped
      ensures Valid() && log == old(log) + others
    {
      hide StrictWeakOrder, HeapFrom, NoneBetter, Elements;
      MergedNoneBetter(less, data[..], currElements, dropped, before, s, n, others);
      log, dropped := log + others, dropped + others;
    }

    /** Sort in place and hand out the elements; the heap cannot be used afterwards. */
    method GetBuffer() returns (r: seq<T>)
      requires Valid()
      modifies data
      ensures r == data[1..currElements + 1] && Sorted(less, r) && IsTopK(less, log, maxElements, multiset(r))
    {
      hide StrictWeakOrder, HeapFrom, Rearranged, Sorted, NoneBetter, Elements, IsTopK;
      ghost var s := data[..];
      if currElements < maxElements {
        BuildHeap();
        SameElements(s, data[..], currElements);
      }
      ghost var a := data[..];
      HeapSort();
      SameElements(a, data[..], currElements);
      r := data[1..currElements + 1];
      assert r == data[..][1..currElements + 1];
      SlotsAre(data[..], currElements);
      SplitIsTopK(less, r, dropped, maxElements);
    }

    method HeapSort()
      requires currElements < data.Length && StrictWeakOrder(less) && HeapFrom(less, data[..], 1, currElements)
      modifies data
      ensures Sorted(less, data[1..currElements + 1]) && Rearranged(old(data[..]), data[..], 1, currElements + 1)
    {
      hide StrictWeakOrder, HeapFrom, Rearranged, SiftDown, SortedAbove, Sorted, Swap;
      SortStart(less, data[..], currElements);
      var i := 0;
      while i < currElements
        invariant 0 <= i <= currElements
        invariant HeapFrom(less, data[..], 1, currElements - i)
        invariant Rearranged(old(data[..]), data[..], 1, currElements + 1)
        invariant SortedAbove(less, data[..], currElements - i, currElements)
      {
        var m := currElements - i;
        ghost var s := data[..];
        SwapSlots(1, m);
        SortStep(less, s, m, currElements);
        BubbleDown(1, m - 1);
        RearrangedTwice(old(data[..]), s, data[..], 1, currElements + 1);
        i := i + 1;
      }
      SortEnd(less, data[..], currElements);
      assert data[..][1..currElements + 1] == data[1..currElements + 1];
    }
  }

  lemma SplitIsTopK<T(!new)>(less: (T, T) -> bool, r: seq<T>, dropped: multiset<T>, k: nat)
    requires NoneBetter(less, dropped, multiset(r)) && |r| <= k && (|r| < k ==> dropped == multiset{})
    ensures IsTopK(less, multiset(r) + dropped, k, multiset(r))
  {
    assert multiset(r) + dropped - multiset(r) == dropped;
  }

  // ----- Merging the heaps of all workers -----

  ghost predicate Mergeable<T(!new)>(heaps: seq<Heap?<T>>)
    reads (set h | h in heaps && h != null), (set h: Heap<T> | h in heaps :: h.data)
  {
    (forall i :: 0 <= i < |heaps| && heaps[i] != null ==> heaps[i].Valid()) && Compatible(heaps)
  }

  /** Different heaps with the same order and capacity. */
  ghost predicate Compatible<T(!new)>(heaps: seq<Heap?<T>>)
  {
    forall i, j :: 0 <= i < j < |heaps| && heaps[i] != null && heaps[j] != null ==>
      && heaps[i] != heaps[j] && heaps[i].data != heaps[j].data
      && heaps[i].less == heaps[j].less && heaps[i].maxElements == heaps[j].maxElements
  }

  lemma ApartFromLater<T(!new)>(heaps: seq<Heap?<T>>, first: Heap<T>, i: nat)
    requires Compatible(heaps) && i <= |heaps| && first in heaps[..i]
    ensures forall j :: i <= j < |heaps| && heaps[j] != null ==>
      && heaps[j] != first && heaps[j].data != first.data
      && heaps[j].less == first.less && heaps[j].maxElements == first.maxElements
  {
  }

  /** Everything that was inserted into any of the heaps. */
  ghost function AllInserted<T(!new)>(heaps: seq<Heap?<T>>): multiset<T>
    reads set h | h in heaps && h != null
    decreases |heaps|
  {
    if heaps == [] then multiset{}
    else
      var last := heaps[|heaps| - 1];
      var before := AllInserted(heaps[..|heaps| - 1]);
      if last == null then before else before + last.log
  }

  ghost predicate NoneIn<T(!new)>(heaps: seq<Heap?<T>>)
  {
    forall i :: 0 <= i < |heaps| ==> heaps[i] == null
  }

  lemma NoneInStep<T(!new)>(heaps: seq<Heap?<T>>)
    ensures NoneIn(heaps[..0]) && heaps[..|heaps|] == heaps
    ensures forall i :: 0 <= i < |heaps| ==>
      heaps[..i + 1] == heaps[..i] + [heaps[i]] && (NoneIn(heaps[..i + 1]) <==> NoneIn(heaps[..i]) && heaps[i] == null)
  {
    forall i | 0 <= i < |heaps|
      ensures heaps[..i + 1] == heaps[..i] + [heaps[i]]
      ensures NoneIn(heaps[..i + 1]) <==> NoneIn(heaps[..i]) && heaps[i] == null
    {
      var a, b := heaps[..i + 1], heaps[..i];
      assert a == b + [heaps[i]] && a[i] == heaps[i];
      assert forall j :: 0 <= j < i ==> b[j] == a[j];
    }
  }

  /** Merge the heaps of all workers into the first one: it then stands for everything inserted anywhere. */
  method Merge<T(!new)>(heaps: seq<Heap?<T>>) returns (first: Heap?<T>)
    requires Mergeable(heaps)
    modifies (set h | h in heaps && h != null), (set h: Heap<T> | h in heaps :: h.data)
    ensures first == null <==> NoneIn(heaps)
    ensures first != null ==> first.Valid() && first.log == old(AllInserted(heaps))
  {
    hide Heap.Valid, AllInserted, Compatible, NoneIn;
    NoneInStep(heaps);
    ghost var logs, totals := Totals(heaps);
    first := null;
    var i := 0;
    while i < |heaps|
      invariant 0 <= i <= |heaps|
      invariant first == null <==> NoneIn(heaps[..i])
      invariant first == null ==> totals[i] == multiset{}
      invariant first != null ==> first in heaps[..i] && first.Valid() && first.log == totals[i]
      invariant forall j :: i <= j < |heaps| && heaps[j] != null ==> heaps[j].Valid() && heaps[j].log == logs[j]
    {
      var current := heaps[i];
      assert totals[i + 1] == totals[i] + logs[i];
      if current != null {
        if first == null {
          first := current;
        } else {
          ApartFromLater(heaps, first, i);
          first.MergeWithOther(current);
        }
      }
      i := i + 1;
    }
  }

  /** What each heap holds, and what the first of them hold together. */
  lemma Totals<T(!new)>(heaps: seq<Heap?<T>>) returns (logs: seq<multiset<T>>, totals: seq<multiset<T>>)
    ensures |logs| == |heaps| && |totals| == |heaps| + 1 && totals[0] == multiset{}
      && totals[|heaps|] == AllInserted(heaps)
    ensures forall i :: 0 <= i < |heaps| ==> logs[i] == if heaps[i] == null then multiset{} else heaps[i].log
    ensures forall i :: 0 <= i < |heaps| ==> totals[i + 1] == totals[i] + logs[i]
  {
    if heaps == [] {
      logs, totals := [], [multiset{}];
    } else {
      var n := |heaps| - 1;
      logs, totals := Totals(heaps[..n]);
      logs := logs + [if heaps[n] == null then multiset{} else heaps[n].log];
      totals := totals + [totals[n] + logs[n]];
    }
  }

  /** Everything above slot `m` is sorted and not less than anything at or below it. */
  ghost predicate SortedAbove<T>(less: (T, T) -> bool, s: seq<T>, m: nat, end: nat)
    requires m <= end < |s|
  {
    forall p, q :: 1 <= p < q <= end && q > m ==> !less(s[q], s[p])
  }

  lemma NoElements<T>(s: seq<T>)
    requires |s| > 0
    ensures Elements(s, 0) == multiset{}
  {
    assert s[1..1] == [];
  }

  lemma NextElement<T>(s: seq<T>, i: nat)
    requires 1 <= i < |s|
    ensures Elements(s, i) == Elements(s, i - 1) + multiset{s[i]}
  {
    assert s[1..i + 1] == s[1..i] + [s[i]];
  }

  /** A heap that dropped something was full, so nothing it dropped can be among the best of the union. */
  lemma MergedNoneBetter<T(!new)>(less: (T, T) -> bool, s: seq<T>, n: nat, dropped: multiset<T>, log: multiset<T>,
      other: seq<T>, m: nat, otherDropped: multiset<T>)
    requires StrictWeakOrder(less) && n < |s| && m < |other|
    requires Elements(s, n) + dropped == log + Elements(other, m)
    requires NoneBetter(less, dropped, Elements(s, n)) && NoneBetter(less, otherDropped, Elements(other, m))
    requires otherDropped != multiset{} ==> n == m
    ensures NoneBetter(less, dropped + otherDropped, Elements(s, n))
  {
    var kept, otherKept := Elements(s, n), Elements(other, m);
    forall d, x | d in dropped + otherDropped && x in kept
      ensures !less(d, x)
    {
      if d in otherDropped && less(d, x) {
        OthersStay(less, kept, dropped, log, otherKept, otherDropped, d, x);
        StrictSubset(otherKept, kept, x);
        assert false;
      }
    }
  }

  lemma OthersStay<T(!new)>(less: (T, T) -> bool, kept: multiset<T>, dropped: multiset<T>, log: multiset<T>,
      otherKept: multiset<T>, otherDropped: multiset<T>, d: T, x: T)
    requires StrictWeakOrder(less) && kept + dropped == log + otherKept
    requires NoneBetter(less, dropped, kept) && NoneBetter(less, otherDropped, otherKept)
    requires d in otherDropped && x in kept && less(d, x)
    ensures otherKept <= kept && x !in otherKept
  {
    forall y | y in otherKept
      ensures y !in dropped
    {
      assert OrderLaws(less, d, y, x);
    }
    assert x !in otherKept by { assert OrderLaws(less, d, x, x); }
    forall y | y in otherKept
      ensures kept[y] >= otherKept[y]
    {
      assert kept[y] + dropped[y] == (kept + dropped)[y] == (log + otherKept)[y] == log[y] + otherKept[y];
    }
  }

  lemma StrictSubset<T>(a: multiset<T>, b: multiset<T>, x: T)
    requires a <= b && x in b && x !in a
    ensures |a| < |b|
  {
    assert b == a + (b - a);
    assert x in b - a;
  }

  lemma OneMore<T>(s: seq<T>, n: nat, x: T)
    requires n + 1 < |s|
    ensures Elements(s[n + 1 := x], n + 1) == Elements(s, n) + multiset{x}
  {
    assert s[n + 1 := x][1..n + 2] == s[1..n + 1] + [x];
  }

  lemma SortStart<T>(less: (T, T) -> bool, s: seq<T>, end: nat)
    requires end < |s|
    ensures SortedAbove(less, s, end, end) && Rearranged(s, s, 1, end + 1)
  {
  }

  lemma SortEnd<T>(less: (T, T) -> bool, s: seq<T>, end: nat)
    requires end < |s| && SortedAbove(less, s, 0, end)
    ensures Sorted(less, s[1..end + 1])
  {
  }

  lemma RearrangedTwice<T>(a: seq<T>, b: seq<T>, c: seq<T>, lo: nat, hi: nat)
    requires Rearranged(a, b, lo, hi) && Rearranged(b, c, lo, hi)
    ensures Rearranged(a, c, lo, hi)
  {
  }

  lemma SameElements<T>(s: seq<T>, r: seq<T>, end: nat)
    requires Rearranged(s, r, 1, end + 1)
    ensures |r| == |s| > end && Elements(r, end) == Elements(s, end)
  {
  }

  lemma SlotsAre<T>(s: seq<T>, n: nat)
    requires n < |s|
    ensures Elements(s, n) == multiset(s[1..n + 1])
  {
  }

  lemma BuildStart<T>(less: (T, T) -> bool, s: seq<T>, end: nat)
    requires end < |s|
    ensures HeapFrom(less, s, end + 1, end) && Rearranged(s, s, 1, end + 1)
  {
  }

  lemma BuildStep<T(!new)>(less: (T, T) -> bool, s: seq<T>, i: nat, end: nat)
    requires StrictWeakOrder(less) && 1 <= i <= end < |s| && HeapFrom(less, s, i + 1, end)
    ensures HeapFrom(less, SiftDown(less, s, i, end), i, end) && Rearranged(s, SiftDown(less, s, i, end), 1, end + 1)
  {
    SiftRepairs(less, s, i, i, end);
    SiftRearranges(less, s, i, end);
  }

  lemma NothingDropped<T(!new)>(less: (T, T) -> bool, kept: multiset<T>)
    ensures NoneBetter(less, multiset{}, kept)
  {
  }

  /** Replacing the root by a lesser element: the heap is repaired and the old root is dropped. */
  lemma NewRootSifted<T(!new)>(less: (T, T) -> bool, s: seq<T>, n: nat, x: T)
    requires StrictWeakOrder(less) && 1 <= n < |s| && HeapFrom(less, s, 1, n) && less(x, s[1])
    ensures var r := s[1 := x];
      HeapFrom(less, SiftDown(less, r, 1, n), 1, n) && Rearranged(r, SiftDown(less, r, 1, n), 1, n + 1)
  {
    hide Rearranged, SiftDown;
    var r := s[1 := x];
    SiftRearranges(less, r, 1, n);
    SiftRepairs(less, r, 1, 1, n);
  }

  lemma NewRootBetter<T(!new)>(less: (T, T) -> bool, s: seq<T>, n: nat, x: T, dropped: multiset<T>)
    requires StrictWeakOrder(less) && 1 <= n < |s| && less(x, s[1])
    requires NoneBetter(less, dropped, Elements(s, n)) && forall y :: y in Elements(s, n) ==> !less(s[1], y)
    ensures Elements(s[1 := x], n) + multiset{s[1]} == Elements(s, n) + multiset{x}
    ensures NoneBetter(less, dropped + multiset{s[1]}, Elements(s[1 := x], n))
  {
    hide NoneBetter, StrictWeakOrder;
    var r, rest := s[1 := x], s[2..n + 1];
    assert r[1..n + 1] == [x] + rest && s[1..n + 1] == [s[1]] + rest;
    ReplaceRoot(less, dropped, s[1], multiset(rest), x);
  }

  lemma NewRoot<T(!new)>(less: (T, T) -> bool, s: seq<T>, n: nat, x: T, dropped: multiset<T>)
    requires StrictWeakOrder(less) && 1 <= n < |s| && HeapFrom(less, s, 1, n) && less(x, s[1])
    requires NoneBetter(less, dropped, Elements(s, n)) && forall y :: y in Elements(s, n) ==> !less(s[1], y)
    ensures var r := s[1 := x];
      && HeapFrom(less, SiftDown(less, r, 1, n), 1, n) && Rearranged(r, SiftDown(less, r, 1, n), 1, n + 1)
      && Elements(r, n) + multiset{s[1]} == Elements(s, n) + multiset{x}
      && NoneBetter(less, dropped + multiset{s[1]}, Elements(r, n))
  {
    hide HeapFrom, Rearranged, NoneBetter, StrictWeakOrder, SiftDown, Elements;
    NewRootSifted(less, s, n, x);
    NewRootBetter(less, s, n, x, dropped);
  }

  /** One turn of the sort: the maximum moves to slot `m` and the rest is a heap again. */
  /** Moving the root away leaves a heap whose only flaw is the new root. */
  lemma SortStepHeap<T(!new)>(less: (T, T) -> bool, s: seq<T>, m: nat)
    requires StrictWeakOrder(less) && 1 <= m < |s| && HeapFrom(less, s, 1, m)
    ensures HeapFrom(less, SiftDown(less, Swap(s, 1, m), 1, m - 1), 1, m - 1)
  {
    hide StrictWeakOrder, SiftDown;
    var a := Swap(s, 1, m);
    assert HeapExcept(less, a, 1, 1, m - 1);
    hide HeapFrom, HeapExcept;
    SiftRepairs(less, a, 1, 1, m - 1);
  }

  lemma SortStepRearranges<T(!new)>(less: (T, T) -> bool, s: seq<T>, m: nat, end: nat)
    requires 1 <= m <= end < |s|
    ensures var a := Swap(s, 1, m);
      var r := SiftDown(less, a, 1, m - 1);
      Rearranged(s, a, 1, m + 1) && Rearranged(a, r, 1, m) && Rearranged(s, r, 1, end + 1)
  {
    hide Rearranged, SiftDown, Swap;
    var a := Swap(s, 1, m);
    var r := SiftDown(less, a, 1, m - 1);
    SwapRearranges(s, 1, m, 1, m + 1);
    SiftRearranges(less, a, 1, m - 1);
    Widen(a, r, 1, m, end + 1);
    Widen(s, a, 1, m + 1, end + 1);
    RearrangedTwice(s, a, r, 1, end + 1);
  }

  lemma SortStep<T(!new)>(less: (T, T) -> bool, s: seq<T>, m: nat, end: nat)
    requires StrictWeakOrder(less) && 1 <= m <= end < |s| && HeapFrom(less, s, 1, m) && SortedAbove(less, s, m, end)
    ensures var r := SiftDown(less, Swap(s, 1, m), 1, m - 1);
      HeapFrom(less, r, 1, m - 1) && Rearranged(s, r, 1, end + 1) && SortedAbove(less, r, m - 1, end)
  {
    hide StrictWeakOrder, HeapFrom, SiftDown, Rearranged, Swap;
    var a := Swap(s, 1, m);
    var r := SiftDown(less, a, 1, m - 1);
    SortStepHeap(less, s, m);
    SortStepRearranges(less, s, m, end);
    forall p, q | 1 <= p < q <= end && q > m - 1
      ensures !less(r[q], r[p])
    {
      StepSorted(less, s, a, r, m, end, p, q);
    }
  }

  lemma StepSorted<T(!new)>(less: (T, T) -> bool, s: seq<T>, a: seq<T>, r: seq<T>, m: nat, end: nat, p: nat, q: nat)
    requires StrictWeakOrder(less) && 1 <= m <= end < |s| && HeapFrom(less, s, 1, m) && SortedAbove(less, s, m, end)
    requires a == Swap(s, 1, m) && Rearranged(s, a, 1, m + 1) && Rearranged(a, r, 1, m)
    requires 1 <= p < q <= end && q >= m
    ensures !less(r[q], r[p])
  {
    hide StrictWeakOrder, HeapFrom;
    assert r[q] == a[q] && a[q] == if q == m then s[1] else s[q];
    if p < m {
      var j := RearrangedMember(a, r, 1, m, p);
      var k := RearrangedMember(s, a, 1, m + 1, j);
      assert r[p] == s[k] && 1 <= k <= m;
      hide Rearranged;
      RootIsMax(less, s, m, k);
    } else {
      assert r[p] == a[p] && a[p] == if p == m then s[1] else s[p];
      hide Rearranged;
    }
  }

  lemma Widen<T>(s: seq<T>, r: seq<T>, lo: nat, hi: nat, end: nat)
    requires Rearranged(s, r, lo, hi) && hi <= end <= |s|
    ensures Rearranged(s, r, lo, end)
  {
    assert s[lo..end] == s[lo..hi] + s[hi..end] && r[lo..end] == r[lo..hi] + r[hi..end];
    assert s[hi..end] == r[hi..end];
  }

  lemma RootNotLess<T(!new)>(less: (T, T) -> bool, s: seq<T>, end: nat)
    requires StrictWeakOrder(less) && end < |s| && HeapFrom(less, s, 1, end)
    ensures forall x :: x in Elements(s, end) ==> !less(s[1], x)
  {
    forall x | x in Elements(s, end)
      ensures !less(s[1], x)
    {
      assert x in s[1..end + 1];
      var d :| 0 <= d < end && s[1..end + 1][d] == x;
      RootIsMax(less, s, end, d + 1);
    }
  }

  lemma ReplaceRoot<T(!new)>(less: (T, T) -> bool, dropped: multiset<T>, root: T, rest: multiset<T>, x: T)
    requires StrictWeakOrder(less) && NoneBetter(less, dropped, multiset{root} + rest) && less(x, root)
    requires forall y :: y in multiset{root} + rest ==> !less(root, y)
    ensures NoneBetter(less, dropped + multiset{root}, multiset{x} + rest)
  {
    forall d, y | d in dropped + multiset{root} && y in multiset{x} + rest
      ensures !less(d, y)
    {
      assert OrderLaws(less, d, x, root);
      assert OrderLaws(less, x, root, x);
      assert y != x ==> y in multiset{root} + rest;
      assert root in multiset{root} + rest;
    }
  }

  lemma DropNew<T(!new)>(less: (T, T) -> bool, dropped: multiset<T>, root: T, kept: multiset<T>, x: T)
    requires StrictWeakOrder(less) && NoneBetter(less, dropped, kept) && !less(x, root)
    requires forall y :: y in kept ==> !less(root, y)
    ensures NoneBetter(less, dropped + multiset{x}, kept)
  {
    forall d, y | d in dropped + multiset{x} && y in kept
      ensures !less(d, y)
    {
      assert OrderLaws(less, x, root, y);
    }
  }
}
