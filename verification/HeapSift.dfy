/**
  The sift-down of the bounded heap (src/runtime/Heap.cpp) on sequences: slot 0 is
  unused, the children of slot i are 2i and 2i + 1, and no child is greater than its
  parent.
*/
module HeapSift {
  import opened Orders

  function Swap<T>(s: seq<T>, i: nat, j: nat): (r: seq<T>)
    requires i < |s| && j < |s|
    ensures |r| == |s|
  {
    s[i := s[j]][j := s[i]]
  }

  /** The child bubbleDown compares with: the right one only if it is strictly greater than the left one. */
  function MaxChild<T>(less: (T, T) -> bool, s: seq<T>, i: nat, end: nat): (c: nat)
    requires 1 <= i && 2 * i <= end < |s|
    ensures i < c <= end && (c == 2 * i || c == 2 * i + 1)
  {
    if 2 * i + 1 <= end && less(s[2 * i], s[2 * i + 1]) then 2 * i + 1 else 2 * i
  }

  /** bubbleDown. */
  function SiftDown<T>(less: (T, T) -> bool, s: seq<T>, i: nat, end: nat): (r: seq<T>)
    requires 1 <= i && end < |s|
    ensures |r| == |s|
    decreases end - i
  {
    if 2 * i > end then s
    else
      var c := MaxChild(less, s, i, end);
      if less(s[i], s[c]) then SiftDown(less, Swap(s, i, c), c, end) else s
  }

  // ----- The elements stay -----

  /** Two sequences that agree outside [lo, hi) and hold the same elements inside. */
  ghost predicate Rearranged<T>(s: seq<T>, r: seq<T>, lo: nat, hi: nat)
  {
    && |r| == |s| && lo <= hi <= |s|
    && (forall k :: 0 <= k < |s| && !(lo <= k < hi) ==> r[k] == s[k])
    && multiset(r[lo..hi]) == multiset(s[lo..hi])
  }

  lemma SwapRearranges<T>(s: seq<T>, i: nat, j: nat, lo: nat, hi: nat)
    requires lo <= i < hi && lo <= j < hi && hi <= |s|
    ensures Rearranged(s, Swap(s, i, j), lo, hi)
  {
    var r := Swap(s, i, j);
    var a, b := s[lo..hi], i - lo;
    assert r[lo..hi] == a[b := a[j - lo]][j - lo := a[b]];
    SwapMultiset(a, b, j - lo);
  }

  lemma SwapMultiset<T>(s: seq<T>, i: nat, j: nat)
    requires i < |s| && j < |s|
    ensures multiset(s[i := s[j]][j := s[i]]) == multiset(s)
  {
  }

  lemma {:induction false} SiftRearranges<T>(less: (T, T) -> bool, s: seq<T>, i: nat, end: nat)
    requires 1 <= i <= end + 1 && end < |s|
    ensures Rearranged(s, SiftDown(less, s, i, end), 1, end + 1)
    decreases end - i
  {
    if 2 * i > end {
    } else {
      var c := MaxChild(less, s, i, end);
      if less(s[i], s[c]) {
        SwapRearranges(s, i, c, 1, end + 1);
        SiftRearranges(less, Swap(s, i, c), c, end);
      }
    }
  }

  /** What holds of every element of a range holds after rearranging it. */
  lemma RearrangedMember<T>(s: seq<T>, r: seq<T>, lo: nat, hi: nat, k: nat) returns (j: nat)
    requires Rearranged(s, r, lo, hi) && lo <= k < hi
    ensures lo <= j < hi && s[j] == r[k]
  {
    assert r[lo..hi][k - lo] == r[k];
    assert r[k] in multiset(r[lo..hi]);
    assert r[k] in s[lo..hi];
    var d :| 0 <= d < hi - lo && s[lo..hi][d] == r[k];
    j := lo + d;
  }

  // ----- The heap order -----

  /** No slot from `lo` on is less than one of its children up to `end`. */
  ghost predicate HeapFrom<T>(less: (T, T) -> bool, s: seq<T>, lo: nat, end: nat)
    requires end < |s|
  {
    forall c :: 2 <= c <= end && c / 2 >= lo ==> !less(s[c / 2], s[c])
  }

  /** As HeapFrom, except that slot `hole` may be less than its children; these are not greater than its parent. */
  ghost predicate HeapExcept<T>(less: (T, T) -> bool, s: seq<T>, lo: nat, hole: nat, end: nat)
    requires end < |s| && hole < |s|
  {
    && (forall c :: 2 <= c <= end && c / 2 >= lo && c / 2 != hole ==> !less(s[c / 2], s[c]))
    && (forall c :: 2 <= c <= end && c / 2 == hole && hole / 2 >= lo ==> !less(s[hole / 2], s[c]))
  }

  lemma MaxChildLeads<T(!new)>(less: (T, T) -> bool, s: seq<T>, i: nat, end: nat, c: nat)
    requires StrictWeakOrder(less) && 1 <= i && 2 * i <= end < |s| && 2 <= c <= end && c / 2 == i
    ensures !less(s[MaxChild(less, s, i, end)], s[c])
  {
    var m := MaxChild(less, s, i, end);
    assert c == 2 * i || c == 2 * i + 1;
    assert OrderLaws(less, s[m], s[c], s[m]);
  }

  lemma SwapDown<T(!new)>(less: (T, T) -> bool, s: seq<T>, lo: nat, i: nat, end: nat)
    requires StrictWeakOrder(less) && 1 <= lo <= i && 2 * i <= end < |s| && HeapExcept(less, s, lo, i, end)
    requires less(s[i], s[MaxChild(less, s, i, end)])
    ensures var m := MaxChild(less, s, i, end); HeapExcept(less, Swap(s, i, m), lo, m, end)
  {
    var m := MaxChild(less, s, i, end);
    var r := Swap(s, i, m);
    forall c | 2 <= c <= end && c / 2 >= lo && c / 2 != m
      ensures !less(r[c / 2], r[c])
    {
      if c / 2 == i {
        MaxChildLeads(less, s, i, end, c);
        assert OrderLaws(less, s[m], s[i], s[m]);
      }
    }
  }

  lemma StopHere<T(!new)>(less: (T, T) -> bool, s: seq<T>, lo: nat, i: nat, end: nat)
    requires StrictWeakOrder(less) && 1 <= lo <= i && 2 * i <= end < |s| && HeapExcept(less, s, lo, i, end)
    requires !less(s[i], s[MaxChild(less, s, i, end)])
    ensures HeapFrom(less, s, lo, end)
  {
    var m := MaxChild(less, s, i, end);
    forall c | 2 <= c <= end && c / 2 >= lo
      ensures !less(s[c / 2], s[c])
    {
      if c / 2 == i {
        MaxChildLeads(less, s, i, end, c);
        assert OrderLaws(less, s[i], s[m], s[c]);
      }
    }
  }

  /** Sifting the hole down repairs the heap. */
  lemma {:induction false} SiftRepairs<T(!new)>(less: (T, T) -> bool, s: seq<T>, lo: nat, i: nat, end: nat)
    requires StrictWeakOrder(less) && 1 <= lo <= i < |s| && end < |s| && HeapExcept(less, s, lo, i, end)
    ensures HeapFrom(less, SiftDown(less, s, i, end), lo, end)
    decreases end - i
  {
    if 2 * i > end {
    } else {
      var c := MaxChild(less, s, i, end);
      if less(s[i], s[c]) {
        SwapDown(less, s, lo, i, end);
        SiftRepairs(less, Swap(s, i, c), lo, c, end);
      } else {
        StopHere(less, s, lo, i, end);
      }
    }
  }

  /** The root of a heap is not less than any of its elements. */
  lemma {:induction false} RootIsMax<T(!new)>(less: (T, T) -> bool, s: seq<T>, end: nat, k: nat)
    requires StrictWeakOrder(less) && end < |s| && HeapFrom(less, s, 1, end) && 1 <= k <= end
    ensures !less(s[1], s[k])
  {
    if k == 1 {
      assert OrderLaws(less, s[1], s[1], s[1]);
    } else {
      RootIsMax(less, s, end, k / 2);
      assert OrderLaws(less, s[1], s[k / 2], s[k]);
    }
  }
}
