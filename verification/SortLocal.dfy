/**
  Parallel sort, first two phases (src/runtime/Sorting.cpp): copying the buffers
  into one vector, then sorting every split and placing its local separators.
*/
module SortLocal {
  import opened Orders
  import opened SortSplits
  import opened Tickets

  datatype Split = Split(begin: nat, end: nat, localSeparators: seq<nat>, globalSeparators: seq<nat>)

  // ----- Phase 0: copy the buffers into one vector -----

  ghost function Offset<T>(buffers: seq<seq<T>>, b: nat): nat
    requires b <= |buffers|
  {
    |Flatten(buffers[..b])|
  }

  lemma {:induction false} OffsetStep<T>(buffers: seq<seq<T>>, b: nat)
    requires b < |buffers|
    ensures Offset(buffers, b + 1) == Offset(buffers, b) + |buffers[b]|
  {
    assert buffers[..b + 1][..b] == buffers[..b];
  }

  lemma {:induction false} OffsetMonotone<T>(buffers: seq<seq<T>>, b: nat, d: nat)
    requires b <= d <= |buffers|
    ensures Offset(buffers, b) <= Offset(buffers, d)
    decreases d - b
  {
    if b >= d {
    } else {
      OffsetStep(buffers, b);
      OffsetMonotone(buffers, b + 1, d);
    }
  }

  method CopyOffsets<T>(buffers: seq<seq<T>>) returns (offsets: seq<nat>, total: nat)
    ensures |offsets| == |buffers| && forall b :: 0 <= b < |buffers| ==> offsets[b] == Offset(buffers, b)
    ensures total == |Flatten(buffers)|
  {
    offsets, total := [], 0;
    for i := 0 to |buffers|
      invariant |offsets| == i && forall b :: 0 <= b < i ==> offsets[b] == Offset(buffers, b)
      invariant total == Offset(buffers, i)
    {
      offsets := offsets + [total];
      OffsetStep(buffers, i);
      total := total + |buffers[i]|;
    }
    assert buffers[..|buffers|] == buffers;
  }

  method CopyTicket<T>(a: array<T>, offset: nat, buffer: seq<T>)
    requires offset + |buffer| <= a.Length
    modifies a
    ensures a[offset..offset + |buffer|] == buffer
    ensures forall p :: 0 <= p < a.Length && !(offset <= p < offset + |buffer|) ==> a[p] == old(a[p])
  {
    for i := 0 to |buffer|
      invariant a[offset..offset + i] == buffer[..i]
      invariant forall p :: 0 <= p < a.Length && !(offset <= p < offset + |buffer|) ==> a[p] == old(a[p])
    {
      a[i + offset] := buffer[i];
    }
  }

  ghost predicate Copied<T>(buffers: seq<seq<T>>, s: seq<T>, d: nat)
  {
    && d < |buffers|
    && Offset(buffers, d) + |buffers[d]| <= |s|
    && s[Offset(buffers, d)..Offset(buffers, d) + |buffers[d]|] == buffers[d]
  }

  lemma {:induction false} CopiedPrefix<T>(buffers: seq<seq<T>>, s: seq<T>, b: nat)
    requires b <= |buffers| && Offset(buffers, |buffers|) == |s|
    requires forall d :: 0 <= d < |buffers| ==> Copied(buffers, s, d)
    ensures Offset(buffers, b) <= |s| && s[..Offset(buffers, b)] == Flatten(buffers[..b])
  {
    if b == 0 {
    } else {
      CopiedPrefix(buffers, s, b - 1);
      OffsetStep(buffers, b - 1);
      assert Copied(buffers, s, b - 1);
      var lo := Offset(buffers, b - 1);
      assert s[..lo + |buffers[b - 1]|] == s[..lo] + s[lo..lo + |buffers[b - 1]|];
      assert buffers[..b][..b - 1] == buffers[..b - 1];
    }
  }

  method CopyPhase<T(0)>(buffers: seq<seq<T>>, order: seq<nat>) returns (a: array<T>)
    requires TicketOrder(order, |buffers|)
    ensures fresh(a) && a[..] == Flatten(buffers)
  {
    var offsets, total := CopyOffsets(buffers);
    a := new T[total];
    assert buffers[..|buffers|] == buffers;
    for k := 0 to |order|
      invariant forall d :: d in order[..k] ==> Copied(buffers, a[..], d)
    {
      var b := order[k];
      assert b in order;
      OffsetStep(buffers, b);
      OffsetMonotone(buffers, b + 1, |buffers|);
      ghost var before := a[..];
      CopyTicket(a, offsets[b], buffers[b]);
      forall d | d in order[..k]
        ensures Copied(buffers, a[..], d)
      {
        assert Copied(buffers, before, d);
        OffsetStep(buffers, d);
        if d < b { OffsetMonotone(buffers, d + 1, b); } else { OffsetMonotone(buffers, b + 1, d); }
        assert a[..][Offset(buffers, d)..Offset(buffers, d) + |buffers[d]|] ==
          before[Offset(buffers, d)..Offset(buffers, d) + |buffers[d]|];
      }
    }
    assert order[..|order|] == order;
    CopiedPrefix(buffers, a[..], |buffers|);
  }

  // ----- Phase 1: sort each split and place its local separators -----

  lemma WrittenBack<T>(less: (T, T) -> bool, s: seq<T>, t: seq<T>, lo: nat, hi: nat, r: seq<T>)
    requires |s| == |t| && lo <= hi <= |s|
    requires forall p :: 0 <= p < |s| && !(lo <= p < hi) ==> t[p] == s[p]
    requires t[lo..hi] == r && Sorted(less, r) && multiset(r) == multiset(s[lo..hi])
    ensures multiset(s) == multiset(t)
    ensures SortedRange(less, t, lo, hi)
  {
    assert s[..lo] == t[..lo] && s[hi..] == t[hi..];
    assert s == s[..lo] + s[lo..hi] + s[hi..];
    assert t == t[..lo] + t[lo..hi] + t[hi..];
    assert forall p :: lo <= p < hi ==> t[p] == r[p - lo];
  }

  method StdSort<T(!new)>(a: array<T>, lo: nat, hi: nat, less: (T, T) -> bool)
    requires StrictWeakOrder(less) && lo <= hi <= a.Length
    modifies a
    ensures SortedRange(less, a[..], lo, hi)
    ensures multiset(a[..]) == old(multiset(a[..]))
    ensures forall p :: 0 <= p < a.Length && !(lo <= p < hi) ==> a[p] == old(a[p])
  {
    ghost var before := a[..];
    var part := a[lo..hi];
    assert part == before[lo..hi];
    var s := InsertionSort(less, part);
    InsertionSortSorted(less, part);
    CopyTicket(a, lo, s);
    WrittenBack(less, before, a[..], lo, hi, s);
  }

  /** `b` lists the split boundaries 0 = b[0] < b[1] < ... < b[c] = n. */
  ghost predicate Bounds(b: seq<nat>, n: nat)
  {
    && |b| >= 2 && b[0] == 0 && b[|b| - 1] == n
    && forall i, k :: 0 <= i < k < |b| ==> b[i] < b[k]
  }

  ghost function SplitBounds(n: nat, c: nat): (b: seq<nat>)
    requires SplitsFit(n, c)
    ensures |b| == c + 1
  {
    seq(c + 1, i requires 0 <= i <= c => if i < c then SplitBegin(n, c, i) else n)
  }

  lemma SplitBoundsValid(n: nat, c: nat)
    requires SplitsFit(n, c)
    ensures Bounds(SplitBounds(n, c), n)
    ensures forall i :: 0 <= i < c ==> SplitEnd(n, c, i) == SplitBounds(n, c)[i + 1]
  {
    var b := SplitBounds(n, c);
    forall i | 0 <= i < c
      ensures SplitEnd(n, c, i) == b[i + 1] && b[0] == 0
    {
      SplitsTile(n, c, i);
    }
    forall i, k | 0 <= i < k < |b|
      ensures b[i] < b[k]
    {
      SplitsTile(n, c, i);
      if k < c { SplitsOrdered(n, c, i, k); }
    }
  }

  /** What the local phase leaves behind for split `i`. */
  ghost predicate LocallySorted<T>(less: (T, T) -> bool, s: seq<T>, b: seq<nat>, m: nat, i: nat, sp: Split)
  {
    && i + 1 < |b|
    && sp.begin == b[i] && sp.end == b[i + 1]
    && sp.begin < sp.end <= |s|
    && SortedRange(less, s, sp.begin, sp.end)
    && Separators(sp, m)
  }

  ghost predicate Separators(sp: Split, m: nat)
  {
    && |sp.localSeparators| == m
    && (forall k :: 0 <= k < m ==> sp.begin <= sp.localSeparators[k] < sp.end)
    && (forall k, l :: 0 <= k <= l < m ==> sp.localSeparators[k] <= sp.localSeparators[l])
  }

  lemma SeparatorsPlaced(begin: nat, end: nat, m: nat, separators: seq<nat>)
    requires begin < end && m > 0
    requires |separators| == m && forall k :: 0 <= k < m ==> separators[k] == LocalSeparator(begin, end - begin, m, k)
    ensures Separators(Split(begin, end, separators, []), m)
  {
    forall k | 0 <= k < m
      ensures begin <= separators[k] < end
    {
      LocalSeparatorInside(begin, end - begin, m, k);
    }
    forall k, l | 0 <= k <= l < m
      ensures separators[k] <= separators[l]
    {
      LocalSeparatorMonotone(begin, end - begin, m, k, l);
    }
  }

  method PlaceSeparators(begin: nat, end: nat, m: nat) returns (separators: seq<nat>)
    requires begin < end && m > 0
    ensures |separators| == m && forall k :: 0 <= k < m ==> separators[k] == LocalSeparator(begin, end - begin, m, k)
    ensures Separators(Split(begin, end, separators, []), m)
  {
    var range := end - begin;
    separators := [];
    for k := 0 to m
      invariant |separators| == k
      invariant forall d :: 0 <= d < k ==> separators[d] == LocalSeparator(begin, range, m, d)
    {
      separators := separators + [LocalSeparator(begin, range, m, k)];
    }
    SeparatorsPlaced(begin, end, m, separators);
  }

  method LocalTicket<T(!new)>(a: array<T>, less: (T, T) -> bool, c: nat, m: nat, i: nat) returns (sp: Split)
    requires StrictWeakOrder(less) && SplitsFit(a.Length, c) && i < c && m > 0
    modifies a
    ensures LocallySorted(less, a[..], SplitBounds(a.Length, c), m, i, sp)
    ensures multiset(a[..]) == old(multiset(a[..]))
    ensures forall p :: 0 <= p < a.Length && !(sp.begin <= p < sp.end) ==> a[p] == old(a[p])
  {
    var splitSize := (a.Length + c - 1) / c;
    var begin, end := i * splitSize, (i + 1) * splitSize;
    if end > a.Length {
      end := a.Length;
    }
    assert begin == SplitBounds(a.Length, c)[i] && end == SplitBounds(a.Length, c)[i + 1]
      && begin < end <= a.Length by {
      SplitBoundsValid(a.Length, c);
      SplitsTile(a.Length, c, i);
    }
    StdSort(a, begin, end, less);
    var separators := PlaceSeparators(begin, end, m);
    sp := Split(begin, end, separators, []);
  }

  lemma LocallySortedFrame<T>(less: (T, T) -> bool, s: seq<T>, t: seq<T>, b: seq<nat>, m: nat, i: nat, sp: Split)
    requires LocallySorted(less, s, b, m, i, sp) && |s| == |t|
    requires forall p :: sp.begin <= p < sp.end ==> t[p] == s[p]
    ensures LocallySorted(less, t, b, m, i, sp)
  {
  }

  method LocalPhase<T(!new)>(a: array<T>, less: (T, T) -> bool, c: nat, m: nat, order: seq<nat>)
    returns (states: seq<Split>)
    requires StrictWeakOrder(less) && SplitsFit(a.Length, c) && m > 0
    requires TicketOrder(order, c)
    modifies a
    ensures |states| == c
    ensures forall i :: 0 <= i < c ==> LocallySorted(less, a[..], SplitBounds(a.Length, c), m, i, states[i])
    ensures multiset(a[..]) == old(multiset(a[..]))
  {
    states := seq(c, _ => Split(0, 0, [], []));
    ghost var b := SplitBounds(a.Length, c);
    assert Bounds(b, a.Length) by { SplitBoundsValid(a.Length, c); }
    for k := 0 to |order|
      invariant |states| == c
      invariant multiset(a[..]) == old(multiset(a[..]))
      invariant forall i :: i in order[..k] ==> i < c && LocallySorted(less, a[..], b, m, i, states[i])
    {
      var t := order[k];
      assert t in order;
      ghost var before := a[..];
      var sp := LocalTicket(a, less, c, m, t);
      forall i | i in order[..k]
        ensures i != t && LocallySorted(less, a[..], b, m, i, states[i])
      {
        assert i in order;
        LocallySortedFrame(less, before, a[..], b, m, i, states[i]);
      }
      states := states[t := sp];
      assert order[..k + 1] == order[..k] + [t];
    }
    assert order[..|order|] == order;
  }
}
