/**
  Parallel sort, merge phase (src/runtime/Sorting.cpp): every segment is merged
  into its own output range by a heap holding one element per split.
*/
module SortMerge {
  import opened Orders
  import opened SortSegments

  /** The top of the heap: some minimal entry. The heap holds at most one datum per source. */
  method HeapTop<T(!new)>(heap: map<nat, T>, less: (T, T) -> bool) returns (i: nat)
    requires StrictWeakOrder(less) && heap != map[]
    ensures i in heap && forall k :: k in heap ==> !less(heap[k], heap[i])
  {
    i :| i in heap;
    var rest := heap.Keys - {i};
    assert OrderLaws(less, heap[i], heap[i], heap[i]);
    while rest != {}
      invariant i in heap && rest <= heap.Keys
      invariant forall k :: k in heap && k !in rest ==> !less(heap[k], heap[i])
      decreases rest
    {
      var k :| k in rest;
      rest := rest - {k};
      assert OrderLaws(less, heap[k], heap[k], heap[k]);
      if less(heap[k], heap[i]) {
        assert forall d :: d in heap ==> OrderLaws(less, heap[d], heap[k], heap[i]);
        i := k;
      }
    }
  }

  /**
    `pos` says how far each source has been output. A source with elements left has
    its first one in the heap and its cursor one past it.
  */
  ghost predicate HeapHolds<T>(s: seq<T>, pos: seq<nat>, his: seq<nat>, cursor: seq<nat>, heap: map<nat, T>)
  {
    && Intervals(pos, his, |s|) && |cursor| == |pos|
    && (forall i :: i in heap ==> i < |pos|)
    && (forall i :: 0 <= i < |pos| ==> Source(s, pos[i], his[i], cursor[i], heap, i))
  }

  ghost predicate Source<T>(s: seq<T>, pos: nat, hi: nat, cursor: nat, heap: map<nat, T>, i: nat)
    requires pos <= hi <= |s|
  {
    if i in heap then pos < hi && heap[i] == s[pos] && cursor == pos + 1 else pos == hi == cursor
  }

  /** No element of `out` is greater than an element not yet output. */
  ghost predicate BelowPending<T>(less: (T, T) -> bool, s: seq<T>, pos: seq<nat>, his: seq<nat>, x: T)
    requires Intervals(pos, his, |s|)
  {
    forall i, p :: 0 <= i < |pos| && pos[i] <= p < his[i] ==> !less(s[p], x)
  }

  lemma MinimumBelowPending<T(!new)>(less: (T, T) -> bool, s: seq<T>, pos: seq<nat>, his: seq<nat>, cursor: seq<nat>,
      heap: map<nat, T>, x: T)
    requires StrictWeakOrder(less) && HeapHolds(s, pos, his, cursor, heap)
    requires forall i :: 0 <= i < |pos| ==> SortedRange(less, s, pos[i], his[i])
    requires forall k :: k in heap ==> !less(heap[k], x)
    ensures BelowPending(less, s, pos, his, x)
  {
    forall i, p | 0 <= i < |pos| && pos[i] <= p < his[i]
      ensures !less(s[p], x)
    {
      assert Source(s, pos[i], his[i], cursor[i], heap, i);
      assert OrderLaws(less, s[p], s[pos[i]], x);
      assert OrderLaws(less, s[p], s[p], s[p]);
    }
  }

  method FillHeap<T>(a: array<T>, los: seq<nat>, his: seq<nat>) returns (cursor: seq<nat>, heap: map<nat, T>)
    requires Intervals(los, his, a.Length)
    ensures HeapHolds(a[..], los, his, cursor, heap)
  {
    cursor, heap := los, map[];
    for i := 0 to |los|
      invariant |cursor| == |los|
      invariant forall k :: k in heap ==> k < i
      invariant forall k :: 0 <= k < i ==> Source(a[..], los[k], his[k], cursor[k], heap, k)
      invariant forall k :: i <= k < |los| ==> cursor[k] == los[k]
    {
      if cursor[i] < his[i] {
        heap := heap[i := a[cursor[i]]];
        cursor := cursor[i := cursor[i] + 1];
      }
    }
  }

  /** One turn of the merge loop: replace the popped datum by the next one of its source, if any. */
  method Advance<T>(a: array<T>, ghost pos: seq<nat>, his: seq<nat>, cursor: seq<nat>, heap: map<nat, T>, i: nat)
    returns (cursor': seq<nat>, heap': map<nat, T>)
    requires HeapHolds(a[..], pos, his, cursor, heap) && i in heap
    ensures HeapHolds(a[..], pos[i := pos[i] + 1], his, cursor', heap')
  {
    assert Source(a[..], pos[i], his[i], cursor[i], heap, i);
    cursor', heap' := cursor, heap - {i};
    if cursor[i] < his[i] {
      heap' := heap'[i := a[cursor[i]]];
      cursor' := cursor[i := cursor[i] + 1];
    }
    ghost var next := pos[i := pos[i] + 1];
    forall k | 0 <= k < |pos|
      ensures Source(a[..], next[k], his[k], cursor'[k], heap', k)
    {
      assert Source(a[..], pos[k], his[k], cursor[k], heap, k);
    }
  }

  /** `out` merges what lies before `pos`, in order. */
  ghost predicate MergedSoFar<T>(less: (T, T) -> bool, s: seq<T>, los: seq<nat>, pos: seq<nat>, his: seq<nat>,
      out: seq<T>)
  {
    && Intervals(los, his, |s|) && Intervals(pos, his, |s|)
    && Sorted(less, out)
    && multiset(out) + Bag(s, pos, his) == Bag(s, los, his)
    && forall k :: 0 <= k < |out| ==> BelowPending(less, s, pos, his, out[k])
  }

  lemma MergeCounts<T>(s: seq<T>, los: seq<nat>, pos: seq<nat>, his: seq<nat>, out: seq<T>, i: nat)
    requires Intervals(los, his, |s|) && Intervals(pos, his, |s|)
    requires multiset(out) + Bag(s, pos, his) == Bag(s, los, his)
    requires i < |pos| && pos[i] < his[i]
    ensures multiset(out + [s[pos[i]]]) + Bag(s, pos[i := pos[i] + 1], his) == Bag(s, los, his)
    ensures |out| + 1 <= Span(los, his)
  {
    BagStep(s, pos, his, i);
    BagSize(s, los, his);
    var x, rest := s[pos[i]], Bag(s, pos[i := pos[i] + 1], his);
    assert multiset(out + [x]) == multiset(out) + multiset{x};
    assert |multiset(out + [x]) + rest| == |out| + 1 + |rest|;
  }

  lemma MergeStep<T(!new)>(less: (T, T) -> bool, s: seq<T>, los: seq<nat>, pos: seq<nat>, his: seq<nat>,
      cursor: seq<nat>, heap: map<nat, T>, out: seq<T>, i: nat)
    requires StrictWeakOrder(less) && MergedSoFar(less, s, los, pos, his, out)
    requires HeapHolds(s, pos, his, cursor, heap)
    requires forall k :: 0 <= k < |pos| ==> SortedRange(less, s, pos[k], his[k])
    requires i in heap && forall k :: k in heap ==> !less(heap[k], heap[i])
    ensures pos[i] < his[i] && MergedSoFar(less, s, los, pos[i := pos[i] + 1], his, out + [heap[i]])
    ensures |out| + 1 <= Span(los, his)
  {
    hide StrictWeakOrder, SortedRange, Sorted, BelowPending, Bag, Span;
    assert Source(s, pos[i], his[i], cursor[i], heap, i);
    var next, x, out' := pos[i := pos[i] + 1], heap[i], out + [heap[i]];
    MinimumBelowPending(less, s, pos, his, cursor, heap, x);
    MergeCounts(s, los, pos, his, out, i);
    forall k | 0 <= k < |out'|
      ensures BelowPending(less, s, next, his, out'[k]) && (k < |out| ==> !less(x, out[k]))
    {
      PendingLater(less, s, pos, his, i, out'[k]);
    }
    SortedSnoc(less, out, x);
  }

  /** What is not greater than anything pending is not greater than the next element, nor than what is left after it. */
  lemma PendingLater<T>(less: (T, T) -> bool, s: seq<T>, pos: seq<nat>, his: seq<nat>, i: nat, y: T)
    requires Intervals(pos, his, |s|) && i < |pos| && pos[i] < his[i] && BelowPending(less, s, pos, his, y)
    ensures Intervals(pos[i := pos[i] + 1], his, |s|) && BelowPending(less, s, pos[i := pos[i] + 1], his, y)
    ensures !less(s[pos[i]], y)
  {
  }

  lemma SortedSnoc<T>(less: (T, T) -> bool, out: seq<T>, x: T)
    requires Sorted(less, out) && forall k :: 0 <= k < |out| ==> !less(x, out[k])
    ensures Sorted(less, out + [x])
  {
  }

  lemma MergeDone<T>(less: (T, T) -> bool, s: seq<T>, los: seq<nat>, pos: seq<nat>, his: seq<nat>, cursor: seq<nat>,
      out: seq<T>)
    requires MergedSoFar(less, s, los, pos, his, out) && HeapHolds(s, pos, his, cursor, map[])
    ensures multiset(out) == Bag(s, los, his) && |out| == Span(los, his)
  {
    assert pos == his by {
      assert forall i :: 0 <= i < |pos| ==> Source(s, pos[i], his[i], cursor[i], map[], i);
    }
    BagEmpty(s, his);
    BagSize(s, los, his);
    assert |multiset(out)| == |out|;
  }

  ghost predicate MergeState<T>(less: (T, T) -> bool, s: seq<T>, los: seq<nat>, his: seq<nat>, pos: seq<nat>,
      cursor: seq<nat>, heap: map<nat, T>, out: seq<T>)
  {
    && HeapHolds(s, pos, his, cursor, heap)
    && MergedSoFar(less, s, los, pos, his, out)
    && forall i :: 0 <= i < |pos| ==> SortedRange(less, s, pos[i], his[i])
  }

  /** Pop the minimum, copy it out at `k`, push the next element of its source. */
  method MergeTurn<T(!new)>(a: array<T>, less: (T, T) -> bool, ghost los: seq<nat>, his: seq<nat>,
      ghost pos: seq<nat>, cursor: seq<nat>, heap: map<nat, T>, output: array<T>, ghost at: nat, ghost end: nat,
      k: nat, ghost out: seq<T>)
    returns (cursor': seq<nat>, heap': map<nat, T>, ghost pos': seq<nat>, ghost x: T)
    requires StrictWeakOrder(less) && a != output && heap != map[]
    requires MergeState(less, a[..], los, his, pos, cursor, heap, out)
    requires k == at + |out| && end == at + Span(los, his) && k <= end <= output.Length && output[at..k] == out
    modifies output
    ensures k < end
    ensures output[at..k + 1] == out + [x]
    ensures output[..at] == old(output[..at]) && output[end..] == old(output[end..])
    ensures MergeState(less, a[..], los, his, pos', cursor', heap', out + [x])
  {
    var top := HeapTop(heap, less);
    MergeStep(less, a[..], los, pos, his, cursor, heap, out, top);
    output[k] := heap[top];
    x := heap[top];
    cursor', heap' := Advance(a, pos, his, cursor, heap, top);
    pos' := pos[top := pos[top] + 1];
  }

  lemma MergeStart<T>(less: (T, T) -> bool, s: seq<T>, los: seq<nat>, his: seq<nat>, cursor: seq<nat>,
      heap: map<nat, T>)
    requires Intervals(los, his, |s|) && HeapHolds(s, los, his, cursor, heap)
    requires forall i :: 0 <= i < |los| ==> SortedRange(less, s, los[i], his[i])
    ensures MergeState(less, s, los, his, los, cursor, heap, [])
  {
  }

  method MergeLoop<T(!new)>(a: array<T>, less: (T, T) -> bool, los: seq<nat>, his: seq<nat>, output: array<T>,
      at: nat, ghost total: nat)
    returns (ghost pos: seq<nat>, cursor: seq<nat>, ghost out: seq<T>)
    requires StrictWeakOrder(less) && a != output
    requires Intervals(los, his, a.Length) && total == Span(los, his) && at + total <= output.Length
    requires forall i :: 0 <= i < |los| ==> SortedRange(less, a[..], los[i], his[i])
    modifies output
    ensures MergeState(less, a[..], los, his, pos, cursor, map[], out)
    ensures |out| <= total && output[at..at + |out|] == out
    ensures output[..at] == old(output[..at]) && output[at + total..] == old(output[at + total..])
  {
    hide MergeState, StrictWeakOrder, SortedRange, Span;
    var heap;
    cursor, heap := FillHeap(a, los, his);
    MergeStart(less, a[..], los, his, cursor, heap);
    pos, out := los, [];
    var k := at;
    while heap != map[]
      invariant MergeState(less, a[..], los, his, pos, cursor, heap, out)
      invariant k == at + |out| && |out| <= total && output[at..k] == out
      invariant output[..at] == old(output[..at]) && output[at + total..] == old(output[at + total..])
      decreases total - |out|
    {
      ghost var x;
      cursor, heap, pos, x := MergeTurn(a, less, los, his, pos, cursor, heap, output, at, at + total, k, out);
      k := k + 1;
      out := out + [x];
    }
  }

  method MergeSegment<T(!new)>(a: array<T>, less: (T, T) -> bool, los: seq<nat>, his: seq<nat>, output: array<T>,
      at: nat, ghost total: nat)
    requires StrictWeakOrder(less) && a != output
    requires Intervals(los, his, a.Length) && total == Span(los, his) && at + total <= output.Length
    requires forall i :: 0 <= i < |los| ==> SortedRange(less, a[..], los[i], his[i])
    modifies output
    ensures Sorted(less, output[at..at + total])
    ensures multiset(output[at..at + total]) == Bag(a[..], los, his)
    ensures output[..at] == old(output[..at]) && output[at + total..] == old(output[at + total..])
  {
    ghost var pos, out;
    var cursor;
    pos, cursor, out := MergeLoop(a, less, los, his, output, at, total);
    MergeDone(less, a[..], los, pos, his, cursor, out);
  }

  // ----- All segments -----

  /** Segment `j` has been merged into its output range. */
  ghost predicate SegmentDone<T>(less: (T, T) -> bool, s: seq<T>, cuts: seq<seq<nat>>, ranges: seq<nat>, j: nat,
      out: seq<T>)
    requires Rows(cuts, |s|) && j + 1 < |cuts| <= |ranges|
  {
    && ranges[j] <= ranges[j + 1] <= |out|
    && Sorted(less, out[ranges[j]..ranges[j + 1]])
    && multiset(out[ranges[j]..ranges[j + 1]]) == Bag(s, cuts[j], cuts[j + 1])
  }

  lemma SortedConcat<T>(less: (T, T) -> bool, s: seq<T>, t: seq<T>)
    requires Sorted(less, s) && Sorted(less, t)
    requires forall x, y :: x in s && y in t ==> !less(y, x)
    ensures Sorted(less, s + t)
  {
  }

  /** Appending segment `j` to the assembled segments before it. */
  lemma AssembleStep<T(!new)>(less: (T, T) -> bool, s: seq<T>, cuts: seq<seq<nat>>, done: seq<T>, segment: seq<T>,
      j: nat)
    requires GoodCuts(less, s, cuts) && j + 1 < |cuts|
    requires Sorted(less, done) && multiset(done) == Bag(s, cuts[0], cuts[j])
    requires Sorted(less, segment) && multiset(segment) == Bag(s, cuts[j], cuts[j + 1])
    ensures Sorted(less, done + segment) && multiset(done + segment) == Bag(s, cuts[0], cuts[j + 1])
  {
    BagJoin(s, cuts[0], cuts[j], cuts[j + 1]);
    if j == 0 {
      BagEmpty(s, cuts[0]);
    } else {
      assert SegmentFollows(less, s, cuts, j);
      forall x, y | x in done && y in segment
        ensures !less(y, x)
      {
        assert x in multiset(done) && y in multiset(segment);
      }
    }
    SortedConcat(less, done, segment);
  }

  /** The finished ranges, put next to each other, are sorted and complete. */
  lemma {:induction false} SegmentsAssemble<T(!new)>(less: (T, T) -> bool, s: seq<T>, cuts: seq<seq<nat>>,
      ranges: seq<nat>, out: seq<T>, j: nat)
    requires GoodCuts(less, s, cuts) && TilingRanges(cuts, ranges, |s|) && |out| == |s| && j < |cuts|
    requires forall k :: 0 <= k < |cuts| - 1 ==> SegmentDone(less, s, cuts, ranges, k, out)
    ensures Sorted(less, out[..ranges[j]])
    ensures multiset(out[..ranges[j]]) == Bag(s, cuts[0], cuts[j])
  {
    hide Bag, RangeFits, SegmentSorted, SegmentFollows;
    if j == 0 {
      BagEmpty(s, cuts[0]);
    } else {
      SegmentsAssemble(less, s, cuts, ranges, out, j - 1);
      assert SegmentDone(less, s, cuts, ranges, j - 1, out);
      var done, segment := out[..ranges[j - 1]], out[ranges[j - 1]..ranges[j]];
      AssembleStep(less, s, cuts, done, segment, j - 1);
      assert out[..ranges[j]] == done + segment;
    }
  }

  lemma SlicesAgree<T>(s: seq<T>, t: seq<T>, from: nat, to: nat, lo: nat, hi: nat)
    requires |s| == |t| && from <= to <= |s| && lo <= hi <= |s|
    requires s[..from] == t[..from] && s[to..] == t[to..]
    requires hi <= from || to <= lo
    ensures s[lo..hi] == t[lo..hi]
  {
    forall p | lo <= p < hi
      ensures s[p] == t[p]
    {
      if hi <= from {
        assert s[p] == s[..from][p];
      } else {
        assert s[p] == s[to..][p - to];
      }
    }
  }

  /** Merging segment `j` leaves every other finished segment finished. */
  lemma SegmentDoneFrame<T>(less: (T, T) -> bool, s: seq<T>, cuts: seq<seq<nat>>, ranges: seq<nat>, before: seq<T>,
      after: seq<T>, j: nat, k: nat)
    requires Rows(cuts, |s|) && TilingRanges(cuts, ranges, |after|) && j + 1 < |cuts| && k + 1 < |cuts| && j != k
    requires |before| == |after| && SegmentDone(less, s, cuts, ranges, k, before)
    requires before[..ranges[j]] == after[..ranges[j]] && before[ranges[j + 1]..] == after[ranges[j + 1]..]
    ensures SegmentDone(less, s, cuts, ranges, k, after)
  {
    SlicesAgree(before, after, ranges[j], ranges[j + 1], ranges[k], ranges[k + 1]);
  }

  lemma SegmentsDoneFrame<T>(less: (T, T) -> bool, s: seq<T>, cuts: seq<seq<nat>>, ranges: seq<nat>, before: seq<T>,
      after: seq<T>, j: nat, done: seq<nat>)
    requires Rows(cuts, |s|) && TilingRanges(cuts, ranges, |after|) && j + 1 < |cuts| && j !in done
    requires |before| == |after|
    requires forall k :: k in done ==> k + 1 < |cuts| && SegmentDone(less, s, cuts, ranges, k, before)
    requires before[..ranges[j]] == after[..ranges[j]] && before[ranges[j + 1]..] == after[ranges[j + 1]..]
    ensures forall k :: k in done ==> SegmentDone(less, s, cuts, ranges, k, after)
  {
    forall k | k in done
      ensures SegmentDone(less, s, cuts, ranges, k, after)
    {
      SegmentDoneFrame(less, s, cuts, ranges, before, after, j, k);
    }
  }

  /** One ticket of the merge; `los` and `his` are where segment `j` starts and ends in every split. */
  method MergeTicket<T(!new)>(a: array<T>, less: (T, T) -> bool, ghost cuts: seq<seq<nat>>, los: seq<nat>,
      his: seq<nat>, cnt: nat, ranges: seq<nat>, output: array<T>, j: nat)
    requires StrictWeakOrder(less) && a != output && GoodCuts(less, a[..], cuts) && j + 1 < |cuts|
    requires los == cuts[j] && his == cuts[j + 1] && cnt == Span(los, his)
    requires TilingRanges(cuts, ranges, output.Length)
    modifies output
    ensures SegmentDone(less, a[..], cuts, ranges, j, output[..])
    ensures output[..ranges[j]] == old(output[..ranges[j]]) && output[ranges[j + 1]..] == old(output[ranges[j + 1]..])
  {
    assert RangeFits(cuts, ranges, j) && SegmentSorted(less, a[..], cuts, j);
    assert cnt == ranges[j + 1] - ranges[j];
    var at := ranges[j];
    MergeSegment(a, less, los, his, output, at, cnt);
    assert output[..][at..at + cnt] == output[at..at + cnt];
  }
}
