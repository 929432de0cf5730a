/**
  The parallel sample sort of src/runtime/Sorting.cpp.

  Elements are values of an arbitrary type; the source sorts pointers to them and
  copies the bytes at the end. Each phase hands out its units of work by an atomic
  ticket counter and ends at an `awaitChildTask` barrier. Within a phase no ticket
  reads what another ticket writes, so a phase is a loop over the tickets in an
  arbitrary order, and every theorem is for all orders. `std::sort` and the heap
  are used only through their contracts, which leave ties open.
*/
module Sorting {
  import opened Orders
  import opened SortLocal
  import opened SortMerge
  import opened SortSegments
  import opened SortSeparators
  import opened SortSplits
  import opened Tickets

  /** The guarded reads of lines 247-255 and 367-374. */
  method SegmentBounds(sp: Split, m: nat, j: nat) returns (begin: nat, end: nat)
    requires |sp.globalSeparators| == m && j <= m
    ensures begin == Cut(sp, m, j) && end == Cut(sp, m, j + 1)
  {
    begin, end := sp.begin, sp.end;
    if j != 0 {
      begin := sp.globalSeparators[j - 1];
    }
    if j != m {
      end := sp.globalSeparators[j];
    }
  }

  method SegmentLength(states: seq<Split>, m: nat, j: nat) returns (los: seq<nat>, his: seq<nat>, cnt: nat)
    requires j <= m && forall i :: 0 <= i < |states| ==> |states[i].globalSeparators| == m
    requires forall i :: 0 <= i < |states| ==> Cuts(states, m, j)[i] <= Cuts(states, m, j + 1)[i]
    ensures los == Cuts(states, m, j) && his == Cuts(states, m, j + 1)
    ensures cnt == Span(los, his)
  {
    ghost var cuts, cuts' := Cuts(states, m, j), Cuts(states, m, j + 1);
    los, his, cnt := [], [], 0;
    for i := 0 to |states|
      invariant los == cuts[..i] && his == cuts'[..i]
      invariant cnt == Span(los, his)
    {
      var begin, end := SegmentBounds(states[i], m, j);
      assert begin == cuts[i] <= end == cuts'[i];
      SpanSnoc(los, his, begin, end);
      los, his := los + [begin], his + [end];
      cnt := cnt + (end - begin);
    }
  }

  method OutputRanges<T(!new)>(ghost less: (T, T) -> bool, ghost s: seq<T>, n: nat, m: nat, states: seq<Split>)
    returns (ranges: seq<nat>)
    requires forall i :: 0 <= i < |states| ==> |states[i].globalSeparators| == m
    requires GoodCuts(less, s, AllCuts(states, m)) && n == |s|
    ensures |ranges| == m + 3 && TilingRanges(AllCuts(states, m), ranges, n)
  {
    ghost var cuts := AllCuts(states, m);
    RangesTile(less, s, cuts);
    ranges := [0];
    var growingSpan := 0;
    for j := 0 to m + 1
      invariant |ranges| == j + 1 && growingSpan == ranges[j]
      invariant forall k :: 0 <= k <= j ==> ranges[k] == RangeStart(cuts, k)
    {
      assert Intervals(cuts[j], cuts[j + 1], n);
      var _, _, cnt := SegmentLength(states, m, j);
      RangeStartStep(s, cuts, j);
      growingSpan := growingSpan + cnt;
      ranges := ranges + [growingSpan];
    }
    ranges := ranges + [n];
    PrefixSumsTile(less, s, cuts, ranges);
  }

  method MergePhase<T(!new)>(a: array<T>, less: (T, T) -> bool, m: nat, states: seq<Split>, ranges: seq<nat>,
      output: array<T>, order: seq<nat>)
    requires StrictWeakOrder(less) && a != output && output.Length == a.Length
    requires forall i :: 0 <= i < |states| ==> |states[i].globalSeparators| == m
    requires GoodCuts(less, a[..], AllCuts(states, m))
    requires TilingRanges(AllCuts(states, m), ranges, a.Length)
    requires TicketOrder(order, m + 1)
    modifies output
    ensures Sorted(less, output[..]) && multiset(output[..]) == multiset(a[..])
  {
    hide Bag, RangeFits, SegmentSorted, SegmentFollows, SegmentDone, StrictWeakOrder, SortedRange, Span;
    ghost var cuts := AllCuts(states, m);
    for k := 0 to |order|
      invariant forall j :: j in order[..k] ==> j <= m && SegmentDone(less, a[..], cuts, ranges, j, output[..])
    {
      var j := order[k];
      assert j in order;
      ghost var before := output[..];
      assert Intervals(cuts[j], cuts[j + 1], a.Length);
      var los, his, cnt := SegmentLength(states, m, j);
      MergeTicket(a, less, cuts, los, his, cnt, ranges, output, j);
      assert before[..ranges[j]] == output[..][..ranges[j]] && before[ranges[j + 1]..] == output[..][ranges[j + 1]..];
      SegmentsDoneFrame(less, a[..], cuts, ranges, before, output[..], j, order[..k]);
      assert order[..k + 1] == order[..k] + [j];
    }
    assert order[..|order|] == order;
    SegmentsAssemble(less, a[..], cuts, ranges, output[..], m + 1);
    assert output[..][..a.Length] == output[..];
  }

  /** The ticket orders of the four phases. */
  datatype Schedule = Schedule(copy: seq<nat>, local: seq<nat>, search: seq<nat>, merge: seq<nat>)

  ghost predicate ValidSchedule(sched: Schedule, bufferCnt: nat, c: nat, m: nat)
  {
    && TicketOrder(sched.copy, bufferCnt)
    && TicketOrder(sched.local, c)
    && TicketOrder(sched.search, m)
    && TicketOrder(sched.merge, m + 1)
  }

  /**
    parallelSort: whatever the comparator, the input and the ticket orders, the
    result is sorted and a permutation of the input. `SplitsFit` is the only
    condition, and it is exactly what keeps every split non-empty.
  */
  method ParallelSort<T(0, !new)>(buffers: seq<seq<T>>, less: (T, T) -> bool, workers: nat, sched: Schedule)
    returns (sorted: array<T>)
    requires StrictWeakOrder(less) && workers > 0 && CanParallelSort(|Flatten(buffers)|)
    requires SplitsFit(|Flatten(buffers)|, SplitCount(|Flatten(buffers)|, workers))
    requires ValidSchedule(sched, |buffers|,
      SplitCount(|Flatten(buffers)|, workers), SeparatorCount(|Flatten(buffers)|, workers))
    ensures Sorted(less, sorted[..])
    ensures multiset(sorted[..]) == multiset(Flatten(buffers))
  {
    var toSort := CopyPhase(buffers, sched.copy);
    var n := toSort.Length;
    SplitParametersPositive(n, workers);
    var c, m := SplitCount(n, workers), SeparatorCount(n, workers);
    var locals := LocalPhase(toSort, less, c, m, sched.local);
    ghost var b := SplitBounds(n, c);
    SplitBoundsValid(n, c);
    var states := SepSearchPhase(toSort, less, b, m, locals, sched.search);
    SeparatorsGiveGoodCuts(less, toSort[..], b, m, states);
    var ranges := OutputRanges(less, toSort[..], n, m, states);
    sorted := new T[n];
    MergePhase(toSort, less, m, states, ranges, sorted, sched.merge);
  }
}
