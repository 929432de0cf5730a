/**
  The join table build (src/runtime/LazyJoinHashtable.cpp) is lock-free: a
  compare-exchange fails only spuriously or because another entry got into the slot, so
  without spurious failures every schedule inserts all entries after a bounded number of
  steps.
*/
module JoinTableProgress {
  import opened Basics
  import opened Sums
  import opened Bits
  import opened Chains
  import opened Buckets
  import opened JoinTable

  /** A step that is no spurious failure: a failing exchange has met another value than it expected. */
  ghost predicate Honest(s: State, e: nat, s': State)
  {
    || Load(s, e, s') || SetNext(s, e, s') || Exchange(s, e, s')
    || (Fail(s, e, s') && s.table.heads[Bucket(s.table, e)] != s.pcs[e].current)
  }

  ghost predicate HonestNext(s: State, s': State)
  {
    exists e: nat :: Honest(s, e, s')
  }

  // ----- A measure -----

  /** How far an entry is from being inserted, twice as far with a value of its slot that is out of date. */
  ghost function Rank(s: State, e: nat): nat
    requires WellFormed(s) && e < |s.pcs|
  {
    match s.pcs[e]
    case Pending => 3
    case Loaded(current) => if current == s.table.heads[Bucket(s.table, e)] then 2 else 4
    case Linked(current) => if current == s.table.heads[Bucket(s.table, e)] then 1 else 3
    case Done => 0
  }

  ghost function Ranks(s: State): (r: seq<nat>)
    requires WellFormed(s)
    ensures |r| == |s.pcs|
  {
    seq(|s.pcs|, e requires 0 <= e < |s.pcs| => Rank(s, e))
  }

  ghost function Open(s: State): set<nat>
  {
    set e | 0 <= e < |s.pcs| && !s.pcs[e].Done?
  }

  ghost function Measure(s: State): nat
    requires WellFormed(s)
  {
    Scaled(|Open(s)|, 2 * |s.pcs| + 1) + Sum(Ranks(s))
  }

  lemma RereadFalls(s: State, e: nat, s': State)
    requires Honest(s, e, s') && !Exchange(s, e, s')
    ensures WellFormed(s') && |s'.pcs| == |s.pcs| && Measure(s') < Measure(s)
  {
    hide Scaled, TableSize;
    var r := Rank(s', e);
    assert Ranks(s') == Ranks(s)[e := r];
    assert Open(s') == Open(s);
    SumUpdate(Ranks(s), e, r);
  }

  lemma ExchangeFalls(s: State, e: nat, s': State)
    requires Exchange(s, e, s')
    ensures WellFormed(s') && |s'.pcs| == |s.pcs| && Measure(s') < Measure(s)
  {
    hide Scaled, TableSize;
    var n := |s.pcs|;
    assert forall d :: 0 <= d < n ==> Ranks(s')[d] <= Ranks(s)[d] + 2;
    SumRaised(Ranks(s'), Ranks(s), 2);
    assert Scaled(n, 2) == 2 * n by { ScaledTwo(n); }
    assert Open(s') == Open(s) - {e} && e in Open(s);
    assert |Open(s)| == |Open(s')| + 1;
    ScaledNext(|Open(s')|, 2 * n + 1);
  }

  lemma ScaledTwo(n: nat)
    ensures Scaled(n, 2) == 2 * n
  {
  }

  lemma HonestFalls(s: State, e: nat, s': State)
    requires Honest(s, e, s')
    ensures WellFormed(s') && |s'.pcs| == |s.pcs| && Measure(s') < Measure(s)
  {
    hide Honest, Measure, Exchange;
    if Exchange(s, e, s') {
      ExchangeFalls(s, e, s');
    } else {
      RereadFalls(s, e, s');
    }
  }

  lemma {:induction false} MeasureFalls(trace: seq<State>, i: nat)
    requires Run(trace) && i < |trace| && forall k :: 0 <= k < |trace| - 1 ==> HonestNext(trace[k], trace[k + 1])
    ensures WellFormed(trace[0]) && WellFormed(trace[i]) && Measure(trace[i]) + i <= Measure(trace[0])
  {
    hide Measure, Honest;
    if i == 0 {
    } else {
      MeasureFalls(trace, i - 1);
      assert HonestNext(trace[i - 1], trace[i - 1 + 1]);
      var e: nat :| Honest(trace[i - 1], e, trace[i]);
      HonestFalls(trace[i - 1], e, trace[i]);
    }
  }

  /** Without spurious failures the insertion of n entries takes at most n (2n + 4) steps, however they interleave. */
  lemma RunsAreBounded(trace: seq<State>)
    requires Run(trace) && forall k :: 0 <= k < |trace| - 1 ==> HonestNext(trace[k], trace[k + 1])
    ensures var n := |trace[0].pcs|; |trace| - 1 <= n * (2 * n + 4)
  {
    hide HonestNext, Measure;
    MeasureFalls(trace, |trace| - 1);
    InitMeasure(trace[0]);
  }

  lemma InitMeasure(s: State)
    requires Init(s)
    ensures var n := |s.pcs|; Measure(s) <= n * (2 * n + 4)
  {
    hide TableSize;
    var n := |s.pcs|;
    SumConstant(Ranks(s), 3);
    OpenBounded(s.pcs);
    MulMono(|Open(s)|, n, 2 * n + 1);
    assert n * (2 * n + 1) + n * 3 == n * (2 * n + 4);
  }

  lemma {:induction false} OpenBounded(pcs: seq<Pc>)
    ensures |set e | 0 <= e < |pcs| && !pcs[e].Done?| <= |pcs|
  {
    var open := set e | 0 <= e < |pcs| && !pcs[e].Done?;
    if pcs == [] {
      assert open == {};
    } else {
      var n := |pcs| - 1;
      var fewer := set e | 0 <= e < |pcs[..n]| && !pcs[..n][e].Done?;
      OpenBounded(pcs[..n]);
      assert open == if pcs[n].Done? then fewer else fewer + {n};
    }
  }

  // ----- The end -----

  ghost predicate Finished(s: State)
  {
    forall e :: 0 <= e < |s.pcs| ==> s.pcs[e].Done?
  }

  /** An entry that is not inserted has a step that is no spurious failure. */
  lemma OpenMoves(s: State, e: nat) returns (s': State)
    requires WellFormed(s) && e < |s.pcs| && !s.pcs[e].Done?
    ensures Honest(s, e, s')
  {
    var t, p := s.table, Bucket(s.table, e);
    match s.pcs[e]
    case Pending => s' := s.(pcs := s.pcs[e := Loaded(t.heads[p])]);
    case Loaded(current) =>
      s' := s.(table := t.(next := t.next[e := Untag(current)]), pcs := s.pcs[e := Linked(current)]);
    case Linked(current) =>
      if t.heads[p] == current {
        s' := s.(table := t.(heads := t.heads[p := Tag(t.bloom, e, current, t.hashes[e])]),
                 pcs := s.pcs[e := Done], chains := s.chains[p := [e] + s.chains[p]]);
      } else {
        s' := s.(pcs := s.pcs[e := Loaded(t.heads[p])]);
      }
  }

  /** Only spurious failures are possible. */
  ghost predicate Stuck(s: State)
  {
    forall s' :: !HonestNext(s, s')
  }

  /** In every run: when only spurious failures are possible, every entry has been inserted. */
  lemma StuckMeansFinished(trace: seq<State>)
    requires Run(trace) && Stuck(trace[|trace| - 1])
    ensures Finished(trace[|trace| - 1])
  {
    hide Honest;
    var s := trace[|trace| - 1];
    RunInv(trace, |trace| - 1);
    if e :| 0 <= e < |s.pcs| && !s.pcs[e].Done? {
      var s' := OpenMoves(s, e);
      IsHonest(s, e, s');
    }
  }

  lemma IsHonest(s: State, e: nat, s': State)
    requires Honest(s, e, s')
    ensures HonestNext(s, s')
  {
  }

  lemma {:induction false} FinishFrom(trace: seq<State>) returns (full: seq<State>)
    requires Run(trace) && WellFormed(trace[|trace| - 1])
    ensures Run(full) && trace <= full && Finished(full[|full| - 1])
    decreases Measure(trace[|trace| - 1])
  {
    hide Measure, Honest, Init, WellFormed, Load, SetNext, Exchange, Fail;
    var s := trace[|trace| - 1];
    if e: nat :| e < |s.pcs| && !s.pcs[e].Done? {
      var s' := OpenMoves(s, e);
      HonestFalls(s, e, s');
      RunSnoc(trace, e, s');
      full := FinishFrom(trace + [s']);
    } else {
      full := trace;
    }
  }

  lemma RunSnoc(trace: seq<State>, e: nat, s': State)
    requires Run(trace) && Honest(trace[|trace| - 1], e, s')
    ensures Run(trace + [s'])
  {
    hide Init, Load, SetNext, Exchange, Fail;
    var longer := trace + [s'];
    forall k | 0 <= k < |longer| - 1
      ensures Next(longer[k], longer[k + 1])
    {
      if k < |trace| - 1 {
        assert Next(trace[k], trace[k + 1]);
      }
    }
  }

  /** Every run can be continued to one that has inserted everything. */
  lemma EveryRunFinishes(trace: seq<State>) returns (full: seq<State>)
    requires Run(trace)
    ensures Run(full) && trace <= full && Finished(full[|full| - 1])
  {
    RunInv(trace, |trace| - 1);
    full := FinishFrom(trace);
  }

  /** For all entries there is a build that inserts every one of them. */
  lemma EveryInputBuilds(bloom: BloomMasks, hashes: seq<Hash>) returns (full: seq<State>)
    ensures Run(full) && full[0].table.bloom == bloom && full[0].table.hashes == hashes
    ensures Finished(full[|full| - 1]) && |full[0].pcs| == |hashes|
  {
    var size := TableSize(|hashes|);
    var none: seq<Option<nat>> := seq(|hashes|, _ => None);
    var t := Table(bloom, 1, size - 1, seq(size, _ => NULL_HEAD), none, hashes);
    var s := State(t, seq(|hashes|, _ => Pending), seq(size, _ => []));
    full := EveryRunFinishes([s]);
  }
}
