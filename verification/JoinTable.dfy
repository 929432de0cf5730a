/**
  Lock-free build of the join hash table (src/runtime/LazyJoinHashtable.cpp) as a state
  machine. Every entry is inserted by some thread through load, set-next and
  compare-exchange; the steps of different entries interleave freely, so any number of
  threads and any distribution of the entries over them is covered.

  `chains` records, per slot, the entries pushed so far; no step reads it.
*/
module JoinTable {
  import opened Basics
  import opened Bits
  import opened Chains
  import opened Buckets

  /** Where the insertion of an entry is; `current` is the local copy of the slot. */
  datatype Pc =
    | Pending
    | Loaded(current: Tagged)
    | Linked(current: Tagged)
    | Done

  datatype State = State(table: Table, pcs: seq<Pc>, chains: seq<seq<nat>>)

  ghost predicate WellFormed(s: State)
  {
    && |s.table.heads| == s.table.mask + 1 == |s.chains| && s.table.unit == 1
    && s.table.mask + 1 == TableSize(|s.table.hashes|)
    && |s.table.hashes| == |s.table.next| == |s.pcs|
  }

  ghost function Inserted(s: State): set<nat>
  {
    set e | 0 <= e < |s.pcs| && s.pcs[e].Done?
  }

  ghost predicate Init(s: State)
  {
    && WellFormed(s)
    && s.table.heads == seq(s.table.mask + 1, _ => NULL_HEAD)
    && s.pcs == seq(|s.table.hashes|, _ => Pending)
    && s.chains == seq(s.table.mask + 1, _ => [])
  }

  /** Line 25. */
  ghost predicate Load(s: State, e: nat, s': State)
  {
    && WellFormed(s) && e < |s.pcs| && s.pcs[e].Pending?
    && s' == s.(pcs := s.pcs[e := Loaded(s.table.heads[Bucket(s.table, e)])])
  }

  /** Lines 28-29: the new head is a function of `current`, so only the link is recorded. */
  ghost predicate SetNext(s: State, e: nat, s': State)
  {
    && WellFormed(s) && e < |s.pcs| && s.pcs[e].Loaded?
    && s' == s.(table := s.table.(next := s.table.next[e := Untag(s.pcs[e].current)]),
                pcs := s.pcs[e := Linked(s.pcs[e].current)])
  }

  /** Line 30, success: possible only while the slot holds the expected value. */
  ghost predicate Exchange(s: State, e: nat, s': State)
  {
    && WellFormed(s) && e < |s.pcs| && s.pcs[e].Linked?
    && var t, p, current := s.table, Bucket(s.table, e), s.pcs[e].current;
       && t.heads[p] == current
       && s' == s.(table := t.(heads := t.heads[p := Tag(t.bloom, e, current, t.hashes[e])]),
                   pcs := s.pcs[e := Done], chains := s.chains[p := [e] + s.chains[p]])
  }

  /** Line 30, failure, real or spurious: `current` becomes the slot's value and the loop starts over. */
  ghost predicate Fail(s: State, e: nat, s': State)
  {
    && WellFormed(s) && e < |s.pcs| && s.pcs[e].Linked?
    && s' == s.(pcs := s.pcs[e := Loaded(s.table.heads[Bucket(s.table, e)])])
  }

  ghost predicate Next(s: State, s': State)
  {
    exists e :: Load(s, e, s') || SetNext(s, e, s') || Exchange(s, e, s') || Fail(s, e, s')
  }

  ghost predicate Run(trace: seq<State>)
  {
    && trace != [] && Init(trace[0])
    && forall i :: 0 <= i < |trace| - 1 ==> Next(trace[i], trace[i + 1])
  }

  // ----- Invariant -----

  ghost predicate Inv(s: State)
  {
    && WellFormed(s) && TableOk(s.table, Inserted(s), s.chains)
    && forall e :: 0 <= e < |s.pcs| ==> (s.pcs[e].Linked? ==> s.table.next[e] == Untag(s.pcs[e].current))
  }

  lemma InitInv(s: State)
    requires Init(s)
    ensures Inv(s)
  {
    EmptyOk(s.table);
    assert Inserted(s) == {};
  }

  /** Setting the link of an entry that is not in the table yet disturbs no chain. */
  lemma SetNextKeeps(s: State, e: nat, s': State)
    requires Inv(s) && SetNext(s, e, s')
    ensures Inv(s')
  {
    hide TableOk;
    RelinkKeeps(s.table, Inserted(s), s.chains, e, Untag(s.pcs[e].current));
    assert Inserted(s') == Inserted(s);
  }

  /** The compare makes the link current: a successful exchange pushes the entry in front of its chain. */
  lemma ExchangeKeeps(s: State, e: nat, s': State)
    requires Inv(s) && Exchange(s, e, s')
    ensures Inv(s')
  {
    hide TableOk;
    PushKeeps(s.table, Inserted(s), s.chains, e);
    assert s'.table == Push(s.table, e);
    assert Inserted(s') == Inserted(s) + {e};
  }

  lemma RereadKeeps(s: State, e: nat, s': State)
    requires Inv(s) && (Load(s, e, s') || Fail(s, e, s'))
    ensures Inv(s')
  {
    hide TableOk;
    assert Inserted(s') == Inserted(s);
  }

  lemma {:induction false} RunInv(trace: seq<State>, i: nat)
    requires Run(trace) && i < |trace|
    ensures Inv(trace[i])
  {
    hide Inv;
    if i == 0 {
      InitInv(trace[0]);
    } else {
      RunInv(trace, i - 1);
      var s, s' := trace[i - 1], trace[i];
      assert Next(s, trace[i - 1 + 1]);
      var e: nat :| Load(s, e, s') || SetNext(s, e, s') || Exchange(s, e, s') || Fail(s, e, s');
      if SetNext(s, e, s') {
        SetNextKeeps(s, e, s');
      } else if Exchange(s, e, s') {
        ExchangeKeeps(s, e, s');
      } else {
        RereadKeeps(s, e, s');
      }
    }
  }

  // ----- What every run guarantees -----

  /**
    In every reachable state, following the links from a slot ends after finitely many
    distinct entries, and these are exactly the inserted entries whose hash leaves that
    slot's number when divided by the number of slots, a power of two.
  */
  lemma SlotHoldsItsEntries(trace: seq<State>, i: nat, p: nat)
    requires Run(trace) && i < |trace| && p < |trace[i].table.heads|
    ensures var s := trace[i];
      && |s.table.hashes| == |s.pcs| && (exists k :: |s.table.heads| == Pow2(k))
      && exists xs ::
        && IsChain(s.table.next, s.table.heads[p].ptr, xs)
        && (forall e: nat :: OnceIn(xs, e) <==>
             e < |s.pcs| && s.pcs[e].Done? && s.table.hashes[e] % |s.table.heads| == p)
        && (forall e: nat :: e in xs ==> OnceIn(xs, e))
  {
    var s := trace[i];
    RunInv(trace, i);
    var k := TableSizeIsPow2(|s.table.hashes|);
    hide TableOk, TableSize, OnceIn, IsChain;
    forall e: nat
      ensures OnceIn(s.chains[p], e) <==> e < |s.pcs| && s.pcs[e].Done? && s.table.hashes[e] % |s.table.heads| == p
      ensures e in s.chains[p] ==> OnceIn(s.chains[p], e)
    {
      LinkedOnce(s.table, Inserted(s), s.chains, p, e);
      if e < |s.pcs| {
        IndexIsRemainder(s.table.hashes[e], 1, k);
      }
    }
    LinkedOnce(s.table, Inserted(s), s.chains, p, 0);
  }

  /**
    The finished table: a probe with an entry's hash, at the slot the hash leaves as a
    remainder, passes the tag filter and meets the entry exactly once.
  */
  lemma FinishedTable(trace: seq<State>, i: nat, e: nat)
    requires Run(trace) && i < |trace| && e < |trace[i].pcs|
    requires forall d :: 0 <= d < |trace[i].pcs| ==> trace[i].pcs[d].Done?
    ensures var t := trace[i].table;
      e < |t.hashes| && |t.heads| > 0 && ProbeMeets(t, t.hashes[e] % |t.heads|, e)
  {
    var s := trace[i];
    RunInv(trace, i);
    var k := TableSizeIsPow2(|s.table.hashes|);
    hide TableOk, TableSize, ProbeMeets, Pow2, IsChain;
    assert e in Inserted(s);
    LinkedAtRemainder(s.table, Inserted(s), s.chains, e, k);
    assert s.table.hashes[e] / 1 == s.table.hashes[e];
  }
}
