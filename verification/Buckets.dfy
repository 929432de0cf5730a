/**
  The bucket array all chained tables of the runtime share: tagged heads, link fields
  and stored hashes. A table is well formed relative to the set of entries that are
  linked into it and the chains they form.
*/
module Buckets {
  import opened Basics
  import opened Bits
  import opened Chains

  /** `unit` is 1 where the whole hash selects the bucket, 64 where its low six bits already chose a partition. */
  datatype Table = Table(
    bloom: BloomMasks, unit: nat, mask: nat,
    heads: seq<Tagged>, next: seq<Option<nat>>, hashes: seq<Hash>)

  function Index(h: Hash, unit: nat, mask: nat): (p: nat)
    ensures p <= mask
  {
    And(if unit == 0 then 0 else h / unit, mask)
  }

  function Bucket(t: Table, e: nat): nat
    requires e < |t.hashes|
  {
    Index(t.hashes[e], t.unit, t.mask)
  }

  /** With a power of two of buckets, the low bits behind the partition select the bucket. */
  lemma IndexIsRemainder(h: Hash, unit: nat, k: nat)
    requires unit > 0
    ensures Index(h, unit, Pow2(k) - 1) == h / unit % Pow2(k)
  {
    MaskIsRemainder(h / unit, k);
  }

  /** Put entry `e` in front of its chain. */
  function Push(t: Table, e: nat): Table
    requires |t.heads| == t.mask + 1 && e < |t.hashes| == |t.next|
  {
    var p := Bucket(t, e);
    t.(heads := t.heads[p := Tag(t.bloom, e, t.heads[p], t.hashes[e])], next := t.next[e := Untag(t.heads[p])])
  }

  // ----- Invariant -----

  ghost predicate ChainOk(t: Table, linked: set<nat>, p: nat, head: Tagged, chain: seq<nat>)
  {
    && IsChain(t.next, Untag(head), chain)
    && forall i :: 0 <= i < |chain| ==>
         && chain[i] in linked && chain[i] < |t.hashes| && Bucket(t, chain[i]) == p
         && Matches(t.bloom, head, t.hashes[chain[i]])
  }

  /**
    Each chain ends, holds linked entries of its bucket only, and its head's tag matches them;
    every linked entry is in one.
  */
  ghost predicate TableOk(t: Table, linked: set<nat>, chains: seq<seq<nat>>)
  {
    && |t.heads| == t.mask + 1 == |chains| && |t.next| == |t.hashes|
    && (forall p :: 0 <= p < |t.heads| ==> ChainOk(t, linked, p, t.heads[p], chains[p]))
    && (forall e :: e in linked ==> e < |t.hashes| && e in chains[Bucket(t, e)])
  }

  lemma TableShape(t: Table, linked: set<nat>, chains: seq<seq<nat>>)
    requires TableOk(t, linked, chains)
    ensures |t.heads| == t.mask + 1 == |chains| && |t.next| == |t.hashes|
  {
  }

  lemma EmptyOk(t: Table)
    requires t.heads == seq(t.mask + 1, _ => NULL_HEAD) && |t.next| == |t.hashes|
    ensures TableOk(t, {}, seq(t.mask + 1, _ => []))
  {
  }

  /** The link of an entry outside the table may be anything. */
  lemma RelinkKeeps(t: Table, linked: set<nat>, chains: seq<seq<nat>>, e: nat, link: Option<nat>)
    requires TableOk(t, linked, chains) && e < |t.next| && e !in linked
    ensures TableOk(t.(next := t.next[e := link]), linked, chains)
  {
    var t' := t.(next := t.next[e := link]);
    forall p | 0 <= p < |t'.heads|
      ensures ChainOk(t', linked, p, t'.heads[p], chains[p])
    {
      assert ChainOk(t, linked, p, t.heads[p], chains[p]);
      ChainFrame(t.next, t'.next, Untag(t.heads[p]), chains[p]);
    }
  }

  /** Allocating an entry does not touch the table. */
  lemma GrowKeeps(t: Table, linked: set<nat>, chains: seq<seq<nat>>, h: Hash)
    requires TableOk(t, linked, chains)
    ensures TableOk(t.(next := t.next + [None], hashes := t.hashes + [h]), linked, chains)
  {
    var t' := t.(next := t.next + [None], hashes := t.hashes + [h]);
    forall p | 0 <= p < |t'.heads|
      ensures ChainOk(t', linked, p, t'.heads[p], chains[p])
    {
      assert ChainOk(t, linked, p, t.heads[p], chains[p]);
      ChainFrame(t.next, t'.next, Untag(t.heads[p]), chains[p]);
    }
  }

  lemma PushKeeps(t: Table, linked: set<nat>, chains: seq<seq<nat>>, e: nat)
    requires TableOk(t, linked, chains) && e < |t.hashes| && e !in linked
    ensures var p := Bucket(t, e); TableOk(Push(t, e), linked + {e}, chains[p := [e] + chains[p]])
  {
    var q := Bucket(t, e);
    var t', chains' := Push(t, e), chains[q := [e] + chains[q]];
    var mid := t.(next := t.next[e := Untag(t.heads[q])]);
    RelinkKeeps(t, linked, chains, e, Untag(t.heads[q]));
    forall p | 0 <= p < |t'.heads|
      ensures ChainOk(t', linked + {e}, p, t'.heads[p], chains'[p])
    {
      assert ChainOk(mid, linked, p, mid.heads[p], chains[p]);
      if p == q {
        ChainPush(t'.next, Untag(t.heads[p]), chains[p], e);
        forall i | 0 <= i < |chains'[p]|
          ensures Matches(t.bloom, t'.heads[p], t.hashes[chains'[p][i]])
        {
          TagMatches(t.bloom, e, t.heads[p], t.hashes[e], t.hashes[chains'[p][i]]);
        }
      }
    }
  }

  // ----- Searching -----

  /** A linked entry is met exactly once in its bucket, and in no other bucket. */
  lemma LinkedOnce(t: Table, linked: set<nat>, chains: seq<seq<nat>>, p: nat, e: nat)
    requires TableOk(t, linked, chains) && p < |t.heads|
    ensures IsChain(t.next, Untag(t.heads[p]), chains[p])
    ensures OnceIn(chains[p], e) <==> e in linked && Bucket(t, e) == p
    ensures e in chains[p] ==> OnceIn(chains[p], e)
  {
    assert ChainOk(t, linked, p, t.heads[p], chains[p]);
    ChainAcyclic(t.next, Untag(t.heads[p]), chains[p]);
  }

  /** The tag filter drops a chain only if no linked entry has the hash looked for. */
  lemma FilterKeeps(t: Table, linked: set<nat>, chains: seq<seq<nat>>, h: Hash)
    requires TableOk(t, linked, chains)
    ensures var p := Index(h, t.unit, t.mask);
      || (Matches(t.bloom, t.heads[p], h) && IsChain(t.next, FilterTagged(t.bloom, t.heads[p], h), chains[p]))
      || (FilterTagged(t.bloom, t.heads[p], h) == None && (forall e :: e in linked ==> t.hashes[e] != h))
  {
    var p := Index(h, t.unit, t.mask);
    assert ChainOk(t, linked, p, t.heads[p], chains[p]);
  }

  /**
    What generated code needs of bucket `p` to find entry `e`: the tag lets its hash through and
    the chain meets it once.
  */
  ghost predicate ProbeMeets(t: Table, p: nat, e: nat)
  {
    && p < |t.heads| && e < |t.hashes|
    && t.bloom[t.hashes[e] / 0x20_0000_0000_0000] & !t.heads[p].tag == 0
    && exists xs :: IsChain(t.next, t.heads[p].ptr, xs) && OnceIn(xs, e)
  }

  /** Generated code computes the bucket on its own: every linked entry is met where its hash says, bit by bit. */
  lemma LinkedProbed(t: Table, linked: set<nat>, chains: seq<seq<nat>>, e: nat)
    requires TableOk(t, linked, chains) && e in linked && t.unit > 0
    ensures e < |t.hashes| && ProbeMeets(t, And(t.hashes[e] / t.unit, t.mask), e)
  {
    var p := Bucket(t, e);
    LinkedOnce(t, linked, chains, p, e);
    assert ChainOk(t, linked, p, t.heads[p], chains[p]);
    var i :| 0 <= i < |chains[p]| && chains[p][i] == e;
    assert Matches(t.bloom, t.heads[p], t.hashes[chains[p][i]]);
    assert Index(t.hashes[e], t.unit, t.mask) == p;
  }

  /** The same with a power of two of buckets: the bucket is a remainder. */
  lemma LinkedAtRemainder(t: Table, linked: set<nat>, chains: seq<seq<nat>>, e: nat, k: nat)
    requires TableOk(t, linked, chains) && e in linked && t.unit > 0 && t.mask + 1 == Pow2(k)
    ensures e < |t.hashes| && |t.heads| > 0 && ProbeMeets(t, t.hashes[e] / t.unit % |t.heads|, e)
  {
    hide ProbeMeets, Pow2, And;
    LinkedProbed(t, linked, chains, e);
    TableShape(t, linked, chains);
    IndexIsRemainder(t.hashes[e], t.unit, k);
  }

  /** The loop every lookup runs: walk the chain until the hash and the key agree. */
  method Walk<K(==)>(t: Table, keys: seq<K>, start: Option<nat>, h: Hash, key: K, ghost chain: seq<nat>)
    returns (found: Option<nat>)
    requires IsChain(t.next, start, chain) && |keys| == |t.hashes| == |t.next|
    ensures found.Some? ==>
      && found.value in chain && found.value < |keys|
      && t.hashes[found.value] == h && keys[found.value] == key
    ensures found.None? ==> forall e :: e in chain && e < |keys| ==> t.hashes[e] != h || keys[e] != key
  {
    var candidate := start;
    ghost var i := 0;
    assert chain[0..] == chain;
    while candidate.Some?
      invariant 0 <= i <= |chain| && IsChain(t.next, candidate, chain[i..])
      invariant forall j :: 0 <= j < i && chain[j] < |keys| ==> t.hashes[chain[j]] != h || keys[chain[j]] != key
      decreases |chain| - i
    {
      var e := candidate.value;
      assert chain[i..][0] == chain[i];
      if t.hashes[e] == h && keys[e] == key {
        return Some(e);
      }
      assert chain[i..][1..] == chain[i + 1..];
      candidate := t.next[e];
      i := i + 1;
    }
    return None;
  }
}
