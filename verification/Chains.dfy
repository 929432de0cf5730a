/**
  Singly linked chains of table entries and the 16-bit bloom tag kept in the bucket
  head (include/lingodb/runtime/helpers.h).

  Entries are numbered; `next[e]` is the link field of entry `e`. A pointer is an
  entry number or null, so the 48-bit limit on addresses is not part of the model.
*/
module Chains {
  import opened Basics

  type Hash = h: nat | h < 0x1_0000_0000_0000_0000

  /** A bucket head: an entry pointer shifted up by 16 bits over a 16-bit tag. */
  datatype Tagged = Tagged(ptr: Option<nat>, tag: bv16)

  /** The table of bloom masks, one per value of the top eleven hash bits. */
  type BloomMasks = m: seq<bv16> | |m| == 2048 witness seq(2048, _ => 0)

  const NULL_HEAD := Tagged(None, 0)

  function Mask(bloom: BloomMasks, h: Hash): bv16
  {
    bloom[h / 0x20_0000_0000_0000]
  }

  function Tag(bloom: BloomMasks, e: nat, previous: Tagged, h: Hash): Tagged
  {
    Tagged(Some(e), Mask(bloom, h) | previous.tag)
  }

  function Untag(head: Tagged): Option<nat>
  {
    head.ptr
  }

  predicate Matches(bloom: BloomMasks, head: Tagged, h: Hash)
  {
    Mask(bloom, h) & !head.tag == 0
  }

  function FilterTagged(bloom: BloomMasks, head: Tagged, h: Hash): Option<nat>
  {
    if Matches(bloom, head, h) then Untag(head) else None
  }

  /** A new head matches the new entry's hash and every hash the old head matched. */
  lemma TagMatches(bloom: BloomMasks, e: nat, previous: Tagged, h: Hash, g: Hash)
    ensures Matches(bloom, Tag(bloom, e, previous, h), h)
    ensures Matches(bloom, previous, g) ==> Matches(bloom, Tag(bloom, e, previous, h), g)
  {
    OrKeeps(Mask(bloom, h), previous.tag, Mask(bloom, g));
  }

  lemma OrKeeps(m: bv16, t: bv16, g: bv16)
    ensures m & !(m | t) == 0
    ensures g & !t == 0 ==> g & !(m | t) == 0
  {
  }

  // ----- Chains -----

  /** Following `next` from `head` visits exactly the entries `xs`, in order, and then meets null. */
  ghost predicate IsChain(next: seq<Option<nat>>, head: Option<nat>, xs: seq<nat>)
    decreases |xs|
  {
    if xs == [] then head == None
    else head == Some(xs[0]) && xs[0] < |next| && IsChain(next, next[xs[0]], xs[1..])
  }

  lemma {:induction false} ChainUnique(next: seq<Option<nat>>, head: Option<nat>, xs: seq<nat>, ys: seq<nat>)
    requires IsChain(next, head, xs) && IsChain(next, head, ys)
    ensures xs == ys
    decreases |xs|
  {
    if xs == [] {
    } else {
      ChainUnique(next, next[xs[0]], xs[1..], ys[1..]);
      assert xs == [xs[0]] + xs[1..] && ys == [ys[0]] + ys[1..];
    }
  }

  lemma {:induction false} ChainSuffix(next: seq<Option<nat>>, head: Option<nat>, xs: seq<nat>, i: nat)
    requires IsChain(next, head, xs) && i < |xs|
    ensures IsChain(next, Some(xs[i]), xs[i..]) && xs[i] < |next|
    decreases |xs|
  {
    if i > 0 {
      ChainSuffix(next, next[xs[0]], xs[1..], i - 1);
      assert xs[1..][i - 1..] == xs[i..];
    } else {
      assert xs[0..] == xs;
    }
  }

  /** A chain that ends is acyclic: no entry is met twice. */
  lemma ChainAcyclic(next: seq<Option<nat>>, head: Option<nat>, xs: seq<nat>)
    requires IsChain(next, head, xs)
    ensures forall i, j :: 0 <= i < j < |xs| ==> xs[i] != xs[j]
  {
    forall i, j | 0 <= i < j < |xs|
      ensures xs[i] != xs[j]
    {
      if xs[i] == xs[j] {
        ChainSuffix(next, head, xs, i);
        ChainSuffix(next, head, xs, j);
        ChainUnique(next, Some(xs[i]), xs[i..], xs[j..]);
        assert false;
      }
    }
  }

  /** Chains only depend on the links of their own entries. */
  lemma {:induction false} ChainFrame(next: seq<Option<nat>>, next': seq<Option<nat>>, head: Option<nat>, xs: seq<nat>)
    requires IsChain(next, head, xs) && |next| <= |next'|
    requires forall i :: 0 <= i < |xs| && xs[i] < |next| ==> next'[xs[i]] == next[xs[i]]
    ensures IsChain(next', head, xs)
    decreases |xs|
  {
    if xs == [] {
    } else {
      assert xs[0] < |next| && next'[xs[0]] == next[xs[0]];
      forall i | 0 <= i < |xs[1..]| && xs[1..][i] < |next|
        ensures next'[xs[1..][i]] == next[xs[1..][i]]
      {
        assert xs[1..][i] == xs[i + 1];
      }
      ChainFrame(next, next', next[xs[0]], xs[1..]);
    }
  }

  lemma ChainPush(next: seq<Option<nat>>, head: Option<nat>, xs: seq<nat>, e: nat)
    requires IsChain(next, head, xs) && e < |next| && next[e] == head
    ensures IsChain(next, Some(e), [e] + xs)
  {
    assert ([e] + xs)[1..] == xs;
  }
}
