/**
  Partitioned pre-aggregation (src/runtime/PreAggregationHashtable.cpp): every worker
  fills a fragment of partial aggregates, the fragments are merged partition by
  partition into chained tables. The reference is a group-by over everything the
  workers inserted.

  `eq` is equality of keys, as in the chained hash table; groups are identified by hash
  and key together. `combine` is any function: neither associative nor commutative.
*/
module PreAggregation {
  import opened Basics
  import opened Bits
  import opened Chains
  import opened Buckets
  import opened Tickets

  datatype Partial<K, V> = Partial(hash: Hash, key: K, value: V)

  const NUM_OUTPUTS := 64
  const HASHTABLE_SIZE := 1024

  function Id<K, V>(x: Partial<K, V>): (Hash, K)
  {
    (x.hash, x.key)
  }

  /** `hash & outputMask`: the low six bits. */
  function PartitionOf(h: Hash): (p: nat)
    ensures p == h % NUM_OUTPUTS
  {
    FragmentSizes();
    MaskIsRemainder(h, 6);
    And(h, NUM_OUTPUTS - 1)
  }

  lemma CellOf(h: Hash)
    ensures Index(h, NUM_OUTPUTS, HASHTABLE_SIZE - 1) == h / NUM_OUTPUTS % HASHTABLE_SIZE
  {
    FragmentSizes();
    IndexIsRemainder(h, NUM_OUTPUTS, 10);
  }

  lemma FragmentSizes()
    ensures Pow2(6) == NUM_OUTPUTS && Pow2(10) == HASHTABLE_SIZE
  {
    Pow2Step(8);
    Pow2Step(9);
    Pow2Of8();
  }

  // ----- Reference group-by -----

  /** The partial values of one group, in order. */
  ghost function Values<K, V>(xs: seq<Partial<K, V>>, id: (Hash, K)): seq<V>
  {
    if xs == [] then []
    else
      var x := xs[|xs| - 1];
      var vs := Values(xs[..|xs| - 1], id);
      if Id(x) == id then vs + [x.value] else vs
  }

  ghost function Fold<V>(vs: seq<V>, combine: (V, V) -> V): V
    requires vs != []
  {
    if |vs| == 1 then vs[0] else combine(Fold(vs[..|vs| - 1], combine), vs[|vs| - 1])
  }

  lemma FoldSnoc<V>(vs: seq<V>, v: V, combine: (V, V) -> V)
    ensures Fold(vs + [v], combine) == if vs == [] then v else combine(Fold(vs, combine), v)
  {
    assert (vs + [v])[..|vs|] == vs;
  }

  lemma ValuesSnoc<K, V>(xs: seq<Partial<K, V>>, x: Partial<K, V>, id: (Hash, K))
    ensures Values(xs + [x], id) == if Id(x) == id then Values(xs, id) + [x.value] else Values(xs, id)
  {
    assert (xs + [x])[..|xs|] == xs;
  }

  /** The partials whose hash falls into partition `p`, in order. */
  ghost function InPartition<K, V>(xs: seq<Partial<K, V>>, p: nat): seq<Partial<K, V>>
  {
    if xs == [] then []
    else
      var x := xs[|xs| - 1];
      var ys := InPartition(xs[..|xs| - 1], p);
      if x.hash % NUM_OUTPUTS == p then ys + [x] else ys
  }

  lemma InPartitionSnoc<K, V>(xs: seq<Partial<K, V>>, x: Partial<K, V>, p: nat)
    ensures InPartition(xs + [x], p) ==
      if x.hash % NUM_OUTPUTS == p then InPartition(xs, p) + [x] else InPartition(xs, p)
  {
    assert (xs + [x])[..|xs|] == xs;
  }

  lemma {:induction false} InPartitionAppend<K, V>(xs: seq<Partial<K, V>>, ys: seq<Partial<K, V>>, p: nat)
    ensures InPartition(xs + ys, p) == InPartition(xs, p) + InPartition(ys, p)
    decreases |ys|
  {
    if ys == [] {
      assert xs + ys == xs;
    } else {
      var zs, y := ys[..|ys| - 1], ys[|ys| - 1];
      assert xs + ys == (xs + zs) + [y];
      InPartitionSnoc(xs + zs, y, p);
      InPartitionAppend(xs, zs, p);
    }
  }

  /** A group lies in one partition: partitioning loses and reorders none of its partials. */
  lemma {:induction false} GroupInPartition<K, V>(xs: seq<Partial<K, V>>, id: (Hash, K))
    ensures Values(InPartition(xs, id.0 % NUM_OUTPUTS), id) == Values(xs, id)
  {
    if xs == [] {
    } else {
      var ys, x := xs[..|xs| - 1], xs[|xs| - 1];
      GroupInPartition(ys, id);
      ValuesSnoc(InPartition(ys, id.0 % NUM_OUTPUTS), x, id);
    }
  }

  /** Exactly the identities that occur have a group. */
  lemma {:induction false} GroupOccurs<K, V>(xs: seq<Partial<K, V>>, id: (Hash, K))
    ensures Values(xs, id) != [] <==> exists e :: 0 <= e < |xs| && Id(xs[e]) == id
  {
    if xs == [] {
    } else {
      var ys := xs[..|xs| - 1];
      GroupOccurs(ys, id);
      if Values(ys, id) != [] {
        var e :| 0 <= e < |ys| && Id(ys[e]) == id;
        assert Id(xs[e]) == id;
      }
      if e :| 0 <= e < |xs| && Id(xs[e]) == id && e < |xs| - 1 {
        assert Id(ys[e]) == id;
      }
    }
  }

  // ----- Fragments -----

  function Elements<T>(buffer: Option<seq<T>>): seq<T>
  {
    if buffer.Some? then buffer.value else []
  }

  /** One worker's fragment. `log` records everything inserted; a null buffer is one nothing was inserted into. */
  class Fragment<K, V> {
    var ht: seq<Option<(nat, nat)>>
    var outputs: seq<Option<seq<Partial<K, V>>>>
    var len: nat
    ghost var log: seq<Partial<K, V>>

    ghost predicate Valid()
      reads this
    {
      && |ht| == HASHTABLE_SIZE && |outputs| == NUM_OUTPUTS && len == |log|
      && (forall p :: 0 <= p < NUM_OUTPUTS ==> Elements(outputs[p]) == InPartition(log, p))
      && (forall s :: 0 <= s < HASHTABLE_SIZE && ht[s].Some? ==> Cached(s, ht[s].value.0, ht[s].value.1))
    }

    /** Cell `s` of the local table points at an entry that hashes to it. */
    ghost predicate Cached(s: nat, p: nat, i: nat)
      reads this
    {
      && p < |outputs| && i < |Elements(outputs[p])|
      && Elements(outputs[p])[i].hash / NUM_OUTPUTS % HASHTABLE_SIZE == s
    }

    constructor ()
      ensures Valid() && log == []
    {
      ht := seq(HASHTABLE_SIZE, _ => None);
      outputs := seq(NUM_OUTPUTS, _ => None);
      len, log := 0, [];
    }

    /** Insert a partial; the caller writes its content through the returned pointer. */
    method Insert(x: Partial<K, V>) returns (p: nat, i: nat)
      requires Valid()
      modifies this
      ensures Valid() && log == old(log) + [x]
      ensures p == x.hash % NUM_OUTPUTS && outputs[p].Some? && outputs[p].value == old(Elements(outputs[p])) + [x]
      ensures i == |outputs[p].value| - 1 && len == old(len) + 1
      ensures forall q :: 0 <= q < NUM_OUTPUTS && q != p ==> outputs[q] == old(outputs[q])
      ensures ht == old(ht)[x.hash / NUM_OUTPUTS % HASHTABLE_SIZE := Some((p, i))]
    {
      CellOf(x.hash);
      hide Index, InPartition, PartitionOf, Pow2;
      len := len + 1;
      p := PartitionOf(x.hash);
      if outputs[p] == None {
        outputs := outputs[p := Some([])];
      }
      i := |outputs[p].value|;
      outputs := outputs[p := Some(outputs[p].value + [x])];
      ht := ht[Index(x.hash, NUM_OUTPUTS, HASHTABLE_SIZE - 1) := Some((p, i))];
      log := log + [x];
      forall q | 0 <= q < NUM_OUTPUTS
        ensures Elements(outputs[q]) == InPartition(log, q)
      {
        InPartitionSnoc(old(log), x, q);
      }
      forall s | 0 <= s < HASHTABLE_SIZE && ht[s].Some?
        ensures Cached(s, ht[s].value.0, ht[s].value.1)
      {
        if s != Index(x.hash, NUM_OUTPUTS, HASHTABLE_SIZE - 1) {
          assert old(Cached(s, ht[s].value.0, ht[s].value.1));
        }
      }
    }
  }

  ghost predicate AllValid<K, V>(fragments: seq<Fragment?<K, V>>)
    reads set f | f in fragments && f != null
  {
    forall i :: 0 <= i < |fragments| && fragments[i] != null ==> fragments[i].Valid()
  }

  /** Everything the workers inserted, fragment by fragment; a worker without work has no fragment. */
  ghost function AllPartials<K, V>(fragments: seq<Fragment?<K, V>>): seq<Partial<K, V>>
    reads set f | f in fragments && f != null
  {
    if fragments == [] then []
    else
      var last := fragments[|fragments| - 1];
      var before := AllPartials(fragments[..|fragments| - 1]);
      if last == null then before else before + last.log
  }

  lemma FlattenSnoc<T>(bs: seq<seq<T>>, b: seq<T>)
    ensures Flatten(bs + [b]) == Flatten(bs) + b
  {
    assert (bs + [b])[..|bs|] == bs;
  }

  lemma NothingInPartition<K, V>()
    ensures forall p :: InPartition<K, V>([], p) == []
  {
  }

  /** Lines 84-95: collect, per partition, the buffers of all fragments. */
  method Gather<K, V>(fragments: seq<Fragment?<K, V>>) returns (outputs: seq<seq<seq<Partial<K, V>>>>)
    requires AllValid(fragments)
    ensures |outputs| == NUM_OUTPUTS
    ensures forall p :: 0 <= p < NUM_OUTPUTS ==> Flatten(outputs[p]) == InPartition(AllPartials(fragments), p)
  {
    hide InPartition;
    NothingInPartition<K, V>();
    outputs := seq(NUM_OUTPUTS, _ => []);
    for f := 0 to |fragments|
      invariant |outputs| == NUM_OUTPUTS
      invariant forall p :: 0 <= p < NUM_OUTPUTS ==> Flatten(outputs[p]) == InPartition(AllPartials(fragments[..f]), p)
    {
      var fragment := fragments[f];
      ghost var before := AllPartials(fragments[..f]);
      assert fragments[..f + 1][..f] == fragments[..f];
      if fragment == null {
        continue;
      }
      assert AllPartials(fragments[..f + 1]) == before + fragment.log;
      for i := 0 to NUM_OUTPUTS
        invariant |outputs| == NUM_OUTPUTS
        invariant forall p :: 0 <= p < i ==> Flatten(outputs[p]) == InPartition(before + fragment.log, p)
        invariant forall p :: i <= p < NUM_OUTPUTS ==> Flatten(outputs[p]) == InPartition(before, p)
      {
        InPartitionAppend(before, fragment.log, i);
        var current := fragment.outputs[i];
        if current.Some? {
          FlattenSnoc(outputs[i], current.value);
          outputs := outputs[i := outputs[i] + [current.value]];
        }
      }
    }
    assert fragments[..|fragments|] == fragments;
  }

  // ----- Merging one partition -----

  /** A partition's table over the partials it was merged from; `kept` is the local buffer of entries that stay. */
  datatype Merged<K, V> = Merged(table: Table, keys: seq<K>, values: seq<V>, kept: seq<nat>)

  ghost predicate IsFirst<K, V>(xs: seq<Partial<K, V>>, e: nat)
    requires e < |xs|
  {
    forall d :: 0 <= d < e ==> Id(xs[d]) != Id(xs[e])
  }

  ghost predicate ShapeOk<K, V>(m: Merged<K, V>, xs: seq<Partial<K, V>>)
  {
    && |xs| == |m.keys| == |m.values| == |m.table.hashes| && m.table.unit == NUM_OUTPUTS
    && m.table.mask + 1 == TableSize(|xs|)
    && forall e :: 0 <= e < |xs| ==> m.table.hashes[e] == xs[e].hash && m.keys[e] == xs[e].key
  }

  /** Of the first `n` partials, exactly the first of each group is kept, in order. */
  ghost predicate KeptOk<K, V>(kept: seq<nat>, xs: seq<Partial<K, V>>, n: nat)
    requires n <= |xs|
  {
    && (forall e :: e in kept <==> 0 <= e < n && IsFirst(xs, e))
    && (forall i, j :: 0 <= i < j < |kept| ==> kept[i] < kept[j])
  }

  /** A kept entry holds its group's values, combined in order; the others are untouched. */
  ghost predicate ValuesOk<K, V>(m: Merged<K, V>, xs: seq<Partial<K, V>>, n: nat, combine: (V, V) -> V)
    requires n <= |xs| == |m.values|
  {
    && (forall e :: e in m.kept ==>
      e < n && Values(xs[..n], Id(xs[e])) != [] && m.values[e] == Fold(Values(xs[..n], Id(xs[e])), combine))
    && (forall e :: n <= e < |xs| ==> m.values[e] == xs[e].value)
  }

  ghost function Kept(kept: seq<nat>): set<nat>
  {
    set e | e in kept
  }

  ghost predicate MergedOk<K, V>(m: Merged<K, V>, xs: seq<Partial<K, V>>, n: nat, combine: (V, V) -> V,
      chains: seq<seq<nat>>)
  {
    && n <= |xs| && ShapeOk(m, xs) && KeptOk(m.kept, xs, n) && ValuesOk(m, xs, n, combine)
    && TableOk(m.table, Kept(m.kept), chains)
  }

  /** Every partial has a first one of its group. */
  lemma {:induction false} FirstOfGroup<K, V>(xs: seq<Partial<K, V>>, e: nat) returns (d: nat)
    requires e < |xs|
    ensures d <= e && IsFirst(xs, d) && Id(xs[d]) == Id(xs[e])
  {
    d := e;
    if c :| 0 <= c < e && Id(xs[c]) == Id(xs[e]) {
      d := FirstOfGroup(xs, c);
    }
  }

  lemma FirstsDiffer<K, V>(kept: seq<nat>, xs: seq<Partial<K, V>>, n: nat, f: nat, g: nat)
    requires n <= |xs| && KeptOk(kept, xs, n) && f in kept && g in kept && f != g
    ensures f < n && g < n && Id(xs[f]) != Id(xs[g])
  {
    assert IsFirst(xs, f) && IsFirst(xs, g);
  }

  lemma NotFirst<K, V>(kept: seq<nat>, xs: seq<Partial<K, V>>, e: nat, f: nat)
    requires e < |xs| && KeptOk(kept, xs, e) && f in kept && Id(xs[f]) == Id(xs[e])
    ensures f < e && KeptOk(kept, xs, e + 1)
  {
    assert !IsFirst(xs, e);
  }

  lemma ValuesCombined<K, V>(m: Merged<K, V>, m': Merged<K, V>, xs: seq<Partial<K, V>>, e: nat, f: nat,
      combine: (V, V) -> V)
    requires e < |xs| && ShapeOk(m, xs) && KeptOk(m.kept, xs, e) && ValuesOk(m, xs, e, combine)
    requires f in m.kept && Id(xs[f]) == Id(xs[e])
    requires m' == m.(values := m.values[f := combine(m.values[f], m.values[e])])
    ensures KeptOk(m'.kept, xs, e + 1) && ValuesOk(m', xs, e + 1, combine)
  {
    hide Values, Fold, KeptOk;
    NotFirst(m.kept, xs, e, f);
    forall g | g in m'.kept
      ensures g < e + 1 && Values(xs[..e + 1], Id(xs[g])) != []
      ensures m'.values[g] == Fold(Values(xs[..e + 1], Id(xs[g])), combine)
    {
      if g != f {
        FirstsDiffer(m.kept, xs, e, f, g);
      }
      GroupGrows(xs, e, g, combine);
    }
  }

  /** One more partial is one more value for its own group and none for the others. */
  lemma GroupGrows<K, V>(xs: seq<Partial<K, V>>, e: nat, g: nat, combine: (V, V) -> V)
    requires g < e < |xs| && Values(xs[..e], Id(xs[g])) != []
    ensures var vs, vs' := Values(xs[..e], Id(xs[g])), Values(xs[..e + 1], Id(xs[g]));
      && vs' != []
      && Fold(vs', combine) == if Id(xs[g]) == Id(xs[e]) then combine(Fold(vs, combine), xs[e].value)
        else Fold(vs, combine)
  {
    hide Values, Fold;
    assert xs[..e + 1] == xs[..e] + [xs[e]];
    ValuesSnoc(xs[..e], xs[e], Id(xs[g]));
    FoldSnoc(Values(xs[..e], Id(xs[g])), xs[e].value, combine);
  }

  lemma ValuesPushed<K, V>(m: Merged<K, V>, m': Merged<K, V>, xs: seq<Partial<K, V>>, e: nat, combine: (V, V) -> V)
    requires e < |xs| && ShapeOk(m, xs) && KeptOk(m.kept, xs, e) && ValuesOk(m, xs, e, combine)
    requires forall f :: f in m.kept ==> Id(xs[f]) != Id(xs[e])
    requires m'.kept == m.kept + [e] && m'.values == m.values
    ensures KeptOk(m'.kept, xs, e + 1) && ValuesOk(m', xs, e + 1, combine)
  {
    hide Values, Fold;
    assert xs[..e + 1] == xs[..e] + [xs[e]];
    var d := FirstOfGroup(xs, e);
    assert d == e;
    assert forall i :: 0 <= i < |m.kept| ==> m.kept[i] in m.kept;
    GroupOccurs(xs[..e], Id(xs[e]));
    forall g | g in m'.kept
      ensures Values(xs[..e + 1], Id(xs[g])) != [] && m'.values[g] == Fold(Values(xs[..e + 1], Id(xs[g])), combine)
    {
      ValuesSnoc(xs[..e], xs[e], Id(xs[g]));
      FoldSnoc(Values(xs[..e], Id(xs[g])), xs[e].value, combine);
    }
  }

  /** Lines 128-146: combine the partial with the kept entry of its group, or keep it. */
  method MergeEntry<K(==), V>(m: Merged<K, V>, e: nat, combine: (V, V) -> V, ghost xs: seq<Partial<K, V>>,
      ghost chains: seq<seq<nat>>)
    returns (m': Merged<K, V>, ghost chains': seq<seq<nat>>)
    requires MergedOk(m, xs, e, combine, chains) && e < |xs|
    ensures ShapeOk(m', xs) && KeptOk(m'.kept, xs, e + 1) && ValuesOk(m', xs, e + 1, combine)
    ensures MergedOk(m', xs, e + 1, combine, chains')
  {
    hide KeptOk, ValuesOk, TableOk, ChainOk, Index;
    ghost var linked := Kept(m.kept);
    TableShape(m.table, linked, chains);
    var t := m.table;
    var p := Index(t.hashes[e], NUM_OUTPUTS, t.mask);
    ghost var chain := chains[p];
    LinkedInBucket(m, chains, p);
    var found := Walk(t, m.keys, Untag(t.heads[p]), t.hashes[e], m.keys[e], chain);
    KeptBelow(m.kept, xs, e);
    if found.Some? {
      var f := found.value;
      m' := m.(values := m.values[f := combine(m.values[f], m.values[e])]);
      chains' := chains;
      ValuesCombined(m, m', xs, e, f, combine);
    } else {
      var previous := t.heads[p];
      var heads := t.heads[p := Tag(t.bloom, e, previous, t.hashes[e])];
      var next := t.next[e := Untag(previous)];
      m' := m.(table := t.(heads := heads, next := next), kept := m.kept + [e]);
      PushKeeps(t, linked, chains, e);
      assert Kept(m'.kept) == linked + {e};
      assert m'.table == Push(t, e);
      chains' := chains[p := [e] + chains[p]];
      ValuesPushed(m, m', xs, e, combine);
    }
  }

  lemma KeptBelow<K, V>(kept: seq<nat>, xs: seq<Partial<K, V>>, n: nat)
    requires n <= |xs| && KeptOk(kept, xs, n)
    ensures forall e :: e in kept ==> e < n
  {
  }

  /** The chain of a bucket holds exactly the kept entries of that bucket. */
  lemma LinkedInBucket<K, V>(m: Merged<K, V>, chains: seq<seq<nat>>, p: nat)
    requires TableOk(m.table, Kept(m.kept), chains) && p < |m.table.heads|
    ensures IsChain(m.table.next, Untag(m.table.heads[p]), chains[p])
    ensures forall e: nat :: e in chains[p] ==> e in m.kept
    ensures forall e: nat :: e in m.kept && e < |m.table.hashes| && Bucket(m.table, e) == p ==> e in chains[p]
  {
    assert ChainOk(m.table, Kept(m.kept), p, m.table.heads[p], chains[p]);
  }

  /** The partition before its first partial: empty buckets over the partials as they lie in memory. */
  function Unmerged<K, V>(bloom: BloomMasks, xs: seq<Partial<K, V>>): Merged<K, V>
  {
    var size, n := TableSize(|xs|), |xs|;
    Merged(
      Table(bloom, NUM_OUTPUTS, size - 1, seq(size, _ => NULL_HEAD), seq(n, _ => None),
        seq(n, e requires 0 <= e < n => xs[e].hash)),
      seq(n, e requires 0 <= e < n => xs[e].key), seq(n, e requires 0 <= e < n => xs[e].value), [])
  }

  lemma UnmergedOk<K, V>(bloom: BloomMasks, xs: seq<Partial<K, V>>, combine: (V, V) -> V)
    ensures MergedOk(Unmerged(bloom, xs), xs, 0, combine, seq(TableSize(|xs|), _ => []))
  {
    hide Index, TableOk, TableSize;
    var m := Unmerged(bloom, xs);
    assert m.table.mask + 1 == TableSize(|xs|);
    EmptyOk(m.table);
    assert Kept([]) == {};
  }

  /** handleMerge: merge the buffers of one partition, in the order in which the fragments come. */
  method MergePartition<K(==), V>(bloom: BloomMasks, input: seq<seq<Partial<K, V>>>, combine: (V, V) -> V)
    returns (m: Merged<K, V>, ghost chains: seq<seq<nat>>)
    ensures var xs := Flatten(input); ShapeOk(m, xs) && KeptOk(m.kept, xs, |xs|) && ValuesOk(m, xs, |xs|, combine)
    ensures MergedOk(m, Flatten(input), |Flatten(input)|, combine, chains)
  {
    hide MergedOk, TableSize, Unmerged;
    var xs := Flatten(input);
    m, chains := Unmerged(bloom, xs), seq(TableSize(|xs|), _ => []);
    UnmergedOk(bloom, xs, combine);
    var e := 0;
    for o := 0 to |input|
      invariant e == |Flatten(input[..o])| <= |xs|
      invariant MergedOk(m, xs, e, combine, chains)
    {
      assert input[..o + 1][..o] == input[..o];
      FlattenPrefix(input, o + 1);
      for j := 0 to |input[o]|
        invariant e == |Flatten(input[..o])| + j
        invariant MergedOk(m, xs, e, combine, chains)
      {
        m, chains := MergeEntry(m, e, combine, xs, chains);
        e := e + 1;
      }
    }
    assert input[..|input|] == input;
    MergedParts(m, xs, |xs|, combine, chains);
  }

  lemma MergedParts<K, V>(m: Merged<K, V>, xs: seq<Partial<K, V>>, n: nat, combine: (V, V) -> V, chains: seq<seq<nat>>)
    requires MergedOk(m, xs, n, combine, chains)
    ensures n <= |xs| && ShapeOk(m, xs) && KeptOk(m.kept, xs, n) && ValuesOk(m, xs, n, combine)
  {
  }

  lemma {:induction false} FlattenPrefix<T>(bs: seq<seq<T>>, n: nat)
    requires n <= |bs|
    ensures |Flatten(bs[..n])| <= |Flatten(bs)|
    decreases |bs| - n
  {
    if n < |bs| {
      assert bs[..n + 1][..n] == bs[..n];
      FlattenPrefix(bs, n + 1);
    } else {
      assert bs[..n] == bs;
    }
  }

  // ----- The merged table -----

  /** One table per partition, null until its merge ran, and the buffer of pointers to all groups. */
  datatype Grouped<K, V> = Grouped(parts: seq<Option<Merged<K, V>>>, buffer: seq<(nat, nat)>)

  ghost predicate PartOk<K, V>(part: Option<Merged<K, V>>, all: seq<Partial<K, V>>, p: nat, combine: (V, V) -> V,
      chains: seq<seq<nat>>)
  {
    part.Some? && MergedOk(part.value, InPartition(all, p), |InPartition(all, p)|, combine, chains)
  }

  ghost predicate BufferOk<K, V>(res: Grouped<K, V>)
  {
    && (forall x :: x in res.buffer <==> x.0 < |res.parts| && res.parts[x.0].Some? && x.1 in res.parts[x.0].value.kept)
    && (forall i, j :: 0 <= i < j < |res.buffer| ==> res.buffer[i] != res.buffer[j])
  }

  /** The partitions merged so far are right. */
  ghost predicate SoFarOk<K, V>(res: Grouped<K, V>, all: seq<Partial<K, V>>, combine: (V, V) -> V,
      chains: seq<seq<seq<nat>>>)
  {
    && |res.parts| == |chains| == NUM_OUTPUTS && BufferOk(res)
    && forall p :: 0 <= p < NUM_OUTPUTS && res.parts[p].Some? ==> PartOk(res.parts[p], all, p, combine, chains[p])
  }

  ghost predicate GroupedOk<K, V>(res: Grouped<K, V>, all: seq<Partial<K, V>>, combine: (V, V) -> V,
      chains: seq<seq<seq<nat>>>)
  {
    SoFarOk(res, all, combine, chains) && forall p :: 0 <= p < NUM_OUTPUTS ==> res.parts[p].Some?
  }

  /** The local buffer of a partition, as pointers. */
  function Pointers(p: nat, kept: seq<nat>): seq<(nat, nat)>
  {
    seq(|kept|, i requires 0 <= i < |kept| => (p, kept[i]))
  }

  lemma BufferGrows<K, V>(res: Grouped<K, V>, p: nat, m: Merged<K, V>)
    requires BufferOk(res) && p < |res.parts| && res.parts[p] == None
    requires forall i, j :: 0 <= i < j < |m.kept| ==> m.kept[i] < m.kept[j]
    ensures BufferOk(Grouped(res.parts[p := Some(m)], res.buffer + Pointers(p, m.kept)))
  {
    var ptrs := Pointers(p, m.kept);
    forall x: (nat, nat)
      ensures x in ptrs <==> x.0 == p && x.1 in m.kept
    {
      if x.0 == p && x.1 in m.kept {
        var i :| 0 <= i < |m.kept| && m.kept[i] == x.1;
        assert ptrs[i] == x;
      }
    }
    assert forall i :: 0 <= i < |res.buffer| ==> res.buffer[i] in res.buffer;
    assert forall i :: 0 <= i < |ptrs| ==> ptrs[i] in ptrs;
  }

  lemma KeptIncreases<K, V>(m: Merged<K, V>, xs: seq<Partial<K, V>>, n: nat, combine: (V, V) -> V,
      chains: seq<seq<nat>>)
    requires MergedOk(m, xs, n, combine, chains)
    ensures forall i, j :: 0 <= i < j < |m.kept| ==> m.kept[i] < m.kept[j]
  {
    hide TableOk, ValuesOk;
  }

  /** Merge all fragments; `order` is the order in which the workers finish the partitions. */
  method Merge<K(==), V>(bloom: BloomMasks, fragments: seq<Fragment?<K, V>>, combine: (V, V) -> V, order: seq<nat>)
    returns (res: Grouped<K, V>, ghost chains: seq<seq<seq<nat>>>)
    requires AllValid(fragments) && TicketOrder(order, NUM_OUTPUTS)
    ensures IsGroupBy(res, AllPartials(fragments), combine)
    ensures GroupedOk(res, AllPartials(fragments), combine, chains)
  {
    hide MergedOk;
    ghost var all := AllPartials(fragments);
    var outputs := Gather(fragments);
    res := Grouped(seq(NUM_OUTPUTS, _ => None), []);
    chains := seq(NUM_OUTPUTS, _ => []);
    for t := 0 to |order|
      invariant SoFarOk(res, all, combine, chains)
      invariant forall p :: 0 <= p < NUM_OUTPUTS ==> (res.parts[p].Some? <==> p in order[..t])
    {
      hide BufferOk, PartOk;
      var id := order[t];
      assert id in order && id !in order[..t];
      var m, chain := MergePartition(bloom, outputs[id], combine);
      assert PartOk(Some(m), all, id, combine, chain) by { PartMerged(m, all, id, combine, chain); }
      KeptIncreases(m, InPartition(all, id), |InPartition(all, id)|, combine, chain);
      BufferGrows(res, id, m);
      res := Grouped(res.parts[id := Some(m)], res.buffer + Pointers(id, m.kept));
      chains := chains[id := chain];
    }
    assert order[..|order|] == order;
    MergeIsGroupBy(res, all, combine, chains);
  }

  lemma PartMerged<K, V>(m: Merged<K, V>, all: seq<Partial<K, V>>, p: nat, combine: (V, V) -> V, chains: seq<seq<nat>>)
    requires MergedOk(m, InPartition(all, p), |InPartition(all, p)|, combine, chains)
    ensures PartOk(Some(m), all, p, combine, chains)
  {
  }

  // ----- The merged table is the reference group-by -----

  ghost predicate Points<K, V>(res: Grouped<K, V>, x: (nat, nat))
  {
    x.0 < |res.parts| && res.parts[x.0].Some? &&
    x.1 < |res.parts[x.0].value.keys| == |res.parts[x.0].value.values| == |res.parts[x.0].value.table.hashes|
  }

  ghost function GroupId<K, V>(res: Grouped<K, V>, x: (nat, nat)): (Hash, K)
    requires Points(res, x)
  {
    (res.parts[x.0].value.table.hashes[x.1], res.parts[x.0].value.keys[x.1])
  }

  ghost function GroupValue<K, V>(res: Grouped<K, V>, x: (nat, nat)): V
    requires Points(res, x)
  {
    res.parts[x.0].value.values[x.1]
  }

  lemma {:induction false} InPartitionMember<K, V>(xs: seq<Partial<K, V>>, p: nat, e: nat)
    requires e < |InPartition(xs, p)|
    ensures InPartition(xs, p)[e].hash % NUM_OUTPUTS == p
  {
    var ys := xs[..|xs| - 1];
    if e < |InPartition(ys, p)| {
      InPartitionMember(ys, p, e);
    }
  }

  /** Every entry of the buffer is a group, combined from all its partials in order. */
  lemma EntryIsGroup<K, V>(res: Grouped<K, V>, all: seq<Partial<K, V>>, combine: (V, V) -> V,
      chains: seq<seq<seq<nat>>>, x: (nat, nat))
    requires SoFarOk(res, all, combine, chains) && x in res.buffer
    ensures Points(res, x) && x.0 == GroupId(res, x).0 % NUM_OUTPUTS
    ensures var vs := Values(all, GroupId(res, x)); vs != [] && GroupValue(res, x) == Fold(vs, combine)
  {
    var p, e := x.0, x.1;
    var xs := InPartition(all, p);
    assert PartOk(res.parts[p], all, p, combine, chains[p]);
    InPartitionMember(all, p, e);
    GroupInPartition(all, Id(xs[e]));
    assert xs[..|xs|] == xs;
  }

  /** Two entries of the buffer never belong to the same group. */
  lemma EntryUnique<K, V>(res: Grouped<K, V>, all: seq<Partial<K, V>>, combine: (V, V) -> V,
      chains: seq<seq<seq<nat>>>, x: (nat, nat), y: (nat, nat))
    requires SoFarOk(res, all, combine, chains) && x in res.buffer && y in res.buffer && x != y
    ensures Points(res, x) && Points(res, y) && GroupId(res, x) != GroupId(res, y)
  {
    EntryIsGroup(res, all, combine, chains, x);
    EntryIsGroup(res, all, combine, chains, y);
    assert PartOk(res.parts[x.0], all, x.0, combine, chains[x.0]);
  }

  /** Every group that occurs has an entry in the buffer. */
  lemma GroupHasEntry<K, V>(res: Grouped<K, V>, all: seq<Partial<K, V>>, combine: (V, V) -> V,
      chains: seq<seq<seq<nat>>>, id: (Hash, K))
    returns (x: (nat, nat))
    requires GroupedOk(res, all, combine, chains) && Values(all, id) != []
    ensures x in res.buffer && Points(res, x) && GroupId(res, x) == id
  {
    var p := id.0 % NUM_OUTPUTS;
    var xs := InPartition(all, p);
    assert PartOk(res.parts[p], all, p, combine, chains[p]);
    GroupInPartition(all, id);
    GroupOccurs(xs, id);
    var e: nat :| e < |xs| && Id(xs[e]) == id;
    var d := FirstOfGroup(xs, e);
    x := (p, d);
  }

  ghost predicate OneEntry<K, V>(res: Grouped<K, V>, id: (Hash, K), value: V)
  {
    exists i ::
      && 0 <= i < |res.buffer| && Points(res, res.buffer[i])
      && GroupId(res, res.buffer[i]) == id && GroupValue(res, res.buffer[i]) == value
      && (forall j :: 0 <= j < |res.buffer| && Points(res, res.buffer[j]) && GroupId(res, res.buffer[j]) == id ==>
           j == i)
  }

  /** One entry per distinct group, with the combination of all its partials in order, and no other entry. */
  ghost predicate IsGroupBy<K, V>(res: Grouped<K, V>, all: seq<Partial<K, V>>, combine: (V, V) -> V)
  {
    && (forall e :: 0 <= e < |all| ==>
          Values(all, Id(all[e])) != [] && OneEntry(res, Id(all[e]), Fold(Values(all, Id(all[e])), combine)))
    && (forall x :: x in res.buffer ==> Points(res, x) && Values(all, GroupId(res, x)) != [])
  }

  /**
    The merge is the group-by: one entry per distinct group, with the combination of all its
    partials, and no other entry.
  */
  lemma MergeIsGroupBy<K, V>(res: Grouped<K, V>, all: seq<Partial<K, V>>, combine: (V, V) -> V,
      chains: seq<seq<seq<nat>>>)
    requires GroupedOk(res, all, combine, chains)
    ensures IsGroupBy(res, all, combine)
  {
    hide PartOk;
    forall x | x in res.buffer
      ensures Points(res, x) && Values(all, GroupId(res, x)) != []
    {
      EntryIsGroup(res, all, combine, chains, x);
    }
    forall e | 0 <= e < |all|
      ensures Values(all, Id(all[e])) != [] && OneEntry(res, Id(all[e]), Fold(Values(all, Id(all[e])), combine))
    {
      var id := Id(all[e]);
      GroupOccurs(all, id);
      var x := GroupHasEntry(res, all, combine, chains, id);
      EntryIsGroup(res, all, combine, chains, x);
      var i :| 0 <= i < |res.buffer| && res.buffer[i] == x;
      forall j | 0 <= j < |res.buffer| && Points(res, res.buffer[j]) && GroupId(res, res.buffer[j]) == id
        ensures j == i
      {
        if res.buffer[j] != x {
          EntryUnique(res, all, combine, chains, x, res.buffer[j]);
        }
      }
    }
  }

  /** lookup: the chain returned for a hash holds every group with that hash exactly once. */
  method Lookup<K, V>(res: Grouped<K, V>, h: Hash, ghost all: seq<Partial<K, V>>, ghost combine: (V, V) -> V,
      ghost chains: seq<seq<seq<nat>>>)
    returns (start: Option<nat>)
    requires SoFarOk(res, all, combine, chains)
    ensures forall x :: x in res.buffer && Points(res, x) && GroupId(res, x).0 == h ==>
      x.0 == h % NUM_OUTPUTS && exists xs :: IsChain(res.parts[x.0].value.table.next, start, xs) && OnceIn(xs, x.1)
  {
    var p := PartitionOf(h);
    forall x | x in res.buffer
      ensures Points(res, x) && x.0 == GroupId(res, x).0 % NUM_OUTPUTS
    {
      EntryIsGroup(res, all, combine, chains, x);
    }
    if res.parts[p] == None {
      return None;
    }
    var t := res.parts[p].value.table;
    assert PartOk(res.parts[p], all, p, combine, chains[p]);
    hide TableOk, Index;
    ghost var linked := Kept(res.parts[p].value.kept);
    TableShape(t, linked, chains[p]);
    start := FilterTagged(t.bloom, t.heads[Index(h, NUM_OUTPUTS, t.mask)], h);
    FilterKeeps(t, linked, chains[p], h);
    forall x | x in res.buffer && Points(res, x) && GroupId(res, x).0 == h
      ensures x.0 == p && exists xs :: IsChain(t.next, start, xs) && OnceIn(xs, x.1)
    {
      LinkedOnce(t, linked, chains[p], Index(h, NUM_OUTPUTS, t.mask), x.1);
      assert x.1 in linked;
    }
  }

  /**
    Generated code probes the merged tables on its own: partition and bucket of every group
    are remainders of its hash, the tag lets it through and the chain meets it once.
  */
  lemma GroupProbed<K, V>(res: Grouped<K, V>, all: seq<Partial<K, V>>, combine: (V, V) -> V,
      chains: seq<seq<seq<nat>>>, x: (nat, nat))
    requires SoFarOk(res, all, combine, chains) && x in res.buffer
    ensures Points(res, x)
    ensures var h, t := GroupId(res, x).0, res.parts[x.0].value.table;
      x.0 == h % NUM_OUTPUTS && |t.heads| > 0 && ProbeMeets(t, h / NUM_OUTPUTS % |t.heads|, x.1)
  {
    EntryIsGroup(res, all, combine, chains, x);
    assert PartOk(res.parts[x.0], all, x.0, combine, chains[x.0]);
    hide TableOk, ProbeMeets, TableSize;
    var m := res.parts[x.0].value;
    var k := TableSizeIsPow2(|InPartition(all, x.0)|);
    LinkedAtRemainder(m.table, Kept(m.kept), chains[x.0], x.1, k);
  }
}
