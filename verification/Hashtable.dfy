/**
  The chained hash table with resizing (src/runtime/Hashtable.cpp) refines a finite map.

  An entry's content is a key and a value; `isEq` is equality of keys, so an equivalence
  coarser than equality is modelled by taking its classes as keys. The map is keyed by
  hash and key together: the table never assumes that equal keys come with equal hashes.
*/
module Hashtable {
  import opened Basics
  import opened Bits
  import opened Chains
  import opened Buckets

  ghost function Upto(n: nat): (s: set<nat>)
    ensures forall e: nat :: e in s <==> e < n
  {
    if n == 0 then {} else Upto(n - 1) + {n - 1}
  }

  /** Pointwise merge of two maps; `merge` combines the values of a key both hold. */
  ghost function MergeMaps<K, V>(a: map<K, V>, b: map<K, V>, merge: (V, V) -> V): map<K, V>
  {
    map x | x in a.Keys + b.Keys ::
      if x in a && x in b then merge(a[x], b[x]) else if x in a then a[x] else b[x]
  }

  class Hashtable<K(==), V> {
    const bloom: BloomMasks
    var mask: nat
    var heads: seq<Tagged>
    // The entries of `values`, field by field.
    var next: seq<Option<nat>>
    var hashes: seq<Hash>
    var keys: seq<K>
    var values: seq<V>
    ghost var chains: seq<seq<nat>>
    ghost var place: map<(Hash, K), nat>

    function Links(): Table
      reads this
    {
      Table(bloom, 1, mask, heads, next, hashes)
    }

    ghost predicate Valid()
      reads this
    {
      && |hashes| == |keys| == |values|
      && TableOk(Links(), Upto(|hashes|), chains)
      && mask >= 1 && |hashes| <= mask / 2 + 1
      && (forall e :: 0 <= e < |hashes| ==> (hashes[e], keys[e]) in place && place[(hashes[e], keys[e])] == e)
      && (forall x :: x in place ==> place[x] < |hashes| && hashes[place[x]] == x.0 && keys[place[x]] == x.1)
    }

    /** The finite map the table stands for. */
    ghost function Contents(): map<(Hash, K), V>
      reads this
      requires Valid()
    {
      map x | x in place :: values[place[x]]
    }

    constructor (masks: BloomMasks, initialCapacity: nat)
      requires initialCapacity >= 1
      ensures Valid() && Contents() == map[] && |hashes| == 0 && mask == 2 * initialCapacity - 1
    {
      bloom := masks;
      mask := initialCapacity * 2 - 1;
      heads := seq(initialCapacity * 2, _ => NULL_HEAD);
      next, hashes, keys, values := [], [], [], [];
      chains := seq(initialCapacity * 2, _ => []);
      place := map[];
      new;
      EmptyOk(Links());
      assert Upto(0) == {};
    }

    /** Link entry `e` in front of its chain. */
    method Link(e: nat)
      requires e < |hashes| && TableOk(Links(), Upto(e), chains)
      modifies `heads, `next, `chains
      ensures TableOk(Links(), Upto(e + 1), chains)
    {
      hide TableOk, Upto;
      ghost var t := Links();
      TableShape(t, Upto(e), chains);
      PushKeeps(t, Upto(e), chains, e);
      assert Upto(e) + {e} == Upto(e + 1);
      var p := Index(hashes[e], 1, mask);
      var previous := heads[p];
      heads := heads[p := Tag(bloom, e, previous, hashes[e])];
      next := next[e := Untag(previous)];
      chains := chains[p := [e] + chains[p]];
      assert Links() == Push(t, e);
    }

    /** Double the bucket array and link every entry anew, in insertion order. */
    method Resize()
      requires |hashes| == |next|
      modifies `mask, `heads, `next, `chains
      ensures mask == 2 * old(mask) + 1
      ensures TableOk(Links(), Upto(|hashes|), chains)
    {
      hide TableOk, Upto;
      mask := (mask + 1) * 2 - 1;
      heads := seq(mask + 1, _ => NULL_HEAD);
      chains := seq(mask + 1, _ => []);
      EmptyOk(Links());
      assert Upto(0) == {};
      var e := 0;
      while e < |hashes|
        invariant 0 <= e <= |hashes| && mask == 2 * old(mask) + 1
        invariant TableOk(Links(), Upto(e), chains)
      {
        Link(e);
        e := e + 1;
      }
    }

    /** Allocate an entry for `h` and link it in front of its chain. */
    method InsertLinks(h: Hash) returns (e: nat)
      requires TableOk(Links(), Upto(|hashes|), chains) && mask >= 1 && |hashes| <= mask / 2 + 1
      modifies `mask, `heads, `next, `hashes, `chains
      ensures e == old(|hashes|) && hashes == old(hashes) + [h]
      ensures TableOk(Links(), Upto(|hashes|), chains) && mask >= 1 && |hashes| <= mask / 2 + 1
      ensures mask == if 2 * old(|hashes|) > old(mask) then 2 * old(mask) + 1 else old(mask)
    {
      hide TableOk, Upto;
      TableShape(Links(), Upto(|hashes|), chains);
      if |hashes| > mask / 2 {
        Resize();
      }
      e := |hashes|;
      GrowKeeps(Links(), Upto(e), chains, h);
      next, hashes := next + [None], hashes + [h];
      Link(e);
    }

    /** Insert an entry; the caller writes `key` and `value` through the returned pointer. */
    method Insert(h: Hash, key: K, value: V) returns (e: nat)
      requires Valid() && (h, key) !in Contents()
      modifies this
      ensures Valid() && Contents() == old(Contents())[(h, key) := value]
      ensures (h, key) in place && e == place[(h, key)]
      ensures mask == if 2 * old(|hashes|) > old(mask) then 2 * old(mask) + 1 else old(mask)
    {
      hide TableOk;
      e := InsertLinks(h);
      keys, values := keys + [key], values + [value];
      place := place[(h, key) := e];
    }

    /** The search shared by lookup, lookUpOrInsert, contains and mergeEntries. */
    method Find(h: Hash, key: K) returns (found: Option<nat>)
      requires Valid()
      ensures found == if (h, key) in place then Some(place[(h, key)]) else None
    {
      var p := Index(h, 1, mask);
      var start := FilterTagged(bloom, heads[p], h);
      FilterKeeps(Links(), Upto(|hashes|), chains, h);
      ghost var chain := if Matches(bloom, heads[p], h) then chains[p] else [];
      var t := Links();
      found := Walk(t, keys, start, h, key, chain);
      if (h, key) in place {
        var e := place[(h, key)];
        assert e in Upto(|hashes|);
        LinkedOnce(t, Upto(|hashes|), chains, p, e);
      }
    }

    /** Generated code probes the buckets on its own: at `hash & mask` it meets the entry of a key once. */
    lemma KeyProbed(h: Hash, key: K)
      requires Valid() && (h, key) in place
      ensures ProbeMeets(Links(), And(h, mask), place[(h, key)])
    {
      hide TableOk, ProbeMeets;
      var e := place[(h, key)];
      assert e in Upto(|hashes|) && h / 1 == h;
      LinkedProbed(Links(), Upto(|hashes|), chains, e);
    }

    method Contains(h: Hash, key: K) returns (b: bool)
      requires Valid()
      ensures b <==> (h, key) in Contents()
    {
      var found := Find(h, key);
      b := found.Some?;
    }

    method Lookup(h: Hash, key: K) returns (r: Result<nat>)
      requires Valid()
      ensures r.Ok? <==> (h, key) in Contents()
      ensures r.Ok? ==> r.value == place[(h, key)] && values[r.value] == Contents()[(h, key)]
    {
      var found := Find(h, key);
      r := if found.Some? then Ok(found.value) else Err("Hashtable: lookup failed, no entry found for hash");
    }

    method LookUpOrInsert(h: Hash, key: K, initial: V) returns (e: nat)
      requires Valid()
      modifies this
      ensures Valid() && (h, key) in place && e == place[(h, key)]
      ensures Contents() ==
        if (h, key) in old(Contents()) then old(Contents()) else old(Contents())[(h, key) := initial]
    {
      var found := Find(h, key);
      if found.Some? {
        e := found.value;
      } else {
        e := Insert(h, key, initial);
      }
    }

    /** A write of the value through a pointer that lookup or lookUpOrInsert returned. */
    method SetValue(e: nat, value: V)
      requires Valid() && e < |hashes|
      modifies `values
      ensures Valid() && Contents() == old(Contents())[(hashes[e], keys[e]) := value]
    {
      hide TableOk, Upto;
      values := values[e := value];
      assert forall x :: x in place && place[x] == e ==> x == (hashes[e], keys[e]);
    }

    /** One turn of mergeEntries: combine with the entry of the same key, or insert a copy. */
    method MergeEntry(merge: (V, V) -> V, h: Hash, key: K, value: V)
      requires Valid()
      modifies this
      ensures Valid()
      ensures Contents() == MergeMaps(old(Contents()), map[(h, key) := value], merge)
    {
      hide TableOk, Upto;
      var found := Find(h, key);
      if found.Some? {
        SetValue(found.value, merge(values[found.value], value));
      } else {
        var _ := Insert(h, key, value);
      }
    }

    /** Merge the entries of another table into this one. */
    method MergeEntries(merge: (V, V) -> V, other: Hashtable<K, V>)
      requires Valid() && other.Valid() && other != this
      modifies this
      ensures Valid() && Contents() == MergeMaps(old(Contents()), other.Contents(), merge)
    {
      hide Valid, Contents, FirstContents, MergeMaps;
      other.FirstContentsEnds();
      MergeNone(Contents(), merge);
      var i := 0;
      while i < |other.hashes|
        invariant 0 <= i <= |other.hashes| && Valid()
        invariant Contents() == MergeMaps(old(Contents()), other.FirstContents(i), merge)
      {
        MergeEntry(merge, other.hashes[i], other.keys[i], other.values[i]);
        other.FirstContentsSnoc(i);
        MergeOne(old(Contents()), other.FirstContents(i), merge, (other.hashes[i], other.keys[i]), other.values[i]);
        i := i + 1;
      }
    }

    /** The part of the map that comes from the first `n` entries. */
    ghost function FirstContents(n: nat): map<(Hash, K), V>
      reads this
      requires Valid()
    {
      map x | x in place && place[x] < n :: values[place[x]]
    }

    lemma FirstContentsEnds()
      requires Valid()
      ensures |hashes| == |keys| == |values|
      ensures FirstContents(0) == map[] && FirstContents(|hashes|) == Contents()
    {
      hide TableOk, Upto;
    }

    lemma FirstContentsSnoc(n: nat)
      requires Valid() && n < |hashes|
      ensures (hashes[n], keys[n]) !in FirstContents(n)
      ensures FirstContents(n + 1) == FirstContents(n)[(hashes[n], keys[n]) := values[n]]
    {
      hide TableOk, Upto;
    }
  }

  lemma MergeNone<K, V>(a: map<K, V>, merge: (V, V) -> V)
    ensures MergeMaps(a, map[], merge) == a
  {
  }

  /** Merging one more key of the right-hand map. */
  lemma MergeOne<K, V>(a: map<K, V>, b: map<K, V>, merge: (V, V) -> V, x: K, v: V)
    requires x !in b
    ensures MergeMaps(a, b[x := v], merge) == MergeMaps(MergeMaps(a, b, merge), map[x := v], merge)
  {
  }

  /** The pointwise merge of all maps, in order. */
  ghost function MergeAll<K, V>(maps: seq<map<K, V>>, merge: (V, V) -> V): map<K, V>
    requires maps != []
  {
    if |maps| == 1 then maps[0] else MergeMaps(MergeAll(maps[..|maps| - 1], merge), maps[|maps| - 1], merge)
  }

  lemma MergeAllSnoc<K, V>(maps: seq<map<K, V>>, last: map<K, V>, merge: (V, V) -> V)
    requires maps != []
    ensures MergeAll(maps + [last], merge) == MergeMaps(MergeAll(maps, merge), last, merge)
  {
    assert (maps + [last])[..|maps|] == maps;
  }

  ghost predicate AllValid<K, V>(tables: seq<Hashtable?<K, V>>)
    reads set t | t in tables && t != null
  {
    forall i :: 0 <= i < |tables| && tables[i] != null ==> tables[i].Valid()
  }

  /** What the thread-local tables hold, leaving out the workers that have none. */
  ghost function AllContents<K, V>(tables: seq<Hashtable?<K, V>>): seq<map<(Hash, K), V>>
    requires AllValid(tables)
    reads set t | t in tables && t != null
  {
    if tables == [] then []
    else
      var last := tables[|tables| - 1];
      AllContents(tables[..|tables| - 1]) + if last == null then [] else [last.Contents()]
  }

  /** Merge the tables of all workers into the first one. */
  method Merge<K(==), V>(tables: seq<Hashtable?<K, V>>, merge: (V, V) -> V) returns (first: Hashtable?<K, V>)
    requires AllValid(tables)
    requires forall i, j :: 0 <= i < j < |tables| && tables[i] != null ==> tables[i] != tables[j]
    modifies set t | t in tables && t != null
    ensures first == null <==> old(AllContents(tables)) == []
    ensures first != null ==> first.Valid() && first.Contents() == MergeAll(old(AllContents(tables)), merge)
  {
    hide TableOk, Upto, Hashtable.Valid, Hashtable.Contents, MergeMaps;
    first := null;
    var i := 0;
    while i < |tables|
      invariant 0 <= i <= |tables|
      invariant first == null <==> old(AllContents(tables[..i])) == []
      invariant first != null ==>
        first in tables[..i] && first.Valid() && first.Contents() == MergeAll(old(AllContents(tables[..i])), merge)
      invariant forall j :: i <= j < |tables| && tables[j] != null ==>
                  tables[j].Valid() && tables[j].Contents() == old(tables[j].Contents())
    {
      var current := tables[i];
      ghost var before := old(AllContents(tables[..i]));
      assert tables[..i + 1][..i] == tables[..i];
      assert old(AllContents(tables[..i + 1])) == before + if current == null then [] else [old(current.Contents())];
      if current == null {
        assert before + [] == before;
      } else if first == null {
        assert before + [current.Contents()] == [current.Contents()];
        first := current;
      } else {
        MergeAllSnoc(before, current.Contents(), merge);
        first.MergeEntries(merge, current);
      }
      i := i + 1;
    }
    assert tables[..i] == tables;
  }
}
