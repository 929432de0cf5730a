/**
  The persistent hash index (src/runtime/LingoDBHashIndex.cpp): entries of (hash, row id)
  in a buffer, chained buckets over it, and a file that holds the flushed entries.

  The file is the sequence of entries written to it, or nothing if it does not exist.
  Hashing the indexed columns is not part of the model: an insert is given the hashes.
*/
module HashIndex {
  import opened Basics
  import opened Bits
  import opened Chains

  datatype Row = Row(hash: Hash, id: nat)

  // ----- What the operations do, as functions on values -----

  /** The index without its buckets; `built` says whether there is a bucket array at all. */
  datatype Index = Index(file: Option<seq<Row>>, buffer: seq<Row>, loaded: bool, persist: bool, built: bool)

  function Load(x: Index): Index
  {
    if x.loaded then x
    else if x.file.None? then x.(loaded := true)
    else x.(loaded := true, buffer := x.buffer + x.file.value, built := true)
  }

  function Flush(x: Index): Index
  {
    if x.persist then var y := Load(x); y.(file := Some(y.buffer)) else x
  }

  /** bulkInsert and appendRows; an empty table is an error and changes nothing. */
  function Insert(x: Index, rows: seq<Row>): Index
  {
    if rows == [] then x else Flush(x.(buffer := x.buffer + rows, built := true))
  }

  function SetPersist(x: Index, value: bool): Index
  {
    if value then Flush(x.(persist := value)) else x.(persist := value)
  }

  /** An index that was just opened. */
  function Opened(file: Option<seq<Row>>, persist: bool): Index
  {
    Index(file, [], false, persist, false)
  }

  /** Everything the index stands for: what is in memory and, before loading, what is in the file. */
  ghost function Entries(x: Index): multiset<Row>
  {
    multiset(x.buffer) + if x.loaded || x.file.None? then multiset{} else multiset(x.file.value)
  }

  datatype Operation = BulkInsert(rows: seq<Row>) | Persist(value: bool) | FlushNow | EnsureLoaded

  function Apply(x: Index, op: Operation): Index
  {
    match op
    case BulkInsert(rows) => Insert(x, rows)
    case Persist(value) => SetPersist(x, value)
    case FlushNow => Flush(x)
    case EnsureLoaded => Load(x)
  }

  function ApplyAll(x: Index, ops: seq<Operation>): Index
  {
    if ops == [] then x else Apply(ApplyAll(x, ops[..|ops| - 1]), ops[|ops| - 1])
  }

  ghost function Inserted(ops: seq<Operation>): multiset<Row>
  {
    if ops == [] then multiset{}
    else
      var last := ops[|ops| - 1];
      Inserted(ops[..|ops| - 1]) + if last.BulkInsert? then multiset(last.rows) else multiset{}
  }

  lemma LoadKeeps(x: Index)
    ensures Entries(Load(x)) == Entries(x) && Load(x).loaded && Load(x).persist == x.persist && Load(x).file == x.file
  {
  }

  lemma FlushKeeps(x: Index)
    ensures Entries(Flush(x)) == Entries(x) && Flush(x).persist == x.persist
    ensures x.persist ==> Flush(x).file == Some(Flush(x).buffer) && Flush(x).loaded
  {
    LoadKeeps(x);
  }

  lemma ApplyKeeps(x: Index, op: Operation)
    ensures Entries(Apply(x, op)) == Entries(x) + if op.BulkInsert? then multiset(op.rows) else multiset{}
  {
    match op
    case BulkInsert(rows) =>
      if rows != [] {
        FlushKeeps(x.(buffer := x.buffer + rows, built := true));
      }
    case Persist(value) => FlushKeeps(x.(persist := value));
    case FlushNow => FlushKeeps(x);
    case EnsureLoaded => LoadKeeps(x);
  }

  /** Over any sequence of operations no entry is lost or duplicated. */
  lemma {:induction false} EntriesConserved(x: Index, ops: seq<Operation>)
    ensures Entries(ApplyAll(x, ops)) == Entries(x) + Inserted(ops)
  {
    if ops == [] {
    } else {
      EntriesConserved(x, ops[..|ops| - 1]);
      ApplyKeeps(ApplyAll(x, ops[..|ops| - 1]), ops[|ops| - 1]);
    }
  }

  function Stored(x: Index): seq<Row>
  {
    if x.file.Some? then x.file.value else []
  }

  /** While the index is persistent, the file holds what the index holds. */
  ghost predicate InSync(x: Index)
  {
    x.persist ==> if x.loaded then Stored(x) == x.buffer else x.buffer == []
  }

  lemma ApplySyncs(x: Index, op: Operation)
    requires InSync(x)
    ensures InSync(Apply(x, op))
  {
  }

  /** An index opened on a file: whenever it is persistent, reopening the file gives back exactly its entries. */
  lemma {:induction false} FileNeverBehind(file: Option<seq<Row>>, persist: bool, ops: seq<Operation>)
    ensures var x := ApplyAll(Opened(file, persist), ops);
      InSync(x) && (x.persist ==> Entries(Opened(x.file, true)) == Entries(x))
  {
    if ops == [] {
    } else {
      FileNeverBehind(file, persist, ops[..|ops| - 1]);
      ApplySyncs(ApplyAll(Opened(file, persist), ops[..|ops| - 1]), ops[|ops| - 1]);
    }
  }

  ghost predicate InsertsNothing(ops: seq<Operation>)
  {
    forall i :: 0 <= i < |ops| && ops[i].BulkInsert? ==> ops[i].rows == []
  }

  /** There is no bucket array exactly while nothing was inserted and no file was read, even after ensureLoaded. */
  lemma {:induction false} UnbuiltExactly(file: Option<seq<Row>>, persist: bool, ops: seq<Operation>)
    ensures var x := ApplyAll(Opened(file, persist), ops);
      !x.built <==> InsertsNothing(ops) && (file.None? || !x.loaded)
  {
    var n, start := |ops| - 1, Opened(file, persist);
    if ops == [] {
    } else {
      UnbuiltExactly(file, persist, ops[..n]);
      FileAsOpened(file, persist, ops[..n]);
      assert ops == ops[..n] + [ops[n]];
      assert InsertsNothing(ops) <==> InsertsNothing(ops[..n]) && InsertsNothing([ops[n]]);
    }
  }

  /** Until an index is loaded, its file is the one it was opened on. */
  lemma {:induction false} FileAsOpened(file: Option<seq<Row>>, persist: bool, ops: seq<Operation>)
    ensures var x := ApplyAll(Opened(file, persist), ops); !x.loaded ==> x.file == file
  {
    if ops == [] {
    } else {
      FileAsOpened(file, persist, ops[..|ops| - 1]);
    }
  }

  // ----- Buckets -----

  /** Every chain ends and holds entries of its bucket; every one of the first `n` entries is in its chain. */
  ghost predicate BucketsOk(ht: seq<Option<nat>>, mask: nat, next: seq<Option<nat>>, rows: seq<Row>, n: nat,
      chains: seq<seq<nat>>)
  {
    && |ht| == mask + 1 == |chains| && n <= |next| == |rows|
    && (forall p :: 0 <= p < |ht| ==> BucketOk(ht[p], p, mask, next, rows, n, chains[p]))
    && (forall e :: 0 <= e < n ==> e in chains[And(rows[e].hash, mask)])
  }

  ghost predicate BucketOk(head: Option<nat>, p: nat, mask: nat, next: seq<Option<nat>>, rows: seq<Row>, n: nat,
      chain: seq<nat>)
    requires n <= |rows|
  {
    && IsChain(next, head, chain)
    && forall i :: 0 <= i < |chain| ==> chain[i] < n && And(rows[chain[i]].hash, mask) == p
  }

  lemma PushEntry(ht: seq<Option<nat>>, mask: nat, next: seq<Option<nat>>, rows: seq<Row>, n: nat,
      chains: seq<seq<nat>>)
    requires BucketsOk(ht, mask, next, rows, n, chains) && n < |rows|
    ensures var p := And(rows[n].hash, mask);
      BucketsOk(ht[p := Some(n)], mask, next[n := ht[p]], rows, n + 1, chains[p := [n] + chains[p]])
  {
    var q := And(rows[n].hash, mask);
    var next', ht', chains' := next[n := ht[q]], ht[q := Some(n)], chains[q := [n] + chains[q]];
    forall p | 0 <= p < |ht'|
      ensures BucketOk(ht'[p], p, mask, next', rows, n + 1, chains'[p])
    {
      assert BucketOk(ht[p], p, mask, next, rows, n, chains[p]);
      ChainFrame(next, next', ht[p], chains[p]);
      if p == q {
        ChainPush(next', ht[q], chains[q], n);
      }
    }
  }

  // ----- The index -----

  class DataFile {
    var content: Option<seq<Row>>
  }

  class LingoDBHashIndex {
    const file: DataFile
    var ht: Option<seq<Option<nat>>>
    var mask: nat
    var next: seq<Option<nat>>
    var rows: seq<Row>
    var persist: bool
    var loaded: bool
    ghost var chains: seq<seq<nat>>

    ghost function View(): Index
      reads this, file
    {
      Index(file.content, rows, loaded, persist, ht.Some?)
    }

    /** The buckets, once built, hold every entry; an index that was never built has no entries. */
    ghost predicate Valid()
      reads this
    {
      && |next| == |rows|
      && (ht.None? ==> rows == [])
      && (ht.Some? ==> BucketsOk(ht.value, mask, next, rows, |rows|, chains))
    }

    /** Opening an index: `persist` is not initialised by the source, so it may be anything. */
    constructor (dataFile: DataFile, uninitialised: bool)
      ensures Valid() && file == dataFile && View() == Opened(dataFile.content, uninitialised)
    {
      file, ht, mask, next, rows, persist, loaded := dataFile, None, 0, [], [], uninitialised, false;
      chains := [];
    }

    method RawBuild()
      requires |next| == |rows| <= WORD / 2
      modifies `ht, `mask, `next, `chains
      ensures Valid() && ht.Some?
    {
      var size := NextPow2(if |rows| < 1 then 1 else |rows|);
      NextPow2IsLeast(if |rows| < 1 then 1 else |rows|);
      mask := size - 1;
      var table: seq<Option<nat>> := seq(size, _ => None);
      chains := seq(size, _ => []);
      var e := 0;
      while e < |rows|
        invariant 0 <= e <= |rows| && mask == size - 1
        invariant BucketsOk(table, mask, next, rows, e, chains)
      {
        hide BucketsOk, BucketOk;
        BucketsShape(table, mask, next, rows, e, chains);
        PushEntry(table, mask, next, rows, e, chains);
        var p := And(rows[e].hash, mask);
        next := next[e := table[p]];
        table := table[p := Some(e)];
        chains := chains[p := [e] + chains[p]];
        e := e + 1;
      }
      ht := Some(table);
    }

    /** The reading loop of ensureLoaded: append the stored entries to the buffer. */
    method ReadEntries(more: seq<Row>)
      requires |next| == |rows|
      modifies `rows, `next
      ensures rows == old(rows) + more && |next| == |rows|
    {
      var i := 0;
      while i < |more|
        invariant 0 <= i <= |more| && rows == old(rows) + more[..i] && |next| == |rows|
      {
        rows, next := rows + [more[i]], next + [None];
        i := i + 1;
      }
      assert more[..i] == more;
    }

    /** Append an entry per new row to the buffer; they are not in the buckets yet. */
    method RawInsert(startRowId: nat, hashes: seq<Hash>)
      requires |next| == |rows|
      modifies `rows, `next
      ensures |next| == |rows| == |old(rows)| + |hashes| && old(rows) <= rows
      ensures forall i :: 0 <= i < |hashes| ==> rows[|old(rows)| + i] == Row(hashes[i], startRowId + i)
    {
      var row := 0;
      while row < |hashes|
        invariant 0 <= row <= |hashes| && |next| == |rows| == |old(rows)| + row && old(rows) <= rows
        invariant forall i :: 0 <= i < row ==> rows[|old(rows)| + i] == Row(hashes[i], startRowId + i)
      {
        rows, next := rows + [Row(hashes[row], row + startRowId)], next + [None];
        row := row + 1;
      }
    }

    method EnsureLoadedNow()
      requires Valid() && |Load(View()).buffer| <= WORD / 2
      modifies this
      ensures Valid() && View() == Load(old(View()))
    {
      if loaded {
        return;
      }
      if file.content.Some? {
        ReadEntries(file.content.value);
        RawBuild();
      }
      loaded := true;
    }

    method FlushEntries()
      requires Valid() && |Load(View()).buffer| <= WORD / 2
      modifies this, file
      ensures Valid() && View() == Flush(old(View()))
    {
      if persist {
        EnsureLoadedNow();
        file.content := Some(rows);
      }
    }

    /** Row `i` of the new rows gets the id `startRowId + i`. */
    method BulkInsertRows(startRowId: nat, hashes: seq<Hash>) returns (r: Result<()>)
      requires Valid() && |Load(View()).buffer| + |hashes| <= WORD / 2
      modifies this, file
      ensures Valid() && View() == Insert(old(View()), NewRows(startRowId, hashes))
      ensures (r.Err? <==> hashes == []) && (r.Ok? ==> ht.Some?)
      ensures old(rows) <= rows && |rows| >= |old(rows)| + |hashes|
      ensures forall i :: 0 <= i < |hashes| ==>
        rows[|old(rows)| + i].hash == hashes[i] && rows[|old(rows)| + i].id == startRowId + i
      ensures !old(persist) || old(loaded) ==> |rows| == |old(rows)| + |hashes|
    {
      if |hashes| == 0 {
        return Err("empty table");
      }
      RawInsert(startRowId, hashes);
      assert rows == old(rows) + NewRows(startRowId, hashes);
      RawBuild();
      FlushEntries();
      r := Ok(());
    }

    method SetPersistTo(value: bool)
      requires Valid() && |Load(View()).buffer| <= WORD / 2
      modifies this, file
      ensures Valid() && View() == SetPersist(old(View()), value)
    {
      persist := value;
      if persist {
        FlushEntries();
      }
    }
  }

  function NewRows(startRowId: nat, hashes: seq<Hash>): seq<Row>
  {
    seq(|hashes|, i requires 0 <= i < |hashes| => Row(hashes[i], i + startRowId))
  }

  lemma BucketsShape(ht: seq<Option<nat>>, mask: nat, next: seq<Option<nat>>, rows: seq<Row>, n: nat,
      chains: seq<seq<nat>>)
    requires BucketsOk(ht, mask, next, rows, n, chains)
    ensures |ht| == mask + 1 == |chains| && n <= |next| == |rows|
  {
  }

  // ----- Lookups -----

  /** The entries of a chain that have the hash looked for, in order. */
  ghost function Matching(rows: seq<Row>, h: Hash, es: seq<nat>): seq<nat>
  {
    if es == [] then []
    else (if es[0] < |rows| && rows[es[0]].hash == h then [es[0]] else []) + Matching(rows, h, es[1..])
  }

  lemma {:induction false} MatchingMembers(rows: seq<Row>, h: Hash, es: seq<nat>)
    requires forall i :: 0 <= i < |es| ==> es[i] < |rows|
    ensures forall e :: e in Matching(rows, h, es) <==> e in es && rows[e].hash == h
  {
    if es == [] {
    } else {
      MatchingMembers(rows, h, es[1..]);
      assert es == [es[0]] + es[1..];
    }
  }

  lemma {:induction false} MatchingDistinct(rows: seq<Row>, h: Hash, es: seq<nat>)
    requires forall i :: 0 <= i < |es| ==> es[i] < |rows|
    requires NoDup(es)
    ensures NoDup(Matching(rows, h, es))
  {
    if es == [] {
    } else {
      MatchingDistinct(rows, h, es[1..]);
      MatchingMembers(rows, h, es[1..]);
      assert es[0] !in es[1..];
      DistinctCons(es[0], Matching(rows, h, es[1..]));
    }
  }

  lemma DistinctCons(e: nat, es: seq<nat>)
    requires NoDup(es) && e !in es
    ensures NoDup([e] + es)
  {
  }

  lemma MatchingStep(rows: seq<Row>, h: Hash, es: seq<nat>)
    ensures es == [] ==> Matching(rows, h, es) == []
    ensures es != [] && es[0] < |rows| && rows[es[0]].hash == h ==>
      Matching(rows, h, es) == [es[0]] + Matching(rows, h, es[1..])
    ensures es != [] && !(es[0] < |rows| && rows[es[0]].hash == h) ==>
      Matching(rows, h, es) == Matching(rows, h, es[1..])
  {
    assert es != [] ==> [] + Matching(rows, h, es[1..]) == Matching(rows, h, es[1..]);
  }

  lemma ChainStep(next: seq<Option<nat>>, head: Option<nat>, es: seq<nat>)
    requires IsChain(next, head, es)
    ensures head == None <==> es == []
    ensures es != [] ==> head == Some(es[0]) && es[0] < |next| && IsChain(next, next[es[0]], es[1..])
  {
  }

  /** An iteration over one chain; `rest` is what it has not passed yet. */
  class HashIndexIteration {
    const index: LingoDBHashIndex
    const hash: Hash
    var current: Option<nat>
    ghost var rest: seq<nat>

    ghost predicate Valid()
      reads this, index
    {
      && |index.next| == |index.rows| && IsChain(index.next, current, rest)
      && forall i :: 0 <= i < |rest| ==> rest[i] < |index.rows|
    }

    constructor (hashIndex: LingoDBHashIndex, h: Hash)
      requires hashIndex.Valid() && hashIndex.ht.Some?
      ensures Valid() && index == hashIndex && hash == h && And(h, hashIndex.mask) < |hashIndex.chains|
      ensures rest == hashIndex.chains[And(h, hashIndex.mask)]
    {
      index, hash := hashIndex, h;
      var p := And(h, hashIndex.mask);
      current, rest := hashIndex.ht.value[p], hashIndex.chains[p];
      assert BucketOk(hashIndex.ht.value[p], p, hashIndex.mask, hashIndex.next, hashIndex.rows, |hashIndex.rows|,
        hashIndex.chains[p]);
    }

    method HasNext() returns (b: bool)
      requires Valid()
      modifies this
      ensures Valid() && Matching(index.rows, hash, rest) == Matching(index.rows, hash, old(rest))
      ensures b <==> Matching(index.rows, hash, rest) != []
      ensures b ==> current.Some? && current.value < |index.rows| && index.rows[current.value].hash == hash
    {
      hide Matching, IsChain;
      while current.Some?
        invariant Valid() && Matching(index.rows, hash, rest) == Matching(index.rows, hash, old(rest))
        decreases |rest|
      {
        ChainStep(index.next, current, rest);
        MatchingStep(index.rows, hash, rest);
        if index.rows[current.value].hash == hash {
          return true;
        }
        current, rest := index.next[current.value], rest[1..];
      }
      ChainStep(index.next, current, rest);
      MatchingStep(index.rows, hash, rest);
      return false;
    }

    /** The row of the current entry; the iteration moves on. */
    method Consume() returns (id: nat)
      requires Valid() && current.Some? && current.value < |index.rows| && index.rows[current.value].hash == hash
      modifies this
      ensures Valid()
      ensures old(Matching(index.rows, hash, rest)) == [old(current.value)] + Matching(index.rows, hash, rest)
      ensures id == index.rows[old(current.value)].id
    {
      hide Matching, IsChain;
      ChainStep(index.next, current, rest);
      MatchingStep(index.rows, hash, rest);
      id := index.rows[current.value].id;
      current, rest := index.next[current.value], rest[1..];
    }
  }

  /** The loop that uses an iteration: as long as there is a next entry, take its row. */
  method Drain(it: HashIndexIteration) returns (ids: seq<nat>, ghost es: seq<nat>)
    requires it.Valid()
    modifies it
    ensures es == Matching(it.index.rows, it.hash, old(it.rest)) && YieldedBy(it.index.rows, es, ids)
  {
    hide Matching, IsChain, BucketsOk, And, HashIndexIteration.Valid, YieldedBy;
    ids, es := [], [];
    YieldNone(it.index.rows);
    var more := it.HasNext();
    while more
      invariant it.Valid()
      invariant Matching(it.index.rows, it.hash, old(it.rest)) == es + Matching(it.index.rows, it.hash, it.rest)
      invariant YieldedBy(it.index.rows, es, ids)
      invariant more <==> Matching(it.index.rows, it.hash, it.rest) != []
      invariant more ==>
        && it.current.Some? && it.current.value < |it.index.rows|
        && it.index.rows[it.current.value].hash == it.hash
      decreases |Matching(it.index.rows, it.hash, it.rest)|
    {
      ghost var e := it.current.value;
      ghost var before := Matching(it.index.rows, it.hash, it.rest);
      var id := it.Consume();
      YieldOne(it.index.rows, es, ids, e, id);
      assert es + before == es + [e] + Matching(it.index.rows, it.hash, it.rest);
      ids, es := ids + [id], es + [e];
      more := it.HasNext();
    }
  }

  /**
    A whole iteration yields exactly the rows with the hash looked for, each entry once.
    The error stands for the read through the null bucket array, which the source does
    not guard.
  */
  method LookupRows(index: LingoDBHashIndex, h: Hash) returns (r: Result<seq<nat>>, ghost es: seq<nat>)
    requires index.Valid()
    ensures r.Err? <==> index.ht.None?
    ensures r.Ok? ==> multiset(r.value) == IdsWith(index.rows, h)
    ensures r.Ok? ==> YieldedBy(index.rows, es, r.value) && Lists(index.rows, h, es)
  {
    hide Matching, IsChain, BucketsOk, And, Lists, YieldedBy;
    if index.ht.None? {
      return Err("no bucket array"), [];
    }
    var it := new HashIndexIteration(index, h);
    ChainHolds(index, h, it.rest);
    var ids;
    ids, es := Drain(it);
    EachOnce(index.rows, h, es, ids);
    r := Ok(ids);
  }

  /** A row that was inserted is found: a lookup of its hash yields its id. */
  method InsertAndLookup(index: LingoDBHashIndex, startRowId: nat, hashes: seq<Hash>, i: nat)
    returns (r: Result<seq<nat>>)
    requires index.Valid() && |Load(index.View()).buffer| + |hashes| <= WORD / 2 && i < |hashes|
    modifies index, index.file
    ensures r.Ok? && startRowId + i in r.value
  {
    hide Insert, Load, Flush, IdsWith, YieldedBy, Lists, LingoDBHashIndex.Valid, LingoDBHashIndex.View;
    ghost var n := |index.rows|;
    var inserted := index.BulkInsertRows(startRowId, hashes);
    ghost var es;
    r, es := LookupRows(index, hashes[i]);
    assert index.rows[n + i].hash == hashes[i] && index.rows[n + i].id == startRowId + i;
    RowListed(index.rows, hashes[i], n + i);
    assert startRowId + i in multiset(r.value);
  }

  lemma {:induction false} RowListed(rows: seq<Row>, h: Hash, e: nat)
    requires e < |rows| && rows[e].hash == h
    ensures rows[e].id in IdsWith(rows, h)
  {
    if e == |rows| - 1 {
    } else {
      RowListed(rows[..|rows| - 1], h, e);
    }
  }

  /** The ids of all rows with a hash. */
  ghost function IdsWith(rows: seq<Row>, h: Hash): multiset<nat>
  {
    if rows == [] then multiset{}
    else
      var before, last := IdsWith(rows[..|rows| - 1], h), rows[|rows| - 1];
      if last.hash == h then before + multiset{last.id} else before
  }

  /** Exactly the entries with the hash, each once. */
  ghost predicate Lists(rows: seq<Row>, h: Hash, es: seq<nat>)
  {
    NoDup(es) && forall e: nat :: e in es <==> e < |rows| && rows[e].hash == h
  }

  /** Visiting every entry with the hash once yields all ids, each as often as it is indexed. */
  lemma {:induction false} EachOnce(rows: seq<Row>, h: Hash, es: seq<nat>, ids: seq<nat>)
    requires YieldedBy(rows, es, ids) && Lists(rows, h, es)
    ensures multiset(ids) == IdsWith(rows, h)
    decreases |rows|
  {
    hide YieldedBy, Lists;
    if rows == [] {
      NoneListed(h, es);
      assert |ids| == |es| by { YieldedAll(rows, es, ids); }
    } else if rows[|rows| - 1].hash == h {
      var k := LastListed(rows, h, es, ids);
      EachOnce(rows[..|rows| - 1], h, es[..k] + es[k + 1..], ids[..k] + ids[k + 1..]);
    } else {
      LastNotListed(rows, h, es, ids);
      EachOnce(rows[..|rows| - 1], h, es, ids);
    }
  }

  lemma NoneListed(h: Hash, es: seq<nat>)
    requires Lists([], h, es)
    ensures es == []
  {
    if es != [] {
      HeadIn(es);
      assert false;
    }
  }

  lemma HeadIn(es: seq<nat>)
    requires es != []
    ensures es[0] in es
  {
  }

  lemma LastNotListed(rows: seq<Row>, h: Hash, es: seq<nat>, ids: seq<nat>)
    requires rows != [] && rows[|rows| - 1].hash != h && YieldedBy(rows, es, ids) && Lists(rows, h, es)
    ensures YieldedBy(rows[..|rows| - 1], es, ids) && Lists(rows[..|rows| - 1], h, es)
  {
    assert forall i :: 0 <= i < |es| ==> es[i] in es;
  }

  lemma LastListed(rows: seq<Row>, h: Hash, es: seq<nat>, ids: seq<nat>) returns (k: nat)
    requires rows != [] && rows[|rows| - 1].hash == h && YieldedBy(rows, es, ids) && Lists(rows, h, es)
    ensures k < |es| == |ids|
    ensures YieldedBy(rows[..|rows| - 1], es[..k] + es[k + 1..], ids[..k] + ids[k + 1..])
      && Lists(rows[..|rows| - 1], h, es[..k] + es[k + 1..])
    ensures multiset(ids) == multiset(ids[..k] + ids[k + 1..]) + multiset{rows[|rows| - 1].id}
  {
    assert |rows| - 1 in es;
    k :| 0 <= k < |es| && es[k] == |rows| - 1;
    RemovedIds(ids, k);
    Removed(es, k);
    YieldRemoved(rows, es, ids, k);
  }

  lemma RemovedIds(ids: seq<nat>, k: nat)
    requires k < |ids|
    ensures multiset(ids) == multiset(ids[..k] + ids[k + 1..]) + multiset{ids[k]}
  {
    assert ids == ids[..k] + [ids[k]] + ids[k + 1..];
  }

  lemma YieldRemoved(rows: seq<Row>, es: seq<nat>, ids: seq<nat>, k: nat)
    requires k < |es| && rows != [] && es[k] == |rows| - 1 && NoDup(es) && YieldedBy(rows, es, ids)
    ensures YieldedBy(rows[..|rows| - 1], es[..k] + es[k + 1..], ids[..k] + ids[k + 1..])
  {
    var es', ids' := es[..k] + es[k + 1..], ids[..k] + ids[k + 1..];
    forall i | 0 <= i < |es'|
      ensures es'[i] < |rows| - 1 && ids'[i] == rows[es'[i]].id
    {
      var j := if i < k then i else i + 1;
      assert es'[i] == es[j] && ids'[i] == ids[j];
    }
  }

  lemma Removed(es: seq<nat>, k: nat)
    requires k < |es| && NoDup(es)
    ensures var es' := es[..k] + es[k + 1..]; NoDup(es') && forall e :: e in es' <==> e in es && e != es[k]
  {
    var es' := es[..k] + es[k + 1..];
    forall e | e in es && e != es[k]
      ensures e in es'
    {
      var i :| 0 <= i < |es| && es[i] == e;
      assert es'[if i < k then i else i - 1] == e;
    }
  }

  ghost predicate YieldedBy(rows: seq<Row>, es: seq<nat>, ids: seq<nat>)
  {
    |ids| == |es| && forall i :: 0 <= i < |es| ==> es[i] < |rows| && ids[i] == rows[es[i]].id
  }

  lemma YieldedAll(rows: seq<Row>, es: seq<nat>, ids: seq<nat>)
    requires YieldedBy(rows, es, ids)
    ensures |ids| == |es|
  {
  }

  lemma YieldNone(rows: seq<Row>)
    ensures YieldedBy(rows, [], [])
  {
  }

  lemma YieldOne(rows: seq<Row>, es: seq<nat>, ids: seq<nat>, e: nat, id: nat)
    requires YieldedBy(rows, es, ids) && e < |rows| && id == rows[e].id
    ensures YieldedBy(rows, es + [e], ids + [id])
  {
  }

  lemma ChainHolds(index: LingoDBHashIndex, h: Hash, chain: seq<nat>)
    requires index.Valid() && index.ht.Some? && And(h, index.mask) < |index.chains|
      && chain == index.chains[And(h, index.mask)]
    requires forall i :: 0 <= i < |chain| ==> chain[i] < |index.rows|
    ensures Lists(index.rows, h, Matching(index.rows, h, chain))
  {
    var p := And(h, index.mask);
    assert BucketOk(index.ht.value[p], p, index.mask, index.next, index.rows, |index.rows|, index.chains[p]);
    ChainAcyclic(index.next, index.ht.value[p], chain);
    MatchingMembers(index.rows, h, chain);
    MatchingDistinct(index.rows, h, chain);
  }
}
