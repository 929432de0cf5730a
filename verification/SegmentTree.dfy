/**
  The segment tree over window states (src/runtime/SegmentTreeView.cpp): nodes and
  states are bump-allocated in post order, inner states combine their children.

  `zero` stands for zeroed storage and `result` for the caller's result buffer.
*/
module SegmentTree {
  import opened Basics
  import opened Bits

  datatype Node = Node(leftMin: nat, rightMax: nat, left: Option<nat>, right: Option<nat>, state: nat)

  function Mid(from: nat, to: nat): (m: nat)
    requires from <= to
    ensures from <= m <= to && (from < to ==> m < to)
  {
    from + (to - from) / 2
  }

  // ----- The reference: a fold from left to right -----

  ghost function Fold<S>(combine: (S, S) -> S, leaves: seq<S>, from: nat, to: nat): S
    requires from <= to < |leaves|
  {
    if from == to then leaves[from] else combine(Fold(combine, leaves, from, to - 1), leaves[to])
  }

  ghost predicate Associative<S(!new)>(combine: (S, S) -> S)
  {
    forall x, y, z :: combine(combine(x, y), z) == combine(x, combine(y, z))
  }

  lemma {:induction false} FoldSplits<S(!new)>(combine: (S, S) -> S, leaves: seq<S>, from: nat, mid: nat, to: nat)
    requires Associative(combine) && from <= mid < to < |leaves|
    ensures Fold(combine, leaves, from, to) ==
      combine(Fold(combine, leaves, from, mid), Fold(combine, leaves, mid + 1, to))
  {
    if mid + 1 >= to {
    } else {
      FoldSplits(combine, leaves, from, mid, to - 1);
    }
  }

  // ----- Trees in storage -----

  /** Node `r` is the root of a tree for the elements `from` to `to`, children stored before parents. */
  ghost predicate IsTree<S>(combine: (S, S) -> S, leaves: seq<S>, nodes: seq<Node>, states: seq<S>, r: nat, from: nat,
      to: nat)
    requires from <= to < |leaves|
    decreases r
  {
    && r < |nodes| && r < |states| && nodes[r].leftMin == from && nodes[r].rightMax == to && nodes[r].state == r
    && if from == to then nodes[r].left == None && nodes[r].right == None && states[r] == leaves[from]
       else
         && nodes[r].left.Some? && nodes[r].right.Some? && nodes[r].left.value < r && nodes[r].right.value < r
         && IsTree(combine, leaves, nodes, states, nodes[r].left.value, from, Mid(from, to))
         && IsTree(combine, leaves, nodes, states, nodes[r].right.value, Mid(from, to) + 1, to)
         && states[r] == combine(states[nodes[r].left.value], states[nodes[r].right.value])
  }

  ghost predicate SamePrefix<T>(s: seq<T>, s': seq<T>, n: nat)
  {
    n <= |s| == |s'| && s[..n] == s'[..n]
  }

  lemma PrefixTwice<T>(s: seq<T>, s': seq<T>, s'': seq<T>, n: nat, n': nat)
    requires n <= n' && SamePrefix(s, s', n) && SamePrefix(s', s'', n')
    ensures SamePrefix(s, s'', n)
  {
    assert s'[..n] == s'[..n'][..n] && s''[..n] == s''[..n'][..n];
  }

  lemma PrefixShorter<T>(s: seq<T>, s': seq<T>, n: nat, n': nat)
    requires n <= n' && SamePrefix(s, s', n')
    ensures SamePrefix(s, s', n)
  {
    assert s[..n] == s[..n'][..n] && s'[..n] == s'[..n'][..n];
  }

  lemma PrefixAt<T>(s: seq<T>, s': seq<T>, i: nat)
    requires SamePrefix(s, s', i + 1)
    ensures i < |s| == |s'| && s[i] == s'[i]
  {
    assert s[i] == s[..i + 1][i] && s'[i] == s'[..i + 1][i];
  }

  lemma PrefixStore<T>(s: seq<T>, i: nat, x: T, n: nat)
    requires n <= i < |s|
    ensures SamePrefix(s, s[i := x], n)
  {
  }

  lemma KeptTwice<T>(s0: seq<T>, s1: seq<T>, s2: seq<T>, n: nat, m: nat, r: nat, x: T)
    requires n <= m <= r < |s2| && SamePrefix(s0, s1, n) && SamePrefix(s1, s2, m)
    ensures SamePrefix(s0, s2[r := x], n)
  {
    PrefixTwice(s0, s1, s2, n, m);
    PrefixStore(s2, r, x, n);
    PrefixTwice(s0, s2, s2[r := x], n, n);
  }

  /** A tree does not depend on what is stored after its root. */
  lemma {:induction false} TreeFrame<S>(combine: (S, S) -> S, leaves: seq<S>, nodes: seq<Node>, states: seq<S>,
      nodes': seq<Node>, states': seq<S>, r: nat, from: nat, to: nat)
    requires from <= to < |leaves| && IsTree(combine, leaves, nodes, states, r, from, to)
    requires SamePrefix(nodes, nodes', r + 1) && SamePrefix(states, states', r + 1)
    ensures IsTree(combine, leaves, nodes', states', r, from, to)
    decreases r
  {
    hide SamePrefix;
    PrefixAt(nodes, nodes', r);
    PrefixAt(states, states', r);
    if from >= to {
    } else {
      var a, b := nodes[r].left.value, nodes[r].right.value;
      PrefixShorter(nodes, nodes', a + 1, r + 1); PrefixShorter(states, states', a + 1, r + 1);
      PrefixShorter(nodes, nodes', b + 1, r + 1); PrefixShorter(states, states', b + 1, r + 1);
      PrefixAt(states, states', a);
      PrefixAt(states, states', b);
      TreeFrame(combine, leaves, nodes, states, nodes', states', a, from, Mid(from, to));
      TreeFrame(combine, leaves, nodes, states, nodes', states', b, Mid(from, to) + 1, to);
    }
  }

  lemma LeafIsTree<S>(combine: (S, S) -> S, leaves: seq<S>, nodes: seq<Node>, states: seq<S>, r: nat, i: nat)
    requires i < |leaves| && r < |nodes| && r < |states| && nodes[r] == Node(i, i, None, None, r)
      && states[r] == leaves[i]
    ensures IsTree(combine, leaves, nodes, states, r, i, i)
  {
  }

  lemma TreeRoot<S>(combine: (S, S) -> S, leaves: seq<S>, nodes: seq<Node>, states: seq<S>, r: nat, from: nat, to: nat)
    requires from <= to < |leaves| && IsTree(combine, leaves, nodes, states, r, from, to)
    ensures r < |nodes| && r < |states| && nodes[r].state == r
  {
  }

  /** Two trees side by side and a new root behind them. */
  lemma JoinTrees<S>(combine: (S, S) -> S, leaves: seq<S>, nodes: seq<Node>, states: seq<S>, nodes': seq<Node>,
      states': seq<S>, left: nat, right: nat, r: nat, from: nat, to: nat)
    requires from < to < |leaves| && left < right < r < |nodes| == |nodes'| && r < |states| == |states'|
    requires IsTree(combine, leaves, nodes, states, left, from, Mid(from, to))
      && IsTree(combine, leaves, nodes, states, right, Mid(from, to) + 1, to)
    requires nodes' == nodes[r := Node(from, to, Some(left), Some(right), r)]
      && states' == states[r := combine(states[left], states[right])]
    ensures IsTree(combine, leaves, nodes', states', r, from, to)
  {
    TreeRoot(combine, leaves, nodes, states, left, from, Mid(from, to));
    TreeRoot(combine, leaves, nodes, states, right, Mid(from, to) + 1, to);
    TreeFrame(combine, leaves, nodes, states, nodes', states', left, from, Mid(from, to));
    TreeFrame(combine, leaves, nodes, states, nodes', states', right, Mid(from, to) + 1, to);
  }

  /** For an associative combine, the state of a node is the fold over its elements. */
  lemma {:induction false} TreeStateIsFold<S(!new)>(combine: (S, S) -> S, leaves: seq<S>, nodes: seq<Node>,
      states: seq<S>, r: nat, from: nat, to: nat)
    requires Associative(combine) && from <= to < |leaves| && IsTree(combine, leaves, nodes, states, r, from, to)
    ensures states[r] == Fold(combine, leaves, from, to)
    decreases r
  {
    if from >= to {
    } else {
      TreeStateIsFold(combine, leaves, nodes, states, nodes[r].left.value, from, Mid(from, to));
      TreeStateIsFold(combine, leaves, nodes, states, nodes[r].right.value, Mid(from, to) + 1, to);
      FoldSplits(combine, leaves, from, Mid(from, to), to);
    }
  }

  // ----- How many states a lookup reads -----

  /** The number of nodes a lookup of [from, to] takes from the subtree for [l, r]. */
  ghost function Cover(l: nat, r: nat, from: nat, to: nat): nat
    requires l <= r && from <= to
    decreases r - l
  {
    if from <= l && r <= to then 1
    else if from <= r && l <= to then
      if l == r then 0 else Cover(l, Mid(l, r), from, to) + Cover(Mid(l, r) + 1, r, from, to)
    else 0
  }

  /** Levels below the root of a tree with `n` leaves. */
  ghost function Height(n: nat): nat
  {
    if n <= 1 then 0 else 1 + Height((n + 1) / 2)
  }

  /** The height is the logarithm of the number of leaves, rounded up. */
  lemma {:induction false} HeightIsLog(n: nat)
    requires n >= 1
    ensures n <= Pow2(Height(n)) && (n >= 2 ==> Pow2(Height(n) - 1) < n)
  {
    if n < 2 {
    } else {
      HeightIsLog((n + 1) / 2);
    }
  }

  lemma {:induction false} HeightMono(m: nat, n: nat)
    requires m <= n
    ensures Height(m) <= Height(n)
    decreases n
  {
    if n < 2 || m < 2 {
    } else {
      HeightMono((m + 1) / 2, (n + 1) / 2);
    }
  }

  lemma ChildHeights(l: nat, r: nat)
    requires l < r
    ensures Height(Mid(l, r) - l + 1) == Height(r - l + 1) - 1 && Height(r - Mid(l, r)) <= Height(r - l + 1) - 1
  {
    HeightMono(r - Mid(l, r), Mid(l, r) - l + 1);
  }

  /** A lookup that reaches the left end but not the right one takes at most one node per level. */
  lemma {:induction false} PrefixCover(l: nat, r: nat, from: nat, to: nat)
    requires l <= r && from <= to && from <= l && to < r
    ensures Cover(l, r, from, to) <= Height(r - l + 1)
    decreases r - l
  {
    if to < l {
    } else {
      ChildHeights(l, r);
      var m := Mid(l, r);
      if to < m {
        PrefixCover(l, m, from, to);
      } else if m + 1 <= to {
        PrefixCover(m + 1, r, from, to);
      }
    }
  }

  lemma {:induction false} SuffixCover(l: nat, r: nat, from: nat, to: nat)
    requires l <= r && from <= to && l < from && r <= to
    ensures Cover(l, r, from, to) <= Height(r - l + 1)
    decreases r - l
  {
    if r < from {
    } else {
      ChildHeights(l, r);
      var m := Mid(l, r);
      if from <= m {
        SuffixCover(l, m, from, to);
      } else if m + 1 < from {
        SuffixCover(m + 1, r, from, to);
      }
    }
  }

  ghost function LookupBound(n: nat): nat
  {
    if Height(n) <= 1 then 1 else 2 * (Height(n) - 1)
  }

  lemma {:induction false} InnerCover(l: nat, r: nat, from: nat, to: nat)
    requires l <= r && from <= to && l < from && to < r
    ensures Cover(l, r, from, to) <= LookupBound(r - l + 1)
    decreases r - l
  {
    hide Height, Cover;
    ChildHeights(l, r);
    CoverSplits(l, r, from, to);
    var m := Mid(l, r);
    if to < m {
      InnerCover(l, m, from, to);
      CoverOutside(m + 1, r, from, to);
    } else if from <= m {
      SuffixCover(l, m, from, to);
      PrefixCover(m + 1, r, from, to);
    } else {
      CoverOutside(l, m, from, to);
      if m + 1 < from {
        InnerCover(m + 1, r, from, to);
      } else {
        PrefixCover(m + 1, r, from, to);
      }
    }
  }

  lemma CoverSplits(l: nat, r: nat, from: nat, to: nat)
    requires l < r && from <= to && l < from && to < r
    ensures Cover(l, r, from, to) == Cover(l, Mid(l, r), from, to) + Cover(Mid(l, r) + 1, r, from, to)
  {
  }

  lemma CoverOutside(l: nat, r: nat, from: nat, to: nat)
    requires l <= r && from <= to && (to < l || r < from)
    ensures Cover(l, r, from, to) == 0
  {
  }

  /** No lookup takes more than max(1, 2 (ceil(log2 n) - 1)) nodes of a tree with n leaves. */
  lemma CoverBounded(l: nat, r: nat, from: nat, to: nat)
    requires l <= r && from <= to
    ensures Cover(l, r, from, to) <= LookupBound(r - l + 1)
  {
    if !(from <= l && r <= to) {
      if from <= l {
        PrefixCover(l, r, from, to);
      } else if r <= to {
        SuffixCover(l, r, from, to);
      } else {
        InnerCover(l, r, from, to);
      }
    }
  }

  // ----- The view -----

  /** The nodes of a tree over `n` leaves. */
  function NodesNeeded(n: nat): nat
  {
    if n == 0 then 0 else 2 * n - 1
  }

  /** `numElements * 2 - 1` in 64 bits. */
  function NumEntries(n: nat): nat
  {
    (2 * n + WORD - 1) % WORD
  }

  /** The bytes asked for; a node has five words. */
  function NodeBytes(n: nat): nat
  {
    NumEntries(n) * 40 % WORD
  }

  /**
    Room for exactly the nodes of the tree, except for an empty input, which asks for nearly all
    of the address space.
  */
  lemma NodeBytesExact(n: nat)
    requires 80 * n <= WORD
    ensures NumEntries(n) == NodesNeeded(n) <==> n > 0
    ensures NodeBytes(n) == if n > 0 then 40 * NodesNeeded(n) else WORD - 40
  {
    if n > 0 {
      assert 2 * n + WORD - 1 == WORD + NodesNeeded(n);
    }
  }

  class SegmentTreeView<E, S(!new)> {
    const createInitialState: E -> S
    const combineStates: (S, S) -> S
    const numEntries: nat
    const storage: array<Node>
    const stateStorage: array<S>
    var storageCntr: nat
    var stateCntr: nat
    var root: Option<nat>
    ghost const leaves: seq<S>

    ghost predicate Allocating()
      reads this
    {
      && storageCntr == stateCntr <= storage.Length
      && storage.Length == stateStorage.Length == NodesNeeded(|leaves|) <= numEntries
      && storage as object != stateStorage as object
    }

    ghost predicate Valid()
      reads this, storage, stateStorage
    {
      && Allocating()
      && (root == None <==> leaves == [])
      && (root.Some? ==>
           && storageCntr == 2 * |leaves| - 1
           && IsTree(combineStates, leaves, storage[..], stateStorage[..], root.value, 0, |leaves| - 1))
    }

    /** build; the node count of an empty input wraps around, and the model then stores no nodes. */
    constructor (entries: seq<E>, init: E -> S, combine: (S, S) -> S, zero: S)
      requires |entries| <= WORD / 2
      ensures Valid() && combineStates == combine
        && leaves == seq(|entries|, i requires 0 <= i < |entries| => init(entries[i]))
      ensures numEntries == NumEntries(|entries|) && storageCntr == stateCntr == NodesNeeded(|entries|)
    {
      createInitialState, combineStates := init, combine;
      leaves := seq(|entries|, i requires 0 <= i < |entries| => init(entries[i]));
      numEntries := NumEntries(|entries|);
      var n := NodesNeeded(|entries|);
      storage := new Node[n](_ => Node(0, 0, None, None, 0));
      stateStorage := new S[n](_ => zero);
      storageCntr, stateCntr, root := 0, 0, None;
      new;
      if entries != [] {
        var r := BuildRecursively(entries, 0, |entries| - 1);
        root := Some(r);
      }
    }

    method Allocate() returns (i: nat)
      requires storageCntr < numEntries
      modifies `storageCntr
      ensures i == old(storageCntr) && storageCntr == old(storageCntr) + 1
    {
      i := storageCntr;
      storageCntr := storageCntr + 1;
    }

    method AllocateState() returns (i: nat)
      requires stateCntr < numEntries
      modifies `stateCntr
      ensures i == old(stateCntr) && stateCntr == old(stateCntr) + 1
    {
      i := stateCntr;
      stateCntr := stateCntr + 1;
    }

    /** A node and its state go into the next free places, which have the same number. */
    method StoreNode(from: nat, to: nat, left: Option<nat>, right: Option<nat>, state: S) returns (r: nat)
      requires Allocating() && storageCntr < storage.Length
      modifies this`storageCntr, this`stateCntr, storage, stateStorage
      ensures Allocating() && r == old(storageCntr) && storageCntr == r + 1
      ensures storage[..] == old(storage[..])[r := Node(from, to, left, right, r)]
      ensures stateStorage[..] == old(stateStorage[..])[r := state]
    {
      r := Allocate();
      var s := AllocateState();
      storage[r] := Node(from, to, left, right, s);
      stateStorage[s] := state;
    }

    /** Builds the subtree for `from` to `to`, both inclusive, behind what is stored already. */
    method BuildRecursively(entries: seq<E>, from: nat, to: nat) returns (r: nat)
      requires Allocating() && from <= to < |entries| && storageCntr + 2 * (to - from) + 1 <= storage.Length
      requires leaves == seq(|entries|, i requires 0 <= i < |entries| => createInitialState(entries[i]))
      modifies this`storageCntr, this`stateCntr, storage, stateStorage
      ensures Allocating() && storageCntr == old(storageCntr) + 2 * (to - from) + 1 && r == storageCntr - 1
      ensures SamePrefix(old(storage[..]), storage[..], old(storageCntr))
      ensures SamePrefix(old(stateStorage[..]), stateStorage[..], old(storageCntr))
      ensures IsTree(combineStates, leaves, storage[..], stateStorage[..], r, from, to)
      decreases (to - from)
    {
      hide IsTree, Fold, SamePrefix, Mid;
      ghost var n, nodes0, states0 := storageCntr, storage[..], stateStorage[..];
      if from == to {
        r := StoreNode(from, to, None, None, createInitialState(entries[from]));
        LeafIsTree(combineStates, leaves, storage[..], stateStorage[..], r, from);
        PrefixStore(nodes0, r, storage[r], n);
        PrefixStore(states0, r, stateStorage[r], n);
      } else {
        var mid := Mid(from, to);
        var left := BuildRecursively(entries, from, mid);
        ghost var nodes1, states1 := storage[..], stateStorage[..];
        var right := BuildRecursively(entries, mid + 1, to);
        ghost var nodes2, states2 := storage[..], stateStorage[..];
        TreeFrame(combineStates, leaves, nodes1, states1, nodes2, states2, left, from, mid);
        TreeRoot(combineStates, leaves, nodes2, states2, left, from, mid);
        TreeRoot(combineStates, leaves, nodes2, states2, right, mid + 1, to);
        var state := combineStates(stateStorage[storage[left].state], stateStorage[storage[right].state]);
        r := StoreNode(from, to, Some(left), Some(right), state);
        JoinTrees(combineStates, leaves, nodes2, states2, storage[..], stateStorage[..], left, right, r, from, to);
        KeptTwice(nodes0, nodes1, nodes2, n, left + 1, r, storage[r]);
        KeptTwice(states0, states1, states2, n, left + 1, r, stateStorage[r]);
      }
    }

    /** Errors for an empty tree or an inverted range; otherwise the result buffer after combining all nodes taken. */
    method Lookup(result: S, from: nat, to: nat) returns (r: Result<S>, used: nat)
      requires Valid() && Associative(combineStates)
      ensures r.Err? <==> from > to || leaves == []
      ensures r.Ok? ==> r.value == if from >= |leaves| then result
        else Fold(combineStates, leaves, from, if to < |leaves| then to else |leaves| - 1)
      ensures used <= LookupBound(|leaves|)
    {
      hide IsTree, Fold, Associative, Cover;
      if from > to {
        return Err("from must be <= to"), 0;
      }
      if root == None {
        return Err("can not perform lookup on empty segment tree"), 0;
      }
      var value, first;
      value, first, used := LookupRecursively(root.value, result, from, to, true, 0, |leaves| - 1);
      CoverBounded(0, |leaves| - 1, from, to);
      r := Ok(value);
    }

    /** What the visit of a subtree adds to the result: the fold over the part of the range it holds. */
    ghost function Added(result: S, first: bool, l: nat, r: nat, from: nat, to: nat): S
      requires l <= r < |leaves| && from <= to
    {
      var lo, hi := if from < l then l else from, if r < to then r else to;
      if lo > hi then result
      else if first then Fold(combineStates, leaves, lo, hi)
      else combineStates(result, Fold(combineStates, leaves, lo, hi))
    }

    method LookupRecursively(t: nat, result: S, from: nat, to: nat, first: bool, ghost l: nat, ghost r: nat)
      returns (result': S, first': bool, used: nat)
      requires Associative(combineStates) && from <= to && l <= r < |leaves|
      requires IsTree(combineStates, leaves, storage[..], stateStorage[..], t, l, r)
      ensures result' == Added(result, first, l, r, from, to) && (first' <==> first && (r < from || to < l))
      ensures used == Cover(l, r, from, to)
      decreases t
    {
      hide Fold, Associative;
      result', first', used := result, first, 0;
      var node := storage[t];
      assert node == storage[..][t];
      if from <= node.leftMin && to >= node.rightMax {
        TreeStateIsFold(combineStates, leaves, storage[..], stateStorage[..], t, l, r);
        assert stateStorage[..][t] == stateStorage[t];
        result' := if first then stateStorage[node.state] else combineStates(result, stateStorage[node.state]);
        first', used := false, 1;
      } else if from <= node.rightMax && to >= node.leftMin {
        var a, b;
        result', first', a := LookupRecursively(node.left.value, result, from, to, first, l, Mid(l, r));
        result', first', b := LookupRecursively(node.right.value, result', from, to, first', Mid(l, r) + 1, r);
        used := a + b;
        AddedTwice(result, first, l, Mid(l, r), r, from, to);
      }
    }

    /** Visiting both children adds what visiting their parent adds. */
    lemma AddedTwice(result: S, first: bool, l: nat, m: nat, r: nat, from: nat, to: nat)
      requires Associative(combineStates) && l <= m < r < |leaves| && from <= to
      ensures Added(Added(result, first, l, m, from, to), first && (m < from || to < l), m + 1, r, from, to) ==
        Added(result, first, l, r, from, to)
    {
      var lo, hi := if from < l then l else from, if r < to then r else to;
      if lo <= m && m + 1 <= hi {
        FoldSplits(combineStates, leaves, lo, m, hi);
      }
    }
  }
}
