/**
  Environments and stores: simultaneous and one-by-one copies, and when a C store
  represents an SSA environment under the emitter's names.
*/
module EmitterStores {
  import opened Basics
  import opened EmitterModel
  import opened EmitterNames
  import opened EmitterSemantics

  lemma SetStep(xs: seq<nat>)
    requires xs != []
    ensures var n := |xs| - 1; Set(xs) == Set(xs[..n]) + {xs[n]} && forall x :: x in xs <==> x in xs[..n] || x == xs[n]
  {
    var n := |xs| - 1;
    assert xs == xs[..n] + [xs[n]];
  }

  lemma {:induction false} BindAt<D>(env: map<nat, D>, xs: seq<nat>, ds: seq<D>)
    requires |xs| == |ds|
    ensures Bind(env, xs, ds).Keys == env.Keys + Set(xs)
    ensures forall x :: x in env && x !in xs ==> Bind(env, xs, ds)[x] == env[x]
    ensures NoDup(xs) ==> forall i :: 0 <= i < |xs| ==> Bind(env, xs, ds)[xs[i]] == ds[i]
  {
    if xs == [] {
    } else {
      var n := |xs| - 1;
      BindAt(env, xs[..n], ds[..n]);
      BindLast(env, xs, ds, Bind(env, xs[..n], ds[..n]));
    }
  }

  lemma BindLast<D>(env: map<nat, D>, xs: seq<nat>, ds: seq<D>, env0: map<nat, D>)
    requires |xs| == |ds| > 0 && env0.Keys == env.Keys + Set(xs[..|xs| - 1])
    requires forall x :: x in env && x !in xs[..|xs| - 1] ==> env0[x] == env[x]
    requires NoDup(xs[..|xs| - 1]) ==> forall i :: 0 <= i < |xs| - 1 ==> env0[xs[i]] == ds[i]
    ensures var env' := env0[xs[|xs| - 1] := ds[|xs| - 1]];
      && env'.Keys == env.Keys + Set(xs)
      && (forall x :: x in env && x !in xs ==> env'[x] == env[x])
      && (NoDup(xs) ==> forall i :: 0 <= i < |xs| ==> env'[xs[i]] == ds[i])
  {
    var n := |xs| - 1;
    var us := xs[..n];
    SetStep(xs);
    if NoDup(xs) {
      assert forall i :: 0 <= i < n ==> us[i] == xs[i] != xs[n];
    }
  }

  // ----- Copies -----

  /** Copying in turn is copying at once when every copy reads a variable that still has its old value. */
  lemma {:induction false} SafeCopiesAtOnce<D>(env: map<nat, D>, xs: seq<nat>, ys: seq<nat>)
    requires |xs| == |ys| && NoDup(xs) && Bound(env, ys) && SafeCopies(xs, ys)
    ensures CopyInTurn(env, xs, ys) == Some(Bind(env, xs, Read(env, ys)))
  {
    if xs == [] {
    } else {
      var n := |xs| - 1;
      var ds := Read(env, ys);
      SafeCopiesAtOnce(env, xs[..n], ys[..n]);
      assert Read(env, ys[..n]) == ds[..n];
      LastReadsOld(env, xs, ys, n);
    }
  }

  /** The operand copied last still has its old value. */
  lemma LastReadsOld<D>(env: map<nat, D>, xs: seq<nat>, ys: seq<nat>, n: nat)
    requires |xs| == |ys| == n + 1 && NoDup(xs) && Bound(env, ys) && SafeCopies(xs, ys)
    ensures var copied := Bind(env, xs[..n], Read(env, ys)[..n]); ys[n] in copied && copied[ys[n]] == env[ys[n]]
  {
    hide Bind;
    var us, ds := xs[..n], Read(env, ys)[..n];
    BindAt(env, us, ds);
    if ys[n] in us {
      var j :| 0 <= j < n && us[j] == ys[n];
      assert ys[j] == xs[j] == us[j];
    }
  }

  /** A store in which every variable holds its own name. */
  ghost function Distinct(vs: set<nat>): map<nat, nat>
  {
    map v | v in vs :: v
  }

  /**
    The exact condition: copying in turn agrees with copying at once on every store if and only
    if the copies are safe.
  */
  lemma CopiesAgreeExactlyWhenSafe(xs: seq<nat>, ys: seq<nat>)
    requires |xs| == |ys| && NoDup(xs)
    ensures SafeCopies(xs, ys) <==>
      forall env: map<nat, nat> :: Bound(env, ys) ==> CopyInTurn(env, xs, ys) == Some(Bind(env, xs, Read(env, ys)))
  {
    if SafeCopies(xs, ys) {
      forall env: map<nat, nat> | Bound(env, ys)
        ensures CopyInTurn(env, xs, ys) == Some(Bind(env, xs, Read(env, ys)))
      {
        SafeCopiesAtOnce(env, xs, ys);
      }
    } else {
      var env := Distinct(Set(xs) + Set(ys));
      var i := UnsafeCopiesDiffer(env, xs, ys);
      BindAt(env, xs, Read(env, ys));
    }
  }

  /** Some target ends up with a value other than the one its operand had. */
  lemma {:induction false} UnsafeCopiesDiffer(env: map<nat, nat>, xs: seq<nat>, ys: seq<nat>) returns (i: nat)
    requires |xs| == |ys| && NoDup(xs) && !SafeCopies(xs, ys)
    requires Bound(env, ys) && forall v :: v in env ==> env[v] == v
    ensures i < |xs| && CopyInTurn(env, xs, ys).Some?
    ensures var env' := CopyInTurn(env, xs, ys).value; xs[i] in env' && env'[xs[i]] != env[ys[i]]
  {
    var n := |xs| - 1;
    CopyReaches(env, xs[..n], ys[..n]);
    if SafeCopies(xs[..n], ys[..n]) {
      var j, k :| 0 <= j < k < |xs| && k < |ys| && ys[k] == xs[j] && ys[j] != xs[j];
      LastIsUnsafe(xs, ys, j, k);
      i := n;
      OverwrittenOperand(env, xs[..n], ys[..n], j);
    } else {
      i := UnsafeCopiesDiffer(env, xs[..n], ys[..n]);
    }
  }

  lemma OverwrittenOperand(env: map<nat, nat>, xs: seq<nat>, ys: seq<nat>, j: nat)
    requires |xs| == |ys| && NoDup(xs) && SafeCopies(xs, ys) && j < |xs|
    requires Bound(env, ys) && forall v :: v in env ==> env[v] == v
    ensures var copied := CopyInTurn(env, xs, ys); copied.Some? && xs[j] in copied.value && copied.value[xs[j]] == ys[j]
  {
    SafeCopiesAtOnce(env, xs, ys);
    BindAt(env, xs, Read(env, ys));
  }

  lemma LastIsUnsafe(xs: seq<nat>, ys: seq<nat>, j: nat, k: nat)
    requires 0 <= j < k < |xs| == |ys| && ys[k] == xs[j] && ys[j] != xs[j]
    requires SafeCopies(xs[..|xs| - 1], ys[..|xs| - 1])
    ensures k == |xs| - 1
  {
  }

  lemma {:induction false} CopyReaches(env: map<nat, nat>, xs: seq<nat>, ys: seq<nat>)
    requires |xs| == |ys| && Bound(env, ys)
    ensures CopyInTurn(env, xs, ys).Some? && CopyInTurn(env, xs, ys).value.Keys == env.Keys + Set(xs)
  {
    if xs == [] {
    } else {
      CopyReaches(env, xs[..|xs| - 1], ys[..|xs| - 1]);
    }
  }

  // ----- A store represents an environment -----

  ghost predicate Rel<D>(env: map<nat, D>, store: map<nat, D>, ns: Names)
  {
    && NamesOk(ns)
    && (forall v :: v in env ==> v in ns.mapper && ns.mapper[v] in store && store[ns.mapper[v]] == env[v])
    && (forall x :: x in store ==> x <= ns.count)
  }

  ghost predicate Keep<D>(store: map<nat, D>, store': map<nat, D>)
  {
    forall x :: x in store ==> x in store' && store'[x] == store[x]
  }

  lemma LookupNoDup(ns: Names, vs: seq<Value>)
    requires NamesOk(ns) && Named(ns, vs) && NoDup(vs)
    ensures NoDup(Lookup(ns, vs))
  {
  }

  /** Whether copies are safe does not depend on the names. */
  lemma LookupSafe(ns: Names, ns': Names, vs: seq<Value>, us: seq<Value>)
    requires NamesOk(ns') && Extends(ns, ns') && Named(ns, vs) && Named(ns', us) && SafeCopies(vs, us)
    ensures SafeCopies(Lookup(ns, vs), Lookup(ns', us))
  {
    var xs, ys := Lookup(ns, vs), Lookup(ns', us);
    forall j, k | 0 <= j < k < |xs| && k < |ys| && ys[k] == xs[j]
      ensures ys[j] == xs[j]
    {
      assert vs[j] in ns.mapper && us[k] in ns'.mapper;
      assert us[k] == vs[j];
    }
  }

  lemma LookupExtended(ns: Names, ns': Names, vs: seq<Value>)
    requires Extends(ns, ns') && Named(ns, vs)
    ensures Named(ns', vs) && Lookup(ns', vs) == Lookup(ns, vs)
  {
  }

  lemma ReadRel<D>(env: map<nat, D>, store: map<nat, D>, ns: Names, vs: seq<Value>)
    requires Rel(env, store, ns) && Bound(env, vs)
    ensures Named(ns, vs) && Bound(store, Lookup(ns, vs)) && Read(store, Lookup(ns, vs)) == Read(env, vs)
  {
  }

  lemma BindRel<D>(env: map<nat, D>, store: map<nat, D>, ns: Names, vs: seq<Value>, ds: seq<D>)
    requires Rel(env, store, ns) && Named(ns, vs) && NoDup(vs) && |vs| == |ds|
    ensures Rel(Bind(env, vs, ds), Bind(store, Lookup(ns, vs), ds), ns)
  {
    hide Bind, NoDup;
    BindAt(store, Lookup(ns, vs), ds);
    var env', store' := Bind(env, vs, ds), Bind(store, Lookup(ns, vs), ds);
    forall v | v in env'
      ensures v in ns.mapper && ns.mapper[v] in store' && store'[ns.mapper[v]] == env'[v]
    {
      BindRelAt(env, store, ns, vs, ds, v);
    }
  }

  lemma BindRelAt<D>(env: map<nat, D>, store: map<nat, D>, ns: Names, vs: seq<Value>, ds: seq<D>, v: Value)
    requires Rel(env, store, ns) && Named(ns, vs) && NoDup(vs) && |vs| == |ds| && v in Bind(env, vs, ds)
    ensures var store' := Bind(store, Lookup(ns, vs), ds);
      v in ns.mapper && ns.mapper[v] in store' && store'[ns.mapper[v]] == Bind(env, vs, ds)[v]
  {
    hide Bind, NoDup;
    var xs := Lookup(ns, vs);
    LookupNoDup(ns, vs);
    BindAt(env, vs, ds);
    BindAt(store, xs, ds);
    if v in vs {
      var i :| 0 <= i < |vs| && vs[i] == v;
      assert xs[i] == ns.mapper[v];
    } else {
      assert ns.mapper[v] !in xs;
    }
  }

  /** Variables of values that are not visible may hold anything. */
  lemma JunkRel<D>(env: map<nat, D>, store: map<nat, D>, ns: Names, vs: seq<Value>, ds: seq<D>)
    requires Rel(env, store, ns) && Named(ns, vs) && |vs| == |ds| && Set(vs) !! env.Keys
    ensures Rel(env, Bind(store, Lookup(ns, vs), ds), ns)
  {
    hide Bind;
    var xs := Lookup(ns, vs);
    BindAt(store, xs, ds);
    forall v | v in env
      ensures ns.mapper[v] !in xs
    {
      assert v !in Set(vs);
    }
  }

  lemma ExtendRel<D>(env: map<nat, D>, store: map<nat, D>, ns: Names, ns': Names)
    requires Rel(env, store, ns) && NamesOk(ns') && Extends(ns, ns')
    ensures Rel(env, store, ns')
  {
  }

  lemma SubRel<D>(env: map<nat, D>, env': map<nat, D>, store: map<nat, D>, ns: Names)
    requires Rel(env', store, ns) && Keep(env, env')
    ensures Rel(env, store, ns)
  {
  }

  /** Leaving a block keeps what was visible before it. */
  lemma LeaveRel<D>(env: map<nat, D>, store: map<nat, D>, ns: Names, env0: map<nat, D>, outer: map<nat, D>, ns0: Names)
    requires Rel(env, store, ns) && Rel(env0, outer, ns0) && Extends(ns0, ns) && env.Keys <= env0.Keys
    ensures Rel(env, Leave(store, outer.Keys), ns0)
  {
  }

  lemma BindKeeps<D>(store0: map<nat, D>, store: map<nat, D>, xs: seq<nat>, ds: seq<D>)
    requires Keep(store0, store) && |xs| == |ds| && Set(xs) !! store0.Keys
    ensures Keep(store0, Bind(store, xs, ds))
  {
    BindAt(store, xs, ds);
    assert forall x :: x in store0 ==> x !in Set(xs);
  }

  lemma LeaveKeeps<D>(store0: map<nat, D>, store: map<nat, D>, outer: set<nat>)
    requires Keep(store0, store) && store0.Keys <= outer
    ensures Keep(store0, Leave(store, outer))
  {
  }
}
