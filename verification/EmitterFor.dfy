/**
  scf.for in the emitter: the names and statements it is printed with, and what one
  turn of the printed loop does to the store.
*/
module EmitterFor {
  import opened Basics
  import opened EmitterModel
  import opened EmitterNames
  import opened EmitterSemantics
  import opened EmitterSteps
  import opened EmitterStores

  /** The names and statements an emitted scf.for is made of. */
  datatype ForParts = ForParts(ns0: Names, ns1: Names, ns2: Names, work: Stmts, ns3: Names)

  ghost predicate ForNames(f: Op, ns: Names, l: ForParts)
    requires f.For?
  {
    && l.ns0 == NameAll(ns, f.results) && l.ns1 == NameAll(l.ns0, f.iterArgs) && l.ns2 == NameOne(l.ns1, f.iv)
    && Unnamed(ns, f.results) && NoDup(f.results) && |f.inits| == |f.iterArgs| == |f.results| && Named(l.ns0, f.inits)
    && Grown(ns, l.ns0, Set(f.results)) && Grown(l.ns0, l.ns1, Set(f.iterArgs)) && Grown(l.ns1, l.ns2, {f.iv})
    && Grown(l.ns2, l.ns3, OpsDefs(f.body.ops))
    && Named(l.ns0, f.results) && Named(l.ns1, f.iterArgs) && Named(l.ns1, f.inits)
    && Named(l.ns2, [f.iv, f.lower, f.upper, f.step])
    && EmitYielding(f.body, Lookup(l.ns1, f.iterArgs), l.ns2) == Emitted(l.work, l.ns3)
  }

  ghost function ForLoop(f: Op, l: ForParts): Stmt
    requires f.For? && Named(l.ns2, [f.iv, f.lower, f.upper, f.step])
  {
    var m := l.ns2.mapper;
    NamedFour(l.ns2, f.iv, f.lower, f.upper, f.step);
    ForTo(m[f.iv], m[f.lower], m[f.upper], m[f.step], l.work)
  }

  /** What an emitted scf.for has passed. */
  lemma ForChecks(f: Op, ns: Names, ns0: Names, ns1: Names, ns2: Names) returns (e: Emission)
    requires f.For? && EmitOp(f, ns).Emitted?
    requires ns0 == NameAll(ns, f.results) && ns1 == NameAll(ns0, f.iterArgs) && ns2 == NameOne(ns1, f.iv)
    ensures Unnamed(ns, f.results) && NoDup(f.results) && |f.inits| == |f.iterArgs| == |ResultNames(f, ns0)|
    ensures Named(ns0, f.inits) && Named(ns1, f.inits) && Named(ns1, f.iterArgs)
    ensures Named(ns2, [f.iv, f.lower, f.upper, f.step])
    ensures e == EmitYielding(f.body, Lookup(ns1, f.iterArgs), ns2) && e.Emitted?
    ensures EmitOp(f, ns) == Emitted(
      Then(Declare(ResultNames(f, ns0)), Then(DeclareCopies(Lookup(ns1, f.iterArgs), Lookup(ns1, f.inits)),
        Then(ForLoop(f, ForParts(ns0, ns1, ns2, e.stmts, e.names)),
          Then(Copies(ResultNames(f, ns0), Lookup(ns1, f.iterArgs)), End)))), e.names)
  {
    hide NameAll, NameOne, EmitYielding, Unnamed, NoDup, Lookup, ResultNames;
    e := EmitYielding(f.body, Lookup(ns1, f.iterArgs), ns2);
  }

  lemma ForLayout(f: Op, ns: Names) returns (l: ForParts)
    requires f.For? && NamesOk(ns) && EmitOp(f, ns).Emitted?
    ensures ForNames(f, ns, l)
    ensures EmitOp(f, ns) == Emitted(
      Then(Declare(Lookup(l.ns0, f.results)), Then(DeclareCopies(Lookup(l.ns1, f.iterArgs), Lookup(l.ns1, f.inits)),
        Then(ForLoop(f, l), Then(Copies(Lookup(l.ns0, f.results), Lookup(l.ns1, f.iterArgs)), End)))), l.ns3)
  {
    hide EmitOp, Grown, NamesOk, NameAll, NameOne, EmitYielding, Lookup, Unnamed, NoDup, OpsDefs, Set, Named, ForLoop;
    var ns0 := NameAll(ns, f.results);
    NameAllGrows(ns, f.results);
    GrownNew(ns, ns0, Set(f.results));
    var ns1 := NameAll(ns0, f.iterArgs);
    NameAllGrows(ns0, f.iterArgs);
    GrownNew(ns0, ns1, Set(f.iterArgs));
    var ns2 := NameOne(ns1, f.iv);
    NameOneGrows(ns1, f.iv);
    GrownNew(ns1, ns2, {f.iv});
    NamedSet(ns0, f.results);
    var e := ForChecks(f, ns, ns0, ns1, ns2);
    YieldingGrows(f.body, Lookup(ns1, f.iterArgs), ns2);
    l := ForParts(ns0, ns1, ns2, e.stmts, e.names);
  }

  lemma NamedSet(ns: Names, vs: seq<Value>)
    requires Set(vs) <= ns.mapper.Keys
    ensures Named(ns, vs)
  {
    assert forall v :: v in vs ==> v in Set(vs);
  }

  ghost predicate ForScopes(f: Op, scope: set<Value>)
    requires f.For?
  {
    && NoDup(f.results) && NoDup(f.iterArgs) && |f.inits| == |f.iterArgs| == |f.results|
    && Set(f.results) !! scope + Set(f.iterArgs) + {f.iv} + OpsDefs(f.body.ops)
    && Set(f.iterArgs) !! scope + {f.iv} + OpsDefs(f.body.ops) && f.iv !in scope && f.iv !in f.iterArgs
    && f.iv !in OpsDefs(f.body.ops)
    && OpsDefs(f.body.ops) !! scope && Set(f.inits) <= scope && f.lower in scope && f.upper in scope && f.step in scope
    && UniqueOps(f.body.ops) && ScopedRegion(f.body, scope + {f.iv} + Set(f.iterArgs), |f.iterArgs|)
    && SafeOps(f.body.ops)
    && SafeCopies(f.iterArgs, f.body.yielded)
  }

  lemma ForScoped(f: Op, ns: Names, scope: set<Value>)
    requires f.For? && scope <= ns.mapper.Keys && OpDefs(f) !! ns.mapper.Keys
    requires UniqueOp(f) && ScopedOp(f, scope) && SafeOp(f)
    ensures ForScopes(f, scope)
  {
    assert f.iv in {f.iv};
    assert {f.lower, f.upper, f.step} <= scope;
  }

  ghost predicate ForReady(f: Op, scope: set<Value>, ns: Names, l: ForParts)
  {
    && f.For? && NamesOk(ns) && ForNames(f, ns, l) && ForScopes(f, scope)
    && scope <= ns.mapper.Keys && OpDefs(f) !! ns.mapper.Keys
  }

  lemma NamedFour(ns: Names, a: Value, b: Value, c: Value, d: Value)
    requires Named(ns, [a, b, c, d])
    ensures a in ns.mapper && b in ns.mapper && c in ns.mapper && d in ns.mapper
  {
    var vs := [a, b, c, d];
    assert vs[0] in vs && vs[1] in vs && vs[2] in vs && vs[3] in vs;
  }

  lemma ForDefs(f: Op)
    requires f.For?
    ensures OpDefs(f) == Set(f.results) + Set(f.iterArgs) + {f.iv} + OpsDefs(f.body.ops)
  {
    hide Set, OpsDefs;
  }

  lemma ForChain(f: Op, scope: set<Value>, ns: Names, l: ForParts)
    requires ForReady(f, scope, ns, l)
    ensures NamesOk(l.ns0) && NamesOk(l.ns1) && NamesOk(l.ns2) && NamesOk(l.ns3)
    ensures Extends(ns, l.ns0) && Extends(l.ns0, l.ns1) && Extends(l.ns1, l.ns2) && Extends(l.ns2, l.ns3)
    ensures Extends(ns, l.ns1) && Extends(ns, l.ns2) && Extends(l.ns1, l.ns3)
    ensures l.ns2.mapper.Keys == ns.mapper.Keys + Set(f.results) + Set(f.iterArgs) + {f.iv}
    ensures f.iv in l.ns2.mapper && f.lower in l.ns2.mapper && f.upper in l.ns2.mapper && f.step in l.ns2.mapper
    ensures f.iv !in ns.mapper && OpsDefs(f.body.ops) !! l.ns2.mapper.Keys
  {
    hide Grown, Extends, NamesOk, EmitYielding, UniqueOps, ScopedRegion, SafeOps, SafeCopies, NameAll, Named, NoDup,
      OpDefs, OpsDefs, Set;
    ForDefs(f);
    GrownNew(ns, l.ns0, Set(f.results));
    GrownNew(l.ns0, l.ns1, Set(f.iterArgs));
    GrownNew(l.ns1, l.ns2, {f.iv});
    GrownNew(l.ns2, l.ns3, OpsDefs(f.body.ops));
    NamedFour(l.ns2, f.iv, f.lower, f.upper, f.step);
    ExtendsTwice(ns, l.ns0, l.ns1);
    ExtendsTwice(ns, l.ns1, l.ns2);
    ExtendsTwice(l.ns1, l.ns2, l.ns3);
  }

  /** The environment the body starts in. */
  ghost function ForEnv<D>(f: Op, env: map<nat, D>, i: D, ds: seq<D>): map<nat, D>
    requires f.For? && |ds| == |f.iterArgs|
  {
    Bind(env, f.iterArgs, ds)[f.iv := i]
  }

  lemma ForEnvAt<D>(f: Op, env: map<nat, D>, i: D, ds: seq<D>)
    requires f.For? && |ds| == |f.iterArgs| && ForScopes(f, env.Keys)
    ensures var e := ForEnv(f, env, i, ds);
      && e.Keys == env.Keys + Set(f.iterArgs) + {f.iv} && e[f.iv] == i && Keep(env, e) && Keep(env[f.iv := i], e)
      && e == Bind(env[f.iv := i], f.iterArgs, ds)
  {
    hide ScopedRegion, UniqueOps, SafeOps, SafeCopies;
    BindAt(env, f.iterArgs, ds);
    BindOther(env, f.iterArgs, ds, f.iv, i);
  }

  lemma {:induction false} BindOther<D>(env: map<nat, D>, xs: seq<nat>, ds: seq<D>, x: nat, d: D)
    requires |xs| == |ds| && x !in xs
    ensures Bind(env, xs, ds)[x := d] == Bind(env[x := d], xs, ds)
  {
    if xs == [] {
    } else {
      BindOther(env, xs[..|xs| - 1], ds[..|ds| - 1], x, d);
    }
  }

  /** The state at the head of the printed loop. */
  ghost predicate ForHead<D>(f: Op, env: map<nat, D>, i: D, ds: seq<D>, store: map<nat, D>, store0: map<nat, D>,
      ns: Names, l: ForParts)
  {
    && ForReady(f, env.Keys, ns, l) && |ds| == |f.iterArgs|
    && Rel(ForEnv(f, env, i, ds), store, l.ns2) && Bound(store, Lookup(l.ns0, f.results))
    && Keep(store0, store) && (forall x :: x in store0 ==> x <= ns.count)
  }

  /** The loop variables of the printed loop have the values the operation uses. */
  lemma ForBounds<D>(f: Op, env: map<nat, D>, i: D, ds: seq<D>, store: map<nat, D>, store0: map<nat, D>, ns: Names,
      l: ForParts)
    requires ForHead(f, env, i, ds, store, store0, ns, l)
    ensures f.iv in l.ns2.mapper && f.upper in l.ns2.mapper && f.step in l.ns2.mapper && f.upper in env && f.step in env
    ensures var m := l.ns2.mapper;
      && m[f.iv] in store && m[f.upper] in store && m[f.step] in store
      && store[m[f.iv]] == i && store[m[f.upper]] == env[f.upper] && store[m[f.step]] == env[f.step]
  {
    hide Rel, NamesOk, Extends, Grown, Bind, EmitYielding, ForEnv;
    ForChain(f, env.Keys, ns, l);
    ForEnvAt(f, env, i, ds);
    var e := ForEnv(f, env, i, ds);
    RelAt(e, store, l.ns2, f.iv);
    RelAt(e, store, l.ns2, f.upper);
    RelAt(e, store, l.ns2, f.step);
  }

  /** The end of an iteration: the copies, leaving the block and the increment lead back to the head. */
  lemma ForAgain<D>(f: Op, env: map<nat, D>, env1: map<nat, D>, i: D, i': D, ds: seq<D>, vals: seq<D>,
      store: map<nat, D>, store0: map<nat, D>, store4: map<nat, D>, ns: Names, l: ForParts)
    requires ForHead(f, env, i, ds, store, store0, ns, l) && |vals| == |f.iterArgs|
    requires Rel(env1, store4, l.ns3) && Keep(ForEnv(f, env, i, ds), env1) && Keep(store, store4)
    ensures f.iv in l.ns2.mapper
    ensures var store5 := Leave(Bind(store4, Lookup(l.ns1, f.iterArgs), vals), store.Keys);
      ForHead(f, env, i, vals, store5, store0, ns, l)
        && ForHead(f, env, i', vals, store5[l.ns2.mapper[f.iv] := i'], store0, ns, l)
  {
    hide Rel, NamesOk, Extends, Grown, Bind, EmitYielding, ForEnv, Leave, ForScopes;
    ForChain(f, env.Keys, ns, l);
    var I := Lookup(l.ns1, f.iterArgs);
    var store5 := Leave(Bind(store4, I, vals), store.Keys);
    assert Rel(ForEnv(f, env, i, vals), store5, l.ns2) by {
      LookupExtended(l.ns1, l.ns3, f.iterArgs);
      ForEnvAt(f, env, i, ds);
      ForEnvAt(f, env, i, vals);
      KeepTwice(env[f.iv := i], ForEnv(f, env, i, ds), env1);
      SubRel(env[f.iv := i], env1, store4, l.ns3);
      ForNoDup(f, env.Keys);
      BindRel(env[f.iv := i], store4, l.ns3, f.iterArgs, vals);
      LeaveRel(ForEnv(f, env, i, vals), Bind(store4, I, vals), l.ns3, ForEnv(f, env, i, ds), store, l.ns2);
    }
    assert Keep(store0, store5) && Bound(store5, Lookup(l.ns0, f.results)) by {
      BindAt(store4, I, vals);
      LeaveKeys(Bind(store4, I, vals), store);
      KeepTwice(store0, store, store4);
      ForNewNames(f, env.Keys, ns, l, store0);
      BindKeeps(store0, store4, I, vals);
      LeaveKeeps(store0, Bind(store4, I, vals), store.Keys);
    }
    ForBump(f, env, i, i', vals, store5, store0, ns, l);
  }

  lemma ForNoDup(f: Op, scope: set<Value>)
    requires f.For? && ForScopes(f, scope)
    ensures NoDup(f.iterArgs)
  {
  }

  lemma ForNewNames<D>(f: Op, scope: set<Value>, ns: Names, l: ForParts, store0: map<nat, D>)
    requires ForReady(f, scope, ns, l) && Extends(ns, l.ns1) && Extends(ns, l.ns2) && f.iv !in ns.mapper
      && f.iv in l.ns2.mapper
    requires forall x :: x in store0 ==> x <= ns.count
    ensures Set(Lookup(l.ns1, f.iterArgs)) !! store0.Keys && l.ns2.mapper[f.iv] !in store0
  {
    hide Grown, EmitYielding;
    NewNames(ns, l.ns1, f.iterArgs, store0);
  }

  /** The increment. */
  lemma ForBump<D>(f: Op, env: map<nat, D>, i: D, i': D, ds: seq<D>, store: map<nat, D>, store0: map<nat, D>,
      ns: Names, l: ForParts)
    requires ForHead(f, env, i, ds, store, store0, ns, l) && f.iv in l.ns2.mapper
    ensures ForHead(f, env, i', ds, store[l.ns2.mapper[f.iv] := i'], store0, ns, l)
  {
    hide Rel, NamesOk, Extends, Grown, EmitYielding, ForScopes, ForNames, OpDefs, NameAll;
    ForChain(f, env.Keys, ns, l);
    var x := l.ns2.mapper[f.iv];
    var e := ForEnv(f, env, i, ds);
    BindOneRel(e, store, l.ns2, f.iv, i');
    assert e[f.iv := i'] == ForEnv(f, env, i', ds);
    ForNewNames(f, env.Keys, ns, l, store0);
  }

  /** The loop ends with the values that become the results in its iteration arguments. */
  ghost predicate ForEnds<D, M>(f: Op, env: map<nat, D>, run: Outcome<D, M>, exec: Outcome<D, M>, i: D, vals: seq<D>,
      store1: map<nat, D>, store0: map<nat, D>, ns: Names, l: ForParts)
    requires f.For?
  {
    match run
    case Done(env', mem) =>
      && |vals| == |f.iterArgs| == |f.results| && env' == Bind(env, f.results, vals)
      && exec == Done(store1, mem) && ForHead(f, env, i, vals, store1, store0, ns, l)
    case Stuck => exec == Stuck
    case Timeout => exec == Timeout
    case Broke(_, _) => false
  }

  ghost function ForRun<D, M>(mc: Machine<D, M>, f: Op, l: ForParts, store: map<nat, D>, mem: M,
      fuel: nat): Outcome<D, M>
    requires f.For? && f.iv in l.ns2.mapper && f.upper in l.ns2.mapper && f.step in l.ns2.mapper
  {
    ExecFor(mc, l.ns2.mapper[f.iv], l.ns2.mapper[f.upper], l.ns2.mapper[f.step], l.work, store, mem, fuel)
  }

  lemma ForNoFuel<D, M>(mc: Machine<D, M>, f: Op, env: map<nat, D>, i: D, ds: seq<D>, l: ForParts, store: map<nat, D>,
      mem: M)
    requires f.For? && Bound(env, [f.lower, f.upper, f.step]) && f.iv in l.ns2.mapper && f.upper in l.ns2.mapper
      && f.step in l.ns2.mapper
    ensures RunFor(mc, f, env, i, ds, mem, 0) == Timeout && ForRun(mc, f, l, store, mem, 0) == Timeout
  {
  }

  ghost function ForGoRound<D, M>(mc: Machine<D, M>, f: Op, env: map<nat, D>, i: D, o: Outcome<D, M>,
      fuel: nat): Outcome<D, M>
    requires f.For? && Bound(env, [f.lower, f.upper, f.step])
  {
    match o
    case Done(env', mem') =>
      assert f.step in [f.lower, f.upper, f.step];
      if Bound(env', f.body.yielded) then
        RunFor(mc, f, env, mc.add(i, env[f.step]), Read(env', f.body.yielded), mem', fuel)
      else Stuck
    case other => other
  }

  ghost function ForGoOn<D, M>(mc: Machine<D, M>, f: Op, l: ForParts, o: Outcome<D, M>, fuel: nat): Outcome<D, M>
    requires f.For? && f.iv in l.ns2.mapper && f.upper in l.ns2.mapper && f.step in l.ns2.mapper
  {
    var x, y := l.ns2.mapper[f.iv], l.ns2.mapper[f.step];
    match o
    case Done(store, mem) =>
      if x in store && y in store then ForRun(mc, f, l, store[x := mc.add(store[x], store[y])], mem, fuel) else Stuck
    case Broke(store, mem) => Done(store, mem)
    case other => other
  }

  lemma RunForStep<D, M>(mc: Machine<D, M>, f: Op, env: map<nat, D>, i: D, ds: seq<D>, mem: M, fuel: nat)
    requires f.For? && Bound(env, [f.lower, f.upper, f.step]) && f.upper in env && fuel > 0 && |ds| == |f.iterArgs|
    ensures RunFor(mc, f, env, i, ds, mem, fuel) ==
      if !mc.less(i, env[f.upper]) then Define(env, f.results, ds, mem)
      else ForGoRound(mc, f, env, i, RunOps(mc, f.body.ops, ForEnv(f, env, i, ds), mem, fuel - 1), fuel - 1)
  {
  }

  lemma ExecForStep<D, M>(mc: Machine<D, M>, f: Op, l: ForParts, store: map<nat, D>, mem: M, fuel: nat)
    requires f.For? && f.iv in l.ns2.mapper && f.upper in l.ns2.mapper && f.step in l.ns2.mapper && fuel > 0
    requires var m := l.ns2.mapper; m[f.iv] in store && m[f.upper] in store && m[f.step] in store
    ensures ForRun(mc, f, l, store, mem, fuel) ==
      if !mc.less(store[l.ns2.mapper[f.iv]], store[l.ns2.mapper[f.upper]]) then Done(store, mem)
      else ForGoOn(mc, f, l, LeaveBlock(ExecAll(mc, l.work, store, mem, fuel - 1), store.Keys), fuel - 1)
  {
    var x, y := l.ns2.mapper[f.iv], l.ns2.mapper[f.step];
    var o := LeaveBlock(ExecAll(mc, l.work, store, mem, fuel - 1), store.Keys);
    assert o.Done? ==> (Bound(o.env, [x, y]) <==> x in o.env && y in o.env);
  }

  /** The store before the loop: results declared, iteration arguments initialised. */
  ghost function ForStart<D, M>(mc: Machine<D, M>, f: Op, env: map<nat, D>, store: map<nat, D>,
      l: ForParts): map<nat, D>
    requires f.For? && Named(l.ns0, f.results) && Named(l.ns1, f.iterArgs) && Bound(env, f.inits)
      && |f.inits| == |f.iterArgs|
  {
    Bind(Bind(store, Lookup(l.ns0, f.results), Blank(mc, |f.results|)), Lookup(l.ns1, f.iterArgs), Read(env, f.inits))
  }

  lemma ForEntry<D, M>(mc: Machine<D, M>, f: Op, env: map<nat, D>, store: map<nat, D>, mem: M, ns: Names, l: ForParts,
      rest: Stmts, fuel: nat)
    requires ForReady(f, env.Keys, ns, l) && Rel(env, store, ns)
    ensures Bound(env, f.inits)
    ensures var store1 := ForStart(mc, f, env, store, l);
      var copies := DeclareCopies(Lookup(l.ns1, f.iterArgs), Lookup(l.ns1, f.inits));
      && Rel(Bind(env, f.iterArgs, Read(env, f.inits)), store1, l.ns1) && Bound(store1, Lookup(l.ns0, f.results))
      && Keep(store, store1)
      && ExecAll(mc, Then(Declare(Lookup(l.ns0, f.results)), Then(copies, rest)), store, mem, fuel) ==
        ExecAll(mc, rest, store1, mem, fuel)
  {
    hide Rel, NamesOk, Extends, Grown, Bind, CopyInTurn, EmitYielding, ExecAll, Exec, NameAll, SafeCopies, UniqueOps,
      ScopedRegion, SafeOps, OpsDefs;
    RelNames(env, store, ns);
    ForChain(f, env.Keys, ns, l);
    DeclareResults(mc, f.results, env, store, ns);
    assert forall v :: v in f.inits ==> v in Set(f.inits);
    var R, I := Lookup(l.ns0, f.results), Lookup(l.ns1, f.iterArgs);
    var store0 := Bind(store, R, Blank(mc, |f.results|));
    var vals := Read(env, f.inits);
    ExtendRel(env, store0, l.ns0, l.ns1);
    OutsideSafe(f.iterArgs, f.inits, env.Keys);
    CopyOut(env, store0, l.ns1, f.iterArgs, f.inits);
    BindRel(env, store0, l.ns1, f.iterArgs, vals);
    BindAt(store0, I, vals);
    NewNames(ns, l.ns1, f.iterArgs, store);
    BindKeeps(store, store0, I, vals);
    EntrySteps(mc, R, I, Lookup(l.ns1, f.inits), vals, store, store0, mem, rest, fuel);
  }

  /** Initialising the induction variable leads to the head of the loop. */
  lemma ForHeadStart<D>(f: Op, env: map<nat, D>, ds: seq<D>, store1: map<nat, D>, store: map<nat, D>, ns: Names,
      l: ForParts)
    requires ForReady(f, env.Keys, ns, l) && |ds| == |f.iterArgs| && Rel(Bind(env, f.iterArgs, ds), store1, l.ns1)
    requires Bound(store1, Lookup(l.ns0, f.results)) && Keep(store, store1) && forall x :: x in store ==> x <= ns.count
    ensures f.lower in env && f.lower in l.ns2.mapper && l.ns2.mapper[f.lower] in store1
      && store1[l.ns2.mapper[f.lower]] == env[f.lower]
    ensures f.iv in l.ns2.mapper
      && ForHead(f, env, env[f.lower], ds, store1[l.ns2.mapper[f.iv] := env[f.lower]], store, ns, l)
  {
    hide Rel, NamesOk, Extends, Grown, EmitYielding, Bind, UniqueOps, ScopedRegion, SafeOps, SafeCopies, OpDefs,
      NameAll;
    ForChain(f, env.Keys, ns, l);
    BindAt(env, f.iterArgs, ds);
    var e := Bind(env, f.iterArgs, ds);
    ExtendRel(e, store1, l.ns1, l.ns2);
    RelAt(e, store1, l.ns2, f.lower);
    var x, d := l.ns2.mapper[f.iv], env[f.lower];
    BindOneRel(e, store1, l.ns2, f.iv, d);
    ForNewNames(f, env.Keys, ns, l, store);
  }

  lemma BindOneRel<D>(env: map<nat, D>, store: map<nat, D>, ns: Names, v: Value, d: D)
    requires Rel(env, store, ns) && v in ns.mapper
    ensures Rel(env[v := d], store[ns.mapper[v] := d], ns)
  {
    hide Rel;
    BindRel(env, store, ns, [v], [d]);
    assert Bind(env, [v], [d]) == env[v := d];
    assert Lookup(ns, [v]) == [ns.mapper[v]] && Bind(store, [ns.mapper[v]], [d]) == store[ns.mapper[v] := d];
  }

  /** After the loop: the induction variable is gone and the results take the iteration arguments' values. */
  lemma ForExit<D>(f: Op, env: map<nat, D>, i: D, ds: seq<D>, vals: seq<D>, store: map<nat, D>, store1: map<nat, D>,
      store3: map<nat, D>, ns: Names, l: ForParts)
    requires ForHead(f, env, i, vals, store3, store, ns, l) && |ds| == |f.iterArgs|
      && Rel(Bind(env, f.iterArgs, ds), store1, l.ns1)
    requires Bound(store1, Lookup(l.ns0, f.results)) && Keep(store, store1)
    ensures var R, out := Lookup(l.ns0, f.results), Leave(store3, store1.Keys);
      && Bound(out, R) && |R| == |vals| && CopyInTurn(out, R, Lookup(l.ns1, f.iterArgs)) == Some(Bind(out, R, vals))
      && Rel(Bind(env, f.results, vals), Bind(out, R, vals), l.ns3) && Keep(store, Bind(out, R, vals))
  {
    hide Rel, NamesOk, Extends, Grown, Bind, CopyInTurn, EmitYielding, ForEnv, SafeCopies;
    ForChain(f, env.Keys, ns, l);
    var R, out, e := Lookup(l.ns0, f.results), Leave(store3, store1.Keys), Bind(env, f.iterArgs, vals);
    ForEnvAt(f, env, i, vals);
    BindAt(env, f.iterArgs, vals);
    BindAt(env, f.iterArgs, ds);
    assert Rel(e, out, l.ns1) by {
      ForDropsVariable(f, env, i, vals);
      SubRel(e, ForEnv(f, env, i, vals), store3, l.ns2);
      LeaveRel(e, store3, l.ns2, Bind(env, f.iterArgs, ds), store1, l.ns1);
    }
    LookupExtended(l.ns0, l.ns1, f.results);
    OutsideSafe(f.results, f.iterArgs, e.Keys);
    CopyOut(e, out, l.ns1, f.results, f.iterArgs);
    assert Read(e, f.iterArgs) == vals;
    SubRel(env, e, out, l.ns1);
    BindRel(env, out, l.ns1, f.results, vals);
    ExtendRel(Bind(env, f.results, vals), Bind(out, R, vals), l.ns1, l.ns3);
    LeaveKeeps(store, store3, store1.Keys);
    NewNames(ns, l.ns1, f.results, store);
    BindKeeps(store, out, R, vals);
  }

  lemma ForDropsVariable<D>(f: Op, env: map<nat, D>, i: D, ds: seq<D>)
    requires f.For? && |ds| == |f.iterArgs| && ForScopes(f, env.Keys)
    ensures Keep(Bind(env, f.iterArgs, ds), ForEnv(f, env, i, ds))
  {
    BindAt(env, f.iterArgs, ds);
  }

  lemma ForOpRuns<D, M>(mc: Machine<D, M>, f: Op, env: map<nat, D>, mem: M, fuel: nat)
    requires f.For? && Bound(env, [f.lower, f.upper, f.step]) && Bound(env, f.inits) && f.lower in env
    ensures RunOp(mc, f, env, mem, fuel) == RunFor(mc, f, env, env[f.lower], Read(env, f.inits), mem, fuel)
  {
    assert Bound(env, [f.lower, f.upper, f.step] + f.inits);
  }

  /** The copies behind the loop. */
  ghost function ForLast(f: Op, l: ForParts): Stmt
    requires f.For? && Named(l.ns0, f.results) && Named(l.ns1, f.iterArgs)
  {
    Copies(Lookup(l.ns0, f.results), Lookup(l.ns1, f.iterArgs))
  }

  ghost function ForTail(f: Op, l: ForParts): Stmts
    requires f.For? && Named(l.ns0, f.results) && Named(l.ns1, f.iterArgs)
      && Named(l.ns2, [f.iv, f.lower, f.upper, f.step])
  {
    Then(ForLoop(f, l), Then(ForLast(f, l), End))
  }

  lemma ForTailRuns<D, M>(mc: Machine<D, M>, f: Op, l: ForParts, store1: map<nat, D>, store2: map<nat, D>, mem: M,
      fuel: nat)
    requires f.For? && Named(l.ns0, f.results) && Named(l.ns1, f.iterArgs)
      && Named(l.ns2, [f.iv, f.lower, f.upper, f.step])
    requires f.iv in l.ns2.mapper && f.lower in l.ns2.mapper && f.upper in l.ns2.mapper && f.step in l.ns2.mapper
    requires var m := l.ns2.mapper; m[f.lower] in store1 && store2 == store1[m[f.iv] := store1[m[f.lower]]]
    ensures var o := LeaveBlock(ForRun(mc, f, l, store2, mem, fuel), store1.Keys);
      ExecAll(mc, ForTail(f, l), store1, mem, fuel) ==
      if o.Done? then Exec(mc, ForLast(f, l), o.env, o.mem, fuel) else o
  {
    hide ExecAll, ExecFor, Lookup, Named;
    var o := LeaveBlock(ForRun(mc, f, l, store2, mem, fuel), store1.Keys);
    OneStep(mc, ForTail(f, l), store1, mem, fuel);
    if o.Done? {
      LastStep(mc, ForLast(f, l), o.env, o.mem, fuel);
    }
  }

  /** The loop has ended as ForEnds says: what is left of the printed statements does what the operation does. */
  lemma SimForExit<D, M>(mc: Machine<D, M>, f: Op, env: map<nat, D>, run: Outcome<D, M>, i: D, ds: seq<D>,
      vals: seq<D>, store: map<nat, D>, store1: map<nat, D>, store2: map<nat, D>, store3: map<nat, D>, mem: M,
      ns: Names, l: ForParts, fuel: nat)
    requires ForReady(f, env.Keys, ns, l) && |ds| == |f.iterArgs| && Rel(Bind(env, f.iterArgs, ds), store1, l.ns1)
    requires Bound(store1, Lookup(l.ns0, f.results)) && Keep(store, store1)
    requires f.iv in l.ns2.mapper && f.lower in l.ns2.mapper && f.upper in l.ns2.mapper && f.step in l.ns2.mapper
    requires var m := l.ns2.mapper; m[f.lower] in store1 && store2 == store1[m[f.iv] := store1[m[f.lower]]]
    requires ForEnds(f, env, run, ForRun(mc, f, l, store2, mem, fuel), i, vals, store3, store, ns, l)
    ensures Simulates(run, ExecAll(mc, ForTail(f, l), store1, mem, fuel), store, l.ns3)
  {
    hide Rel, NamesOk, Extends, Grown, Bind, Leave, EmitYielding, ExecAll, ExecFor, ForRun, ForScopes, OpDefs, NameAll,
      NameOne, ForHead, ForTail, CopyInTurn;
    ForTailRuns(mc, f, l, store1, store2, mem, fuel);
    if run.Done? {
      ForExit(f, env, i, ds, vals, store, store1, store3, ns, l);
    }
  }

  /** From the beginning of the printed statements to the head of the loop. */
  lemma SimForEntry<D, M>(mc: Machine<D, M>, f: Op, env: map<nat, D>, store: map<nat, D>, mem: M, ns: Names,
      l: ForParts, fuel: nat)
    returns (store1: map<nat, D>, store2: map<nat, D>)
    requires ForReady(f, env.Keys, ns, l) && Rel(env, store, ns)
    ensures Bound(env, f.inits) && Bound(env, [f.lower, f.upper, f.step]) && f.lower in env
    ensures f.iv in l.ns2.mapper && f.lower in l.ns2.mapper && f.upper in l.ns2.mapper && f.step in l.ns2.mapper
    ensures var m := l.ns2.mapper; m[f.lower] in store1 && store2 == store1[m[f.iv] := store1[m[f.lower]]]
    ensures |f.inits| == |f.iterArgs| && Rel(Bind(env, f.iterArgs, Read(env, f.inits)), store1, l.ns1)
    ensures Bound(store1, Lookup(l.ns0, f.results)) && Keep(store, store1)
    ensures ForHead(f, env, env[f.lower], Read(env, f.inits), store2, store, ns, l)
    ensures var copies := DeclareCopies(Lookup(l.ns1, f.iterArgs), Lookup(l.ns1, f.inits));
      ExecAll(mc, Then(Declare(Lookup(l.ns0, f.results)), Then(copies, ForTail(f, l))), store, mem, fuel) ==
      ExecAll(mc, ForTail(f, l), store1, mem, fuel)
  {
    hide Rel, NamesOk, Extends, Grown, Bind, EmitYielding, ExecAll, ForStart, ForTail, OpDefs, NameAll, NameOne,
      ForHead;
    RelNames(env, store, ns);
    ForChain(f, env.Keys, ns, l);
    ForEntry(mc, f, env, store, mem, ns, l, ForTail(f, l), fuel);
    store1 := ForStart(mc, f, env, store, l);
    ForHeadStart(f, env, Read(env, f.inits), store1, store, ns, l);
    store2 := store1[l.ns2.mapper[f.iv] := env[f.lower]];
  }

  lemma ForReadyFrom<D>(f: Op, env: map<nat, D>, store: map<nat, D>, ns: Names) returns (l: ForParts)
    requires f.For? && Rel(env, store, ns) && OpDefs(f) !! ns.mapper.Keys
    requires UniqueOp(f) && ScopedOp(f, env.Keys) && SafeOp(f) && EmitOp(f, ns).Emitted?
    ensures ForReady(f, env.Keys, ns, l)
    ensures var copies := DeclareCopies(Lookup(l.ns1, f.iterArgs), Lookup(l.ns1, f.inits));
      EmitOp(f, ns) == Emitted(Then(Declare(Lookup(l.ns0, f.results)), Then(copies, ForTail(f, l))), l.ns3)
  {
    hide Rel, NamesOk, EmitOp, UniqueOp, ScopedOp, SafeOp, OpDefs, Grown, EmitYielding, NameAll, NameOne, ForScopes;
    RelNames(env, store, ns);
    l := ForLayout(f, ns);
    ForScoped(f, ns, env.Keys);
  }
}
