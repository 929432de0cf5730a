/**
  The printed C computes what the SSA operations compute (src/execution/CEmitter.cpp).
*/
module EmitterProof {
  import opened Basics
  import opened EmitterFor
  import opened EmitterModel
  import opened EmitterNames
  import opened EmitterSemantics
  import opened EmitterSteps
  import opened EmitterStores
  import opened EmitterWhile

  lemma {:induction false} SimOps<D, M>(mc: Machine<D, M>, ops: Ops, env: map<nat, D>, store: map<nat, D>, mem: M,
      ns: Names, fuel: nat)
    requires Rel(env, store, ns) && OpsDefs(ops) !! ns.mapper.Keys
    requires UniqueOps(ops) && ScopedOps(ops, env.Keys) && SafeOps(ops) && EmitOps(ops, ns).Emitted?
    ensures Simulates(RunOps(mc, ops, env, mem, fuel), ExecAll(mc, EmitOps(ops, ns).stmts, store, mem, fuel), store,
      EmitOps(ops, ns).names)
    decreases fuel, ops, 0
  {
    match ops
    case Nil =>
    case Cons(op, rest) =>
      hide Rel, Grown, NamesOk, Simulates, RunOp, ExecAll, EmitOp, UniqueOp, ScopedOp, SafeOp;
      RelNames(env, store, ns);
      var e := EmitOp(op, ns);
      OpGrows(op, ns);
      KeysGrown(ns, e.names, OpDefs(op));
      SimOp(mc, op, env, store, mem, ns, fuel);
      OpDefines(mc, op, env, mem, fuel);
      ExecAppend(mc, e.stmts, EmitOps(rest, e.names).stmts, store, mem, fuel);
      var o, c := RunOp(mc, op, env, mem, fuel), ExecAll(mc, e.stmts, store, mem, fuel);
      SimulatesShape(o, c, store, e.names, EmitOps(ops, ns).names);
      if o.Done? {
        SimOps(mc, rest, o.env, c.env, o.mem, e.names, fuel);
        SimulatesAfter(RunOps(mc, rest, o.env, o.mem, fuel),
          ExecAll(mc, EmitOps(rest, e.names).stmts, c.env, c.mem, fuel),
                       store, c.env, EmitOps(ops, ns).names);
      }
  }

  lemma {:induction false} SimOp<D, M>(mc: Machine<D, M>, op: Op, env: map<nat, D>, store: map<nat, D>, mem: M,
      ns: Names, fuel: nat)
    requires Rel(env, store, ns) && OpDefs(op) !! ns.mapper.Keys
    requires UniqueOp(op) && ScopedOp(op, env.Keys) && SafeOp(op) && EmitOp(op, ns).Emitted?
    ensures Simulates(RunOp(mc, op, env, mem, fuel), ExecAll(mc, EmitOp(op, ns).stmts, store, mem, fuel), store,
      EmitOp(op, ns).names)
    decreases fuel, op, 3
  {
    match op
    case Basic(_, _, _) => SimBasic(mc, op, env, store, mem, ns, fuel);
    case If(_, _, _, _) => SimIf(mc, op, env, store, mem, ns, fuel);
    case While(_, _, _, _, _, _, _, _) => SimWhile(mc, op, env, store, mem, ns, fuel);
    case For(_, _, _, _, _, _, _, _) => SimFor(mc, op, env, store, mem, ns, fuel);
  }

  lemma SimBasic<D, M>(mc: Machine<D, M>, op: Op, env: map<nat, D>, store: map<nat, D>, mem: M, ns: Names, fuel: nat)
    requires op.Basic? && Rel(env, store, ns) && OpDefs(op) !! ns.mapper.Keys
    requires UniqueOp(op) && ScopedOp(op, env.Keys) && EmitOp(op, ns).Emitted?
    ensures Simulates(RunOp(mc, op, env, mem, fuel), ExecAll(mc, EmitOp(op, ns).stmts, store, mem, fuel), store,
      EmitOp(op, ns).names)
  {
    hide Rel, Grown, NamesOk, Bind;
    var rs, ns0 := op.results, NameAll(ns, op.results);
    DeclareResults(mc, rs, env, store, ns);
    var xs := Lookup(ns0, rs);
    var store0 := Bind(store, xs, Blank(mc, |rs|));
    assert forall v :: v in op.args ==> v in Set(op.args);
    ReadRel(env, store0, ns0, op.args);
    var (ds, mem') := mc.call(op.code, Read(env, op.args), mem);
    var call := Call(xs, op.code, Lookup(ns0, op.args));
    DeclareStep(mc, xs, Then(call, End), store, mem, fuel);
    LastStep(mc, call, store0, mem, fuel);
    hide ExecAll;
    if |ds| == |rs| {
      BindRel(env, store0, ns0, rs, ds);
      GrownNew(ns, ns0, Set(rs));
      RelNames(env, store, ns);
      NewNames(ns, ns0, rs, store);
      BindKeeps(store, store0, xs, ds);
    }
  }

  /**
    A region that ends in copies: the run and the execution go the same way, and at the
    end the targets hold what the region yields.
  */
  lemma {:induction false} SimYielding<D, M>(mc: Machine<D, M>, r: Region, tv: seq<Value>, env: map<nat, D>,
      store: map<nat, D>, mem: M, nsT: Names, ns: Names, fuel: nat)
    returns (store1: map<nat, D>)
    requires Rel(env, store, ns) && OpsDefs(r.ops) !! ns.mapper.Keys
    requires UniqueOps(r.ops) && ScopedRegion(r, env.Keys, |tv|) && SafeOps(r.ops)
    requires NamesOk(nsT) && Extends(nsT, ns) && Named(nsT, tv) && NoDup(tv) && Bound(store, Lookup(nsT, tv))
      && SafeCopies(tv, r.yielded)
    requires EmitYielding(r, Lookup(nsT, tv), ns).Emitted?
    ensures Yields(mc, r, RunOps(mc, r.ops, env, mem, fuel),
      ExecAll(mc, EmitYielding(r, Lookup(nsT, tv), ns).stmts, store, mem, fuel),
                   Lookup(nsT, tv), store, store1, EmitYielding(r, Lookup(nsT, tv), ns).names)
    decreases fuel, r, 1
  {
    hide Rel, Grown, NamesOk, RunOps, Bind, CopyInTurn, ExecAll, Extends, SafeCopies, UniqueOps, SafeOps, EmitOps,
      Append;
    RelNames(env, store, ns);
    var xs := Lookup(nsT, tv);
    var e := EmitOps(r.ops, ns);
    SimOps(mc, r.ops, env, store, mem, ns, fuel);
    OpsDefine(mc, r.ops, env, mem, fuel);
    OpsGrow(r.ops, ns);
    GrownNew(ns, e.names, OpsDefs(r.ops));
    var copies := Copies(xs, Lookup(e.names, r.yielded));
    ExecAppend(mc, e.stmts, Then(copies, End), store, mem, fuel);
    var o, c := RunOps(mc, r.ops, env, mem, fuel), ExecAll(mc, e.stmts, store, mem, fuel);
    store1 := store;
    if o.Done? {
      store1 := c.env;
      assert forall v :: v in r.yielded ==> v in Set(r.yielded);
      ExtendsTwice(nsT, ns, e.names);
      YieldCopies(r.yielded, tv, o.env, store1, nsT, e.names);
      LastStep(mc, copies, store1, c.mem, fuel);
    }
  }

  /** The copies at the end of a block assign what it yields. */
  lemma YieldCopies<D>(yielded: seq<Value>, tv: seq<Value>, env: map<nat, D>, store: map<nat, D>, nsT: Names, ns: Names)
    requires Rel(env, store, ns) && Bound(env, yielded) && NamesOk(nsT) && NamesOk(ns) && Extends(nsT, ns)
    requires Named(nsT, tv) && NoDup(tv) && |tv| == |yielded| && SafeCopies(tv, yielded)
    ensures Named(ns, yielded)
    ensures var xs := Lookup(nsT, tv);
      CopyInTurn(store, xs, Lookup(ns, yielded)) == Some(Bind(store, xs, Read(env, yielded)))
  {
    hide Rel, Bind, CopyInTurn, Extends, SafeCopies, NamesOk, NoDup;
    ReadRel(env, store, ns, yielded);
    LookupNoDup(nsT, tv);
    LookupSafe(nsT, ns, tv, yielded);
    SafeCopiesAtOnce(store, Lookup(nsT, tv), Lookup(ns, yielded));
  }

  lemma {:induction false} SimBranch<D, M>(mc: Machine<D, M>, r: Region, rs: seq<Value>, env: map<nat, D>,
      store: map<nat, D>, store0: map<nat, D>, mem: M, ns0: Names, ns1: Names, fuel: nat)
    requires NoDup(rs) && Named(ns0, rs) && Set(rs) !! env.Keys && Set(Lookup(ns0, rs)) !! store.Keys
    requires Rel(env, store0, ns1) && Rel(Bind(env, rs, Blank(mc, |rs|)), store0, ns0) && Keep(store, store0)
      && Bound(store0, Lookup(ns0, rs))
    requires NamesOk(ns0) && Extends(ns0, ns1) && OpsDefs(r.ops) !! ns1.mapper.Keys
    requires UniqueOps(r.ops) && ScopedRegion(r, env.Keys, |rs|) && SafeOps(r.ops)
      && EmitYielding(r, Lookup(ns0, rs), ns1).Emitted?
    ensures Simulates(DefineFrom(env, rs, RunOps(mc, r.ops, env, mem, fuel), r.yielded),
                      LeaveBlock(ExecAll(mc, EmitYielding(r, Lookup(ns0, rs), ns1).stmts, store0, mem, fuel),
                        store0.Keys),
                      store, EmitYielding(r, Lookup(ns0, rs), ns1).names)
    decreases fuel, r, 2
  {
    hide Rel, Grown, NamesOk, Bind, Leave, RunOps, EmitYielding;
    var xs := Lookup(ns0, rs);
    var e := EmitYielding(r, xs, ns1);
    RelNames(env, store0, ns1);
    TopDefsAreDefs(r.ops);
    OutsideSafe(rs, r.yielded, env.Keys + OpsDefs(r.ops));
    var store1 := SimYielding(mc, r, rs, env, store0, mem, ns0, ns1, fuel);
    var o := RunOps(mc, r.ops, env, mem, fuel);
    if o.Done? {
      YieldingGrows(r, xs, ns1);
      GrownNew(ns1, e.names, OpsDefs(r.ops));
      ExtendsTwice(ns0, ns1, e.names);
      OpsKeep(mc, r.ops, env, mem, fuel);
      LeaveWithResults(rs, Read(o.env, r.yielded), Blank(mc, |rs|), env, o.env, store, store0, store1, ns0, e.names);
    }
  }

  /** Both sides of an scf.if, case by case. */
  lemma IfRuns<D, M>(mc: Machine<D, M>, op: Op, env: map<nat, D>, store: map<nat, D>, store0: map<nat, D>, mem: M,
      ns: Names, ns0: Names, fuel: nat)
    requires op.If? && EmitOp(op, ns).Emitted? && ns0 == NameAll(ns, op.results) && Named(ns0, op.results)
    requires store0 == Bind(store, Lookup(ns0, op.results), Blank(mc, |op.results|)) && op.cond in env
    requires op.cond in ns0.mapper && ns0.mapper[op.cond] in store0 && store0[ns0.mapper[op.cond]] == env[op.cond]
    requires op.onFalse.None? ==> op.results == []
    ensures var xs := Lookup(ns0, op.results);
      var run, exec := RunOp(mc, op, env, mem, fuel), ExecAll(mc, EmitOp(op, ns).stmts, store, mem, fuel);
      var yes := EmitYielding(op.onTrue, xs, ns0);
      && yes.Emitted? && (op.onFalse.None? ==> EmitOp(op, ns).names == yes.names)
      && (op.onFalse.Some? ==>
           var no := EmitYielding(op.onFalse.value, xs, yes.names); no.Emitted? && EmitOp(op, ns).names == no.names)
      && (mc.truth(env[op.cond]) ==>
           && run == DefineFrom(env, op.results, RunOps(mc, op.onTrue.ops, env, mem, fuel), op.onTrue.yielded)
           && exec == LeaveBlock(ExecAll(mc, yes.stmts, store0, mem, fuel), store0.Keys))
      && (!mc.truth(env[op.cond]) && op.onFalse.Some? ==>
           var r, no := op.onFalse.value, EmitYielding(op.onFalse.value, xs, yes.names);
           && run == DefineFrom(env, op.results, RunOps(mc, r.ops, env, mem, fuel), r.yielded)
           && exec == LeaveBlock(ExecAll(mc, no.stmts, store0, mem, fuel), store0.Keys))
      && (!mc.truth(env[op.cond]) && op.onFalse.None? ==> run == Done(env, mem) && exec == Done(store0, mem))
  {
    hide Bind, RunOps, EmitYielding, NameAll, Lookup, NoDup;
    var branch := EmitOp(op, ns).stmts.tail.head;
    DeclareStep(mc, Lookup(ns0, op.results), Then(branch, End), store, mem, fuel);
    LastStep(mc, branch, store0, mem, fuel);
    NoBranch(env, store0);
  }

  lemma {:induction false} SimIf<D, M>(mc: Machine<D, M>, op: Op, env: map<nat, D>, store: map<nat, D>, mem: M,
      ns: Names, fuel: nat)
    requires op.If? && Rel(env, store, ns) && OpDefs(op) !! ns.mapper.Keys
    requires UniqueOp(op) && ScopedOp(op, env.Keys) && SafeOp(op) && EmitOp(op, ns).Emitted?
    ensures Simulates(RunOp(mc, op, env, mem, fuel), ExecAll(mc, EmitOp(op, ns).stmts, store, mem, fuel), store,
      EmitOp(op, ns).names)
    decreases fuel, op, 2
  {
    hide Rel, Grown, NamesOk, Bind, Leave, RunOps, RunOp, EmitYielding, NameAll, Simulates, EmitOp, ExecAll, Exec,
      UniqueOps, ScopedRegion, SafeOps, Lookup, Named, NoDup;
    var rs, ns0 := op.results, NameAll(ns, op.results);
    DeclareResults(mc, rs, env, store, ns);
    var xs := Lookup(ns0, rs);
    var store0 := Bind(store, xs, Blank(mc, |rs|));
    RelNames(env, store, ns);
    GrownNew(ns, ns0, Set(rs));
    NewNames(ns, ns0, rs, store);
    RelAt(env, store0, ns0, op.cond);
    var yes := EmitYielding(op.onTrue, xs, ns0);
    IfRuns(mc, op, env, store, store0, mem, ns, ns0, fuel);
    YieldingGrows(op.onTrue, xs, ns0);
    GrownNew(ns0, yes.names, OpsDefs(op.onTrue.ops));
    var run, exec := RunOp(mc, op, env, mem, fuel), ExecAll(mc, EmitOp(op, ns).stmts, store, mem, fuel);
    if mc.truth(env[op.cond]) {
      SimBranch(mc, op.onTrue, rs, env, store, store0, mem, ns0, ns0, fuel);
      if op.onFalse.Some? {
        var no := EmitYielding(op.onFalse.value, xs, yes.names);
        YieldingGrows(op.onFalse.value, xs, yes.names);
        GrownNew(yes.names, no.names, OpsDefs(op.onFalse.value.ops));
        SimulatesLater(run, exec, store, yes.names, no.names);
      }
    } else if op.onFalse.Some? {
      ExtendRel(env, store0, ns0, yes.names);
      SimBranch(mc, op.onFalse.value, rs, env, store, store0, mem, ns0, yes.names, fuel);
    } else {
      ExtendRel(env, store0, ns0, yes.names);
      SimDone(env, store0, mem, store, yes.names);
    }
  }

  /** One iteration up to the break. */
  lemma {:induction false} WhileTest<D, M>(mc: Machine<D, M>, w: Op, env: map<nat, D>, ds: seq<D>, store: map<nat, D>,
      store0: map<nat, D>, mem: M, ns: Names, l: WhileParts, fuel: nat)
    returns (store3: map<nat, D>)
    requires WhileHead(w, env, ds, store, store0, ns, l)
    ensures var run := RunOps(mc, w.before, Bind(env, w.beforeArgs, ds), mem, fuel);
      var exec := ExecAll(mc, Append(l.test, WhileRest(w, l)), store, mem, fuel);
      && |ds| == |w.beforeArgs| && |w.condArgs| == |w.afterArgs| == |w.results|
      && !run.Broke? && (!run.Done? ==> exec == run)
      && (run.Done? ==>
            && w.cond in run.env && Bound(run.env, w.condArgs)
            && var out := Read(run.env, w.condArgs);
               && Rel(Bind(env, w.results, out), store3, l.ns3) && Rel(Bind(env, w.afterArgs, out), store3, l.ns3)
               && Keep(store0, store3) && store.Keys <= store3.Keys
               && exec == if mc.truth(run.env[w.cond]) then ExecAll(mc, l.work, store3, run.mem, fuel)
                 else Broke(store3, run.mem))
    decreases fuel, w, 1
  {
    hide Rel, NamesOk, Extends, Grown, Bind, CopyInTurn, EmitOps, EmitYielding, SafeCopies, ExecAll, RunOps;
    WhileChain(w, env.Keys, ns, l);
    var start := Bind(env, w.beforeArgs, ds);
    BindAt(env, w.beforeArgs, ds);
    SimOps(mc, w.before, start, store, mem, l.ns1, fuel);
    OpsDefine(mc, w.before, start, mem, fuel);
    ExecAppend(mc, l.test, WhileRest(w, l), store, mem, fuel);
    store3 := store;
    var run, test := RunOps(mc, w.before, start, mem, fuel), ExecAll(mc, l.test, store, mem, fuel);
    if run.Done? {
      OpsKeep(mc, w.before, start, mem, fuel);
      KeepTwice(store0, store, test.env);
      var store2;
      store2, store3 := WhileCopies(w, env, run.env, store0, test.env, ns, l);
      RelAt(run.env, store3, l.ns3, w.cond);
      RestSteps(mc, w, l, test.env, store2, store3, run.mem, fuel);
    }
  }

  lemma {:induction false} SimWhileLoop<D, M>(mc: Machine<D, M>, w: Op, env: map<nat, D>, ds: seq<D>,
      store: map<nat, D>, store0: map<nat, D>, mem: M, ns: Names, l: WhileParts, fuel: nat)
    requires WhileHead(w, env, ds, store, store0, ns, l)
    ensures Simulates(RunWhile(mc, w, env, ds, mem, fuel),
      ExecForever(mc, Append(l.test, WhileRest(w, l)), store, mem, fuel), store0, l.ns4)
    decreases fuel, w, 0
  {
    hide Rel, Bind, Leave, ExecAll, RunOps, Append, RunWhile, ExecForever, WhileRest, Grown, EmitOps, EmitYielding;
    var body := Append(l.test, WhileRest(w, l));
    hide WhileHead;
    if fuel == 0 {
      NoFuel(mc, w, env, ds, body, store, mem);
    } else {
      var store3 := WhileTest(mc, w, env, ds, store, store0, mem, ns, l, fuel - 1);
      RunWhileStep(mc, w, env, ds, mem, fuel);
      ExecForeverStep(mc, body, store, mem, fuel);
      var run := RunOps(mc, w.before, Bind(env, w.beforeArgs, ds), mem, fuel - 1);
      if run.Done? {
        var out := Read(run.env, w.condArgs);
        if !mc.truth(run.env[w.cond]) {
          WhileExit(w, env, ds, out, store, store0, store3, ns, l);
        } else {
          SimWhileWork(mc, w, env, ds, out, store, store0, store3, run.mem, ns, l, fuel - 1);
        }
      }
    }
  }

  /** The after region and the rest of the loop. */
  lemma {:induction false} SimWhileWork<D, M>(mc: Machine<D, M>, w: Op, env: map<nat, D>, ds: seq<D>, out: seq<D>,
      store: map<nat, D>, store0: map<nat, D>, store3: map<nat, D>, mem: M, ns: Names, l: WhileParts, fuel: nat)
    requires WhileHead(w, env, ds, store, store0, ns, l) && |out| == |w.results|
    requires Rel(Bind(env, w.afterArgs, out), store3, l.ns3) && Keep(store0, store3) && store.Keys <= store3.Keys
    ensures Simulates(GoRound(mc, w, env, RunOps(mc, w.after.ops, Bind(env, w.afterArgs, out), mem, fuel), fuel),
                      GoOn(mc, Append(l.test, WhileRest(w, l)),
                        LeaveBlock(ExecAll(mc, l.work, store3, mem, fuel), store.Keys), fuel),
                      store0, l.ns4)
    decreases fuel, w, 1
  {
    hide Rel, NamesOk, Extends, Grown, Bind, Leave, EmitOps, EmitYielding, ExecAll, RunOps, ExecForever, RunWhile,
      Append, UniqueOps, SafeOps, ScopedRegion;
    WhileWorkReady(w, env, ds, out, store, store0, store3, ns, l);
    var start := Bind(env, w.afterArgs, out);
    var store4 := SimYielding(mc, w.after, w.beforeArgs, start, store3, mem, l.ns1, l.ns3, fuel);
    var run := RunOps(mc, w.after.ops, start, mem, fuel);
    if run.Done? {
      OpsKeep(mc, w.after.ops, start, mem, fuel);
      KeepTwice(env, start, run.env);
      var vals := Read(run.env, w.after.yielded);
      WhileAgain(w, env, run.env, ds, vals, store, store0, store3, store4, ns, l);
      SimWhileLoop(mc, w, env, vals, Leave(Bind(store4, Lookup(l.ns1, w.beforeArgs), vals), store.Keys), store0,
        run.mem, ns, l, fuel);
    }
  }

  lemma {:induction false} SimWhile<D, M>(mc: Machine<D, M>, op: Op, env: map<nat, D>, store: map<nat, D>, mem: M,
      ns: Names, fuel: nat)
    requires op.While? && Rel(env, store, ns) && OpDefs(op) !! ns.mapper.Keys
    requires UniqueOp(op) && ScopedOp(op, env.Keys) && SafeOp(op) && EmitOp(op, ns).Emitted?
    ensures Simulates(RunOp(mc, op, env, mem, fuel), ExecAll(mc, EmitOp(op, ns).stmts, store, mem, fuel), store,
      EmitOp(op, ns).names)
    decreases fuel, op, 2
  {
    hide Rel, NamesOk, Extends, Grown, Bind, EmitOps, EmitYielding, ExecAll, RunWhile, ExecForever, Append, EmitOp,
      UniqueOp, ScopedOp, SafeOp, OpDefs;
    RelNames(env, store, ns);
    var l := WhileLayout(op, ns);
    WhileScoped(op, ns, env.Keys);
    WhileChain(op, env.Keys, ns, l);
    WhileEntry(mc, op, env, store, mem, ns, l, Then(Forever(Append(l.test, WhileRest(op, l))), End), fuel);
    var store1 := Bind(Bind(store, Lookup(l.ns0, op.results), Blank(mc, |op.results|)), Lookup(l.ns1, op.beforeArgs),
      Read(env, op.inits));
    SimWhileLoop(mc, op, env, Read(env, op.inits), store1, store, mem, ns, l, fuel);
    LastStep(mc, Forever(Append(l.test, WhileRest(op, l))), store1, mem, fuel);
  }

  lemma {:induction false} SimForLoop<D, M>(mc: Machine<D, M>, f: Op, env: map<nat, D>, i: D, ds: seq<D>,
      store: map<nat, D>, store0: map<nat, D>, mem: M, ns: Names, l: ForParts, fuel: nat)
    returns (i1: D, vals: seq<D>, store1: map<nat, D>)
    requires ForHead(f, env, i, ds, store, store0, ns, l)
    ensures f.iv in l.ns2.mapper && f.upper in l.ns2.mapper && f.step in l.ns2.mapper
      && Bound(env, [f.lower, f.upper, f.step])
    ensures ForEnds(f, env, RunFor(mc, f, env, i, ds, mem, fuel), ForRun(mc, f, l, store, mem, fuel), i1, vals,
      store1, store0, ns, l)
    decreases fuel, f, 0
  {
    hide Rel, NamesOk, Extends, Grown, Bind, Leave, EmitYielding, ExecAll, RunOps, RunFor, ExecFor;
    ForChain(f, env.Keys, ns, l);
    ForBounds(f, env, i, ds, store, store0, ns, l);
    i1, vals, store1 := i, ds, store;
    if fuel == 0 {
      ForNoFuel(mc, f, env, i, ds, l, store, mem);
    } else {
      RunForStep(mc, f, env, i, ds, mem, fuel);
      ExecForStep(mc, f, l, store, mem, fuel);
      if mc.less(i, env[f.upper]) {
        i1, vals, store1 := SimForWork(mc, f, env, i, ds, store, store0, mem, ns, l, fuel - 1);
      }
    }
  }

  /** The body and the rest of the loop. */
  lemma {:induction false} SimForWork<D, M>(mc: Machine<D, M>, f: Op, env: map<nat, D>, i: D, ds: seq<D>,
      store: map<nat, D>, store0: map<nat, D>, mem: M, ns: Names, l: ForParts, fuel: nat)
    returns (i1: D, vals: seq<D>, store1: map<nat, D>)
    requires ForHead(f, env, i, ds, store, store0, ns, l)
    ensures f.iv in l.ns2.mapper && f.upper in l.ns2.mapper && f.step in l.ns2.mapper
      && Bound(env, [f.lower, f.upper, f.step])
    ensures ForEnds(f, env, ForGoRound(mc, f, env, i, RunOps(mc, f.body.ops, ForEnv(f, env, i, ds), mem, fuel), fuel),
                    ForGoOn(mc, f, l, LeaveBlock(ExecAll(mc, l.work, store, mem, fuel), store.Keys), fuel), i1, vals,
                      store1, store0, ns, l)
    decreases fuel, f, 1
  {
    hide Rel, NamesOk, Extends, Grown, Bind, Leave, EmitYielding, ExecAll, RunOps, RunFor, ExecFor, ForEnv, SafeCopies;
    ForChain(f, env.Keys, ns, l);
    ForEnvAt(f, env, i, ds);
    var start := ForEnv(f, env, i, ds);
    assert start.Keys == env.Keys + {f.iv} + Set(f.iterArgs);
    assert forall v :: v in f.iterArgs ==> v in Set(f.iterArgs);
    BoundNames(start, store, l.ns2, f.iterArgs);
    LookupExtended(l.ns1, l.ns2, f.iterArgs);
    var store4 := SimYielding(mc, f.body, f.iterArgs, start, store, mem, l.ns1, l.ns2, fuel);
    var run := RunOps(mc, f.body.ops, start, mem, fuel);
    i1, vals, store1 := i, ds, store;
    if run.Done? {
      OpsKeep(mc, f.body.ops, start, mem, fuel);
      var next := Read(run.env, f.body.yielded);
      var i' := mc.add(i, env[f.step]);
      ForAgain(f, env, run.env, i, i', ds, next, store, store0, store4, ns, l);
      var store5 := Leave(Bind(store4, Lookup(l.ns1, f.iterArgs), next), store.Keys);
      ForBounds(f, env, i, next, store5, store0, ns, l);
      i1, vals, store1 := SimForLoop(mc, f, env, i', next, store5[l.ns2.mapper[f.iv] := i'], store0, run.mem, ns, l,
        fuel);
    }
  }

  lemma {:induction false} SimFor<D, M>(mc: Machine<D, M>, op: Op, env: map<nat, D>, store: map<nat, D>, mem: M,
      ns: Names, fuel: nat)
    requires op.For? && Rel(env, store, ns) && OpDefs(op) !! ns.mapper.Keys
    requires UniqueOp(op) && ScopedOp(op, env.Keys) && SafeOp(op) && EmitOp(op, ns).Emitted?
    ensures Simulates(RunOp(mc, op, env, mem, fuel), ExecAll(mc, EmitOp(op, ns).stmts, store, mem, fuel), store,
      EmitOp(op, ns).names)
    decreases fuel, op, 2
  {
    hide Rel, NamesOk, Extends, Grown, Bind, EmitYielding, ExecAll, RunFor, EmitOp, UniqueOp, ScopedOp, SafeOp, OpDefs,
      ForTail, ForHead, ForRun, ForScopes, ForEnds, NameAll, NameOne, Simulates;
    var l := ForReadyFrom(op, env, store, ns);
    var store1, store2 := SimForEntry(mc, op, env, store, mem, ns, l, fuel);
    var d, ds := env[op.lower], Read(env, op.inits);
    var i, vals, store3 := SimForLoop(mc, op, env, d, ds, store2, store, mem, ns, l, fuel);
    var run := RunFor(mc, op, env, d, ds, mem, fuel);
    SimForExit(mc, op, env, run, i, ds, vals, store, store1, store2, store3, mem, ns, l, fuel);
    ForOpRuns(mc, op, env, mem, fuel);
  }
}
