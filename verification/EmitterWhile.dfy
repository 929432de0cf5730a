/**
  scf.while in the emitter: the names and statements it is printed with, and what one
  turn of the printed loop does to the store.
*/
module EmitterWhile {
  import opened Basics
  import opened EmitterModel
  import opened EmitterNames
  import opened EmitterSemantics
  import opened EmitterSteps
  import opened EmitterStores

  /** The names and statements an emitted scf.while is made of. */
  datatype WhileParts = WhileParts(ns0: Names, ns1: Names, test: Stmts, ns2: Names, ns3: Names, work: Stmts, ns4: Names)

  ghost predicate WhileNames(w: Op, ns: Names, l: WhileParts)
    requires w.While?
  {
    && Grown(ns, l.ns0, Set(w.results)) && Grown(l.ns0, l.ns1, Set(w.beforeArgs))
    && Grown(l.ns1, l.ns2, OpsDefs(w.before))
    && Grown(l.ns2, l.ns3, Set(w.afterArgs)) && Grown(l.ns3, l.ns4, OpsDefs(w.after.ops))
    && l.ns0 == NameAll(ns, w.results) && l.ns1 == NameAll(l.ns0, w.beforeArgs) && l.ns3 == NameAll(l.ns2, w.afterArgs)
    && |w.inits| == |w.beforeArgs| && |w.condArgs| == |w.afterArgs| == |w.results| && Named(l.ns0, w.inits)
    && Named(l.ns2, w.condArgs)
    && Unnamed(ns, w.results) && NoDup(w.results) && Named(l.ns0, w.results) && Named(l.ns1, w.beforeArgs)
    && Named(l.ns1, w.inits)
    && Named(l.ns3, w.afterArgs) && Named(l.ns3, w.condArgs) && w.cond in l.ns3.mapper
    && EmitOps(w.before, l.ns1) == Emitted(l.test, l.ns2)
    && EmitYielding(w.after, Lookup(l.ns1, w.beforeArgs), l.ns3) == Emitted(l.work, l.ns4)
  }

  /** The statements after the test region. */
  ghost function WhileRest(w: Op, l: WhileParts): Stmts
    requires w.While? && Named(l.ns0, w.results) && Named(l.ns3, w.afterArgs) && Named(l.ns3, w.condArgs)
      && w.cond in l.ns3.mapper
  {
    var args := Lookup(l.ns3, w.condArgs);
    Then(DeclareCopies(Lookup(l.ns3, w.afterArgs), args), Then(Copies(Lookup(l.ns0, w.results), args),
      Then(BreakUnless(l.ns3.mapper[w.cond]), l.work)))
  }

  lemma WhileLayout(w: Op, ns: Names) returns (l: WhileParts)
    requires w.While? && NamesOk(ns) && EmitOp(w, ns).Emitted?
    ensures WhileNames(w, ns, l)
    ensures EmitOp(w, ns) == Emitted(
      Then(Declare(Lookup(l.ns0, w.results)), Then(DeclareCopies(Lookup(l.ns1, w.beforeArgs), Lookup(l.ns1, w.inits)),
        Then(Forever(Append(l.test, WhileRest(w, l))), End))), l.ns4)
  {
    hide Grown, NamesOk, NameAll, Append;
    var ns0 := NameAll(ns, w.results);
    NameAllGrows(ns, w.results);
    GrownNew(ns, ns0, Set(w.results));
    var ns1 := NameAll(ns0, w.beforeArgs);
    NameAllGrows(ns0, w.beforeArgs);
    GrownNew(ns0, ns1, Set(w.beforeArgs));
    var e2 := EmitOps(w.before, ns1);
    OpsGrow(w.before, ns1);
    GrownNew(ns1, e2.names, OpsDefs(w.before));
    var ns3 := NameAll(e2.names, w.afterArgs);
    NameAllGrows(e2.names, w.afterArgs);
    GrownNew(e2.names, ns3, Set(w.afterArgs));
    assert forall v :: v in w.results ==> v in Set(w.results);
    var e4 := EmitYielding(w.after, Lookup(ns1, w.beforeArgs), ns3);
    YieldingGrows(w.after, Lookup(ns1, w.beforeArgs), ns3);
    l := WhileParts(ns0, ns1, e2.stmts, e2.names, ns3, e4.stmts, e4.names);
  }

  /** What the scoping rules say about the values of a while operation. */
  ghost predicate WhileScopes(w: Op, scope: set<Value>)
    requires w.While?
  {
    && NoDup(w.results) && NoDup(w.beforeArgs) && NoDup(w.afterArgs)
    && |w.inits| == |w.beforeArgs| && |w.condArgs| == |w.afterArgs| == |w.results|
    && Set(w.results) !! scope + Set(w.beforeArgs) + OpsDefs(w.before) + Set(w.afterArgs) + OpsDefs(w.after.ops)
    && Set(w.beforeArgs) !! scope + OpsDefs(w.before) + Set(w.afterArgs) + OpsDefs(w.after.ops)
    && Set(w.afterArgs) !! scope + OpsDefs(w.before) + OpsDefs(w.after.ops)
    && (OpsDefs(w.before) + OpsDefs(w.after.ops)) !! scope && OpsDefs(w.before) !! OpsDefs(w.after.ops)
    && Set(w.inits) <= scope && {w.cond} + Set(w.condArgs) <= scope + Set(w.beforeArgs) + TopDefs(w.before)
    && UniqueOps(w.before) && ScopedOps(w.before, scope + Set(w.beforeArgs)) && SafeOps(w.before)
    && UniqueOps(w.after.ops) && ScopedRegion(w.after, scope + Set(w.afterArgs), |w.beforeArgs|) && SafeOps(w.after.ops)
  }

  lemma WhileScoped(w: Op, ns: Names, scope: set<Value>)
    requires w.While? && scope <= ns.mapper.Keys && OpDefs(w) !! ns.mapper.Keys
    requires UniqueOp(w) && ScopedOp(w, scope) && SafeOp(w)
    ensures WhileScopes(w, scope)
  {
  }

  ghost predicate WhileReady(w: Op, scope: set<Value>, ns: Names, l: WhileParts)
  {
    && w.While? && NamesOk(ns) && WhileNames(w, ns, l) && WhileScopes(w, scope)
    && scope <= ns.mapper.Keys && OpDefs(w) !! ns.mapper.Keys
  }

  /** The state at the head of the printed loop. */
  ghost predicate WhileHead<D>(w: Op, env: map<nat, D>, ds: seq<D>, store: map<nat, D>, store0: map<nat, D>,
      ns: Names, l: WhileParts)
  {
    && WhileReady(w, env.Keys, ns, l) && |ds| == |w.beforeArgs|
    && Rel(Bind(env, w.beforeArgs, ds), store, l.ns1) && Bound(store, Lookup(l.ns0, w.results))
    && Keep(store0, store) && (forall x :: x in store0 ==> x <= ns.count)
  }

  lemma WhileChain(w: Op, scope: set<Value>, ns: Names, l: WhileParts)
    requires WhileReady(w, scope, ns, l)
    ensures NamesOk(l.ns0) && NamesOk(l.ns1) && NamesOk(l.ns2) && NamesOk(l.ns3) && NamesOk(l.ns4)
    ensures Extends(ns, l.ns0) && Extends(l.ns0, l.ns1) && Extends(l.ns1, l.ns2) && Extends(l.ns2, l.ns3)
      && Extends(l.ns3, l.ns4)
    ensures Extends(ns, l.ns1) && Extends(ns, l.ns3) && Extends(l.ns0, l.ns3) && Extends(l.ns1, l.ns3)
      && Extends(l.ns1, l.ns4)
    ensures l.ns1.mapper.Keys == ns.mapper.Keys + Set(w.results) + Set(w.beforeArgs)
    ensures l.ns3.mapper.Keys == ns.mapper.Keys + Set(w.results) + Set(w.beforeArgs) + OpsDefs(w.before)
      + Set(w.afterArgs)
  {
    hide Grown, EmitOps, EmitYielding, UniqueOps, ScopedOps, ScopedRegion, SafeOps, NameAll;
    GrownNew(ns, l.ns0, Set(w.results));
    GrownNew(l.ns0, l.ns1, Set(w.beforeArgs));
    GrownNew(l.ns1, l.ns2, OpsDefs(w.before));
    GrownNew(l.ns2, l.ns3, Set(w.afterArgs));
    GrownNew(l.ns3, l.ns4, OpsDefs(w.after.ops));
    hide Extends, NamesOk, WhileScopes;
    ExtendsTwice(ns, l.ns0, l.ns1);
    ExtendsTwice(l.ns1, l.ns2, l.ns3);
    ExtendsTwice(ns, l.ns1, l.ns3);
    ExtendsTwice(l.ns0, l.ns1, l.ns3);
    ExtendsTwice(l.ns1, l.ns3, l.ns4);
  }

  /** Copying the condition's operands into the after arguments and the results. */
  lemma WhileCopies<D>(w: Op, env: map<nat, D>, env1: map<nat, D>, store0: map<nat, D>, store1: map<nat, D>,
      ns: Names, l: WhileParts)
    returns (store2: map<nat, D>, store3: map<nat, D>)
    requires WhileReady(w, env.Keys, ns, l) && Rel(env1, store1, l.ns2) && Keep(env, env1)
    requires env1.Keys == env.Keys + Set(w.beforeArgs) + TopDefs(w.before)
    requires Bound(store1, Lookup(l.ns0, w.results)) && Keep(store0, store1)
    requires forall x :: x in store0 ==> x <= ns.count
    ensures Bound(env1, w.condArgs) && w.cond in env1
    ensures var out, args := Read(env1, w.condArgs), Lookup(l.ns3, w.condArgs);
      && CopyInTurn(store1, Lookup(l.ns3, w.afterArgs), args) == Some(store2)
      && Bound(store2, Lookup(l.ns0, w.results)) && CopyInTurn(store2, Lookup(l.ns0, w.results), args) == Some(store3)
      && Rel(env1, store3, l.ns3) && Rel(Bind(env, w.results, out), store3, l.ns3)
      && Rel(Bind(env, w.afterArgs, out), store3, l.ns3)
      && Keep(store0, store3) && store1.Keys <= store3.Keys
  {
    hide Rel, NamesOk, Extends, Grown, Bind, CopyInTurn, EmitOps, EmitYielding, SafeCopies;
    WhileChain(w, env.Keys, ns, l);
    TopDefsAreDefs(w.before);
    assert forall v :: v in w.condArgs ==> v in Set(w.condArgs);
    var rs, afters, condArgs := w.results, w.afterArgs, w.condArgs;
    var out, args := Read(env1, condArgs), Lookup(l.ns3, condArgs);
    var R, A := Lookup(l.ns0, rs), Lookup(l.ns3, afters);
    LookupExtended(l.ns0, l.ns3, rs);
    OutsideSafe(afters, condArgs, env1.Keys);
    OutsideSafe(rs, condArgs, env1.Keys);
    ExtendRel(env1, store1, l.ns2, l.ns3);
    CopyOut(env1, store1, l.ns3, afters, condArgs);
    store2 := Bind(store1, A, out);
    JunkRel(env1, store1, l.ns3, afters, out);
    CopyOut(env1, store2, l.ns3, rs, condArgs);
    store3 := Bind(store2, R, out);
    JunkRel(env1, store2, l.ns3, rs, out);
    BindAt(store1, A, out);
    BindAt(store2, R, out);
    WhileViews(w, env, env1, store1, ns, l, out);
    NewNames(ns, l.ns3, afters, store0);
    NewNames(ns, l.ns3, rs, store0);
    BindKeeps(store0, store1, A, out);
    BindKeeps(store0, store2, R, out);
  }

  /** After the copies, the store represents both what follows the loop and what the after region sees. */
  lemma WhileViews<D>(w: Op, env: map<nat, D>, env1: map<nat, D>, store1: map<nat, D>, ns: Names, l: WhileParts,
      out: seq<D>)
    requires WhileReady(w, env.Keys, ns, l) && Rel(env1, store1, l.ns3) && Keep(env, env1) && |out| == |w.results|
    requires NamesOk(l.ns3) && Extends(l.ns0, l.ns3)
    ensures var store3 := Bind(Bind(store1, Lookup(l.ns3, w.afterArgs), out), Lookup(l.ns0, w.results), out);
      Rel(Bind(env, w.results, out), store3, l.ns3) && Rel(Bind(env, w.afterArgs, out), store3, l.ns3)
  {
    hide Rel, NamesOk, Extends, Grown, Bind, EmitOps, EmitYielding;
    LookupExtended(l.ns0, l.ns3, w.results);
    var store2 := Bind(store1, Lookup(l.ns3, w.afterArgs), out);
    SubRel(env, env1, store1, l.ns3);
    JunkRel(env, store1, l.ns3, w.afterArgs, out);
    BindRel(env, store2, l.ns3, w.results, out);
    BindRel(env, store1, l.ns3, w.afterArgs, out);
    BindAt(env, w.afterArgs, out);
    JunkRel(Bind(env, w.afterArgs, out), store2, l.ns3, w.results, out);
  }

  lemma RestSteps<D, M>(mc: Machine<D, M>, w: Op, l: WhileParts, store1: map<nat, D>, store2: map<nat, D>,
      store3: map<nat, D>, mem: M, fuel: nat)
    requires w.While? && Named(l.ns0, w.results) && Named(l.ns3, w.afterArgs) && Named(l.ns3, w.condArgs)
      && w.cond in l.ns3.mapper
    requires |w.condArgs| == |w.afterArgs| == |w.results|
    requires CopyInTurn(store1, Lookup(l.ns3, w.afterArgs), Lookup(l.ns3, w.condArgs)) == Some(store2)
    requires Bound(store2, Lookup(l.ns0, w.results))
    requires CopyInTurn(store2, Lookup(l.ns0, w.results), Lookup(l.ns3, w.condArgs)) == Some(store3)
    requires l.ns3.mapper[w.cond] in store3
    ensures ExecAll(mc, WhileRest(w, l), store1, mem, fuel) ==
      if mc.truth(store3[l.ns3.mapper[w.cond]]) then ExecAll(mc, l.work, store3, mem, fuel) else Broke(store3, mem)
  {
    var rest := WhileRest(w, l);
    OneStep(mc, rest, store1, mem, fuel);
    OneStep(mc, rest.tail, store2, mem, fuel);
    OneStep(mc, rest.tail.tail, store3, mem, fuel);
  }

  /** Leaving the loop: the results hold the condition's operands. */
  lemma WhileExit<D>(w: Op, env: map<nat, D>, ds: seq<D>, out: seq<D>, store: map<nat, D>, store0: map<nat, D>,
      store3: map<nat, D>, ns: Names, l: WhileParts)
    requires WhileHead(w, env, ds, store, store0, ns, l) && |out| == |w.results|
    requires Rel(Bind(env, w.results, out), store3, l.ns3) && Keep(store0, store3)
    ensures Rel(Bind(env, w.results, out), Leave(store3, store.Keys), l.ns4) && Keep(store0, Leave(store3, store.Keys))
  {
    hide Rel, NamesOk, Extends, Grown, Bind, Leave, EmitOps, EmitYielding;
    WhileChain(w, env.Keys, ns, l);
    LookupExtended(l.ns0, l.ns1, w.results);
    BindAt(env, w.beforeArgs, ds);
    var start := Bind(env, w.beforeArgs, ds);
    DeclaredJunk(start, w.results, store, l.ns1);
    var junk := Read(store, Lookup(l.ns1, w.results));
    BindAt(start, w.results, junk);
    BindAt(env, w.results, out);
    LeaveRel(Bind(env, w.results, out), store3, l.ns3, Bind(start, w.results, junk), store, l.ns1);
    ExtendRel(Bind(env, w.results, out), Leave(store3, store.Keys), l.ns1, l.ns4);
    LeaveKeeps(store0, store3, store.Keys);
  }

  /** Going round: the before arguments hold what the after region yields. */
  lemma WhileAgain<D>(w: Op, env: map<nat, D>, env2: map<nat, D>, ds: seq<D>, vals: seq<D>, store: map<nat, D>,
      store0: map<nat, D>, store3: map<nat, D>, store4: map<nat, D>, ns: Names, l: WhileParts)
    requires WhileHead(w, env, ds, store, store0, ns, l) && |vals| == |w.beforeArgs|
    requires Rel(env2, store4, l.ns4) && Keep(env, env2) && Keep(store0, store3) && store.Keys <= store3.Keys
      && Keep(store3, store4)
    ensures WhileHead(w, env, vals, Leave(Bind(store4, Lookup(l.ns1, w.beforeArgs), vals), store.Keys), store0, ns, l)
  {
    hide Rel, NamesOk, Extends, Grown, Bind, EmitOps, EmitYielding;
    WhileChain(w, env.Keys, ns, l);
    var B := Lookup(l.ns1, w.beforeArgs);
    LookupExtended(l.ns1, l.ns4, w.beforeArgs);
    SubRel(env, env2, store4, l.ns4);
    BindRel(env, store4, l.ns4, w.beforeArgs, vals);
    BindAt(env, w.beforeArgs, ds);
    BindAt(env, w.beforeArgs, vals);
    BindAt(store4, B, vals);
    LeaveRel(Bind(env, w.beforeArgs, vals), Bind(store4, B, vals), l.ns4, Bind(env, w.beforeArgs, ds), store, l.ns1);
    KeepTwice(store0, store3, store4);
    NewNames(ns, l.ns1, w.beforeArgs, store0);
    BindKeeps(store0, store4, B, vals);
    LeaveKeeps(store0, Bind(store4, B, vals), store.Keys);
  }

  /** What a while operation does after its after region. */
  ghost function GoRound<D, M>(mc: Machine<D, M>, w: Op, env: map<nat, D>, o: Outcome<D, M>, fuel: nat): Outcome<D, M>
    requires w.While?
  {
    match o
    case Done(env2, mem2) =>
      if Bound(env2, w.after.yielded) then
        RunWhile(mc, w, env, Read(env2, w.after.yielded), mem2, fuel)
      else Stuck
    case other => other
  }

  /** What an endless loop does after its body. */
  ghost function GoOn<D, M>(mc: Machine<D, M>, body: Stmts, o: Outcome<D, M>, fuel: nat): Outcome<D, M>
  {
    match o
    case Done(store, mem) => ExecForever(mc, body, store, mem, fuel)
    case Broke(store, mem) => Done(store, mem)
    case other => other
  }

  lemma RunWhileStep<D, M>(mc: Machine<D, M>, w: Op, env: map<nat, D>, ds: seq<D>, mem: M, fuel: nat)
    requires w.While? && fuel > 0 && |ds| == |w.beforeArgs|
    ensures var run := RunOps(mc, w.before, Bind(env, w.beforeArgs, ds), mem, fuel - 1);
      var all := RunWhile(mc, w, env, ds, mem, fuel);
      && (!run.Done? ==> all == run)
      && (run.Done? && w.cond in run.env && Bound(run.env, w.condArgs) && |w.condArgs| == |w.afterArgs| ==>
            var out := Read(run.env, w.condArgs);
            all == if !mc.truth(run.env[w.cond]) then Define(env, w.results, out, run.mem)
                   else GoRound(mc, w, env, RunOps(mc, w.after.ops, Bind(env, w.afterArgs, out), run.mem, fuel - 1),
                     fuel - 1))
  {
  }

  lemma NoFuel<D, M>(mc: Machine<D, M>, w: Op, env: map<nat, D>, ds: seq<D>, body: Stmts, store: map<nat, D>, mem: M)
    requires w.While?
    ensures RunWhile(mc, w, env, ds, mem, 0) == Timeout && ExecForever(mc, body, store, mem, 0) == Timeout
  {
  }

  lemma ExecForeverStep<D, M>(mc: Machine<D, M>, body: Stmts, store: map<nat, D>, mem: M, fuel: nat)
    requires fuel > 0
    ensures ExecForever(mc, body, store, mem, fuel) ==
      GoOn(mc, body, LeaveBlock(ExecAll(mc, body, store, mem, fuel - 1), store.Keys), fuel - 1)
  {
  }

  /** Declaring the results and the before arguments leads to the head of the loop. */
  lemma WhileEntry<D, M>(mc: Machine<D, M>, w: Op, env: map<nat, D>, store: map<nat, D>, mem: M, ns: Names,
      l: WhileParts, rest: Stmts, fuel: nat)
    requires WhileReady(w, env.Keys, ns, l) && Rel(env, store, ns)
    ensures Bound(env, w.inits)
    ensures var store0 := Bind(store, Lookup(l.ns0, w.results), Blank(mc, |w.results|));
      var store1 := Bind(store0, Lookup(l.ns1, w.beforeArgs), Read(env, w.inits));
      var copies := DeclareCopies(Lookup(l.ns1, w.beforeArgs), Lookup(l.ns1, w.inits));
      && WhileHead(w, env, Read(env, w.inits), store1, store, ns, l)
      && ExecAll(mc, Then(Declare(Lookup(l.ns0, w.results)), Then(copies, rest)), store, mem, fuel) ==
        ExecAll(mc, rest, store1, mem, fuel)
  {
    hide Rel, NamesOk, Extends, Grown, Bind, CopyInTurn, EmitOps, EmitYielding, ExecAll, Exec, NameAll, SafeCopies,
      UniqueOps, ScopedOps, ScopedRegion, SafeOps, OpsDefs;
    RelNames(env, store, ns);
    WhileChain(w, env.Keys, ns, l);
    DeclareResults(mc, w.results, env, store, ns);
    assert forall v :: v in w.inits ==> v in Set(w.inits);
    var R, B := Lookup(l.ns0, w.results), Lookup(l.ns1, w.beforeArgs);
    var store0 := Bind(store, R, Blank(mc, |w.results|));
    var vals := Read(env, w.inits);
    ExtendRel(env, store0, l.ns0, l.ns1);
    OutsideSafe(w.beforeArgs, w.inits, env.Keys);
    CopyOut(env, store0, l.ns1, w.beforeArgs, w.inits);
    BindRel(env, store0, l.ns1, w.beforeArgs, vals);
    BindAt(store0, B, vals);
    NewNames(ns, l.ns1, w.beforeArgs, store);
    BindKeeps(store, store0, B, vals);
    EntrySteps(mc, R, B, Lookup(l.ns1, w.inits), vals, store, store0, mem, rest, fuel);
  }

  /** What the after region needs to be printed and run in step. */
  lemma WhileWorkReady<D>(w: Op, env: map<nat, D>, ds: seq<D>, out: seq<D>, store: map<nat, D>, store0: map<nat, D>,
      store3: map<nat, D>, ns: Names, l: WhileParts)
    requires WhileHead(w, env, ds, store, store0, ns, l) && |out| == |w.results| && store.Keys <= store3.Keys
    ensures |w.afterArgs| == |out| && Keep(env, Bind(env, w.afterArgs, out))
      && OpsDefs(w.after.ops) !! Bind(env, w.afterArgs, out).Keys
    ensures NamesOk(l.ns1) && Extends(l.ns1, l.ns3) && Named(l.ns1, w.beforeArgs) && NoDup(w.beforeArgs)
    ensures Bound(store3, Lookup(l.ns1, w.beforeArgs)) && SafeCopies(w.beforeArgs, w.after.yielded)
    ensures OpsDefs(w.after.ops) !! l.ns3.mapper.Keys && UniqueOps(w.after.ops) && SafeOps(w.after.ops)
    ensures ScopedRegion(w.after, Bind(env, w.afterArgs, out).Keys, |w.beforeArgs|)
    ensures EmitYielding(w.after, Lookup(l.ns1, w.beforeArgs), l.ns3) == Emitted(l.work, l.ns4)
  {
    hide Rel, NamesOk, Extends, Grown, Bind, EmitOps, EmitYielding, UniqueOps, SafeOps, ScopedOps, NameAll, SafeCopies;
    WhileChain(w, env.Keys, ns, l);
    BindAt(env, w.afterArgs, out);
    BindAt(env, w.beforeArgs, ds);
    assert Bound(store3, Lookup(l.ns1, w.beforeArgs)) by {
      assert forall v :: v in w.beforeArgs ==> v in Set(w.beforeArgs);
      BoundNames(Bind(env, w.beforeArgs, ds), store, l.ns1, w.beforeArgs);
    }
    TopDefsAreDefs(w.after.ops);
    OutsideSafe(w.beforeArgs, w.after.yielded, env.Keys + Set(w.afterArgs) + OpsDefs(w.after.ops));
  }
}
