/**
  Names (src/execution/CEmitter.cpp): distinct values get distinct names, a name once
  given is never changed, and well-scoped operations are emitted without an error.
*/
module EmitterNames {
  import opened Basics
  import opened EmitterModel

  ghost predicate NamesOk(ns: Names)
  {
    && (forall v :: v in ns.mapper ==> 1 <= ns.mapper[v] <= ns.count)
    && (forall v, w :: v in ns.mapper && w in ns.mapper && v != w ==> ns.mapper[v] != ns.mapper[w])
  }

  /** Old names stay; new ones are new. */
  ghost predicate Extends(ns: Names, ns': Names)
  {
    && ns.count <= ns'.count
    && (forall v :: v in ns.mapper ==> v in ns'.mapper && ns'.mapper[v] == ns.mapper[v])
    && (forall v :: v in ns'.mapper && v !in ns.mapper ==> ns'.mapper[v] > ns.count)
  }

  ghost predicate Grown(ns: Names, ns': Names, defs: set<Value>)
  {
    NamesOk(ns') && Extends(ns, ns') && ns'.mapper.Keys == ns.mapper.Keys + defs
  }

  lemma GrownTwice(ns: Names, ns1: Names, ns2: Names, a: set<Value>, b: set<Value>)
    requires Grown(ns, ns1, a) && Grown(ns1, ns2, b)
    ensures Grown(ns, ns2, a + b)
  {
  }

  lemma NameOneGrows(ns: Names, v: Value)
    requires NamesOk(ns)
    ensures Grown(ns, NameOne(ns, v), {v})
  {
  }

  lemma {:induction false} NameAllGrows(ns: Names, vs: seq<Value>)
    requires NamesOk(ns)
    ensures Grown(ns, NameAll(ns, vs), Set(vs))
  {
    if vs == [] {
    } else {
      hide NameOne, NamesOk, Extends;
      var us, v := vs[..|vs| - 1], vs[|vs| - 1];
      NameAllGrows(ns, us);
      NameOneGrows(NameAll(ns, us), v);
      GrownTwice(ns, NameAll(ns, us), NameAll(ns, vs), Set(us), {v});
      assert Set(vs) == Set(us) + {v};
    }
  }

  // ----- Every emission -----

  lemma {:induction false} OpGrows(op: Op, ns: Names)
    requires NamesOk(ns) && EmitOp(op, ns).Emitted?
    ensures Grown(ns, EmitOp(op, ns).names, OpDefs(op))
    decreases op, 1
  {
    hide Grown, NamesOk;
    var ns0 := NameAll(ns, op.results);
    NameAllGrows(ns, op.results);
    GrownOk(ns, ns0, Set(op.results));
    var rs := ResultNames(op, ns0);
    match op
    case Basic(_, _, _) =>
    case If(_, _, onTrue, onFalse) =>
      YieldingGrows(onTrue, rs, ns0);
      var ns1 := EmitYielding(onTrue, rs, ns0).names;
      GrownTwice(ns, ns0, ns1, Set(op.results), OpsDefs(onTrue.ops));
      if onFalse.Some? {
        GrownOk(ns0, ns1, OpsDefs(onTrue.ops));
        YieldingGrows(onFalse.value, rs, ns1);
        GrownTwice(ns, ns1, EmitOp(op, ns).names, Set(op.results) + OpsDefs(onTrue.ops), OpsDefs(onFalse.value.ops));
      } else {
        assert OpDefs(op) == Set(op.results) + OpsDefs(onTrue.ops);
      }
    case While(_, _, befores, before, _, _, afters, after) =>
      var ns1 := NameAll(ns0, befores);
      NameAllGrows(ns0, befores);
      GrownOk(ns0, ns1, Set(befores));
      GrownTwice(ns, ns0, ns1, Set(op.results), Set(befores));
      OpsGrow(before, ns1);
      var ns2 := EmitOps(before, ns1).names;
      GrownOk(ns1, ns2, OpsDefs(before));
      GrownTwice(ns, ns1, ns2, Set(op.results) + Set(befores), OpsDefs(before));
      var ns3 := NameAll(ns2, afters);
      NameAllGrows(ns2, afters);
      GrownOk(ns2, ns3, Set(afters));
      GrownTwice(ns, ns2, ns3, Set(op.results) + Set(befores) + OpsDefs(before), Set(afters));
      YieldingGrows(after, Lookup(ns1, befores), ns3);
      GrownTwice(ns, ns3, EmitOp(op, ns).names, Set(op.results) + Set(befores) + OpsDefs(before) + Set(afters),
        OpsDefs(after.ops));
    case For(_, _, _, _, _, iv, iters, body) =>
      var ns1 := NameAll(ns0, iters);
      NameAllGrows(ns0, iters);
      GrownOk(ns0, ns1, Set(iters));
      GrownTwice(ns, ns0, ns1, Set(op.results), Set(iters));
      var ns2 := NameOne(ns1, iv);
      NameOneGrows(ns1, iv);
      GrownOk(ns1, ns2, {iv});
      GrownTwice(ns, ns1, ns2, Set(op.results) + Set(iters), {iv});
      YieldingGrows(body, Lookup(ns1, iters), ns2);
      GrownTwice(ns, ns2, EmitOp(op, ns).names, Set(op.results) + Set(iters) + {iv}, OpsDefs(body.ops));
  }

  lemma GrownOk(ns: Names, ns': Names, defs: set<Value>)
    requires Grown(ns, ns', defs)
    ensures NamesOk(ns')
  {
  }

  lemma {:induction false} OpsGrow(ops: Ops, ns: Names)
    requires NamesOk(ns) && EmitOps(ops, ns).Emitted?
    ensures Grown(ns, EmitOps(ops, ns).names, OpsDefs(ops))
    decreases ops, 0
  {
    hide NamesOk;
    match ops
    case Nil =>
      assert NamesOk(ns);
    case Cons(op, rest) =>
      hide Grown;
      OpGrows(op, ns);
      var ns1 := EmitOp(op, ns).names;
      GrownOk(ns, ns1, OpDefs(op));
      OpsGrow(rest, ns1);
      GrownTwice(ns, ns1, EmitOps(ops, ns).names, OpDefs(op), OpsDefs(rest));
  }

  lemma {:induction false} YieldingGrows(r: Region, targets: seq<nat>, ns: Names)
    requires NamesOk(ns) && EmitYielding(r, targets, ns).Emitted?
    ensures Grown(ns, EmitYielding(r, targets, ns).names, OpsDefs(r.ops))
    decreases r, 0
  {
    hide Grown, NamesOk;
    OpsGrow(r.ops, ns);
  }

  // ----- Well-scoped operations are emitted -----

  ghost predicate Fits(ns: Names, scope: set<Value>, defs: set<Value>)
  {
    NamesOk(ns) && scope <= ns.mapper.Keys && defs !! ns.mapper.Keys
  }

  lemma {:induction false} TopDefsAreDefs(ops: Ops)
    ensures TopDefs(ops) <= OpsDefs(ops)
  {
    match ops
    case Nil =>
    case Cons(op, rest) =>
      TopDefsAreDefs(rest);
      assert Set(op.results) <= OpDefs(op);
  }

  lemma {:induction false} OpEmitted(op: Op, ns: Names, scope: set<Value>)
    requires Fits(ns, scope, OpDefs(op)) && UniqueOp(op) && ScopedOp(op, scope)
    ensures EmitOp(op, ns).Emitted?
    decreases op, 2
  {
    match op
    case Basic(_, _, _) =>
      NameAllGrows(ns, op.results);
    case If(_, _, _, _) => IfEmitted(op, ns, scope);
    case While(_, _, _, _, _, _, _, _) => WhileEmitted(op, ns, scope);
    case For(_, _, _, _, _, _, _, _) => ForEmitted(op, ns, scope);
  }

  lemma ResultsNamed(op: Op, ns: Names)
    requires NamesOk(ns)
    ensures var ns0 := NameAll(ns, op.results);
      NamesOk(ns0) && ns0.mapper.Keys == ns.mapper.Keys + Set(op.results) && |ResultNames(op, ns0)| == |op.results|
  {
    NameAllGrows(ns, op.results);
    assert forall v :: v in op.results ==> v in Set(op.results);
  }

  lemma {:induction false} IfEmitted(op: Op, ns: Names, scope: set<Value>)
    requires op.If? && Fits(ns, scope, OpDefs(op)) && UniqueOp(op) && ScopedOp(op, scope)
    ensures EmitOp(op, ns).Emitted?
    decreases op, 1
  {
    hide Grown, NamesOk, NameAll, ResultNames;
    ResultsNamed(op, ns);
    var ns0 := NameAll(ns, op.results);
    var rs := ResultNames(op, ns0);
    YieldingEmitted(op.onTrue, rs, ns0, scope);
    var ns1 := EmitYielding(op.onTrue, rs, ns0).names;
    YieldingGrows(op.onTrue, rs, ns0);
    KeysGrown(ns0, ns1, OpsDefs(op.onTrue.ops));
    if op.onFalse.Some? {
      YieldingEmitted(op.onFalse.value, rs, ns1, scope);
    }
  }

  lemma {:induction false} WhileEmitted(op: Op, ns: Names, scope: set<Value>)
    requires op.While? && Fits(ns, scope, OpDefs(op)) && UniqueOp(op) && ScopedOp(op, scope)
    ensures EmitOp(op, ns).Emitted?
    decreases op, 1
  {
    hide Grown, NamesOk, NameAll, ResultNames, OpsDefs, TopDefs, UniqueOps, ScopedOps, ScopedRegion, EmitOps, EmitOp,
      EmitYielding;
    ResultsNamed(op, ns);
    var ns0 := NameAll(ns, op.results);
    var ns1 := NameAll(ns0, op.beforeArgs);
    NameAllGrows(ns0, op.beforeArgs);
    KeysGrown(ns0, ns1, Set(op.beforeArgs));
    OpsEmitted(op.before, ns1, scope + Set(op.beforeArgs));
    var ns2 := EmitOps(op.before, ns1).names;
    OpsGrow(op.before, ns1);
    KeysGrown(ns1, ns2, OpsDefs(op.before));
    TopDefsAreDefs(op.before);
    var ns3 := NameAll(ns2, op.afterArgs);
    NameAllGrows(ns2, op.afterArgs);
    KeysGrown(ns2, ns3, Set(op.afterArgs));
    YieldingEmitted(op.after, Lookup(ns1, op.beforeArgs), ns3, scope + Set(op.afterArgs));
    WhileEmission(op, ns, ns0, ns1, ns2, ns3);
  }

  lemma WhileEmission(op: Op, ns: Names, ns0: Names, ns1: Names, ns2: Names, ns3: Names)
    requires op.While? && Unnamed(ns, op.results) && NoDup(op.results)
    requires ns0 == NameAll(ns, op.results) && ns1 == NameAll(ns0, op.beforeArgs)
    requires |op.inits| == |op.beforeArgs| && |ResultNames(op, ns0)| == |op.condArgs| == |op.afterArgs|
    requires EmitOps(op.before, ns1).Emitted? && ns2 == EmitOps(op.before, ns1).names
      && ns3 == NameAll(ns2, op.afterArgs)
    requires Named(ns0, op.inits) && Named(ns1, op.inits) && Named(ns1, op.beforeArgs)
    requires Named(ns2, op.condArgs) && Named(ns3, op.condArgs) && Named(ns3, op.afterArgs) && op.cond in ns3.mapper
    requires EmitYielding(op.after, Lookup(ns1, op.beforeArgs), ns3).Emitted?
    ensures EmitOp(op, ns).Emitted?
  {
    hide NameAll, ResultNames, EmitYielding, EmitOps, Unnamed, NoDup, Lookup, Append;
  }

  lemma {:induction false} ForEmitted(op: Op, ns: Names, scope: set<Value>)
    requires op.For? && Fits(ns, scope, OpDefs(op)) && UniqueOp(op) && ScopedOp(op, scope)
    ensures EmitOp(op, ns).Emitted?
    decreases op, 1
  {
    hide Grown, NamesOk, NameAll, NameOne, ResultNames, OpsDefs, TopDefs, UniqueOps, ScopedOps, ScopedRegion, EmitOp,
      EmitYielding;
    ResultsNamed(op, ns);
    var ns0 := NameAll(ns, op.results);
    var ns1 := NameAll(ns0, op.iterArgs);
    NameAllGrows(ns0, op.iterArgs);
    KeysGrown(ns0, ns1, Set(op.iterArgs));
    var ns2 := NameOne(ns1, op.iv);
    NameOneGrows(ns1, op.iv);
    KeysGrown(ns1, ns2, {op.iv});
    YieldingEmitted(op.body, Lookup(ns1, op.iterArgs), ns2, scope + {op.iv} + Set(op.iterArgs));
    ForEmission(op, ns, ns0, ns1, ns2);
  }

  /** The checks of printOperation for a for loop, in one place. */
  lemma ForEmission(op: Op, ns: Names, ns0: Names, ns1: Names, ns2: Names)
    requires op.For? && Unnamed(ns, op.results) && NoDup(op.results)
    requires ns0 == NameAll(ns, op.results) && ns1 == NameAll(ns0, op.iterArgs) && ns2 == NameOne(ns1, op.iv)
    requires |ResultNames(op, ns0)| == |op.iterArgs| == |op.inits|
    requires Named(ns0, op.inits) && Named(ns1, op.inits) && Named(ns1, op.iterArgs)
    requires Named(ns2, [op.iv, op.lower, op.upper, op.step])
    requires EmitYielding(op.body, Lookup(ns1, op.iterArgs), ns2).Emitted?
    ensures EmitOp(op, ns).Emitted?
  {
    hide NameAll, NameOne, ResultNames, EmitYielding, Unnamed, NoDup, Lookup;
  }

  lemma KeysGrown(ns: Names, ns': Names, defs: set<Value>)
    requires Grown(ns, ns', defs)
    ensures NamesOk(ns') && ns'.mapper.Keys == ns.mapper.Keys + defs
  {
  }

  lemma {:induction false} OpsEmitted(ops: Ops, ns: Names, scope: set<Value>)
    requires Fits(ns, scope, OpsDefs(ops)) && UniqueOps(ops) && ScopedOps(ops, scope)
    ensures EmitOps(ops, ns).Emitted?
    decreases ops, 0
  {
    hide Grown, NamesOk;
    match ops
    case Nil =>
    case Cons(op, rest) =>
      OpEmitted(op, ns, scope);
      var ns1 := EmitOp(op, ns).names;
      OpGrows(op, ns);
      KeysGrown(ns, ns1, OpDefs(op));
      assert Set(op.results) <= OpDefs(op);
      OpsEmitted(rest, ns1, scope + Set(op.results));
  }

  lemma {:induction false} YieldingEmitted(r: Region, targets: seq<nat>, ns: Names, scope: set<Value>)
    requires Fits(ns, scope, OpsDefs(r.ops)) && UniqueOps(r.ops) && ScopedRegion(r, scope, |targets|)
    ensures EmitYielding(r, targets, ns).Emitted?
    decreases r, 0
  {
    hide Grown, NamesOk;
    OpsEmitted(r.ops, ns, scope);
    OpsGrow(r.ops, ns);
    KeysGrown(ns, EmitOps(r.ops, ns).names, OpsDefs(r.ops));
    TopDefsAreDefs(r.ops);
  }
}
