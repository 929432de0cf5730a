/**
  Meaning preservation for whole functions (src/execution/CEmitter.cpp), and the loops
  for which it fails.
*/
module Emitter {
  import opened Basics
  import opened EmitterModel
  import opened EmitterNames
  import opened EmitterProof
  import opened EmitterSemantics
  import opened EmitterSteps
  import opened EmitterStores
  import EmitterText

  /** A function with one block. */
  datatype Func = Func(args: seq<Value>, body: Ops, returned: seq<Value>)

  /** The printed function. */
  datatype CFunc = CFunc(params: seq<nat>, body: Stmts, returned: seq<nat>)

  datatype Answer<D, M> = Returned(values: seq<D>, mem: M) | Wrong | NoFuel

  ghost predicate WellScoped(f: Func)
  {
    && NoDup(f.args) && UniqueOps(f.body) && Set(f.args) !! OpsDefs(f.body)
    && ScopedOps(f.body, Set(f.args)) && Set(f.returned) <= Set(f.args) + TopDefs(f.body)
  }

  /** The names an emitter that has already given out `count` names ends with. */
  function ParamNames(f: Func, count: nat): Names
  {
    NameAll(Names(map[], count), f.args)
  }

  function EmitFunc(f: Func, count: nat): Option<CFunc>
  {
    var ns := ParamNames(f, count);
    match EmitOps(f.body, ns)
    case Failed => None
    case Emitted(body, ns') =>
      if Named(ns, f.args) && Named(ns', f.returned) then
        Some(CFunc(Lookup(ns, f.args), body, Lookup(ns', f.returned)))
      else None
  }

  ghost function Answered<D, M>(o: Outcome<D, M>, returned: seq<nat>): Answer<D, M>
  {
    match o
    case Done(env, mem) => if Bound(env, returned) then Returned(Read(env, returned), mem) else Wrong
    case Timeout => NoFuel
    case _ => Wrong
  }

  ghost function RunFunc<D, M>(mc: Machine<D, M>, f: Func, ds: seq<D>, mem: M, fuel: nat): Answer<D, M>
    requires |ds| == |f.args|
  {
    Answered(RunOps(mc, f.body, Bind(map[], f.args, ds), mem, fuel), f.returned)
  }

  ghost function ExecFunc<D, M>(mc: Machine<D, M>, c: CFunc, ds: seq<D>, mem: M, fuel: nat): Answer<D, M>
    requires |ds| == |c.params|
  {
    Answered(ExecAll(mc, c.body, Bind(map[], c.params, ds), mem, fuel), c.returned)
  }

  lemma ParamNamesGrow(f: Func, count: nat)
    ensures Grown(Names(map[], count), ParamNames(f, count), Set(f.args)) && NamesOk(Names(map[], count))
      && Named(ParamNames(f, count), f.args)
  {
    NameAllGrows(Names(map[], count), f.args);
    assert forall v :: v in f.args ==> v in Set(f.args);
  }

  /** Every well-scoped function is emitted, and distinct values get distinct names. */
  lemma DistinctNames(f: Func, count: nat)
    requires WellScoped(f)
    ensures EmitFunc(f, count).Some?
    ensures var e := EmitOps(f.body, ParamNames(f, count));
      && e.Emitted? && e.names.mapper.Keys == Set(f.args) + OpsDefs(f.body)
      && forall v, w :: v in e.names.mapper && w in e.names.mapper && v != w ==> e.names.mapper[v] != e.names.mapper[w]
  {
    var ns := ParamNames(f, count);
    ParamNamesGrow(f, count);
    KeysGrown(Names(map[], count), ns, Set(f.args));
    OpsEmitted(f.body, ns, Set(f.args));
    var e := EmitOps(f.body, ns);
    OpsGrow(f.body, ns);
    KeysGrown(ns, e.names, OpsDefs(f.body));
    TopDefsAreDefs(f.body);
    assert forall v :: v in f.returned ==> v in Set(f.returned);
  }

  /**
    The printed function computes what the SSA function computes, whatever the machine,
    the arguments, the memory and the fuel: the same values and memory, or neither ends.
    Loops must yield operands that can be copied one after the other.
  */
  lemma EmittedFunctionKeepsMeaning<D, M>(mc: Machine<D, M>, f: Func, count: nat, ds: seq<D>, mem: M, fuel: nat)
    requires WellScoped(f) && SafeOps(f.body) && |ds| == |f.args|
    ensures EmitFunc(f, count).Some? && |EmitFunc(f, count).value.params| == |ds|
    ensures ExecFunc(mc, EmitFunc(f, count).value, ds, mem, fuel) == RunFunc(mc, f, ds, mem, fuel)
  {
    hide Rel, NamesOk, Extends, Grown, Bind, UniqueOps, ScopedOps, SafeOps, EmitOps, RunOps, ExecAll;
    var ns := ParamNames(f, count);
    DistinctNames(f, count);
    ParamNamesGrow(f, count);
    GrownNew(Names(map[], count), ns, Set(f.args));
    var env, store := Bind(map[], f.args, ds), Bind(map[], Lookup(ns, f.args), ds);
    EmptyRel<D>(ns);
    BindRel(map[], map[], ns, f.args, ds);
    BindAt(map[], f.args, ds);
    assert env.Keys == Set(f.args);
    SimOps(mc, f.body, env, store, mem, ns, fuel);
    OpsDefine(mc, f.body, env, mem, fuel);
    var e, o := EmitOps(f.body, ns), RunOps(mc, f.body, env, mem, fuel);
    if o.Done? {
      assert forall v :: v in f.returned ==> v in Set(f.returned);
      ReadRel(o.env, ExecAll(mc, e.stmts, store, mem, fuel).env, e.names, f.returned);
    }
  }

  lemma EmptyRel<D>(ns: Names)
    requires NamesOk(ns)
    ensures Rel<D>(map[], map[], ns)
  {
  }

  // ----- A loop for which it fails -----

  /** Integers; the loop below has no straight-line operations. */
  const INTEGERS: Machine<int, int> := Machine((_, _, m) => ([], m), d => d != 0, (a, b) => a < b, (a, b) => a + b, 0)

  /** A loop that swaps its iteration arguments 7 and 8: it yields 8 and 7. */
  const SWAP := For([5, 6], 0, 1, 2, [3, 4], 9, [7, 8], Region(Nil, [8, 7]))

  const SWAP_ONCE := Func([0, 1, 2, 3, 4], Cons(SWAP, Nil), [5, 6])

  function SwapInput(a: int, b: int): seq<int>
  {
    [0, 1, 1, a, b]
  }

  lemma SwapIsScoped()
    ensures WellScoped(SWAP_ONCE)
  {
    var f := SWAP_ONCE;
    SwapSets();
    hide Set;
    assert OpDefs(SWAP) == {5, 6, 7, 8, 9} && OpsDefs(f.body) == OpDefs(SWAP);
    assert TopDefs(f.body) == {5, 6};
    assert UniqueOp(SWAP);
    assert ScopedRegion(SWAP.body, {0, 1, 2, 3, 4} + {9} + {7, 8}, 2);
    assert ScopedOp(SWAP, {0, 1, 2, 3, 4});
  }

  lemma SwapSets()
    ensures Set([0, 1, 2, 3, 4]) == {0, 1, 2, 3, 4} && Set([5, 6]) == {5, 6} && Set([7, 8]) == {7, 8}
    ensures Set([3, 4]) == {3, 4} && Set([8, 7]) == {7, 8}
  {
  }

  lemma SwapRuns(a: int, b: int)
    ensures RunFunc(INTEGERS, SWAP_ONCE, SwapInput(a, b), 0, 2) == Returned([b, a], 0)
  {
    var env: map<nat, int> := map[0 := 0, 1 := 1, 2 := 1, 3 := a, 4 := b];
    assert Bind(map[], [0, 1, 2, 3, 4], SwapInput(a, b)) == env by { BindFive(0, 1, 1, a, b, 0, 1, 2, 3, 4); }
    assert Read(env, [3, 4]) == [a, b];
    var inner := env[7 := a][8 := b][9 := 0];
    assert Bind(env, [7, 8], [a, b]) == env[7 := a][8 := b] by { BindTwo(env, 7, 8, a, b); }
    assert Read(inner, [8, 7]) == [b, a];
    assert RunFor(INTEGERS, SWAP, env, 1, [b, a], 0, 1) == Done(Bind(env, [5, 6], [b, a]), 0);
    assert RunFor(INTEGERS, SWAP, env, 0, [a, b], 0, 2) == Done(Bind(env, [5, 6], [b, a]), 0);
    var out := env[5 := b][6 := a];
    assert Bind(env, [5, 6], [b, a]) == out by { BindTwo(env, 5, 6, b, a); }
    assert RunOp(INTEGERS, SWAP, env, 0, 2) == Done(out, 0);
    assert Read(out, [5, 6]) == [b, a];
  }

  lemma BindTwo(env: map<nat, int>, x: nat, y: nat, a: int, b: int)
    ensures Bind(env, [x, y], [a, b]) == env[x := a][y := b]
  {
    assert [x, y][..1] == [x] && [a, b][..1] == [a];
    assert [x][..0] == [] && [a][..0] == [];
    assert Bind(env, [x], [a]) == env[x := a];
  }

  lemma BindFive(a: int, b: int, c: int, d: int, e: int, x: nat, y: nat, z: nat, u: nat, v: nat)
    ensures Bind(map[], [x, y, z, u, v], [a, b, c, d, e]) == map[][x := a][y := b][z := c][u := d][v := e]
  {
    assert [x, y, z, u, v][..4] == [x, y, z, u] && [a, b, c, d, e][..4] == [a, b, c, d];
    assert [x, y, z, u][..3] == [x, y, z] && [a, b, c, d][..3] == [a, b, c];
    assert [x, y, z][..2] == [x, y] && [a, b, c][..2] == [a, b];
    BindTwo(map[], x, y, a, b);
    assert Bind(map[], [x, y, z], [a, b, c]) == map[][x := a][y := b][z := c];
    assert Bind(map[], [x, y, z, u], [a, b, c, d]) == map[][x := a][y := b][z := c][u := d];
  }

  /** The printed loop: `v8 = v9; v9 = v8;` at the end of its body. */
  const SWAP_LOOP := ForTo(10, 1, 2, 3, Then(Copies([8, 9], [9, 8]), End))
  const SWAP_BODY := Then(Declare([6, 7]),
    Then(DeclareCopies([8, 9], [4, 5]), Then(SWAP_LOOP, Then(Copies([6, 7], [8, 9]), End))))

  lemma NameTwo(ns: Names, v: Value, w: Value)
    requires v !in ns.mapper && w !in ns.mapper && v != w
    ensures NameAll(ns, [v, w]) == Names(ns.mapper[v := ns.count + 1][w := ns.count + 2], ns.count + 2)
  {
    assert [v, w][..1] == [v] && [v][..0] == [];
    assert NameAll(ns, [v]) == NameOne(ns, v);
  }

  const SWAP_PARAMS := Names(map[0 := 1, 1 := 2, 2 := 3, 3 := 4, 4 := 5], 5)
  const SWAP_NAMES := Names(SWAP_PARAMS.mapper[5 := 6][6 := 7][7 := 8][8 := 9][9 := 10], 10)

  lemma SwapParams()
    ensures ParamNames(SWAP_ONCE, 0) == SWAP_PARAMS
  {
    var none := Names(map[], 0);
    assert [0, 1, 2, 3, 4][..4] == [0, 1, 2, 3] && [0, 1, 2, 3][..3] == [0, 1, 2] && [0, 1, 2][..2] == [0, 1];
    NameTwo(none, 0, 1);
    assert NameAll(none, [0, 1, 2]) == Names(map[0 := 1, 1 := 2, 2 := 3], 3);
    assert NameAll(none, [0, 1, 2, 3]) == Names(map[0 := 1, 1 := 2, 2 := 3, 3 := 4], 4);
  }

  /** What is printed for an scf.for, name by name. */
  lemma ForPrinted(f: Op, ns: Names, ns0: Names, ns1: Names, ns2: Names, work: Stmts)
    requires f.For? && Unnamed(ns, f.results) && NoDup(f.results) && Named(ns0, f.inits)
      && ns0 == NameAll(ns, f.results) && ns1 == NameAll(ns0, f.iterArgs) && ns2 == NameOne(ns1, f.iv)
    requires Named(ns0, f.results) && Named(ns1, f.inits) && Named(ns1, f.iterArgs)
      && Named(ns2, [f.iv, f.lower, f.upper, f.step])
    requires EmitYielding(f.body, Lookup(ns1, f.iterArgs), ns2) == Emitted(work, ns2)
      && |f.inits| == |f.iterArgs| == |f.results|
    requires f.iv in ns2.mapper && f.lower in ns2.mapper && f.upper in ns2.mapper && f.step in ns2.mapper
    ensures EmitOp(f, ns) == Emitted(
      Then(Declare(Lookup(ns0, f.results)), Then(DeclareCopies(Lookup(ns1, f.iterArgs), Lookup(ns1, f.inits)),
        Then(ForTo(ns2.mapper[f.iv], ns2.mapper[f.lower], ns2.mapper[f.upper], ns2.mapper[f.step], work),
          Then(Copies(Lookup(ns0, f.results), Lookup(ns1, f.iterArgs)), End)))), ns2)
  {
    hide NameAll, NameOne, EmitYielding, Named, Unnamed;
  }

  lemma SwapOpPrinted()
    ensures EmitOp(SWAP, SWAP_PARAMS) == Emitted(SWAP_BODY, SWAP_NAMES)
  {
    hide EmitOp, NameAll, EmitYielding, Lookup, Named;
    var ns := SWAP_PARAMS;
    var ns0 := Names(ns.mapper[5 := 6][6 := 7], 7);
    var ns1 := Names(ns0.mapper[7 := 8][8 := 9], 9);
    NameTwo(ns, 5, 6);
    NameTwo(ns0, 7, 8);
    assert NameOne(ns1, 9) == SWAP_NAMES;
    LookupTwo(ns0, 5, 6); LookupTwo(ns1, 7, 8); LookupTwo(ns0, 3, 4); LookupTwo(ns1, 3, 4);
    LookupTwo(SWAP_NAMES, 8, 7); LookupTwo(SWAP_NAMES, 9, 0); LookupTwo(SWAP_NAMES, 1, 2);
    NamedPairs(SWAP_NAMES, 9, 0, 1, 2);
    YieldOnly([8, 7], [8, 9], SWAP_NAMES);
    ForPrinted(SWAP, ns, ns0, ns1, SWAP_NAMES, Then(Copies([8, 9], [9, 8]), End));
  }

  lemma LookupTwo(ns: Names, v: Value, w: Value)
    requires v in ns.mapper && w in ns.mapper
    ensures Named(ns, [v, w]) && Lookup(ns, [v, w]) == [ns.mapper[v], ns.mapper[w]]
  {
  }

  lemma NamedPairs(ns: Names, a: Value, b: Value, c: Value, d: Value)
    requires Named(ns, [a, b]) && Named(ns, [c, d])
    ensures Named(ns, [a, b, c, d])
  {
    assert [a, b, c, d] == [a, b] + [c, d];
  }

  /** A body without operations only copies. */
  lemma YieldOnly(yielded: seq<Value>, targets: seq<nat>, ns: Names)
    requires Named(ns, yielded) && |yielded| == |targets|
    ensures EmitYielding(Region(Nil, yielded), targets, ns) ==
      Emitted(Then(Copies(targets, Lookup(ns, yielded)), End), ns)
  {
  }

  lemma SwapPrinted()
    ensures EmitFunc(SWAP_ONCE, 0) == Some(CFunc([1, 2, 3, 4, 5], SWAP_BODY, [6, 7]))
  {
    SwapParams();
    SwapOpPrinted();
    hide EmitOp, NameAll;
    assert Append(SWAP_BODY, End) == SWAP_BODY by { EmitterText.AppendEnd(SWAP_BODY); }
    hide Append;
    assert EmitOps(SWAP_ONCE.body, SWAP_PARAMS) == Emitted(SWAP_BODY, SWAP_NAMES);
    hide EmitOps, ParamNames;
    assert Lookup(SWAP_PARAMS, [0, 1, 2, 3, 4]) == [1, 2, 3, 4, 5] && Lookup(SWAP_NAMES, [5, 6]) == [6, 7];
  }

  lemma SwapExecutes(a: int, b: int)
    ensures ExecFunc(INTEGERS, CFunc([1, 2, 3, 4, 5], SWAP_BODY, [6, 7]), SwapInput(a, b), 0, 2) == Returned([b, b], 0)
  {
    var store: map<nat, int> := map[1 := 0, 2 := 1, 3 := 1, 4 := a, 5 := b];
    assert Bind(map[], [1, 2, 3, 4, 5], SwapInput(a, b)) == store by { BindFive(0, 1, 1, a, b, 1, 2, 3, 4, 5); }
    var store0 := store[6 := 0][7 := 0];
    BindTwo(store, 6, 7, 0, 0);
    assert Blank(INTEGERS, 2) == [0, 0];
    DeclareStep(INTEGERS, [6, 7], SWAP_BODY.tail, store, 0, 2);
    var store1 := store0[8 := a][9 := b];
    CopyTwo(store0, 8, 9, 4, 5);
    OneStep(INTEGERS, SWAP_BODY.tail, store0, 0, 2);
    SwapLoopExecutes(store1, a, b);
    var store2 := store1[8 := b][9 := b];
    OneStep(INTEGERS, SWAP_BODY.tail.tail, store1, 0, 2);
    CopyTwo(store2, 6, 7, 8, 9);
    LastStep(INTEGERS, Copies([6, 7], [8, 9]), store2, 0, 2);
    var out := store2[6 := b][7 := b];
    assert Read(out, [6, 7]) == [b, b];
  }

  lemma CopyTwo(env: map<nat, int>, x: nat, y: nat, u: nat, v: nat)
    requires u in env && v in env
    ensures CopyInTurn(env, [x, y], [u, v]) == var env1 := env[x := env[u]]; Some(env1[y := env1[v]])
  {
    assert [x, y][..1] == [x] && [u, v][..1] == [u] && [x][..0] == [] && [u][..0] == [];
    assert CopyInTurn(env, [x], [u]) == Some(env[x := env[u]]);
  }

  /** Both iteration arguments end up with the second value: the first copy overwrites what the second one reads. */
  lemma SwapLoopExecutes(store: map<nat, int>, a: int, b: int)
    requires store == map[1 := 0, 2 := 1, 3 := 1, 4 := a, 5 := b, 6 := 0, 7 := 0, 8 := a, 9 := b]
    ensures Exec(INTEGERS, SWAP_LOOP, store, 0, 2) == Done(store[8 := b][9 := b], 0)
  {
    hide Exec, ExecFor;
    var s0 := store[10 := 0];
    SwapTurn(s0, b);
    LeaveSwap(store, b);
    ForToStep(INTEGERS, 10, 1, 2, 3, SWAP_LOOP.body, store, 0, 2);
  }

  lemma ForToStep<D, M>(mc: Machine<D, M>, i: nat, lower: nat, upper: nat, step: nat, body: Stmts, env: map<nat, D>,
      mem: M, fuel: nat)
    requires lower in env
    ensures Exec(mc, ForTo(i, lower, upper, step, body), env, mem, fuel) ==
      LeaveBlock(ExecFor(mc, i, upper, step, body, env[i := env[lower]], mem, fuel), env.Keys)
  {
    hide ExecFor;
  }

  lemma LeaveSwap(store: map<nat, int>, b: int)
    requires 8 in store && 9 in store && 10 !in store
    ensures Leave(store[10 := 0][8 := b][9 := b][10 := 1], store.Keys) == store[8 := b][9 := b]
  {
  }

  /** One turn of the printed loop, and the test that ends it. */
  lemma SwapTurn(s0: map<nat, int>, b: int)
    requires {2, 3, 8, 9, 10} <= s0.Keys && s0[2] == 1 && s0[3] == 1 && s0[9] == b && s0[10] == 0
    ensures ExecFor(INTEGERS, 10, 2, 3, SWAP_LOOP.body, s0, 0, 2) == Done(s0[8 := b][9 := b][10 := 1], 0)
  {
    assert 2 in s0 && 3 in s0 && 8 in s0 && 9 in s0 && 10 in s0;
    var body := SWAP_LOOP.body;
    CopyTwo(s0, 8, 9, 9, 8);
    var s1 := s0[8 := b][9 := b];
    LastStep(INTEGERS, Copies([8, 9], [9, 8]), s0, 0, 1);
    assert Leave(s1, s0.Keys) == s1;
    var s2 := s1[10 := 1];
    assert ExecFor(INTEGERS, 10, 2, 3, body, s2, 0, 1) == Done(s2, 0);
  }

  /** The printed swap is not a swap: of two different arguments it returns the second one twice. */
  lemma SwapChangesMeaning(a: int, b: int)
    requires a != b
    ensures WellScoped(SWAP_ONCE) && !SafeOps(SWAP_ONCE.body)
    ensures RunFunc(INTEGERS, SWAP_ONCE, SwapInput(a, b), 0, 2) == Returned([b, a], 0)
    ensures EmitFunc(SWAP_ONCE, 0).Some? && |EmitFunc(SWAP_ONCE, 0).value.params| == 5
    ensures ExecFunc(INTEGERS, EmitFunc(SWAP_ONCE, 0).value, SwapInput(a, b), 0, 2) == Returned([b, b], 0)
  {
    SwapIsScoped();
    SwapRuns(a, b);
    SwapPrinted();
    SwapExecutes(a, b);
    assert [8, 7][1] == [7, 8][0] && [8, 7][0] != [7, 8][0];
    assert !SafeOp(SWAP);
  }
}
