/**
  Steps the proof of the emitter takes again and again: composing C runs, declaring
  results, leaving blocks, and the values an SSA run binds.
*/
module EmitterSteps {
  import opened Basics
  import opened EmitterModel
  import opened EmitterNames
  import opened EmitterSemantics
  import opened EmitterStores

  /**
    The C run ends as the SSA run does; if both finish, the store represents the environment and
    old variables are untouched.
  */
  ghost predicate Simulates<D, M>(run: Outcome<D, M>, exec: Outcome<D, M>, store: map<nat, D>, ns: Names)
  {
    match run
    case Done(env, mem) => exec.Done? && exec.mem == mem && Rel(env, exec.env, ns) && Keep(store, exec.env)
    case Stuck => exec == Stuck
    case Timeout => exec == Timeout
    case Broke(_, _) => false
  }

  lemma {:induction false} ExecAppend<D, M>(mc: Machine<D, M>, a: Stmts, b: Stmts, store: map<nat, D>, mem: M,
      fuel: nat)
    ensures ExecAll(mc, Append(a, b), store, mem, fuel) ==
      match ExecAll(mc, a, store, mem, fuel)
      case Done(store', mem') => ExecAll(mc, b, store', mem', fuel)
      case other => other
  {
    match a
    case End =>
    case Then(s, rest) =>
      var o := Exec(mc, s, store, mem, fuel);
      if o.Done? {
        ExecAppend(mc, rest, b, o.env, o.mem, fuel);
      }
  }

  /** An operation that finishes has bound its results and nothing else. */
  ghost predicate Defined<D, M>(o: Outcome<D, M>, env: map<nat, D>, rs: seq<Value>)
  {
    && !o.Broke?
    && (o.Done? ==> o.env.Keys == env.Keys + Set(rs) && forall v :: v in env && v !in rs ==> o.env[v] == env[v])
  }

  lemma DefineDefines<D, M>(env: map<nat, D>, rs: seq<Value>, ds: seq<D>, mem: M)
    ensures Defined(Define(env, rs, ds, mem), env, rs)
  {
    if |rs| == |ds| {
      BindAt(env, rs, ds);
    }
  }

  lemma {:induction false} OpDefines<D, M>(mc: Machine<D, M>, op: Op, env: map<nat, D>, mem: M, fuel: nat)
    ensures Defined(RunOp(mc, op, env, mem, fuel), env, op.results)
    decreases fuel, op, 1
  {
    match op
    case Basic(rs, code, args) =>
      if Bound(env, args) {
        var (ds, mem') := mc.call(code, Read(env, args), mem);
        DefineDefines(env, rs, ds, mem');
      }
    case If(rs, cond, onTrue, onFalse) =>
      DefineDefines(env, rs, [], mem);
      RegionDefines(mc, onTrue, rs, env, mem, fuel);
      if onFalse.Some? {
        RegionDefines(mc, onFalse.value, rs, env, mem, fuel);
      }
    case While(_, inits, _, _, _, _, _, _) =>
      if Bound(env, inits) {
        WhileDefines(mc, op, env, Read(env, inits), mem, fuel);
      }
    case For(_, lower, upper, step, inits, _, _, _) =>
      if Bound(env, [lower, upper, step] + inits) {
        ForDefines(mc, op, env, env[lower], Read(env, inits), mem, fuel);
      }
  }

  lemma {:induction false} RegionDefines<D, M>(mc: Machine<D, M>, r: Region, rs: seq<Value>, env: map<nat, D>, mem: M,
      fuel: nat)
    ensures Defined(DefineFrom(env, rs, RunOps(mc, r.ops, env, mem, fuel), r.yielded), env, rs)
    decreases fuel, r, 1
  {
    OpsDefine(mc, r.ops, env, mem, fuel);
    var o := RunOps(mc, r.ops, env, mem, fuel);
    if o.Done? && Bound(o.env, r.yielded) {
      DefineDefines(env, rs, Read(o.env, r.yielded), o.mem);
    }
  }

  lemma {:induction false} WhileDefines<D, M>(mc: Machine<D, M>, w: Op, env: map<nat, D>, ds: seq<D>, mem: M, fuel: nat)
    requires w.While?
    ensures Defined(RunWhile(mc, w, env, ds, mem, fuel), env, w.results)
    decreases fuel, w, 0
  {
    if fuel > 0 && |ds| == |w.beforeArgs| {
      OpsDefine(mc, w.before, Bind(env, w.beforeArgs, ds), mem, fuel - 1);
      var o := RunOps(mc, w.before, Bind(env, w.beforeArgs, ds), mem, fuel - 1);
      if o.Done? && w.cond in o.env && Bound(o.env, w.condArgs) {
        var out := Read(o.env, w.condArgs);
        DefineDefines(env, w.results, out, o.mem);
        if |out| == |w.afterArgs| {
          OpsDefine(mc, w.after.ops, Bind(env, w.afterArgs, out), o.mem, fuel - 1);
          var o2 := RunOps(mc, w.after.ops, Bind(env, w.afterArgs, out), o.mem, fuel - 1);
          if o2.Done? && Bound(o2.env, w.after.yielded) {
            WhileDefines(mc, w, env, Read(o2.env, w.after.yielded), o2.mem, fuel - 1);
          }
        }
      }
    }
  }

  lemma {:induction false} ForDefines<D, M>(mc: Machine<D, M>, f: Op, env: map<nat, D>, i: D, ds: seq<D>, mem: M,
      fuel: nat)
    requires f.For? && Bound(env, [f.lower, f.upper, f.step])
    ensures Defined(RunFor(mc, f, env, i, ds, mem, fuel), env, f.results)
    decreases fuel, f, 0
  {
    if fuel > 0 && |ds| == |f.iterArgs| {
      DefineDefines(env, f.results, ds, mem);
      OpsDefine(mc, f.body.ops, Bind(env, f.iterArgs, ds)[f.iv := i], mem, fuel - 1);
      var o := RunOps(mc, f.body.ops, Bind(env, f.iterArgs, ds)[f.iv := i], mem, fuel - 1);
      if o.Done? && Bound(o.env, f.body.yielded) {
        ForDefines(mc, f, env, mc.add(i, env[f.step]), Read(o.env, f.body.yielded), o.mem, fuel - 1);
      }
    }
  }

  lemma {:induction false} OpsDefine<D, M>(mc: Machine<D, M>, ops: Ops, env: map<nat, D>, mem: M, fuel: nat)
    ensures var o := RunOps(mc, ops, env, mem, fuel);
      && !o.Broke?
      && (o.Done? ==>
           && o.env.Keys == env.Keys + TopDefs(ops)
           && forall v :: v in env && v !in TopDefs(ops) ==> o.env[v] == env[v])
    decreases fuel, ops, 0
  {
    match ops
    case Nil =>
    case Cons(op, rest) =>
      OpDefines(mc, op, env, mem, fuel);
      var o := RunOp(mc, op, env, mem, fuel);
      if o.Done? {
        OpsDefine(mc, rest, o.env, o.mem, fuel);
      }
  }

  /** Operations that define only new values keep the environment they started from. */
  lemma OpsKeep<D, M>(mc: Machine<D, M>, ops: Ops, env: map<nat, D>, mem: M, fuel: nat)
    requires OpsDefs(ops) !! env.Keys && RunOps(mc, ops, env, mem, fuel).Done?
    ensures Keep(env, RunOps(mc, ops, env, mem, fuel).env)
  {
    OpsDefine(mc, ops, env, mem, fuel);
    TopDefsAreDefs(ops);
  }

  /** Names given after `ns` are not in a store that `ns` covers. */
  lemma NewNames<D>(ns: Names, ns': Names, vs: seq<Value>, store: map<nat, D>)
    requires Extends(ns, ns') && Named(ns', vs) && Set(vs) !! ns.mapper.Keys
    requires forall x :: x in store ==> x <= ns.count
    ensures Set(Lookup(ns', vs)) !! store.Keys
  {
    assert forall v :: v in vs ==> v in Set(vs);
  }

  ghost function Blank<D, M>(mc: Machine<D, M>, n: nat): (ds: seq<D>)
    ensures |ds| == n
  {
    seq(n, _ => mc.uninitialised)
  }

  /** The declaration every operation starts with. */
  lemma DeclareResults<D, M>(mc: Machine<D, M>, rs: seq<Value>, env: map<nat, D>, store: map<nat, D>, ns: Names)
    requires Rel(env, store, ns) && NoDup(rs) && Set(rs) !! ns.mapper.Keys
    ensures var ns0 := NameAll(ns, rs); Grown(ns, ns0, Set(rs)) && Named(ns0, rs)
    ensures var ns0 := NameAll(ns, rs); var store0 := Bind(store, Lookup(ns0, rs), Blank(mc, |rs|));
      && Rel(env, store0, ns0) && Rel(Bind(env, rs, Blank(mc, |rs|)), store0, ns0)
      && Keep(store, store0) && Bound(store0, Lookup(ns0, rs))
  {
    var ns0 := NameAll(ns, rs);
    NameAllGrows(ns, rs);
    assert forall v :: v in rs ==> v in Set(rs);
    var xs, ds := Lookup(ns0, rs), Blank(mc, |rs|);
    assert Set(rs) !! env.Keys;
    hide NamesOk;
    ExtendRel(env, store, ns, ns0);
    JunkRel(env, store, ns0, rs, ds);
    BindRel(env, store, ns0, rs, ds);
    NewNames(ns, ns0, rs, store);
    BindKeeps(store, store, xs, ds);
    BindAt(store, xs, ds);
  }

  lemma DeclareStep<D, M>(mc: Machine<D, M>, xs: seq<nat>, rest: Stmts, store: map<nat, D>, mem: M, fuel: nat)
    ensures ExecAll(mc, Then(Declare(xs), rest), store, mem, fuel) ==
      ExecAll(mc, rest, Bind(store, xs, Blank(mc, |xs|)), mem, fuel)
  {
  }

  lemma OneStep<D, M>(mc: Machine<D, M>, ss: Stmts, store: map<nat, D>, mem: M, fuel: nat)
    requires ss.Then?
    ensures ExecAll(mc, ss, store, mem, fuel) ==
      match Exec(mc, ss.head, store, mem, fuel)
      case Done(store', mem') => ExecAll(mc, ss.tail, store', mem', fuel)
      case other => other
  {
  }

  /** Declared results and initialised arguments, then the rest. */
  lemma EntrySteps<D, M>(mc: Machine<D, M>, rs: seq<nat>, xs: seq<nat>, ys: seq<nat>, ds: seq<D>, store: map<nat, D>,
      store0: map<nat, D>, mem: M, rest: Stmts, fuel: nat)
    requires store0 == Bind(store, rs, Blank(mc, |rs|)) && |xs| == |ys| == |ds|
    requires CopyInTurn(store0, xs, ys) == Some(Bind(store0, xs, ds))
    ensures ExecAll(mc, Then(Declare(rs), Then(DeclareCopies(xs, ys), rest)), store, mem, fuel) ==
      ExecAll(mc, rest, Bind(store0, xs, ds), mem, fuel)
  {
    hide ExecAll, Bind, CopyInTurn;
    DeclareStep(mc, rs, Then(DeclareCopies(xs, ys), rest), store, mem, fuel);
    OneStep(mc, Then(DeclareCopies(xs, ys), rest), store0, mem, fuel);
  }

  lemma LastStep<D, M>(mc: Machine<D, M>, s: Stmt, store: map<nat, D>, mem: M, fuel: nat)
    ensures ExecAll(mc, Then(s, End), store, mem, fuel) == Exec(mc, s, store, mem, fuel)
  {
    var o := Exec(mc, s, store, mem, fuel);
    if o.Done? {
      assert ExecAll(mc, End, o.env, o.mem, fuel) == o;
    }
  }

  lemma SimulatesShape<D, M>(run: Outcome<D, M>, exec: Outcome<D, M>, store: map<nat, D>, ns: Names, ns': Names)
    requires Simulates(run, exec, store, ns)
    ensures run.Done? ==> exec.Done? && exec.mem == run.mem && Rel(run.env, exec.env, ns) && Keep(store, exec.env)
    ensures !run.Done? ==> Simulates(run, exec, store, ns') && exec == run && !run.Broke?
  {
  }

  lemma SimulatesAfter<D, M>(run: Outcome<D, M>, exec: Outcome<D, M>, store: map<nat, D>, store1: map<nat, D>,
      ns: Names)
    requires Simulates(run, exec, store1, ns) && Keep(store, store1)
    ensures Simulates(run, exec, store, ns)
  {
  }

  lemma RelNames<D>(env: map<nat, D>, store: map<nat, D>, ns: Names)
    requires Rel(env, store, ns)
    ensures NamesOk(ns) && env.Keys <= ns.mapper.Keys
    ensures forall x :: x in store ==> x <= ns.count
  {
  }

  lemma GrownNew(ns: Names, ns': Names, defs: set<Value>)
    requires Grown(ns, ns', defs)
    ensures Extends(ns, ns') && NamesOk(ns') && ns'.mapper.Keys == ns.mapper.Keys + defs
  {
  }

  ghost predicate Yields<D, M>(mc: Machine<D, M>, r: Region, run: Outcome<D, M>, exec: Outcome<D, M>, xs: seq<nat>,
      store: map<nat, D>, store1: map<nat, D>, ns1: Names)
  {
    match run
    case Done(env1, mem1) =>
      && Bound(env1, r.yielded) && |r.yielded| == |xs| && Rel(env1, store1, ns1) && Keep(store, store1)
      && exec == Done(Bind(store1, xs, Read(env1, r.yielded)), mem1)
    case Stuck => exec == Stuck
    case Timeout => exec == Timeout
    case Broke(_, _) => false
  }

  lemma ExtendsTwice(ns: Names, ns1: Names, ns2: Names)
    requires Extends(ns, ns1) && Extends(ns1, ns2)
    ensures Extends(ns, ns2)
  {
  }

  lemma RelAt<D>(env: map<nat, D>, store: map<nat, D>, ns: Names, v: Value)
    requires Rel(env, store, ns) && v in env
    ensures v in ns.mapper && ns.mapper[v] in store && store[ns.mapper[v]] == env[v]
  {
  }

  lemma KeepTwice<D>(a: map<nat, D>, b: map<nat, D>, c: map<nat, D>)
    requires Keep(a, b) && Keep(b, c)
    ensures Keep(a, c)
  {
  }

  /** Leaving a block in which the results were assigned. */
  lemma LeaveWithResults<D>(rs: seq<Value>, ds: seq<D>, blank: seq<D>, env: map<nat, D>, env1: map<nat, D>,
      store: map<nat, D>, store0: map<nat, D>, store1: map<nat, D>, ns0: Names, ns1: Names)
    requires |rs| == |ds| == |blank| && NoDup(rs) && Named(ns0, rs) && Extends(ns0, ns1)
    requires Rel(Bind(env, rs, blank), store0, ns0) && Keep(store, store0) && Set(Lookup(ns0, rs)) !! store.Keys
    requires Rel(env1, store1, ns1) && Keep(env, env1) && Keep(store0, store1)
    ensures var store2 := Leave(Bind(store1, Lookup(ns0, rs), ds), store0.Keys);
      Rel(Bind(env, rs, ds), store2, ns0) && Rel(Bind(env, rs, ds), store2, ns1) && Keep(store, store2)
  {
    hide Rel, Bind, Leave;
    RelNames(env1, store1, ns1);
    var xs := Lookup(ns0, rs);
    LookupExtended(ns0, ns1, rs);
    SubRel(env, env1, store1, ns1);
    BindRel(env, store1, ns1, rs, ds);
    BindAt(env, rs, ds);
    BindAt(env, rs, blank);
    var store2 := Leave(Bind(store1, xs, ds), store0.Keys);
    LeaveRel(Bind(env, rs, ds), Bind(store1, xs, ds), ns1, Bind(env, rs, blank), store0, ns0);
    ExtendRel(Bind(env, rs, ds), store2, ns0, ns1);
    KeepTwice(store, store0, store1);
    BindKeeps(store, store1, xs, ds);
    LeaveKeeps(store, Bind(store1, xs, ds), store0.Keys);
  }

  /** Copies of values from elsewhere are safe. */
  lemma OutsideSafe(rs: seq<Value>, us: seq<Value>, visible: set<Value>)
    requires Set(us) <= visible && Set(rs) !! visible
    ensures SafeCopies(rs, us)
  {
    assert forall j :: 0 <= j < |rs| ==> rs[j] in Set(rs);
    assert forall k :: 0 <= k < |us| ==> us[k] in Set(us);
  }

  lemma SimulatesLater<D, M>(run: Outcome<D, M>, exec: Outcome<D, M>, store: map<nat, D>, ns: Names, ns': Names)
    requires Simulates(run, exec, store, ns) && NamesOk(ns') && Extends(ns, ns')
    ensures Simulates(run, exec, store, ns')
  {
    if run.Done? {
      ExtendRel(run.env, exec.env, ns, ns');
    }
  }

  /** The condition is false and there is no else region. */
  lemma NoBranch<D>(env: map<nat, D>, store0: map<nat, D>)
    ensures Leave(store0, store0.Keys) == store0
    ensures Bind(env, [], []) == env
  {
  }

  lemma SimDone<D, M>(env: map<nat, D>, store1: map<nat, D>, mem: M, store: map<nat, D>, ns: Names)
    requires Rel(env, store1, ns) && Keep(store, store1)
    ensures Simulates(Done(env, mem), Done(store1, mem), store, ns)
  {
  }

  /** One printed zip loop, as an assignment at once. */
  lemma CopyOut<D>(env: map<nat, D>, store: map<nat, D>, ns: Names, targets: seq<Value>, operands: seq<Value>)
    requires Rel(env, store, ns) && Named(ns, targets) && NoDup(targets) && Bound(env, operands)
    requires |targets| == |operands| && SafeCopies(targets, operands)
    ensures Named(ns, operands)
    ensures CopyInTurn(store, Lookup(ns, targets), Lookup(ns, operands)) ==
      Some(Bind(store, Lookup(ns, targets), Read(env, operands)))
  {
    ReadRel(env, store, ns, operands);
    LookupNoDup(ns, targets);
    LookupSafe(ns, ns, targets, operands);
    SafeCopiesAtOnce(store, Lookup(ns, targets), Lookup(ns, operands));
  }

  /** A store in which the results are declared represents them with whatever they hold. */
  lemma DeclaredJunk<D>(env: map<nat, D>, rs: seq<Value>, store: map<nat, D>, ns: Names)
    requires Rel(env, store, ns) && Named(ns, rs) && NoDup(rs) && Set(rs) !! env.Keys && Bound(store, Lookup(ns, rs))
    ensures Rel(Bind(env, rs, Read(store, Lookup(ns, rs))), store, ns)
  {
    var ds := Read(store, Lookup(ns, rs));
    BindAt(env, rs, ds);
    forall v | v in rs
      ensures ns.mapper[v] in store && store[ns.mapper[v]] == Bind(env, rs, ds)[v]
    {
      var i :| 0 <= i < |rs| && rs[i] == v;
      assert Lookup(ns, rs)[i] == ns.mapper[v];
    }
  }

  lemma BoundNames<D>(env: map<nat, D>, store: map<nat, D>, ns: Names, vs: seq<Value>)
    requires Rel(env, store, ns) && Bound(env, vs)
    ensures Named(ns, vs) && Bound(store, Lookup(ns, vs))
  {
  }

  lemma LeaveKeys<D>(store: map<nat, D>, outer: map<nat, D>)
    requires outer.Keys <= store.Keys
    ensures Leave(store, outer.Keys).Keys == outer.Keys
  {
  }
}
