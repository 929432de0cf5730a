/**
  What SSA operations and the printed C statements mean. Both sides run on the same
  machine: a function for the straight-line operations, which may read and change a
  memory, and the truth, order and addition that branches and loops use.

  A loop consumes one unit of fuel per iteration, on both sides at the same points, so
  the two run out of fuel together exactly when they loop together.
*/
module EmitterSemantics {
  import opened Basics
  import opened EmitterModel

  datatype Machine<!D, !M> = Machine(
    call: (nat, seq<D>, M) -> (seq<D>, M),
    truth: D -> bool,
    less: (D, D) -> bool,
    add: (D, D) -> D,
    uninitialised: D)

  datatype Outcome<D, M> =
    | Done(env: map<nat, D>, mem: M)
    | Broke(env: map<nat, D>, mem: M)
    | Stuck
    | Timeout

  /** Simultaneous assignment. */
  ghost function Bind<D>(env: map<nat, D>, xs: seq<nat>, ds: seq<D>): map<nat, D>
    requires |xs| == |ds|
  {
    if xs == [] then env else Bind(env, xs[..|xs| - 1], ds[..|ds| - 1])[xs[|xs| - 1] := ds[|ds| - 1]]
  }

  ghost predicate Bound<D>(env: map<nat, D>, xs: seq<nat>)
  {
    forall x :: x in xs ==> x in env
  }

  ghost function Read<D>(env: map<nat, D>, xs: seq<nat>): (ds: seq<D>)
    requires Bound(env, xs)
    ensures |ds| == |xs|
  {
    seq(|xs|, i requires 0 <= i < |xs| => env[xs[i]])
  }

  /** Assignment one variable after the other. */
  ghost function CopyInTurn<D>(env: map<nat, D>, xs: seq<nat>, ys: seq<nat>): Option<map<nat, D>>
    requires |xs| == |ys|
  {
    if xs == [] then Some(env)
    else
      var n := |xs| - 1;
      match CopyInTurn(env, xs[..n], ys[..n])
      case None => None
      case Some(env') => if ys[n] in env' then Some(env'[xs[n] := env'[ys[n]]]) else None
  }

  // ----- SSA -----

  ghost function RunOps<D, M>(mc: Machine<D, M>, ops: Ops, env: map<nat, D>, mem: M, fuel: nat): Outcome<D, M>
    decreases fuel, ops, 0
  {
    match ops
    case Nil => Done(env, mem)
    case Cons(op, rest) =>
      match RunOp(mc, op, env, mem, fuel)
      case Done(env', mem') => RunOps(mc, rest, env', mem', fuel)
      case other => other
  }

  ghost function RunOp<D, M>(mc: Machine<D, M>, op: Op, env: map<nat, D>, mem: M, fuel: nat): Outcome<D, M>
    decreases fuel, op, 1
  {
    match op
    case Basic(rs, code, args) =>
      if !Bound(env, args) then Stuck
      else
        var (ds, mem') := mc.call(code, Read(env, args), mem);
        Define(env, rs, ds, mem')
    case If(rs, cond, onTrue, onFalse) =>
      if cond !in env then Stuck
      else if mc.truth(env[cond]) then DefineFrom(env, rs, RunOps(mc, onTrue.ops, env, mem, fuel), onTrue.yielded)
      else (match onFalse
            case None => Define(env, rs, [], mem)
            case Some(r) => DefineFrom(env, rs, RunOps(mc, r.ops, env, mem, fuel), r.yielded))
    case While(_, inits, _, _, _, _, _, _) =>
      if !Bound(env, inits) then Stuck else RunWhile(mc, op, env, Read(env, inits), mem, fuel)
    case For(_, lower, upper, step, inits, _, _, _) =>
      if !Bound(env, [lower, upper, step] + inits) then Stuck
      else RunFor(mc, op, env, env[lower], Read(env, inits), mem, fuel)
  }

  /** The results of an operation become visible. */
  ghost function Define<D, M>(env: map<nat, D>, rs: seq<Value>, ds: seq<D>, mem: M): Outcome<D, M>
  {
    if |rs| != |ds| then Stuck else Done(Bind(env, rs, ds), mem)
  }

  /** The results take the values a region yields; nothing else of the region stays visible. */
  ghost function DefineFrom<D, M>(env: map<nat, D>, rs: seq<Value>, inner: Outcome<D, M>,
      yielded: seq<Value>): Outcome<D, M>
  {
    match inner
    case Done(env', mem') => if Bound(env', yielded) then Define(env, rs, Read(env', yielded), mem') else Stuck
    case other => other
  }

  ghost function RunWhile<D, M>(mc: Machine<D, M>, w: Op, env: map<nat, D>, ds: seq<D>, mem: M,
      fuel: nat): Outcome<D, M>
    requires w.While?
    decreases fuel, w, 0
  {
    if fuel == 0 then Timeout
    else if |ds| != |w.beforeArgs| then Stuck
    else
      match RunOps(mc, w.before, Bind(env, w.beforeArgs, ds), mem, fuel - 1)
      case Done(env1, mem1) =>
        if w.cond !in env1 || !Bound(env1, w.condArgs) then Stuck
        else
          var out := Read(env1, w.condArgs);
          if !mc.truth(env1[w.cond]) then Define(env, w.results, out, mem1)
          else if |out| != |w.afterArgs| then Stuck
          else (match RunOps(mc, w.after.ops, Bind(env, w.afterArgs, out), mem1, fuel - 1)
                case Done(env2, mem2) =>
                  if Bound(env2, w.after.yielded) then
                    RunWhile(mc, w, env, Read(env2, w.after.yielded), mem2, fuel - 1)
                  else Stuck
                case other => other)
      case other => other
  }

  ghost function RunFor<D, M>(mc: Machine<D, M>, f: Op, env: map<nat, D>, i: D, ds: seq<D>, mem: M,
      fuel: nat): Outcome<D, M>
    requires f.For? && Bound(env, [f.lower, f.upper, f.step])
    decreases fuel, f, 0
  {
    if fuel == 0 then Timeout
    else if |ds| != |f.iterArgs| then Stuck
    else if !mc.less(i, env[f.upper]) then Define(env, f.results, ds, mem)
    else
      match RunOps(mc, f.body.ops, Bind(env, f.iterArgs, ds)[f.iv := i], mem, fuel - 1)
      case Done(env', mem') =>
        if Bound(env', f.body.yielded)
        then RunFor(mc, f, env, mc.add(i, env[f.step]), Read(env', f.body.yielded), mem', fuel - 1)
        else Stuck
      case other => other
  }

  // ----- C -----

  /** Leaving a block forgets the variables declared in it. */
  ghost function Leave<D>(env: map<nat, D>, outer: set<nat>): map<nat, D>
  {
    map x | x in env && x in outer :: env[x]
  }

  ghost function LeaveBlock<D, M>(o: Outcome<D, M>, outer: set<nat>): Outcome<D, M>
  {
    match o
    case Done(env, mem) => Done(Leave(env, outer), mem)
    case Broke(env, mem) => Broke(Leave(env, outer), mem)
    case other => other
  }

  ghost function ExecAll<D, M>(mc: Machine<D, M>, ss: Stmts, env: map<nat, D>, mem: M, fuel: nat): Outcome<D, M>
    decreases fuel, ss, 0
  {
    match ss
    case End => Done(env, mem)
    case Then(s, rest) =>
      match Exec(mc, s, env, mem, fuel)
      case Done(env', mem') => ExecAll(mc, rest, env', mem', fuel)
      case other => other
  }

  ghost function Exec<D, M>(mc: Machine<D, M>, s: Stmt, env: map<nat, D>, mem: M, fuel: nat): Outcome<D, M>
    decreases fuel, s, 1
  {
    match s
    case Declare(xs) => Done(Bind(env, xs, seq(|xs|, _ => mc.uninitialised)), mem)
    case DeclareCopies(xs, ys) => ExecCopies(env, xs, ys, mem)
    case Copies(xs, ys) => if Bound(env, xs) then ExecCopies(env, xs, ys, mem) else Stuck
    case Call(xs, code, args) =>
      if !Bound(env, args) || !Bound(env, xs) then Stuck
      else
        var (ds, mem') := mc.call(code, Read(env, args), mem);
        if |xs| != |ds| then Stuck else Done(Bind(env, xs, ds), mem')
    case IfElse(c, yes, no) =>
      if c !in env then Stuck
      else LeaveBlock(if mc.truth(env[c]) then ExecAll(mc, yes, env, mem, fuel)
        else ExecAll(mc, no, env, mem, fuel), env.Keys)
    case Forever(body) => ExecForever(mc, body, env, mem, fuel)
    case BreakUnless(c) => if c !in env then Stuck else if mc.truth(env[c]) then Done(env, mem) else Broke(env, mem)
    case ForTo(i, lower, upper, step, body) =>
      if lower !in env then Stuck
      else LeaveBlock(ExecFor(mc, i, upper, step, body, env[i := env[lower]], mem, fuel), env.Keys)
  }

  ghost function ExecCopies<D, M>(env: map<nat, D>, xs: seq<nat>, ys: seq<nat>, mem: M): Outcome<D, M>
  {
    if |xs| != |ys| then Stuck
    else match CopyInTurn(env, xs, ys) case None => Stuck case Some(env') => Done(env', mem)
  }

  ghost function ExecForever<D, M>(mc: Machine<D, M>, body: Stmts, env: map<nat, D>, mem: M, fuel: nat): Outcome<D, M>
    decreases fuel, body, 0
  {
    if fuel == 0 then Timeout
    else
      match LeaveBlock(ExecAll(mc, body, env, mem, fuel - 1), env.Keys)
      case Done(env', mem') => ExecForever(mc, body, env', mem', fuel - 1)
      case Broke(env', mem') => Done(env', mem')
      case other => other
  }

  ghost function ExecFor<D, M>(mc: Machine<D, M>, i: nat, upper: nat, step: nat, body: Stmts, env: map<nat, D>,
      mem: M, fuel: nat): Outcome<D, M>
    decreases fuel, body, 0
  {
    if fuel == 0 then Timeout
    else if !Bound(env, [i, upper, step]) then Stuck
    else if !mc.less(env[i], env[upper]) then Done(env, mem)
    else
      match LeaveBlock(ExecAll(mc, body, env, mem, fuel - 1), env.Keys)
      case Done(env', mem') =>
        if Bound(env', [i, step]) then
          ExecFor(mc, i, upper, step, body, env'[i := mc.add(env'[i], env'[step])], mem', fuel - 1)
        else Stuck
      case Broke(env', mem') => Done(env', mem')
      case other => other
  }
}
