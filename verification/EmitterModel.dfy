/**
  The C emitter's structured control flow (src/execution/CEmitter.cpp): SSA operations
  with regions on one side, the C statements printed for them on the other.

  Straight-line operations are opaque: an operation code and its operands. Types,
  arithmetic templates, labels and the mode that declares variables at the top of a
  function are not part of the model.
*/
module EmitterModel {
  import opened Basics

  /** An SSA value: an operation result or a block argument. */
  type Value = nat

  // ----- SSA operations -----

  datatype Ops = Nil | Cons(head: Op, tail: Ops)

  /** The operations of a block and the operands of its trailing scf.yield. */
  datatype Region = Region(ops: Ops, yielded: seq<Value>)

  datatype Op =
    | Basic(results: seq<Value>, code: nat, args: seq<Value>)
    | If(results: seq<Value>, cond: Value, onTrue: Region, onFalse: Option<Region>)
    | While(results: seq<Value>, inits: seq<Value>, beforeArgs: seq<Value>, before: Ops, cond: Value,
      condArgs: seq<Value>,
            afterArgs: seq<Value>, after: Region)
    | For(results: seq<Value>, lower: Value, upper: Value, step: Value, inits: seq<Value>, iv: Value,
      iterArgs: seq<Value>,
          body: Region)

  ghost function Set(vs: seq<Value>): set<Value>
  {
    set v | v in vs
  }

  /** The values an operation makes visible to the operations after it. */
  ghost function TopDefs(ops: Ops): set<Value>
  {
    match ops
    case Nil => {}
    case Cons(op, rest) => Set(op.results) + TopDefs(rest)
  }

  /** All values defined in an operation, nested regions and block arguments included. */
  ghost function OpDefs(op: Op): set<Value>
  {
    match op
    case Basic(rs, _, _) => Set(rs)
    case If(rs, _, onTrue, onFalse) =>
      Set(rs) + OpsDefs(onTrue.ops) + (match onFalse case None => {} case Some(r) => OpsDefs(r.ops))
    case While(rs, _, befores, before, _, _, afters, after) =>
      Set(rs) + Set(befores) + OpsDefs(before) + Set(afters) + OpsDefs(after.ops)
    case For(rs, _, _, _, _, iv, iters, body) => Set(rs) + Set(iters) + {iv} + OpsDefs(body.ops)
  }

  ghost function OpsDefs(ops: Ops): set<Value>
  {
    match ops
    case Nil => {}
    case Cons(op, rest) => OpDefs(op) + OpsDefs(rest)
  }

  /** Every value is defined in one place: a result or block argument is an object of its own. */
  ghost predicate UniqueOp(op: Op)
  {
    && NoDup(op.results)
    && match op
       case Basic(_, _, _) => true
       case If(rs, _, onTrue, onFalse) =>
         && UniqueOps(onTrue.ops) && Set(rs) !! OpsDefs(onTrue.ops)
         && (match onFalse
             case None => true
             case Some(r) => UniqueOps(r.ops) && OpsDefs(r.ops) !! Set(rs) + OpsDefs(onTrue.ops))
       case While(rs, _, befores, before, _, _, afters, after) =>
         && NoDup(befores) && NoDup(afters) && UniqueOps(before) && UniqueOps(after.ops)
         && Set(rs) !! Set(befores) && OpsDefs(before) !! Set(rs) + Set(befores)
         && Set(afters) !! Set(rs) + Set(befores) + OpsDefs(before)
         && OpsDefs(after.ops) !! Set(rs) + Set(befores) + OpsDefs(before) + Set(afters)
       case For(rs, _, _, _, _, iv, iters, body) =>
         && NoDup(iters) && UniqueOps(body.ops)
         && Set(rs) !! Set(iters) && {iv} !! Set(rs) + Set(iters)
         && OpsDefs(body.ops) !! Set(rs) + Set(iters) + {iv}
  }

  ghost predicate UniqueOps(ops: Ops)
  {
    match ops
    case Nil => true
    case Cons(op, rest) => UniqueOp(op) && UniqueOps(rest) && OpDefs(op) !! OpsDefs(rest)
  }

  /** Operands are visible where they are used, and the lists that are matched up have equal length. */
  ghost predicate ScopedOp(op: Op, scope: set<Value>)
  {
    match op
    case Basic(_, _, args) => Set(args) <= scope
    case If(rs, cond, onTrue, onFalse) =>
      && cond in scope && ScopedRegion(onTrue, scope, |rs|)
      && (match onFalse case None => rs == [] case Some(r) => ScopedRegion(r, scope, |rs|))
    case While(rs, inits, befores, before, cond, condArgs, afters, after) =>
      && Set(inits) <= scope && |inits| == |befores| && |condArgs| == |afters| == |rs|
      && ScopedOps(before, scope + Set(befores))
      && {cond} + Set(condArgs) <= scope + Set(befores) + TopDefs(before)
      && ScopedRegion(after, scope + Set(afters), |befores|)
    case For(rs, lower, upper, step, inits, iv, iters, body) =>
      && {lower, upper, step} + Set(inits) <= scope && |inits| == |iters| == |rs|
      && ScopedRegion(body, scope + {iv} + Set(iters), |iters|)
  }

  ghost predicate ScopedOps(ops: Ops, scope: set<Value>)
  {
    match ops
    case Nil => true
    case Cons(op, rest) => ScopedOp(op, scope) && ScopedOps(rest, scope + Set(op.results))
  }

  ghost predicate ScopedRegion(r: Region, scope: set<Value>, n: nat)
  {
    ScopedOps(r.ops, scope) && Set(r.yielded) <= scope + TopDefs(r.ops) && |r.yielded| == n
  }

  /** Copying `ys` into `xs` one after the other reads no variable that was overwritten with something else. */
  ghost predicate SafeCopies(xs: seq<nat>, ys: seq<nat>)
  {
    forall j, k :: 0 <= j < k < |xs| && k < |ys| && ys[k] == xs[j] ==> ys[j] == xs[j]
  }

  /** Every loop yields operands that can be copied into its iteration arguments one after the other. */
  ghost predicate SafeOp(op: Op)
  {
    match op
    case Basic(_, _, _) => true
    case If(_, _, onTrue, onFalse) => SafeOps(onTrue.ops)
      && (match onFalse case None => true case Some(r) => SafeOps(r.ops))
    case While(_, _, _, before, _, _, _, after) => SafeOps(before) && SafeOps(after.ops)
    case For(_, _, _, _, _, _, iters, body) => SafeOps(body.ops) && SafeCopies(iters, body.yielded)
  }

  ghost predicate SafeOps(ops: Ops)
  {
    match ops
    case Nil => true
    case Cons(op, rest) => SafeOp(op) && SafeOps(rest)
  }

  // ----- C statements -----

  datatype Stmts = End | Then(head: Stmt, tail: Stmts)

  /** One constructor per loop or line that prints; names are the numbers after the `v`. */
  datatype Stmt =
    | Declare(xs: seq<nat>)
    | DeclareCopies(xs: seq<nat>, ys: seq<nat>)
    | Copies(xs: seq<nat>, ys: seq<nat>)
    | Call(xs: seq<nat>, code: nat, args: seq<nat>)
    | IfElse(c: nat, yes: Stmts, no: Stmts)
    | Forever(body: Stmts)
    | BreakUnless(c: nat)
    | ForTo(i: nat, lower: nat, upper: nat, step: nat, body: Stmts)

  function Append(a: Stmts, b: Stmts): Stmts
  {
    match a
    case End => b
    case Then(s, rest) => Then(s, Append(rest, b))
  }

  // ----- Names -----

  /** `valueMapper` and the counter on top of `valueInScopeCount`. */
  datatype Names = Names(mapper: map<Value, nat>, count: nat)

  /** getOrCreateName. */
  function NameOne(ns: Names, v: Value): Names
  {
    if v in ns.mapper then ns else Names(ns.mapper[v := ns.count + 1], ns.count + 1)
  }

  function NameAll(ns: Names, vs: seq<Value>): Names
  {
    if vs == [] then ns else NameOne(NameAll(ns, vs[..|vs| - 1]), vs[|vs| - 1])
  }

  predicate Named(ns: Names, vs: seq<Value>)
  {
    forall v :: v in vs ==> v in ns.mapper
  }

  predicate Unnamed(ns: Names, vs: seq<Value>)
  {
    forall v :: v in vs ==> v !in ns.mapper
  }

  function Lookup(ns: Names, vs: seq<Value>): (xs: seq<nat>)
    requires Named(ns, vs)
    ensures |xs| == |vs|
  {
    seq(|vs|, i requires 0 <= i < |vs| => ns.mapper[vs[i]])
  }

  // ----- Emission -----

  datatype Emission = Emitted(stmts: Stmts, names: Names) | Failed

  /**
    printOperation. It fails where the source reports an error, and also where the
    source would print the name of a variable that was never declared or would zip a
    loop's arguments with a list of another length.
  */
  function EmitOp(op: Op, ns: Names): Emission
    decreases op, 1
  {
    if !Unnamed(ns, op.results) || !NoDup(op.results) then Failed
    else
      var ns := NameAll(ns, op.results);
      var rs := ResultNames(op, ns);
      match op
      case Basic(_, code, args) =>
        if !Named(ns, args) then Failed
        else Emitted(Then(Declare(rs), Then(Call(rs, code, Lookup(ns, args)), End)), ns)
      case If(_, cond, onTrue, onFalse) =>
        if cond !in ns.mapper then Failed
        else (match EmitYielding(onTrue, rs, ns)
              case Failed => Failed
              case Emitted(yes, ns1) =>
                match onFalse
                case None => Emitted(Then(Declare(rs), Then(IfElse(ns.mapper[cond], yes, End), End)), ns1)
                case Some(r) =>
                  match EmitYielding(r, rs, ns1)
                  case Failed => Failed
                  case Emitted(no, ns2) => Emitted(Then(Declare(rs), Then(IfElse(ns.mapper[cond], yes, no), End)), ns2))
      case While(_, inits, befores, before, cond, condArgs, afters, after) =>
        var ns1 := NameAll(ns, befores);
        if |inits| != |befores| || |condArgs| != |afters| || |condArgs| != |rs| then Failed
        else if !Named(ns, inits) || !Named(ns1, inits) then Failed
        else (match EmitOps(before, ns1)
              case Failed => Failed
              case Emitted(test, ns2) =>
                var ns3 := NameAll(ns2, afters);
                if !Named(ns2, condArgs) || !Named(ns3, condArgs) || cond !in ns3.mapper then Failed
                else if !Named(ns1, befores) || !Named(ns3, afters) then Failed
                else
                  match EmitYielding(after, Lookup(ns1, befores), ns3)
                  case Failed => Failed
                  case Emitted(work, ns4) =>
                    var args := Lookup(ns3, condArgs);
                    var rest := Then(DeclareCopies(Lookup(ns3, afters), args),
                      Then(Copies(rs, args), Then(BreakUnless(ns3.mapper[cond]), work)));
                    Emitted(Then(Declare(rs), Then(DeclareCopies(Lookup(ns1, befores), Lookup(ns1, inits)),
                            Then(Forever(Append(test, rest)), End))), ns4))
      case For(_, lower, upper, step, inits, iv, iters, body) =>
        var ns1 := NameAll(ns, iters);
        var ns2 := NameOne(ns1, iv);
        if |inits| != |iters| || |rs| != |iters| then Failed
        else if !Named(ns, inits) || !Named(ns1, inits) || !Named(ns2, [iv, lower, upper, step])
          || !Named(ns1, iters) then Failed
        else (match EmitYielding(body, Lookup(ns1, iters), ns2)
              case Failed => Failed
              case Emitted(work, ns3) =>
                Emitted(Then(Declare(rs), Then(DeclareCopies(Lookup(ns1, iters), Lookup(ns1, inits)),
                        Then(ForTo(ns2.mapper[iv], ns2.mapper[lower], ns2.mapper[upper], ns2.mapper[step], work),
                        Then(Copies(rs, Lookup(ns1, iters)), End)))), ns3))
  }

  function ResultNames(op: Op, ns: Names): seq<nat>
  {
    if Named(ns, op.results) then Lookup(ns, op.results) else []
  }

  function EmitOps(ops: Ops, ns: Names): Emission
    decreases ops, 0
  {
    match ops
    case Nil => Emitted(End, ns)
    case Cons(op, rest) =>
      match EmitOp(op, ns)
      case Failed => Failed
      case Emitted(s, ns1) =>
        match EmitOps(rest, ns1)
        case Failed => Failed
        case Emitted(ss, ns2) => Emitted(Append(s, ss), ns2)
  }

  /** A region whose trailing yield copies its operands into `targets`. */
  function EmitYielding(r: Region, targets: seq<nat>, ns: Names): Emission
    decreases r, 0
  {
    match EmitOps(r.ops, ns)
    case Failed => Failed
    case Emitted(ss, ns1) =>
      if |r.yielded| != |targets| || !Named(ns1, r.yielded) then Failed
      else Emitted(Append(ss, Then(Copies(targets, Lookup(ns1, r.yielded)), End)), ns1)
  }
}
