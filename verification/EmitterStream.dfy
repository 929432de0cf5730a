/**
  The emitter as the source writes it (src/execution/CEmitter.cpp): an object that
  appends to an output stream and fills `valueMapper` while it recurses over the
  operations. Its output is the text of the statements the functional model emits.
*/
module EmitterStream {
  import opened Basics
  import opened Emitter
  import opened EmitterModel
  import opened EmitterFor
  import opened EmitterNames
  import opened EmitterSemantics
  import opened EmitterText
  import opened EmitterWhile

  lemma {:induction false} NamedByAll(ns: Names, vs: seq<Value>)
    ensures Named(NameAll(ns, vs), vs)
    ensures forall v :: v in ns.mapper ==> v in NameAll(ns, vs).mapper && NameAll(ns, vs).mapper[v] == ns.mapper[v]
  {
    if vs == [] {
    } else {
      NamedByAll(ns, vs[..|vs| - 1]);
    }
  }

  lemma {:induction false} NamedStays(ns: Names, vs: seq<Value>)
    requires Named(ns, vs)
    ensures NameAll(ns, vs) == ns
  {
    if vs == [] {
    } else {
      NamedStays(ns, vs[..|vs| - 1]);
    }
  }

  /** Naming a list one value further. */
  lemma NameNext(ns: Names, vs: seq<Value>, k: nat)
    requires k < |vs|
    ensures NameAll(ns, vs[..k + 1]) == NameOne(NameAll(ns, vs[..k]), vs[k])
  {
    assert vs[..k + 1][..k] == vs[..k];
  }

  /** The first `k` pairs have been named and printed. */
  ghost predicate Copied(ns: Names, st: Names, xs: seq<Value>, ys: seq<Value>, k: nat, declare: bool, lines: seq<Token>)
    requires k <= |xs| == |ys|
  {
    && st == NameAll(ns, xs[..k]) && Named(st, xs[..k]) && Named(st, ys)
    && lines == CopyLines(Lookup(st, xs[..k]), Lookup(st, ys[..k]), declare)
  }

  lemma NothingCopied(ns: Names, xs: seq<Value>, ys: seq<Value>, declare: bool)
    ensures |xs| == |ys| && Named(ns, ys) ==> Copied(ns, ns, xs, ys, 0, declare, [])
  {
  }

  lemma CopyNext(ns: Names, st: Names, st': Names, xs: seq<Value>, ys: seq<Value>, k: nat, declare: bool,
      lines: seq<Token>)
    requires k < |xs| == |ys| && Copied(ns, st, xs, ys, k, declare, lines) && st' == NameOne(st, xs[k])
    ensures xs[k] in st'.mapper && ys[k] in st'.mapper && NameOne(st', ys[k]) == st'
    ensures var x, y := st'.mapper[xs[k]], st'.mapper[ys[k]];
      Copied(ns, st', xs, ys, k + 1, declare, lines + [if declare then DeclaredCopy(x, y) else Copy(x, y)])
  {
    NameNext(ns, xs, k);
    NamedByAll(ns, xs[..k + 1]);
    hide NameAll;
    assert Lookup(st', xs[..k + 1]) == Lookup(st, xs[..k]) + [st'.mapper[xs[k]]];
    assert Lookup(st', ys[..k + 1]) == Lookup(st, ys[..k]) + [st'.mapper[ys[k]]];
  }

  lemma AllCopied(ns: Names, st: Names, xs: seq<Value>, ys: seq<Value>, declare: bool, lines: seq<Token>)
    requires |xs| == |ys| && Copied(ns, st, xs, ys, |xs|, declare, lines)
    ensures st == NameAll(ns, xs) && Named(st, xs) && Named(st, ys)
    ensures lines == CopyLines(Lookup(st, xs), Lookup(st, ys), declare)
  {
    assert xs[..|xs|] == xs && ys[..|ys|] == ys;
  }

  class CppEmitter {
    var mapper: map<Value, nat>
    var count: nat
    var os: seq<Token>

    function State(): Names
      reads this
    {
      Names(mapper, count)
    }

    constructor (used: nat)
      ensures State() == Names(map[], used) && os == []
    {
      mapper, count, os := map[], used, [];
    }

    method GetOrCreateName(v: Value) returns (x: nat)
      modifies `mapper, `count
      ensures State() == NameOne(old(State()), v) && v in mapper && x == mapper[v]
    {
      if v !in mapper {
        count := count + 1;
        mapper := mapper[v := count];
      }
      x := mapper[v];
    }

    /** emitVariableDeclaration for each result; an error if one of them has a name already. */
    method DeclareResults(vs: seq<Value>) returns (ok: bool)
      modifies this
      ensures Unnamed(old(State()), vs) && NoDup(vs) ==>
        ok && State() == NameAll(old(State()), vs) && Named(State(), vs)
          && os == old(os) + Declarations(Lookup(State(), vs))
    {
      ghost var ns := State();
      for k := 0 to |vs|
        invariant State() == NameAll(ns, vs[..k]) && Named(State(), vs[..k])
        invariant os == old(os) + Declarations(Lookup(State(), vs[..k]))
      {
        if vs[k] in mapper {
          DeclaredTwice(ns, vs, k);
          return false;
        }
        ghost var names := Lookup(State(), vs[..k]);
        NameNext(ns, vs, k);
        NamedByAll(ns, vs[..k + 1]);
        var x := GetOrCreateName(vs[k]);
        assert Lookup(State(), vs[..k + 1]) == names + [x];
        os := os + [Declaration(x)];
      }
      assert vs[..|vs|] == vs;
      ok := true;
    }

    /** A printed zip loop: one line per pair, naming both sides as it goes. */
    method PrintCopies(xs: seq<Value>, ys: seq<Value>, declare: bool)
      modifies this
      ensures |xs| == |ys| && Named(old(State()), ys) ==>
        && State() == NameAll(old(State()), xs) && Named(State(), xs) && Named(State(), ys)
        && os == old(os) + CopyLines(Lookup(State(), xs), Lookup(State(), ys), declare)
    {
      hide Copied, NameAll;
      ghost var ns := State();
      ghost var usual := |xs| == |ys| && Named(ns, ys);
      ghost var lines: seq<Token> := [];
      NothingCopied(ns, xs, ys, declare);
      var k := 0;
      while k < |xs| && k < |ys|
        invariant 0 <= k <= |xs| && k <= |ys| && os == old(os) + lines
        invariant usual ==> Copied(ns, State(), xs, ys, k, declare, lines)
      {
        ghost var before := State();
        var x := GetOrCreateName(xs[k]);
        if usual {
          CopyNext(ns, before, State(), xs, ys, k, declare, lines);
        }
        var y := GetOrCreateName(ys[k]);
        var line := if declare then DeclaredCopy(x, y) else Copy(x, y);
        os, lines := os + [line], lines + [line];
        k := k + 1;
      }
      if usual {
        AllCopied(ns, State(), xs, ys, declare, lines);
      }
    }

    /** scf.yield: an error unless there is one visible operand per target. */
    method PrintYield(xs: seq<Value>, ys: seq<Value>) returns (ok: bool)
      modifies this
      ensures |xs| == |ys| && Named(old(State()), xs) && Named(old(State()), ys) ==>
        ok && State() == old(State()) && os == old(os) + CopyLines(Lookup(State(), xs), Lookup(State(), ys), false)
    {
      if |xs| != |ys| {
        return false;
      }
      ghost var ns := State();
      ghost var usual := Named(ns, xs) && Named(ns, ys);
      for k := 0 to |xs|
        invariant usual ==> State() == ns && os == old(os) + CopyLines(Lookup(ns, xs[..k]), Lookup(ns, ys[..k]), false)
      {
        var x := GetOrCreateName(xs[k]);
        if ys[k] !in mapper {
          return false;
        }
        var y := GetOrCreateName(ys[k]);
        os := os + [Copy(x, y)];
        assert usual ==> Lookup(ns, xs[..k + 1]) == Lookup(ns, xs[..k]) + [x];
        assert usual ==> Lookup(ns, ys[..k + 1]) == Lookup(ns, ys[..k]) + [y];
      }
      assert xs[..|xs|] == xs && ys[..|ys|] == ys;
      ok := true;
    }

    /**
      A function with one block, in a scope of its own. A single returned value is named
      without a check; several must be visible.
    */
    method PrintFunction(f: Func) returns (ok: bool)
      modifies this
      ensures mapper == old(mapper) && count == old(count)
      ensures old(mapper) == map[] && EmitFunc(f, old(count)).Some? ==>
        ok && os == old(os) + FunctionText(EmitFunc(f, old(count)).value)
    {
      var outerMapper, outerCount := mapper, count;
      ok := PrintParts(f);
      mapper, count := outerMapper, outerCount;
    }

    method PrintParts(f: Func) returns (ok: bool)
      modifies this
      ensures old(mapper) == map[] && EmitFunc(f, old(count)).Some? ==>
        ok && os == old(os) + FunctionText(EmitFunc(f, old(count)).value)
    {
      hide NamesOk, EmitOps;
      ghost var usual := mapper == map[] && EmitFunc(f, count).Some?;
      if usual {
        ParamNamesGrow(f, count);
        GrownExtends(State(), ParamNames(f, count), Set(f.args));
      }
      var params := NameParams(f.args);
      os := os + [FunctionLine(params)];
      ok := PrintOps(f.body);
      if !ok {
        return;
      }
      var xs;
      if |f.returned| == 1 {
        var x := GetOrCreateName(f.returned[0]);
        xs := [x];
      } else if Named(State(), f.returned) {
        xs := Lookup(State(), f.returned);
      } else {
        return false;
      }
      os := os + [ReturnLine(xs)] + [Brace];
      if usual {
        var c := EmitFunc(f, old(count)).value;
        assert xs == c.returned && params == c.params;
        assert os == old(os) + FunctionText(c);
      }
    }

    /** The names of the parameters, in order. */
    method NameParams(vs: seq<Value>) returns (xs: seq<nat>)
      modifies `mapper, `count
      ensures State() == NameAll(old(State()), vs) && Named(State(), vs) && xs == Lookup(State(), vs)
    {
      ghost var ns := State();
      xs := [];
      for k := 0 to |vs|
        invariant State() == NameAll(ns, vs[..k]) && Named(State(), vs[..k]) && xs == Lookup(State(), vs[..k])
      {
        NameNext(ns, vs, k);
        NamedByAll(ns, vs[..k + 1]);
        var x := GetOrCreateName(vs[k]);
        assert Lookup(State(), vs[..k + 1]) == xs + [x];
        xs := xs + [x];
      }
      assert vs[..|vs|] == vs;
    }

    /** Whenever the functional model emits the operation, so does the object, with the same names and the same text. */
    method PrintOp(op: Op) returns (ok: bool)
      modifies this
      ensures NamesOk(old(State())) && EmitOp(op, old(State())).Emitted? ==>
        ok && State() == EmitOp(op, old(State())).names && os == old(os) + AllText(EmitOp(op, old(State())).stmts)
      decreases op, 2
    {
      match op
      case Basic(_, _, _) => ok := PrintBasic(op);
      case If(_, _, _, _) => ok := PrintIf(op);
      case While(_, _, _, _, _, _, _, _) => ok := PrintWhile(op);
      case For(_, _, _, _, _, _, _, _) => ok := PrintFor(op);
    }

    method PrintOps(ops: Ops) returns (ok: bool)
      modifies this
      ensures NamesOk(old(State())) && EmitOps(ops, old(State())).Emitted? ==>
        ok && State() == EmitOps(ops, old(State())).names && os == old(os) + AllText(EmitOps(ops, old(State())).stmts)
      decreases ops, 0
    {
      hide EmitOp, Text;
      match ops
      case Nil => ok := true;
      case Cons(op, rest) =>
        ghost var ns := State();
        ok := PrintOp(op);
        if ok {
          ghost var usual := NamesOk(ns) && EmitOps(ops, ns).Emitted?;
          if usual {
            OpGrows(op, ns);
            KeysGrown(ns, State(), OpDefs(op));
            TextAppend(EmitOp(op, ns).stmts, EmitOps(rest, State()).stmts);
          }
          ok := PrintOps(rest);
        }
    }

    method PrintBasic(op: Op) returns (ok: bool)
      requires op.Basic?
      modifies this
      ensures NamesOk(old(State())) && EmitOp(op, old(State())).Emitted? ==>
        ok && State() == EmitOp(op, old(State())).names && os == old(os) + AllText(EmitOp(op, old(State())).stmts)
    {
      ok := DeclareResults(op.results);
      if ok {
        if !Named(State(), op.results) || !Named(State(), op.args) {
          return false;
        }
        var xs, args := Lookup(State(), op.results), Lookup(State(), op.args);
        TextTwo(Declare(xs), Call(xs, op.code, args));
        os := os + [CallLine(xs, op.code, args)];
      }
    }

    /** A region of an scf.if, with its yield. */
    method PrintBranch(r: Region, targets: seq<Value>) returns (ok: bool)
      modifies this
      ensures
        && NamesOk(old(State())) && Named(old(State()), targets)
        && EmitYielding(r, Lookup(old(State()), targets), old(State())).Emitted?
        ==>
        && ok && State() == EmitYielding(r, Lookup(old(State()), targets), old(State())).names
        && os == old(os) + AllText(EmitYielding(r, Lookup(old(State()), targets), old(State())).stmts)
      decreases r, 0
    {
      hide EmitOps;
      ghost var ns := State();
      ok := PrintOps(r.ops);
      if ok {
        ghost var usual := NamesOk(ns) && Named(ns, targets) && EmitYielding(r, Lookup(ns, targets), ns).Emitted?;
        if usual {
          YieldText(r, targets, ns, ns);
        }
        ok := PrintYield(targets, r.yielded);
      }
    }

    /** The body of a loop, with the copies at its end. */
    method PrintBody(r: Region, targets: seq<Value>, ghost nsT: Names) returns (ok: bool)
      modifies this
      ensures
        && NamesOk(old(State())) && Named(nsT, targets) && Extends(nsT, old(State()))
        && EmitYielding(r, Lookup(nsT, targets), old(State())).Emitted?
        ==>
        && ok && State() == EmitYielding(r, Lookup(nsT, targets), old(State())).names
        && os == old(os) + AllText(EmitYielding(r, Lookup(nsT, targets), old(State())).stmts)
      decreases r, 0
    {
      hide EmitOps;
      ghost var ns := State();
      ok := PrintOps(r.ops);
      if ok {
        ghost var usual := NamesOk(ns) && Named(nsT, targets) && Extends(nsT, ns)
          && EmitYielding(r, Lookup(nsT, targets), ns).Emitted?;
        if usual {
          YieldText(r, targets, nsT, ns);
          NamedStays(State(), targets);
        }
        PrintCopies(targets, r.yielded, false);
      }
    }

    method PrintIf(op: Op) returns (ok: bool)
      requires op.If?
      modifies this
      ensures NamesOk(old(State())) && EmitOp(op, old(State())).Emitted? ==>
        ok && State() == EmitOp(op, old(State())).names && os == old(os) + AllText(EmitOp(op, old(State())).stmts)
      decreases op, 1
    {
      hide EmitOp, EmitYielding, NameAll, NamesOk, Grown, Text, AllText, Lookup, Unnamed, NoDup, OpsDefs, Declarations;
      ghost var ns := State();
      ghost var usual := NamesOk(ns) && EmitOp(op, ns).Emitted?;
      if usual {
        IfChecks(op, ns);
      }
      ok := DeclareResults(op.results);
      if !ok {
        return;
      }
      ghost var ns0 := State();
      if op.cond !in mapper {
        return false;
      }
      os := os + [IfLine(mapper[op.cond])];
      if usual {
        YieldingGrows(op.onTrue, Lookup(ns0, op.results), ns0);
        KeptNames(ns0, EmitYielding(op.onTrue, Lookup(ns0, op.results), ns0).names, OpsDefs(op.onTrue.ops), op.results);
      }
      ok := PrintBranch(op.onTrue, op.results);
      if !ok {
        return;
      }
      os := os + [Brace];
      if op.onFalse.Some? {
        os := os + [ElseLine];
        ok := PrintBranch(op.onFalse.value, op.results);
        if !ok {
          return;
        }
        os := os + [Brace];
      }
      if usual {
        var xs := Lookup(ns0, op.results);
        var yes := EmitYielding(op.onTrue, xs, ns0);
        var no := if op.onFalse.Some? then EmitYielding(op.onFalse.value, xs, yes.names).stmts else End;
        TextIf(xs, ns0.mapper[op.cond], yes.stmts, no);
        if op.onFalse.Some? {
          YieldNotEmpty(op.onFalse.value, xs, yes.names);
        }
        IfInFront(old(os), Declarations(xs), [IfLine(ns0.mapper[op.cond])], AllText(yes.stmts), AllText(no));
      }
    }

    method PrintWhile(op: Op) returns (ok: bool)
      requires op.While?
      modifies this
      ensures NamesOk(old(State())) && EmitOp(op, old(State())).Emitted? ==>
        ok && State() == EmitOp(op, old(State())).names && os == old(os) + AllText(EmitOp(op, old(State())).stmts)
      decreases op, 1
    {
      hide EmitOp, EmitOps, EmitYielding, NameAll, NamesOk, Grown, Text, AllText, Append, WhileRest, Extends,
        CopyLines, Declarations;
      ghost var ns := State();
      ghost var usual := NamesOk(ns) && EmitOp(op, ns).Emitted?;
      ghost var l;
      if usual {
        l := WhileLayout(op, ns);
        WhileKeeps(op, ns, l);
      }
      ok := DeclareResults(op.results);
      if !ok {
        return;
      }
      PrintCopies(op.beforeArgs, op.inits, true);
      ghost var ns1 := State();
      os := os + [WhileLine];
      ok := PrintOps(op.before);
      if !ok {
        return;
      }
      assert usual ==> State() == l.ns2;
      PrintCopies(op.afterArgs, op.condArgs, true);
      assert usual ==> State() == l.ns3;
      PrintCopies(op.results, op.condArgs, false);
      assert usual ==> State() == l.ns3;
      var c := GetOrCreateName(op.cond);
      os := os + [BreakLine(c)];
      ok := PrintBody(op.after, op.beforeArgs, ns1);
      if !ok {
        return;
      }
      os := os + [Brace];
      if usual {
        TextWhile(op, l);
        InFront(old(os), Declarations(Lookup(l.ns0, op.results)),
          CopyLines(Lookup(l.ns1, op.beforeArgs), Lookup(l.ns1, op.inits), true), [WhileLine],
          AllText(l.test), CopyLines(Lookup(l.ns3, op.afterArgs), Lookup(l.ns3, op.condArgs), true),
          CopyLines(Lookup(l.ns0, op.results), Lookup(l.ns3, op.condArgs), false), [BreakLine(c)],
          AllText(l.work), [Brace]);
      }
    }

    method PrintFor(op: Op) returns (ok: bool)
      requires op.For?
      modifies this
      ensures NamesOk(old(State())) && EmitOp(op, old(State())).Emitted? ==>
        ok && State() == EmitOp(op, old(State())).names && os == old(os) + AllText(EmitOp(op, old(State())).stmts)
      decreases op, 1
    {
      hide EmitOp, EmitOps, EmitYielding, NameAll, NamesOk, Grown, Text, AllText, Extends, CopyLines, Declarations,
        Lookup, Unnamed, NoDup, OpsDefs;
      ghost var ns := State();
      ghost var usual := NamesOk(ns) && EmitOp(op, ns).Emitted?;
      ghost var l;
      if usual {
        l := ForLayout(op, ns);
        ForKeeps(op, ns, l);
      }
      ok := DeclareResults(op.results);
      if !ok {
        return;
      }
      PrintCopies(op.iterArgs, op.inits, true);
      ghost var ns1 := State();
      var i := GetOrCreateName(op.iv);
      assert usual ==> State() == l.ns2;
      var lower := GetOrCreateName(op.lower);
      var upper := GetOrCreateName(op.upper);
      var step := GetOrCreateName(op.step);
      assert usual ==> State() == l.ns2;
      os := os + [ForLine(i, lower, upper, step)];
      ok := PrintBody(op.body, op.iterArgs, ns1);
      if !ok {
        return;
      }
      os := os + [Brace];
      assert usual ==> State() == l.ns3;
      PrintCopies(op.results, op.iterArgs, false);
      if usual {
        TextFor(op, l);
        SixInFront(old(os), Declarations(Lookup(l.ns0, op.results)),
          CopyLines(Lookup(l.ns1, op.iterArgs), Lookup(l.ns1, op.inits), true), [ForLine(i, lower, upper, step)],
          AllText(l.work), [Brace], CopyLines(Lookup(l.ns0, op.results), Lookup(l.ns1, op.iterArgs), false));
      }
    }
  }

  // ----- Whole functions -----

  ghost function FunctionText(c: CFunc): seq<Token>
  {
    [FunctionLine(c.params)] + AllText(c.body) + [ReturnLine(c.returned), Brace]
  }

  ghost function ReadFunction(ts: seq<Token>): Option<CFunc>
  {
    if ts == [] || !ts[0].FunctionLine? then None
    else
      match ReadBlock(ts[1..])
      case None => None
      case Some((body, rest)) =>
        if |rest| == 2 && rest[0].ReturnLine? && rest[1] == Brace then Some(CFunc(ts[0].params, body, rest[0].xs))
        else None
  }

  lemma FunctionRead(c: CFunc)
    requires AllPrintable(c.body)
    ensures ReadFunction(FunctionText(c)) == Some(CFunc(c.params, Lines(c.body), c.returned))
  {
    var tail := [ReturnLine(c.returned), Brace];
    TextRead(c.body, tail);
    AppendEnd(Lines(c.body));
    assert FunctionText(c)[1..] == AllText(c.body) + tail;
  }

  /**
    The printed text, read as C, computes what the SSA function computes, whatever the
    machine, the arguments, the memory and the fuel.
  */
  lemma PrintedFunctionKeepsMeaning<D, M>(mc: Machine<D, M>, f: Func, count: nat, ds: seq<D>, mem: M, fuel: nat)
    requires WellScoped(f) && SafeOps(f.body) && |ds| == |f.args|
    ensures EmitFunc(f, count).Some?
    ensures var c := ReadFunction(FunctionText(EmitFunc(f, count).value));
      && c.Some? && |c.value.params| == |ds|
      && ExecFunc(mc, c.value, ds, mem, fuel) == RunFunc(mc, f, ds, mem, fuel)
  {
    hide EmitOps, ExecAll, FunctionText, ReadFunction, RunFunc, Lines, SafeOps, WellScoped;
    EmittedFunctionKeepsMeaning(mc, f, count, ds, mem, fuel);
    OpsPrintable(f.body, ParamNames(f, count));
    var c := EmitFunc(f, count).value;
    FunctionRead(c);
    LinesExec(mc, c.body, Bind(map[], c.params, ds), mem, fuel);
  }

  lemma TextTwo(a: Stmt, b: Stmt)
    ensures AllText(Then(a, Then(b, End))) == Text(a) + Text(b)
  {
    assert AllText(Then(b, End)) == Text(b) + AllText(End) == Text(b);
  }

  /** What an emitted scf.if has passed. */
  lemma IfChecks(op: Op, ns: Names)
    requires op.If? && NamesOk(ns) && EmitOp(op, ns).Emitted?
    ensures Unnamed(ns, op.results) && NoDup(op.results)
    ensures var ns0 := NameAll(ns, op.results);
      && NamesOk(ns0) && Named(ns0, op.results) && op.cond in ns0.mapper
      && var xs := Lookup(ns0, op.results);
      var yes := EmitYielding(op.onTrue, xs, ns0);
      && yes.Emitted?
      && (op.onFalse.None? ==>
           EmitOp(op, ns) == Emitted(Then(Declare(xs), Then(IfElse(ns0.mapper[op.cond], yes.stmts, End), End)),
             yes.names))
      && (op.onFalse.Some? ==>
           var no := EmitYielding(op.onFalse.value, xs, yes.names);
           && no.Emitted?
           && EmitOp(op, ns) == Emitted(
                Then(Declare(xs), Then(IfElse(ns0.mapper[op.cond], yes.stmts, no.stmts), End)), no.names))
  {
    hide EmitYielding, NamesOk, NameAll, Lookup, NoDup, Unnamed;
    ResultsNamed(op, ns);
    NamedSet(NameAll(ns, op.results), op.results);
  }

  lemma IfInFront(o: seq<Token>, a: seq<Token>, b: seq<Token>, c: seq<Token>, d: seq<Token>)
    ensures o + a + b + c + [Brace] == o + (a + b + c + [Brace] + [])
    ensures o + a + b + c + [Brace] + [ElseLine] + d + [Brace] ==
      o + (a + b + c + [Brace] + ([ElseLine] + d + [Brace]))
  {
    assert o + a + b + c == o + (a + b + c);
  }

  lemma TextIf(xs: seq<nat>, c: nat, yes: Stmts, no: Stmts)
    ensures AllText(Then(Declare(xs), Then(IfElse(c, yes, no), End))) ==
      Declarations(xs) + [IfLine(c)] + AllText(yes) + [Brace]
        + if no == End then [] else [ElseLine] + AllText(no) + [Brace]
  {
    TextTwo(Declare(xs), IfElse(c, yes, no));
  }

  /** Later names do not change the ones a while operation was printed with. */
  lemma WhileKeeps(w: Op, ns: Names, l: WhileParts)
    requires w.While? && NamesOk(ns) && WhileNames(w, ns, l)
    ensures NamesOk(l.ns1) && NamesOk(l.ns3) && Extends(l.ns1, l.ns3)
    ensures NameAll(l.ns3, w.results) == l.ns3 && Named(l.ns3, w.results)
      && Lookup(l.ns3, w.results) == Lookup(l.ns0, w.results)
  {
    hide NamesOk, NameAll, EmitOps, EmitYielding;
    KeptNames(l.ns0, l.ns1, Set(w.beforeArgs), w.results);
    KeptNames(l.ns1, l.ns2, OpsDefs(w.before), w.results);
    KeptNames(l.ns2, l.ns3, Set(w.afterArgs), w.results);
    ExtendsThrough(l.ns1, l.ns2, l.ns3, OpsDefs(w.before), Set(w.afterArgs));
    NamedStays(l.ns3, w.results);
  }

  lemma ForKeeps(f: Op, ns: Names, l: ForParts)
    requires f.For? && NamesOk(ns) && ForNames(f, ns, l)
    ensures NamesOk(l.ns2) && Extends(l.ns1, l.ns2)
    ensures f.lower in l.ns2.mapper && f.upper in l.ns2.mapper && f.step in l.ns2.mapper
    ensures NameAll(l.ns3, f.results) == l.ns3 && Named(l.ns3, f.results)
      && Lookup(l.ns3, f.results) == Lookup(l.ns0, f.results)
    ensures Named(l.ns3, f.iterArgs) && Lookup(l.ns3, f.iterArgs) == Lookup(l.ns1, f.iterArgs)
  {
    hide NamesOk, NameAll, EmitYielding;
    KeptNames(l.ns0, l.ns1, Set(f.iterArgs), f.results);
    KeptNames(l.ns1, l.ns2, {f.iv}, f.results);
    KeptNames(l.ns1, l.ns2, {f.iv}, f.iterArgs);
    KeptNames(l.ns2, l.ns3, OpsDefs(f.body.ops), f.results);
    KeptNames(l.ns2, l.ns3, OpsDefs(f.body.ops), f.iterArgs);
    GrownExtends(l.ns1, l.ns2, {f.iv});
    NamedFour(l.ns2, f.iv, f.lower, f.upper, f.step);
    NamedStays(l.ns3, f.results);
  }

  lemma TextThen(s: Stmt, rest: Stmts)
    ensures AllText(Then(s, rest)) == Text(s) + AllText(rest)
  {
  }

  lemma TextWhile(w: Op, l: WhileParts)
    requires w.While? && Named(l.ns0, w.results) && Named(l.ns1, w.beforeArgs) && Named(l.ns1, w.inits)
    requires Named(l.ns3, w.afterArgs) && Named(l.ns3, w.condArgs) && w.cond in l.ns3.mapper
    requires |w.inits| == |w.beforeArgs| && |w.condArgs| == |w.afterArgs| == |w.results|
    ensures var rs, befores, args := Lookup(l.ns0, w.results), Lookup(l.ns1, w.beforeArgs), Lookup(l.ns3, w.condArgs);
      AllText(Then(Declare(rs),
        Then(DeclareCopies(befores, Lookup(l.ns1, w.inits)), Then(Forever(Append(l.test, WhileRest(w, l))), End)))) ==
        Declarations(rs) + CopyLines(befores, Lookup(l.ns1, w.inits), true) + [WhileLine] + AllText(l.test)
          + CopyLines(Lookup(l.ns3, w.afterArgs), args, true)
          + CopyLines(rs, args, false) + [BreakLine(l.ns3.mapper[w.cond])] + AllText(l.work) + [Brace]
  {
    var rs, befores, args := Lookup(l.ns0, w.results), Lookup(l.ns1, w.beforeArgs), Lookup(l.ns3, w.condArgs);
    var rest := WhileRest(w, l);
    TextAppend(l.test, rest);
    TextWhileRest(w, l);
    hide AllText, Append, WhileRest, CopyLines, Declarations, Lookup;
    var loop := Forever(Append(l.test, rest));
    var copies := DeclareCopies(befores, Lookup(l.ns1, w.inits));
    TextTwo(copies, loop);
    TextThen(Declare(rs), Then(copies, Then(loop, End)));
    assert Text(loop) == [WhileLine] + AllText(Append(l.test, rest)) + [Brace];
    assert Text(copies) == CopyLines(befores, Lookup(l.ns1, w.inits), true) && Text(Declare(rs)) == Declarations(rs);
    hide Text;
    Regroup(Text(Declare(rs)), Text(copies), [WhileLine], AllText(l.test),
      CopyLines(Lookup(l.ns3, w.afterArgs), args, true), CopyLines(rs, args, false),
            [BreakLine(l.ns3.mapper[w.cond])], AllText(l.work), [Brace]);
  }

  lemma Regroup<T>(a: seq<T>, b: seq<T>, c: seq<T>, d: seq<T>, e: seq<T>, f: seq<T>, g: seq<T>, h: seq<T>, i: seq<T>)
    ensures a + (b + (c + (d + (e + f + g + h)) + i)) == a + b + c + d + e + f + g + h + i
  {
    assert d + (e + f + g + h) == d + e + f + g + h;
    assert c + (d + e + f + g + h) == c + d + e + f + g + h;
    assert b + (c + d + e + f + g + h + i) == b + c + d + e + f + g + h + i;
  }

  lemma InFront<T>(o: seq<T>, a: seq<T>, b: seq<T>, c: seq<T>, d: seq<T>, e: seq<T>, f: seq<T>, g: seq<T>, h: seq<T>,
      i: seq<T>)
    ensures o + a + b + c + d + e + f + g + h + i == o + (a + b + c + d + e + f + g + h + i)
  {
    assert o + a + b + c + d == o + (a + b + c + d);
    assert o + (a + b + c + d) + e + f + g == o + (a + b + c + d + e + f + g);
  }

  lemma SixInFront<T>(o: seq<T>, a: seq<T>, b: seq<T>, c: seq<T>, d: seq<T>, e: seq<T>, f: seq<T>)
    ensures o + a + b + c + d + e + f == o + (a + b + c + d + e + f)
  {
    assert o + a + b + c == o + (a + b + c);
  }

  lemma TextWhileRest(w: Op, l: WhileParts)
    requires w.While? && Named(l.ns0, w.results) && Named(l.ns3, w.afterArgs) && Named(l.ns3, w.condArgs)
      && w.cond in l.ns3.mapper
    requires |w.condArgs| == |w.afterArgs| == |w.results|
    ensures var rs, args := Lookup(l.ns0, w.results), Lookup(l.ns3, w.condArgs);
      AllText(WhileRest(w, l)) ==
        CopyLines(Lookup(l.ns3, w.afterArgs), args, true) + CopyLines(rs, args, false)
          + [BreakLine(l.ns3.mapper[w.cond])] + AllText(l.work)
  {
    hide AllText, CopyLines, Declarations;
    var rest := WhileRest(w, l);
    TextThen(rest.head, rest.tail);
    TextThen(rest.tail.head, rest.tail.tail);
    TextThen(rest.tail.tail.head, l.work);
  }

  lemma TextFor(f: Op, l: ForParts)
    requires f.For? && Named(l.ns0, f.results) && Named(l.ns1, f.iterArgs) && Named(l.ns1, f.inits)
      && Named(l.ns2, [f.iv, f.lower, f.upper, f.step])
    requires |f.inits| == |f.iterArgs| == |f.results|
    requires f.iv in l.ns2.mapper && f.lower in l.ns2.mapper && f.upper in l.ns2.mapper && f.step in l.ns2.mapper
    ensures var rs, iters, m := Lookup(l.ns0, f.results), Lookup(l.ns1, f.iterArgs), l.ns2.mapper;
      AllText(Then(Declare(rs),
        Then(DeclareCopies(iters, Lookup(l.ns1, f.inits)), Then(ForLoop(f, l), Then(Copies(rs, iters), End))))) ==
        Declarations(rs) + CopyLines(iters, Lookup(l.ns1, f.inits), true)
          + [ForLine(m[f.iv], m[f.lower], m[f.upper], m[f.step])]
          + AllText(l.work) + [Brace] + CopyLines(rs, iters, false)
  {
    hide AllText, CopyLines, Declarations;
    var rs, iters := Lookup(l.ns0, f.results), Lookup(l.ns1, f.iterArgs);
    var copies, last := DeclareCopies(iters, Lookup(l.ns1, f.inits)), Copies(rs, iters);
    TextTwo(ForLoop(f, l), last);
    TextThen(copies, Then(ForLoop(f, l), Then(last, End)));
    TextThen(Declare(rs), Then(copies, Then(ForLoop(f, l), Then(last, End))));
  }

  lemma ExtendsThrough(ns1: Names, ns2: Names, ns3: Names, a: set<Value>, b: set<Value>)
    requires Grown(ns1, ns2, a) && Grown(ns2, ns3, b)
    ensures Extends(ns1, ns3) && NamesOk(ns3)
  {
  }

  /** A region is printed as its operations followed by the copies of its yield. */
  lemma YieldText(r: Region, targets: seq<Value>, nsT: Names, ns: Names)
    requires NamesOk(ns) && Named(nsT, targets) && Extends(nsT, ns)
      && EmitYielding(r, Lookup(nsT, targets), ns).Emitted?
    ensures var e := EmitOps(r.ops, ns);
      && e.Emitted? && Named(e.names, targets) && Lookup(e.names, targets) == Lookup(nsT, targets)
      && |targets| == |r.yielded| && Named(e.names, r.yielded)
      && AllText(EmitYielding(r, Lookup(nsT, targets), ns).stmts)
           == AllText(e.stmts) + CopyLines(Lookup(nsT, targets), Lookup(e.names, r.yielded), false)
  {
    hide EmitOps, Grown, NamesOk;
    var e := EmitOps(r.ops, ns);
    OpsGrow(r.ops, ns);
    assert Extends(ns, e.names) by { GrownExtends(ns, e.names, OpsDefs(r.ops)); }
    var copies := Copies(Lookup(nsT, targets), Lookup(e.names, r.yielded));
    TextAppend(e.stmts, Then(copies, End));
    assert AllText(Then(copies, End)) == Text(copies);
  }

  lemma GrownExtends(ns: Names, ns': Names, defs: set<Value>)
    requires Grown(ns, ns', defs)
    ensures Extends(ns, ns') && NamesOk(ns')
  {
  }

  lemma KeptNames(ns: Names, ns': Names, defs: set<Value>, vs: seq<Value>)
    requires Grown(ns, ns', defs) && Named(ns, vs)
    ensures NamesOk(ns') && Named(ns', vs) && Lookup(ns', vs) == Lookup(ns, vs)
  {
  }

  lemma YieldNotEmpty(r: Region, targets: seq<nat>, ns: Names)
    requires EmitYielding(r, targets, ns).Emitted?
    ensures EmitYielding(r, targets, ns).stmts != End
  {
  }

  lemma DeclaredTwice(ns: Names, vs: seq<Value>, k: nat)
    requires k < |vs| && vs[k] in NameAll(ns, vs[..k]).mapper
    ensures !Unnamed(ns, vs) || !NoDup(vs)
  {
    NamedOnly(ns, vs[..k], vs[k]);
  }

  lemma {:induction false} NamedOnly(ns: Names, vs: seq<Value>, v: Value)
    requires v in NameAll(ns, vs).mapper
    ensures v in ns.mapper || v in vs
  {
    if vs != [] && v != vs[|vs| - 1] {
      NamedOnly(ns, vs[..|vs| - 1], v);
    }
  }
}
