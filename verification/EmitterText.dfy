/**
  The text the emitter writes (src/execution/CEmitter.cpp), token by token, and how a C
  compiler reads it back: line by line, with braces around blocks.
*/
module EmitterText {
  import opened Basics
  import opened EmitterModel
  import opened EmitterSemantics
  import opened EmitterSteps

  /** A piece of output. */
  datatype Token =
    | FunctionLine(params: seq<nat>)
    | ReturnLine(xs: seq<nat>)
    | Declaration(x: nat)
    | DeclaredCopy(x: nat, y: nat)
    | Copy(x: nat, y: nat)
    | CallLine(xs: seq<nat>, code: nat, args: seq<nat>)
    | IfLine(c: nat)
    | ElseLine
    | WhileLine
    | BreakLine(c: nat)
    | ForLine(i: nat, lower: nat, upper: nat, step: nat)
    | Brace

  ghost function Declarations(xs: seq<nat>): seq<Token>
  {
    seq(|xs|, i requires 0 <= i < |xs| => Declaration(xs[i]))
  }

  ghost function CopyLines(xs: seq<nat>, ys: seq<nat>, declare: bool): seq<Token>
    requires |xs| == |ys|
  {
    seq(|xs|, i requires 0 <= i < |xs| => if declare then DeclaredCopy(xs[i], ys[i]) else Copy(xs[i], ys[i]))
  }

  ghost function Text(s: Stmt): seq<Token>
  {
    match s
    case Declare(xs) => Declarations(xs)
    case DeclareCopies(xs, ys) => if |xs| == |ys| then CopyLines(xs, ys, true) else []
    case Copies(xs, ys) => if |xs| == |ys| then CopyLines(xs, ys, false) else []
    case Call(xs, code, args) => [CallLine(xs, code, args)]
    case IfElse(c, yes, no) => [IfLine(c)] + AllText(yes) + [Brace]
      + if no == End then [] else [ElseLine] + AllText(no) + [Brace]
    case Forever(body) => [WhileLine] + AllText(body) + [Brace]
    case BreakUnless(c) => [BreakLine(c)]
    case ForTo(i, lower, upper, step, body) => [ForLine(i, lower, upper, step)] + AllText(body) + [Brace]
  }

  ghost function AllText(ss: Stmts): seq<Token>
  {
    match ss
    case End => []
    case Then(s, rest) => Text(s) + AllText(rest)
  }

  lemma {:induction false} TextAppend(a: Stmts, b: Stmts)
    ensures AllText(Append(a, b)) == AllText(a) + AllText(b)
  {
    match a
    case End =>
    case Then(s, rest) =>
      hide Text;
      TextAppend(rest, b);
      assert AllText(Append(a, b)) == Text(s) + AllText(Append(rest, b));
      assert Text(s) + (AllText(rest) + AllText(b)) == Text(s) + AllText(rest) + AllText(b);
  }

  // ----- Reading -----

  /** A line that is a statement of its own. */
  ghost function LineStmt(t: Token): Option<Stmt>
  {
    match t
    case Declaration(x) => Some(Declare([x]))
    case DeclaredCopy(x, y) => Some(DeclareCopies([x], [y]))
    case Copy(x, y) => Some(Copies([x], [y]))
    case CallLine(xs, code, args) => Some(Call(xs, code, args))
    case BreakLine(c) => Some(BreakUnless(c))
    case _ => None
  }

  /** Statements and the text after them. */
  type Reading = Option<(Stmts, seq<Token>)>

  ghost function Before(s: Stmt, r: Reading): Reading
  {
    match r
    case None => None
    case Some((ss, rest)) => Some((Then(s, ss), rest))
  }

  predicate Closed(r: Reading)
  {
    r.Some? && r.value.1 != [] && r.value.1[0] == Brace
  }

  predicate ElseFollows(ts: seq<Token>)
  {
    ts != [] && ts[0] == ElseLine
  }

  /** The statements up to the end of the block. */
  ghost function ReadBlock(ts: seq<Token>): (r: Reading)
    ensures r.Some? ==> |r.value.1| <= |ts|
    decreases |ts|
  {
    if ts == [] || ts[0] == Brace || ts[0].ReturnLine? then Some((End, ts))
    else if LineStmt(ts[0]).Some? then Before(LineStmt(ts[0]).value, ReadBlock(ts[1..]))
    else
      var inner := ReadBlock(ts[1..]);
      if !Closed(inner) then None
      else
        var body, rest := inner.value.0, inner.value.1[1..];
        match ts[0]
        case WhileLine => Before(Forever(body), ReadBlock(rest))
        case ForLine(i, lower, upper, step) => Before(ForTo(i, lower, upper, step, body), ReadBlock(rest))
        case IfLine(c) =>
          if !ElseFollows(rest) then Before(IfElse(c, body, End), ReadBlock(rest))
          else
            var other := ReadBlock(rest[1..]);
            if !Closed(other) then None
            else Before(IfElse(c, body, other.value.0), ReadBlock(other.value.1[1..]))
        case _ => None
  }

  // ----- Reading gives the statements back, one per line -----

  ghost function DeclareLines(xs: seq<nat>): Stmts
  {
    if xs == [] then End else Then(Declare([xs[0]]), DeclareLines(xs[1..]))
  }

  ghost function CopyStmt(x: nat, y: nat, declare: bool): Stmt
  {
    if declare then DeclareCopies([x], [y]) else Copies([x], [y])
  }

  ghost function LinesOfCopies(xs: seq<nat>, ys: seq<nat>, declare: bool): Stmts
    requires |xs| == |ys|
  {
    if xs == [] then End else Then(CopyStmt(xs[0], ys[0], declare), LinesOfCopies(xs[1..], ys[1..], declare))
  }

  /** Every list of copies pairs its variables. */
  ghost predicate Printable(s: Stmt)
  {
    match s
    case DeclareCopies(xs, ys) => |xs| == |ys|
    case Copies(xs, ys) => |xs| == |ys|
    case IfElse(_, yes, no) => AllPrintable(yes) && AllPrintable(no)
    case Forever(body) => AllPrintable(body)
    case ForTo(_, _, _, _, body) => AllPrintable(body)
    case _ => true
  }

  ghost predicate AllPrintable(ss: Stmts)
  {
    match ss
    case End => true
    case Then(s, rest) => Printable(s) && AllPrintable(rest)
  }

  ghost function LinesOf(s: Stmt): Stmts
    requires Printable(s)
  {
    match s
    case Declare(xs) => DeclareLines(xs)
    case DeclareCopies(xs, ys) => LinesOfCopies(xs, ys, true)
    case Copies(xs, ys) => LinesOfCopies(xs, ys, false)
    case IfElse(c, yes, no) => Then(IfElse(c, Lines(yes), Lines(no)), End)
    case Forever(body) => Then(Forever(Lines(body)), End)
    case ForTo(i, lower, upper, step, body) => Then(ForTo(i, lower, upper, step, Lines(body)), End)
    case _ => Then(s, End)
  }

  ghost function Lines(ss: Stmts): Stmts
    requires AllPrintable(ss)
  {
    match ss
    case End => End
    case Then(s, rest) => Append(LinesOf(s), Lines(rest))
  }

  ghost function Prepend(a: Stmts, r: Reading): Reading
  {
    match r
    case None => None
    case Some((b, rest)) => Some((Append(a, b), rest))
  }

  lemma {:induction false} AppendAppend(a: Stmts, b: Stmts, c: Stmts)
    ensures Append(Append(a, b), c) == Append(a, Append(b, c))
  {
    match a
    case End =>
    case Then(_, rest) => AppendAppend(rest, b, c);
  }

  lemma {:induction false} AppendEnd(a: Stmts)
    ensures Append(a, End) == a
  {
    match a
    case End =>
    case Then(_, rest) => AppendEnd(rest);
  }

  lemma {:induction false} DeclarationsRead(xs: seq<nat>, tail: seq<Token>)
    ensures ReadBlock(Declarations(xs) + tail) == Prepend(DeclareLines(xs), ReadBlock(tail))
  {
    if xs == [] {
      assert Declarations(xs) + tail == tail;
    } else {
      DeclarationsRead(xs[1..], tail);
      assert (Declarations(xs) + tail)[1..] == Declarations(xs[1..]) + tail;
    }
  }

  lemma {:induction false} CopiesRead(xs: seq<nat>, ys: seq<nat>, declare: bool, tail: seq<Token>)
    requires |xs| == |ys|
    ensures ReadBlock(CopyLines(xs, ys, declare) + tail) == Prepend(LinesOfCopies(xs, ys, declare), ReadBlock(tail))
  {
    if xs == [] {
      assert CopyLines(xs, ys, declare) + tail == tail;
    } else {
      CopiesRead(xs[1..], ys[1..], declare, tail);
      assert (CopyLines(xs, ys, declare) + tail)[1..] == CopyLines(xs[1..], ys[1..], declare) + tail;
    }
  }

  lemma OneBefore(s: Stmt, r: Reading)
    ensures Prepend(Then(s, End), r) == Before(s, r)
  {
    if r.Some? {
      assert Append(Then(s, End), r.value.0) == Then(s, Append(End, r.value.0));
    }
  }

  lemma LineRead(line: Token, tail: seq<Token>)
    requires LineStmt(line).Some?
    ensures ReadBlock([line] + tail) == Prepend(Then(LineStmt(line).value, End), ReadBlock(tail))
  {
    assert ([line] + tail)[1..] == tail;
    OneBefore(LineStmt(line).value, ReadBlock(tail));
  }

  /** No statement begins with `else`. */
  lemma {:induction false} NoElse(ss: Stmts, tail: seq<Token>)
    requires !ElseFollows(tail)
    ensures !ElseFollows(AllText(ss) + tail)
  {
    match ss
    case End => assert AllText(ss) + tail == tail;
    case Then(s, rest) =>
      NoElse(rest, tail);
      if Text(s) == [] {
        assert AllText(ss) + tail == AllText(rest) + tail;
      } else {
        assert (AllText(ss) + tail)[0] == Text(s)[0];
      }
  }

  /** A block of statements and its closing brace. */
  lemma BlockRead(ss: Stmts, tail: seq<Token>)
    requires AllPrintable(ss)
      && ReadBlock(AllText(ss) + ([Brace] + tail)) == Prepend(Lines(ss), ReadBlock([Brace] + tail))
    ensures ReadBlock(AllText(ss) + ([Brace] + tail)) == Some((Lines(ss), [Brace] + tail))
  {
    AppendEnd(Lines(ss));
  }

  lemma {:induction false} TextRead(ss: Stmts, tail: seq<Token>)
    requires AllPrintable(ss) && !ElseFollows(tail)
    ensures ReadBlock(AllText(ss) + tail) == Prepend(Lines(ss), ReadBlock(tail))
    decreases ss, 0
  {
    hide ReadBlock;
    match ss
    case End =>
      assert AllText(ss) + tail == tail;
    case Then(s, rest) =>
      hide Text, LinesOf;
      TextRead(rest, tail);
      NoElse(rest, tail);
      StmtRead(s, AllText(rest) + tail);
      assert AllText(ss) + tail == Text(s) + (AllText(rest) + tail);
      if ReadBlock(tail).Some? {
        AppendAppend(LinesOf(s), Lines(rest), ReadBlock(tail).value.0);
      }
  }

  lemma {:induction false} StmtRead(s: Stmt, tail: seq<Token>)
    requires Printable(s) && !ElseFollows(tail)
    ensures ReadBlock(Text(s) + tail) == Prepend(LinesOf(s), ReadBlock(tail))
    decreases s, 1
  {
    hide ReadBlock, AllText, Lines, Append, Declarations, CopyLines, DeclareLines, LinesOfCopies;
    match s
    case Declare(xs) => DeclarationsRead(xs, tail);
    case DeclareCopies(xs, ys) => CopiesRead(xs, ys, true, tail);
    case Copies(xs, ys) => CopiesRead(xs, ys, false, tail);
    case Call(xs, code, args) => LineRead(CallLine(xs, code, args), tail);
    case BreakUnless(c) => LineRead(BreakLine(c), tail);
    case IfElse(c, yes, no) =>
      IfRead(c, yes, no, tail);
      OneBefore(IfElse(c, Lines(yes), Lines(no)), ReadBlock(tail));
    case Forever(body) =>
      TextRead(body, [Brace] + tail);
      BlockRead(body, tail);
      assert Text(s) + tail == [WhileLine] + (AllText(body) + ([Brace] + tail));
      OpenRead(WhileLine, body, tail);
      OneBefore(Forever(Lines(body)), ReadBlock(tail));
    case ForTo(i, lower, upper, step, body) =>
      TextRead(body, [Brace] + tail);
      BlockRead(body, tail);
      var line := ForLine(i, lower, upper, step);
      assert Text(s) + tail == [line] + (AllText(body) + ([Brace] + tail));
      OpenRead(line, body, tail);
      OneBefore(ForTo(i, lower, upper, step, Lines(body)), ReadBlock(tail));
  }

  /** A block read after the line that opens it. */
  lemma OpenRead(line: Token, body: Stmts, tail: seq<Token>)
    requires AllPrintable(body) && !ElseFollows(tail)
    requires ReadBlock(AllText(body) + ([Brace] + tail)) == Some((Lines(body), [Brace] + tail))
    ensures var r := ReadBlock([line] + (AllText(body) + ([Brace] + tail)));
      && (line.WhileLine? ==> r == Before(Forever(Lines(body)), ReadBlock(tail)))
      && (line.ForLine? ==> r == Before(ForTo(line.i, line.lower, line.upper, line.step, Lines(body)), ReadBlock(tail)))
      && (line.IfLine? ==> r == Before(IfElse(line.c, Lines(body), End), ReadBlock(tail)))
  {
    hide AllText, Lines;
    var ts := [line] + (AllText(body) + ([Brace] + tail));
    assert ts[1..] == AllText(body) + ([Brace] + tail);
    assert ([Brace] + tail)[1..] == tail;
  }

  lemma IfText(c: nat, yes: Stmts, no: Stmts, tail: seq<Token>)
    ensures Text(IfElse(c, yes, no)) + tail ==
      [IfLine(c)] + (AllText(yes) + ([Brace] +
        if no == End then tail else [ElseLine] + (AllText(no) + ([Brace] + tail))))
  {
  }

  lemma {:induction false} IfRead(c: nat, yes: Stmts, no: Stmts, tail: seq<Token>)
    requires AllPrintable(yes) && AllPrintable(no) && !ElseFollows(tail)
    ensures ReadBlock(Text(IfElse(c, yes, no)) + tail) ==
      Before(IfElse(c, Lines(yes), Lines(no)), ReadBlock(tail))
    decreases IfElse(c, yes, no), 0
  {
    hide ReadBlock, AllText, Text;
    IfText(c, yes, no, tail);
    if no == End {
      TextRead(yes, [Brace] + tail);
      BlockRead(yes, tail);
      OpenRead(IfLine(c), yes, tail);
    } else {
      var rest := [ElseLine] + (AllText(no) + ([Brace] + tail));
      TextRead(no, [Brace] + tail);
      BlockRead(no, tail);
      TextRead(yes, [Brace] + rest);
      BlockRead(yes, rest);
      ElseRead(c, yes, no, tail);
    }
  }

  lemma ElseRead(c: nat, yes: Stmts, no: Stmts, tail: seq<Token>)
    requires AllPrintable(yes) && AllPrintable(no)
    requires ReadBlock(AllText(no) + ([Brace] + tail)) == Some((Lines(no), [Brace] + tail))
    requires var rest := [ElseLine] + (AllText(no) + ([Brace] + tail));
      ReadBlock(AllText(yes) + ([Brace] + rest)) == Some((Lines(yes), [Brace] + rest))
    ensures var rest := [ElseLine] + (AllText(no) + ([Brace] + tail));
      ReadBlock([IfLine(c)] + (AllText(yes) + ([Brace] + rest))) ==
        Before(IfElse(c, Lines(yes), Lines(no)), ReadBlock(tail))
  {
    hide AllText, Lines;
    var rest := [ElseLine] + (AllText(no) + ([Brace] + tail));
    var ts := [IfLine(c)] + (AllText(yes) + ([Brace] + rest));
    assert ts[1..] == AllText(yes) + ([Brace] + rest);
    assert ([Brace] + rest)[1..] == rest && rest[1..] == AllText(no) + ([Brace] + tail);
    assert ([Brace] + tail)[1..] == tail;
  }

  // ----- Line by line means the same -----

  lemma {:induction false} BindFront<D>(env: map<nat, D>, xs: seq<nat>, ds: seq<D>)
    requires |xs| == |ds| > 0
    ensures Bind(env, xs, ds) == Bind(env[xs[0] := ds[0]], xs[1..], ds[1..])
  {
    var n := |xs| - 1;
    if n == 0 {
      assert xs[..n] == [] && xs[1..] == [];
    } else {
      BindFront(env, xs[..n], ds[..n]);
      assert xs[..n][1..] == xs[1..][..n - 1] && ds[..n][1..] == ds[1..][..n - 1];
    }
  }

  lemma {:induction false} CopyFront<D>(env: map<nat, D>, xs: seq<nat>, ys: seq<nat>)
    requires |xs| == |ys| > 0
    ensures CopyInTurn(env, xs, ys) ==
      if ys[0] in env then CopyInTurn(env[xs[0] := env[ys[0]]], xs[1..], ys[1..]) else None
  {
    var n := |xs| - 1;
    if n == 0 {
      assert xs[..n] == [] && xs[1..] == [];
    } else {
      CopyFront(env, xs[..n], ys[..n]);
      assert xs[..n][1..] == xs[1..][..n - 1] && ys[..n][1..] == ys[1..][..n - 1];
    }
  }

  lemma OneBound<D>(env: map<nat, D>, x: nat, d: D)
    ensures Bind(env, [x], [d]) == env[x := d]
  {
    assert [x][..0] == [] && [d][..0] == [];
  }

  lemma OneCopied<D>(env: map<nat, D>, x: nat, y: nat)
    ensures CopyInTurn(env, [x], [y]) == if y in env then Some(env[x := env[y]]) else None
  {
    assert [x][..0] == [] && [y][..0] == [];
  }

  lemma {:induction false} DeclareLinesExec<D, M>(mc: Machine<D, M>, xs: seq<nat>, env: map<nat, D>, mem: M, fuel: nat)
    ensures ExecAll(mc, DeclareLines(xs), env, mem, fuel) == Exec(mc, Declare(xs), env, mem, fuel)
    decreases |xs|
  {
    if xs == [] {
    } else {
      var env' := env[xs[0] := mc.uninitialised];
      BindFront(env, xs, Blank(mc, |xs|));
      OneBound(env, xs[0], mc.uninitialised);
      assert Blank(mc, |xs|)[1..] == Blank(mc, |xs[1..]|) && Blank(mc, 1) == [mc.uninitialised];
      DeclareStep(mc, [xs[0]], DeclareLines(xs[1..]), env, mem, fuel);
      DeclareLinesExec(mc, xs[1..], env', mem, fuel);
    }
  }

  lemma {:induction false} CopyLinesExec<D, M>(mc: Machine<D, M>, xs: seq<nat>, ys: seq<nat>, declare: bool,
      env: map<nat, D>, mem: M, fuel: nat)
    requires |xs| == |ys|
    ensures ExecAll(mc, LinesOfCopies(xs, ys, declare), env, mem, fuel) ==
      Exec(mc, if declare then DeclareCopies(xs, ys) else Copies(xs, ys), env, mem, fuel)
    decreases |xs|
  {
    hide CopyInTurn;
    if xs == [] {
      assert CopyInTurn(env, xs, ys) == Some(env) by { NoCopies(env); }
    } else {
      OneStep(mc, LinesOfCopies(xs, ys, declare), env, mem, fuel);
      CopyFront(env, xs, ys);
      OneCopied(env, xs[0], ys[0]);
      if ys[0] in env {
        CopyLinesExec(mc, xs[1..], ys[1..], declare, env[xs[0] := env[ys[0]]], mem, fuel);
        assert Bound(env, xs) <==> xs[0] in env && Bound(env, xs[1..]) by { assert xs == [xs[0]] + xs[1..]; }
        assert xs[0] in env ==> env[xs[0] := env[ys[0]]].Keys == env.Keys;
      }
    }
  }

  lemma NoCopies<D>(env: map<nat, D>)
    ensures CopyInTurn(env, [], []) == Some(env)
  {
  }

  /** Printed one statement per line, a program does what it did. */
  lemma {:induction false} LinesExec<D, M>(mc: Machine<D, M>, ss: Stmts, env: map<nat, D>, mem: M, fuel: nat)
    requires AllPrintable(ss)
    ensures ExecAll(mc, Lines(ss), env, mem, fuel) == ExecAll(mc, ss, env, mem, fuel)
    decreases fuel, ss, 0
  {
    match ss
    case End =>
    case Then(s, rest) =>
      hide Exec, LinesOf;
      ExecAppend(mc, LinesOf(s), Lines(rest), env, mem, fuel);
      LinesOfExec(mc, s, env, mem, fuel);
      OneStep(mc, ss, env, mem, fuel);
      var o := Exec(mc, s, env, mem, fuel);
      if o.Done? {
        LinesExec(mc, rest, o.env, o.mem, fuel);
      }
  }

  lemma {:induction false} LinesOfExec<D, M>(mc: Machine<D, M>, s: Stmt, env: map<nat, D>, mem: M, fuel: nat)
    requires Printable(s)
    ensures ExecAll(mc, LinesOf(s), env, mem, fuel) == Exec(mc, s, env, mem, fuel)
    decreases fuel, s, 1
  {
    hide ExecAll, ExecForever, ExecFor;
    match s
    case Declare(xs) => DeclareLinesExec(mc, xs, env, mem, fuel);
    case DeclareCopies(xs, ys) => CopyLinesExec(mc, xs, ys, true, env, mem, fuel);
    case Copies(xs, ys) => CopyLinesExec(mc, xs, ys, false, env, mem, fuel);
    case Call(_, _, _) => LastStep(mc, s, env, mem, fuel);
    case BreakUnless(_) => LastStep(mc, s, env, mem, fuel);
    case IfElse(c, yes, no) =>
      LastStep(mc, IfElse(c, Lines(yes), Lines(no)), env, mem, fuel);
      LinesExec(mc, yes, env, mem, fuel);
      LinesExec(mc, no, env, mem, fuel);
    case Forever(body) =>
      LastStep(mc, Forever(Lines(body)), env, mem, fuel);
      ForeverLines(mc, body, env, mem, fuel);
    case ForTo(i, lower, upper, step, body) =>
      LastStep(mc, ForTo(i, lower, upper, step, Lines(body)), env, mem, fuel);
      if lower in env {
        ForLines(mc, i, upper, step, body, env[i := env[lower]], mem, fuel);
      }
  }

  lemma {:induction false} ForeverLines<D, M>(mc: Machine<D, M>, body: Stmts, env: map<nat, D>, mem: M, fuel: nat)
    requires AllPrintable(body)
    ensures ExecForever(mc, Lines(body), env, mem, fuel) == ExecForever(mc, body, env, mem, fuel)
    decreases fuel, body, 0
  {
    hide ExecAll, Lines;
    if fuel == 0 {
    } else {
      LinesExec(mc, body, env, mem, fuel - 1);
      var o := LeaveBlock(ExecAll(mc, body, env, mem, fuel - 1), env.Keys);
      if o.Done? {
        ForeverLines(mc, body, o.env, o.mem, fuel - 1);
      }
    }
  }

  lemma {:induction false} ForLines<D, M>(mc: Machine<D, M>, i: nat, upper: nat, step: nat, body: Stmts,
      env: map<nat, D>, mem: M, fuel: nat)
    requires AllPrintable(body)
    ensures ExecFor(mc, i, upper, step, Lines(body), env, mem, fuel) ==
      ExecFor(mc, i, upper, step, body, env, mem, fuel)
    decreases fuel, body, 0
  {
    hide ExecAll, Lines;
    if fuel > 0 && Bound(env, [i, upper, step]) && mc.less(env[i], env[upper]) {
      LinesExec(mc, body, env, mem, fuel - 1);
      var o := LeaveBlock(ExecAll(mc, body, env, mem, fuel - 1), env.Keys);
      if o.Done? && Bound(o.env, [i, step]) {
        ForLines(mc, i, upper, step, body, o.env[i := mc.add(o.env[i], o.env[step])], o.mem, fuel - 1);
      }
    }
  }

  // ----- What is emitted can be printed -----

  lemma {:induction false} AppendPrintable(a: Stmts, b: Stmts)
    requires AllPrintable(a) && AllPrintable(b)
    ensures AllPrintable(Append(a, b))
  {
    match a
    case End =>
    case Then(_, rest) => AppendPrintable(rest, b);
  }

  lemma ThenPrintable(s: Stmt, rest: Stmts)
    requires Printable(s) && AllPrintable(rest)
    ensures AllPrintable(Then(s, rest))
  {
  }

  lemma {:induction false} OpPrintable(op: Op, ns: Names)
    ensures EmitOp(op, ns).Emitted? ==> AllPrintable(EmitOp(op, ns).stmts)
    decreases op, 1
  {
    hide EmitYielding, NameAll, NameOne, Named, Lookup, Unnamed, NoDup;
    var ns0 := NameAll(ns, op.results);
    var rs := ResultNames(op, ns0);
    match op
    case Basic(_, _, _) =>
      if EmitOp(op, ns).Emitted? {
        ThenPrintable(EmitOp(op, ns).stmts.tail.head, End);
      }
    case If(_, _, onTrue, onFalse) =>
      YieldingPrintable(onTrue, rs, ns0);
      if onFalse.Some? && EmitYielding(onTrue, rs, ns0).Emitted? {
        YieldingPrintable(onFalse.value, rs, EmitYielding(onTrue, rs, ns0).names);
      }
      if EmitOp(op, ns).Emitted? {
        ThenPrintable(EmitOp(op, ns).stmts.tail.head, End);
      }
    case While(_, _, _, _, _, _, _, _) => WhilePrintable(op, ns);
    case For(_, _, _, _, _, iv, iters, body) =>
      var ns1 := NameAll(ns0, iters);
      if Named(ns1, iters) {
        YieldingPrintable(body, Lookup(ns1, iters), NameOne(ns1, iv));
      }
      if EmitOp(op, ns).Emitted? {
        var copied := EmitOp(op, ns).stmts.tail;
        ThenPrintable(copied.tail.tail.head, End);
        ThenPrintable(copied.tail.head, copied.tail.tail);
        ThenPrintable(copied.head, copied.tail);
      }
  }

  lemma {:induction false} WhilePrintable(op: Op, ns: Names)
    requires op.While?
    ensures EmitOp(op, ns).Emitted? ==> AllPrintable(EmitOp(op, ns).stmts)
    decreases op, 0
  {
    hide EmitYielding, EmitOps, NameAll, Named, Unnamed, NoDup, Lookup;
    if EmitOp(op, ns).Emitted? {
      var ns0 := NameAll(ns, op.results);
      var rs := ResultNames(op, ns0);
      var ns1 := NameAll(ns0, op.beforeArgs);
      var test := EmitOps(op.before, ns1);
      var ns3 := NameAll(test.names, op.afterArgs);
      var work := EmitYielding(op.after, Lookup(ns1, op.beforeArgs), ns3);
      OpsPrintable(op.before, ns1);
      YieldingPrintable(op.after, Lookup(ns1, op.beforeArgs), ns3);
      var args := Lookup(ns3, op.condArgs);
      var last := Then(BreakUnless(ns3.mapper[op.cond]), work.stmts);
      var rest := Then(DeclareCopies(Lookup(ns3, op.afterArgs), args), Then(Copies(rs, args), last));
      ThenPrintable(BreakUnless(ns3.mapper[op.cond]), work.stmts);
      ThenPrintable(Copies(rs, args), last);
      AppendPrintable(test.stmts, rest);
      var copied := EmitOp(op, ns).stmts.tail;
      ThenPrintable(copied.tail.head, End);
      ThenPrintable(copied.head, copied.tail);
    }
  }

  lemma {:induction false} OpsPrintable(ops: Ops, ns: Names)
    ensures EmitOps(ops, ns).Emitted? ==> AllPrintable(EmitOps(ops, ns).stmts)
    decreases ops, 0
  {
    hide EmitOp;
    match ops
    case Nil =>
    case Cons(op, rest) =>
      OpPrintable(op, ns);
      if EmitOp(op, ns).Emitted? {
        OpsPrintable(rest, EmitOp(op, ns).names);
        if EmitOps(rest, EmitOp(op, ns).names).Emitted? {
          AppendPrintable(EmitOp(op, ns).stmts, EmitOps(rest, EmitOp(op, ns).names).stmts);
        }
      }
  }

  lemma {:induction false} YieldingPrintable(r: Region, targets: seq<nat>, ns: Names)
    ensures EmitYielding(r, targets, ns).Emitted? ==> AllPrintable(EmitYielding(r, targets, ns).stmts)
    decreases r, 0
  {
    hide EmitOps;
    OpsPrintable(r.ops, ns);
    var e := EmitYielding(r, targets, ns);
    if e.Emitted? {
      var e0 := EmitOps(r.ops, ns);
      AppendPrintable(e0.stmts, Then(Copies(targets, Lookup(e0.names, r.yielded)), End));
    }
  }

  /** The text of emitted operations is read back completely, and what is read does what was emitted. */
  lemma TextKeepsMeaning<D, M>(mc: Machine<D, M>, ops: Ops, ns: Names, env: map<nat, D>, mem: M, fuel: nat)
    requires EmitOps(ops, ns).Emitted?
    ensures var ss := EmitOps(ops, ns).stmts; var r := ReadBlock(AllText(ss));
      && r.Some? && r.value.1 == []
      && ExecAll(mc, r.value.0, env, mem, fuel) == ExecAll(mc, ss, env, mem, fuel)
  {
    var ss := EmitOps(ops, ns).stmts;
    hide EmitOps, ExecAll;
    OpsPrintable(ops, ns);
    TextRead(ss, []);
    AppendEnd(Lines(ss));
    assert AllText(ss) + [] == AllText(ss);
    LinesExec(mc, ss, env, mem, fuel);
  }
}
