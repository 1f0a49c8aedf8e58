// The semantic actions of the grammar (bc.c), which keep the labels of the
// enclosing statements in variables and append the code piece by piece.
module BcGenerate {
  import opened BcSyntax
  import opened BcStore
  import opened BcLayout
  import opened BcSimulation

  // The value of an expression, as the actions have it: a sum of bits.
  function BitsOf(a: Attr): int
  {
    (if a.value then 1 else 0) + (if a.comparison then 2 else 0) + (if a.paren then 4 else 0)
      + (if a.missing then 16 else 0)
  }

  // Break and continue stand where the actions accept them.
  predicate Placed(s: Stmt, loop: bool, inFor: bool)
  {
    match s
    case Break => loop
    case Continue => inFor
    case For(_, _, _, body) => Placed(body, true, true)
    case If(_, yes) => Placed(yes, loop, inFor)
    case IfElse(_, yes, no) => Placed(yes, loop, inFor) && Placed(no, loop, inFor)
    case While(_, body) => Placed(body, true, inFor)
    case Block(ss) => PlacedAll(ss, loop, inFor)
    case _ => true
  }

  predicate PlacedAll(ss: Stmts, loop: bool, inFor: bool)
  {
    match ss case NoStmts => true case MoreStmts(s, more) => Placed(s, loop, inFor) && PlacedAll(more, loop, inFor)
  }

  lemma {:induction false} WellIsPlaced(A: Arith, bare: set<nat>, s: Stmt, loop: bool, inFor: bool, empty: bool)
    requires WellS(A, bare, s, loop, inFor, empty)
    ensures Placed(s, loop, inFor)
  {
    match s
    case For(_, _, _, body) => WellIsPlaced(A, bare, body, true, true, empty);
    case If(_, yes) => WellIsPlaced(A, bare, yes, loop, inFor, empty);
    case IfElse(_, yes, no) =>
      WellIsPlaced(A, bare, yes, loop, inFor, empty);
      WellIsPlaced(A, bare, no, loop, inFor, empty);
    case While(_, body) => WellIsPlaced(A, bare, body, true, inFor, empty);
    case Block(ss) => WellArePlaced(A, bare, ss, loop, inFor, empty);
    case _ =>
  }

  lemma {:induction false} WellArePlaced(A: Arith, bare: set<nat>, ss: Stmts, loop: bool, inFor: bool, empty: bool)
    requires WellSs(A, bare, ss, loop, inFor, empty)
    ensures PlacedAll(ss, loop, inFor)
  {
    match ss
    case NoStmts =>
    case MoreStmts(s, more) =>
      WellIsPlaced(A, bare, s, loop, inFor, empty);
      WellArePlaced(A, bare, more, loop, inFor, empty);
  }

  lemma Assoc(x: seq<Item>, a: seq<Item>, b: seq<Item>)
    ensures x + a + b == x + (a + b)
  {
  }

  lemma Join3(x: seq<Item>, a: seq<Item>, b: seq<Item>, c: seq<Item>)
    ensures x + a + b + c == x + (a + b + c)
  {
    Assoc(x, a, b);
    Assoc(x, a + b, c);
  }

  lemma Join4(x: seq<Item>, a: seq<Item>, b: seq<Item>, c: seq<Item>, d: seq<Item>)
    ensures x + a + b + c + d == x + (a + b + c + d)
  {
    Join3(x, a, b, c);
    Assoc(x, a + b + c, d);
  }

  lemma Join5(x: seq<Item>, a: seq<Item>, b: seq<Item>, c: seq<Item>, d: seq<Item>, e: seq<Item>)
    ensures x + a + b + c + d + e == x + (a + b + c + d + e)
  {
    Join4(x, a, b, c, d);
    Assoc(x, a + b + c + d, e);
  }

  lemma NextInList(before: seq<bool>, kind: bool, more: seq<bool>)
    ensures ListOf(before + [kind]) == NextArg(ListOf(before), kind)
    ensures before + [kind] + more == before + ([kind] + more)
  {
    assert (before + [kind])[..|before|] == before;
  }

  class Generator {
    var code: seq<Item>
    var nextLabel: nat
    var breakLabel: nat
    var continueLabel: nat
    var ifLabel: nat
    var hadError: bool

    // init_gen
    constructor ()
      ensures code == [] && nextLabel == 1 && breakLabel == 0 && continueLabel == 0 && !hadError
    {
      code, nextLabel, breakLabel, continueLabel, ifLabel, hadError := [], 1, 0, 0, 0, false;
    }

    // generate
    method Generate(items: seq<Item>)
      modifies `code
      ensures code == old(code) + items
    {
      code := code + items;
    }

    // ---- Expressions -------------------------------------------------------------------

    method GenE(e: Expr) returns (v: int)
      modifies `code, `nextLabel
      ensures code == old(code) + CodeE(e, old(nextLabel)) && nextLabel == old(nextLabel) + LabelsE(e)
              && v == BitsOf(AttrOf(e))
      decreases e, 1
    {
      hide CodeN, CodeEs, AttrOf, LabelsN, LabelsEs, BeforeOf, AfterOf, CallStr;
      match e {
      case Number(text) =>
        Generate(if text == "0" then [Plain('0')] else if text == "1" then [Plain('1')] else [Const(text)]);
      case Value(n) => GenNamed(e, n, [LoadOf(n)]);
      case Assign(n, op, a) => GenAssign(n, op, a);
      case And(a, b) => GenAnd(a, b);
      case Or(a, b) => GenOr(a, b);
      case Not(a) => GenThen(e, a, Plain('!'));
      case Relation(rel, a, b) => GenTwo(e, a, b, Plain(rel));
      case Binary(bin, a, b) => GenTwo(e, a, b, Plain(bin));
      case Negate(a) => GenThen(e, a, Plain('n'));
      case Paren(a) =>
        var w := GenE(a);
      case Before(step, n) => GenNamed(e, n, BeforeOf(step, n));
      case AfterIt(n, step) => GenNamed(e, n, AfterOf(step, n));
      case Special(fn, a) => GenThen(e, a, Builtin(fn));
      case Call(f, args) => GenCall(f, args);
      }
      v := BitsOf(AttrOf(e));
    }

    // The subscript, if there is one, and the instructions behind it.
    method GenNamed(ghost e: Expr, n: Named, items: seq<Item>)
      requires n < e
      modifies `code, `nextLabel
      ensures code == old(code) + (CodeN(n, old(nextLabel)) + items) && nextLabel == old(nextLabel) + LabelsN(n)
      decreases e, 0
    {
      hide CodeN, LabelsN;
      ghost var c0, l0 := code, nextLabel;
      GenN(n);
      Generate(items);
      Assoc(c0, CodeN(n, l0), items);
    }

    method GenCall(f: nat, args: Exprs)
      modifies `code, `nextLabel
      ensures code == old(code) + (CodeEs(args, old(nextLabel)) + [Enter(f, CallStr(args))])
      ensures nextLabel == old(nextLabel) + LabelsEs(args)
      decreases Call(f, args), 0
    {
      hide CodeEs, LabelsEs;
      ghost var c0, l0 := code, nextLabel;
      var list := GenArgs(args, [], []);
      Generate([Enter(f, list)]);
      assert [] + Kinds(args) == Kinds(args);
      Assoc(c0, CodeEs(args, l0), [Enter(f, list)]);
    }

    method GenN(n: Named)
      modifies `code, `nextLabel
      ensures code == old(code) + CodeN(n, old(nextLabel)) && nextLabel == old(nextLabel) + LabelsN(n)
      decreases n, 1
    {
      if n.Element? { var v := GenE(n.index); }
    }

    // The arguments from left to right; list is that of the arguments so far.
    method GenArgs(es: Exprs, list: seq<bool>, ghost before: seq<bool>) returns (all: seq<bool>)
      requires list == ListOf(before)
      modifies `code, `nextLabel
      ensures code == old(code) + CodeEs(es, old(nextLabel)) && nextLabel == old(nextLabel) + LabelsEs(es)
      ensures all == ListOf(before + Kinds(es))
      decreases es, 1
    {
      hide CodeE, LabelsE, ListOf, Decimal;
      ghost var c0, l0 := code, nextLabel;
      match es
      case NoExprs =>
        all := list;
        assert before + [] == before;
      case MoreExprs(e, more) =>
        var v := GenE(e);
        NextInList(before, false, Kinds(more));
        all := GenArgs(more, NextArg(list, false), before + [false]);
        Assoc(c0, CodeE(e, l0), CodeEs(more, l0 + LabelsE(e)));
      case MoreArrays(a, more) =>
        Generate([Const(Decimal(a))]);
        NextInList(before, true, Kinds(more));
        all := GenArgs(more, NextArg(list, true), before + [true]);
        Assoc(c0, [Const(Decimal(a))], CodeEs(more, l0));
    }

    // An operand and the instruction on it.
    method GenThen(ghost e: Expr, a: Expr, it: Item)
      requires a < e
      modifies `code, `nextLabel
      ensures code == old(code) + (CodeE(a, old(nextLabel)) + [it]) && nextLabel == old(nextLabel) + LabelsE(a)
      decreases e, 0
    {
      hide CodeE;
      ghost var c0, l0 := code, nextLabel;
      var v := GenE(a);
      Generate([it]);
      Assoc(c0, CodeE(a, l0), [it]);
    }

    method GenTwo(ghost e: Expr, a: Expr, b: Expr, it: Item)
      requires a < e && b < e
      modifies `code, `nextLabel
      ensures var l := old(nextLabel); code == old(code) + (CodeE(a, l) + CodeE(b, l + LabelsE(a)) + [it])
      ensures nextLabel == old(nextLabel) + LabelsE(a) + LabelsE(b)
      decreases e, 0
    {
      hide CodeE;
      ghost var c0, l0 := code, nextLabel;
      var v := GenE(a);
      var w := GenE(b);
      Generate([it]);
      ghost var x, y := CodeE(a, l0), CodeE(b, l0 + LabelsE(a));
      Join3(c0, x, y, [it]);
    }

    method GenAnd(a: Expr, b: Expr)
      modifies `code, `nextLabel
      ensures code == old(code) + CodeE(And(a, b), old(nextLabel)) && nextLabel == old(nextLabel) + LabelsE(And(a, b))
      decreases And(a, b), 0
    {
      hide CodeE, LabelsE;
      ghost var c0, l0 := code, nextLabel;
      var v := GenE(a);
      var label1 := nextLabel;
      nextLabel := nextLabel + 1;
      Generate(TestCode(label1));
      var w := GenE(b);
      Generate(AndEnd(label1));
      ghost var x, z := CodeE(a, l0), CodeE(b, label1 + 1);
      Join4(c0, x, TestCode(label1), z, AndEnd(label1));
      AndIs(a, b, l0);
    }

    method GenOr(a: Expr, b: Expr)
      modifies `code, `nextLabel
      ensures code == old(code) + CodeE(Or(a, b), old(nextLabel)) && nextLabel == old(nextLabel) + LabelsE(Or(a, b))
      decreases Or(a, b), 0
    {
      hide CodeE, LabelsE;
      ghost var c0, l0 := code, nextLabel;
      var v := GenE(a);
      var label1 := nextLabel;
      nextLabel := nextLabel + 1;
      Generate([Jump('B', label1)]);
      var w := GenE(b);
      var tmplab := nextLabel;
      nextLabel := nextLabel + 1;
      Generate(OrEnd(label1, tmplab));
      ghost var x, z := CodeE(a, l0), CodeE(b, label1 + 1);
      Join4(c0, x, [Jump('B', label1)], z, OrEnd(label1, tmplab));
      OrIs(a, b, l0);
    }

    method GenAssign(n: Named, op: AssignOp, a: Expr)
      modifies `code, `nextLabel
      ensures code == old(code) + CodeE(Assign(n, op, a), old(nextLabel))
              && nextLabel == old(nextLabel) + LabelsE(Assign(n, op, a))
      decreases Assign(n, op, a), 0
    {
      hide FetchOf, CodeN, CodeE, LabelsE, LabelsN;
      ghost var c0, l0 := code, nextLabel;
      ghost var x, z := CodeN(n, l0), CodeE(a, l0 + LabelsN(n));
      ghost var y, u := FetchPart(n, op), OpPart(op);
      GenN(n);
      if op != '=' { Generate(FetchOf(n)); }
      assert code == c0 + x + y;
      var v := GenE(a);
      if op != '=' { Generate([Plain(op)]); }
      assert code == c0 + x + y + z + u;
      Generate([StoreOf(n)]);
      Join5(c0, x, y, z, u, [StoreOf(n)]);
      AssignIs(n, op, a, l0);
    }

    // opt_expression
    method GenO(o: OptExpr) returns (v: int)
      modifies `code, `nextLabel
      ensures code == old(code) + CodeO(o, old(nextLabel)) && nextLabel == old(nextLabel) + LabelsO(o)
              && v == BitsOf(AttrOfOpt(o))
    {
      if o.None? {
        v := 16;
      } else {
        v := GenE(o.e);
      }
    }

    // ---- Statements --------------------------------------------------------------------

    // A break or continue in a wrong place is an error; otherwise the code is that of
    // the statement, and the labels of the enclosing statements are as before.
    twostate predicate Generated(s: Stmt)
      reads this
    {
      breakLabel == old(breakLabel) && continueLabel == old(continueLabel) && ifLabel == old(ifLabel)
      && nextLabel == old(nextLabel) + LabelsS(s)
      && (hadError <==> old(hadError) || !Placed(s, breakLabel != 0, continueLabel != 0))
      && (!hadError ==> code == old(code) + CodeS(s, old(nextLabel), breakLabel, continueLabel))
    }

    method GenS(s: Stmt)
      requires nextLabel > 0
      modifies this
      ensures Generated(s)
      decreases s, 1
    {
      hide CodeE, AttrOf;
      ghost var c0, l0 := code, nextLabel;
      match s
      case Expression(e) =>
        var v := GenE(e);
        var w := Plain(if v % 2 == 1 then 'W' else 'p');
        Generate([w]);
        Assoc(c0, CodeE(e, l0), [w]);
      case Text(t) => Generate([Str('w', t)]);
      case Break =>
        if breakLabel == 0 { hadError := true; } else { Generate([Jump('J', breakLabel)]); }
      case Continue =>
        if continueLabel == 0 { hadError := true; } else { Generate([Jump('J', continueLabel)]); }
      case Halt => Generate([Plain('h')]);
      case Return(o) =>
        if o.None? { Generate([Plain('0')]); } else { var v := GenE(o.e); }
        Generate([Plain('R')]);
        Assoc(c0, if o.None? then [Plain('0')] else CodeE(o.e, l0), [Plain('R')]);
      case For(a, b, c, body) => GenFor(a, b, c, body);
      case If(c, yes) => GenIf(c, yes);
      case IfElse(c, yes, no) => GenIfElse(c, yes, no);
      case While(c, body) => GenWhile(c, body);
      case Block(ss) => GenSs(ss);
      case PrintText(t) => Generate([Str('O', t)]);
      case PrintExpr(e) =>
        var v := GenE(e);
        Generate([Plain('P')]);
        Assoc(c0, CodeE(e, l0), [Plain('P')]);
    }

    method GenSs(ss: Stmts)
      requires nextLabel > 0
      modifies this
      ensures breakLabel == old(breakLabel) && continueLabel == old(continueLabel) && ifLabel == old(ifLabel)
      ensures nextLabel == old(nextLabel) + LabelsSs(ss)
      ensures hadError <==> old(hadError) || !PlacedAll(ss, breakLabel != 0, continueLabel != 0)
      ensures !hadError ==> code == old(code) + CodeSs(ss, old(nextLabel), breakLabel, continueLabel)
      decreases ss, 1
    {
      ghost var c0, l0 := code, nextLabel;
      match ss
      case NoStmts =>
      case MoreStmts(s, more) =>
        GenS(s);
        GenSs(more);
        Assoc(c0, CodeS(s, l0, breakLabel, continueLabel), CodeSs(more, l0 + LabelsS(s), breakLabel, continueLabel));
    }

    method GenIf(c: Expr, yes: Stmt)
      requires nextLabel > 0
      modifies this
      ensures Generated(If(c, yes))
      decreases If(c, yes), 0
    {
      hide CodeE, LabelsE;
      ghost var c0, l0 := code, nextLabel;
      var saved := ifLabel;
      GenTest(c);
      GenS(yes);
      Generate([Label(ifLabel)]);
      ghost var id := ifLabel;
      ifLabel := saved;
      Join4(c0, CodeE(c, l0), [Jump('Z', id)], CodeS(yes, id + 1, breakLabel, continueLabel), [Label(id)]);
    }

    method GenIfElse(c: Expr, yes: Stmt, no: Stmt)
      requires nextLabel > 0
      modifies this
      ensures Generated(IfElse(c, yes, no))
      decreases IfElse(c, yes, no), 0
    {
      hide CodeE, CodeS, LabelsE, Placed, ElseCode;
      ghost var c0, l0 := code, nextLabel;
      var saved := ifLabel;
      GenTest(c);
      ghost var id := ifLabel;
      ghost var x, z := CodeE(c, l0), CodeS(yes, id + 1, breakLabel, continueLabel);
      GenS(yes);
      ghost var over := nextLabel;
      GenElse(no);
      ifLabel := saved;
      Join4(c0, x, [Jump('Z', id)], z, ElseCode(no, id, over, breakLabel, continueLabel));
      ElseIs(c, yes, no, l0, breakLabel, continueLabel);
      PlacedBoth(c, yes, no, breakLabel != 0, continueLabel != 0);
    }

    method GenElse(no: Stmt)
      requires nextLabel > 0
      modifies this
      ensures breakLabel == old(breakLabel) && continueLabel == old(continueLabel)
      ensures nextLabel == old(nextLabel) + 1 + LabelsS(no)
      ensures hadError <==> old(hadError) || !Placed(no, breakLabel != 0, continueLabel != 0)
      ensures !hadError ==> code == old(code) + ElseCode(no, old(ifLabel), old(nextLabel), breakLabel, continueLabel)
      decreases no, 2
    {
      hide CodeS, Placed;
      ghost var c0, id := code, ifLabel;
      var over := nextLabel;
      nextLabel := nextLabel + 1;
      Generate([Jump('J', over), Label(ifLabel)]);
      ifLabel := over;
      GenS(no);
      Generate([Label(ifLabel)]);
      Join3(c0, [Jump('J', over), Label(id)], CodeS(no, over + 1, breakLabel, continueLabel), [Label(over)]);
    }

    // The condition of an if, and the jump over the statement after it.
    method GenTest(c: Expr)
      modifies `code, `nextLabel, `ifLabel
      ensures ifLabel == old(nextLabel) + LabelsE(c) && nextLabel == ifLabel + 1
      ensures code == old(code) + CodeE(c, old(nextLabel)) + [Jump('Z', ifLabel)]
    {
      var v := GenE(c);
      ifLabel := nextLabel;
      nextLabel := nextLabel + 1;
      Generate([Jump('Z', ifLabel)]);
    }

    method GenWhile(c: Expr, body: Stmt)
      requires nextLabel > 0
      modifies this
      ensures Generated(While(c, body))
      decreases While(c, body), 0
    {
      hide CodeE, CodeS, LabelsE, LabelsS, Placed;
      ghost var c0, l0 := code, nextLabel;
      var top := nextLabel;
      nextLabel := nextLabel + 1;
      Generate([Label(top)]);
      var v := GenE(c);
      var saved := breakLabel;
      breakLabel := nextLabel;
      nextLabel := nextLabel + 1;
      ghost var id := breakLabel;
      Generate([Jump('Z', breakLabel)]);
      GenS(body);
      Generate([Jump('J', top), Label(breakLabel)]);
      breakLabel := saved;
      ghost var x, z := CodeE(c, l0 + 1), CodeS(body, id + 1, id, continueLabel);
      WhileIs(c, body, l0, breakLabel, continueLabel);
      PlacedWhile(c, body, breakLabel != 0, continueLabel != 0);
      Join5(c0, [Label(l0)], x, [Jump('Z', id)], z, [Jump('J', l0), Label(id)]);
    }

    // A for up to its condition.  A missing expression has the value 16: it passes the
    // test for the pop, and never the test for a negative value, after which a
    // condition that is true would be generated.
    method GenForStart(a: OptExpr, b: OptExpr) returns (test: nat)
      requires nextLabel > 0
      modifies `code, `nextLabel, `breakLabel
      ensures breakLabel == old(nextLabel) && test == breakLabel + 1 + LabelsO(a) && nextLabel == test + 1 + LabelsO(b)
      ensures code == old(code) + (CodeO(a, breakLabel + 1) + [Plain('p'), Label(test)] + CodeO(b, test + 1))
    {
      hide CodeO, AttrOfOpt, LabelsO;
      ghost var c0 := code;
      breakLabel := nextLabel;
      nextLabel := nextLabel + 1;
      var first := GenO(a);
      if first >= 0 { Generate([Plain('p')]); }
      test := nextLabel;
      nextLabel := nextLabel + 1;
      Generate([Label(test)]);
      var cond := GenO(b);
      assert cond >= 0;
      StartJoin(c0, CodeO(a, breakLabel + 1), Plain('p'), Label(test), CodeO(b, test + 1));
    }

    // A for up to its third expression.
    method GenForHead(a: OptExpr, b: OptExpr, c: OptExpr) returns (test: nat, inside: nat, step: int)
      requires nextLabel > 0
      modifies `code, `nextLabel, `breakLabel, `continueLabel
      ensures var ls := LabelsOfFor(a, b, c, old(nextLabel));
              code == old(code) + ForFront(a, b, c, ls) && nextLabel == ls.inner && breakLabel == ls.brk
                && continueLabel == ls.cont
              && test == ls.test && inside == ls.body && step == BitsOf(AttrOfOpt(c))
    {
      hide CodeO, AttrOfOpt, LabelsO;
      ghost var c0, l0 := code, nextLabel;
      test := GenForStart(a, b);
      inside := nextLabel;
      nextLabel := nextLabel + 1;
      Generate([Jump('B', inside), Jump('J', breakLabel)]);
      continueLabel := nextLabel;
      nextLabel := nextLabel + 1;
      Generate([Label(continueLabel)]);
      step := GenO(c);
      ghost var ls := LabelsOfFor(a, b, c, l0);
      HeadJoin(c0, CodeO(a, ls.first) + [Plain('p'), Label(ls.test)] + CodeO(b, ls.cond), Jump('B', ls.body),
        Jump('J', ls.brk),
               Label(ls.cont), CodeO(c, ls.step));
    }

    method GenFor(a: OptExpr, b: OptExpr, c: OptExpr, body: Stmt)
      requires nextLabel > 0
      modifies this
      ensures Generated(For(a, b, c, body))
      decreases For(a, b, c, body), 0
    {
      hide CodeS, CodeO, AttrOfOpt, ForFront, Placed, LabelsS, LabelsO;
      ghost var c0, l0 := code, nextLabel;
      var savedBreak, savedContinue := breakLabel, continueLabel;
      var test, inside, step := GenForHead(a, b, c);
      ghost var ls := LabelsOfFor(a, b, c, l0);
      ghost var h := ForFront(a, b, c, ls);
      ghost var p := PopPart(c);
      ghost var t2, t3 := [Jump('J', test), Label(inside)], [Jump('J', continueLabel), Label(breakLabel)];
      if (step / 16) % 2 == 0 { Generate([Plain('p')]); }
      Generate([Jump('J', test), Label(inside)]);
      PopJoin(c0, h, p, t2, code);
      GenS(body);
      Generate([Jump('J', continueLabel), Label(breakLabel)]);
      breakLabel := savedBreak;
      continueLabel := savedContinue;
      ghost var z := CodeS(body, ls.inner, ls.brk, ls.cont);
      Join3(c0, h + p + t2, z, t3);
      ForIs(a, b, c, body, l0, breakLabel, continueLabel);
      PlacedFor(a, b, c, body, breakLabel != 0, continueLabel != 0);
    }
  }

  function ElseCode(no: Stmt, id: nat, over: nat, brk: nat, cont: nat): seq<Item>
  {
    [Jump('J', over), Label(id)] + CodeS(no, over + 1, brk, cont) + [Label(over)]
  }

  lemma ElseIs(c: Expr, yes: Stmt, no: Stmt, l: nat, brk: nat, cont: nat)
    ensures var id := l + LabelsE(c); var over := id + 1 + LabelsS(yes);
            CodeS(IfElse(c, yes, no), l, brk, cont)
            == CodeE(c, l) + [Jump('Z', id)] + CodeS(yes, id + 1, brk, cont) + ElseCode(no, id, over, brk, cont)
  {
    hide CodeE, CodeS, LabelsE, LabelsS;
    IfElseIs(c, yes, no, l, brk, cont);
    var id := l + LabelsE(c);
    var over := id + 1 + LabelsS(yes);
    Join3(CodeE(c, l) + [Jump('Z', id)] + CodeS(yes, id + 1, brk, cont), [Jump('J', over), Label(id)],
      CodeS(no, over + 1, brk, cont), [Label(over)]);
  }

  lemma PlacedBoth(c: Expr, yes: Stmt, no: Stmt, loop: bool, inFor: bool)
    ensures Placed(IfElse(c, yes, no), loop, inFor) <==> Placed(yes, loop, inFor) && Placed(no, loop, inFor)
  {
  }

  lemma PlacedFor(a: OptExpr, b: OptExpr, c: OptExpr, body: Stmt, loop: bool, inFor: bool)
    ensures Placed(For(a, b, c, body), loop, inFor) <==> Placed(body, true, true)
  {
  }

  lemma PlacedWhile(c: Expr, body: Stmt, loop: bool, inFor: bool)
    ensures Placed(While(c, body), loop, inFor) <==> Placed(body, true, inFor)
  {
  }

  lemma PopJoin(c0: seq<Item>, h: seq<Item>, p: seq<Item>, t: seq<Item>, code: seq<Item>)
    requires code == (if p == [] then c0 + h + t else c0 + h + p + t)
    ensures code == c0 + (h + p + t)
  {
    Assoc(c0, h, p);
    Assoc(c0, h + p, t);
    if p == [] { assert h + p == h; }
  }

  lemma StartJoin(c0: seq<Item>, x: seq<Item>, p: Item, t: Item, y: seq<Item>)
    ensures c0 + x + [p] + [t] + y == c0 + (x + [p, t] + y)
  {
    assert c0 + x + [p] + [t] == c0 + (x + [p, t]);
    Assoc(c0, x + [p, t], y);
  }

  lemma HeadJoin(c0: seq<Item>, h: seq<Item>, b: Item, j: Item, k: Item, w: seq<Item>)
    ensures c0 + h + [b, j] + [k] + w == c0 + (h + [b, j, k] + w)
  {
    assert c0 + h + [b, j] + [k] == c0 + (h + [b, j, k]);
    Assoc(c0, h + [b, j, k], w);
  }

  // One item of input, and one function: compiled into the code that is loaded.
  method CompileMain(main: Stmts) returns (code: seq<Item>, ok: bool)
    ensures ok <==> PlacedAll(main, false, false)
    ensures ok ==> code == MainCode(main)
  {
    var g := new Generator();
    g.GenSs(main);
    code, ok := g.code, !g.hadError;
  }

  method CompileFunction(f: Function) returns (code: seq<Item>, ok: bool)
    ensures ok <==> PlacedAll(f.body, false, false)
    ensures ok ==> code == FunctionCode(f)
  {
    var g := new Generator();
    g.GenSs(f.body);
    g.Generate([Plain('0'), Plain('R')]);
    code, ok := g.code, !g.hadError;
  }
}
