// Every label of the generated code is defined exactly once, so that a jump goes
// where its label stands.
module BcLabels {
  import opened BcSyntax
  import opened BcLayout
  import opened BcMachine

  // How often a label is defined.
  function Times(code: seq<Item>, id: nat): nat
  {
    if code == [] then 0 else (if code[0] == Label(id) then 1 else 0) + Times(code[1..], id)
  }

  lemma {:induction false} TimesJoin(a: seq<Item>, b: seq<Item>, id: nat)
    ensures Times(a + b, id) == Times(a, id) + Times(b, id)
  {
    if a == [] {
      assert a + b == b;
    } else {
      assert (a + b)[1..] == a[1..] + b;
      TimesJoin(a[1..], b, id);
    }
  }

  lemma Join3(x: seq<Item>, y: seq<Item>, z: seq<Item>, id: nat)
    ensures Times(x + y + z, id) == Times(x, id) + Times(y, id) + Times(z, id)
  {
    hide Times;
    TimesJoin(x + y, z, id);
    TimesJoin(x, y, id);
  }

  lemma Join4(x: seq<Item>, y: seq<Item>, z: seq<Item>, u: seq<Item>, id: nat)
    ensures Times(x + y + z + u, id) == Times(x, id) + Times(y, id) + Times(z, id) + Times(u, id)
  {
    hide Times;
    TimesJoin(x + y + z, u, id);
    Join3(x, y, z, id);
  }

  lemma Join5(x: seq<Item>, y: seq<Item>, z: seq<Item>, u: seq<Item>, v: seq<Item>, id: nat)
    ensures Times(x + y + z + u + v, id) == Times(x, id) + Times(y, id) + Times(z, id) + Times(u, id) + Times(v, id)
  {
    hide Times;
    TimesJoin(x + y + z + u, v, id);
    Join4(x, y, z, u, id);
  }

  function One(b: bool): nat
  {
    if b then 1 else 0
  }

  function Within(id: nat, l: nat, n: nat): nat
  {
    One(l <= id < l + n)
  }

  lemma TimesOne(it: Item, id: nat)
    ensures Times([it], id) == One(it == Label(id))
  {
    assert [it][1..] == [];
  }

  lemma TimesTwo(x: Item, y: Item, id: nat)
    ensures Times([x, y], id) == One(x == Label(id)) + One(y == Label(id))
  {
    assert [x, y] == [x] + [y];
    TimesJoin([x], [y], id);
    TimesOne(x, id);
    TimesOne(y, id);
  }

  lemma {:induction false} TimesNone(code: seq<Item>, id: nat)
    requires forall i :: 0 <= i < |code| ==> !code[i].Label?
    ensures Times(code, id) == 0
  {
    if code != [] { TimesNone(code[1..], id); }
  }

  // ---- Labels of expressions and statements ------------------------------------------------

  lemma TimesBehind(c: seq<Item>, more: seq<Item>, id: nat)
    requires forall i :: 0 <= i < |more| ==> !more[i].Label?
    ensures Times(c + more, id) == Times(c, id)
  {
    hide Times;
    TimesJoin(c, more, id);
    TimesNone(more, id);
  }

  lemma {:induction false} LabelsOfE(e: Expr, l: nat, id: nat)
    ensures Times(CodeE(e, l), id) == Within(id, l, LabelsE(e))
    decreases e
  {
    hide Times, CodeE, LabelsE;
    match e
    case Assign(n, op, a) => LabelsOfAssign(n, op, a, l, id);
    case And(a, b) => LabelsOfAnd(a, b, l, id);
    case Or(a, b) => LabelsOfOr(a, b, l, id);
    case Relation(op, a, b) => LabelsOfBoth(e, op, a, b, l, id);
    case Binary(op, a, b) => LabelsOfBoth(e, op, a, b, l, id);
    case Value(_) => LabelsOfNamed(e, l, id);
    case Before(_, _) => LabelsOfNamed(e, l, id);
    case AfterIt(_, _) => LabelsOfNamed(e, l, id);
    case _ => LabelsOfOne(e, l, id);
  }

  lemma {:induction false} LabelsOfNamed(e: Expr, l: nat, id: nat)
    requires e.Value? || e.Before? || e.AfterIt?
    ensures Times(CodeE(e, l), id) == Within(id, l, LabelsE(e))
    decreases e, 0
  {
    hide Times, CodeN, LabelsN;
    LabelsOfN(e.n, l, id);
    TimesBehind(CodeN(e.n, l), if e.Value? then [LoadOf(e.n)] else if e.Before? then BeforeOf(e.step, e.n)
                               else AfterOf(e.step, e.n), id);
  }

  lemma {:induction false} LabelsOfOne(e: Expr, l: nat, id: nat)
    requires e.Number? || e.Not? || e.Negate? || e.Paren? || e.Special? || e.Call?
    ensures Times(CodeE(e, l), id) == Within(id, l, LabelsE(e))
    decreases e, 0
  {
    hide Times, CodeEs, LabelsEs, CallStr;
    if e.Number? {
      TimesNone(CodeE(e, l), id);
    } else if e.Call? {
      LabelsOfEs(e.args, l, id);
      TimesBehind(CodeEs(e.args, l), [Enter(e.f, CallStr(e.args))], id);
    } else {
      LabelsOfE(e.a, l, id);
      if !e.Paren? {
        TimesBehind(CodeE(e.a, l), [if e.Not? then Plain('!') else if e.Negate? then Plain('n') else Builtin(e.fn)],
          id);
      }
    }
  }

  lemma {:induction false} LabelsOfN(n: Named, l: nat, id: nat)
    ensures Times(CodeN(n, l), id) == Within(id, l, LabelsN(n))
    decreases n
  {
    if n.Element? { LabelsOfE(n.index, l, id); }
  }

  lemma {:induction false} LabelsOfEs(es: Exprs, l: nat, id: nat)
    ensures Times(CodeEs(es, l), id) == Within(id, l, LabelsEs(es))
    decreases es
  {
    hide Times;
    match es
    case NoExprs => TimesNone([], id);
    case MoreArrays(a, more) =>
      LabelsOfEs(more, l, id);
      TimesJoin([Const(Decimal(a))], CodeEs(more, l), id);
      TimesOne(Const(Decimal(a)), id);
    case MoreExprs(e, more) =>
      LabelsOfE(e, l, id);
      LabelsOfEs(more, l + LabelsE(e), id);
      TimesJoin(CodeE(e, l), CodeEs(more, l + LabelsE(e)), id);
  }

  lemma {:induction false} LabelsOfAssign(n: Named, op: AssignOp, a: Expr, l: nat, id: nat)
    ensures Times(CodeE(Assign(n, op, a), l), id) == Within(id, l, LabelsE(Assign(n, op, a)))
    decreases Assign(n, op, a), 0
  {
    hide Times, CodeE, CodeN, LabelsE, LabelsN;
    AssignIs(n, op, a, l);
    LabelsOfN(n, l, id);
    LabelsOfE(a, l + LabelsN(n), id);
    TimesNone(FetchPart(n, op), id);
    TimesNone(OpPart(op), id);
    TimesNone([StoreOf(n)], id);
    Join5(CodeN(n, l), FetchPart(n, op), CodeE(a, l + LabelsN(n)), OpPart(op), [StoreOf(n)], id);
  }

  lemma {:induction false} LabelsOfBoth(e: Expr, op: char, a: Expr, b: Expr, l: nat, id: nat)
    requires e.Relation? || e.Binary?
    requires a == e.a && b == e.b && op == if e.Relation? then e.rel else e.bin
    ensures Times(CodeE(e, l), id) == Within(id, l, LabelsE(e))
    decreases e, 0
  {
    hide Times;
    LabelsOfE(a, l, id);
    LabelsOfE(b, l + LabelsE(a), id);
    Join3(CodeE(a, l), CodeE(b, l + LabelsE(a)), [Plain(op)], id);
    TimesOne(Plain(op), id);
  }

  lemma {:induction false} LabelsOfAnd(a: Expr, b: Expr, l: nat, id: nat)
    ensures Times(CodeE(And(a, b), l), id) == Within(id, l, LabelsE(And(a, b)))
    decreases And(a, b), 0
  {
    hide Times, CodeE, LabelsE, TestCode, AndEnd;
    var m := l + LabelsE(a);
    AndIs(a, b, l);
    LabelsOfE(a, l, id);
    LabelsOfE(b, m + 1, id);
    TimesTests(m, id);
    Join4(CodeE(a, l), TestCode(m), CodeE(b, m + 1), AndEnd(m), id);
  }

  lemma TimesTests(m: nat, id: nat)
    ensures Times(TestCode(m), id) == 0 && Times(AndEnd(m), id) == One(m == id)
  {
    hide Times;
    TimesNone(TestCode(m), id);
    TimesNone([Plain('D'), Jump('Z', m), Plain('p'), Plain('1')], id);
    TimesOne(Label(m), id);
    assert AndEnd(m) == [Plain('D'), Jump('Z', m), Plain('p'), Plain('1')] + [Label(m)];
    TimesJoin([Plain('D'), Jump('Z', m), Plain('p'), Plain('1')], [Label(m)], id);
  }

  lemma {:induction false} LabelsOfOr(a: Expr, b: Expr, l: nat, id: nat)
    ensures Times(CodeE(Or(a, b), l), id) == Within(id, l, LabelsE(Or(a, b)))
    decreases Or(a, b), 0
  {
    hide Times, CodeE, LabelsE, OrEnd;
    var m := l + LabelsE(a);
    var t := m + 1 + LabelsE(b);
    OrIs(a, b, l);
    LabelsOfE(a, l, id);
    LabelsOfE(b, m + 1, id);
    TimesOne(Jump('B', m), id);
    TimesOrEnd(m, t, id);
    Join4(CodeE(a, l), [Jump('B', m)], CodeE(b, m + 1), OrEnd(m, t), id);
  }

  lemma TimesOrEnd(m: nat, t: nat, id: nat)
    ensures Times(OrEnd(m, t), id) == One(m == id) + One(t == id)
  {
    hide Times;
    var x, y := [Jump('B', m), Plain('0'), Jump('J', t)], [Label(m), Plain('1')];
    TimesNone(x, id);
    TimesTwo(Label(m), Plain('1'), id);
    TimesOne(Label(t), id);
    assert OrEnd(m, t) == x + y + [Label(t)];
    Join3(x, y, [Label(t)], id);
  }

  lemma LabelsOfO(o: OptExpr, l: nat, id: nat)
    ensures Times(CodeO(o, l), id) == Within(id, l, LabelsO(o))
  {
    if o.Some? { LabelsOfE(o.e, l, id); }
  }

  lemma {:induction false} LabelsOfS(s: Stmt, l: nat, brk: nat, cont: nat, id: nat)
    ensures Times(CodeS(s, l, brk, cont), id) == Within(id, l, LabelsS(s))
    decreases s
  {
    hide Times;
    match s
    case Expression(e) =>
      LabelsOfE(e, l, id);
      var w := Plain(if AttrOf(e).value then 'W' else 'p');
      TimesJoin(CodeE(e, l), [w], id);
      TimesOne(w, id);
    case Text(t) => TimesOne(Str('w', t), id);
    case Break => TimesOne(Jump('J', brk), id);
    case Continue => TimesOne(Jump('J', cont), id);
    case Halt => TimesOne(Plain('h'), id);
    case Return(o) =>
      var x := if o.None? then [Plain('0')] else CodeE(o.e, l);
      if o.None? { TimesOne(Plain('0'), id); } else { LabelsOfE(o.e, l, id); }
      TimesJoin(x, [Plain('R')], id);
      TimesOne(Plain('R'), id);
    case For(a, b, c, body) => LabelsOfForLoop(a, b, c, body, l, brk, cont, id);
    case If(c, yes) => LabelsOfIf(c, yes, l, brk, cont, id);
    case IfElse(c, yes, no) => LabelsOfIfElse(c, yes, no, l, brk, cont, id);
    case While(c, body) => LabelsOfWhile(c, body, l, brk, cont, id);
    case Block(ss) => LabelsOfSs(ss, l, brk, cont, id);
    case PrintText(t) => TimesOne(Str('O', t), id);
    case PrintExpr(e) =>
      LabelsOfE(e, l, id);
      TimesJoin(CodeE(e, l), [Plain('P')], id);
      TimesOne(Plain('P'), id);
  }

  lemma {:induction false} LabelsOfIf(c: Expr, yes: Stmt, l: nat, brk: nat, cont: nat, id: nat)
    ensures Times(CodeS(If(c, yes), l, brk, cont), id) == Within(id, l, LabelsS(If(c, yes)))
    decreases If(c, yes), 0
  {
    hide Times, CodeE, CodeS, LabelsE, LabelsS;
    var m := l + LabelsE(c);
    IfIs(c, yes, l, brk, cont);
    LabelsOfE(c, l, id);
    LabelsOfS(yes, m + 1, brk, cont, id);
    TimesOne(Jump('Z', m), id);
    TimesOne(Label(m), id);
    Join4(CodeE(c, l), [Jump('Z', m)], CodeS(yes, m + 1, brk, cont), [Label(m)], id);
  }

  lemma {:induction false} LabelsOfIfElse(c: Expr, yes: Stmt, no: Stmt, l: nat, brk: nat, cont: nat, id: nat)
    ensures Times(CodeS(IfElse(c, yes, no), l, brk, cont), id) == Within(id, l, LabelsS(IfElse(c, yes, no)))
    decreases IfElse(c, yes, no), 0
  {
    hide Times, CodeE, CodeS, LabelsE, LabelsS;
    var m := l + LabelsE(c);
    var t := m + 1 + LabelsS(yes);
    var x, y, z := CodeE(c, l), [Jump('Z', m)], CodeS(yes, m + 1, brk, cont);
    var u, v, w := [Jump('J', t), Label(m)], CodeS(no, t + 1, brk, cont), [Label(t)];
    IfElseIs(c, yes, no, l, brk, cont);
    LabelsOfE(c, l, id);
    LabelsOfS(yes, m + 1, brk, cont, id);
    LabelsOfS(no, t + 1, brk, cont, id);
    TimesOne(Jump('Z', m), id);
    TimesTwo(Jump('J', t), Label(m), id);
    TimesOne(Label(t), id);
    TimesJoin(x + y + z + u + v, w, id);
    Join5(x, y, z, u, v, id);
  }

  lemma {:induction false} LabelsOfWhile(c: Expr, body: Stmt, l: nat, brk: nat, cont: nat, id: nat)
    ensures Times(CodeS(While(c, body), l, brk, cont), id) == Within(id, l, LabelsS(While(c, body)))
    decreases While(c, body), 0
  {
    hide Times, CodeE, CodeS, LabelsE, LabelsS;
    var m := l + 1 + LabelsE(c);
    var x, y, z := [Label(l)], CodeE(c, l + 1), [Jump('Z', m)];
    var u, v := CodeS(body, m + 1, m, cont), [Jump('J', l), Label(m)];
    WhileIs(c, body, l, brk, cont);
    LabelsOfE(c, l + 1, id);
    LabelsOfS(body, m + 1, m, cont, id);
    TimesOne(Label(l), id);
    TimesOne(Jump('Z', m), id);
    TimesTwo(Jump('J', l), Label(m), id);
    Join5(x, y, z, u, v, id);
  }

  lemma {:induction false} LabelsOfForLoop(a: OptExpr, b: OptExpr, c: OptExpr, body: Stmt, l: nat, brk: nat, cont: nat,
      id: nat)
    ensures Times(CodeS(For(a, b, c, body), l, brk, cont), id) == Within(id, l, LabelsS(For(a, b, c, body)))
    decreases For(a, b, c, body), 0
  {
    hide Times, CodeS, LabelsS, CodeO, LabelsO, ForFront;
    var ls := LabelsOfFor(a, b, c, l);
    ForIs(a, b, c, body, l, brk, cont);
    TimesFront(a, b, c, ls, id);
    LabelsOfO(a, ls.first, id);
    LabelsOfO(b, ls.cond, id);
    LabelsOfO(c, ls.step, id);
    LabelsOfS(body, ls.inner, ls.brk, ls.cont, id);
    TimesNone(PopPart(c), id);
    TimesTwo(Jump('J', ls.test), Label(ls.body), id);
    TimesTwo(Jump('J', ls.cont), Label(ls.brk), id);
    Join5(ForFront(a, b, c, ls), PopPart(c), [Jump('J', ls.test), Label(ls.body)],
      CodeS(body, ls.inner, ls.brk, ls.cont),
      [Jump('J', ls.cont), Label(ls.brk)], id);
  }

  lemma TimesFront(a: OptExpr, b: OptExpr, c: OptExpr, ls: ForLabels, id: nat)
    ensures Times(ForFront(a, b, c, ls), id)
            == Times(CodeO(a, ls.first), id) + One(ls.test == id) + Times(CodeO(b, ls.cond), id) + One(ls.cont == id)
               + Times(CodeO(c, ls.step), id)
  {
    hide Times, CodeO;
    TimesTwo(Plain('p'), Label(ls.test), id);
    var u1, u2 := [Jump('B', ls.body), Jump('J', ls.brk)], [Label(ls.cont)];
    TimesNone(u1, id);
    TimesOne(Label(ls.cont), id);
    assert [Jump('B', ls.body), Jump('J', ls.brk), Label(ls.cont)] == u1 + u2;
    TimesJoin(u1, u2, id);
    Join5(CodeO(a, ls.first), [Plain('p'), Label(ls.test)], CodeO(b, ls.cond), u1 + u2, CodeO(c, ls.step), id);
  }

  lemma {:induction false} LabelsOfSs(ss: Stmts, l: nat, brk: nat, cont: nat, id: nat)
    ensures Times(CodeSs(ss, l, brk, cont), id) == Within(id, l, LabelsSs(ss))
    decreases ss
  {
    hide Times;
    match ss
    case NoStmts => TimesNone([], id);
    case MoreStmts(s, more) =>
      LabelsOfS(s, l, brk, cont, id);
      LabelsOfSs(more, l + LabelsS(s), brk, cont, id);
      TimesJoin(CodeS(s, l, brk, cont), CodeSs(more, l + LabelsS(s), brk, cont), id);
  }

  // ---- Jumps find their labels ----------------------------------------------------------

  ghost predicate Unique(code: seq<Item>)
  {
    forall id: nat :: Times(code, id) <= 1
  }

  lemma UniqueCode(main: Stmts, f: Function)
    ensures Unique(MainCode(main)) && Unique(FunctionCode(f))
  {
    hide Times;
    forall id: nat ensures Times(MainCode(main), id) <= 1 && Times(FunctionCode(f), id) <= 1 {
      LabelsOfSs(main, 1, 0, 0, id);
      LabelsOfSs(f.body, 1, 0, 0, id);
      TimesTwo(Plain('0'), Plain('R'), id);
      TimesJoin(CodeSs(f.body, 1, 0, 0), [Plain('0'), Plain('R')], id);
    }
  }

  lemma {:induction false} FindIs(code: seq<Item>, k: nat, id: nat)
    requires k < |code| && code[k] == Label(id) && Times(code, id) <= 1
    ensures Find(code, id) == k
  {
    if k > 0 {
      TimesAt(code[1..], k - 1, id);
      FindIs(code[1..], k - 1, id);
    }
  }

  lemma {:induction false} TimesAt(code: seq<Item>, k: nat, id: nat)
    requires k < |code| && code[k] == Label(id)
    ensures Times(code, id) >= 1
  {
    if k > 0 { TimesAt(code[1..], k - 1, id); }
  }
}
