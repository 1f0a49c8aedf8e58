// The code of compound expressions and statements, part by part.
module BcLayout {
  import opened BcSyntax

  // ---- Expressions ------------------------------------------------------------------------

  // Zero stays on the stack, and is jumped with.
  function TestCode(id: nat): seq<Item>
  {
    [Plain('D'), Jump('Z', id), Plain('p')]
  }

  function AndEnd(id: nat): seq<Item>
  {
    [Plain('D'), Jump('Z', id), Plain('p'), Plain('1'), Label(id)]
  }

  function OrEnd(id: nat, t: nat): seq<Item>
  {
    [Jump('B', id), Plain('0'), Jump('J', t), Label(id), Plain('1'), Label(t)]
  }

  lemma AndIs(a: Expr, b: Expr, l: nat)
    ensures var id := l + LabelsE(a);
            CodeE(And(a, b), l) == CodeE(a, l) + TestCode(id) + CodeE(b, id + 1) + AndEnd(id)
            && LabelsE(And(a, b)) == LabelsE(a) + 1 + LabelsE(b)
  {
  }

  lemma OrIs(a: Expr, b: Expr, l: nat)
    ensures var id := l + LabelsE(a); var t := id + 1 + LabelsE(b);
            CodeE(Or(a, b), l) == CodeE(a, l) + [Jump('B', id)] + CodeE(b, id + 1) + OrEnd(id, t)
            && LabelsE(Or(a, b)) == LabelsE(a) + 1 + LabelsE(b) + 1
  {
  }

  function FetchPart(n: Named, op: AssignOp): seq<Item>
  {
    if op == '=' then [] else FetchOf(n)
  }

  function OpPart(op: AssignOp): seq<Item>
  {
    if op == '=' then [] else [Plain(op)]
  }

  lemma AssignIs(n: Named, op: AssignOp, a: Expr, l: nat)
    ensures CodeE(Assign(n, op, a), l)
            == CodeN(n, l) + FetchPart(n, op) + CodeE(a, l + LabelsN(n)) + OpPart(op) + [StoreOf(n)]
            && LabelsE(Assign(n, op, a)) == LabelsN(n) + LabelsE(a)
  {
  }

  // ---- Statements -------------------------------------------------------------------------

  lemma IfIs(c: Expr, yes: Stmt, l: nat, brk: nat, cont: nat)
    ensures var id := l + LabelsE(c);
            CodeS(If(c, yes), l, brk, cont)
            == CodeE(c, l) + [Jump('Z', id)] + CodeS(yes, id + 1, brk, cont) + [Label(id)]
            && LabelsS(If(c, yes)) == LabelsE(c) + 1 + LabelsS(yes)
  {
    hide CodeE, LabelsE;
  }

  lemma IfElseIs(c: Expr, yes: Stmt, no: Stmt, l: nat, brk: nat, cont: nat)
    ensures var id := l + LabelsE(c); var t := id + 1 + LabelsS(yes);
            CodeS(IfElse(c, yes, no), l, brk, cont)
            == CodeE(c, l) + [Jump('Z', id)] + CodeS(yes, id + 1, brk, cont)
               + [Jump('J', t), Label(id)] + CodeS(no, t + 1, brk, cont) + [Label(t)]
            && LabelsS(IfElse(c, yes, no)) == LabelsE(c) + 1 + LabelsS(yes) + 1 + LabelsS(no)
  {
    hide CodeE, LabelsE;
  }

  lemma WhileIs(c: Expr, body: Stmt, l: nat, brk: nat, cont: nat)
    ensures var id := l + 1 + LabelsE(c);
            CodeS(While(c, body), l, brk, cont)
            == [Label(l)] + CodeE(c, l + 1) + [Jump('Z', id)] + CodeS(body, id + 1, id, cont)
               + [Jump('J', l), Label(id)]
            && LabelsS(While(c, body)) == 1 + LabelsE(c) + 1 + LabelsS(body)
  {
    hide CodeE, LabelsE;
  }

  function ForFront(a: OptExpr, b: OptExpr, c: OptExpr, ls: ForLabels): seq<Item>
  {
    CodeO(a, ls.first) + [Plain('p'), Label(ls.test)] + CodeO(b, ls.cond)
    + [Jump('B', ls.body), Jump('J', ls.brk), Label(ls.cont)] + CodeO(c, ls.step)
  }

  function PopPart(c: OptExpr): seq<Item>
  {
    if AttrOfOpt(c).missing then [] else [Plain('p')]
  }

  lemma ForIs(a: OptExpr, b: OptExpr, c: OptExpr, body: Stmt, l: nat, brk: nat, cont: nat)
    ensures var ls := LabelsOfFor(a, b, c, l);
            CodeS(For(a, b, c, body), l, brk, cont)
            == ForFront(a, b, c, ls) + PopPart(c) + [Jump('J', ls.test), Label(ls.body)]
               + CodeS(body, ls.inner, ls.brk, ls.cont) + [Jump('J', ls.cont), Label(ls.brk)]
            && LabelsS(For(a, b, c, body)) == 4 + LabelsO(a) + LabelsO(b) + LabelsO(c) + LabelsS(body)
  {
    hide CodeE, CodeO, LabelsO, AttrOf;
  }

  // ---- The rounds of a for ------------------------------------------------------------------

  // From the test label on.
  function ForRest(b: OptExpr, c: OptExpr, body: Stmt, ls: ForLabels): seq<Item>
  {
    [Label(ls.test)] + CodeO(b, ls.cond) + [Jump('B', ls.body), Jump('J', ls.brk), Label(ls.cont)]
    + StepCode(c, ls.step) + [Jump('J', ls.test), Label(ls.body)]
    + CodeS(body, ls.inner, ls.brk, ls.cont) + [Jump('J', ls.cont), Label(ls.brk)]
  }

  // The third expression and the pop of its value.
  function StepCode(c: OptExpr, l: nat): seq<Item>
  {
    if c.None? then [] else CodeE(c.e, l) + [Plain('p')]
  }

  lemma {:induction false} NeverMissing(e: Expr)
    ensures !AttrOf(e).missing
  {
    match e
    case And(a, b) => NeverMissing(a); NeverMissing(b);
    case Or(a, b) => NeverMissing(a); NeverMissing(b);
    case Not(a) => NeverMissing(a);
    case Binary(_, a, b) => NeverMissing(a); NeverMissing(b);
    case Negate(a) => NeverMissing(a);
    case Paren(a) => NeverMissing(a);
    case _ =>
  }

  lemma StepSplit(c: OptExpr, l: nat)
    ensures CodeO(c, l) + PopPart(c) == StepCode(c, l)
  {
    hide CodeE;
    if c.Some? { NeverMissing(c.e); }
  }

  lemma ForSplit(a: OptExpr, b: OptExpr, c: OptExpr, body: Stmt, l: nat, brk: nat, cont: nat)
    ensures var ls := LabelsOfFor(a, b, c, l);
            CodeS(For(a, b, c, body), l, brk, cont) == CodeO(a, ls.first) + [Plain('p')] + ForRest(b, c, body, ls)
  {
    hide CodeO, CodeE, CodeS, AttrOf, StepCode, PopPart;
    var ls := LabelsOfFor(a, b, c, l);
    ForIs(a, b, c, body, l, brk, cont);
    StepSplit(c, ls.step);
    JoinFor(CodeO(a, ls.first), Plain('p'), Label(ls.test), CodeO(b, ls.cond),
      [Jump('B', ls.body), Jump('J', ls.brk), Label(ls.cont)], CodeO(c, ls.step), PopPart(c),
      [Jump('J', ls.test), Label(ls.body)], CodeS(body, ls.inner, ls.brk, ls.cont),
        [Jump('J', ls.cont), Label(ls.brk)]);
  }

  lemma JoinFor(x: seq<Item>, p: Item, t: Item, y: seq<Item>, t1: seq<Item>, c: seq<Item>, w: seq<Item>,
                t2: seq<Item>, z: seq<Item>, t3: seq<Item>)
    ensures x + [p, t] + y + t1 + c + w + t2 + z + t3 == x + [p] + ([t] + y + t1 + (c + w) + t2 + z + t3)
  {
    assert x + [p, t] + y + t1 == x + [p] + ([t] + y + t1);
    var h := [t] + y + t1;
    assert x + [p] + h + c + w == x + [p] + (h + (c + w));
    var h2 := h + (c + w);
    assert x + [p] + h2 + t2 + z + t3 == x + [p] + (h2 + t2 + z + t3);
  }
}
