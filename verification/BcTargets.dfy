// The jumps of the generated code: every label is the target of one, and every target
// is a label of the same code.
module BcTargets {
  import opened BcSyntax
  import opened BcLayout
  import opened BcLabels
  import opened BcGenerate
  import opened BcLaid

  predicate AimsAt(it: Item, id: nat)
  {
    it.Jump? && it.target == id
  }

  // There is a jump to this label.
  predicate Aims(code: seq<Item>, id: nat)
  {
    exists i :: 0 <= i < |code| && AimsAt(code[i], id)
  }

  lemma AimsJoin(a: seq<Item>, b: seq<Item>, id: nat)
    ensures Aims(a + b, id) <==> Aims(a, id) || Aims(b, id)
  {
    var c := a + b;
    if Aims(a, id) {
      var i :| 0 <= i < |a| && AimsAt(a[i], id);
      assert AimsAt(c[i], id);
    }
    if Aims(b, id) {
      var i :| 0 <= i < |b| && AimsAt(b[i], id);
      assert AimsAt(c[|a| + i], id);
    }
    if Aims(c, id) {
      var i :| 0 <= i < |c| && AimsAt(c[i], id);
      if i < |a| { assert AimsAt(a[i], id); } else { assert AimsAt(b[i - |a|], id); }
    }
  }

  lemma Aims3(x: seq<Item>, y: seq<Item>, z: seq<Item>, id: nat)
    ensures Aims(x + y + z, id) <==> Aims(x, id) || Aims(y, id) || Aims(z, id)
  {
    hide Aims;
    AimsJoin(x + y, z, id);
    AimsJoin(x, y, id);
  }

  lemma Aims4(x: seq<Item>, y: seq<Item>, z: seq<Item>, u: seq<Item>, id: nat)
    ensures Aims(x + y + z + u, id) <==> Aims(x, id) || Aims(y, id) || Aims(z, id) || Aims(u, id)
  {
    hide Aims;
    AimsJoin(x + y + z, u, id);
    Aims3(x, y, z, id);
  }

  lemma Aims5(x: seq<Item>, y: seq<Item>, z: seq<Item>, u: seq<Item>, v: seq<Item>, id: nat)
    ensures Aims(x + y + z + u + v, id) <==> Aims(x, id) || Aims(y, id) || Aims(z, id) || Aims(u, id) || Aims(v, id)
  {
    hide Aims;
    AimsJoin(x + y + z + u, v, id);
    Aims4(x, y, z, u, id);
  }

  lemma AimsOne(it: Item, id: nat)
    ensures Aims([it], id) <==> AimsAt(it, id)
  {
    if AimsAt(it, id) { assert AimsAt([it][0], id); }
  }

  lemma AimsNone(code: seq<Item>, id: nat)
    requires forall i :: 0 <= i < |code| ==> !code[i].Jump?
    ensures !Aims(code, id)
  {
  }

  lemma AimsTwo(x: Item, y: Item, id: nat)
    ensures Aims([x, y], id) <==> AimsAt(x, id) || AimsAt(y, id)
  {
    hide Aims;
    assert [x, y] == [x] + [y];
    AimsJoin([x], [y], id);
    AimsOne(x, id);
    AimsOne(y, id);
  }

  // ---- Targets of expressions ---------------------------------------------------------------

  predicate Ranged(id: nat, l: nat, n: nat)
  {
    l <= id < l + n
  }

  lemma {:induction false} TargetsOfE(e: Expr, l: nat, id: nat)
    ensures Aims(CodeE(e, l), id) <==> Ranged(id, l, LabelsE(e))
    decreases e
  {
    hide Aims, CodeN, CodeEs, CallStr, LabelsN, LabelsEs;
    match e
    case Number(text) => AimsNone(CodeE(e, l), id);
    case Value(n) => TargetsBehind(n, [LoadOf(n)], l, id);
    case Assign(n, op, a) => TargetsOfAssign(n, op, a, l, id);
    case And(a, b) => TargetsOfAnd(a, b, l, id);
    case Or(a, b) => TargetsOfOr(a, b, l, id);
    case Not(a) => TargetsOfOne(e, a, Plain('!'), l, id);
    case Relation(op, a, b) => TargetsOfBoth(e, op, a, b, l, id);
    case Binary(op, a, b) => TargetsOfBoth(e, op, a, b, l, id);
    case Negate(a) => TargetsOfOne(e, a, Plain('n'), l, id);
    case Paren(a) => TargetsOfE(a, l, id);
    case Before(op, n) => TargetsBehind(n, BeforeOf(op, n), l, id);
    case AfterIt(n, op) => TargetsBehind(n, AfterOf(op, n), l, id);
    case Special(fn, a) => TargetsOfOne(e, a, Builtin(fn), l, id);
    case Call(f, args) =>
      TargetsOfEs(args, l, id);
      AimsJoin(CodeEs(args, l), [Enter(f, CallStr(args))], id);
      AimsOne(Enter(f, CallStr(args)), id);
  }

  // The subscript, and instructions behind it.
  lemma {:induction false} TargetsBehind(n: Named, items: seq<Item>, l: nat, id: nat)
    requires forall i :: 0 <= i < |items| ==> !items[i].Jump?
    ensures Aims(CodeN(n, l) + items, id) <==> Ranged(id, l, LabelsN(n))
    decreases n, 1
  {
    hide Aims;
    TargetsOfN(n, l, id);
    AimsJoin(CodeN(n, l), items, id);
    AimsNone(items, id);
  }

  lemma {:induction false} TargetsOfOne(e: Expr, a: Expr, it: Item, l: nat, id: nat)
    requires a < e && !it.Jump?
    ensures Aims(CodeE(a, l) + [it], id) <==> Ranged(id, l, LabelsE(a))
    decreases e, 0
  {
    hide Aims, CodeE;
    TargetsOfE(a, l, id);
    AimsJoin(CodeE(a, l), [it], id);
    AimsOne(it, id);
  }

  lemma {:induction false} TargetsOfN(n: Named, l: nat, id: nat)
    ensures Aims(CodeN(n, l), id) <==> Ranged(id, l, LabelsN(n))
    decreases n, 0
  {
    hide Aims;
    if n.Element? { TargetsOfE(n.index, l, id); } else { AimsNone([], id); }
  }

  lemma {:induction false} TargetsOfEs(es: Exprs, l: nat, id: nat)
    ensures Aims(CodeEs(es, l), id) <==> Ranged(id, l, LabelsEs(es))
    decreases es
  {
    hide Aims, CodeE, LabelsE;
    match es
    case NoExprs => AimsNone([], id);
    case MoreArrays(a, more) =>
      TargetsOfEs(more, l, id);
      AimsJoin([Const(Decimal(a))], CodeEs(more, l), id);
      AimsOne(Const(Decimal(a)), id);
    case MoreExprs(e, more) =>
      TargetsOfE(e, l, id);
      TargetsOfEs(more, l + LabelsE(e), id);
      AimsJoin(CodeE(e, l), CodeEs(more, l + LabelsE(e)), id);
  }

  lemma {:induction false} TargetsOfAssign(n: Named, op: AssignOp, a: Expr, l: nat, id: nat)
    ensures Aims(CodeE(Assign(n, op, a), l), id) <==> Ranged(id, l, LabelsE(Assign(n, op, a)))
    decreases Assign(n, op, a), 0
  {
    hide Aims, CodeE, CodeN, LabelsE, LabelsN;
    AssignIs(n, op, a, l);
    TargetsOfN(n, l, id);
    TargetsOfE(a, l + LabelsN(n), id);
    AimsNone(FetchPart(n, op), id);
    AimsNone(OpPart(op), id);
    AimsNone([StoreOf(n)], id);
    Aims5(CodeN(n, l), FetchPart(n, op), CodeE(a, l + LabelsN(n)), OpPart(op), [StoreOf(n)], id);
  }

  lemma {:induction false} TargetsOfBoth(e: Expr, op: char, a: Expr, b: Expr, l: nat, id: nat)
    requires (e.Relation? || e.Binary?) && a == e.a && b == e.b
    ensures Aims(CodeE(a, l) + CodeE(b, l + LabelsE(a)) + [Plain(op)], id) <==> Ranged(id, l, LabelsE(a) + LabelsE(b))
    decreases e, 0
  {
    hide Aims, CodeE, LabelsE;
    TargetsOfE(a, l, id);
    TargetsOfE(b, l + LabelsE(a), id);
    Aims3(CodeE(a, l), CodeE(b, l + LabelsE(a)), [Plain(op)], id);
    AimsOne(Plain(op), id);
  }

  lemma {:induction false} TargetsOfAnd(a: Expr, b: Expr, l: nat, id: nat)
    ensures Aims(CodeE(And(a, b), l), id) <==> Ranged(id, l, LabelsE(And(a, b)))
    decreases And(a, b), 0
  {
    hide Aims, CodeE, LabelsE, TestCode, AndEnd;
    var m := l + LabelsE(a);
    AndIs(a, b, l);
    TargetsOfE(a, l, id);
    TargetsOfE(b, m + 1, id);
    TestsAim(m, id);
    Aims4(CodeE(a, l), TestCode(m), CodeE(b, m + 1), AndEnd(m), id);
  }

  lemma TestsAim(m: nat, id: nat)
    ensures (Aims(TestCode(m), id) <==> id == m) && (Aims(AndEnd(m), id) <==> id == m)
  {
    if id == m {
      assert AimsAt(TestCode(m)[1], id);
      assert AimsAt(AndEnd(m)[1], id);
    }
  }

  lemma {:induction false} TargetsOfOr(a: Expr, b: Expr, l: nat, id: nat)
    ensures Aims(CodeE(Or(a, b), l), id) <==> Ranged(id, l, LabelsE(Or(a, b)))
    decreases Or(a, b), 0
  {
    hide Aims, CodeE, LabelsE, OrEnd;
    var m := l + LabelsE(a);
    var t := m + 1 + LabelsE(b);
    OrIs(a, b, l);
    TargetsOfE(a, l, id);
    TargetsOfE(b, m + 1, id);
    AimsOne(Jump('B', m), id);
    OrEndAims(m, t, id);
    Aims4(CodeE(a, l), [Jump('B', m)], CodeE(b, m + 1), OrEnd(m, t), id);
  }

  lemma OrEndAims(m: nat, t: nat, id: nat)
    ensures Aims(OrEnd(m, t), id) <==> id == m || id == t
  {
    if id == m { assert AimsAt(OrEnd(m, t)[0], id); }
    if id == t { assert AimsAt(OrEnd(m, t)[2], id); }
  }

  lemma TargetsOfO(o: OptExpr, l: nat, id: nat)
    ensures Aims(CodeO(o, l), id) <==> Ranged(id, l, LabelsO(o))
  {
    hide Aims;
    if o.Some? { TargetsOfE(o.e, l, id); } else { AimsNone([], id); }
  }

  // ---- Targets of statements -----------------------------------------------------------------

  // All labels of the range are targets; others only of break and continue.
  ghost predicate Targets(code: seq<Item>, id: nat, l: nat, n: nat, brk: nat, cont: nat, loop: bool, inFor: bool)
  {
    (Ranged(id, l, n) ==> Aims(code, id))
    && (Aims(code, id) ==> Ranged(id, l, n) || (loop && id == brk) || (inFor && id == cont))
  }

  lemma {:induction false} TargetsOfS(s: Stmt, l: nat, brk: nat, cont: nat, loop: bool, inFor: bool, id: nat)
    requires Placed(s, loop, inFor)
    ensures Targets(CodeS(s, l, brk, cont), id, l, LabelsS(s), brk, cont, loop, inFor)
    decreases s, 1
  {
    hide Aims, CodeE, CodeSs, AttrOf, LabelsE, LabelsSs;
    match s
    case Expression(e) => ShownAims(e, Plain(if AttrOf(e).value then 'W' else 'p'), l, id);
    case Text(t) => AimsOne(Str('w', t), id);
    case Break => AimsOne(Jump('J', brk), id);
    case Continue => AimsOne(Jump('J', cont), id);
    case Halt => AimsOne(Plain('h'), id);
    case Return(o) =>
      if o.None? {
        assert [Plain('0')] + [Plain('R')] == [Plain('0'), Plain('R')];
        AimsTwo(Plain('0'), Plain('R'), id);
      } else {
        ShownAims(o.e, Plain('R'), l, id);
      }
    case For(a, b, c, body) => TargetsOfForLoop(a, b, c, body, l, brk, cont, id);
    case If(c, yes) => TargetsOfIf(c, yes, l, brk, cont, loop, inFor, id);
    case IfElse(c, yes, no) => TargetsOfIfElse(c, yes, no, l, brk, cont, loop, inFor, id);
    case While(c, body) => TargetsOfWhile(c, body, l, brk, cont, inFor, id);
    case Block(ss) => TargetsOfSs(ss, l, brk, cont, loop, inFor, id);
    case PrintText(t) => AimsOne(Str('O', t), id);
    case PrintExpr(e) => ShownAims(e, Plain('P'), l, id);
  }

  lemma ShownAims(e: Expr, it: Item, l: nat, id: nat)
    requires !it.Jump?
    ensures Aims(CodeE(e, l) + [it], id) <==> Ranged(id, l, LabelsE(e))
  {
    hide Aims, CodeE;
    TargetsOfE(e, l, id);
    AimsJoin(CodeE(e, l), [it], id);
    AimsOne(it, id);
  }

  lemma {:induction false} TargetsOfIf(c: Expr, yes: Stmt, l: nat, brk: nat, cont: nat, loop: bool, inFor: bool,
      id: nat)
    requires Placed(yes, loop, inFor)
    ensures Targets(CodeS(If(c, yes), l, brk, cont), id, l, LabelsS(If(c, yes)), brk, cont, loop, inFor)
    decreases If(c, yes), 0
  {
    hide Aims, CodeE, CodeS, LabelsE, LabelsS, Placed;
    var m := l + LabelsE(c);
    IfIs(c, yes, l, brk, cont);
    TargetsOfE(c, l, id);
    TargetsOfS(yes, m + 1, brk, cont, loop, inFor, id);
    AimsOne(Jump('Z', m), id);
    AimsOne(Label(m), id);
    Aims4(CodeE(c, l), [Jump('Z', m)], CodeS(yes, m + 1, brk, cont), [Label(m)], id);
  }

  lemma {:induction false} TargetsOfIfElse(c: Expr, yes: Stmt, no: Stmt, l: nat, brk: nat, cont: nat, loop: bool,
      inFor: bool, id: nat)
    requires Placed(yes, loop, inFor) && Placed(no, loop, inFor)
    ensures Targets(CodeS(IfElse(c, yes, no), l, brk, cont), id, l, LabelsS(IfElse(c, yes, no)), brk, cont, loop, inFor)
    decreases IfElse(c, yes, no), 0
  {
    hide Aims, CodeE, CodeS, LabelsE, LabelsS, Placed;
    var m := l + LabelsE(c);
    var t := m + 1 + LabelsS(yes);
    var x, y, z := CodeE(c, l), [Jump('Z', m)], CodeS(yes, m + 1, brk, cont);
    var u, v, w := [Jump('J', t), Label(m)], CodeS(no, t + 1, brk, cont), [Label(t)];
    IfElseIs(c, yes, no, l, brk, cont);
    TargetsOfE(c, l, id);
    TargetsOfS(yes, m + 1, brk, cont, loop, inFor, id);
    TargetsOfS(no, t + 1, brk, cont, loop, inFor, id);
    AimsOne(Jump('Z', m), id);
    AimsTwo(Jump('J', t), Label(m), id);
    AimsOne(Label(t), id);
    AimsJoin(x + y + z + u + v, w, id);
    Aims5(x, y, z, u, v, id);
  }

  lemma {:induction false} TargetsOfWhile(c: Expr, body: Stmt, l: nat, brk: nat, cont: nat, inFor: bool, id: nat)
    requires Placed(body, true, inFor)
    ensures Targets(CodeS(While(c, body), l, brk, cont), id, l, LabelsS(While(c, body)), brk, cont, false, inFor)
    decreases While(c, body), 0
  {
    hide Aims, CodeE, CodeS, LabelsE, LabelsS, Placed;
    var m := l + 1 + LabelsE(c);
    var x, y, z := [Label(l)], CodeE(c, l + 1), [Jump('Z', m)];
    var u, v := CodeS(body, m + 1, m, cont), [Jump('J', l), Label(m)];
    WhileIs(c, body, l, brk, cont);
    TargetsOfE(c, l + 1, id);
    TargetsOfS(body, m + 1, m, cont, true, inFor, id);
    AimsOne(Label(l), id);
    AimsOne(Jump('Z', m), id);
    AimsTwo(Jump('J', l), Label(m), id);
    Aims5(x, y, z, u, v, id);
  }

  lemma {:induction false} TargetsOfForLoop(a: OptExpr, b: OptExpr, c: OptExpr, body: Stmt, l: nat, brk: nat,
      cont: nat, id: nat)
    requires Placed(body, true, true)
    ensures Targets(CodeS(For(a, b, c, body), l, brk, cont), id, l, LabelsS(For(a, b, c, body)), brk, cont, false,
              false)
    decreases For(a, b, c, body), 0
  {
    hide Aims, CodeS, LabelsS, CodeO, LabelsO, ForFront, Placed;
    var ls := LabelsOfFor(a, b, c, l);
    ForIs(a, b, c, body, l, brk, cont);
    FrontAims(a, b, c, ls, id);
    TargetsOfO(a, ls.first, id);
    TargetsOfO(b, ls.cond, id);
    TargetsOfO(c, ls.step, id);
    TargetsOfS(body, ls.inner, ls.brk, ls.cont, true, true, id);
    AimsNone(PopPart(c), id);
    AimsTwo(Jump('J', ls.test), Label(ls.body), id);
    AimsTwo(Jump('J', ls.cont), Label(ls.brk), id);
    Aims5(ForFront(a, b, c, ls), PopPart(c), [Jump('J', ls.test), Label(ls.body)],
      CodeS(body, ls.inner, ls.brk, ls.cont),
      [Jump('J', ls.cont), Label(ls.brk)], id);
  }

  lemma FrontAims(a: OptExpr, b: OptExpr, c: OptExpr, ls: ForLabels, id: nat)
    ensures Aims(ForFront(a, b, c, ls), id)
            <==> Aims(CodeO(a, ls.first), id) || Aims(CodeO(b, ls.cond), id) || Aims(CodeO(c, ls.step), id)
                 || id == ls.body || id == ls.brk
  {
    hide Aims, CodeO;
    AimsTwo(Plain('p'), Label(ls.test), id);
    var u1, u2 := [Jump('B', ls.body), Jump('J', ls.brk)], [Label(ls.cont)];
    AimsTwo(Jump('B', ls.body), Jump('J', ls.brk), id);
    AimsOne(Label(ls.cont), id);
    assert [Jump('B', ls.body), Jump('J', ls.brk), Label(ls.cont)] == u1 + u2;
    AimsJoin(u1, u2, id);
    Aims5(CodeO(a, ls.first), [Plain('p'), Label(ls.test)], CodeO(b, ls.cond), u1 + u2, CodeO(c, ls.step), id);
  }

  lemma {:induction false} TargetsOfSs(ss: Stmts, l: nat, brk: nat, cont: nat, loop: bool, inFor: bool, id: nat)
    requires PlacedAll(ss, loop, inFor)
    ensures Targets(CodeSs(ss, l, brk, cont), id, l, LabelsSs(ss), brk, cont, loop, inFor)
    decreases ss, 1
  {
    hide Aims, CodeS, LabelsS, Placed;
    match ss
    case NoStmts => AimsNone([], id);
    case MoreStmts(s, more) =>
      TargetsOfS(s, l, brk, cont, loop, inFor, id);
      TargetsOfSs(more, l + LabelsS(s), brk, cont, loop, inFor, id);
      AimsJoin(CodeS(s, l, brk, cont), CodeSs(more, l + LabelsS(s), brk, cont), id);
  }

  // ---- Segments ------------------------------------------------------------------------------

  // The targets are the numbers from one to the number of labels.
  lemma TargetsOfMain(main: Stmts, id: nat)
    requires PlacedAll(main, false, false)
    ensures Aims(MainCode(main), id) <==> 1 <= id <= LabelsSs(main)
  {
    hide Aims;
    TargetsOfSs(main, 1, 0, 0, false, false, id);
  }

  lemma TargetsOfFunction(f: Function, id: nat)
    requires PlacedAll(f.body, false, false)
    ensures Aims(FunctionCode(f), id) <==> 1 <= id <= LabelsSs(f.body)
  {
    hide Aims;
    TargetsOfSs(f.body, 1, 0, 0, false, false, id);
    AimsTwo(Plain('0'), Plain('R'), id);
    AimsJoin(CodeSs(f.body, 1, 0, 0), [Plain('0'), Plain('R')], id);
  }

  lemma MainJumpsInside(main: Stmts)
    requires PlacedAll(main, false, false)
    ensures JumpsInside(MainCode(main))
  {
    hide Aims, Times;
    var code := MainCode(main);
    forall k | 0 <= k < |code| && code[k].Jump? ensures Label(code[k].target) in code {
      var id := code[k].target;
      JumpAims(code, k);
      TargetsOfMain(main, id);
      LabelsOfSs(main, 1, 0, 0, id);
      LabelThere(code, id);
    }
  }

  lemma FunctionJumpsInside(f: Function)
    requires PlacedAll(f.body, false, false)
    ensures JumpsInside(FunctionCode(f))
  {
    hide Aims, Times;
    var code, body := FunctionCode(f), CodeSs(f.body, 1, 0, 0);
    forall k | 0 <= k < |code| && code[k].Jump? ensures Label(code[k].target) in code {
      var id := code[k].target;
      JumpAims(code, k);
      TargetsOfFunction(f, id);
      LabelsOfSs(f.body, 1, 0, 0, id);
      LabelThere(body, id);
    }
  }

  lemma JumpAims(code: seq<Item>, k: nat)
    requires k < |code| && code[k].Jump?
    ensures Aims(code, code[k].target)
  {
    assert AimsAt(code[k], code[k].target);
  }

  lemma {:induction false} LabelThere(code: seq<Item>, id: nat)
    requires Times(code, id) > 0
    ensures Label(id) in code
  {
    if code[0] != Label(id) { LabelThere(code[1..], id); }
  }

  // The loader gives up at a label that takes more than sixteen bits.
  ghost predicate SmallLabels(code: seq<Item>)
  {
    forall k :: 0 <= k < |code| && code[k].Jump? ==> code[k].target <= 0xffff
  }

  // This depends on the number of labels alone.
  lemma LabelsDecide(main: Stmts)
    requires PlacedAll(main, false, false)
    ensures SmallLabels(MainCode(main)) <==> LabelsSs(main) <= 0xffff
  {
    hide Aims, MainCode;
    var code, n := MainCode(main), LabelsSs(main);
    if n > 0xffff {
      TargetsOfMain(main, n);
      AimIs(code, n);
    } else {
      forall k | 0 <= k < |code| && code[k].Jump? ensures code[k].target <= 0xffff {
        JumpAims(code, k);
        TargetsOfMain(main, code[k].target);
      }
    }
  }

  lemma FunctionLabelsDecide(f: Function)
    requires PlacedAll(f.body, false, false)
    ensures SmallLabels(FunctionCode(f)) <==> LabelsSs(f.body) <= 0xffff
  {
    hide Aims, FunctionCode;
    var code, n := FunctionCode(f), LabelsSs(f.body);
    if n > 0xffff {
      TargetsOfFunction(f, n);
      AimIs(code, n);
    } else {
      forall k | 0 <= k < |code| && code[k].Jump? ensures code[k].target <= 0xffff {
        JumpAims(code, k);
        TargetsOfFunction(f, code[k].target);
      }
    }
  }

  lemma AimIs(code: seq<Item>, id: nat)
    requires Aims(code, id)
    ensures exists k :: 0 <= k < |code| && code[k].Jump? && code[k].target == id
  {
    var k :| 0 <= k < |code| && AimsAt(code[k], id);
  }
}
