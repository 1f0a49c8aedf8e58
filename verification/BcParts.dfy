// Pieces of code that do not call anything: what they do from a known place in a
// run, and where the parts of compound code are.
module BcParts {
  import opened BcSyntax
  import opened BcStore
  import opened BcEval
  import opened BcMachine
  import opened BcLayout
  import opened BcLabels
  import opened BcSteps

  // ---- Old and new values of a variable or an element ---------------------------------------

  // The old value, above the subscript.
  lemma DoFetch(P: Program, m: Machine, n: nat, pc: nat, st: seq<Num>, x: Named, sub: Num, s: Store, limit: nat)
    returns (k: nat)
    requires m.status == Running && Gets(P, m, n, pc, st + Sub(x, sub), s) && At(P, m.fn, pc, FetchOf(x))
    ensures k >= n && Yields(P, m, k, pc + |FetchOf(x)|, st + Sub(x, sub), Fetch(P.C.A, x, sub, s), limit)
  {
    hide At, Gets, Ends, Fetch;
    AtItems(P, m.fn, pc, FetchOf(x));
    if x.Simple? {
      assert st + [] == st && FetchOf(x)[0] == LoadOf(x);
      OneLoad(P, m, n, pc, st, x, sub, s, limit);
      k := n + 1;
    } else {
      assert FetchOf(x)[0] == Plain('D') && FetchOf(x)[1] == LoadOf(x);
      OneDup(P, m, n, pc, st, sub, s);
      OneLoad(P, m, n + 1, pc + 1, st + [sub], x, sub, s, limit);
      k := n + 2;
    }
  }

  function StepThenFetch(A: Arith, x: Named, sub: Num, step: char, s: Store): Result<Num>
  {
    match StepNamed(A, x, sub, step == '+', s)
    case Ok(_, s1) => Fetch(A, x, sub, s1)
    case r => r
  }

  lemma DoBefore(P: Program, m: Machine, n: nat, pc: nat, st: seq<Num>, x: Named, sub: Num, step: char, s: Store,
      limit: nat)
    returns (k: nat)
    requires m.status == Running && Gets(P, m, n, pc, st + Sub(x, sub), s) && At(P, m.fn, pc, BeforeOf(step, x))
    ensures k >= n && Yields(P, m, k, pc + |BeforeOf(step, x)|, st, StepThenFetch(P.C.A, x, sub, step, s), limit)
  {
    hide At, Gets, Ends, Fetch, StepNamed;
    AtItems(P, m.fn, pc, BeforeOf(step, x));
    var r := StepNamed(P.C.A, x, sub, step == '+', s);
    if x.Simple? {
      assert st + [] == st && BeforeOf(step, x)[0] == StepOf(step, x) && BeforeOf(step, x)[1] == LoadOf(x);
      OneIncrement(P, m, n, pc, st, x, sub, step, s, limit);
      k := n + 1;
      if r.Ok? {
        OneLoad(P, m, k, pc + 1, st, x, sub, r.s, limit);
        k := k + 1;
      }
    } else {
      assert BeforeOf(step, x)[0] == Plain('D') && BeforeOf(step, x)[1] == StepOf(step, x);
      assert BeforeOf(step, x)[2] == LoadOf(x);
      OneDup(P, m, n, pc, st, sub, s);
      OneIncrement(P, m, n + 1, pc + 1, st + [sub], x, sub, step, s, limit);
      k := n + 2;
      if r.Ok? {
        OneLoad(P, m, k, pc + 2, st, x, sub, r.s, limit);
        k := k + 1;
      }
    }
  }

  function FetchThenStep(A: Arith, x: Named, sub: Num, step: char, s: Store): Result<Num>
  {
    match Fetch(A, x, sub, s)
    case Ok(v, s1) =>
      (match StepNamed(A, x, sub, step == '+', s1)
       case Ok(_, s2) => Ok(v, s2)
       case r => r)
    case r => r
  }

  lemma DoAfter(P: Program, m: Machine, n: nat, pc: nat, st: seq<Num>, x: Named, sub: Num, step: char, s: Store,
      limit: nat)
    returns (k: nat)
    requires m.status == Running && Gets(P, m, n, pc, st + Sub(x, sub), s) && At(P, m.fn, pc, AfterOf(step, x))
    ensures k >= n && Yields(P, m, k, pc + |AfterOf(step, x)|, st, FetchThenStep(P.C.A, x, sub, step, s), limit)
  {
    hide At, Gets, Ends, Fetch, StepNamed;
    AtItems(P, m.fn, pc, AfterOf(step, x));
    var r := Fetch(P.C.A, x, sub, s);
    if x.Simple? {
      assert st + [] == st && AfterOf(step, x)[0] == LoadOf(x) && AfterOf(step, x)[1] == StepOf(step, x);
      OneLoad(P, m, n, pc, st, x, sub, s, limit);
      k := n + 1;
      if r.Ok? {
        assert st + [r.v] + [] == st + [r.v];
        OneIncrement(P, m, k, pc + 1, st + [r.v], x, sub, step, r.s, limit);
        k := k + 1;
      }
    } else {
      assert AfterOf(step, x)[0] == Plain('D') && AfterOf(step, x)[1] == LoadOf(x);
      assert AfterOf(step, x)[2] == Plain('x') && AfterOf(step, x)[3] == StepOf(step, x);
      OneDup(P, m, n, pc, st, sub, s);
      OneLoad(P, m, n + 1, pc + 1, st + [sub], x, sub, s, limit);
      k := n + 2;
      if r.Ok? {
        OneSwap(P, m, k, pc + 2, st, sub, r.v, r.s);
        OneIncrement(P, m, k + 1, pc + 3, st + [r.v], x, sub, step, r.s, limit);
        k := k + 2;
      }
    }
  }

  // ---- And, or --------------------------------------------------------------------------

  // Zero stays on the stack.
  lemma TestZero(P: Program, m: Machine, n: nat, pc: nat, st: seq<Num>, v: Num, s: Store, id: nat) returns (k: nat)
    requires m.status == Running && Gets(P, m, n, pc, st + [v], s) && At(P, m.fn, pc, TestCode(id))
    ensures n <= k <= n + 3
    ensures if P.C.A.isZero(v) then Gets(P, m, k, Find(Segment(P, m.fn), id), st + [v], s)
            else Gets(P, m, k, pc + 3, st, s)
  {
    hide At, Gets;
    AtItem(P, m.fn, pc, TestCode(id), 0);
    AtItem(P, m.fn, pc, TestCode(id), 1);
    AtItem(P, m.fn, pc, TestCode(id), 2);
    OneDup(P, m, n, pc, st, v, s);
    OneBranch(P, m, n + 1, pc + 1, st + [v], v, s, 'Z', id);
    k := n + 2;
    if !P.C.A.isZero(v) {
      OnePop(P, m, k, pc + 2, st, v, s);
      k := n + 3;
    }
  }

  // From the jump to the end.
  lemma AndOver(P: Program, m: Machine, n: nat, pc: nat, st: seq<Num>, s: Store, id: nat) returns (k: nat)
    requires m.status == Running && Gets(P, m, n, Find(Segment(P, m.fn), id), st, s)
    requires At(P, m.fn, pc, AndEnd(id)) && Unique(Segment(P, m.fn))
    ensures k == n + 1 && Gets(P, m, k, pc + 5, st, s)
  {
    hide At, Gets, Unique;
    AtItem(P, m.fn, pc, AndEnd(id), 4);
    LabelIs(P, m.fn, pc + 4, id);
    OneLabel(P, m, n, pc + 4, st, s, id);
    k := n + 1;
  }

  // After the second operand.
  lemma AndLast(P: Program, m: Machine, n: nat, pc: nat, st: seq<Num>, v: Num, s: Store, id: nat) returns (k: nat)
    requires m.status == Running && Gets(P, m, n, pc, st + [v], s)
    requires At(P, m.fn, pc, AndEnd(id)) && Unique(Segment(P, m.fn))
    ensures k >= n && Gets(P, m, k, pc + 5, st + [if P.C.A.isZero(v) then v else P.C.A.one], s)
  {
    hide At, Gets, Unique;
    assert AndEnd(id) == TestCode(id) + [Plain('1'), Label(id)];
    At2(P, m.fn, pc, TestCode(id), [Plain('1'), Label(id)]);
    AtItem(P, m.fn, pc + 3, [Plain('1'), Label(id)], 0);
    AtItem(P, m.fn, pc + 3, [Plain('1'), Label(id)], 1);
    LabelIs(P, m.fn, pc + 4, id);
    k := TestZero(P, m, n, pc, st, v, s, id);
    if !P.C.A.isZero(v) {
      OneBit(P, m, k, pc + 3, st, s, '1');
      k := k + 1;
    }
    OneLabel(P, m, k, pc + 4, st + [if P.C.A.isZero(v) then v else P.C.A.one], s, id);
    k := k + 1;
  }

  lemma AndAt(P: Program, fn: nat, pc: nat, a: Expr, b: Expr, l: nat)
    requires At(P, fn, pc, CodeE(And(a, b), l))
    ensures var id := l + LabelsE(a); var x, z := CodeE(a, l), CodeE(b, id + 1);
            At(P, fn, pc, x) && At(P, fn, pc + |x|, TestCode(id)) && At(P, fn, pc + |x| + 3, z)
            && At(P, fn, pc + |x| + 3 + |z|, AndEnd(id)) && |CodeE(And(a, b), l)| == |x| + |z| + 8
  {
    hide At, CodeE, LabelsE;
    var id := l + LabelsE(a);
    AndIs(a, b, l);
    At4(P, fn, pc, CodeE(a, l), TestCode(id), CodeE(b, id + 1), AndEnd(id));
  }

  // From the label for true to the end.
  lemma OrTrue(P: Program, m: Machine, n: nat, pc: nat, st: seq<Num>, s: Store, id: nat, t: nat) returns (k: nat)
    requires m.status == Running && Gets(P, m, n, Find(Segment(P, m.fn), id), st, s)
    requires At(P, m.fn, pc, OrEnd(id, t)) && Unique(Segment(P, m.fn))
    ensures k == n + 3 && Gets(P, m, k, pc + 6, st + [P.C.A.one], s)
  {
    hide At, Gets, Unique;
    AtItem(P, m.fn, pc, OrEnd(id, t), 3);
    AtItem(P, m.fn, pc, OrEnd(id, t), 4);
    AtItem(P, m.fn, pc, OrEnd(id, t), 5);
    LabelIs(P, m.fn, pc + 3, id);
    OneLabel(P, m, n, pc + 3, st, s, id);
    OneBit(P, m, n + 1, pc + 4, st, s, '1');
    OneLabel(P, m, n + 2, pc + 5, st + [P.C.A.one], s, t);
    k := n + 3;
  }

  // After the second operand.
  lemma OrLast(P: Program, m: Machine, n: nat, pc: nat, st: seq<Num>, v: Num, s: Store, id: nat, t: nat)
    returns (k: nat)
    requires m.status == Running && Gets(P, m, n, pc, st + [v], s)
    requires At(P, m.fn, pc, OrEnd(id, t)) && Unique(Segment(P, m.fn))
    ensures k >= n && Gets(P, m, k, pc + 6, st + [Truth(P.C.A, !P.C.A.isZero(v))], s)
  {
    hide At, Gets, Unique;
    AtItem(P, m.fn, pc, OrEnd(id, t), 0);
    OneBranch(P, m, n, pc, st, v, s, 'B', id);
    if P.C.A.isZero(v) {
      AtItem(P, m.fn, pc, OrEnd(id, t), 1);
      AtItem(P, m.fn, pc, OrEnd(id, t), 2);
      AtItem(P, m.fn, pc, OrEnd(id, t), 5);
      LabelIs(P, m.fn, pc + 5, t);
      OneBit(P, m, n + 1, pc + 1, st, s, '0');
      OneJump(P, m, n + 2, pc + 2, st + [P.C.A.zero], s, t);
      OneLabel(P, m, n + 3, pc + 5, st + [P.C.A.zero], s, t);
      k := n + 4;
    } else {
      k := OrTrue(P, m, n + 1, pc, st, s, id, t);
    }
  }

  lemma OrAt(P: Program, fn: nat, pc: nat, a: Expr, b: Expr, l: nat)
    requires At(P, fn, pc, CodeE(Or(a, b), l))
    ensures var id := l + LabelsE(a); var x, z := CodeE(a, l), CodeE(b, id + 1);
            At(P, fn, pc, x) && Is(P, fn, pc + |x|, Jump('B', id)) && At(P, fn, pc + |x| + 1, z)
            && At(P, fn, pc + |x| + 1 + |z|, OrEnd(id, id + 1 + LabelsE(b))) && |CodeE(Or(a, b), l)| == |x| + |z| + 7
  {
    hide At, Is, CodeE, LabelsE;
    var id := l + LabelsE(a);
    var x, z := CodeE(a, l), CodeE(b, id + 1);
    OrIs(a, b, l);
    At4(P, fn, pc, x, [Jump('B', id)], z, OrEnd(id, id + 1 + LabelsE(b)));
    AtItem(P, fn, pc + |x|, [Jump('B', id)], 0);
  }

  lemma AssignAt(P: Program, fn: nat, pc: nat, x: Named, op: AssignOp, a: Expr, l: nat)
    requires At(P, fn, pc, CodeE(Assign(x, op, a), l))
    ensures var c1, c2, c3 := CodeN(x, l), FetchPart(x, op), CodeE(a, l + LabelsN(x));
            At(P, fn, pc, c1) && At(P, fn, pc + |c1|, c2) && At(P, fn, pc + |c1| + |c2|, c3)
            && At(P, fn, pc + |c1| + |c2| + |c3|, OpPart(op))
            && Is(P, fn, pc + |c1| + |c2| + |c3| + |OpPart(op)|, StoreOf(x))
            && |CodeE(Assign(x, op, a), l)| == |c1| + |c2| + |c3| + |OpPart(op)| + 1
  {
    hide At, Is, CodeE, CodeN, LabelsN, FetchPart, OpPart;
    var c1, c2, c3 := CodeN(x, l), FetchPart(x, op), CodeE(a, l + LabelsN(x));
    AssignIs(x, op, a, l);
    At5(P, fn, pc, c1, c2, c3, OpPart(op), [StoreOf(x)]);
    AtItem(P, fn, pc + |c1| + |c2| + |c3| + |OpPart(op)|, [StoreOf(x)], 0);
  }

  // ---- Statements -------------------------------------------------------------------------

  lemma IfAt(P: Program, fn: nat, pc: nat, c: Expr, yes: Stmt, l: nat, brk: nat, cont: nat)
    requires At(P, fn, pc, CodeS(If(c, yes), l, brk, cont))
    ensures var id := l + LabelsE(c); var x, z := CodeE(c, l), CodeS(yes, id + 1, brk, cont);
            At(P, fn, pc, x) && Is(P, fn, pc + |x|, Jump('Z', id)) && At(P, fn, pc + |x| + 1, z)
            && Is(P, fn, pc + |x| + 1 + |z|, Label(id)) && |CodeS(If(c, yes), l, brk, cont)| == |x| + |z| + 2
  {
    hide At, CodeE, Is, LabelsE, CodeS;
    var id := l + LabelsE(c);
    var x, z := CodeE(c, l), CodeS(yes, id + 1, brk, cont);
    IfIs(c, yes, l, brk, cont);
    At4(P, fn, pc, x, [Jump('Z', id)], z, [Label(id)]);
    AtItem(P, fn, pc + |x|, [Jump('Z', id)], 0);
    AtItem(P, fn, pc + |x| + 1 + |z|, [Label(id)], 0);
  }

  lemma IfElseAt(P: Program, fn: nat, pc: nat, c: Expr, yes: Stmt, no: Stmt, l: nat, brk: nat, cont: nat)
    requires At(P, fn, pc, CodeS(IfElse(c, yes, no), l, brk, cont))
    ensures var id := l + LabelsE(c); var t := id + 1 + LabelsS(yes);
            var x, z, w := CodeE(c, l), CodeS(yes, id + 1, brk, cont), CodeS(no, t + 1, brk, cont);
            var pj := pc + |x| + 1 + |z|;
            At(P, fn, pc, x) && Is(P, fn, pc + |x|, Jump('Z', id)) && At(P, fn, pc + |x| + 1, z)
            && Is(P, fn, pj, Jump('J', t)) && Is(P, fn, pj + 1, Label(id)) && At(P, fn, pj + 2, w)
            && Is(P, fn, pj + 2 + |w|, Label(t)) && |CodeS(IfElse(c, yes, no), l, brk, cont)| == |x| + |z| + |w| + 4
  {
    hide At, CodeE, Is, LabelsE, LabelsS, CodeS;
    var id := l + LabelsE(c);
    var t := id + 1 + LabelsS(yes);
    var x, z, w := CodeE(c, l), CodeS(yes, id + 1, brk, cont), CodeS(no, t + 1, brk, cont);
    var pj := pc + |x| + 1 + |z|;
    IfElseIs(c, yes, no, l, brk, cont);
    At2(P, fn, pc, x + [Jump('Z', id)] + z + [Jump('J', t), Label(id)] + w, [Label(t)]);
    At5(P, fn, pc, x, [Jump('Z', id)], z, [Jump('J', t), Label(id)], w);
    AtItem(P, fn, pc + |x|, [Jump('Z', id)], 0);
    AtItem(P, fn, pj, [Jump('J', t), Label(id)], 0);
    AtItem(P, fn, pj, [Jump('J', t), Label(id)], 1);
    AtItem(P, fn, pj + 2 + |w|, [Label(t)], 0);
  }

  lemma WhileAt(P: Program, fn: nat, pc: nat, c: Expr, body: Stmt, l: nat, brk: nat, cont: nat)
    requires At(P, fn, pc, CodeS(While(c, body), l, brk, cont))
    ensures var id := l + 1 + LabelsE(c); var x, z := CodeE(c, l + 1), CodeS(body, id + 1, id, cont);
            var pj := pc + 2 + |x| + |z|;
            Is(P, fn, pc, Label(l)) && At(P, fn, pc + 1, x) && Is(P, fn, pc + 1 + |x|, Jump('Z', id))
            && At(P, fn, pc + 2 + |x|, z) && Is(P, fn, pj, Jump('J', l)) && Is(P, fn, pj + 1, Label(id))
            && |CodeS(While(c, body), l, brk, cont)| == |x| + |z| + 4
  {
    hide At, CodeE, Is, LabelsE, CodeS;
    var id := l + 1 + LabelsE(c);
    var x, z := CodeE(c, l + 1), CodeS(body, id + 1, id, cont);
    WhileIs(c, body, l, brk, cont);
    At5(P, fn, pc, [Label(l)], x, [Jump('Z', id)], z, [Jump('J', l), Label(id)]);
    AtItem(P, fn, pc, [Label(l)], 0);
    AtItem(P, fn, pc + 1 + |x|, [Jump('Z', id)], 0);
    AtItem(P, fn, pc + 2 + |x| + |z|, [Jump('J', l), Label(id)], 0);
    AtItem(P, fn, pc + 2 + |x| + |z|, [Jump('J', l), Label(id)], 1);
  }

  // The rounds of a for, from its test label at pc.
  lemma ForAt(P: Program, fn: nat, pc: nat, b: OptExpr, c: OptExpr, body: Stmt, ls: ForLabels)
    requires At(P, fn, pc, ForRest(b, c, body, ls))
    ensures var x, w, z := CodeO(b, ls.cond), StepCode(c, ls.step), CodeS(body, ls.inner, ls.brk, ls.cont);
            var p1 := pc + 1 + |x|; var p2 := p1 + 3 + |w|; var p3 := p2 + 2 + |z|;
            Is(P, fn, pc, Label(ls.test)) && At(P, fn, pc + 1, x)
            && Is(P, fn, p1, Jump('B', ls.body)) && Is(P, fn, p1 + 1, Jump('J', ls.brk))
            && Is(P, fn, p1 + 2, Label(ls.cont))
            && At(P, fn, p1 + 3, w) && Is(P, fn, p2, Jump('J', ls.test)) && Is(P, fn, p2 + 1, Label(ls.body))
            && At(P, fn, p2 + 2, z) && Is(P, fn, p3, Jump('J', ls.cont)) && Is(P, fn, p3 + 1, Label(ls.brk))
            && |ForRest(b, c, body, ls)| == p3 + 2 - pc
  {
    hide At, Is, CodeO, StepCode, CodeS;
    var x, w, z := CodeO(b, ls.cond), StepCode(c, ls.step), CodeS(body, ls.inner, ls.brk, ls.cont);
    var t1, t2, t3 := [Jump('B', ls.body), Jump('J', ls.brk), Label(ls.cont)], [Jump('J', ls.test), Label(ls.body)],
                      [Jump('J', ls.cont), Label(ls.brk)];
    var p1 := pc + 1 + |x|;
    var p2 := p1 + 3 + |w|;
    var p3 := p2 + 2 + |z|;
    At3(P, fn, pc, [Label(ls.test)] + x + t1 + w + t2, z, t3);
    At5(P, fn, pc, [Label(ls.test)], x, t1, w, t2);
    AtItem(P, fn, pc, [Label(ls.test)], 0);
    AtItem(P, fn, p1, t1, 0);
    AtItem(P, fn, p1, t1, 1);
    AtItem(P, fn, p1, t1, 2);
    AtItem(P, fn, p2, t2, 0);
    AtItem(P, fn, p2, t2, 1);
    AtItem(P, fn, p3, t3, 0);
    AtItem(P, fn, p3, t3, 1);
  }

  lemma GoesOn<T>(P: Program, m: Machine, n: nat, pc: nat, st: seq<Num>, s: Store, it: Item)
    requires m.status == Running && Gets(P, m, n, pc, st, s) && Is(P, m.fn, pc, it)
    ensures var r: Result<T> := TimeOut; Ends(P, m, n, r, n)
  {
  }

  // The jump out of a loop.
  lemma LeaveFor(P: Program, m: Machine, n: nat, pc: nat, st: seq<Num>, s: Store, brk: nat, to: nat) returns (k: nat)
    requires m.status == Running && Gets(P, m, n, pc, st, s)
    requires Is(P, m.fn, pc, Jump('J', brk)) && Is(P, m.fn, to, Label(brk)) && Unique(Segment(P, m.fn))
    ensures k == n + 2 && Gets(P, m, k, to + 1, st, s)
  {
    hide Gets, Is, Unique;
    LabelIs(P, m.fn, to, brk);
    OneJump(P, m, n, pc, st, s, brk);
    OneLabel(P, m, n + 1, to, st, s, brk);
    k := n + 2;
  }

  // A pop when nothing is on the stack.
  lemma OnePopNone(P: Program, m: Machine, n: nat, pc: nat, s: Store)
    requires m.status == Running && Gets(P, m, n, pc, [], s) && Is(P, m.fn, pc, Plain('p'))
    ensures Gets(P, m, n + 1, pc + 1, [], s)
  {
    OneStep(P, m, n, pc, [], s, Plain('p'));
  }

  // A branch when nothing is on the stack goes through a null pointer.
  lemma OneBranchNone(P: Program, m: Machine, n: nat, pc: nat, s: Store, id: nat)
    requires m.status == Running && Gets(P, m, n, pc, [], s) && Is(P, m.fn, pc, Jump('B', id))
    ensures Run(P, m, n + 1).status == Stuck
  {
    OneStep(P, m, n, pc, [], s, Jump('B', id));
  }
}
