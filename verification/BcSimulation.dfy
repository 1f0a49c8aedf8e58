// The code of expressions and statements does what they mean: an expression
// leaves its value on the operand stack, a statement leaves the stack as it was,
// and both end by error, by halt or never in the same way as their evaluation.
module BcSimulation {
  import opened BcSyntax
  import opened BcStore
  import opened BcEval
  import opened BcMachine
  import opened BcLayout
  import opened BcLabels
  import opened BcSteps
  import opened BcParts

  // ---- Supported programs ----------------------------------------------------------------

  // The number of an array is one that is given to names, and constants with its digits
  // are made of them as push_constant does it.
  ghost predicate Addressed(A: Arith, arr: nat)
  {
    arr <= MAX_STORE && forall base: int :: ReadsBack(A, arr, base)
  }

  predicate ReadsBack(A: Arith, arr: nat, base: int)
  {
    A.toLong(A.constant(Decimal(arr), base)) == ReadIn(Decimal(arr), base)
  }

  // The functions in bare are called only where the operand stack is empty.
  ghost predicate WellE(A: Arith, bare: set<nat>, e: Expr, empty: bool)
  {
    match e
    case Number(_) => true
    case Value(n) => WellN(A, bare, n, empty)
    case Assign(n, op, a) => WellN(A, bare, n, empty) && WellE(A, bare, a, empty && n.Simple? && op == '=')
    case And(a, b) => WellE(A, bare, a, empty) && WellE(A, bare, b, empty)
    case Or(a, b) => WellE(A, bare, a, empty) && WellE(A, bare, b, empty)
    case Not(a) => WellE(A, bare, a, empty)
    case Relation(_, a, b) => WellE(A, bare, a, empty) && WellE(A, bare, b, false)
    case Binary(_, a, b) => WellE(A, bare, a, empty) && WellE(A, bare, b, false)
    case Negate(a) => WellE(A, bare, a, empty)
    case Paren(a) => WellE(A, bare, a, empty)
    case Before(_, n) => WellN(A, bare, n, empty)
    case AfterIt(n, _) => WellN(A, bare, n, empty)
    case Special(_, a) => WellE(A, bare, a, empty)
    case Call(f, args) => (f in bare ==> empty) && WellEs(A, bare, args, empty)
  }

  ghost predicate WellN(A: Arith, bare: set<nat>, n: Named, empty: bool)
  {
    match n case Simple(_) => true case Element(_, i) => WellE(A, bare, i, empty)
  }

  ghost predicate WellEs(A: Arith, bare: set<nat>, es: Exprs, empty: bool)
  {
    match es
    case NoExprs => true
    case MoreExprs(e, more) => WellE(A, bare, e, empty) && WellEs(A, bare, more, false)
    case MoreArrays(a, more) => Addressed(A, a) && WellEs(A, bare, more, false)
  }

  ghost predicate WellO(A: Arith, bare: set<nat>, o: OptExpr, empty: bool)
  {
    o.Some? ==> WellE(A, bare, o.e, empty)
  }

  // Break stands in a loop and continue in a for, as the grammar demands.  A for
  // has a condition; it has a first expression too, unless nothing is on the stack.
  ghost predicate WellS(A: Arith, bare: set<nat>, s: Stmt, loop: bool, inFor: bool, empty: bool)
    decreases s, 0
  {
    match s
    case Expression(e) => WellE(A, bare, e, empty)
    case PrintExpr(e) => WellE(A, bare, e, empty)
    case Return(o) => WellO(A, bare, o, empty)
    case Break => loop
    case Continue => inFor
    case For(a, b, c, body) =>
      b.Some? && (a.Some? || empty) && WellFor(A, bare, a, b, c, body, empty)
    case If(c, yes) => WellE(A, bare, c, empty) && WellS(A, bare, yes, loop, inFor, empty)
    case IfElse(c, yes, no) =>
      WellE(A, bare, c, empty) && WellS(A, bare, yes, loop, inFor, empty) && WellS(A, bare, no, loop, inFor, empty)
    case While(c, body) => WellE(A, bare, c, empty) && WellS(A, bare, body, true, inFor, empty)
    case Block(ss) => WellSs(A, bare, ss, loop, inFor, empty)
    case _ => true
  }

  // The parts of a for.
  ghost predicate WellFor(A: Arith, bare: set<nat>, a: OptExpr, b: OptExpr, c: OptExpr, body: Stmt, empty: bool)
    decreases body, 1
  {
    WellO(A, bare, a, empty) && WellO(A, bare, b, empty) && WellO(A, bare, c, empty)
      && WellS(A, bare, body, true, true, empty)
  }

  ghost predicate WellSs(A: Arith, bare: set<nat>, ss: Stmts, loop: bool, inFor: bool, empty: bool)
    decreases ss, 0
  {
    match ss
    case NoStmts => true
    case MoreStmts(s, more) => WellS(A, bare, s, loop, inFor, empty) && WellSs(A, bare, more, loop, inFor, empty)
  }

  // Every function is compiled into its own segment.
  ghost predicate Compiled(P: Program, bare: set<nat>)
  {
    !P.C.meant && (forall fn: nat :: Unique(Segment(P, fn)))
    && forall f: nat :: f in P.C.functions ==>
         f > 0 && Segment(P, f) == FunctionCode(P.C.functions[f])
         && WellSs(P.C.A, bare, P.C.functions[f].body, false, false, f in bare)
  }

  // The call from which a run is followed, and a point of the run in this call.
  datatype Site = Site(P: Program, bare: set<nat>, m: Machine, cb: ConstBase)

  datatype Spot = Spot(n: nat, pc: nat, st: seq<Num>, s: Store)

  ghost predicate Ready(h: Site, x: Spot, empty: bool)
  {
    Compiled(h.P, h.bare) && h.m.status == Running && h.cb == ConstBaseOf(h.m) && Gets(h.P, h.m, x.n, x.pc, x.st, x.s)
    && (empty ==> x.st == [])
  }

  ghost predicate In(h: Site, pc: nat, code: seq<Item>)
  {
    At(h.P, h.m.fn, pc, code)
  }

  lemma SegmentUnique(P: Program, bare: set<nat>, fn: nat)
    requires Compiled(P, bare)
    ensures Unique(Segment(P, fn))
  {
    hide Unique, FunctionCode, WellSs;
  }

  // ---- Expressions ---------------------------------------------------------------------

  lemma {:induction false} SimE(h: Site, x: Spot, empty: bool, e: Expr, l: nat, fuel: nat)
    returns (k: nat)
    requires Ready(h, x, empty) && In(h, x.pc, CodeE(e, l)) && WellE(h.P.C.A, h.bare, e, empty)
    ensures k >= x.n
    ensures Yields(h.P, h.m, k, x.pc + |CodeE(e, l)|, x.st, EvalE(h.P.C, e, x.s, h.cb, fuel), x.n + fuel)
    decreases fuel, 1, e, 3
  {
    hide At, Compiled, Gets, Ends, CodeE, EvalE, WellN, WellEs;
    match e
    case Value(n) => k := SimValue(h, x, empty, n, l, fuel);
    case Assign(n, op, a) => k := SimAssign(h, x, empty, n, op, a, l, fuel);
    case And(a, b) => k := SimAnd(h, x, empty, a, b, l, fuel);
    case Or(a, b) => k := SimOr(h, x, empty, a, b, l, fuel);
    case Before(step, n) => k := SimBefore(h, x, empty, step, n, l, fuel);
    case AfterIt(n, step) => k := SimAfter(h, x, empty, n, step, l, fuel);
    case Call(f, args) => k := SimCall(h, x, empty, f, args, l, fuel);
    case Number(text) => k := SimNumber(h, x, empty, text, l, fuel);
    case Paren(a) => k := SimParen(h, x, empty, a, l, fuel);
    case _ => k := SimOperation(h, x, empty, e, l, fuel);
  }

  lemma {:induction false} SimNumber(h: Site, x: Spot, empty: bool, text: string, l: nat, fuel: nat)
    returns (k: nat)
    requires Ready(h, x, empty) && In(h, x.pc, CodeE(Number(text), l))
    ensures k >= x.n
    ensures Yields(h.P, h.m, k, x.pc + |CodeE(Number(text), l)|, x.st, EvalE(h.P.C, Number(text), x.s, h.cb, fuel),
              x.n + fuel)
  {
    hide At, Compiled, Gets, Ends, ConstBaseOf;
    OneNumber(h.P, h.m, x.n, x.pc, x.st, x.s, text, h.cb);
    k := x.n + 1;
  }

  lemma {:induction false} SimParen(h: Site, x: Spot, empty: bool, a: Expr, l: nat, fuel: nat)
    returns (k: nat)
    requires Ready(h, x, empty) && In(h, x.pc, CodeE(Paren(a), l)) && WellE(h.P.C.A, h.bare, Paren(a), empty)
    ensures k >= x.n
    ensures Yields(h.P, h.m, k, x.pc + |CodeE(Paren(a), l)|, x.st, EvalE(h.P.C, Paren(a), x.s, h.cb, fuel),
              x.n + fuel)
    decreases fuel, 1, Paren(a), 2
  {
    hide At, Compiled, Gets, Ends;
    k := SimE(h, x, empty, a, l, fuel);
  }

  // Operations on one or two operands.
  lemma {:induction false} SimOperation(h: Site, x: Spot, empty: bool, e: Expr, l: nat, fuel: nat)
    returns (k: nat)
    requires e.Not? || e.Negate? || e.Relation? || e.Binary? || e.Special?
    requires Ready(h, x, empty) && In(h, x.pc, CodeE(e, l)) && WellE(h.P.C.A, h.bare, e, empty)
    ensures k >= x.n
    ensures Yields(h.P, h.m, k, x.pc + |CodeE(e, l)|, x.st, EvalE(h.P.C, e, x.s, h.cb, fuel), x.n + fuel)
    decreases fuel, 1, e, 2
  {
    hide At, Compiled, Gets, Ends, Addressed, EvalE, CodeE, Yields;
    match e
    case Not(a) => k := SimOne(h, x, empty, e, a, '!', l, fuel);
    case Relation(op, a, b) => k := SimTwo(h, x, empty, e, op, l, fuel);
    case Binary(op, a, b) => k := SimTwo(h, x, empty, e, op, l, fuel);
    case Negate(a) => k := SimOne(h, x, empty, e, a, 'n', l, fuel);
    case Special(fn, a) => k := SimSpecial(h, x, empty, fn, a, l, fuel);
  }

  lemma {:induction false} SimN(h: Site, x: Spot, empty: bool, v: Named, l: nat, fuel: nat) returns (k: nat)
    requires Ready(h, x, empty) && In(h, x.pc, CodeN(v, l)) && WellN(h.P.C.A, h.bare, v, empty)
    ensures k >= x.n
    ensures YieldsSub(h.P, h.m, k, x.pc + |CodeN(v, l)|, x.st, v, EvalN(h.P.C, v, x.s, h.cb, fuel), x.n + fuel)
    decreases fuel, 1, v, 1
  {
    hide At, Compiled, Gets, Ends, EvalE;
    if v.Simple? {
      assert x.st + [] == x.st;
      k := x.n;
    } else {
      k := SimE(h, x, empty, v.index, l, fuel);
    }
  }

  // Arguments: the values vs are on the stack.
  lemma {:induction false} SimEs(h: Site, x: Spot, empty: bool, es: Exprs, l: nat, fuel: nat)
    returns (k: nat, vs: seq<Num>)
    requires Ready(h, x, empty) && In(h, x.pc, CodeEs(es, l)) && WellEs(h.P.C.A, h.bare, es, empty)
    ensures k >= x.n
    ensures YieldsAll(h.P, h.m, k, x.pc + |CodeEs(es, l)|, x.st, vs, EvalEs(h.P.C, es, x.s, h.cb, fuel), x.n + fuel)
    ensures var r := EvalEs(h.P.C, es, x.s, h.cb, fuel); r.Ok? ==> Passes(h.P.C.A, Kinds(es), vs, r.v)
    decreases fuel, 1, es, 1
  {
    hide At, Compiled, Gets, Ends, EvalE, CodeE, WellE;
    vs := [];
    match es
    case NoExprs =>
      assert x.st + [] == x.st;
      k := x.n;
    case MoreArrays(a, more) => k, vs := SimArray(h, x, empty, a, more, l, fuel);
    case MoreExprs(e, more) =>
      At2(h.P, h.m.fn, x.pc, CodeE(e, l), CodeEs(more, l + LabelsE(e)));
      k := SimE(h, x, empty, e, l, fuel);
      var r := EvalE(h.P.C, e, x.s, h.cb, fuel);
      if r.Ok? {
        var y := Spot(k, x.pc + |CodeE(e, l)|, x.st + [r.v], r.s);
        k, vs := SimEs(h, y, false, more, l + LabelsE(e), fuel);
        var r2 := EvalEs(h.P.C, more, r.s, h.cb, fuel);
        if r2.Ok? {
          assert x.st + [r.v] + vs == x.st + ([r.v] + vs);
          PassesMore(h.P.C.A, false, r.v, Single(r.v), Kinds(more), vs, r2.v);
        } else {
          EndsToo(h.P, h.m, k, r2, y.n + fuel, EvalEs(h.P.C, es, x.s, h.cb, fuel), x.n + fuel);
        }
        vs := [r.v] + vs;
      } else {
        EndsToo(h.P, h.m, k, r, x.n + fuel, EvalEs(h.P.C, es, x.s, h.cb, fuel), x.n + fuel);
      }
  }

  lemma PassesMore(A: Arith, kind: bool, v: Num, a: Arg, kinds: seq<bool>, vs: seq<Num>, args: seq<Arg>)
    requires Passes(A, kinds, vs, args) && PassesOne(A, kind, v, a)
    ensures Passes(A, [kind] + kinds, [v] + vs, [a] + args)
  {
    forall i | 0 <= i < |kinds| + 1 ensures PassesOne(A, ([kind] + kinds)[i], ([v] + vs)[i], ([a] + args)[i]) {
      if i > 0 { assert PassesOne(A, kinds[i - 1], vs[i - 1], args[i - 1]); }
    }
  }

  // An array is passed by its number, which is read in the base of constants.
  lemma {:induction false} SimArray(h: Site, x: Spot, empty: bool, a: nat, more: Exprs, l: nat, fuel: nat)
    returns (k: nat, vs: seq<Num>)
    requires Ready(h, x, empty) && In(h, x.pc, CodeEs(MoreArrays(a, more), l))
             && WellEs(h.P.C.A, h.bare, MoreArrays(a, more), empty)
    ensures k >= x.n
    ensures var r := EvalEs(h.P.C, MoreArrays(a, more), x.s, h.cb, fuel);
            YieldsAll(h.P, h.m, k, x.pc + |CodeEs(MoreArrays(a, more), l)|, x.st, vs, r, x.n + fuel)
            && (r.Ok? ==> Passes(h.P.C.A, Kinds(MoreArrays(a, more)), vs, r.v))
    decreases fuel, 1, MoreArrays(a, more), 0
  {
    hide At, Gets, Ends, EvalE, CodeE, WellE, Decimal, ReadIn;
    var it := Const(Decimal(a));
    var v := h.P.C.A.constant(Decimal(a), BaseOf(h.cb, x.s));
    At2(h.P, h.m.fn, x.pc, [it], CodeEs(more, l));
    AtItem(h.P, h.m.fn, x.pc, [it], 0);
    OneConst(h.P, h.m, x.n, x.pc, x.st, x.s, Decimal(a), h.cb);
    k, vs := SimEs(h, Spot(x.n + 1, x.pc + 1, x.st + [v], x.s), false, more, l, fuel);
    var r2 := EvalEs(h.P.C, more, x.s, h.cb, fuel);
    if r2.Ok? {
      assert x.st + [v] + vs == x.st + ([v] + vs);
      assert ReadsBack(h.P.C.A, a, BaseOf(h.cb, x.s));
      PassesMore(h.P.C.A, true, v, Whole(ArrayGiven(h.P.C, a, BaseOf(h.cb, x.s))), Kinds(more), vs, r2.v);
    } else {
      EndsToo(h.P, h.m, k, r2, x.n + 1 + fuel, EvalEs(h.P.C, MoreArrays(a, more), x.s, h.cb, fuel), x.n + fuel);
    }
    vs := [v] + vs;
  }

  lemma {:induction false} SimValue(h: Site, x: Spot, empty: bool, v: Named, l: nat, fuel: nat)
    returns (k: nat)
    requires Ready(h, x, empty) && In(h, x.pc, CodeE(Value(v), l)) && WellN(h.P.C.A, h.bare, v, empty)
    ensures k >= x.n
    ensures Yields(h.P, h.m, k, x.pc + |CodeE(Value(v), l)|, x.st, EvalE(h.P.C, Value(v), x.s, h.cb, fuel), x.n + fuel)
    decreases fuel, 1, Value(v), 0
  {
    hide At, Compiled, Gets, Ends, EvalN, CodeN, Fetch, WellN;
    At2(h.P, h.m.fn, x.pc, CodeN(v, l), [LoadOf(v)]);
    AtItem(h.P, h.m.fn, x.pc + |CodeN(v, l)|, [LoadOf(v)], 0);
    k := SimN(h, x, empty, v, l, fuel);
    var r := EvalN(h.P.C, v, x.s, h.cb, fuel);
    if r.Ok? {
      OneLoad(h.P, h.m, k, x.pc + |CodeN(v, l)|, x.st, v, r.v, r.s, x.n + fuel);
      k := k + 1;
    }
  }

  // What one operand is made into.
  function OfOne(A: Arith, e: Expr, r: Result<Num>): Result<Num>
    requires e.Not? || e.Negate? || e.Special?
  {
    match r
    case Ok(v, s) =>
      if e.Not? then Ok(Truth(A, A.isZero(v)), s) else if e.Negate? then Ok(A.negate(v), s)
        else OfMaybe(A.builtin(e.fn, v, s.scale), s)
    case _ => r
  }

  lemma OneMeans(C: Context, e: Expr, s: Store, cb: ConstBase, fuel: nat, l: nat)
    requires e.Not? || e.Negate? || e.Special?
    ensures EvalE(C, e, s, cb, fuel) == OfOne(C.A, e, EvalE(C, e.a, s, cb, fuel))
    ensures CodeE(e, l) == CodeE(e.a, l) + [if e.Not? then Plain('!') else if e.Negate? then Plain('n')
            else Builtin(e.fn)]
  {
    hide EvalN, EvalEs, Apply, Fetch, Keep, StepNamed, Holds;
  }

  // Not and negation.
  lemma {:induction false} SimOne(h: Site, x: Spot, empty: bool, e: Expr, a: Expr, c: char, l: nat, fuel: nat)
    returns (k: nat)
    requires (e == Not(a) && c == '!') || (e == Negate(a) && c == 'n')
    requires Ready(h, x, empty) && In(h, x.pc, CodeE(e, l)) && WellE(h.P.C.A, h.bare, a, empty)
    ensures k >= x.n
    ensures Yields(h.P, h.m, k, x.pc + |CodeE(e, l)|, x.st, EvalE(h.P.C, e, x.s, h.cb, fuel), x.n + fuel)
    decreases fuel, 1, e, 0
  {
    hide At, Compiled, Gets, Ends, WellE, EvalE, CodeE, ConstBaseOf;
    OneMeans(h.P.C, e, x.s, h.cb, fuel, l);
    At2(h.P, h.m.fn, x.pc, CodeE(a, l), [Plain(c)]);
    AtItem(h.P, h.m.fn, x.pc + |CodeE(a, l)|, [Plain(c)], 0);
    k := SimE(h, x, empty, a, l, fuel);
    var r := EvalE(h.P.C, a, x.s, h.cb, fuel);
    if r.Ok? {
      OneUnary(h.P, h.m, k, x.pc + |CodeE(a, l)|, x.st, r.v, r.s, c);
      k := k + 1;
    }
  }

  lemma {:induction false} SimSpecial(h: Site, x: Spot, empty: bool, fn: char, a: Expr, l: nat, fuel: nat)
    returns (k: nat)
    requires Ready(h, x, empty) && In(h, x.pc, CodeE(Special(fn, a), l)) && WellE(h.P.C.A, h.bare, a, empty)
    ensures k >= x.n
    ensures Yields(h.P, h.m, k, x.pc + |CodeE(Special(fn, a), l)|, x.st, EvalE(h.P.C, Special(fn, a), x.s, h.cb, fuel),
              x.n + fuel)
    decreases fuel, 1, Special(fn, a), 0
  {
    hide At, Compiled, Gets, Ends, WellE, EvalE, CodeE, ConstBaseOf;
    OneMeans(h.P.C, Special(fn, a), x.s, h.cb, fuel, l);
    At2(h.P, h.m.fn, x.pc, CodeE(a, l), [Builtin(fn)]);
    AtItem(h.P, h.m.fn, x.pc + |CodeE(a, l)|, [Builtin(fn)], 0);
    k := SimE(h, x, empty, a, l, fuel);
    var r := EvalE(h.P.C, a, x.s, h.cb, fuel);
    if r.Ok? {
      OneBuiltin(h.P, h.m, k, x.pc + |CodeE(a, l)|, x.st, r.v, r.s, fn, x.n + fuel);
      k := k + 1;
    }
  }

  // Comparison and arithmetic: both operands, then the instruction.
  lemma {:induction false} SimTwo(h: Site, x: Spot, empty: bool, e: Expr, c: char, l: nat, fuel: nat)
    returns (k: nat)
    requires (e.Relation? && c == e.rel) || (e.Binary? && c == e.bin)
    requires Ready(h, x, empty) && In(h, x.pc, CodeE(e, l)) && WellE(h.P.C.A, h.bare, e.a, empty)
             && WellE(h.P.C.A, h.bare, e.b, false)
    ensures k >= x.n
    ensures Yields(h.P, h.m, k, x.pc + |CodeE(e, l)|, x.st, EvalE(h.P.C, e, x.s, h.cb, fuel), x.n + fuel)
    decreases fuel, 1, e, 1
  {
    hide At, Compiled, Gets, Ends, WellE, EvalE, CodeE, LabelsE, ConstBaseOf, Combined;
    TwoMeans(h.P.C, e, x.s, h.cb, fuel, l);
    var u, v := CodeE(e.a, l), CodeE(e.b, l + LabelsE(e.a));
    At3(h.P, h.m.fn, x.pc, u, v, [Plain(c)]);
    AtItem(h.P, h.m.fn, x.pc + |u| + |v|, [Plain(c)], 0);
    k := SimE(h, x, empty, e.a, l, fuel);
    var r := EvalE(h.P.C, e.a, x.s, h.cb, fuel);
    if r.Ok? {
      k := SecondOperand(h, x, Spot(k, x.pc + |u|, x.st + [r.v], r.s), e, c, r.v, l + LabelsE(e.a), fuel);
    }
  }

  function Combined(C: Context, e: Expr, v: Num, r: Result<Num>): Result<Num>
    requires e.Relation? || e.Binary?
  {
    match r
    case Ok(w, s) =>
      if e.Relation? then Ok(Truth(C.A, Holds(e.rel, C.A.compare(v, w))), s)
        else OfMaybe(C.A.binary(e.bin, v, w, s.scale), s)
    case _ => r
  }

  lemma TwoMeans(C: Context, e: Expr, s: Store, cb: ConstBase, fuel: nat, l: nat)
    requires e.Relation? || e.Binary?
    ensures var r := EvalE(C, e.a, s, cb, fuel);
            EvalE(C, e, s, cb, fuel) == if r.Ok? then Combined(C, e, r.v, EvalE(C, e.b, r.s, cb, fuel)) else r
    ensures CodeE(e, l)
            == CodeE(e.a, l) + CodeE(e.b, l + LabelsE(e.a)) + [if e.Relation? then Plain(e.rel) else Plain(e.bin)]
  {
    hide EvalN, EvalEs, Apply, Fetch, Keep, StepNamed, Holds;
  }

  lemma {:induction false} SecondOperand(h: Site, x: Spot, y: Spot, e: Expr, c: char, v: Num, l: nat, fuel: nat)
    returns (k: nat)
    requires (e.Relation? && c == e.rel) || (e.Binary? && c == e.bin)
    requires Ready(h, y, false) && y.st == x.st + [v] && x.n <= y.n && WellE(h.P.C.A, h.bare, e.b, false)
    requires In(h, y.pc, CodeE(e.b, l)) && Is(h.P, h.m.fn, y.pc + |CodeE(e.b, l)|, Plain(c))
    ensures k >= x.n
    ensures Yields(h.P, h.m, k, y.pc + |CodeE(e.b, l)| + 1, x.st,
                   Combined(h.P.C, e, v, EvalE(h.P.C, e.b, y.s, h.cb, fuel)), x.n + fuel)
    decreases fuel, 1, e, 0
  {
    hide At, Compiled, Gets, Ends, Holds, WellE, CodeE, EvalE, Is;
    k := SimE(h, y, false, e.b, l, fuel);
    var r := EvalE(h.P.C, e.b, y.s, h.cb, fuel);
    var pc := y.pc + |CodeE(e.b, l)|;
    if !r.Ok? {
      EndsToo(h.P, h.m, k, r, y.n + fuel, r, x.n + fuel);
    } else if e.Relation? {
      OneCompare(h.P, h.m, k, pc, x.st, v, r.v, r.s, c);
      k := k + 1;
    } else {
      OneBinary(h.P, h.m, k, pc, x.st, v, r.v, r.s, c, x.n + fuel);
      k := k + 1;
    }
  }

  lemma {:induction false} SimAnd(h: Site, x: Spot, empty: bool, a: Expr, b: Expr, l: nat, fuel: nat)
    returns (k: nat)
    requires Ready(h, x, empty) && In(h, x.pc, CodeE(And(a, b), l)) && WellE(h.P.C.A, h.bare, a, empty)
             && WellE(h.P.C.A, h.bare, b, empty)
    ensures k >= x.n
    ensures Yields(h.P, h.m, k, x.pc + |CodeE(And(a, b), l)|, x.st, EvalE(h.P.C, And(a, b), x.s, h.cb, fuel),
              x.n + fuel)
    decreases fuel, 1, And(a, b), 1
  {
    hide At, Compiled, Gets, Ends, WellE, CodeE, EvalE, Unique, Find, AndEnd, LabelsE;
    AndMeans(h.P.C, a, b, x.s, h.cb, fuel);
    SegmentUnique(h.P, h.bare, h.m.fn);
    AndAt(h.P, h.m.fn, x.pc, a, b, l);
    var id := l + LabelsE(a);
    var p1, p2 := x.pc + |CodeE(a, l)|, x.pc + |CodeE(a, l)| + 3 + |CodeE(b, id + 1)|;
    k := SimE(h, x, empty, a, l, fuel);
    var r := EvalE(h.P.C, a, x.s, h.cb, fuel);
    if r.Ok? {
      k := TestZero(h.P, h.m, k, p1, x.st, r.v, r.s, id);
      if h.P.C.A.isZero(r.v) {
        k := AndOver(h.P, h.m, k, p2, x.st + [r.v], r.s, id);
      } else {
        k := AndSecond(h, x, Spot(k, p1 + 3, x.st, r.s), empty, a, b, id, fuel);
      }
    }
  }

  function OfSecond(A: Arith, r: Result<Num>): Result<Num>
  {
    if r.Ok? && !A.isZero(r.v) then Ok(A.one, r.s) else r
  }

  lemma AndMeans(C: Context, a: Expr, b: Expr, s: Store, cb: ConstBase, fuel: nat)
    ensures var r := EvalE(C, a, s, cb, fuel);
            EvalE(C, And(a, b), s, cb, fuel)
            == if r.Ok? && !C.A.isZero(r.v) then OfSecond(C.A, EvalE(C, b, r.s, cb, fuel)) else r
  {
    hide EvalN, EvalEs, Apply, Fetch, Keep, StepNamed, Holds;
  }

  lemma {:induction false} AndSecond(h: Site, x: Spot, y: Spot, empty: bool, a: Expr, b: Expr, id: nat, fuel: nat)
    returns (k: nat)
    requires Ready(h, y, empty) && y.st == x.st && x.n <= y.n && WellE(h.P.C.A, h.bare, b, empty)
    requires In(h, y.pc, CodeE(b, id + 1)) && In(h, y.pc + |CodeE(b, id + 1)|, AndEnd(id))
    ensures k >= x.n
    ensures Yields(h.P, h.m, k, y.pc + |CodeE(b, id + 1)| + 5, x.st,
                   OfSecond(h.P.C.A, EvalE(h.P.C, b, y.s, h.cb, fuel)), x.n + fuel)
    decreases fuel, 1, And(a, b), 0
  {
    hide At, Compiled, Gets, Ends, WellE, CodeE, EvalE, Unique, AndEnd;
    SegmentUnique(h.P, h.bare, h.m.fn);
    k := SimE(h, y, empty, b, id + 1, fuel);
    var r := EvalE(h.P.C, b, y.s, h.cb, fuel);
    if r.Ok? {
      k := AndLast(h.P, h.m, k, y.pc + |CodeE(b, id + 1)|, x.st, r.v, r.s, id);
    } else {
      EndsToo(h.P, h.m, k, r, y.n + fuel, r, x.n + fuel);
    }
  }

  lemma {:induction false} SimOr(h: Site, x: Spot, empty: bool, a: Expr, b: Expr, l: nat, fuel: nat)
    returns (k: nat)
    requires Ready(h, x, empty) && In(h, x.pc, CodeE(Or(a, b), l)) && WellE(h.P.C.A, h.bare, a, empty)
             && WellE(h.P.C.A, h.bare, b, empty)
    ensures k >= x.n
    ensures Yields(h.P, h.m, k, x.pc + |CodeE(Or(a, b), l)|, x.st, EvalE(h.P.C, Or(a, b), x.s, h.cb, fuel), x.n + fuel)
    decreases fuel, 1, Or(a, b), 1
  {
    hide At, Compiled, Gets, Ends, WellE, CodeE, EvalE, Unique, Find, OrEnd, LabelsE, Is, Truth;
    OrMeans(h.P.C, a, b, x.s, h.cb, fuel);
    SegmentUnique(h.P, h.bare, h.m.fn);
    OrAt(h.P, h.m.fn, x.pc, a, b, l);
    var id := l + LabelsE(a);
    var t := id + 1 + LabelsE(b);
    var p1, p2 := x.pc + |CodeE(a, l)|, x.pc + |CodeE(a, l)| + 1 + |CodeE(b, id + 1)|;
    k := SimE(h, x, empty, a, l, fuel);
    var r := EvalE(h.P.C, a, x.s, h.cb, fuel);
    if r.Ok? {
      OneBranch(h.P, h.m, k, p1, x.st, r.v, r.s, 'B', id);
      k := k + 1;
      if h.P.C.A.isZero(r.v) {
        k := OrSecond(h, x, Spot(k, p1 + 1, x.st, r.s), empty, a, b, id, t, fuel);
      } else {
        k := OrTrue(h.P, h.m, k, p2, x.st, r.s, id, t);
      }
    }
  }

  function OfTruth(A: Arith, r: Result<Num>): Result<Num>
  {
    if r.Ok? then Ok(Truth(A, !A.isZero(r.v)), r.s) else r
  }

  lemma OrMeans(C: Context, a: Expr, b: Expr, s: Store, cb: ConstBase, fuel: nat)
    ensures var r := EvalE(C, a, s, cb, fuel);
            EvalE(C, Or(a, b), s, cb, fuel)
            == if !r.Ok? then r else if C.A.isZero(r.v) then OfTruth(C.A, EvalE(C, b, r.s, cb, fuel))
               else Ok(C.A.one, r.s)
  {
    hide EvalN, EvalEs, Apply, Fetch, Keep, StepNamed, Holds;
  }

  lemma {:induction false} OrSecond(h: Site, x: Spot, y: Spot, empty: bool, a: Expr, b: Expr, id: nat, t: nat,
      fuel: nat)
    returns (k: nat)
    requires Ready(h, y, empty) && y.st == x.st && x.n <= y.n && WellE(h.P.C.A, h.bare, b, empty)
    requires In(h, y.pc, CodeE(b, id + 1)) && In(h, y.pc + |CodeE(b, id + 1)|, OrEnd(id, t))
    ensures k >= x.n
    ensures Yields(h.P, h.m, k, y.pc + |CodeE(b, id + 1)| + 6, x.st,
                   OfTruth(h.P.C.A, EvalE(h.P.C, b, y.s, h.cb, fuel)), x.n + fuel)
    decreases fuel, 1, Or(a, b), 0
  {
    hide At, Compiled, Gets, Ends, WellE, CodeE, EvalE, Unique, OrEnd, Truth, ConstBaseOf, Segment;
    SegmentUnique(h.P, h.bare, h.m.fn);
    k := SimE(h, y, empty, b, id + 1, fuel);
    var r := EvalE(h.P.C, b, y.s, h.cb, fuel);
    if r.Ok? {
      k := OrLast(h.P, h.m, k, y.pc + |CodeE(b, id + 1)|, x.st, r.v, r.s, id, t);
    } else {
      EndsToo(h.P, h.m, k, r, y.n + fuel, r, x.n + fuel);
    }
  }

  lemma {:induction false} SimAssign(h: Site, x: Spot, empty: bool, v: Named, op: AssignOp, a: Expr, l: nat, fuel: nat)
    returns (k: nat)
    requires Ready(h, x, empty) && In(h, x.pc, CodeE(Assign(v, op, a), l))
             && WellE(h.P.C.A, h.bare, Assign(v, op, a), empty)
    ensures k >= x.n
    ensures Yields(h.P, h.m, k, x.pc + |CodeE(Assign(v, op, a), l)|, x.st,
              EvalE(h.P.C, Assign(v, op, a), x.s, h.cb, fuel), x.n + fuel)
    decreases fuel, 1, Assign(v, op, a), 1
  {
    hide At, Compiled, Gets, Ends, EvalN, CodeN, CodeE, EvalE, FetchOf, Fetch, Keep, Is, LabelsN, WellN;
    AssignMeans(h.P.C, v, op, a, x.s, h.cb, fuel);
    AssignAt(h.P, h.m.fn, x.pc, v, op, a, l);
    var p2 := x.pc + |CodeN(v, l)|;
    k := SimN(h, x, empty, v, l, fuel);
    var r := EvalN(h.P.C, v, x.s, h.cb, fuel);
    if r.Ok? {
      var y := Spot(k, p2, x.st + Sub(v, r.v), r.s);
      if op == '=' {
        k := SimSet(h, x, y, empty && v.Simple?, v, a, r.v, l + LabelsN(v), fuel);
      } else {
        k := SimUpdate(h, x, y, v, op, a, r.v, l + LabelsN(v), fuel);
      }
    }
  }

  // What is left of an assignment after the subscript.
  function SetTo(C: Context, v: Named, a: Expr, sub: Num, s: Store, cb: ConstBase, fuel: nat): Result<Num>
  {
    match EvalE(C, a, s, cb, fuel) case Ok(w, s1) => Keep(C.A, v, sub, w, s1) case r => r
  }

  function Update(C: Context, v: Named, op: BinOp, a: Expr, sub: Num, s: Store, cb: ConstBase, fuel: nat): Result<Num>
  {
    match Fetch(C.A, v, sub, s)
    case Ok(was, s2) =>
      (match EvalE(C, a, s2, cb, fuel)
       case Ok(w, s3) =>
         (match OfMaybe(C.A.binary(op, was, w, s3.scale), s3)
          case Ok(u, s4) => Keep(C.A, v, sub, u, s4)
          case r => r)
       case r => r)
    case r => r
  }

  lemma AssignMeans(C: Context, v: Named, op: AssignOp, a: Expr, s: Store, cb: ConstBase, fuel: nat)
    ensures var r := EvalN(C, v, s, cb, fuel);
            EvalE(C, Assign(v, op, a), s, cb, fuel)
            == if !r.Ok? then r else if op == '=' then SetTo(C, v, a, r.v, r.s, cb, fuel)
               else Update(C, v, op, a, r.v, r.s, cb, fuel)
  {
    hide Fetch, Keep, EvalN;
  }

  lemma {:induction false} SimSet(h: Site, x: Spot, y: Spot, empty: bool, v: Named, a: Expr, sub: Num, l: nat,
      fuel: nat)
    returns (k: nat)
    requires Ready(h, y, empty) && y.st == x.st + Sub(v, sub) && x.n <= y.n && WellE(h.P.C.A, h.bare, a, empty)
    requires In(h, y.pc, CodeE(a, l)) && Is(h.P, h.m.fn, y.pc + |CodeE(a, l)|, StoreOf(v))
    ensures k >= x.n
    ensures Yields(h.P, h.m, k, y.pc + |CodeE(a, l)| + 1, x.st, SetTo(h.P.C, v, a, sub, y.s, h.cb, fuel), x.n + fuel)
    decreases fuel, 1, Assign(v, '=', a), 0
  {
    hide At, Compiled, Gets, Ends, EvalE, CodeE, Keep, Is, WellE;
    k := SimE(h, y, empty, a, l, fuel);
    var r := EvalE(h.P.C, a, y.s, h.cb, fuel);
    if r.Ok? {
      OneStore(h.P, h.m, k, y.pc + |CodeE(a, l)|, x.st, v, sub, r.v, r.s, x.n + fuel);
      k := k + 1;
    } else {
      EndsToo(h.P, h.m, k, r, y.n + fuel, r, x.n + fuel);
    }
  }

  lemma {:induction false} SimUpdate(h: Site, x: Spot, y: Spot, v: Named, op: BinOp, a: Expr, sub: Num, l: nat,
      fuel: nat)
    returns (k: nat)
    requires Ready(h, y, false) && y.st == x.st + Sub(v, sub) && x.n <= y.n && WellE(h.P.C.A, h.bare, a, false)
    requires var p3 := y.pc + |FetchOf(v)|; var p4 := p3 + |CodeE(a, l)|;
             In(h, y.pc, FetchOf(v)) && In(h, p3, CodeE(a, l)) && In(h, p4, [Plain(op)])
               && Is(h.P, h.m.fn, p4 + 1, StoreOf(v))
    ensures k >= x.n
    ensures Yields(h.P, h.m, k, y.pc + |FetchOf(v)| + |CodeE(a, l)| + 2, x.st,
                   Update(h.P.C, v, op, a, sub, y.s, h.cb, fuel), x.n + fuel)
    decreases fuel, 1, Assign(v, op, a), 0
  {
    hide At, Compiled, Gets, Ends, EvalE, CodeE, Fetch, Keep, FetchOf, Is, WellE;
    var p3 := y.pc + |FetchOf(v)|;
    var p4 := p3 + |CodeE(a, l)|;
    AtItem(h.P, h.m.fn, p4, [Plain(op)], 0);
    k := DoFetch(h.P, h.m, y.n, y.pc, x.st, v, sub, y.s, x.n + fuel);
    var r := Fetch(h.P.C.A, v, sub, y.s);
    if r.Ok? {
      var z := Spot(k, p3, y.st + [r.v], r.s);
      k := SimE(h, z, false, a, l, fuel);
      var r3 := EvalE(h.P.C, a, r.s, h.cb, fuel);
      if r3.Ok? {
        OneBinary(h.P, h.m, k, p4, y.st, r.v, r3.v, r3.s, op, x.n + fuel);
        k := k + 1;
        var r4 := OfMaybe(h.P.C.A.binary(op, r.v, r3.v, r3.s.scale), r3.s);
        if r4.Ok? {
          OneStore(h.P, h.m, k, p4 + 1, x.st, v, sub, r4.v, r4.s, x.n + fuel);
          k := k + 1;
        }
      } else {
        EndsToo(h.P, h.m, k, r3, z.n + fuel, r3, x.n + fuel);
      }
    }
  }

  lemma {:induction false} SimBefore(h: Site, x: Spot, empty: bool, step: char, v: Named, l: nat, fuel: nat)
    returns (k: nat)
    requires Ready(h, x, empty) && In(h, x.pc, CodeE(Before(step, v), l)) && WellN(h.P.C.A, h.bare, v, empty)
    ensures k >= x.n
    ensures Yields(h.P, h.m, k, x.pc + |CodeE(Before(step, v), l)|, x.st,
              EvalE(h.P.C, Before(step, v), x.s, h.cb, fuel), x.n + fuel)
    decreases fuel, 1, Before(step, v), 0
  {
    hide At, Compiled, Gets, Ends, EvalN, CodeN, BeforeOf, AfterOf, Fetch, StepNamed, WellN;
    At2(h.P, h.m.fn, x.pc, CodeN(v, l), BeforeOf(step, v));
    k := SimN(h, x, empty, v, l, fuel);
    var r := EvalN(h.P.C, v, x.s, h.cb, fuel);
    if r.Ok? { k := DoBefore(h.P, h.m, k, x.pc + |CodeN(v, l)|, x.st, v, r.v, step, r.s, x.n + fuel); }
  }

  lemma {:induction false} SimAfter(h: Site, x: Spot, empty: bool, v: Named, step: char, l: nat, fuel: nat)
    returns (k: nat)
    requires Ready(h, x, empty) && In(h, x.pc, CodeE(AfterIt(v, step), l)) && WellN(h.P.C.A, h.bare, v, empty)
    ensures k >= x.n
    ensures Yields(h.P, h.m, k, x.pc + |CodeE(AfterIt(v, step), l)|, x.st,
              EvalE(h.P.C, AfterIt(v, step), x.s, h.cb, fuel), x.n + fuel)
    decreases fuel, 1, AfterIt(v, step), 0
  {
    hide At, Compiled, Gets, Ends, EvalN, CodeN, BeforeOf, AfterOf, Fetch, StepNamed, WellN;
    At2(h.P, h.m.fn, x.pc, CodeN(v, l), AfterOf(step, v));
    k := SimN(h, x, empty, v, l, fuel);
    var r := EvalN(h.P.C, v, x.s, h.cb, fuel);
    if r.Ok? { k := DoAfter(h.P, h.m, k, x.pc + |CodeN(v, l)|, x.st, v, r.v, step, r.s, x.n + fuel); }
  }

  // ---- Calls ---------------------------------------------------------------------------

  lemma {:induction false} SimCall(h: Site, x: Spot, empty: bool, f: nat, args: Exprs, l: nat, fuel: nat)
    returns (k: nat)
    requires Ready(h, x, empty) && In(h, x.pc, CodeE(Call(f, args), l)) && (f in h.bare ==> empty)
             && WellEs(h.P.C.A, h.bare, args, empty)
    ensures k >= x.n
    ensures Yields(h.P, h.m, k, x.pc + |CodeE(Call(f, args), l)|, x.st, EvalE(h.P.C, Call(f, args), x.s, h.cb, fuel),
              x.n + fuel)
    decreases fuel, 1, Call(f, args), 0
  {
    hide At, Compiled, Gets, Ends, EvalEs, CodeEs, Apply, WellEs, Passes, CallStr, Kinds;
    var it := Enter(f, CallStr(args));
    At2(h.P, h.m.fn, x.pc, CodeEs(args, l), [it]);
    AtItem(h.P, h.m.fn, x.pc + |CodeEs(args, l)|, [it], 0);
    var vs;
    k, vs := SimEs(h, x, empty, args, l, fuel);
    var r := EvalEs(h.P.C, args, x.s, h.cb, fuel);
    if r.Ok? {
      var y := k;
      PassesList(h.P.C.A, args, vs, r.v);
      k := SimApply(h.P, h.bare, h.m, y, x.pc + |CodeEs(args, l)|, x.st, f, CallStr(args), vs, r.v, r.s, fuel);
      var r2 := Apply(h.P.C, f, r.v, r.s, fuel);
      if !r2.Ok? { EndsToo(h.P, h.m, k, r2, y + fuel, r2, x.n + fuel); }
    } else {
      EndsToo(h.P, h.m, k, r, x.n + fuel, EvalE(h.P.C, Call(f, args), x.s, h.cb, fuel), x.n + fuel);
    }
  }

  lemma PassesList(A: Arith, es: Exprs, vs: seq<Num>, args: seq<Arg>)
    requires Passes(A, Kinds(es), vs, args)
    ensures |CallStr(es)| == |vs| && ArraysNamed(A, CallStr(es), vs) && ArgsOn(A, CallStr(es), vs) == args
  {
    PassesOn(A, Kinds(es), vs, args);
  }

  lemma {:induction false} SimApply(P: Program, bare: set<nat>, m: Machine, n: nat, pc: nat, st: seq<Num>, f: nat,
                                    kinds: seq<bool>, vs: seq<Num>, args: seq<Arg>, s: Store, fuel: nat)
    returns (k: nat)
    requires Compiled(P, bare) && m.status == Running && Gets(P, m, n, pc, st + vs, s)
             && Is(P, m.fn, pc, Enter(f, kinds))
    requires |kinds| == |vs| && ArraysNamed(P.C.A, kinds, vs) && args == ArgsOn(P.C.A, kinds, vs)
    requires f in bare ==> st == []
    ensures k >= n && Yields(P, m, k, pc + 1, st, Apply(P.C, f, args, s, fuel), n + fuel)
    decreases fuel, 0
  {
    hide At, EnterFrame, LeaveFrame, Exec, Unwind, EvalSs, CodeSs, ArraysNamed, ArgsOn, WellSs;
    var C := P.C;
    if f !in C.functions {
      NoFunction<Num>(P, m, n, pc, st + vs, f, kinds, s, n + fuel);
      k := n + 1;
    } else if fuel == 0 {
      k := n;
    } else {
      var fn := C.functions[f];
      var b := EnterFrame(C.A, s, fn, args);
      OneEnter(P, m, n, pc, st, f, kinds, vs, s);
      if !b.ok {
        EndsAtOnce<Num>(P, m, n + 1, pc + 1, st, f, b, n + fuel);
        k := n + 1;
      } else {
        k := SimBody(P, bare, m, n + 1, pc + 1, st, f, b, fuel - 1);
      }
    }
  }

  lemma {:induction false} SimBody(P: Program, bare: set<nat>, m: Machine, n: nat, pc: nat, st: seq<Num>, f: nat,
      b: Bound, fuel: nat)
    returns (k: nat)
    requires Compiled(P, bare) && m.status == Running && f in P.C.functions && Run(P, m, n) == Called(m, pc, st, f, b)
    requires f in bare ==> st == []
    ensures k >= n && Yields(P, m, k, pc, st, AfterBody(P.C, f, b.s, fuel), n + fuel)
    decreases fuel, 2
  {
    hide At, LeaveFrame, Exec, Unwind, EvalSs, CodeSs, Step, WellSs;
    var C, m1 := P.C, Called(m, pc, st, f, b);
    var code := CodeSs(C.functions[f].body, 1, 0, 0);
    WholeAt(P, bare, f);
    At2(P, f, 0, code, [Plain('0'), Plain('R')]);
    AtItem(P, f, |code|, [Plain('0'), Plain('R')], 0);
    AtItem(P, f, |code|, [Plain('0'), Plain('R')], 1);
    var h := Site(P, bare, m1, Saved(b.s.ibase));
    var i, q := SimSs(h, Spot(0, 0, st, b.s), C.functions[f].body, 1, 0, 0, false, false, f in bare, fuel);
    var r := EvalSs(C, C.functions[f].body, b.s, Saved(b.s.ibase), fuel);
    k := n + i;
    if !r.Ok? {
      EndsInside(P, m, n, pc, st, f, b, i, r, AfterBody(C, f, b.s, fuel), fuel);
    } else if r.v.Returned? {
      Back(P, m, n, pc, st, f, b, i, q, r.v.v, r.s);
      k := k + 1;
    } else if r.v.Normal? {
      OneBit(P, m1, i, |code|, st, r.s, '0');
      Back(P, m, n, pc, st, f, b, i + 1, |code| + 1, C.A.zero, r.s);
      k := k + 2;
    }
  }

  // How a call ends after its body.
  function AfterBody(C: Context, f: nat, s: Store, fuel: nat): Result<Num>
    requires f in C.functions
  {
    var fn := C.functions[f];
    match EvalSs(C, fn.body, s, Saved(s.ibase), fuel)
    case Ok(Returned(v), s1) => Ok(v, LeaveFrame(s1, fn))
    case Ok(_, s1) => Ok(C.A.zero, LeaveFrame(s1, fn))
    case Error(s1) => Error(LeaveFrame(s1, fn))
    case Halted(s1) => Halted(s1)
    case TimeOut => TimeOut
  }

  lemma WholeAt(P: Program, bare: set<nat>, f: nat)
    requires Compiled(P, bare) && f in P.C.functions
    ensures At(P, f, 0, FunctionCode(P.C.functions[f]))
  {
    hide FunctionCode, WellSs, Unique;
    assert Segment(P, f)[0..|Segment(P, f)|] == Segment(P, f);
  }

  // ---- Statements ------------------------------------------------------------------------

  // How a statement ends.  A return is about to happen at q, with its value on the stack.
  ghost predicate Ended(h: Site, k: nat, q: nat, pc: nat, st: seq<Num>, brk: nat, cont: nat, loop: bool, inFor: bool,
                        r: Result<Outcome>, limit: nat)
  {
    match r
    case Ok(Normal, s) => Gets(h.P, h.m, k, pc, st, s)
    case Ok(Broken, s) => loop && Gets(h.P, h.m, k, Find(Segment(h.P, h.m.fn), brk), st, s)
    case Ok(Continued, s) => inFor && Gets(h.P, h.m, k, Find(Segment(h.P, h.m.fn), cont), st, s)
    case Ok(Returned(v), s) => Gets(h.P, h.m, k, q, st + [v], s) && Is(h.P, h.m.fn, q, Plain('R'))
    case _ => Ends(h.P, h.m, k, r, limit)
  }

  lemma {:induction false} SimSs(h: Site, x: Spot, ss: Stmts, l: nat, brk: nat, cont: nat,
    loop: bool, inFor: bool, empty: bool, fuel: nat)
    returns (k: nat, q: nat)
    requires Ready(h, x, empty) && In(h, x.pc, CodeSs(ss, l, brk, cont))
    requires WellSs(h.P.C.A, h.bare, ss, loop, inFor, empty)
    ensures k >= x.n
    ensures Ended(h, k, q, x.pc + |CodeSs(ss, l, brk, cont)|, x.st, brk, cont, loop, inFor,
                  EvalSs(h.P.C, ss, x.s, h.cb, fuel), x.n + fuel)
    decreases fuel, 1, ss, 2
  {
    hide At, Compiled, Gets, Ends, EvalS, CodeS, WellS, Find, Is, ConstBaseOf, LabelsS;
    match ss
    case NoStmts => k, q := x.n, 0;
    case MoreStmts(s0, more) =>
      At2(h.P, h.m.fn, x.pc, CodeS(s0, l, brk, cont), CodeSs(more, l + LabelsS(s0), brk, cont));
      k, q := SimS(h, x, s0, l, brk, cont, loop, inFor, empty, fuel);
      var r := EvalS(h.P.C, s0, x.s, h.cb, fuel);
      if r.Ok? && r.v.Normal? {
        var y := Spot(k, x.pc + |CodeS(s0, l, brk, cont)|, x.st, r.s);
        k, q := SimSs(h, y, more, l + LabelsS(s0), brk, cont, loop, inFor, empty, fuel);
        var r2 := EvalSs(h.P.C, more, r.s, h.cb, fuel);
        if !r2.Ok? { EndsToo(h.P, h.m, k, r2, y.n + fuel, r2, x.n + fuel); }
      }
  }

  lemma {:induction false} SimS(h: Site, x: Spot, s0: Stmt, l: nat, brk: nat, cont: nat,
    loop: bool, inFor: bool, empty: bool, fuel: nat)
    returns (k: nat, q: nat)
    requires Ready(h, x, empty) && In(h, x.pc, CodeS(s0, l, brk, cont))
    requires WellS(h.P.C.A, h.bare, s0, loop, inFor, empty)
    ensures k >= x.n
    ensures Ended(h, k, q, x.pc + |CodeS(s0, l, brk, cont)|, x.st, brk, cont, loop, inFor,
                  EvalS(h.P.C, s0, x.s, h.cb, fuel), x.n + fuel)
    decreases fuel, 1, s0, 3
  {
    hide At, Compiled, Gets, Ends, CodeE, EvalE, WellN, WellEs;
    match s0
    case Expression(e) => k, q := SimShow(h, x, s0, e, l, brk, cont, loop, inFor, empty, fuel);
    case PrintExpr(e) => k, q := SimShow(h, x, s0, e, l, brk, cont, loop, inFor, empty, fuel);
    case Return(o) => k, q := SimReturn(h, x, o, l, brk, cont, loop, inFor, empty, fuel);
    case For(a, b, c, body) => k, q := SimFor(h, x, a, b, c, body, l, brk, cont, loop, inFor, empty, fuel);
    case If(c, yes) => k, q := SimIf(h, x, c, yes, l, brk, cont, loop, inFor, empty, fuel);
    case IfElse(c, yes, no) => k, q := SimIfElse(h, x, c, yes, no, l, brk, cont, loop, inFor, empty, fuel);
    case While(c, body) => k, q := SimWhile(h, x, c, body, l, brk, cont, loop, inFor, empty, fuel);
    case Block(ss) => k, q := SimSs(h, x, ss, l, brk, cont, loop, inFor, empty, fuel);
    case _ => k, q := SimSimple(h, x, s0, l, brk, cont, loop, inFor, empty, fuel);
  }

  // Statements of one instruction.
  lemma SimSimple(h: Site, x: Spot, s0: Stmt, l: nat, brk: nat, cont: nat,
    loop: bool, inFor: bool, empty: bool, fuel: nat)
    returns (k: nat, q: nat)
    requires s0.Text? || s0.PrintText? || s0.Break? || s0.Continue? || s0.Halt?
    requires Ready(h, x, empty) && In(h, x.pc, CodeS(s0, l, brk, cont))
    requires WellS(h.P.C.A, h.bare, s0, loop, inFor, empty)
    ensures k >= x.n
    ensures Ended(h, k, q, x.pc + |CodeS(s0, l, brk, cont)|, x.st, brk, cont, loop, inFor,
                  EvalS(h.P.C, s0, x.s, h.cb, fuel), x.n + fuel)
  {
    hide At, Compiled, Find, Exec, Unwind, Run, Active;
    var code := CodeS(s0, l, brk, cont);
    AtItem(h.P, h.m.fn, x.pc, code, 0);
    k, q := x.n + 1, 0;
    match s0
    case Text(t) => OneText(h.P, h.m, x.n, x.pc, x.st, x.s, 'w', t);
    case PrintText(t) => OneText(h.P, h.m, x.n, x.pc, x.st, x.s, 'O', t);
    case Break => OneJump(h.P, h.m, x.n, x.pc, x.st, x.s, brk);
    case Continue => OneJump(h.P, h.m, x.n, x.pc, x.st, x.s, cont);
    case Halt => OneHalt<Outcome>(h.P, h.m, x.n, x.pc, x.st, x.s, x.n + fuel);
  }

  // The value is written, or dropped when it is that of an assignment.
  lemma {:induction false} SimShow(h: Site, x: Spot, s0: Stmt, e: Expr, l: nat, brk: nat, cont: nat,
    loop: bool, inFor: bool, empty: bool, fuel: nat)
    returns (k: nat, q: nat)
    requires s0 == Expression(e) || s0 == PrintExpr(e)
    requires Ready(h, x, empty) && In(h, x.pc, CodeS(s0, l, brk, cont))
    requires WellS(h.P.C.A, h.bare, s0, loop, inFor, empty)
    ensures k >= x.n
    ensures Ended(h, k, q, x.pc + |CodeS(s0, l, brk, cont)|, x.st, brk, cont, loop, inFor,
                  EvalS(h.P.C, s0, x.s, h.cb, fuel), x.n + fuel)
    decreases fuel, 1, s0, 0
  {
    hide At, Compiled, Gets, Ends, CodeE, EvalE, AttrOf, StoreVar, Put, WellE;
    var c := if s0.PrintExpr? then 'P' else if AttrOf(e).value then 'W' else 'p';
    var r := EvalE(h.P.C, e, x.s, h.cb, fuel);
    var pc := x.pc + |CodeE(e, l)|;
    At2(h.P, h.m.fn, x.pc, CodeE(e, l), [Plain(c)]);
    AtItem(h.P, h.m.fn, pc, [Plain(c)], 0);
    q := 0;
    k := SimE(h, x, empty, e, l, fuel);
    if !r.Ok? {
      EndsToo(h.P, h.m, k, r, x.n + fuel, EvalS(h.P.C, s0, x.s, h.cb, fuel), x.n + fuel);
    } else if c == 'p' {
      OnePop(h.P, h.m, k, pc, x.st, r.v, r.s);
      k := k + 1;
    } else {
      OneWrite(h.P, h.m, k, pc, x.st, r.v, r.s, c);
      k := k + 1;
    }
  }

  lemma {:induction false} SimReturn(h: Site, x: Spot, o: OptExpr, l: nat, brk: nat, cont: nat,
    loop: bool, inFor: bool, empty: bool, fuel: nat)
    returns (k: nat, q: nat)
    requires Ready(h, x, empty) && In(h, x.pc, CodeS(Return(o), l, brk, cont))
    requires WellS(h.P.C.A, h.bare, Return(o), loop, inFor, empty)
    ensures k >= x.n
    ensures Ended(h, k, q, x.pc + |CodeS(Return(o), l, brk, cont)|, x.st, brk, cont, loop, inFor,
                  EvalS(h.P.C, Return(o), x.s, h.cb, fuel), x.n + fuel)
    decreases fuel, 1, Return(o), 0
  {
    hide At, Compiled, Gets, Ends, CodeE, EvalE, WellN, WellEs;
    var z := if o.None? then [Plain('0')] else CodeE(o.e, l);
    At2(h.P, h.m.fn, x.pc, z, [Plain('R')]);
    AtItem(h.P, h.m.fn, x.pc + |z|, [Plain('R')], 0);
    q := x.pc + |z|;
    if o.None? {
      AtItem(h.P, h.m.fn, x.pc, [Plain('0')], 0);
      OneBit(h.P, h.m, x.n, x.pc, x.st, x.s, '0');
      k := x.n + 1;
    } else {
      k := SimE(h, x, empty, o.e, l, fuel);
      var r := EvalE(h.P.C, o.e, x.s, h.cb, fuel);
      if !r.Ok? { EndsToo(h.P, h.m, k, r, x.n + fuel, EvalS(h.P.C, Return(o), x.s, h.cb, fuel), x.n + fuel); }
    }
  }

  // A statement, and the way from its end to the label after the if.
  lemma {:induction false} SimBranch(h: Site, x: Spot, y: Spot, s0: Stmt, l: nat, brk: nat, cont: nat,
    loop: bool, inFor: bool, empty: bool, fuel: nat, to: nat, t: nat)
    returns (k: nat, q: nat)
    requires Ready(h, y, empty) && y.st == x.st && x.n <= y.n && In(h, y.pc, CodeS(s0, l, brk, cont))
    requires WellS(h.P.C.A, h.bare, s0, loop, inFor, empty) && Is(h.P, h.m.fn, to, Label(t))
    requires var e := y.pc + |CodeS(s0, l, brk, cont)|; e == to || Is(h.P, h.m.fn, e, Jump('J', t))
    ensures k >= x.n
    ensures Ended(h, k, q, to + 1, x.st, brk, cont, loop, inFor, EvalS(h.P.C, s0, y.s, h.cb, fuel), x.n + fuel)
    decreases fuel, 1, s0, 4
  {
    hide At, Compiled, Gets, Ends, EvalS, CodeS, Unique, Find, WellS, Is, ConstBaseOf;
    SegmentUnique(h.P, h.bare, h.m.fn);
    LabelIs(h.P, h.m.fn, to, t);
    k, q := SimS(h, y, s0, l, brk, cont, loop, inFor, empty, fuel);
    var r := EvalS(h.P.C, s0, y.s, h.cb, fuel);
    var e := y.pc + |CodeS(s0, l, brk, cont)|;
    if !r.Ok? {
      EndsToo(h.P, h.m, k, r, y.n + fuel, r, x.n + fuel);
    } else if r.v.Normal? {
      if e != to {
        OneJump(h.P, h.m, k, e, x.st, r.s, t);
        k := k + 1;
      }
      OneLabel(h.P, h.m, k, to, x.st, r.s, t);
      k := k + 1;
    }
  }

  lemma {:induction false} SimIf(h: Site, x: Spot, c: Expr, yes: Stmt, l: nat, brk: nat, cont: nat,
    loop: bool, inFor: bool, empty: bool, fuel: nat)
    returns (k: nat, q: nat)
    requires Ready(h, x, empty) && In(h, x.pc, CodeS(If(c, yes), l, brk, cont))
    requires WellS(h.P.C.A, h.bare, If(c, yes), loop, inFor, empty)
    ensures k >= x.n
    ensures Ended(h, k, q, x.pc + |CodeS(If(c, yes), l, brk, cont)|, x.st, brk, cont, loop, inFor,
                  EvalS(h.P.C, If(c, yes), x.s, h.cb, fuel), x.n + fuel)
    decreases fuel, 1, If(c, yes), 0
  {
    hide At, Compiled, Gets, Ends, CodeE, EvalE, Unique, Find, Is, CodeS, LabelsE, ConstBaseOf, WellE;
    var id := l + LabelsE(c);
    var pz := x.pc + |CodeE(c, l)| + 1 + |CodeS(yes, id + 1, brk, cont)|;
    IfAt(h.P, h.m.fn, x.pc, c, yes, l, brk, cont);
    SegmentUnique(h.P, h.bare, h.m.fn);
    LabelIs(h.P, h.m.fn, pz, id);
    var r := EvalE(h.P.C, c, x.s, h.cb, fuel);
    q := 0;
    k := SimE(h, x, empty, c, l, fuel);
    if !r.Ok? {
      EndsToo(h.P, h.m, k, r, x.n + fuel, EvalS(h.P.C, If(c, yes), x.s, h.cb, fuel), x.n + fuel);
    } else {
      var pc := x.pc + |CodeE(c, l)|;
      OneBranch(h.P, h.m, k, pc, x.st, r.v, r.s, 'Z', id);
      k := k + 1;
      if h.P.C.A.isZero(r.v) {
        OneLabel(h.P, h.m, k, pz, x.st, r.s, id);
        k := k + 1;
      } else {
        k, q := SimBranch(h, x, Spot(k, pc + 1, x.st, r.s), yes, id + 1, brk, cont, loop, inFor, empty, fuel, pz, id);
      }
    }
  }

  lemma {:induction false} SimIfElse(h: Site, x: Spot, c: Expr, yes: Stmt, no: Stmt, l: nat, brk: nat, cont: nat,
    loop: bool, inFor: bool, empty: bool, fuel: nat)
    returns (k: nat, q: nat)
    requires Ready(h, x, empty) && In(h, x.pc, CodeS(IfElse(c, yes, no), l, brk, cont))
    requires WellS(h.P.C.A, h.bare, IfElse(c, yes, no), loop, inFor, empty)
    ensures k >= x.n
    ensures Ended(h, k, q, x.pc + |CodeS(IfElse(c, yes, no), l, brk, cont)|, x.st, brk, cont, loop, inFor,
                  EvalS(h.P.C, IfElse(c, yes, no), x.s, h.cb, fuel), x.n + fuel)
    decreases fuel, 1, IfElse(c, yes, no), 0
  {
    hide At, Compiled, Gets, Ends, CodeE, EvalE, Unique, Find, Is, CodeS, LabelsE, LabelsS, ConstBaseOf, WellE;
    var id := l + LabelsE(c);
    var t := id + 1 + LabelsS(yes);
    var pc := x.pc + |CodeE(c, l)|;
    var pj := pc + 1 + |CodeS(yes, id + 1, brk, cont)|;
    var pt := pj + 2 + |CodeS(no, t + 1, brk, cont)|;
    IfElseAt(h.P, h.m.fn, x.pc, c, yes, no, l, brk, cont);
    SegmentUnique(h.P, h.bare, h.m.fn);
    LabelIs(h.P, h.m.fn, pj + 1, id);
    var r := EvalE(h.P.C, c, x.s, h.cb, fuel);
    q := 0;
    k := SimE(h, x, empty, c, l, fuel);
    if !r.Ok? {
      EndsToo(h.P, h.m, k, r, x.n + fuel, EvalS(h.P.C, IfElse(c, yes, no), x.s, h.cb, fuel), x.n + fuel);
    } else {
      OneBranch(h.P, h.m, k, pc, x.st, r.v, r.s, 'Z', id);
      k := k + 1;
      if h.P.C.A.isZero(r.v) {
        OneLabel(h.P, h.m, k, pj + 1, x.st, r.s, id);
        k, q := SimBranch(h, x, Spot(k + 1, pj + 2, x.st, r.s), no, t + 1, brk, cont, loop, inFor, empty, fuel, pt, t);
      } else {
        k, q := SimBranch(h, x, Spot(k, pc + 1, x.st, r.s), yes, id + 1, brk, cont, loop, inFor, empty, fuel, pt, t);
      }
    }
  }

  // ---- Loops ---------------------------------------------------------------------------

  // Rounds of a while, from its first label.  Each takes a step at least.
  lemma {:induction false} SimWhile(h: Site, x: Spot, c: Expr, body: Stmt, l: nat, brk: nat, cont: nat,
    loop: bool, inFor: bool, empty: bool, fuel: nat)
    returns (k: nat, q: nat)
    requires Ready(h, x, empty) && In(h, x.pc, CodeS(While(c, body), l, brk, cont))
    requires WellE(h.P.C.A, h.bare, c, empty) && WellS(h.P.C.A, h.bare, body, true, inFor, empty)
    ensures k >= x.n
    ensures Ended(h, k, q, x.pc + |CodeS(While(c, body), l, brk, cont)|, x.st, brk, cont, loop, inFor,
                  WhileLoop(h.P.C, c, body, x.s, h.cb, fuel), x.n + fuel)
    decreases fuel, 0
  {
    hide At, Compiled, Gets, Ends, CodeE, EvalE, EvalS, Unique, Find, WellS, WellE, Is, ConstBaseOf, CodeS, LabelsE;
    var id := l + 1 + LabelsE(c);
    var pc := x.pc + 1 + |CodeE(c, l + 1)|;
    var pj := pc + 1 + |CodeS(body, id + 1, id, cont)|;
    WhileAt(h.P, h.m.fn, x.pc, c, body, l, brk, cont);
    SegmentUnique(h.P, h.bare, h.m.fn);
    LabelIs(h.P, h.m.fn, pj + 1, id);
    q := 0;
    if fuel == 0 {
      GoesOn<Outcome>(h.P, h.m, x.n, x.pc, x.st, x.s, Label(l));
      k := x.n;
    } else {
      OneLabel(h.P, h.m, x.n, x.pc, x.st, x.s, l);
      k := SimE(h, Spot(x.n + 1, x.pc + 1, x.st, x.s), empty, c, l + 1, fuel - 1);
      var r := EvalE(h.P.C, c, x.s, h.cb, fuel - 1);
      if !r.Ok? {
        EndsToo(h.P, h.m, k, r, x.n + fuel, WhileLoop(h.P.C, c, body, x.s, h.cb, fuel), x.n + fuel);
      } else {
        OneBranch(h.P, h.m, k, pc, x.st, r.v, r.s, 'Z', id);
        k := k + 1;
        if h.P.C.A.isZero(r.v) {
          OneLabel(h.P, h.m, k, pj + 1, x.st, r.s, id);
          k := k + 1;
        } else {
          k, q := SimAgain(h, x, Spot(k, pc + 1, x.st, r.s), c, body, l, brk, cont, loop, inFor, empty, fuel - 1);
        }
      }
    }
  }

  // The body of a while and the rounds after it.
  function BodyAgain(C: Context, c: Expr, body: Stmt, s: Store, cb: ConstBase, fuel: nat): Result<Outcome>
  {
    match EvalS(C, body, s, cb, fuel)
    case Ok(Broken, s2) => Ok(Normal, s2)
    case Ok(Normal, s2) => WhileLoop(C, c, body, s2, cb, fuel)
    case r => r
  }

  lemma {:induction false} SimAgain(h: Site, x: Spot, y: Spot, c: Expr, body: Stmt, l: nat, brk: nat, cont: nat,
    loop: bool, inFor: bool, empty: bool, fuel: nat)
    returns (k: nat, q: nat)
    requires Ready(h, y, empty) && y.st == x.st && x.n + 1 <= y.n && In(h, x.pc, CodeS(While(c, body), l, brk, cont))
    requires y.pc == x.pc + 2 + |CodeE(c, l + 1)|
    requires WellE(h.P.C.A, h.bare, c, empty) && WellS(h.P.C.A, h.bare, body, true, inFor, empty)
    ensures k >= x.n
    ensures Ended(h, k, q, x.pc + |CodeS(While(c, body), l, brk, cont)|, x.st, brk, cont, loop, inFor,
                  BodyAgain(h.P.C, c, body, y.s, h.cb, fuel), x.n + fuel + 1)
    decreases fuel, 4
  {
    hide At, Compiled, Gets, Ends, CodeE, EvalS, Unique, Find, WellS, WellE, Is, ConstBaseOf, CodeS, LabelsE, WhileLoop;
    var id := l + 1 + LabelsE(c);
    var pj := y.pc + |CodeS(body, id + 1, id, cont)|;
    WhileAt(h.P, h.m.fn, x.pc, c, body, l, brk, cont);
    SegmentUnique(h.P, h.bare, h.m.fn);
    LabelIs(h.P, h.m.fn, x.pc, l);
    LabelIs(h.P, h.m.fn, pj + 1, id);
    k, q := SimS(h, y, body, id + 1, id, cont, true, inFor, empty, fuel);
    var r := EvalS(h.P.C, body, y.s, h.cb, fuel);
    if !r.Ok? {
      EndsToo(h.P, h.m, k, r, y.n + fuel, r, x.n + fuel + 1);
    } else if r.v.Broken? {
      OneLabel(h.P, h.m, k, pj + 1, x.st, r.s, id);
      k := k + 1;
    } else if r.v.Normal? {
      OneJump(h.P, h.m, k, pj, x.st, r.s, l);
      var z := Spot(k + 1, x.pc, x.st, r.s);
      k, q := SimWhile(h, z, c, body, l, brk, cont, loop, inFor, empty, fuel);
      var r3 := WhileLoop(h.P.C, c, body, r.s, h.cb, fuel);
      if !r3.Ok? { EndsToo(h.P, h.m, k, r3, z.n + fuel, r3, x.n + fuel + 1); }
    }
  }

  // ---- What the code of a for does ----------------------------------------------------------

  // The end of the rounds, and what is left of the operand stack; or there was no operand.
  datatype Rounds = Rounds(r: Result<Outcome>, left: seq<Num>) | NoOperand

  // The test takes an operand that somebody else has pushed when there is no condition.
  datatype Tested = Tested(r: Result<Num>, left: seq<Num>) | NothingThere

  function TestOf(C: Context, b: OptExpr, st: seq<Num>, s: Store, cb: ConstBase, fuel: nat): Tested
  {
    if b.Some? then Tested(EvalE(C, b.e, s, cb, fuel), st)
    else if st == [] then NothingThere
    else Tested(Ok(st[|st| - 1], s), st[..|st| - 1])
  }

  function ForRun(C: Context, b: OptExpr, c: OptExpr, body: Stmt, st: seq<Num>, s: Store, cb: ConstBase,
      fuel: nat): Rounds
    decreases fuel, 1
  {
    if fuel == 0 then Rounds(TimeOut, st)
    else
      match TestOf(C, b, st, s, cb, fuel - 1)
      case NothingThere => NoOperand
      case Tested(r, left) =>
        (match r
         case Ok(v, s1) => if C.A.isZero(v) then Rounds(Ok(Normal, s1), left)
           else BodyRun(C, b, c, body, left, s1, cb, fuel - 1)
         case Error(s1) => Rounds(Error(s1), left)
         case Halted(s1) => Rounds(Halted(s1), left)
         case TimeOut => Rounds(TimeOut, left))
  }

  // The body, the step, and the rounds after it.
  function BodyRun(C: Context, b: OptExpr, c: OptExpr, body: Stmt, st: seq<Num>, s: Store, cb: ConstBase,
      fuel: nat): Rounds
    decreases fuel, 3
  {
    match EvalS(C, body, s, cb, fuel)
    case Ok(Broken, s2) => Rounds(Ok(Normal, s2), st)
    case Ok(Returned(v), s2) => Rounds(Ok(Returned(v), s2), st)
    case Ok(_, s2) => StepRun(C, b, c, body, st, s2, cb, fuel)
    case r => Rounds(r, st)
  }

  function StepRun(C: Context, b: OptExpr, c: OptExpr, body: Stmt, st: seq<Num>, s: Store, cb: ConstBase,
      fuel: nat): Rounds
    decreases fuel, 2
  {
    match EvalO(C, c, s, cb, fuel)
    case Ok(_, s3) => ForRun(C, b, c, body, st, s3, cb, fuel)
    case Error(s3) => Rounds(Error(s3), st)
    case Halted(s3) => Rounds(Halted(s3), st)
    case TimeOut => Rounds(TimeOut, st)
  }

  // What follows a test that holds, in the meaning of the loop.
  function LoopAfter(C: Context, b: OptExpr, c: OptExpr, body: Stmt, s: Store, cb: ConstBase,
      fuel: nat): Result<Outcome>
  {
    match EvalS(C, body, s, cb, fuel)
    case Ok(Broken, s2) => Ok(Normal, s2)
    case Ok(Returned(r), s2) => Ok(Returned(r), s2)
    case Ok(_, s2) => LoopStep(C, b, c, body, s2, cb, fuel)
    case r => r
  }

  function LoopStep(C: Context, b: OptExpr, c: OptExpr, body: Stmt, s: Store, cb: ConstBase, fuel: nat): Result<Outcome>
  {
    match EvalO(C, c, s, cb, fuel)
    case Ok(_, s3) => ForLoop(C, b, c, body, s3, cb, fuel)
    case Error(s3) => Error(s3)
    case Halted(s3) => Halted(s3)
    case TimeOut => TimeOut
  }

  lemma LoopMeans(C: Context, b: Expr, c: OptExpr, body: Stmt, s: Store, cb: ConstBase, fuel: nat)
    requires fuel > 0
    ensures var r := EvalE(C, b, s, cb, fuel - 1);
            ForLoop(C, Some(b), c, body, s, cb, fuel)
            == if r.Ok? then
                 (if C.A.isZero(r.v) then Ok(Normal, r.s) else LoopAfter(C, Some(b), c, body, r.s, cb, fuel - 1))
               else if r.Error? then Error(r.s) else if r.Halted? then Halted(r.s) else TimeOut
  {
    hide EvalE, EvalS, EvalSs, EvalEs, EvalN, WhileLoop;
    assert EvalO(C, Some(b), s, cb, fuel - 1) == EvalE(C, b, s, cb, fuel - 1);
  }

  // With a condition, the rounds are those of the loop, and the stack stays.
  lemma {:induction false} RunIsLoop(C: Context, b: Expr, c: OptExpr, body: Stmt, st: seq<Num>, s: Store,
      cb: ConstBase, fuel: nat)
    ensures ForRun(C, Some(b), c, body, st, s, cb, fuel) == Rounds(ForLoop(C, Some(b), c, body, s, cb, fuel), st)
    decreases fuel, 0
  {
    hide EvalE, EvalS, EvalO, BodyRun, LoopAfter;
    if fuel > 0 {
      LoopMeans(C, b, c, body, s, cb, fuel);
      var r := EvalE(C, b, s, cb, fuel - 1);
      if r.Ok? { RoundIsLoop(C, b, c, body, st, r.s, cb, fuel - 1); }
    }
  }

  lemma {:induction false} RoundIsLoop(C: Context, b: Expr, c: OptExpr, body: Stmt, st: seq<Num>, s: Store,
      cb: ConstBase, fuel: nat)
    ensures BodyRun(C, Some(b), c, body, st, s, cb, fuel) == Rounds(LoopAfter(C, Some(b), c, body, s, cb, fuel), st)
    decreases fuel, 2
  {
    hide EvalE, EvalS, EvalO, StepRun, LoopStep;
    var r := EvalS(C, body, s, cb, fuel);
    if r.Ok? { StepIsLoop(C, b, c, body, st, r.s, cb, fuel); }
  }

  lemma {:induction false} StepIsLoop(C: Context, b: Expr, c: OptExpr, body: Stmt, st: seq<Num>, s: Store,
      cb: ConstBase, fuel: nat)
    ensures StepRun(C, Some(b), c, body, st, s, cb, fuel) == Rounds(LoopStep(C, Some(b), c, body, s, cb, fuel), st)
    decreases fuel, 1
  {
    hide EvalE, EvalS, EvalO, ForRun, ForLoop;
    var r := EvalO(C, c, s, cb, fuel);
    if r.Ok? { RunIsLoop(C, b, c, body, st, r.s, cb, fuel); }
  }

  // Without a condition every round takes an operand away.
  predicate Shorter(o: Rounds, n: int)
  {
    o.NoOperand? || |o.left| <= n
  }

  lemma {:induction false} RunShrinks(C: Context, c: OptExpr, body: Stmt, st: seq<Num>, s: Store, cb: ConstBase,
      fuel: nat)
    ensures Shorter(ForRun(C, None, c, body, st, s, cb, fuel), |st| - (if fuel > 0 then 1 else 0))
    decreases fuel, 0
  {
    hide EvalS, EvalO, BodyRun;
    if fuel > 0 && st != [] { RoundShrinks(C, c, body, st[..|st| - 1], s, cb, fuel - 1); }
  }

  lemma {:induction false} RoundShrinks(C: Context, c: OptExpr, body: Stmt, st: seq<Num>, s: Store, cb: ConstBase,
      fuel: nat)
    ensures Shorter(BodyRun(C, None, c, body, st, s, cb, fuel), |st|)
    decreases fuel, 1
  {
    hide EvalS, EvalO, ForRun;
    var r := EvalS(C, body, s, cb, fuel);
    if r.Ok? {
      var r3 := EvalO(C, c, r.s, cb, fuel);
      if r3.Ok? { RunShrinks(C, c, body, st, r3.s, cb, fuel); }
    }
  }

  // The machine has run so, up to the end of the statement at pc.
  ghost predicate Ran(h: Site, k: nat, q: nat, pc: nat, brk: nat, cont: nat, loop: bool, inFor: bool, o: Rounds,
      limit: nat)
  {
    match o
    case NoOperand => Run(h.P, h.m, k).status == Stuck
    case Rounds(r, left) => Ended(h, k, q, pc, left, brk, cont, loop, inFor, r, limit)
  }

  // The same with more room for the end.
  lemma RanToo(h: Site, k: nat, q: nat, pc: nat, brk: nat, cont: nat, loop: bool, inFor: bool, o: Rounds, limit: nat,
      limit': nat)
    requires Ran(h, k, q, pc, brk, cont, loop, inFor, o, limit) && limit' <= limit
    ensures Ran(h, k, q, pc, brk, cont, loop, inFor, o, limit')
  {
    hide Gets, Ends, Find, Is, Run;
    if o.Rounds? && !o.r.Ok? { EndsToo(h.P, h.m, k, o.r, limit, o.r, limit'); }
  }

  // Rounds of a for, from its test label at x.pc.
  lemma {:induction false} SimRounds(h: Site, x: Spot, b: OptExpr, c: OptExpr, body: Stmt, ls: ForLabels, brk: nat,
      cont: nat,
    loop: bool, inFor: bool, empty: bool, fuel: nat)
    returns (k: nat, q: nat)
    requires Ready(h, x, empty) && In(h, x.pc, ForRest(b, c, body, ls))
             && WellFor(h.P.C.A, h.bare, None, b, c, body, empty)
    ensures k >= x.n
    ensures Ran(h, k, q, x.pc + |ForRest(b, c, body, ls)|, brk, cont, loop, inFor,
                ForRun(h.P.C, b, c, body, x.st, x.s, h.cb, fuel), x.n + fuel)
    decreases fuel, 0
  {
    hide At, Compiled, Gets, Ends, CodeE, CodeO, EvalE, EvalS, Unique, Find, WellS, WellE, CodeS, StepCode, ForRest, Is,
      ConstBaseOf, BodyRun, Run;
    ForAt(h.P, h.m.fn, x.pc, b, c, body, ls);
    q := 0;
    if fuel == 0 {
      GoesOn<Outcome>(h.P, h.m, x.n, x.pc, x.st, x.s, Label(ls.test));
      k := x.n;
    } else {
      OneLabel(h.P, h.m, x.n, x.pc, x.st, x.s, ls.test);
      var y := Spot(x.n + 1, x.pc + 1, x.st, x.s);
      var p1 := x.pc + 1 + |CodeO(b, ls.cond)|;
      var t := TestOf(h.P.C, b, x.st, x.s, h.cb, fuel - 1);
      k := SimTest(h, x, y, b, ls, empty, fuel - 1);
      if t.Tested? {
        if !t.r.Ok? {
          EndsToo(h.P, h.m, k, t.r, x.n + fuel, ForRun(h.P.C, b, c, body, x.st, x.s, h.cb, fuel).r, x.n + fuel);
        } else if h.P.C.A.isZero(t.r.v) {
          SegmentUnique(h.P, h.bare, h.m.fn);
          k := LeaveFor(h.P, h.m, k, p1 + 1, t.left, t.r.s, ls.brk, x.pc + |ForRest(b, c, body, ls)| - 1);
        } else {
          k, q := SimRound(h, x, Spot(k, Find(Segment(h.P, h.m.fn), ls.body), t.left, t.r.s), b, c, body, ls, brk, cont,
                           loop, inFor, empty, fuel - 1);
        }
      }
    }
  }

  // The test and the branch after it.
  lemma {:induction false} SimTest(h: Site, x: Spot, y: Spot, b: OptExpr, ls: ForLabels, empty: bool, fuel: nat)
    returns (k: nat)
    requires Ready(h, y, empty) && y.n == x.n + 1 && In(h, y.pc, CodeO(b, ls.cond)) && WellO(h.P.C.A, h.bare, b, empty)
    requires Is(h.P, h.m.fn, y.pc + |CodeO(b, ls.cond)|, Jump('B', ls.body))
    ensures k > x.n
    ensures match TestOf(h.P.C, b, y.st, y.s, h.cb, fuel)
            case NothingThere => Run(h.P, h.m, k).status == Stuck
            case Tested(r, left) =>
              if r.Ok? then
                Gets(h.P, h.m, k, if h.P.C.A.isZero(r.v) then y.pc + |CodeO(b, ls.cond)| + 1
                  else Find(Segment(h.P, h.m.fn), ls.body), left, r.s)
              else Ends(h.P, h.m, k, r, x.n + fuel + 1)
    decreases fuel, 5
  {
    hide At, Compiled, Gets, Ends, CodeE, EvalE, Unique, Find, WellE, Is, ConstBaseOf, Run;
    k := y.n;
    if b.Some? {
      k := SimE(h, y, empty, b.e, ls.cond, fuel);
      var r := EvalE(h.P.C, b.e, y.s, h.cb, fuel);
      if r.Ok? {
        OneBranch(h.P, h.m, k, y.pc + |CodeO(b, ls.cond)|, y.st, r.v, r.s, 'B', ls.body);
        k := k + 1;
      }
    } else if y.st == [] {
      OneBranchNone(h.P, h.m, k, y.pc, y.s, ls.body);
      k := k + 1;
    } else {
      var n := |y.st| - 1;
      assert y.st == y.st[..n] + [y.st[n]];
      OneBranch(h.P, h.m, k, y.pc, y.st[..n], y.st[n], y.s, 'B', ls.body);
      k := k + 1;
    }
  }

  // A round from the label of the body at y.pc.
  lemma {:induction false} SimRound(h: Site, x: Spot, y: Spot, b: OptExpr, c: OptExpr, body: Stmt, ls: ForLabels,
      brk: nat, cont: nat,
    loop: bool, inFor: bool, empty: bool, fuel: nat)
    returns (k: nat, q: nat)
    requires Ready(h, y, empty) && x.n + 1 <= y.n && y.pc == Find(Segment(h.P, h.m.fn), ls.body)
    requires In(h, x.pc, ForRest(b, c, body, ls)) && WellFor(h.P.C.A, h.bare, None, b, c, body, empty)
    ensures k >= x.n
    ensures Ran(h, k, q, x.pc + |ForRest(b, c, body, ls)|, brk, cont, loop, inFor,
                BodyRun(h.P.C, b, c, body, y.st, y.s, h.cb, fuel), x.n + fuel + 1)
    decreases fuel, 4
  {
    hide At, Compiled, Gets, Ends, CodeO, EvalS, Unique, Find, WellS, WellO, CodeS, StepCode, ForRest, Is, ConstBaseOf,
      StepRun, Run;
    var p1 := x.pc + 1 + |CodeO(b, ls.cond)|;
    var p2 := p1 + 3 + |StepCode(c, ls.step)|;
    var p3 := p2 + 2 + |CodeS(body, ls.inner, ls.brk, ls.cont)|;
    ForAt(h.P, h.m.fn, x.pc, b, c, body, ls);
    SegmentUnique(h.P, h.bare, h.m.fn);
    LabelIs(h.P, h.m.fn, p2 + 1, ls.body);
    LabelIs(h.P, h.m.fn, p3 + 1, ls.brk);
    LabelIs(h.P, h.m.fn, p1 + 2, ls.cont);
    OneLabel(h.P, h.m, y.n, y.pc, y.st, y.s, ls.body);
    k, q := SimS(h, Spot(y.n + 1, p2 + 2, y.st, y.s), body, ls.inner, ls.brk, ls.cont, true, true, empty, fuel);
    var r := EvalS(h.P.C, body, y.s, h.cb, fuel);
    if !r.Ok? {
      EndsToo(h.P, h.m, k, r, y.n + 1 + fuel, r, x.n + fuel + 1);
    } else if r.v.Broken? {
      OneLabel(h.P, h.m, k, p3 + 1, y.st, r.s, ls.brk);
      k := k + 1;
    } else if !r.v.Returned? {
      if r.v.Normal? {
        OneJump(h.P, h.m, k, p3, y.st, r.s, ls.cont);
        k := k + 1;
      }
      OneLabel(h.P, h.m, k, p1 + 2, y.st, r.s, ls.cont);
      k, q := SimNext(h, x, Spot(k + 1, p1 + 3, y.st, r.s), b, c, body, ls, brk, cont, loop, inFor, empty, fuel);
    }
  }

  // The third expression, and the rounds after it.
  lemma {:induction false} SimNext(h: Site, x: Spot, y: Spot, b: OptExpr, c: OptExpr, body: Stmt, ls: ForLabels,
      brk: nat, cont: nat,
    loop: bool, inFor: bool, empty: bool, fuel: nat)
    returns (k: nat, q: nat)
    requires Ready(h, y, empty) && x.n + 1 <= y.n && y.pc == x.pc + 4 + |CodeO(b, ls.cond)|
    requires In(h, x.pc, ForRest(b, c, body, ls)) && WellFor(h.P.C.A, h.bare, None, b, c, body, empty)
    ensures k >= x.n
    ensures Ran(h, k, q, x.pc + |ForRest(b, c, body, ls)|, brk, cont, loop, inFor,
                StepRun(h.P.C, b, c, body, y.st, y.s, h.cb, fuel), x.n + fuel + 1)
    decreases fuel, 3
  {
    hide At, Compiled, Gets, Ends, CodeE, CodeO, EvalE, ForRun, ForRest, Find, WellS, WellE, Unique, Is, ConstBaseOf,
      CodeS, Run;
    ForAt(h.P, h.m.fn, x.pc, b, c, body, ls);
    SegmentUnique(h.P, h.bare, h.m.fn);
    LabelIs(h.P, h.m.fn, x.pc, ls.test);
    var pj := y.pc + |StepCode(c, ls.step)|;
    var r := EvalO(h.P.C, c, y.s, h.cb, fuel);
    q := 0;
    k := y.n;
    if c.Some? {
      At2(h.P, h.m.fn, y.pc, CodeE(c.e, ls.step), [Plain('p')]);
      AtItem(h.P, h.m.fn, y.pc + |CodeE(c.e, ls.step)|, [Plain('p')], 0);
      k := SimE(h, y, empty, c.e, ls.step, fuel);
      if r.Ok? {
        OnePop(h.P, h.m, k, y.pc + |CodeE(c.e, ls.step)|, y.st, r.v, r.s);
        k := k + 1;
      } else {
        EndsToo(h.P, h.m, k, r, y.n + fuel, StepRun(h.P.C, b, c, body, y.st, y.s, h.cb, fuel).r, x.n + fuel + 1);
      }
    }
    if r.Ok? {
      OneJump(h.P, h.m, k, pj, y.st, r.s, ls.test);
      var z := Spot(k + 1, x.pc, y.st, r.s);
      k, q := SimRounds(h, z, b, c, body, ls, brk, cont, loop, inFor, empty, fuel);
      RanToo(h, k, q, x.pc + |ForRest(b, c, body, ls)|, brk, cont, loop, inFor,
        ForRun(h.P.C, b, c, body, y.st, r.s, h.cb, fuel), z.n + fuel, x.n + fuel + 1);
    }
  }

  // The operand stack after the first expression and its pop.
  function HeadLeft(a: OptExpr, st: seq<Num>): seq<Num>
  {
    if a.Some? || st == [] then st else st[..|st| - 1]
  }

  // What the code of a whole for does.
  function ForDoes(C: Context, a: OptExpr, b: OptExpr, c: OptExpr, body: Stmt, st: seq<Num>, s: Store, cb: ConstBase,
      fuel: nat): Rounds
  {
    match EvalO(C, a, s, cb, fuel)
    case Ok(_, s1) => ForRun(C, b, c, body, HeadLeft(a, st), s1, cb, fuel)
    case Error(s1) => Rounds(Error(s1), st)
    case Halted(s1) => Rounds(Halted(s1), st)
    case TimeOut => Rounds(TimeOut, st)
  }

  lemma {:induction false} SimForAny(h: Site, x: Spot, a: OptExpr, b: OptExpr, c: OptExpr, body: Stmt, l: nat,
      brk: nat, cont: nat,
    loop: bool, inFor: bool, empty: bool, fuel: nat)
    returns (k: nat, q: nat)
    requires Ready(h, x, empty) && In(h, x.pc, CodeS(For(a, b, c, body), l, brk, cont))
    requires WellFor(h.P.C.A, h.bare, a, b, c, body, empty)
    ensures k >= x.n
    ensures Ran(h, k, q, x.pc + |CodeS(For(a, b, c, body), l, brk, cont)|, brk, cont, loop, inFor,
                ForDoes(h.P.C, a, b, c, body, x.st, x.s, h.cb, fuel), x.n + fuel)
    decreases fuel, 1, For(a, b, c, body), 0
  {
    hide At, Compiled, Gets, Ends, CodeE, CodeS, EvalE, ForRest, ForRun, WellE, WellS, Is, Unique, Run;
    var ls := LabelsOfFor(a, b, c, l);
    var z := CodeO(a, ls.first);
    ForSplit(a, b, c, body, l, brk, cont);
    At3(h.P, h.m.fn, x.pc, z, [Plain('p')], ForRest(b, c, body, ls));
    AtItem(h.P, h.m.fn, x.pc + |z|, [Plain('p')], 0);
    var r := EvalO(h.P.C, a, x.s, h.cb, fuel);
    q := 0;
    k := x.n;
    if a.Some? {
      k := SimE(h, x, empty, a.e, ls.first, fuel);
      if r.Ok? {
        OnePop(h.P, h.m, k, x.pc + |z|, x.st, r.v, r.s);
      } else {
        EndsToo(h.P, h.m, k, r, x.n + fuel, ForDoes(h.P.C, a, b, c, body, x.st, x.s, h.cb, fuel).r, x.n + fuel);
      }
    } else if x.st == [] {
      OnePopNone(h.P, h.m, k, x.pc, x.s);
    } else {
      var n := |x.st| - 1;
      assert x.st == x.st[..n] + [x.st[n]];
      OnePop(h.P, h.m, k, x.pc, x.st[..n], x.st[n], x.s);
    }
    if r.Ok? {
      var y := Spot(k + 1, x.pc + |z| + 1, HeadLeft(a, x.st), r.s);
      k, q := SimRounds(h, y, b, c, body, ls, brk, cont, loop, inFor, empty, fuel);
      RanToo(h, k, q, y.pc + |ForRest(b, c, body, ls)|, brk, cont, loop, inFor,
        ForRun(h.P.C, b, c, body, y.st, r.s, h.cb, fuel), y.n + fuel, x.n + fuel);
    }
  }

  // With a condition, and a first expression or an empty stack, that is the meaning.
  lemma ForDoesRight(C: Context, a: OptExpr, b: OptExpr, c: OptExpr, body: Stmt, st: seq<Num>, s: Store, cb: ConstBase,
      fuel: nat)
    requires b.Some? && (a.Some? || st == [])
    ensures ForDoes(C, a, b, c, body, st, s, cb, fuel) == Rounds(EvalS(C, For(a, b, c, body), s, cb, fuel), st)
  {
    hide EvalO, ForRun, ForLoop;
    var r := EvalO(C, a, s, cb, fuel);
    if r.Ok? { RunIsLoop(C, b.e, c, body, st, r.s, cb, fuel); }
  }

  lemma {:induction false} SimFor(h: Site, x: Spot, a: OptExpr, b: OptExpr, c: OptExpr, body: Stmt, l: nat, brk: nat,
      cont: nat,
    loop: bool, inFor: bool, empty: bool, fuel: nat)
    returns (k: nat, q: nat)
    requires Ready(h, x, empty) && In(h, x.pc, CodeS(For(a, b, c, body), l, brk, cont))
    requires WellS(h.P.C.A, h.bare, For(a, b, c, body), loop, inFor, empty)
    ensures k >= x.n
    ensures Ended(h, k, q, x.pc + |CodeS(For(a, b, c, body), l, brk, cont)|, x.st, brk, cont, loop, inFor,
                  EvalS(h.P.C, For(a, b, c, body), x.s, h.cb, fuel), x.n + fuel)
    decreases fuel, 1, For(a, b, c, body), 1
  {
    hide At, Compiled, Gets, Ends, CodeS, EvalS, ForDoes, WellFor, Find, Is;
    ForDoesRight(h.P.C, a, b, c, body, x.st, x.s, h.cb, fuel);
    k, q := SimForAny(h, x, a, b, c, body, l, brk, cont, loop, inFor, empty, fuel);
  }
}
