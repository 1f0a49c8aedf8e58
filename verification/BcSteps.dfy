// Runs of the byte code machine, piece by piece: code in place, single
// instructions on a stack whose top is known, and the ways in which a run ends.
module BcSteps {
  import opened BcSyntax
  import opened BcStore
  import opened BcEval
  import opened BcMachine
  import opened BcLabels

  // ---- Code in place -------------------------------------------------------------------

  ghost predicate At(P: Program, fn: nat, pc: nat, code: seq<Item>)
  {
    pc + |code| <= |Segment(P, fn)| && Segment(P, fn)[pc..pc + |code|] == code
  }

  // The item at pc.
  ghost predicate Is(P: Program, fn: nat, pc: nat, it: Item)
  {
    pc < |Segment(P, fn)| && Segment(P, fn)[pc] == it
  }

  lemma At2(P: Program, fn: nat, pc: nat, a: seq<Item>, b: seq<Item>)
    requires At(P, fn, pc, a + b)
    ensures At(P, fn, pc, a) && At(P, fn, pc + |a|, b)
  {
    var code, seg := a + b, Segment(P, fn);
    assert seg[pc..pc + |a|] == seg[pc..pc + |code|][..|a|] == code[..|a|] == a;
    assert seg[pc + |a|..pc + |a| + |b|] == seg[pc..pc + |code|][|a|..] == code[|a|..] == b;
  }

  lemma At3(P: Program, fn: nat, pc: nat, a: seq<Item>, b: seq<Item>, c: seq<Item>)
    requires At(P, fn, pc, a + b + c)
    ensures At(P, fn, pc, a) && At(P, fn, pc + |a|, b) && At(P, fn, pc + |a| + |b|, c)
  {
    hide At;
    At2(P, fn, pc, a + b, c);
    At2(P, fn, pc, a, b);
  }

  lemma At4(P: Program, fn: nat, pc: nat, a: seq<Item>, b: seq<Item>, c: seq<Item>, d: seq<Item>)
    requires At(P, fn, pc, a + b + c + d)
    ensures At(P, fn, pc, a) && At(P, fn, pc + |a|, b) && At(P, fn, pc + |a| + |b|, c)
            && At(P, fn, pc + |a| + |b| + |c|, d)
  {
    hide At;
    At2(P, fn, pc, a + b + c, d);
    At3(P, fn, pc, a, b, c);
  }

  lemma At5(P: Program, fn: nat, pc: nat, a: seq<Item>, b: seq<Item>, c: seq<Item>, d: seq<Item>, e: seq<Item>)
    requires At(P, fn, pc, a + b + c + d + e)
    ensures At(P, fn, pc, a) && At(P, fn, pc + |a|, b) && At(P, fn, pc + |a| + |b|, c)
    ensures At(P, fn, pc + |a| + |b| + |c|, d) && At(P, fn, pc + |a| + |b| + |c| + |d|, e)
  {
    hide At;
    At2(P, fn, pc, a + b + c + d, e);
    At4(P, fn, pc, a, b, c, d);
  }

  lemma AtItem(P: Program, fn: nat, pc: nat, code: seq<Item>, k: nat)
    requires At(P, fn, pc, code) && k < |code|
    ensures Is(P, fn, pc + k, code[k])
  {
    assert Segment(P, fn)[pc..pc + |code|][k] == code[k];
  }

  // Every item of a short piece.
  lemma AtItems(P: Program, fn: nat, pc: nat, code: seq<Item>)
    requires At(P, fn, pc, code)
    ensures forall k :: 0 <= k < |code| ==> Is(P, fn, pc + k, code[k])
  {
    forall k | 0 <= k < |code| ensures Is(P, fn, pc + k, code[k]) { AtItem(P, fn, pc, code, k); }
  }

  lemma LabelIs(P: Program, fn: nat, pc: nat, id: nat)
    requires Is(P, fn, pc, Label(id)) && Unique(Segment(P, fn))
    ensures Find(Segment(P, fn), id) == pc
  {
    FindIs(Segment(P, fn), pc, id);
  }

  // ---- The machine elsewhere in the same call --------------------------------------------

  function Go(m: Machine, pc: nat, st: seq<Num>, s: Store): Machine
  {
    m.(pc := pc, stack := st, s := s)
  }

  // The run from m, after n steps, is at pc with this stack and store.
  ghost predicate Gets(P: Program, m: Machine, n: nat, pc: nat, st: seq<Num>, s: Store)
  {
    Run(P, m, n) == Go(m, pc, st, s)
  }

  lemma OneStep(P: Program, m: Machine, n: nat, pc: nat, st: seq<Num>, s: Store, it: Item)
    requires m.status == Running && Gets(P, m, n, pc, st, s) && Is(P, m.fn, pc, it)
    ensures Run(P, m, n + 1) == Exec(P, Go(m, pc + 1, st, s), it)
  {
    hide Exec;
    var m1 := Go(m, pc, st, s);
    assert Step(P, m1) == Exec(P, Next(m1), it);
    assert Run(P, Step(P, m1), 0) == Step(P, m1);
    RunRun(P, m, n, 1);
  }

  lemma StackTop(st: seq<Num>, v: Num)
    ensures (st + [v])[|st + [v]| - 1] == v && (st + [v])[..|st + [v]| - 1] == st
  {
  }

  lemma StackTop2(st: seq<Num>, v: Num, w: Num)
    ensures var t := st + [v] + [w];
            t[|t| - 2] == v && t[|t| - 1] == w && t[..|t| - 1] == st + [v]
            && t[..|t| - 1][..|t| - 2] == st
  {
    StackTop(st + [v], w);
    StackTop(st, v);
  }

  lemma OneLabel(P: Program, m: Machine, n: nat, pc: nat, st: seq<Num>, s: Store, id: nat)
    requires m.status == Running && Gets(P, m, n, pc, st, s) && Is(P, m.fn, pc, Label(id))
    ensures Gets(P, m, n + 1, pc + 1, st, s)
  {
    OneStep(P, m, n, pc, st, s, Label(id));
  }

  lemma OneJump(P: Program, m: Machine, n: nat, pc: nat, st: seq<Num>, s: Store, id: nat)
    requires m.status == Running && Gets(P, m, n, pc, st, s) && Is(P, m.fn, pc, Jump('J', id))
    ensures Gets(P, m, n + 1, Find(Segment(P, m.fn), id), st, s)
  {
    OneStep(P, m, n, pc, st, s, Jump('J', id));
  }

  // B and Z
  lemma OneBranch(P: Program, m: Machine, n: nat, pc: nat, st: seq<Num>, v: Num, s: Store, c: char, id: nat)
    requires m.status == Running && Gets(P, m, n, pc, st + [v], s) && Is(P, m.fn, pc, Jump(c, id))
             && (c == 'B' || c == 'Z')
    ensures Gets(P, m, n + 1, if P.C.A.isZero(v) == (c == 'Z') then Find(Segment(P, m.fn), id) else pc + 1, st, s)
  {
    OneStep(P, m, n, pc, st + [v], s, Jump(c, id));
    StackTop(st, v);
  }

  lemma OnePop(P: Program, m: Machine, n: nat, pc: nat, st: seq<Num>, v: Num, s: Store)
    requires m.status == Running && Gets(P, m, n, pc, st + [v], s) && Is(P, m.fn, pc, Plain('p'))
    ensures Gets(P, m, n + 1, pc + 1, st, s)
  {
    hide ExecTop, ExecTwo, ExecReturn;
    OneStep(P, m, n, pc, st + [v], s, Plain('p'));
    StackTop(st, v);
  }

  lemma OneBit(P: Program, m: Machine, n: nat, pc: nat, st: seq<Num>, s: Store, c: char)
    requires m.status == Running && Gets(P, m, n, pc, st, s) && Is(P, m.fn, pc, Plain(c)) && (c == '0' || c == '1')
    ensures Gets(P, m, n + 1, pc + 1, st + [if c == '0' then P.C.A.zero else P.C.A.one], s)
  {
    hide ExecTop, ExecTwo, ExecReturn;
    OneStep(P, m, n, pc, st, s, Plain(c));
  }

  lemma OneNumber(P: Program, m: Machine, n: nat, pc: nat, st: seq<Num>, s: Store, text: string, cb: ConstBase)
    requires m.status == Running && Gets(P, m, n, pc, st, s) && cb == ConstBaseOf(m)
             && At(P, m.fn, pc, CodeE(Number(text), 0))
    ensures Gets(P, m, n + 1, pc + 1, st + [NumberValue(P.C.A, text, BaseOf(cb, s))], s)
  {
    AtItem(P, m.fn, pc, CodeE(Number(text), 0), 0);
    OneStep(P, m, n, pc, st, s, CodeE(Number(text), 0)[0]);
  }

  lemma OneDup(P: Program, m: Machine, n: nat, pc: nat, st: seq<Num>, v: Num, s: Store)
    requires m.status == Running && Gets(P, m, n, pc, st + [v], s) && Is(P, m.fn, pc, Plain('D'))
    ensures Gets(P, m, n + 1, pc + 1, st + [v] + [v], s)
  {
    hide ExecTwo, ExecReturn, StoreVar, Put;
    OneStep(P, m, n, pc, st + [v], s, Plain('D'));
    StackTop(st, v);
  }

  lemma OneSwap(P: Program, m: Machine, n: nat, pc: nat, st: seq<Num>, v: Num, w: Num, s: Store)
    requires m.status == Running && Gets(P, m, n, pc, st + [v] + [w], s) && Is(P, m.fn, pc, Plain('x'))
    ensures Gets(P, m, n + 1, pc + 1, st + [w] + [v], s)
  {
    hide ExecTop, ExecReturn;
    OneStep(P, m, n, pc, st + [v] + [w], s, Plain('x'));
    StackTop2(st, v, w);
  }

  // n and !
  lemma OneUnary(P: Program, m: Machine, n: nat, pc: nat, st: seq<Num>, v: Num, s: Store, c: char)
    requires m.status == Running && Gets(P, m, n, pc, st + [v], s) && Is(P, m.fn, pc, Plain(c))
             && (c == 'n' || c == '!')
    ensures Gets(P, m, n + 1, pc + 1, st + [if c == 'n' then P.C.A.negate(v) else Truth(P.C.A, P.C.A.isZero(v))], s)
  {
    hide ExecTwo, ExecReturn, StoreVar, Put;
    OneStep(P, m, n, pc, st + [v], s, Plain(c));
    StackTop(st, v);
  }

  // W and P
  lemma OneWrite(P: Program, m: Machine, n: nat, pc: nat, st: seq<Num>, v: Num, s: Store, c: char)
    requires m.status == Running && Gets(P, m, n, pc, st + [v], s) && Is(P, m.fn, pc, Plain(c))
             && (c == 'W' || c == 'P')
    ensures Gets(P, m, n + 1, pc + 1, st, StoreVar(P.C.A, Put(s, OutNum(v, s.obase, c == 'W')), 4, v))
  {
    hide ExecTwo, ExecReturn, Put, StoreVar;
    OneStep(P, m, n, pc, st + [v], s, Plain(c));
    StackTop(st, v);
  }

  lemma OneText(P: Program, m: Machine, n: nat, pc: nat, st: seq<Num>, s: Store, c: char, t: string)
    requires m.status == Running && Gets(P, m, n, pc, st, s) && Is(P, m.fn, pc, Str(c, t))
    ensures Gets(P, m, n + 1, pc + 1, st, Put(s, OutText(t, c == 'O')))
  {
    OneStep(P, m, n, pc, st, s, Str(c, t));
  }

  lemma OneCompare(P: Program, m: Machine, n: nat, pc: nat, st: seq<Num>, v: Num, w: Num, s: Store, c: RelOp)
    requires m.status == Running && Gets(P, m, n, pc, st + [v] + [w], s) && Is(P, m.fn, pc, Plain(c))
    ensures Gets(P, m, n + 1, pc + 1, st + [Truth(P.C.A, Holds(c, P.C.A.compare(v, w)))], s)
  {
    hide ExecTop, ExecReturn, Holds;
    OneStep(P, m, n, pc, st + [v] + [w], s, Plain(c));
    StackTop2(st, v, w);
  }

  // ---- How runs end ------------------------------------------------------------------

  // The run from m is over in the way of r, which is no normal end, or goes on
  // after as many steps as limit.
  ghost predicate Ends<T>(P: Program, m: Machine, n: nat, r: Result<T>, limit: nat)
  {
    var m' := Run(P, m, n);
    match r
    case Ok(_, _) => false
    case Error(s) => m'.status == Errored && |m'.frames| >= |m.frames|
                     && var u := Unwind(P, m', |m.frames|); u.fn == m.fn && u.frames == m.frames && u.s == s
    case Halted(s) => m'.status == Stopped && m'.s == s
    case TimeOut => n >= limit && Active(P, m')
  }

  // The same end, of another type.
  predicate SameEnd<T(==), U(==)>(r: Result<T>, r': Result<U>)
  {
    match r
    case Ok(_, _) => false
    case Error(s) => r' == Error(s)
    case Halted(s) => r' == Halted(s)
    case TimeOut => r' == TimeOut
  }

  lemma EndsToo<T, U>(P: Program, m: Machine, n: nat, r: Result<T>, limit: nat, r': Result<U>, limit': nat)
    requires Ends(P, m, n, r, limit) && SameEnd(r, r') && limit' <= limit
    ensures Ends(P, m, n, r', limit')
  {
    hide Unwind, Run, Active;
  }

  // The run has the value r, or ends as r.
  ghost predicate Yields(P: Program, m: Machine, n: nat, pc: nat, st: seq<Num>, r: Result<Num>, limit: nat)
  {
    match r
    case Ok(v, s) => Gets(P, m, n, pc, st + [v], s)
    case _ => Ends(P, m, n, r, limit)
  }

  ghost predicate YieldsAll(P: Program, m: Machine, n: nat, pc: nat, st: seq<Num>, vs: seq<Num>, r: Result<seq<Arg>>,
      limit: nat)
  {
    match r
    case Ok(_, s) => Gets(P, m, n, pc, st + vs, s)
    case _ => Ends(P, m, n, r, limit)
  }

  function Sub(x: Named, sub: Num): seq<Num>
  {
    if x.Simple? then [] else [sub]
  }

  ghost predicate YieldsSub(P: Program, m: Machine, n: nat, pc: nat, st: seq<Num>, x: Named, r: Result<Num>, limit: nat)
  {
    match r
    case Ok(v, s) => Gets(P, m, n, pc, st + Sub(x, v), s)
    case _ => Ends(P, m, n, r, limit)
  }

  lemma FailsNow<T>(P: Program, m: Machine, n: nat, m1: Machine, r: Result<T>, limit: nat)
    requires Run(P, m, n) == Fail(m1) && m1.frames == m.frames && m1.fn == m.fn && r == Error(m1.s)
    ensures Ends(P, m, n, r, limit)
  {
  }

  lemma OneHalt<T>(P: Program, m: Machine, n: nat, pc: nat, st: seq<Num>, s: Store, limit: nat)
    requires m.status == Running && Gets(P, m, n, pc, st, s) && Is(P, m.fn, pc, Plain('h'))
    ensures var r: Result<T> := Halted(s); Ends(P, m, n + 1, r, limit)
  {
    hide Unwind;
    OneStep(P, m, n, pc, st, s, Plain('h'));
  }

  // ---- Instructions that may fail ---------------------------------------------------------

  lemma TwoOfStack(A: Arith, m: Machine, st: seq<Num>, v: Num, w: Num, c: BinOp)
    requires m.stack == st + [v] + [w]
    ensures var r := A.binary(c, v, w, m.s.scale);
            ExecTwo(A, m, c) == if r.Nothing? then Fail(m) else m.(stack := st + [r.v])
  {
    StackTop2(st, v, w);
  }

  lemma OneBinary(P: Program, m: Machine, n: nat, pc: nat, st: seq<Num>, v: Num, w: Num, s: Store, c: BinOp, limit: nat)
    requires m.status == Running && Gets(P, m, n, pc, st + [v] + [w], s) && Is(P, m.fn, pc, Plain(c))
    ensures Yields(P, m, n + 1, pc + 1, st, OfMaybe(P.C.A.binary(c, v, w, s.scale), s), limit)
  {
    hide Unwind, ExecTop, ExecTwo, ExecReturn;
    var now := Go(m, pc + 1, st + [v] + [w], s);
    OneStep(P, m, n, pc, st + [v] + [w], s, Plain(c));
    TwoOfStack(P.C.A, now, st, v, w, c);
    if P.C.A.binary(c, v, w, s.scale).Nothing? {
      FailsNow(P, m, n + 1, now, OfMaybe(P.C.A.binary(c, v, w, s.scale), s), limit);
    }
  }

  lemma OneBuiltin(P: Program, m: Machine, n: nat, pc: nat, st: seq<Num>, v: Num, s: Store, c: char, limit: nat)
    requires m.status == Running && Gets(P, m, n, pc, st + [v], s) && Is(P, m.fn, pc, Builtin(c))
    ensures Yields(P, m, n + 1, pc + 1, st, OfMaybe(P.C.A.builtin(c, v, s.scale), s), limit)
  {
    hide Unwind;
    OneStep(P, m, n, pc, st + [v], s, Builtin(c));
    StackTop(st, v);
    if P.C.A.builtin(c, v, s.scale).Nothing? {
      FailsNow(P, m, n + 1, Go(m, pc + 1, st + [v], s), OfMaybe(P.C.A.builtin(c, v, s.scale), s), limit);
    }
  }

  // l and L
  lemma LoadOfStack(P: Program, m: Machine, st: seq<Num>, x: Named, sub: Num)
    requires m.stack == st + Sub(x, sub)
    ensures match Fetch(P.C.A, x, sub, m.s)
            case Ok(v, s) => Exec(P, m, LoadOf(x)) == m.(stack := st + [v], s := s)
            case r => r == Error(m.s) && Exec(P, m, LoadOf(x)) == Fail(m)
  {
    hide LoadVar, Subscript, Elem, Ensure;
    if x.Simple? { assert st + [] == st; } else { StackTop(st, sub); }
  }

  lemma OneLoad(P: Program, m: Machine, n: nat, pc: nat, st: seq<Num>, x: Named, sub: Num, s: Store, limit: nat)
    requires m.status == Running && Gets(P, m, n, pc, st + Sub(x, sub), s) && Is(P, m.fn, pc, LoadOf(x))
    ensures Yields(P, m, n + 1, pc + 1, st, Fetch(P.C.A, x, sub, s), limit)
  {
    hide Unwind, Exec, Fetch;
    var now := Go(m, pc + 1, st + Sub(x, sub), s);
    OneStep(P, m, n, pc, st + Sub(x, sub), s, LoadOf(x));
    LoadOfStack(P, now, st, x, sub);
    var r := Fetch(P.C.A, x, sub, s);
    if !r.Ok? { FailsNow(P, m, n + 1, now, r, limit); }
  }

  // The number of an array that is passed.
  lemma OneConst(P: Program, m: Machine, n: nat, pc: nat, st: seq<Num>, s: Store, text: string, cb: ConstBase)
    requires m.status == Running && Gets(P, m, n, pc, st, s) && cb == ConstBaseOf(m) && Is(P, m.fn, pc, Const(text))
    ensures Gets(P, m, n + 1, pc + 1, st + [P.C.A.constant(text, BaseOf(cb, s))], s)
  {
    OneStep(P, m, n, pc, st, s, Const(text));
  }

  // s and S
  lemma StoreOfStack(P: Program, m: Machine, st: seq<Num>, x: Named, sub: Num, v: Num)
    requires m.stack == st + Sub(x, sub) + [v]
    ensures match Keep(P.C.A, x, sub, v, m.s)
            case Ok(u, s) => Exec(P, m, StoreOf(x)) == m.(stack := st + [u], s := s)
            case r => r == Error(m.s) && Exec(P, m, StoreOf(x)) == Fail(m)
  {
    hide StoreVar, Subscript, SetElem;
    if x.Simple? {
      assert st + [] == st;
      StackTop(st, v);
    } else {
      StackTop2(st, sub, v);
    }
  }

  lemma OneStore(P: Program, m: Machine, n: nat, pc: nat, st: seq<Num>, x: Named, sub: Num, v: Num, s: Store,
      limit: nat)
    requires m.status == Running && Gets(P, m, n, pc, st + Sub(x, sub) + [v], s) && Is(P, m.fn, pc, StoreOf(x))
    ensures Yields(P, m, n + 1, pc + 1, st, Keep(P.C.A, x, sub, v, s), limit)
  {
    hide Unwind, Exec, Keep;
    var now := Go(m, pc + 1, st + Sub(x, sub) + [v], s);
    OneStep(P, m, n, pc, st + Sub(x, sub) + [v], s, StoreOf(x));
    StoreOfStack(P, now, st, x, sub, v);
    var r := Keep(P.C.A, x, sub, v, s);
    if !r.Ok? { FailsNow(P, m, n + 1, now, r, limit); }
  }

  // i, d, A and M: the subscript is consumed.
  lemma StepOfStack(P: Program, m: Machine, st: seq<Num>, x: Named, sub: Num, step: char)
    requires m.stack == st + Sub(x, sub)
    ensures match StepNamed(P.C.A, x, sub, step == '+', m.s)
            case Ok(_, s) => Exec(P, m, StepOf(step, x)) == m.(stack := st, s := s)
            case r => r == Error(m.s) && Exec(P, m, StepOf(step, x)) == Fail(m)
  {
    hide StepVar, Subscript, StepElem;
    if x.Simple? { assert st + [] == st; } else { StackTop(st, sub); }
  }

  lemma OneIncrement(P: Program, m: Machine, n: nat, pc: nat, st: seq<Num>, x: Named, sub: Num, step: char, s: Store,
      limit: nat)
    requires m.status == Running && Gets(P, m, n, pc, st + Sub(x, sub), s) && Is(P, m.fn, pc, StepOf(step, x))
    ensures match StepNamed(P.C.A, x, sub, step == '+', s)
            case Ok(_, s1) => Gets(P, m, n + 1, pc + 1, st, s1)
            case r => Ends(P, m, n + 1, r, limit)
  {
    hide Unwind, Exec, StepNamed;
    var now := Go(m, pc + 1, st + Sub(x, sub), s);
    OneStep(P, m, n, pc, st + Sub(x, sub), s, StepOf(step, x));
    StepOfStack(P, now, st, x, sub, step);
    var r := StepNamed(P.C.A, x, sub, step == '+', s);
    if !r.Ok? { FailsNow(P, m, n + 1, now, r, limit); }
  }

  // ---- Calls ---------------------------------------------------------------------------

  // The machine in the function that has just been called.
  function Called(m: Machine, pc: nat, st: seq<Num>, f: nat, b: Bound): Machine
  {
    Machine(f, 0, st, m.frames + [Frame(m.fn, pc, b.s.ibase)], b.s, m.status)
  }

  // The values that stand for the arguments, when an array is passed by its number.
  predicate Passes(A: Arith, kinds: seq<bool>, vs: seq<Num>, args: seq<Arg>)
  {
    |kinds| == |vs| == |args| && forall i :: 0 <= i < |kinds| ==> PassesOne(A, kinds[i], vs[i], args[i])
  }

  predicate PassesOne(A: Arith, kind: bool, v: Num, a: Arg)
  {
    if kind then a.Whole? && A.toLong(v) == a.arr else a == Single(v)
  }

  lemma {:induction false} ListAt<T>(xs: seq<T>, i: nat)
    requires i < |xs|
    ensures ListOf(xs)[|xs| - 1 - i] == xs[i]
  {
    if i < |xs| - 1 { ListAt(xs[..|xs| - 1], i); }
  }

  lemma PassesOn(A: Arith, kinds: seq<bool>, vs: seq<Num>, args: seq<Arg>)
    requires Passes(A, kinds, vs, args)
    ensures ArraysNamed(A, ListOf(kinds), vs) && ArgsOn(A, ListOf(kinds), vs) == args
  {
    var list := ListOf(kinds);
    forall i | 0 <= i < |vs| ensures list[|vs| - 1 - i] == kinds[i] && PassesOne(A, kinds[i], vs[i], args[i]) {
      ListAt(kinds, i);
    }
    forall i | 0 <= i < |vs| ensures ArgsOn(A, list, vs)[i] == args[i] {
      assert list[|vs| - 1 - i] == kinds[i] && PassesOne(A, kinds[i], vs[i], args[i]);
    }
  }

  lemma OneEnter(P: Program, m: Machine, n: nat, pc: nat, st: seq<Num>, f: nat, kinds: seq<bool>, vs: seq<Num>,
      s: Store)
    requires m.status == Running && Gets(P, m, n, pc, st + vs, s) && Is(P, m.fn, pc, Enter(f, kinds))
             && f in P.C.functions
    requires |kinds| == |vs| && ArraysNamed(P.C.A, kinds, vs)
    ensures var b := EnterFrame(P.C.A, s, P.C.functions[f], ArgsOn(P.C.A, kinds, vs));
            var m1 := Called(m, pc + 1, st, f, b);
            Run(P, m, n + 1) == if b.ok then m1 else Fail(m1)
  {
    hide EnterFrame, ArgsOn, ArraysNamed;
    OneStep(P, m, n, pc, st + vs, s, Enter(f, kinds));
    assert (st + vs)[|st|..] == vs && (st + vs)[..|st|] == st;
  }

  lemma NoFunction<T>(P: Program, m: Machine, n: nat, pc: nat, st: seq<Num>, f: nat, kinds: seq<bool>, s: Store,
      limit: nat)
    requires m.status == Running && Gets(P, m, n, pc, st, s) && Is(P, m.fn, pc, Enter(f, kinds)) && f !in P.C.functions
    ensures var r: Result<T> := Error(s); Ends(P, m, n + 1, r, limit)
  {
    hide Unwind;
    OneStep(P, m, n, pc, st, s, Enter(f, kinds));
    var r: Result<T> := Error(s);
    FailsNow(P, m, n + 1, Go(m, pc + 1, st, s), r, limit);
  }

  // Back from the function, with the stacks of its parameters and autos as before.
  lemma Back(P: Program, m: Machine, n: nat, pc: nat, st: seq<Num>, f: nat, b: Bound, k: nat, q: nat, v: Num, s: Store)
    requires m.status == Running && f in P.C.functions && f > 0
    requires Run(P, m, n) == Called(m, pc, st, f, b) && Gets(P, Called(m, pc, st, f, b), k, q, st + [v], s)
    requires Is(P, f, q, Plain('R'))
    ensures Gets(P, m, n + k + 1, pc, st + [v], LeaveFrame(s, P.C.functions[f]))
  {
    hide LeaveFrame;
    var m1 := Called(m, pc, st, f, b);
    OneStep(P, m1, k, q, st + [v], s, Plain('R'));
    assert m1.frames[..|m1.frames| - 1] == m.frames;
    RunRun(P, m, n, k + 1);
  }

  // An error or a halt inside the function.
  lemma EndsInside<T, U>(P: Program, m: Machine, n: nat, pc: nat, st: seq<Num>, f: nat, b: Bound, k: nat, r: Result<T>,
      r': Result<U>, limit: nat)
    requires f in P.C.functions && Run(P, m, n) == Called(m, pc, st, f, b)
    requires Ends(P, Called(m, pc, st, f, b), k, r, limit)
    requires r.Error? ==> r' == Error(LeaveFrame(r.s, P.C.functions[f]))
    requires r.Halted? ==> r' == Halted(r.s)
    requires r.TimeOut? ==> r' == TimeOut
    ensures Ends(P, m, n + k, r', n + limit)
  {
    hide LeaveFrame, Exec, Active, Unwind;
    var m1 := Called(m, pc, st, f, b);
    RunRun(P, m, n, k);
    if r.Error? {
      UnwindLess(P, Run(P, m1, k), |m1.frames|);
      assert m1.frames[..|m1.frames| - 1] == m.frames;
    }
  }

  // The wrong number of arguments.
  lemma EndsAtOnce<T>(P: Program, m: Machine, n: nat, pc: nat, st: seq<Num>, f: nat, b: Bound, limit: nat)
    requires f in P.C.functions && Run(P, m, n) == Fail(Called(m, pc, st, f, b))
    ensures var r: Result<T> := Error(LeaveFrame(b.s, P.C.functions[f])); Ends(P, m, n, r, limit)
  {
    hide LeaveFrame;
    var m1 := Called(m, pc, st, f, b);
    UnwindLess(P, Fail(m1), |m1.frames|);
    assert m1.frames[..|m1.frames| - 1] == m.frames;
  }
}
