// The compiler of bc is correct: the byte code of a program ends if and only if
// the program does, in the same way and with the same variables, arrays and output.
module BcCorrect {
  import opened BcSyntax
  import opened BcStore
  import opened BcEval
  import opened BcMachine
  import opened BcLabels
  import opened BcSteps
  import opened BcSimulation
  import opened BcBases

  // How a program ends.  A return in the main program is a run-time error.
  datatype How = Finished | RuntimeError | Exited

  datatype Ending = Ending(how: How, s: Store) | Never

  function EndingOf(r: Result<Outcome>): Ending
  {
    match r
    case Ok(Returned(_), s) => Ending(RuntimeError, s)
    case Ok(_, s) => Ending(Finished, s)
    case Error(s) => Ending(RuntimeError, s)
    case Halted(s) => Ending(Exited, s)
    case TimeOut => Never
  }

  // The program by its structure, with so many loop rounds and nested calls.
  function Meaning(C: Context, main: Stmts, s: Store, fuel: nat): Ending
  {
    EndingOf(EvalSs(C, main, s, Current, fuel))
  }

  // The byte code that is loaded for it, and its functions.
  function Load(C: Context, main: Stmts): Program
  {
    Program(AsRead(C), map f: nat | f in C.functions.Keys + {0} ::
                 if f == 0 then MainCode(main) else FunctionCode(C.functions[f]))
  }

  function Start(s: Store): Machine
  {
    Machine(0, 0, [], [], s, Running)
  }

  // What execute has done when its loop is over: it cleans up the variables of the
  // functions that an error has interrupted.
  function EndOfRun(P: Program, m: Machine): Ending
  {
    if Active(P, m) then Never
    else
      match m.status
      case Running => Ending(Finished, m.s)
      case Errored => Ending(RuntimeError, Unwind(P, m, 0).s)
      case _ => Ending(Exited, m.s)
  }

  // What the grammar and the parser guarantee of a program, and two things more: a for
  // has a condition; and it has a first expression too, except where the operand stack
  // is empty, as it is in the main program and in the functions of bare.
  ghost predicate Supported(C: Context, main: Stmts, bare: set<nat>)
  {
    0 !in C.functions && WellSs(C.A, bare, main, false, false, true)
    && forall f :: f in C.functions ==> WellSs(C.A, bare, C.functions[f].body, false, false, f in bare)
  }

  // The arrays that are passed are the ones that are named: as the program is read they
  // are what they are; as it is meant, they have one digit, or the base is ten from the
  // beginning and never stored to.
  ghost predicate ArraysClear(C: Context, main: Stmts, s: Store)
  {
    C.meant ==> PlainProgram(C, main, false) || (s.ibase == 10 && PlainProgram(C, main, true))
  }

  ghost predicate PlainProgram(C: Context, main: Stmts, ten: bool)
  {
    PlainSs(main, ten) && PlainFunctions(C, ten)
  }

  lemma MeansTheSame(C: Context, main: Stmts, s: Store, fuel: nat)
    requires ArraysClear(C, main, s)
    ensures Meaning(AsRead(C), main, s, fuel) == Meaning(C, main, s, fuel)
  {
    hide EvalSs, PlainSs, PlainFunctions;
    if C.meant { SameSs(C, main, s, Current, fuel, !PlainProgram(C, main, false)); } else { assert AsRead(C) == C; }
  }

  lemma LoadCompiled(C: Context, main: Stmts, bare: set<nat>)
    requires Supported(C, main, bare)
    ensures Compiled(Load(C, main), bare) && Segment(Load(C, main), 0) == MainCode(main)
  {
    hide MainCode, FunctionCode, Unique, WellSs;
    var P := Load(C, main);
    assert 0 in P.code;
    forall fn: nat ensures Unique(Segment(P, fn)) {
      if fn in C.functions {
        assert Segment(P, fn) == FunctionCode(C.functions[fn]);
        UniqueCode(main, C.functions[fn]);
      } else if fn == 0 {
        UniqueCode(main, Function([], [], NoStmts));
      } else {
        NoLabels();
      }
    }
  }

  lemma NoLabels()
    ensures Unique([])
  {
  }

  // How a run of the main code is over, or why it is not.
  ghost predicate MainRan(P: Program, m: Machine, e: Ending, k: nat, fuel: nat)
  {
    m.status != Stuck
    && if e.Never? then k >= fuel && Active(P, m)
       else EndOfRun(P, m) == e && (e.how.Finished? ==> m.stack == [] && m.frames == [])
  }

  lemma MainEnds(h: Site, s: Store, k: nat, q: nat, r: Result<Outcome>, fuel: nat)
    requires h.m == Start(s) && !(r.Ok? && r.v.Returned?)
    requires Ended(h, k, q, |Segment(h.P, 0)|, [], 0, 0, false, false, r, fuel)
    ensures MainRan(h.P, Run(h.P, Start(s), k), EndingOf(r), k, fuel)
  {
    hide Run;
  }

  lemma MainReturns(h: Site, s: Store, k: nat, q: nat, r: Result<Outcome>, fuel: nat)
    requires h.m == Start(s) && r.Ok? && r.v.Returned?
    requires Ended(h, k, q, |Segment(h.P, 0)|, [], 0, 0, false, false, r, fuel)
    ensures MainRan(h.P, Run(h.P, Start(s), k + 1), EndingOf(r), k + 1, fuel)
  {
    hide Run, Exec, Step;
    OneStep(h.P, Start(s), k, q, [] + [r.v.v], r.s, Plain('R'));
    ReturnFails(h.P, Go(Start(s), q + 1, [] + [r.v.v], r.s));
  }

  // The whole run of the main code.
  lemma {:induction false} SimMain(C: Context, main: Stmts, bare: set<nat>, s: Store, fuel: nat) returns (k: nat)
    requires Supported(C, main, bare) && ArraysClear(C, main, s)
    ensures var P := Load(C, main); MainRan(P, Run(P, Start(s), k), Meaning(C, main, s, fuel), k, fuel)
  {
    hide MainCode, Compiled, Unique, WellSs, Exec, Step, EvalSs, Run, MainRan, ArraysClear;
    var P := Load(C, main);
    var code := MainCode(main);
    LoadCompiled(C, main, bare);
    assert Segment(P, 0)[0..|code|] == code;
    MainAt(main);
    StartsThere(P, s);
    var q: nat;
    var h := Site(P, bare, Start(s), Current);
    k, q := SimSs(h, Spot(0, 0, [], s), main, 1, 0, 0, false, false, true, fuel);
    var r := EvalSs(AsRead(C), main, s, Current, fuel);
    MeansTheSame(C, main, s, fuel);
    if r.Ok? && r.v.Returned? {
      MainReturns(h, s, k, q, r, fuel);
      k := k + 1;
    } else {
      MainEnds(h, s, k, q, r, fuel);
    }
  }

  lemma StartsThere(P: Program, s: Store)
    ensures Gets(P, Start(s), 0, 0, [], s)
  {
  }

  lemma ReturnFails(P: Program, m: Machine)
    requires m.fn == 0 && m.frames == []
    ensures Exec(P, m, Plain('R')) == Fail(m) && Unwind(P, Fail(m), 0).s == m.s
  {
  }

  lemma MainAt(main: Stmts)
    ensures MainCode(main) == CodeSs(main, 1, 0, 0)
  {
  }

  // A run that is over stays so.
  lemma {:induction false} OverStays(P: Program, m: Machine, n: nat, k: nat)
    requires !Active(P, Run(P, m, n)) && k >= n
    ensures Run(P, m, k) == Run(P, m, n)
  {
    hide Exec, Step;
    RunRun(P, m, n, k - n);
    RunIdle(P, Run(P, m, n), k - n);
  }

  // If the program ends, its byte code ends in the same way.
  lemma {:induction false} CodeEndsAsProgram(C: Context, main: Stmts, bare: set<nat>, s: Store, fuel: nat)
    returns (k: nat)
    requires Supported(C, main, bare) && ArraysClear(C, main, s) && !Meaning(C, main, s, fuel).Never?
    ensures EndOfRun(Load(C, main), Run(Load(C, main), Start(s), k)) == Meaning(C, main, s, fuel)
  {
    hide Run, Unwind, Active, EvalSs, WellSs;
    k := SimMain(C, main, bare, s, fuel);
  }

  // If the byte code ends, the program ends in the same way; the code never works on
  // an empty operand stack, and leaves the stack empty.
  lemma {:induction false} ProgramEndsAsCode(C: Context, main: Stmts, bare: set<nat>, s: Store, n: nat)
    requires Supported(C, main, bare) && ArraysClear(C, main, s)
             && !EndOfRun(Load(C, main), Run(Load(C, main), Start(s), n)).Never?
    ensures var m := Run(Load(C, main), Start(s), n);
            m.status != Stuck && Meaning(C, main, s, n) == EndOfRun(Load(C, main), m)
            && (m.status == Running ==> m.stack == [] && m.frames == [])
  {
    hide Unwind, Active, EvalSs, WellSs, Exec, Step, MainCode, FunctionCode;
    var P := Load(C, main);
    var k := SimMain(C, main, bare, s, n);
    if k >= n {
      OverStays(P, Start(s), n, k);
    } else {
      OverStays(P, Start(s), k, n);
    }
  }

  // More fuel changes nothing once the program ends.
  lemma {:induction false} MeaningIsOne(C: Context, main: Stmts, bare: set<nat>, s: Store, a: nat, b: nat)
    requires Supported(C, main, bare) && ArraysClear(C, main, s) && !Meaning(C, main, s, a).Never?
             && !Meaning(C, main, s, b).Never?
    ensures Meaning(C, main, s, a) == Meaning(C, main, s, b)
  {
    hide Unwind, Active, EvalSs, WellSs, Exec, Step, MainCode, FunctionCode;
    var P := Load(C, main);
    var i := SimMain(C, main, bare, s, a);
    var j := SimMain(C, main, bare, s, b);
    if i <= j { OverStays(P, Start(s), i, j); } else { OverStays(P, Start(s), j, i); }
  }

  // ---- A for without its first expression or its condition --------------------------------

  // The actions test the missing expressions by the sign of their value, which is 16,
  // so that a pop is generated after a missing first expression, and nothing for a
  // missing condition.  For a statement that is reached and ends: the machine does
  // what ForDoes says, and this is its meaning, with the operand stack as before, if
  // and only if there is a condition, and a first expression or nothing on the stack.
  lemma {:induction false} ForExactly(h: Site, x: Spot, a: OptExpr, b: OptExpr, c: OptExpr, body: Stmt,
    l: nat, brk: nat, cont: nat, loop: bool, inFor: bool, fuel: nat)
    returns (k: nat, q: nat)
    requires Ready(h, x, x.st == []) && In(h, x.pc, CodeS(For(a, b, c, body), l, brk, cont))
    requires WellFor(h.P.C.A, h.bare, a, b, c, body, x.st == [])
             && EvalS(h.P.C, For(a, b, c, body), x.s, h.cb, fuel).Ok?
    ensures k >= x.n
    ensures Ran(h, k, q, x.pc + |CodeS(For(a, b, c, body), l, brk, cont)|, brk, cont, loop, inFor,
                ForDoes(h.P.C, a, b, c, body, x.st, x.s, h.cb, fuel), x.n + fuel)
    ensures ForDoes(h.P.C, a, b, c, body, x.st, x.s, h.cb, fuel)
            == Rounds(EvalS(h.P.C, For(a, b, c, body), x.s, h.cb, fuel), x.st)
            <==> b.Some? && (a.Some? || x.st == [])
  {
    hide Ready, Ran, ForDoes, EvalS, CodeS, WellFor;
    k, q := SimForAny(h, x, a, b, c, body, l, brk, cont, loop, inFor, x.st == [], fuel);
    if b.Some? && (a.Some? || x.st == []) {
      ForDoesRight(h.P.C, a, b, c, body, x.st, x.s, h.cb, fuel);
    } else {
      ForDoesWrong(h.P.C, a, b, c, body, x.st, x.s, h.cb, fuel);
    }
  }

  lemma ForDoesWrong(C: Context, a: OptExpr, b: OptExpr, c: OptExpr, body: Stmt, st: seq<Num>, s: Store, cb: ConstBase,
      fuel: nat)
    requires EvalS(C, For(a, b, c, body), s, cb, fuel).Ok? && !(b.Some? && (a.Some? || st == []))
    ensures ForDoes(C, a, b, c, body, st, s, cb, fuel) != Rounds(EvalS(C, For(a, b, c, body), s, cb, fuel), st)
  {
    hide EvalO, ForRun;
    var r := EvalO(C, a, s, cb, fuel);
    var left := HeadLeft(a, st);
    assert fuel > 0 by { LoopTakesFuel(C, a, b, c, body, s, cb, fuel); }
    if b.None? {
      RunShrinks(C, c, body, left, r.s, cb, fuel);
    } else {
      RunIsLoop(C, b.e, c, body, left, r.s, cb, fuel);
    }
  }

  lemma LoopTakesFuel(C: Context, a: OptExpr, b: OptExpr, c: OptExpr, body: Stmt, s: Store, cb: ConstBase, fuel: nat)
    requires EvalS(C, For(a, b, c, body), s, cb, fuel).Ok?
    ensures fuel > 0 && EvalO(C, a, s, cb, fuel).Ok?
  {
    hide EvalO;
  }

  // So for (;;) break; fails, though its meaning is to do nothing.
  lemma {:induction false} EndlessForFails(C: Context, s: Store, fuel: nat)
    requires fuel > 0 && 0 !in C.functions && !C.A.isZero(C.A.one)
    ensures var main := MoreStmts(For(None, None, None, Break), NoStmts);
            Meaning(C, main, s, fuel) == Ending(Finished, s) && Run(Load(C, main), Start(s), 3).status == Stuck
  {
    var body := For(None, None, None, Break);
    var main := MoreStmts(body, NoStmts);
    EndlessMeans(C, s, fuel);
    EndlessGetsStuck(C, s);
  }

  lemma EndlessMeans(C: Context, s: Store, fuel: nat)
    requires fuel > 0 && !C.A.isZero(C.A.one)
    ensures EvalSs(C, MoreStmts(For(None, None, None, Break), NoStmts), s, Current, fuel) == Ok(Normal, s)
  {
    var loop := For(None, None, None, Break);
    assert EvalS(C, Break, s, Current, fuel - 1) == Ok(Broken, s);
    assert EvalO(C, None, s, Current, fuel - 1) == Ok(C.A.one, s);
    assert ForLoop(C, None, None, Break, s, Current, fuel) == Ok(Normal, s);
    assert EvalO(C, None, s, Current, fuel) == Ok(C.A.one, s);
    assert EvalS(C, loop, s, Current, fuel) == Ok(Normal, s);
    assert EvalSs(C, NoStmts, s, Current, fuel) == Ok(Normal, s);
    assert EvalSs(C, MoreStmts(loop, NoStmts), s, Current, fuel) == Ok(Normal, s);
  }

  lemma EndlessCode()
    ensures var code := MainCode(MoreStmts(For(None, None, None, Break), NoStmts));
            |code| > 3 && code[0] == Plain('p') && code[1] == Label(2) && code[2] == Jump('B', 3)
  {
  }

  lemma {:induction false} EndlessGetsStuck(C: Context, s: Store)
    ensures Run(Load(C, MoreStmts(For(None, None, None, Break), NoStmts)), Start(s), 3).status == Stuck
  {
    hide MainCode;
    var main := MoreStmts(For(None, None, None, Break), NoStmts);
    var P := Load(C, main);
    EndlessCode();
    assert Segment(P, 0) == MainCode(main);
    var m0 := Start(s);
    OneStep(P, m0, 0, 0, [], s, Plain('p'));
    OneLabel(P, m0, 1, 1, [], s, 2);
    OneStep(P, m0, 2, 2, [], s, Jump('B', 3));
  }

  // ---- Arrays that are passed ---------------------------------------------------------------

  // An array is passed by its decimal number, which is read like any constant, in the
  // base of the moment: the call gets this array if and only if the number has one digit
  // or the base is ten.
  lemma ArrayReached(A: Arith, arr: nat, base: int)
    requires Addressed(A, arr) && 2 <= base <= 16
    ensures var v := A.constant(Decimal(arr), base);
            ArraysNamed(A, [true], [v]) && (ArgsOn(A, [true], [v]) == [Whole(arr)] <==> arr < 10 || base == 10)
  {
    hide ReadIn, Decimal;
    var v := A.constant(Decimal(arr), base);
    assert ReadsBack(A, arr, base);
    assert [true][1 - 1 - 0] == true;
    assert ArgsOn(A, [true], [v])[0] == ArgOn(A, [true], [v], 0);
    ReadExactly(arr, base);
  }

  // In base sixteen the tenth array stands for the sixteenth, in base two for the second.
  lemma TenthArray(A: Arith)
    requires Addressed(A, 10)
    ensures A.toLong(A.constant(Decimal(10), 16)) == 16 && A.toLong(A.constant(Decimal(10), 2)) == 2
  {
    hide DigitsIn, ReadIn;
    assert Decimal(10) == "10";
    assert ReadsBack(A, 10, 16) && ReadsBack(A, 10, 2);
    TenRead(16);
    TenRead(2);
  }

  lemma TenRead(base: int)
    requires 2 <= base <= 16
    ensures ReadIn("10", base) == base
  {
    assert "10"[..1] == "1";
    assert DigitsIn("1", base) == 1;
  }
}
