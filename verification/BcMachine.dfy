// The byte code machine of bc (execute.c), over the items of the code; labels
// are passed over.
module BcMachine {
  import opened Maybes
  import opened BcSyntax
  import opened BcStore
  import opened BcEval

  // A run goes on until the end of the code or a run-time error.  Stuck stands for
  // an access through a null pointer: the operand stack is empty.
  datatype Status = Running | Errored | Stopped | Stuck

  // What a call saves: where to go on, and the input base.
  datatype Frame = Frame(fn: nat, pc: nat, ibase: int)

  datatype Machine = Machine(fn: nat, pc: nat, stack: seq<Num>, frames: seq<Frame>, s: Store, status: Status)

  // The loaded program: segment 0 is the main code.
  datatype Program = Program(C: Context, code: map<nat, seq<Item>>)

  function Segment(P: Program, fn: nat): seq<Item>
  {
    if fn in P.code then P.code[fn] else []
  }

  // Where a label is.
  function Find(code: seq<Item>, id: nat): (k: nat)
    ensures k <= |code|
  {
    if code == [] then 0
    else if code[0] == Label(id) then 0
    else 1 + Find(code[1..], id)
  }

  predicate Active(P: Program, m: Machine)
  {
    m.status == Running && m.pc < |Segment(P, m.fn)|
  }

  function Next(m: Machine): Machine
  {
    m.(pc := m.pc + 1)
  }

  function Push(m: Machine, v: Num): Machine
  {
    m.(stack := m.stack + [v])
  }

  function Pop(m: Machine): Machine
  {
    m.(stack := if m.stack == [] then [] else m.stack[..|m.stack| - 1])
  }

  function TopOf(m: Machine): Num
    requires m.stack != []
  {
    m.stack[|m.stack| - 1]
  }

  function Fail(m: Machine): Machine
  {
    m.(status := Errored)
  }

  // Replace the top of the stack, or fail.
  function SetTopTo(m: Machine, r: Maybe<Num>): Machine
  {
    match r case Nothing => Fail(m) case Just(v) => Push(Pop(m), v)
  }

  function ConstBaseOf(m: Machine): ConstBase
  {
    if m.fn == 0 || m.frames == [] then Current else Saved(m.frames[|m.frames| - 1].ibase)
  }

  // R: a function gives back its frame.
  function ExecReturn(P: Program, m: Machine): Machine
  {
    if m.fn == 0 then Fail(m)
    else if m.frames == [] || m.fn !in P.C.functions then m.(status := Stuck)
    else
      var f := m.frames[|m.frames| - 1];
      m.(fn := f.fn, pc := f.pc, frames := m.frames[..|m.frames| - 1], s := LeaveFrame(m.s, P.C.functions[m.fn]))
  }

  // Instructions on the value on top of the stack.
  function ExecTop(A: Arith, m: Machine, c: char): Machine
    requires m.stack != []
  {
    var v := TopOf(m);
    if c == 'D' then Push(m, v)
    else if c == 'n' then Push(Pop(m), A.negate(v))
    else if c == '!' then Push(Pop(m), Truth(A, A.isZero(v)))
    else Pop(m.(s := StoreVar(A, Put(m.s, OutNum(v, m.s.obase, c == 'W')), 4, v)))
  }

  // Instructions on two values.
  function ExecTwo(A: Arith, m: Machine, c: char): Machine
    requires |m.stack| >= 2
  {
    var x, y := m.stack[|m.stack| - 2], TopOf(m);
    if IsComparison(c) then Push(Pop(Pop(m)), Truth(A, Holds(c, A.compare(x, y))))
    else if IsArithmetic(c) then SetTopTo(if A.binary(c, x, y, m.s.scale).Just? then Pop(m)
      else m, A.binary(c, x, y, m.s.scale))
    else if c == 'x' then Push(Push(Pop(Pop(m)), y), x)
    else Fail(m)
  }

  predicate IsUnary(c: char)
  {
    c == 'D' || c == 'n' || c == '!' || c == 'W' || c == 'P'
  }

  function ExecPlain(P: Program, m: Machine, c: char): Machine
  {
    if c == '0' then Push(m, P.C.A.zero)
    else if c == '1' then Push(m, P.C.A.one)
    else if c == 'p' then Pop(m)
    else if c == 'h' then m.(status := Stopped)
    else if c == 'R' then ExecReturn(P, m)
    else if IsUnary(c) then (if m.stack == [] then m.(status := Stuck) else ExecTop(P.C.A, m, c))
    else if |m.stack| < 2 then Fail(m)
    else ExecTwo(P.C.A, m, c)
  }

  function ExecOnVar(P: Program, m: Machine, c: char, x: nat): Machine
  {
    var A := P.C.A;
    if c == 'l' then Push(m, LoadVar(A, m.s, x))
    else if c == 'i' || c == 'd' then m.(s := StepVar(A, m.s, x, c == 'i'))
    else if c == 's' then (if m.stack == [] then m.(status := Stuck) else m.(s := StoreVar(A, m.s, x, TopOf(m))))
    else if c == 'S' then
      if |m.stack| < 2 then Fail(m)
      else
        match Subscript(A, m.stack[|m.stack| - 2])
        case Nothing => Fail(m)
        case Just(i) => Push(Pop(Pop(m)), TopOf(m)).(s := SetElem(m.s, x, i, TopOf(m)))
    else if m.stack == [] then Fail(m)
    else
      match Subscript(A, TopOf(m))
      case Nothing => Fail(m)
      case Just(i) =>
        if c == 'L' then Push(Pop(m), Elem(A, m.s, x, i)).(s := Ensure(m.s, x))
        else Pop(m).(s := StepElem(A, m.s, x, i, c == 'A'))
  }

  // B, Z and J
  function ExecJump(P: Program, m: Machine, c: char, id: nat): Machine
  {
    var to := m.(pc := Find(Segment(P, m.fn), id));
    if c == 'J' then to
    else if m.stack == [] then m.(status := Stuck)
    else
      var zero := P.C.A.isZero(TopOf(m));
      Pop(if (c == 'B' && !zero) || (c == 'Z' && zero) then to else m)
  }

  // The arguments on the stack, by the marks of the call, which begin with the last;
  // an array is on the stack as its number.
  function ArgsOn(A: Arith, kinds: seq<bool>, vs: seq<Num>): (args: seq<Arg>)
    requires |kinds| == |vs| && ArraysNamed(A, kinds, vs)
  {
    seq(|vs|, i requires 0 <= i < |vs| => ArgOn(A, kinds, vs, i))
  }

  function ArgOn(A: Arith, kinds: seq<bool>, vs: seq<Num>, i: nat): Arg
    requires i < |kinds| == |vs| && ArraysNamed(A, kinds, vs)
  {
    if kinds[|vs| - 1 - i] then Whole(A.toLong(vs[i])) else Single(vs[i])
  }

  predicate ArraysNamed(A: Arith, kinds: seq<bool>, vs: seq<Num>)
    requires |kinds| == |vs|
  {
    forall i :: 0 <= i < |vs| && kinds[|vs| - 1 - i] ==> A.toLong(vs[i]) >= 0
  }

  // C: the arguments are taken from the stack.
  function ExecEnter(P: Program, m: Machine, f: nat, kinds: seq<bool>): Machine
  {
    if f !in P.C.functions then Fail(m)
    else if |m.stack| < |kinds| || !ArraysNamed(P.C.A, kinds, m.stack[|m.stack| - |kinds|..]) then m.(status := Stuck)
    else
      var k := |m.stack| - |kinds|;
      var b := EnterFrame(P.C.A, m.s, P.C.functions[f], ArgsOn(P.C.A, kinds, m.stack[k..]));
      var m1 := Machine(f, 0, m.stack[..k], m.frames + [Frame(m.fn, m.pc, b.s.ibase)], b.s, m.status);
      if b.ok then m1 else Fail(m1)
  }

  // One instruction; the program counter has already moved on.
  function Exec(P: Program, m: Machine, it: Item): Machine
  {
    match it
    case Plain(c) => ExecPlain(P, m, c)
    case OnVar(c, x) => ExecOnVar(P, m, c, x)
    case Jump(c, id) => ExecJump(P, m, c, id)
    case Label(_) => m
    case Const(text) => Push(m, P.C.A.constant(text, BaseOf(ConstBaseOf(m), m.s)))
    case Enter(f, kinds) => ExecEnter(P, m, f, kinds)
    case Builtin(c) =>
      if m.stack == [] then m.(status := Stuck) else SetTopTo(m, P.C.A.builtin(c, TopOf(m), m.s.scale))
    case Str(c, s) => m.(s := Put(m.s, OutText(s, c == 'O')))
  }

  function Step(P: Program, m: Machine): Machine
  {
    if Active(P, m) then Exec(P, Next(m), Segment(P, m.fn)[m.pc]) else m
  }

  function Run(P: Program, m: Machine, n: nat): Machine
    decreases n
  {
    if n == 0 then m else Run(P, Step(P, m), n - 1)
  }

  // The loop of execute, for n instructions at most.
  method Execute(P: Program, m0: Machine, n: nat) returns (m: Machine)
    ensures m == Run(P, m0, n)
  {
    m := m0;
    var k := n;
    while k > 0 && Active(P, m)
      invariant 0 <= k <= n && Run(P, m, k) == Run(P, m0, n)
      decreases k
    {
      m := Exec(P, Next(m), Segment(P, m.fn)[m.pc]);
      k := k - 1;
    }
    RunIdle(P, m, k);
  }

  lemma {:induction false} RunIdle(P: Program, m: Machine, n: nat)
    requires n == 0 || !Active(P, m)
    ensures Run(P, m, n) == m
  {
    if n > 0 { RunIdle(P, m, n - 1); }
  }

  lemma {:induction false} RunRun(P: Program, m: Machine, a: nat, b: nat)
    ensures Run(P, Run(P, m, a), b) == Run(P, m, a + b)
    decreases a
  {
    hide Exec;
    if a > 0 { RunRun(P, Step(P, m), a - 1, b); }
  }

  // What execute cleans up at the end: the variables of the active functions, down
  // to a depth of the function stack.
  function Unwind(P: Program, m: Machine, depth: nat): Machine
    decreases |m.frames|
  {
    if |m.frames| <= depth || m.frames == [] then m else Unwind(P, UnwindOne(P, m), depth)
  }

  function UnwindOne(P: Program, m: Machine): Machine
    requires m.frames != []
  {
    var f := m.frames[|m.frames| - 1];
    var s := if m.fn in P.C.functions then LeaveFrame(m.s, P.C.functions[m.fn]) else m.s;
    m.(fn := f.fn, pc := f.pc, frames := m.frames[..|m.frames| - 1], s := s)
  }

  lemma {:induction false} UnwindLess(P: Program, m: Machine, depth: nat)
    requires |m.frames| >= depth > 0
    ensures |Unwind(P, m, depth).frames| == depth
    ensures Unwind(P, m, depth - 1) == UnwindOne(P, Unwind(P, m, depth))
    decreases |m.frames|
  {
    hide LeaveFrame;
    if |m.frames| > depth { UnwindLess(P, UnwindOne(P, m), depth); }
  }
}
