// What a bc program means, following its structure: expressions have values,
// statements end normally or by break, continue or return.
module BcEval {
  import opened Maybes
  import opened BcSyntax
  import opened BcStore

  // How an evaluation ends: with a value, with a run-time error, by halt, or not
  // within the given number of loop rounds and calls.
  datatype Result<T> = Ok(v: T, s: Store) | Error(s: Store) | Halted(s: Store) | TimeOut

  datatype Outcome = Normal | Broken | Continued | Returned(v: Num)

  // The program: its functions by number.  The base of constants is the input base
  // in main code, and the one at the time of the call inside a function.  The programs
  // as they are meant differ from those as they are read in what arrays calls get.
  datatype Context = Context(A: Arith, functions: map<nat, Function>, meant: bool)

  // The program as it is read.
  function AsRead(C: Context): Context
  {
    C.(meant := false)
  }

  datatype ConstBase = Current | Saved(base: int)

  function BaseOf(cb: ConstBase, s: Store): int
  {
    if cb.Current? then s.ibase else cb.base
  }

  function Truth(A: Arith, b: bool): Num
  {
    if b then A.one else A.zero
  }

  // Comparison instructions.
  function Holds(op: RelOp, c: int): bool
  {
    match op
    case '=' => c == 0
    case '#' => c != 0
    case '<' => c == -1
    case '{' => c <= 0
    case '>' => c == 1
    case _ => c >= 0
  }

  // ---- Arrays that are passed ------------------------------------------------------------

  // A digit that the base does not have counts as the greatest that it has.
  function Clamped(c: char, base: int): int
    requires '0' <= c <= '9'
  {
    var d := c as int - '0' as int;
    if d >= base then base - 1 else d
  }

  function DigitsIn(text: string, base: int): (v: int)
    requires |text| > 0 && forall i :: 0 <= i < |text| ==> '0' <= text[i] <= '9'
    ensures base >= 2 ==> v >= 0
  {
    var k := |text| - 1;
    if k == 0 then Clamped(text[0], base)
    else
      var u := DigitsIn(text[..k], base);
      ProductPositive(u, base);
      u * base + Clamped(text[k], base)
  }

  lemma ProductPositive(x: int, y: int)
    ensures x >= 0 && y >= 0 ==> x * y >= 0
  {
  }

  // push_constant, for digits: a single one counts as itself in every base.  The input
  // base is never less than 2 and never greater than 16.
  function ReadIn(text: string, base: int): (v: nat)
    requires |text| > 0 && forall i :: 0 <= i < |text| ==> '0' <= text[i] <= '9'
  {
    if |text| == 1 then text[0] as int - '0' as int
    else DigitsIn(text, if base < 2 then 2 else if base > 16 then 16 else base)
  }

  // The array that a call gets when its number is emitted in decimal and read in the
  // base of the moment; as it is meant, the one that is named.
  function ArrayGiven(C: Context, arr: nat, base: int): nat
  {
    if C.meant then arr else ReadIn(Decimal(arr), base)
  }

  function NumberValue(A: Arith, text: string, base: int): Num
  {
    if text == "0" then A.zero else if text == "1" then A.one else A.constant(text, base)
  }

  function OfMaybe(m: Maybe<Num>, s: Store): Result<Num>
  {
    match m case Nothing => Error(s) case Just(v) => Ok(v, s)
  }

  // ---- Named expressions: what is known of them is the subscript ------------------------

  function Fetch(A: Arith, n: Named, sub: Num, s: Store): Result<Num>
  {
    match n
    case Simple(x) => Ok(LoadVar(A, s, x), s)
    case Element(a, _) =>
      match Subscript(A, sub)
      case Nothing => Error(s)
      case Just(i) => Ok(Elem(A, s, a, i), Ensure(s, a))
  }

  function Keep(A: Arith, n: Named, sub: Num, v: Num, s: Store): Result<Num>
  {
    match n
    case Simple(x) => Ok(v, StoreVar(A, s, x, v))
    case Element(a, _) =>
      match Subscript(A, sub)
      case Nothing => Error(s)
      case Just(i) => Ok(v, SetElem(s, a, i, v))
  }

  function StepNamed(A: Arith, n: Named, sub: Num, up: bool, s: Store): Result<Num>
  {
    match n
    case Simple(x) => Ok(A.zero, StepVar(A, s, x, up))
    case Element(a, _) =>
      match Subscript(A, sub)
      case Nothing => Error(s)
      case Just(i) => Ok(A.zero, StepElem(A, s, a, i, up))
  }

  // ---- Expressions ---------------------------------------------------------------------

  function EvalE(C: Context, e: Expr, s: Store, cb: ConstBase, fuel: nat): Result<Num>
    decreases fuel, 1, e
  {
    var A := C.A;
    match e
    case Number(text) => Ok(NumberValue(A, text, BaseOf(cb, s)), s)
    case Value(n) =>
      (match EvalN(C, n, s, cb, fuel)
       case Ok(sub, s1) => Fetch(A, n, sub, s1)
       case r => r)
    case Assign(n, op, a) =>
      (match EvalN(C, n, s, cb, fuel)
       case Ok(sub, s1) =>
         (match if op == '=' then Ok(A.zero, s1) else Fetch(A, n, sub, s1)
          case Ok(was, s2) =>
            (match EvalE(C, a, s2, cb, fuel)
             case Ok(x, s3) =>
               (match if op == '=' then Ok(x, s3) else OfMaybe(A.binary(op, was, x, s3.scale), s3)
                case Ok(v, s4) => Keep(A, n, sub, v, s4)
                case r => r)
             case r => r)
          case r => r)
       case r => r)
    case And(a, b) =>
      (match EvalE(C, a, s, cb, fuel)
       case Ok(x, s1) =>
         if A.isZero(x) then Ok(x, s1)
         else
           (match EvalE(C, b, s1, cb, fuel)
            case Ok(y, s2) => Ok(if A.isZero(y) then y else A.one, s2)
            case r => r)
       case r => r)
    case Or(a, b) =>
      (match EvalE(C, a, s, cb, fuel)
       case Ok(x, s1) =>
         if !A.isZero(x) then Ok(A.one, s1)
         else
           (match EvalE(C, b, s1, cb, fuel)
            case Ok(y, s2) => Ok(Truth(A, !A.isZero(y)), s2)
            case r => r)
       case r => r)
    case Not(a) =>
      (match EvalE(C, a, s, cb, fuel)
       case Ok(x, s1) => Ok(Truth(A, A.isZero(x)), s1)
       case r => r)
    case Relation(op, a, b) =>
      (match EvalE(C, a, s, cb, fuel)
       case Ok(x, s1) =>
         (match EvalE(C, b, s1, cb, fuel)
          case Ok(y, s2) => Ok(Truth(A, Holds(op, A.compare(x, y))), s2)
          case r => r)
       case r => r)
    case Binary(op, a, b) =>
      (match EvalE(C, a, s, cb, fuel)
       case Ok(x, s1) =>
         (match EvalE(C, b, s1, cb, fuel)
          case Ok(y, s2) => OfMaybe(A.binary(op, x, y, s2.scale), s2)
          case r => r)
       case r => r)
    case Negate(a) =>
      (match EvalE(C, a, s, cb, fuel)
       case Ok(x, s1) => Ok(A.negate(x), s1)
       case r => r)
    case Paren(a) => EvalE(C, a, s, cb, fuel)
    case Before(op, n) =>
      (match EvalN(C, n, s, cb, fuel)
       case Ok(sub, s1) =>
         (match StepNamed(A, n, sub, op == '+', s1)
          case Ok(_, s2) => Fetch(A, n, sub, s2)
          case r => r)
       case r => r)
    case AfterIt(n, op) =>
      (match EvalN(C, n, s, cb, fuel)
       case Ok(sub, s1) =>
         (match Fetch(A, n, sub, s1)
          case Ok(v, s2) =>
            (match StepNamed(A, n, sub, op == '+', s2)
             case Ok(_, s3) => Ok(v, s3)
             case r => r)
          case r => r)
       case r => r)
    case Special(fn, a) =>
      (match EvalE(C, a, s, cb, fuel)
       case Ok(x, s1) => OfMaybe(A.builtin(fn, x, s1.scale), s1)
       case r => r)
    case Call(f, args) =>
      (match EvalEs(C, args, s, cb, fuel)
       case Ok(vs, s1) => Apply(C, f, vs, s1, fuel)
       case Error(s1) => Error(s1)
       case Halted(s1) => Halted(s1)
       case TimeOut => TimeOut)
  }

  // The subscript; any number stands for that of a simple variable.
  function EvalN(C: Context, n: Named, s: Store, cb: ConstBase, fuel: nat): Result<Num>
    decreases fuel, 1, n
  {
    match n case Simple(_) => Ok(C.A.zero, s) case Element(_, i) => EvalE(C, i, s, cb, fuel)
  }

  function EvalEs(C: Context, es: Exprs, s: Store, cb: ConstBase, fuel: nat): Result<seq<Arg>>
    decreases fuel, 1, es
  {
    match es
    case NoExprs => Ok([], s)
    case MoreArrays(a, more) =>
      (match EvalEs(C, more, s, cb, fuel)
       case Ok(vs, s1) => Ok([Whole(ArrayGiven(C, a, BaseOf(cb, s)))] + vs, s1)
       case r => r)
    case MoreExprs(e, more) =>
      match EvalE(C, e, s, cb, fuel)
      case Ok(v, s1) =>
        (match EvalEs(C, more, s1, cb, fuel)
         case Ok(vs, s2) => Ok([Single(v)] + vs, s2)
         case r => r)
      case Error(s1) => Error(s1)
      case Halted(s1) => Halted(s1)
      case TimeOut => TimeOut
  }

  // A call.  With arguments that do not match the error comes before the body, but
  // after the stacks have been pushed.
  function Apply(C: Context, f: nat, args: seq<Arg>, s: Store, fuel: nat): Result<Num>
    decreases fuel, 0
  {
    if f !in C.functions then Error(s)
    else if fuel == 0 then TimeOut
    else
      var fn := C.functions[f];
      var b := EnterFrame(C.A, s, fn, args);
      if !b.ok then Error(LeaveFrame(b.s, fn))
      else
        match EvalSs(C, fn.body, b.s, Saved(b.s.ibase), fuel - 1)
        case Ok(Returned(v), s1) => Ok(v, LeaveFrame(s1, fn))
        case Ok(_, s1) => Ok(C.A.zero, LeaveFrame(s1, fn))
        case Error(s1) => Error(LeaveFrame(s1, fn))
        case Halted(s1) => Halted(s1)
        case TimeOut => TimeOut
  }

  // ---- Statements ------------------------------------------------------------------------

  // A missing expression of a for statement counts as true.
  function EvalO(C: Context, o: OptExpr, s: Store, cb: ConstBase, fuel: nat): Result<Num>
    decreases fuel, 1, o
  {
    match o case None => Ok(C.A.one, s) case Some(e) => EvalE(C, e, s, cb, fuel)
  }

  function EvalS(C: Context, st: Stmt, s: Store, cb: ConstBase, fuel: nat): Result<Outcome>
    decreases fuel, 1, st
  {
    var A := C.A;
    match st
    case Expression(e) =>
      (match EvalE(C, e, s, cb, fuel)
       case Ok(v, s1) => Ok(Normal, if AttrOf(e).value then StoreVar(A, Put(s1, OutNum(v, s1.obase, true)), 4, v)
         else s1)
       case Error(s1) => Error(s1)
       case Halted(s1) => Halted(s1)
       case TimeOut => TimeOut)
    case Text(t) => Ok(Normal, Put(s, OutText(t, false)))
    case Break => Ok(Broken, s)
    case Continue => Ok(Continued, s)
    case Halt => Halted(s)
    case Return(o) =>
      (match if o.None? then Ok(A.zero, s) else EvalE(C, o.e, s, cb, fuel)
       case Ok(v, s1) => Ok(Returned(v), s1)
       case Error(s1) => Error(s1)
       case Halted(s1) => Halted(s1)
       case TimeOut => TimeOut)
    case For(a, b, c, body) =>
      (match EvalO(C, a, s, cb, fuel)
       case Ok(_, s1) => ForLoop(C, b, c, body, s1, cb, fuel)
       case Error(s1) => Error(s1)
       case Halted(s1) => Halted(s1)
       case TimeOut => TimeOut)
    case If(c, yes) =>
      (match EvalE(C, c, s, cb, fuel)
       case Ok(v, s1) => if A.isZero(v) then Ok(Normal, s1) else EvalS(C, yes, s1, cb, fuel)
       case Error(s1) => Error(s1)
       case Halted(s1) => Halted(s1)
       case TimeOut => TimeOut)
    case IfElse(c, yes, no) =>
      (match EvalE(C, c, s, cb, fuel)
       case Ok(v, s1) => if A.isZero(v) then EvalS(C, no, s1, cb, fuel) else EvalS(C, yes, s1, cb, fuel)
       case Error(s1) => Error(s1)
       case Halted(s1) => Halted(s1)
       case TimeOut => TimeOut)
    case While(c, body) => WhileLoop(C, c, body, s, cb, fuel)
    case Block(ss) => EvalSs(C, ss, s, cb, fuel)
    case PrintText(t) => Ok(Normal, Put(s, OutText(t, true)))
    case PrintExpr(e) =>
      (match EvalE(C, e, s, cb, fuel)
       case Ok(v, s1) => Ok(Normal, StoreVar(A, Put(s1, OutNum(v, s1.obase, false)), 4, v))
       case Error(s1) => Error(s1)
       case Halted(s1) => Halted(s1)
       case TimeOut => TimeOut)
  }

  // Test, body, step, again; continue goes on with the step.
  function ForLoop(C: Context, b: OptExpr, c: OptExpr, body: Stmt, s: Store, cb: ConstBase, fuel: nat): Result<Outcome>
    decreases fuel, 0
  {
    if fuel == 0 then TimeOut
    else
      match EvalO(C, b, s, cb, fuel - 1)
      case Ok(v, s1) =>
        if C.A.isZero(v) then Ok(Normal, s1)
        else
          (match EvalS(C, body, s1, cb, fuel - 1)
           case Ok(Broken, s2) => Ok(Normal, s2)
           case Ok(Returned(r), s2) => Ok(Returned(r), s2)
           case Ok(_, s2) =>
             (match EvalO(C, c, s2, cb, fuel - 1)
              case Ok(_, s3) => ForLoop(C, b, c, body, s3, cb, fuel - 1)
              case Error(s3) => Error(s3)
              case Halted(s3) => Halted(s3)
              case TimeOut => TimeOut)
           case r => r)
      case Error(s1) => Error(s1)
      case Halted(s1) => Halted(s1)
      case TimeOut => TimeOut
  }

  // A continue in a while belongs to the for around it.
  function WhileLoop(C: Context, c: Expr, body: Stmt, s: Store, cb: ConstBase, fuel: nat): Result<Outcome>
    decreases fuel, 0
  {
    if fuel == 0 then TimeOut
    else
      match EvalE(C, c, s, cb, fuel - 1)
      case Ok(v, s1) =>
        if C.A.isZero(v) then Ok(Normal, s1)
        else
          (match EvalS(C, body, s1, cb, fuel - 1)
           case Ok(Broken, s2) => Ok(Normal, s2)
           case Ok(Normal, s2) => WhileLoop(C, c, body, s2, cb, fuel - 1)
           case r => r)
      case Error(s1) => Error(s1)
      case Halted(s1) => Halted(s1)
      case TimeOut => TimeOut
  }

  function EvalSs(C: Context, ss: Stmts, s: Store, cb: ConstBase, fuel: nat): Result<Outcome>
    decreases fuel, 1, ss
  {
    match ss
    case NoStmts => Ok(Normal, s)
    case MoreStmts(st, more) =>
      match EvalS(C, st, s, cb, fuel)
      case Ok(Normal, s1) => EvalSs(C, more, s1, cb, fuel)
      case r => r
  }
}
