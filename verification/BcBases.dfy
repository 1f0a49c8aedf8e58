// Arrays are passed by their numbers, which are constants and read in the input base.
// Programs that pass arrays with one digit only, and those that leave the base alone,
// are as they are meant.
module BcBases {
  import opened BcSyntax
  import opened BcStore
  import opened BcEval

  // ---- One array -------------------------------------------------------------------------

  lemma {:induction false} DecimalEnds(n: nat)
    ensures var t := Decimal(n);
            t[|t| - 1] as int - '0' as int == n % 10 && (|t| == 1 <==> n < 10)
              && (n >= 10 ==> t[..|t| - 1] == Decimal(n / 10))
  {
    if n >= 10 {
      var t := Decimal(n / 10);
      assert Decimal(n) == t + [(n % 10 + 48) as char];
    }
  }

  // In a smaller base digits give less, in a greater one more.
  lemma {:induction false} DigitsShift(n: nat, base: int)
    requires 2 <= base <= 16
    ensures var v := DigitsIn(Decimal(n), base);
            (base == 10 ==> v == n) && (base < 10 ==> v <= n) && (base > 10 ==> v >= n)
            && (n >= 10 && base != 10 ==> v != n)
    decreases n
  {
    hide Decimal, DigitsIn;
    DecimalEnds(n);
    var t := Decimal(n);
    LastDigit(t, base);
    if n >= 10 {
      DigitsShift(n / 10, base);
      Shifted(n, DigitsIn(Decimal(n / 10), base), base, Clamped(t[|t| - 1], base));
    }
  }

  lemma LastDigit(t: string, base: int)
    requires |t| > 0 && forall i :: 0 <= i < |t| ==> '0' <= t[i] <= '9'
    ensures DigitsIn(t, base) == if |t| == 1 then Clamped(t[0], base)
                                 else DigitsIn(t[..|t| - 1], base) * base + Clamped(t[|t| - 1], base)
  {
  }

  lemma Shifted(n: nat, v: int, base: int, d: int)
    requires n >= 10 && v >= 0 && 2 <= base && d == if n % 10 >= base then base - 1 else n % 10
    requires (base == 10 ==> v == n / 10) && (base < 10 ==> v <= n / 10) && (base > 10 ==> v >= n / 10)
    ensures (base == 10 ==> v * base + d == n) && (base < 10 ==> v * base + d < n) && (base > 10 ==> v * base + d > n)
  {
    var q := n / 10;
    if base < 10 {
      Times(v, q, base);
      Times(base, 9, q);
    } else if base > 10 {
      Times(q, v, base);
      Times(11, base, q);
    }
  }

  lemma Times(x: int, y: int, z: int)
    requires x <= y && z >= 0
    ensures x * z <= y * z && x * z == z * x && y * z == z * y
  {
  }

  // The call gets the array that is named if and only if its number has one digit or the
  // base is ten.
  lemma ReadExactly(arr: nat, base: int)
    requires 2 <= base <= 16
    ensures ReadIn(Decimal(arr), base) == arr <==> arr < 10 || base == 10
  {
    DecimalEnds(arr);
    DigitsShift(arr, base);
  }

  // A digit that the base does not have counts as the greatest that it has, unless it
  // stands alone.
  lemma NineInBaseTwo()
    ensures ReadIn("19", 2) == 3 && ReadIn("91", 2) == 3 && ReadIn("9", 2) == 9 && ReadIn("19", 8) == 15
  {
    assert "19"[..1] == "1" && "91"[..1] == "9";
    assert DigitsIn("1", 2) == 1 && DigitsIn("9", 2) == 1 && DigitsIn("1", 8) == 1;
  }

  // ---- Whole programs ----------------------------------------------------------------------

  // With `ten`, the input base is never stored to; without it, the arrays that are passed
  // have one digit.
  predicate PlainE(e: Expr, ten: bool)
  {
    match e
    case Number(_) => true
    case Value(n) => PlainN(n, ten)
    case Assign(n, _, a) => (ten ==> n != Simple(0)) && PlainN(n, ten) && PlainE(a, ten)
    case And(a, b) => PlainE(a, ten) && PlainE(b, ten)
    case Or(a, b) => PlainE(a, ten) && PlainE(b, ten)
    case Not(a) => PlainE(a, ten)
    case Relation(_, a, b) => PlainE(a, ten) && PlainE(b, ten)
    case Binary(_, a, b) => PlainE(a, ten) && PlainE(b, ten)
    case Negate(a) => PlainE(a, ten)
    case Paren(a) => PlainE(a, ten)
    case Before(_, n) => (ten ==> n != Simple(0)) && PlainN(n, ten)
    case AfterIt(n, _) => (ten ==> n != Simple(0)) && PlainN(n, ten)
    case Special(_, a) => PlainE(a, ten)
    case Call(_, args) => PlainEs(args, ten)
  }

  predicate PlainN(n: Named, ten: bool)
  {
    match n case Simple(_) => true case Element(_, i) => PlainE(i, ten)
  }

  predicate PlainEs(es: Exprs, ten: bool)
  {
    match es
    case NoExprs => true
    case MoreExprs(e, more) => PlainE(e, ten) && PlainEs(more, ten)
    case MoreArrays(a, more) => (ten || a < 10) && PlainEs(more, ten)
  }

  predicate PlainO(o: OptExpr, ten: bool)
  {
    o.Some? ==> PlainE(o.e, ten)
  }

  predicate PlainS(st: Stmt, ten: bool)
  {
    match st
    case Expression(e) => PlainE(e, ten)
    case Return(o) => PlainO(o, ten)
    case For(a, b, c, body) => PlainO(a, ten) && PlainO(b, ten) && PlainO(c, ten) && PlainS(body, ten)
    case If(c, yes) => PlainE(c, ten) && PlainS(yes, ten)
    case IfElse(c, yes, no) => PlainE(c, ten) && PlainS(yes, ten) && PlainS(no, ten)
    case While(c, body) => PlainE(c, ten) && PlainS(body, ten)
    case Block(ss) => PlainSs(ss, ten)
    case PrintExpr(e) => PlainE(e, ten)
    case _ => true
  }

  predicate PlainSs(ss: Stmts, ten: bool)
  {
    match ss case NoStmts => true case MoreStmts(st, more) => PlainS(st, ten) && PlainSs(more, ten)
  }

  ghost predicate PlainFunctions(C: Context, ten: bool)
  {
    forall f :: f in C.functions ==> PlainSs(C.functions[f].body, ten)
  }

  // The base is ten, and so is that of constants.
  predicate TenNow(ten: bool, s: Store, cb: ConstBase)
  {
    ten ==> s.ibase == 10 && BaseOf(cb, s) == 10
  }

  // Both evaluations come to the same, and the base stays.
  predicate Alike<T(==)>(ten: bool, r: Result<T>, r': Result<T>)
  {
    r == r' && (ten && !r.TimeOut? ==> r.s.ibase == 10)
  }

  lemma StillTen(ten: bool, s: Store, s': Store, cb: ConstBase)
    requires TenNow(ten, s, cb) && (ten ==> s'.ibase == 10)
    ensures TenNow(ten, s', cb)
  {
  }

  lemma SameArray(C: Context, arr: nat, ten: bool, s: Store, cb: ConstBase)
    requires (ten || arr < 10) && TenNow(ten, s, cb)
    ensures ArrayGiven(C, arr, BaseOf(cb, s)) == ArrayGiven(AsRead(C), arr, BaseOf(cb, s))
  {
    if ten {
      ReadExactly(arr, 10);
    } else {
      DecimalEnds(arr);
    }
  }

  // ---- What leaves the base alone --------------------------------------------------------------

  lemma NamedKeep(A: Arith, n: Named, sub: Num, v: Num, up: bool, s: Store)
    ensures var r := Fetch(A, n, sub, s); !r.TimeOut? && r.s.ibase == s.ibase
    ensures n != Simple(0) ==> var r := Keep(A, n, sub, v, s); !r.TimeOut? && r.s.ibase == s.ibase
    ensures n != Simple(0) ==> var r := StepNamed(A, n, sub, up, s); !r.TimeOut? && r.s.ibase == s.ibase
  {
  }

  // The special variables and the output are the same.
  predicate RestKept(s: Store, s': Store)
  {
    s'.ibase == s.ibase && s'.obase == s.obase && s'.scale == s.scale && s'.out == s.out
  }

  lemma {:induction false} BindKeeps(s: Store, params: seq<Param>, args: seq<Arg>)
    ensures RestKept(s, Bind(s, params, args).s)
    decreases |args|
  {
    if args != [] && params != [] && Matching(params[|params| - 1], args[|args| - 1]) {
      BindKeeps(BindOne(s, params[|params| - 1], args[|args| - 1]), params[..|params| - 1], args[..|args| - 1]);
    }
  }

  lemma {:induction false} AutosKeep(A: Arith, s: Store, names: seq<int>)
    ensures RestKept(s, PushAutos(A, s, names)) && RestKept(s, PopNames(s, names))
    decreases |names|
  {
    if names != [] {
      AutosKeep(A, AutoVar(A, s, names[|names| - 1]), names[..|names| - 1]);
      AutosKeep(A, PopName(s, names[|names| - 1]), names[..|names| - 1]);
    }
  }

  lemma FrameKeepsRest(A: Arith, s: Store, f: Function, args: seq<Arg>, s1: Store)
    ensures RestKept(s, EnterFrame(A, s, f, args).s) && RestKept(s1, LeaveFrame(s1, f))
  {
    hide Bind, PushAutos, PopNames;
    BindKeeps(s, f.params, args);
    AutosKeep(A, Bind(s, f.params, args).s, f.autos);
    AutosKeep(A, s1, f.autos);
    AutosKeep(A, PopNames(s1, f.autos), Names(f.params));
  }

  // ---- The evaluations side by side ---------------------------------------------------------------

  lemma {:induction false} SameE(C: Context, e: Expr, s: Store, cb: ConstBase, fuel: nat, ten: bool)
    requires PlainFunctions(C, ten) && PlainE(e, ten) && TenNow(ten, s, cb)
    ensures Alike(ten, EvalE(C, e, s, cb, fuel), EvalE(AsRead(C), e, s, cb, fuel))
    decreases fuel, 1, e
  {
    hide PlainFunctions, EvalE, PlainE;
    match e
    case Value(n) => SameNamed(C, e, n, s, cb, fuel, ten);
    case Assign(n, op, a) => SameAssign(C, n, op, a, s, cb, fuel, ten);
    case Before(_, n) => SameNamed(C, e, n, s, cb, fuel, ten);
    case AfterIt(n, _) => SameNamed(C, e, n, s, cb, fuel, ten);
    case Call(f, args) => SameCall(C, f, args, s, cb, fuel, ten);
    case And(a, b) => SameLogic(C, a, b, e, s, cb, fuel, ten);
    case Or(a, b) => SameLogic(C, a, b, e, s, cb, fuel, ten);
    case Relation(_, a, b) => SameNumbers(C, a, b, e, s, cb, fuel, ten);
    case Binary(_, a, b) => SameNumbers(C, a, b, e, s, cb, fuel, ten);
    case _ => SameOne(C, e, s, cb, fuel, ten);
  }

  lemma {:induction false} SameOne(C: Context, e: Expr, s: Store, cb: ConstBase, fuel: nat, ten: bool)
    requires e.Number? || e.Not? || e.Negate? || e.Paren? || e.Special?
    requires PlainFunctions(C, ten) && PlainE(e, ten) && TenNow(ten, s, cb)
    ensures Alike(ten, EvalE(C, e, s, cb, fuel), EvalE(AsRead(C), e, s, cb, fuel))
    decreases fuel, 1, e, 0
  {
    hide PlainFunctions, EvalN, EvalEs, Apply, Fetch, Keep, StepNamed, Holds;
    if !e.Number? { SameE(C, e.a, s, cb, fuel, ten); }
  }

  lemma {:induction false} SameLogic(C: Context, a: Expr, b: Expr, e: Expr, s: Store, cb: ConstBase, fuel: nat,
      ten: bool)
    requires e == And(a, b) || e == Or(a, b)
    requires PlainFunctions(C, ten) && PlainE(e, ten) && TenNow(ten, s, cb)
    ensures Alike(ten, EvalE(C, e, s, cb, fuel), EvalE(AsRead(C), e, s, cb, fuel))
    decreases fuel, 1, e, 1
  {
    hide PlainFunctions, EvalN, EvalEs, Apply, Fetch, Keep, StepNamed, Holds;
    SameBoth(C, a, b, e, s, cb, fuel, ten);
  }

  lemma {:induction false} SameNumbers(C: Context, a: Expr, b: Expr, e: Expr, s: Store, cb: ConstBase, fuel: nat,
      ten: bool)
    requires (e.Relation? || e.Binary?) && e.a == a && e.b == b
    requires PlainFunctions(C, ten) && PlainE(e, ten) && TenNow(ten, s, cb)
    ensures Alike(ten, EvalE(C, e, s, cb, fuel), EvalE(AsRead(C), e, s, cb, fuel))
    decreases fuel, 1, e, 1
  {
    hide PlainFunctions, EvalN, EvalEs, Apply, Fetch, Keep, StepNamed, Holds;
    SameBoth(C, a, b, e, s, cb, fuel, ten);
  }

  lemma {:induction false} SameNamed(C: Context, e: Expr, n: Named, s: Store, cb: ConstBase, fuel: nat, ten: bool)
    requires (e.Value? || e.Before? || e.AfterIt?) && e.n == n
    requires PlainFunctions(C, ten) && PlainE(e, ten) && TenNow(ten, s, cb)
    ensures Alike(ten, EvalE(C, e, s, cb, fuel), EvalE(AsRead(C), e, s, cb, fuel))
    decreases fuel, 1, e, 0
  {
    hide PlainFunctions, Fetch, StepNamed, EvalN, EvalEs, Apply, Keep, Holds;
    SameN(C, n, s, cb, fuel, ten);
    var r := EvalN(C, n, s, cb, fuel);
    if r.Ok? {
      var up := (e.Before? || e.AfterIt?) && e.step == '+';
      NamedKeep(C.A, n, r.v, r.v, up, r.s);
      var first := if e.Before? then StepNamed(C.A, n, r.v, up, r.s) else Fetch(C.A, n, r.v, r.s);
      if first.Ok? { NamedKeep(C.A, n, r.v, r.v, up, first.s); }
    }
  }

  lemma {:induction false} SameBoth(C: Context, a: Expr, b: Expr, e: Expr, s: Store, cb: ConstBase, fuel: nat,
      ten: bool)
    requires a < e && b < e
    requires PlainFunctions(C, ten) && PlainE(a, ten) && PlainE(b, ten) && TenNow(ten, s, cb)
    ensures Alike(ten, EvalE(C, a, s, cb, fuel), EvalE(AsRead(C), a, s, cb, fuel))
    ensures var r := EvalE(C, a, s, cb, fuel);
            r.Ok? ==> Alike(ten, EvalE(C, b, r.s, cb, fuel), EvalE(AsRead(C), b, r.s, cb, fuel))
    decreases fuel, 1, e, 0
  {
    hide PlainFunctions, EvalE, PlainE;
    SameE(C, a, s, cb, fuel, ten);
    var r := EvalE(C, a, s, cb, fuel);
    if r.Ok? { SameE(C, b, r.s, cb, fuel, ten); }
  }

  lemma {:induction false} SameAssign(C: Context, n: Named, op: AssignOp, a: Expr, s: Store, cb: ConstBase, fuel: nat,
      ten: bool)
    requires PlainFunctions(C, ten) && PlainE(Assign(n, op, a), ten) && TenNow(ten, s, cb)
    ensures var e := Assign(n, op, a); Alike(ten, EvalE(C, e, s, cb, fuel), EvalE(AsRead(C), e, s, cb, fuel))
    decreases fuel, 1, Assign(n, op, a), 0
  {
    hide PlainFunctions, Fetch, Keep, EvalN, EvalEs, Apply, StepNamed, Holds;
    SameN(C, n, s, cb, fuel, ten);
    var r := EvalN(C, n, s, cb, fuel);
    if r.Ok? {
      NamedKeep(C.A, n, r.v, r.v, true, r.s);
      var r2 := if op == '=' then Ok(C.A.zero, r.s) else Fetch(C.A, n, r.v, r.s);
      if r2.Ok? {
        SameE(C, a, r2.s, cb, fuel, ten);
        var r3 := EvalE(C, a, r2.s, cb, fuel);
        if r3.Ok? {
          var r4 := if op == '=' then Ok(r3.v, r3.s) else OfMaybe(C.A.binary(op, r2.v, r3.v, r3.s.scale), r3.s);
          if r4.Ok? { NamedKeep(C.A, n, r.v, r4.v, true, r4.s); }
        }
      }
    }
  }

  lemma {:induction false} SameN(C: Context, n: Named, s: Store, cb: ConstBase, fuel: nat, ten: bool)
    requires PlainFunctions(C, ten) && PlainN(n, ten) && TenNow(ten, s, cb)
    ensures Alike(ten, EvalN(C, n, s, cb, fuel), EvalN(AsRead(C), n, s, cb, fuel))
    decreases fuel, 1, n
  {
    hide PlainFunctions, EvalE, PlainE;
    if n.Element? { SameE(C, n.index, s, cb, fuel, ten); }
  }

  lemma {:induction false} SameCall(C: Context, f: nat, args: Exprs, s: Store, cb: ConstBase, fuel: nat, ten: bool)
    requires PlainFunctions(C, ten) && PlainE(Call(f, args), ten) && TenNow(ten, s, cb)
    ensures var e := Call(f, args); Alike(ten, EvalE(C, e, s, cb, fuel), EvalE(AsRead(C), e, s, cb, fuel))
    decreases fuel, 1, Call(f, args), 0
  {
    hide PlainFunctions, EvalEs, Apply, PlainEs;
    SameEs(C, args, s, cb, fuel, ten);
    var r := EvalEs(C, args, s, cb, fuel);
    if r.Ok? { SameApply(C, f, r.v, r.s, fuel, ten); }
  }

  lemma {:induction false} SameEs(C: Context, es: Exprs, s: Store, cb: ConstBase, fuel: nat, ten: bool)
    requires PlainFunctions(C, ten) && PlainEs(es, ten) && TenNow(ten, s, cb)
    ensures Alike(ten, EvalEs(C, es, s, cb, fuel), EvalEs(AsRead(C), es, s, cb, fuel))
    decreases fuel, 1, es
  {
    hide PlainFunctions, EvalE, PlainE, ArrayGiven;
    match es
    case NoExprs =>
    case MoreArrays(a, more) =>
      SameArray(C, a, ten, s, cb);
      SameEs(C, more, s, cb, fuel, ten);
    case MoreExprs(e, more) =>
      SameE(C, e, s, cb, fuel, ten);
      var r := EvalE(C, e, s, cb, fuel);
      if r.Ok? { SameEs(C, more, r.s, cb, fuel, ten); }
  }

  lemma {:induction false} SameApply(C: Context, f: nat, args: seq<Arg>, s: Store, fuel: nat, ten: bool)
    requires PlainFunctions(C, ten) && TenNow(ten, s, Current)
    ensures Alike(ten, Apply(C, f, args, s, fuel), Apply(AsRead(C), f, args, s, fuel))
    decreases fuel, 0
  {
    hide EvalSs, PlainSs, EnterFrame, LeaveFrame;
    if f in C.functions && fuel > 0 {
      var fn := C.functions[f];
      var b := EnterFrame(C.A, s, fn, args);
      FrameKeepsRest(C.A, s, fn, args, b.s);
      if b.ok {
        SameSs(C, fn.body, b.s, Saved(b.s.ibase), fuel - 1, ten);
        var r := EvalSs(C, fn.body, b.s, Saved(b.s.ibase), fuel - 1);
        if !r.TimeOut? { FrameKeepsRest(C.A, s, fn, args, r.s); }
      }
    }
  }

  // ---- Statements ---------------------------------------------------------------------------------

  lemma {:induction false} SameO(C: Context, o: OptExpr, s: Store, cb: ConstBase, fuel: nat, ten: bool)
    requires PlainFunctions(C, ten) && PlainO(o, ten) && TenNow(ten, s, cb)
    ensures Alike(ten, EvalO(C, o, s, cb, fuel), EvalO(AsRead(C), o, s, cb, fuel))
    decreases fuel, 1, o
  {
    hide PlainFunctions, EvalE, PlainE;
    if o.Some? { SameE(C, o.e, s, cb, fuel, ten); }
  }

  lemma {:induction false} SameS(C: Context, st: Stmt, s: Store, cb: ConstBase, fuel: nat, ten: bool)
    requires PlainFunctions(C, ten) && PlainS(st, ten) && TenNow(ten, s, cb)
    ensures Alike(ten, EvalS(C, st, s, cb, fuel), EvalS(AsRead(C), st, s, cb, fuel))
    decreases fuel, 1, st
  {
    hide PlainFunctions, EvalE, PlainE, EvalO, EvalSs, PlainSs, ForLoop, WhileLoop, AttrOf;
    match st
    case Expression(e) => SameE(C, e, s, cb, fuel, ten);
    case PrintExpr(e) => SameE(C, e, s, cb, fuel, ten);
    case Return(o) => if o.Some? { SameE(C, o.e, s, cb, fuel, ten); }
    case For(a, b, c, body) =>
      SameO(C, a, s, cb, fuel, ten);
      var r := EvalO(C, a, s, cb, fuel);
      if r.Ok? { SameFor(C, b, c, body, r.s, cb, fuel, ten); }
    case If(c, yes) => SameIf(C, c, yes, st, s, cb, fuel, ten);
    case IfElse(c, yes, no) =>
      SameIf(C, c, yes, st, s, cb, fuel, ten);
      SameIf(C, c, no, st, s, cb, fuel, ten);
    case While(c, body) => SameWhile(C, c, body, s, cb, fuel, ten);
    case Block(ss) => SameSs(C, ss, s, cb, fuel, ten);
    case _ =>
  }

  lemma {:induction false} SameIf(C: Context, c: Expr, branch: Stmt, st: Stmt, s: Store, cb: ConstBase, fuel: nat,
      ten: bool)
    requires c < st && branch < st
    requires PlainFunctions(C, ten) && PlainE(c, ten) && PlainS(branch, ten) && TenNow(ten, s, cb)
    ensures Alike(ten, EvalE(C, c, s, cb, fuel), EvalE(AsRead(C), c, s, cb, fuel))
    ensures var r := EvalE(C, c, s, cb, fuel);
            r.Ok? ==> Alike(ten, EvalS(C, branch, r.s, cb, fuel), EvalS(AsRead(C), branch, r.s, cb, fuel))
    decreases fuel, 1, st, 0
  {
    hide PlainFunctions, EvalE, PlainE, EvalS, PlainS;
    SameE(C, c, s, cb, fuel, ten);
    var r := EvalE(C, c, s, cb, fuel);
    if r.Ok? { SameS(C, branch, r.s, cb, fuel, ten); }
  }

  lemma {:induction false} SameFor(C: Context, b: OptExpr, c: OptExpr, body: Stmt, s: Store, cb: ConstBase, fuel: nat,
      ten: bool)
    requires PlainFunctions(C, ten) && PlainO(b, ten) && PlainO(c, ten) && PlainS(body, ten) && TenNow(ten, s, cb)
    ensures Alike(ten, ForLoop(C, b, c, body, s, cb, fuel), ForLoop(AsRead(C), b, c, body, s, cb, fuel))
    decreases fuel, 0
  {
    hide PlainFunctions, EvalO, PlainO, EvalS, PlainS, ForLoop, TenNow, TurnOf, Alike;
    AlikeLate<Num>(ten);
    AlikeLate<Outcome>(ten);
    if fuel == 0 {
      NoTurn(C, b, c, body, s, cb);
      NoTurn(AsRead(C), b, c, body, s, cb);
    } else {
      SameO(C, b, s, cb, fuel - 1, ten);
      var r := EvalO(C, b, s, cb, fuel - 1);
      AlikeIs(ten, r, EvalO(AsRead(C), b, s, cb, fuel - 1));
      var r2 := if r.Ok? && !C.A.isZero(r.v) then EvalS(C, body, r.s, cb, fuel - 1) else TimeOut;
      if r.Ok? && !C.A.isZero(r.v) {
        StillTen(ten, s, r.s, cb);
        SameS(C, body, r.s, cb, fuel - 1, ten);
        AlikeIs(ten, r2, EvalS(AsRead(C), body, r.s, cb, fuel - 1));
      }
      var on := r2.Ok? && (r2.v.Normal? || r2.v.Continued?);
      var r3 := if on then EvalO(C, c, r2.s, cb, fuel - 1) else TimeOut;
      if on {
        StillTen(ten, s, r2.s, cb);
        SameOn(C, b, c, body, r2.s, cb, fuel - 1, ten);
      }
      var next := if r3.Ok? then ForLoop(C, b, c, body, r3.s, cb, fuel - 1) else TimeOut;
      ForTurn(C, b, c, body, s, cb, fuel);
      ForTurn(AsRead(C), b, c, body, s, cb, fuel);
      TurnAlike(ten, C.A, r, r2, r3, next);
    }
  }

  // The step, and the turns after it.
  lemma {:induction false} SameOn(C: Context, b: OptExpr, c: OptExpr, body: Stmt, s: Store, cb: ConstBase, fuel: nat,
      ten: bool)
    requires PlainFunctions(C, ten) && PlainO(b, ten) && PlainO(c, ten) && PlainS(body, ten) && TenNow(ten, s, cb)
    ensures var r := EvalO(C, c, s, cb, fuel);
            r == EvalO(AsRead(C), c, s, cb, fuel) && Alike(ten, r, r)
            && (r.Ok? ==>
              var next := ForLoop(C, b, c, body, r.s, cb, fuel);
              next == ForLoop(AsRead(C), b, c, body, r.s, cb, fuel) && Alike(ten, next, next))
    decreases fuel, 2
  {
    hide PlainFunctions, EvalO, PlainO, EvalS, PlainS, ForLoop, TenNow, Alike;
    SameO(C, c, s, cb, fuel, ten);
    var r := EvalO(C, c, s, cb, fuel);
    AlikeIs(ten, r, EvalO(AsRead(C), c, s, cb, fuel));
    if r.Ok? {
      StillTen(ten, s, r.s, cb);
      SameFor(C, b, c, body, r.s, cb, fuel, ten);
      AlikeIs(ten, ForLoop(C, b, c, body, r.s, cb, fuel), ForLoop(AsRead(C), b, c, body, r.s, cb, fuel));
    }
  }

  lemma AlikeIs<T>(ten: bool, r: Result<T>, r': Result<T>)
    requires Alike(ten, r, r')
    ensures r == r' && Alike(ten, r, r) && (ten && r.Ok? ==> r.s.ibase == 10)
  {
  }

  lemma AlikeLate<T>(ten: bool)
    ensures Alike<T>(ten, TimeOut, TimeOut)
  {
  }

  // A result of another type when there is no value.
  function Without<T, U>(r: Result<T>): Result<U>
    requires !r.Ok?
  {
    match r case Error(s) => Error(s) case Halted(s) => Halted(s) case TimeOut => TimeOut
  }

  // What a turn of a for loop comes to: the test, the body, the step, and the turns after
  // it.
  function TurnOf(A: Arith, test: Result<Num>, body: Result<Outcome>, step: Result<Num>, next: Result<Outcome>):
    Result<Outcome>
  {
    if !test.Ok? then Without(test)
    else if A.isZero(test.v) then Ok(Normal, test.s)
    else if !body.Ok? || body.v.Returned? then body
    else if body.v.Broken? then Ok(Normal, body.s)
    else if step.Ok? then next else Without(step)
  }

  lemma NoTurn(C: Context, b: OptExpr, c: OptExpr, body: Stmt, s: Store, cb: ConstBase)
    ensures ForLoop(C, b, c, body, s, cb, 0) == TimeOut
  {
  }

  lemma {:induction false} ForTurn(C: Context, b: OptExpr, c: OptExpr, body: Stmt, s: Store, cb: ConstBase, fuel: nat)
    requires fuel > 0
    ensures ForLoop(C, b, c, body, s, cb, fuel) ==
            var r := EvalO(C, b, s, cb, fuel - 1);
            var r2 := if r.Ok? && !C.A.isZero(r.v) then EvalS(C, body, r.s, cb, fuel - 1) else TimeOut;
            var on := r2.Ok? && (r2.v.Normal? || r2.v.Continued?);
            var r3 := if on then EvalO(C, c, r2.s, cb, fuel - 1) else TimeOut;
            TurnOf(C.A, r, r2, r3, if r3.Ok? then ForLoop(C, b, c, body, r3.s, cb, fuel - 1) else TimeOut)
  {
    hide EvalO, EvalS, EvalE, EvalSs, Apply, WhileLoop;
  }

  lemma TurnAlike(ten: bool, A: Arith, r: Result<Num>, r2: Result<Outcome>, r3: Result<Num>, next: Result<Outcome>)
    requires Alike(ten, r, r) && Alike(ten, r2, r2) && Alike(ten, r3, r3) && Alike(ten, next, next)
    ensures var t := TurnOf(A, r, r2, r3, next); Alike(ten, t, t)
  {
  }

  lemma {:induction false} SameWhile(C: Context, c: Expr, body: Stmt, s: Store, cb: ConstBase, fuel: nat, ten: bool)
    requires PlainFunctions(C, ten) && PlainE(c, ten) && PlainS(body, ten) && TenNow(ten, s, cb)
    ensures Alike(ten, WhileLoop(C, c, body, s, cb, fuel), WhileLoop(AsRead(C), c, body, s, cb, fuel))
    decreases fuel, 0
  {
    hide PlainFunctions, EvalE, PlainE, EvalS, PlainS, EvalO, EvalSs, ForLoop;
    if fuel > 0 {
      SameE(C, c, s, cb, fuel - 1, ten);
      var r := EvalE(C, c, s, cb, fuel - 1);
      if r.Ok? && !C.A.isZero(r.v) {
        SameS(C, body, r.s, cb, fuel - 1, ten);
        var r2 := EvalS(C, body, r.s, cb, fuel - 1);
        if r2.Ok? && r2.v.Normal? { SameWhile(C, c, body, r2.s, cb, fuel - 1, ten); }
      }
    }
  }

  lemma {:induction false} SameSs(C: Context, ss: Stmts, s: Store, cb: ConstBase, fuel: nat, ten: bool)
    requires PlainFunctions(C, ten) && PlainSs(ss, ten) && TenNow(ten, s, cb)
    ensures Alike(ten, EvalSs(C, ss, s, cb, fuel), EvalSs(AsRead(C), ss, s, cb, fuel))
    decreases fuel, 1, ss
  {
    hide PlainFunctions, EvalS, PlainS;
    if ss.MoreStmts? {
      SameS(C, ss.head, s, cb, fuel, ten);
      var r := EvalS(C, ss.head, s, cb, fuel);
      if r.Ok? && r.v.Normal? { SameSs(C, ss.tail, r.s, cb, fuel, ten); }
    }
  }
}
