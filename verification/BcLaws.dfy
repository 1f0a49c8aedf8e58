// What the operations on variables and arrays mean to each other, said without the
// way they work: what is read is what was written, a step is the addition of one, the
// special variables stay within their limits.
module BcLaws {
  import opened Maybes
  import opened BcSyntax
  import opened BcStore
  import opened BcEval
  import opened BcMachine
  import opened BcBases
  import opened BcCalls

  // ---- Reading what was written ----------------------------------------------------------

  lemma ReadsWritten(A: Arith, s: Store, x: nat, v: Num, y: nat)
    requires x > 3
    ensures LoadVar(A, StoreVar(A, s, x, v), x) == v
    ensures y != x ==> LoadVar(A, StoreVar(A, s, x, v), y) == LoadVar(A, s, y)
  {
  }

  // A step of one name changes no other name.
  lemma StepsAlone(A: Arith, s: Store, x: nat, up: bool, y: nat)
    requires y != x
    ensures LoadVar(A, StepVar(A, s, x, up), y) == LoadVar(A, s, y)
  {
  }

  // Two names of one array.
  predicate Shared(s: Store, a: nat, b: nat)
  {
    a == b || (PlaceOf(s, a).Slot? && PlaceOf(s, b).Slot? && PlaceOf(s, a).id == PlaceOf(s, b).id)
  }

  lemma ReadsElement(A: Arith, s: Store, a: nat, i: int, v: Num, b: nat, j: int)
    requires Placed(s)
    ensures Elem(A, SetElem(s, a, i, v), b, j) == if Shared(s, a, b) && i == j then v else Elem(A, s, b, j)
  {
    hide Placed;
    PlaceIn(s, a);
    PlaceIn(s, b);
  }

  // An array that has not come into use, or not been written there, has zeros.
  lemma FreshZero(A: Arith, s: Store, a: nat, i: int)
    requires PlaceOf(s, a) == Unset || i !in Elements(s, a)
    ensures Elem(A, s, a, i) == A.zero
  {
  }

  // ---- A step is the addition of one -----------------------------------------------------

  // What ++ and -- do to a number is what + and - do with one.
  ghost predicate StepsByOne(A: Arith)
  {
    forall v: Num, scale: int ::
      A.binary('+', v, A.one, scale) == Just(A.succ(v)) && A.binary('-', v, A.one, scale) == Just(A.pred(v))
  }

  // ++ before a name does what += 1 does, and gives the same value; after it, it does the
  // same and gives the value there was.
  lemma {:induction false} StepIsAssign(C: Context, n: Named, op: BinOp, s: Store, cb: ConstBase, fuel: nat)
    requires StepsByOne(C.A) && Named0(C) && Placed(s) && (n.Simple? ==> n.name > 3) && (op == '+' || op == '-')
    ensures var before, after := EvalE(C, Before(op, n), s, cb, fuel), EvalE(C, AfterIt(n, op), s, cb, fuel);
            before == EvalE(C, Assign(n, op, Number("1")), s, cb, fuel)
            && after == if before.Ok? then Ok(EvalE(C, Value(n), s, cb, fuel).v, before.s) else before
  {
    hide EvalE, EvalN, Placed, Named0, Fetch, Keep, StepNamed;
    KeepN(C, n, s, cb, fuel);
    var r := EvalN(C, n, s, cb, fuel);
    if r.Ok? { NamedStepped(C.A, n, r.v, op, r.s); }
    StepAfter(C, n, op, s, cb, fuel);
    StepBefore(C, n, op, s, cb, fuel);
    AddOne(C, n, op, s, cb, fuel);
  }

  lemma {:induction false} StepBefore(C: Context, n: Named, op: BinOp, s: Store, cb: ConstBase, fuel: nat)
    ensures EvalE(C, Before(op, n), s, cb, fuel) ==
            var r := EvalN(C, n, s, cb, fuel);
            if !r.Ok? then r else
            var stepped := StepNamed(C.A, n, r.v, op == '+', r.s);
            if stepped.Ok? then Fetch(C.A, n, r.v, stepped.s) else stepped
  {
    hide Fetch, Keep, StepNamed;
  }

  lemma {:induction false} AddOne(C: Context, n: Named, op: BinOp, s: Store, cb: ConstBase, fuel: nat)
    ensures EvalE(C, Assign(n, op, Number("1")), s, cb, fuel) ==
            var r := EvalN(C, n, s, cb, fuel);
            if !r.Ok? then r else
            var was := Fetch(C.A, n, r.v, r.s);
            if !was.Ok? then was else
            var v := OfMaybe(C.A.binary(op, was.v, C.A.one, was.s.scale), was.s);
            if v.Ok? then Keep(C.A, n, r.v, v.v, v.s) else v
    ensures EvalE(C, Value(n), s, cb, fuel) ==
            var r := EvalN(C, n, s, cb, fuel);
            if r.Ok? then Fetch(C.A, n, r.v, r.s) else r
  {
    hide Fetch, Keep, StepNamed;
    assert EvalE(C, Number("1"), s, cb, fuel).v == C.A.one;
  }

  // What ++ and -- behind a name come to.
  lemma {:induction false} StepAfter(C: Context, n: Named, op: BinOp, s: Store, cb: ConstBase, fuel: nat)
    ensures EvalE(C, AfterIt(n, op), s, cb, fuel) ==
            var r := EvalN(C, n, s, cb, fuel);
            if !r.Ok? then r else
            var was := Fetch(C.A, n, r.v, r.s);
            if !was.Ok? then was else
            var stepped := StepNamed(C.A, n, r.v, op == '+', was.s);
            if stepped.Ok? then Ok(was.v, stepped.s) else stepped
  {
    hide Fetch, Keep, StepNamed;
  }

  lemma {:induction false} NamedStepped(A: Arith, n: Named, sub: Num, op: BinOp, s: Store)
    requires StepsByOne(A) && Placed(s) && (n.Simple? ==> n.name > 3) && (op == '+' || op == '-')
    ensures var was, stepped := Fetch(A, n, sub, s), StepNamed(A, n, sub, op == '+', s);
            (was.Ok? <==> stepped.Ok?) && (was.Ok? || (was == stepped && was.Error?))
            && (was.Ok? ==>
              var now, v := Fetch(A, n, sub, stepped.s), A.binary(op, was.v, A.one, was.s.scale);
              v.Just? && now == Ok(v.v, stepped.s) && Keep(A, n, sub, v.v, was.s) == now
              && StepNamed(A, n, sub, op == '+', was.s) == stepped)
  {
    hide Placed, LoadVar, StoreVar, StepVar, Elem, SetElem, StepElem, Ensure, Subscript;
    if n.Simple? {
      VarStepped(A, s, n.name, op == '+');
    } else if Subscript(A, sub).Just? {
      ElementStepped(A, s, n.arr, Subscript(A, sub).v, op == '+');
    }
  }

  lemma VarStepped(A: Arith, s: Store, x: nat, up: bool)
    requires StepsByOne(A) && x > 3
    ensures A.binary(if up then '+' else '-', LoadVar(A, s, x), A.one, s.scale)
            == Just(LoadVar(A, StepVar(A, s, x, up), x))
    ensures StepVar(A, s, x, up) == StoreVar(A, s, x, LoadVar(A, StepVar(A, s, x, up), x))
  {
  }

  lemma ElementStepped(A: Arith, s: Store, a: nat, i: int, up: bool)
    requires StepsByOne(A) && Placed(s)
    ensures var s1, s2 := Ensure(s, a), StepElem(A, s, a, i, up);
            s1.scale == s.scale && Ensure(s2, a) == s2
            && A.binary(if up then '+' else '-', Elem(A, s, a, i), A.one, s.scale) == Just(Elem(A, s2, a, i))
            && SetElem(s1, a, i, Elem(A, s2, a, i)) == s2 && StepElem(A, s1, a, i, up) == s2
  {
    hide Placed;
    PlaceIn(s, a);
  }

  // ---- The special variables -------------------------------------------------------------

  // The numbers that stand for integers.
  ghost predicate Counts(A: Arith)
  {
    (forall n: int :: (A.isNeg(A.ofInt(n)) <==> n < 0) && (A.isZero(A.ofInt(n)) <==> n == 0))
    && (forall n: int ::
          A.toLong(A.ofInt(n)) == n || (!(-BC_BASE_MAX <= n <= BC_BASE_MAX) && A.toLong(A.ofInt(n)) == 0))
    && forall n: int :: A.succ(A.ofInt(n)) == A.ofInt(n + 1) && A.pred(A.ofInt(n)) == A.ofInt(n - 1)
  }

  // The number from lo to hi that is nearest to n.
  function Nearest(lo: int, hi: int, n: int): (r: int)
    requires lo <= hi
    ensures lo <= r <= hi && (lo <= n <= hi ==> r == n) && (n < lo ==> r == lo) && (n > hi ==> r == hi)
  {
    if n < lo then lo else if n > hi then hi else n
  }

  // What a special variable cannot take goes to the nearest limit.
  lemma SpecialTakes(A: Arith, s: Store, n: int)
    requires Counts(A)
    ensures StoreVar(A, s, 0, A.ofInt(n)) == s.(ibase := Nearest(2, 16, n))
    ensures StoreVar(A, s, 1, A.ofInt(n)) == s.(obase := Nearest(2, BC_BASE_MAX, n))
    ensures StoreVar(A, s, 2, A.ofInt(n)) == s.(scale := Nearest(0, BC_SCALE_MAX, n))
  {
  }

  // The history variable takes nothing that is stored, but it is stepped.
  lemma HistoryIs(A: Arith, s: Store, v: Num, up: bool)
    ensures StoreVar(A, s, 3, v) == s
    ensures StepsByOne(A)
            ==> A.binary(if up then '+' else '-', LoadVar(A, s, 3), A.one, s.scale)
                == Just(LoadVar(A, StepVar(A, s, 3, up), 3))
  {
  }

  ghost predicate InRange(s: Store)
  {
    2 <= s.ibase <= 16 && 2 <= s.obase <= BC_BASE_MAX && 0 <= s.scale <= BC_SCALE_MAX
  }

  // A step of a special variable stores what the addition of one gives.
  lemma SpecialSteps(A: Arith, s: Store, x: nat, up: bool)
    requires Counts(A) && InRange(s) && x <= 2
    ensures StepVar(A, s, x, up) == StoreVar(A, s, x, if up then A.succ(LoadVar(A, s, x)) else A.pred(LoadVar(A, s, x)))
  {
    var n := if x == 0 then s.ibase else if x == 1 then s.obase else s.scale;
    SpecialTakes(A, s, if up then n + 1 else n - 1);
  }

  // A subscript is a number from 0 to 65535; one that is between zero and one is none.
  lemma SubscriptIs(A: Arith, n: int, v: Num)
    requires Counts(A)
    ensures Subscript(A, A.ofInt(n)) == if 0 <= n <= 65535 then Just(n) else Nothing
    ensures A.toLong(v) == 0 && !A.isZero(v) ==> Subscript(A, v).Nothing?
  {
  }

  // ---- The special variables over a run --------------------------------------------------

  // A number that is not negative does not come out negative.
  ghost predicate Unsigned(A: Arith)
  {
    forall v: Num :: !A.isNeg(v) ==> A.toLong(v) >= 0
  }

  lemma VarInRange(A: Arith, s: Store, x: nat, v: Num, up: bool)
    requires Unsigned(A) && InRange(s)
    ensures InRange(StoreVar(A, s, x, v)) && StoreVar(A, s, x, v).out == s.out
    ensures InRange(StepVar(A, s, x, up)) && StepVar(A, s, x, up).out == s.out
  {
  }

  // The special variables are within their limits, and so are the bases to which calls
  // have come.
  ghost predicate RangesHold(m: Machine)
  {
    InRange(m.s) && forall i :: 0 <= i < |m.frames| ==> 2 <= m.frames[i].ibase <= 16
  }

  lemma StepInRange(P: Program, m: Machine)
    requires Unsigned(P.C.A) && RangesHold(m)
    ensures RangesHold(Step(P, m)) && m.s.out <= Step(P, m).s.out
  {
    hide LeaveFrame, EnterFrame, StoreVar, StepVar, RangesHold, InRange, Truth, Holds;
    if Active(P, m) {
      var m1, it := Next(m), Segment(P, m.fn)[m.pc];
      SameMachine(m, m1);
      match it
      case Plain(c) => PlainInRange(P, m1, c);
      case OnVar(c, x) => OnVarInRange(P, m1, c, x);
      case Enter(f, kinds) => EnterInRange(P, m1, f, kinds);
      case Jump(c, id) => SameMachine(m1, Exec(P, m1, it));
      case Label(_) =>
      case Const(_) => SameMachine(m1, Exec(P, m1, it));
      case Builtin(_) => SameMachine(m1, Exec(P, m1, it));
      case Str(c, s) => PutInRange(m1, OutText(s, c == 'O'));
    }
  }

  lemma SameMachine(m: Machine, m1: Machine)
    requires RangesHold(m) && m1.s.ibase == m.s.ibase && m1.s.obase == m.s.obase && m1.s.scale == m.s.scale
    requires m1.frames == m.frames
    ensures RangesHold(m1)
  {
  }

  lemma PutInRange(m: Machine, e: Event)
    requires RangesHold(m)
    ensures RangesHold(m.(s := Put(m.s, e))) && m.s.out <= Put(m.s, e).out
  {
  }

  lemma PlainInRange(P: Program, m: Machine, c: char)
    requires Unsigned(P.C.A) && RangesHold(m)
    ensures var m1 := ExecPlain(P, m, c); RangesHold(m1) && m.s.out <= m1.s.out
  {
    hide LeaveFrame, StoreVar, InRange, Truth, Holds;
    var A := P.C.A;
    if c == 'R' {
      if m.fn in P.C.functions {
        FrameKeepsRest(A, m.s, P.C.functions[m.fn], [], m.s);
        InRangeRest(m.s, LeaveFrame(m.s, P.C.functions[m.fn]));
      }
    } else if (c == 'W' || c == 'P') && m.stack != [] {
      var v := TopOf(m);
      var e := OutNum(v, m.s.obase, c == 'W');
      PutInRange(m, e);
      VarInRange(A, Put(m.s, e), 4, v, true);
    }
  }

  lemma InRangeRest(s: Store, s': Store)
    requires InRange(s) && RestKept(s, s')
    ensures InRange(s')
  {
  }

  lemma OnVarInRange(P: Program, m: Machine, c: char, x: nat)
    requires Unsigned(P.C.A) && RangesHold(m)
    ensures var m1 := ExecOnVar(P, m, c, x); RangesHold(m1) && m.s.out <= m1.s.out
  {
    hide StoreVar, StepVar, Subscript, LoadVar, Elem, Ensure, SetElem, StepElem, InRange;
    var A := P.C.A;
    VarInRange(A, m.s, x, if m.stack == [] then A.zero else TopOf(m), c == 'i');
    if |m.stack| >= 2 && Subscript(A, m.stack[|m.stack| - 2]).Just? {
      var i := Subscript(A, m.stack[|m.stack| - 2]).v;
      ArraysRest(A, m.s, x, i, TopOf(m), true);
      InRangeRest(m.s, SetElem(m.s, x, i, TopOf(m)));
    }
    if m.stack != [] && Subscript(A, TopOf(m)).Just? {
      var i := Subscript(A, TopOf(m)).v;
      ArraysRest(A, m.s, x, i, TopOf(m), c == 'A');
      InRangeRest(m.s, Ensure(m.s, x));
      InRangeRest(m.s, StepElem(A, m.s, x, i, c == 'A'));
    }
  }

  lemma ArraysRest(A: Arith, s: Store, a: nat, i: int, v: Num, up: bool)
    ensures RestKept(s, Ensure(s, a)) && RestKept(s, SetElem(s, a, i, v)) && RestKept(s, StepElem(A, s, a, i, up))
  {
  }

  lemma EnterInRange(P: Program, m: Machine, f: nat, kinds: seq<bool>)
    requires Unsigned(P.C.A) && RangesHold(m)
    ensures var m1 := ExecEnter(P, m, f, kinds); RangesHold(m1) && m.s.out <= m1.s.out
  {
    hide EnterFrame, ArgsOn, ArraysNamed;
    if f in P.C.functions && |m.stack| >= |kinds| && ArraysNamed(P.C.A, kinds, m.stack[|m.stack| - |kinds|..]) {
      FrameKeepsRest(P.C.A, m.s, P.C.functions[f], ArgsOn(P.C.A, kinds, m.stack[|m.stack| - |kinds|..]), m.s);
    }
  }

  // In a run the special variables stay within their limits, and what has been put out
  // stays.
  lemma {:induction false} RunInRange(P: Program, m: Machine, n: nat)
    requires Unsigned(P.C.A) && RangesHold(m)
    ensures RangesHold(Run(P, m, n)) && m.s.out <= Run(P, m, n).s.out
    decreases n
  {
    hide RangesHold, Step;
    if n > 0 {
      StepInRange(P, m);
      RunInRange(P, Step(P, m), n - 1);
    }
  }

  // ---- Comparison, output, calls ---------------------------------------------------------

  // With numbers that stand for reals, and compare their order, a comparison is one
  // exactly when the reals compare so, and else zero.
  ghost predicate Ordered(A: Arith, val: Num -> real)
  {
    forall x: Num, y: Num ::
      A.compare(x, y) == if val(x) < val(y) then -1 else if val(x) > val(y) then 1 else 0
  }

  predicate Compares(op: RelOp, u: real, w: real)
  {
    if op == '=' then u == w else if op == '#' then u != w else if op == '<' then u < w
    else if op == '{' then u <= w else if op == '>' then u > w else u >= w
  }

  lemma {:induction false} RelationMeans(C: Context, val: Num -> real, op: RelOp, a: Expr, b: Expr, s: Store,
      cb: ConstBase, fuel: nat)
    requires Ordered(C.A, val)
    requires EvalE(C, a, s, cb, fuel).Ok?
    requires EvalE(C, b, EvalE(C, a, s, cb, fuel).s, cb, fuel).Ok?
    ensures var x := EvalE(C, a, s, cb, fuel);
            var y := EvalE(C, b, x.s, cb, fuel);
            EvalE(C, Relation(op, a, b), s, cb, fuel)
            == Ok(if Compares(op, val(x.v), val(y.v)) then C.A.one else C.A.zero, y.s)
  {
    hide EvalE, Compares, Holds, Ordered;
    var x := EvalE(C, a, s, cb, fuel);
    HoldsMeans(C.A, val, op, x.v, EvalE(C, b, x.s, cb, fuel).v);
    RelationIs(C, op, a, b, s, cb, fuel);
  }

  lemma {:induction false} RelationIs(C: Context, op: RelOp, a: Expr, b: Expr, s: Store, cb: ConstBase, fuel: nat)
    ensures var x := EvalE(C, a, s, cb, fuel);
            x.Ok? ==>
              var y := EvalE(C, b, x.s, cb, fuel);
              y.Ok? ==>
                EvalE(C, Relation(op, a, b), s, cb, fuel)
                == Ok(Truth(C.A, Holds(op, C.A.compare(x.v, y.v))), y.s)
  {
    hide Holds, EvalN, EvalEs, Apply, Fetch, Keep, StepNamed, NumberValue, OfMaybe;
  }

  lemma HoldsMeans(A: Arith, val: Num -> real, op: RelOp, x: Num, y: Num)
    requires Ordered(A, val)
    ensures Holds(op, A.compare(x, y)) <==> Compares(op, val(x), val(y))
  {
  }

  // An assignment, or operators on assignments only, without parentheses around.
  predicate Quiet(e: Expr)
  {
    match e
    case Assign(_, _, _) => true
    case And(a, b) => Quiet(a) && Quiet(b)
    case Or(a, b) => Quiet(a) && Quiet(b)
    case Binary(_, a, b) => Quiet(a) && Quiet(b)
    case Not(a) => Quiet(a)
    case Negate(a) => Quiet(a)
    case _ => false
  }

  // All other expressions are shown.
  lemma {:induction false} ShownExactly(e: Expr)
    ensures AttrOf(e).value <==> !Quiet(e)
  {
    match e
    case And(a, b) =>
      ShownExactly(a);
      ShownExactly(b);
    case Or(a, b) =>
      ShownExactly(a);
      ShownExactly(b);
    case Binary(_, a, b) =>
      ShownExactly(a);
      ShownExactly(b);
    case Not(a) => ShownExactly(a);
    case Negate(a) => ShownExactly(a);
    case _ =>
  }

  // The value of an expression that is shown is put out in the output base, and is the
  // last one.
  lemma {:induction false} ShownIsLast(C: Context, e: Expr, s: Store, cb: ConstBase, fuel: nat)
    requires AttrOf(e).value && EvalE(C, e, s, cb, fuel).Ok?
    ensures var r, q := EvalE(C, e, s, cb, fuel), EvalS(C, Expression(e), s, cb, fuel);
            q.Ok? && q.v == Normal && q.s.out == r.s.out + [OutNum(r.v, r.s.obase, true)] && LoadVar(C.A, q.s, 4) == r.v
  {
  }

  // The autos of a function are zero when it begins.
  lemma {:induction false} AutosZero(A: Arith, s: Store, names: seq<int>, name: int)
    requires name in names
    ensures name > 0 ==> VarStack(PushAutos(A, s, names), name) != [] && Top(A, PushAutos(A, s, names), name) == A.zero
    ensures name <= 0 ==> PlaceOf(PushAutos(A, s, names), -name) == Unset
    decreases |names|
  {
    var s1 := AutoVar(A, s, names[|names| - 1]);
    if name in names[..|names| - 1] {
      AutosZero(A, s1, names[..|names| - 1], name);
    } else {
      AutosElsewhere(A, s1, names[..|names| - 1], name);
    }
  }

  lemma {:induction false} AutosElsewhere(A: Arith, s: Store, names: seq<int>, name: int)
    requires name !in names
    ensures name > 0 ==> VarStack(PushAutos(A, s, names), name) == VarStack(s, name)
    ensures name <= 0 ==> ArrayStack(PushAutos(A, s, names), -name) == ArrayStack(s, -name)
    decreases |names|
  {
    if names != [] { AutosElsewhere(A, AutoVar(A, s, names[|names| - 1]), names[..|names| - 1], name); }
  }

  // f(x) { return (x) } gives its argument, and x is afterwards what it was.
  lemma ArgumentReturned(C: Context, f: nat, x: nat, v: Num, s: Store, y: nat, fuel: nat)
    requires x > 3 && fuel > 0 && f in C.functions
    requires C.functions[f] == Function([Scalar(x)], [], MoreStmts(Return(Some(Value(Simple(x)))), NoStmts))
    ensures var r := Apply(C, f, [Single(v)], s, fuel);
            r.Ok? && r.v == v && VarStack(r.s, y) == VarStack(s, y) && LoadVar(C.A, r.s, y) == LoadVar(C.A, s, y)
  {
    hide LoadVar, Top;
    var fn := C.functions[f];
    var s1 := PushVar(s, x, v);
    assert fn.params[..0] == [] && [Single(v)][..0] == [];
    assert Bind(s, fn.params, [Single(v)]) == Bind(s1, [], []) == Bound(s1, true);
    assert EnterFrame(C.A, s, fn, [Single(v)]) == Bound(s1, true);
    ReadsPushed(C.A, s, x, v);
    ReturnsValue(C, x, s1, Saved(s1.ibase), fuel - 1);
    assert Names(fn.params) == [x as int] && PopNames(s1, []) == s1;
    OnePopped(s1, x);
    SameStack(C.A, s, PopName(s1, x), y);
  }

  lemma ReadsPushed(A: Arith, s: Store, x: nat, v: Num)
    requires x > 3
    ensures LoadVar(A, PushVar(s, x, v), x) == v
  {
  }

  lemma SameStack(A: Arith, s: Store, s1: Store, y: nat)
    requires RestKept(s, s1) && VarStack(s1, y) == VarStack(s, y)
    ensures LoadVar(A, s1, y) == LoadVar(A, s, y)
  {
  }

  lemma ReturnsValue(C: Context, x: nat, s: Store, cb: ConstBase, fuel: nat)
    ensures EvalSs(C, MoreStmts(Return(Some(Value(Simple(x)))), NoStmts), s, cb, fuel)
            == Ok(Returned(LoadVar(C.A, s, x)), s)
  {
    hide LoadVar;
    assert EvalN(C, Simple(x), s, cb, fuel) == Ok(C.A.zero, s);
    assert EvalE(C, Value(Simple(x)), s, cb, fuel) == Ok(LoadVar(C.A, s, x), s);
    assert EvalS(C, Return(Some(Value(Simple(x)))), s, cb, fuel) == Ok(Returned(LoadVar(C.A, s, x)), s);
  }

  lemma OnePopped(s: Store, x: int)
    ensures PopNames(s, [x]) == PopName(s, x)
  {
    hide PopName;
    assert [x][..0] == [];
    assert PopNames(s, [x]) == PopNames(PopName(s, x), []);
  }
}
