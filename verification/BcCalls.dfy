// Calls: what a function hides is after the call as it was before, and the stacks of
// variables and arrays are as deep.
module BcCalls {
  import opened BcSyntax
  import opened BcStore
  import opened BcEval
  import opened BcMachine
  import opened BcSteps
  import opened BcSimulation

  // ---- Depths ----------------------------------------------------------------------------

  // The name of an array.
  function ArrayName(a: nat): int
  {
    var i: int := a;
    -i
  }

  // How deep the stack of a name is; variables are positive.
  function Depth(s: Store, name: int): nat
  {
    if name > 0 then |VarStack(s, name)| else |ArrayStack(s, -name)|
  }

  // The same depth, except that a name may have come into use.
  predicate Level(before: int, after: int)
  {
    after == before || (before == 0 && after == 1)
  }

  ghost predicate Levels(s: Store, s': Store)
  {
    forall name: int :: Level(Depth(s, name), Depth(s', name))
  }

  // Below the top nothing changes.
  predicate VarKeeps(st: seq<Num>, st': seq<Num>)
  {
    Level(|st|, |st'|) && forall i :: 0 <= i < |st| - 1 ==> st'[i] == st[i]
  }

  predicate SlotsKept(st: seq<Slot>, st': seq<Slot>)
  {
    |st| <= |st'| && forall i :: 0 <= i < |st| && st[i].Slot? ==> st'[i] == st[i]
  }

  // Nor does a place that is on top.
  predicate ArrayKeeps(st: seq<Slot>, st': seq<Slot>)
  {
    Level(|st|, |st'|) && SlotsKept(st, st') && forall i :: 0 <= i < |st| - 1 ==> st'[i] == st[i]
  }

  ghost predicate Under(s: Store, s': Store)
  {
    (forall x: nat :: x > 0 ==> VarKeeps(VarStack(s, x), VarStack(s', x)))
    && forall a: nat :: ArrayKeeps(ArrayStack(s, a), ArrayStack(s', a))
  }

  predicate InCells(s: Store, p: Slot)
  {
    p.Slot? ==> p.id < |s.cells|
  }

  // Every array in use has its place.
  ghost predicate Placed(s: Store)
  {
    forall a: nat, k: nat :: k < |ArrayStack(s, a)| ==> InCells(s, ArrayStack(s, a)[k])
  }

  ghost predicate Same(s: Store, s': Store)
  {
    Levels(s, s') && Under(s, s') && (Placed(s) ==> Placed(s'))
  }

  ghost predicate Keeps<T>(s: Store, r: Result<T>)
  {
    r.Ok? ==> Same(s, r.s)
  }

  lemma SameSame(s: Store, s1: Store, s2: Store)
    requires Same(s, s1) && Same(s1, s2)
    ensures Same(s, s2)
  {
    hide Depth, Placed;
    forall name: int ensures Level(Depth(s, name), Depth(s2, name)) {
      assert Level(Depth(s, name), Depth(s1, name)) && Level(Depth(s1, name), Depth(s2, name));
    }
    UnderUnder(s, s1, s2);
  }

  lemma UnderUnder(s: Store, s1: Store, s2: Store)
    requires Under(s, s1) && Under(s1, s2)
    ensures Under(s, s2)
  {
    hide VarStack, ArrayStack;
    forall x: nat | x > 0 ensures VarKeeps(VarStack(s, x), VarStack(s2, x)) {
      assert VarKeeps(VarStack(s, x), VarStack(s1, x)) && VarKeeps(VarStack(s1, x), VarStack(s2, x));
    }
    forall a: nat ensures ArrayKeeps(ArrayStack(s, a), ArrayStack(s2, a)) {
      assert ArrayKeeps(ArrayStack(s, a), ArrayStack(s1, a)) && ArrayKeeps(ArrayStack(s1, a), ArrayStack(s2, a));
    }
  }

  lemma SameSelf(s: Store)
    ensures Same(s, s)
  {
  }

  // The arrays of s' are those of s.
  lemma SameArrays(s: Store, s': Store)
    requires s'.arrays == s.arrays && s'.cells == s.cells && Levels(s, s')
    requires forall x: nat :: x > 0 ==> VarKeeps(VarStack(s, x), VarStack(s', x))
    ensures Same(s, s')
  {
    hide Levels;
    forall a: nat ensures ArrayKeeps(ArrayStack(s, a), ArrayStack(s', a)) {
      assert ArrayStack(s', a) == ArrayStack(s, a);
    }
    if Placed(s) {
      forall a: nat, k: nat | k < |ArrayStack(s', a)| ensures InCells(s', ArrayStack(s', a)[k]) {
        assert ArrayStack(s', a) == ArrayStack(s, a) && InCells(s, ArrayStack(s, a)[k]);
      }
    }
  }

  lemma StoreKeeps(A: Arith, s: Store, x: nat, v: Num)
    ensures Same(s, StoreVar(A, s, x, v))
  {
    hide Same;
    SameArrays(s, StoreVar(A, s, x, v));
  }

  lemma StepKeeps(A: Arith, n: Named, sub: Num, up: bool, s: Store)
    ensures Keeps(s, StepNamed(A, n, sub, up, s))
  {
    hide Same, Subscript;
    match n
    case Simple(x) => SimpleStepKeeps(A, s, x, up);
    case Element(a, _) =>
      if Subscript(A, sub).Just? {
        var i := Subscript(A, sub).v;
        SetElemKeeps(s, a, i, if up then A.succ(Elem(A, s, a, i)) else A.pred(Elem(A, s, a, i)));
      }
  }

  lemma SimpleStepKeeps(A: Arith, s: Store, x: nat, up: bool)
    ensures Same(s, StepVar(A, s, x, up))
  {
    hide Same;
    SameArrays(s, StepVar(A, s, x, up));
  }

  lemma EnsureKeeps(s: Store, a: nat)
    ensures Same(s, Ensure(s, a)) && PlaceOf(Ensure(s, a), a).Slot?
    ensures forall name: int :: name + a != 0 ==> Depth(Ensure(s, a), name) == Depth(s, name)
  {
    hide Placed;
    EnsurePlaced(s, a);
  }

  lemma EnsurePlaced(s: Store, a: nat)
    ensures Placed(s) ==> Placed(Ensure(s, a))
  {
    var s1 := Ensure(s, a);
    if Placed(s) {
      forall b: nat, k: nat | k < |ArrayStack(s1, b)| ensures InCells(s1, ArrayStack(s1, b)[k]) {
        if k < |ArrayStack(s, b)| { assert InCells(s, ArrayStack(s, b)[k]); }
      }
    }
  }

  lemma SetElemKeeps(s: Store, a: nat, i: int, v: Num)
    ensures Same(s, SetElem(s, a, i, v))
  {
    hide Placed, Ensure;
    var s1, s2 := Ensure(s, a), SetElem(s, a, i, v);
    EnsureKeeps(s, a);
    assert s2.arrays == s1.arrays && s2.vars == s1.vars && |s2.cells| == |s1.cells|;
    if Placed(s1) { SameSlots(s1, s2); }
    assert Levels(s1, s2);
    SameSame(s, s1, s2);
  }

  lemma SameSlots(s: Store, s': Store)
    requires s'.arrays == s.arrays && |s'.cells| >= |s.cells| && Placed(s)
    ensures Placed(s')
  {
    forall a: nat, k: nat | k < |ArrayStack(s', a)| ensures InCells(s', ArrayStack(s', a)[k]) {
      assert ArrayStack(s', a) == ArrayStack(s, a) && InCells(s, ArrayStack(s, a)[k]);
    }
  }

  lemma FetchKeeps(A: Arith, n: Named, sub: Num, s: Store)
    ensures Keeps(s, Fetch(A, n, sub, s))
  {
    hide Same, Subscript, LoadVar, Elem, Ensure;
    if n.Simple? { SameSelf(s); } else { EnsureKeeps(s, n.arr); }
  }

  lemma KeepKeeps(A: Arith, n: Named, sub: Num, v: Num, s: Store)
    ensures Keeps(s, Keep(A, n, sub, v, s))
  {
    hide StoreVar, Same, Subscript, SetElem;
    match n
    case Simple(x) => StoreKeeps(A, s, x, v);
    case Element(a, _) => if Subscript(A, sub).Just? { SetElemKeeps(s, a, Subscript(A, sub).v, v); }
  }

  lemma PutKeeps(s: Store, e: Event)
    ensures Same(s, Put(s, e))
  {
    SameArrays(s, Put(s, e));
  }

  // ---- Frames ----------------------------------------------------------------------------

  function CountIn(names: seq<int>, name: int): nat
    decreases |names|
  {
    if names == [] then 0 else (if names[|names| - 1] == name then 1 else 0) + CountIn(names[..|names| - 1], name)
  }

  lemma {:induction false} CountsIn(names: seq<int>, name: int)
    requires name in names
    ensures CountIn(names, name) > 0
    decreases |names|
  {
    if names[|names| - 1] != name { CountsIn(names[..|names| - 1], name); }
  }

  lemma AutoKeeps(A: Arith, s: Store, auto: int, name: int)
    ensures Depth(AutoVar(A, s, auto), name) == Depth(s, name) + if auto == name then 1 else 0
    ensures Placed(s) ==> Placed(AutoVar(A, s, auto))
  {
    var s1 := AutoVar(A, s, auto);
    if Placed(s) {
      forall a: nat, k: nat | k < |ArrayStack(s1, a)| ensures InCells(s1, ArrayStack(s1, a)[k]) {
        if k < |ArrayStack(s, a)| { assert InCells(s, ArrayStack(s, a)[k]); }
      }
    }
  }

  lemma {:induction false} AutosDeepen(A: Arith, s: Store, names: seq<int>, name: int)
    ensures Depth(PushAutos(A, s, names), name) == Depth(s, name) + CountIn(names, name)
    ensures Placed(s) ==> Placed(PushAutos(A, s, names))
    decreases |names|
  {
    hide AutoVar, Depth, Placed;
    if names != [] {
      var last := names[|names| - 1];
      AutoKeeps(A, s, last, name);
      AutosDeepen(A, AutoVar(A, s, last), names[..|names| - 1], name);
    }
  }

  predicate Positive(params: seq<Param>)
  {
    forall i :: 0 <= i < |params| ==> params[i].Array? || params[i].name > 0
  }

  predicate IsArray(a: Arg, name: int)
  {
    a.Whole? && name + a.arr == 0
  }

  // The array with this name is an argument.
  predicate Passed(args: seq<Arg>, name: int)
  {
    exists i :: 0 <= i < |args| && IsArray(args[i], name)
  }

  lemma BindOneDeepens(s: Store, p: Param, a: Arg, name: int)
    requires Matching(p, a) && (p.Array? || p.name > 0)
    ensures var before := Depth(BindOne(s, p, a), name) - (if NameOf(p) == name then 1 else 0);
            Level(Depth(s, name), before) && (before != Depth(s, name) ==> IsArray(a, name))
    ensures Placed(s) ==> Placed(BindOne(s, p, a))
  {
    hide Ensure, Placed;
    match p
    case Scalar(x) => if Placed(s) { SameSlots(s, BindOne(s, p, a)); }
    case Array(x, byRef) =>
      EnsureKeeps(s, a.arr);
      var s1 := Ensure(s, a.arr);
      assert Level(Depth(s, name), Depth(s1, name));
      if Placed(s) {
        PlaceIn(s1, a.arr);
        var s2 := if byRef then s1 else s1.(cells := s1.cells + [Elements(s1, a.arr)]);
        SameSlots(s1, s2);
        PushKeeps(s2, x, if byRef then PlaceOf(s1, a.arr).(shared := true) else Slot(|s1.cells|, false));
      }
  }

  lemma PlaceIn(s: Store, a: nat)
    requires Placed(s)
    ensures InCells(s, PlaceOf(s, a))
  {
    var st := ArrayStack(s, a);
    if st != [] { assert InCells(s, st[|st| - 1]); }
  }

  lemma PushKeeps(s: Store, x: nat, p: Slot)
    requires Placed(s) && InCells(s, p)
    ensures Placed(PushArray(s, x, p))
  {
    var s1 := PushArray(s, x, p);
    forall a: nat, k: nat | k < |ArrayStack(s1, a)| ensures InCells(s1, ArrayStack(s1, a)[k]) {
      if k < |ArrayStack(s, a)| { assert InCells(s, ArrayStack(s, a)[k]); }
    }
  }

  lemma {:induction false} BindDeepens(s: Store, params: seq<Param>, args: seq<Arg>, name: int)
    requires Bind(s, params, args).ok && Positive(params)
    ensures |params| == |args|
    ensures var before := Depth(Bind(s, params, args).s, name) - CountIn(Names(params), name);
            Level(Depth(s, name), before) && (before != Depth(s, name) ==> Passed(args, name))
    ensures Placed(s) ==> Placed(Bind(s, params, args).s)
    decreases |args|
  {
    hide BindOne, Depth, Placed, Passed, IsArray;
    if args != [] && params != [] {
      var n := |params| - 1;
      var p, a := params[n], args[|args| - 1];
      var s1 := BindOne(s, p, a);
      BindOneDeepens(s, p, a, name);
      assert Names(params)[..n] == Names(params[..n]);
      BindDeepens(s1, params[..n], args[..|args| - 1], name);
      PassedMore(args, name);
    }
  }

  lemma PassedMore(args: seq<Arg>, name: int)
    requires args != []
    ensures Passed(args[..|args| - 1], name) ==> Passed(args, name)
    ensures IsArray(args[|args| - 1], name) ==> Passed(args, name)
  {
    if Passed(args[..|args| - 1], name) {
      var i :| 0 <= i < |args| - 1 && IsArray(args[..|args| - 1][i], name);
      assert IsArray(args[i], name);
    }
  }

  // What the function binds is afterwards as it was before: a variable has the values it
  // had; an array stands for what it stood for, unless it comes into use because it is
  // passed.
  ghost predicate Uncovered(s: Store, f: Function, args: seq<Arg>, s': Store)
  {
    (forall x: nat :: Binds(f, x) && x > 0 ==> VarStack(s', x) == VarStack(s, x))
    && forall a: nat :: Binds(f, ArrayName(a)) && !Passed(args, ArrayName(a)) ==> ArrayStack(s', a) == ArrayStack(s, a)
  }

  predicate Binds(f: Function, name: int)
  {
    name in f.autos || name in Names(f.params)
  }

  // ---- What is hidden ------------------------------------------------------------------------

  lemma {:induction false} AutosHide(A: Arith, s: Store, names: seq<int>, x: nat)
    ensures VarStack(s, x) <= VarStack(PushAutos(A, s, names), x)
    ensures ArrayStack(s, x) <= ArrayStack(PushAutos(A, s, names), x)
    decreases |names|
  {
    if names != [] { AutosHide(A, AutoVar(A, s, names[|names| - 1]), names[..|names| - 1], x); }
  }

  lemma BindOneHides(s: Store, p: Param, a: Arg, x: nat)
    requires Matching(p, a)
    ensures VarStack(s, x) <= VarStack(BindOne(s, p, a), x)
    ensures SlotsKept(ArrayStack(s, x), ArrayStack(BindOne(s, p, a), x))
    ensures a != Whole(x) ==> ArrayStack(s, x) <= ArrayStack(BindOne(s, p, a), x)
    ensures forall i :: 0 <= i < |ArrayStack(s, x)| - 1 ==> ArrayStack(BindOne(s, p, a), x)[i] == ArrayStack(s, x)[i]
  {
    hide Ensure;
    if p.Array? {
      EnsureHides(s, a.arr, x);
      var s1 := Ensure(s, a.arr);
      var s2 := if p.byRef then s1 else s1.(cells := s1.cells + [Elements(s1, a.arr)]);
      var place := if p.byRef then PlaceOf(s1, a.arr).(shared := true) else Slot(|s1.cells|, false);
      assert BindOne(s, p, a) == PushArray(s2, p.name, place);
      assert ArrayStack(s1, x) <= ArrayStack(BindOne(s, p, a), x);
    }
  }

  lemma EnsureHides(s: Store, a: nat, x: nat)
    ensures PlaceOf(Ensure(s, a), a).Slot? && Ensure(s, a).vars == s.vars
    ensures SlotsKept(ArrayStack(s, x), ArrayStack(Ensure(s, a), x))
    ensures a != x ==> ArrayStack(Ensure(s, a), x) == ArrayStack(s, x)
    ensures forall i :: 0 <= i < |ArrayStack(s, x)| - 1 ==> ArrayStack(Ensure(s, a), x)[i] == ArrayStack(s, x)[i]
  {
  }

  lemma {:induction false} BindHides(s: Store, params: seq<Param>, args: seq<Arg>, x: nat)
    ensures VarStack(s, x) <= VarStack(Bind(s, params, args).s, x)
    ensures SlotsKept(ArrayStack(s, x), ArrayStack(Bind(s, params, args).s, x))
    ensures !Passed(args, ArrayName(x)) ==> ArrayStack(s, x) <= ArrayStack(Bind(s, params, args).s, x)
    ensures forall i :: 0 <= i < |ArrayStack(s, x)| - 1 ==>
              ArrayStack(Bind(s, params, args).s, x)[i] == ArrayStack(s, x)[i]
    decreases |args|
  {
    hide BindOne, VarStack, ArrayStack, Passed;
    if args != [] && params != [] && Matching(params[|params| - 1], args[|args| - 1]) {
      var n, m := |params| - 1, |args| - 1;
      var s1 := BindOne(s, params[n], args[m]);
      BindOneHides(s, params[n], args[m], x);
      BindHides(s1, params[..n], args[..m], x);
      PassedMore(args, ArrayName(x));
      PassedIs(args[m], x);
    }
  }

  lemma PassedIs(a: Arg, x: nat)
    ensures IsArray(a, ArrayName(x)) <==> a == Whole(x)
  {
  }

  lemma {:induction false} PopsUncover(s: Store, names: seq<int>, x: nat)
    requires x > 0 ==> |VarStack(s, x)| >= CountIn(names, x)
    requires |ArrayStack(s, x)| >= CountIn(names, ArrayName(x))
    ensures x > 0 ==> VarStack(PopNames(s, names), x) == VarStack(s, x)[..|VarStack(s, x)| - CountIn(names, x)]
    ensures x == 0 ==> VarStack(PopNames(s, names), x) == VarStack(s, x)
    ensures ArrayStack(PopNames(s, names), x) == ArrayStack(s, x)[..|ArrayStack(s, x)| - CountIn(names, ArrayName(x))]
    decreases |names|
  {
    if names != [] {
      var last, rest := names[|names| - 1], names[..|names| - 1];
      PopUncovers(s, last, x);
      PopsUncover(PopName(s, last), rest, x);
    }
  }

  // The top of the stack goes.
  lemma PopUncovers(s: Store, last: int, x: nat)
    requires last > 0 && last == x ==> VarStack(s, x) != []
    requires last <= 0 && last == ArrayName(x) ==> ArrayStack(s, x) != []
    ensures VarStack(PopName(s, last), x)
            == if last > 0 && last == x then VarStack(s, x)[..|VarStack(s, x)| - 1] else VarStack(s, x)
    ensures ArrayStack(PopName(s, last), x)
            == if last <= 0 && last == ArrayName(x) then ArrayStack(s, x)[..|ArrayStack(s, x)| - 1]
               else ArrayStack(s, x)
  {
  }

  // A variable that the function binds has its values again; of the others, those below
  // the top.
  lemma VarsBack(A: Arith, s: Store, f: Function, args: seq<Arg>, s1: Store, x: nat)
    requires x > 0 && Positive(f.params) && EnterFrame(A, s, f, args).ok && Same(EnterFrame(A, s, f, args).s, s1)
    ensures var st, st' := VarStack(s, x), VarStack(LeaveFrame(s1, f), x);
            VarKeeps(st, st') && ((x in f.autos || x in Names(f.params)) ==> st' == st)
  {
    hide PushAutos, PopNames, Bind, CountIn, Passed, Placed, VarStack, ArrayStack;
    VarsAfter(A, s, f, args, s1, x);
    if x in f.autos { CountsIn(f.autos, x); }
    if x in Names(f.params) { CountsIn(Names(f.params), x); }
  }

  // An array that the function binds stands for what it stood for.
  lemma ArraysBack(A: Arith, s: Store, f: Function, args: seq<Arg>, s1: Store, a: nat)
    requires Positive(f.params) && EnterFrame(A, s, f, args).ok && Same(EnterFrame(A, s, f, args).s, s1)
    ensures var st, st' := ArrayStack(s, a), ArrayStack(LeaveFrame(s1, f), a);
            ArrayKeeps(st, st')
            && (ArrayName(a) in f.autos || ArrayName(a) in Names(f.params) ==>
                  Passed(args, ArrayName(a)) || st' == st)
  {
    hide PushAutos, PopNames, Bind, CountIn, Passed, Placed, VarStack, ArrayStack;
    ArraysAfter(A, s, f, args, s1, a);
    if ArrayName(a) in f.autos { CountsIn(f.autos, ArrayName(a)); }
    if ArrayName(a) in Names(f.params) { CountsIn(Names(f.params), ArrayName(a)); }
  }

  // The stack of a variable after the call.
  lemma VarsAfter(A: Arith, s: Store, f: Function, args: seq<Arg>, s1: Store, x: nat)
    requires x > 0 && Positive(f.params) && EnterFrame(A, s, f, args).ok && Same(EnterFrame(A, s, f, args).s, s1)
    ensures var st, st1, st' := VarStack(s, x), VarStack(s1, x), VarStack(LeaveFrame(s1, f), x);
            var n := CountIn(f.autos, x) + CountIn(Names(f.params), x);
            n <= |st1| && st' == st1[..|st1| - n] && Level(|st| + n, |st1|)
            && forall i :: 0 <= i < |st| && (n > 0 || i < |st| - 1) ==> st1[i] == st[i]
  {
    hide PushAutos, PopNames, Bind, CountIn, Passed, Placed, Levels, VarStack, ArrayStack;
    var b, e := Bind(s, f.params, args).s, EnterFrame(A, s, f, args).s;
    BindDeepens(s, f.params, args, x);
    AutosDeepen(A, b, f.autos, x);
    BindHides(s, f.params, args, x);
    AutosHide(A, b, f.autos, x);
    NoArray(args, x);
    assert VarKeeps(VarStack(e, x), VarStack(s1, x));
    ArraysDeep(A, s, f, args, s1, x);
    PopsUncover(s1, f.autos, x);
    PopsUncover(PopNames(s1, f.autos), Names(f.params), x);
  }

  lemma NoArray(args: seq<Arg>, x: nat)
    requires x > 0
    ensures !Passed(args, x)
  {
  }

  // There is enough on the stack of an array for what is popped.
  lemma ArraysDeep(A: Arith, s: Store, f: Function, args: seq<Arg>, s1: Store, a: nat)
    requires Positive(f.params) && EnterFrame(A, s, f, args).ok && Same(EnterFrame(A, s, f, args).s, s1)
    ensures var n := CountIn(f.autos, ArrayName(a)) + CountIn(Names(f.params), ArrayName(a));
            var st, st1 := ArrayStack(s, a), ArrayStack(s1, a);
            Level(|st|, |st1| - n) && n <= |st1| && |ArrayStack(EnterFrame(A, s, f, args).s, a)| >= |st| + n
            && (!Passed(args, ArrayName(a)) && n > 0 ==> |st1| == |st| + n)
  {
    hide PushAutos, PopNames, Bind, CountIn, Passed, Placed, Under, VarStack, ArrayStack;
    var name, b, e := ArrayName(a), Bind(s, f.params, args).s, EnterFrame(A, s, f, args).s;
    BindDeepens(s, f.params, args, name);
    AutosDeepen(A, b, f.autos, name);
    assert Level(Depth(e, name), Depth(s1, name));
  }

  // The stack of an array after the call.
  lemma ArraysAfter(A: Arith, s: Store, f: Function, args: seq<Arg>, s1: Store, a: nat)
    requires Positive(f.params) && EnterFrame(A, s, f, args).ok && Same(EnterFrame(A, s, f, args).s, s1)
    ensures var st, st1, st' := ArrayStack(s, a), ArrayStack(s1, a), ArrayStack(LeaveFrame(s1, f), a);
            var n := CountIn(f.autos, ArrayName(a)) + CountIn(Names(f.params), ArrayName(a));
            n <= |st1| && st' == st1[..|st1| - n] && Level(|st|, |st1| - n) && SlotsKept(st, st1)
            && (forall i :: 0 <= i < |st| && (i < |st| - 1 || (n > 0 && !Passed(args, ArrayName(a)))) ==>
                  st1[i] == st[i])
            && (n > 0 && !Passed(args, ArrayName(a)) ==> |st1| == |st| + n)
  {
    hide PushAutos, PopNames, Bind, CountIn, Passed, Placed, Levels, VarStack, ArrayStack;
    var b, e := Bind(s, f.params, args).s, EnterFrame(A, s, f, args).s;
    ArraysDeep(A, s, f, args, s1, a);
    BindHides(s, f.params, args, a);
    AutosHide(A, b, f.autos, a);
    assert ArrayKeeps(ArrayStack(e, a), ArrayStack(s1, a));
    if a > 0 { VarsDeep(A, s, f, args, s1, a); }
    PopsUncover(s1, f.autos, a);
    PopsUncover(PopNames(s1, f.autos), Names(f.params), a);
  }

  lemma VarsDeep(A: Arith, s: Store, f: Function, args: seq<Arg>, s1: Store, x: nat)
    requires x > 0 && Positive(f.params) && EnterFrame(A, s, f, args).ok && Same(EnterFrame(A, s, f, args).s, s1)
    ensures CountIn(f.autos, x) + CountIn(Names(f.params), x) <= |VarStack(s1, x)|
  {
    hide PushAutos, PopNames, Bind, CountIn, Passed, Placed, Under, VarStack, ArrayStack;
    var b, e := Bind(s, f.params, args).s, EnterFrame(A, s, f, args).s;
    BindDeepens(s, f.params, args, x);
    AutosDeepen(A, b, f.autos, x);
    assert Level(Depth(e, x), Depth(s1, x));
  }

  // A frame is entered, its body keeps what is below the tops, the frame is left.
  lemma {:induction false} FrameKeeps(A: Arith, s: Store, f: Function, args: seq<Arg>, s1: Store)
    requires Positive(f.params) && EnterFrame(A, s, f, args).ok && Same(EnterFrame(A, s, f, args).s, s1)
    ensures Same(s, LeaveFrame(s1, f)) && Uncovered(s, f, args, LeaveFrame(s1, f))
  {
    hide PushAutos, PopNames, Bind, CountIn, Passed, Placed, VarStack, ArrayStack, EnterFrame, LeaveFrame, VarKeeps,
      ArrayKeeps, Same, Binds;
    var s2 := LeaveFrame(s1, f);
    forall x: nat | x > 0
      ensures VarKeeps(VarStack(s, x), VarStack(s2, x)) && (Binds(f, x) ==> VarStack(s2, x) == VarStack(s, x))
    {
      OneVariable(A, s, f, args, s1, x);
    }
    forall a: nat
      ensures ArrayKeeps(ArrayStack(s, a), ArrayStack(s2, a))
      ensures Binds(f, ArrayName(a)) && !Passed(args, ArrayName(a)) ==> ArrayStack(s2, a) == ArrayStack(s, a)
    {
      OneArray(A, s, f, args, s1, a);
    }
    StillPlaced(A, s, f, args, s1);
    LevelsUnder(s, s2);
  }

  lemma OneVariable(A: Arith, s: Store, f: Function, args: seq<Arg>, s1: Store, x: nat)
    requires x > 0 && Positive(f.params) && EnterFrame(A, s, f, args).ok && Same(EnterFrame(A, s, f, args).s, s1)
    ensures var st, st' := VarStack(s, x), VarStack(LeaveFrame(s1, f), x);
            VarKeeps(st, st') && (Binds(f, x) ==> st' == st)
  {
    hide EnterFrame, LeaveFrame, Same, VarStack, VarKeeps;
    VarsBack(A, s, f, args, s1, x);
  }

  lemma OneArray(A: Arith, s: Store, f: Function, args: seq<Arg>, s1: Store, a: nat)
    requires Positive(f.params) && EnterFrame(A, s, f, args).ok && Same(EnterFrame(A, s, f, args).s, s1)
    ensures var st, st' := ArrayStack(s, a), ArrayStack(LeaveFrame(s1, f), a);
            ArrayKeeps(st, st') && (Binds(f, ArrayName(a)) && !Passed(args, ArrayName(a)) ==> st' == st)
  {
    hide EnterFrame, LeaveFrame, Same, ArrayStack, ArrayKeeps, Passed;
    ArraysBack(A, s, f, args, s1, a);
  }

  lemma LevelsUnder(s: Store, s': Store)
    requires Under(s, s') && (Placed(s) ==> Placed(s'))
    ensures Same(s, s')
  {
    hide Placed, VarStack, ArrayStack;
    forall name: int ensures Level(Depth(s, name), Depth(s', name)) {
      if name > 0 {
        assert VarKeeps(VarStack(s, name), VarStack(s', name));
      } else {
        assert ArrayKeeps(ArrayStack(s, -name), ArrayStack(s', -name));
      }
    }
  }

  lemma {:induction false} StillPlaced(A: Arith, s: Store, f: Function, args: seq<Arg>, s1: Store)
    requires Positive(f.params) && EnterFrame(A, s, f, args).ok && Same(EnterFrame(A, s, f, args).s, s1)
    ensures Placed(s) ==> Placed(LeaveFrame(s1, f))
  {
    hide PushAutos, PopNames, Bind, Placed, Levels, Under, PopName;
    BindDeepens(s, f.params, args, 0);
    AutosDeepen(A, Bind(s, f.params, args).s, f.autos, 0);
    PopsPlaced(s1, f.autos);
    PopsPlaced(PopNames(s1, f.autos), Names(f.params));
  }

  lemma {:induction false} PopsPlaced(s: Store, names: seq<int>)
    ensures Placed(s) ==> Placed(PopNames(s, names))
    decreases |names|
  {
    hide PopName, Placed;
    if names != [] {
      PopPlaced(s, names[|names| - 1]);
      PopsPlaced(PopName(s, names[|names| - 1]), names[..|names| - 1]);
    }
  }

  lemma PopPlaced(s: Store, last: int)
    ensures Placed(s) ==> Placed(PopName(s, last))
  {
    var s1 := PopName(s, last);
    if Placed(s) {
      forall a: nat, k: nat | k < |ArrayStack(s1, a)| ensures InCells(s1, ArrayStack(s1, a)[k]) {
        assert InCells(s, ArrayStack(s, a)[k]);
      }
    }
  }

  // ---- Evaluation keeps the depths -----------------------------------------------------------

  ghost predicate Named0(C: Context)
  {
    forall f :: f in C.functions ==> Positive(C.functions[f].params)
  }

  lemma {:induction false} KeepE(C: Context, e: Expr, s: Store, cb: ConstBase, fuel: nat)
    requires Named0(C)
    ensures Keeps(s, EvalE(C, e, s, cb, fuel))
    decreases fuel, 1, e
  {
    hide Same, Fetch, Keep, StepNamed, Holds, EvalN, EvalEs, Apply;
    match e
    case Number(text) => SameSelf(s);
    case Value(n) => KeepValue(C, n, s, cb, fuel);
    case Assign(n, op, a) => KeepAssign(C, n, op, a, s, cb, fuel);
    case And(a, b) => KeepBoth(C, a, b, e, s, cb, fuel);
    case Or(a, b) => KeepBoth(C, a, b, e, s, cb, fuel);
    case Relation(_, a, b) => KeepBoth(C, a, b, e, s, cb, fuel);
    case Binary(_, a, b) => KeepBoth(C, a, b, e, s, cb, fuel);
    case Not(a) => KeepE(C, a, s, cb, fuel);
    case Negate(a) => KeepE(C, a, s, cb, fuel);
    case Paren(a) => KeepE(C, a, s, cb, fuel);
    case Special(_, a) => KeepE(C, a, s, cb, fuel);
    case Before(step, n) => KeepStep(C, e, n, step, s, cb, fuel);
    case AfterIt(n, step) => KeepStep(C, e, n, step, s, cb, fuel);
    case Call(f, args) => KeepCall(C, f, args, s, cb, fuel);
  }

  lemma {:induction false} KeepCall(C: Context, f: nat, args: Exprs, s: Store, cb: ConstBase, fuel: nat)
    requires Named0(C)
    ensures Keeps(s, EvalE(C, Call(f, args), s, cb, fuel))
    decreases fuel, 1, Call(f, args), 0
  {
    hide Same, Uncovered, EvalEs, Apply;
    KeepEs(C, args, s, cb, fuel);
    var r := EvalEs(C, args, s, cb, fuel);
    if r.Ok? {
      KeepApply(C, f, r.v, r.s, fuel);
      var r2 := Apply(C, f, r.v, r.s, fuel);
      if r2.Ok? { SameSame(s, r.s, r2.s); }
    }
  }

  lemma {:induction false} KeepValue(C: Context, n: Named, s: Store, cb: ConstBase, fuel: nat)
    requires Named0(C)
    ensures Keeps(s, EvalE(C, Value(n), s, cb, fuel))
    decreases fuel, 1, Value(n), 0
  {
    hide Same, Fetch, EvalN;
    KeepN(C, n, s, cb, fuel);
    var r := EvalN(C, n, s, cb, fuel);
    if r.Ok? {
      FetchKeeps(C.A, n, r.v, r.s);
      var r2 := Fetch(C.A, n, r.v, r.s);
      if r2.Ok? { SameSame(s, r.s, r2.s); }
    }
  }

  // Two operands, the second after the first.
  lemma {:induction false} KeepBoth(C: Context, a: Expr, b: Expr, e: Expr, s: Store, cb: ConstBase, fuel: nat)
    requires Named0(C) && a < e && b < e
    ensures Keeps(s, EvalE(C, a, s, cb, fuel))
    ensures var r := EvalE(C, a, s, cb, fuel); r.Ok? ==> Keeps(s, EvalE(C, b, r.s, cb, fuel))
    decreases fuel, 1, e, 0
  {
    hide Same, EvalE;
    KeepE(C, a, s, cb, fuel);
    var r := EvalE(C, a, s, cb, fuel);
    if r.Ok? {
      KeepE(C, b, r.s, cb, fuel);
      var r2 := EvalE(C, b, r.s, cb, fuel);
      if r2.Ok? { SameSame(s, r.s, r2.s); }
    }
  }

  lemma {:induction false} KeepAssign(C: Context, n: Named, op: AssignOp, a: Expr, s: Store, cb: ConstBase, fuel: nat)
    requires Named0(C)
    ensures Keeps(s, EvalE(C, Assign(n, op, a), s, cb, fuel))
    decreases fuel, 1, Assign(n, op, a), 0
  {
    hide Same, Fetch, Keep, EvalN;
    KeepN(C, n, s, cb, fuel);
    var r := EvalN(C, n, s, cb, fuel);
    if r.Ok? {
      FetchKeeps(C.A, n, r.v, r.s);
      var r2 := if op == '=' then Ok(C.A.zero, r.s) else Fetch(C.A, n, r.v, r.s);
      SameSelf(r.s);
      if r2.Ok? {
        KeepE(C, a, r2.s, cb, fuel);
        var r3 := EvalE(C, a, r2.s, cb, fuel);
        if r3.Ok? {
          SameSame(s, r.s, r2.s);
          SameSame(s, r2.s, r3.s);
          var r4 := if op == '=' then Ok(r3.v, r3.s) else OfMaybe(C.A.binary(op, r2.v, r3.v, r3.s.scale), r3.s);
          if r4.Ok? {
            KeepKeeps(C.A, n, r.v, r4.v, r4.s);
            var r5 := Keep(C.A, n, r.v, r4.v, r4.s);
            if r5.Ok? { SameSame(s, r3.s, r5.s); }
          }
        }
      }
    }
  }

  // ++ and --
  lemma {:induction false} KeepStep(C: Context, e: Expr, n: Named, step: char, s: Store, cb: ConstBase, fuel: nat)
    requires Named0(C) && (e == Before(step, n) || e == AfterIt(n, step))
    ensures Keeps(s, EvalE(C, e, s, cb, fuel))
    decreases fuel, 1, e, 0
  {
    hide Same, Fetch, StepNamed, EvalN;
    KeepN(C, n, s, cb, fuel);
    var r := EvalN(C, n, s, cb, fuel);
    if r.Ok? {
      var first := if e.Before? then StepNamed(C.A, n, r.v, step == '+', r.s) else Fetch(C.A, n, r.v, r.s);
      StepKeeps(C.A, n, r.v, step == '+', r.s);
      FetchKeeps(C.A, n, r.v, r.s);
      if first.Ok? {
        var second := if e.Before? then Fetch(C.A, n, r.v, first.s) else StepNamed(C.A, n, r.v, step == '+', first.s);
        StepKeeps(C.A, n, r.v, step == '+', first.s);
        FetchKeeps(C.A, n, r.v, first.s);
        if second.Ok? {
          SameSame(s, r.s, first.s);
          SameSame(s, first.s, second.s);
        }
      }
    }
  }

  lemma {:induction false} KeepN(C: Context, n: Named, s: Store, cb: ConstBase, fuel: nat)
    requires Named0(C)
    ensures Keeps(s, EvalN(C, n, s, cb, fuel))
    decreases fuel, 1, n
  {
    hide Same;
    if n.Simple? { SameSelf(s); } else { KeepE(C, n.index, s, cb, fuel); }
  }

  lemma {:induction false} KeepEs(C: Context, es: Exprs, s: Store, cb: ConstBase, fuel: nat)
    requires Named0(C)
    ensures Keeps(s, EvalEs(C, es, s, cb, fuel))
    decreases fuel, 1, es
  {
    hide Same;
    match es
    case NoExprs => SameSelf(s);
    case MoreArrays(_, more) => KeepEs(C, more, s, cb, fuel);
    case MoreExprs(e, more) =>
      KeepE(C, e, s, cb, fuel);
      var r := EvalE(C, e, s, cb, fuel);
      if r.Ok? {
        KeepEs(C, more, r.s, cb, fuel);
        var r2 := EvalEs(C, more, r.s, cb, fuel);
        if r2.Ok? { SameSame(s, r.s, r2.s); }
      }
  }

  lemma {:induction false} KeepApply(C: Context, f: nat, args: seq<Arg>, s: Store, fuel: nat)
    requires Named0(C)
    ensures Keeps(s, Apply(C, f, args, s, fuel))
    ensures Apply(C, f, args, s, fuel).Ok?
            ==> f in C.functions && Uncovered(s, C.functions[f], args, Apply(C, f, args, s, fuel).s)
    decreases fuel, 0
  {
    hide Same, Uncovered, EnterFrame, LeaveFrame;
    if f in C.functions && fuel > 0 {
      var fn := C.functions[f];
      var b := EnterFrame(C.A, s, fn, args);
      if b.ok {
        KeepSs(C, fn.body, b.s, Saved(b.s.ibase), fuel - 1);
        var r := EvalSs(C, fn.body, b.s, Saved(b.s.ibase), fuel - 1);
        if r.Ok? { FrameKeeps(C.A, s, fn, args, r.s); }
      }
    }
  }

  lemma {:induction false} KeepO(C: Context, o: OptExpr, s: Store, cb: ConstBase, fuel: nat)
    requires Named0(C)
    ensures Keeps(s, EvalO(C, o, s, cb, fuel))
    decreases fuel, 1, o
  {
    hide Same;
    if o.None? { SameSelf(s); } else { KeepE(C, o.e, s, cb, fuel); }
  }

  lemma {:induction false} KeepS(C: Context, st: Stmt, s: Store, cb: ConstBase, fuel: nat)
    requires Named0(C)
    ensures Keeps(s, EvalS(C, st, s, cb, fuel))
    decreases fuel, 1, st
  {
    hide Same, StoreVar, Put, AttrOf, EvalO, EvalSs, WhileLoop, ForLoop, EvalE;
    SameSelf(s);
    match st
    case Expression(e) =>
      KeepE(C, e, s, cb, fuel);
      var r := EvalE(C, e, s, cb, fuel);
      if r.Ok? { ShowKeeps(C.A, s, r.s, OutNum(r.v, r.s.obase, true), r.v); }
    case PrintExpr(e) =>
      KeepE(C, e, s, cb, fuel);
      var r := EvalE(C, e, s, cb, fuel);
      if r.Ok? { ShowKeeps(C.A, s, r.s, OutNum(r.v, r.s.obase, false), r.v); }
    case Text(t) => PutKeeps(s, OutText(t, false));
    case PrintText(t) => PutKeeps(s, OutText(t, true));
    case Return(o) => if o.Some? { KeepE(C, o.e, s, cb, fuel); }
    case For(a, b, c, body) =>
      KeepO(C, a, s, cb, fuel);
      var r := EvalO(C, a, s, cb, fuel);
      if r.Ok? {
        KeepFor(C, b, c, body, r.s, cb, fuel);
        var r2 := ForLoop(C, b, c, body, r.s, cb, fuel);
        if r2.Ok? { SameSame(s, r.s, r2.s); }
      }
    case If(c, yes) =>
      KeepE(C, c, s, cb, fuel);
      var r := EvalE(C, c, s, cb, fuel);
      if r.Ok? {
        KeepS(C, yes, r.s, cb, fuel);
        var r2 := EvalS(C, yes, r.s, cb, fuel);
        if r2.Ok? { SameSame(s, r.s, r2.s); }
      }
    case IfElse(c, yes, no) =>
      KeepE(C, c, s, cb, fuel);
      var r := EvalE(C, c, s, cb, fuel);
      if r.Ok? {
        var chosen := if C.A.isZero(r.v) then no else yes;
        KeepS(C, chosen, r.s, cb, fuel);
        var r2 := EvalS(C, chosen, r.s, cb, fuel);
        if r2.Ok? { SameSame(s, r.s, r2.s); }
      }
    case While(c, body) => KeepWhile(C, c, body, s, cb, fuel);
    case Block(ss) => KeepSs(C, ss, s, cb, fuel);
    case _ =>
  }

  // A value that is written goes into the variable last, too.
  lemma ShowKeeps(A: Arith, s: Store, s1: Store, e: Event, v: Num)
    requires Same(s, s1)
    ensures Same(s, StoreVar(A, Put(s1, e), 4, v))
  {
    hide Same, StoreVar, Put;
    PutKeeps(s1, e);
    StoreKeeps(A, Put(s1, e), 4, v);
    SameSame(s, s1, Put(s1, e));
    SameSame(s, Put(s1, e), StoreVar(A, Put(s1, e), 4, v));
  }

  lemma {:induction false} KeepFor(C: Context, b: OptExpr, c: OptExpr, body: Stmt, s: Store, cb: ConstBase, fuel: nat)
    requires Named0(C)
    ensures Keeps(s, ForLoop(C, b, c, body, s, cb, fuel))
    decreases fuel, 0
  {
    hide Same, EvalO, EvalS;
    if fuel > 0 {
      KeepO(C, b, s, cb, fuel - 1);
      var r := EvalO(C, b, s, cb, fuel - 1);
      if r.Ok? && !C.A.isZero(r.v) {
        KeepS(C, body, r.s, cb, fuel - 1);
        var r2 := EvalS(C, body, r.s, cb, fuel - 1);
        if r2.Ok? {
          SameSame(s, r.s, r2.s);
          KeepO(C, c, r2.s, cb, fuel - 1);
          var r3 := EvalO(C, c, r2.s, cb, fuel - 1);
          if (r2.v.Normal? || r2.v.Continued?) && r3.Ok? {
            SameSame(s, r2.s, r3.s);
            KeepFor(C, b, c, body, r3.s, cb, fuel - 1);
            var r4 := ForLoop(C, b, c, body, r3.s, cb, fuel - 1);
            if r4.Ok? { SameSame(s, r3.s, r4.s); }
          }
        }
      }
    }
  }

  lemma {:induction false} KeepWhile(C: Context, c: Expr, body: Stmt, s: Store, cb: ConstBase, fuel: nat)
    requires Named0(C)
    ensures Keeps(s, WhileLoop(C, c, body, s, cb, fuel))
    decreases fuel, 0
  {
    hide Same, EvalE, EvalS;
    if fuel > 0 {
      KeepE(C, c, s, cb, fuel - 1);
      var r := EvalE(C, c, s, cb, fuel - 1);
      if r.Ok? && !C.A.isZero(r.v) {
        KeepS(C, body, r.s, cb, fuel - 1);
        var r2 := EvalS(C, body, r.s, cb, fuel - 1);
        if r2.Ok? {
          SameSame(s, r.s, r2.s);
          if r2.v.Normal? {
            KeepWhile(C, c, body, r2.s, cb, fuel - 1);
            var r3 := WhileLoop(C, c, body, r2.s, cb, fuel - 1);
            if r3.Ok? { SameSame(s, r2.s, r3.s); }
          }
        }
      }
    }
  }

  lemma {:induction false} KeepSs(C: Context, ss: Stmts, s: Store, cb: ConstBase, fuel: nat)
    requires Named0(C)
    ensures Keeps(s, EvalSs(C, ss, s, cb, fuel))
    decreases fuel, 1, ss
  {
    hide Same;
    match ss
    case NoStmts => SameSelf(s);
    case MoreStmts(st, more) =>
      KeepS(C, st, s, cb, fuel);
      var r := EvalS(C, st, s, cb, fuel);
      if r.Ok? && r.v.Normal? {
        KeepSs(C, more, r.s, cb, fuel);
        var r2 := EvalSs(C, more, r.s, cb, fuel);
        if r2.Ok? { SameSame(s, r.s, r2.s); }
      }
  }

  // ---- The whole call ----------------------------------------------------------------------

  // From the call instruction the machine comes back behind it, in the same function,
  // with the same frames, the arguments replaced by the value, every stack of variables
  // and arrays as deep as before and the same below the top, and what the function binds
  // as it was.
  lemma {:induction false} CallReturns(P: Program, bare: set<nat>, m: Machine, pc: nat, st: seq<Num>, f: nat,
                                       kinds: seq<bool>, vs: seq<Num>, args: seq<Arg>, fuel: nat)
    returns (k: nat)
    requires Compiled(P, bare) && Named0(P.C) && m.status == Running && m.pc == pc && m.stack == st + vs
    requires Is(P, m.fn, pc, Enter(f, kinds)) && (f in bare ==> st == [])
    requires |kinds| == |vs| && ArraysNamed(P.C.A, kinds, vs) && args == ArgsOn(P.C.A, kinds, vs)
    requires Apply(P.C, f, args, m.s, fuel).Ok?
    ensures var m1 := Run(P, m, k);
            m1.fn == m.fn && m1.pc == pc + 1 && m1.frames == m.frames && m1.status == Running
            && m1.stack == st + [Apply(P.C, f, args, m.s, fuel).v] && Same(m.s, m1.s)
            && f in P.C.functions && Uncovered(m.s, P.C.functions[f], args, m1.s)
  {
    hide Compiled, Apply, Same, Is, Uncovered, ArraysNamed, ArgsOn;
    assert Run(P, m, 0) == m;
    KeepApply(P.C, f, args, m.s, fuel);
    k := SimApply(P, bare, m, 0, pc, st, f, kinds, vs, args, m.s, fuel);
  }
}
