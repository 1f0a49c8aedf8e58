// The arguments of a call reach the parameters in source order: values, copies of
// arrays, and arrays that are shared.
module BcArguments {
  import opened BcSyntax
  import opened BcStore
  import opened BcMachine
  import opened BcCalls

  // make_arg_str writes the rest of the list first.
  function ArgStr<T>(list: seq<T>): seq<T>
  {
    if list == [] then [] else ArgStr(list[1..]) + [list[0]]
  }

  // The loader finds the names in source order again.
  lemma {:induction false} NamesInOrder<T>(names: seq<T>)
    ensures ArgStr(ListOf(names)) == names
  {
    if names != [] {
      NamesInOrder(names[..|names| - 1]);
      assert ListOf(names)[1..] == ListOf(names[..|names| - 1]);
    }
  }

  lemma {:induction false} TailOfList<T>(list: seq<T>)
    requires list != []
    ensures ListOf(list) == ListOf(list[1..]) + [list[0]]
  {
    var n := |list| - 1;
    if n > 0 {
      TailOfList(list[..n]);
      assert list[..n][1..] == list[1..][..n - 1];
    }
  }

  // The parameter x is the array a or a copy of it: the stack of x is pushed first, so
  // that the array that is meant lies below its top if both are the same.
  method PassArray(s0: Store, a: nat, x: nat, byRef: bool) returns (s: Store)
    ensures s == BindOne(s0, Array(x, byRef), Whole(a))
  {
    hide Ensure;
    EnsureKeeps(s0, a);
    s := Ensure(s0, a);
    s := PushArray(s, x, Unset);
    var st := ArrayStack(s, a);
    var source := if a == x then st[|st| - 2] else st[|st| - 1];
    var dest: Slot;
    if byRef {
      dest := source.(shared := true);
    } else {
      dest := Slot(|s.cells|, false);
      s := s.(cells := s.cells + [if source.id < |s.cells| then s.cells[source.id] else map[]]);
    }
    var top := ArrayStack(s, x);
    s := s.(arrays := s.arrays[x := top[|top| - 1 := dest]]);
    var s1 := Ensure(s0, a);
    assert top[|top| - 1 := dest] == ArrayStack(s1, x) + [dest];
    assert s.arrays == s1.arrays[x := ArrayStack(s1, x) + [dest]];
  }

  // process_params: the marks of the call, the list of the parameters, and the operand
  // stack from its top.
  method ProcessParams(A: Arith, s0: Store, list0: seq<Param>, stack0: seq<Num>, kinds: seq<bool>)
    returns (s: Store, stack: seq<Num>, ok: bool)
    requires |kinds| <= |stack0| && ArraysNamed(A, kinds, stack0[|stack0| - |kinds|..])
    ensures ok ==> stack == stack0[..|stack0| - |kinds|]
    ensures Bind(s0, ListOf(list0), ArgsOn(A, kinds, stack0[|stack0| - |kinds|..])) == Bound(s, ok)
  {
    hide BindOne, ListOf, ArraysNamed;
    var list, i := list0, 0;
    s, stack := s0, stack0;
    ghost var vs := stack0[|stack0| - |kinds|..];
    ghost var args := ArgsOn(A, kinds, vs);
    assert args[..|args|] == args;
    while i < |kinds|
      invariant i <= |kinds| && |stack| == |stack0| - i && stack == stack0[..|stack|]
      invariant Bind(s, ListOf(list), args[..|args| - i]) == Bind(s0, ListOf(list0), args)
    {
      if list == [] { return s, stack, false; }
      TailOfList(list);
      var p, v := list[0], stack[|stack| - 1];
      var n := |args| - 1 - i;
      assert args[n] == ArgOn(A, kinds, vs, n) && vs[n] == v;
      assert args[..n + 1][..n] == args[..n];
      if !kinds[i] && p.Scalar? {
        s := BindOne(s, p, Single(v));
      } else if kinds[i] && p.Array? {
        NamedOne(A, kinds, vs, n);
        s := PassArray(s, A.toLong(v), p.name, p.byRef);
      } else {
        return s, stack, false;
      }
      stack := stack[..|stack| - 1];
      list := list[1..];
      i := i + 1;
    }
    ok := list == [];
    assert args[..0] == [];
  }

  lemma NamedOne(A: Arith, kinds: seq<bool>, vs: seq<Num>, n: nat)
    requires n < |kinds| == |vs| && ArraysNamed(A, kinds, vs) && kinds[|vs| - 1 - n]
    ensures A.toLong(vs[n]) >= 0
  {
  }

  predicate Distinct(params: seq<Param>)
  {
    forall i, j :: 0 <= i < j < |params| ==> NameOf(params[i]) != NameOf(params[j])
  }

  predicate AllMatch(params: seq<Param>, args: seq<Arg>)
  {
    |params| == |args| && forall i :: 0 <= i < |params| ==> Matching(params[i], args[i])
  }

  // The argument is the array that the parameter hides.
  predicate Hidden(p: Param, a: Arg)
  {
    p.Array? && a == Whole(p.name)
  }

  // No argument names an array that the parameters behind it have hidden by then.
  predicate Apart(params: seq<Param>, args: seq<Arg>)
    requires |params| == |args|
  {
    forall i, j :: 0 <= i < j < |args| ==> !Hidden(params[j], args[i])
  }

  // Where the array in use is on its stack.
  function Base(s: Store, a: nat): nat
  {
    if |ArrayStack(s, a)| < 2 then 0 else |ArrayStack(s, a)| - 1
  }

  // Nothing else stands for this place.
  ghost predicate Alone(s: Store, x: nat, top: nat, id: nat)
  {
    forall a: nat, k: nat :: k < |ArrayStack(s, a)| && (a != x || k != top) ==> Elsewhere(ArrayStack(s, a)[k], id)
  }

  predicate Elsewhere(p: Slot, id: nat)
  {
    p.Slot? ==> p.id != id
  }

  // Parameter p has its argument in s', for a call from s: the value on top of what was
  // there; the very array that was in use under the name; or a copy that nobody shares.
  ghost predicate Given(s: Store, p: Param, a: Arg, s': Store)
    requires Matching(p, a)
  {
    match p
    case Scalar(x) => VarStack(s', x) == VarStack(s, x) + [a.v]
    case Array(x, byRef) =>
      var st, source := ArrayStack(s', x), ArrayStack(s', a.arr);
      && Level(|ArrayStack(s, x)|, |st| - 1) && |st| > 0
      && var top := st[|st| - 1];
      && top.Slot? && top.shared == byRef && top.id < |s'.cells| && s'.cells[top.id] == Elements(s, a.arr)
      && if byRef then Base(s, a.arr) < |source| && source[Base(s, a.arr)].Slot? && source[Base(s, a.arr)].id == top.id
         else top.id >= |s.cells| && Alone(s', x, |st| - 1, top.id)
  }

  lemma FewerApart(params: seq<Param>, args: seq<Arg>, i: nat)
    requires |params| == |args| && Distinct(params) && Apart(params, args) && i < |params|
    ensures var n := |params| - 1;
            Distinct(params[..n]) && Apart(params[..n], args[..n])
            && (forall j :: 0 <= j < n ==> Free(params[n], params[..n][j], args[..n][j]))
            && (i < n ==> NameOf(params[n]) != NameOf(params[i]) && !Hidden(params[n], args[i]))
  {
  }

  // A parameter with its argument that has nothing to do with p.
  predicate Free(p: Param, q: Param, b: Arg)
  {
    NameOf(q) != NameOf(p) && !Hidden(p, b)
  }

  lemma BindOnePlaced(s: Store, p: Param, a: Arg)
    requires Matching(p, a) && Placed(s)
    ensures Placed(BindOne(s, p, a))
  {
    hide Placed, Depth;
    match p
    case Scalar(x) => SameSlots(s, BindOne(s, p, a));
    case Array(_, _) => BindOneDeepens(s, p, a, 0);
  }

  lemma ElementsEnsured(s: Store, a: nat, x: nat)
    requires Placed(s)
    ensures Elements(Ensure(s, a), x) == Elements(s, x)
  {
    PlaceIn(s, x);
  }

  lemma OneGiven(s: Store, p: Param, a: Arg)
    requires Matching(p, a) && Placed(s)
    ensures Given(s, p, a, BindOne(s, p, a))
  {
    hide Placed, Ensure, Alone;
    if p.Array? {
      EnsureKeeps(s, a.arr);
      ElementsEnsured(s, a.arr, a.arr);
      BaseEnsured(s, a.arr, p.name);
      var s1 := Ensure(s, a.arr);
      PlaceIn(s1, a.arr);
      if !p.byRef { CopyAlone(s1, p.name, Elements(s1, a.arr)); }
    }
  }

  lemma BaseEnsured(s: Store, a: nat, x: nat)
    ensures var st := ArrayStack(Ensure(s, a), a);
            |st| > 0 && Base(s, a) == |st| - 1 && |Ensure(s, a).cells| >= |s.cells|
            && Level(|ArrayStack(s, x)|, |ArrayStack(Ensure(s, a), x)|)
  {
  }

  lemma CopyAlone(s: Store, x: nat, elems: map<int, Num>)
    requires Placed(s)
    ensures Alone(PushArray(s.(cells := s.cells + [elems]), x, Slot(|s.cells|, false)), x, |ArrayStack(s, x)|,
              |s.cells|)
  {
    var s2 := PushArray(s.(cells := s.cells + [elems]), x, Slot(|s.cells|, false));
    forall b: nat, k: nat | k < |ArrayStack(s2, b)| && (b != x || k != |ArrayStack(s, x)|)
      ensures Elsewhere(ArrayStack(s2, b)[k], |s.cells|)
    {
      assert ArrayStack(s2, b)[k] == ArrayStack(s, b)[k] && InCells(s, ArrayStack(s, b)[k]);
    }
  }

  // The slot at this height stays, and so do its elements.
  predicate SlotStays(s: Store, s': Store, a: nat, k: nat)
  {
    k < |ArrayStack(s, a)| && ArrayStack(s, a)[k].Slot? ==>
      k < |ArrayStack(s', a)| && ArrayStack(s', a)[k] == ArrayStack(s, a)[k]
  }

  lemma BindAdds(s: Store, q: Param, b: Arg, a: nat, k: nat)
    requires Matching(q, b)
    ensures var s2 := BindOne(s, q, b);
            s.cells <= s2.cells && SlotStays(s, s2, a, k)
            && (b != Whole(a) && !(q.Array? && q.name == a) ==> ArrayStack(s2, a) == ArrayStack(s, a))
            && (q.Array? ==> s2.vars == s.vars)
  {
  }

  // Binding another parameter changes nothing about it.
  lemma GivenStays(s: Store, p: Param, a: Arg, s1: Store, q: Param, b: Arg)
    requires Matching(p, a) && Matching(q, b) && Given(s, p, a, s1) && Placed(s1) && Free(p, q, b)
    ensures Given(s, p, a, BindOne(s1, q, b))
  {
    hide Placed, Alone, Elements;
    match p
    case Scalar(x) => hide BindOne; if q.Array? { BindAdds(s1, q, b, 0, 0); } else { ScalarStays(s1, q, b, x); }
    case Array(x, byRef) =>
      hide BindOne;
      var st := ArrayStack(s1, x);
      BindAdds(s1, q, b, x, 0);
      BindAdds(s1, q, b, a.arr, Base(s, a.arr));
      if !byRef { AloneStays(s1, x, |st| - 1, st[|st| - 1].id, q, b); }
  }

  lemma ScalarStays(s: Store, q: Param, b: Arg, x: nat)
    requires Matching(q, b) && q.Scalar? && q.name != x
    ensures VarStack(BindOne(s, q, b), x) == VarStack(s, x)
  {
  }

  lemma AloneStays(s: Store, x: nat, top: nat, id: nat, q: Param, b: Arg)
    requires Matching(q, b) && Placed(s) && Alone(s, x, top, id) && id < |s.cells|
    requires top == |ArrayStack(s, x)| - 1 && ArrayStack(s, x)[top].Slot? && b != Whole(x) && (q.Array? ==> q.name != x)
    ensures Alone(BindOne(s, q, b), x, top, id)
  {
    hide BindOne, Placed;
    var s2 := BindOne(s, q, b);
    if q.Array? && |ArrayStack(s, b.arr)| > 0 {
      assert Elsewhere(ArrayStack(s, b.arr)[|ArrayStack(s, b.arr)| - 1], id);
    }
    forall c: nat, k: nat | k < |ArrayStack(s2, c)| && (c != x || k != top)
      ensures Elsewhere(ArrayStack(s2, c)[k], id) {
      if k < |ArrayStack(s, c)| { assert Elsewhere(ArrayStack(s, c)[k], id); }
      SlotAfter(s, q, b, c, k, id);
    }
  }

  lemma PlaceEnsured(s: Store, a: nat, id: nat)
    requires id < |s.cells| && Elsewhere(PlaceOf(s, a), id)
    ensures Elsewhere(PlaceOf(Ensure(s, a), a), id) && |Ensure(s, a).cells| >= |s.cells|
  {
  }

  lemma SlotEnsured(s: Store, a: nat, c: nat, k: nat, id: nat)
    requires k < |ArrayStack(Ensure(s, a), c)| && id < |s.cells|
    requires k < |ArrayStack(s, c)| ==> Elsewhere(ArrayStack(s, c)[k], id)
    ensures Elsewhere(ArrayStack(Ensure(s, a), c)[k], id)
  {
  }

  // A slot that is new does not stand for an old place, unless this was passed.
  lemma SlotAfter(s: Store, q: Param, b: Arg, c: nat, k: nat, id: nat)
    requires Matching(q, b) && k < |ArrayStack(BindOne(s, q, b), c)| && id < |s.cells|
    requires k < |ArrayStack(s, c)| ==> Elsewhere(ArrayStack(s, c)[k], id)
    requires b.Whole? ==> Elsewhere(PlaceOf(s, b.arr), id)
    ensures Elsewhere(ArrayStack(BindOne(s, q, b), c)[k], id)
  {
    hide Elements;
    if q.Array? {
      hide Ensure;
      var s1 := Ensure(s, b.arr);
      PlaceEnsured(s, b.arr, id);
      if k < |ArrayStack(s1, c)| { SlotEnsured(s, b.arr, c, k, id); }
    }
  }

  lemma {:induction false} OthersStay(s: Store, p: Param, a: Arg, s1: Store, params: seq<Param>, args: seq<Arg>)
    requires Matching(p, a) && Given(s, p, a, s1) && Placed(s1) && AllMatch(params, args)
    requires forall j :: 0 <= j < |params| ==> Free(p, params[j], args[j])
    ensures Bind(s1, params, args).ok && Given(s, p, a, Bind(s1, params, args).s)
    decreases |params|
  {
    hide BindOne, Given, Placed, Free;
    if params != [] {
      var n := |params| - 1;
      GivenStays(s, p, a, s1, params[n], args[n]);
      BindOnePlaced(s1, params[n], args[n]);
      OthersStay(s, p, a, BindOne(s1, params[n], args[n]), params[..n], args[..n]);
    }
  }

  // Binding another parameter first makes no difference to it.
  lemma GivenBefore(s: Store, q: Param, b: Arg, p: Param, a: Arg, s': Store)
    requires Matching(p, a) && Matching(q, b) && Placed(s) && NameOf(q) != NameOf(p) && !Hidden(q, a)
    requires Given(BindOne(s, q, b), p, a, s')
    ensures Given(s, p, a, s')
  {
    hide Placed, Alone, Elements, BindOne;
    match p
    case Scalar(x) => if q.Array? { BindAdds(s, q, b, 0, 0); } else { ScalarStays(s, q, b, x); }
    case Array(x, _) =>
      BindAdds(s, q, b, 0, 0);
      ArrayBefore(s, q, b, x);
      ArrayBefore(s, q, b, a.arr);
      ElementsBefore(s, q, b, a.arr);
  }

  lemma ArrayBefore(s: Store, q: Param, b: Arg, x: nat)
    requires Matching(q, b) && !(q.Array? && q.name == x)
    ensures var st, st' := ArrayStack(s, x), ArrayStack(BindOne(s, q, b), x);
            Level(|st|, |st'|) && Base(s, x) == Base(BindOne(s, q, b), x)
  {
  }

  lemma ElementsBefore(s: Store, q: Param, b: Arg, x: nat)
    requires Matching(q, b) && !(q.Array? && q.name == x) && Placed(s)
    ensures Elements(BindOne(s, q, b), x) == Elements(s, x)
  {
    hide Ensure, Placed;
    if q.Array? {
      EnsureKeeps(s, b.arr);
      ElementsEnsured(s, b.arr, x);
      PlaceIn(Ensure(s, b.arr), x);
    }
  }

  // Every parameter gets its own argument.
  lemma {:induction false} ArgumentsInOrder(s: Store, params: seq<Param>, args: seq<Arg>, i: nat)
    requires AllMatch(params, args) && i < |params| && Distinct(params) && Apart(params, args) && Placed(s)
    ensures Bind(s, params, args).ok && Given(s, params[i], args[i], Bind(s, params, args).s)
    decreases |params|
  {
    hide BindOne, Given, Placed, Apart, Distinct;
    var n := |params| - 1;
    var s1 := BindOne(s, params[n], args[n]);
    FewerApart(params, args, i);
    BindOnePlaced(s, params[n], args[n]);
    if i == n {
      OneGiven(s, params[n], args[n]);
      OthersStay(s, params[n], args[n], s1, params[..n], args[..n]);
    } else {
      ArgumentsInOrder(s1, params[..n], args[..n], i);
      GivenBefore(s, params[n], args[n], params[i], args[i], Bind(s1, params[..n], args[..n]).s);
    }
  }
}
