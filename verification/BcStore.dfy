// The variables, arrays and special variables of bc (storage.c).  Numbers are
// abstract: their arithmetic is a parameter of everything that follows.
module BcStore {
  import opened Maybes
  import opened BcSyntax

  type Num(==,0,!new)

  datatype Arith = Arith(
    zero: Num,
    one: Num,
    isZero: Num -> bool,
    isNeg: Num -> bool,
    toLong: Num -> int,                                // 0 when it does not fit
    ofInt: int -> Num,
    compare: (Num, Num) -> int,
    binary: (char, Num, Num, int) -> Maybe<Num>,       // operator, operands, scale
    negate: Num -> Num,
    builtin: (char, Num, int) -> Maybe<Num>,           // length, sqrt, scale
    constant: (string, int) -> Num,                    // digits and their base
    succ: Num -> Num,
    pred: Num -> Num)

  datatype Event = OutNum(v: Num, base: int, newline: bool) | OutText(s: string, escapes: bool)

  // What an array name stands for: nothing yet, or a place in cells; a shared one
  // belongs to somebody else.
  datatype Slot = Unset | Slot(id: nat, shared: bool)

  // Variables and arrays are stacks, because autos and parameters hide what was
  // there; the last element is the one in use.
  datatype Store = Store(vars: map<nat, seq<Num>>, arrays: map<nat, seq<Slot>>, cells: seq<map<int, Num>>,
                         ibase: int, obase: int, scale: int, out: seq<Event>)

  // The value of an argument: a number, or an array.
  datatype Arg = Single(v: Num) | Whole(arr: nat)

  const BC_BASE_MAX: int := 0x7fff_ffff
  const BC_SCALE_MAX: int := 0x7fff_ffff
  const BC_DIM_MAX: int := 65535

  function VarStack(s: Store, x: nat): seq<Num>
  {
    if x in s.vars then s.vars[x] else []
  }

  function ArrayStack(s: Store, a: nat): seq<Slot>
  {
    if a in s.arrays then s.arrays[a] else []
  }

  // ---- Simple variables ---------------------------------------------------------------

  function Top(A: Arith, s: Store, x: nat): Num
  {
    var st := VarStack(s, x);
    if st == [] then A.zero else st[|st| - 1]
  }

  // A variable that does not exist yet is created.
  function SetTop(s: Store, x: nat, v: Num): Store
  {
    var st := VarStack(s, x);
    s.(vars := s.vars[x := if st == [] then [v] else st[|st| - 1 := v]])
  }

  // load_var
  function LoadVar(A: Arith, s: Store, x: nat): Num
  {
    if x == 0 then A.ofInt(s.ibase)
    else if x == 1 then A.ofInt(s.obase)
    else if x == 2 then A.ofInt(s.scale)
    else Top(A, s, x)
  }

  // store_var: ibase, obase and scale take what they can, and the history
  // variable nothing.
  function StoreVar(A: Arith, s: Store, x: nat, v: Num): Store
  {
    if x > 3 then SetTop(s, x, v)
    else
      var neg := A.isNeg(v);
      var temp := if neg then (if x == 2 then 0 else 2) else A.toLong(v);
      var tooBig := !neg && !A.isZero(v) && temp == 0;
      if x == 0 then s.(ibase := if temp < 2 && !tooBig then 2 else if temp > 16 || tooBig then 16 else temp)
      else if x == 1 then s.(obase := if temp < 2 && !tooBig then 2
        else if temp > BC_BASE_MAX || tooBig then BC_BASE_MAX else temp)
      else if x == 2 then s.(scale := if temp > BC_SCALE_MAX || tooBig then BC_SCALE_MAX else temp)
      else s
  }

  // incr_var and decr_var
  function StepVar(A: Arith, s: Store, x: nat, up: bool): Store
  {
    if x == 0 then
      (if up then (if s.ibase < 16 then s.(ibase := s.ibase + 1) else s)
       else if s.ibase > 2 then s.(ibase := s.ibase - 1) else s)
    else if x == 1 then
      (if up then (if s.obase < BC_BASE_MAX then s.(obase := s.obase + 1) else s)
       else if s.obase > 2 then s.(obase := s.obase - 1) else s)
    else if x == 2 then
      (if up then (if s.scale < BC_SCALE_MAX then s.(scale := s.scale + 1) else s)
       else if s.scale > 0 then s.(scale := s.scale - 1) else s)
    else SetTop(s, x, if up then A.succ(Top(A, s, x)) else A.pred(Top(A, s, x)))
  }

  // ---- Arrays ------------------------------------------------------------------------

  function Subscript(A: Arith, v: Num): Maybe<int>
  {
    var i := A.toLong(v);
    if i < 0 || i > BC_DIM_MAX || (i == 0 && !A.isZero(v)) then Nothing else Just(i)
  }

  // The place of the array in use, if it has one.
  function PlaceOf(s: Store, a: nat): Slot
  {
    var st := ArrayStack(s, a);
    if st == [] then Unset else st[|st| - 1]
  }

  // get_array_num makes sure that the array in use has a place.
  function Ensure(s: Store, a: nat): Store
  {
    var st := ArrayStack(s, a);
    if PlaceOf(s, a).Slot? then s
    else
      var place := Slot(|s.cells|, false);
      s.(arrays := s.arrays[a := if st == [] then [place] else st[|st| - 1 := place]], cells := s.cells + [map[]])
  }

  function Elements(s: Store, a: nat): map<int, Num>
  {
    var p := PlaceOf(s, a);
    if p.Slot? && p.id < |s.cells| then s.cells[p.id] else map[]
  }

  function Elem(A: Arith, s: Store, a: nat, i: int): Num
  {
    if i in Elements(s, a) then Elements(s, a)[i] else A.zero
  }

  function SetElem(s: Store, a: nat, i: int, v: Num): Store
  {
    var s1 := Ensure(s, a);
    var p := PlaceOf(s1, a);
    if p.Slot? && p.id < |s1.cells| then s1.(cells := s1.cells[p.id := s1.cells[p.id][i := v]]) else s1
  }

  function StepElem(A: Arith, s: Store, a: nat, i: int, up: bool): Store
  {
    SetElem(s, a, i, if up then A.succ(Elem(A, s, a, i)) else A.pred(Elem(A, s, a, i)))
  }

  // ---- Autos and parameters -----------------------------------------------------------

  function PushVar(s: Store, x: nat, v: Num): Store
  {
    s.(vars := s.vars[x := VarStack(s, x) + [v]])
  }

  function PushArray(s: Store, a: nat, p: Slot): Store
  {
    s.(arrays := s.arrays[a := ArrayStack(s, a) + [p]])
  }

  // auto_var: positive names are variables, the others arrays.
  function AutoVar(A: Arith, s: Store, name: int): Store
  {
    if name > 0 then PushVar(s, name, A.zero) else PushArray(s, -name, Unset)
  }

  function PopName(s: Store, name: int): Store
  {
    if name > 0 then
      var st := VarStack(s, name);
      if st == [] then s else s.(vars := s.vars[name := st[..|st| - 1]])
    else
      var st := ArrayStack(s, -name);
      if st == [] then s else s.(arrays := s.arrays[-name := st[..|st| - 1]])
  }

  // The lists of parameters and autos are kept with the last name first, and this
  // is the order in which they are pushed and popped.
  function PushAutos(A: Arith, s: Store, names: seq<int>): Store
    decreases |names|
  {
    if names == [] then s else PushAutos(A, AutoVar(A, s, names[|names| - 1]), names[..|names| - 1])
  }

  // pop_vars
  function PopNames(s: Store, names: seq<int>): Store
    decreases |names|
  {
    if names == [] then s else PopNames(PopName(s, names[|names| - 1]), names[..|names| - 1])
  }

  datatype Bound = Bound(s: Store, ok: bool)

  function NameOf(p: Param): int
  {
    if p.Scalar? then p.name else -(p.name as int)
  }

  function Names(params: seq<Param>): (r: seq<int>)
    ensures |r| == |params|
  {
    seq(|params|, i requires 0 <= i < |params| => NameOf(params[i]))
  }

  predicate Matching(p: Param, a: Arg)
  {
    p.Scalar? == a.Single?
  }

  // One parameter: a variable with the value, a copy of the array, or the array itself.
  function BindOne(s: Store, p: Param, a: Arg): Store
    requires Matching(p, a)
  {
    match p
    case Scalar(x) => PushVar(s, x, a.v)
    case Array(x, byRef) =>
      var s1 := Ensure(s, a.arr);
      var place := PlaceOf(s1, a.arr);
      if byRef then PushArray(s1, x, place.(shared := true))
      else PushArray(s1.(cells := s1.cells + [Elements(s1, a.arr)]), x, Slot(|s1.cells|, false))
  }

  // process_params: the argument on top of the stack belongs to the last parameter.
  function Bind(s: Store, params: seq<Param>, args: seq<Arg>): Bound
    decreases |args|
  {
    if args == [] then Bound(s, params == [])
    else if params == [] || !Matching(params[|params| - 1], args[|args| - 1]) then Bound(s, false)
    else Bind(BindOne(s, params[|params| - 1], args[|args| - 1]), params[..|params| - 1], args[..|args| - 1])
  }

  // The stacks while the function runs, and after it.
  function EnterFrame(A: Arith, s: Store, f: Function, args: seq<Arg>): Bound
  {
    var b := Bind(s, f.params, args);
    Bound(PushAutos(A, b.s, f.autos), b.ok)
  }

  function LeaveFrame(s: Store, f: Function): Store
  {
    PopNames(PopNames(s, f.autos), Names(f.params))
  }

  function Put(s: Store, e: Event): Store
  {
    s.(out := s.out + [e])
  }
}
