// The numbers of names (util.c, lookup).  The tree of names is a map.
module BcNames {
  import opened Maybes
  import opened BcSyntax

  datatype Kind = OfArray | OfFunction | OfDefinition | OfVariable

  // The numbers given so far, by kind, and the next ones.
  datatype Names = Names(arrays: map<string, nat>, functions: map<string, nat>, variables: map<string, nat>,
                         nextArray: nat, nextFunction: nat, nextVariable: nat, useMath: bool)

  // The program gives up when there are too many names of a kind.
  datatype Looked = Looked(st: Names, number: Maybe<int>)

  // A definition of a function of the library, which then gets a new number.
  predicate Redefines(st: Names, name: string, kind: Kind)
  {
    st.useMath && kind.OfDefinition? && name in st.functions && st.functions[name] <= 6
  }

  // Arrays have their numbers negated.
  function Negated(n: nat): Maybe<int>
  {
    var v: int := n;
    Just(-v)
  }

  function Look(st: Names, name: string, kind: Kind): Looked
  {
    match kind
    case OfArray =>
      if name in st.arrays then Looked(st, Negated(st.arrays[name]))
      else
        var n := st.nextArray;
        Looked(st.(arrays := st.arrays[name := n], nextArray := n + 1), if n < MAX_STORE then Negated(n) else Nothing)
    case OfVariable =>
      if name in st.variables then Looked(st, Just(st.variables[name]))
      else
        var n := st.nextVariable;
        Looked(st.(variables := st.variables[name := n], nextVariable := n + 1),
               if n <= MAX_STORE then Just(n) else Nothing)
    case _ =>
      if name in st.functions && !Redefines(st, name, kind) then Looked(st, Just(st.functions[name]))
      else
        var n := st.nextFunction;
        Looked(st.(functions := st.functions[name := n], nextFunction := n + 1),
               if n < MAX_STORE || name in st.functions then Just(n) else Nothing)
  }

  class NameTable {
    var arrays: map<string, nat>
    var functions: map<string, nat>
    var variables: map<string, nat>
    var nextArray: nat
    var nextFunction: nat
    var nextVariable: nat
    var useMath: bool

    function State(): Names
      reads this
    {
      Names(arrays, functions, variables, nextArray, nextFunction, nextVariable, useMath)
    }

    // init_tree
    constructor (useMath: bool)
      ensures Numbered(State()) && AllFit(State()) && State() == Names(map[], map[], map[], 1, 1, 5, useMath)
    {
      arrays, functions, variables := map[], map[], map[];
      nextArray, nextFunction, nextVariable := 1, 1, 5;
      this.useMath := useMath;
    }

    // lookup
    method Lookup(name: string, kind: Kind) returns (number: Maybe<int>)
      modifies this
      ensures Looked(State(), number) == Look(old(State()), name, kind)
    {
      if kind == OfArray {
        if name in arrays { return Negated(arrays[name]); }
        var n := nextArray;
        nextArray := nextArray + 1;
        arrays := arrays[name := n];
        if n < MAX_STORE { return Negated(n); }
      } else if kind == OfVariable {
        if name in variables { return Just(variables[name]); }
        var n := nextVariable;
        nextVariable := nextVariable + 1;
        variables := variables[name := n];
        if n <= MAX_STORE { return Just(n); }
      } else {
        if name in functions {
          if useMath && kind == OfDefinition && functions[name] <= 6 {
            functions := functions[name := nextFunction];
            nextFunction := nextFunction + 1;
          }
          return Just(functions[name]);
        }
        var n := nextFunction;
        nextFunction := nextFunction + 1;
        functions := functions[name := n];
        if n < MAX_STORE { return Just(n); }
      }
      return Nothing;
    }
  }

  // ---- Numbers are for one name ----------------------------------------------------------------

  predicate Own(m: map<string, nat>, next: nat)
  {
    (forall x :: x in m ==> m[x] < next) && forall x, y :: x in m && y in m && x != y ==> m[x] != m[y]
  }

  predicate Numbered(st: Names)
  {
    Own(st.arrays, st.nextArray) && Own(st.functions, st.nextFunction) && Own(st.variables, st.nextVariable)
  }

  lemma OwnMore(m: map<string, nat>, next: nat, name: string)
    requires Own(m, next)
    ensures Own(m[name := next], next + 1)
  {
    var m' := m[name := next];
    forall x, y | x in m' && y in m' && x != y ensures m'[x] != m'[y] {
      if x != name { assert m'[x] == m[x]; }
      if y != name { assert m'[y] == m[y]; }
    }
  }

  // Different names have different numbers, and a name keeps its number, unless it is that
  // of a library function that is defined again.
  lemma NumbersDiffer(st: Names, name: string, other: string, kind: Kind)
    requires Numbered(st)
    ensures var l := Look(st, name, kind);
            Numbered(l.st)
            && (l.number.Just? && !Redefines(l.st, name, kind) ==> Look(l.st, name, kind) == l)
            && (l.number.Just? && name != other ==> Look(l.st, other, kind).number != l.number)
  {
    match kind
    case OfArray => ArraysDiffer(st, name, other);
    case OfVariable => VariablesDiffer(st, name, other);
    case _ => FunctionsDiffer(st, name, other, kind);
  }

  lemma ArraysDiffer(st: Names, name: string, other: string)
    requires Numbered(st)
    ensures var l := Look(st, name, OfArray);
            Numbered(l.st) && (l.number.Just? ==> Look(l.st, name, OfArray) == l)
            && (l.number.Just? && name != other ==> Look(l.st, other, OfArray).number != l.number)
  {
    hide Own;
    OwnMore(st.arrays, st.nextArray, name);
    var l := Look(st, name, OfArray);
    if name in l.st.arrays { OwnOther(l.st.arrays, l.st.nextArray, name, other); }
  }

  lemma VariablesDiffer(st: Names, name: string, other: string)
    requires Numbered(st)
    ensures var l := Look(st, name, OfVariable);
            Numbered(l.st) && (l.number.Just? ==> Look(l.st, name, OfVariable) == l)
            && (l.number.Just? && name != other ==> Look(l.st, other, OfVariable).number != l.number)
  {
    hide Own;
    OwnMore(st.variables, st.nextVariable, name);
    var l := Look(st, name, OfVariable);
    if name in l.st.variables { OwnOther(l.st.variables, l.st.nextVariable, name, other); }
  }

  lemma FunctionsDiffer(st: Names, name: string, other: string, kind: Kind)
    requires Numbered(st) && (kind.OfFunction? || kind.OfDefinition?)
    ensures var l := Look(st, name, kind);
            Numbered(l.st) && (l.number.Just? && !Redefines(l.st, name, kind) ==> Look(l.st, name, kind) == l)
            && (l.number.Just? && name != other ==> Look(l.st, other, kind).number != l.number)
  {
    hide Own;
    OwnMore(st.functions, st.nextFunction, name);
    var l := Look(st, name, kind);
    if name in l.st.functions { OwnOther(l.st.functions, l.st.nextFunction, name, other); }
  }

  lemma OwnOther(m: map<string, nat>, next: nat, name: string, other: string)
    requires Own(m, next) && name in m
    ensures m[name] < next && (other in m && other != name ==> m[other] != m[name])
  {
  }

  // ---- Numbers fit their bytes --------------------------------------------------------------------

  function Size(v: int): nat
  {
    if v < 0 then -v else v
  }

  predicate AllBelow(m: map<string, nat>)
  {
    forall x :: x in m ==> m[x] < 0x8000
  }

  predicate AllFit(st: Names)
  {
    AllBelow(st.arrays) && AllBelow(st.functions) && AllBelow(st.variables)
  }

  // Every number that lookup returns fits its two bytes, if and only if it does not define
  // a library function again when the numbers are used up.
  lemma FitsExactly(st: Names, name: string, kind: Kind)
    requires AllFit(st)
    ensures var l := Look(st, name, kind);
            l.number.Just? ==>
              (Size(l.number.v) < 0x8000 <==> !(Redefines(st, name, kind) && st.nextFunction >= 0x8000))
              && (AllFit(l.st) <==> Size(l.number.v) < 0x8000)
  {
    var l := Look(st, name, kind);
    if l.number.Just? {
      match kind
      case OfArray => BelowMore(st.arrays, name, l.st.arrays);
      case OfVariable => BelowMore(st.variables, name, l.st.variables);
      case _ => BelowMore(st.functions, name, l.st.functions);
    }
  }

  lemma BelowMore(m: map<string, nat>, name: string, m': map<string, nat>)
    requires AllBelow(m) && name in m' && m' == m[name := m'[name]]
    ensures AllBelow(m') <==> m'[name] < 0x8000
  {
    if m'[name] < 0x8000 {
      forall x | x in m' ensures m'[x] < 0x8000 {
        if x != name { assert m'[x] == m[x]; }
      }
    }
  }

  // When all numbers of functions are given, two functions of the library can still be
  // defined again; the number of the second does not fit.
  lemma TwoRedefined(st: Names, x: string, y: string)
    requires st.useMath && st.nextFunction == MAX_STORE && x != y
    requires x in st.functions && y in st.functions && st.functions[x] <= 6 && st.functions[y] <= 6
    ensures var l := Look(st, x, OfDefinition);
            l.number == Just(0x7fff) && Look(l.st, y, OfDefinition).number == Just(0x8000)
  {
  }
}
