// Whole programs: functions with their heads, and the main code.  What the loader makes
// of their text is the program that the machine on bytes runs.
module BcProgram {
  import opened BcSyntax
  import opened BcStore
  import opened BcEval
  import opened BcSimulation
  import opened BcCorrect
  import opened BcGenerate
  import opened BcBytes
  import opened BcLaid
  import opened BcTargets
  import opened BcWhole
  import opened BcLoads
  import L = BcLoad

  // ---- Heads of functions ---------------------------------------------------------------------

  function WrittenInt(n: int): string
  {
    if n < 0 then "-" + Decimal(-n) else Decimal(n)
  }

  // A star marks an array that is shared.
  function WrittenParam(p: Param): string
  {
    (if p.Array? && p.byRef then "*" else "") + WrittenInt(NameOf(p))
  }

  // The names behind commas.
  function ParamList(params: seq<Param>): string
  {
    if params == [] then "" else "," + WrittenParam(params[0]) + ParamList(params[1..])
  }

  function AutoTail(autos: seq<int>): string
  {
    if autos == [] then "" else "," + WrittenInt(autos[0]) + AutoTail(autos[1..])
  }

  function WrittenAutos(autos: seq<int>): string
  {
    if autos == [] then "" else WrittenInt(autos[0]) + AutoTail(autos[1..])
  }

  function WrittenFunction(f: nat, fn: Function): string
  {
    "F" + Decimal(f) + (if fn.params == [] then "," else ParamList(fn.params)) + "."
    + WrittenAutos(fn.autos) + "[" + WrittenAll(FunctionCode(fn)) + "]"
  }

  function NameFor(p: Param): L.Name
  {
    L.Name(NameOf(p), p.Array? && p.byRef)
  }

  function NamesFor(params: seq<Param>): (r: seq<L.Name>)
    ensures |r| == |params|
  {
    seq(|params|, i requires 0 <= i < |params| => NameFor(params[i]))
  }

  lemma IntRead(n: int, rest: string)
    requires rest == "" || !L.IsDigit(rest[0])
    ensures L.LongVal(WrittenInt(n) + rest) == L.Long(n, rest)
    ensures WrittenInt(n) != "" && (L.IsDigit(WrittenInt(n)[0]) || WrittenInt(n)[0] == '-')
  {
    hide Decimal;
    var k := if n < 0 then -n else n;
    NumberRead(k, rest);
    DecimalStarts(k);
    if n < 0 {
      assert WrittenInt(n) + rest == ['-'] + (Decimal(k) + rest)
             && (['-'] + (Decimal(k) + rest))[1..] == Decimal(k) + rest;
      assert (Decimal(k) + rest)[0] == Decimal(k)[0];
    }
  }

  lemma ParamRead(p: Param, rest: string)
    requires rest == "" || !L.IsDigit(rest[0])
    ensures var x := WrittenParam(p); x != "" && x[0] != '.' && L.ParamAt(x + rest) == L.OneName(NameFor(p), rest)
  {
    hide WrittenInt, L.LongVal;
    var n := WrittenInt(NameOf(p));
    IntRead(NameOf(p), rest);
    if p.Array? && p.byRef {
      assert "*" + n + rest == ['*'] + (n + rest) && (['*'] + (n + rest))[1..] == n + rest;
    } else {
      assert WrittenParam(p) == n && (n + rest)[0] == n[0];
    }
  }

  lemma CommaJoin(x: string, y: string, z: string)
    ensures var t := x + (y + z);
            "," + x + y + z == [','] + t && ([','] + t)[1..] == t
            && (x != "" ==> ([','] + t)[1] == x[0])
  {
    assert "," + x + y + z == [','] + (x + (y + z));
  }

  lemma Pointed(x: string, y: string, rest: string)
    ensures x + "." + rest == x + ("." + rest) && y + "." + rest == y + ("." + rest)
    ensures x + "[" + rest == x + ("[" + rest) && y + "[" + rest == y + ("[" + rest)
  {
  }

  lemma ParamsStart(params: seq<Param>, rest: string)
    ensures var t := ParamList(params) + "." + rest; t != "" && t[0] == (if params == [] then '.' else ',')
  {
    hide WrittenParam;
    if params == [] {
      assert ParamList(params) + "." + rest == ['.'] + rest;
    } else {
      Pointed(ParamList(params), "", rest);
      CommaJoin(WrittenParam(params[0]), ParamList(params[1..]), "." + rest);
    }
  }

  lemma NextListed<T>(before: seq<T>, x: T)
    ensures ListOf(before + [x]) == NextArg(ListOf(before), x)
  {
    assert (before + [x])[..|before|] == before;
  }

  // The loader finds the parameters, and keeps them with the last one first.
  lemma {:induction false} ParamsRead(params: seq<Param>, before: seq<L.Name>, rest: string)
    ensures L.Params(ParamList(params) + "." + rest, ListOf(before))
            == L.NameList(ListOf(before + NamesFor(params)), rest)
    decreases |params|
  {
    hide WrittenInt, L.LongVal, L.ParamAt, ListOf, WrittenParam;
    if params == [] {
      assert before + NamesFor(params) == before;
      assert ParamList(params) + "." + rest == ['.'] + rest && (['.'] + rest)[1..] == rest;
    } else {
      var p, more := params[0], ParamList(params[1..]) + "." + rest;
      ParamsStart(params[1..], rest);
      ParamRead(p, more);
      Pointed(ParamList(params), ParamList(params[1..]), rest);
      CommaJoin(WrittenParam(p), ParamList(params[1..]), "." + rest);
      NextListed(before, NameFor(p));
      ParamsRead(params[1..], before + [NameFor(p)], rest);
      assert before + [NameFor(p)] + NamesFor(params[1..]) == before + NamesFor(params);
    }
  }

  lemma {:induction false} AutosRead(autos: seq<int>, before: seq<int>, rest: string)
    ensures L.Autos(AutoTail(autos) + "[" + rest, ListOf(before)) == L.AutoList(ListOf(before + autos), "[" + rest)
    decreases |autos|
  {
    hide WrittenInt, L.LongVal, ListOf;
    if autos == [] {
      assert before + autos == before;
      assert AutoTail(autos) + "[" + rest == ['['] + rest;
    } else {
      var n, more := WrittenInt(autos[0]), AutoTail(autos[1..]) + "[" + rest;
      AutosStart(autos[1..], rest);
      IntRead(autos[0], more);
      Pointed(AutoTail(autos), AutoTail(autos[1..]), rest);
      CommaJoin(n, AutoTail(autos[1..]), "[" + rest);
      NextListed(before, autos[0]);
      AutosRead(autos[1..], before + [autos[0]], rest);
      assert before + [autos[0]] + autos[1..] == before + autos;
    }
  }

  lemma AutosStart(autos: seq<int>, rest: string)
    ensures var t := AutoTail(autos) + "[" + rest; t != "" && (t[0] == ',' || t[0] == '[')
  {
    hide WrittenInt;
    if autos == [] {
      assert AutoTail(autos) + "[" + rest == ['['] + rest;
    } else {
      Pointed(AutoTail(autos), "", rest);
      CommaJoin(WrittenInt(autos[0]), AutoTail(autos[1..]), "[" + rest);
    }
  }

  lemma AllAutosRead(autos: seq<int>, rest: string)
    ensures L.Autos(WrittenAutos(autos) + "[" + rest, []) == L.AutoList(ListOf(autos), "[" + rest)
  {
    hide WrittenInt, L.LongVal, AutoTail, ListOf;
    NoneListed<int>();
    if autos == [] {
      assert WrittenAutos(autos) + "[" + rest == ['['] + rest;
    } else {
      var n, more := WrittenInt(autos[0]), AutoTail(autos[1..]) + "[" + rest;
      AutosStart(autos[1..], rest);
      IntRead(autos[0], more);
      assert WrittenAutos(autos) + "[" + rest == n + more && (n + more)[0] == n[0];
      NextListed([], autos[0]);
      AutosRead(autos[1..], [autos[0]], rest);
      assert [autos[0]] + autos[1..] == autos && [] + [autos[0]] == [autos[0]];
    }
  }

  lemma NoneListed<T>()
    ensures var none: seq<T> := []; ListOf(none) == []
  {
  }

  lemma AllParamsRead(params: seq<Param>, rest: string)
    ensures var t := (if params == [] then "," else ParamList(params)) + "." + rest;
            t != "" && t[0] == ',' && L.Params(t, []) == L.NameList(ListOf(NamesFor(params)), rest)
  {
    hide ListOf, ParamList;
    NoneListed<L.Name>();
    if params == [] {
      var t := "," + "." + rest;
      assert t[1..] == "." + rest && t[2..] == rest;
    } else {
      ParamsStart(params, rest);
      ParamsRead(params, [], rest);
      assert [] + NamesFor(params) == NamesFor(params);
    }
  }

  // ---- A whole function -----------------------------------------------------------------------

  // The state behind the head of a function.
  function Begun(st: L.Loading, f: nat, fn: Function): L.Loading
  {
    st.(segs := st.segs[f := L.FuncBody([], [], ListOf(NamesFor(fn.params)), ListOf(fn.autos), false)], saved := st.fn,
      fn := f)
  }

  lemma HeadRead(st: L.Loading, f: nat, fn: Function, rest: string)
    requires Idle(st)
    ensures var t := Decimal(f) + (if fn.params == [] then "," else ParamList(fn.params)) + "."
            + WrittenAutos(fn.autos) + "[" + rest;
            L.HeadTurn(st, t) == L.Turn(Begun(st, f, fn), "[" + rest)
  {
    hide Decimal, WrittenInt, L.LongVal, L.Params, L.Autos, ParamList, WrittenAutos, ListOf;
    var a := WrittenAutos(fn.autos) + "[" + rest;
    var p := (if fn.params == [] then "," else ParamList(fn.params)) + "." + a;
    assert Decimal(f) + (if fn.params == [] then "," else ParamList(fn.params)) + "." + WrittenAutos(fn.autos) + "["
           + rest
           == Decimal(f) + p;
    AllParamsRead(fn.params, a);
    AllAutosRead(fn.autos, rest);
    NumberRead(f, p);
    var s := L.Blank().(params := ListOf(NamesFor(fn.params)), autos := ListOf(fn.autos));
    assert st.segs[f := L.Blank()][f := s] == st.segs[f := s];
  }

  // The function with its bytes and addresses, and its lists with the last name first.
  function Defined(st: L.Loading, f: nat, fn: Function): L.Loading
    requires AllFit(FunctionCode(fn))
  {
    var code := FunctionCode(fn);
    st.(segs := st.segs[f := L.FuncBody(Bytes(code), Addresses(code), ListOf(NamesFor(fn.params)), ListOf(fn.autos),
      true)],
        saved := st.fn)
  }

  lemma BegunIdle(st: L.Loading, f: nat, fn: Function)
    requires Idle(st)
    ensures Idle(Begun(st, f, fn)) && HasCode(Begun(st, f, fn), [])
  {
  }

  lemma FunctionBegins(st: L.Loading, f: nat, fn: Function, rest: string)
    requires Idle(st)
    ensures L.LoadText(st, WrittenFunction(f, fn) + rest)
            == L.LoadText(Begun(st, f, fn), WrittenAll(FunctionCode(fn)) + ("]" + rest))
  {
    hide L.LoadText, Decimal, WrittenAutos, ParamList, WrittenAll, FunctionCode, L.HeadTurn, Begun, L.Add, L.DefLabel;
    var body := WrittenAll(FunctionCode(fn)) + ("]" + rest);
    var t := Decimal(f) + (if fn.params == [] then "," else ParamList(fn.params)) + "." + WrittenAutos(fn.autos) + "["
        + body;
    assert WrittenFunction(f, fn) + rest == ['F'] + t;
    OneMoreTurn(st, 'F', t);
    HeadRead(st, f, fn, body);
    assert ("[" + body)[1..] == body;
  }

  lemma FunctionLoaded(st: L.Loading, f: nat, fn: Function, rest: string)
    requires Idle(st) && AllFit(FunctionCode(fn)) && f != st.fn
    ensures L.LoadText(st, WrittenFunction(f, fn) + rest) == L.LoadText(Defined(st, f, fn), rest)
            && Idle(Defined(st, f, fn))
  {
    hide L.LoadText, WrittenFunction, WrittenAll, FunctionCode, Bytes, Addresses, L.Add, L.DefLabel, Fits;
    var code, st1 := FunctionCode(fn), Begun(st, f, fn);
    FunctionBegins(st, f, fn, rest);
    BegunIdle(st, f, fn);
    assert code[..0] == [] && code[0..] == code;
    CodeLoaded(st1, code, 0, "]" + rest);
    OneMoreTurn(Filled(st1, code), ']', rest);
    FunctionEnds(st, f, fn);
  }

  lemma FunctionEnds(st: L.Loading, f: nat, fn: Function)
    requires Idle(st) && AllFit(FunctionCode(fn)) && f != st.fn && L.Proper(Begun(st, f, fn))
    ensures var r := Filled(Begun(st, f, fn), FunctionCode(fn));
            L.WithHere(r, L.Here(r).(defined := true)).(fn := r.saved) == Defined(st, f, fn)
    ensures Idle(Defined(st, f, fn))
  {
    hide FunctionCode, Bytes, Addresses, ListOf, Fits;
    var code := FunctionCode(fn);
    var b := Begun(st, f, fn);
    var x := L.FuncBody(Bytes(code), Addresses(code), ListOf(NamesFor(fn.params)), ListOf(fn.autos), false);
    var y := x.(defined := true);
    assert b.segs[f := x][f := y] == st.segs[f := y];
  }

  // ---- Programs -------------------------------------------------------------------------------

  // The functions in the order in which they are defined.
  function WrittenFunctions(C: Context, fs: seq<nat>): string
    requires forall i :: 0 <= i < |fs| ==> fs[i] in C.functions
  {
    if fs == [] then "" else WrittenFunction(fs[0], C.functions[fs[0]]) + WrittenFunctions(C, fs[1..])
  }

  function WrittenProgram(C: Context, fs: seq<nat>, main: Stmts): string
    requires forall i :: 0 <= i < |fs| ==> fs[i] in C.functions
  {
    WrittenFunctions(C, fs) + WrittenAll(MainCode(main))
  }

  ghost predicate Ordered(C: Context, fs: seq<nat>)
  {
    0 !in C.functions
      && (forall i :: 0 <= i < |fs| ==> fs[i] in C.functions) && forall f :: f in C.functions ==> f in fs
  }

  function Fresh(): L.Loading
  {
    L.Loading(map[0 := L.Blank()], 0, 0, false, false, false)
  }

  // What the loader holds for a function.
  ghost predicate Holds(C: Context, st: L.Loading, f: nat)
    requires f in C.functions && AllFit(FunctionCode(C.functions[f]))
  {
    var fn, s := C.functions[f], L.BodyAt(st, f);
    s.defined && s.body == Bytes(FunctionCode(fn)) && s.adrs == Addresses(FunctionCode(fn))
    && s.params == ListOf(NamesFor(fn.params)) && s.autos == ListOf(fn.autos)
  }

  ghost predicate FittingFunctions(C: Context)
  {
    0 !in C.functions && forall f :: f in C.functions ==> AllFit(FunctionCode(C.functions[f]))
  }

  lemma DefinedHolds(C: Context, st: L.Loading, f: nat, g: nat)
    requires FittingFunctions(C) && f in C.functions && g in C.functions && (f == g || Holds(C, st, g))
    ensures Holds(C, Defined(st, f, C.functions[f]), g)
  {
    hide FunctionCode, Bytes, Addresses, ListOf, AllFit;
  }

  lemma {:induction false} FunctionsLoaded(C: Context, st: L.Loading, fs: seq<nat>, rest: string)
    returns (st': L.Loading)
    requires FittingFunctions(C) && (forall i :: 0 <= i < |fs| ==> fs[i] in C.functions) && Idle(st) && st.fn == 0
    ensures Idle(st') && st'.fn == 0 && L.LoadText(st, WrittenFunctions(C, fs) + rest) == L.LoadText(st', rest)
    ensures L.Here(st') == L.Here(st) && st'.segs.Keys <= st.segs.Keys + C.functions.Keys
    ensures forall g :: g in C.functions && (g in fs || Holds(C, st, g)) ==> Holds(C, st', g)
    decreases |fs|
  {
    hide L.LoadText, WrittenFunction, Idle, Holds, AllFit, FunctionCode, Defined, L.Here;
    if fs == [] {
      st' := st;
      assert WrittenFunctions(C, fs) + rest == rest;
    } else {
      var f, more := fs[0], WrittenFunctions(C, fs[1..]) + rest;
      var st1 := Defined(st, f, C.functions[f]);
      assert WrittenFunctions(C, fs) + rest == WrittenFunction(f, C.functions[f]) + more;
      FunctionLoaded(st, f, C.functions[f], more);
      DefinedHere(st, f, C.functions[f]);
      forall g | g in C.functions && (g == f || Holds(C, st, g)) ensures Holds(C, st1, g) { DefinedHolds(C, st, f, g); }
      st' := FunctionsLoaded(C, st1, fs[1..], rest);
    }
  }

  lemma DefinedHere(st: L.Loading, f: nat, fn: Function)
    requires AllFit(FunctionCode(fn)) && f != st.fn
    ensures var r := Defined(st, f, fn); r.fn == st.fn && L.Here(r) == L.Here(st) && r.segs.Keys == st.segs.Keys + {f}
  {
    hide FunctionCode, Bytes, Addresses, ListOf;
  }

  // The functions with parameters, and the bytes that execute is given.
  function InMemory(C: Context, st: L.Loading): ByteProgram
  {
    ByteProgram(AsRead(C), map f | f in st.segs :: ByteCode(st.segs[f].body, st.segs[f].adrs))
  }

  ghost predicate AllLoaded(C: Context, main: Stmts, st: L.Loading)
  {
    !st.stopped && st.fn == 0 && 0 in st.segs && st.segs.Keys <= {0} + C.functions.Keys && AllFit(MainCode(main))
      && HasCode(st, MainCode(main))
    && FittingFunctions(C) && forall f :: f in C.functions ==> Holds(C, st, f)
  }

  // The text of the program is loaded: every function has its parameters and autos, with
  // the last one first, and all segments are laid out.
  lemma ProgramLoaded(C: Context, fs: seq<nat>, main: Stmts, bare: set<nat>) returns (st: L.Loading)
    requires Supported(C, main, bare) && Ordered(C, fs) && Fitting(BcCorrect.Load(C, main))
    ensures st == L.LoadText(Fresh(), WrittenProgram(C, fs, main)) && AllLoaded(C, main, st)
  {
    hide L.LoadText, WrittenFunctions, WrittenAll, MainCode, FunctionCode, Holds, AllFit, L.Here, WellSs;
    MainFits(C, main);
    var all := WrittenAll(MainCode(main));
    FreshIdle();
    var st1 := FunctionsLoaded(C, Fresh(), fs, all);
    var code := MainCode(main);
    assert code[..0] == [] && code[0..] == code && all + "" == all;
    StillBlank(st1);
    CodeLoaded(st1, code, 0, "");
    st := Filled(st1, code);
    NothingLeft(st);
    FilledHere(st1, code);
    forall f | f in C.functions ensures Holds(C, st, f) { FilledHolds(C, st1, code, f); }
  }

  lemma MainFits(C: Context, main: Stmts)
    requires Fitting(BcCorrect.Load(C, main)) && 0 !in C.functions
    ensures AllFit(MainCode(main)) && FittingFunctions(C)
  {
    hide MainCode, FunctionCode, AllFit;
    var P := BcCorrect.Load(C, main);
    assert 0 in P.code && BcMachine.Segment(P, 0) == MainCode(main);
    forall f | f in C.functions ensures AllFit(FunctionCode(C.functions[f])) {
      assert BcMachine.Segment(P, f) == FunctionCode(C.functions[f]);
    }
  }

  lemma FreshIdle()
    ensures Idle(Fresh()) && L.Here(Fresh()) == L.Blank() && Fresh().segs.Keys == {0}
  {
  }

  lemma StillBlank(st: L.Loading)
    requires L.Here(st) == L.Blank()
    ensures HasCode(st, [])
  {
  }

  lemma NothingLeft(st: L.Loading)
    requires L.Proper(st)
    ensures L.LoadText(st, "") == st
  {
  }

  lemma FilledHere(st: L.Loading, code: seq<Item>)
    requires Idle(st) && AllFit(code)
    ensures var r := Filled(st, code);
            !r.stopped && r.fn == st.fn && r.fn in r.segs && r.segs.Keys == st.segs.Keys && HasCode(r, code)
  {
    hide Bytes, Addresses;
  }

  lemma FilledHolds(C: Context, st: L.Loading, code: seq<Item>, f: nat)
    requires Idle(st) && AllFit(code) && FittingFunctions(C) && f in C.functions && Holds(C, st, f) && f != st.fn
    ensures Holds(C, Filled(st, code), f)
  {
    hide Bytes, Addresses, FunctionCode, ListOf, AllFit;
  }

  // ---- From the text to the end of the run ----------------------------------------------------

  lemma MemoryIsLaid(C: Context, main: Stmts, bare: set<nat>, st: L.Loading)
    requires Supported(C, main, bare) && Fitting(BcCorrect.Load(C, main)) && AllLoaded(C, main, st) && L.Proper(st)
    ensures Laid(BcCorrect.Load(C, main), InMemory(C, st))
  {
    hide MainCode, FunctionCode, Bytes, Addresses, WellSs, GoodCode, AllFit, ListOf;
    var P := BcCorrect.Load(C, main);
    var B := InMemory(C, st);
    LoadIsLaid(C, main, bare);
    assert 0 in P.code && BcMachine.Segment(P, 0) == MainCode(main) && 0 in st.segs;
    forall fn: nat
      ensures GoodCode(BcMachine.Segment(P, fn)) && BodyOf(B, fn) == Bytes(BcMachine.Segment(P, fn))
              && TableOf(B, fn) == Addresses(BcMachine.Segment(P, fn))
    {
      SegmentLaid(P, Laying(P), fn);
      if fn in C.functions {
        assert Holds(C, st, fn) && BcMachine.Segment(P, fn) == FunctionCode(C.functions[fn]);
      } else if fn != 0 {
        NoBytes();
        assert fn !in st.segs;
      }
    }
  }

  ghost predicate EndsSo(C: Context, main: Stmts, s: Store, fuel: nat, end: Ending)
  {
    Meaning(C, main, s, fuel) == end
  }

  // The text of a program is loaded and run, for so many instructions: when this is over,
  // the program is over, in the same way and with the same variables, arrays and output.
  // With BytesEndAsProgram, it is over as soon as n is large enough if the program ends.
  method LoadAndRun(C: Context, fs: seq<nat>, main: Stmts, ghost bare: set<nat>, s: Store, n: nat)
    returns (end: Ending, ghost B: ByteProgram)
    requires Supported(C, main, bare) && ArraysClear(C, main, s) && Ordered(C, fs)
             && Fitting(BcCorrect.Load(C, main))
    ensures Laid(BcCorrect.Load(C, main), B) && end == EndOfBytes(B, ByteRun(B, Start(s), n))
    ensures !end.Never? ==> exists fuel: nat :: EndsSo(C, main, s, fuel, end)
  {
    hide L.LoadText, WrittenProgram, Supported, ArraysClear, Fitting, Ordered, AllLoaded, Laid, Meaning, EndOfBytes,
      ByteRun;
    OrderedIn(C, fs);
    ghost var st := ProgramLoaded(C, fs, main, bare);
    FreshIdle();
    var loader := new L.Loader();
    loader.LoadCode(WrittenProgram(C, fs, main));
    assert loader.State() == st;
    MemoryIsLaid(C, main, bare, st);
    var M := ByteProgram(AsRead(C), map f | f in loader.segs :: ByteCode(loader.segs[f].body, loader.segs[f].adrs));
    B := M;
    assert B == InMemory(C, st);
    var m := ExecuteBytes(M, Start(s), n);
    end := EndOfBytes(M, m);
    if !end.Never? {
      ghost var fuel := ProgramEndsAsBytes(C, main, bare, s, B, n);
      assert EndsSo(C, main, s, fuel, end);
    }
  }

  lemma OrderedIn(C: Context, fs: seq<nat>)
    requires Ordered(C, fs)
    ensures forall i :: 0 <= i < |fs| ==> fs[i] in C.functions
  {
  }

  // ---- When the loader gives up -----------------------------------------------------------------

  ghost predicate AllFitText(code: seq<Item>)
  {
    forall i :: 0 <= i < |code| ==> FitsText(code[i])
  }

  lemma SmallFits(code: seq<Item>)
    requires AllFitText(code)
    ensures AllFit(code) <==> SmallLabels(code)
  {
    hide Fits;
    if SmallLabels(code) {
      forall i | 0 <= i < |code| ensures Fits(code[i]) { SmallItemFits(code[i]); }
    } else {
      var k :| 0 <= k < |code| && code[k].Jump? && code[k].target > 0xffff;
      BigDoesNot(code[k]);
    }
  }

  lemma SmallItemFits(it: Item)
    requires FitsText(it) && (it.Jump? ==> it.target <= 0xffff)
    ensures Fits(it)
  {
  }

  lemma BigDoesNot(it: Item)
    requires it.Jump? && it.target > 0xffff
    ensures !Fits(it)
  {
  }

  // Everything but the labels has room.
  ghost predicate FittingText(C: Context, main: Stmts)
  {
    AllFitText(MainCode(main)) && forall f :: f in C.functions ==> AllFitText(FunctionCode(C.functions[f]))
  }

  ghost predicate FewLabels(C: Context, main: Stmts)
  {
    LabelsSs(main) <= 0xffff && forall f :: f in C.functions ==> LabelsSs(C.functions[f].body) <= 0xffff
  }

  lemma FewIsFitting(C: Context, main: Stmts, bare: set<nat>)
    requires Supported(C, main, bare) && FittingText(C, main)
    ensures AllFit(MainCode(main)) <==> LabelsSs(main) <= 0xffff
    ensures forall f :: f in C.functions ==> (AllFit(FunctionCode(C.functions[f]))
            <==> LabelsSs(C.functions[f].body) <= 0xffff)
    ensures FewLabels(C, main) ==> Fitting(BcCorrect.Load(C, main))
  {
    hide MainCode, FunctionCode, AllFit, AllFitText, WellSs, SmallLabels, PlacedAll;
    SmallFits(MainCode(main));
    WellArePlaced(C.A, bare, main, false, false, true);
    LabelsDecide(main);
    forall f | f in C.functions ensures AllFit(FunctionCode(C.functions[f]))
      <==> LabelsSs(C.functions[f].body) <= 0xffff {
      SmallFits(FunctionCode(C.functions[f]));
      WellArePlaced(C.A, bare, C.functions[f].body, false, false, f in bare);
      FunctionLabelsDecide(C.functions[f]);
    }
    if FewLabels(C, main) {
      var P := BcCorrect.Load(C, main);
      forall fn: nat ensures AllFit(BcMachine.Segment(P, fn)) {
        if fn !in C.functions && fn != 0 { NoneFit(); }
      }
    }
  }

  lemma NoneFit()
    ensures AllFit([])
  {
  }

  lemma FunctionStops(st: L.Loading, f: nat, fn: Function, rest: string)
    requires Idle(st) && AllFitText(FunctionCode(fn)) && !AllFit(FunctionCode(fn))
    ensures L.LoadText(st, WrittenFunction(f, fn) + rest).stopped
  {
    hide L.LoadText, WrittenFunction, WrittenAll, FunctionCode, AllFit, SmallLabels;
    FunctionBegins(st, f, fn, rest);
    BegunIdle(st, f, fn);
    SmallFits(FunctionCode(fn));
    CodeStops(Begun(st, f, fn), FunctionCode(fn), "]" + rest);
  }

  lemma {:induction false} FunctionsStop(C: Context, st: L.Loading, fs: seq<nat>, f: nat, rest: string)
    requires 0 !in C.functions && (forall i :: 0 <= i < |fs| ==> fs[i] in C.functions) && Idle(st) && st.fn == 0
             && f in fs
    requires (forall g :: g in C.functions ==> AllFitText(FunctionCode(C.functions[g])))
             && !AllFit(FunctionCode(C.functions[f]))
    ensures L.LoadText(st, WrittenFunctions(C, fs) + rest).stopped
    decreases |fs|
  {
    hide L.LoadText, WrittenFunction, Idle, AllFit, AllFitText, FunctionCode, Defined;
    var g, more := fs[0], WrittenFunctions(C, fs[1..]) + rest;
    assert WrittenFunctions(C, fs) + rest == WrittenFunction(g, C.functions[g]) + more;
    if !AllFit(FunctionCode(C.functions[g])) {
      FunctionStops(st, g, C.functions[g], more);
    } else {
      FunctionLoaded(st, g, C.functions[g], more);
      DefinedHere(st, g, C.functions[g]);
      FunctionsStop(C, Defined(st, g, C.functions[g]), fs[1..], f, rest);
    }
  }

  // The loader gives up if and only if the main code or a function has more labels than
  // sixteen bits can number.
  lemma LoaderStops(C: Context, fs: seq<nat>, main: Stmts, bare: set<nat>)
    requires Supported(C, main, bare) && Ordered(C, fs) && FittingText(C, main)
    ensures L.LoadText(Fresh(), WrittenProgram(C, fs, main)).stopped <==> !FewLabels(C, main)
  {
    hide L.LoadText, WrittenFunctions, WrittenAll, MainCode, FunctionCode, AllFit, WellSs, Holds, L.Here, Fitting,
      HasCode, FitsText;
    FewIsFitting(C, main, bare);
    FreshIdle();
    var all := WrittenAll(MainCode(main));
    if FewLabels(C, main) {
      var st := ProgramLoaded(C, fs, main, bare);
    } else if f :| f in C.functions && LabelsSs(C.functions[f].body) > 0xffff {
      FunctionsStop(C, Fresh(), fs, f, all);
    } else {
      var st := FunctionsLoaded(C, Fresh(), fs, all);
      SmallFits(MainCode(main));
      CodeStops(st, MainCode(main), "");
      assert all + "" == all;
    }
  }

  // ---- An input ----------------------------------------------------------------------------

  // The statement `if (1) {}` so many times; each has one label.
  function Ifs(n: nat): Stmts
  {
    if n == 0 then NoStmts else MoreStmts(If(Number("1"), Block(NoStmts)), Ifs(n - 1))
  }

  lemma {:induction false} IfsAre(A: Arith, n: nat, l: nat)
    ensures LabelsSs(Ifs(n)) == n && WellSs(A, {}, Ifs(n), false, false, true)
            && AllFitText(CodeSs(Ifs(n), l, 0, 0))
  {
    if n > 0 {
      var one := If(Number("1"), Block(NoStmts));
      IfsAre(A, n - 1, l + 1);
      assert LabelsE(Number("1")) == 0 && LabelsS(Block(NoStmts)) == 0 && LabelsS(one) == 1;
      assert WellE(A, {}, Number("1"), true) && WellS(A, {}, Block(NoStmts), false, false, true);
      IfCode(l);
      assert CodeSs(Ifs(n), l, 0, 0) == CodeS(one, l, 0, 0) + CodeSs(Ifs(n - 1), l + 1, 0, 0);
    }
  }

  lemma IfCode(l: nat)
    ensures AllFitText(CodeS(If(Number("1"), Block(NoStmts)), l, 0, 0))
  {
    assert CodeE(Number("1"), l) == [Plain('1')] && CodeS(Block(NoStmts), l + 1, 0, 0) == [];
  }

  // With 65536 of them the loader gives up, with one less it does not.
  lemma ManyIfs(A: Arith, n: nat)
    ensures L.LoadText(Fresh(), WrittenProgram(Context(A, map[], true), [], Ifs(n))).stopped <==> n > 0xffff
  {
    hide L.LoadText, WrittenProgram, WellSs, CodeSs, LabelsSs, Ifs;
    var C := Context(A, map[], true);
    IfsAre(A, n, 1);
    MainAt(Ifs(n));
    LoaderStops(C, [], Ifs(n), {});
  }
}
