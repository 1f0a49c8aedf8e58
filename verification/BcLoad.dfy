// The loader (load.c): it reads the text of the code, one character after the other,
// and fills the bodies and the tables of addresses of the functions.
module BcLoad {
  import opened Maybes
  import opened BcSyntax
  import opened BcBytes

  // A name in the list of a function's parameters; arrays are negative.
  datatype Name = Name(v: int, byRef: bool)

  datatype FuncBody = FuncBody(body: seq<Byte>, adrs: Groups, params: seq<Name>, autos: seq<int>, defined: bool)

  // The functions, where the next byte goes, where it went before this function, and
  // what the last characters have begun.  Stopped is a program that has ended.
  datatype Loading = Loading(segs: map<nat, FuncBody>, fn: nat, saved: nat, inText: bool, inConstant: bool,
      stopped: bool)

  function Blank(): FuncBody
  {
    FuncBody([], [], [], [], false)
  }

  function BodyAt(st: Loading, fn: nat): FuncBody
  {
    if fn in st.segs then st.segs[fn] else Blank()
  }

  predicate Proper(st: Loading)
  {
    st.fn in st.segs && st.saved in st.segs && forall fn :: fn in st.segs ==> InGroups(st.segs[fn].adrs)
  }

  function Here(st: Loading): FuncBody
  {
    BodyAt(st, st.fn)
  }

  function WithHere(st: Loading, s: FuncBody): Loading
  {
    st.(segs := st.segs[st.fn := s])
  }

  // ---- Pieces of text -----------------------------------------------------------------------

  datatype Long = Long(v: int, rest: string)

  predicate IsDigit(c: char)
  {
    '0' <= c <= '9'
  }

  function Digits(text: string, acc: int): (r: Long)
    ensures |r.rest| <= |text|
    ensures acc >= 0 ==> r.v >= 0
  {
    if text != "" && IsDigit(text[0]) then Digits(text[1..], acc * 10 + (text[0] as int - 48)) else Long(acc, text)
  }

  // long_val
  function LongVal(text: string): (r: Long)
    ensures |r.rest| <= |text|
  {
    if text != "" && text[0] == '-' then
      var d := Digits(text[1..], 0);
      Long(-d.v, d.rest)
    else Digits(text, 0)
  }

  lemma LongIs(code: string, i: nat, v: int, j: nat)
    requires i <= |code| && j <= |code|
    ensures var neg := i < |code| && code[i] == '-'; var start := if neg then i + 1 else i;
            Digits(code[start..], 0) == Long(v, code[j..])
            ==> LongVal(code[i..]) == Long(if neg then -v else v, code[j..])
  {
    hide Digits;
    if i < |code| { assert code[i..][1..] == code[i + 1..]; }
  }

  // A character of C holds the low eight bits.
  function Cast(v: int): Byte
  {
    v % 256
  }

  function NameCast(v: int): seq<Byte>
  {
    if v < 128 then [Cast(v)] else NameBytes(v)
  }

  function ConstantByte(c: char): Byte
  {
    if c == ':' || c == '.' then Cast(c as int) else if c >= 'A' then Cast(c as int + 10 - 65) else Cast(c as int - 48)
  }

  // ---- One turn of the loop -------------------------------------------------------------------

  datatype Turn = Turn(st: Loading, rest: string)

  function Add(st: Loading, bytes: seq<Byte>): (r: Loading)
    ensures Proper(st) ==> Proper(r)
  {
    WithHere(st, Here(st).(body := Here(st).body + bytes))
  }

  // def_label.  Numbers of labels are not negative.
  function DefLabel(st: Loading, v: int): (r: Loading)
    requires Proper(st)
    ensures Proper(r)
  {
    if v < 0 then st else WithHere(st, Here(st).(adrs := Define(Here(st).adrs, v, |Here(st).body|)))
  }

  // clear_func
  function ClearFunc(st: Loading, fn: nat): Loading
  {
    st.(segs := st.segs[fn := Blank()])
  }

  datatype NameList = NameList(names: seq<Name>, rest: string)

  datatype OneName = OneName(name: Name, rest: string)

  // A parameter; a star marks an array that is shared.
  function ParamAt(text: string): (r: OneName)
    ensures |r.rest| <= |text|
  {
    if text != "" && text[0] == '*' then
      var n := LongVal(text[1..]);
      OneName(Name(n.v, true), n.rest)
    else
      var n := LongVal(text);
      OneName(Name(n.v, false), n.rest)
  }

  // The parameters, each behind a comma, up to the point.
  function Params(text: string, list: seq<Name>): (r: NameList)
    ensures |r.rest| <= |text|
    decreases |text|
  {
    if text == "" then NameList(list, text)
    else if text[0] == '.' then NameList(list, text[1..])
    else if text[1..] != "" && text[1] == '.' then NameList(list, text[2..])
    else
      var n := ParamAt(text[1..]);
      Params(n.rest, NextArg(list, n.name))
  }

  datatype AutoList = AutoList(names: seq<int>, rest: string)

  // The autos, with commas between them, up to the bracket.
  function Autos(text: string, list: seq<int>): (r: AutoList)
    ensures |r.rest| <= |text|
    decreases |text|
  {
    if text == "" || text[0] == '[' then AutoList(list, text)
    else
      var n := LongVal(if text[0] == ',' then text[1..] else text);
      if |n.rest| == |text| then AutoList(list, text) else Autos(n.rest, NextArg(list, n.v))
  }

  // F: the head of a function.
  function HeadTurn(st: Loading, text: string): (r: Turn)
    requires Proper(st)
    ensures |r.rest| <= |text| && Proper(r.st)
  {
    var f := LongVal(text);
    if f.v < 0 then Turn(st, f.rest)
    else
      var st1 := ClearFunc(st, f.v);
      var p := Params(f.rest, []);
      var a := Autos(p.rest, []);
      var s := Blank().(params := p.names, autos := a.names);
      Turn(st1.(segs := st1.segs[f.v := s], saved := st.fn, fn := f.v), a.rest)
  }

  // The marks of a call, up to the colon.
  function Marks(text: string): (k: nat)
    ensures k <= |text|
  {
    if text == "" || text[0] == ':' then 0 else 1 + Marks(text[1..])
  }

  function MarksCast(text: string): seq<Byte>
  {
    seq(|text|, i requires 0 <= i < |text| => Cast(text[i] as int))
  }

  // A jump: a label above sixteen bits ends the program.
  function JumpTurn(st: Loading, c: char, text: string): (r: Turn)
    requires Proper(st)
    ensures |r.rest| <= |text| && Proper(r.st)
  {
    var l := LongVal(text);
    if l.v > 65535 then Turn(Add(st, [Cast(c as int)]).(stopped := true), l.rest)
    else Turn(Add(st, [Cast(c as int), Cast(l.v), Cast(l.v / 256)]), l.rest)
  }

  function NameTurn(st: Loading, c: char, text: string): (r: Turn)
    requires Proper(st)
    ensures |r.rest| <= |text| && Proper(r.st)
  {
    var x := LongVal(text);
    Turn(Add(st, [Cast(c as int)] + NameCast(x.v)), x.rest)
  }

  // A call: the number of the function, and the marks behind a comma.
  function CallTurn(st: Loading, text: string): (r: Turn)
    requires Proper(st)
    ensures |r.rest| <= |text| && Proper(r.st)
  {
    var f := NameTurn(st, 'C', text);
    var t := SkipComma(f.rest);
    var k := Marks(t);
    Turn(Add(f.st, MarksCast(t[..k]) + [58]), t[k..])
  }

  function SkipComma(text: string): (r: string)
    ensures |r| <= |text|
  {
    if text != "" && text[0] == ',' then text[1..] else text
  }

  function Switch(st: Loading, text: string): (r: Turn)
    requires text != "" && Proper(st)
    ensures |r.rest| <= |text| && Proper(r.st)
  {
    var c, t := text[0], text[1..];
    var b := Cast(c as int);
    if c == '"' then Turn(st.(inText := true), text)
    else if c == 'N' then
      var l := LongVal(t);
      Turn(DefLabel(st, l.v), l.rest)
    else if Jumps(c) then JumpTurn(st, c, t)
    else if c == 'F' then HeadTurn(st, t)
    else if c == ']' then Turn(WithHere(st, Here(st).(defined := true)).(fn := st.saved), text)
    else if c == 'C' then CallTurn(st, t)
    else if c == 'c' then Turn(Add(st, [b] + (if t == "" then [] else [Cast(t[0] as int)])), t)
    else if c == 'K' then Turn(Add(st, [b]).(inConstant := true), text)
    else if OnNames(c) then NameTurn(st, c, t)
    else if c == '@' then Turn(st, t)
    else if c == '\n' then Turn(st, text)
    else Turn(Add(st, [b]), text)
  }

  function OneTurn(st: Loading, text: string): (r: Turn)
    requires text != "" && Proper(st)
    ensures |r.rest| < |text| && Proper(r.st)
  {
    var c := text[0];
    if st.inText then Turn(Add(st, [Cast(c as int)]).(inText := c != '"'), text[1..])
    else if st.inConstant then
      if c == '\n' then Turn(st, text[1..])
      else Turn(Add(st, [ConstantByte(c)]).(inConstant := c != ':'), text[1..])
    else
      var r := Switch(st, text);
      Turn(r.st, if r.rest == "" then "" else r.rest[1..])
  }

  // load_code
  function LoadText(st: Loading, text: string): (r: Loading)
    requires Proper(st)
    ensures Proper(r)
    decreases |text|
  {
    if text == "" || st.stopped then st
    else
      var r := OneTurn(st, text);
      LoadText(r.st, r.rest)
  }

  lemma NextTurn(st: Loading, code: string, i: nat)
    requires Proper(st) && i < |code| && !st.stopped
    ensures code[i..][0] == code[i] && code[i..][1..] == code[i + 1..]
    ensures var r := OneTurn(st, code[i..]); LoadText(st, code[i..]) == LoadText(r.st, r.rest)
  {
    hide OneTurn;
  }

  lemma LoadEnds(st: Loading, text: string)
    requires Proper(st) && (text == "" || st.stopped)
    ensures LoadText(st, text) == st
  {
  }

  // ---- The loader --------------------------------------------------------------------------

  class Loader {
    var segs: map<nat, FuncBody>
    var fn: nat
    var saved: nat
    var inText: bool
    var inConstant: bool
    var stopped: bool

    ghost function State(): Loading
      reads this
    {
      Loading(segs, fn, saved, inText, inConstant, stopped)
    }

    // init_load
    constructor ()
      ensures State() == Loading(map[0 := Blank()], 0, 0, false, false, false)
    {
      segs, fn, saved, inText, inConstant, stopped := map[0 := Blank()], 0, 0, false, false, false;
    }

    // addbyte
    method AddByte(b: Byte)
      modifies this`segs
      ensures State() == Add(old(State()), [b])
    {
      var s := if fn in segs then segs[fn] else Blank();
      segs := segs[fn := s.(body := s.body + [b])];
    }

    // Two calls of addbyte are one of Add.
    lemma AddTwice(st: Loading, a: seq<Byte>, b: seq<Byte>)
      ensures Add(Add(st, a), b) == Add(st, a + b)
    {
      assert Here(st).body + a + b == Here(st).body + (a + b);
      assert st.segs[st.fn := Here(st).(body := Here(st).body + a)][st.fn := Here(st).(body := Here(st).body + (a + b))]
             == st.segs[st.fn := Here(st).(body := Here(st).body + (a + b))];
    }

    method DefineLabel(lab: int)
      requires Proper(State())
      modifies this`segs
      ensures State() == DefLabel(old(State()), lab)
    {
      if lab >= 0 {
        var s := if fn in segs then segs[fn] else Blank();
        var group, gs := lab / LABEL_GROUP, s.adrs;
        while |gs| <= group
          invariant InGroups(gs) && WithGroup(gs, group) == WithGroup(s.adrs, group)
          decreases group - |gs|
        {
          gs := gs + [seq(LABEL_GROUP, _ => Nothing)];
        }
        gs := gs[group := gs[group][lab % LABEL_GROUP := Just(|s.body|)]];
        segs := segs[fn := s.(adrs := gs)];
      }
    }

    // The number at i, and where it ends.
    method LongValue(code: string, i: nat) returns (v: int, j: nat)
      requires i <= |code|
      ensures i <= j <= |code| && LongVal(code[i..]) == Long(v, code[j..])
    {
      hide LongVal;
      v, j := 0, i;
      var neg := false;
      if j < |code| && code[j] == '-' {
        neg := true;
        j := j + 1;
      }
      ghost var start := j;
      while j < |code| && IsDigit(code[j])
        invariant start <= j <= |code| && v >= 0 && Digits(code[j..], v) == Digits(code[start..], 0)
      {
        assert code[j..][1..] == code[j + 1..];
        v := v * 10 + (code[j] as int - 48);
        j := j + 1;
      }
      LongIs(code, i, v, j);
      if neg { v := -v; }
    }

    // A number of one or two bytes.
    method AddName(v: int)
      modifies this`segs
      ensures State() == Add(old(State()), NameCast(v))
    {
      if v < 128 {
        AddByte(Cast(v));
      } else {
        AddByte(MarkedByte(v));
        AddByte(LowByte(v));
        AddTwice(old(State()), [MarkedByte(v)], [LowByte(v)]);
        assert [MarkedByte(v)] + [LowByte(v)] == NameBytes(v);
      }
    }

    method JumpCode(code: string, i: nat) returns (j: nat)
      requires i < |code| && Proper(State())
      modifies this`segs, this`stopped
      ensures i < j <= |code| && Turn(State(), code[j..]) == JumpTurn(old(State()), code[i], code[i + 1..])
    {
      assert code[i..][1..] == code[i + 1..];
      ghost var b := Cast(code[i] as int);
      AddByte(Cast(code[i] as int));
      var l;
      l, j := LongValue(code, i + 1);
      if l > 65535 {
        stopped := true;
      } else {
        AddByte(Cast(l));
        AddByte(Cast(l / 256));
        AddTwice(old(State()), [b], [Cast(l)]);
        AddTwice(old(State()), [b, Cast(l)], [Cast(l / 256)]);
        assert [b] + [Cast(l)] == [b, Cast(l)] && [b, Cast(l)] + [Cast(l / 256)] == [b, Cast(l), Cast(l / 256)];
      }
    }

    method NameCode(code: string, i: nat) returns (j: nat)
      requires i < |code| && Proper(State())
      modifies this`segs
      ensures i < j <= |code| && Turn(State(), code[j..]) == NameTurn(old(State()), code[i], code[i + 1..])
    {
      hide NameCast, Add;
      assert code[i..][1..] == code[i + 1..];
      AddByte(Cast(code[i] as int));
      var x;
      x, j := LongValue(code, i + 1);
      AddName(x);
      AddTwice(old(State()), [Cast(code[i] as int)], NameCast(x));
    }

    // The marks of a call, one by one.
    method AddMarks(code: string, i: nat) returns (j: nat)
      requires i <= |code| && Proper(State())
      modifies this`segs
      ensures i <= j <= |code| && Marks(code[i..]) == j - i
      ensures State() == Add(old(State()), MarksCast(code[i..j]))
    {
      hide Add;
      ghost var st := old(State());
      NothingAdded(st);
      j := i;
      while j < |code| && code[j] != ':'
        invariant i <= j <= |code| && Marks(code[i..]) == (j - i) + Marks(code[j..])
        invariant State() == Add(st, MarksCast(code[i..j]))
      {
        AddByte(Cast(code[j] as int));
        AddTwice(st, MarksCast(code[i..j]), [Cast(code[j] as int)]);
        MarksCastMore(code, i, j);
        assert code[j..][1..] == code[j + 1..];
        j := j + 1;
      }
    }

    method CallCode(code: string, i: nat) returns (j: nat)
      requires i < |code| && code[i] == 'C' && Proper(State())
      modifies this`segs
      ensures i < j <= |code| && Turn(State(), code[j..]) == CallTurn(old(State()), code[i + 1..])
    {
      hide NameTurn, Add, MarksCast, Marks, SkipComma;
      j := NameCode(code, i);
      ghost var st, rest := State(), code[j..];
      CommaSkipped(code, j);
      if j < |code| && code[j] == ',' { j := j + 1; }
      ghost var k := j;
      j := AddMarks(code, j);
      AddByte(58);
      AddTwice(st, MarksCast(code[k..j]), [58]);
      CallParts(code, k, j);
    }

    lemma CommaSkipped(code: string, j: nat)
      requires j <= |code|
      ensures SkipComma(code[j..]) == code[if j < |code| && code[j] == ',' then j + 1 else j..]
    {
      if j < |code| { assert code[j..][1..] == code[j + 1..]; }
    }

    lemma CallParts(code: string, k: nat, j: nat)
      requires k <= j <= |code|
      ensures code[k..][j - k..] == code[j..] && code[k..][..j - k] == code[k..j]
    {
    }

    lemma MarksCastMore(code: string, i: nat, j: nat)
      requires i <= j < |code|
      ensures MarksCast(code[i..j + 1]) == MarksCast(code[i..j]) + [Cast(code[j] as int)]
    {
    }

    lemma NothingAdded(st: Loading)
      requires st.fn in st.segs
      ensures Add(st, MarksCast([])) == st
    {
      assert MarksCast([]) == [] && Here(st).body + [] == Here(st).body;
      assert st.segs[st.fn := st.segs[st.fn]] == st.segs;
    }

    method NameValue(code: string, i: nat) returns (name: Name, j: nat)
      requires i <= |code|
      ensures i <= j <= |code| && ParamAt(code[i..]) == OneName(name, code[j..])
    {
      j := i;
      var v, byRef := 0, false;
      if j < |code| && code[j] == '*' {
        assert code[j..][1..] == code[j + 1..];
        byRef := true;
        j := j + 1;
      }
      v, j := LongValue(code, j);
      name := Name(v, byRef);
    }

    // The lists of parameters and autos of a function.
    method ParamCode(code: string, i: nat) returns (list: seq<Name>, j: nat)
      requires i <= |code|
      ensures i <= j <= |code| && Params(code[i..], []) == NameList(list, code[j..])
    {
      hide ParamAt;
      list, j := [], i;
      while j < |code| && code[j] != '.'
        invariant i <= j <= |code| && Params(code[j..], list) == Params(code[i..], [])
      {
        assert code[j..][1..] == code[j + 1..];
        if j + 1 < |code| && code[j + 1] == '.' {
          assert code[j..][2..] == code[j + 2..];
          return list, j + 2;
        }
        var name;
        name, j := NameValue(code, j + 1);
        list := NextArg(list, name);
      }
      if j < |code| {
        assert code[j..][1..] == code[j + 1..];
        j := j + 1;
      }
    }

    method AutoCode(code: string, i: nat) returns (list: seq<int>, j: nat)
      requires i <= |code|
      ensures i <= j <= |code| && Autos(code[i..], []) == AutoList(list, code[j..])
    {
      hide LongVal;
      list, j := [], i;
      while j < |code| && code[j] != '['
        invariant i <= j <= |code| && Autos(code[j..], list) == Autos(code[i..], [])
      {
        var k := j;
        if code[j] == ',' {
          assert code[j..][1..] == code[j + 1..];
          k := j + 1;
        }
        var v;
        v, k := LongValue(code, k);
        if k == j { return; }
        list := NextArg(list, v);
        j := k;
      }
    }

    method HeadCode(code: string, i: nat) returns (j: nat)
      requires i < |code| && Proper(State())
      modifies this`segs, this`fn, this`saved
      ensures i < j <= |code| && Turn(State(), code[j..]) == HeadTurn(old(State()), code[i + 1..])
    {
      var f;
      f, j := LongValue(code, i + 1);
      if f >= 0 {
        segs := segs[f := Blank()];
        var params, autos;
        params, j := ParamCode(code, j);
        autos, j := AutoCode(code, j);
        segs := segs[f := Blank().(params := params, autos := autos)];
        saved := fn;
        fn := f;
      }
    }

    // The character at i, outside texts and constants; j is the last one of the turn.
    method SwitchCode(code: string, i: nat) returns (j: nat)
      requires i < |code| && Proper(State())
      modifies this
      ensures i <= j <= |code| && Turn(State(), code[j..]) == Switch(old(State()), code[i..])
    {
      hide Add, NameTurn, JumpTurn, CallTurn, HeadTurn, DefLabel;
      assert code[i..][1..] == code[i + 1..];
      var c := code[i];
      j := i;
      if c == '"' {
        inText := true;
      } else if c == 'N' {
        var l;
        l, j := LongValue(code, i + 1);
        DefineLabel(l);
      } else if Jumps(c) {
        j := JumpCode(code, i);
      } else if c == 'F' {
        j := HeadCode(code, i);
      } else if c == ']' {
        EndFunction();
      } else if c == 'C' {
        j := CallCode(code, i);
      } else if c == 'c' {
        j := i + 1;
        AddByte(Cast(c as int));
        if j < |code| { AddByte(Cast(code[j] as int)); }
        SpecialAdds(old(State()), code[i + 1..], Cast(c as int));
      } else if c == 'K' {
        AddByte(Cast(c as int));
        inConstant := true;
      } else if OnNames(c) {
        j := NameCode(code, i);
      } else if c == '@' {
        j := i + 1;
      } else if c != '\n' {
        AddByte(Cast(c as int));
      }
    }

    lemma SpecialAdds(st: Loading, t: string, b: Byte)
      ensures t != "" ==> Add(Add(st, [b]), [Cast(t[0] as int)]) == Add(st, [b] + [Cast(t[0] as int)])
      ensures [b] + [] == [b]
    {
      if t != "" { AddTwice(st, [b], [Cast(t[0] as int)]); }
    }

    // The function is defined, and the code goes on where it was before.
    method EndFunction()
      requires Proper(State())
      modifies this`segs, this`fn
      ensures State() == WithHere(old(State()), Here(old(State())).(defined := true)).(fn := old(saved))
    {
      segs := segs[fn := segs[fn].(defined := true)];
      fn := saved;
    }

    // load_code
    method LoadCode(code: string)
      requires Proper(State())
      modifies this
      ensures State() == LoadText(old(State()), code)
    {
      hide Add, Switch, LoadText;
      var i := 0;
      assert code[0..] == code;
      while i < |code| && !stopped
        invariant 0 <= i <= |code| && Proper(State()) && LoadText(State(), code[i..]) == LoadText(old(State()), code)
      {
        NextTurn(State(), code, i);
        if inText {
          AddByte(Cast(code[i] as int));
          inText := code[i] != '"';
          i := i + 1;
        } else if inConstant {
          if code[i] != '\n' {
            AddByte(ConstantByte(code[i]));
            inConstant := code[i] != ':';
          }
          i := i + 1;
        } else {
          var j := SwitchCode(code, i);
          if j < |code| { assert code[j..][1..] == code[j + 1..]; }
          i := if j < |code| then j + 1 else j;
        }
      }
      LoadEnds(State(), code[i..]);
    }
  }
}
