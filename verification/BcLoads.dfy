// The text that the actions write, and what the loader makes of it: exactly the bytes
// and addresses of the items, unless a label takes more than sixteen bits.
module BcLoads {
  import opened BcSyntax
  import opened BcBytes
  import opened BcLoad
  import opened BcTargets

  // ---- What the actions write ---------------------------------------------------------------

  function MarksText(kinds: seq<bool>): (r: string)
    ensures |r| == |kinds|
  {
    seq(|kinds|, i requires 0 <= i < |kinds| => if kinds[i] then '1' else '0')
  }

  function Written(it: Item): string
  {
    match it
    case Plain(c) => [c]
    case OnVar(c, x) => [c] + Decimal(x) + ":"
    case Jump(c, l) => [c] + Decimal(l) + ":"
    case Label(l) => "N" + Decimal(l) + ":"
    case Const(text) => "K" + text + ":"
    case Enter(f, kinds) => "C" + Decimal(f) + (if kinds == [] then "" else "," + MarksText(kinds)) + ":"
    case Builtin(c) => "c" + [c]
    case Str(c, s) => [c] + "\"" + s + "\""
  }

  function WrittenAll(code: seq<Item>): string
  {
    if code == [] then "" else Written(code[0]) + WrittenAll(code[1..])
  }

  // Numbers of labels may be of any size here.
  predicate FitsText(it: Item)
  {
    if it.Jump? then Jumps(it.c) else Fits(it)
  }

  predicate Idle(st: Loading)
    ensures Idle(st) ==> Proper(st)
  {
    Proper(st) && !st.inText && !st.inConstant && !st.stopped
  }

  // The item has been added.
  function After(st: Loading, it: Item): (r: Loading)
    requires Proper(st) && Fits(it)
    ensures Proper(r)
  {
    if it.Label? then DefLabel(st, it.id) else Add(st, Encode(it))
  }

  // ---- Numbers --------------------------------------------------------------------------------

  lemma {:induction false} DigitsOfDecimal(n: nat, rest: string)
    ensures Digits(Decimal(n) + rest, 0) == Digits(rest, n)
  {
    var d := [(n % 10 + 48) as char];
    if n < 10 {
      assert Decimal(n) + rest == d + rest && (d + rest)[1..] == rest;
    } else {
      assert Decimal(n) + rest == Decimal(n / 10) + (d + rest);
      DigitsOfDecimal(n / 10, d + rest);
      assert (d + rest)[1..] == rest;
    }
  }

  lemma {:induction false} DecimalStarts(n: nat)
    ensures Decimal(n) != "" && IsDigit(Decimal(n)[0])
  {
    if n >= 10 { DecimalStarts(n / 10); }
  }

  // A number is read up to what is no digit.
  lemma NumberRead(n: nat, rest: string)
    requires rest == "" || !IsDigit(rest[0])
    ensures LongVal(Decimal(n) + rest) == Long(n, rest)
  {
    hide Decimal;
    DigitsOfDecimal(n, rest);
    DecimalStarts(n);
    assert (Decimal(n) + rest)[0] == Decimal(n)[0];
  }

  // ---- One item -------------------------------------------------------------------------------

  lemma OneMoreTurn(st: Loading, c: char, rest: string)
    requires Proper(st) && !st.stopped
    ensures LoadText(st, [c] + rest) == LoadText(OneTurn(st, [c] + rest).st, OneTurn(st, [c] + rest).rest)
    ensures ([c] + rest)[1..] == rest
  {
    hide OneTurn;
    assert ([c] + rest)[1..] == rest;
  }

  lemma PlainLoaded(st: Loading, c: char, rest: string)
    requires Idle(st) && (StandsAlone(c) || WritesText(c))
    ensures LoadText(st, [c] + rest) == LoadText(Add(st, [c as int]), rest)
  {
    hide LoadText, Add, DefLabel, NameTurn, JumpTurn, CallTurn, HeadTurn;
    OneMoreTurn(st, c, rest);
  }

  // A number behind its letter, and the colon behind it.
  lemma NumberSplit(c: char, n: nat, rest: string)
    ensures [c] + Decimal(n) + ":" + rest == [c] + (Decimal(n) + (":" + rest)) && (":" + rest)[1..] == rest
    ensures LongVal(Decimal(n) + (":" + rest)) == Long(n, ":" + rest)
  {
    hide Decimal;
    NumberRead(n, ":" + rest);
  }

  lemma OnVarLoaded(st: Loading, c: char, x: nat, rest: string)
    requires Idle(st) && OnNames(c)
    ensures LoadText(st, Written(OnVar(c, x)) + rest) == LoadText(Add(st, [c as int] + NameBytes(x)), rest)
  {
    hide LoadText, Add, DefLabel, JumpTurn, CallTurn, HeadTurn, Decimal, LongVal, NameBytes;
    NumberSplit(c, x, rest);
    NameCastIs(x);
    OneMoreTurn(st, c, Decimal(x) + (":" + rest));
  }

  lemma NameCastIs(x: nat)
    ensures NameCast(x) == NameBytes(x)
  {
  }

  lemma LabelLoaded(st: Loading, id: nat, rest: string)
    requires Idle(st)
    ensures LoadText(st, Written(Label(id)) + rest) == LoadText(DefLabel(st, id), rest)
  {
    hide LoadText, Add, DefLabel, JumpTurn, NameTurn, CallTurn, HeadTurn, Decimal, LongVal;
    NumberSplit('N', id, rest);
    OneMoreTurn(st, 'N', Decimal(id) + (":" + rest));
  }

  lemma JumpLoaded(st: Loading, c: char, l: nat, rest: string)
    requires Idle(st) && Jumps(c)
    ensures LoadText(st, Written(Jump(c, l)) + rest)
            == if l > 0xffff then Add(st, [c as int]).(stopped := true)
               else LoadText(Add(st, [c as int, LowByte(l), l / 256]), rest)
  {
    hide Add, DefLabel, NameTurn, CallTurn, HeadTurn, Decimal, LongVal;
    NumberSplit(c, l, rest);
    JumpTurned(st, c, l, rest);
    hide LoadText, JumpTurn;
    OneMoreTurn(st, c, Decimal(l) + (":" + rest));
    if l > 0xffff { LoadStopped(Add(st, [c as int]).(stopped := true), rest); }
  }

  lemma LoadStopped(st: Loading, rest: string)
    requires Proper(st) && st.stopped
    ensures LoadText(st, rest) == st
  {
  }

  lemma JumpTurned(st: Loading, c: char, l: nat, rest: string)
    requires Idle(st) && Jumps(c)
    ensures JumpTurn(st, c, Decimal(l) + (":" + rest))
            == if l > 0xffff then Turn(Add(st, [c as int]).(stopped := true), ":" + rest)
               else Turn(Add(st, [c as int, LowByte(l), l / 256]), ":" + rest)
  {
    hide Add, Decimal, LongVal;
    NumberSplit(c, l, rest);
  }

  lemma BuiltinLoaded(st: Loading, c: char, rest: string)
    requires Idle(st) && c as int < 256
    ensures LoadText(st, Written(Builtin(c)) + rest) == LoadText(Add(st, [99, c as int]), rest)
  {
    hide LoadText, Add, DefLabel, NameTurn, JumpTurn, CallTurn, HeadTurn;
    assert Written(Builtin(c)) + rest == ['c'] + ([c] + rest);
    OneMoreTurn(st, 'c', [c] + rest);
    assert ([c] + rest)[1..] == rest && ([c] + rest)[0] == c;
    assert [99 as Byte] + [c as int] == [99, c as int];
  }

  lemma Added(st: Loading, a: seq<Byte>, b: seq<Byte>)
    ensures Add(Add(st, a), b) == Add(st, a + b)
  {
    assert Here(st).body + a + b == Here(st).body + (a + b);
    assert st.segs[st.fn := Here(st).(body := Here(st).body + a)][st.fn := Here(st).(body := Here(st).body + (a + b))]
           == st.segs[st.fn := Here(st).(body := Here(st).body + (a + b))];
  }

  // Inside a text everything is copied, and the quotation mark ends it.
  lemma {:induction false} TextLoaded(st: Loading, s: string, rest: string)
    requires Proper(st) && st.inText && !st.stopped && forall i :: 0 <= i < |s| ==> InText(s[i])
    ensures LoadText(st, s + "\"" + rest) == LoadText(Add(st, TextBytes(s) + [34]).(inText := false), rest)
    decreases |s|
  {
    hide LoadText, Add;
    if s == "" {
      assert s + "\"" + rest == ['"'] + rest && TextBytes(s) + [34] == [34];
      OneMoreTurn(st, '"', rest);
    } else {
      assert s + "\"" + rest == [s[0]] + (s[1..] + "\"" + rest);
      OneMoreTurn(st, s[0], s[1..] + "\"" + rest);
      AddKeeps(st, [s[0] as int]);
      TextLoaded(Add(st, [s[0] as int]), s[1..], rest);
      Added(st, [s[0] as int], TextBytes(s[1..]) + [34]);
      assert [CharByte(s[0])] + (TextBytes(s[1..]) + [34]) == TextBytes(s) + [34];
    }
  }

  lemma StrLoaded(st: Loading, c: char, s: string, rest: string)
    requires Idle(st) && Fits(Str(c, s))
    ensures LoadText(st, Written(Str(c, s)) + rest) == LoadText(Add(st, Encode(Str(c, s))), rest)
  {
    hide LoadText, Add, DefLabel, NameTurn, JumpTurn, CallTurn, HeadTurn, TextBytes;
    var t := s + "\"" + rest;
    assert Written(Str(c, s)) + rest == [c] + (['"'] + t);
    PlainLoaded(st, c, ['"'] + t);
    var st1 := Add(st, [c as int]);
    AddKeeps(st, [c as int]);
    OneMoreTurn(st1, '"', t);
    TextLoaded(st1.(inText := true), s, rest);
    Added(st, [c as int], TextBytes(s) + [34]);
    AddInText(st1, TextBytes(s) + [34]);
    assert [c as int] + (TextBytes(s) + [34]) == Encode(Str(c, s));
  }

  lemma AddKeeps(st: Loading, a: seq<Byte>)
    ensures var r := Add(st, a);
            r.fn == st.fn && r.saved == st.saved && r.inText == st.inText && r.inConstant == st.inConstant
              && r.stopped == st.stopped
  {
  }

  lemma AddInText(st: Loading, a: seq<Byte>)
    requires Idle(st)
    ensures Add(st.(inText := true), a).(inText := false) == Add(st, a)
    ensures Add(st.(inConstant := true), a).(inConstant := false) == Add(st, a)
  {
  }

  lemma {:induction false} ConstantLoaded(st: Loading, text: string, rest: string)
    requires Proper(st) && !st.inText && st.inConstant && !st.stopped
             && forall i :: 0 <= i < |text| ==> InConstant(text[i])
    ensures LoadText(st, text + ":" + rest) == LoadText(Add(st, DigitBytes(text) + [58]).(inConstant := false), rest)
    decreases |text|
  {
    hide LoadText, Add;
    if text == "" {
      assert text + ":" + rest == [':'] + rest && DigitBytes(text) + [58] == [58];
      OneMoreTurn(st, ':', rest);
    } else {
      assert text + ":" + rest == [text[0]] + (text[1..] + ":" + rest);
      OneMoreTurn(st, text[0], text[1..] + ":" + rest);
      AddKeeps(st, [DigitByte(text[0])]);
      assert ConstantByte(text[0]) == DigitByte(text[0]);
      ConstantLoaded(Add(st, [DigitByte(text[0])]), text[1..], rest);
      Added(st, [DigitByte(text[0])], DigitBytes(text[1..]) + [58]);
      assert [DigitByte(text[0])] + (DigitBytes(text[1..]) + [58]) == DigitBytes(text) + [58];
    }
  }

  lemma ConstLoaded(st: Loading, text: string, rest: string)
    requires Idle(st) && Fits(Const(text))
    ensures LoadText(st, Written(Const(text)) + rest) == LoadText(Add(st, Encode(Const(text))), rest)
  {
    hide LoadText, Add, DefLabel, NameTurn, JumpTurn, CallTurn, HeadTurn, DigitBytes;
    var t := text + ":" + rest;
    assert Written(Const(text)) + rest == ['K'] + t;
    OneMoreTurn(st, 'K', t);
    var st1 := Add(st, [75]);
    AddKeeps(st, [75]);
    ConstantLoaded(st1.(inConstant := true), text, rest);
    Added(st, [75], DigitBytes(text) + [58]);
    AddInText(st1, DigitBytes(text) + [58]);
    assert [75] + (DigitBytes(text) + [58]) == Encode(Const(text));
  }

  lemma {:induction false} MarksRead(t: string, rest: string)
    requires forall i :: 0 <= i < |t| ==> t[i] != ':'
    ensures Marks(t + ":" + rest) == |t| && (t + ":" + rest)[|t|..] == ":" + rest && (t + ":" + rest)[..|t|] == t
    decreases |t|
  {
    if t != "" {
      assert (t + ":" + rest)[1..] == t[1..] + ":" + rest;
      MarksRead(t[1..], rest);
    }
  }

  lemma EnterLoaded(st: Loading, f: nat, kinds: seq<bool>, rest: string)
    requires Idle(st)
    ensures LoadText(st, Written(Enter(f, kinds)) + rest)
            == LoadText(Add(st, [67] + NameBytes(f) + MarkBytes(kinds) + [58]), rest)
  {
    hide LoadText, Add, DefLabel, JumpTurn, HeadTurn, Decimal, LongVal, NameTurn, Marks, MarksCast, MarkBytes,
      MarksText, NameBytes;
    var t := MarksText(kinds);
    var u := (if kinds == [] then "" else "," + t) + ":" + rest;
    CallWritten(f, kinds, rest);
    NameTurned(st, f, u);
    AddKeeps(st, [67] + NameBytes(f));
    MarksWritten(kinds);
    MarksRead(t, rest);
    OneMoreTurn(st, 'C', Decimal(f) + u);
    Added(st, [67] + NameBytes(f), MarkBytes(kinds) + [58]);
    assert [67] + NameBytes(f) + (MarkBytes(kinds) + [58]) == [67] + NameBytes(f) + MarkBytes(kinds) + [58];
  }

  lemma CallWritten(f: nat, kinds: seq<bool>, rest: string)
    ensures var t := MarksText(kinds); var u := (if kinds == [] then "" else "," + t) + ":" + rest;
            Written(Enter(f, kinds)) + rest == ['C'] + (Decimal(f) + u) && SkipComma(u) == t + ":" + rest
            && (":" + rest)[1..] == rest && u != "" && !IsDigit(u[0])
  {
    hide Decimal;
    var t := MarksText(kinds);
    if kinds != [] { assert ("," + t + ":" + rest)[1..] == t + ":" + rest; }
  }

  lemma NameTurned(st: Loading, f: nat, u: string)
    requires Idle(st) && u != "" && !IsDigit(u[0])
    ensures NameTurn(st, 'C', Decimal(f) + u) == Turn(Add(st, [67] + NameBytes(f)), u)
  {
    hide Decimal, LongVal, Add;
    NumberRead(f, u);
  }

  lemma MarksWritten(kinds: seq<bool>)
    ensures MarksCast(MarksText(kinds)) == MarkBytes(kinds)
            && forall i :: 0 <= i < |kinds| ==> MarksText(kinds)[i] != ':'
  {
  }

  // An item that is written and loaded is added, or ends everything.
  lemma ItemLoaded(st: Loading, it: Item, rest: string)
    requires Idle(st) && FitsText(it)
    ensures if it.Jump? && it.target > 0xffff then LoadText(st, Written(it) + rest).stopped
            else Fits(it) && Idle(After(st, it)) && LoadText(st, Written(it) + rest) == LoadText(After(st, it), rest)
  {
    hide LoadText, Add, DefLabel, Written;
    match it
    case Plain(c) =>
      AddKeeps(st, [c as int]);
      WrittenPlain(c);
      PlainLoaded(st, c, rest);
    case OnVar(c, x) =>
      AddKeeps(st, Encode(it));
      OnVarLoaded(st, c, x, rest);
    case Jump(c, l) =>
      if l <= 0xffff { AddKeeps(st, Encode(it)); }
      JumpLoaded(st, c, l, rest);
    case Label(id) =>
      DefKeeps(st, id);
      LabelLoaded(st, id, rest);
    case Const(text) =>
      AddKeeps(st, Encode(it));
      ConstLoaded(st, text, rest);
    case Enter(f, kinds) =>
      AddKeeps(st, Encode(it));
      EnterLoaded(st, f, kinds, rest);
    case Builtin(c) =>
      AddKeeps(st, Encode(it));
      BuiltinLoaded(st, c, rest);
    case Str(c, s) =>
      AddKeeps(st, Encode(it));
      StrLoaded(st, c, s, rest);
  }

  lemma WrittenPlain(c: char)
    ensures Written(Plain(c)) == [c]
  {
  }

  lemma DefKeeps(st: Loading, id: nat)
    requires Idle(st)
    ensures var r := DefLabel(st, id); Idle(r) && r.fn == st.fn && r.saved == st.saved
  {
  }

  // ---- Code in a row --------------------------------------------------------------------------

  // The current function has these bytes and addresses.
  function Filled(st: Loading, code: seq<Item>): (r: Loading)
    requires Proper(st) && AllFit(code)
    ensures Proper(r)
  {
    WithHere(st, Here(st).(body := Bytes(code), adrs := Addresses(code)))
  }

  ghost predicate HasCode(st: Loading, code: seq<Item>)
    requires AllFit(code)
  {
    Here(st).body == Bytes(code) && Here(st).adrs == Addresses(code)
  }

  lemma AfterHasMore(st: Loading, code: seq<Item>, it: Item)
    requires Idle(st) && AllFit(code) && Fits(it) && HasCode(st, code)
    ensures AllFit(code + [it]) && HasCode(After(st, it), code + [it])
    ensures forall all :: AllFit(all) ==> Filled(After(st, it), all) == Filled(st, all)
  {
    hide Bytes, Encode, Define, Fits;
    BytesOfMore(code, it);
    assert (code + [it])[..|code|] == code;
    var r := After(st, it);
    if it.Label? { NoRoom(it.id); }
    forall all | AllFit(all) ensures Filled(r, all) == Filled(st, all) {
      SameFilled(st, r, all);
    }
  }

  lemma NoRoom(id: nat)
    ensures Encode(Label(id)) == []
  {
  }

  lemma SameFilled(st: Loading, r: Loading, all: seq<Item>)
    requires Proper(st) && Proper(r) && AllFit(all) && r == st.(segs := st.segs[st.fn := Here(r)])
    requires Here(r) == Here(st).(body := Here(r).body, adrs := Here(r).adrs)
    ensures Filled(r, all) == Filled(st, all)
  {
    hide Bytes, Addresses;
    var s := Here(st).(body := Bytes(all), adrs := Addresses(all));
    assert st.segs[st.fn := Here(r)][st.fn := s] == st.segs[st.fn := s];
  }

  lemma {:induction false} CodeLoaded(st: Loading, code: seq<Item>, k: nat, rest: string)
    requires Idle(st) && AllFit(code) && k <= |code| && HasCode(st, code[..k])
    ensures LoadText(st, WrittenAll(code[k..]) + rest) == LoadText(Filled(st, code), rest) && Idle(Filled(st, code))
    decreases |code| - k
  {
    hide LoadText, Written, Fits, After, Bytes, Addresses, Idle, Filled, HasCode;
    if k == |code| {
      assert code[..k] == code && WrittenAll(code[k..]) + rest == rest;
      AlreadyFilled(st, code);
    } else {
      var it := code[k];
      var more := WrittenAll(code[k + 1..]) + rest;
      assert code[k..][0] == it && code[k..][1..] == code[k + 1..];
      assert WrittenAll(code[k..]) + rest == Written(it) + more;
      assert code[..k] + [it] == code[..k + 1];
      FitsSmall(it);
      ItemLoaded(st, it, more);
      AfterMore(st, code[..k], it, code);
      CodeLoaded(After(st, it), code, k + 1, rest);
    }
  }

  lemma AfterMore(st: Loading, code: seq<Item>, it: Item, all: seq<Item>)
    requires Idle(st) && AllFit(code) && Fits(it) && HasCode(st, code) && AllFit(all)
    ensures AllFit(code + [it]) && HasCode(After(st, it), code + [it]) && Filled(After(st, it), all) == Filled(st, all)
  {
    hide LoadText, Written, Fits, After, Bytes, Addresses, Idle, Filled, HasCode;
    AfterHasMore(st, code, it);
  }

  lemma AlreadyFilled(st: Loading, code: seq<Item>)
    requires Idle(st) && AllFit(code) && HasCode(st, code)
    ensures Filled(st, code) == st
  {
    assert st.segs[st.fn := Here(st)] == st.segs;
  }

  lemma FitsSmall(it: Item)
    requires Fits(it)
    ensures FitsText(it) && (it.Jump? ==> it.target <= 0xffff)
  {
  }

  // A label that is too big ends the program.
  lemma {:induction false} CodeStops(st: Loading, code: seq<Item>, rest: string)
    requires Idle(st) && !SmallLabels(code) && forall i :: 0 <= i < |code| ==> FitsText(code[i])
    ensures LoadText(st, WrittenAll(code) + rest).stopped
    decreases |code|
  {
    hide LoadText, Written, FitsText, After, Idle;
    var it := code[0];
    var more := WrittenAll(code[1..]) + rest;
    assert WrittenAll(code) + rest == Written(it) + more;
    ItemLoaded(st, it, more);
    if !(it.Jump? && it.target > 0xffff) {
      var k :| 0 <= k < |code| && code[k].Jump? && code[k].target > 0xffff;
      assert code[1..][k - 1] == code[k];
      CodeStops(After(st, it), code[1..], rest);
    }
  }
}
