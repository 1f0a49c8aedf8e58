// Byte code as it is laid out in memory and read again (load.c, execute.c): operands of
// one and two bytes, texts and constants with their end marks, and a table of addresses
// in groups instead of labels.
module BcBytes {
  import opened Maybes
  import opened BcSyntax
  import opened BcEval
  import opened BcMachine

  type Byte = b: int | 0 <= b < 256

  const LABEL_GROUP: nat := 64

  // ---- Instructions -----------------------------------------------------------------------

  predicate OnNames(c: char)
  {
    c == 'd' || c == 'i' || c == 'l' || c == 's' || c == 'A' || c == 'M' || c == 'L' || c == 'S'
  }

  predicate Jumps(c: char)
  {
    c == 'B' || c == 'J' || c == 'Z'
  }

  predicate WritesText(c: char)
  {
    c == 'w' || c == 'O'
  }

  // Anything that the loader copies and that is an instruction by itself.
  predicate StandsAlone(c: char)
  {
    c as int < 256 && !OnNames(c) && !Jumps(c) && !WritesText(c) && c != 'C' && c != 'K' && c != 'c'
    && c != 'N' && c != 'F' && c != ']' && c != '@' && c != '"' && c != '\n'
  }

  // A digit of a constant, up to base sixteen, or its point.
  predicate InConstant(c: char)
  {
    '0' <= c <= '9' || 'A' <= c <= 'F' || c == '.'
  }

  predicate InText(c: char)
  {
    c as int < 256 && c != '"'
  }

  // The operands have room: fifteen bits for names, sixteen for labels.
  predicate Fits(it: Item)
  {
    match it
    case Plain(c) => StandsAlone(c)
    case OnVar(c, x) => OnNames(c) && x < 0x8000
    case Jump(c, l) => Jumps(c) && l <= 0xffff
    case Label(_) => true
    case Const(text) => forall i :: 0 <= i < |text| ==> InConstant(text[i])
    case Enter(f, _) => f < 0x8000
    case Builtin(c) => c as int < 256
    case Str(c, s) => WritesText(c) && forall i :: 0 <= i < |s| ==> InText(s[i])
  }

  // ---- Writing ----------------------------------------------------------------------------

  function LowByte(v: nat): Byte
  {
    v % 256
  }

  // The second byte, with its highest bit set.
  function MarkedByte(v: nat): Byte
  {
    var h := (v / 256) % 256;
    if h < 128 then h + 128 else h
  }

  function NameBytes(v: nat): seq<Byte>
  {
    if v < 128 then [v] else [MarkedByte(v), LowByte(v)]
  }

  function DigitByte(c: char): Byte
    requires InConstant(c)
  {
    if c == '.' then 46 else if c >= 'A' then c as int + 10 - 65 else c as int - 48
  }

  function DigitBytes(text: string): (r: seq<Byte>)
    requires forall i :: 0 <= i < |text| ==> InConstant(text[i])
    ensures |r| == |text|
  {
    seq(|text|, i requires 0 <= i < |text| => DigitByte(text[i]))
  }

  function CharByte(c: char): Byte
    requires InText(c)
  {
    c as int
  }

  function TextBytes(s: string): (r: seq<Byte>)
    requires forall i :: 0 <= i < |s| ==> InText(s[i])
    ensures |r| == |s|
  {
    seq(|s|, i requires 0 <= i < |s| => CharByte(s[i]))
  }

  function MarkBytes(kinds: seq<bool>): (r: seq<Byte>)
    ensures |r| == |kinds|
  {
    seq(|kinds|, i requires 0 <= i < |kinds| => if kinds[i] then 49 else 48)
  }

  function Encode(it: Item): seq<Byte>
    requires Fits(it)
  {
    match it
    case Plain(c) => [c as int]
    case OnVar(c, x) => [c as int] + NameBytes(x)
    case Jump(c, l) => [c as int, LowByte(l), l / 256]
    case Label(_) => []
    case Const(text) => [75] + DigitBytes(text) + [58]
    case Enter(f, kinds) => [67] + NameBytes(f) + MarkBytes(kinds) + [58]
    case Builtin(c) => [99, c as int]
    case Str(c, s) => [c as int] + TextBytes(s) + [34]
  }

  // ---- Reading ----------------------------------------------------------------------------

  // byte: behind the end of the code there is something that was never written.
  function ByteAt(body: seq<Byte>, pc: nat): Byte
  {
    if pc < |body| then body[pc] else 0
  }

  // Where the next such byte is.
  function Until(body: seq<Byte>, pc: nat, mark: Byte): (k: nat)
    ensures k >= pc
    ensures pc <= |body| ==> k <= |body|
    decreases |body| - pc
  {
    if pc >= |body| || body[pc] == mark then pc else Until(body, pc + 1, mark)
  }

  datatype NameRead = NameRead(v: nat, next: nat)

  function NameAt(body: seq<Byte>, pc: nat): NameRead
  {
    var b := ByteAt(body, pc);
    if b >= 128 then NameRead((b - 128) * 256 + ByteAt(body, pc + 1), pc + 2) else NameRead(b, pc + 1)
  }

  function DigitOf(b: Byte): char
  {
    if b == 46 then '.' else if b < 10 then (b + 48) as char else (b + 55) as char
  }

  function DigitsOf(bytes: seq<Byte>): string
  {
    seq(|bytes|, i requires 0 <= i < |bytes| => DigitOf(bytes[i]))
  }

  function TextOf(bytes: seq<Byte>): string
  {
    seq(|bytes|, i requires 0 <= i < |bytes| => bytes[i] as char)
  }

  function MarksOf(bytes: seq<Byte>): seq<bool>
  {
    seq(|bytes|, i requires 0 <= i < |bytes| => bytes[i] != 48)
  }

  datatype Read = Read(it: Item, next: nat)

  // The instruction at pc with its operands.
  function ReadAt(body: seq<Byte>, pc: nat): Read
    requires pc < |body|
  {
    var c := body[pc] as char;
    if OnNames(c) then
      var n := NameAt(body, pc + 1);
      Read(OnVar(c, n.v), n.next)
    else if Jumps(c) then Read(Jump(c, ByteAt(body, pc + 1) + 256 * ByteAt(body, pc + 2)), pc + 3)
    else if c == 'C' then
      var n := NameAt(body, pc + 1);
      var k := Until(body, n.next, 58);
      Read(Enter(n.v, if k <= |body| then MarksOf(body[n.next..k]) else []), k + 1)
    else if c == 'K' then
      var k := Until(body, pc + 1, 58);
      Read(Const(DigitsOf(body[pc + 1..k])), k + 1)
    else if c == 'c' then Read(Builtin(ByteAt(body, pc + 1) as char), pc + 2)
    else if WritesText(c) then
      var k := Until(body, pc + 1, 34);
      Read(Str(c, TextOf(body[pc + 1..k])), k + 1)
    else Read(Plain(c), pc + 1)
  }

  // ---- What is written is read again --------------------------------------------------------

  // These bytes are in the body at pc.
  predicate Lies(body: seq<Byte>, pc: nat, bytes: seq<Byte>)
  {
    pc + |bytes| <= |body| && body[pc..pc + |bytes|] == bytes
  }

  lemma LiesBoth(body: seq<Byte>, pc: nat, a: seq<Byte>, b: seq<Byte>)
    requires Lies(body, pc, a + b)
    ensures Lies(body, pc, a) && Lies(body, pc + |a|, b)
  {
    var ab := body[pc..pc + |a| + |b|];
    assert body[pc..pc + |a|] == ab[..|a|] == a;
    assert body[pc + |a|..pc + |a| + |b|] == ab[|a|..] == b;
  }

  lemma LiesFirst(body: seq<Byte>, pc: nat, bytes: seq<Byte>)
    requires Lies(body, pc, bytes) && bytes != []
    ensures pc < |body| && body[pc] == bytes[0]
  {
    assert body[pc] == body[pc..pc + |bytes|][0];
  }

  lemma {:induction false} UntilMark(body: seq<Byte>, pc: nat, bytes: seq<Byte>, mark: Byte)
    requires Lies(body, pc, bytes + [mark]) && mark !in bytes
    ensures Until(body, pc, mark) == pc + |bytes|
    decreases |bytes|
  {
    LiesFirst(body, pc, bytes + [mark]);
    if bytes != [] {
      assert bytes + [mark] == [bytes[0]] + (bytes[1..] + [mark]);
      LiesBoth(body, pc, [bytes[0]], bytes[1..] + [mark]);
      UntilMark(body, pc + 1, bytes[1..], mark);
    }
  }

  // Fifteen bits of a name come back, and no more than that.
  lemma NameComesBack(body: seq<Byte>, pc: nat, v: nat)
    requires Lies(body, pc, NameBytes(v))
    ensures NameAt(body, pc) == NameRead(v, pc + |NameBytes(v)|) <==> v < 0x8000
  {
    LiesFirst(body, pc, NameBytes(v));
    if v >= 128 {
      assert body[pc..pc + 2][1] == body[pc + 1];
      var h := v / 256;
      assert v == 256 * h + v % 256;
    }
  }

  lemma DigitsComeBack(text: string)
    requires forall i :: 0 <= i < |text| ==> InConstant(text[i])
    ensures DigitsOf(DigitBytes(text)) == text && 58 !in DigitBytes(text)
  {
  }

  lemma TextComesBack(s: string)
    requires forall i :: 0 <= i < |s| ==> InText(s[i])
    ensures TextOf(TextBytes(s)) == s && 34 !in TextBytes(s)
  {
  }

  lemma MarksComeBack(kinds: seq<bool>)
    ensures MarksOf(MarkBytes(kinds)) == kinds && 58 !in MarkBytes(kinds)
  {
  }

  // Every instruction comes back, and the address of the next with it.
  lemma ComesBack(body: seq<Byte>, pc: nat, it: Item)
    requires Fits(it) && !it.Label? && Lies(body, pc, Encode(it))
    ensures pc < |body| && ReadAt(body, pc) == Read(it, pc + |Encode(it)|)
  {
    LiesFirst(body, pc, Encode(it));
    match it
    case Plain(c) =>
    case OnVar(c, x) =>
      LiesBoth(body, pc, [c as int], NameBytes(x));
      NameComesBack(body, pc + 1, x);
    case Jump(c, l) => JumpComesBack(body, pc, c, l);
    case Const(text) => ConstComesBack(body, pc, text);
    case Enter(f, kinds) => EnterComesBack(body, pc, f, kinds);
    case Builtin(c) => BuiltinComesBack(body, pc, c);
    case Str(c, s) => StrComesBack(body, pc, c, s);
  }

  lemma JumpComesBack(body: seq<Byte>, pc: nat, c: char, l: nat)
    requires Fits(Jump(c, l)) && Lies(body, pc, Encode(Jump(c, l)))
    ensures pc < |body| && ReadAt(body, pc) == Read(Jump(c, l), pc + 3)
  {
    var e := Encode(Jump(c, l));
    assert body[pc..pc + 3][0] == body[pc] && body[pc..pc + 3][1] == body[pc + 1]
           && body[pc..pc + 3][2] == body[pc + 2];
    assert l == l % 256 + 256 * (l / 256);
  }

  lemma BuiltinComesBack(body: seq<Byte>, pc: nat, c: char)
    requires Fits(Builtin(c)) && Lies(body, pc, Encode(Builtin(c)))
    ensures pc < |body| && ReadAt(body, pc) == Read(Builtin(c), pc + 2)
  {
    assert body[pc..pc + 2][0] == body[pc] && body[pc..pc + 2][1] == body[pc + 1];
  }

  // Bytes between an instruction and its end mark.
  lemma Delimited(body: seq<Byte>, pc: nat, inst: seq<Byte>, bytes: seq<Byte>, mark: Byte)
    requires Lies(body, pc, inst + bytes + [mark]) && mark !in bytes
    ensures Until(body, pc + |inst|, mark) == pc + |inst| + |bytes| < |body|
    ensures body[pc + |inst|..pc + |inst| + |bytes|] == bytes && Lies(body, pc, inst)
  {
    assert inst + bytes + [mark] == inst + (bytes + [mark]);
    LiesBoth(body, pc, inst, bytes + [mark]);
    UntilMark(body, pc + |inst|, bytes, mark);
    LiesBoth(body, pc + |inst|, bytes, [mark]);
  }

  lemma ConstComesBack(body: seq<Byte>, pc: nat, text: string)
    requires Fits(Const(text)) && Lies(body, pc, Encode(Const(text)))
    ensures pc < |body| && ReadAt(body, pc) == Read(Const(text), pc + |Encode(Const(text))|)
  {
    hide Lies, Until, DigitBytes, DigitsOf;
    DigitsComeBack(text);
    Delimited(body, pc, [75], DigitBytes(text), 58);
    LiesFirst(body, pc, [75]);
  }

  lemma StrComesBack(body: seq<Byte>, pc: nat, c: char, s: string)
    requires Fits(Str(c, s)) && Lies(body, pc, Encode(Str(c, s)))
    ensures pc < |body| && ReadAt(body, pc) == Read(Str(c, s), pc + |Encode(Str(c, s))|)
  {
    hide Lies, Until, TextBytes, TextOf;
    TextComesBack(s);
    Delimited(body, pc, [c as int], TextBytes(s), 34);
    LiesFirst(body, pc, [c as int]);
  }

  lemma EnterComesBack(body: seq<Byte>, pc: nat, f: nat, kinds: seq<bool>)
    requires Fits(Enter(f, kinds)) && Lies(body, pc, Encode(Enter(f, kinds)))
    ensures pc < |body| && ReadAt(body, pc) == Read(Enter(f, kinds), pc + |Encode(Enter(f, kinds))|)
  {
    hide Lies, Until, MarkBytes, MarksOf, NameBytes, NameAt;
    MarksComeBack(kinds);
    Delimited(body, pc, [67] + NameBytes(f), MarkBytes(kinds), 58);
    LiesFirst(body, pc, [67] + NameBytes(f));
    LiesBoth(body, pc, [67], NameBytes(f));
    NameComesBack(body, pc + 1, f);
  }

  // ---- The table of addresses ---------------------------------------------------------------

  // The groups of l_adrs; an entry that was never written is Nothing.
  type Groups = seq<seq<Maybe<nat>>>

  predicate InGroups(gs: Groups)
  {
    forall i :: 0 <= i < |gs| ==> |gs[i]| == LABEL_GROUP
  }

  function AddressOf(gs: Groups, id: nat): Maybe<nat>
    requires InGroups(gs)
  {
    if id / LABEL_GROUP < |gs| then gs[id / LABEL_GROUP][id % LABEL_GROUP] else Nothing
  }

  // As many groups as are needed to have this one.
  function WithGroup(gs: Groups, group: nat): (r: Groups)
    requires InGroups(gs)
    ensures InGroups(r) && group < |r| && forall id :: AddressOf(r, id) == AddressOf(gs, id)
    decreases group - |gs|
  {
    if group < |gs| then gs else WithGroup(gs + [seq(LABEL_GROUP, _ => Nothing)], group)
  }

  // def_label
  function Define(gs: Groups, id: nat, adr: nat): (r: Groups)
    requires InGroups(gs)
    ensures InGroups(r)
  {
    var g, r := id / LABEL_GROUP, WithGroup(gs, id / LABEL_GROUP);
    r[g := r[g][id % LABEL_GROUP := Just(adr)]]
  }

  lemma DefineIs(gs: Groups, id: nat, adr: nat, j: nat)
    requires InGroups(gs)
    ensures AddressOf(Define(gs, id, adr), j) == if j == id then Just(adr) else AddressOf(gs, j)
  {
    var r := WithGroup(gs, id / LABEL_GROUP);
    assert AddressOf(r, j) == AddressOf(gs, j);
    if j / LABEL_GROUP == id / LABEL_GROUP && j % LABEL_GROUP == id % LABEL_GROUP {
      assert j == LABEL_GROUP * (j / LABEL_GROUP) + j % LABEL_GROUP;
    }
  }

  // ---- Whole segments -----------------------------------------------------------------------

  predicate AllFit(code: seq<Item>)
  {
    forall i :: 0 <= i < |code| ==> Fits(code[i])
  }

  // The bytes of a segment, as they are added one after the other.
  function Bytes(code: seq<Item>): seq<Byte>
    requires AllFit(code)
  {
    if code == [] then [] else Bytes(code[..|code| - 1]) + Encode(code[|code| - 1])
  }

  // Where an item lies.
  function Address(code: seq<Item>, k: nat): nat
    requires AllFit(code) && k <= |code|
  {
    |Bytes(code[..k])|
  }

  function Addresses(code: seq<Item>): (gs: Groups)
    requires AllFit(code)
    ensures InGroups(gs)
  {
    if code == [] then []
    else
      var n := |code| - 1;
      var gs := Addresses(code[..n]);
      if code[n].Label? then Define(gs, code[n].id, |Bytes(code[..n])|) else gs
  }

  lemma BytesOfMore(code: seq<Item>, it: Item)
    requires AllFit(code) && Fits(it)
    ensures AllFit(code + [it]) && Bytes(code + [it]) == Bytes(code) + Encode(it)
  {
    assert (code + [it])[..|code|] == code;
  }

  lemma LiesLast(body: seq<Byte>, more: seq<Byte>)
    ensures Lies(body + more, |body|, more)
  {
  }

  lemma {:induction false} ItemLies(code: seq<Item>, k: nat)
    requires AllFit(code) && k < |code|
    ensures Lies(Bytes(code), Address(code, k), Encode(code[k]))
    ensures Address(code, k + 1) == Address(code, k) + |Encode(code[k])|
    decreases |code|
  {
    hide Encode, Lies, Fits, Bytes;
    var n := |code| - 1;
    BytesOfMore(code[..k], code[k]);
    assert code[..k] + [code[k]] == code[..k + 1];
    if k == n {
      assert code[..n + 1] == code;
      LiesLast(Bytes(code[..n]), Encode(code[n]));
    } else {
      ItemLies(code[..n], k);
      assert code[..n][..k] == code[..k];
      BytesOfMore(code[..n], code[n]);
      assert code[..n] + [code[n]] == code;
      StillLies(Bytes(code[..n]), Encode(code[n]), Address(code, k), Encode(code[k]));
    }
  }

  lemma StillLies(body: seq<Byte>, more: seq<Byte>, pc: nat, bytes: seq<Byte>)
    requires Lies(body, pc, bytes)
    ensures Lies(body + more, pc, bytes)
  {
    assert (body + more)[pc..pc + |bytes|] == body[pc..pc + |bytes|];
  }

  // ---- The machine on bytes -----------------------------------------------------------------

  datatype ByteCode = ByteCode(body: seq<Byte>, adrs: Groups)

  datatype ByteProgram = ByteProgram(C: Context, code: map<nat, ByteCode>)

  function BodyOf(B: ByteProgram, fn: nat): seq<Byte>
  {
    if fn in B.code then B.code[fn].body else []
  }

  function TableOf(B: ByteProgram, fn: nat): Groups
  {
    if fn in B.code then B.code[fn].adrs else []
  }

  predicate InTables(B: ByteProgram)
  {
    forall fn :: fn in B.code ==> InGroups(B.code[fn].adrs)
  }

  predicate ByteActive(B: ByteProgram, m: Machine)
  {
    m.status == Running && m.pc < |BodyOf(B, m.fn)|
  }

  // A jump goes to the address in the table.
  function JumpTo(B: ByteProgram, m: Machine, id: nat): Machine
    requires InTables(B)
  {
    match AddressOf(TableOf(B, m.fn), id)
    case Nothing => m.(status := Stuck)
    case Just(adr) => m.(pc := adr)
  }

  function ByteJump(B: ByteProgram, m: Machine, c: char, id: nat): Machine
    requires InTables(B)
  {
    if c == 'J' then JumpTo(B, m, id)
    else if m.stack == [] then m.(status := Stuck)
    else
      var zero := B.C.A.isZero(TopOf(m));
      if (c == 'B' && !zero) || (c == 'Z' && zero) then JumpTo(B, Pop(m), id) else Pop(m)
  }

  function ByteStep(B: ByteProgram, m: Machine): Machine
    requires InTables(B)
  {
    if !ByteActive(B, m) then m
    else
      var r := ReadAt(BodyOf(B, m.fn), m.pc);
      var m1 := m.(pc := r.next);
      if r.it.Jump? then ByteJump(B, m1, r.it.c, r.it.target) else Exec(Program(B.C, map[]), m1, r.it)
  }

  function ByteRun(B: ByteProgram, m: Machine, n: nat): Machine
    requires InTables(B)
    decreases n
  {
    if n == 0 then m else ByteRun(B, ByteStep(B, m), n - 1)
  }

  // The loop of execute, for n instructions at most.
  method ExecuteBytes(B: ByteProgram, m0: Machine, n: nat) returns (m: Machine)
    requires InTables(B)
    ensures m == ByteRun(B, m0, n)
  {
    hide ByteStep;
    m := m0;
    var k := n;
    while k > 0
      invariant 0 <= k <= n && ByteRun(B, m, k) == ByteRun(B, m0, n)
    {
      m := ByteStep(B, m);
      k := k - 1;
    }
  }
}
