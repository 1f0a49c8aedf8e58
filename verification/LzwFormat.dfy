// The code stream of compress (compress42.c) in block mode: what its bits mean.
// The table of strings grows with every code, the width of the codes with the
// table, and codes come in groups of eight of the same width.
module LzwFormat {
  import opened Powers
  import opened Bits

  const FIRST: nat := 257
  const CLEAR: nat := 256
  const INIT_BITS: nat := 9

  // Block mode with a width limit for which both sides start alike.
  predicate UsualBits(mb: nat)
  {
    10 <= mb <= 16
  }

  // Before the first code, after a CLEAR, and in between.
  datatype Mode = First | Cleared | Going

  // The width, how many codes of this width there were, the strings of the codes
  // from FIRST on, and the string of the last code.
  datatype State = State(n: nat, used: nat, D: seq<seq<Byte>>, last: seq<Byte>, mode: Mode)

  // How a stream ends: properly, with a code that is beyond the table, or at once
  // because its first code is no byte.
  datatype End = Complete | Corrupt | BadStart

  datatype Decoded = Decoded(bytes: seq<Byte>, end: End)

  function Init(): State
  {
    State(INIT_BITS, 0, [], [], First)
  }

  function Limit(mb: nat): nat
  {
    Pow2(mb)
  }

  predicate Filled(D: seq<seq<Byte>>)
  {
    forall i :: 0 <= i < |D| ==> D[i] != []
  }

  ghost predicate Good(mb: nat, st: State)
    ensures Good(mb, st) ==> UsualBits(mb) && INIT_BITS <= st.n <= mb && FIRST + |st.D| <= Limit(mb)
    ensures Good(mb, st) ==> Filled(st.D) && (if st.mode.Going? then st.last != [] else st.D == [])
  {
    UsualBits(mb) && INIT_BITS <= st.n <= mb && Filled(st.D) && FIRST + |st.D| <= Limit(mb)
    && (st.mode.Going? ==> st.last != [])
    && (!st.mode.Going? ==> st.D == [] && st.n == INIT_BITS && st.used == 0)
    && FreeEnt(st) <= Pow2(st.n)
  }

  // The next free code.  After a CLEAR it is CLEAR itself, for an entry nobody uses.
  function FreeEnt(st: State): nat
  {
    if st.mode.Cleared? then CLEAR else FIRST + |st.D|
  }

  function MaxCode(mb: nat, n: nat): nat
  {
    if n == mb then Pow2(mb) else Pow2(n) - 1
  }

  predicate Bumps(mb: nat, st: State)
  {
    FreeEnt(st) > MaxCode(mb, st.n)
  }

  function Bumped(st: State): State
  {
    st.(n := st.n + 1, used := 0)
  }

  // What is missing to a whole group of eight codes.
  function Pad(n: nat, used: nat): nat
  {
    (8 - used % 8) % 8 * n
  }

  function Drop(bits: seq<bool>, k: nat): seq<bool>
  {
    if k <= |bits| then bits[k..] else []
  }

  predicate Known(D: seq<seq<Byte>>, code: nat)
  {
    code < 256 || FIRST <= code < FIRST + |D|
  }

  function StrOf(D: seq<seq<Byte>>, code: nat): seq<Byte>
    requires Known(D, code)
  {
    if code < 256 then [code] else D[code - FIRST]
  }

  // The string of a code; the one just about to be entered begins and ends alike.
  function Text(st: State, code: nat): seq<Byte>
    requires code < 256 || FIRST <= code <= FIRST + |st.D|
    requires code == FIRST + |st.D| ==> st.last != []
  {
    if code == FIRST + |st.D| then st.last + [st.last[0]] else StrOf(st.D, code)
  }

  predicate Takes(st: State, code: nat)
  {
    code < 256 || (st.mode.Going? && FIRST <= code <= FIRST + |st.D|)
  }

  function After(mb: nat, st: State, code: nat): State
    requires Takes(st, code) && (st.mode.Going? ==> st.last != []) && Filled(st.D)
  {
    var s := Text(st, code);
    if !st.mode.Going? then State(st.n, st.used + 1, [], s, Going)
    else State(st.n, st.used + 1, if FreeEnt(st) < Limit(mb) then st.D + [st.last + [s[0]]] else st.D, s, Going)
  }

  function AfterClear(st: State): State
  {
    State(INIT_BITS, 0, [], st.last, Cleared)
  }

  // The meaning of the bits.
  ghost function Decode(mb: nat, st: State, bits: seq<bool>): Decoded
    requires Good(mb, st)
    decreases |bits|, mb - st.n
  {
    hide Pow2, Value, Pad;
    if |bits| < st.n then Decoded([], Complete)
    else if Bumps(mb, st) then
      (BumpedGood(mb, st);
       Decode(mb, Bumped(st), Drop(bits, Pad(st.n, st.used))))
    else
      var code, rest := Value(bits[..st.n]), bits[st.n..];
      if st.mode.First? && code >= 256 then Decoded([], BadStart)
      else if code == CLEAR then
        (ClearedGood(mb, st);
         Decode(mb, AfterClear(st), Drop(rest, Pad(st.n, st.used + 1))))
      else if code > FreeEnt(st) then Decoded([], Corrupt)
      else
        (ValueBound(bits[..st.n]);
         AfterGood(mb, st, code);
         Prepend(Text(st, code), Decode(mb, After(mb, st, code), rest)))
  }

  function Prepend(s: seq<Byte>, d: Decoded): Decoded
  {
    d.(bytes := s + d.bytes)
  }

  lemma Pow9()
    ensures Pow2(9) == 512
  {
    Pow2Add(1, 8);
    Pow8();
  }

  lemma BumpedGood(mb: nat, st: State)
    requires Good(mb, st) && Bumps(mb, st)
    ensures Good(mb, Bumped(st)) && st.n < mb && st.mode.Going? && FreeEnt(st) == Pow2(st.n) && !Bumps(mb, Bumped(st))
  {
    hide Pow2, Filled;
    Pow9();
    Pow2Strict(st.n, st.n + 1);
    if st.n + 1 < mb { Pow2Strict(st.n + 1, mb); }
  }

  lemma ClearedGood(mb: nat, st: State)
    requires Good(mb, st)
    ensures Good(mb, AfterClear(st))
  {
    hide Pow2;
    Pow9();
    Pow2Mono(9, mb);
  }

  lemma TextFilled(st: State, code: nat)
    requires Takes(st, code) && (st.mode.Going? ==> st.last != []) && Filled(st.D)
    ensures Text(st, code) != []
  {
  }

  lemma AfterGood(mb: nat, st: State, code: nat)
    requires Good(mb, st) && !Bumps(mb, st) && code != CLEAR && code < Pow2(st.n)
    requires code <= FreeEnt(st) && (st.mode.First? ==> code < 256)
    ensures Takes(st, code) && Good(mb, After(mb, st, code))
  {
    hide Pow2;
    Pow9();
    Pow2Mono(9, mb);
    Pow2Mono(9, st.n);
    TextFilled(st, code);
  }

  // ---- Following the bits from the front --------------------------------------------------

  lemma PrependTwice(a: seq<Byte>, b: seq<Byte>, d: Decoded)
    ensures Prepend(a, Prepend(b, d)) == Prepend(a + b, d)
  {
    assert a + (b + d.bytes) == (a + b) + d.bytes;
  }

  lemma DecodeOne(mb: nat, st: State, code: nat, bits: seq<bool>)
    requires Good(mb, st) && !Bumps(mb, st) && code != CLEAR && code < Pow2(st.n)
    requires code <= FreeEnt(st) && (st.mode.First? ==> code < 256)
    ensures Takes(st, code) && Good(mb, After(mb, st, code))
    ensures Decode(mb, st, BitsOf(code, st.n) + bits) == Prepend(Text(st, code), Decode(mb, After(mb, st, code), bits))
  {
    hide Pow2, Value, Pad, BitsOf, After, Text, Good, Bumps, Low;
    AfterGood(mb, st, code);
    var all := BitsOf(code, st.n) + bits;
    assert all[..st.n] == BitsOf(code, st.n) && all[st.n..] == bits;
    ValueOfBits(code, st.n);
    LowSmall(code, st.n);
  }

  lemma DropZeros(k: nat, bits: seq<bool>)
    ensures Drop(BitsOf(0, k) + bits, k) == bits
  {
    hide BitsOf;
  }

  lemma DecodeClear(mb: nat, st: State, bits: seq<bool>)
    requires Good(mb, st) && !Bumps(mb, st) && !st.mode.First?
    ensures Good(mb, AfterClear(st))
    ensures Decode(mb, st, BitsOf(CLEAR, st.n) + (BitsOf(0, Pad(st.n, st.used + 1)) + bits))
            == Decode(mb, AfterClear(st), bits)
  {
    hide Pow2, Value, Pad, BitsOf, Good, Bumps, Low;
    ClearedGood(mb, st);
    ClearFits(st.n);
    var more := BitsOf(0, Pad(st.n, st.used + 1)) + bits;
    var all := BitsOf(CLEAR, st.n) + more;
    assert all[..st.n] == BitsOf(CLEAR, st.n) && all[st.n..] == more;
    ValueOfBits(CLEAR, st.n);
    LowSmall(CLEAR, st.n);
    DropZeros(Pad(st.n, st.used + 1), bits);
  }

  lemma ClearFits(n: nat)
    requires n >= INIT_BITS
    ensures CLEAR < Pow2(n)
  {
    Pow9();
    Pow2Mono(9, n);
  }

  // A wider state is reached by filling up the group.
  lemma DecodeBump(mb: nat, st: State, bits: seq<bool>)
    requires Good(mb, st) && Bumps(mb, st)
    ensures Good(mb, Bumped(st))
    ensures Decode(mb, st, BitsOf(0, Pad(st.n, st.used)) + bits) == Decode(mb, Bumped(st), bits)
  {
    hide Pow2, Value, Pad, BitsOf, Good, Bumps;
    BumpedGood(mb, st);
    DropZeros(Pad(st.n, st.used), bits);
  }

  lemma TooShort(mb: nat, st: State, bits: seq<bool>)
    requires Good(mb, st) && |bits| < st.n
    ensures Decode(mb, st, bits) == Decoded([], Complete)
  {
  }

  // ---- What a prefix of the bits leads to ----------------------------------------------------

  // After the bits sent, the decoder has put out these bytes and is in this state.
  ghost predicate Leads(mb: nat, sent: seq<bool>, bytes: seq<Byte>, st: State)
    ensures Leads(mb, sent, bytes, st) ==> UsualBits(mb) && Good(mb, Init()) && Good(mb, st)
  {
    UsualBits(mb) && Good(mb, Init()) && Good(mb, st)
    && forall bits :: Decode(mb, Init(), sent + bits) == Prepend(bytes, Decode(mb, st, bits))
  }

  lemma LeadsInit(mb: nat)
    requires UsualBits(mb)
    ensures Leads(mb, [], [], Init())
  {
    hide Decode;
    InitGood(mb);
    forall bits ensures Decode(mb, Init(), [] + bits) == Prepend([], Decode(mb, Init(), bits)) {
      assert [] + bits == bits;
      NothingBefore(Decode(mb, Init(), bits));
    }
  }

  lemma NothingBefore(d: Decoded)
    ensures Prepend([], d) == d
  {
    assert [] + d.bytes == d.bytes;
  }

  lemma InitGood(mb: nat)
    requires UsualBits(mb)
    ensures Good(mb, Init())
  {
    hide Pow2;
    Pow9();
    Pow2Mono(9, mb);
  }

  lemma LeadsOne(mb: nat, sent: seq<bool>, bytes: seq<Byte>, st: State, code: nat)
    requires Leads(mb, sent, bytes, st) && !Bumps(mb, st) && code != CLEAR && code < Pow2(st.n)
    requires code <= FreeEnt(st) && (st.mode.First? ==> code < 256)
    ensures Takes(st, code) && Leads(mb, sent + BitsOf(code, st.n), bytes + Text(st, code), After(mb, st, code))
  {
    hide Decode, Pow2, BitsOf, Good, Bumps, After, Text;
    AfterGood(mb, st, code);
    forall bits ensures Decode(mb, Init(), sent + BitsOf(code, st.n) + bits)
      == Prepend(bytes + Text(st, code), Decode(mb, After(mb, st, code), bits)) {
      assert sent + BitsOf(code, st.n) + bits == sent + (BitsOf(code, st.n) + bits);
      DecodeOne(mb, st, code, bits);
      PrependTwice(bytes, Text(st, code), Decode(mb, After(mb, st, code), bits));
    }
  }

  lemma LeadsClear(mb: nat, sent: seq<bool>, bytes: seq<Byte>, st: State)
    requires Leads(mb, sent, bytes, st) && !Bumps(mb, st) && !st.mode.First?
    ensures Leads(mb, sent + BitsOf(CLEAR, st.n) + BitsOf(0, Pad(st.n, st.used + 1)), bytes, AfterClear(st))
  {
    hide Decode, Pow2, BitsOf, Good, Bumps, Pad;
    ClearedGood(mb, st);
    var c, z := BitsOf(CLEAR, st.n), BitsOf(0, Pad(st.n, st.used + 1));
    forall bits ensures Decode(mb, Init(), sent + c + z + bits) == Prepend(bytes, Decode(mb, AfterClear(st), bits)) {
      assert sent + c + z + bits == sent + (c + (z + bits));
      DecodeClear(mb, st, bits);
    }
  }

  lemma LeadsBump(mb: nat, sent: seq<bool>, bytes: seq<Byte>, st: State)
    requires Leads(mb, sent, bytes, st) && Bumps(mb, st)
    ensures Leads(mb, sent + BitsOf(0, Pad(st.n, st.used)), bytes, Bumped(st))
  {
    hide Decode, Pow2, BitsOf, Good, Bumps, Pad;
    BumpedGood(mb, st);
    var z := BitsOf(0, Pad(st.n, st.used));
    forall bits ensures Decode(mb, Init(), sent + z + bits) == Prepend(bytes, Decode(mb, Bumped(st), bits)) {
      assert sent + z + bits == sent + (z + bits);
      DecodeBump(mb, st, bits);
    }
  }

  // ---- Groups of eight -------------------------------------------------------------------

  // The number of the codes since the start or the last CLEAR before the first of width n.
  function Before(n: nat): int
    requires n > 0
  {
    if n == INIT_BITS then 0 else Pow2(n - 1) - 256
  }

  // While the table grows, the codes are counted by its size.
  predicate Counted(mb: nat, st: State)
    requires st.n > 0
  {
    if !st.mode.Going? then st.used == 0 && st.n == INIT_BITS
    else FIRST + |st.D| < Limit(mb) ==> st.used + Before(st.n) == |st.D| + 1
  }

  lemma AfterCounted(mb: nat, st: State, code: nat)
    requires Good(mb, st) && !Bumps(mb, st) && Counted(mb, st) && Takes(st, code)
    ensures After(mb, st, code).n > 0 && Counted(mb, After(mb, st, code))
  {
    hide Pow2, Text;
  }

  // A width is left after whole groups only.
  lemma WholeGroups(mb: nat, st: State)
    requires Good(mb, st) && Bumps(mb, st) && Counted(mb, st)
    ensures st.used % 8 == 0 && Counted(mb, Bumped(st)) && Pad(st.n, st.used) == 0
  {
    hide Pow2, Filled;
    BumpedGood(mb, st);
    Pow2Strict(st.n, mb);
    Pow9();
    Pow8();
    if st.n > 9 {
      assert Pow2(st.n) == 2 * Pow2(st.n - 1) by { Double(st.n - 1); }
      Pow2Add(3, st.n - 4);
      Pow3();
    }
  }

  lemma Double(n: nat)
    ensures Pow2(n + 1) == 2 * Pow2(n)
  {
  }

  lemma Pow3()
    ensures Pow2(3) == 8
  {
    assert Pow2(1) == 2;
  }

  // ---- The last code ----------------------------------------------------------------------

  // The last code is sent without widening, and the last byte is filled up: the
  // decoder, which widens first, reads the fill as the missing bit.
  lemma LastCode(mb: nat, sent: seq<bool>, bytes: seq<Byte>, st: State, code: nat, z: nat)
    requires Leads(mb, sent, bytes, st) && Counted(mb, st) && code < Pow2(st.n) && code != CLEAR
    requires code <= FreeEnt(st) && (st.mode.First? ==> code < 256)
    requires z < 8 && |sent| % 8 == (st.used * st.n) % 8 && (|sent| + st.n + z) % 8 == 0
    ensures Takes(st, code) && Decode(mb, Init(), sent + BitsOf(code, st.n) + BitsOf(0, z))
            == Decoded(bytes + Text(st, code), Complete)
  {
    hide Decode, Pow2, BitsOf, Good, Bumps, Pad, Counted, After, Text, Leads;
    CodeTaken(mb, st, code);
    if Bumps(mb, st) {
      WholeGroups(mb, st);
      BumpedGood(mb, st);
      WholeBytes(st.used, st.n, |sent|, z);
      LeadsBump(mb, sent, bytes, st);
      NoZeros(sent);
      WiderLast(sent, code, st.n, z);
      Double(st.n);
      LastWide(mb, sent, bytes, Bumped(st), code, z - 1);
      SameText(st, code);
    } else {
      LastWide(mb, sent, bytes, st, code, z);
    }
  }

  lemma CodeTaken(mb: nat, st: State, code: nat)
    requires Good(mb, st) && code != CLEAR && code <= FreeEnt(st) && (st.mode.First? ==> code < 256)
    ensures Takes(st, code)
  {
    hide Pow2;
  }

  lemma SameText(st: State, code: nat)
    requires Takes(st, code) && (st.mode.Going? ==> st.last != [])
    ensures Text(Bumped(st), code) == Text(st, code)
  {
  }

  lemma NoZeros(sent: seq<bool>)
    ensures sent + BitsOf(0, 0) == sent
  {
  }

  lemma WholeBytes(used: nat, n: nat, len: nat, z: nat)
    requires used % 8 == 0 && len % 8 == (used * n) % 8 && (len + n + z) % 8 == 0 && 9 <= n <= 15 && z < 8
    ensures len % 8 == 0 && z >= 1
  {
    var q := used / 8;
    assert used * n == 8 * (q * n);
  }

  lemma WiderLast(sent: seq<bool>, code: nat, n: nat, z: nat)
    requires code < Pow2(n) && z >= 1
    ensures sent + BitsOf(code, n) + BitsOf(0, z) == sent + BitsOf(code, n + 1) + BitsOf(0, z - 1)
  {
    hide Pow2, BitsOf, Low, Shr;
    BitsAdd(code, n, 0, 1);
    BitsJoin(0, 1, z - 1);
    LowZero(1);
    assert sent + BitsOf(code, n) + (BitsOf(0, 1) + BitsOf(0, z - 1))
           == sent + (BitsOf(code, n) + BitsOf(0, 1)) + BitsOf(0, z - 1);
  }

  lemma LastWide(mb: nat, sent: seq<bool>, bytes: seq<Byte>, st: State, code: nat, z: nat)
    requires Leads(mb, sent, bytes, st) && !Bumps(mb, st) && code < Pow2(st.n) && code != CLEAR
    requires code <= FreeEnt(st) && (st.mode.First? ==> code < 256) && z < 8
    ensures Takes(st, code) && Decode(mb, Init(), sent + BitsOf(code, st.n) + BitsOf(0, z))
            == Decoded(bytes + Text(st, code), Complete)
  {
    hide Decode, Pow2, BitsOf, Good, Bumps, After, Text;
    LeadsOne(mb, sent, bytes, st, code);
    var st1 := After(mb, st, code);
    TooShort(mb, st1, BitsOf(0, z));
    assert bytes + Text(st, code) + [] == bytes + Text(st, code);
  }

  lemma NoCode(mb: nat)
    requires UsualBits(mb)
    ensures Good(mb, Init()) && Decode(mb, Init(), []) == Decoded([], Complete)
  {
    hide Decode, Good;
    InitGood(mb);
    TooShort(mb, Init(), []);
  }
}
