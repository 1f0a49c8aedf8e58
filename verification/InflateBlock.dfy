// inflate_stored, inflate_fixed, inflate_dynamic, inflate_block and inflate
// (inflate.c): a stream of blocks is read and expanded.
module InflateBlock {
  import opened Powers
  import opened Canonical
  import opened TreeCodes
  import opened HuftTables
  import opened Bits
  import opened CodeLengths
  import opened Lz77
  import opened BlockFormat
  import opened Blocks
  import T = InflateTables
  import C = InflateCodes

  const BAD_TYPE: nat := 2

  // ---- Stored blocks ----------------------------------------------------------------

  lemma FrontByte(x: Byte, more: seq<Byte>)
    ensures BytesBits([x] + more) == BitsOf(x, 8) + BytesBits(more)
  {
    hide BitsOf;
    BytesJoin([x], more);
    OneByte(x);
  }

  lemma FrontOf(data: seq<Byte>, i: nat, tail: seq<bool>)
    requires i < |data|
    ensures BytesBits(data[i..]) + tail == BitsOf(data[i], 8) + (BytesBits(data[i + 1..]) + tail)
  {
    hide BitsOf, BytesBits;
    assert data[i..] == [data[i]] + data[i + 1..];
    FrontByte(data[i], data[i + 1..]);
    C.Assoc(BitsOf(data[i], 8), BytesBits(data[i + 1..]), tail);
  }

  // Read n bytes; if data is known to come next, it is what is read.
  method ReadBytes(r: BitReader, win: Window, n0: nat, ghost want: seq<Byte>, ghost tail: seq<bool>)
    returns (status: nat, ghost data: seq<Byte>)
    requires r.Valid() && win.Valid()
    modifies r, win, win.slide
    ensures r.Valid() && win.Valid() && status in {C.OK, C.END_OF_INPUT}
    ensures status == C.OK ==> |data| == n0 && old(r.Rest()) == BytesBits(data) + r.Rest()
                               && win.History() == old(win.History()) + data
    ensures |want| == n0 && old(r.Rest()) == BytesBits(want) + tail
            ==> status == C.OK && data == want && r.Rest() == tail
  {
    hide BitsOf, BytesBits, Pow2, Low, Value, Window.Valid, Window.History, BitReader.Valid, BitReader.Rest;
    ghost var was, h := r.Rest(), win.History();
    ghost var given := |want| == n0 && was == BytesBits(want) + tail;
    data := [];
    var n := n0;
    NoBytes();
    assert want[0..] == want;
    while n != 0
      invariant 0 <= n <= n0 && r.Valid() && win.Valid() && |data| == n0 - n
      invariant was == BytesBits(data) + r.Rest() && win.History() == h + data
      invariant given ==> want[..|data|] == data && r.Rest() == BytesBits(want[|data|..]) + tail
      decreases n
    {
      ghost var rest := r.Rest();
      if given {
        FrontOf(want, |data|, tail);
        Pow8();
        C.ValueFront(want[|data|], 8, BytesBits(want[|data| + 1..]) + tail);
      }
      var ok, x := C.ReadBits(r, 8);
      if !ok { return C.END_OF_INPUT, data; }
      Pow8();
      win.PutByte(x);
      BytesJoin(data, [x]);
      OneByte(x);
      C.Assoc(BytesBits(data), BitsOf(x, 8), r.Rest());
      data := data + [x];
      n := n - 1;
    }
    if given {
      assert want[|data|..] == [] && want[..|data|] == want;
    }
    status := C.OK;
  }

  lemma NoBytes()
    ensures BytesBits([]) == []
  {
  }

  // The input without the bits before the next byte boundary.
  function Aligned(rest: seq<bool>): seq<bool>
  {
    rest[|rest| % 8..]
  }

  function StoredBits(data: seq<Byte>): seq<bool>
    requires |data| < 65536
  {
    BitsOf(|data|, 16) + BitsOf(65535 - |data|, 16) + BytesBits(data)
  }

  ghost predicate StoredFollows(data: seq<Byte>, was: seq<bool>, tail: seq<bool>)
  {
    |data| < 65536 && Aligned(was) == StoredBits(data) + tail
  }

  lemma StoredParts(data: seq<Byte>, rest: seq<bool>, tail: seq<bool>)
    requires |data| < 65536 && rest == StoredBits(data) + tail
    ensures |rest| >= 32 && Value(rest[..16]) == |data| && Value(rest[16..][..16]) == 65535 - |data|
    ensures rest[16..][16..] == BytesBits(data) + tail
  {
    hide BitsOf, BytesBits, Value, Pow2;
    var a, b, c := BitsOf(|data|, 16), BitsOf(65535 - |data|, 16), BytesBits(data);
    Pow8();
    C.Assoc(a + b, c, tail);
    C.Assoc(a, b, c + tail);
    C.ValueFront(|data|, 16, b + (c + tail));
    C.ValueFront(65535 - |data|, 16, c + tail);
  }

  lemma RestLength(r: BitReader)
    requires r.Valid()
    ensures r.bk % 8 == |r.Rest()| % 8 && r.bk <= |r.Rest()|
  {
    hide BitsOf, BytesBits, Pow2;
  }

  // The length of a stored block must be followed by its complement.
  method ReadStoredLength(r: BitReader, ghost want: seq<Byte>, ghost tail: seq<bool>) returns (status: nat, n: nat)
    requires r.Valid()
    modifies r
    ensures r.Valid() && status in {C.OK, C.INVALID, C.END_OF_INPUT}
    ensures status == C.OK ==> n < 65536 && old(r.Rest()) == BitsOf(n, 16) + (BitsOf(65535 - n, 16) + r.Rest())
    ensures |want| < 65536 && old(r.Rest()) == StoredBits(want) + tail ==>
      status == C.OK && n == |want| && r.Rest() == BytesBits(want) + tail
  {
    hide BitsOf, BytesBits, Pow2, Low, Value, BitReader.Valid, BitReader.Rest, StoredBits;
    ghost var rest := r.Rest();
    if |want| < 65536 && rest == StoredBits(want) + tail { StoredParts(want, rest, tail); }
    Pow8();
    var ok, m;
    n := 0;
    ok, n := C.ReadBits(r, 16);
    if !ok { return C.END_OF_INPUT, 0; }
    ok, m := C.ReadBits(r, 16);
    if !ok { return C.END_OF_INPUT, 0; }
    status := if n != 65535 - m then C.INVALID else C.OK;
  }

  method InflateStored(r: BitReader, win: Window, ghost want: seq<Byte>, ghost tail: seq<bool>)
    returns (status: nat, ghost data: seq<Byte>)
    requires r.Valid() && win.Valid()
    modifies r, win, win.slide
    ensures r.Valid() && win.Valid() && status in {C.OK, C.INVALID, C.END_OF_INPUT}
    ensures status == C.OK ==> StoredFollows(data, old(r.Rest()), r.Rest())
                               && win.History() == old(win.History()) + data
    ensures StoredFollows(want, old(r.Rest()), tail) ==> status == C.OK && data == want && r.Rest() == tail
  {
    hide BitsOf, BytesBits, Pow2, Low, Value, Window.Valid, Window.History, BitReader.Valid, BitReader.Rest, StoredBits;
    data := [];
    RestLength(r);
    r.DumpBits(r.bk % 8);
    ghost var rest := r.Rest();
    var n;
    status, n := ReadStoredLength(r, want, tail);
    if status != C.OK { return; }
    ghost var body := r.Rest();
    status, data := ReadBytes(r, win, n, want, tail);
    if status == C.OK { StoredJoin(data, rest, body, r.Rest()); }
  }

  lemma StoredJoin(data: seq<Byte>, rest: seq<bool>, body: seq<bool>, tail: seq<bool>)
    requires |data| < 65536 && body == BytesBits(data) + tail
    requires rest == BitsOf(|data|, 16) + (BitsOf(65535 - |data|, 16) + body)
    ensures rest == StoredBits(data) + tail
  {
    hide BitsOf, BytesBits;
    var a, b, c := BitsOf(|data|, 16), BitsOf(65535 - |data|, 16), BytesBits(data);
    C.Assoc(a, b, c + tail);
    C.Assoc(a + b, c, tail);
  }

  // ---- Static trees -----------------------------------------------------------------

  // The lengths as inflate_fixed writes them down.
  method FixedLengths() returns (l: array<nat>)
    ensures fresh(l) && l[..] == FixedLl()
  {
    l := new nat[288];
    var i := 0;
    while i < 144
      invariant 0 <= i <= 144 && forall j :: 0 <= j < i ==> l[j] == FixedLen(j)
    {
      l[i] := 8;
      i := i + 1;
    }
    while i < 256
      invariant 144 <= i <= 256 && forall j :: 0 <= j < i ==> l[j] == FixedLen(j)
    {
      l[i] := 9;
      i := i + 1;
    }
    while i < 280
      invariant 256 <= i <= 280 && forall j :: 0 <= j < i ==> l[j] == FixedLen(j)
    {
      l[i] := 7;
      i := i + 1;
    }
    while i < 288
      invariant 280 <= i <= 288 && forall j :: 0 <= j < i ==> l[j] == FixedLen(j)
    {
      l[i] := 8;
      i := i + 1;
    }
  }

  // The same array serves for the distance tree.
  method FixedDistLengths(l: array<nat>)
    requires l.Length == 288
    modifies l
    ensures l[..30] == FixedDd()
  {
    var i := 0;
    while i < 30
      invariant 0 <= i <= 30 && forall j :: 0 <= j < i ==> l[j] == 5
    {
      l[i] := 5;
      i := i + 1;
    }
  }

  // What makes huft_build succeed on a complete code.
  lemma FullReady(b: seq<nat>, M: nat)
    requires M == MAX_BITS && FullCode(b) && b != []
    ensures LengthsFit(b, M + 1) && Kraft(b, M + 1) == Pow2(M + 1)
    ensures exists i :: 0 <= i < |b| && b[i] != 0
  {
    StartDoubleTo(b, M, M + 1, 0, |b|);
    KraftFrom(b, M, M + 1);
    if forall i :: 0 <= i < |b| ==> b[i] == 0 { NoWeight(b, M, |b|); }
  }

  lemma KraftFrom(b: seq<nat>, M: nat, m: nat)
    requires LengthsFit(b, M) && m == M + 1
    ensures LengthsFit(b, m) && StartTo(b, m, m, 0, |b|) == StartTo(b, m, m + 1, 0, |b|)
  {
    StartBeyond(b, m, |b|);
  }

  lemma {:induction false} StartBeyond(b: seq<nat>, m: nat, n: nat)
    requires n <= |b| && m > 0 && LengthsFit(b, m) && forall i :: 0 <= i < |b| ==> b[i] < m
    ensures StartTo(b, m, m, 0, n) == StartTo(b, m, m + 1, 0, n)
  {
    if n > 0 { StartBeyond(b, m, n - 1); }
  }

  lemma {:induction false} NoWeight(b: seq<nat>, M: nat, n: nat)
    requires LengthsFit(b, M) && n <= |b| && forall i :: 0 <= i < |b| ==> b[i] == 0
    ensures StartTo(b, M, M + 1, 0, n) == 0
  {
    if n > 0 { NoWeight(b, M, n - 1); }
  }

  lemma LiteralLists(b: seq<nat>)
    requires |b| <= 288
    ensures T.ListsFit(b, 257, CPLENS, CPLEXT)
  {
    forall i | 0 <= i < |CPLEXT| ensures CPLEXT[i] < 15 || CPLEXT[i] == 99 {
      if i < 29 { LengthTables(i); }
    }
  }

  lemma DistLists(b: seq<nat>)
    requires |b| <= D_CODES
    ensures T.ListsFit(b, 0, CPDIST, CPDEXT)
  {
    forall i | 0 <= i < |CPDEXT| ensures CPDEXT[i] < 15 { DistTables(i); }
  }

  // The tables for a complete code of lengths up to 2m, or of fewer than 2^m symbols.
  method BuildFull(b: seq<nat>, s: nat, d: seq<nat>, e: seq<nat>, m: nat)
    returns (status: nat, tables: seq<seq<Huft>>, bits: nat)
    requires 0 < |b| <= T.N_MAX && FullCode(b) && T.ListsFit(b, s, d, e)
    requires (forall i :: 0 <= i < |b| ==> b[i] <= 2 * m) || |b| < Pow2(m)
    ensures status == 0 && C.TablesFor(tables, bits, b, s, d, e)
    ensures (forall i :: 0 <= i < |b| ==> b[i] <= m) ==> |tables| <= 1
  {
    hide StartTo, Pow2, T.DecodesAll, T.RejectsRest;
    FullReady(b, MAX_BITS);
    status, tables, bits := T.HuftBuild(b, s, d, e, m);
  }

  // The static trees: the literal code is complete; the distance code is not,
  // which inflate_fixed accepts.
  method InflateFixed(r: BitReader, win: Window, ghost want: seq<Item>, ghost tail: seq<bool>)
    returns (status: nat, ghost its: seq<Item>)
    requires r.Valid() && win.Valid()
    modifies r, win, win.slide
    ensures r.Valid() && win.Valid() && status in {C.OK, C.INVALID, C.END_OF_INPUT}
    ensures status == C.OK ==>
      C.Codes(FixedLl(), FixedDd(), its, old(r.Rest()), r.Rest()) && C.Reached(its, old(win.History()), win.History())
    ensures |tail| >= BMAX && C.Codes(FixedLl(), FixedDd(), want, old(r.Rest()), tail) ==>
      status == C.OK && its == want && r.Rest() == tail
  {
    hide StartTo, Pow2, BitReader.Valid, BitReader.Rest, Window.Valid, Window.History, T.DecodesAll, T.RejectsRest,
      C.Codes, C.Reached;
    its := [];
    FixedKraft();
    FixedKraftIn(FixedLl(), FixedDd(), BMAX);
    FixedRoom();
    LiteralLists(FixedLl());
    DistLists(FixedDd());
    var l := FixedLengths();
    var i, tl, bl := BuildFull(l[..], 257, CPLENS, CPLEXT, 7);
    if i != 0 { return i, its; }
    FixedDistLengths(l);
    var td, bd;
    assert FixedDd()[0] == 5;
    i, td, bd := T.HuftBuild(l[..30], 0, CPDIST, CPDEXT, 5);
    if i > 1 { return i, its; }
    status, its := C.InflateCodes(r, win, tl, td, bl, bd, FixedLl(), FixedDd(), want, tail);
  }

  lemma FixedRoom()
    ensures 30 * Pow2(BMAX - 5) < Pow2(BMAX)
  {
    hide Pow2;
    PowersOfExtra();
    Pow2Add(11, 5);
  }

  // ---- Dynamic trees ----------------------------------------------------------------

  method ReadField(r: BitReader, n: nat, ghost x: nat, ghost more: seq<bool>) returns (v: nat)
    requires r.Valid() && x < Pow2(n) && r.Rest() == BitsOf(x, n) + more
    modifies r
    ensures v == x && r.Valid() && r.Rest() == more
  {
    hide BitsOf, BytesBits, Value, BitReader.Valid, BitReader.Rest, Pow2;
    C.ValueFront(x, n, more);
    var ok;
    ok, v := C.ReadBits(r, n);
  }

  lemma OrderIsOnto(i: nat) returns (r: nat)
    requires i < BL_CODES
    ensures r < BL_CODES && BlOrder(r) == i
  {
    r := [3, 17, 15, 13, 11, 9, 7, 5, 4, 6, 8, 10, 12, 14, 16, 18, 0, 1, 2][i];
  }

  // ll holds the lengths of the first j ranks.
  ghost predicate OrderRead(ll: seq<nat>, bl: seq<nat>, j: nat)
    requires |ll| >= BL_CODES && |bl| == BL_CODES && j <= BL_CODES
  {
    forall r :: 0 <= r < j ==> ll[BlOrder(r)] == bl[BlOrder(r)]
  }

  lemma RankRead(ll: seq<nat>, bl: seq<nat>, j: nat, x: nat)
    requires |ll| >= BL_CODES && |bl| == BL_CODES && j < BL_CODES && OrderRead(ll, bl, j) && x == bl[BlOrder(j)]
    ensures OrderRead(ll[BlOrder(j) := x], bl, j + 1)
  {
    hide BlOrder;
  }

  lemma RankBits(bl: seq<nat>, j: nat, nb: nat, tail: seq<bool>) returns (more: seq<bool>)
    requires |bl| == BL_CODES && j < nb <= BL_CODES && bl[BlOrder(j)] <= 7
    ensures more == OrderBits(bl, j + 1, nb) + tail
    ensures OrderBits(bl, j, nb) + tail == BitsOf(bl[BlOrder(j)], 3) + more && bl[BlOrder(j)] < Pow2(3)
  {
    hide BitsOf, BlOrder, Pow2;
    PowersOfExtra();
    more := OrderBits(bl, j + 1, nb) + tail;
    C.Assoc(BitsOf(bl[BlOrder(j)], 3), OrderBits(bl, j + 1, nb), tail);
  }

  // The lengths of the code length codes; those not sent are zero.
  method ReadOrder(r: BitReader, ll: array<nat>, nb: nat, ghost bl: seq<nat>, ghost tail: seq<bool>)
    requires r.Valid() && ll.Length >= BL_CODES && ClCodeOK(bl, nb)
    requires r.Rest() == OrderBits(bl, 0, nb) + tail
    modifies r, ll
    ensures r.Valid() && ll[..BL_CODES] == bl && r.Rest() == tail
  {
    hide BitsOf, BytesBits, Value, BitReader.Valid, BitReader.Rest, FullCode, BlOrder, Pow2, OrderRead, OrderBits;
    OrderEnds(ll[..], bl, nb);
    var j := 0;
    while j < nb
      invariant 0 <= j <= nb && r.Valid() && OrderRead(ll[..], bl, j)
      invariant r.Rest() == OrderBits(bl, j, nb) + tail
    {
      ghost var more := RankBits(bl, j, nb, tail);
      var x := ReadField(r, 3, bl[BlOrder(j)], more);
      ghost var was := ll[..];
      ll[BlOrder(j)] := x;
      assert ll[..] == was[BlOrder(j) := x];
      RankRead(was, bl, j, x);
      j := j + 1;
    }
    while j < BL_CODES
      invariant nb <= j <= BL_CODES && r.Valid() && OrderRead(ll[..], bl, j) && r.Rest() == tail
    {
      ghost var was := ll[..];
      ll[BlOrder(j)] := 0;
      assert ll[..] == was[BlOrder(j) := 0];
      RankRead(was, bl, j, 0);
      j := j + 1;
    }
    OrderComplete(ll[..], bl);
  }

  lemma OrderEnds(ll: seq<nat>, bl: seq<nat>, nb: nat)
    requires |ll| >= BL_CODES && |bl| == BL_CODES && nb <= BL_CODES
    ensures OrderRead(ll, bl, 0) && OrderBits(bl, nb, nb) == []
  {
  }

  lemma OrderComplete(ll: seq<nat>, bl: seq<nat>)
    requires |ll| >= BL_CODES && |bl| == BL_CODES && OrderRead(ll, bl, BL_CODES)
    ensures ll[..BL_CODES] == bl
  {
    hide BlOrder;
    forall i | 0 <= i < BL_CODES ensures ll[i] == bl[i] {
      var rank := OrderIsOnto(i);
      assert ll[BlOrder(rank)] == bl[BlOrder(rank)];
    }
  }

  // A lookup in a single table finds the symbol itself.
  lemma SingleTable(tables: seq<seq<Huft>>, bits: nat, bl: seq<nat>, a: nat, rest: seq<bool>, tail: seq<bool>)
    requires C.TablesFor(tables, bits, bl, BL_CODES, [], []) && |tables| <= 1 && C.Begins(rest, bl, a, tail)
    requires |bl| == BL_CODES
    ensures bits <= BMAX <= |rest| && |tables| == 1 && Low(Value(rest), bits) < |tables[0]|
    ensures var r := tables[0][Low(Value(rest), bits)];
            r.v == a && r.b == bl[a] <= bits && bl[a] <= |rest| && rest[r.b..] == tail
  {
    hide BitsOf, Value, Low, Pow2, StartTo, T.DecodesAll, T.RejectsRest, Code;
    C.BeginsWalk(tables, bits, bl, BL_CODES, [], [], rest, a, tail);
    C.WalkStep(tables, 0, bits, Value(rest));
    assert |CodeBits(bl, a)| == bl[a];
    C.TablesFit(tables, bits, bl, BL_CODES, [], []);
  }

  // ll holds all lengths but those the symbols from k on stand for.
  ghost predicate LengthsRead(ll: seq<nat>, i: nat, n: nat, last: nat, ss: seq<ClSym>, all: seq<nat>)
  {
    i <= n <= |ll| && ll[..i] + LengthsOf(ss, last) == all && |all| == n
  }

  method Fill(ll: array<nat>, i0: nat, j0: nat, v: nat) returns (i: nat)
    requires i0 + j0 <= ll.Length
    modifies ll
    ensures i == i0 + j0 && ll[..i] == old(ll[..i0]) + Repeat(v, j0)
  {
    i := i0;
    var j := j0;
    while j != 0
      invariant 0 <= j <= j0 && i + j == i0 + j0 && ll[..i] == old(ll[..i0]) + Repeat(v, j0 - j)
      decreases j
    {
      ll[i] := v;
      i := i + 1;
      j := j - 1;
    }
  }

  lemma SymsFront(bl: seq<nat>, ss: seq<ClSym>, rest: seq<bool>, tail: seq<bool>)
    returns (more: seq<bool>, after: seq<bool>)
    requires ss != [] && HasCode(bl, ss[0].sym) && ClOK(ss[0]) && rest == ClBits(bl, ss) + tail && |tail| >= BMAX
    ensures C.Begins(rest, bl, ss[0].sym, more)
    ensures ExtraBits(ss[0].sym) <= |more| && Value(more[..ExtraBits(ss[0].sym)]) == ss[0].extra
    ensures after == ClBits(bl, ss[1..]) + tail == more[ExtraBits(ss[0].sym)..]
  {
    hide BitsOf, Value, CodeBits, Pow2, ExtraBits;
    var a, b, c := CodeBits(bl, ss[0].sym), BitsOf(ss[0].extra, ExtraBits(ss[0].sym)), ClBits(bl, ss[1..]);
    after := c + tail;
    more := b + after;
    C.Assoc(a + b, c, tail);
    C.Assoc(a, b, after);
    C.ValueFront(ss[0].extra, ExtraBits(ss[0].sym), after);
  }

  // Read the extra bits of symbol j and write down the lengths it stands for.
  method TakeSymbol(r: BitReader, ll: array<nat>, i0: nat, l0: nat, n: nat, j: nat, ghost s: ClSym,
      ghost tail: seq<bool>)
    returns (status: nat, i: nat, l: nat)
    requires r.Valid() && i0 <= n <= ll.Length && j == s.sym && ClOK(s) && i0 + |Run(s, l0)| <= n
    requires ExtraBits(j) <= |r.Rest()| && Value(r.Rest()[..ExtraBits(j)]) == s.extra
             && r.Rest()[ExtraBits(j)..] == tail
    modifies r, ll
    ensures status == C.OK && r.Valid() && r.Rest() == tail && i == i0 + |Run(s, l0)| <= n
    ensures l == LastOf(s, l0) && ll[..i] == old(ll[..i0]) + Run(s, l0)
  {
    hide BitsOf, BytesBits, Value, BitReader.Valid, BitReader.Rest, Pow2;
    i, l, status := i0, l0, C.OK;
    var ok, x;
    if j < REP_3_6 {
      ll[i] := j;
      l := j;
      i := i + 1;
    } else if j == REP_3_6 {
      ok, x := C.ReadBits(r, 2);
      if i + (3 + x) > n { return C.INVALID, i, l; }
      i := Fill(ll, i, 3 + x, l);
    } else if j == REPZ_3_10 {
      ok, x := C.ReadBits(r, 3);
      if i + (3 + x) > n { return C.INVALID, i, l; }
      i := Fill(ll, i, 3 + x, 0);
      l := 0;
    } else {
      ok, x := C.ReadBits(r, 7);
      if i + (11 + x) > n { return C.INVALID, i, l; }
      i := Fill(ll, i, 11 + x, 0);
      l := 0;
    }
  }

  lemma RunFits(ll: seq<nat>, i: nat, n: nat, last: nat, ss: seq<ClSym>, all: seq<nat>)
    requires LengthsRead(ll, i, n, last, ss, all)
    ensures ss == [] ==> i == n && ll[..n] == all
    ensures ss != [] ==> i + |Run(ss[0], last)| <= n && |Run(ss[0], last)| >= 1
  {
  }

  lemma RunRead(ll: seq<nat>, ll': seq<nat>, i: nat, i': nat, n: nat, last: nat, ss: seq<ClSym>, all: seq<nat>)
    requires LengthsRead(ll, i, n, last, ss, all) && ss != [] && |ll'| == |ll| && i' == i + |Run(ss[0], last)| <= n
    requires ll'[..i'] == ll[..i] + Run(ss[0], last)
    ensures LengthsRead(ll', i', n, LastOf(ss[0], last), ss[1..], all)
  {
    hide Run, LastOf;
    var a, b, c := ll[..i], Run(ss[0], last), LengthsOf(ss[1..], LastOf(ss[0], last));
    assert (a + b) + c == a + (b + c);
  }

  // The lengths of both trees, as one list.
  method ReadLengths(r: BitReader, ll: array<nat>, tl: seq<seq<Huft>>, bits: nat, n: nat,
                     ghost bl: seq<nat>, ghost ss0: seq<ClSym>, ghost tail: seq<bool>)
    returns (status: nat)
    requires r.Valid() && n <= ll.Length && |LengthsOf(ss0, 0)| == n && AllHaveCodes(bl, ss0) && |bl| == BL_CODES
    requires forall i :: 0 <= i < |ss0| ==> ClOK(ss0[i])
    requires C.TablesFor(tl, bits, bl, BL_CODES, [], []) && |tl| <= 1
    requires |tail| >= BMAX && r.Rest() == ClBits(bl, ss0) + tail
    modifies r, ll
    ensures status == C.OK && r.Valid() && ll[..n] == LengthsOf(ss0, 0) && r.Rest() == tail
  {
    hide BitsOf, BytesBits, Value, BitReader.Valid, BitReader.Rest, Pow2, Low, C.TablesFor, C.Begins, LengthsRead, Run,
      LastOf, ExtraBits, ClOK;
    ghost var ss, all := ss0, LengthsOf(ss0, 0);
    var i: nat, l: nat := 0, 0;
    NoneRead(ll[..], n, ss);
    while i < n
      invariant r.Valid() && r.Rest() == ClBits(bl, ss) + tail && AllHaveCodes(bl, ss)
      invariant forall i :: 0 <= i < |ss| ==> ClOK(ss[i])
      invariant i <= n && LengthsRead(ll[..], i, n, l, ss, all)
      decreases n - i
    {
      ghost var was := ll[..];
      RunFits(ll[..], i, n, l, ss, all);
      ghost var rest := r.Rest();
      ghost var more, after := SymsFront(bl, ss, rest, tail);
      SingleTable(tl, bits, bl, ss[0].sym, rest, more);
      var ok := r.NeedBits(bits);
      C.LookAt(rest, bits);
      var td := tl[0][Low(r.bb, bits)];
      r.DumpBits(td.b);
      ghost var s, l0, i0 := ss[0], l, i;
      status, i, l := TakeSymbol(r, ll, i, l, n, td.v, s, after);
      if status != C.OK { return; }
      RunRead(was, ll[..], i0, i, n, l0, ss, all);
      ss := ss[1..];
    }
    AllRead(ll[..], n, l, ss, all, bl);
    status := C.OK;
  }

  lemma NoneRead(ll: seq<nat>, n: nat, ss: seq<ClSym>)
    requires n <= |ll| && |LengthsOf(ss, 0)| == n
    ensures LengthsRead(ll, 0, n, 0, ss, LengthsOf(ss, 0))
  {
  }

  lemma AllRead(ll: seq<nat>, n: nat, l: nat, ss: seq<ClSym>, all: seq<nat>, bl: seq<nat>)
    requires LengthsRead(ll, n, n, l, ss, all)
    ensures ll[..n] == all && ClBits(bl, ss) == []
  {
    hide CodeBits, BitsOf;
    if ss != [] { RunFits(ll, n, n, l, ss, all); }
  }

  // A well-formed dynamic block comes next.
  ghost predicate DynamicFollows(blk: Block, was: seq<bool>, tail: seq<bool>)
    ensures DynamicFollows(blk, was, tail) ==> blk.Dynamic? && |tail| >= BMAX
  {
    blk.Dynamic? && BlockOK(blk) && |tail| >= BMAX
    && was == HeaderBits(blk.ll, blk.dd, blk.bl, blk.blcodes)
    + (ItemsBits(blk.ll, blk.dd, blk.its) + CodeBits(blk.ll, END_BLOCK)) + tail
  }

  // The parts of a dynamic block: counts, code length code, lengths, items.
  lemma DynamicParts(blk: Block, was: seq<bool>, tail: seq<bool>) returns (r1: seq<bool>, r2: seq<bool>, r3: seq<bool>)
    requires DynamicFollows(blk, was, tail)
    ensures HeaderOK(blk.ll, blk.dd, blk.bl, blk.blcodes)
    ensures was == BitsOf(|blk.ll| - 257, 5) + (BitsOf(|blk.dd| - 1, 5) + (BitsOf(blk.blcodes - 4, 4) + r1))
    ensures r1 == OrderBits(blk.bl, 0, blk.blcodes) + r2
    ensures r2 == ClBits(blk.bl, HeaderSyms(blk.ll, blk.dd)) + r3 && |r3| >= BMAX
    ensures C.Codes(blk.ll, blk.dd, blk.its, r3, tail)
  {
    hide BitsOf, CodeBits, ItemsBits, OrderBits, ClBits, FullCode, AllHaveCodes, HeaderSyms;
    var a, b, c := BitsOf(|blk.ll| - 257, 5), BitsOf(|blk.dd| - 1, 5), BitsOf(blk.blcodes - 4, 4);
    var o, k := OrderBits(blk.bl, 0, blk.blcodes), ClBits(blk.bl, HeaderSyms(blk.ll, blk.dd));
    var items, end := ItemsBits(blk.ll, blk.dd, blk.its), CodeBits(blk.ll, END_BLOCK);
    C.Assoc(items, end, tail);
    r3 := items + (end + tail);
    r2 := k + r3;
    r1 := o + r2;
    C.Assoc(a + b + c + o + k, items + end, tail);
    C.Assoc(a + b + c + o, k, r3);
    C.Assoc(a + b + c, o, r2);
    C.Assoc(a + b, c, r1);
    C.Assoc(a, b, c + r1);
  }

  // inflate_dynamic up to the last huft_build.
  method ReadTrees(r: BitReader, ghost blk: Block, ghost tail: seq<bool>)
    returns (status: nat, tl: seq<seq<Huft>>, td: seq<seq<Huft>>, bl: nat, bd: nat)
    requires r.Valid() && DynamicFollows(blk, r.Rest(), tail)
    modifies r
    ensures status == C.OK && r.Valid() && C.Codes(blk.ll, blk.dd, blk.its, r.Rest(), tail)
    ensures C.TablesFor(tl, bl, blk.ll, 257, CPLENS, CPLEXT) && C.TablesFor(td, bd, blk.dd, 0, CPDIST, CPDEXT)
    ensures |blk.ll| <= L_CODES && |blk.dd| <= D_CODES
  {
    hide BitsOf, BytesBits, BitReader.Valid, BitReader.Rest, Pow2, C.TablesFor, C.Codes, StartTo, ClBits, OrderBits,
      DynamicFollows, LengthsOf, AllSymbols, ClOK;
    tl, td, bl, bd := [], [], 0, 0;
    ghost var r1, r2, r3 := DynamicParts(blk, r.Rest(), tail);
    PowersOfExtra();
    var x := ReadField(r, 5, |blk.ll| - 257, BitsOf(|blk.dd| - 1, 5) + (BitsOf(blk.blcodes - 4, 4) + r1));
    var nl: nat := 257 + x;
    x := ReadField(r, 5, |blk.dd| - 1, BitsOf(blk.blcodes - 4, 4) + r1);
    var nd: nat := 1 + x;
    x := ReadField(r, 4, blk.blcodes - 4, r1);
    var nb: nat := 4 + x;
    if nl > 286 || nd > 30 { return C.INVALID, tl, td, bl, bd; }
    var ll := new nat[286 + 30];
    ReadOrder(r, ll, nb, blk.bl, r2);
    NoLists(blk.bl);
    status, tl, bl := BuildFull(ll[..19], 19, [], [], 7);
    if status != 0 { return; }
    ghost var ss := HeaderSyms(blk.ll, blk.dd);
    ShortEnough(blk.ll);
    ShortEnough(blk.dd);
    TwoTrees(blk.ll, blk.dd);
    status := ReadLengths(r, ll, tl, bl, nl + nd, blk.bl, ss, r3);
    if status != C.OK { return; }
    assert ll[..nl] == (blk.ll + blk.dd)[..nl] == blk.ll;
    assert ll[nl..nl + nd] == (blk.ll + blk.dd)[nl..] == blk.dd;
    LiteralLists(blk.ll);
    DistLists(blk.dd);
    status, tl, bl := BuildFull(ll[..nl], 257, CPLENS, CPLEXT, 9);
    if status != 0 { return; }
    status, td, bd := BuildFull(ll[nl..nl + nd], 0, CPDIST, CPDEXT, 6);
    if status != 0 { return; }
    status := C.OK;
  }

  lemma NoLists(bl: seq<nat>)
    requires |bl| == BL_CODES
    ensures T.ListsFit(bl, 19, [], [])
  {
  }

  lemma ShortEnough(lens: seq<nat>)
    requires FullCode(lens)
    ensures ShortLens(lens) && forall i :: 0 <= i < |lens| ==> lens[i] <= 18
  {
  }

  method InflateDynamic(r: BitReader, win: Window, ghost blk: Block, ghost tail: seq<bool>) returns (status: nat)
    requires r.Valid() && win.Valid() && DynamicFollows(blk, r.Rest(), tail)
    modifies r, win, win.slide
    ensures r.Valid() && win.Valid() && status == C.OK && r.Rest() == tail
    ensures C.Reached(blk.its, old(win.History()), win.History())
  {
    hide BitReader.Valid, BitReader.Rest, Window.Valid, Window.History, C.TablesFor, C.Codes, C.Reached, DynamicFollows,
      BlockOK, HeaderOK;
    var tl, td, bl, bd;
    status, tl, td, bl, bd := ReadTrees(r, blk, tail);
    if status != C.OK { return; }
    ghost var its;
    status, its := C.InflateCodes(r, win, tl, td, bl, bd, blk.ll, blk.dd, blk.its, tail);
  }

  // ---- One block and the whole stream -------------------------------------------------

  // The block comes next, and the stream ends with a whole byte.
  ghost predicate BlockFollows(pos: nat, last: bool, blk: Block, was: seq<bool>, tail: seq<bool>)
    ensures BlockFollows(pos, last, blk, was, tail) ==> BlockOK(blk)
  {
    BlockOK(blk) && |tail| >= BMAX && was == BlockBits(pos, last, blk) + tail && (pos + |was|) % 8 == 0
  }

  lemma BlockHead(pos: nat, last: bool, blk: Block, was: seq<bool>, tail: seq<bool>)
    requires BlockFollows(pos, last, blk, was, tail)
    ensures |was| >= 3 && Value(was[..1]) == (if last then 1 else 0) && Value(was[1..][..2]) == BlockType(blk)
    ensures was[1..][2..] == BodyBits(pos + 3, blk) + tail
  {
    hide BitsOf, BodyBits, Value, Pow2;
    var x := TypeBits(last, BlockType(blk));
    var body := BodyBits(pos + 3, blk);
    C.Assoc(BitsOf(x, 3), body, tail);
    HeadBits(last, BlockType(blk));
    var a, b := BitsOf(if last then 1 else 0, 1), BitsOf(BlockType(blk), 2);
    C.Assoc(a, b, body + tail);
    PowersOfExtra();
    C.ValueFront(if last then 1 else 0, 1, b + (body + tail));
    C.ValueFront(BlockType(blk), 2, body + tail);
  }

  lemma HeadBits(last: bool, t: nat)
    ensures BitsOf(TypeBits(last, t), 3) == BitsOf(if last then 1 else 0, 1) + BitsOf(t, 2)
  {
    hide BitsOf;
    var e := if last then 1 else 0;
    PowersOfExtra();
    BitsAdd(e, 1, t, 2);
  }

  lemma StoredBody(pos: nat, blk: Block, was: seq<bool>, tail: seq<bool>)
    requires blk.Stored? && BlockOK(blk) && was == BodyBits(pos, blk) + tail && (pos + |was|) % 8 == 0
    ensures StoredFollows(blk.data, was, tail)
  {
    hide BitsOf, BytesBits;
    var pad, body := Padding(pos), StoredBits(blk.data);
    C.Assoc(pad, body, tail);
    assert |was| % 8 == |pad|;
    assert (pad + (body + tail))[|pad|..] == body + tail;
  }

  lemma FixedBody(pos: nat, blk: Block, was: seq<bool>, tail: seq<bool>)
    requires blk.Fixed? && BlockOK(blk) && was == BodyBits(pos, blk) + tail
    ensures C.Codes(FixedLl(), FixedDd(), blk.its, was, tail)
  {
    hide BitsOf, ItemsBits;
    C.Assoc(ItemsBits(FixedLl(), FixedDd(), blk.its), CodeBits(FixedLl(), END_BLOCK), tail);
  }

  // The last-block bit e and the effect of one block.  Bits that say that the
  // block is dynamic must be followed by a well-formed dynamic block.
  method InflateBlock(r: BitReader, win: Window, ghost pos: nat, ghost last: bool, ghost blk: Block,
      ghost tail: seq<bool>)
    returns (status: nat, e: bool)
    requires r.Valid() && win.Valid()
    requires |r.Rest()| >= 3 && Value(r.Rest()[1..][..2]) == DYN_TREES ==> DynamicFollows(blk, r.Rest()[1..][2..], tail)
    modifies r, win, win.slide
    ensures r.Valid() && win.Valid()
    ensures status == BAD_TYPE <==> |old(r.Rest())| >= 3 && Value(old(r.Rest())[1..][..2]) == 3
    ensures BlockFollows(pos, last, blk, old(r.Rest()), tail) ==>
              status == C.OK && e == last && r.Rest() == tail
              && (BlockReaches(blk, |old(win.History())|) ==> win.History() == After(old(win.History()), blk))
  {
    hide BitReader.Valid, BitReader.Rest, Window.Valid, Window.History, BlockFollows, BodyBits, BlockOK, Value, Pow2,
      StoredFollows, C.Codes, DynamicFollows;
    ghost var was, h := r.Rest(), win.History();
    ghost var given := BlockFollows(pos, last, blk, was, tail);
    if given { BlockHead(pos, last, blk, was, tail); }
    PowersOfExtra();
    e := false;
    var ok, x := C.ReadBits(r, 1);
    if !ok { return C.END_OF_INPUT, e; }
    e := x == 1;
    var t;
    ok, t := C.ReadBits(r, 2);
    if !ok { return C.END_OF_INPUT, e; }
    ghost var body := r.Rest();
    if t == DYN_TREES {
      status := InflateDynamic(r, win, blk, tail);
      if given { OutputOf(blk, h, win.History(), [], blk.its); }
    } else if t == STORED_BLOCK {
      if given && blk.Stored? { Remains(pos, last, blk, was, tail); StoredBody(pos + 3, blk, body, tail); }
      ghost var data;
      status, data := InflateStored(r, win, if blk.Stored? then blk.data else [], tail);
      if given && blk.Stored? { OutputOf(blk, h, win.History(), data, []); }
    } else if t == STATIC_TREES {
      if given && blk.Fixed? { Remains(pos, last, blk, was, tail); FixedBody(pos + 3, blk, body, tail); }
      ghost var its;
      status, its := InflateFixed(r, win, if blk.Fixed? then blk.its else [], tail);
      if given && blk.Fixed? { OutputOf(blk, h, win.History(), [], its); }
    } else {
      status := BAD_TYPE;
    }
  }

  lemma Remains(pos: nat, last: bool, blk: Block, was: seq<bool>, tail: seq<bool>)
    requires BlockFollows(pos, last, blk, was, tail)
    ensures BlockOK(blk) && |tail| >= BMAX && |was| >= 3 && (pos + 3 + |was[1..][2..]|) % 8 == 0
    ensures was[1..][2..] == BodyBits(pos + 3, blk) + tail
  {
    hide BlockBits, BodyBits, BitsOf, Value, BlockOK;
    BlockHead(pos, last, blk, was, tail);
  }

  lemma OutputOf(blk: Block, h: seq<Byte>, now: seq<Byte>, data: seq<Byte>, its: seq<Item>)
    requires BlockOK(blk)
    requires match blk
             case Stored(d) => d == data && now == h + data
             case Fixed(i) => i == its && C.Reached(its, h, now)
             case Dynamic(_, _, _, _, i) => i == its && C.Reached(its, h, now)
    ensures BlockReaches(blk, |h|) ==> now == After(h, blk)
  {
  }

  lemma DynamicBody(pos: nat, last: bool, blk: Block, was: seq<bool>, tail: seq<bool>)
    requires BlockFollows(pos, last, blk, was, tail)
    ensures |was| >= 3 && (Value(was[1..][..2]) == DYN_TREES ==> DynamicFollows(blk, was[1..][2..], tail))
    ensures Value(was[1..][..2]) == BlockType(blk)
  {
    hide BitsOf, Value, HeaderBits, ItemsBits, CodeBits;
    BlockHead(pos, last, blk, was, tail);
  }

  // The stream from one of its blocks on.
  ghost predicate Coming(blks: seq<Block>, pos: nat, h: seq<Byte>, rest: seq<bool>, tail: seq<bool>)
  {
    StreamOK(blks, h) && |tail| >= BMAX && rest == StreamBits(pos, blks, h) + tail && (pos + |rest|) % 8 == 0
  }

  lemma ComingFirst(blks: seq<Block>, pos: nat, h: seq<Byte>, rest: seq<bool>, tail: seq<bool>)
    returns (more: seq<bool>, pos': nat)
    requires Coming(blks, pos, h, rest, tail)
    ensures BlockFollows(pos, |blks| == 1, blks[0], rest, more) && BlockReaches(blks[0], |h|)
    ensures |blks| == 1 ==> more == tail && StreamOut(blks, h) == After(h, blks[0])
    ensures |blks| > 1 ==> Coming(blks[1..], pos', After(h, blks[0]), more, tail)
                           && StreamOut(blks, h) == StreamOut(blks[1..], After(h, blks[0]))
  {
    hide BlockBits, BlockOK, After, BlockReaches;
    var first := BlockBits(pos, |blks| == 1, blks[0]);
    pos' := pos + |first|;
    if |blks| == 1 {
      more := tail;
    } else {
      var others := StreamBits(pos', blks[1..], After(h, blks[0]));
      more := others + tail;
      C.Assoc(first, others, tail);
    }
  }

  // inflate: expand all blocks, then give back whole bytes read too early, so
  // that what follows the stream can be read.
  method Inflate(input: seq<Byte>, ghost blks: seq<Block>, ghost pad: seq<bool>, ghost trailer: seq<Byte>)
    returns (status: nat, out: seq<Byte>, inptr: nat)
    requires StreamOK(blks, []) && |pad| < 8 && |trailer| >= 2
    requires BytesBits(input) == StreamBits(0, blks, []) + (pad + BytesBits(trailer))
    ensures status == C.OK && out == StreamOut(blks, []) && inptr + |trailer| == |input|
  {
    hide BitReader.Rest, Window.Valid, StreamOK, StreamBits, StreamOut, BlockReaches, After, BytesBits, BitsOf, Coming,
      Value, BlockFollows, DynamicFollows, Pow2;
    var r := new BitReader(input);
    var win := new Window();
    ghost var tail := pad + BytesBits(trailer);
    ghost var left, pos: nat, h: seq<Byte> := blks, 0, [];
    StartComing(blks, r.Rest(), tail);
    inptr, out := 0, [];
    while true
      invariant r.Valid() && win.Valid() && fresh(r) && fresh(win) && fresh(win.slide) && r.input == input
      invariant Coming(left, pos, h, r.Rest(), tail) && win.History() == h
      invariant left != [] && StreamOK(left, h) && StreamOut(left, h) == StreamOut(blks, [])
      decreases |left|
    {
      ghost var rest := r.Rest();
      ghost var more, pos' := ComingFirst(left, pos, h, rest, tail);
      DynamicBody(pos, |left| == 1, left[0], rest, more);
      var e;
      status, e := InflateBlock(r, win, pos, |left| == 1, left[0], more);
      if status != C.OK { return; }
      if e { break; }
      LeftOver(left, pos', h, more, tail);
      h := After(h, left[0]);
      left, pos := left[1..], pos';
    }
    RestBytes(r);
    inptr := r.inptr;
    while r.bk >= 8
      invariant r.bk <= 8 * inptr && 8 * |input| == |tail| + 8 * inptr - r.bk && inptr <= |input|
      modifies r
      decreases r.bk
    {
      r.bk := r.bk - 8;
      inptr := inptr - 1;
    }
    win.FlushOutput();
    out := win.flushed;
  }

  lemma StartComing(blks: seq<Block>, rest: seq<bool>, tail: seq<bool>)
    requires StreamOK(blks, []) && rest == StreamBits(0, blks, []) + tail && |rest| % 8 == 0 && |tail| >= BMAX
    ensures Coming(blks, 0, [], rest, tail) && blks != []
  {
  }

  lemma LeftOver(left: seq<Block>, pos: nat, h: seq<Byte>, more: seq<bool>, tail: seq<bool>)
    requires left != [] && BlockOK(left[0]) && BlockReaches(left[0], |h|)
    requires |left| > 1 ==> Coming(left[1..], pos, After(h, left[0]), more, tail)
    ensures |left| > 1 ==> left[1..] != [] && StreamOK(left[1..], After(h, left[0]))
  {
  }

  lemma RestBytes(r: BitReader)
    requires r.Valid()
    ensures |r.Rest()| == r.bk + 8 * (|r.input| - r.inptr)
  {
    hide BitsOf, BytesBits, Pow2;
  }
}
