// ct_tally and compress_block (trees.c): the literals and matches of a block are
// collected in buffers, counted, and then sent with the codes of two trees.
module Tally {
  import opened Powers
  import opened Canonical
  import opened TreeCodes
  import opened Bits
  import opened Lz77
  import opened BlockFormat
  import opened CtInit
  import CodeLengths

  const LIT_BUFSIZE: nat := 0x8000

  // ---- What the buffers hold -----------------------------------------------------------

  // A literal, or a match length less MIN_MATCH.
  function Lc(t: Token): nat
    requires TokenOK(t)
  {
    match t
    case Literal(b) => b
    case Match(len, _) => len - MIN_MATCH
  }

  function Marks(ts: seq<Token>): (m: seq<bool>)
    ensures |m| == |ts|
  {
    seq(|ts|, i requires 0 <= i < |ts| => ts[i].Match?)
  }

  // The distances less one of the matches.
  function Dists(ts: seq<Token>): (d: seq<int>)
    ensures |d| <= |ts|
  {
    if ts == [] then []
    else
      var t := ts[|ts| - 1];
      Dists(ts[..|ts| - 1]) + if t.Match? then [t.dist - 1] else []
  }

  predicate TokensOK(ts: seq<Token>)
  {
    forall i :: 0 <= i < |ts| ==> TokenOK(ts[i])
  }

  // Marks a to b - 1, as far as there are any, as a number.
  function Flags(ts: seq<Token>, a: nat, b: nat): nat
    requires a <= |ts|
  {
    Value(Marks(ts)[a..if b <= |ts| && a <= b then b else |ts|])
  }

  // The symbols of a token in the two trees.
  function LitSym(t: Token): (s: nat)
    ensures TokenOK(t) ==> s < L_CODES
  {
    match t
    case Literal(b) => b
    case Match(len, _) => LITERALS + 1 + LengthCode(len)
  }

  function Zeros(n: nat): (s: seq<nat>)
    ensures |s| == n && forall i :: 0 <= i < n ==> s[i] == 0
  {
    seq(n, i => 0)
  }

  function Bump(f: seq<nat>, s: nat): (f': seq<nat>)
    ensures |f'| == |f|
  {
    if s < |f| then f[s := f[s] + 1] else f
  }

  // How often each symbol is used; END_BLOCK is used once.
  function LitFreqs(ts: seq<Token>): (f: seq<nat>)
    ensures |f| == L_CODES
  {
    if ts == [] then Zeros(L_CODES)[END_BLOCK := 1]
    else Bump(LitFreqs(ts[..|ts| - 1]), LitSym(ts[|ts| - 1]))
  }

  function DistFreqs(ts: seq<Token>): (f: seq<nat>)
    ensures |f| == D_CODES
  {
    if ts == [] then Zeros(D_CODES)
    else
      var t := ts[|ts| - 1];
      var f := DistFreqs(ts[..|ts| - 1]);
      if t.Match? then Bump(f, DistCode(t.dist)) else f
  }

  // What the tokens cost at most: eight bits for a literal or length, and for a distance
  // five and its extra bits.
  function Bound(ts: seq<Token>): nat
  {
    if ts == [] then 0
    else
      var t := ts[|ts| - 1];
      Bound(ts[..|ts| - 1]) + 8 + if t.Match? then 5 + EXTRA_DBITS[DistCode(t.dist)] else 0
  }

  // The same for the distances, by their frequencies, up to code n.
  function Charged(f: seq<nat>, n: nat): nat
    requires n <= |f| && n <= D_CODES
  {
    if n == 0 then 0 else Charged(f, n - 1) + f[n - 1] * (5 + EXTRA_DBITS[n - 1])
  }

  lemma {:induction false} ChargedBump(f: seq<nat>, s: nat, n: nat)
    requires n <= |f| && n <= D_CODES && s < |f|
    ensures Charged(Bump(f, s), n) == Charged(f, n) + if s < n then 5 + EXTRA_DBITS[s] else 0
    decreases n
  {
    if n > 0 {
      ChargedBump(f, s, n - 1);
      if s == n - 1 { Distribute(f[s], 1, 5 + EXTRA_DBITS[s]); }
    }
  }

  lemma {:induction false} ChargedNone(f: seq<nat>, n: nat)
    requires n <= |f| && n <= D_CODES && forall i :: 0 <= i < n ==> f[i] == 0
    ensures Charged(f, n) == 0
    decreases n
  {
    if n > 0 { ChargedNone(f, n - 1); }
  }

  // Code by code it comes to the same as token by token.
  lemma {:induction false} BoundIs(ts: seq<Token>)
    ensures 8 * |ts| + Charged(DistFreqs(ts), D_CODES) == Bound(ts)
  {
    hide DistCode, Charged;
    if ts == [] {
      ChargedNone(DistFreqs(ts), D_CODES);
    } else {
      var n := |ts| - 1;
      BoundIs(ts[..n]);
      if ts[n].Match? { ChargedBump(DistFreqs(ts[..n]), DistCode(ts[n].dist), D_CODES); }
    }
  }

  // It is profitable to stop: few matches, and at most half the length.
  predicate Profitable(ts: seq<Token>, inLength: int)
  {
    |Dists(ts)| < |ts| / 2 && Bound(ts) / 8 < inLength / 2
  }

  // The block must end: every 4096 tokens when that is profitable, or when a buffer is full.
  predicate MustEnd(ts: seq<Token>, level: nat, inLength: int)
  {
    (level > 2 && |ts| % 0x1000 == 0 && Profitable(ts, inLength)) || |ts| == LIT_BUFSIZE - 1
    || |Dists(ts)| == LIT_BUFSIZE
  }

  lemma {:induction false} ValuePush(s: seq<bool>, b: bool)
    ensures Value(s + [b]) == Value(s) + if b then Pow2(|s|) else 0
  {
    if s != [] {
      assert (s + [b])[1..] == s[1..] + [b];
      ValuePush(s[1..], b);
    }
  }

  lemma ValueHead(s: seq<bool>)
    requires s != []
    ensures Value(s) % 2 == (if s[0] then 1 else 0) && Value(s) / 2 == Value(s[1..])
  {
  }

  lemma FlagsSame(ts: seq<Token>, t: Token, j: nat)
    requires 8 * j + 8 <= |ts|
    ensures Flags(ts + [t], 8 * j, 8 * j + 8) == Flags(ts, 8 * j, 8 * j + 8)
  {
    hide Value;
    assert Marks(ts + [t])[8 * j..8 * j + 8] == Marks(ts)[8 * j..8 * j + 8];
  }

  lemma FlagsLast(ts: seq<Token>, t: Token, a: nat)
    requires a <= |ts|
    ensures Flags(ts + [t], a, |ts| + 1) == Flags(ts, a, |ts|) + if t.Match? then Pow2(|ts| - a) else 0
    ensures Flags(ts, a, |ts|) < Pow2(|ts| - a)
  {
    hide Value, Pow2;
    var m := Marks(ts);
    assert Marks(ts + [t])[a..|ts| + 1] == m[a..|ts|] + [t.Match?];
    ValuePush(m[a..|ts|], t.Match?);
    ValueBound(m[a..|ts|]);
  }

  lemma NoFlags(ts: seq<Token>)
    ensures Flags(ts, |ts|, |ts|) == 0 && Pow2(0) == 1 && Pow2(8) == 256
  {
    PowersOfExtra();
    assert Marks(ts)[|ts|..|ts|] == [];
  }

  lemma DistsPush(ts: seq<Token>, t: Token)
    ensures Dists(ts + [t]) == Dists(ts) + if t.Match? then [t.dist - 1] else []
  {
    assert (ts + [t])[..|ts|] == ts;
  }

  lemma FreqsPush(ts: seq<Token>, t: Token)
    ensures LitFreqs(ts + [t]) == Bump(LitFreqs(ts), LitSym(t))
    ensures DistFreqs(ts + [t]) == if t.Match? then Bump(DistFreqs(ts), DistCode(t.dist)) else DistFreqs(ts)
  {
    assert (ts + [t])[..|ts|] == ts;
  }

  // The flags of the last tokens, and the bit for the next one.
  predicate FlagState(ts: seq<Token>, flagBuf: seq<nat>, lastFlags: nat, flags: nat, flagBit: nat)
  {
    |flagBuf| == LIT_BUFSIZE / 8 && |ts| < LIT_BUFSIZE && lastFlags == |ts| / 8 && flagBit == Pow2(|ts| % 8)
    && (forall j :: 0 <= j < lastFlags ==> flagBuf[j] == Flags(ts, 8 * j, 8 * j + 8))
    && flags == Flags(ts, 8 * lastFlags, |ts|)
  }

  lemma FlagStep(ts: seq<Token>, t: Token, fb: seq<nat>, n: nat, flags: nat, bit: nat)
    requires FlagState(ts, fb, n, flags, bit) && |ts| + 1 < LIT_BUFSIZE
    ensures Or(flags, bit) == flags + bit && bit <= 128 && n < |fb|
    ensures var flags' := flags + (if t.Match? then bit else 0);
            if (|ts| + 1) % 8 == 0 then FlagState(ts + [t], fb[n := flags'], n + 1, 0, 1)
            else 2 * bit < 256 && FlagState(ts + [t], fb, n, flags', 2 * bit)
  {
    hide Value, Pow2, Flags, Or;
    FlagsLast(ts, t, 8 * n);
    NoFlags(ts + [t]);
    SmallPow2(|ts| % 8);
    OrAbove(flags, 1, |ts| % 8);
    assert |ts + [t]| == |ts| + 1;
    var flags' := flags + if t.Match? then bit else 0;
    if (|ts| + 1) % 8 == 0 {
      var fb' := fb[n := flags'];
      forall j | 0 <= j < n + 1 ensures fb'[j] == Flags(ts + [t], 8 * j, 8 * j + 8) {
        if j < n { FlagsSame(ts, t, j); }
      }
    } else {
      forall j | 0 <= j < n ensures fb[j] == Flags(ts + [t], 8 * j, 8 * j + 8) {
        FlagsSame(ts, t, j);
      }
    }
  }

  lemma SmallPow2(k: nat)
    requires k < 8
    ensures 1 <= Pow2(k) <= 128 && Pow2(k + 1) == 2 * Pow2(k) && (k < 7 ==> 2 * Pow2(k) <= 128)
  {
    PowersOfExtra();
    Pow2Mono(k, 7);
    if k < 7 { Pow2Mono(k + 1, 7); }
  }

  class TallyBuffers {
    const lBuf: array<Byte>
    const dBuf: array<int>
    const flagBuf: array<nat>
    const dynLtree: array<CtData>
    const dynDtree: array<CtData>
    var lastLit: nat
    var lastDist: nat
    var lastFlags: nat
    var flags: nat
    var flagBit: nat

    // The buffers are different arrays: they hold different types of elements.
    ghost predicate Sizes()
    {
      lBuf.Length == LIT_BUFSIZE && dBuf.Length == LIT_BUFSIZE && flagBuf.Length == LIT_BUFSIZE / 8
      && dynLtree.Length == 573 && dynDtree.Length == 61 && dynLtree != dynDtree
    }

    ghost predicate BuffersHold(ts: seq<Token>)
      reads this, lBuf, dBuf, flagBuf
    {
      Sizes() && TokensOK(ts) && lastLit == |ts| < LIT_BUFSIZE && lastDist == |Dists(ts)|
      && (forall i :: 0 <= i < |ts| ==> lBuf[i] == Lc(ts[i]))
      && dBuf[..lastDist] == Dists(ts)
      && FlagState(ts, flagBuf[..], lastFlags, flags, flagBit)
    }

    ghost predicate Counts(ts: seq<Token>)
      reads dynLtree, dynDtree
    {
      Sizes()
      && (forall s :: 0 <= s < L_CODES ==> dynLtree[s].fc == LitFreqs(ts)[s])
      && forall s :: 0 <= s < D_CODES ==> dynDtree[s].fc == DistFreqs(ts)[s]
    }

    constructor ()
      ensures Sizes() && fresh(lBuf) && fresh(dBuf) && fresh(flagBuf) && fresh(dynLtree) && fresh(dynDtree)
    {
      lBuf, dBuf, flagBuf := new Byte[LIT_BUFSIZE], new int[LIT_BUFSIZE], new nat[LIT_BUFSIZE / 8];
      dynLtree := new CtData[573](i => CtData(0, 0));
      dynDtree := new CtData[61](i => CtData(0, 0));
      lastLit, lastDist, lastFlags, flags, flagBit := 0, 0, 0, 0, 1;
    }

    // The part of init_block about the buffers and their frequencies.
    method Reset()
      requires Sizes()
      modifies this, dynLtree, dynDtree
      ensures BuffersHold([]) && Counts([])
    {
      hide Pow2, Value;
      NoFlags([]);
      var n := 0;
      while n < L_CODES
        invariant 0 <= n <= L_CODES && forall s :: 0 <= s < n ==> dynLtree[s].fc == 0
      {
        dynLtree[n] := dynLtree[n].(fc := 0);
        n := n + 1;
      }
      n := 0;
      while n < D_CODES
        invariant 0 <= n <= D_CODES && forall s :: 0 <= s < n ==> dynDtree[s].fc == 0
        invariant forall s :: 0 <= s < L_CODES ==> dynLtree[s].fc == 0
      {
        dynDtree[n] := dynDtree[n].(fc := 0);
        n := n + 1;
      }
      dynLtree[END_BLOCK] := dynLtree[END_BLOCK].(fc := 1);
      lastLit, lastDist, lastFlags := 0, 0, 0;
      flags, flagBit := 0, 1;
    }

    // The token for the arguments of ct_tally.
    static function TokenFor(dist: nat, lc: Byte): Token
    {
      if dist == 0 then Literal(lc) else Match(lc + MIN_MATCH, dist)
    }

    // Whether it is profitable to stop the block, judging by a bound for the
    // compressed length.
    method Guess(inLength: int, ghost ts: seq<Token>) returns (stop: bool)
      requires BuffersHold(ts) && Counts(ts)
      ensures stop <==> Profitable(ts, inLength)
    {
      hide FlagState, DistCode, DistFreqs, LitFreqs, Dists;
      BoundIs(ts);
      var outLength: nat := lastLit * 8;
      var dcode := 0;
      while dcode < D_CODES
        invariant 0 <= dcode <= D_CODES && outLength == 8 * |ts| + Charged(DistFreqs(ts), dcode)
      {
        outLength := outLength + dynDtree[dcode].fc * (5 + EXTRA_DBITS[dcode]);
        dcode := dcode + 1;
      }
      outLength := outLength / 8;
      stop := lastDist < lastLit / 2 && outLength < inLength / 2;
    }

    // Count the symbols of a token.
    method Count(dist: nat, lc: Byte, maps: CodeMaps, ghost ts: seq<Token>)
      requires Counts(ts) && MapsOK(maps) && dist <= WSIZE
      modifies dynLtree, dynDtree
      ensures Counts(ts + [TokenFor(dist, lc)])
    {
      hide LitFreqs, DistFreqs, DistCode, LengthCode, MapsOK, DCode;
      FreqsPush(ts, TokenFor(dist, lc));
      if dist == 0 {
        dynLtree[lc] := dynLtree[lc].(fc := dynLtree[lc].fc + 1);
      } else {
        MapsLookup(maps, lc, dist - 1);
        var c, e := maps.lengthCode[lc] + LITERALS + 1, DCode(maps.distCode, dist - 1);
        dynLtree[c] := dynLtree[c].(fc := dynLtree[c].fc + 1);
        dynDtree[e] := dynDtree[e].(fc := dynDtree[e].fc + 1);
      }
    }

    // Put a token into the buffers.
    method Save(dist: nat, lc: Byte, ghost ts: seq<Token>)
      requires BuffersHold(ts) && |ts| < LIT_BUFSIZE - 1 && dist <= WSIZE
      modifies this, lBuf, dBuf, flagBuf
      ensures BuffersHold(ts + [TokenFor(dist, lc)])
    {
      hide Dists, FlagState, Pow2, Or;
      ghost var t := TokenFor(dist, lc);
      DistsPush(ts, t);
      FlagStep(ts, t, flagBuf[..], lastFlags, flags, flagBit);
      lBuf[lastLit] := lc;
      lastLit := lastLit + 1;
      if dist != 0 {
        dBuf[lastDist] := dist - 1;
        lastDist := lastDist + 1;
        flags := Or(flags, flagBit);
      }
      flagBit := flagBit * 2 % 256;
      if lastLit % 8 == 0 {
        flagBuf[lastFlags] := flags;
        lastFlags := lastFlags + 1;
        flags, flagBit := 0, 1;
      }
    }

    // ct_tally: take a match, or a literal when dist is zero.  True when the
    // block must end.
    method CtTally(dist: nat, lc: Byte, maps: CodeMaps, level: nat, inLength: int, ghost ts: seq<Token>)
      returns (flush: bool)
      requires BuffersHold(ts) && Counts(ts) && MapsOK(maps) && |ts| < LIT_BUFSIZE - 1 && dist <= WSIZE
      modifies this, lBuf, dBuf, flagBuf, dynLtree, dynDtree
      ensures BuffersHold(ts + [TokenFor(dist, lc)]) && Counts(ts + [TokenFor(dist, lc)])
      ensures !flush ==> |ts| + 1 < LIT_BUFSIZE - 1
      ensures flush <==> MustEnd(ts + [TokenFor(dist, lc)], level, inLength)
    {
      hide BuffersHold, Counts, MapsOK, Profitable, Dists;
      Save(dist, lc, ts);
      Count(dist, lc, maps, ts);
      BuffersSizes(ts + [TokenFor(dist, lc)]);
      if level > 2 && lastLit % 0x1000 == 0 {
        var stop := Guess(inLength, ts + [TokenFor(dist, lc)]);
        if stop { return true; }
      }
      flush := lastLit == LIT_BUFSIZE - 1 || lastDist == LIT_BUFSIZE;
    }

    // flush_block first saves the flags of the last tokens.
    method StoreFlags(ghost ts: seq<Token>)
      requires BuffersHold(ts)
      modifies flagBuf
      ensures BuffersHold(ts) && FlagsWritten(ts, flagBuf[..])
    {
      hide Flags, Dists, Pow2, Value;
      LastFlags(ts, flagBuf[..], lastFlags, flags, flagBit);
      flagBuf[lastFlags] := flags;
    }

    lemma BuffersSizes(ts: seq<Token>)
      requires BuffersHold(ts)
      ensures Sizes() && lastLit == |ts| < LIT_BUFSIZE && TokensOK(ts) && lastDist == |Dists(ts)|
    {
    }
  }

  lemma MapsLookup(maps: CodeMaps, lc: nat, d: nat)
    requires MapsOK(maps) && lc < 256 && d < WSIZE
    ensures |maps.lengthCode| == 256 && |maps.distCode| == 512
    ensures maps.lengthCode[lc] == LengthCode(lc + MIN_MATCH) < LENGTH_CODES
    ensures DCode(maps.distCode, d) == DistCode(d + 1) < D_CODES
  {
    hide DCode, LengthCode, DistCode;
  }

  // ---- compress_block -----------------------------------------------------------------

  lemma CodeReady(tree: seq<CtData>, lens: seq<nat>, s: nat)
    requires TreeCoded(tree, lens) && HasCode(lens, s)
    ensures s < |tree| && 1 <= tree[s].dl <= MAX_BITS && tree[s].fc < Pow2(tree[s].dl)
    ensures BitsOf(tree[s].fc, tree[s].dl) == CodeBits(lens, s)
  {
    hide StartTo, BitsOf, Pow2;
  }

  method SendSymbol(w: BitWriter, s: nat, tree: array<CtData>, ghost lens: seq<nat>)
    requires w.Valid() && TreeCoded(tree[..], lens) && HasCode(lens, s)
    modifies w
    ensures w.Valid() && w.Sent() == old(w.Sent()) + CodeBits(lens, s)
  {
    hide TreeCoded, BitsOf, Pow2, CodeBits, BitWriter.Sent, BitWriter.Valid;
    CodeReady(tree[..], lens, s);
    CodeLengths.SendCode(w, s, tree);
  }

  // Extra bits, if there are any.
  method SendExtra(w: BitWriter, x: nat, n: nat)
    requires w.Valid() && n <= 16 && x < Pow2(n)
    modifies w
    ensures w.Valid() && w.Sent() == old(w.Sent()) + BitsOf(x, n)
  {
    hide Pow2, BitWriter.Sent, BitWriter.Valid;
    if n != 0 {
      w.SendBits(x, n);
    }
  }

  // The item of a match in terms of the tables of trees.c.
  ghost predicate MatchIs(maps: CodeMaps, lc: nat, dist: nat, it: Item)
  {
    ItemOK(it) && it.Ref? && lc < 256 && dist < WSIZE
    && |maps.lengthCode| == 256 && |maps.baseLength| == LENGTH_CODES && |maps.distCode| == 512
    && |maps.baseDist| == D_CODES
    && it.c == maps.lengthCode[lc] && it.e == DCode(maps.distCode, dist)
    && CPLEXT[it.c] == EXTRA_LBITS[it.c] <= 5 && CPDEXT[it.e] == EXTRA_DBITS[it.e] <= 13
    && it.x == (if EXTRA_LBITS[it.c] != 0 then lc - maps.baseLength[it.c] else 0)
    && it.y == (if EXTRA_DBITS[it.e] != 0 then dist - maps.baseDist[it.e] else 0)
  }

  lemma ItemInMaps(maps: CodeMaps, t: Token)
    requires MapsOK(maps) && TokenOK(t) && t.Match?
    ensures MatchIs(maps, t.len - MIN_MATCH, t.dist - 1, ItemOf(t))
  {
    hide LengthCode, DistCode, DCode, Pow2;
    var c, e := LengthCode(t.len), DistCode(t.dist);
    ItemRoundTrip(t);
    MapsLookup(maps, t.len - MIN_MATCH, t.dist - 1);
    MapsBases(maps, t);
    LengthTables(c);
    DistTables(e);
    LengthCodeSpan(t.len);
    DistCodeSpan(t.dist);
    PowersOfExtra();
  }

  lemma MapsBases(maps: CodeMaps, t: Token)
    requires MapsOK(maps) && TokenOK(t) && t.Match?
    ensures |maps.baseLength| == LENGTH_CODES && |maps.baseDist| == D_CODES
    ensures LengthCode(t.len) < 28 ==> maps.baseLength[LengthCode(t.len)] + MIN_MATCH == CPLENS[LengthCode(t.len)]
    ensures maps.baseDist[DistCode(t.dist)] + 1 == CPDIST[DistCode(t.dist)]
  {
    hide LengthCode, DistCode, DCode;
  }

  method SendMatch(w: BitWriter, lc0: nat, dist0: nat, ltree: array<CtData>, dtree: array<CtData>, maps: CodeMaps,
                   ghost ll: seq<nat>, ghost dd: seq<nat>, ghost it: Item)
    requires w.Valid() && TreeCoded(ltree[..], ll) && TreeCoded(dtree[..], dd)
    requires MatchIs(maps, lc0, dist0, it) && HasCode(ll, LITERALS + 1 + it.c) && HasCode(dd, it.e)
    modifies w
    ensures w.Valid() && w.Sent() == old(w.Sent()) + ItemBits(ll, dd, it)
  {
    hide TreeCoded, BitsOf, Pow2, CodeBits, BitWriter.Sent, BitWriter.Valid, DCode, HasCode, ItemBits;
    ghost var was := w.Sent();
    var lc, dist: int := lc0, dist0;
    var code := maps.lengthCode[lc0];
    SendSymbol(w, code + LITERALS + 1, ltree, ll);
    var extra := EXTRA_LBITS[code];
    if extra != 0 { lc := lc - maps.baseLength[code]; } else { lc := 0; }
    SendExtra(w, lc, extra);
    code := DCode(maps.distCode, dist0);
    SendSymbol(w, code, dtree, dd);
    extra := EXTRA_DBITS[code];
    if extra != 0 { dist := dist - maps.baseDist[code]; } else { dist := 0; }
    SendExtra(w, dist, extra);
    Regrouped(was, ll, dd, it);
  }

  // A literal or match, as taken from the buffers.
  method SendToken(w: BitWriter, isMatch: bool, lc: nat, dist: int, ltree: array<CtData>, dtree: array<CtData>,
      maps: CodeMaps,
                   ghost ll: seq<nat>, ghost dd: seq<nat>, ghost t: Token)
    requires w.Valid() && TreeCoded(ltree[..], ll) && TreeCoded(dtree[..], dd) && MapsOK(maps)
    requires TokenOK(t) && ItemCoded(ll, dd, ItemOf(t)) && isMatch == t.Match? && lc == Lc(t)
             && (t.Match? ==> dist == t.dist - 1)
    modifies w
    ensures w.Valid() && w.Sent() == old(w.Sent()) + ItemBits(ll, dd, ItemOf(t))
  {
    hide TreeCoded, BitsOf, Pow2, CodeBits, BitWriter.Sent, BitWriter.Valid, MapsOK, MatchIs, HasCode;
    if !isMatch {
      SendSymbol(w, lc, ltree, ll);
    } else {
      ItemInMaps(maps, t);
      SendMatch(w, lc, dist, ltree, dtree, maps, ll, dd, ItemOf(t));
    }
  }

  lemma Regrouped(was: seq<bool>, ll: seq<nat>, dd: seq<nat>, it: Item)
    requires ItemOK(it) && it.Ref?
    ensures was + CodeBits(ll, LITERALS + 1 + it.c) + BitsOf(it.x, CPLEXT[it.c]) + CodeBits(dd, it.e)
            + BitsOf(it.y, CPDEXT[it.e])
         == was + ItemBits(ll, dd, it)
  {
    hide CodeBits, BitsOf;
    var a, b, c, d := CodeBits(ll, LITERALS + 1 + it.c), BitsOf(it.x, CPLEXT[it.c]), CodeBits(dd, it.e),
        BitsOf(it.y, CPDEXT[it.e]);
    Joined(was, a + b + c, d);
    Joined(was, a + b, c);
    Joined(was, a, b);
  }

  lemma Joined(a: seq<bool>, b: seq<bool>, c: seq<bool>)
    ensures (a + b) + c == a + (b + c)
  {
  }

  // The flag byte in use at token i: the marks from i up to the next multiple of 8.
  lemma FlagsHead(ts: seq<Token>, i: nat, b: nat)
    requires i < |ts| && i < b
    ensures Flags(ts, i, b) % 2 == (if ts[i].Match? then 1 else 0) && Flags(ts, i, b) / 2 == Flags(ts, i + 1, b)
  {
    hide Value;
    var s := Marks(ts)[i..if b <= |ts| then b else |ts|];
    ValueHead(s);
    if i + 1 <= b { assert s[1..] == Marks(ts)[i + 1..if b <= |ts| && i + 1 <= b then b else |ts|]; }
  }

  // All flags are in the buffer, the last ones too.
  ghost predicate FlagsWritten(ts: seq<Token>, fb: seq<nat>)
  {
    |fb| == LIT_BUFSIZE / 8 && |ts| < LIT_BUFSIZE
      && forall j :: 0 <= j && 8 * j < |ts| ==> fb[j] == Flags(ts, 8 * j, 8 * j + 8)
  }

  lemma LastFlags(ts: seq<Token>, fb: seq<nat>, n: nat, flags: nat, bit: nat)
    requires FlagState(ts, fb, n, flags, bit)
    ensures n < |fb| && FlagsWritten(ts, fb[n := flags])
  {
    hide Value;
    var fb' := fb[n := flags];
    forall j | 0 <= j && 8 * j < |ts| ensures fb'[j] == Flags(ts, 8 * j, 8 * j + 8) {
      if j == n {
        assert Marks(ts)[8 * j..|ts|] == Marks(ts)[8 * j..if 8 * j + 8 <= |ts| then 8 * j + 8 else |ts|];
      }
    }
  }

  lemma {:induction false} DistsAt(ts: seq<Token>, i: nat)
    requires i < |ts|
    ensures |Dists(ts[..i])| <= |Dists(ts)| && Dists(ts)[..|Dists(ts[..i])|] == Dists(ts[..i])
    ensures ts[i].Match? ==> |Dists(ts[..i])| < |Dists(ts)| && Dists(ts)[|Dists(ts[..i])|] == ts[i].dist - 1
    ensures |Dists(ts[..i + 1])| == |Dists(ts[..i])| + if ts[i].Match? then 1 else 0
    decreases |ts|
  {
    var n := |ts| - 1;
    if i < n {
      DistsAt(ts[..n], i);
      assert ts[..n][..i] == ts[..i] && ts[..n][..i + 1] == ts[..i + 1];
    } else {
      assert ts[..i + 1] == ts;
    }
  }

  // Token i as compress_block finds it, and where the flag byte and the distances
  // stand before it.
  ghost predicate At(t: TallyBuffers, ts: seq<Token>, lx: nat, dx: nat, fx: nat, flag: nat)
    reads t, t.lBuf, t.dBuf, t.flagBuf
  {
    t.BuffersHold(ts) && FlagsWritten(ts, t.flagBuf[..]) && lx <= |ts|
    && dx == |Dists(ts[..lx])| && lx <= 8 * fx < lx + 8 && (lx % 8 != 0 ==> flag == Flags(ts, lx, 8 * fx))
  }

  lemma TakeFlag(t: TallyBuffers, ts: seq<Token>, lx: nat, dx: nat, fx: nat, flag: nat)
    requires At(t, ts, lx, dx, fx, flag) && lx < |ts|
    ensures fx < t.flagBuf.Length || lx % 8 != 0
    ensures var flag', fx' := if lx % 8 == 0 then t.flagBuf[fx] else flag, if lx % 8 == 0 then fx + 1 else fx;
            flag' % 2 == (if ts[lx].Match? then 1 else 0)
            && At(t, ts, lx + 1, dx + (if ts[lx].Match? then 1 else 0), fx', flag' / 2)
    ensures lx < t.lBuf.Length && TokenOK(ts[lx]) && t.lBuf[lx] == Lc(ts[lx])
    ensures ts[lx].Match? ==> dx < t.dBuf.Length && t.dBuf[dx] == ts[lx].dist - 1
  {
    hide Flags, FlagState, Dists;
    DistsAt(ts, lx);
    FlagsHead(ts, lx, if lx % 8 == 0 then 8 * fx + 8 else 8 * fx);
    assert t.dBuf[..t.lastDist] == Dists(ts);
  }

  lemma SendStep(ll: seq<nat>, dd: seq<nat>, its: seq<Item>, i: nat, sent: seq<bool>)
    requires AllOK(its) && i < |its|
    ensures (sent + ItemBits(ll, dd, its[i])) + ItemsBits(ll, dd, its[i + 1..]) == sent + ItemsBits(ll, dd, its[i..])
  {
    hide ItemBits, ItemOK;
    assert its[i..][1..] == its[i + 1..];
    Joined(sent, ItemBits(ll, dd, its[i]), ItemsBits(ll, dd, its[i + 1..]));
  }

  // Send the tokens of the block and the end of block code.
  method CompressBlock(w: BitWriter, t: TallyBuffers, ltree: array<CtData>, dtree: array<CtData>, maps: CodeMaps,
                       ghost ts: seq<Token>, ghost ll: seq<nat>, ghost dd: seq<nat>)
    requires w.Valid() && t.BuffersHold(ts) && FlagsWritten(ts, t.flagBuf[..]) && MapsOK(maps)
    requires TreeCoded(ltree[..], ll) && TreeCoded(dtree[..], dd)
    requires AllCoded(ll, dd, ItemsOf(ts)) && HasCode(ll, END_BLOCK)
    modifies w
    ensures w.Valid() && w.Sent() == old(w.Sent()) + (ItemsBits(ll, dd, ItemsOf(ts)) + CodeBits(ll, END_BLOCK))
  {
    hide At, BitWriter.Valid, BitWriter.Sent, TallyBuffers.BuffersHold, FlagsWritten, MapsOK, TreeCoded, ItemsBits,
      ItemBits, CodeBits, BitsOf, ItemOf, ItemCoded, Dists, Pow2, HasCode;
    t.BuffersSizes(ts);
    ghost var was, its := w.Sent(), ItemsOf(ts);
    CodedOK(ll, dd, its);
    var lx, dx, fx, flag: nat := 0, 0, 0, 0;
    StartAt(t, ts, ll, dd);
    assert its[0..] == its;
    if t.lastLit != 0 {
      while true
        invariant lx < |ts| && At(t, ts, lx, dx, fx, flag)
        invariant w.Valid() && w.Sent() + ItemsBits(ll, dd, its[lx..]) == was + ItemsBits(ll, dd, its)
        decreases |ts| - lx
      {
        TakeFlag(t, ts, lx, dx, fx, flag);
        SendStep(ll, dd, its, lx, w.Sent());
        ghost var tok := ts[lx];
        if lx % 8 == 0 {
          flag := t.flagBuf[fx];
          fx := fx + 1;
        }
        var lc := t.lBuf[lx];
        lx := lx + 1;
        if flag % 2 == 0 {
          SendToken(w, false, lc, 0, ltree, dtree, maps, ll, dd, tok);
        } else {
          var dist := t.dBuf[dx];
          dx := dx + 1;
          SendToken(w, true, lc, dist, ltree, dtree, maps, ll, dd, tok);
        }
        flag := flag / 2;
        if lx >= t.lastLit { break; }
      }
    }
    assert its[|ts|..] == [];
    EndOfItems(ll, dd, its, w.Sent(), was);
    SendSymbol(w, END_BLOCK, ltree, ll);
  }

  lemma CodedOK(ll: seq<nat>, dd: seq<nat>, its: seq<Item>)
    requires AllCoded(ll, dd, its)
    ensures AllOK(its)
  {
    hide HasCode;
  }

  lemma StartAt(t: TallyBuffers, ts: seq<Token>, ll: seq<nat>, dd: seq<nat>)
    requires t.BuffersHold(ts) && FlagsWritten(ts, t.flagBuf[..])
    ensures At(t, ts, 0, 0, 0, 0) && ItemsBits(ll, dd, []) == []
  {
    assert ts[..0] == [];
  }

  lemma EndOfItems(ll: seq<nat>, dd: seq<nat>, its: seq<Item>, sent: seq<bool>, was: seq<bool>)
    requires AllOK(its) && sent + ItemsBits(ll, dd, []) == was + ItemsBits(ll, dd, its)
    ensures sent + CodeBits(ll, END_BLOCK) == was + (ItemsBits(ll, dd, its) + CodeBits(ll, END_BLOCK))
  {
    hide CodeBits;
    Joined(was, ItemsBits(ll, dd, its), CodeBits(ll, END_BLOCK));
    assert sent + [] == sent;
  }
}
