// The deflate format in the numbers of its standard (RFC 1951): the extra bits of lengths
// and distances, the static codes, and a whole stream.
module DeflateFacts {
  import opened Powers
  import opened Canonical
  import opened TreeCodes
  import opened Bits
  import opened CodeLengths
  import opened Lz77
  import opened BlockFormat
  import opened Blocks

  // Section 3.2.5: the lengths begin with 3 and the distances with 1; from the eighth length
  // and the fourth distance on there is one extra bit more after every four lengths and
  // every two distances.
  lemma ExtraBitsGrow(c: nat)
    ensures CPLENS[0] == 3 && CPDIST[0] == 1
    ensures c < 28 ==> EXTRA_LBITS[c] == if c < 8 then 0 else (c - 4) / 4
    ensures c < 30 ==> EXTRA_DBITS[c] == if c < 4 then 0 else (c - 2) / 2
  {
    if c < 14 {
      assert c in {0, 1, 2, 3, 4, 5, 6} || c in {7, 8, 9, 10, 11, 12, 13};
    } else if c < 22 {
      assert c in {14, 15, 16, 17, 18, 19, 20, 21};
    } else if c < 30 {
      assert c in {22, 23, 24, 25, 26, 27, 28, 29};
    }
  }

  // Section 3.2.7: 16 repeats the length before it three to six times, 17 and 18 stand for
  // three to ten and eleven to 138 zeros.
  lemma RunsMean(s: ClSym, last: nat)
    requires ClOK(s)
    ensures var run := Run(s, last);
            if s.sym <= 15 then run == [s.sym]
            else if s.sym == 16 then 3 <= |run| <= 6 && forall i :: 0 <= i < |run| ==> run[i] == last
            else if s.sym == 17 then 3 <= |run| <= 10 && forall i :: 0 <= i < |run| ==> run[i] == 0
            else 11 <= |run| <= 138 && forall i :: 0 <= i < |run| ==> run[i] == 0
  {
    assert Pow2(2) == 4 && Pow2(3) == 8;
    Pow2Add(3, 4);
  }

  // ---- Section 3.2.6: the static codes -------------------------------------------------------

  // The symbols from a to n have the same length and come before.
  lemma {:induction false} BlockBefore(lens: seq<nat>, M: nat, L: nat, s: nat, v: nat, a: nat, n: nat)
    requires LengthsFit(lens, M) && a <= n <= |lens| && 0 < v <= M
    requires forall i :: a <= i < n ==> lens[i] == v && Before(lens, L, s, i)
    ensures StartTo(lens, M, L, s, n) == StartTo(lens, M, L, s, a) + (n - a) * Pow2(M - v)
    decreases n
  {
    hide Pow2;
    if a < n {
      BlockBefore(lens, M, L, s, v, a, n - 1);
      Distribute(n - 1 - a, 1, Pow2(M - v));
    }
  }

  // They come after.
  lemma {:induction false} BlockAfter(lens: seq<nat>, M: nat, L: nat, s: nat, a: nat, n: nat)
    requires LengthsFit(lens, M) && a <= n <= |lens| && forall i :: a <= i < n ==> !Before(lens, L, s, i)
    ensures StartTo(lens, M, L, s, n) == StartTo(lens, M, L, s, a)
    decreases n
  {
    if a < n { BlockAfter(lens, M, L, s, a, n - 1); }
  }

  // The value of a code, as the standard writes it.
  function StaticCode(s: nat): nat
    requires s < 288
  {
    if s <= 143 then 0x30 + s
    else if s <= 255 then 0x190 + (s - 144)
    else if s <= 279 then s - 256
    else 0xc0 + (s - 280)
  }

  // Where the block of a symbol begins.
  lemma StaticStart(lens: seq<nat>, M: nat, s: nat)
    requires lens == FixedLl() && s < 288 && M >= 9
    ensures LengthsFit(lens, M) && BlockStart(lens, M, s) == StaticCode(s) * Pow2(M - lens[s])
  {
    hide Pow2, StartTo, LengthsFit, BlockStart;
    Fits(lens, M);
    Pow2Add(M - 9, 1);
    Pow2Add(M - 9, 2);
    PowersOfExtra();
    var u := Pow2(M - 9);
    if s <= 143 {
      LowEight(lens, M, s);
      Scaled(s, 0, 24, 0, 2, StaticCode(s), u);
    } else if s <= 255 {
      Nine(lens, M, s);
      Scaled(s - 144, 144, 24, 8, 1, StaticCode(s), u);
    } else if s <= 279 {
      Seven(lens, M, s);
    } else {
      HighEight(lens, M, s);
      Scaled(s - 280, 144, 24, 0, 2, StaticCode(s), u);
    }
  }

  // k own codes of v units, n and e codes of eight bits, which are two units, and m of
  // seven, which are four.
  lemma Scaled(k: nat, n: nat, m: nat, e: nat, v: nat, c: nat, u: nat)
    requires c * v == k * v + n * 2 + m * 4 + e * 2
    ensures c * (v * u) == k * (v * u) + n * (2 * u) + m * (4 * u) + e * (2 * u)
  {
    MulAssoc(c, v, u);
    MulAssoc(k, v, u);
    assert (k * v + n * 2 + m * 4 + e * 2) * u == k * v * u + n * 2 * u + m * 4 * u + e * 2 * u;
  }

  lemma LowEight(lens: seq<nat>, M: nat, s: nat)
    requires lens == FixedLl() && s <= 143 && M >= 9 && LengthsFit(lens, M)
    ensures BlockStart(lens, M, s) == s * Pow2(M - 8) + 24 * Pow2(M - 7)
  {
    hide Pow2, StartTo, LengthsFit;
    NothingBefore(lens, M, 8, s);
    BlockBefore(lens, M, 8, s, 8, 0, s);
    BlockAfter(lens, M, 8, s, s, 256);
    BlockBefore(lens, M, 8, s, 7, 256, 280);
    BlockAfter(lens, M, 8, s, 280, 288);
  }

  lemma Nine(lens: seq<nat>, M: nat, s: nat)
    requires lens == FixedLl() && 144 <= s <= 255 && M >= 9 && LengthsFit(lens, M)
    ensures BlockStart(lens, M, s)
         == (s - 144) * Pow2(M - 9) + 144 * Pow2(M - 8) + 24 * Pow2(M - 7) + 8 * Pow2(M - 8)
  {
    hide Pow2, StartTo, LengthsFit;
    NothingBefore(lens, M, 9, s);
    BlockBefore(lens, M, 9, s, 8, 0, 144);
    BlockBefore(lens, M, 9, s, 9, 144, s);
    BlockAfter(lens, M, 9, s, s, 256);
    BlockBefore(lens, M, 9, s, 7, 256, 280);
    BlockBefore(lens, M, 9, s, 8, 280, 288);
  }

  lemma Seven(lens: seq<nat>, M: nat, s: nat)
    requires lens == FixedLl() && 256 <= s <= 279 && M >= 9 && LengthsFit(lens, M)
    ensures BlockStart(lens, M, s) == (s - 256) * Pow2(M - 7)
  {
    hide Pow2, StartTo, LengthsFit;
    NothingBefore(lens, M, 7, s);
    BlockAfter(lens, M, 7, s, 0, 256);
    BlockBefore(lens, M, 7, s, 7, 256, s);
    BlockAfter(lens, M, 7, s, s, 288);
  }

  lemma HighEight(lens: seq<nat>, M: nat, s: nat)
    requires lens == FixedLl() && 280 <= s < 288 && M >= 9 && LengthsFit(lens, M)
    ensures BlockStart(lens, M, s) == (s - 280) * Pow2(M - 8) + 144 * Pow2(M - 8) + 24 * Pow2(M - 7)
  {
    hide Pow2, StartTo, LengthsFit;
    NothingBefore(lens, M, 8, s);
    BlockBefore(lens, M, 8, s, 8, 0, 144);
    BlockAfter(lens, M, 8, s, 144, 256);
    BlockBefore(lens, M, 8, s, 7, 256, 280);
    BlockBefore(lens, M, 8, s, 8, 280, s);
    BlockAfter(lens, M, 8, s, s, 288);
  }

  lemma Fits(lens: seq<nat>, M: nat)
    requires lens == FixedLl() && M >= 9
    ensures LengthsFit(lens, M)
  {
  }

  lemma NothingBefore(lens: seq<nat>, M: nat, L: nat, s: nat)
    requires LengthsFit(lens, M)
    ensures StartTo(lens, M, L, s, 0) == 0
  {
  }

  // The codes of literals and lengths are those of the table of the standard, their first
  // bit first.
  lemma StaticCodes(s: nat)
    requires s < 288
    ensures CodeBits(FixedLl(), s) == BitsOf(Rev(StaticCode(s), FixedLen(s)), FixedLen(s))
  {
    hide Pow2, StartTo, Rev, Shr, BitsOf;
    StaticCodeIn(FixedLl(), MAX_BITS, s);
  }

  lemma StaticCodeIn(lens: seq<nat>, M: nat, s: nat)
    requires lens == FixedLl() && s < 288 && M >= 9
    ensures LengthsFit(lens, M) && Code(lens, M, s) == Rev(StaticCode(s), lens[s])
  {
    hide Pow2, StartTo, Rev, Shr, BlockStart;
    StaticStart(lens, M, s);
    SplitUnique(StaticCode(s) * Pow2(M - lens[s]), M - lens[s], StaticCode(s), 0);
  }

  // Distance codes are their numbers, in five bits.
  lemma StaticDistances(e: nat)
    requires e < D_CODES
    ensures CodeBits(FixedDd(), e) == BitsOf(Rev(e, 5), 5)
  {
    hide Pow2, StartTo, Rev, Shr, BitsOf;
    StaticDistanceIn(FixedDd(), MAX_BITS, e);
  }

  lemma StaticDistanceIn(lens: seq<nat>, M: nat, e: nat)
    requires lens == FixedDd() && e < D_CODES && M >= 5
    ensures LengthsFit(lens, M) && Code(lens, M, e) == Rev(e, 5)
  {
    hide Pow2, StartTo, Rev, Shr;
    NothingBefore(lens, M, 5, e);
    BlockBefore(lens, M, 5, e, 5, 0, e);
    BlockAfter(lens, M, 5, e, e, D_CODES);
    SplitUnique(e * Pow2(M - 5), M - 5, e, 0);
  }

  // ---- A stream ------------------------------------------------------------------------------

  // Two letters, and eight bytes from one byte back.
  function TenLetters(): seq<Block>
  {
    [Fixed([Lit(97), Lit(97), Ref(5, 0, 0, 0)])]
  }

  // 4b 4c 84 01 00 is "aaaaaaaaaa".
  lemma TenLettersAre()
    ensures StreamOK(TenLetters(), []) && StreamOut(TenLetters(), []) == seq(10, _ => 97)
    ensures var bits := StreamBits(0, TenLetters(), []);
            BytesBits([0x4b, 0x4c, 0x84, 0x01, 0x00]) == bits + Padding(|bits|)
  {
    hide BytesBits, BitsOf, Rev, StaticCode, CodeBits, Padding, FixedLen, Expand, AllReach;
    var its := [Lit(97), Lit(97), Ref(5, 0, 0, 0)];
    LettersExpand();
    LetterBlock(its);
    FiveBytes();
  }

  lemma LettersExpand()
    ensures var ts := [Literal(97), Literal(97), Match(8, 1)]; AllReach(ts, 0) && Expand([], ts) == seq(10, _ => 97)
  {
    var ts, a := [Literal(97), Literal(97), Match(8, 1)], [97 as Byte];
    assert ts[1..] == [Literal(97), Match(8, 1)] && ts[1..][1..] == [Match(8, 1)] && [Match(8, 1)][1..] == [];
    var two := a + a;
    assert [] + a == a;
    CopyUnique(two, 1, 8, seq(10, _ => 97));
  }

  // The bits of the block, piece by piece.
  lemma LetterBlock(its: seq<Item>)
    requires its == [Lit(97), Lit(97), Ref(5, 0, 0, 0)]
    ensures BlockOK(Fixed(its)) && TokensOf(its) == [Literal(97), Literal(97), Match(8, 1)]
    ensures BlockBits(0, true, Fixed(its))
         == BitsOf(3, 3)
         + (BitsOf(Rev(145, 8), 8) + (BitsOf(Rev(145, 8), 8) + (BitsOf(Rev(6, 7), 7) + BitsOf(Rev(0, 5), 5)))
                            + BitsOf(Rev(0, 7), 7))
  {
    hide BitsOf, Rev, CodeBits;
    StaticCodes(97);
    StaticCodes(262);
    StaticCodes(256);
    StaticDistances(0);
    var ll, dd := FixedLl(), FixedDd();
    var x := Ref(5, 0, 0, 0);
    assert its[1..] == [Lit(97), x] && its[1..][1..] == [x] && [x][1..] == [];
    NoBits();
    assert ItemBits(ll, dd, x) == BitsOf(Rev(6, 7), 7) + BitsOf(Rev(0, 5), 5);
    assert ItemsBits(ll, dd, [x]) == ItemBits(ll, dd, x);
    assert ItemsBits(ll, dd, its[1..]) == ItemBits(ll, dd, Lit(97)) + ItemsBits(ll, dd, [x]);
    assert ItemsBits(ll, dd, its) == ItemBits(ll, dd, Lit(97)) + ItemsBits(ll, dd, its[1..]);
    assert BodyBits(3, Fixed(its)) == ItemsBits(ll, dd, its) + CodeBits(ll, END_BLOCK);
  }

  lemma NoBits()
    ensures forall v: nat :: BitsOf(v, 0) == []
  {
  }

  lemma FiveBytes()
    ensures var body := BitsOf(3, 3) + (BitsOf(Rev(145, 8), 8) + (BitsOf(Rev(145, 8), 8)
                        + (BitsOf(Rev(6, 7), 7) + BitsOf(Rev(0, 5), 5))) + BitsOf(Rev(0, 7), 7));
            BytesBits([0x4b, 0x4c, 0x84, 0x01, 0x00]) == body + Padding(|body|)
  {
    hide BytesBits, BitsOf, Rev;
    JoinFive(0x4b, 0x4c, 0x84, 0x01, 0x00);
    Backwards();
    Bits4();
    Bits8();
    BitsFew();
    BitsZero();
  }

  lemma JoinFive(a: Byte, b: Byte, c: Byte, d: Byte, e: Byte)
    ensures BytesBits([a, b, c, d, e]) == BitsOf(a, 8) + BitsOf(b, 8) + BitsOf(c, 8) + BitsOf(d, 8) + BitsOf(e, 8)
  {
    hide BytesBits, BitsOf;
    BytesJoin([a], [b]);
    BytesJoin([a] + [b], [c]);
    BytesJoin([a] + [b] + [c], [d]);
    BytesJoin([a] + [b] + [c] + [d], [e]);
    assert [a] + [b] + [c] + [d] + [e] == [a, b, c, d, e];
    OneByte(a);
    OneByte(b);
    OneByte(c);
    OneByte(d);
    OneByte(e);
  }

  lemma Backwards()
    ensures Rev(145, 8) == 137 && Rev(6, 7) == 48 && Rev(0, 5) == 0 && Rev(0, 7) == 0
  {
    PowersOfExtra();
  }

  lemma Bit(v: nat, n: nat)
    requires n > 0
    ensures BitsOf(v, n) == [v % 2 == 1] + BitsOf(v / 2, n - 1)
  {
  }

  lemma FourBits(v: nat, n: nat)
    requires n >= 4
    ensures var a, b, c := v / 2, v / 2 / 2, v / 2 / 2 / 2;
            BitsOf(v, n) == [v % 2 == 1, a % 2 == 1, b % 2 == 1, c % 2 == 1] + BitsOf(c / 2, n - 4)
  {
    hide BitsOf;
    Bit(v, n);
    Bit(v / 2, n - 1);
    Bit(v / 2 / 2, n - 2);
    Bit(v / 2 / 2 / 2, n - 3);
  }

  lemma Bits4()
    ensures BitsOf(0x4b, 8) == [true, true, false, true, false, false, true, false]
    ensures BitsOf(0x4c, 8) == [false, false, true, true, false, false, true, false]
  {
    hide BitsOf;
    NoBits();
    FourBits(0x4b, 8);
    FourBits(4, 4);
    FourBits(0x4c, 8);
  }

  lemma Bits8()
    ensures BitsOf(0x84, 8) == [false, false, true, false, false, false, false, true]
    ensures BitsOf(137, 8) == [true, false, false, true, false, false, false, true]
  {
    hide BitsOf;
    NoBits();
    FourBits(0x84, 8);
    FourBits(8, 4);
    FourBits(137, 8);
  }

  lemma BitsFew()
    ensures BitsOf(0x01, 8) == [true, false, false, false, false, false, false, false]
    ensures BitsOf(3, 3) == [true, true, false] && BitsOf(48, 7) == [false, false, false, false, true, true, false]
  {
    hide BitsOf;
    NoBits();
    FourBits(0x01, 8);
    FourBits(0, 4);
    FourBits(48, 7);
    Bit(3, 3);
    Bit(1, 2);
    Bit(0, 1);
  }

  lemma BitsZero()
    ensures BitsOf(0x00, 8) == [false, false, false, false, false, false, false, false]
    ensures BitsOf(0, 5) == [false, false, false, false, false] && BitsOf(0, 2) == [false, false]
    ensures BitsOf(0, 7) == [false, false, false, false, false, false, false]
  {
    hide BitsOf;
    NoBits();
    FourBits(0, 8);
    FourBits(0, 7);
    FourBits(0, 5);
    FourBits(0, 4);
    Bit(0, 3);
    Bit(0, 2);
    Bit(0, 1);
  }
}
