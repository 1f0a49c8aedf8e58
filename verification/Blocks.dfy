// The blocks of a deflate stream as bits (RFC 1951, sections 3.2.3 to 3.2.7) and
// the output they stand for.
module Blocks {
  import opened Powers
  import opened Canonical
  import opened TreeCodes
  import opened Bits
  import opened CodeLengths
  import opened Lz77
  import opened BlockFormat

  const STORED_BLOCK: nat := 0
  const STATIC_TREES: nat := 1
  const DYN_TREES: nat := 2

  // The order in which the lengths of the code length codes are sent.
  const BL_ORDER: seq<nat> := [16, 17, 18, 0, 8, 7, 9, 6, 10, 5, 11, 4, 12, 3, 13, 2, 14, 1, 15]

  function BlOrder(r: nat): (i: nat)
    requires r < BL_CODES
    ensures i < BL_CODES
  {
    BL_ORDER[r]
  }

  function FromEight(i: nat): nat
  {
    if i < 8 then 8 - i else i - 8
  }

  // First the repetitions and zero, then the lengths by their distance from eight, of two
  // with the same the smaller first; all of them once.
  lemma OrderIs()
    ensures BL_ORDER[..4] == [16, 17, 18, 0] && |BL_ORDER| == BL_CODES
    ensures forall r :: 4 <= r < BL_CODES ==> 1 <= BL_ORDER[r] <= 15
    ensures forall r, q :: 4 <= r < q < BL_CODES ==>
              FromEight(BL_ORDER[r]) < FromEight(BL_ORDER[q])
              || (FromEight(BL_ORDER[r]) == FromEight(BL_ORDER[q]) && BL_ORDER[r] < BL_ORDER[q])
  {
    forall r | 4 <= r < BL_CODES ensures BL_ORDER[r] == Place(r) { PlaceIs(r); }
  }

  // What stands at a rank.
  function Place(r: nat): nat
    requires 4 <= r < BL_CODES
  {
    if r % 2 == 0 then 8 + (r - 4) / 2 else 8 - (r - 3) / 2
  }

  lemma PlaceIs(r: nat)
    requires 4 <= r < BL_CODES
    ensures BL_ORDER[r] == Place(r)
  {
    assert r in {4, 5, 6, 7, 8, 9, 10, 11} || r in {12, 13, 14, 15, 16, 17, 18};
  }

  datatype Block =
    | Stored(data: seq<Byte>)
    | Fixed(its: seq<Item>)
    | Dynamic(ll: seq<nat>, dd: seq<nat>, bl: seq<nat>, blcodes: nat, its: seq<Item>)

  // The lengths of the static trees.
  function FixedLen(s: nat): nat
  {
    if s <= 143 then 8 else if s <= 255 then 9 else if s <= 279 then 7 else 8
  }

  function FixedLl(): (l: seq<nat>)
    ensures |l| == 288
  {
    seq(288, s requires 0 <= s => FixedLen(s))
  }

  function FixedDd(): (l: seq<nat>)
    ensures |l| == D_CODES
  {
    seq(D_CODES, s => 5)
  }

  // ---- The header of a dynamic block ---------------------------------------------------

  // Code length symbols under the code with the lengths bl.
  function ClBits(bl: seq<nat>, ss: seq<ClSym>): seq<bool>
  {
    if ss == [] then [] else CodeBits(bl, ss[0].sym) + BitsOf(ss[0].extra, ExtraBits(ss[0].sym)) + ClBits(bl, ss[1..])
  }

  // The lengths of bl from rank r to rank k of the order.
  function OrderBits(bl: seq<nat>, r: nat, k: nat): seq<bool>
    requires k <= BL_CODES && |bl| == BL_CODES
    decreases k - r
  {
    if r >= k then [] else BitsOf(bl[BlOrder(r)], 3) + OrderBits(bl, r + 1, k)
  }

  function HeaderSyms(ll: seq<nat>, dd: seq<nat>): seq<ClSym>
  {
    AllSymbols(ll) + AllSymbols(dd)
  }

  function CountBits(ll: seq<nat>, dd: seq<nat>, blcodes: nat): seq<bool>
    requires |ll| >= 257 && |dd| >= 1 && blcodes >= 4
  {
    BitsOf(|ll| - 257, 5) + BitsOf(|dd| - 1, 5) + BitsOf(blcodes - 4, 4)
  }

  predicate FullCode(lens: seq<nat>)
  {
    LengthsFit(lens, MAX_BITS) && Kraft(lens, MAX_BITS) == Pow2(MAX_BITS)
  }

  // The code for code lengths, with the tail that is not sent.
  predicate ClCodeOK(bl: seq<nat>, blcodes: nat)
  {
    |bl| == BL_CODES && FullCode(bl) && (forall i :: 0 <= i < |bl| ==> bl[i] <= 7)
    && 4 <= blcodes <= BL_CODES && forall r :: blcodes <= r < BL_CODES ==> bl[BlOrder(r)] == 0
  }

  predicate AllHaveCodes(bl: seq<nat>, ss: seq<ClSym>)
  {
    forall i :: 0 <= i < |ss| ==> HasCode(bl, ss[i].sym)
  }

  predicate HeaderOK(ll: seq<nat>, dd: seq<nat>, bl: seq<nat>, blcodes: nat)
  {
    257 <= |ll| <= L_CODES && 1 <= |dd| <= D_CODES && FullCode(ll) && FullCode(dd)
    && ClCodeOK(bl, blcodes) && AllHaveCodes(bl, HeaderSyms(ll, dd))
  }

  function HeaderBits(ll: seq<nat>, dd: seq<nat>, bl: seq<nat>, blcodes: nat): seq<bool>
    requires HeaderOK(ll, dd, bl, blcodes)
  {
    CountBits(ll, dd, blcodes) + OrderBits(bl, 0, blcodes) + ClBits(bl, HeaderSyms(ll, dd))
  }

  // ---- Blocks and streams ----------------------------------------------------------

  predicate BlockOK(blk: Block)
  {
    match blk
    case Stored(data) => |data| < 65536
    case Fixed(its) => AllCoded(FixedLl(), FixedDd(), its)
    case Dynamic(ll, dd, bl, blcodes, its) =>
      HeaderOK(ll, dd, bl, blcodes) && AllCoded(ll, dd, its)
      && HasCode(ll, END_BLOCK)
  }

  function BlockType(blk: Block): nat
  {
    match blk
    case Stored(_) => STORED_BLOCK
    case Fixed(_) => STATIC_TREES
    case Dynamic(_, _, _, _, _) => DYN_TREES
  }

  // The last-block bit and the type.
  function TypeBits(last: bool, t: nat): nat
  {
    2 * t + if last then 1 else 0
  }

  // Zero bits up to the next byte boundary.
  function Padding(pos: nat): (s: seq<bool>)
    ensures |s| < 8 && (pos + |s|) % 8 == 0
  {
    BitsOf(0, (8 - pos % 8) % 8)
  }

  function BodyBits(pos: nat, blk: Block): seq<bool>
    requires BlockOK(blk)
  {
    match blk
    case Stored(data) => Padding(pos) + (BitsOf(|data|, 16) + BitsOf(65535 - |data|, 16) + BytesBits(data))
    case Fixed(its) => ItemsBits(FixedLl(), FixedDd(), its) + CodeBits(FixedLl(), END_BLOCK)
    case Dynamic(ll, dd, bl, blcodes, its) =>
      HeaderBits(ll, dd, bl, blcodes) + (ItemsBits(ll, dd, its) + CodeBits(ll, END_BLOCK))
  }

  // The bits of a block that starts at bit pos of the stream.
  function BlockBits(pos: nat, last: bool, blk: Block): seq<bool>
    requires BlockOK(blk)
  {
    BitsOf(TypeBits(last, BlockType(blk)), 3) + BodyBits(pos + 3, blk)
  }

  // The blocks make sense after h bytes of output.
  predicate BlockReaches(blk: Block, h: nat)
    requires BlockOK(blk)
  {
    match blk
    case Stored(_) => true
    case Fixed(its) => AllReach(TokensOf(its), h)
    case Dynamic(_, _, _, _, its) => AllReach(TokensOf(its), h)
  }

  function After(h: seq<Byte>, blk: Block): seq<Byte>
    requires BlockOK(blk) && BlockReaches(blk, |h|)
  {
    match blk
    case Stored(data) => h + data
    case Fixed(its) => Expand(h, TokensOf(its))
    case Dynamic(_, _, _, _, its) => Expand(h, TokensOf(its))
  }

  // A stream: blocks of which the last one, and no other, is marked.
  predicate StreamOK(blks: seq<Block>, h: seq<Byte>)
    decreases |blks|
  {
    blks != [] && BlockOK(blks[0]) && BlockReaches(blks[0], |h|)
    && (|blks| > 1 ==> StreamOK(blks[1..], After(h, blks[0])))
  }

  function StreamBits(pos: nat, blks: seq<Block>, h: seq<Byte>): seq<bool>
    requires StreamOK(blks, h)
    decreases |blks|
  {
    var first := BlockBits(pos, |blks| == 1, blks[0]);
    if |blks| == 1 then first else first + StreamBits(pos + |first|, blks[1..], After(h, blks[0]))
  }

  function StreamOut(blks: seq<Block>, h: seq<Byte>): seq<Byte>
    requires StreamOK(blks, h)
    decreases |blks|
  {
    if |blks| == 1 then After(h, blks[0]) else StreamOut(blks[1..], After(h, blks[0]))
  }

  // ---- The static trees ------------------------------------------------------------

  lemma {:induction false} FixedRun(lens: seq<nat>, M: nat, L: nat, v: nat, a: nat, n: nat)
    requires LengthsFit(lens, M) && a <= n <= |lens| && 0 < v < L && v <= M && forall i :: a <= i < n ==> lens[i] == v
    ensures n >= a && StartTo(lens, M, L, 0, n) == StartTo(lens, M, L, 0, a) + (n - a) * Pow2(M - v)
    decreases n
  {
    if a < n {
      FixedRun(lens, M, L, v, a, n - 1);
      Distribute(n - 1 - a, 1, Pow2(M - v));
    }
  }

  // The static literal code is complete, the static distance code is not.
  lemma FixedKraft()
    ensures FullCode(FixedLl()) && LengthsFit(FixedDd(), MAX_BITS)
    ensures Kraft(FixedDd(), MAX_BITS) == 30 * Pow2(10)
  {
    FixedKraftIn(FixedLl(), FixedDd(), MAX_BITS);
  }

  lemma FixedKraftIn(ll: seq<nat>, dd: seq<nat>, M: nat)
    requires ll == FixedLl() && dd == FixedDd() && M >= 9
    ensures LengthsFit(ll, M) && Kraft(ll, M) == Pow2(M)
    ensures LengthsFit(dd, M) && Kraft(dd, M) == 30 * Pow2(M - 5)
  {
    hide Pow2;
    FixedRun(ll, M, M + 1, 8, 0, 144);
    FixedRun(ll, M, M + 1, 9, 144, 256);
    FixedRun(ll, M, M + 1, 7, 256, 280);
    FixedRun(ll, M, M + 1, 8, 280, 288);
    FixedRun(dd, M, M + 1, 5, 0, 30);
    Pow2Add(M - 9, 1);
    Pow2Add(M - 9, 2);
    Pow2Add(M - 9, 9);
    PowersOfExtra();
  }
}
