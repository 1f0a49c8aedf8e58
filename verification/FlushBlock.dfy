// flush_block (trees.c): the trees of a block are built, the kind of block is
// chosen, and the block is sent.
module FlushBlock {
  import opened Powers
  import opened Canonical
  import opened TreeCodes
  import opened Bits
  import opened CodeLengths
  import opened Lz77
  import opened BlockFormat
  import opened Blocks
  import opened CtInit
  import opened Tally
  import opened HuffTheory
  import opened HuffGrow
  import opened HuffLengths
  import opened BuildTree
  import opened BlockCost

  // ---- What build_tree gives -----------------------------------------------------------

  // All symbols with a frequency have canonical codes of a complete code; the
  // others have no length.
  ghost predicate TreeReady(tree: seq<CtData>, maxCode: int, elems: nat, f: seq<nat>)
  {
    |f| == elems <= |tree| && 0 <= maxCode < elems
    && FullCode(Lens(tree, maxCode + 1)) && TreeCoded(tree, Lens(tree, maxCode + 1))
    && (forall c :: 0 <= c < elems && f[c] > 0 ==> c <= maxCode && tree[c].dl > 0)
    && forall c :: maxCode < c < elems ==> tree[c].dl == 0
  }

  ghost predicate HasFreqs(tree: seq<CtData>, f: seq<nat>)
  {
    |f| <= |tree| && forall i :: 0 <= i < |f| ==> tree[i].fc == f[i]
  }

  lemma FreqsSum(t: seq<CtData>, elems: nat, f: seq<nat>)
    requires HasFreqs(t, f) && |f| == elems
    ensures SumOn(Used(t, elems), Freqs(t)) == Sum(f)
  {
    hide Sum, SumOn;
    UsedSum(t, elems, Freqs(t), f);
  }

  lemma BuiltReady(t0: seq<CtData>, t1: seq<CtData>, desc: TreeDesc, f: seq<nat>, G: set<nat>, maxCode: int)
    requires DescOK(desc) && |f| == desc.elems && HasFreqs(t0, f) && |t0| == |t1|
    requires Coded(Used(t0, desc.elems) + G, t1, desc, maxCode)
    requires forall c :: 0 <= c < desc.elems && c !in Used(t0, desc.elems) + G ==> t1[c].dl == 0
    ensures TreeReady(t1, maxCode, desc.elems, f)
    ensures forall c :: 0 <= c <= maxCode ==> t1[c].dl <= desc.maxLength
  {
    hide StartTo, Pow2, Code;
    var U := Used(t0, desc.elems) + G;
    assert forall c :: 0 <= c < desc.elems && f[c] > 0 ==> c in U;
    forall c | 0 <= c <= maxCode ensures t1[c].dl <= desc.maxLength {
      if c !in U { assert t1[c].dl == 0; }
    }
  }

  // The bits that build_tree added are those of all symbols.
  lemma BuiltCost(t0: seq<CtData>, t1: seq<CtData>, desc: TreeDesc, f: seq<nat>, maxCode: int)
    requires DescOK(desc) && |f| == desc.elems && HasFreqs(t0, f) && |t0| == |t1|
             && TreeReady(t1, maxCode, desc.elems, f)
    ensures SumOn(Used(t0, desc.elems), LeafCosts(Freqs(t0), Lengths(t1), desc))
            == Total(f, Prices(Lens(t1, maxCode + 1), desc))
  {
    hide Sum, SumOn, StartTo, Pow2, Code, FullCode, TreeCoded;
    var c := Prices(Lens(t1, maxCode + 1), desc);
    var g := LeafCosts(Freqs(t0), Lengths(t1), desc);
    forall i | 0 <= i < desc.elems ensures Priced(f, c)[i] == if t0[i].fc != 0 then g[i] else 0 {
      PricedAt(t0, t1, desc, f, maxCode, i);
    }
    UsedSum(t0, desc.elems, g, Priced(f, c));
  }

  function StaticTotal(f: seq<nat>, desc: TreeDesc): nat
    requires DescOK(desc) && |f| == desc.elems
  {
    if desc.stree != [] then Total(f, Prices(desc.stree, desc)) else 0
  }

  lemma BuiltStatic(t0: seq<CtData>, desc: TreeDesc, f: seq<nat>)
    requires DescOK(desc) && |f| == desc.elems && HasFreqs(t0, f)
    ensures SumOn(Used(t0, desc.elems), StaticCosts(Freqs(t0), desc)) == StaticTotal(f, desc)
  {
    hide Sum, XBits;
    var g := StaticCosts(Freqs(t0), desc);
    if desc.stree != [] {
      var c := Prices(desc.stree, desc);
      forall i | 0 <= i < desc.elems ensures Priced(f, c)[i] == if t0[i].fc != 0 then g[i] else 0 {
        assert t0[i].fc == f[i];
      }
      UsedSum(t0, desc.elems, g, Priced(f, c));
    } else {
      SumZeros(Masked(Used(t0, desc.elems), g));
    }
  }

  lemma PricedAt(t0: seq<CtData>, t1: seq<CtData>, desc: TreeDesc, f: seq<nat>, maxCode: int, i: nat)
    requires DescOK(desc) && |f| == desc.elems && HasFreqs(t0, f) && |t0| == |t1|
             && TreeReady(t1, maxCode, desc.elems, f)
    requires i < desc.elems
    ensures Priced(f, Prices(Lens(t1, maxCode + 1), desc))[i]
         == if t0[i].fc != 0 then LeafCosts(Freqs(t0), Lengths(t1), desc)[i] else 0
  {
    hide StartTo, Pow2, Code, FullCode, TreeCoded, XBits;
    assert t0[i].fc == f[i];
  }

  // build_tree for known frequencies.
  method BuildFor(trees: Trees, tree: array<CtData>, desc: TreeDesc, ghost f: seq<nat>) returns (maxCode: int)
    requires trees.Valid() && DescOK(desc) && SmallCodesPlain(desc) && desc.elems <= Pow2(desc.maxLength)
    requires 2 * desc.elems <= tree.Length + 1 <= HEAP_SIZE + 1 && 2 * desc.elems < HEAP_SIZE
    requires |f| == desc.elems && HasFreqs(tree[..], f) && Sum(f) < 65534
    modifies trees, tree, trees.heap, trees.depth, trees.blCount
    ensures TreeReady(tree[..], maxCode, desc.elems, f)
            && forall c :: 0 <= c <= maxCode ==> tree[c].dl <= desc.maxLength
    ensures trees.optLen == old(trees.optLen) + Total(f, Prices(Lens(tree[..], maxCode + 1), desc))
    ensures trees.staticLen == old(trees.staticLen) + StaticTotal(f, desc)
  {
    hide Sum, SumOn, Used, StartTo, Pow2, Code, Coded, TreeReady, Optimal, LeafCosts, StaticCosts, Total, Prices,
      ForcedCodes, StaticTotal, HasFreqs, SmallCodesPlain;
    ghost var t0 := tree[..];
    FreqsSum(t0, desc.elems, f);
    var overflow;
    ghost var G;
    maxCode, overflow, G := trees.Build(tree, desc);
    BuiltReady(t0, tree[..], desc, f, G, maxCode);
    ReadyBounds(tree[..], maxCode, desc.elems, f);
    BuiltCost(t0, tree[..], desc, f, maxCode);
    BuiltStatic(t0, desc, f);
  }

  lemma ReadyBounds(tree: seq<CtData>, maxCode: int, elems: nat, f: seq<nat>)
    requires TreeReady(tree, maxCode, elems, f)
    ensures 0 <= maxCode < elems <= |tree|
  {
  }

  // ---- Lengths with zeros at the end --------------------------------------------------

  predicate ZeroExtended(a: seq<nat>, b: seq<nat>)
  {
    |a| <= |b| && b[..|a|] == a && forall i :: |a| <= i < |b| ==> b[i] == 0
  }

  lemma {:induction false} PadStart(a: seq<nat>, b: seq<nat>, M: nat, L: nat, s: nat, n: nat)
    requires ZeroExtended(a, b) && LengthsFit(a, M) && LengthsFit(b, M) && n <= |b|
    ensures StartTo(b, M, L, s, n) == StartTo(a, M, L, s, if n <= |a| then n else |a|)
  {
    if n > 0 {
      PadStart(a, b, M, L, s, n - 1);
      if n <= |a| { assert b[n - 1] == b[..|a|][n - 1] == a[n - 1]; }
    }
  }

  lemma PadCodes(a: seq<nat>, b: seq<nat>, M: nat)
    requires ZeroExtended(a, b) && LengthsFit(a, M) && M == MAX_BITS
    ensures LengthsFit(b, M) && Kraft(b, M) == Kraft(a, M)
    ensures forall s :: 0 <= s < |a| ==> Code(b, M, s) == Code(a, M, s) && b[s] == a[s]
  {
    hide StartTo, Pow2, Low, Shr, Rev;
    forall i | 0 <= i < |b| ensures b[i] <= M {
      if i < |a| { assert b[i] == b[..|a|][i] == a[i]; }
    }
    PadStart(a, b, M, M + 1, 0, |b|);
    forall s | 0 <= s < |a| ensures Code(b, M, s) == Code(a, M, s) && b[s] == a[s] {
      assert b[s] == b[..|a|][s] == a[s];
      PadStart(a, b, M, a[s], s, |b|);
    }
  }

  // All lengths of the tree, also those beyond the last used symbol.
  lemma ReadyExtended(tree: seq<CtData>, maxCode: int, elems: nat, f: seq<nat>)
    requires TreeReady(tree, maxCode, elems, f)
    ensures FullCode(Lens(tree, elems)) && TreeCoded(tree, Lens(tree, elems))
  {
    hide StartTo, Pow2, Code;
    var a, b := Lens(tree, maxCode + 1), Lens(tree, elems);
    assert b[..|a|] == a;
    PadCodes(a, b, MAX_BITS);
  }

  // ---- The header of a dynamic block ---------------------------------------------------

  // The symbols of the two trees and their frequencies.
  lemma HeaderFreqs(ll: seq<nat>, dd: seq<nat>)
    requires ShortLens(ll) && ShortLens(dd) && |ll| <= L_CODES && |dd| <= D_CODES
    ensures Sum(ClFreqs(HeaderSyms(ll, dd))) < 65534
    ensures forall i :: 0 <= i < BL_CODES ==> ClFreqs(HeaderSyms(ll, dd))[i]
                                              == Times(AllSymbols(ll), i) + Times(AllSymbols(dd), i)
    ensures forall i :: 0 <= i < |HeaderSyms(ll, dd)| ==>
      ClOK(HeaderSyms(ll, dd)[i]) && ClFreqs(HeaderSyms(ll, dd))[HeaderSyms(ll, dd)[i].sym] >= 1
  {
    hide Sum, ClFreqs, Times, AllSymbols;
    var ss := HeaderSyms(ll, dd);
    TwoTrees(ll, dd);
    SymbolsShort(ss, 0);
    SymFreqs(ss);
    forall i | 0 <= i < BL_CODES ensures ClFreqs(ss)[i] == Times(AllSymbols(ll), i) + Times(AllSymbols(dd), i) {
      ClFreqsAre(ss, i);
      TimesJoin(AllSymbols(ll), AllSymbols(dd), i);
    }
  }

  lemma TalliedFreqs(t0: seq<CtData>, ll: seq<nat>, dd: seq<nat>, t2: seq<CtData>)
    requires |t0| >= BL_CODES && HasFreqs(t0, Zeros(BL_CODES))
    requires ShortLens(ll) && ShortLens(dd) && |ll| <= L_CODES && |dd| <= D_CODES
    requires t2 == Tallied(Tallied(t0, AllSymbols(ll)), AllSymbols(dd))
    ensures HasFreqs(t2, ClFreqs(HeaderSyms(ll, dd))) && Sum(ClFreqs(HeaderSyms(ll, dd))) < 65534
  {
    hide Sum, ClFreqs, Times, AllSymbols, HeaderSyms;
    HeaderFreqs(ll, dd);
  }

  // The length of the first counts, and of the lengths sent before blcodes.
  lemma HeaderLength(ll: seq<nat>, dd: seq<nat>, bl: seq<nat>, blcodes: nat)
    requires HeaderOK(ll, dd, bl, blcodes) && ShortLens(ll) && ShortLens(dd)
    ensures |HeaderBits(ll, dd, bl, blcodes)| == 14 + 3 * blcodes + Total(ClFreqs(HeaderSyms(ll, dd)), ClPrices(bl))
  {
    hide Total, ClFreqs, ClPrices, BitsOf, AllSymbols, ClBits, HeaderSyms;
    OrderLength(bl, 0, blcodes);
    HeaderFreqs(ll, dd);
    ClLength(bl, HeaderSyms(ll, dd));
  }

  lemma {:induction false} OrderLength(bl: seq<nat>, r: nat, k: nat)
    requires r <= k <= BL_CODES && |bl| == BL_CODES
    ensures |OrderBits(bl, r, k)| == 3 * (k - r)
    decreases k - r
  {
    hide BlOrder, BitsOf;
    if r < k { OrderLength(bl, r + 1, k); }
  }

  // Symbols sent with the codes of the tree are symbols under its lengths.
  lemma {:induction false} SymsAreCl(tree: seq<CtData>, bl: seq<nat>, ss: seq<ClSym>)
    requires |bl| == BL_CODES <= |tree| && TreeCoded(tree, bl) && AllHaveCodes(bl, ss)
    ensures SymsBits(tree, ss) == ClBits(bl, ss)
  {
    hide StartTo, Code, BitsOf, ExtraBits, CodeBits;
    if ss != [] {
      var a, s := ss[..|ss| - 1], ss[|ss| - 1];
      SymsAreCl(tree, bl, a);
      assert ss == a + [s];
      ClBitsPush(bl, a, s);
      CodeReady(tree, bl, s.sym);
    }
  }

  lemma SymsHaveCodes(tree: seq<CtData>, maxCode: int, ss: seq<ClSym>, f: seq<nat>)
    requires TreeReady(tree, maxCode, BL_CODES, f) && f == ClFreqs(ss)
    requires forall i :: 0 <= i < |ss| ==> ClOK(ss[i]) && f[ss[i].sym] >= 1
    ensures AllHaveCodes(Lens(tree, BL_CODES), ss) && HaveCodes(tree, ss)
  {
    hide StartTo, Code, Pow2, ExtraBits, ClFreqs;
    var bl := Lens(tree, BL_CODES);
    ReadyExtended(tree, maxCode, BL_CODES, f);
    forall i | 0 <= i < |ss|
      ensures HasCode(bl, ss[i].sym) && 1 <= tree[ss[i].sym].dl <= 16 && tree[ss[i].sym].fc < Pow2(tree[ss[i].sym].dl)
    {
      var c := ss[i].sym;
      assert f[c] > 0 && tree[c].dl > 0 && bl[c] == tree[c].dl;
      CodeReady(tree, bl, c);
    }
  }

  // ---- build_bl_tree and send_all_trees ------------------------------------------------

  // A tree with its guard behind the last used symbol.
  ghost predicate Guarded(tree: seq<CtData>, lens: seq<nat>)
  {
    0 < |lens| < |tree| && Lens(tree, |lens|) == lens && tree[|lens|].dl == GUARD && FullCode(lens)
      && TreeCoded(tree, lens)
  }

  lemma GuardKeeps(t0: seq<CtData>, t1: seq<CtData>, lens: seq<nat>)
    requires 0 < |lens| < |t0| && Lens(t0, |lens|) == lens && FullCode(lens) && TreeCoded(t0, lens)
    requires t1 == t0[|lens| := t0[|lens|].(dl := GUARD)]
    ensures Guarded(t1, lens)
  {
    hide StartTo, Code, Pow2;
    assert Lens(t1, |lens|) == lens;
  }

  // The rank of the last code length that is sent; at least four are.
  method LastRank(blTree: array<CtData>, ghost bl: seq<nat>) returns (maxBlindex: nat)
    requires blTree.Length >= BL_CODES && bl == Lens(blTree[..], BL_CODES)
    ensures 3 <= maxBlindex < BL_CODES && forall r :: maxBlindex + 1 <= r < BL_CODES ==> bl[BlOrder(r)] == 0
  {
    hide BlOrder;
    maxBlindex := BL_CODES - 1;
    while maxBlindex >= 4
      invariant 3 <= maxBlindex < BL_CODES && forall r :: maxBlindex + 1 <= r < BL_CODES ==> bl[BlOrder(r)] == 0
    {
      if blTree[BlOrder(maxBlindex)].dl != 0 { break; }
      maxBlindex := maxBlindex - 1;
    }
  }

  lemma BlDescFits()
    ensures DescOK(BlDesc()) && SmallCodesPlain(BlDesc()) && BlDesc().elems <= Pow2(BlDesc().maxLength)
  {
    hide Pow2;
    PowersOfExtra();
  }

  method BuildBlTree(trees: Trees, ltree: array<CtData>, dtree: array<CtData>, blTree: array<CtData>, lMax: nat,
      dMax: nat,
                     ghost ll: seq<nat>, ghost dd: seq<nat>) returns (maxBlindex: nat)
    requires trees.Valid() && blTree.Length == 39 && ltree != dtree && ltree != blTree && dtree != blTree
    requires lMax + 1 < ltree.Length && lMax < L_CODES && ll == Lens(ltree[..], lMax + 1) && FullCode(ll)
             && TreeCoded(ltree[..], ll)
    requires dMax + 1 < dtree.Length && dMax < D_CODES && dd == Lens(dtree[..], dMax + 1) && FullCode(dd)
             && TreeCoded(dtree[..], dd)
    requires HasFreqs(blTree[..], Zeros(BL_CODES))
    modifies trees, trees.heap, trees.depth, trees.blCount, ltree, dtree, blTree
    ensures Guarded(ltree[..], ll) && Guarded(dtree[..], dd)
    ensures var bl := Lens(blTree[..], BL_CODES);
            ClCodeOK(bl, maxBlindex + 1) && TreeCoded(blTree[..], bl) && AllHaveCodes(bl, HeaderSyms(ll, dd))
            && HaveCodes(blTree[..], HeaderSyms(ll, dd))
            && trees.optLen == old(trees.optLen) + 14 + 3 * (maxBlindex + 1)
            + Total(ClFreqs(HeaderSyms(ll, dd)), ClPrices(bl))
    ensures trees.staticLen == old(trees.staticLen)
  {
    hide Sum, StartTo, Pow2, Code, TreeReady, TreeCoded, Guarded, HasFreqs, Total, ClFreqs, AllSymbols, HeaderSyms,
      Tallied, SmallCodesPlain, HaveCodes, AllHaveCodes, ClOK, BlOrder, Prices;
    ghost var t0, l0, d0, ss := blTree[..], ltree[..], dtree[..], HeaderSyms(ll, dd);
    ShortOf(ll);
    ShortOf(dd);
    ScanTree(ltree, lMax, blTree);
    GuardKeeps(l0, ltree[..], ll);
    ScanTree(dtree, dMax, blTree);
    GuardKeeps(d0, dtree[..], dd);
    TalliedFreqs(t0, ll, dd, blTree[..]);
    BlDescFits();
    ghost var f := ClFreqs(ss);
    var maxCode := BuildFor(trees, blTree, BlDesc(), f);
    ReadyBounds(blTree[..], maxCode, BL_CODES, f);
    ghost var bl := Lens(blTree[..], BL_CODES);
    HeaderFreqs(ll, dd);
    ReadyExtended(blTree[..], maxCode, BL_CODES, f);
    SymsHaveCodes(blTree[..], maxCode, ss, f);
    assert forall c :: 0 <= c <= maxCode ==> blTree[..][c].dl <= 7;
    ReadyLens(blTree[..], maxCode, BL_CODES, f, BlDesc());
    maxBlindex := LastRank(blTree, bl);
    trees.optLen := trees.optLen + 3 * (maxBlindex + 1) + 5 + 5 + 4;
  }

  lemma ShortOf(lens: seq<nat>)
    requires FullCode(lens)
    ensures ShortLens(lens)
  {
  }

  lemma ReadyLens(tree: seq<CtData>, maxCode: int, elems: nat, f: seq<nat>, desc: TreeDesc)
    requires DescOK(desc) && elems == desc.elems && TreeReady(tree, maxCode, elems, f)
    requires forall c :: 0 <= c <= maxCode ==> tree[c].dl <= desc.maxLength
    ensures Prices(Lens(tree, maxCode + 1), desc) == Prices(Lens(tree, elems), desc)
    ensures forall i :: 0 <= i < elems ==> Lens(tree, elems)[i] <= desc.maxLength
  {
    hide StartTo, Code, Pow2, TreeCoded, FullCode, XBits;
  }

  // The lengths of the code length codes, in order.
  method SendOrder(w: BitWriter, blTree: array<CtData>, blcodes: nat, ghost bl: seq<nat>)
    requires w.Valid() && blTree.Length >= BL_CODES && bl == Lens(blTree[..], BL_CODES) && ClCodeOK(bl, blcodes)
    modifies w
    ensures w.Valid() && w.Sent() == old(w.Sent()) + OrderBits(bl, 0, blcodes)
  {
    hide BlOrder, BitsOf, Pow2, BitWriter.Valid, BitWriter.Sent, FullCode;
    ghost var was := w.Sent();
    PowersOfExtra();
    var rank := 0;
    while rank < blcodes
      invariant 0 <= rank <= blcodes && w.Valid()
      invariant w.Sent() + OrderBits(bl, rank, blcodes) == was + OrderBits(bl, 0, blcodes)
    {
      Joined(w.Sent(), BitsOf(bl[BlOrder(rank)], 3), OrderBits(bl, rank + 1, blcodes));
      w.SendBits(blTree[BlOrder(rank)].dl, 3);
      rank := rank + 1;
    }
  }

  // send_all_trees
  method SendAllTrees(w: BitWriter, ltree: array<CtData>, dtree: array<CtData>, blTree: array<CtData>,
                      lcodes: nat, dcodes: nat, blcodes: nat, ghost ll: seq<nat>, ghost dd: seq<nat>,
                        ghost bl: seq<nat>)
    requires w.Valid() && HeaderOK(ll, dd, bl, blcodes) && lcodes == |ll| && dcodes == |dd|
    requires Guarded(ltree[..], ll) && Guarded(dtree[..], dd)
    requires blTree.Length >= BL_CODES && bl == Lens(blTree[..], BL_CODES) && TreeCoded(blTree[..], bl)
    requires HaveCodes(blTree[..], HeaderSyms(ll, dd))
    modifies w
    ensures w.Valid() && w.Sent() == old(w.Sent()) + HeaderBits(ll, dd, bl, blcodes)
  {
    hide BitsOf, Pow2, BitWriter.Valid, BitWriter.Sent, FullCode, TreeCoded, HaveCodes, AllHaveCodes, ClCodeOK,
      AllSymbols, SymsBits, ClBits, OrderBits;
    ghost var was := w.Sent();
    PowersOfExtra();
    ShortOf(ll);
    ShortOf(dd);
    CodeCounts(bl, blcodes);
    w.SendBits(lcodes - 257, 5);
    w.SendBits(dcodes - 1, 5);
    w.SendBits(blcodes - 4, 4);
    SendOrder(w, blTree, blcodes, bl);
    HaveJoin(blTree[..], AllSymbols(ll), AllSymbols(dd));
    SendTree(w, ltree, lcodes - 1, blTree);
    SendTree(w, dtree, dcodes - 1, blTree);
    SymsAreCl(blTree[..], bl, HeaderSyms(ll, dd));
    SymsJoin(blTree[..], AllSymbols(ll), AllSymbols(dd));
    HeaderJoin(was, BitsOf(lcodes - 257, 5), BitsOf(dcodes - 1, 5), BitsOf(blcodes - 4, 4), OrderBits(bl, 0, blcodes),
      SymsBits(blTree[..], AllSymbols(ll)), SymsBits(blTree[..], AllSymbols(dd)));
  }

  lemma CodeCounts(bl: seq<nat>, blcodes: nat)
    requires ClCodeOK(bl, blcodes)
    ensures 4 <= blcodes <= BL_CODES && |bl| == BL_CODES
  {
  }

  lemma HeaderJoin(was: seq<bool>, a: seq<bool>, b: seq<bool>, c: seq<bool>, o: seq<bool>, x: seq<bool>, y: seq<bool>)
    ensures was + a + b + c + o + x + y == was + (a + b + c + o + (x + y))
  {
    Joined(was + a + b + c + o, x, y);
    Joined(was, a + b + c + o, x + y);
    Joined(was, a + b + c, o);
    Joined(was, a + b, c);
    Joined(was, a, b);
  }

  // ---- Sending one block ---------------------------------------------------------------

  // The input of the block, unless it is no longer in the window.
  datatype Input = TooOld | Bytes(data: seq<Byte>)

  // What flush_block is to send: the dynamic and the static form of the tokens.
  ghost predicate Forms(ts: seq<Token>, dyn: Block, fix: Block)
  {
    TokensOK(ts) && dyn.Dynamic? && fix.Fixed? && BlockOK(dyn) && BlockOK(fix) && dyn.its == fix.its == ItemsOf(ts)
  }

  // The bits of a block without its first three.
  function Size(blk: Block): nat
    requires BlockOK(blk)
  {
    |BodyBits(0, blk)|
  }

  function ByteLength(bits: nat): nat
  {
    (bits + 3 + 7) / 8
  }

  function Smaller(a: nat, b: nat): nat
  {
    if a <= b then a else b
  }

  // The choice: stored if that is no longer, else the shorter of the other two,
  // static trees when they are equal.
  function Chosen(dyn: Block, fix: Block, buf: Input): Block
    requires BlockOK(dyn) && BlockOK(fix)
  {
    if buf.Bytes? && |buf.data| + 4 <= Smaller(ByteLength(Size(dyn)), ByteLength(Size(fix))) then Stored(buf.data)
    else if ByteLength(Size(fix)) <= ByteLength(Size(dyn)) then fix
    else dyn
  }

  // What a form costs in bytes, with the four bytes of the lengths of a stored block.
  function CostOf(blk: Block): nat
    requires BlockOK(blk)
  {
    if blk.Stored? then |blk.data| + 4 else ByteLength(Size(blk))
  }

  // None of the forms there are costs less than the one that is chosen; of those that cost
  // the same it is the stored one, and else the one with static trees.
  lemma ChosenCheapest(dyn: Block, fix: Block, buf: Input)
    requires BlockOK(dyn) && BlockOK(fix) && dyn.Dynamic? && fix.Fixed? && (buf.Bytes? ==> |buf.data| < 65536)
    ensures var blk := Chosen(dyn, fix, buf);
            BlockOK(blk) && CostOf(blk) <= CostOf(dyn) && CostOf(blk) <= CostOf(fix)
            && (buf.Bytes? ==> CostOf(blk) <= CostOf(Stored(buf.data)))
            && (blk == dyn || blk == fix || (buf.Bytes? && blk == Stored(buf.data)))
            && (blk == dyn ==> CostOf(dyn) < CostOf(fix))
            && (buf.Bytes? && !blk.Stored? ==> CostOf(blk) < CostOf(Stored(buf.data)))
  {
    hide Size;
  }

  lemma FixedCoded(ts: seq<Token>)
    requires TokensOK(ts)
    ensures BlockOK(Fixed(ItemsOf(ts)))
  {
    hide ItemOf, TokenOK;
    forall i | 0 <= i < |ts| ensures ItemCoded(FixedLl(), FixedDd(), ItemsOf(ts)[i]) {
      ItemRoundTrip(ts[i]);
      SymbolOfItem(ts[i]);
    }
  }

  lemma SymbolOfItem(t: Token)
    requires TokenOK(t)
    ensures match ItemOf(t)
            case Lit(b) => LitSym(t) == b
            case Ref(c, x, e, y) => LitSym(t) == LITERALS + 1 + c < L_CODES && e == DistCode(t.dist)
    ensures ItemOf(t).Ref? <==> t.Match?
  {
    hide LengthCode, DistCode;
  }

  // The dynamic trees have codes for all tokens.
  lemma DynamicCoded(ts: seq<Token>, ltree: seq<CtData>, dtree: seq<CtData>, lMax: int, dMax: int)
    requires TokensOK(ts) && TreeReady(ltree, lMax, L_CODES, LitFreqs(ts))
             && TreeReady(dtree, dMax, D_CODES, DistFreqs(ts))
    ensures lMax >= END_BLOCK
    ensures AllCoded(Lens(ltree, lMax + 1), Lens(dtree, dMax + 1), ItemsOf(ts))
            && HasCode(Lens(ltree, lMax + 1), END_BLOCK)
  {
    hide ItemOf, TokenOK, LitFreqs, DistFreqs, FullCode, TreeCoded, DistCode, LitSym;
    TokenFreqs(ts);
    var ll, dd := Lens(ltree, lMax + 1), Lens(dtree, dMax + 1);
    forall i | 0 <= i < |ts| ensures ItemCoded(ll, dd, ItemsOf(ts)[i]) {
      var t := ts[i];
      ItemRoundTrip(t);
      SymbolOfItem(t);
      assert LitFreqs(ts)[LitSym(t)] >= 1;
      if t.Match? { assert DistFreqs(ts)[DistCode(t.dist)] >= 1; }
    }
  }

  // The two forms and their sizes.
  lemma FormSizes(ts: seq<Token>, ll: seq<nat>, dd: seq<nat>, bl: seq<nat>, blcodes: nat)
    requires TokensOK(ts) && HeaderOK(ll, dd, bl, blcodes) && AllCoded(ll, dd, ItemsOf(ts)) && HasCode(ll, END_BLOCK)
    ensures var dyn, fix := Dynamic(ll, dd, bl, blcodes, ItemsOf(ts)), Fixed(ItemsOf(ts));
            Forms(ts, dyn, fix)
            && Size(dyn) == Total(LitFreqs(ts), LitPrices(ll)) + Total(DistFreqs(ts), DistPrices(dd)) + 14 + 3 * blcodes
                            + Total(ClFreqs(HeaderSyms(ll, dd)), ClPrices(bl))
            && Size(fix) == Total(LitFreqs(ts), LitPrices(FixedLl())) + Total(DistFreqs(ts), DistPrices(FixedDd()))
  {
    hide Total, LitFreqs, DistFreqs, LitPrices, DistPrices, ClFreqs, ClPrices, ItemsBits, HeaderBits, ItemOf, TokenOK,
      ItemCoded, ClCodeOK, AllHaveCodes, Kraft, Pow2, Code, HeaderSyms;
    FixedCoded(ts);
    FixedKraft();
    ShortOf(ll);
    ShortOf(dd);
    HeaderLength(ll, dd, bl, blcodes);
    ItemsLength(ll, dd, ts);
    ItemsLength(FixedLl(), FixedDd(), ts);
  }

  class BlockSender {
    const t: TallyBuffers
    const blTree: array<CtData>
    const staticLtree: array<CtData>
    const staticDtree: array<CtData>
    const trees: Trees
    const w: BitWriter
    const maps: CodeMaps
    var compressedLen: nat

    // What never changes after ct_init.
    ghost predicate Fixtures()
      reads staticLtree, staticDtree
    {
      t.Sizes() && trees.Valid() && blTree.Length == 39
      && staticLtree != t.dynLtree && staticLtree != t.dynDtree && staticLtree != blTree
      && staticDtree != t.dynLtree && staticDtree != t.dynDtree && staticDtree != blTree
      && blTree != t.dynLtree && blTree != t.dynDtree
      && t.flagBuf != trees.heap && t.flagBuf != trees.depth && t.flagBuf != trees.blCount
      && TreeCoded(staticLtree[..], FixedLl()) && TreeCoded(staticDtree[..], FixedDd()) && MapsOK(maps)
    }

    // Between blocks and while a block is tallied.
    ghost predicate Valid()
      reads this, w, trees, blTree, staticLtree, staticDtree
    {
      Fixtures() && w.Valid() && HasFreqs(blTree[..], Zeros(BL_CODES))
      && trees.optLen == 0 && trees.staticLen == 0 && compressedLen == |w.Sent()|
    }

    lemma ValidParts()
      requires Valid()
      ensures MapsOK(maps) && t.dynLtree != staticLtree && t.dynLtree != staticDtree && t.dynLtree != blTree
      ensures t.dynDtree != staticLtree && t.dynDtree != staticDtree && t.dynDtree != blTree
    {
    }

    // ct_init
    constructor ()
      ensures Valid() && t.BuffersHold([]) && t.Counts([]) && w.Sent() == [] && w.out == []
      ensures fresh(t) && fresh(t.lBuf) && fresh(t.dBuf) && fresh(t.flagBuf) && fresh(t.dynLtree) && fresh(t.dynDtree)
      ensures fresh(blTree) && fresh(trees) && fresh(trees.heap) && fresh(trees.depth) && fresh(trees.blCount)
              && fresh(w)
    {
      hide TreeCoded, MapsOK, Pow2, BitsOf, BytesBits, TallyBuffers.BuffersHold, TallyBuffers.Counts, FixedLl, FixedDd,
        LengthsFit, HasFreqs, BitWriter.Valid, Trees.Valid, BitWriter.Sent;
      var codeMaps := InitMaps();
      maps := codeMaps;
      var ltree := StaticLtree();
      var dtree := StaticDtree();
      staticLtree, staticDtree := ltree, dtree;
      var buffers := new TallyBuffers();
      t := buffers;
      blTree := new CtData[39];
      trees := new Trees();
      w := new BitWriter();
      compressedLen := 0;
      new;
      InitBlock();
    }

    // init_block
    method InitBlock()
      requires Fixtures()
      modifies t, t.dynLtree, t.dynDtree, blTree, trees
      ensures Fixtures() && t.BuffersHold([]) && t.Counts([]) && HasFreqs(blTree[..], Zeros(BL_CODES))
      ensures trees.optLen == 0 && trees.staticLen == 0
    {
      hide TallyBuffers.BuffersHold, TallyBuffers.Counts, TreeCoded, MapsOK;
      t.Reset();
      ClearFreqs(blTree);
      trees.optLen, trees.staticLen := 0, 0;
    }

    // What the first half of flush_block has prepared.
    ghost predicate Planned(ts: seq<Token>, lMax: nat, dMax: nat, maxBlindex: nat, dyn: Block, fix: Block)
      reads t.dynLtree, t.dynDtree, blTree, trees
    {
      Forms(ts, dyn, fix) && |dyn.ll| == lMax + 1 && |dyn.dd| == dMax + 1 && dyn.blcodes == maxBlindex + 1
      && Guarded(t.dynLtree[..], dyn.ll) && Guarded(t.dynDtree[..], dyn.dd)
      && blTree.Length >= BL_CODES && dyn.bl == Lens(blTree[..], BL_CODES) && TreeCoded(blTree[..], dyn.bl)
      && HaveCodes(blTree[..], HeaderSyms(dyn.ll, dyn.dd))
      && trees.optLen == Size(dyn) && trees.staticLen == Size(fix)
    }

    // The first half of flush_block: the trees, their header, and the sizes of
    // both forms of the block.
    method Plan(ghost ts: seq<Token>) returns (lMax: nat, dMax: nat, maxBlindex: nat, ghost dyn: Block,
        ghost fix: Block)
      requires Valid() && t.BuffersHold(ts) && t.Counts(ts)
      modifies t.dynLtree, t.dynDtree, blTree, trees, trees.heap, trees.depth, trees.blCount
      ensures Fixtures() && w.Valid() && t.BuffersHold(ts) && Planned(ts, lMax, dMax, maxBlindex, dyn, fix)
    {
      hide TallyBuffers.BuffersHold, TallyBuffers.Counts, TreeCoded, MapsOK, TreeReady, HasFreqs, Total, LitFreqs,
        DistFreqs, Prices, LitPrices, DistPrices, ClFreqs, ClPrices, Sum, BlockOK, BodyBits, HaveCodes, Guarded,
        SmallCodesPlain, FullCode, AllHaveCodes, ClCodeOK, HeaderSyms, Forms, Size, Pow2, StaticTotal, AllCoded,
        HasCode;
      TreesHave(t, ts);
      t.BuffersSizes(ts);
      TokenFreqs(ts);
      TreeDescsFit();
      ghost var f, g := LitFreqs(ts), DistFreqs(ts);
      var lm := BuildFor(trees, t.dynLtree, LDesc(), f);
      var dm := BuildFor(trees, t.dynDtree, DDesc(), g);
      DynamicCoded(ts, t.dynLtree[..], t.dynDtree[..], lm, dm);
      ReadyFacts(t.dynLtree[..], lm, L_CODES, f);
      ReadyFacts(t.dynDtree[..], dm, D_CODES, g);
      lMax, dMax := lm, dm;
      ghost var ll, dd := Lens(t.dynLtree[..], lMax + 1), Lens(t.dynDtree[..], dMax + 1);
      maxBlindex := BuildBlTree(trees, t.dynLtree, t.dynDtree, blTree, lMax, dMax, ll, dd);
      ghost var bl := Lens(blTree[..], BL_CODES);
      HeaderIsOK(ll, dd, bl, maxBlindex + 1);
      FormSizes(ts, ll, dd, bl, maxBlindex + 1);
      StaticTotals(f, g);
      dyn, fix := Dynamic(ll, dd, bl, maxBlindex + 1, ItemsOf(ts)), Fixed(ItemsOf(ts));
    }

    // Send one kind of block.
    method SendStored(buf: seq<Byte>, storedLen: nat, eof: bool)
      requires w.Valid() && |buf| == storedLen < 65536 && compressedLen == |w.Sent()|
      modifies w, this`compressedLen
      ensures w.Valid() && compressedLen == |w.Sent()|
      ensures BlockOK(Stored(buf)) && w.Sent() == old(w.Sent()) + BlockBits(|old(w.Sent())|, eof, Stored(buf))
    {
      hide BitWriter.Valid, BitWriter.Sent, Pow2, BitsOf, BodyBits;
      ghost var sent := w.Sent();
      PowersOfExtra();
      StoredFacts(buf);
      w.SendBits(TypeBits(eof, STORED_BLOCK), 3);
      compressedLen := (compressedLen + 3 + 7) / 8 * 8;
      compressedLen := compressedLen + (storedLen + 4) * 8;
      CopyBlock(buf);
      StoredSize(|sent| + 3, buf);
      Joined(sent, BitsOf(TypeBits(eof, STORED_BLOCK), 3), BodyBits(|sent| + 3, Stored(buf)));
    }

    method SendFixed(eof: bool, ghost ts: seq<Token>, ghost fix: Block)
      requires Fixtures() && w.Valid() && t.BuffersHold(ts) && FlagsWritten(ts, t.flagBuf[..])
               && compressedLen == |w.Sent()|
      requires TokensOK(ts) && fix == Fixed(ItemsOf(ts)) && BlockOK(fix) && trees.staticLen == Size(fix)
      requires AllCoded(FixedLl(), FixedDd(), ItemsOf(ts)) && HasCode(FixedLl(), END_BLOCK)
      modifies w, this`compressedLen
      ensures w.Valid() && compressedLen == |w.Sent()|
              && w.Sent() == old(w.Sent()) + BlockBits(|old(w.Sent())|, eof, fix)
    {
      hide BitWriter.Valid, BitWriter.Sent, Pow2, BitsOf, BodyBits, TallyBuffers.BuffersHold, FlagsWritten, BlockOK,
        Size, TreeCoded, AllCoded, HasCode, MapsOK, ItemsBits, CodeBits, ItemOf;
      ghost var sent := w.Sent();
      PowersOfExtra();
      w.SendBits(TypeBits(eof, STATIC_TREES), 3);
      CompressBlock(w, t, staticLtree, staticDtree, maps, ts, FixedLl(), FixedDd());
      compressedLen := compressedLen + 3 + trees.staticLen;
      FixedSize(|sent| + 3, fix);
      Joined(sent, BitsOf(TypeBits(eof, STATIC_TREES), 3), BodyBits(|sent| + 3, fix));
    }

    method SendDynamic(eof: bool, lMax: nat, dMax: nat, maxBlindex: nat, ghost ts: seq<Token>, ghost dyn: Block,
        ghost fix: Block)
      requires Fixtures() && w.Valid() && t.BuffersHold(ts) && FlagsWritten(ts, t.flagBuf[..])
               && compressedLen == |w.Sent()|
      requires Planned(ts, lMax, dMax, maxBlindex, dyn, fix)
      modifies w, this`compressedLen
      ensures w.Valid() && compressedLen == |w.Sent()|
      ensures BlockOK(dyn) && w.Sent() == old(w.Sent()) + BlockBits(|old(w.Sent())|, eof, dyn)
    {
      hide BitWriter.Valid, BitWriter.Sent, Pow2, BitsOf, BodyBits, TallyBuffers.BuffersHold, FlagsWritten, BlockOK,
        Size, TreeCoded, AllCoded, HasCode, MapsOK, ItemsBits, CodeBits, ItemOf, HeaderOK, HeaderBits, HaveCodes,
        HeaderSyms, Guarded, Forms;
      ghost var sent := w.Sent();
      PowersOfExtra();
      FormFacts(ts, dyn, fix);
      w.SendBits(TypeBits(eof, DYN_TREES), 3);
      SendAllTrees(w, t.dynLtree, t.dynDtree, blTree, lMax + 1, dMax + 1, maxBlindex + 1, dyn.ll, dyn.dd, dyn.bl);
      GuardedCodes(t.dynLtree[..], dyn.ll);
      GuardedCodes(t.dynDtree[..], dyn.dd);
      CompressBlock(w, t, t.dynLtree, t.dynDtree, maps, ts, dyn.ll, dyn.dd);
      compressedLen := compressedLen + 3 + trees.optLen;
      DynamicSize(sent + BitsOf(TypeBits(eof, DYN_TREES), 3), |sent| + 3, dyn);
      Joined(sent, BitsOf(TypeBits(eof, DYN_TREES), 3), BodyBits(|sent| + 3, dyn));
    }

    // What flush_block does after a block has been sent.
    method Finish(eof: bool) returns (bytes: nat)
      requires Fixtures() && w.Valid() && compressedLen == |w.Sent()|
      modifies this`compressedLen, t, t.dynLtree, t.dynDtree, blTree, trees, w
      ensures !eof ==> Valid() && t.BuffersHold([]) && t.Counts([]) && bytes == |w.Sent()| / 8
                       && w.Sent() == old(w.Sent())
      ensures eof ==> w.Sent() == old(w.Sent()) + Padding(|old(w.Sent())|) && w.Sent() == BytesBits(w.out)
                      && bytes == |w.out|
    {
      hide TallyBuffers.BuffersHold, TallyBuffers.Counts, TreeCoded, MapsOK, HasFreqs, Pow2, BitsOf, BytesBits;
      InitBlock();
      if eof {
        ghost var all := w.Sent();
        w.BiWindup();
        PaddingIs(all, w.Sent(), w.out);
        compressedLen := compressedLen + 7;
        WholeBytes(all, w.out);
      }
      bytes := compressedLen / 8;
    }

    // flush_block: choose the kind of block and send it; true eof ends the stream
    // with a whole byte.  The result is the number of bytes so far.  A stored file
    // instead of a stream is never chosen, because output is sequential.
    method Flush(buf: Input, storedLen: nat, eof: bool, ghost ts: seq<Token>)
      returns (bytes: nat, ghost dyn: Block, ghost fix: Block)
      requires Valid() && t.BuffersHold(ts) && t.Counts(ts) && (buf.Bytes? ==> |buf.data| == storedLen < 65536)
      modifies this, t, t.flagBuf, t.dynLtree, t.dynDtree, blTree, trees, trees.heap, trees.depth, trees.blCount, w
      ensures Forms(ts, dyn, fix) && BlockOK(Chosen(dyn, fix, buf))
      ensures !eof ==> Valid() && t.BuffersHold([]) && t.Counts([]) && bytes == |w.Sent()| / 8
      ensures var sent, blk := old(w.Sent()), Chosen(dyn, fix, buf);
              if eof then
                w.Sent() == sent + BlockBits(|sent|, true, blk) + Padding(|sent| + |BlockBits(|sent|, true, blk)|)
                && w.Sent() == BytesBits(w.out) && bytes == |w.out|
              else w.Sent() == sent + BlockBits(|sent|, false, blk)
    {
      hide TallyBuffers.BuffersHold, TallyBuffers.Counts, TreeCoded, MapsOK, HasFreqs, Forms, Size, BlockOK, HaveCodes,
        Guarded, HeaderSyms, BlockBits, BitWriter.Valid, BitWriter.Sent, FlagsWritten, Pow2, BitsOf, BytesBits,
        AllCoded, ItemOf, HeaderOK;
      ghost var sent := w.Sent();
      t.StoreFlags(ts);
      var lMax, dMax, maxBlindex;
      lMax, dMax, maxBlindex, dyn, fix := Plan(ts);
      FormFacts(ts, dyn, fix);
      ghost var blk := Chosen(dyn, fix, buf);
      var optLenb := (trees.optLen + 3 + 7) / 8;
      var staticLenb := (trees.staticLen + 3 + 7) / 8;
      if staticLenb <= optLenb { optLenb := staticLenb; }
      if storedLen + 4 <= optLenb && buf.Bytes? {
        SendStored(buf.data, storedLen, eof);
      } else if staticLenb == optLenb {
        SendFixed(eof, ts, fix);
      } else {
        SendDynamic(eof, lMax, dMax, maxBlindex, ts, dyn, fix);
      }
      bytes := Finish(eof);
    }

    method PutBytes(data: seq<Byte>)
      modifies w`out
      ensures w.out == old(w.out) + data
    {
      var i := 0;
      while i < |data|
        invariant 0 <= i <= |data| && w.out == old(w.out) + data[..i]
      {
        w.PutByte(data[i]);
        assert data[..i + 1] == data[..i] + [data[i]];
        i := i + 1;
      }
      assert data[..|data|] == data;
    }

    // copy_block: the bytes of a stored block, after its length and the complement.
    method CopyBlock(data: seq<Byte>)
      requires w.Valid() && |data| < 65536
      modifies w
      ensures w.Valid() && w.Sent() == old(w.Sent()) + BodyBits(|old(w.Sent())|, Stored(data))
    {
      hide BitsOf, BytesBits, Pow2;
      EmptyBits();
      ghost var was := w.Sent();
      w.BiWindup();
      PaddingIs(was, w.Sent(), w.out);
      w.PutShort(|data|);
      w.PutShort(65535 - |data|);
      ghost var o2 := w.out;
      PutBytes(data);
      BytesJoin(o2, data);
      StoredJoined(was, Padding(|was|), BitsOf(|data|, 16), BitsOf(65535 - |data|, 16), BytesBits(data));
    }
  }

  lemma TreesHave(t: TallyBuffers, ts: seq<Token>)
    requires t.Counts(ts)
    ensures HasFreqs(t.dynLtree[..], LitFreqs(ts)) && HasFreqs(t.dynDtree[..], DistFreqs(ts))
  {
    hide LitFreqs, DistFreqs;
  }

  lemma TreeDescsFit()
    ensures SmallCodesPlain(LDesc()) && L_CODES <= Pow2(MAX_BITS) && SmallCodesPlain(DDesc())
            && D_CODES <= Pow2(MAX_BITS)
  {
    hide Pow2;
    PowersOfExtra();
    Pow2Mono(13, MAX_BITS);
  }

  lemma ReadyFacts(tree: seq<CtData>, maxCode: int, elems: nat, f: seq<nat>)
    requires TreeReady(tree, maxCode, elems, f)
    ensures 0 <= maxCode < elems <= |tree| && FullCode(Lens(tree, maxCode + 1))
            && TreeCoded(tree, Lens(tree, maxCode + 1))
  {
  }

  lemma HeaderIsOK(ll: seq<nat>, dd: seq<nat>, bl: seq<nat>, blcodes: nat)
    requires 257 <= |ll| <= L_CODES && 1 <= |dd| <= D_CODES && FullCode(ll) && FullCode(dd)
    requires ClCodeOK(bl, blcodes) && AllHaveCodes(bl, HeaderSyms(ll, dd))
    ensures HeaderOK(ll, dd, bl, blcodes)
  {
  }

  lemma StaticTotals(f: seq<nat>, g: seq<nat>)
    requires |f| == L_CODES && |g| == D_CODES
    ensures StaticTotal(f, LDesc()) == Total(f, LitPrices(FixedLl()))
            && StaticTotal(g, DDesc()) == Total(g, DistPrices(FixedDd()))
    ensures forall lens :: LitPrices(lens) == Prices(lens, LDesc())
    ensures forall lens :: DistPrices(lens) == Prices(lens, DDesc())
  {
  }

  lemma FormFacts(ts: seq<Token>, dyn: Block, fix: Block)
    requires Forms(ts, dyn, fix)
    ensures TokensOK(ts) && dyn.Dynamic? && fix == Fixed(ItemsOf(ts)) && dyn.its == ItemsOf(ts) && BlockOK(dyn)
            && BlockOK(fix)
    ensures HeaderOK(dyn.ll, dyn.dd, dyn.bl, dyn.blcodes)
    ensures AllCoded(dyn.ll, dyn.dd, ItemsOf(ts)) && HasCode(dyn.ll, END_BLOCK)
    ensures AllCoded(FixedLl(), FixedDd(), ItemsOf(ts)) && HasCode(FixedLl(), END_BLOCK)
  {
    hide HeaderOK, AllCoded, ItemOf, TokenOK;
  }

  lemma WholeBytes(all: seq<bool>, out: seq<Byte>)
    requires BytesBits(out) == all + Padding(|all|)
    ensures (|all| + 7) / 8 == |out|
  {
    hide BitsOf, BytesBits;
  }

  lemma StoredFacts(data: seq<Byte>)
    requires |data| < 65536
    ensures BlockOK(Stored(data))
  {
  }

  lemma GuardedCodes(tree: seq<CtData>, lens: seq<nat>)
    requires Guarded(tree, lens)
    ensures TreeCoded(tree, lens)
  {
  }

  // The sizes of the three kinds of blocks.
  lemma StoredSize(pos: nat, data: seq<Byte>)
    requires |data| < 65536 && BlockOK(Stored(data))
    ensures |BodyBits(pos, Stored(data))| + pos == (pos + 7) / 8 * 8 + (|data| + 4) * 8
  {
    hide BitsOf, BytesBits;
  }

  lemma FixedSize(pos: nat, fix: Block)
    requires fix.Fixed? && BlockOK(fix)
    ensures |BodyBits(pos, fix)| == Size(fix)
    ensures BodyBits(pos, fix) == ItemsBits(FixedLl(), FixedDd(), fix.its) + CodeBits(FixedLl(), END_BLOCK)
  {
    hide ItemsBits, CodeBits;
  }

  lemma DynamicSize(was: seq<bool>, pos: nat, dyn: Block)
    requires dyn.Dynamic? && BlockOK(dyn)
    ensures |BodyBits(pos, dyn)| == Size(dyn)
    ensures was + HeaderBits(dyn.ll, dyn.dd, dyn.bl, dyn.blcodes)
            + (ItemsBits(dyn.ll, dyn.dd, dyn.its) + CodeBits(dyn.ll, END_BLOCK))
         == was + BodyBits(pos, dyn)
  {
    hide ItemsBits, CodeBits, HeaderBits;
    Joined(was, HeaderBits(dyn.ll, dyn.dd, dyn.bl, dyn.blcodes),
      ItemsBits(dyn.ll, dyn.dd, dyn.its) + CodeBits(dyn.ll, END_BLOCK));
  }

  method ClearFreqs(tree: array<CtData>)
    requires tree.Length >= BL_CODES
    modifies tree
    ensures HasFreqs(tree[..], Zeros(BL_CODES))
  {
    var n := 0;
    while n < BL_CODES
      invariant 0 <= n <= BL_CODES && forall s :: 0 <= s < n ==> tree[s].fc == 0
    {
      tree[n] := tree[n].(fc := 0);
      n := n + 1;
    }
  }

  // What bi_windup adds is the padding.
  lemma PaddingIs(was: seq<bool>, now: seq<bool>, out: seq<Byte>)
    requires was <= now && |now| < |was| + 8 && now == BytesBits(out) && forall i :: |was| <= i < |now| ==> !now[i]
    ensures now == was + Padding(|was|)
  {
    hide BitsOf, BytesBits;
    var n := |now| - |was|;
    assert n == (8 - |was| % 8) % 8;
    ZeroBits(n);
    assert now[|was|..] == BitsOf(0, n);
    assert now == was + now[|was|..];
  }

  lemma StoredJoined(was: seq<bool>, pad: seq<bool>, a: seq<bool>, b: seq<bool>, c: seq<bool>)
    ensures was + pad + a + b + c == was + (pad + (a + b + c))
  {
    Joined(was + pad + a, b, c);
    Joined(was + pad, a, b + c);
    Joined(was, pad, a + (b + c));
    Joined(a, b, c);
  }
}
