// How many bits a block takes: the sums that build_tree adds up are the lengths
// of what is sent.
module BlockCost {
  import opened Powers
  import opened Canonical
  import opened TreeCodes
  import opened Bits
  import opened CodeLengths
  import opened Lz77
  import opened BlockFormat
  import opened Blocks
  import opened Tally
  import opened HuffTheory
  import opened HuffGrow
  import opened HuffLengths
  import BuildTree

  // Frequencies times prices.
  function Priced(f: seq<nat>, c: seq<nat>): (g: seq<nat>)
    requires |f| == |c|
    ensures |g| == |f|
  {
    seq(|f|, i requires 0 <= i < |f| => f[i] * c[i])
  }

  function Total(f: seq<nat>, c: seq<nat>): nat
    requires |f| == |c|
  {
    Sum(Priced(f, c))
  }

  lemma TotalBump(f: seq<nat>, c: seq<nat>, s: nat)
    requires |f| == |c| && s < |f|
    ensures Total(Bump(f, s), c) == Total(f, c) + c[s]
  {
    hide Sum;
    var g := Priced(f, c);
    SumUpdate(g, s, g[s] + c[s]);
    Distribute(f[s], 1, c[s]);
    assert Priced(Bump(f, s), c) == g[s := g[s] + c[s]];
  }

  lemma TotalZeros(n: nat, c: seq<nat>)
    requires |c| == n
    ensures Total(Zeros(n), c) == 0
  {
    hide Sum;
    SumZeros(Priced(Zeros(n), c));
  }

  // ---- Literals and matches -------------------------------------------------------------

  function LenOf(lens: seq<nat>, s: nat): nat
  {
    if s < |lens| then lens[s] else 0
  }

  const EXTRA_BLBITS: seq<nat> := [0, 0, 0, 0, 0, 0, 0, 0, 0, 0, 0, 0, 0, 0, 0, 0, 2, 3, 7]

  // The descriptors of the three trees.
  function LDesc(): (d: TreeDesc)
    ensures DescOK(d)
  {
    TreeDesc(FixedLl(), EXTRA_LBITS, LITERALS + 1, L_CODES, MAX_BITS)
  }

  function DDesc(): (d: TreeDesc)
    ensures DescOK(d)
  {
    TreeDesc(FixedDd(), EXTRA_DBITS, 0, D_CODES, MAX_BITS)
  }

  function BlDesc(): (d: TreeDesc)
    ensures DescOK(d)
  {
    TreeDesc([], EXTRA_BLBITS, 0, BL_CODES, 7)
  }

  // The bits of each symbol: its code and its extra bits.
  function Prices(lens: seq<nat>, desc: TreeDesc): (c: seq<nat>)
    requires DescOK(desc)
    ensures |c| == desc.elems
  {
    seq(desc.elems, s requires 0 <= s < desc.elems => LenOf(lens, s) + XBits(desc, s))
  }

  function LitPrices(ll: seq<nat>): (c: seq<nat>)
    ensures |c| == L_CODES
  {
    Prices(ll, LDesc())
  }

  function DistPrices(dd: seq<nat>): (c: seq<nat>)
    ensures |c| == D_CODES
  {
    Prices(dd, DDesc())
  }

  lemma ItemLength(ll: seq<nat>, dd: seq<nat>, t: Token)
    requires TokenOK(t) && LengthsFit(ll, MAX_BITS) && LengthsFit(dd, MAX_BITS) && ItemCoded(ll, dd, ItemOf(t))
    ensures |ItemBits(ll, dd, ItemOf(t))| == LitPrices(ll)[LitSym(t)]
            + if t.Match? then DistPrices(dd)[DistCode(t.dist)] else 0
  {
    hide LengthCode, DistCode, Pow2, Code;
    if t.Match? {
      LengthTables(LengthCode(t.len));
      DistTables(DistCode(t.dist));
    }
  }

  lemma OneItem(ll: seq<nat>, dd: seq<nat>, it: Item)
    requires ItemOK(it)
    ensures AllOK([it]) && ItemsBits(ll, dd, [it]) == ItemBits(ll, dd, it)
  {
    assert [it][1..] == [];
  }

  lemma {:induction false} ItemsLength(ll: seq<nat>, dd: seq<nat>, ts: seq<Token>)
    requires TokensOK(ts) && LengthsFit(ll, MAX_BITS) && LengthsFit(dd, MAX_BITS) && AllCoded(ll, dd, ItemsOf(ts))
    ensures |ItemsBits(ll, dd, ItemsOf(ts))| + LenOf(ll, END_BLOCK)
         == Total(LitFreqs(ts), LitPrices(ll)) + Total(DistFreqs(ts), DistPrices(dd))
  {
    hide Total, ItemBits, ItemOf, LitPrices, DistPrices, LitSym, DistCode, LengthsFit;
    if ts == [] {
      NoItems(ll, dd);
    } else {
      var n := |ts| - 1;
      var a, t := ts[..n], ts[n];
      assert ItemsOf(ts) == ItemsOf(a) + [ItemOf(t)];
      assert ItemCoded(ll, dd, ItemsOf(ts)[n]);
      assert forall i :: 0 <= i < n ==> ItemsOf(a)[i] == ItemsOf(ts)[i];
      ItemsLength(ll, dd, a);
      OneItem(ll, dd, ItemOf(t));
      ItemsJoin(ll, dd, ItemsOf(a), [ItemOf(t)]);
      ItemLength(ll, dd, t);
      TotalBump(LitFreqs(a), LitPrices(ll), LitSym(t));
      if t.Match? { TotalBump(DistFreqs(a), DistPrices(dd), DistCode(t.dist)); }
    }
  }

  lemma NoItems(ll: seq<nat>, dd: seq<nat>)
    ensures ItemsBits(ll, dd, ItemsOf([])) == []
    ensures LenOf(ll, END_BLOCK) == Total(LitFreqs([]), LitPrices(ll)) && Total(DistFreqs([]), DistPrices(dd)) == 0
  {
    hide Total;
    TotalZeros(L_CODES, LitPrices(ll));
    TotalZeros(D_CODES, DistPrices(dd));
    TotalBump(Zeros(L_CODES), LitPrices(ll), END_BLOCK);
    assert Bump(Zeros(L_CODES), END_BLOCK) == LitFreqs([]);
  }

  // ---- Code lengths ------------------------------------------------------------------

  function ClFreqs(ss: seq<ClSym>): (f: seq<nat>)
    ensures |f| == BL_CODES
  {
    if ss == [] then Zeros(BL_CODES) else Bump(ClFreqs(ss[..|ss| - 1]), ss[|ss| - 1].sym)
  }

  function ClPrices(bl: seq<nat>): (c: seq<nat>)
    ensures |c| == BL_CODES
  {
    Prices(bl, BlDesc())
  }

  lemma ClExtra(s: nat)
    requires s < BL_CODES
    ensures XBits(BlDesc(), s) == ExtraBits(s)
  {
  }

  lemma {:induction false} ClFreqsAre(ss: seq<ClSym>, s: nat)
    requires s < BL_CODES
    ensures ClFreqs(ss)[s] == Times(ss, s)
  {
    if ss != [] { ClFreqsAre(ss[..|ss| - 1], s); }
  }

  lemma {:induction false} ClBitsPush(bl: seq<nat>, a: seq<ClSym>, s: ClSym)
    ensures ClBits(bl, a + [s]) == ClBits(bl, a) + (CodeBits(bl, s.sym) + BitsOf(s.extra, ExtraBits(s.sym)))
  {
    hide CodeBits, BitsOf, ExtraBits;
    var x := CodeBits(bl, s.sym) + BitsOf(s.extra, ExtraBits(s.sym));
    if a == [] {
      assert a + [s] == [s] && [s][1..] == [];
      assert ClBits(bl, [s]) == x + [];
    } else {
      assert (a + [s])[1..] == a[1..] + [s];
      ClBitsPush(bl, a[1..], s);
      var y := CodeBits(bl, a[0].sym) + BitsOf(a[0].extra, ExtraBits(a[0].sym));
      Joined(y, ClBits(bl, a[1..]), x);
    }
  }

  lemma {:induction false} ClLength(bl: seq<nat>, ss: seq<ClSym>)
    requires LengthsFit(bl, MAX_BITS) && |bl| == BL_CODES && forall i :: 0 <= i < |ss| ==> ss[i].sym < BL_CODES
    ensures |ClBits(bl, ss)| == Total(ClFreqs(ss), ClPrices(bl))
  {
    hide Total, Code, ExtraBits;
    if ss == [] {
      TotalZeros(BL_CODES, ClPrices(bl));
    } else {
      var a, s := ss[..|ss| - 1], ss[|ss| - 1];
      ClLength(bl, a);
      assert ss == a + [s];
      ClBitsPush(bl, a, s);
      ClExtra(s.sym);
      TotalBump(ClFreqs(a), ClPrices(bl), s.sym);
    }
  }

  // ---- The sums of build_tree -----------------------------------------------------------

  // A sum over the used symbols is a sum over all symbols.
  lemma UsedSum(t: seq<CtData>, elems: nat, g: seq<nat>, f: seq<nat>)
    requires |f| == elems <= |t| == |g|
    requires forall i :: 0 <= i < elems ==> f[i] == if t[i].fc != 0 then g[i] else 0
    ensures SumOn(Used(t, elems), g) == Sum(f)
  {
    hide Sum;
    var m := Masked(Used(t, elems), g);
    BuildTree.SumCut(m, elems);
    assert m[..elems] == f;
  }

  // ---- How large and how small the frequencies are -----------------------------------

  lemma SumBump(f: seq<nat>, s: nat)
    ensures Sum(Bump(f, s)) <= Sum(f) + 1
    ensures forall i :: 0 <= i < |f| ==> f[i] <= Bump(f, s)[i]
    ensures s < |f| ==> Bump(f, s)[s] == f[s] + 1
  {
    hide Sum;
    if s < |f| { SumUpdate(f, s, f[s] + 1); }
  }

  lemma {:induction false} TokenFreqs(ts: seq<Token>)
    ensures Sum(LitFreqs(ts)) <= |ts| + 1 && Sum(DistFreqs(ts)) <= |ts| && LitFreqs(ts)[END_BLOCK] >= 1
    ensures forall i :: 0 <= i < |ts| && TokenOK(ts[i]) ==> LitFreqs(ts)[LitSym(ts[i])] >= 1
    ensures forall i :: 0 <= i < |ts| && ts[i].Match? ==> DistFreqs(ts)[DistCode(ts[i].dist)] >= 1
  {
    hide Sum, LitSym, DistCode, TokenOK;
    if ts == [] {
      NoFreqs();
    } else {
      var n := |ts| - 1;
      TokenFreqs(ts[..n]);
      SumBump(LitFreqs(ts[..n]), LitSym(ts[n]));
      if ts[n].Match? { SumBump(DistFreqs(ts[..n]), DistCode(ts[n].dist)); }
      forall i | 0 <= i < |ts| && TokenOK(ts[i]) ensures LitFreqs(ts)[LitSym(ts[i])] >= 1 {
        if i < n { assert ts[..n][i] == ts[i]; }
      }
      forall i | 0 <= i < |ts| && ts[i].Match? ensures DistFreqs(ts)[DistCode(ts[i].dist)] >= 1 {
        if i < n { assert ts[..n][i] == ts[i]; }
      }
    }
  }

  lemma NoFreqs()
    ensures Sum(LitFreqs([])) <= 1 && Sum(DistFreqs([])) == 0 && LitFreqs([])[END_BLOCK] == 1
  {
    SumZeros(Zeros(L_CODES));
    SumZeros(Zeros(D_CODES));
    SumUpdate(Zeros(L_CODES), END_BLOCK, 1);
  }

  lemma {:induction false} SymFreqs(ss: seq<ClSym>)
    ensures Sum(ClFreqs(ss)) <= |ss|
    ensures forall i :: 0 <= i < |ss| && ss[i].sym < BL_CODES ==> ClFreqs(ss)[ss[i].sym] >= 1
  {
    hide Sum;
    if ss == [] {
      SumZeros(Zeros(BL_CODES));
    } else {
      var n := |ss| - 1;
      SymFreqs(ss[..n]);
      SumBump(ClFreqs(ss[..n]), ss[n].sym);
      forall i | 0 <= i < |ss| && ss[i].sym < BL_CODES ensures ClFreqs(ss)[ss[i].sym] >= 1 {
        if i < n { assert ss[..n][i] == ss[i]; }
      }
    }
  }

  // Every code length symbol stands for one length at least.
  lemma {:induction false} SymbolsShort(ss: seq<ClSym>, last: nat)
    ensures |ss| <= |LengthsOf(ss, last)|
  {
    if ss != [] { SymbolsShort(ss[1..], LastOf(ss[0], last)); }
  }
}
