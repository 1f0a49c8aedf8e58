// gen_bitlen (trees.c), first pass: code lengths from the fathers recorded by
// the merge loop, cut off at the greatest allowed length.
module HuffLengths {
  import opened Powers
  import opened TreeCodes
  import opened HuffTheory
  import opened HuffMerge
  import opened HuffDepth
  import opened HuffGrow

  // The constant part of a tree descriptor; stree is [] when there is no
  // static tree.
  datatype TreeDesc = TreeDesc(stree: seq<nat>, extra: seq<nat>, base: nat, elems: nat, maxLength: nat)

  predicate DescOK(desc: TreeDesc)
  {
    3 <= desc.elems <= desc.base + |desc.extra| && (desc.stree == [] || desc.elems <= |desc.stree|)
    && 0 < desc.maxLength <= MAX_BITS
  }

  function XBits(desc: TreeDesc, n: nat): nat
    requires DescOK(desc) && n < desc.elems
  {
    if n >= desc.base then desc.extra[n - desc.base] else 0
  }

  function Lengths(t: seq<CtData>): (l: seq<nat>)
    ensures |l| == |t|
  {
    seq(|t|, i requires 0 <= i < |t| => t[i].dl)
  }

  // Per node: one for a leaf of length b; one for a node of length m; the bits
  // a leaf costs, with its own and with the static lengths.
  function LeafOf(ln: seq<nat>, elems: nat, b: nat): (g: seq<nat>)
    ensures |g| == |ln|
  {
    seq(|ln|, i requires 0 <= i < |ln| => if i < elems && ln[i] == b then 1 else 0)
  }

  function AtLength(ln: seq<nat>, m: nat): (g: seq<nat>)
    ensures |g| == |ln|
  {
    seq(|ln|, i requires 0 <= i < |ln| => if ln[i] == m then 1 else 0)
  }

  function LeafCosts(f: seq<nat>, ln: seq<nat>, desc: TreeDesc): (g: seq<nat>)
    requires |f| == |ln| && DescOK(desc)
    ensures |g| == |ln|
  {
    seq(|ln|, i requires 0 <= i < |ln| => if i < desc.elems then f[i] * (ln[i] + XBits(desc, i)) else 0)
  }

  function StaticCosts(f: seq<nat>, desc: TreeDesc): (g: seq<nat>)
    requires DescOK(desc)
    ensures |g| == |f|
  {
    seq(|f|, i requires 0 <= i < |f| =>
      if i < desc.elems && desc.stree != [] then f[i] * (desc.stree[i] + XBits(desc, i)) else 0)
  }

  // What the first pass has computed when the sons of merges i, i + 1, ... have
  // their lengths: exactly the roots before merge i are a cut of the tree.
  ghost predicate Cut(f: seq<nat>, desc: TreeDesc, roots: seq<set<nat>>, i: nat, ln: seq<nat>,
                      bl: seq<nat>, overflow: nat, opt: int, sta: int)
    requires DescOK(desc)
  {
    i < |roots| && |ln| == |f| && desc.elems + |roots| - 1 <= |f|
    && (forall c :: c in roots[i] ==> c < |ln| && ln[c] <= desc.maxLength && (c < desc.elems ==> ln[c] >= 1))
    && overflow % 2 == 0
    && SumOn(roots[i], Weights(ln, desc.maxLength)) == Pow2(desc.maxLength) + overflow / 2
    && (overflow == 0 ==> SumOn(roots[i], Costs(f, ln)) == FatherCost(f, desc.elems, i, |roots| - 1))
    && SumOn(roots[i], AtLength(ln, desc.maxLength)) >= overflow / 2 + (if overflow > 0 then 1 else 0)
    && |bl| == MAX_BITS + 1
    && (forall b :: 0 <= b <= MAX_BITS ==> bl[b] == SumOn(roots[i], LeafOf(ln, desc.elems, b)))
    && opt == SumOn(roots[i], LeafCosts(f, ln, desc))
    && sta == SumOn(roots[i], StaticCosts(f, desc))
  }

  // Replacing father x by its sons a and b in a sum.
  lemma SplitSum(A: set<nat>, a: nat, b: nat, x: nat, A': set<nat>, g: seq<nat>, g': seq<nat>)
    requires Merge(A, a, b, x, A') && |g| == |g'| && a < |g| && b < |g| && x < |g| && x != a && x != b
    requires forall c :: 0 <= c < |g| && c != a && c != b ==> g'[c] == g[c]
    ensures SumOn(A, g') + g[x] == SumOn(A', g) + g'[a] + g'[b]
  {
    hide Sum, SumOn, Masked;
    SumOnSame(A', g, g');
    MergeSum(A, a, b, x, A', g');
  }

  function Clamp(bits: nat, m: nat): nat
  {
    if bits > m then m else bits
  }

  // bl with one more leaf of length b for each of two sons that is a leaf.
  function CountSons(bl: seq<nat>, b: nat, leaves: nat): (r: seq<nat>)
    requires b < |bl|
  {
    bl[b := bl[b] + leaves]
  }

  function Leaf(elems: nat, c: nat): nat
  {
    if c < elems then 1 else 0
  }

  // Merge i made x the father of a and b; v is the length its sons get.
  ghost predicate Sons(f: seq<nat>, desc: TreeDesc, roots: seq<set<nat>>, i: nat, ln: seq<nat>, ln': seq<nat>,
                       a: nat, b: nat, v: nat)
  {
    var x := desc.elems + i;
    i + 1 < |roots| && x < |f| && a < |f| && b < |f| && a != x && b != x && |ln| == |f|
    && Merge(roots[i], a, b, x, roots[i + 1])
    && f[x] == f[a] + f[b] && v == Clamp(ln[x] + 1, desc.maxLength) && ln' == ln[b := v][a := v]
  }

  lemma CutWeights(f: seq<nat>, desc: TreeDesc, roots: seq<set<nat>>, i: nat, ln: seq<nat>, ln': seq<nat>, a: nat,
      b: nat, v: nat, overflow: nat)
    requires Sons(f, desc, roots, i, ln, ln', a, b, v)
    requires ln[desc.elems + i] <= desc.maxLength && overflow % 2 == 0
    requires SumOn(roots[i + 1], Weights(ln, desc.maxLength)) == Pow2(desc.maxLength) + overflow / 2
    ensures var x, m := desc.elems + i, desc.maxLength;
            SumOn(roots[i], Weights(ln', m)) == Pow2(m) + (if ln[x] + 1 > m then overflow + 2 else overflow) / 2
  {
    hide Sum, SumOn, Masked;
    var x, m := desc.elems + i, desc.maxLength;
    SplitSum(roots[i], a, b, x, roots[i + 1], Weights(ln, m), Weights(ln', m));
    HalfWeight(m, ln[x]);
  }

  lemma HalfWeight(m: nat, k: nat)
    requires k <= m
    ensures k < m ==> Pow2(m - k) == 2 * Pow2(m - (k + 1))
    ensures Pow2(m - m) == 1
  {
  }

  lemma CutAtMax(f: seq<nat>, desc: TreeDesc, roots: seq<set<nat>>, i: nat, ln: seq<nat>, ln': seq<nat>, a: nat,
      b: nat, v: nat, overflow: nat)
    requires Sons(f, desc, roots, i, ln, ln', a, b, v)
    requires ln[desc.elems + i] <= desc.maxLength && overflow % 2 == 0
    requires SumOn(roots[i + 1], AtLength(ln, desc.maxLength)) >= overflow / 2 + if overflow > 0 then 1 else 0
    ensures var x, m := desc.elems + i, desc.maxLength;
            var overflow' := if ln[x] + 1 > m then overflow + 2 else overflow;
            SumOn(roots[i], AtLength(ln', m)) >= overflow' / 2 + if overflow' > 0 then 1 else 0
  {
    hide Sum, SumOn, Masked;
    var x, m := desc.elems + i, desc.maxLength;
    SplitSum(roots[i], a, b, x, roots[i + 1], AtLength(ln, m), AtLength(ln', m));
    AtLeastOne(roots[i + 1], AtLength(ln, m), x);
  }

  lemma AtLeastOne(A: set<nat>, g: seq<nat>, x: nat)
    requires x in A && x < |g|
    ensures SumOn(A, g) >= g[x]
  {
    SumOnRemove(A, x, g);
  }

  lemma CutFathers(f: seq<nat>, desc: TreeDesc, roots: seq<set<nat>>, i: nat, ln: seq<nat>, ln': seq<nat>, a: nat,
      b: nat, v: nat)
    requires Sons(f, desc, roots, i, ln, ln', a, b, v)
    requires ln[desc.elems + i] < desc.maxLength && desc.elems + |roots| - 1 <= |f|
    requires SumOn(roots[i + 1], Costs(f, ln)) == FatherCost(f, desc.elems, i + 1, |roots| - 1)
    ensures SumOn(roots[i], Costs(f, ln')) == FatherCost(f, desc.elems, i, |roots| - 1)
  {
    hide Sum, SumOn, Masked;
    var x := desc.elems + i;
    SplitSum(roots[i], a, b, x, roots[i + 1], Costs(f, ln), Costs(f, ln'));
    SonsCost(f[a], f[b], f[x], ln[x]);
  }

  lemma SonsCost(fa: nat, fb: nat, fx: nat, k: nat)
    requires fx == fa + fb
    ensures fa * (k + 1) + fb * (k + 1) == fx * k + fx
  {
  }

  lemma CutCounts(f: seq<nat>, desc: TreeDesc, roots: seq<set<nat>>, i: nat, ln: seq<nat>, ln': seq<nat>, a: nat,
      b: nat, v: nat, k: nat)
    requires Sons(f, desc, roots, i, ln, ln', a, b, v)
    ensures SumOn(roots[i], LeafOf(ln', desc.elems, k))
         == SumOn(roots[i + 1], LeafOf(ln, desc.elems, k))
            + if k == v then Leaf(desc.elems, a) + Leaf(desc.elems, b) else 0
  {
    hide Sum, SumOn, Masked;
    SplitSum(roots[i], a, b, desc.elems + i, roots[i + 1], LeafOf(ln, desc.elems, k), LeafOf(ln', desc.elems, k));
  }

  function LeafCost(f: seq<nat>, desc: TreeDesc, c: nat, v: nat): nat
    requires DescOK(desc) && c < |f|
  {
    if c < desc.elems then f[c] * (v + XBits(desc, c)) else 0
  }

  function StaticCost(f: seq<nat>, desc: TreeDesc, c: nat): nat
    requires DescOK(desc) && c < |f|
  {
    if c < desc.elems && desc.stree != [] then f[c] * (desc.stree[c] + XBits(desc, c)) else 0
  }

  lemma CutCosts(f: seq<nat>, desc: TreeDesc, roots: seq<set<nat>>, i: nat, ln: seq<nat>, ln': seq<nat>, a: nat,
      b: nat, v: nat)
    requires DescOK(desc) && Sons(f, desc, roots, i, ln, ln', a, b, v)
    ensures SumOn(roots[i], LeafCosts(f, ln', desc))
         == SumOn(roots[i + 1], LeafCosts(f, ln, desc)) + LeafCost(f, desc, a, v) + LeafCost(f, desc, b, v)
    ensures SumOn(roots[i], StaticCosts(f, desc))
         == SumOn(roots[i + 1], StaticCosts(f, desc)) + StaticCost(f, desc, a) + StaticCost(f, desc, b)
  {
    hide Sum, SumOn, Masked, XBits;
    SplitSum(roots[i], a, b, desc.elems + i, roots[i + 1], LeafCosts(f, ln, desc), LeafCosts(f, ln', desc));
    SplitSum(roots[i], a, b, desc.elems + i, roots[i + 1], StaticCosts(f, desc), StaticCosts(f, desc));
  }

  // Giving the sons of merge i their length moves the cut down by one merge.
  lemma CutStep(f: seq<nat>, desc: TreeDesc, roots: seq<set<nat>>, i: nat, ln: seq<nat>, ln': seq<nat>, a: nat, b: nat,
      v: nat,
                bl: seq<nat>, overflow: nat, opt: int, sta: int)
    requires DescOK(desc) && Sons(f, desc, roots, i, ln, ln', a, b, v)
    requires Cut(f, desc, roots, i + 1, ln, bl, overflow, opt, sta)
    ensures v <= MAX_BITS && |bl| == MAX_BITS + 1
    ensures Cut(f, desc, roots, i, ln',
                CountSons(bl, v, Leaf(desc.elems, a) + Leaf(desc.elems, b)),
                if ln[desc.elems + i] + 1 > desc.maxLength then overflow + 2 else overflow,
                opt + LeafCost(f, desc, a, v) + LeafCost(f, desc, b, v),
                sta + StaticCost(f, desc, a) + StaticCost(f, desc, b))
  {
    hide Sum, SumOn, Masked, Weights, Costs, AtLength, LeafOf, LeafCosts, StaticCosts, LeafCost, StaticCost, Pow2,
      XBits, FatherCost;
    CutWeights(f, desc, roots, i, ln, ln', a, b, v, overflow);
    CutAtMax(f, desc, roots, i, ln, ln', a, b, v, overflow);
    if ln[desc.elems + i] < desc.maxLength && overflow == 0 { CutFathers(f, desc, roots, i, ln, ln', a, b, v); }
    forall k | 0 <= k <= MAX_BITS
      ensures CountSons(bl, v, Leaf(desc.elems, a) + Leaf(desc.elems, b))[k]
              == SumOn(roots[i], LeafOf(ln', desc.elems, k))
    {
      CutCounts(f, desc, roots, i, ln, ln', a, b, v, k);
    }
    CutCosts(f, desc, roots, i, ln, ln', a, b, v);
    forall c | c in roots[i]
      ensures c < |ln'| && ln'[c] <= desc.maxLength && (c < desc.elems ==> ln'[c] >= 1)
    {
      if c != a && c != b { assert c in roots[i + 1]; }
    }
  }

  // ---- The pass itself ----------------------------------------------------------------

  method LengthOne(tree: array<CtData>, n: nat, maxCode: int, blCount: array<nat>, desc: TreeDesc,
                   overflow0: nat, opt0: int, sta0: int)
    returns (overflow: nat, opt: int, sta: int)
    requires DescOK(desc) && n < tree.Length && tree[n].dl < tree.Length && blCount.Length == MAX_BITS + 1
    requires n <= maxCode <==> n < desc.elems
    modifies tree, blCount
    ensures var v := Clamp(old(tree[tree[n].dl].dl) + 1, desc.maxLength);
            && v <= MAX_BITS
            && tree[..] == old(tree[..][n := tree[n].(dl := v)])
            && blCount[..] == CountSons(old(blCount[..]), v, Leaf(desc.elems, n))
            && overflow == overflow0 + (if old(tree[tree[n].dl].dl) + 1 > desc.maxLength then 1 else 0)
            && opt == opt0 + LeafCost(old(Freqs(tree[..])), desc, n, v)
            && sta == sta0 + StaticCost(old(Freqs(tree[..])), desc, n)
  {
    overflow, opt, sta := overflow0, opt0, sta0;
    var bits := tree[tree[n].dl].dl + 1;
    if bits > desc.maxLength { bits, overflow := desc.maxLength, overflow + 1; }
    tree[n] := tree[n].(dl := bits);
    if n <= maxCode {
      blCount[bits] := blCount[bits] + 1;
      var xbits := if n >= desc.base then desc.extra[n - desc.base] else 0;
      var f := tree[n].fc;
      opt := opt + f * (bits + xbits);
      if desc.stree != [] { sta := sta + f * (desc.stree[n] + xbits); }
    }
  }

  lemma CutRoot(f: seq<nat>, desc: TreeDesc, roots: seq<set<nat>>, r: nat, ln: seq<nat>, bl: seq<nat>)
    requires DescOK(desc) && |roots| > 0 && roots[|roots| - 1] == {r} && desc.elems <= r < |f| == |ln|
    requires desc.elems + |roots| - 1 <= |f| && ln[r] == 0
    requires |bl| == MAX_BITS + 1 && forall b :: 0 <= b <= MAX_BITS ==> bl[b] == 0
    ensures Cut(f, desc, roots, |roots| - 1, ln, bl, 0, 0, 0)
  {
    hide Sum, SumOn, Masked, XBits;
    var m := desc.maxLength;
    SumSingle(r, Weights(ln, m));
    SumSingle(r, Costs(f, ln));
    SumSingle(r, AtLength(ln, m));
    SumSingle(r, LeafCosts(f, ln, desc));
    SumSingle(r, StaticCosts(f, desc));
    forall b | 0 <= b <= MAX_BITS ensures bl[b] == SumOn({r}, LeafOf(ln, desc.elems, b)) {
      SumSingle(r, LeafOf(ln, desc.elems, b));
    }
  }

  lemma SumSingle(r: nat, g: seq<nat>)
    requires r < |g|
    ensures SumOn({r}, g) == g[r]
  {
    hide Sum, SumOn, Masked;
    SumNone(g);
    SumOnAdd({}, r, g);
    assert {} + {r} == {r};
  }

  lemma SonsFacts(h: seq<nat>, t: seq<CtData>, desc: TreeDesc, roots: seq<set<nat>>, i: nat)
    requires Merges(h, Freqs(t), desc.elems, roots) && i + 1 < |roots| && Dads(h, t, desc.elems, i + 1)
    ensures var f, ln, a, b := Freqs(t), Lengths(t), First(h, i), Second(h, i);
            && a < |t| && b < |t| && desc.elems + i < |t| && a in roots[i] && b in roots[i]
            && a != b && a != desc.elems + i && b != desc.elems + i
            && t[a].dl == desc.elems + i && t[b].dl == desc.elems + i
            && var v := Clamp(ln[desc.elems + i] + 1, desc.maxLength);
               Sons(f, desc, roots, i, ln, ln[b := v][a := v], a, b, v)
  {
    assert MergeAt(h, Freqs(t), desc.elems, roots, i);
    assert First(h, i) in roots[i] && Second(h, i) in roots[i];
  }

  // The fathers of merges below i are still recorded once merge i is done.
  lemma DadsDown(h: seq<nat>, t: seq<CtData>, t': seq<CtData>, elems: nat, roots: seq<set<nat>>, i: nat)
    requires Merges(h, Freqs(t), elems, roots) && i + 1 < |roots| && Dads(h, t, elems, i + 1) && |t'| == |t|
    requires forall c :: 0 <= c < |t| && c != First(h, i) && c != Second(h, i) ==> t'[c] == t[c]
    ensures Dads(h, t', elems, i)
  {
    forall j | 0 <= j < i
      ensures First(h, j) < |t'| && Second(h, j) < |t'| && t'[First(h, j)].dl == elems + j
              && t'[Second(h, j)].dl == elems + j
    {
      MergedOnce(h, Freqs(t), elems, roots, j, i);
      assert MergeAt(h, Freqs(t), elems, roots, i);
    }
  }

  lemma SonIsLeaf(h: seq<nat>, f: seq<nat>, desc: TreeDesc, roots: seq<set<nat>>, i: nat, maxCode: int, n: nat)
    requires Merges(h, f, desc.elems, roots) && i < |roots| && n in roots[i]
    requires maxCode < desc.elems
    requires forall c: nat :: c in roots[0] && c < desc.elems ==> c <= maxCode
    ensures n < desc.elems ==> n in roots[0]
    ensures n <= maxCode <==> n < desc.elems
  {
    RootsShrink(h, f, desc.elems, roots, 0, i);
  }

  lemma LengthChange(t: seq<CtData>, t': seq<CtData>, c: nat, v: nat)
    requires c < |t| && t' == t[c := t[c].(dl := v)]
    ensures Freqs(t') == Freqs(t) && |Lengths(t)| == |t| && Lengths(t') == Lengths(t)[c := v]
  {
  }

  // The sons of merge i reach no deeper than their father.
  lemma PairWithin(h: seq<nat>, f: seq<nat>, D: seq<nat>, desc: TreeDesc, roots: seq<set<nat>>, i: nat, ln: seq<nat>,
                   v: nat, k: nat)
    requires i + 1 < |roots| && Ties(h, f, D, desc.elems, roots) && Within(roots[i + 1], ln, D, k)
    requires Merges(h, f, desc.elems, roots) && |ln| == |f| && desc.elems + i < |ln|
             && v == Clamp(ln[desc.elems + i] + 1, desc.maxLength)
    ensures var a, b := First(h, i), Second(h, i);
            a < |ln| && b < |ln| && Within(roots[i], ln[b := v][a := v], D, k)
            && (k <= desc.maxLength ==> ln[desc.elems + i] + 1 <= desc.maxLength)
  {
    assert TieAt(h, f, D, desc.elems, roots, i) && MergeAt(h, f, desc.elems, roots, i);
    var a, b, x := First(h, i), Second(h, i), desc.elems + i;
    assert x in roots[i + 1];
    forall c | c in roots[i] ensures c == a || c == b || c in roots[i + 1] {}
  }

  // The lengths of the two sons of merge i, at heap[hp] and heap[hp + 1].
  method LengthPair(tree: array<CtData>, heap: array<nat>, hp: nat, maxCode: int, blCount: array<nat>, desc: TreeDesc,
                    overflow0: nat, opt0: int, sta0: int, ghost optBase: int, ghost staBase: int,
                    ghost roots: seq<set<nat>>, ghost i: nat, ghost t0: seq<CtData>, ghost D: seq<nat>, ghost k: nat)
    returns (overflow: nat, opt: int, sta: int)
    requires DescOK(desc) && blCount.Length == MAX_BITS + 1 && heap != blCount
    requires i + 1 < |roots| && hp + 2 * (i + 1) == heap.Length && |t0| == tree.Length && desc.elems <= |t0|
    requires Merges(heap[..], Freqs(tree[..]), desc.elems, roots) && Dads(heap[..], tree[..], desc.elems, i + 1)
    requires Cut(Freqs(tree[..]), desc, roots, i + 1, Lengths(tree[..]), blCount[..], overflow0, opt0 - optBase,
               sta0 - staBase)
    requires Ties(heap[..], Freqs(tree[..]), D, desc.elems, roots) && Within(roots[i + 1], Lengths(tree[..]), D, k)
    requires maxCode < desc.elems
    requires forall c: nat :: c in roots[0] && c < desc.elems ==> c <= maxCode
    requires forall c :: 0 <= c < desc.elems && c !in roots[0] ==> tree[c] == t0[c]
    modifies tree, blCount
    ensures Freqs(tree[..]) == old(Freqs(tree[..])) && Dads(heap[..], tree[..], desc.elems, i)
    ensures Cut(Freqs(tree[..]), desc, roots, i, Lengths(tree[..]), blCount[..], overflow, opt - optBase, sta - staBase)
    ensures forall c :: 0 <= c < desc.elems && c !in roots[0] ==> tree[c] == t0[c]
    ensures Within(roots[i], Lengths(tree[..]), D, k) && (k <= desc.maxLength ==> overflow == overflow0)
  {
    hide Sum, SumOn, Masked, Cut, Merges, Dads, LeafCost, StaticCost, Freqs, Sons, Ties, Within;
    ghost var t, f, ln, bl := tree[..], Freqs(tree[..]), Lengths(tree[..]), blCount[..];
    ghost var h := heap[..];
    SonsFacts(h, t, desc, roots, i);
    var b, a := heap[hp], heap[hp + 1];
    assert b == Second(h, i) && a == First(h, i);
    SonIsLeaf(h, f, desc, roots, i, maxCode, a);
    SonIsLeaf(h, f, desc, roots, i, maxCode, b);
    ghost var x := desc.elems + i;
    ghost var v := Clamp(ln[x] + 1, desc.maxLength);
    PairWithin(h, f, D, desc, roots, i, ln, v, k);
    overflow, opt, sta := LengthOne(tree, b, maxCode, blCount, desc, overflow0, opt0, sta0);
    ghost var t1 := tree[..];
    LengthChange(t, t1, b, v);
    overflow, opt, sta := LengthOne(tree, a, maxCode, blCount, desc, overflow, opt, sta);
    ghost var t2 := tree[..];
    LengthChange(t1, t2, a, v);
    assert blCount[..] == CountSons(bl, v, Leaf(desc.elems, a) + Leaf(desc.elems, b));
    CutStep(f, desc, roots, i, ln, ln[b := v][a := v], a, b, v, bl, overflow0, opt0 - optBase, sta0 - staBase);
    DadsDown(h, t, t2, desc.elems, roots, i);
  }

  method AssignLengths(tree: array<CtData>, heap: array<nat>, heapMax: nat, maxCode: int, blCount: array<nat>,
      desc: TreeDesc,
                       opt0: int, sta0: int, ghost roots: seq<set<nat>>, ghost D: seq<nat>)
    returns (overflow: nat, opt: int, sta: int)
    requires DescOK(desc) && blCount.Length == MAX_BITS + 1 && |roots| >= 2 && heap != blCount
    requires heapMax + 2 * |roots| == heap.Length + 1 && desc.elems + |roots| - 1 <= tree.Length
    requires Merges(heap[..], Freqs(tree[..]), desc.elems, roots) && Dads(heap[..], tree[..], desc.elems, |roots| - 1)
    requires roots[|roots| - 1] == {heap[heapMax]} && heap[heapMax] == desc.elems + |roots| - 2
    requires maxCode < desc.elems
    requires forall n: nat :: n in roots[0] && n < desc.elems ==> n <= maxCode
    requires forall b :: 0 <= b <= MAX_BITS ==> blCount[b] == 0
    requires Ties(heap[..], Freqs(tree[..]), D, desc.elems, roots)
    modifies tree, blCount
    ensures Freqs(tree[..]) == old(Freqs(tree[..]))
    ensures Cut(Freqs(tree[..]), desc, roots, 0, Lengths(tree[..]), blCount[..], overflow, opt - opt0, sta - sta0)
    ensures forall c :: 0 <= c < desc.elems && c !in roots[0] ==> tree[c] == old(tree[c])
    ensures heap[heapMax] < |D| && Within(roots[0], Lengths(tree[..]), D, D[heap[heapMax]])
    ensures D[heap[heapMax]] <= desc.maxLength ==> overflow == 0
  {
    hide Sum, SumOn, Masked, Cut, Merges, Dads, LeafCost, StaticCost, Sons, Ties;
    ghost var f := Freqs(tree[..]);
    ghost var t0 := tree[..];
    overflow, opt, sta := 0, opt0, sta0;
    tree[heap[heapMax]] := tree[heap[heapMax]].(dl := 0);
    DadsRoot(heap[..], t0, tree[..], desc.elems, roots, heap[heapMax]);
    CutRoot(f, desc, roots, heap[heapMax], Lengths(tree[..]), blCount[..]);
    DepthsThere(heap[..], f, D, desc.elems, roots);
    var hp := heapMax + 1;
    ghost var i := |roots| - 1;
    while hp < heap.Length
      invariant 0 <= i < |roots| && hp + 2 * i == heap.Length
      invariant Freqs(tree[..]) == f && Dads(heap[..], tree[..], desc.elems, i)
      invariant Cut(f, desc, roots, i, Lengths(tree[..]), blCount[..], overflow, opt - opt0, sta - sta0)
      invariant forall c :: 0 <= c < desc.elems && c !in roots[0] ==> tree[c] == t0[c]
      invariant Within(roots[i], Lengths(tree[..]), D, D[heap[heapMax]])
      invariant D[heap[heapMax]] <= desc.maxLength ==> overflow == 0
      decreases i
    {
      i := i - 1;
      overflow, opt, sta := LengthPair(tree, heap, hp, maxCode, blCount, desc, overflow, opt, sta, opt0, sta0, roots,
        i, t0, D, D[heap[heapMax]]);
      hp := hp + 2;
    }
  }

  lemma DepthsThere(h: seq<nat>, f: seq<nat>, D: seq<nat>, elems: nat, roots: seq<set<nat>>)
    requires Ties(h, f, D, elems, roots)
    ensures |f| <= |D|
  {
  }

  lemma DadsRoot(h: seq<nat>, t: seq<CtData>, t': seq<CtData>, elems: nat, roots: seq<set<nat>>, r: nat)
    requires |roots| > 0 && Merges(h, Freqs(t), elems, roots) && Dads(h, t, elems, |roots| - 1)
    requires r in roots[|roots| - 1] && r < |t| && t' == t[r := t[r].(dl := 0)]
    ensures Freqs(t') == Freqs(t) && Dads(h, t', elems, |roots| - 1)
  {
    forall j | 0 <= j < |roots| - 1
      ensures First(h, j) < |t'| && Second(h, j) < |t'| && t'[First(h, j)].dl == elems + j
              && t'[Second(h, j)].dl == elems + j
    {
      MergedOnce(h, Freqs(t), elems, roots, j, |roots| - 1);
    }
  }
}
