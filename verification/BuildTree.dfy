// gen_bitlen and build_tree (trees.c): from frequencies to canonical codes.
module BuildTree {
  import opened Powers
  import opened Canonical
  import opened TreeCodes
  import opened HuffTheory
  import opened HuffHeap
  import opened HuffMerge
  import opened HuffDepth
  import opened HuffGrow
  import opened HuffLengths
  import opened HuffRepair

  const HEAP_SIZE: nat := 573

  // ---- What lengths are good for -----------------------------------------------------

  // No admissible lengths for the symbols of U cost less.
  ghost predicate Optimal(U: set<nat>, f: seq<nat>, ln: seq<nat>)
    requires |f| == |ln|
  {
    forall len: seq<nat>, L: nat :: |len| == |f| && Admissible(U, len, L) ==>
      SumOn(U, Costs(f, ln)) <= SumOn(U, Costs(f, len))
  }

  ghost predicate Limited(U: set<nat>, len: seq<nat>, k: nat)
  {
    forall c :: c in U ==> c < |len| && len[c] <= k
  }

  // There is an optimal code with lengths up to m.
  ghost predicate FitsOptimal(U: set<nat>, f: seq<nat>, m: nat)
  {
    exists len: seq<nat>, L: nat :: |len| == |f| && Admissible(U, len, L) && Limited(U, len, m) && Optimal(U, f, len)
  }

  // No optimal code has a smaller greatest length.
  ghost predicate Shallowest(U: set<nat>, f: seq<nat>, ln: seq<nat>)
  {
    forall len: seq<nat>, L: nat, k: nat ::
      |len| == |f| && Admissible(U, len, L) && Limited(U, len, k) && Optimal(U, f, len) ==> Limited(U, ln, k)
  }

  // What is to be said of the lengths: codes were cut off exactly when no optimal ones are
  // within the limit; if not, they are optimal and as shallow as can be; who occurs more
  // often has no longer code in any case.
  ghost predicate BestCodes(U: set<nat>, f: seq<nat>, ln: seq<nat>, m: nat, cut: bool)
  {
    |f| == |ln| && (!cut <==> FitsOptimal(U, f, m)) && (!cut ==> Optimal(U, f, ln) && Shallowest(U, f, ln))
    && Falling(U, f, ln)
  }

  lemma FathersOptimal(h: seq<nat>, f: seq<nat>, ln: seq<nat>, elems: nat, roots: seq<set<nat>>)
    requires Merges(h, f, elems, roots) && |ln| == |f| && elems + |roots| - 1 <= |f|
    requires SumOn(roots[0], Costs(f, ln)) == FatherCost(f, elems, 0, |roots| - 1)
    ensures Optimal(roots[0], f, ln)
  {
    hide Sum, SumOn, Masked, FatherCost, MergeAt, Admissible, Costs;
    forall len: seq<nat>, L: nat | |len| == |f| && Admissible(roots[0], len, L)
      ensures SumOn(roots[0], Costs(f, ln)) <= SumOn(roots[0], Costs(f, len))
    {
      LowerBound(h, f, elems, roots, 0, len, L);
    }
  }

  // Optimal lengths cost no more than those of any binary prefix code.
  lemma OptimalAmongPrefixCodes(U: set<nat>, f: seq<nat>, ln: seq<nat>, words: seq<Word>, L: nat)
    requires |f| == |ln| == |words| && Optimal(U, f, ln)
    requires PrefixFree(U, words) && forall i :: i in U ==> |words[i]| <= L
    ensures SumOn(U, Costs(f, ln)) <= SumOn(U, Costs(f, WordLens(words)))
  {
    hide Sum, SumOn, Masked, Costs;
    KraftInequality(U, words, L);
  }

  // ---- From sums over symbols to the canonical codes --------------------------------

  lemma {:induction false} SumCut(s: seq<nat>, k: nat)
    requires k <= |s| && forall i :: k <= i < |s| ==> s[i] == 0
    ensures Sum(s) == Sum(s[..k])
    decreases |s|
  {
    if k < |s| {
      SumCut(s[..|s| - 1], k);
      assert s[..|s| - 1][..k] == s[..k];
    } else {
      assert s[..k] == s;
    }
  }

  // The used symbols lie below n and the other ones below n have no length.
  ghost predicate UsedBelow(U: set<nat>, t: seq<CtData>, n: nat)
  {
    n <= |t| && (forall c :: c in U ==> c < n && t[c].dl > 0)
    && forall c :: 0 <= c < n && c !in U ==> t[c].dl == 0
  }

  lemma {:induction false} CountIsSum(U: set<nat>, t: seq<CtData>, n: nat, elems: nat, b: nat, k: nat)
    requires UsedBelow(U, t, n) && b > 0 && k <= n <= elems
    ensures CountTo(Lens(t, n), b, k) == Sum(Masked(U, LeafOf(Lengths(t), elems, b))[..k])
  {
    if k > 0 {
      CountIsSum(U, t, n, elems, b, k - 1);
      SumTake(Masked(U, LeafOf(Lengths(t), elems, b)), k - 1);
    }
  }

  lemma {:induction false} KraftIsSum(U: set<nat>, t: seq<CtData>, n: nat, M: nat, k: nat)
    requires UsedBelow(U, t, n) && k <= n && LengthsFit(Lens(t, n), M)
    ensures StartTo(Lens(t, n), M, M + 1, 0, k) == Sum(Masked(U, Weights(Lengths(t), M))[..k])
  {
    if k > 0 {
      KraftIsSum(U, t, n, M, k - 1);
      SumTake(Masked(U, Weights(Lengths(t), M)), k - 1);
    }
  }

  lemma ScaleWeights(U: set<nat>, ln: seq<nat>, m: nat, M: nat)
    requires m <= M && forall c :: c in U ==> c < |ln| && ln[c] <= m
    ensures SumOn(U, Weights(ln, M)) == Pow2(M - m) * SumOn(U, Weights(ln, m))
  {
    hide Sum, Pow2;
    var zeros := seq(|ln|, i => 0);
    var s, s2 := Masked(U, Weights(ln, M)), Masked(U, Weights(ln, m));
    forall i | 0 <= i < |s| ensures s[i] == zeros[i] + Pow2(M - m) * s2[i] {
      if i in U { Pow2Add(M - m, m - ln[i]); }
    }
    SumZeros(zeros);
    SumLinear(s, zeros, s2, Pow2(M - m));
  }

  // What gen_codes needs of the lengths.
  lemma ReadyForCodes(U: set<nat>, t: seq<CtData>, n: nat, elems: nat, bl: seq<nat>, m: nat, M: nat)
    requires UsedBelow(U, t, n) && n <= elems && CountsOf(bl, U, Lengths(t), elems)
    requires m <= M == MAX_BITS && forall c :: c in U ==> c < n && t[c].dl <= m
    requires SumOn(U, Weights(Lengths(t), m)) == Pow2(m)
    ensures LengthsFit(Lens(t, n), M) && Kraft(Lens(t, n), M) == Pow2(M)
    ensures CountsAre(bl, Lens(t, n))
  {
    hide Sum, Pow2, StartTo, CountTo;
    forall c | 0 <= c < n ensures t[c].dl <= M {
      if c in U { assert t[c].dl <= m; }
    }
    KraftIsSum(U, t, n, M, n);
    SumCut(Masked(U, Weights(Lengths(t), M)), n);
    ScaleWeights(U, Lengths(t), m, M);
    Pow2Add(M - m, m);
    forall b | 1 <= b <= MAX_BITS ensures bl[b] == Count(Lens(t, n), b) {
      CountIsSum(U, t, n, elems, b, n);
      SumCut(Masked(U, LeafOf(Lengths(t), elems, b)), n);
    }
    SumEmptyOn(U, LeafOf(Lengths(t), elems, 0));
  }

  // ---- gen_bitlen ------------------------------------------------------------------

  // At the end of the first pass the cut consists of the used symbols.
  lemma CutDone(f: seq<nat>, desc: TreeDesc, roots: seq<set<nat>>, ln: seq<nat>, bl: seq<nat>, overflow: nat, opt: int,
      sta: int)
    requires DescOK(desc) && Cut(f, desc, roots, 0, ln, bl, overflow, opt, sta)
    requires |roots[0]| <= Pow2(desc.maxLength) && forall c :: c in roots[0] ==> c < desc.elems
    ensures Overfull(bl, desc.maxLength, overflow, |roots[0]|)
    ensures CountsOf(bl, roots[0], ln, desc.elems)
    ensures forall c :: c in roots[0] ==> c < |ln| && 1 <= ln[c] <= desc.maxLength
    ensures forall b :: desc.maxLength < b <= MAX_BITS ==> bl[b] == 0
    ensures overflow == 0 ==> SumOn(roots[0], Weights(ln, desc.maxLength)) == Pow2(desc.maxLength)
  {
    hide Sum, SumOn, Masked, Pow2, CountKraft, CountTotal, FatherCost;
    var U, m := roots[0], desc.maxLength;
    CountsKraft(bl, U, ln, desc.elems, m);
    SumOnSame(U, LeafOf(ln, desc.elems, m), AtLength(ln, m));
  }

  // The lengths of the used symbols are a complete code of at most m bits, and
  // bl counts them.
  ghost predicate Complete(U: set<nat>, t: seq<CtData>, elems: nat, bl: seq<nat>, m: nat)
  {
    (forall c :: c in U ==> c < elems && c < |t| && 1 <= t[c].dl <= m)
    && SumOn(U, Weights(Lengths(t), m)) == Pow2(m)
    && CountsOf(bl, U, Lengths(t), elems)
  }

  lemma RepairDone(U: set<nat>, t: seq<CtData>, elems: nat, bl: seq<nat>, m: nat)
    requires Overfull(bl, m, 0, |U|) && CountsOf(bl, U, Lengths(t), elems)
    requires forall c :: c in U ==> c < elems && c < |t| && 1 <= t[c].dl <= m
    ensures Complete(U, t, elems, bl, m)
  {
    hide Sum, SumOn, Masked, Pow2, CountKraft, CountTotal;
    CountsKraft(bl, U, Lengths(t), elems, m);
  }

  // The symbols of U, the greatest of which is maxCode, have the canonical codes
  // of a complete set of lengths within the limit; no other symbol has a length.
  ghost predicate Coded(U: set<nat>, t: seq<CtData>, desc: TreeDesc, maxCode: int)
  {
    IsMaxCode(U, maxCode) && 0 <= maxCode < desc.elems
    && UsedBelow(U, t, maxCode + 1) && (forall c :: c in U ==> t[c].dl <= desc.maxLength)
    && LengthsFit(Lens(t, maxCode + 1), MAX_BITS)
    && Kraft(Lens(t, maxCode + 1), MAX_BITS) == Pow2(MAX_BITS)
    && (forall c :: c in U ==> t[c].fc == Code(Lens(t, maxCode + 1), MAX_BITS, c))
  }

  // G makes up for missing codes when fewer than two symbols are used.
  ghost predicate ForcedCodes(U: set<nat>, G: set<nat>)
  {
    G !! U && (forall c :: c in G ==> c <= 2) && |U + G| >= 2 && (G != {} ==> |U + G| == 2)
  }

  // The codes that may be forced have no extra bits.
  predicate SmallCodesPlain(desc: TreeDesc)
    requires DescOK(desc)
  {
    forall c :: 0 <= c <= 2 ==> XBits(desc, c) == 0
  }

  class Trees {
    const heap: array<nat>
    const depth: array<nat>
    const blCount: array<nat>
    var optLen: int
    var staticLen: int

    constructor ()
      ensures fresh(heap) && fresh(depth) && fresh(blCount) && Valid()
      ensures optLen == 0 && staticLen == 0
    {
      heap := new nat[HEAP_SIZE];
      depth := new nat[HEAP_SIZE];
      blCount := new nat[MAX_BITS + 1];
      optLen, staticLen := 0, 0;
    }

    ghost predicate Valid()
    {
      heap.Length == HEAP_SIZE && depth.Length == HEAP_SIZE && blCount.Length == MAX_BITS + 1
      && heap != depth && heap != blCount && depth != blCount
    }

    method GenBitlen(tree: array<CtData>, heapMax: nat, maxCode: int, desc: TreeDesc, ghost roots: seq<set<nat>>)
      returns (overflow: nat)
      requires Valid() && DescOK(desc) && |roots| >= 2 && desc.elems + |roots| - 1 <= tree.Length
      requires heapMax + 2 * |roots| == heap.Length + 1 && maxCode < desc.elems
      requires Merges(heap[..], Freqs(tree[..]), desc.elems, roots) && Dads(heap[..], tree[..], desc.elems, |roots| - 1)
      requires roots[|roots| - 1] == {heap[heapMax]} && heap[heapMax] == desc.elems + |roots| - 2
      requires |roots[0]| <= Pow2(desc.maxLength)
      requires forall c :: c in roots[0] ==> c < desc.elems && c <= maxCode
      requires Ties(heap[..], Freqs(tree[..]), depth[..], desc.elems, roots)
               && forall c :: c in roots[0] ==> depth[c] == 0
      modifies this, tree, blCount
      ensures Freqs(tree[..]) == old(Freqs(tree[..]))
      ensures Complete(roots[0], tree[..], desc.elems, blCount[..], desc.maxLength)
      ensures optLen == old(optLen) + SumOn(roots[0], LeafCosts(Freqs(tree[..]), Lengths(tree[..]), desc))
      ensures staticLen == old(staticLen) + SumOn(roots[0], StaticCosts(Freqs(tree[..]), desc))
      ensures forall c :: 0 <= c < desc.elems && c !in roots[0] ==> tree[c] == old(tree[c])
      ensures BestCodes(roots[0], Freqs(tree[..]), Lengths(tree[..]), desc.maxLength, overflow > 0)
    {
      hide Sum, SumOn, Masked, Pow2, Cut, Merges, Dads, CountsOf, Overfull, Listing, CountTotal, LeafCosts, StaticCosts,
        Optimal, Ties, Within, FitsOptimal, Shallowest, Falling, Rising, Admissible, FatherCost, Complete;
      ghost var U, f, h := roots[0], Freqs(tree[..]), heap[..];
      var bits := 0;
      while bits <= MAX_BITS
        invariant 0 <= bits <= MAX_BITS + 1 && forall b :: 0 <= b < bits ==> blCount[b] == 0
        invariant heap[..] == h && tree[..] == old(tree[..]) && optLen == old(optLen) && staticLen == old(staticLen)
      {
        blCount[bits] := 0;
        bits := bits + 1;
      }
      var opt, sta;
      overflow, opt, sta := AssignLengths(tree, heap, heapMax, maxCode, blCount, desc, optLen, staticLen, roots,
        depth[..]);
      CutDone(f, desc, roots, Lengths(tree[..]), blCount[..], overflow, opt - optLen, sta - staticLen);
      CutSums(f, desc, roots, Lengths(tree[..]), blCount[..], overflow, opt - optLen, sta - staticLen);
      ghost var r := heap[heapMax];
      ghost var ln := Lengths(tree[..]);
      if overflow > 0 { NoneFits(h, f, depth[..], desc.elems, roots, desc.maxLength, r); }
      if overflow == 0 {
        FathersOptimal(h, f, Lengths(tree[..]), desc.elems, roots);
        CutComplete(U, tree[..], desc.elems, blCount[..], desc.maxLength);
        TreeFits(U, f, ln, desc.maxLength);
        TreeShallowest(h, f, depth[..], desc.elems, roots, ln, r);
        OptimalFalls(U, f, ln, desc.maxLength);
      } else {
        ghost var lo := heap.Length - 2 * (|roots| - 1);
        ListingFacts(h, f, desc.elems, roots, maxCode);
        RecordRises(h, f, desc.elems, roots);
        FixCounts(blCount, desc.maxLength, overflow, |U|);
        OverfullFacts(blCount[..], desc.maxLength, |U|);
        opt := Reassign(tree, heap, maxCode, blCount, desc, opt, optLen, U, lo);
        RepairDone(U, tree[..], desc.elems, blCount[..], desc.maxLength);
      }
      optLen, staticLen := opt, sta;
    }

    // The first half of build_tree: from frequencies to the record of merges.
    method GrowTree(tree: array<CtData>, desc: TreeDesc)
      returns (maxCode: int, heapMax: nat, ghost G: set<nat>, ghost A: set<nat>, ghost roots: seq<set<nat>>)
      requires Valid() && DescOK(desc)
      requires 2 * desc.elems <= tree.Length + 1 <= HEAP_SIZE + 1 && 2 * desc.elems < HEAP_SIZE
      requires SumOn(Used(tree[..], desc.elems), Freqs(tree[..])) < 65534
      modifies this, tree, heap, depth
      ensures A == old(Used(tree[..], desc.elems)) + G && ForcedCodes(old(Used(tree[..], desc.elems)), G)
      ensures IsMaxCode(A, maxCode) && forall c :: c in A ==> c < desc.elems
      ensures |roots| == |A| >= 2 && roots[0] == A && desc.elems + |roots| - 1 <= tree.Length
      ensures heapMax + 2 * |roots| == heap.Length + 1
      ensures Merges(heap[..], Freqs(tree[..]), desc.elems, roots) && Dads(heap[..], tree[..], desc.elems, |roots| - 1)
      ensures roots[|roots| - 1] == {heap[heapMax]} && heap[heapMax] == desc.elems + |roots| - 2
      ensures forall c :: 0 <= c < desc.elems ==> tree[c].fc == if c in G then 1 else old(tree[c].fc)
      ensures forall c :: 0 <= c < desc.elems && c !in A ==> tree[c].dl == 0
      ensures optLen == old(optLen) - |G| && staticLen == old(staticLen) - SumOn(G, desc.stree)
      ensures Ties(heap[..], Freqs(tree[..]), depth[..], desc.elems, roots) && forall c :: c in A ==> depth[c] == 0
    {
      hide Sum, SumOn, Masked, Merges, Dads, Holds, HeapFrom, Used, Freqs, Forced, Cleared, DepthZero, IsMaxCode, Ties;
      ghost var t0 := tree[..];
      ghost var U := Used(t0, desc.elems);
      var heapLen;
      heapLen, maxCode := InitHeap(tree, desc.elems, heap, depth);
      heapLen, maxCode, optLen, staticLen, G :=
        ForceCodes(tree, desc.elems, heap, depth, heapLen, maxCode, desc.stree, optLen, staticLen);
      A := U + G;
      ghost var t1 := tree[..];
      Unmerged(t0, t1, G, A, desc.elems, heap[..], heapLen, depth[..]);
      Heapify(tree, heap, depth, heapLen, A);
      UsedAtFirst(tree[..], depth[..], A, desc.elems);
      heapMax, roots := MergeAll(tree, desc.elems, heap, depth, heapLen, A);
    }

    // The codes of tree for the frequencies it holds; G are the codes that had
    // to be forced so that there are two.
    method Build(tree: array<CtData>, desc: TreeDesc) returns (maxCode: int, overflow: nat, ghost G: set<nat>)
      requires Valid() && DescOK(desc) && SmallCodesPlain(desc)
      requires 2 * desc.elems <= tree.Length + 1 <= HEAP_SIZE + 1 && 2 * desc.elems < HEAP_SIZE
      requires desc.elems <= Pow2(desc.maxLength)
      requires SumOn(Used(tree[..], desc.elems), Freqs(tree[..])) < 65534
      modifies this, tree, heap, depth, blCount
      ensures ForcedCodes(old(Used(tree[..], desc.elems)), G)
      ensures Coded(old(Used(tree[..], desc.elems)) + G, tree[..], desc, maxCode)
      ensures forall c :: 0 <= c < desc.elems && c !in old(Used(tree[..], desc.elems)) + G ==> tree[c].dl == 0
      ensures BestCodes(old(Used(tree[..], desc.elems)) + G, old(Freqs(Forced(tree[..], G))), Lengths(tree[..]),
                        desc.maxLength, overflow > 0)
      ensures optLen == old(optLen)
                        + SumOn(old(Used(tree[..], desc.elems)), LeafCosts(old(Freqs(tree[..])), Lengths(tree[..]),
                           desc))
      ensures staticLen == old(staticLen)
                           + SumOn(old(Used(tree[..], desc.elems)), StaticCosts(old(Freqs(tree[..])), desc))
    {
      hide Sum, SumOn, Masked, Pow2, Merges, Dads, Used, Complete, Optimal, StartTo, CountTo, LeafCosts, StaticCosts,
        BestCodes, Costs, IsMaxCode, CountsOf, CountsAre, Code, LengthsFit, Coded, ForcedCodes, UsedBelow,
        SmallCodesPlain, Lengths;
      ghost var t0 := tree[..];
      ghost var A, roots;
      var heapMax;
      maxCode, heapMax, G, A, roots := GrowTree(tree, desc);
      MaxCodeBounds(A, maxCode, desc.elems);
      ghost var t2 := tree[..];
      overflow := GenBitlen(tree, heapMax, maxCode, desc, roots);
      ghost var t3 := tree[..];
      AfterLengths(t2, t3, A, desc.elems, desc.maxLength, maxCode, blCount[..]);
      ReadyForCodes(A, t3, maxCode + 1, desc.elems, blCount[..], desc.maxLength, MAX_BITS);
      ForcedCost(t0, t3, Used(t0, desc.elems), G, desc, blCount[..]);
      BestSame(A, Freqs(t3), Freqs(Forced(t0, G)), Lengths(t3), desc.maxLength, overflow > 0);
      GenCodes(tree, maxCode, blCount);
      AfterCodes(t3, tree[..], A, maxCode, desc);
      SameLengths(t3, tree[..], desc.elems);
    }
  }

  lemma SameLengths(t3: seq<CtData>, t4: seq<CtData>, n: nat)
    requires |t3| == |t4| && n <= |t3| && Lengths(t4) == Lengths(t3)
    ensures forall c :: 0 <= c < n ==> t4[c].dl == t3[c].dl
  {
    forall c | 0 <= c < n ensures t4[c].dl == t3[c].dl { assert Lengths(t4)[c] == Lengths(t3)[c]; }
  }

  lemma UsedAtFirst(t: seq<CtData>, d: seq<nat>, A: set<nat>, elems: nat)
    requires elems <= |t| && A == Used(t, elems) && DepthZero(d, A)
    ensures forall c :: c in A ==> c < |t| && t[c].fc > 0 && c < |d| && d[c] == 0
  {
  }

  // ---- How deep codes must be --------------------------------------------------------------

  // An optimal code reaches as deep as the tree.
  lemma OptimalReaches(h: seq<nat>, f: seq<nat>, D: seq<nat>, elems: nat, roots: seq<set<nat>>, len: seq<nat>, L: nat,
                       k: nat, r: nat)
    requires Merges(h, f, elems, roots) && Ties(h, f, D, elems, roots) && elems + |roots| - 1 <= |f|
    requires roots[|roots| - 1] == {r} && r < |f| && forall c :: c in roots[0] ==> c < |D| && D[c] == 0
    requires |len| == |f| && Admissible(roots[0], len, L) && Limited(roots[0], len, k) && Optimal(roots[0], f, len)
    ensures r < |D| && D[r] <= k
  {
    hide Sum, SumOn, Masked, MergeAt, TieAt, Admissible, FatherCost, Costs;
    var best, L1 := Attained(h, f, D, elems, roots, 0, r);
    assert SumOn(roots[0], Costs(f, len)) <= SumOn(roots[0], Costs(f, best));
    Shallow(h, f, D, elems, roots, 0, len, L, k, r);
  }

  lemma NoneFits(h: seq<nat>, f: seq<nat>, D: seq<nat>, elems: nat, roots: seq<set<nat>>, m: nat, r: nat)
    requires Merges(h, f, elems, roots) && Ties(h, f, D, elems, roots) && elems + |roots| - 1 <= |f|
    requires roots[|roots| - 1] == {r} && r < |f| && forall c :: c in roots[0] ==> c < |D| && D[c] == 0
    requires r < |D| && D[r] > m
    ensures !FitsOptimal(roots[0], f, m)
  {
    hide MergeAt, TieAt, Admissible, Optimal, Limited;
    forall len: seq<nat>, L: nat |
      |len| == |f| && Admissible(roots[0], len, L) && Limited(roots[0], len, m) && Optimal(roots[0], f, len)
      ensures false
    {
      OptimalReaches(h, f, D, elems, roots, len, L, m, r);
    }
  }

  lemma TreeFits(U: set<nat>, f: seq<nat>, ln: seq<nat>, m: nat)
    requires |ln| == |f| && Admissible(U, ln, m) && Optimal(U, f, ln)
    ensures FitsOptimal(U, f, m)
  {
    hide SumOn, Weights, Optimal;
    assert Limited(U, ln, m);
  }

  lemma TreeShallowest(h: seq<nat>, f: seq<nat>, D: seq<nat>, elems: nat, roots: seq<set<nat>>, ln: seq<nat>, r: nat)
    requires Merges(h, f, elems, roots) && Ties(h, f, D, elems, roots) && elems + |roots| - 1 <= |f|
    requires roots[|roots| - 1] == {r} && r < |f| && forall c :: c in roots[0] ==> c < |D| && D[c] == 0
    requires r < |D| && Within(roots[0], ln, D, D[r])
    ensures Shallowest(roots[0], f, ln)
  {
    hide MergeAt, TieAt, Admissible, Optimal;
    forall len: seq<nat>, L: nat, k: nat |
      |len| == |f| && Admissible(roots[0], len, L) && Limited(roots[0], len, k) && Optimal(roots[0], f, len)
      ensures Limited(roots[0], ln, k)
    {
      OptimalReaches(h, f, D, elems, roots, len, L, k, r);
    }
  }

  // An exchange of a shorter code for a longer one would gain.
  lemma OptimalFalls(U: set<nat>, f: seq<nat>, ln: seq<nat>, L: nat)
    requires |ln| == |f| && Admissible(U, ln, L) && Optimal(U, f, ln)
    ensures Falling(U, f, ln)
  {
    hide Sum, SumOn, Masked, Optimal;
    forall a, b | a in U && b in U && f[a] < f[b] && ln[a] < ln[b] ensures false {
      var len := Swap(ln, a, b);
      Exchange(U, f, ln, L, a, b);
      SumSwap(U, Costs(f, ln), Costs(f, len), a, b);
      CostNoLess(U, f, ln, len, L);
      NoGain(f[a], f[b], ln[a], ln[b]);
    }
  }

  lemma CostNoLess(U: set<nat>, f: seq<nat>, ln: seq<nat>, len: seq<nat>, L: nat)
    requires |f| == |ln| == |len| && Optimal(U, f, ln) && Admissible(U, len, L)
    ensures SumOn(U, Costs(f, ln)) <= SumOn(U, Costs(f, len))
  {
    hide Sum, SumOn, Masked, Admissible, Costs;
  }

  lemma CutComplete(U: set<nat>, t: seq<CtData>, elems: nat, bl: seq<nat>, m: nat)
    requires CountsOf(bl, U, Lengths(t), elems) && SumOn(U, Weights(Lengths(t), m)) == Pow2(m)
    requires forall c :: c in U ==> c < elems && c < |t| && 1 <= t[c].dl <= m
    ensures Complete(U, t, elems, bl, m) && Admissible(U, Lengths(t), m)
  {
    hide Sum, SumOn, Masked, CountsOf;
  }

  lemma MaxCodeBounds(A: set<nat>, maxCode: int, elems: nat)
    requires IsMaxCode(A, maxCode) && A != {} && forall c :: c in A ==> c < elems
    ensures 0 <= maxCode < elems && |A| <= elems
    ensures forall c :: c in A ==> c < elems && c <= maxCode
  {
    BoundedSet(A, elems);
  }

  // The tree between forcing codes and merging.
  lemma Unmerged(t0: seq<CtData>, t1: seq<CtData>, G: set<nat>, A: set<nat>, elems: nat, h: seq<nat>, len: nat,
      d: seq<nat>)
    requires elems <= |t0| <= |d| && t1 == Forced(Cleared(t0, elems), G) && elems < |h|
    requires A == Used(t0, elems) + G && Used(t1, elems) == A && G !! Used(t0, elems)
    requires Holds(h, len, A) && |A| == len && (G != {} ==> len == 2)
    requires SumOn(Used(t0, elems), Freqs(t0)) < 65534
    ensures forall c :: c in A ==> c < elems
    ensures NodesOK(h, len, t1, d) && len <= elems
    ensures SumOn(A, Freqs(t1)) < 65536
    ensures forall c :: 0 <= c < elems ==> t1[c].fc == if c in G then 1 else t0[c].fc
    ensures forall c :: 0 <= c < elems && c !in A ==> t1[c].dl == 0
  {
    hide Sum, SumOn, Masked;
    forall j | 1 <= j <= len ensures h[j] < |t1| && h[j] < |d| { HoldsIn(h, len, A, j); }
    BoundedSet(A, elems);
    var U := Used(t0, elems);
    SumUnion(U, G, Freqs(t1));
    SumOnSame(U, Freqs(t0), Freqs(t1));
    SumOnes(G, Freqs(t1));
    SubsetSize(G, A);
    if G == {} { SumNone(Freqs(t1)); }
  }

  lemma {:induction false} BoundedSet(A: set<nat>, n: nat)
    requires forall c :: c in A ==> c < n
    ensures |A| <= n
  {
    if n == 0 {
      assert A == {};
    } else {
      BoundedSet(A - {n - 1}, n - 1);
      if n - 1 in A { assert A == (A - {n - 1}) + {n - 1}; } else { assert A - {n - 1} == A; }
    }
  }

  lemma AfterLengths(t2: seq<CtData>, t3: seq<CtData>, A: set<nat>, elems: nat, m: nat, maxCode: int, bl: seq<nat>)
    requires Complete(A, t3, elems, bl, m) && |t2| == |t3| && elems <= |t2| && IsMaxCode(A, maxCode) && A != {}
    requires forall c :: 0 <= c < elems && c !in A ==> t3[c] == t2[c] && t2[c].dl == 0
    ensures 0 <= maxCode < elems && UsedBelow(A, t3, maxCode + 1)
    ensures CountsOf(bl, A, Lengths(t3), elems) && SumOn(A, Weights(Lengths(t3), m)) == Pow2(m)
    ensures forall c :: c in A ==> c < maxCode + 1 && t3[c].dl <= m
  {
    hide Sum, SumOn, Masked, Pow2, CountsOf;
  }

  lemma AfterCodes(t3: seq<CtData>, t4: seq<CtData>, A: set<nat>, maxCode: int, desc: TreeDesc)
    requires IsMaxCode(A, maxCode) && 0 <= maxCode < |t3| && maxCode < desc.elems
    requires UsedBelow(A, t3, maxCode + 1) && LengthsFit(Lens(t3, maxCode + 1), MAX_BITS)
    requires Kraft(Lens(t3, maxCode + 1), MAX_BITS) == Pow2(MAX_BITS)
    requires t4 == WithCodes(t3, Lens(t3, maxCode + 1), maxCode + 1)
    requires forall c :: c in A ==> c < maxCode + 1 && t3[c].dl <= desc.maxLength
    ensures Lengths(t4) == Lengths(t3) && Coded(A, t4, desc, maxCode)
  {
    hide StartTo, Code, Pow2;
    assert Lens(t4, maxCode + 1) == Lens(t3, maxCode + 1);
    forall c | c in A
      ensures c < |t4| && t4[c].dl <= desc.maxLength && t4[c].fc == Code(Lens(t3, maxCode + 1), MAX_BITS, c)
    {
      assert t3[c].dl > 0;
    }
  }

  // Optimality only looks at the frequencies of the used symbols.
  lemma OptimalSame(A: set<nat>, f: seq<nat>, f': seq<nat>, ln: seq<nat>)
    requires |f| == |f'| == |ln| && Optimal(A, f, ln) && forall c :: c in A ==> c < |f| && f[c] == f'[c]
    ensures Optimal(A, f', ln)
  {
    hide Sum, SumOn, Masked, Admissible;
    forall len: seq<nat>, L: nat | |len| == |f'| && Admissible(A, len, L)
      ensures SumOn(A, Costs(f', ln)) <= SumOn(A, Costs(f', len))
    {
      SumOnSame(A, Costs(f, ln), Costs(f', ln));
      SumOnSame(A, Costs(f, len), Costs(f', len));
    }
  }

  lemma BestSame(A: set<nat>, f: seq<nat>, f': seq<nat>, ln: seq<nat>, m: nat, cut: bool)
    requires |f| == |f'| && BestCodes(A, f, ln, m, cut) && forall c :: c in A ==> c < |f| && f[c] == f'[c]
    ensures BestCodes(A, f', ln, m, cut)
  {
    hide Optimal, Admissible, Limited;
    forall len: seq<nat> | |len| == |f| ensures Optimal(A, f, len) <==> Optimal(A, f', len) {
      OptimalAlike(A, f, f', len);
    }
    if FitsOptimal(A, f, m) {
      var len: seq<nat>, L: nat :|
        |len| == |f| && Admissible(A, len, L) && Limited(A, len, m) && Optimal(A, f, len);
      assert Optimal(A, f', len);
    }
    if FitsOptimal(A, f', m) {
      var len: seq<nat>, L: nat :|
        |len| == |f'| && Admissible(A, len, L) && Limited(A, len, m) && Optimal(A, f', len);
      assert Optimal(A, f, len);
    }
  }

  lemma OptimalAlike(A: set<nat>, f: seq<nat>, f': seq<nat>, ln: seq<nat>)
    requires |f| == |f'| == |ln| && forall c :: c in A ==> c < |f| && f[c] == f'[c]
    ensures Optimal(A, f, ln) <==> Optimal(A, f', ln)
  {
    hide Optimal;
    if Optimal(A, f, ln) { OptimalSame(A, f, f', ln); }
    if Optimal(A, f', ln) { OptimalSame(A, f', f, ln); }
  }

  // With two codes, both have one bit.
  lemma TwoCodes(A: set<nat>, t: seq<CtData>, elems: nat, bl: seq<nat>, m: nat)
    requires Complete(A, t, elems, bl, m) && |A| == 2
    ensures forall c :: c in A ==> t[c].dl == 1
  {
    hide Sum, SumOn, Masked, CountsOf;
    var w := Weights(Lengths(t), m);
    forall c | c in A ensures t[c].dl == 1 {
      var B := A - {c};
      assert |B| == 1;
      var d :| d in B;
      OneElement(B, d, d);
      SumOnRemove(A, c, w);
      SumSingle(d, w);
      assert w[c] == Pow2(m - t[c].dl) && w[d] == Pow2(m - t[d].dl);
      Pow2Mono(m - t[c].dl, m - 1);
      Pow2Mono(m - t[d].dl, m - 1);
      if t[c].dl > 1 { Pow2Mono(m - t[c].dl, m - 2); assert Pow2(m - 1) == 2 * Pow2(m - 2); }
    }
  }

  // Forced codes cost the bits that were deducted for them, so the lengths
  // grow by the cost of the symbols really used.
  lemma ForcedCost(t0: seq<CtData>, t3: seq<CtData>, U: set<nat>, G: set<nat>, desc: TreeDesc, bl: seq<nat>)
    requires DescOK(desc) && SmallCodesPlain(desc) && ForcedCodes(U, G) && |t0| == |t3| && desc.elems <= |t0|
    requires Complete(U + G, t3, desc.elems, bl, desc.maxLength)
    requires forall c :: 0 <= c < desc.elems ==> t3[c].fc == if c in G then 1 else t0[c].fc
    ensures SumOn(U + G, LeafCosts(Freqs(t3), Lengths(t3), desc))
         == SumOn(U, LeafCosts(Freqs(t0), Lengths(t3), desc)) + |G|
    ensures SumOn(U + G, StaticCosts(Freqs(t3), desc)) == SumOn(U, StaticCosts(Freqs(t0), desc)) + SumOn(G, desc.stree)
  {
    hide Sum, SumOn, Masked, CountsOf, Pow2;
    var g, s := LeafCosts(Freqs(t3), Lengths(t3), desc), StaticCosts(Freqs(t3), desc);
    SumUnion(U, G, g);
    SumUnion(U, G, s);
    assert forall c :: c in U ==> c in U + G;
    assert forall c :: c in G ==> c in U + G;
    SumOnSame(U, g, LeafCosts(Freqs(t0), Lengths(t3), desc));
    SumOnSame(U, s, StaticCosts(Freqs(t0), desc));
    if G == {} {
      SumNone(g);
      SumNone(s);
      SumNone(desc.stree);
    } else {
      TwoCodes(U + G, t3, desc.elems, bl, desc.maxLength);
      SumOnes(G, g);
      StaticForced(G, t3, desc);
    }
  }

  lemma StaticForced(G: set<nat>, t: seq<CtData>, desc: TreeDesc)
    requires DescOK(desc) && SmallCodesPlain(desc) && desc.elems <= |t|
    requires forall c :: c in G ==> c <= 2 && t[c].fc == 1
    ensures SumOn(G, StaticCosts(Freqs(t), desc)) == SumOn(G, desc.stree)
  {
    hide Sum, SumOn, Masked;
    if desc.stree == [] {
      SumEmptyOn(G, StaticCosts(Freqs(t), desc));
      SumEmptyOn(G, desc.stree);
    } else {
      SumOnSameAnyLength(G, StaticCosts(Freqs(t), desc), desc.stree);
    }
  }

  lemma {:induction false} SumOnSameAnyLength(G: set<nat>, g: seq<nat>, g': seq<nat>)
    requires forall c :: c in G ==> c < |g| && c < |g'| && g[c] == g'[c]
    ensures SumOn(G, g) == SumOn(G, g')
    decreases G
  {
    hide Sum, SumOn, Masked;
    if G == {} {
      SumNone(g);
      SumNone(g');
    } else {
      var x :| x in G;
      SumOnRemove(G, x, g);
      SumOnRemove(G, x, g');
      SumOnSameAnyLength(G - {x}, g, g');
    }
  }

  lemma OverfullFacts(bl: seq<nat>, m: nat, n: nat)
    requires Overfull(bl, m, 0, n)
    ensures |bl| == MAX_BITS + 1 && m <= MAX_BITS && CountTotal(bl, m) == n && bl[0] == 0
  {
  }

  lemma CutSums(f: seq<nat>, desc: TreeDesc, roots: seq<set<nat>>, ln: seq<nat>, bl: seq<nat>, overflow: nat, opt: int,
      sta: int)
    requires DescOK(desc) && Cut(f, desc, roots, 0, ln, bl, overflow, opt, sta)
    ensures opt == SumOn(roots[0], LeafCosts(f, ln, desc)) && sta == SumOn(roots[0], StaticCosts(f, desc))
    ensures overflow == 0 ==> SumOn(roots[0], Costs(f, ln)) == FatherCost(f, desc.elems, 0, |roots| - 1)
  {
  }

  lemma ListingFacts(h: seq<nat>, f: seq<nat>, elems: nat, roots: seq<set<nat>>, maxCode: int)
    requires Merges(h, f, elems, roots) && |roots| >= 2 && roots[|roots| - 1] == {elems + |roots| - 2}
    requires maxCode < elems && forall c :: c in roots[0] ==> c < elems && c <= maxCode
    ensures Listing(h, roots[0], |h| - 2 * (|roots| - 1))
    ensures forall p :: |h| - 2 * (|roots| - 1) <= p < |h| ==> (h[p] <= maxCode <==> h[p] in roots[0])
  {
    hide MergeAt;
    RecordLists(h, f, elems, roots);
    forall p | |h| - 2 * (|roots| - 1) <= p < |h| ensures h[p] <= maxCode <==> h[p] in roots[0] {
      RecordNode(h, f, elems, roots, p);
      RootsShrink(h, f, elems, roots, 0, MergeOf(h, p));
    }
  }
}
