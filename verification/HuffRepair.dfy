// gen_bitlen (trees.c), second part: when codes were cut off at the greatest
// length, moving leaves down the tree until the counts fit again, and giving
// the leaves their new lengths in order of frequency.
module HuffRepair {
  import opened Powers
  import opened TreeCodes
  import opened HuffTheory
  import opened HuffMerge
  import opened HuffGrow
  import opened HuffLengths

  // ---- Counts per length -------------------------------------------------------------

  // The Kraft sum of the counts up to length B, in units of 2^-m, and their total.
  function CountKraft(bl: seq<nat>, m: nat, B: nat): nat
    requires B < |bl| && B <= m
  {
    bl[B] * Pow2(m - B) + if B == 0 then 0 else CountKraft(bl, m, B - 1)
  }

  function CountTotal(bl: seq<nat>, B: nat): nat
    requires B < |bl|
  {
    bl[B] + if B == 0 then 0 else CountTotal(bl, B - 1)
  }

  lemma {:induction false} CountUpdate(bl: seq<nat>, m: nat, B: nat, b: nat, v: nat)
    requires B < |bl| && B <= m && b < |bl|
    ensures CountKraft(bl[b := v], m, B) == CountKraft(bl, m, B) + if b <= B then (v - bl[b]) * Pow2(m - b) else 0
    ensures CountTotal(bl[b := v], B) == CountTotal(bl, B) + if b <= B then v - bl[b] else 0
  {
    if b == B { Distribute(v - bl[b], bl[b], Pow2(m - b)); }
    if B > 0 { CountUpdate(bl, m, B - 1, b, v); }
  }

  lemma {:induction false} CountNone(bl: seq<nat>, m: nat, B: nat)
    requires B < |bl| && B <= m && forall b :: 0 <= b <= B ==> bl[b] == 0
    ensures CountKraft(bl, m, B) == 0 && CountTotal(bl, B) == 0
  {
    if B > 0 { CountNone(bl, m, B - 1); }
  }

  function WeightsUpTo(ln: seq<nat>, m: nat, B: nat): (g: seq<nat>)
    ensures |g| == |ln|
  {
    seq(|ln|, i requires 0 <= i < |ln| => if ln[i] <= B && ln[i] <= m then Pow2(m - ln[i]) else 0)
  }

  function OnesUpTo(ln: seq<nat>, B: nat): (g: seq<nat>)
    ensures |g| == |ln|
  {
    seq(|ln|, i requires 0 <= i < |ln| => if ln[i] <= B then 1 else 0)
  }

  // bl counts the leaves of U by length.
  ghost predicate CountsOf(bl: seq<nat>, U: set<nat>, ln: seq<nat>, elems: nat)
  {
    |bl| == MAX_BITS + 1 && forall b :: 0 <= b <= MAX_BITS ==> bl[b] == SumOn(U, LeafOf(ln, elems, b))
  }

  lemma {:induction false} CountsUpTo(bl: seq<nat>, U: set<nat>, ln: seq<nat>, elems: nat, m: nat, B: nat)
    requires CountsOf(bl, U, ln, elems) && B <= m <= MAX_BITS
    requires forall c :: c in U ==> c < elems && c < |ln| && 1 <= ln[c]
    ensures CountKraft(bl, m, B) == SumOn(U, WeightsUpTo(ln, m, B))
    ensures CountTotal(bl, B) == SumOn(U, OnesUpTo(ln, B))
  {
    hide Sum, Pow2;
    var s2 := Masked(U, LeafOf(ln, elems, B));
    if B == 0 {
      SumZeros(s2);
      SumZeros(Masked(U, WeightsUpTo(ln, m, 0)));
      SumZeros(Masked(U, OnesUpTo(ln, 0)));
    } else {
      CountsUpTo(bl, U, ln, elems, m, B - 1);
      SumLinear(Masked(U, WeightsUpTo(ln, m, B)), Masked(U, WeightsUpTo(ln, m, B - 1)), s2, Pow2(m - B));
      SumLinear(Masked(U, OnesUpTo(ln, B)), Masked(U, OnesUpTo(ln, B - 1)), s2, 1);
    }
  }

  lemma {:induction false} SumOnes(U: set<nat>, g: seq<nat>)
    requires forall c :: c in U ==> c < |g| && g[c] == 1
    ensures SumOn(U, g) == |U|
    decreases U
  {
    hide Sum, Masked, SumOn;
    if U == {} {
      SumNone(g);
    } else {
      var x :| x in U;
      SumOnRemove(U, x, g);
      SumOnes(U - {x}, g);
    }
  }

  // The counts' Kraft sum is that of the lengths, and they count all of U.
  lemma CountsKraft(bl: seq<nat>, U: set<nat>, ln: seq<nat>, elems: nat, m: nat)
    requires CountsOf(bl, U, ln, elems) && m <= MAX_BITS
    requires forall c :: c in U ==> c < elems && c < |ln| && 1 <= ln[c] <= m
    ensures CountKraft(bl, m, m) == SumOn(U, Weights(ln, m))
    ensures CountTotal(bl, m) == |U| && bl[0] == 0
    ensures forall b :: m < b <= MAX_BITS ==> bl[b] == 0
  {
    hide Sum, Pow2, SumOn, Masked;
    CountsUpTo(bl, U, ln, elems, m, m);
    SumOnSame(U, WeightsUpTo(ln, m, m), Weights(ln, m));
    SumOnes(U, OnesUpTo(ln, m));
    forall b | b == 0 || m < b <= MAX_BITS ensures bl[b] == 0 {
      SumEmptyOn(U, LeafOf(ln, elems, b));
    }
  }

  lemma SumEmptyOn(U: set<nat>, g: seq<nat>)
    requires forall c :: c in U && c < |g| ==> g[c] == 0
    ensures SumOn(U, g) == 0
  {
    SumZeros(Masked(U, g));
  }

  // ---- Moving leaves down ---------------------------------------------------------

  // The state of the repair: the counts exceed the space by overflow / 2.
  ghost predicate Overfull(bl: seq<nat>, m: nat, overflow: nat, n: nat)
  {
    0 < m <= MAX_BITS && |bl| == MAX_BITS + 1 && overflow % 2 == 0 && bl[0] == 0
    && CountKraft(bl, m, m) == Pow2(m) + overflow / 2
    && CountTotal(bl, m) == n <= Pow2(m)
    && bl[m] >= overflow / 2 + if overflow > 0 then 1 else 0
  }

  // While the counts exceed the space, some leaf is not yet at the bottom.
  lemma LeafAbove(bl: seq<nat>, m: nat, overflow: nat, n: nat)
    requires Overfull(bl, m, overflow, n) && overflow > 0
    ensures exists b :: 0 < b < m && bl[b] > 0
  {
    if forall b :: 0 < b < m ==> bl[b] == 0 {
      assert Pow2(m - m) == 1;
      CountNone(bl, m, m - 1);
      assert false;
    }
  }

  // One leaf of length `bits` and one cut-off leaf become brothers a level down.
  function Moved(bl: seq<nat>, bits: nat, m: nat): (r: seq<nat>)
    requires 0 < bits < m < |bl| && bl[bits] > 0 && bl[m] > 0
    ensures |r| == |bl|
  {
    var bl1 := bl[bits := bl[bits] - 1];
    var bl2 := bl1[bits + 1 := bl1[bits + 1] + 2];
    bl2[m := bl2[m] - 1]
  }

  lemma MoveLeaf(bl: seq<nat>, m: nat, overflow: nat, n: nat, bits: nat)
    requires Overfull(bl, m, overflow, n) && overflow > 0 && 0 < bits < m && bl[bits] > 0
    ensures bl[m] > 0 && Overfull(Moved(bl, bits, m), m, overflow - 2, n)
    ensures forall b :: m < b <= MAX_BITS ==> Moved(bl, bits, m)[b] == bl[b]
  {
    hide CountKraft, CountTotal, Pow2;
    var bl1 := bl[bits := bl[bits] - 1];
    var bl2 := bl1[bits + 1 := bl1[bits + 1] + 2];
    MoveWeights(m, bits);
    CountUpdate(bl, m, m, bits, bl[bits] - 1);
    CountUpdate(bl1, m, m, bits + 1, bl1[bits + 1] + 2);
    CountUpdate(bl2, m, m, m, bl2[m] - 1);
  }

  lemma MoveWeights(m: nat, bits: nat)
    requires bits < m
    ensures Pow2(m - bits) == 2 * Pow2(m - (bits + 1)) && Pow2(m - m) == 1
  {
  }

  // The greatest length up to b that a leaf has, or zero.
  function Deepest(bl: seq<nat>, b: nat): (r: nat)
    requires b < |bl|
    ensures r <= b && (r > 0 ==> bl[r] > 0) && forall k :: r < k <= b ==> bl[k] == 0
  {
    if b == 0 || bl[b] > 0 then b else Deepest(bl, b - 1)
  }

  lemma {:induction false} DeepestIs(bl: seq<nat>, b: nat, r: nat)
    requires r <= b < |bl| && bl[r] > 0 && forall k :: r < k <= b ==> bl[k] == 0
    ensures Deepest(bl, b) == r
  {
    if r < b { DeepestIs(bl, b - 1, r); }
  }

  // Each round moves a leaf that is as deep as it can be without being at the limit.
  function Repaired(bl: seq<nat>, m: nat, rounds: nat): (r: seq<nat>)
    requires 0 < m < |bl|
    ensures |r| == |bl|
    decreases rounds
  {
    var d := Deepest(bl, m - 1);
    if rounds == 0 || d == 0 || bl[m] == 0 then bl else Repaired(Moved(bl, d, m), m, rounds - 1)
  }

  method FixCounts(blCount: array<nat>, m: nat, overflow0: nat, ghost n: nat)
    requires Overfull(blCount[..], m, overflow0, n) && overflow0 > 0
    modifies blCount
    ensures Overfull(blCount[..], m, 0, n)
    ensures forall b :: m < b <= MAX_BITS ==> blCount[b] == old(blCount[b])
    ensures 0 < m < blCount.Length && blCount[..] == old(Repaired(blCount[..], m, overflow0 / 2))
  {
    hide CountKraft, CountTotal, Pow2, Repaired, Deepest, Moved;
    var overflow := overflow0;
    while overflow > 0
      invariant overflow % 2 == 0 && Overfull(blCount[..], m, overflow, n)
      invariant Repaired(blCount[..], m, overflow / 2) == old(Repaired(blCount[..], m, overflow0 / 2))
      invariant forall b :: m < b <= MAX_BITS ==> blCount[b] == old(blCount[b])
      decreases overflow
    {
      ghost var bl := blCount[..];
      LeafAbove(bl, m, overflow, n);
      ghost var w :| 0 < w < m && bl[w] > 0;
      var bits := m - 1;
      while blCount[bits] == 0
        invariant w <= bits < m && blCount[..] == bl && forall k :: bits < k < m ==> bl[k] == 0
        decreases bits
      {
        bits := bits - 1;
      }
      MoveLeaf(bl, m, overflow, n, bits);
      RepairedOnce(bl, m, overflow / 2, bits);
      blCount[bits] := blCount[bits] - 1;
      blCount[bits + 1] := blCount[bits + 1] + 2;
      blCount[m] := blCount[m] - 1;
      MovedIs(bl, bits, m, blCount[..]);
      overflow := overflow - 2;
    }
    RepairedNone(blCount[..], m);
  }

  lemma RepairedOnce(bl: seq<nat>, m: nat, rounds: nat, bits: nat)
    requires 0 < bits < m < |bl| && bl[bits] > 0 && bl[m] > 0 && rounds > 0 && forall k :: bits < k < m ==> bl[k] == 0
    ensures Repaired(bl, m, rounds) == Repaired(Moved(bl, bits, m), m, rounds - 1)
  {
    DeepestIs(bl, m - 1, bits);
  }

  lemma RepairedNone(bl: seq<nat>, m: nat)
    requires 0 < m < |bl|
    ensures Repaired(bl, m, 0) == bl
  {
  }

  lemma MovedIs(bl: seq<nat>, bits: nat, m: nat, r: seq<nat>)
    requires 0 < bits < m < |bl| && bl[bits] > 0 && bl[m] > 0 && |r| == |bl|
    requires var bl1 := bl[bits := bl[bits] - 1]; var bl2 := bl1[bits + 1 := bl1[bits + 1] + 2];
             bl2[m] > 0 && r == bl2[m := bl2[m] - 1]
    ensures r == Moved(bl, bits, m)
  {
  }

  // ---- The record as a list of leaves --------------------------------------------

  // Position p of the record holds a node removed by merge MergeOf(h, p).
  function MergeOf(h: seq<nat>, p: nat): nat
    requires p < |h|
  {
    (|h| - 1 - p) / 2
  }

  lemma RecordNode(h: seq<nat>, f: seq<nat>, elems: nat, roots: seq<set<nat>>, p: nat)
    requires Merges(h, f, elems, roots) && |h| - 2 * (|roots| - 1) <= p < |h|
    ensures MergeOf(h, p) < |roots| - 1 && h[p] in roots[MergeOf(h, p)]
    ensures h[p] == if (|h| - 1 - p) % 2 == 0 then First(h, MergeOf(h, p)) else Second(h, MergeOf(h, p))
  {
    assert MergeAt(h, f, elems, roots, MergeOf(h, p));
  }

  lemma RecordDistinct(h: seq<nat>, f: seq<nat>, elems: nat, roots: seq<set<nat>>, p: nat, q: nat)
    requires Merges(h, f, elems, roots) && |h| - 2 * (|roots| - 1) <= p < q < |h|
    ensures h[p] != h[q]
  {
    var i, j := MergeOf(h, p), MergeOf(h, q);
    RecordNode(h, f, elems, roots, p);
    RecordNode(h, f, elems, roots, q);
    assert MergeAt(h, f, elems, roots, i);
    if j < i { MergedOnce(h, f, elems, roots, j, i); }
  }

  // Every node that is a root at first but not at last was removed.
  lemma {:induction false} RecordFind(h: seq<nat>, f: seq<nat>, elems: nat, roots: seq<set<nat>>, j: nat, x: nat)
    returns (p: nat)
    requires Merges(h, f, elems, roots) && j < |roots| && x in roots[0] && x !in roots[j]
    ensures |h| - 2 * (|roots| - 1) <= p < |h| && h[p] == x
    decreases j
  {
    assert MergeAt(h, f, elems, roots, j - 1);
    if x in roots[j - 1] {
      p := if x == First(h, j - 1) then |h| - 1 - 2 * (j - 1) else |h| - 2 - 2 * (j - 1);
    } else {
      p := RecordFind(h, f, elems, roots, j - 1, x);
    }
  }

  // R is the set of the leaves at positions hp and above.
  ghost predicate Scanned(h: seq<nat>, U: set<nat>, hp: nat, R: set<nat>)
  {
    R <= U && hp <= |h|
    && (forall p :: hp <= p < |h| && h[p] in U ==> h[p] in R)
    && (forall x :: x in R ==> exists p :: hp <= p < |h| && h[p] == x)
  }

  // The facts about h and U that the scan uses.
  ghost predicate Listing(h: seq<nat>, U: set<nat>, lo: nat)
  {
    lo <= |h|
    && (forall p, q :: lo <= p < q < |h| ==> h[p] != h[q])
    && (forall x :: x in U ==> exists p :: lo <= p < |h| && h[p] == x)
  }

  lemma RecordLists(h: seq<nat>, f: seq<nat>, elems: nat, roots: seq<set<nat>>)
    requires Merges(h, f, elems, roots) && forall x :: x in roots[0] ==> x !in roots[|roots| - 1]
    ensures Listing(h, roots[0], |h| - 2 * (|roots| - 1))
  {
    forall p, q | |h| - 2 * (|roots| - 1) <= p < q < |h| ensures h[p] != h[q] {
      RecordDistinct(h, f, elems, roots, p, q);
    }
    forall x | x in roots[0] ensures exists p :: |h| - 2 * (|roots| - 1) <= p < |h| && h[p] == x {
      assert x !in roots[|roots| - 1];
      var p := RecordFind(h, f, elems, roots, |roots| - 1, x);
    }
  }

  lemma ScanMore(h: seq<nat>, U: set<nat>, lo: nat, hp: nat, R: set<nat>)
    requires Listing(h, U, lo) && Scanned(h, U, hp, R) && U - R != {}
    ensures hp > lo
  {
    var x :| x in U - R;
    var p :| lo <= p < |h| && h[p] == x;
  }

  lemma ScanTake(h: seq<nat>, U: set<nat>, lo: nat, hp: nat, R: set<nat>)
    requires Listing(h, U, lo) && Scanned(h, U, hp, R) && lo < hp && h[hp - 1] in U
    ensures h[hp - 1] !in R && Scanned(h, U, hp - 1, R + {h[hp - 1]})
  {
    var x := h[hp - 1];
    forall y | y in R + {x} ensures exists p :: hp - 1 <= p < |h| && h[p] == y {
      if y == x { assert h[hp - 1] == y; }
    }
  }

  // Who occurs more often has no longer code.
  ghost predicate Falling(A: set<nat>, f: seq<nat>, ln: seq<nat>)
  {
    forall a, b :: a in A && b in A && a < |f| && b < |f| && a < |ln| && b < |ln| && f[a] < f[b] ==> ln[a] >= ln[b]
  }

  predicate InOrder(h: seq<nat>, f: seq<nat>, p: nat, q: nat)
    requires p < |h| && q < |h|
  {
    h[p] < |f| && h[q] < |f| && f[h[p]] <= f[h[q]]
  }

  // From the end of the record on the frequencies grow.
  ghost predicate Rising(h: seq<nat>, f: seq<nat>, lo: nat)
  {
    forall p: nat, q: nat :: lo <= q < p < |h| ==> InOrder(h, f, p, q)
  }

  // What a merge removes is no more frequent than what is left.
  lemma {:induction false} LeftLater(h: seq<nat>, f: seq<nat>, elems: nat, roots: seq<set<nat>>, i: nat, j: nat)
    requires Merges(h, f, elems, roots) && i < j < |roots|
    ensures var a, b := First(h, i), Second(h, i);
            a < |f| && b < |f| && f[a] <= f[b] && forall c :: c in roots[j] ==> c < |f| && f[b] <= f[c]
    decreases j
  {
    assert MergeAt(h, f, elems, roots, i);
    if i < j - 1 {
      LeftLater(h, f, elems, roots, i, j - 1);
      assert MergeAt(h, f, elems, roots, j - 1);
    }
  }

  lemma RecordPair(h: seq<nat>, f: seq<nat>, elems: nat, roots: seq<set<nat>>, p: nat, q: nat)
    requires Merges(h, f, elems, roots) && |h| - 2 * (|roots| - 1) <= q < p < |h|
    ensures InOrder(h, f, p, q)
  {
    hide MergeAt;
    var i, j := MergeOf(h, p), MergeOf(h, q);
    RecordNode(h, f, elems, roots, p);
    RecordNode(h, f, elems, roots, q);
    LeftLater(h, f, elems, roots, i, i + 1);
    LeftLater(h, f, elems, roots, j, j + 1);
    if i < j { LeftLater(h, f, elems, roots, i, j); }
  }

  lemma RecordRises(h: seq<nat>, f: seq<nat>, elems: nat, roots: seq<set<nat>>)
    requires Merges(h, f, elems, roots)
    ensures Rising(h, f, |h| - 2 * (|roots| - 1))
  {
    hide MergeAt, MergeOf;
    var lo := |h| - 2 * (|roots| - 1);
    forall p: nat, q: nat | lo <= q < p < |h| ensures InOrder(h, f, p, q) {
      RecordPair(h, f, elems, roots, p, q);
    }
  }

  // ---- Giving out the lengths -------------------------------------------------------

  // The leaves of R have their final lengths: bl[k] of each length k > bits, and
  // all but n of those of length `bits`.
  ghost predicate Given(ln: seq<nat>, elems: nat, R: set<nat>, bl: seq<nat>, m: nat, bits: nat, n: nat)
  {
    |bl| == MAX_BITS + 1 && bits <= m <= MAX_BITS
    && (forall c :: c in R ==> c < |ln| && bits <= ln[c] <= m)
    && (forall k :: bits < k <= MAX_BITS ==> SumOn(R, LeafOf(ln, elems, k)) == bl[k])
    && SumOn(R, LeafOf(ln, elems, bits)) + n == bl[bits]
  }

  lemma GiveOne(ln: seq<nat>, elems: nat, R: set<nat>, bl: seq<nat>, m: nat, bits: nat, n: nat, x: nat)
    requires Given(ln, elems, R, bl, m, bits, n) && n > 0 && x !in R && x < |ln| && x < elems
    ensures Given(ln[x := bits], elems, R + {x}, bl, m, bits, n - 1)
  {
    hide Sum, SumOn, Masked;
    var ln' := ln[x := bits];
    forall k | bits <= k <= MAX_BITS
      ensures SumOn(R + {x}, LeafOf(ln', elems, k)) == SumOn(R, LeafOf(ln, elems, k)) + if k == bits then 1 else 0
    {
      SumOnSame(R, LeafOf(ln, elems, k), LeafOf(ln', elems, k));
      SumOnAdd(R, x, LeafOf(ln', elems, k));
    }
  }

  lemma GiveNext(ln: seq<nat>, elems: nat, R: set<nat>, bl: seq<nat>, m: nat, bits: nat)
    requires Given(ln, elems, R, bl, m, bits, 0) && bits > 0
    ensures Given(ln, elems, R, bl, m, bits - 1, bl[bits - 1])
  {
    hide Sum, SumOn, Masked;
    SumEmptyOn(R, LeafOf(ln, elems, bits - 1));
  }

  lemma GiveCost(f: seq<nat>, ln: seq<nat>, desc: TreeDesc, U: set<nat>, x: nat, v: nat)
    requires DescOK(desc) && |f| == |ln| && x in U && x < |ln| && x < desc.elems
    ensures SumOn(U, LeafCosts(f, ln[x := v], desc)) == SumOn(U, LeafCosts(f, ln, desc)) + (v - ln[x]) * f[x]
  {
    hide Sum, SumOn, Masked;
    var g, g' := LeafCosts(f, ln, desc), LeafCosts(f, ln[x := v], desc);
    SumOnRemove(U, x, g);
    SumOnRemove(U, x, g');
    SumOnSame(U - {x}, g, g');
    CostChange(f[x], ln[x], v, XBits(desc, x));
  }

  lemma CostChange(f: nat, l: nat, v: nat, e: nat)
    ensures f * (v + e) == f * (l + e) + (v - l) * f
  {
  }

  lemma ScanSkip(h: seq<nat>, U: set<nat>, hp: nat, R: set<nat>)
    requires 0 < hp && Scanned(h, U, hp, R) && h[hp - 1] !in U
    ensures Scanned(h, U, hp - 1, R)
  {
  }

  // The state of the scan: positions hp and above are done, n leaves of length
  // `bits` and all shorter ones are still to be given out.
  ghost predicate Working(t: seq<CtData>, t0: seq<CtData>, h: seq<nat>, desc: TreeDesc, U: set<nat>, R: set<nat>,
                          bl: seq<nat>, bits: nat, n: nat, hp: nat)
  {
    DescOK(desc) && |t| == |t0| && desc.elems <= |t| && (forall c :: c in U ==> c < desc.elems)
    && |bl| == MAX_BITS + 1 && bits <= desc.maxLength && Scanned(h, U, hp, R)
    && Given(Lengths(t), desc.elems, R, bl, desc.maxLength, bits, n)
    && n + (if bits > 0 then CountTotal(bl, bits - 1) else 0) == |U - R|
    && Freqs(t) == Freqs(t0) && (forall c :: 0 <= c < |t| && c !in U ==> t[c] == t0[c])
  }

  lemma WorkStart(t0: seq<CtData>, h: seq<nat>, desc: TreeDesc, U: set<nat>, bl: seq<nat>)
    requires DescOK(desc) && desc.elems <= |t0| && |bl| == MAX_BITS + 1
    requires forall c :: c in U ==> c < desc.elems
    requires CountTotal(bl, desc.maxLength) == |U| && forall b :: desc.maxLength < b <= MAX_BITS ==> bl[b] == 0
    ensures Working(t0, t0, h, desc, U, {}, bl, desc.maxLength, bl[desc.maxLength], |h|)
  {
    hide Sum, SumOn, Masked;
    assert U - {} == U;
    forall k | 0 <= k <= MAX_BITS ensures SumOn({}, LeafOf(Lengths(t0), desc.elems, k)) == 0 {
      SumNone(LeafOf(Lengths(t0), desc.elems, k));
    }
  }

  lemma WorkLeft(t: seq<CtData>, t0: seq<CtData>, h: seq<nat>, desc: TreeDesc, U: set<nat>, R: set<nat>,
                 bl: seq<nat>, bits: nat, n: nat, hp: nat, lo: nat)
    requires Working(t, t0, h, desc, U, R, bl, bits, n, hp) && n > 0 && Listing(h, U, lo)
    ensures lo < hp <= |h|
  {
    hide Given, Listing, CountTotal;
    assert U - R != {};
    ScanMore(h, U, lo, hp, R);
  }

  lemma WorkSkip(t: seq<CtData>, t0: seq<CtData>, h: seq<nat>, desc: TreeDesc, U: set<nat>, R: set<nat>,
                 bl: seq<nat>, bits: nat, n: nat, hp: nat)
    requires Working(t, t0, h, desc, U, R, bl, bits, n, hp) && 0 < hp <= |h| && h[hp - 1] !in U
    ensures Working(t, t0, h, desc, U, R, bl, bits, n, hp - 1)
  {
    hide Given, Scanned, CountTotal;
    ScanSkip(h, U, hp, R);
  }

  lemma WorkGive(t: seq<CtData>, t0: seq<CtData>, h: seq<nat>, desc: TreeDesc, U: set<nat>, R: set<nat>,
                 bl: seq<nat>, bits: nat, n: nat, hp: nat, lo: nat)
    requires Working(t, t0, h, desc, U, R, bl, bits, n, hp) && n > 0 && Listing(h, U, lo)
    requires lo < hp <= |h| && h[hp - 1] in U
    ensures h[hp - 1] < |t|
    ensures Working(t[h[hp - 1] := t[h[hp - 1]].(dl := bits)], t0, h, desc, U, R + {h[hp - 1]}, bl, bits, n - 1, hp - 1)
  {
    hide Given, Listing, Scanned, CountTotal;
    var m := h[hp - 1];
    ScanTake(h, U, lo, hp, R);
    GiveOne(Lengths(t), desc.elems, R, bl, desc.maxLength, bits, n, m);
    var t' := t[m := t[m].(dl := bits)];
    assert Lengths(t') == Lengths(t)[m := bits] && Freqs(t') == Freqs(t);
    assert U - R == (U - (R + {m})) + {m};
  }

  lemma WorkNext(t: seq<CtData>, t0: seq<CtData>, h: seq<nat>, desc: TreeDesc, U: set<nat>, R: set<nat>,
                 bl: seq<nat>, bits: nat, hp: nat)
    requires Working(t, t0, h, desc, U, R, bl, bits, 0, hp) && bits > 0
    ensures Working(t, t0, h, desc, U, R, bl, bits - 1, bl[bits - 1], hp)
  {
    hide Given, Scanned;
    GiveNext(Lengths(t), desc.elems, R, bl, desc.maxLength, bits);
  }

  lemma WorkDone(t: seq<CtData>, t0: seq<CtData>, h: seq<nat>, desc: TreeDesc, U: set<nat>, R: set<nat>, bl: seq<nat>,
      hp: nat)
    requires Working(t, t0, h, desc, U, R, bl, 0, 0, hp) && bl[0] == 0
    ensures CountsOf(bl, U, Lengths(t), desc.elems)
    ensures forall c :: c in U ==> c < |t| && 1 <= t[c].dl <= desc.maxLength
    ensures Freqs(t) == Freqs(t0) && forall c :: 0 <= c < |t| && c !in U ==> t[c] == t0[c]
  {
    hide Sum, SumOn, Masked;
    assert U - R == {};
    assert R <= U;
    assert R == U;
    forall c | c in U ensures 1 <= t[c].dl {
      if t[c].dl == 0 {
        AtLeastOne(U, LeafOf(Lengths(t), desc.elems, 0), c);
      }
    }
  }

  method SetLength(tree: array<CtData>, m: nat, bits: nat, opt0: int, ghost desc: TreeDesc, ghost U: set<nat>)
    returns (opt: int)
    requires DescOK(desc) && m < tree.Length && m < desc.elems && m in U
    modifies tree
    ensures tree[..] == old(tree[..][m := tree[m].(dl := bits)])
    ensures Freqs(tree[..]) == old(Freqs(tree[..]))
    ensures opt - opt0 == SumOn(U, LeafCosts(Freqs(tree[..]), Lengths(tree[..]), desc))
                          - old(SumOn(U, LeafCosts(Freqs(tree[..]), Lengths(tree[..]), desc)))
  {
    hide Sum, SumOn, Masked, LeafCosts;
    ghost var t := tree[..];
    GiveCost(Freqs(t), Lengths(t), desc, U, m, bits);
    opt := opt0;
    if tree[m].dl != bits {
      opt := opt + (bits - tree[m].dl) * tree[m].fc;
      tree[m] := tree[m].(dl := bits);
    }
    assert tree[..] == t[m := t[m].(dl := bits)];
    assert Freqs(tree[..]) == Freqs(t) && Lengths(tree[..]) == Lengths(t)[m := bits];
  }

  method Reassign(tree: array<CtData>, heap: array<nat>, maxCode: int, blCount: array<nat>, desc: TreeDesc,
                  opt0: int, ghost base: int, ghost U: set<nat>, ghost lo: nat)
    returns (opt: int)
    requires DescOK(desc) && blCount.Length == MAX_BITS + 1 && heap != blCount && maxCode < desc.elems <= tree.Length
    requires forall c :: c in U ==> c < desc.elems
    requires lo <= heap.Length && Listing(heap[..], U, lo)
             && (forall p :: lo <= p < heap.Length ==> (heap[p] <= maxCode <==> heap[p] in U))
    requires Rising(heap[..], Freqs(tree[..]), lo)
    requires CountTotal(blCount[..], desc.maxLength) == |U| && blCount[0] == 0
    requires forall b :: desc.maxLength < b <= MAX_BITS ==> blCount[b] == 0
    requires opt0 - base == SumOn(U, LeafCosts(Freqs(tree[..]), Lengths(tree[..]), desc))
    modifies tree
    ensures Freqs(tree[..]) == old(Freqs(tree[..]))
    ensures CountsOf(blCount[..], U, Lengths(tree[..]), desc.elems)
    ensures forall c :: c in U ==> c < tree.Length && 1 <= tree[c].dl <= desc.maxLength
    ensures forall c :: 0 <= c < tree.Length && c !in U ==> tree[c] == old(tree[c])
    ensures opt - base == SumOn(U, LeafCosts(Freqs(tree[..]), Lengths(tree[..]), desc))
    ensures Falling(U, Freqs(tree[..]), Lengths(tree[..]))
  {
    hide Sum, SumOn, Masked, Listing, Scanned, Given, CountTotal, LeafCosts, Working, CountsOf, Falling, Rising;
    opt := opt0;
    ghost var R: set<nat> := {};
    var bits: nat := desc.maxLength;
    var h := heap.Length;
    ghost var t0, bl := tree[..], blCount[..];
    WorkStart(t0, heap[..], desc, U, bl);
    NoneFall(Freqs(t0), Lengths(t0));
    while bits != 0
      invariant Freqs(tree[..]) == Freqs(t0) && Falling(R, Freqs(t0), Lengths(tree[..]))
      invariant bits <= desc.maxLength && lo <= h <= heap.Length
      invariant Working(tree[..], t0, heap[..], desc, U, R, bl, bits, bl[bits], h)
      invariant opt - base == SumOn(U, LeafCosts(Freqs(tree[..]), Lengths(tree[..]), desc))
      decreases bits
    {
      var n := blCount[bits];
      while n != 0
        invariant lo <= h <= heap.Length && Working(tree[..], t0, heap[..], desc, U, R, bl, bits, n, h)
        invariant Freqs(tree[..]) == Freqs(t0) && Falling(R, Freqs(t0), Lengths(tree[..]))
        invariant opt - base == SumOn(U, LeafCosts(Freqs(tree[..]), Lengths(tree[..]), desc))
        decreases h
      {
        WorkLeft(tree[..], t0, heap[..], desc, U, R, bl, bits, n, h, lo);
        h := h - 1;
        var m := heap[h];
        if m > maxCode {
          WorkSkip(tree[..], t0, heap[..], desc, U, R, bl, bits, n, h + 1);
          continue;
        }
        FallsOn(tree[..], t0, heap[..], desc, U, R, bl, bits, n, h + 1, lo);
        WorkGive(tree[..], t0, heap[..], desc, U, R, bl, bits, n, h + 1, lo);
        ghost var ln := Lengths(tree[..]);
        opt := SetLength(tree, m, bits, opt, desc, U);
        LengthsSet(tree[..], ln, m, bits);
        R := R + {m};
        n := n - 1;
      }
      WorkNext(tree[..], t0, heap[..], desc, U, R, bl, bits, h);
      bits := bits - 1;
    }
    WorkDone(tree[..], t0, heap[..], desc, U, R, bl, h);
    AllScanned(tree[..], t0, heap[..], desc, U, R, bl, h);
  }

  lemma NoneFall(f: seq<nat>, ln: seq<nat>)
    ensures Falling({}, f, ln)
  {
  }

  lemma AllScanned(t: seq<CtData>, t0: seq<CtData>, h: seq<nat>, desc: TreeDesc, U: set<nat>, R: set<nat>, bl: seq<nat>,
      hp: nat)
    requires Working(t, t0, h, desc, U, R, bl, 0, 0, hp)
    ensures R == U
  {
    hide Given, CountTotal;
    assert U - R == {};
  }

  lemma LengthsSet(t: seq<CtData>, ln: seq<nat>, m: nat, bits: nat)
    requires |t| == |ln| && m < |t| && t[m].dl == bits && forall c :: 0 <= c < |t| && c != m ==> t[c].dl == ln[c]
    ensures Lengths(t) == ln[m := bits]
  {
  }

  // The next leaf is no less frequent than those before it, and its length no greater.
  lemma FallsOn(t: seq<CtData>, t0: seq<CtData>, h: seq<nat>, desc: TreeDesc, U: set<nat>, R: set<nat>,
                bl: seq<nat>, bits: nat, n: nat, hp: nat, lo: nat)
    requires Working(t, t0, h, desc, U, R, bl, bits, n, hp) && Listing(h, U, lo) && lo < hp <= |h| && h[hp - 1] in U
    requires Rising(h, Freqs(t0), lo) && Falling(R, Freqs(t0), Lengths(t))
    ensures Falling(R + {h[hp - 1]}, Freqs(t0), Lengths(t)[h[hp - 1] := bits])
  {
    hide CountTotal, Listing;
    var m, f := h[hp - 1], Freqs(t0);
    ScanTake(h, U, lo, hp, R);
    forall c | c in R && c < |f| ensures f[c] <= f[m] {
      var p :| hp <= p < |h| && h[p] == c;
      assert InOrder(h, f, p, hp - 1);
    }
  }
}
