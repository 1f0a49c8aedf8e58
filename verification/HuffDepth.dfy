// The tie breaker of build_tree (trees.c): of nodes with equal frequency those with the
// lowest trees are merged first.  No code that costs as little is shallower.
module HuffDepth {
  import opened Powers
  import opened HuffTheory
  import opened HuffMerge

  function Max(x: nat, y: nat): nat
  {
    if x >= y then x else y
  }

  // Merge i takes, of the least frequent roots, those with the lowest trees.
  ghost predicate TieAt(h: seq<nat>, f: seq<nat>, D: seq<nat>, elems: nat, roots: seq<set<nat>>, i: nat)
    requires i + 1 < |roots| && 2 * |roots| <= |h|
  {
    var a, b, x := First(h, i), Second(h, i), elems + i;
    a < |f| && b < |f| && |f| <= |D| && x < |f| && D[x] == Max(D[a], D[b]) + 1
    && (forall c :: c in roots[i] ==> c < |f|)
    && (forall c :: c in roots[i] && f[c] == f[a] ==> D[a] <= D[c])
    && (forall c :: c in roots[i] && c != a && f[c] == f[b] ==> D[b] <= D[c])
  }

  ghost predicate Ties(h: seq<nat>, f: seq<nat>, D: seq<nat>, elems: nat, roots: seq<set<nat>>)
  {
    0 < |roots| && 2 * |roots| <= |h| && |f| <= |D|
    && forall i :: 0 <= i < |roots| - 1 ==> TieAt(h, f, D, elems, roots, i)
  }

  // A code with these lengths for the roots reaches down to depth k at most.
  ghost predicate Within(A: set<nat>, len: seq<nat>, D: seq<nat>, k: nat)
  {
    forall c :: c in A ==> c < |len| && c < |D| && len[c] + D[c] <= k
  }

  // ---- No code of the same cost is shallower -------------------------------------------------

  // When an exchange gains nothing, it makes nothing deeper.
  lemma ExchangeWithin(A: set<nat>, f: seq<nat>, D: seq<nat>, len: seq<nat>, i: nat, j: nat, k: nat)
    requires |f| == |len| <= |D| && i in A && j in A && Within(A, len, D, k)
    requires f[i] <= f[j] && len[i] <= len[j] && (f[i] == f[j] ==> D[i] <= D[j])
    requires SumOn(A, Costs(f, Swap(len, i, j))) == SumOn(A, Costs(f, len))
    ensures Within(A, Swap(len, i, j), D, k)
  {
    hide Sum, SumOn, Masked;
    if i != j {
      var len' := Swap(len, i, j);
      SumSwap(A, Costs(f, len), Costs(f, len'), i, j);
      NoGain(f[i], f[j], len[i], len[j]);
    }
  }

  lemma NoGain(fi: nat, fj: nat, li: nat, lj: nat)
    requires fi * lj + fj * li == fi * li + fj * lj
    ensures fi == fj || li == lj
  {
    assert (fj - fi) * (lj - li) == fj * lj - fj * li - fi * lj + fi * li;
  }

  // One merge of lengths that cost the least makes nothing deeper.
  lemma ReduceWithin(h: seq<nat>, f: seq<nat>, D: seq<nat>, elems: nat, roots: seq<set<nat>>, i: nat,
                     len: seq<nat>, L: nat, k: nat) returns (len': seq<nat>)
    requires Merges(h, f, elems, roots) && Ties(h, f, D, elems, roots) && i + 1 < |roots| && elems + |roots| - 1 <= |f|
    requires |len| == |f| && Admissible(roots[i], len, L) && Within(roots[i], len, D, k)
    requires SumOn(roots[i], Costs(f, len)) <= FatherCost(f, elems, i, |roots| - 1)
    ensures |len'| == |f| && Admissible(roots[i + 1], len', L) && Within(roots[i + 1], len', D, k)
    ensures SumOn(roots[i + 1], Costs(f, len')) <= FatherCost(f, elems, i + 1, |roots| - 1)
  {
    hide Low, Shr, Pow2, Sum, SumOn, Costs, Masked;
    assert MergeAt(h, f, elems, roots, i) && TieAt(h, f, D, elems, roots, i);
    var A, a, b, x := roots[i], First(h, i), Second(h, i), elems + i;
    var p := Longest(A, len);
    var len1 := Swap(len, a, p);
    Exchange(A, f, len, L, a, p);
    LowerBound(h, f, elems, roots, i, len, L);
    LowerBound(h, f, elems, roots, i, len1, L);
    ExchangeWithin(A, f, D, len, a, p, k);
    assert b in A - {a};
    var q := Longest(A - {a}, len1);
    var len2 := Swap(len1, b, q);
    Exchange(A, f, len1, L, b, q);
    LowerBound(h, f, elems, roots, i, len2, L);
    ExchangeWithin(A, f, D, len1, b, q, k);
    Shorten(A, f, len2, L, a, b);
    var len3 := len2[a := len2[b]];
    Join(A, roots[i + 1], f, len3, L, a, b, x);
    len' := len3[x := len3[b] - 1];
  }

  // What costs as little as the merges is as deep as their tree.
  lemma {:induction false} Shallow(h: seq<nat>, f: seq<nat>, D: seq<nat>, elems: nat, roots: seq<set<nat>>, i: nat,
                                   len: seq<nat>, L: nat, k: nat, r: nat)
    requires Merges(h, f, elems, roots) && Ties(h, f, D, elems, roots) && i < |roots| && elems + |roots| - 1 <= |f|
    requires |len| == |f| && Admissible(roots[i], len, L) && Within(roots[i], len, D, k)
    requires SumOn(roots[i], Costs(f, len)) <= FatherCost(f, elems, i, |roots| - 1)
    requires roots[|roots| - 1] == {r}
    ensures r < |D| && D[r] <= k
    decreases |roots| - i
  {
    hide Sum, SumOn, Masked, Costs, FatherCost, Merges, Ties, Admissible;
    if i < |roots| - 1 {
      var len' := ReduceWithin(h, f, D, elems, roots, i, len, L, k);
      Shallow(h, f, D, elems, roots, i + 1, len', L, k, r);
    }
  }

  // ---- The code of the tree ------------------------------------------------------------------

  // Lengths for the roots before merge i that cost what the merges cost, and reach as deep
  // as the tree.
  lemma {:induction false} Attained(h: seq<nat>, f: seq<nat>, D: seq<nat>, elems: nat, roots: seq<set<nat>>, i: nat,
                                    r: nat) returns (len: seq<nat>, L: nat)
    requires Merges(h, f, elems, roots) && Ties(h, f, D, elems, roots) && i < |roots| && elems + |roots| - 1 <= |f|
    requires roots[|roots| - 1] == {r} && r < |f|
    ensures |len| == |f| && Admissible(roots[i], len, L) && Within(roots[i], len, D, D[r])
    ensures SumOn(roots[i], Costs(f, len)) == FatherCost(f, elems, i, |roots| - 1)
    decreases |roots| - i
  {
    hide Sum, SumOn, Masked, Admissible;
    if i == |roots| - 1 {
      len, L := seq(|f|, _ => 0), 0;
      RootAlone(f, D, r);
    } else {
      var len1, L1 := Attained(h, f, D, elems, roots, i + 1, r);
      assert MergeAt(h, f, elems, roots, i) && TieAt(h, f, D, elems, roots, i);
      var a, b, x := First(h, i), Second(h, i), elems + i;
      len, L := len1[a := len1[x] + 1][b := len1[x] + 1], L1 + 1;
      SplitRoot(roots[i], roots[i + 1], f, len1, L1, a, b, x);
      SplitWithin(roots[i], roots[i + 1], D, len1, a, b, x, D[r]);
    }
  }

  lemma RootAlone(f: seq<nat>, D: seq<nat>, r: nat)
    requires r < |f| <= |D|
    ensures var len := seq(|f|, _ => 0);
            Admissible({r}, len, 0) && Within({r}, len, D, D[r]) && SumOn({r}, Costs(f, len)) == 0
  {
    hide Sum, Masked, SumOn;
    var len := seq(|f|, _ => 0);
    OneOnly(r, Weights(len, 0));
    OneOnly(r, Costs(f, len));
  }

  lemma OneOnly(r: nat, g: seq<nat>)
    requires r < |g|
    ensures SumOn({r}, g) == g[r]
  {
    hide Sum, SumOn, Masked;
    SumNone(g);
    SumOnAdd({}, r, g);
    assert {} + {r} == {r};
  }

  // A root splits into two that are one bit longer.
  lemma SplitRoot(A: set<nat>, A': set<nat>, f: seq<nat>, len: seq<nat>, L: nat, a: nat, b: nat, x: nat)
    requires |f| == |len| && x < |f| && a < |f| && b < |f| && Merge(A, a, b, x, A') && Admissible(A', len, L)
    requires f[x] == f[a] + f[b] && forall c :: c in A ==> c < x
    ensures var len' := len[a := len[x] + 1][b := len[x] + 1];
            Admissible(A, len', L + 1) && SumOn(A, Costs(f, len')) == SumOn(A', Costs(f, len)) + f[x]
  {
    hide Low, Shr, Sum, SumOn, Masked;
    var k := len[x] + 1;
    var len' := len[a := k][b := k];
    assert x in A';
    DoubleWeights(A', len, L);
    var w, w' := Weights(len, L + 1), Weights(len', L + 1);
    SumOnSame(A' - {x}, w, w');
    SumOnRemove(A', x, w);
    SumOnRemove(A', x, w');
    MergeSum(A, a, b, x, A', w'[x := w'[a] + w'[b]]);
    SumOnSame(A, w', w'[x := w'[a] + w'[b]]);
    SumOnRemove(A', x, w'[x := w'[a] + w'[b]]);
    SumOnSame(A' - {x}, w', w'[x := w'[a] + w'[b]]);
    var c, c' := Costs(f, len), Costs(f, len');
    var c2 := c'[x := c'[a] + c'[b]];
    SumOnSame(A' - {x}, c, c2);
    SumOnRemove(A', x, c);
    SumOnRemove(A', x, c2);
    MergeSum(A, a, b, x, A', c2);
    SumOnSame(A, c', c2);
    assert f[a] * k + f[b] * k == f[x] * len[x] + f[x];
  }

  // With one bit more of room every weight is twice as much.
  lemma DoubleWeights(A: set<nat>, len: seq<nat>, L: nat)
    requires forall i :: i in A ==> i < |len| && len[i] <= L
    ensures SumOn(A, Weights(len, L + 1)) == 2 * SumOn(A, Weights(len, L)) && Pow2(L + 1) == 2 * Pow2(L)
  {
    hide Sum;
    var zeros := seq(|len|, i => 0);
    var s, s1 := Masked(A, Weights(len, L + 1)), Masked(A, Weights(len, L));
    forall i | 0 <= i < |s| ensures s[i] == zeros[i] + 2 * s1[i] {
    }
    SumZeros(zeros);
    SumLinear(s, zeros, s1, 2);
  }

  lemma SplitWithin(A: set<nat>, A': set<nat>, D: seq<nat>, len: seq<nat>, a: nat, b: nat, x: nat, k: nat)
    requires Merge(A, a, b, x, A') && Within(A', len, D, k) && a < |len| <= |D| && b < |len| && x < |len|
    requires D[x] == Max(D[a], D[b]) + 1
    ensures Within(A, len[a := len[x] + 1][b := len[x] + 1], D, k)
  {
    assert x in A';
    forall c | c in A ensures c in A' || c == a || c == b {}
  }

  // ---- While the tree grows ------------------------------------------------------------------

  function Fib(n: nat): nat
  {
    if n < 2 then 1 else Fib(n - 1) + Fib(n - 2)
  }

  lemma {:induction false} FibMono(m: nat, n: nat)
    requires m <= n
    ensures 1 <= Fib(m) <= Fib(n)
    decreases n
  {
    if m < n {
      FibMono(m, n - 1);
      if n >= 2 { FibMono(0, n - 2); }
    } else if n >= 2 {
      FibMono(0, n - 1);
    }
  }

  // The depths stay far below what a byte holds.
  lemma DepthSmall(d: nat, f: nat)
    requires Fib(d) <= f < 65536
    ensures d < 24
  {
    hide Fib;
    Fib24();
    if d >= 24 { FibMono(24, d); }
  }

  lemma Fib24()
    ensures Fib(24) == 75025
  {
    FibTwo(4, Fib(2), Fib(3));
    FibTwo(8, Fib(6), Fib(7));
    FibTwo(12, Fib(10), Fib(11));
    FibTwo(16, Fib(14), Fib(15));
    FibTwo(20, Fib(18), Fib(19));
  }

  lemma FibTwo(n: nat, x: nat, y: nat)
    requires n >= 2 && x == Fib(n - 2) && y == Fib(n - 1)
    ensures Fib(n) == x + y && Fib(n + 1) == x + 2 * y && Fib(n + 2) == 2 * x + 3 * y && Fib(n + 3) == 3 * x + 5 * y
    ensures Fib(n + 4) == 5 * x + 8 * y
  {
    assert Fib(n) == x + y;
    assert Fib(n + 1) == x + 2 * y;
    assert Fib(n + 2) == 2 * x + 3 * y;
    assert Fib(n + 3) == 3 * x + 5 * y;
  }

  // A root of depth d has a Fibonacci number as its frequency at least, and the node that
  // was removed last the one before.
  predicate Heavy(f: seq<nat>, D: seq<nat>, c: nat, last: nat)
  {
    c < |f| && c < |D| && f[c] >= last && f[c] >= Fib(D[c]) && (D[c] > 0 ==> last >= Fib(D[c] - 1))
  }

  ghost predicate Tying(h: seq<nat>, f: seq<nat>, D: seq<nat>, elems: nat, roots: seq<set<nat>>, last: nat)
  {
    Ties(h, f, D, elems, roots) && forall c :: c in roots[|roots| - 1] ==> Heavy(f, D, c, last)
  }

  lemma TyingStart(h: seq<nat>, f: seq<nat>, D: seq<nat>, elems: nat, A: set<nat>)
    requires 2 <= |h| && |f| <= |D| && forall c :: c in A ==> c < |f| && f[c] >= 1 && D[c] == 0
    ensures Tying(h, f, D, elems, [A], 0)
  {
  }

  // a and b come before the others, b after a.
  ghost predicate FirstTwo(A: set<nat>, f: seq<nat>, D: seq<nat>, a: nat, b: nat)
  {
    a in A && b in A && a < |f| <= |D| && b < |f|
    && (forall c :: c in A ==> c < |f| && f[a] <= f[c] && (f[c] == f[a] ==> D[a] <= D[c]))
    && (forall c :: c in A && c != a ==> f[b] <= f[c] && (f[c] == f[b] ==> D[b] <= D[c]))
  }

  lemma FatherHeavy(f: seq<nat>, D: seq<nat>, a: nat, b: nat, last: nat)
    requires Heavy(f, D, a, last) && Heavy(f, D, b, last) && f[a] <= f[b] && f[a] + f[b] < 65536
    ensures var d := Max(D[a], D[b]); d < 24 && f[a] + f[b] >= Fib(d + 1) && f[b] >= Fib(d)
  {
    var d := Max(D[a], D[b]);
    DepthSmall(D[a], f[a]);
    DepthSmall(D[b], f[b]);
    FibMono(0, D[a]);
    FibMono(0, D[b]);
  }

  lemma OneMerge(h: seq<nat>, f: seq<nat>, elems: nat, roots: seq<set<nat>>, i: nat)
    requires Merges(h, f, elems, roots) && i + 1 < |roots|
    ensures 2 * |roots| <= |h| && MergeAt(h, f, elems, roots, i)
  {
  }

  lemma TyingStep(h: seq<nat>, h': seq<nat>, f: seq<nat>, f': seq<nat>, D: seq<nat>, D': seq<nat>, elems: nat,
                  roots: seq<set<nat>>, A': set<nat>, last: nat, a: nat, b: nat)
    requires Tying(h, f, D, elems, roots, last) && 2 * |roots| + 2 <= |h| == |h'| && |f'| == |f| && |D'| == |D|
    requires forall p :: |h| - 2 * (|roots| - 1) <= p < |h| ==> h'[p] == h[p]
    requires Merges(h', f', elems, roots + [A']) && First(h', |roots| - 1) == a && Second(h', |roots| - 1) == b
    requires FirstTwo(roots[|roots| - 1], f, D, a, b) && f[a] + f[b] < 65536
    requires var x := elems + |roots| - 1;
             x < |f| && f'[x] == f[a] + f[b] && D'[x] == (Max(D[a], D[b]) + 1) % 256
             && (forall c :: 0 <= c < |f| && c != x ==> f'[c] == f[c])
             && forall c :: 0 <= c < |D| && c != x ==> D'[c] == D[c]
    ensures Tying(h', f', D', elems, roots + [A'], f[b])
  {
    hide Merges;
    var n, x, roots' := |roots| - 1, elems + |roots| - 1, roots + [A'];
    FatherHeavy(f, D, a, b, last);
    OneMerge(h', f', elems, roots', n);
    forall i | 0 <= i < n ensures TieAt(h', f', D', elems, roots', i) {
      OneMerge(h', f', elems, roots', i);
      assert TieAt(h, f, D, elems, roots, i);
      OldTie(h, h', f, f', D, D', elems, roots, A', i);
    }
    forall c | c in A' ensures Heavy(f', D', c, f[b]) {
      if c != x { assert Heavy(f, D, c, last); }
    }
  }

  // Later merges change nothing of what was before.
  lemma OldTie(h: seq<nat>, h': seq<nat>, f: seq<nat>, f': seq<nat>, D: seq<nat>, D': seq<nat>, elems: nat,
               roots: seq<set<nat>>, A': set<nat>, i: nat)
    requires i + 1 < |roots| && 2 * |roots| + 2 <= |h| == |h'| && |f'| == |f| && |D'| == |D|
    requires TieAt(h, f, D, elems, roots, i) && MergeAt(h', f', elems, roots + [A'], i)
    requires forall p :: |h| - 2 * (|roots| - 1) <= p < |h| ==> h'[p] == h[p]
    requires forall c :: 0 <= c < |f| && c != elems + |roots| - 1 ==> f'[c] == f[c]
    requires forall c :: 0 <= c < |D| && c != elems + |roots| - 1 ==> D'[c] == D[c]
    ensures TieAt(h', f', D', elems, roots + [A'], i)
  {
    assert First(h', i) == First(h, i) && Second(h', i) == Second(h, i);
  }

  // What is written below the record makes no difference.
  lemma TiesSame(h: seq<nat>, h': seq<nat>, f: seq<nat>, D: seq<nat>, elems: nat, roots: seq<set<nat>>)
    requires Ties(h, f, D, elems, roots) && |h'| == |h|
    requires forall p :: |h| - 2 * (|roots| - 1) <= p < |h| ==> h'[p] == h[p]
    ensures Ties(h', f, D, elems, roots)
  {
    forall i | 0 <= i < |roots| - 1 ensures TieAt(h', f, D, elems, roots, i) {
      assert TieAt(h, f, D, elems, roots, i);
    }
  }
}
