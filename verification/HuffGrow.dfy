// build_tree (trees.c), first half: the initial heap, the forced codes and the
// merge loop.
module HuffGrow {
  import opened Powers
  import opened TreeCodes
  import opened HuffTheory
  import opened HuffHeap
  import opened HuffMerge
  import opened HuffDepth

  function Freqs(t: seq<CtData>): (f: seq<nat>)
    ensures |f| == |t| && forall i :: 0 <= i < |t| ==> f[i] == t[i].fc
  {
    seq(|t|, i requires 0 <= i < |t| => t[i].fc)
  }

  // The symbols with a frequency.
  function Used(t: seq<CtData>, elems: nat): set<nat>
    requires elems <= |t|
  {
    set n | 0 <= n < elems && t[n].fc != 0
  }

  // heap[1..len] holds exactly the nodes of A.
  ghost predicate Holds(h: seq<nat>, len: nat, A: set<nat>)
  {
    len < |h| && multiset(h[1..len + 1]) == multiset(A)
  }

  lemma HoldsIn(h: seq<nat>, len: nat, A: set<nat>, j: nat)
    requires Holds(h, len, A) && 1 <= j <= len
    ensures h[j] in A
  {
    var s := h[1..len + 1];
    assert s[j - 1] in multiset(s);
  }

  lemma HoldsFind(h: seq<nat>, len: nat, A: set<nat>, c: nat) returns (j: nat)
    requires Holds(h, len, A) && c in A
    ensures 1 <= j <= len && h[j] == c
  {
    var s := h[1..len + 1];
    assert c in multiset(s);
    var i :| 0 <= i < |s| && s[i] == c;
    j := i + 1;
  }

  lemma HoldsPush(h: seq<nat>, len: nat, A: set<nat>, n: nat)
    requires Holds(h, len, A) && n !in A && len + 1 < |h|
    ensures Holds(h[len + 1 := n], len + 1, A + {n})
  {
    var h' := h[len + 1 := n];
    assert h'[1..len + 2] == h[1..len + 1] + [n];
    assert multiset(A + {n}) == multiset(A) + multiset{n};
  }

  lemma HoldsRearranged(h: seq<nat>, h': seq<nat>, len: nat, A: set<nat>)
    requires Holds(h, len, A) && Rearranged(h, h', len)
    ensures Holds(h', len, A)
  {
  }

  // heap[1] = heap[heap_len--]
  lemma HoldsRemove(h: seq<nat>, len: nat, A: set<nat>)
    requires Holds(h, len, A) && len >= 2
    ensures h[1] in A && Holds(h[1 := h[len]], len - 1, A - {h[1]})
  {
    HoldsIn(h, len, A, 1);
    var h' := h[1 := h[len]];
    var s := h[1..len + 1];
    assert s == [h[1]] + h[2..len] + [h[len]];
    assert h'[1..len] == [h[len]] + h[2..len];
    assert multiset(s) == multiset{h[1]} + multiset(h[2..len]) + multiset{h[len]};
    assert multiset(h'[1..len]) == multiset{h[len]} + multiset(h[2..len]);
    assert multiset(A - {h[1]}) == multiset(A) - multiset{h[1]};
  }

  // heap[1] = x
  lemma HoldsReplace(h: seq<nat>, len: nat, A: set<nat>, x: nat)
    requires Holds(h, len, A) && len >= 1 && x !in A
    ensures h[1] in A && Holds(h[1 := x], len, A - {h[1]} + {x})
  {
    HoldsIn(h, len, A, 1);
    var h' := h[1 := x];
    assert h[1..len + 1] == [h[1]] + h[2..len + 1];
    assert h'[1..len + 1] == [x] + h[2..len + 1];
    assert multiset(A - {h[1]}) == multiset(A) - multiset{h[1]};
    assert multiset(A - {h[1]} + {x}) == multiset(A - {h[1]}) + multiset{x};
  }

  lemma HoldsSize(h: seq<nat>, len: nat, A: set<nat>)
    requires Holds(h, len, A)
    ensures |A| == len
  {
    assert |multiset(h[1..len + 1])| == len;
    assert |multiset(A)| == |A|;
  }

  // ---- The initial heap ----------------------------------------------------------

  ghost predicate IsMaxCode(A: set<nat>, m: int)
  {
    (m == -1 ==> A == {}) && (m >= 0 ==> m in A) && m >= -1 && forall n :: n in A ==> n <= m
  }

  lemma UsedStep(t: seq<CtData>, n: nat, m: int)
    requires n < |t| && IsMaxCode(Used(t, n), m)
    ensures n !in Used(t, n)
    ensures t[n].fc != 0 ==> Used(t, n + 1) == Used(t, n) + {n} && IsMaxCode(Used(t, n + 1), n)
    ensures t[n].fc == 0 ==> Used(t, n + 1) == Used(t, n)
  {
    if t[n].fc != 0 { assert Used(t, n + 1) == Used(t, n) + {n}; } else { assert Used(t, n + 1) == Used(t, n); }
  }

  lemma UsedNone(t: seq<CtData>, h: seq<nat>, d: seq<nat>)
    requires |h| > 0
    ensures Holds(h, 0, Used(t, 0)) && IsMaxCode(Used(t, 0), -1) && DepthZero(d, Used(t, 0))
  {
    assert Used(t, 0) == {};
  }

  lemma UsedSame(t: seq<CtData>, t': seq<CtData>, elems: nat)
    requires elems <= |t| == |t'| && forall i :: 0 <= i < |t| ==> t[i].fc == t'[i].fc
    ensures Used(t, elems) == Used(t', elems) && Freqs(t) == Freqs(t')
  {
  }

  // t with the lengths of unused symbols among the first n cleared.
  function Cleared(t: seq<CtData>, n: nat): (r: seq<CtData>)
    ensures |r| == |t| && forall i :: 0 <= i < |t| ==> r[i].fc == t[i].fc
  {
    seq(|t|, i requires 0 <= i < |t| => if i < n && t[i].fc == 0 then t[i].(dl := 0) else t[i])
  }

  lemma ClearedStep(t: seq<CtData>, n: nat)
    requires n < |t|
    ensures Cleared(t, n)[n] == t[n]
    ensures t[n].fc != 0 ==> Cleared(t, n + 1) == Cleared(t, n)
    ensures t[n].fc == 0 ==> Cleared(t, n + 1) == Cleared(t, n)[n := t[n].(dl := 0)]
  {
  }

  lemma ClearedNone(t: seq<CtData>)
    ensures Cleared(t, 0) == t
  {
  }

  ghost predicate DepthZero(d: seq<nat>, A: set<nat>)
  {
    forall c :: c in A ==> c < |d| && d[c] == 0
  }

  lemma DepthStep(d: seq<nat>, A: set<nat>, n: nat)
    requires DepthZero(d, A) && n < |d|
    ensures DepthZero(d[n := 0], A + {n})
  {
  }

  method InitHeap(tree: array<CtData>, elems: nat, heap: array<nat>, depth: array<nat>)
    returns (heapLen: nat, maxCode: int)
    requires elems <= tree.Length && elems < heap.Length && elems <= depth.Length && heap != depth
    modifies tree, heap, depth
    ensures tree[..] == old(Cleared(tree[..], elems))
    ensures Used(tree[..], elems) == old(Used(tree[..], elems))
    ensures DepthZero(depth[..], Used(tree[..], elems))
    ensures Holds(heap[..], heapLen, Used(tree[..], elems)) && heapLen <= elems
    ensures IsMaxCode(Used(tree[..], elems), maxCode)
  {
    hide Holds, Used, IsMaxCode, Cleared, DepthZero;
    heapLen, maxCode := 0, -1;
    var n: nat := 0;
    ghost var t0 := tree[..];
    UsedNone(t0, heap[..], depth[..]);
    ClearedNone(t0);
    while n < elems
      invariant 0 <= n <= elems && heapLen <= n
      invariant tree[..] == Cleared(t0, n) && DepthZero(depth[..], Used(t0, n))
      invariant Holds(heap[..], heapLen, Used(t0, n)) && IsMaxCode(Used(t0, n), maxCode)
    {
      UsedStep(t0, n, maxCode);
      ClearedStep(t0, n);
      assert tree[n] == tree[..][n];
      ghost var h, d := heap[..], depth[..];
      if tree[n].fc != 0 {
        HoldsPush(h, heapLen, Used(t0, n), n);
        DepthStep(d, Used(t0, n), n);
        heapLen, maxCode := heapLen + 1, n;
        heap[heapLen] := n;
        assert heap[..] == h[heapLen := n];
        depth[n] := 0;
        assert depth[..] == d[n := 0];
      } else {
        tree[n] := tree[n].(dl := 0);
      }
      n := n + 1;
    }
    UsedSame(t0, tree[..], elems);
  }

  // ---- Forcing two codes -----------------------------------------------------------

  // t with frequency one for the codes of G.
  function Forced(t: seq<CtData>, G: set<nat>): (r: seq<CtData>)
    ensures |r| == |t|
  {
    seq(|t|, i requires 0 <= i < |t| => if i in G then t[i].(fc := 1) else t[i])
  }

  lemma ForcedStep(t: seq<CtData>, G: set<nat>, c: nat)
    requires c < |t| && c !in G
    ensures Forced(t, G)[c] == t[c] && Forced(t, G + {c}) == Forced(t, G)[c := t[c].(fc := 1)]
  {
  }

  // The next code to force: the one after the greatest used code if that is
  // below 2, else code 0.
  lemma ForcedNew(A: set<nat>, m: int)
    requires IsMaxCode(A, m) && |A| < 2
    ensures var c := if m < 2 then m + 1 else 0;
            0 <= c <= 2 && c !in A && IsMaxCode(A + {c}, if m < 2 then m + 1 else m) && |A + {c}| == |A| + 1
  {
    var c := if m < 2 then m + 1 else 0;
    if m >= 2 && 0 in A {
      assert {0, m} <= A;
      SubsetSize({0, m}, A);
    }
  }

  lemma {:induction false} SubsetSize(A: set<nat>, B: set<nat>)
    requires A <= B
    ensures |A| <= |B|
    decreases A
  {
    if a :| a in A { SubsetSize(A - {a}, B - {a}); }
  }

  lemma UsedForced(t: seq<CtData>, G: set<nat>, elems: nat)
    requires elems <= |t| && forall c :: c in G ==> c < elems
    ensures Used(Forced(t, G), elems) == Used(t, elems) + G
  {
  }

  // One more code, with frequency one, at the end of the heap.
  method ForceOne(tree: array<CtData>, elems: nat, heap: array<nat>, depth: array<nat>, heapLen: nat, maxCode0: int,
                  ghost t0: seq<CtData>, ghost A: set<nat>, ghost G: set<nat>)
    returns (c: nat, maxCode: int)
    requires 3 <= elems <= tree.Length && elems < heap.Length && elems <= depth.Length && heap != depth
    requires Holds(heap[..], heapLen, A) && IsMaxCode(A, maxCode0) && |A| == heapLen < 2
    requires DepthZero(depth[..], A) && tree[..] == Forced(t0, G) && G <= A
    modifies tree, heap, depth
    ensures c <= 2 && c !in A && tree[..] == Forced(t0, G + {c})
    ensures Holds(heap[..], heapLen + 1, A + {c}) && IsMaxCode(A + {c}, maxCode) && DepthZero(depth[..], A + {c})
  {
    hide Holds, Used, IsMaxCode, Forced, DepthZero;
    ForcedNew(A, maxCode0);
    maxCode := maxCode0;
    if maxCode < 2 { maxCode := maxCode + 1; c := maxCode; } else { c := 0; }
    ghost var h, d := heap[..], depth[..];
    HoldsPush(h, heapLen, A, c);
    DepthStep(d, A, c);
    ForcedStep(t0, G, c);
    heap[heapLen + 1] := c;
    assert heap[..] == h[heapLen + 1 := c];
    assert tree[c] == tree[..][c];
    tree[c] := tree[c].(fc := 1);
    depth[c] := 0;
    assert depth[..] == d[c := 0];
  }

  method ForceCodes(tree: array<CtData>, elems: nat, heap: array<nat>, depth: array<nat>, heapLen0: nat, maxCode0: int,
                    stree: seq<nat>, optLen0: int, staticLen0: int)
    returns (heapLen: nat, maxCode: int, optLen: int, staticLen: int, ghost G: set<nat>)
    requires 3 <= elems <= tree.Length && elems < heap.Length && elems <= depth.Length && heap != depth
    requires Holds(heap[..], heapLen0, Used(tree[..], elems)) && IsMaxCode(Used(tree[..], elems), maxCode0)
    requires DepthZero(depth[..], Used(tree[..], elems))
    requires stree == [] || elems <= |stree|
    modifies tree, heap, depth
    ensures tree[..] == old(Forced(tree[..], G)) && G !! old(Used(tree[..], elems)) && forall c :: c in G ==> c <= 2
    ensures Used(tree[..], elems) == old(Used(tree[..], elems)) + G
    ensures Holds(heap[..], heapLen, Used(tree[..], elems)) && IsMaxCode(Used(tree[..], elems), maxCode)
    ensures DepthZero(depth[..], Used(tree[..], elems))
    ensures heapLen >= 2 && (G != {} ==> heapLen == 2) && |Used(tree[..], elems)| == heapLen
    ensures optLen == optLen0 - |G| && staticLen == staticLen0 - SumOn(G, stree)
  {
    hide Holds, Used, IsMaxCode, Sum, SumOn, Forced, DepthZero;
    heapLen, maxCode, optLen, staticLen, G := heapLen0, maxCode0, optLen0, staticLen0, {};
    ghost var t0 := tree[..];
    ghost var U := Used(t0, elems);
    SumNone(stree);
    HoldsSize(heap[..], heapLen, U);
    ForcedNone(t0);
    assert U + G == U;
    while heapLen < 2
      invariant tree[..] == Forced(t0, G) && G !! U && forall c :: c in G ==> c <= 2
      invariant Holds(heap[..], heapLen, U + G) && IsMaxCode(U + G, maxCode) && |U + G| == heapLen
      invariant DepthZero(depth[..], U + G)
      invariant G != {} ==> heapLen <= 2
      invariant optLen == optLen0 - |G| && staticLen == staticLen0 - SumOn(G, stree)
      decreases 2 - heapLen
    {
      var c;
      c, maxCode := ForceOne(tree, elems, heap, depth, heapLen, maxCode, t0, U + G, G);
      heapLen := heapLen + 1;
      optLen := optLen - 1;
      if stree != [] { staticLen := staticLen - stree[c]; }
      ForcedSum(G, c, stree);
      assert U + G + {c} == U + (G + {c});
      G := G + {c};
    }
    UsedForced(t0, G, elems);
  }

  lemma ForcedNone(t: seq<CtData>)
    ensures Forced(t, {}) == t
  {
  }

  lemma ForcedSum(G: set<nat>, c: nat, stree: seq<nat>)
    requires c !in G && (stree == [] || c < |stree|)
    ensures SumOn(G + {c}, stree) == SumOn(G, stree) + if stree == [] then 0 else stree[c]
  {
    if stree == [] {
      assert Masked(G + {c}, stree) == [] && Masked(G, stree) == [];
    } else {
      SumOnAdd(G, c, stree);
    }
  }

  // ---- Establishing the heap ---------------------------------------------------------

  lemma HeapLeaves(h: seq<nat>, len: nat, t: seq<CtData>, d: seq<nat>)
    requires NodesOK(h, len, t, d)
    ensures HeapFrom(h, len, t, d, len / 2 + 1)
  {
  }

  method Heapify(tree: array<CtData>, heap: array<nat>, depth: array<nat>, heapLen: nat, ghost A: set<nat>)
    requires heap != depth && Holds(heap[..], heapLen, A) && NodesOK(heap[..], heapLen, tree[..], depth[..])
    modifies heap
    ensures Holds(heap[..], heapLen, A) && HeapFrom(heap[..], heapLen, tree[..], depth[..], 1)
    ensures forall j :: heapLen < j < heap.Length ==> heap[j] == old(heap[j])
  {
    hide Holds, HeapFrom, Rearranged;
    var n: nat := heapLen / 2;
    HeapLeaves(heap[..], heapLen, tree[..], depth[..]);
    while n >= 1
      invariant n <= heapLen / 2 && Holds(heap[..], heapLen, A)
      invariant HeapFrom(heap[..], heapLen, tree[..], depth[..], n + 1)
      invariant forall j :: heapLen < j < heap.Length ==> heap[j] == old(heap[j])
      invariant tree[..] == old(tree[..]) && depth[..] == old(depth[..])
    {
      ghost var h := heap[..];
      HeapNodes(h, heapLen, tree[..], depth[..], n + 1);
      PqDownHeap(heap, heapLen, tree, depth, n);
      HoldsRearranged(h, heap[..], heapLen, A);
      RearrangedRest(h, heap[..], heapLen);
      n := n - 1;
    }
  }

  lemma HeapNodes(h: seq<nat>, len: nat, t: seq<CtData>, d: seq<nat>, k: nat)
    requires HeapFrom(h, len, t, d, k)
    ensures NodesOK(h, len, t, d)
  {
  }

  lemma RearrangedRest(h: seq<nat>, h': seq<nat>, len: nat)
    requires Rearranged(h, h', len)
    ensures |h'| == |h| && forall j :: len < j < |h| ==> h'[j] == h[j]
  {
    forall j | len < j < |h| ensures h'[j] == h[j] {
      assert h'[len + 1..][j - len - 1] == h[len + 1..][j - len - 1];
    }
  }

  // ---- The merge loop -------------------------------------------------------------

  // The fathers of the nodes removed by the first n merges.
  ghost predicate Dads(h: seq<nat>, t: seq<CtData>, elems: nat, n: nat)
  {
    2 * n + 2 <= |h|
    && forall i :: 0 <= i < n ==>
         First(h, i) < |t| && Second(h, i) < |t|
         && t[First(h, i)].dl == elems + i && t[Second(h, i)].dl == elems + i
  }

  // After n merges: `roots` lists the sets of roots so far, the last of them is
  // in the heap, and the removed nodes are at the top of h.
  ghost predicate Growing(h: seq<nat>, len: nat, t: seq<CtData>, d: seq<nat>, elems: nat, roots: seq<set<nat>>, n: nat)
  {
    |roots| == n + 1 && len + n <= elems && 2 * elems < |h| && 2 * elems <= |t| + 1 && |t| <= |d| && len >= 1
    && Merges(h, Freqs(t), elems, roots) && Dads(h, t, elems, n)
    && Holds(h, len, roots[n]) && (forall c :: c in roots[n] ==> c < elems + n)
    && HeapFrom(h, len, t, d, 1)
  }

  lemma LeastTop(h: seq<nat>, len: nat, t: seq<CtData>, d: seq<nat>, A: set<nat>)
    requires HeapFrom(h, len, t, d, 1) && Holds(h, len, A) && len >= 1
    ensures h[1] in A && h[1] < |t| && forall c :: c in A ==> Smaller(t, d, h[1], c)
  {
    hide Holds, HeapFrom;
    HoldsIn(h, len, A, 1);
    HeapNodes(h, len, t, d, 1);
    forall c | c in A ensures Smaller(t, d, h[1], c) {
      var j := HoldsFind(h, len, A, c);
      HeapTop(h, len, t, d, j);
    }
  }

  lemma RemoveTopHeap(h: seq<nat>, len: nat, t: seq<CtData>, d: seq<nat>)
    requires HeapFrom(h, len, t, d, 1) && len >= 2
    ensures HeapFrom(h[1 := h[len]], len - 1, t, d, 2)
  {
    var h' := h[1 := h[len]];
    forall j | 2 <= j <= len - 1 && j / 2 >= 2 ensures Smaller(t, d, h'[j / 2], h'[j]) {
      assert Smaller(t, d, h[j / 2], h[j]);
    }
  }

  // Making x the top changes no order below it.
  lemma ReplaceTopHeap(h: seq<nat>, h': seq<nat>, len: nat, t: seq<CtData>, d: seq<nat>, t': seq<CtData>, d': seq<nat>,
      x: nat, A: set<nat>)
    requires HeapFrom(h, len, t, d, 1) && 1 <= len < |h'| && h'[1] == x && x < |t'| && x < |d'|
    requires |h'| == |h| && forall j :: 2 <= j <= len ==> h'[j] == h[j]
    requires Holds(h, len, A) && x !in A
    requires |t'| == |t| && |d'| == |d|
    requires forall c :: 0 <= c < |t| && c != x ==> t'[c].fc == t[c].fc
    requires forall c :: 0 <= c < |d| && c != x ==> d'[c] == d[c]
    ensures HeapFrom(h', len, t', d', 2)
  {
    hide Holds;
    forall j | 1 <= j <= len ensures h'[j] < |t'| && h'[j] < |d'| {
      HoldsIn(h, len, A, j);
    }
    forall j | 2 <= j <= len && j / 2 >= 2 ensures Smaller(t', d', h'[j / 2], h'[j]) {
      HoldsIn(h, len, A, j);
      HoldsIn(h, len, A, j / 2);
      assert Smaller(t, d, h[j / 2], h[j]);
    }
  }

  lemma HoldsFrame(h: seq<nat>, h': seq<nat>, len: nat, A: set<nat>)
    requires Holds(h, len, A) && |h'| == |h| && forall j :: 1 <= j <= len ==> h'[j] == h[j]
    ensures Holds(h', len, A)
  {
    assert h'[1..len + 1] == h[1..len + 1];
  }

  // The tree after nodes a and b got the father x.
  function WithFather(t: seq<CtData>, a: nat, b: nat, x: nat): (r: seq<CtData>)
    requires a < |t| && b < |t| && x < |t|
    ensures |r| == |t|
  {
    var t1 := t[x := t[x].(fc := (t[a].fc + t[b].fc) % 65536)];
    var t2 := t1[a := t1[a].(dl := x)];
    t2[b := t2[b].(dl := x)]
  }

  // What one merge makes of the record.
  lemma GrowStep(h: seq<nat>, h': seq<nat>, t: seq<CtData>, elems: nat, roots: seq<set<nat>>, n: nat, a: nat, b: nat,
      A': set<nat>)
    requires |roots| == n + 1 && 2 * n + 4 <= |h| == |h'| && elems + n < |t|
    requires Merges(h, Freqs(t), elems, roots) && Dads(h, t, elems, n)
    requires forall c :: c in roots[n] ==> c < elems + n
    requires a in roots[n] && b in roots[n] && a != b && A' == roots[n] - {a, b} + {elems + n}
    requires forall c :: c in roots[n] ==> Freqs(t)[a] <= Freqs(t)[c]
    requires forall c :: c in roots[n] && c != a ==> Freqs(t)[b] <= Freqs(t)[c]
    requires t[a].fc + t[b].fc < 65536
    requires forall p :: |h| - 2 * n <= p < |h| ==> h'[p] == h[p]
    requires First(h', n) == a && Second(h', n) == b
    ensures var t' := WithFather(t, a, b, elems + n);
            Merges(h', Freqs(t'), elems, roots + [A']) && Dads(h', t', elems, n + 1)
    ensures forall c :: c in A' ==> c < elems + n + 1
    ensures SumOn(A', Freqs(WithFather(t, a, b, elems + n))) == SumOn(roots[n], Freqs(t))
  {
    hide Sum, Masked, SumOn;
    var x := elems + n;
    var t' := WithFather(t, a, b, x);
    var f, f' := Freqs(t), Freqs(t');
    assert forall c :: 0 <= c < |f| && c != x ==> f'[c] == f[c];
    assert f'[x] == f[a] + f[b];
    RecordMerge(h, h', f, f', elems, roots, A');
    forall i | 0 <= i < n
      ensures First(h', i) < |t| && Second(h', i) < |t| && t'[First(h', i)].dl == elems + i
              && t'[Second(h', i)].dl == elems + i
    {
      assert First(h', i) == First(h, i) && Second(h', i) == Second(h, i);
      MergedOnce(h, f, elems, roots, i, n);
      assert MergeAt(h, f, elems, roots, i);
    }
    SumOnSame(roots[n], f, f');
    MergeSum(roots[n], a, b, x, A', f');
  }

  // pqremove(tree, top)
  method PqRemove(heap: array<nat>, heapLen: nat, tree: array<CtData>, depth: array<nat>, ghost A: set<nat>)
    returns (top: nat)
    requires heap != depth && heapLen >= 2 && Holds(heap[..], heapLen, A)
             && HeapFrom(heap[..], heapLen, tree[..], depth[..], 1)
    modifies heap
    ensures top in A && top < tree.Length && forall c :: c in A ==> Smaller(tree[..], depth[..], top, c)
    ensures Holds(heap[..], heapLen - 1, A - {top}) && HeapFrom(heap[..], heapLen - 1, tree[..], depth[..], 1)
    ensures forall p :: heapLen <= p < heap.Length ==> heap[p] == old(heap[p])
  {
    hide Holds, HeapFrom, Rearranged, Freqs;
    ghost var h := heap[..];
    HeapNodes(h, heapLen, tree[..], depth[..], 1);
    LeastTop(h, heapLen, tree[..], depth[..], A);
    HoldsRemove(h, heapLen, A);
    RemoveTopHeap(h, heapLen, tree[..], depth[..]);
    top := heap[1];
    heap[1] := heap[heapLen];
    ghost var h1 := heap[..];
    assert h1 == h[1 := h[heapLen]];
    HeapNodes(h1, heapLen - 1, tree[..], depth[..], 2);
    PqDownHeap(heap, heapLen - 1, tree, depth, 1);
    HoldsRearranged(h1, heap[..], heapLen - 1, A - {top});
    RearrangedRest(h1, heap[..], heapLen - 1);
  }

  // heap[1] = x; pqdownheap(tree, 1)
  method PqReplaceTop(heap: array<nat>, heapLen: nat, tree: array<CtData>, depth: array<nat>, x: nat,
                      ghost h: seq<nat>, ghost t: seq<CtData>, ghost d: seq<nat>, ghost A: set<nat>)
    requires heap != depth && 1 <= heapLen < heap.Length && x < tree.Length && x < depth.Length && x !in A
    requires Holds(h, heapLen, A) && HeapFrom(h, heapLen, t, d, 1)
    requires |h| == heap.Length && forall j :: 1 <= j <= heapLen ==> heap[j] == h[j]
    requires |t| == tree.Length && forall c :: 0 <= c < |t| && c != x ==> tree[c].fc == t[c].fc
    requires |d| == depth.Length && forall c :: 0 <= c < |d| && c != x ==> depth[c] == d[c]
    modifies heap
    ensures Holds(heap[..], heapLen, A - {h[1]} + {x}) && HeapFrom(heap[..], heapLen, tree[..], depth[..], 1)
    ensures forall p :: heapLen < p < heap.Length ==> heap[p] == old(heap[p])
  {
    hide Holds, HeapFrom, Rearranged;
    HoldsReplace(h, heapLen, A, x);
    heap[1] := x;
    ghost var h1 := heap[..];
    ReplaceTopHeap(h, h1, heapLen, t, d, tree[..], depth[..], x, A);
    HoldsFrame(h[1 := x], h1, heapLen, A - {h[1]} + {x});
    HeapNodes(h1, heapLen, tree[..], depth[..], 2);
    PqDownHeap(heap, heapLen, tree, depth, 1);
    HoldsRearranged(h1, heap[..], heapLen, A - {h[1]} + {x});
    RearrangedRest(h1, heap[..], heapLen);
  }

  // The new node above the two smallest.
  method Father(tree: array<CtData>, depth: array<nat>, a: nat, b: nat, node: nat)
    requires a < tree.Length && b < tree.Length && node < tree.Length && a != node && b != node
    requires a < depth.Length && b < depth.Length && node < depth.Length
    modifies tree, depth
    ensures tree[..] == WithFather(old(tree[..]), a, b, node)
    ensures depth[..] == old(depth[..][node := (Max(depth[a], depth[b]) + 1) % 256])
  {
    ghost var d := depth[..];
    tree[node] := tree[node].(fc := (tree[a].fc + tree[b].fc) % 65536);
    depth[node] := ((if depth[a] >= depth[b] then depth[a] else depth[b]) + 1) % 256;
    tree[a] := tree[a].(dl := node);
    tree[b] := tree[b].(dl := node);
    assert tree[..] == WithFather(old(tree[..]), a, b, node);
    assert depth[..] == d[node := (Max(d[a], d[b]) + 1) % 256];
  }

  method MergeTwo(tree: array<CtData>, elems: nat, heap: array<nat>, depth: array<nat>, heapLen: nat, heapMax0: nat,
      node: nat,
                  ghost roots0: seq<set<nat>>, ghost n: nat, ghost last0: nat)
    returns (heapMax: nat, ghost roots: seq<set<nat>>, ghost last: nat)
    requires heap != depth && heapLen >= 2 && heapMax0 == heap.Length - 2 * n && node == elems + n
    requires Growing(heap[..], heapLen, tree[..], depth[..], elems, roots0, n)
    requires SumOn(roots0[n], Freqs(tree[..])) < 65536
             && Tying(heap[..], Freqs(tree[..]), depth[..], elems, roots0, last0)
    modifies tree, heap, depth
    ensures heapMax == heapMax0 - 2 && |roots| == n + 2 && roots0 <= roots
    ensures Growing(heap[..], heapLen - 1, tree[..], depth[..], elems, roots, n + 1)
    ensures SumOn(roots[n + 1], Freqs(tree[..])) == old(SumOn(roots0[n], Freqs(tree[..])))
    ensures forall c :: 0 <= c < elems ==> tree[c].fc == old(tree[c].fc)
    ensures forall c :: 0 <= c < elems && c !in roots0[0] ==> tree[c] == old(tree[c])
    ensures Tying(heap[..], Freqs(tree[..]), depth[..], elems, roots, last)
    ensures forall c :: 0 <= c < elems ==> depth[c] == old(depth[c])
  {
    hide Holds, HeapFrom, Sum, SumOn, Masked, Merges, Dads, Freqs, Tying, Smaller;
    ghost var h0, t, d := heap[..], tree[..], depth[..];
    ghost var A := roots0[n];
    var a := PqRemove(heap, heapLen, tree, depth, A);
    ghost var h1 := heap[..];
    LeastTop(h1, heapLen - 1, t, d, A - {a});
    var b := heap[1];
    TwoFreqs(t, A, a, b);
    FirstOnes(t, d, A, a, b);
    heapMax := heapMax0 - 2;
    heap[heapMax + 1] := a;
    heap[heapMax] := b;
    Father(tree, depth, a, b, node);
    PqReplaceTop(heap, heapLen - 1, tree, depth, node, h1, t, d, A - {a});
    ghost var A' := A - {a, b} + {node};
    assert A - {a} - {b} == A - {a, b};
    roots := roots0 + [A'];
    GrowStep(h0, heap[..], t, elems, roots0, n, a, b, A');
    FatherFreqs(t, a, b, node);
    TyingStep(h0, heap[..], Freqs(t), Freqs(tree[..]), d, depth[..], elems, roots0, A', last0, a, b);
    last := Freqs(t)[b];
    RootsShrink(h0, Freqs(t), elems, roots0, 0, n);
  }

  lemma TwoFreqs(t: seq<CtData>, A: set<nat>, a: nat, b: nat)
    requires a in A && b in A - {a} && a < |t| && b < |t| && SumOn(A, Freqs(t)) < 65536
    ensures t[a].fc + t[b].fc < 65536
  {
    hide Sum, Masked, SumOn;
    SumOnRemove(A, a, Freqs(t));
    SumOnRemove(A - {a}, b, Freqs(t));
  }

  // The two nodes that are removed are the first in the order of the heap.
  lemma FirstOnes(t: seq<CtData>, d: seq<nat>, A: set<nat>, a: nat, b: nat)
    requires a in A && b in A - {a} && a < |t| <= |d| && b < |t|
    requires (forall c :: c in A ==> Smaller(t, d, a, c)) && forall c :: c in A - {a} ==> Smaller(t, d, b, c)
    ensures FirstTwo(A, Freqs(t), d, a, b)
  {
    forall c | c in A && c != a ensures Smaller(t, d, b, c) { assert c in A - {a}; }
  }

  lemma FatherFreqs(t: seq<CtData>, a: nat, b: nat, x: nat)
    requires a < |t| && b < |t| && x < |t| && a != x && b != x && t[a].fc + t[b].fc < 65536
    ensures var f, f' := Freqs(t), Freqs(WithFather(t, a, b, x));
            f'[x] == f[a] + f[b] && forall c :: 0 <= c < |f| && c != x ==> f'[c] == f[c]
  {
  }

  // Merge until one root is left; it goes on top of the record.
  method MergeAll(tree: array<CtData>, elems: nat, heap: array<nat>, depth: array<nat>, heapLen0: nat,
      ghost A: set<nat>)
    returns (heapMax: nat, ghost roots: seq<set<nat>>)
    requires heap != depth && 2 <= heapLen0 <= elems && 2 * elems < heap.Length
    requires 2 * elems <= tree.Length + 1 && tree.Length <= depth.Length
    requires Holds(heap[..], heapLen0, A) && (forall c :: c in A ==> c < elems)
    requires HeapFrom(heap[..], heapLen0, tree[..], depth[..], 1) && SumOn(A, Freqs(tree[..])) < 65536
    requires forall c :: c in A ==> tree[c].fc > 0 && depth[c] == 0
    modifies tree, heap, depth
    ensures |roots| == heapLen0 && roots[0] == A && heapMax + 2 * heapLen0 == heap.Length + 1
    ensures Merges(heap[..], Freqs(tree[..]), elems, roots) && Dads(heap[..], tree[..], elems, heapLen0 - 1)
    ensures roots[heapLen0 - 1] == {heap[heapMax]} && heap[heapMax] == elems + heapLen0 - 2
    ensures forall c :: 0 <= c < elems ==> tree[c].fc == old(tree[c].fc)
    ensures forall c :: 0 <= c < elems && c !in A ==> tree[c] == old(tree[c])
    ensures elems + heapLen0 - 1 <= tree.Length
    ensures Ties(heap[..], Freqs(tree[..]), depth[..], elems, roots) && forall c :: c in A ==> depth[c] == 0
  {
    hide Holds, HeapFrom, Sum, SumOn, Masked, Merges, Dads, Freqs, Tying, Ties;
    var node, heapLen := elems, heapLen0;
    heapMax := heap.Length;
    roots := [A];
    ghost var n: nat := 0;
    ghost var last: nat := 0;
    GrowStart(heap[..], heapLen, tree[..], depth[..], elems, A);
    StartTying(heap[..], tree[..], depth[..], elems, A);
    while heapLen >= 2
      invariant 1 <= heapLen && heapLen + n == heapLen0 && heapMax == heap.Length - 2 * n && node == elems + n
      invariant Growing(heap[..], heapLen, tree[..], depth[..], elems, roots, n) && roots[0] == A
      invariant SumOn(roots[n], Freqs(tree[..])) < 65536
      invariant Tying(heap[..], Freqs(tree[..]), depth[..], elems, roots, last)
      invariant forall c :: c in A ==> depth[c] == 0
      invariant forall c :: 0 <= c < elems ==> tree[c].fc == old(tree[c].fc)
      invariant forall c :: 0 <= c < elems && c !in A ==> tree[c] == old(tree[c])
      decreases heapLen
    {
      heapMax, roots, last := MergeTwo(tree, elems, heap, depth, heapLen, heapMax, node, roots, n, last);
      node, heapLen, n := node + 1, heapLen - 1, n + 1;
    }
    GrowDone(heap[..], tree[..], depth[..], elems, roots, n);
    ghost var h := heap[..];
    heapMax := heapMax - 1;
    heap[heapMax] := heap[1];
    RecordRoot(h, heap[..], Freqs(tree[..]), tree[..], elems, roots);
    TyingTies(h, Freqs(tree[..]), depth[..], elems, roots, last);
    TiesSame(h, heap[..], Freqs(tree[..]), depth[..], elems, roots);
  }

  lemma StartTying(h: seq<nat>, t: seq<CtData>, d: seq<nat>, elems: nat, A: set<nat>)
    requires 2 <= |h| && |t| <= |d| && forall c :: c in A ==> c < |t| && t[c].fc > 0 && d[c] == 0
    ensures Tying(h, Freqs(t), d, elems, [A], 0)
  {
    TyingStart(h, Freqs(t), d, elems, A);
  }

  lemma TyingTies(h: seq<nat>, f: seq<nat>, D: seq<nat>, elems: nat, roots: seq<set<nat>>, last: nat)
    requires Tying(h, f, D, elems, roots, last)
    ensures Ties(h, f, D, elems, roots)
  {
  }

  lemma GrowStart(h: seq<nat>, len: nat, t: seq<CtData>, d: seq<nat>, elems: nat, A: set<nat>)
    requires 2 <= len <= elems && 2 * elems < |h| && 2 * elems <= |t| + 1 && |t| <= |d|
    requires Holds(h, len, A) && (forall c :: c in A ==> c < elems) && HeapFrom(h, len, t, d, 1)
    ensures Growing(h, len, t, d, elems, [A], 0)
  {
  }

  lemma GrowDone(h: seq<nat>, t: seq<CtData>, d: seq<nat>, elems: nat, roots: seq<set<nat>>, n: nat)
    requires Growing(h, 1, t, d, elems, roots, n) && n > 0
    ensures Merges(h, Freqs(t), elems, roots) && Dads(h, t, elems, n)
    ensures roots[n] == {h[1]} && h[1] == elems + n - 1
  {
    hide Sum, SumOn, Masked, HeapFrom;
    HoldsSize(h, 1, roots[n]);
    HoldsIn(h, 1, roots[n], 1);
    assert MergeAt(h, Freqs(t), elems, roots, n - 1);
    assert elems + (n - 1) in roots[n];
    var x := elems + (n - 1);
    OneElement(roots[n], x, h[1]);
  }

  lemma OneElement(A: set<nat>, x: nat, y: nat)
    requires |A| == 1 && x in A && y in A
    ensures x == y && A == {x}
  {
    assert |A - {x}| == 0;
  }

  lemma RecordRoot(h: seq<nat>, h': seq<nat>, f: seq<nat>, t: seq<CtData>, elems: nat, roots: seq<set<nat>>)
    requires Merges(h, f, elems, roots) && Dads(h, t, elems, |roots| - 1) && |h'| == |h|
    requires forall p :: |h| - 2 * (|roots| - 1) <= p < |h| ==> h'[p] == h[p]
    ensures Merges(h', f, elems, roots) && Dads(h', t, elems, |roots| - 1)
  {
    forall i | 0 <= i < |roots| - 1
      ensures First(h', i) == First(h, i) && Second(h', i) == Second(h, i) && MergeAt(h', f, elems, roots, i)
    {
      assert MergeAt(h, f, elems, roots, i);
    }
  }
}
