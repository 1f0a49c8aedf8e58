// The merge loop of build_tree: what the processed nodes at the top of heap[]
// record, and that the recorded merges are optimal.
module HuffMerge {
  import opened Powers
  import opened HuffTheory

  // The two nodes removed by merge number i.
  function First(h: seq<nat>, i: nat): nat
    requires 2 * i + 2 <= |h|
  {
    h[|h| - 1 - 2 * i]
  }

  function Second(h: seq<nat>, i: nat): nat
    requires 2 * i + 2 <= |h|
  {
    h[|h| - 2 - 2 * i]
  }

  // Merge i takes the two least frequent roots of roots[i] and makes node
  // elems + i their father.
  ghost predicate MergeAt(h: seq<nat>, f: seq<nat>, elems: nat, roots: seq<set<nat>>, i: nat)
    requires i + 1 < |roots| && 2 * |roots| <= |h|
  {
    var a, b, x := First(h, i), Second(h, i), elems + i;
    Merge(roots[i], a, b, x, roots[i + 1]) && x < |f|
    && (forall c :: c in roots[i] ==> c < x)
    && f[x] == f[a] + f[b]
    && (forall c :: c in roots[i] ==> f[a] <= f[c])
    && (forall c :: c in roots[i] && c != a ==> f[b] <= f[c])
  }

  ghost predicate Merges(h: seq<nat>, f: seq<nat>, elems: nat, roots: seq<set<nat>>)
  {
    0 < |roots| && 2 * |roots| <= |h|
    && forall i :: 0 <= i < |roots| - 1 ==> MergeAt(h, f, elems, roots, i)
  }

  // The total frequency of the fathers made by merges i, i + 1, ...
  function FatherCost(f: seq<nat>, elems: nat, i: nat, t: nat): nat
    requires i <= t && elems + t <= |f|
    decreases t - i
  {
    if i == t then 0 else f[elems + i] + FatherCost(f, elems, i + 1, t)
  }

  // No admissible code for the roots before merge i costs less than the fathers
  // made from there on.
  lemma {:induction false} LowerBound(h: seq<nat>, f: seq<nat>, elems: nat, roots: seq<set<nat>>, i: nat,
      len: seq<nat>, L: nat)
    requires Merges(h, f, elems, roots) && i < |roots| && |len| == |f| && elems + |roots| - 1 <= |f|
    requires Admissible(roots[i], len, L)
    ensures FatherCost(f, elems, i, |roots| - 1) <= SumOn(roots[i], Costs(f, len))
    decreases |roots| - i
  {
    hide Sum, SumOn, Admissible, Costs;
    if i < |roots| - 1 {
      assert MergeAt(h, f, elems, roots, i);
      var len' := ReduceStep(roots[i], roots[i + 1], f, len, L, First(h, i), Second(h, i), elems + i);
      LowerBound(h, f, elems, roots, i + 1, len', L);
    }
  }

  // Later root sets hold old roots and fathers only.
  lemma {:induction false} RootsShrink(h: seq<nat>, f: seq<nat>, elems: nat, roots: seq<set<nat>>, i: nat, j: nat)
    requires Merges(h, f, elems, roots) && i <= j < |roots|
    ensures forall c :: c in roots[j] && c < elems + i ==> c in roots[i]
    ensures forall c :: c in roots[j] && j > i ==> c < elems + j
    decreases j
  {
    if i < j {
      RootsShrink(h, f, elems, roots, i, j - 1);
      assert MergeAt(h, f, elems, roots, j - 1);
    }
  }

  // A node is merged at most once.
  lemma MergedOnce(h: seq<nat>, f: seq<nat>, elems: nat, roots: seq<set<nat>>, i: nat, j: nat)
    requires Merges(h, f, elems, roots) && i < j < |roots|
    ensures First(h, i) !in roots[j] && Second(h, i) !in roots[j]
  {
    RootsShrink(h, f, elems, roots, i + 1, j);
    assert MergeAt(h, f, elems, roots, i);
  }

  // ---- Growing the record -----------------------------------------------------------

  // One more merge: its nodes are written below the record in h.
  lemma RecordMerge(h: seq<nat>, h': seq<nat>, f: seq<nat>, f': seq<nat>, elems: nat, roots: seq<set<nat>>,
      A': set<nat>)
    requires Merges(h, f, elems, roots) && |h'| == |h| && |f'| == |f| && 2 * |roots| + 2 <= |h|
    requires forall p :: |h| - 2 * (|roots| - 1) <= p < |h| ==> h'[p] == h[p]
    requires forall c :: 0 <= c < |f| && c != elems + |roots| - 1 ==> f'[c] == f[c]
    requires MergeAt(h', f', elems, roots + [A'], |roots| - 1)
    ensures Merges(h', f', elems, roots + [A'])
  {
    var roots' := roots + [A'];
    forall i | 0 <= i < |roots'| - 1 ensures MergeAt(h', f', elems, roots', i) {
      if i < |roots| - 1 {
        assert MergeAt(h, f, elems, roots, i);
        assert First(h', i) == First(h, i) && Second(h', i) == Second(h, i);
      }
    }
  }
}
