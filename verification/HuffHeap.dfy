// The priority queue of trees.c: node numbers in heap[1..heapLen], ordered by
// frequency and, for equal frequencies, by depth.
module HuffHeap {
  import opened TreeCodes

  // smaller(tree, n, m)
  predicate Smaller(t: seq<CtData>, d: seq<nat>, n: nat, m: nat)
  {
    n < |t| && m < |t| && n < |d| && m < |d|
    && (t[n].fc < t[m].fc || (t[n].fc == t[m].fc && d[n] <= d[m]))
  }

  predicate NodesOK(h: seq<nat>, len: nat, t: seq<CtData>, d: seq<nat>)
    ensures NodesOK(h, len, t, d) ==> len < |h|
  {
    len < |h| && forall j :: 1 <= j <= len ==> h[j] < |t| && h[j] < |d|
  }

  // Every father from position k on is smaller than its sons.
  ghost predicate HeapFrom(h: seq<nat>, len: nat, t: seq<CtData>, d: seq<nat>, k: nat)
  {
    NodesOK(h, len, t, d)
    && forall j :: 2 <= j <= len && j / 2 >= k ==> Smaller(t, d, h[j / 2], h[j])
  }

  // The same while the node v at position k is still sinking; its sons are not
  // smaller than its father.
  ghost predicate Sinking(h: seq<nat>, len: nat, t: seq<CtData>, d: seq<nat>, k0: nat, k: nat)
  {
    NodesOK(h, len, t, d) && 1 <= k0 <= k <= len
    && (forall j :: 2 <= j <= len && j / 2 >= k0 && j / 2 != k ==> Smaller(t, d, h[j / 2], h[j]))
    && (k > k0 ==> k / 2 >= k0 && forall j :: 2 <= j <= len && j / 2 == k ==> Smaller(t, d, h[k / 2], h[j]))
  }

  lemma MultisetSwap(s: seq<nat>, i: nat, j: nat)
    requires i < |s| && j < |s|
    ensures multiset(s[i := s[j]][j := s[i]]) == multiset(s)
  {
  }

  // Exchanging the sinking node with its smaller son.
  function Swapped(h: seq<nat>, k: nat, j: nat): (r: seq<nat>)
    requires k < |h| && j < |h|
    ensures |r| == |h| && r[k] == h[j] && r[j] == h[k] && forall i :: 0 <= i < |h| && i != k && i != j ==> r[i] == h[i]
  {
    h[k := h[j]][j := h[k]]
  }

  lemma SinkStep(h: seq<nat>, len: nat, t: seq<CtData>, d: seq<nat>, k0: nat, k: nat, j: nat)
    requires Sinking(h, len, t, d, k0, k) && LeastSon(h, len, t, d, k, j)
    requires !Smaller(t, d, h[k], h[j])
    ensures Sinking(Swapped(h, k, j), len, t, d, k0, j)
  {
    var h' := Swapped(h, k, j);
    assert j != k;
    forall i | 2 <= i <= len && i / 2 >= k0 && i / 2 != j ensures Smaller(t, d, h'[i / 2], h'[i]) {
      if i / 2 == k {
      } else if i == k {
        if k > k0 { assert Smaller(t, d, h[k / 2], h[j]); }
      } else {
        assert i != j;
      }
    }
    forall i | 2 <= i <= len && i / 2 == j ensures Smaller(t, d, h'[j / 2], h'[i]) {
      assert Smaller(t, d, h[i / 2], h[i]);
    }
  }

  lemma SinkDone(h: seq<nat>, len: nat, t: seq<CtData>, d: seq<nat>, k0: nat, k: nat, j: nat)
    requires Sinking(h, len, t, d, k0, k)
    requires 2 * k > len || (LeastSon(h, len, t, d, k, j) && Smaller(t, d, h[k], h[j]))
    ensures HeapFrom(h, len, t, d, k0)
  {
  }

  // j is the smaller son of position k.
  ghost predicate LeastSon(h: seq<nat>, len: nat, t: seq<CtData>, d: seq<nat>, k: nat, j: nat)
  {
    len < |h| && 2 <= j <= len && j / 2 == k
    && forall i :: 2 <= i <= len && i / 2 == k ==> Smaller(t, d, h[j], h[i])
  }

  lemma PickSon(h: seq<nat>, len: nat, t: seq<CtData>, d: seq<nat>, k: nat, j: nat)
    requires NodesOK(h, len, t, d) && 1 <= k && 2 * k <= len
    requires j == if 2 * k < len && Smaller(t, d, h[2 * k + 1], h[2 * k]) then 2 * k + 1 else 2 * k
    ensures LeastSon(h, len, t, d, k, j)
  {
    assert forall i :: 2 <= i <= len && i / 2 == k ==> i == 2 * k || i == 2 * k + 1;
  }

  lemma SinkFacts(h: seq<nat>, len: nat, t: seq<CtData>, d: seq<nat>, k0: nat, k: nat)
    requires Sinking(h, len, t, d, k0, k)
    ensures NodesOK(h, len, t, d) && h[k] < |t| && h[k] < |d|
    ensures 2 * k <= len ==> h[2 * k] < |t| && h[2 * k] < |d|
    ensures 2 * k < len ==> h[2 * k + 1] < |t| && h[2 * k + 1] < |d|
  {
  }

  // h' holds the same nodes in heap positions 1..len and is unchanged elsewhere.
  ghost predicate Rearranged(h: seq<nat>, h': seq<nat>, len: nat)
  {
    len < |h| && |h| == |h'| && multiset(h[1..len + 1]) == multiset(h'[1..len + 1])
    && h'[0] == h[0] && h'[len + 1..] == h[len + 1..]
  }

  lemma RearrangeSwap(h0: seq<nat>, h: seq<nat>, len: nat, i: nat, j: nat)
    requires Rearranged(h0, h, len) && 1 <= i <= len && 1 <= j <= len && len < |h|
    ensures Rearranged(h0, Swapped(h, i, j), len)
  {
    var h' := Swapped(h, i, j);
    var s := h[1..len + 1];
    assert h'[1..len + 1] == s[i - 1 := s[j - 1]][j - 1 := s[i - 1]];
    MultisetSwap(s, i - 1, j - 1);
  }

  method PqDownHeap(heap: array<nat>, heapLen: nat, tree: array<CtData>, depth: array<nat>, k0: nat)
    requires 1 <= k0 <= heapLen && heapLen < heap.Length && heap != depth
    requires HeapFrom(heap[..], heapLen, tree[..], depth[..], k0 + 1)
    requires NodesOK(heap[..], heapLen, tree[..], depth[..])
    modifies heap
    ensures HeapFrom(heap[..], heapLen, tree[..], depth[..], k0)
    ensures Rearranged(old(heap[..]), heap[..], heapLen)
  {
    hide Sinking, Rearranged, HeapFrom, LeastSon, Smaller, Swapped;
    var k := k0;
    var v := heap[k];
    var j := 2 * k;
    ghost var h := heap[..];
    ghost var t, d := tree[..], depth[..];
    SinkStart(h, heapLen, t, d, k0);
    while j <= heapLen
      invariant k0 <= k <= heapLen && j == 2 * k && |h| == heap.Length && h[k] == v
      invariant forall i :: 0 <= i < heap.Length && i != k ==> heap[i] == h[i]
      invariant Sinking(h, heapLen, t, d, k0, k) && Rearranged(old(heap[..]), h, heapLen)
      invariant tree[..] == t && depth[..] == d
      decreases heapLen - k
    {
      SinkFacts(h, heapLen, t, d, k0, k);
      if j < heapLen && SmallerNow(tree, depth, heap[j + 1], heap[j]) { j := j + 1; }
      PickSon(h, heapLen, t, d, k, j);
      if SmallerNow(tree, depth, v, heap[j]) { break; }
      SinkStep(h, heapLen, t, d, k0, k, j);
      RearrangeSwap(old(heap[..]), h, heapLen, k, j);
      h := Swapped(h, k, j);
      heap[k] := heap[j];
      k := j;
      j := 2 * j;
    }
    heap[k] := v;
    assert heap[..] == h;
    SinkDone(h, heapLen, t, d, k0, k, j);
  }

  lemma SinkStart(h: seq<nat>, len: nat, t: seq<CtData>, d: seq<nat>, k0: nat)
    requires HeapFrom(h, len, t, d, k0 + 1) && 1 <= k0 <= len
    ensures Sinking(h, len, t, d, k0, k0) && Rearranged(h, h, len)
  {
  }

  predicate SmallerNow(tree: array<CtData>, depth: array<nat>, n: nat, m: nat)
    requires n < tree.Length && m < tree.Length && n < depth.Length && m < depth.Length
    reads tree, depth
    ensures SmallerNow(tree, depth, n, m) == Smaller(tree[..], depth[..], n, m)
  {
    tree[n].fc < tree[m].fc || (tree[n].fc == tree[m].fc && depth[n] <= depth[m])
  }

  // The first node of a heap is the smallest.
  lemma {:induction false} HeapTop(h: seq<nat>, len: nat, t: seq<CtData>, d: seq<nat>, j: nat)
    requires HeapFrom(h, len, t, d, 1) && 1 <= j <= len
    ensures Smaller(t, d, h[1], h[j])
    decreases j
  {
    if j > 1 { HeapTop(h, len, t, d, j / 2); }
  }
}
