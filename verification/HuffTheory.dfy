// Sums over sets of tree nodes, the merge step of Huffman's algorithm, and the
// lower bound it rests on: merging the two least frequent nodes loses nothing.
module HuffTheory {
  import opened Powers

  function Masked(A: set<nat>, g: seq<nat>): (m: seq<nat>)
    ensures |m| == |g|
  {
    seq(|g|, i requires 0 <= i < |g| => if i in A then g[i] else 0)
  }

  // The sum of g over the nodes of A.
  function SumOn(A: set<nat>, g: seq<nat>): nat
  {
    Sum(Masked(A, g))
  }

  lemma SumOnAdd(A: set<nat>, x: nat, g: seq<nat>)
    requires x < |g| && x !in A
    ensures SumOn(A + {x}, g) == SumOn(A, g) + g[x]
  {
    SumUpdate(Masked(A, g), x, g[x]);
    assert Masked(A + {x}, g) == Masked(A, g)[x := g[x]];
  }

  lemma SumOnRemove(A: set<nat>, x: nat, g: seq<nat>)
    requires x < |g| && x in A
    ensures SumOn(A, g) == SumOn(A - {x}, g) + g[x]
  {
    assert A == (A - {x}) + {x};
    SumOnAdd(A - {x}, x, g);
  }

  lemma SumOnSame(A: set<nat>, g: seq<nat>, g': seq<nat>)
    requires |g| == |g'| && forall i :: i in A && i < |g| ==> g[i] == g'[i]
    ensures SumOn(A, g) == SumOn(A, g')
  {
    assert Masked(A, g) == Masked(A, g');
  }

  lemma SumOnLe(A: set<nat>, g: seq<nat>, g': seq<nat>)
    requires |g| == |g'| && forall i :: i in A && i < |g| ==> g[i] <= g'[i]
    ensures SumOn(A, g) <= SumOn(A, g')
  {
    SumLe(Masked(A, g), Masked(A, g'));
  }

  // ---- Merging two nodes -----------------------------------------------------------

  // A' is A with the nodes a and b replaced by their father x.
  ghost predicate Merge(A: set<nat>, a: nat, b: nat, x: nat, A': set<nat>)
  {
    a in A && b in A && a != b && x !in A && A' == A - {a, b} + {x}
  }

  lemma MergeSum(A: set<nat>, a: nat, b: nat, x: nat, A': set<nat>, g: seq<nat>)
    requires Merge(A, a, b, x, A') && a < |g| && b < |g| && x < |g|
    ensures SumOn(A', g) + g[a] + g[b] == SumOn(A, g) + g[x]
  {
    SumOnRemove(A, a, g);
    SumOnRemove(A - {a}, b, g);
    assert A - {a} - {b} == A - {a, b};
    SumOnAdd(A - {a, b}, x, g);
  }

  // ---- Code lengths as an assignment to nodes ------------------------------------

  function Weights(len: seq<nat>, L: nat): (w: seq<nat>)
    ensures |w| == |len|
  {
    seq(|len|, i requires 0 <= i < |len| => if len[i] <= L then Pow2(L - len[i]) else 0)
  }

  function Costs(f: seq<nat>, len: seq<nat>): (c: seq<nat>)
    requires |f| == |len|
    ensures |c| == |f|
  {
    seq(|f|, i requires 0 <= i < |f| => f[i] * len[i])
  }

  // Lengths that satisfy the Kraft inequality, in units of 2^-L.
  ghost predicate Admissible(A: set<nat>, len: seq<nat>, L: nat)
  {
    (forall i :: i in A ==> i < |len| && len[i] <= L) && SumOn(A, Weights(len, L)) <= Pow2(L)
  }

  // A node of A with the greatest length.
  lemma {:induction false} Longest(A: set<nat>, len: seq<nat>) returns (p: nat)
    requires A != {} && forall i :: i in A ==> i < |len|
    ensures p in A && forall i :: i in A ==> len[i] <= len[p]
    decreases |A|
  {
    var x :| x in A;
    if A == {x} {
      p := x;
    } else {
      var B := A - {x};
      assert A == {x} + B;
      p := Longest(B, len);
      if len[p] < len[x] { p := x; }
    }
  }

  function Swap(s: seq<nat>, i: nat, j: nat): (t: seq<nat>)
    requires i < |s| && j < |s|
    ensures |t| == |s|
  {
    s[i := s[j]][j := s[i]]
  }

  lemma SumSwap(A: set<nat>, g: seq<nat>, g': seq<nat>, i: nat, j: nat)
    requires |g| == |g'| && i < |g| && j < |g| && i in A && j in A && i != j
    requires forall k :: 0 <= k < |g| && k != i && k != j ==> g[k] == g'[k]
    ensures SumOn(A, g') + g[i] + g[j] == SumOn(A, g) + g'[i] + g'[j]
  {
    SumOnRemove(A, i, g);
    SumOnRemove(A - {i}, j, g);
    SumOnRemove(A, i, g');
    SumOnRemove(A - {i}, j, g');
    SumOnSame(A - {i} - {j}, g, g');
  }

  // Giving the longer of two codes to the less frequent symbol.
  lemma ExchangeGain(fi: nat, fj: nat, li: nat, lj: nat)
    requires fi <= fj && li <= lj
    ensures fi * lj + fj * li <= fi * li + fj * lj
  {
    MulMono(0, fj - fi, lj - li);
    assert (fj - fi) * (lj - li) == fj * lj - fj * li - fi * lj + fi * li;
  }

  lemma Exchange(A: set<nat>, f: seq<nat>, len: seq<nat>, L: nat, i: nat, j: nat)
    requires |f| == |len| && i in A && j in A && Admissible(A, len, L)
    requires f[i] <= f[j] && len[i] <= len[j]
    ensures Admissible(A, Swap(len, i, j), L)
    ensures SumOn(A, Costs(f, Swap(len, i, j))) <= SumOn(A, Costs(f, len))
  {
    hide Pow2, Sum;
    var len' := Swap(len, i, j);
    if i != j {
      SumSwap(A, Weights(len, L), Weights(len', L), i, j);
      SumSwap(A, Costs(f, len), Costs(f, len'), i, j);
      ExchangeGain(f[i], f[j], len[i], len[j]);
    } else {
      assert len' == len;
    }
  }

  lemma {:induction false} AlignedSum(s: seq<nat>, n: nat)
    requires forall i :: 0 <= i < |s| ==> Low(s[i], n) == 0
    ensures Low(Sum(s), n) == 0
  {
    if s == [] {
      LowZero(n);
    } else {
      AlignedSum(s[..|s| - 1], n);
      AlignedAdd(s[|s| - 1], Sum(s[..|s| - 1]), n);
    }
  }

  // The weights of codes no longer than k are multiples of 2^(L-k).
  lemma AlignedWeights(A: set<nat>, len: seq<nat>, L: nat, k: nat)
    requires k <= L && forall i :: i in A ==> i < |len| && len[i] <= k
    ensures Low(SumOn(A, Weights(len, L)), L - k) == 0
  {
    hide Low, Pow2, Sum;
    var s := Masked(A, Weights(len, L));
    forall i | 0 <= i < |s| ensures Low(s[i], L - k) == 0 {
      if i in A { AlignedPow2(L - k, L - len[i]); } else { LowZero(L - k); }
    }
    AlignedSum(s, L - k);
  }

  // A single longest code may be shortened to the length of the next longest.
  lemma Shorten(A: set<nat>, f: seq<nat>, len: seq<nat>, L: nat, a: nat, b: nat)
    requires |f| == |len| && a in A && b in A && a != b && Admissible(A, len, L)
    requires len[b] <= len[a] && forall i :: i in A && i != a ==> len[i] <= len[b]
    ensures Admissible(A, len[a := len[b]], L)
    ensures SumOn(A, Costs(f, len[a := len[b]])) <= SumOn(A, Costs(f, len))
  {
    hide Low, Shr, Pow2, Sum;
    var len', B := len[a := len[b]], A - {a};
    var w, w' := Weights(len, L), Weights(len', L);
    SumOnRemove(A, a, w);
    SumOnRemove(A, a, w');
    SumOnSame(B, w, w');
    AlignedWeights(B, len, L, len[b]);
    AlignedPow2(L - len[b], L);
    AlignedGap(SumOn(B, w), Pow2(L), L - len[b]);
    MulMono(len[b], len[a], f[a]);
    SumOnLe(A, Costs(f, len'), Costs(f, len));
  }

  // Two equally long codes merge into one a bit shorter.
  lemma Join(A: set<nat>, A': set<nat>, f: seq<nat>, len: seq<nat>, L: nat, a: nat, b: nat, x: nat)
    requires |f| == |len| && x < |f| && Merge(A, a, b, x, A') && Admissible(A, len, L)
    requires f[x] == f[a] + f[b] && len[a] == len[b]
    ensures len[b] > 0 && Admissible(A', len[x := len[b] - 1], L)
    ensures SumOn(A', Costs(f, len[x := len[b] - 1])) + f[x] == SumOn(A, Costs(f, len))
  {
    hide Low, Shr, Sum;
    var w := Weights(len, L);
    SumOnRemove(A, a, w);
    SumOnRemove(A - {a}, b, w);
    var k := len[b];
    assert k > 0;
    var len' := len[x := k - 1];
    var w' := Weights(len', L);
    SumOnSame(A, w, w');
    MergeSum(A, a, b, x, A', w');
    assert w'[x] == w'[a] + w'[b];
    SumOnSame(A, Costs(f, len), Costs(f, len'));
    MergeSum(A, a, b, x, A', Costs(f, len'));
    assert f[x] * (k - 1) + f[x] == f[a] * k + f[b] * k;
  }

  // Any admissible lengths for A give admissible lengths for the merged set
  // that cost less by at least the frequency of the new node.
  lemma ReduceStep(A: set<nat>, A': set<nat>, f: seq<nat>, len: seq<nat>, L: nat, a: nat, b: nat, x: nat)
    returns (len': seq<nat>)
    requires |f| == |len| && x < |f| && Merge(A, a, b, x, A') && Admissible(A, len, L)
    requires f[x] == f[a] + f[b]
    requires forall c :: c in A ==> c < |f| && f[a] <= f[c]
    requires forall c :: c in A && c != a ==> f[b] <= f[c]
    ensures |len'| == |f| && Admissible(A', len', L)
    ensures SumOn(A', Costs(f, len')) + f[x] <= SumOn(A, Costs(f, len))
  {
    hide Low, Shr, Pow2, Sum, SumOn, Costs;
    var p := Longest(A, len);
    var len1 := Swap(len, a, p);
    Exchange(A, f, len, L, a, p);
    assert b in A - {a};
    var q := Longest(A - {a}, len1);
    var len2 := Swap(len1, b, q);
    Exchange(A, f, len1, L, b, q);
    Shorten(A, f, len2, L, a, b);
    var len3 := len2[a := len2[b]];
    Join(A, A', f, len3, L, a, b, x);
    len' := len3[x := len3[b] - 1];
  }

  // ---- The Kraft inequality for binary prefix codes ------------------------------

  type Word = seq<bool>

  ghost predicate PrefixFree(A: set<nat>, words: seq<Word>)
  {
    (forall i :: i in A ==> i < |words|)
    && forall i, j :: i in A && j in A && i != j ==> !(words[i] <= words[j])
  }

  function WordLens(words: seq<Word>): (l: seq<nat>)
    ensures |l| == |words|
  {
    seq(|words|, i requires 0 <= i < |words| => |words[i]|)
  }

  function Tails(words: seq<Word>): (t: seq<Word>)
    ensures |t| == |words|
  {
    seq(|words|, i requires 0 <= i < |words| => if words[i] == [] then [] else words[i][1..])
  }

  lemma {:induction false} SumUnion(A: set<nat>, B: set<nat>, g: seq<nat>)
    requires A !! B
    ensures SumOn(A + B, g) == SumOn(A, g) + SumOn(B, g)
    decreases B
  {
    if B == {} {
      assert A + B == A;
      SumNone(g);
    } else {
      var x :| x in B;
      SumUnion(A, B - {x}, g);
      if x < |g| {
        SumOnRemove(B, x, g);
        assert A + B == (A + (B - {x})) + {x};
        SumOnAdd(A + (B - {x}), x, g);
      } else {
        assert Masked(A + B, g) == Masked(A + (B - {x}), g);
        assert Masked(B, g) == Masked(B - {x}, g);
      }
    }
  }

  lemma {:induction false} SumZeros(s: seq<nat>)
    requires forall i :: 0 <= i < |s| ==> s[i] == 0
    ensures Sum(s) == 0
  {
    if s != [] { SumZeros(s[..|s| - 1]); }
  }

  lemma DistributeLeft(k: int, x: int, y: int)
    ensures k * (x + y) == k * x + k * y
  {
  }

  lemma {:induction false} SumLinear(s: seq<nat>, s1: seq<nat>, s2: seq<nat>, k: nat)
    requires |s| == |s1| == |s2| && forall i :: 0 <= i < |s| ==> s[i] == s1[i] + k * s2[i]
    ensures Sum(s) == Sum(s1) + k * Sum(s2)
  {
    if s != [] {
      var n := |s| - 1;
      SumLinear(s[..n], s1[..n], s2[..n], k);
      DistributeLeft(k, s2[n], Sum(s2[..n]));
    }
  }

  lemma SumNone(g: seq<nat>)
    ensures SumOn({}, g) == 0
  {
    SumZeros(Masked({}, g));
  }

  lemma {:induction false} KraftInequality(A: set<nat>, words: seq<Word>, L: nat)
    requires PrefixFree(A, words) && forall i :: i in A ==> |words[i]| <= L
    ensures Admissible(A, WordLens(words), L)
    decreases L
  {
    hide Sum, SumOn;
    var len := WordLens(words);
    if c :| c in A && words[c] == [] {
      forall i | i in A ensures i == c { assert words[c] <= words[i]; }
      assert A == {} + {c};
      SumOnAdd({}, c, Weights(len, L));
      SumNone(Weights(len, L));
    } else if L == 0 {
      assert A == {};
      SumNone(Weights(len, L));
    } else {
      var A0, A1 := set i | i in A && !words[i][0], set i | i in A && words[i][0];
      assert A == A0 + A1;
      SumUnion(A0, A1, Weights(len, L));
      HalfKraft(A0, words, L);
      HalfKraft(A1, words, L);
    }
  }

  lemma TailPrefix(u: Word, v: Word)
    requires u != [] && v != [] && u[0] == v[0]
    ensures u[1..] <= v[1..] ==> u <= v
  {
    assert u == [u[0]] + u[1..] && v == [v[0]] + v[1..];
  }

  // The words that share their first bit use at most half of the space.
  lemma {:induction false} HalfKraft(A: set<nat>, words: seq<Word>, L: nat)
    requires L > 0 && PrefixFree(A, words) && forall i :: i in A ==> 0 < |words[i]| <= L
    requires forall i, j :: i in A && j in A ==> words[i][0] == words[j][0]
    ensures SumOn(A, Weights(WordLens(words), L)) <= Pow2(L - 1)
    decreases L, 0
  {
    hide Sum;
    var tails := Tails(words);
    forall i, j | i in A && j in A && i != j ensures !(tails[i] <= tails[j]) {
      TailPrefix(words[i], words[j]);
    }
    KraftInequality(A, tails, L - 1);
    SumOnSame(A, Weights(WordLens(words), L), Weights(WordLens(tails), L - 1));
  }
}
