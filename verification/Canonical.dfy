// Canonical Huffman codes (RFC 1951, section 3.2.2), seen as a tiling of the
// numbers below 2^M by blocks: a symbol with code length k owns a block of
// 2^(M-k) consecutive numbers, and the blocks lie in order of (length, symbol).
// The code of a symbol is the number of its block among blocks of that size.
module Canonical {
  import opened Powers

  predicate LengthsFit(lens: seq<nat>, M: nat)
  {
    forall i :: 0 <= i < |lens| ==> lens[i] <= M
  }

  // (lens[j], j) comes before (L, s), and j has a code.
  predicate Before(lens: seq<nat>, L: nat, s: nat, j: nat)
    requires j < |lens|
  {
    0 < lens[j] && (lens[j] < L || (lens[j] == L && j < s))
  }

  function Weight(lens: seq<nat>, M: nat, L: nat, s: nat, j: nat): nat
    requires LengthsFit(lens, M) && j < |lens|
  {
    if Before(lens, L, s, j) then Pow2(M - lens[j]) else 0
  }

  function StartTo(lens: seq<nat>, M: nat, L: nat, s: nat, n: nat): nat
    requires LengthsFit(lens, M) && n <= |lens|
  {
    if n == 0 then 0 else StartTo(lens, M, L, s, n - 1) + Weight(lens, M, L, s, n - 1)
  }

  // Where the block of a symbol s of length L starts.
  function Start(lens: seq<nat>, M: nat, L: nat, s: nat): nat
    requires LengthsFit(lens, M)
  {
    StartTo(lens, M, L, s, |lens|)
  }

  function Kraft(lens: seq<nat>, M: nat): nat
    requires LengthsFit(lens, M)
  {
    Start(lens, M, M + 1, 0)
  }

  function BlockStart(lens: seq<nat>, M: nat, a: nat): nat
    requires LengthsFit(lens, M) && a < |lens|
  {
    Start(lens, M, lens[a], a)
  }

  // The code word of a symbol, first bit of the code in bit 0.
  function Code(lens: seq<nat>, M: nat, a: nat): (c: nat)
    requires LengthsFit(lens, M) && a < |lens|
    ensures c < Pow2(lens[a])
  {
    Rev(Shr(BlockStart(lens, M, a), M - lens[a]), lens[a])
  }

  predicate Owns(lens: seq<nat>, M: nat, a: nat, w: nat)
    requires LengthsFit(lens, M) && a < |lens|
  {
    lens[a] > 0 && BlockStart(lens, M, a) <= w < BlockStart(lens, M, a) + Pow2(M - lens[a])
  }

  // The bit stream with value `stream` (first bit in bit 0) begins with the
  // code of symbol a.
  predicate Matches(lens: seq<nat>, M: nat, a: nat, stream: nat)
    requires LengthsFit(lens, M) && a < |lens|
  {
    lens[a] > 0 && Low(stream, lens[a]) == Code(lens, M, a)
  }

  // ---- The order of the blocks ----------------------------------------------

  lemma {:induction false} StartStepTo(lens: seq<nat>, M: nat, L: nat, s: nat, n: nat)
    requires LengthsFit(lens, M) && n <= |lens| && s < |lens| && 0 < L <= M
    ensures StartTo(lens, M, L, s + 1, n)
         == StartTo(lens, M, L, s, n) + if s < n && lens[s] == L then Pow2(M - L) else 0
  {
    if n > 0 { StartStepTo(lens, M, L, s, n - 1); }
  }

  lemma StartStep(lens: seq<nat>, M: nat, L: nat, s: nat)
    requires LengthsFit(lens, M) && s < |lens| && 0 < L <= M
    ensures Start(lens, M, L, s + 1) == Start(lens, M, L, s) + if lens[s] == L then Pow2(M - L) else 0
  {
    StartStepTo(lens, M, L, s, |lens|);
  }

  lemma {:induction false} StartRollTo(lens: seq<nat>, M: nat, L: nat, n: nat)
    requires LengthsFit(lens, M) && n <= |lens|
    ensures StartTo(lens, M, L, |lens|, n) == StartTo(lens, M, L + 1, 0, n)
  {
    if n > 0 { StartRollTo(lens, M, L, n - 1); }
  }

  lemma StartRoll(lens: seq<nat>, M: nat, L: nat)
    requires LengthsFit(lens, M)
    ensures Start(lens, M, L, |lens|) == Start(lens, M, L + 1, 0)
  {
    StartRollTo(lens, M, L, |lens|);
  }

  lemma {:induction false} StartFirstTo(lens: seq<nat>, M: nat, n: nat)
    requires LengthsFit(lens, M) && n <= |lens|
    ensures StartTo(lens, M, 1, 0, n) == 0
  {
    if n > 0 { StartFirstTo(lens, M, n - 1); }
  }

  lemma StartFirst(lens: seq<nat>, M: nat)
    requires LengthsFit(lens, M)
    ensures Start(lens, M, 1, 0) == 0
  {
    StartFirstTo(lens, M, |lens|);
  }

  predicate Leq(L: nat, s: nat, L': nat, s': nat)
  {
    L < L' || (L == L' && s <= s')
  }

  lemma {:induction false} StartMonoTo(lens: seq<nat>, M: nat, L: nat, s: nat, L': nat, s': nat, n: nat)
    requires LengthsFit(lens, M) && n <= |lens| && Leq(L, s, L', s')
    ensures StartTo(lens, M, L, s, n) <= StartTo(lens, M, L', s', n)
  {
    if n > 0 { StartMonoTo(lens, M, L, s, L', s', n - 1); }
  }

  lemma StartMono(lens: seq<nat>, M: nat, L: nat, s: nat, L': nat, s': nat)
    requires LengthsFit(lens, M) && Leq(L, s, L', s')
    ensures Start(lens, M, L, s) <= Start(lens, M, L', s')
  {
    StartMonoTo(lens, M, L, s, L', s', |lens|);
  }

  // A symbol's whole block lies before every later position.
  lemma BlockEnd(lens: seq<nat>, M: nat, a: nat, L: nat, s: nat)
    requires LengthsFit(lens, M) && a < |lens| && lens[a] > 0
    requires Leq(lens[a], a + 1, L, s)
    ensures BlockStart(lens, M, a) + Pow2(M - lens[a]) <= Start(lens, M, L, s)
  {
    StartStep(lens, M, lens[a], a);
    StartMono(lens, M, lens[a], a + 1, L, s);
  }

  lemma BlockInside(lens: seq<nat>, M: nat, a: nat)
    requires LengthsFit(lens, M) && a < |lens| && lens[a] > 0
    ensures BlockStart(lens, M, a) + Pow2(M - lens[a]) <= Kraft(lens, M)
  {
    BlockEnd(lens, M, a, M + 1, 0);
  }

  lemma {:induction false} StartAlignedTo(lens: seq<nat>, M: nat, L: nat, s: nat, n: nat)
    requires LengthsFit(lens, M) && n <= |lens| && L <= M
    ensures Low(StartTo(lens, M, L, s, n), M - L) == 0
  {
    if n == 0 {
      LowSmall(0, M - L);
    } else {
      StartAlignedTo(lens, M, L, s, n - 1);
      var w := Weight(lens, M, L, s, n - 1);
      if w == 0 {
        LowSmall(0, M - L);
      } else {
        AlignedPow2(M - L, M - lens[n - 1]);
      }
      AlignedAdd(StartTo(lens, M, L, s, n - 1), w, M - L);
    }
  }

  lemma StartAligned(lens: seq<nat>, M: nat, L: nat, s: nat)
    requires LengthsFit(lens, M) && L <= M
    ensures Low(Start(lens, M, L, s), M - L) == 0
  {
    StartAlignedTo(lens, M, L, s, |lens|);
  }

  // ---- The tiling ----------------------------------------------------------------

  // No number belongs to two symbols.
  lemma OwnerUnique(lens: seq<nat>, M: nat, a: nat, b: nat, w: nat)
    requires LengthsFit(lens, M) && a < |lens| && b < |lens|
    requires Owns(lens, M, a, w) && Owns(lens, M, b, w)
    ensures a == b
  {
    if Leq(lens[a], a + 1, lens[b], b) {
      BlockEnd(lens, M, a, lens[b], b);
    } else if a != b {
      BlockEnd(lens, M, b, lens[a], a);
    }
  }

  // Every number before position (L, s) belongs to a symbol before it.
  lemma {:induction false} FindOwner(lens: seq<nat>, M: nat, L: nat, s: nat, w: nat) returns (a: nat)
    requires LengthsFit(lens, M) && 1 <= L && (L <= M || s == 0) && L <= M + 1 && s <= |lens|
    requires w < Start(lens, M, L, s)
    ensures a < |lens| && Owns(lens, M, a, w) && Leq(lens[a], a + 1, L, s)
    decreases L, s
  {
    if s > 0 {
      StartStep(lens, M, L, s - 1);
      if w < Start(lens, M, L, s - 1) {
        a := FindOwner(lens, M, L, s - 1, w);
      } else {
        a := s - 1;
      }
    } else {
      if L == 1 {
        StartFirst(lens, M);
        assert false;
      } else {
        StartRoll(lens, M, L - 1);
        a := FindOwner(lens, M, L - 1, |lens|, w);
      }
    }
  }

  // ---- From numbers to bit streams --------------------------------------------

  // A stream begins with the code of a exactly when its first M bits, read as
  // a number with the first bit on top, lie in the block of a.
  lemma MatchesIffOwns(lens: seq<nat>, M: nat, a: nat, stream: nat)
    requires LengthsFit(lens, M) && a < |lens| && Kraft(lens, M) <= Pow2(M)
    ensures Matches(lens, M, a, stream) <==> Owns(lens, M, a, Rev(stream, M))
  {
    var k := lens[a];
    if k > 0 {
      var P, w := BlockStart(lens, M, a), Rev(stream, M);
      StartAligned(lens, M, k, a);
      InBlock(w, P, M - k);
      RevHigh(stream, k, M - k);
      assert Shr(w, M - k) == Rev(stream, k);
      RevLow(stream, k, k);
      BlockInside(lens, M, a);
      var c := Shr(P, M - k);
      if Shr(w, M - k) == c {
        RevRev(Low(stream, k), k);
      }
      if Low(stream, k) == Rev(c, k) {
        BlockIndexFits(lens, M, a);
        RevRev(c, k);
      }
    }
  }

  // With a Kraft sum of at most one, block numbers fit in the code length.
  lemma BlockIndexFits(lens: seq<nat>, M: nat, a: nat)
    requires LengthsFit(lens, M) && a < |lens| && lens[a] > 0
    requires Kraft(lens, M) <= Pow2(M)
    ensures Shr(BlockStart(lens, M, a), M - lens[a]) < Pow2(lens[a])
  {
    var k, P := lens[a], BlockStart(lens, M, a);
    StartAligned(lens, M, k, a);
    BlockInside(lens, M, a);
    AlignedPow2(M - k, M);
    assert M - (M - k) == k;
    ShrMono(P, Pow2(M) - 1, M - k);
    Split(P, M - k);
    Pow2Add(k, M - k);
    if Shr(P, M - k) >= Pow2(k) { MulMono(Pow2(k), Shr(P, M - k), Pow2(M - k)); }
  }

  // No code is a prefix of another: a stream begins with at most one code.
  lemma DecodeUnique(lens: seq<nat>, M: nat, a: nat, b: nat, stream: nat)
    requires LengthsFit(lens, M) && a < |lens| && b < |lens| && Kraft(lens, M) <= Pow2(M)
    requires Matches(lens, M, a, stream) && Matches(lens, M, b, stream)
    ensures a == b
  {
    hide Low, Shr, Rev, Pow2;
    MatchesIffOwns(lens, M, a, stream);
    MatchesIffOwns(lens, M, b, stream);
    OwnerUnique(lens, M, a, b, Rev(stream, M));
  }

  // When the Kraft sum is exactly one, every stream begins with a code.
  lemma DecodeExists(lens: seq<nat>, M: nat, stream: nat) returns (a: nat)
    requires LengthsFit(lens, M) && Kraft(lens, M) == Pow2(M)
    ensures a < |lens| && Matches(lens, M, a, stream)
  {
    a := FindOwner(lens, M, M + 1, 0, Rev(stream, M));
    MatchesIffOwns(lens, M, a, stream);
  }

  // ---- The space may be made larger -------------------------------------------

  lemma {:induction false} StartDoubleTo(lens: seq<nat>, M: nat, L: nat, s: nat, n: nat)
    requires LengthsFit(lens, M) && LengthsFit(lens, M + 1) && n <= |lens|
    ensures StartTo(lens, M + 1, L, s, n) == 2 * StartTo(lens, M, L, s, n)
  {
    if n > 0 { StartDoubleTo(lens, M, L, s, n - 1); }
  }

  // The code of a symbol does not depend on the space it is placed in.
  lemma CodeSpace(lens: seq<nat>, M: nat, a: nat)
    requires LengthsFit(lens, M) && LengthsFit(lens, M + 1) && a < |lens|
    ensures Code(lens, M + 1, a) == Code(lens, M, a)
  {
    StartDoubleTo(lens, M, lens[a], a, |lens|);
    var P, b := BlockStart(lens, M, a), M - lens[a];
    assert Shr(2 * P, b + 1) == Shr(P, b);
  }

  // ---- Counting codes of one length -------------------------------------------

  function CountTo(lens: seq<nat>, L: nat, n: nat): (c: nat)
    requires n <= |lens|
    ensures c <= n
  {
    if n == 0 then 0 else CountTo(lens, L, n - 1) + if lens[n - 1] == L then 1 else 0
  }

  function Count(lens: seq<nat>, L: nat): nat
  {
    CountTo(lens, L, |lens|)
  }

  lemma {:induction false} StartCountTo(lens: seq<nat>, M: nat, L: nat, s: nat)
    requires LengthsFit(lens, M) && 0 < L <= M && s <= |lens|
    ensures Start(lens, M, L, s) == Start(lens, M, L, 0) + CountTo(lens, L, s) * Pow2(M - L)
  {
    if s > 0 {
      StartCountTo(lens, M, L, s - 1);
      StartStep(lens, M, L, s - 1);
      Distribute(CountTo(lens, L, s - 1), 1, Pow2(M - L));
    }
  }

  // The first block of the next length follows the last block of this one.
  lemma StartNextLength(lens: seq<nat>, M: nat, L: nat)
    requires LengthsFit(lens, M) && 0 < L <= M
    ensures Start(lens, M, L + 1, 0) == Start(lens, M, L, 0) + Count(lens, L) * Pow2(M - L)
  {
    StartCountTo(lens, M, L, |lens|);
    StartRoll(lens, M, L);
  }
}
