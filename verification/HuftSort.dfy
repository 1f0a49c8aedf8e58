// The first stages of huft_build: counting code lengths, filling up an
// incomplete set with dummy codes and listing the symbols in code order.
module HuftSort {
  import opened Powers
  import opened Canonical

  // The symbols of length L among the first n, in increasing order.
  function SymsTo(lens: seq<nat>, L: nat, n: nat): (ss: seq<nat>)
    requires n <= |lens|
    ensures |ss| == CountTo(lens, L, n)
  {
    if n == 0 then [] else SymsTo(lens, L, n - 1) + if lens[n - 1] == L then [n - 1] else []
  }

  lemma {:induction false} SymsAt(lens: seq<nat>, L: nat, n: nat, t: nat)
    requires n <= |lens| && t < CountTo(lens, L, n)
    ensures SymsTo(lens, L, n)[t] < n && lens[SymsTo(lens, L, n)[t]] == L
    ensures CountTo(lens, L, SymsTo(lens, L, n)[t]) == t
  {
    if t < CountTo(lens, L, n - 1) { SymsAt(lens, L, n - 1, t); }
  }

  // How many of the first n symbols have a code shorter than L.
  function OffTo(lens: seq<nat>, L: nat, n: nat): (r: nat)
    requires n <= |lens|
    ensures r <= n
  {
    if n == 0 then 0 else OffTo(lens, L, n - 1) + if 0 < lens[n - 1] < L then 1 else 0
  }

  function Off(lens: seq<nat>, L: nat): nat
  {
    OffTo(lens, L, |lens|)
  }

  lemma {:induction false} OffNextTo(lens: seq<nat>, L: nat, n: nat)
    requires n <= |lens| && L > 0
    ensures OffTo(lens, L + 1, n) == OffTo(lens, L, n) + CountTo(lens, L, n)
  {
    if n > 0 { OffNextTo(lens, L, n - 1); }
  }

  lemma {:induction false} OffFirstTo(lens: seq<nat>, n: nat)
    requires n <= |lens|
    ensures OffTo(lens, 1, n) == 0
  {
    if n > 0 { OffFirstTo(lens, n - 1); }
  }

  lemma {:induction false} OffMonoTo(lens: seq<nat>, L: nat, L': nat, n: nat)
    requires n <= |lens| && L <= L'
    ensures OffTo(lens, L, n) <= OffTo(lens, L', n)
  {
    if n > 0 { OffMonoTo(lens, L, L', n - 1); }
  }

  lemma {:induction false} CountMono(lens: seq<nat>, L: nat, m: nat, n: nat)
    requires m <= n <= |lens|
    ensures CountTo(lens, L, m) <= CountTo(lens, L, n)
  {
    if m < n { CountMono(lens, L, m, n - 1); }
  }

  // Without zero lengths, everything is no longer than the maximum.
  lemma {:induction false} OffAllTo(lens: seq<nat>, L: nat, n: nat)
    requires n <= |lens| && forall i :: 0 <= i < n ==> 0 < lens[i] < L
    ensures OffTo(lens, L, n) == n
  {
    if n > 0 { OffAllTo(lens, L, n - 1); }
  }

  method CountLengths(b: seq<nat>, BMAX: nat) returns (c: array<nat>)
    requires LengthsFit(b, BMAX)
    ensures fresh(c) && c.Length == BMAX + 1
    ensures forall L :: 0 <= L <= BMAX ==> c[L] == Count(b, L)
  {
    c := new nat[BMAX + 1](i => 0);
    var i: nat := 0;
    while i < |b|
      invariant 0 <= i <= |b|
      invariant forall L :: 0 <= L <= BMAX ==> c[L] == CountTo(b, L, i)
    {
      c[b[i]] := c[b[i]] + 1;
      i := i + 1;
    }
  }

  // v lists the first i symbols in order of length, those of length L from
  // Off(L) on.
  ghost predicate ListedOne(v: seq<nat>, b: seq<nat>, i: nat, L: nat, t: nat)
    requires i <= |b|
  {
    t < CountTo(b, L, i) ==> Off(b, L) + t < |v| && v[Off(b, L) + t] == SymsTo(b, L, i)[t]
  }

  ghost predicate Listed(v: seq<nat>, b: seq<nat>, i: nat)
    requires i <= |b|
  {
    forall L: nat, t: nat :: L > 0 ==> ListedOne(v, b, i, L, t)
  }

  lemma SlotFree(b: seq<nat>, i: nat, L: nat, t: nat)
    requires i < |b| && b[i] > 0 && L > 0 && L != b[i] && t < CountTo(b, L, i)
    ensures Off(b, L) + t != Off(b, b[i]) + CountTo(b, b[i], i)
  {
    var j := b[i];
    CountMono(b, L, i, |b|);
    CountMono(b, j, i + 1, |b|);
    OffNextTo(b, L, |b|);
    OffNextTo(b, j, |b|);
    if L < j { OffMonoTo(b, L + 1, j, |b|); } else { OffMonoTo(b, j + 1, L, |b|); }
  }

  lemma SlotBound(b: seq<nat>, i: nat)
    requires i < |b| && b[i] > 0
    ensures Off(b, b[i]) + CountTo(b, b[i], i) < |b|
  {
    CountMono(b, b[i], i + 1, |b|);
    OffNextTo(b, b[i], |b|);
  }

  lemma ListStep(v: seq<nat>, b: seq<nat>, i: nat)
    requires i < |b| && Listed(v, b, i) && |b| <= |v|
    requires b[i] > 0 ==> Off(b, b[i]) + CountTo(b, b[i], i) < |v|
    ensures Listed(if b[i] > 0 then v[Off(b, b[i]) + CountTo(b, b[i], i) := i] else v, b, i + 1)
  {
    var v' := if b[i] > 0 then v[Off(b, b[i]) + CountTo(b, b[i], i) := i] else v;
    var i' := i + 1;
    forall L: nat, t: nat {:trigger ListedOne(v', b, i', L, t)} | L > 0 ensures ListedOne(v', b, i', L, t) {
      assert ListedOne(v, b, i, L, t);
      if b[i] > 0 && L != b[i] && t < CountTo(b, L, i) { SlotFree(b, i, L, t); }
      if b[i] > 0 && L == b[i] && t < CountTo(b, L, i) { assert SymsTo(b, L, i + 1)[t] == SymsTo(b, L, i)[t]; }
    }
  }

  // Starting offsets for each length, then the symbols in order of length.
  method ListSymbols(b: seq<nat>, c: array<nat>, g: nat, N_MAX: nat, BMAX: nat) returns (v: array<nat>)
    requires LengthsFit(b, g) && 0 < g <= BMAX && c.Length == BMAX + 1 && |b| <= N_MAX
    requires forall L :: 1 <= L < g ==> c[L] == Count(b, L)
    ensures fresh(v) && v.Length == N_MAX && Listed(v[..], b, |b|)
  {
    var x := Offsets(b, c, g, BMAX);
    v := new nat[N_MAX];
    var i: nat := 0;
    while i < |b|
      invariant 0 <= i <= |b|
      invariant forall L :: 1 <= L <= g ==> x[L] == Off(b, L) + CountTo(b, L, i)
      invariant Listed(v[..], b, i)
    {
      var j := b[i];
      ghost var v0 := v[..];
      if j != 0 {
        SlotBound(b, i);
        v[x[j]] := i;
        x[j] := x[j] + 1;
      }
      ListStep(v0, b, i);
      assert v[..] == if j > 0 then v0[Off(b, j) + CountTo(b, j, i) := i] else v0;
      i := i + 1;
    }
  }

  method Offsets(b: seq<nat>, c: array<nat>, g: nat, BMAX: nat) returns (x: array<nat>)
    requires 0 < g <= BMAX && c.Length == BMAX + 1
    requires forall L :: 1 <= L < g ==> c[L] == Count(b, L)
    ensures fresh(x) && x.Length == BMAX + 1
    ensures forall L :: 1 <= L <= g ==> x[L] == Off(b, L)
  {
    x := new nat[BMAX + 1];
    var j := 0;
    x[1] := 0;
    OffFirstTo(b, |b|);
    var i, p := g, 1;
    while i > 1
      invariant 1 <= i <= g && p == g - i + 1 && j == Off(b, p)
      invariant forall L :: 1 <= L <= p ==> x[L] == Off(b, L)
    {
      OffNextTo(b, p, |b|);
      j := j + c[p];
      x[p + 1] := j;
      i, p := i - 1, p + 1;
    }
  }

  // ---- Dummy codes --------------------------------------------------------------

  // b with y more symbols of length g.
  function Padded(b: seq<nat>, y: nat, g: nat): (r: seq<nat>)
  {
    b + seq(y, i => g)
  }

  lemma PaddedFit(b: seq<nat>, y: nat, g: nat, M: nat)
    requires LengthsFit(b, M) && g <= M
    ensures LengthsFit(Padded(b, y, g), M)
  {
  }

  lemma {:induction false} PaddedPrefixTo(b: seq<nat>, y: nat, g: nat, M: nat, L: nat, s: nat, n: nat)
    requires LengthsFit(b, M) && g <= M && n <= |b|
    ensures LengthsFit(Padded(b, y, g), M)
    ensures StartTo(Padded(b, y, g), M, L, s, n) == StartTo(b, M, L, s, n)
    ensures CountTo(Padded(b, y, g), L, n) == CountTo(b, L, n)
  {
    if n > 0 { PaddedPrefixTo(b, y, g, M, L, s, n - 1); }
  }

  lemma {:induction false} PaddedTailTo(b: seq<nat>, y: nat, g: nat, M: nat, L: nat, s: nat, m: nat)
    requires LengthsFit(b, M) && 0 < g <= M && m <= y
    ensures LengthsFit(Padded(b, y, g), M)
    ensures Leq(L, s, g, |b|) ==> StartTo(Padded(b, y, g), M, L, s, |b| + m) == Start(b, M, L, s)
    ensures L > g ==> StartTo(Padded(b, y, g), M, L, s, |b| + m) == Start(b, M, L, s) + m * Pow2(M - g)
    ensures CountTo(Padded(b, y, g), L, |b| + m) == Count(b, L) + if L == g then m else 0
  {
    if m == 0 {
      PaddedPrefixTo(b, y, g, M, L, s, |b|);
    } else {
      PaddedTailTo(b, y, g, M, L, s, m - 1);
      Distribute(m - 1, 1, Pow2(M - g));
    }
  }

  // The dummies change neither the codes of b nor which streams they match.
  lemma PaddedCodes(b: seq<nat>, y: nat, g: nat, M: nat, a: nat)
    requires LengthsFit(b, g) && 0 < g <= M && a < |b|
    ensures LengthsFit(b, M) && LengthsFit(Padded(b, y, g), M)
    ensures BlockStart(Padded(b, y, g), M, a) == BlockStart(b, M, a)
    ensures Code(Padded(b, y, g), M, a) == Code(b, M, a)
    ensures forall stream :: Matches(Padded(b, y, g), M, a, stream) == Matches(b, M, a, stream)
  {
    PaddedTailTo(b, y, g, M, b[a], a, y);
  }

  lemma PaddedKraft(b: seq<nat>, y: nat, g: nat, M: nat)
    requires LengthsFit(b, M) && 0 < g <= M
    ensures LengthsFit(Padded(b, y, g), M)
    ensures Kraft(Padded(b, y, g), M) == Kraft(b, M) + y * Pow2(M - g)
  {
    PaddedTailTo(b, y, g, M, M + 1, 0, y);
  }

  // The symbol whose code is number t of length k; dummies come last.
  function SymbolAt(b: seq<nat>, g: nat, k: nat, t: nat): nat
  {
    if t < Count(b, k) then SymsTo(b, k, |b|)[t] else |b| + (t - Count(b, k))
  }

  lemma SymbolPlace(b: seq<nat>, y: nat, g: nat, M: nat, k: nat, t: nat)
    requires LengthsFit(b, g) && 0 < g <= M && 0 < k <= g
    requires t < Count(b, k) + if k == g then y else 0
    ensures LengthsFit(Padded(b, y, g), M)
    ensures SymbolAt(b, g, k, t) < |Padded(b, y, g)| && Padded(b, y, g)[SymbolAt(b, g, k, t)] == k
    ensures BlockStart(Padded(b, y, g), M, SymbolAt(b, g, k, t))
         == Start(Padded(b, y, g), M, k, 0) + t * Pow2(M - k)
    ensures t < Count(b, k) <==> SymbolAt(b, g, k, t) < |b|
  {
    var a, lens := SymbolAt(b, g, k, t), Padded(b, y, g);
    PaddedFit(b, y, g, M);
    if t < Count(b, k) {
      SymsAt(b, k, |b|, t);
      PaddedPrefixTo(b, y, g, M, k, 0, a);
    } else {
      PaddedTailTo(b, y, g, M, g, 0, t - Count(b, k));
    }
    StartCountTo(lens, M, k, a);
  }
}
