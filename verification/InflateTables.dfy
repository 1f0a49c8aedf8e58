// huft_build (inflate.c): from code lengths to linked lookup tables.
module InflateTables {
  import opened Powers
  import opened Canonical
  import opened HuftTables
  import opened HuftProof
  import opened HuftSort

  const N_MAX: nat := 288

  // ---- How many dummy codes complete the set ---------------------------------

  lemma DummyStep(b: seq<nat>, M: nat, j: nat, y: nat)
    requires LengthsFit(b, M) && 0 < j <= M
    requires y * Pow2(M - j) == Pow2(M) - Start(b, M, j, 0)
    ensures (y - Count(b, j)) * Pow2(M - j) == Pow2(M) - Start(b, M, j + 1, 0)
    ensures j < M && y >= Count(b, j) ==>
              (2 * (y - Count(b, j))) * Pow2(M - (j + 1)) == Pow2(M) - Start(b, M, j + 1, 0)
  {
    var d := y - Count(b, j);
    if j < M { assert Pow2(M - j) == 2 * Pow2(M - (j + 1)); }
    hide Pow2, StartTo, CountTo;
    StartNextLength(b, M, j);
    Distribute(d, Count(b, j), Pow2(M - j));
    if j < M { MulAssoc(d, 2, Pow2(M - (j + 1))); }
  }

  lemma NegativeProduct(d: int, p: nat)
    requires p > 0
    ensures d < 0 <==> d * p < 0
  {
    if d < 0 { MulMono(d, -1, p); } else { MulMono(0, d, p); }
  }

  // y > 0 codes are missing, y < 0 means more codes than bits.
  method DummyCodes(b: seq<nat>, c: array<nat>, j0: nat, g: nat, M: nat) returns (y: int)
    requires 0 < j0 <= g <= M && c.Length == M + 1 && LengthsFit(b, g)
    requires forall L :: 0 < L <= M ==> c[L] == Count(b, L)
    requires forall i :: 0 <= i < |b| ==> b[i] == 0 || b[i] >= j0
    ensures LengthsFit(b, M)
    ensures y < 0 <==> Kraft(b, M) > Pow2(M)
    ensures y >= 0 ==> Kraft(b, M) + y * Pow2(M - g) == Pow2(M)
  {
    hide Pow2, StartTo, CountTo;
    var j := j0;
    y := Pow2(j);
    FirstStart(b, M, j0);
    Pow2Add(j, M - j);
    MaxStart(b, M, g);
    while j < g
      invariant j0 <= j <= g && y >= 0
      invariant y * Pow2(M - j) == Pow2(M) - Start(b, M, j, 0)
    {
      DummyStep(b, M, j, y);
      y := y - c[j];
      if y < 0 {
        NegativeProduct(y, Pow2(M - j));
        StartMono(b, M, j + 1, 0, M + 1, 0);
        return;
      }
      j, y := j + 1, y * 2;
    }
    DummyStep(b, M, g, y);
    y := y - c[g];
    NegativeProduct(y, Pow2(M - g));
  }

  lemma {:induction false} FirstStartTo(b: seq<nat>, M: nat, j: nat, n: nat)
    requires LengthsFit(b, M) && n <= |b|
    requires forall i :: 0 <= i < |b| ==> b[i] == 0 || b[i] >= j
    ensures StartTo(b, M, j, 0, n) == 0
  {
    if n > 0 { FirstStartTo(b, M, j, n - 1); }
  }

  lemma FirstStart(b: seq<nat>, M: nat, j: nat)
    requires LengthsFit(b, M)
    requires forall i :: 0 <= i < |b| ==> b[i] == 0 || b[i] >= j
    ensures Start(b, M, j, 0) == 0
  {
    FirstStartTo(b, M, j, |b|);
  }

  lemma {:induction false} MaxStartTo(b: seq<nat>, M: nat, g: nat, n: nat)
    requires LengthsFit(b, g) && g <= M && n <= |b|
    ensures LengthsFit(b, M)
    ensures StartTo(b, M, g + 1, 0, n) == StartTo(b, M, M + 1, 0, n)
  {
    if n > 0 { MaxStartTo(b, M, g, n - 1); }
  }

  lemma MaxStart(b: seq<nat>, M: nat, g: nat)
    requires LengthsFit(b, g) && g <= M
    ensures LengthsFit(b, M) && Start(b, M, g + 1, 0) == Kraft(b, M)
  {
    MaxStartTo(b, M, g, |b|);
  }

  // ---- The bits of a new table ---------------------------------------------------

  // f patterns are left of the region once all codes of up to w + j bits are
  // placed; one more bit doubles them, and the codes of that length are placed.
  lemma PatternStep(lens: seq<nat>, M: nat, E: nat, w: nat, j: nat, f: nat)
    requires LengthsFit(lens, M) && w + j + 1 <= M
    requires f * Pow2(M - (w + j)) == E - Start(lens, M, w + j + 1, 0)
    ensures 2 * f <= Count(lens, w + j + 1) ==> E <= Start(lens, M, w + (j + 1) + 1, 0)
    ensures (2 * f - Count(lens, w + j + 1)) * Pow2(M - (w + (j + 1))) == E - Start(lens, M, w + (j + 1) + 1, 0)
  {
    var L := w + j + 1;
    assert Pow2(M - (w + j)) == 2 * Pow2(M - L);
    hide Pow2, StartTo, CountTo;
    StartNextLength(lens, M, L);
    MulAssoc(f, 2, Pow2(M - L));
    Distribute(2 * f - Count(lens, L), Count(lens, L), Pow2(M - L));
    if 2 * f <= Count(lens, L) { MulMono(2 * f - Count(lens, L), 0, Pow2(M - L)); }
  }

  // The first pattern count, from the r codes of length k that are left.
  lemma PatternStart(lens: seq<nat>, M: nat, P: nat, w: nat, k: nat, t: nat, r: nat)
    requires LengthsFit(lens, M) && w < k <= M && P == Pos(M, lens, k, t) && Count(lens, k) == t + r
    ensures (Pow2(k - w) - r) * Pow2(M - k) == P + Pow2(M - w) - Start(lens, M, k + 1, 0)
    ensures Pow2(k - w) <= r ==> P + Pow2(M - w) <= Start(lens, M, k + 1, 0)
  {
    hide Pow2, StartTo, CountTo;
    StartNextLength(lens, M, k);
    Pow2Add(k - w, M - k);
    Distribute(t, r, Pow2(M - k));
    Distribute(Pow2(k - w) - r, r, Pow2(M - k));
    if Pow2(k - w) <= r { MulMono(Pow2(k - w) - r, 0, Pow2(M - k)); }
  }

  // The region is inside the space, so all codes together reach its end.
  lemma RegionInside(lens: seq<nat>, M: nat, P: nat, w: nat, g: nat)
    requires LengthsFit(lens, M) && Kraft(lens, M) == Pow2(M) && IsMax(lens, g)
    requires w <= M && Low(P, M - w) == 0 && P < Pow2(M)
    ensures P + Pow2(M - w) <= Start(lens, M, g + 1, 0)
  {
    hide Low, Pow2, StartTo;
    AlignedPow2(M - w, M);
    AlignedGap(P, Pow2(M), M - w);
    AfterMax(M, lens, g, g + 1);
  }

  method TableBits(c: array<nat>, k: nat, a: nat, w: nat, l: nat, g: nat,
                   ghost lens: seq<nat>, ghost M: nat, ghost P: nat, ghost t: nat) returns (j: nat)
    requires LengthsFit(lens, M) && Kraft(lens, M) == Pow2(M) && IsMax(lens, g)
    requires c.Length == M + 1 && forall L :: 0 < L <= M ==> c[L] == Count(lens, L)
    requires w < k <= g <= M && 0 < l <= g && k - w <= l
    requires P == Pos(M, lens, k, t) < Pow2(M) && Low(P, M - w) == 0 && Count(lens, k) == t + a + 1
    ensures k - w <= j
    ensures j <= l || (k - w == l && k < g && j == l + 1)
    ensures j < l ==> P + Pow2(M - w) <= Start(lens, M, w + j + 1, 0)
  {
    hide Low, Pow2, StartTo, CountTo;
    var z := if g - w > l then l else g - w;
    j := k - w;
    var f: nat := Pow2(j);
    PatternStart(lens, M, P, w, k, t, a + 1);
    RegionInside(lens, M, P, w, g);
    if k == g { LastRegion(lens, M, g, P, w, t, a + 1); }
    if f > a + 1 {
      f := f - (a + 1);
      var xp := k;
      ghost var E := P + Pow2(M - w);
      j := j + 1;
      while j < z
        invariant k - w < j && f > 0 && (j <= z || (j == l + 1 && k - w == l && k < g)) && xp == w + j - 1
        invariant f * Pow2(M - (w + (j - 1))) == E - Start(lens, M, w + (j - 1) + 1, 0)
      {
        PatternStep(lens, M, E, w, j - 1, f);
        f, xp := 2 * f, xp + 1;
        if f <= c[xp] { break; }
        f := f - c[xp];
        j := j + 1;
      }
    }
  }

  // ---- Opening tables --------------------------------------------------------------

  method Malloc(z: nat) returns (mem: seq<Huft>)
    ensures |mem| == z
  {
    mem := seq(z, i => Huft(0, 0, 0));
  }

  // The root table has at least l bits when l is between the least and the
  // greatest code length.
  lemma RootBits(lens: seq<nat>, M: nat, g: nat, l: nat, j: nat)
    requires LengthsFit(lens, M) && Kraft(lens, M) == Pow2(M) && IsMax(lens, g) && l <= g <= M
    requires j < l ==> Pow2(M) <= Start(lens, M, j + 1, 0)
    ensures j >= l
  {
    if j < l { BeforeMax(M, lens, g, j + 1); }
  }

  // The sizes for which the first table of a region never has more than l bits.
  ghost predicate SizesFit(lens: seq<nat>, g: nat, l: nat)
  {
    g <= 2 * l || |lens| < Pow2(l)
  }

  // The state before a table is opened: nothing yet, or the state between codes.
  ghost predicate Opening(F: Forest, cd: Coding, l: nat, P: nat, i: nat, u: seq<nat>, x: seq<nat>, w: int, k: nat)
  {
    if |u| == 0 then F.tables == [] && w + l == 0 && P == 0 && k <= l && |x| == 0
    else 0 <= w < k && Inv(F, cd, l, P, i, u, x, w)
  }

  // q and z describe the last open table whenever the next code goes there.
  ghost predicate Current(F: Forest, u: seq<nat>, w: int, l: nat, k: nat, q: nat, z: nat)
  {
    |u| > 0 && k <= w + l ==> q == u[|u| - 1] && q < |F.tables| && z == |F.tables[q]|
  }

  // The next code is number t of length k: symbol a0, with a more after it.
  ghost predicate NextIs(cd: Coding, g: nat, P: nat, i: nat, k: nat, t: nat, a: nat, a0: nat)
  {
    CodingOK(cd) && IsMax(cd.lens, g) && 0 < k <= g <= cd.M
    && P == Pos(cd.M, cd.lens, k, t) < Pow2(cd.M) && Count(cd.lens, k) == t + a + 1 && i == Rev(P, cd.M)
    && a0 < |cd.lens| && cd.lens[a0] == k && P == BlockStart(cd.lens, cd.M, a0)
  }

  method OpenRoot(c: array<nat>, k: nat, a: nat, l: nat, g: nat,
                  ghost cd: Coding, ghost P: nat, ghost t: nat, ghost a0: nat)
    returns (tables: seq<seq<Huft>>, z: nat, ghost F: Forest)
    requires NextIs(cd, g, P, 0, k, t, a, a0) && 0 < l <= g && P == 0 && k <= l
    requires c.Length == cd.M + 1 && forall L :: 0 < L <= cd.M ==> c[L] == Count(cd.lens, L)
    ensures F.tables == tables && Inv(F, cd, l, 0, 0, [0], [0], 0)
    ensures |tables| == 1 && z == |tables[0]|
  {
    hide Low, Shr, Rev, Pow2, StartTo, CountTo, Inv;
    LowZero(cd.M);
    var j := TableBits(c, k, a, 0, l, g, cd.lens, cd.M, P, t);
    RootBits(cd.lens, cd.M, g, l, j);
    Pow2Mono(l, j);
    z := Pow2(j);
    var mem := Malloc(z);
    RootInv(cd, l, mem);
    tables := [mem];
    F := Forest(tables, [0], [0], [l]);
  }

  lemma InvTop(F: Forest, cd: Coding, l: nat, P: nat, i: nat, u: seq<nat>, x: seq<nat>, w: nat)
    requires Inv(F, cd, l, P, i, u, x, w)
    ensures Shape(F) && |u| == |x| > 0 && u[|u| - 1] < |F.tables| && F.adW[u[|u| - 1]] == w
  {
  }

  method OpenChild(tables0: seq<seq<Huft>>, c: array<nat>, k: nat, a: nat, l: nat, g: nat, i: nat,
                   u: seq<nat>, w: nat, ghost x: seq<nat>,
                   ghost F0: Forest, ghost cd: Coding, ghost P: nat, ghost t: nat, ghost a0: nat)
    returns (tables: seq<seq<Huft>>, q: nat, z: nat, ghost F: Forest)
    requires NextIs(cd, g, P, i, k, t, a, a0) && SizesFit(cd.lens, g, l) && 0 < l <= g
    requires c.Length == cd.M + 1 && forall L :: 0 < L <= cd.M ==> c[L] == Count(cd.lens, L)
    requires F0.tables == tables0 && Inv(F0, cd, l, P, i, u, x, w) && w + l < k
    ensures F.tables == tables && Inv(F, cd, l, P, i, u + [q], x + [i], w + l)
    ensures q < |tables| && z == |tables[q]|
  {
    hide Low, Shr, Rev, Pow2, StartTo, CountTo, Inv;
    InvTop(F0, cd, l, P, i, u, x, w);
    ReadyToOpen(F0, cd, l, g, P, i, u, x, w + l, k, t);
    var j := TableBits(c, k, a, w + l, l, g, cd.lens, cd.M, P, t);
    z := Pow2(j);
    var mem := Malloc(z);
    LinkKeeps(F0, cd, l, P, i, u, x, w, a0, j, mem);
    var up := u[|u| - 1];
    F := Linking(F0, up, i, l, j, mem);
    q := |tables0|;
    tables := tables0[up := tables0[up][Shr(i, w) := Huft(16 + j, l, q)]] + [mem];
  }

  method OpenTables(tables0: seq<seq<Huft>>, c: array<nat>, k: nat, a: nat, l: nat, g: nat, i: nat,
                    u0: seq<nat>, x0: seq<nat>, w0: int, q0: nat, z0: nat,
                    ghost F0: Forest, ghost cd: Coding, ghost P: nat, ghost t: nat, ghost a0: nat)
    returns (tables: seq<seq<Huft>>, u: seq<nat>, x: seq<nat>, w: nat, q: nat, z: nat, ghost F: Forest)
    requires NextIs(cd, g, P, i, k, t, a, a0) && SizesFit(cd.lens, g, l) && 0 < l <= g
    requires c.Length == cd.M + 1 && forall L :: 0 < L <= cd.M ==> c[L] == Count(cd.lens, L)
    requires F0.tables == tables0 && Opening(F0, cd, l, P, i, u0, x0, w0, k) && Current(F0, u0, w0, l, k, q0, z0)
    ensures F.tables == tables && w < k <= w + l && Inv(F, cd, l, P, i, u, x, w)
    ensures |u| > 0 && Current(F, u, w, l, k, q, z)
    ensures k <= l && |tables0| <= 1 ==> |tables| <= 1
  {
    hide Low, Shr, Rev, Pow2, StartTo, CountTo, Inv;
    tables, u, x, q, z := tables0, u0, x0, q0, z0;
    F := F0;
    var wi := w0;
    RevZero(cd.M);
    while k > wi + l
      invariant F.tables == tables && Opening(F, cd, l, P, i, u, x, wi, k) && Current(F, u, wi, l, k, q, z)
      invariant k <= l && |tables0| <= 1 ==> |tables| <= 1
      decreases k - wi
    {
      if |u| == 0 {
        tables, z, F := OpenRoot(c, k, a, l, g, cd, P, t, a0);
        u, x, q := [0], [0], 0;
      } else {
        ghost var xs := x;
        tables, q, z, F := OpenChild(tables, c, k, a, l, g, i, u, wi, x, F, cd, P, t, a0);
        u, x := u + [q], x + [i];
      }
      wi := wi + l;
    }
    w := wi;
  }

  // What is known when a table is opened at wi bits.
  lemma ReadyToOpen(F: Forest, cd: Coding, l: nat, g: nat, P: nat, i: nat, u: seq<nat>, x: seq<nat>, wi: nat, k: nat,
      t: nat)
    requires CodingOK(cd) && IsMax(cd.lens, g) && SizesFit(cd.lens, g, l) && 0 < l <= g <= cd.M
    requires 0 < k <= g && P == Pos(cd.M, cd.lens, k, t) < Pow2(cd.M) && i == Rev(P, cd.M)
    requires if |u| == 0 then wi == 0 && P == 0 && k <= l
             else wi >= l && Inv(F, cd, l, P, i, u, x, wi - l) && wi < k
    ensures wi <= cd.M && Low(P, cd.M - wi) == 0 && k - wi <= l
    ensures |u| > 0 ==> F.nb[u[|u| - 1]] == l && (k - wi == l ==> k == g)
  {
    hide Low, Shr, Rev, Pow2, StartTo, CountTo, Decoded;
    if |u| == 0 {
      LowZero(cd.M);
    } else {
      var top := u[|u| - 1];
      assert TableAdequate(F, cd, top, x[|u| - 1], l);
      MulMono(0, t, Pow2(cd.M - k));
      TopWide(F, cd, l, P, top, wi - l, k);
      if |cd.lens| < Pow2(l) { ShortRegion(cd.lens, cd.M, l, P, wi, k, t); }
    }
  }

  // ---- Placing one code -------------------------------------------------------------

  // Write r to every entry whose index continues the code i.
  method FillEntries(table0: seq<Huft>, i: nat, w: nat, k: nat, z: nat, r: Huft) returns (table: seq<Huft>)
    requires w <= k && i < Pow2(k) && z == |table0|
    ensures |table| == |table0|
    ensures forall idx :: 0 <= idx < |table| ==> table[idx] == if IsFilled(idx, i, w, k) then r else table0[idx]
  {
    hide Low, Shr, Pow2;
    table := table0;
    var f := Pow2(k - w);
    var j := Shr(i, w);
    ShrBound(i, w, k - w);
    LowSmall(j, k - w);
    assert forall idx :: 0 <= idx < j && IsFilled(idx, i, w, k) ==> false by {
      forall idx | 0 <= idx < j && IsFilled(idx, i, w, k) ensures false { LowGap(idx, j, k - w); }
    }
    while j < z
      invariant |table| == |table0| && Low(j, k - w) == Shr(i, w)
      invariant forall idx :: 0 <= idx < |table| ==>
                  table[idx] == if idx < j && IsFilled(idx, i, w, k) then r else table0[idx]
      decreases z - j
    {
      forall idx | j < idx < j + f ensures !IsFilled(idx, i, w, k) {
        if IsFilled(idx, i, w, k) { LowGap(j, idx, k - w); }
      }
      LowAddPow2(j, k - w);
      table := table[j := r];
      j := j + f;
    }
  }

  // i & (1 << m)
  predicate BitSet(i: nat, m: nat)
  {
    Shr(i, m) % 2 == 1
  }

  // i ^ (1 << m)
  function FlipBit(i: nat, m: nat): nat
  {
    if BitSet(i, m) && i >= Pow2(m) then i - Pow2(m) else i + Pow2(m)
  }

  lemma TopBit(cc: nat, m: nat)
    ensures BitSet(Rev(cc, m + 1), m) <==> cc % 2 == 1
  {
    var i, low := Rev(cc, m + 1), Rev(cc / 2, m);
    assert i == (if cc % 2 == 1 then Pow2(m) else 0) + low;
    hide Low, Shr, Rev, Pow2;
    if cc % 2 == 1 { SplitUnique(i, m, 1, low); } else { SplitUnique(i, m, 0, low); }
  }

  // A set top bit is cleared and the carry goes on; a clear one takes the carry.
  lemma CarryStep(cc: nat, m: nat)
    ensures BitSet(Rev(cc, m + 1), m) ==>
              FlipBit(Rev(cc, m + 1), m) == Rev(cc / 2, m) && Rev(cc + 1, m + 1) == Rev(cc / 2 + 1, m)
    ensures !BitSet(Rev(cc, m + 1), m) ==> FlipBit(Rev(cc, m + 1), m) == Rev(cc + 1, m + 1)
  {
    hide BitSet, Shr;
    TopBit(cc, m);
    if cc % 2 == 1 {
      assert (cc + 1) / 2 == cc / 2 + 1 && (cc + 1) % 2 == 0;
    } else {
      assert (cc + 1) / 2 == cc / 2 && (cc + 1) % 2 == 1;
    }
  }

  // Increment the k-bit code i from its reversed end.
  method NextCode(i0: nat, k: nat, ghost M: nat, ghost P: nat) returns (i: nat)
    requires 0 < k <= M && Low(P, M - k) == 0 && i0 == Rev(P, M)
    ensures i == Rev(P + Pow2(M - k), M)
  {
    hide Low, Shr, Rev, Pow2, FlipBit, BitSet;
    RevAligned(P, M - k, k);
    NextAligned(P, M - k);
    RevAligned(P + Pow2(M - k), M - k, k);
    i := AddOneReversed(i0, k, Shr(P, M - k));
  }

  // for (j = 1 << (k - 1); i & j; j >>= 1) i ^= j; i ^= j;
  method AddOneReversed(i0: nat, k: nat, ghost c: nat) returns (i: nat)
    requires i0 == Rev(c, k)
    ensures i == Rev(c + 1, k)
  {
    hide Low, Shr, Rev, Pow2, FlipBit, BitSet;
    i := i0;
    var m: nat := k;
    ghost var cc := c;
    while m > 0 && BitSet(i, m - 1)
      invariant m <= k && i == Rev(cc, m) && Rev(c + 1, k) == Rev(cc + 1, m)
    {
      CarryStep(cc, m - 1);
      i := FlipBit(i, m - 1);
      m, cc := m - 1, cc / 2;
    }
    if m > 0 {
      CarryStep(cc, m - 1);
      i := FlipBit(i, m - 1);
    } else {
      NoBits(cc);
    }
  }

  lemma NoBits(cc: nat)
    ensures Rev(cc, 0) == Rev(cc + 1, 0)
  {
  }

  lemma NextAligned(P: nat, m: nat)
    requires Low(P, m) == 0
    ensures Low(P + Pow2(m), m) == 0 && Shr(P + Pow2(m), m) == Shr(P, m) + 1
  {
    LowAddPow2(P, m);
  }

  // The state after a code has been placed and i advanced past it; the open
  // tables still lead to the old position P.
  ghost predicate Placed(F: Forest, cd: Coding, l: nat, P: nat, i: nat, u: seq<nat>, x: seq<nat>, w: nat, k: nat)
  {
    CodingOK(cd) && Shape(F) && StackOK(F, u, x, l) && Adequate(F, cd, u, x, l)
    && w == F.adW[u[|u| - 1]] && x[|u| - 1] == Low(Rev(P, cd.M), w)
    && w < k <= w + l && k <= cd.M && Low(P, cd.M - k) == 0
    && F.nb[0] == l > 0
    && i == Rev(P + Pow2(cd.M - k), cd.M) && Decoded(F, cd, P + Pow2(cd.M - k))
  }

  lemma CloseKeeps(F: Forest, cd: Coding, l: nat, P: nat, i: nat, u: seq<nat>, x: seq<nat>, w: nat, k: nat, m: nat)
    requires Placed(F, cd, l, P, i, u, x, w, k) && 0 < m <= |u|
    requires x[m - 1] == Low(i, F.adW[u[m - 1]])
    requires m < |u| ==> x[m] != Low(i, F.adW[u[m]])
    ensures Inv(F, cd, l, P + Pow2(cd.M - k), i, u[..m], x[..m], F.adW[u[m - 1]])
  {
    hide Low, Shr, Rev, Pow2, StartTo, CountTo, Decoded, Linked, Adequate;
    StackPop(F, cd, u, x, l, m);
    PopAligned(cd.M, F, u, x, l, P, k, m);
  }

  // Close the tables whose region does not contain the next code.
  method CloseTables(u0: seq<nat>, x0: seq<nat>, w0: nat, l: nat, i: nat, ghost k: nat,
                     ghost F: Forest, ghost cd: Coding, ghost P: nat)
    returns (u: seq<nat>, x: seq<nat>, w: nat)
    requires Placed(F, cd, l, P, i, u0, x0, w0, k)
    ensures Inv(F, cd, l, P + Pow2(cd.M - k), i, u, x, w)
    ensures |u| > 0 && w <= w0 && (k <= w + l ==> u == u0 && w == w0)
  {
    hide Low, Shr, Rev, Pow2, StartTo, Placed, Inv;
    LowNone(i);
    PlacedFacts(F, cd, l, P, i, u0, x0, w0, k);
    u, x, w := u0, x0, w0;
    while Low(i, w) != x[|u| - 1]
      invariant 0 < |u| <= |u0| && u == u0[..|u|] && x == x0[..|u|] && |x| == |u|
      invariant w == F.adW[u[|u| - 1]]
      invariant |u| < |u0| ==> x0[|u|] != Low(i, F.adW[u0[|u|]]) && w + l <= w0
      decreases |u|
    {
      PlacedStep(F, cd, l, P, i, u0, x0, w0, k, |u| - 1);
      u, x, w := u[..|u| - 1], x[..|u| - 1], w - l;
    }
    CloseKeeps(F, cd, l, P, i, u0, x0, w0, k, |u|);
  }

  lemma LowNone(i: nat)
    ensures Low(i, 0) == 0 && Shr(i, 0) == i
  {
  }

  lemma PlacedFacts(F: Forest, cd: Coding, l: nat, P: nat, i: nat, u: seq<nat>, x: seq<nat>, w: nat, k: nat)
    requires Placed(F, cd, l, P, i, u, x, w, k)
    ensures Shape(F) && |u| == |x| > 0 && x[0] == 0 && 0 < l && w < k
    ensures forall q :: 0 <= q < |u| ==> u[q] < |F.tables|
    ensures w == F.adW[u[|u| - 1]] && F.adW[u[0]] == 0
  {
  }

  lemma PlacedStep(F: Forest, cd: Coding, l: nat, P: nat, i: nat, u: seq<nat>, x: seq<nat>, w: nat, k: nat, q: nat)
    requires Placed(F, cd, l, P, i, u, x, w, k) && 0 < q < |u|
    ensures |u| == |x| && F.adW[u[q]] == F.adW[u[q - 1]] + l && F.adW[u[q]] <= w
  {
    StackStep(F, u, x, l, q);
  }

  lemma StackStep(F: Forest, u: seq<nat>, x: seq<nat>, l: nat, q: nat)
    requires Shape(F) && StackOK(F, u, x, l) && 0 < q < |u|
    ensures F.adW[u[q]] == F.adW[u[q - 1]] + l
    ensures F.adW[u[q]] <= F.adW[u[|u| - 1]]
  {
    assert Linked(F, u[q - 1], u[q - 1 + 1], x[q - 1], x[q - 1 + 1], l);
    if q < |u| - 1 { StackIncreasing(F, u, x, l, q, |u| - 1); }
  }

  // The entry for the next value, or for a dummy code once the values are used up.
  method MakeEntry(p: nat, v: array<nat>, n: nat, s: nat, d: seq<nat>, e: seq<nat>, b: nat, old_v: nat,
                   ghost cd: Coding, ghost a0: nat) returns (r: Huft)
    requires ValuesOK(cd) && cd.n == n && cd.s == s && cd.d == d && cd.e == e
    requires if p >= n then a0 >= n else p < v.Length && a0 < n && v[p] == a0
    ensures !IsLink(r) && r.b == b
    ensures forall w :: Leaf(r, w) == Leaf(SymbolEntry(cd, a0, b), w)
  {
    if p >= n {
      r := Huft(99, b, old_v);
    } else if v[p] < s {
      r := Huft(if v[p] < 256 then 16 else 15, b, v[p]);
    } else {
      r := Huft(e[v[p] - s], b, d[v[p] - s]);
    }
  }

  lemma FillPlaced(F: Forest, F': Forest, cd: Coding, g: nat, l: nat, P: nat, i: nat, i': nat, u: seq<nat>, x: seq<nat>,
                   w: nat, k: nat, t: nat, a: nat, a0: nat, r: Huft)
    requires NextIs(cd, g, P, i, k, t, a, a0) && Inv(F, cd, l, P, i, u, x, w) && w < k <= w + l
    requires !IsLink(r) && Leaf(r, w) == Expect(cd, a0)
    requires Filled(F, F', u[|u| - 1], r, i, w, k) && i' == Rev(P + Pow2(cd.M - k), cd.M)
    ensures Placed(F', cd, l, P, i', u, x, w, k)
  {
    hide Low, Shr, Rev, Pow2, StartTo, CountTo, Decoded, Linked;
    var top := u[|u| - 1];
    assert TableAdequate(F, cd, top, x[|u| - 1], l);
    MulMono(0, t, Pow2(cd.M - k));
    TopWide(F, cd, l, P, top, w, k);
    StartAligned(cd.lens, cd.M, k, a0);
    FillKeeps(F, F', cd, P, a0, i, u, x, l, w, k, r);
    FillAdequate(F, F', cd, u, x, l);
  }

  // Place one code: open its table, write its entries, step to the next code.
  method PlaceCode(tables0: seq<seq<Huft>>, c: array<nat>, v: array<nat>, p: nat, k: nat, a: nat, l: nat, g: nat,
                   n: nat, s: nat, d: seq<nat>, e: seq<nat>,
                   i0: nat, u0: seq<nat>, x0: seq<nat>, w0: int, q0: nat, z0: nat,
                   ghost F0: Forest, ghost cd: Coding, ghost P: nat, ghost t: nat, ghost a0: nat)
    returns (tables: seq<seq<Huft>>, i: nat, u: seq<nat>, x: seq<nat>, w: int, q: nat, z: nat, ghost F: Forest)
    requires NextIs(cd, g, P, i0, k, t, a, a0) && SizesFit(cd.lens, g, l) && 0 < l <= g
    requires c.Length == cd.M + 1 && forall L :: 0 < L <= cd.M ==> c[L] == Count(cd.lens, L)
    requires cd.n == n && cd.s == s && cd.d == d && cd.e == e
    requires if p >= n then a0 >= n else p < v.Length && a0 < n && v[p] == a0
    requires F0.tables == tables0 && Opening(F0, cd, l, P, i0, u0, x0, w0, k) && Current(F0, u0, w0, l, k, q0, z0)
    ensures F.tables == tables && |u| > 0 && 0 <= w < k
    ensures Inv(F, cd, l, P + Pow2(cd.M - k), i, u, x, w) && Current(F, u, w, l, k, q, z)
    ensures k <= l && |tables0| <= 1 ==> |tables| <= 1
  {
    hide Low, Shr, Rev, Pow2, StartTo, CountTo, Inv, Placed, NextIs;
    var w1;
    tables, u, x, w1, q, z, F := OpenTables(tables0, c, k, a, l, g, i0, u0, x0, w0, q0, z0, F0, cd, P, t, a0);
    PlaceFacts(cd, g, P, i0, k, t, a, a0);
    InvTop(F, cd, l, P, i0, u, x, w1);
    var r := MakeEntry(p, v, n, s, d, e, k - w1, 0, cd, a0);
    var table := FillEntries(tables[q], i0, w1, k, z, r);
    ghost var F1 := F.(tables := F.tables[q := table]);
    tables := tables[q := table];
    i := NextCode(i0, k, cd.M, P);
    FillPlaced(F, F1, cd, g, l, P, i0, i, u, x, w1, k, t, a, a0, r);
    F := F1;
    u, x, w := CloseTables(u, x, w1, l, i, k, F, cd, P);
  }

  lemma PlaceFacts(cd: Coding, g: nat, P: nat, i: nat, k: nat, t: nat, a: nat, a0: nat)
    requires NextIs(cd, g, P, i, k, t, a, a0)
    ensures CodingOK(cd) && 0 < k <= cd.M && i == Rev(P, cd.M) && i < Pow2(k) && Low(P, cd.M - k) == 0
    ensures a0 < |cd.lens| && cd.lens[a0] == k
  {
    hide Low, Shr, Rev, Pow2, StartTo, CountTo;
    StartAligned(cd.lens, cd.M, k, a0);
    CodeIsI(cd, a0, P, i, k);
  }

  // What the stages before give to the main loop.
  ghost predicate Prepared(cd: Coding, b: seq<nat>, y: nat, g: nat, l: nat, k0: nat, v: seq<nat>)
  {
    CodingOK(cd) && LengthsFit(b, g) && 0 < k0 <= l <= g <= cd.M
    && cd.lens == Padded(b, y, g) && cd.n == |b| && IsMax(cd.lens, g) && SizesFit(cd.lens, g, l)
    && Start(cd.lens, cd.M, k0, 0) == 0 && Count(cd.lens, k0) > 0 && Off(b, k0) == 0
    && (y > 0 ==> forall i :: 0 <= i < |b| ==> b[i] > 0)
    && Listed(v, b, |b|)
  }

  function Min(x: nat, y: nat): nat
  {
    if x < y then x else y
  }

  // Code number t of length k, and where its value stands in the list.
  lemma NextFacts(cd: Coding, b: seq<nat>, y: nat, g: nat, l: nat, k0: nat, v: seq<nat>, P: nat, i: nat, k: nat,
      t: nat, a: nat, p: nat)
    requires Prepared(cd, b, y, g, l, k0, v) && 0 < k <= g && Count(cd.lens, k) == t + a + 1
    requires P == Pos(cd.M, cd.lens, k, t) && i == Rev(P, cd.M)
    requires p == Off(b, k) + Min(t, Count(b, k))
    ensures NextIs(cd, g, P, i, k, t, a, SymbolAt(b, g, k, t))
    ensures var a0 := SymbolAt(b, g, k, t);
            if p >= |b| then a0 >= |b| else p < |v| && a0 < |b| && v[p] == a0
    ensures p >= |b| <==> t >= Count(b, k)
  {
    hide Low, Shr, Rev, Pow2, StartTo, CountTo, OffTo, SymsTo, SizesFit;
    PaddedTailTo(b, y, g, cd.M, k, 0, y);
    SymbolPlace(b, y, g, cd.M, k, t);
    BlockInside(cd.lens, cd.M, SymbolAt(b, g, k, t));
    OffNextTo(b, k, |b|);
    if t < Count(b, k) {
      assert ListedOne(v, b, |b|, k, t);
    } else {
      OffAllTo(b, g + 1, |b|);
    }
  }

  lemma LengthDone(cd: Coding, b: seq<nat>, y: nat, g: nat, l: nat, k0: nat, v: seq<nat>, k: nat)
    requires Prepared(cd, b, y, g, l, k0, v) && 0 < k <= g
    ensures Start(cd.lens, cd.M, k + 1, 0) == Pos(cd.M, cd.lens, k, Count(cd.lens, k))
    ensures Start(cd.lens, cd.M, g + 1, 0) == Pow2(cd.M)
  {
    hide Pow2, StartTo, CountTo, OffTo, Listed, SizesFit, Count, Padded;
    StartNextLength(cd.lens, cd.M, k);
    AfterMax(cd.M, cd.lens, g, g + 1);
  }

  lemma ValuesDone(cd: Coding, b: seq<nat>, y: nat, g: nat, l: nat, k0: nat, v: seq<nat>, k: nat)
    requires Prepared(cd, b, y, g, l, k0, v) && 0 < k <= g
    ensures Count(cd.lens, k) >= Count(b, k)
    ensures Off(b, k + 1) == Off(b, k) + Count(b, k)
  {
    hide Pow2, StartTo, CountTo, OffTo, Listed, SizesFit;
    PaddedTailTo(b, y, g, cd.M, k, 0, y);
    OffNextTo(b, k, |b|);
  }

  lemma PosNext(M: nat, lens: seq<nat>, k: nat, t: nat)
    requires LengthsFit(lens, M) && 0 < k <= M
    ensures Pos(M, lens, k, t + 1) == Pos(M, lens, k, t) + Pow2(M - k)
    ensures Pos(M, lens, k, 0) == Start(lens, M, k, 0)
  {
    Distribute(t, 1, Pow2(M - k));
  }

  lemma StillOpening(F: Forest, cd: Coding, l: nat, P: nat, i: nat, u: seq<nat>, x: seq<nat>, w: int, k: nat)
    requires |u| > 0 && 0 <= w && Inv(F, cd, l, P, i, u, x, w)
    ensures i == Rev(P, cd.M) && (0 <= w < k ==> Opening(F, cd, l, P, i, u, x, w, k))
    ensures Shape(F) && CodingOK(cd) && F.nb[0] == l && F.adW[0] == 0 && Decoded(F, cd, P)
    ensures |F.tables| > 0
  {
  }

  // The local variables of the main loop: tables, next code, open tables with
  // their addresses, bits before the last one, current table and its size,
  // index of the next value.
  datatype Work = Work(tables: seq<seq<Huft>>, i: nat, u: seq<nat>, x: seq<nat>, w: int, q: nat, z: nat, p: nat)

  // After t codes of length k.
  ghost predicate Working(st: Work, F: Forest, cd: Coding, b: seq<nat>, l: nat, k0: nat, k: nat, t: nat)
    requires CodingOK(cd) && 0 < k <= cd.M
  {
    var P := Pos(cd.M, cd.lens, k, t);
    F.tables == st.tables && st.i == Rev(P, cd.M) && st.p == Off(b, k) + Min(t, Count(b, k))
    && (|st.u| == 0 ==> k == k0 && t == 0) && (k <= l ==> |st.tables| <= 1)
    && Opening(F, cd, l, P, st.i, st.u, st.x, st.w, k) && Current(F, st.u, st.w, l, k, st.q, st.z)
  }

  method PlaceOne(st0: Work, c: array<nat>, v: array<nat>, k: nat, a: nat, g: nat, l: nat, n: nat, s: nat,
                  d: seq<nat>, e: seq<nat>,
                  ghost F0: Forest, ghost cd: Coding, ghost b: seq<nat>, ghost y: nat, ghost k0: nat, ghost t: nat)
    returns (st: Work, ghost F: Forest)
    requires Prepared(cd, b, y, g, l, k0, v[..]) && n == |b|
    requires c.Length == cd.M + 1 && forall L :: 0 < L <= cd.M ==> c[L] == Count(cd.lens, L)
    requires cd.s == s && cd.d == d && cd.e == e && k0 <= k <= g && Count(cd.lens, k) == t + a + 1
    requires Working(st0, F0, cd, b, l, k0, k, t)
    ensures Working(st, F, cd, b, l, k0, k, t + 1)
  {
    hide Working, Inv, NextIs, Prepared, CodingOK, SizesFit, Opening, Current, Pos, LengthsFit, Pow2, Count, Low, Shr,
      Rev, StartTo, CountTo, OffTo, Off, Min, Shape;
    ghost var P, a0 := BeforeCode(st0, F0, cd, b, y, g, l, k0, v[..], k, t, a);
    var tables, i, u, x, w, q, z;
    tables, i, u, x, w, q, z, F := PlaceCode(st0.tables, c, v, st0.p, k, a, l, g, n, s, d, e,
                                             st0.i, st0.u, st0.x, st0.w, st0.q, st0.z, F0, cd, P, t, a0);
    st := Work(tables, i, u, x, w, q, z, if st0.p < n then st0.p + 1 else st0.p);
    MinNext(st0.p, |b|, Off(b, k), t, Count(b, k));
    AfterCode(st, F, cd, b, l, k0, k, t);
  }

  lemma MinNext(p: nat, n: nat, off: nat, t: nat, count: nat)
    requires p == off + Min(t, count) && (p >= n <==> t >= count)
    ensures (if p < n then p + 1 else p) == off + Min(t + 1, count)
  {
  }

  lemma BeforeCode(st: Work, F: Forest, cd: Coding, b: seq<nat>, y: nat, g: nat, l: nat, k0: nat, v: seq<nat>, k: nat,
      t: nat, a: nat)
    returns (P: nat, a0: nat)
    requires Prepared(cd, b, y, g, l, k0, v) && k0 <= k <= g && Count(cd.lens, k) == t + a + 1
    requires Working(st, F, cd, b, l, k0, k, t)
    ensures CodingOK(cd) && 0 < k <= cd.M && P == Pos(cd.M, cd.lens, k, t) && 0 < l <= g && SizesFit(cd.lens, g, l)
    ensures NextIs(cd, g, P, st.i, k, t, a, a0) && cd.n == |b|
    ensures if st.p >= |b| then a0 >= |b| else st.p < |v| && a0 < |b| && v[st.p] == a0
    ensures F.tables == st.tables && Opening(F, cd, l, P, st.i, st.u, st.x, st.w, k)
    ensures Current(F, st.u, st.w, l, k, st.q, st.z) && (k <= l ==> |st.tables| <= 1)
    ensures st.p == Off(b, k) + Min(t, Count(b, k)) && (st.p >= |b| <==> t >= Count(b, k))
  {
    hide Low, Shr, Rev, Pow2, StartTo, CountTo, OffTo, Inv, NextIs, Prepared, CodingOK, Opening, Current;
    PreparedFacts(cd, b, y, g, l, k0, v);
    P, a0 := Pos(cd.M, cd.lens, k, t), SymbolAt(b, g, k, t);
    NextFacts(cd, b, y, g, l, k0, v, P, st.i, k, t, a, st.p);
  }

  lemma AfterCode(st: Work, F: Forest, cd: Coding, b: seq<nat>, l: nat, k0: nat, k: nat, t: nat)
    requires CodingOK(cd) && 0 < k <= cd.M
    requires F.tables == st.tables && |st.u| > 0 && 0 <= st.w < k && (k <= l ==> |st.tables| <= 1)
    requires Inv(F, cd, l, Pos(cd.M, cd.lens, k, t) + Pow2(cd.M - k), st.i, st.u, st.x, st.w)
    requires Current(F, st.u, st.w, l, k, st.q, st.z)
    requires st.p == Off(b, k) + Min(t + 1, Count(b, k))
    ensures Working(st, F, cd, b, l, k0, k, t + 1)
  {
    hide Low, Shr, Rev, Pow2, StartTo, CountTo, OffTo, Inv, Opening, Current, Off, Count, Pos;
    PosNext(cd.M, cd.lens, k, t);
    StillOpening(F, cd, l, Pos(cd.M, cd.lens, k, t + 1), st.i, st.u, st.x, st.w, k);
  }

  method PlaceLength(st0: Work, c: array<nat>, v: array<nat>, k: nat, g: nat, l: nat, n: nat, s: nat, d: seq<nat>,
      e: seq<nat>,
                     ghost F0: Forest, ghost cd: Coding, ghost b: seq<nat>, ghost y: nat, ghost k0: nat)
    returns (st: Work, ghost F: Forest)
    requires Prepared(cd, b, y, g, l, k0, v[..]) && n == |b|
    requires c.Length == cd.M + 1 && forall L :: 0 < L <= cd.M ==> c[L] == Count(cd.lens, L)
    requires cd.s == s && cd.d == d && cd.e == e && k0 <= k <= g
    requires Working(st0, F0, cd, b, l, k0, k, 0)
    ensures Working(st, F, cd, b, l, k0, k, Count(cd.lens, k))
  {
    hide Working;
    st, F := st0, F0;
    var a := c[k];
    ghost var t: nat := 0;
    while a != 0
      invariant Count(cd.lens, k) == t + a && Working(st, F, cd, b, l, k0, k, t)
      decreases a
    {
      a := a - 1;
      st, F := PlaceOne(st, c, v, k, a, g, l, n, s, d, e, F, cd, b, y, k0, t);
      t := t + 1;
    }
  }

  lemma PreparedFacts(cd: Coding, b: seq<nat>, y: nat, g: nat, l: nat, k0: nat, v: seq<nat>)
    requires Prepared(cd, b, y, g, l, k0, v)
    ensures CodingOK(cd) && LengthsFit(cd.lens, cd.M) && 0 < k0 <= l <= g <= cd.M && cd.n == |b|
    ensures SizesFit(cd.lens, g, l) && Count(cd.lens, k0) > 0 && Off(b, k0) == 0
    ensures Start(cd.lens, cd.M, k0, 0) == 0
  {
  }

  // Once all codes of length k are placed, the work goes on with length k + 1.
  lemma WorkOn(st: Work, F: Forest, cd: Coding, b: seq<nat>, y: nat, g: nat, l: nat, k0: nat, v: seq<nat>, k: nat)
    requires Prepared(cd, b, y, g, l, k0, v) && k0 <= k <= g
    requires Working(st, F, cd, b, l, k0, k, Count(cd.lens, k))
    ensures k < g ==> Working(st, F, cd, b, l, k0, k + 1, 0)
    ensures k == g ==> F.tables == st.tables && Shape(F) && Decoded(F, cd, Pow2(cd.M))
                       && |F.tables| > 0 && F.nb[0] == l && F.adW[0] == 0 && (g <= l ==> |F.tables| == 1)
  {
    hide Low, Shr, Rev, Pow2, StartTo, CountTo, OffTo, Inv, Prepared, CodingOK, LengthsFit, Decoded, Shape, Off, Count,
      Pos, Start;
    PreparedFacts(cd, b, y, g, l, k0, v);
    LengthDone(cd, b, y, g, l, k0, v, k);
    ValuesDone(cd, b, y, g, l, k0, v, k);
    if k < g { PosNext(cd.M, cd.lens, k + 1, 0); }
    StillOpening(F, cd, l, Pos(cd.M, cd.lens, k, Count(cd.lens, k)), st.i, st.u, st.x, st.w, k);
  }

  method BuildTables(c: array<nat>, v: array<nat>, k0: nat, g: nat, l: nat, n: nat, s: nat, d: seq<nat>, e: seq<nat>,
                     ghost cd: Coding, ghost b: seq<nat>, ghost y: nat)
    returns (tables: seq<seq<Huft>>, ghost F: Forest)
    requires Prepared(cd, b, y, g, l, k0, v[..]) && n == |b|
    requires c.Length == cd.M + 1 && forall L :: 0 < L <= cd.M ==> c[L] == Count(cd.lens, L)
    requires cd.s == s && cd.d == d && cd.e == e
    ensures F.tables == tables && Shape(F) && CodingOK(cd) && Decoded(F, cd, Pow2(cd.M))
    ensures |F.tables| > 0 && F.nb[0] == l && F.adW[0] == 0 && (g <= l ==> |tables| == 1)
  {
    hide Low, Shr, Rev, Pow2, StartTo, CountTo, OffTo, Inv, Prepared, CodingOK, LengthsFit, Decoded;
    PreparedFacts(cd, b, y, g, l, k0, v[..]);
    var st := Work([], 0, [], [], 0 - l, 0, 0, 0);
    F := Forest([], [], [], []);
    RevZero(cd.M);
    PosNext(cd.M, cd.lens, k0, 0);
    var k := k0;
    while k <= g
      invariant k0 <= k <= g + 1
      invariant k <= g ==> Working(st, F, cd, b, l, k0, k, 0)
      invariant k == g + 1 ==> F.tables == st.tables && Shape(F) && Decoded(F, cd, Pow2(cd.M))
                               && |F.tables| > 0 && F.nb[0] == l && F.adW[0] == 0 && (g <= l ==> |F.tables| == 1)
    {
      st, F := PlaceLength(st, c, v, k, g, l, n, s, d, e, F, cd, b, y, k0);
      WorkOn(st, F, cd, b, y, g, l, k0, v[..], k);
      k := k + 1;
    }
    tables := st.tables;
  }

  // ---- huft_build -------------------------------------------------------------------

  lemma {:induction false} CountZeroTo(b: seq<nat>, L: nat, n: nat)
    requires n <= |b|
    ensures CountTo(b, L, n) == 0 <==> forall i :: 0 <= i < n ==> b[i] != L
  {
    if n > 0 { CountZeroTo(b, L, n - 1); }
  }

  lemma {:induction false} CountFullTo(b: seq<nat>, L: nat, n: nat)
    requires n <= |b|
    ensures CountTo(b, L, n) == n <==> forall i :: 0 <= i < n ==> b[i] == L
  {
    if n > 0 { CountFullTo(b, L, n - 1); }
  }

  lemma {:induction false} OffNoneTo(b: seq<nat>, L: nat, n: nat)
    requires n <= |b| && forall i :: 0 <= i < |b| ==> b[i] == 0 || b[i] >= L
    ensures OffTo(b, L, n) == 0
  {
    if n > 0 { OffNoneTo(b, L, n - 1); }
  }

  // The least and the greatest length in use.
  method Bounds(c: array<nat>, ghost b: seq<nat>, M: nat) returns (j: nat, g: nat)
    requires c.Length == M + 1 && LengthsFit(b, M)
    requires forall L :: 0 <= L <= M ==> c[L] == Count(b, L)
    requires exists i :: 0 <= i < |b| && b[i] != 0
    ensures 0 < j <= g <= M && IsMax(b, g) && Count(b, j) > 0
    ensures forall i :: 0 <= i < |b| ==> b[i] == 0 || b[i] >= j
  {
    ghost var i0 :| 0 <= i0 < |b| && b[i0] != 0;
    hide CountTo;
    CountZeroTo(b, b[i0], |b|);
    j := 1;
    while j <= M && c[j] == 0
      invariant 1 <= j <= b[i0]
      invariant forall i :: 0 <= i < |b| ==> b[i] == 0 || b[i] >= j
    {
      CountZeroTo(b, j, |b|);
      j := j + 1;
    }
    g := M;
    while g > 0 && c[g] == 0
      invariant b[i0] <= g <= M
      invariant forall i :: 0 <= i < |b| ==> b[i] <= g
    {
      CountZeroTo(b, g, |b|);
      g := g - 1;
    }
    CountZeroTo(b, g, |b|);
    CountZeroTo(b, j, |b|);
  }

  // What the tables must answer on the code of symbol a.
  function Answer(b: seq<nat>, s: nat, d: seq<nat>, e: seq<nat>, a: nat): Lookup
    requires a < |b| && (a >= s ==> a - s < |d| && a - s < |e|)
  {
    if a < s then Found(if a < 256 then 16 else 15, a, b[a])
    else Found(e[a - s], if e[a - s] == 99 then 0 else d[a - s], b[a])
  }

  predicate ListsFit(b: seq<nat>, s: nat, d: seq<nat>, e: seq<nat>)
  {
    (s < |b| ==> |b| - s <= |d| && |b| - s <= |e|)
    && forall i :: 0 <= i < |e| ==> e[i] < 15 || e[i] == 99
  }

  predicate AnswersOn(tables: seq<seq<Huft>>, bits: nat, b: seq<nat>, s: nat, d: seq<nat>, e: seq<nat>, a: nat,
      stream: nat)
    requires LengthsFit(b, BMAX) && ListsFit(b, s, d, e) && a < |b|
  {
    Matches(b, BMAX, a, stream) ==> Walk(tables, 0, bits, stream) == Answer(b, s, d, e, a)
  }

  // Every stream that begins with a code is looked up to that code's symbol.
  ghost predicate DecodesAll(tables: seq<seq<Huft>>, bits: nat, b: seq<nat>, s: nat, d: seq<nat>, e: seq<nat>)
    requires LengthsFit(b, BMAX) && ListsFit(b, s, d, e)
  {
    forall a: nat, stream: nat :: a < |b| ==> AnswersOn(tables, bits, b, s, d, e, a, stream)
  }

  ghost predicate NoCode(b: seq<nat>, stream: nat)
    requires LengthsFit(b, BMAX)
  {
    forall a :: 0 <= a < |b| ==> !Matches(b, BMAX, a, stream)
  }

  // Every stream that begins with no code is looked up to an invalid entry.
  ghost predicate RejectsRest(tables: seq<seq<Huft>>, bits: nat, b: seq<nat>)
    requires LengthsFit(b, BMAX)
  {
    forall stream: nat :: NoCode(b, stream) ==>
      Walk(tables, 0, bits, stream).Found? && Walk(tables, 0, bits, stream).e == 99
  }

  lemma WalkFromRoot(F: Forest, cd: Coding, a: nat, stream: nat, l: nat)
    requires CodingOK(cd) && Shape(F) && Decoded(F, cd, Pow2(cd.M)) && a < |cd.lens|
    requires |F.tables| > 0 && F.nb[0] == l <= BMAX && F.adW[0] == 0
    requires Matches(cd.lens, cd.M, a, stream)
    ensures Walk(F.tables, 0, l, stream) == Expect(cd, a)
  {
    hide Pow2, Shr, Low, StartTo;
    LowNone(stream);
    BlockInside(cd.lens, cd.M, a);
    assert DecodesOne(F, cd, Pow2(cd.M), a, stream);
    GoodWalk(F, 0, stream, Expect(cd, a));
  }

  lemma TablesDecode(F: Forest, cd: Coding, b: seq<nat>, y: nat, g: nat, l: nat, s: nat, d: seq<nat>, e: seq<nat>)
    requires CodingOK(cd) && Shape(F) && Decoded(F, cd, Pow2(cd.M)) && cd.M == BMAX
    requires |F.tables| > 0 && F.nb[0] == l <= BMAX && F.adW[0] == 0
    requires cd == Coding(Padded(b, y, g), BMAX, |b|, s, d, e) && LengthsFit(b, g) && 0 < g <= BMAX
    requires ListsFit(b, s, d, e)
    ensures LengthsFit(b, BMAX) && DecodesAll(F.tables, l, b, s, d, e) && RejectsRest(F.tables, l, b)
  {
    hide Pow2, Shr, Low, StartTo, Matches, Decoded, Shape, Walk;
    forall a: nat, stream: nat {:trigger AnswersOn(F.tables, l, b, s, d, e, a, stream)} | a < |b|
      ensures AnswersOn(F.tables, l, b, s, d, e, a, stream)
    {
      PaddedCodes(b, y, g, BMAX, a);
      if Matches(b, BMAX, a, stream) { WalkFromRoot(F, cd, a, stream, l); }
    }
    forall stream: nat | NoCode(b, stream)
      ensures Walk(F.tables, 0, l, stream).Found? && Walk(F.tables, 0, l, stream).e == 99
    {
      var a := DecodeExists(cd.lens, BMAX, stream);
      if a < |b| { PaddedCodes(b, y, g, BMAX, a); }
      WalkFromRoot(F, cd, a, stream, l);
    }
  }

  // The sizes for which huft_build is used: lookups of m bits reach half of the
  // longest code, or there are fewer than 2^m symbols and the set is complete.
  ghost predicate UsualSizes(b: seq<nat>, m: nat)
    requires LengthsFit(b, BMAX)
  {
    (forall i :: 0 <= i < |b| ==> b[i] <= 2 * m)
    || (|b| < Pow2(m) && Kraft(b, BMAX) >= Pow2(BMAX))
  }

  lemma Prepare(b: seq<nat>, s: nat, d: seq<nat>, e: seq<nat>, m: nat, y: nat, j: nat, g: nat, l: nat, v: seq<nat>)
    requires LengthsFit(b, BMAX) && ListsFit(b, s, d, e) && UsualSizes(b, m)
    requires 0 < j <= g <= BMAX && IsMax(b, g) && Count(b, j) > 0
    requires forall i :: 0 <= i < |b| ==> b[i] == 0 || b[i] >= j
    requires l == var l1 := if m < j then j else m; if l1 > g then g else l1
    requires Kraft(b, BMAX) + y * Pow2(BMAX - g) == Pow2(BMAX)
    requires Kraft(b, BMAX) < Pow2(BMAX) ==> forall i :: 0 <= i < |b| ==> b[i] > 0
    requires Listed(v, b, |b|)
    ensures Prepared(Coding(Padded(b, y, g), BMAX, |b|, s, d, e), b, y, g, l, j, v)
    ensures forall L :: 0 < L <= BMAX ==> Count(Padded(b, y, g), L) == Count(b, L) + if L == g then y else 0
  {
    hide Pow2, StartTo, CountTo, OffTo, Listed;
    var lens := Padded(b, y, g);
    PaddedKraft(b, y, g, BMAX);
    forall L | 0 < L <= BMAX ensures Count(lens, L) == Count(b, L) + if L == g then y else 0 {
      PaddedTailTo(b, y, g, BMAX, L, 0, y);
    }
    FirstStart(lens, BMAX, j);
    OffNoneTo(b, j, |b|);
    if y > 0 { MulMono(1, y, Pow2(BMAX - g)); }
    if l > m { Pow2Mono(m, l); }
    assert g in lens by { var i :| 0 <= i < |b| && b[i] == g; assert lens[i] == g; }
    SizesFitPadded(b, m, y, g, l);
  }

  lemma SizesFitPadded(b: seq<nat>, m: nat, y: nat, g: nat, l: nat)
    requires LengthsFit(b, BMAX) && UsualSizes(b, m) && IsMax(b, g) && g <= BMAX && (m <= l || l == g)
    requires Kraft(b, BMAX) + y * Pow2(BMAX - g) == Pow2(BMAX)
    ensures SizesFit(Padded(b, y, g), g, l)
  {
    hide Pow2, StartTo;
    if l == g || forall i :: 0 <= i < |b| ==> b[i] <= 2 * m {
    } else {
      if y > 0 { MulMono(1, y, Pow2(BMAX - g)); }
      Pow2Mono(m, l);
    }
  }

  method HuftBuild(b: seq<nat>, s: nat, d: seq<nat>, e: seq<nat>, m: nat)
    returns (status: nat, tables: seq<seq<Huft>>, bits: nat)
    requires 0 < |b| <= N_MAX && LengthsFit(b, BMAX) && ListsFit(b, s, d, e) && UsualSizes(b, m)
    // dummy codes are only told from values when there are no unused symbols
    requires Kraft(b, BMAX) < Pow2(BMAX) && (exists i :: 0 <= i < |b| && b[i] != 0) ==>
               forall i :: 0 <= i < |b| ==> b[i] > 0
    ensures (forall i :: 0 <= i < |b| ==> b[i] == 0) ==> status == 0 && tables == [] && bits == 0
    ensures (exists i :: 0 <= i < |b| && b[i] != 0) ==>
              (status == 2 <==> Kraft(b, BMAX) > Pow2(BMAX))
              && (status == 1 <==> Kraft(b, BMAX) < Pow2(BMAX) && exists i :: 0 <= i < |b| && b[i] > 1)
              && (status != 2 ==> status < 2 && DecodesAll(tables, bits, b, s, d, e) && RejectsRest(tables, bits, b))
    // a single table when no code is longer than the requested lookup
    ensures status != 2 && (forall i :: 0 <= i < |b| ==> b[i] <= m) ==> |tables| <= 1
  {
    hide Pow2, StartTo, CountTo, OffTo, DecodesAll, RejectsRest, Listed, Prepared, UsualSizes;
    var c := CountLengths(b, BMAX);
    CountFullTo(b, 0, |b|);
    if c[0] == |b| {
      return 0, [], 0;
    }
    var j, g := Bounds(c, b, BMAX);
    var l := if m < j then j else m;
    if l > g { l := g; }
    bits := l;
    var y := DummyCodes(b, c, j, g, BMAX);
    if y < 0 {
      return 2, [], bits;
    }
    c[g] := c[g] + y;
    var v := ListSymbols(b, c, g, N_MAX, BMAX);
    ghost var cd := Coding(Padded(b, y, g), BMAX, |b|, s, d, e);
    Prepare(b, s, d, e, m, y, j, g, l, v[..]);
    ghost var F;
    tables, F := BuildTables(c, v, j, g, l, |b|, s, d, e, cd, b, y);
    TablesDecode(F, cd, b, y, g, l, s, d, e);
    NegativeProduct(-y, Pow2(BMAX - g));
    status := if y != 0 && g != 1 then 1 else 0;
  }
}
