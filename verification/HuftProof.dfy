// What every step of huft_build keeps: the tables decode all codes placed so
// far, and the open tables are large enough for the codes still to come.
module HuftProof {
  import opened Powers
  import opened Canonical
  import opened HuftTables

  // The codes being placed: symbols from n on are the dummy codes that fill up
  // an incomplete set, symbols below s are their own value, and the others take
  // base and extra bits from d and e.  M bounds the code lengths.
  datatype Coding = Coding(lens: seq<nat>, M: nat, n: nat, s: nat, d: seq<nat>, e: seq<nat>)

  predicate CodingOK(cd: Coding)
  {
    LengthsFit(cd.lens, cd.M) && cd.M <= BMAX && Kraft(cd.lens, cd.M) == Pow2(cd.M) && ValuesOK(cd)
  }

  predicate ValuesOK(cd: Coding)
  {
    cd.n <= |cd.lens|
    && (cd.s < cd.n ==> cd.n - cd.s <= |cd.d| && cd.n - cd.s <= |cd.e|)
    && forall i :: 0 <= i < |cd.e| ==> cd.e[i] < 15 || cd.e[i] == 99
  }

  function SymbolEntry(cd: Coding, a: nat, b: nat): Huft
    requires ValuesOK(cd)
  {
    if a >= cd.n then Huft(99, b, 0)
    else if a < cd.s then Huft(if a < 256 then 16 else 15, b, a)
    else Huft(cd.e[a - cd.s], b, cd.d[a - cd.s])
  }

  // What looking up the code of symbol a must answer.
  function Expect(cd: Coding, a: nat): Lookup
    requires ValuesOK(cd) && a < |cd.lens|
  {
    Leaf(SymbolEntry(cd, a, cd.lens[a]), 0)
  }

  predicate DecodesOne(F: Forest, cd: Coding, P: nat, a: nat, stream: nat)
    requires Shape(F) && CodingOK(cd) && a < |cd.lens|
  {
    Matches(cd.lens, cd.M, a, stream) && BlockStart(cd.lens, cd.M, a) < P ==> Good(F, 0, stream, Expect(cd, a))
  }

  // Every code whose block starts before P is looked up correctly.
  ghost predicate Decoded(F: Forest, cd: Coding, P: nat)
    requires Shape(F) && CodingOK(cd)
  {
    forall a: nat, stream: nat :: a < |cd.lens| ==> DecodesOne(F, cd, P, a, stream)
  }

  // The end of the region of numbers whose first w bits are x (reversed).
  function RegionEnd(M: nat, x: nat, w: nat): nat
    requires w <= M
  {
    (Rev(x, w) + 1) * Pow2(M - w)
  }

  // All codes inside the region of a table end inside the table or in tables
  // linked from full-width entries.
  predicate TableAdequate(F: Forest, cd: Coding, t: nat, x: nat, l: nat)
    requires Shape(F) && CodingOK(cd) && t < |F.tables|
  {
    F.nb[t] == l
    || (F.nb[t] < l && F.adW[t] <= cd.M
        && RegionEnd(cd.M, x, F.adW[t]) <= Start(cd.lens, cd.M, F.adW[t] + F.nb[t] + 1, 0))
  }

  predicate Adequate(F: Forest, cd: Coding, u: seq<nat>, x: seq<nat>, l: nat)
    requires Shape(F) && CodingOK(cd) && |u| == |x|
    requires forall q :: 0 <= q < |u| ==> u[q] < |F.tables|
  {
    forall q :: 0 <= q < |u| ==> TableAdequate(F, cd, u[q], x[q], l)
  }

  function Room(M: nat, w: nat): nat
  {
    if w <= M then M - w else 0
  }

  // The state between two codes: the next code starts at P, i is P reversed,
  // and the last open table (at w bits) is the deepest one on the way to it.
  ghost predicate Inv(F: Forest, cd: Coding, l: nat, P: nat, i: nat, u: seq<nat>, x: seq<nat>, w: nat)
  {
    CodingOK(cd) && Shape(F) && StackOK(F, u, x, l)
    && w == F.adW[u[|u| - 1]] && x[|u| - 1] == Low(i, w)
    && i == Rev(P, cd.M)
    && Low(P, Room(cd.M, w + l)) == 0
    && F.nb[0] == l > 0
    && Adequate(F, cd, u, x, l)
    && Decoded(F, cd, P)
  }

  // A number aligned to 2^m reverses to its block number reversed.
  lemma RevAligned(P: nat, m: nat, k: nat)
    requires Low(P, m) == 0
    ensures Rev(P, m + k) == Rev(Shr(P, m), k)
  {
    RevSplit(P, m, k);
    RevLow(P, m, m);
    RevZero(m);
  }

  // The code at position P of length k is i.
  lemma CodeIsI(cd: Coding, a: nat, P: nat, i: nat, k: nat)
    requires CodingOK(cd) && a < |cd.lens| && cd.lens[a] == k > 0
    requires P == BlockStart(cd.lens, cd.M, a) && i == Rev(P, cd.M)
    ensures Code(cd.lens, cd.M, a) == i < Pow2(k)
  {
    hide Low, Shr, Rev, Pow2, StartTo;
    StartAligned(cd.lens, cd.M, k, a);
    RevAligned(P, cd.M - k, k);
  }

  // Entry `idx` of the table at w bits belongs to the code i of length k.
  predicate IsFilled(idx: nat, i: nat, w: nat, k: nat)
    requires w <= k
  {
    Low(idx, k - w) == Shr(i, w)
  }

  // F' is F with the entries of the current code written to the last table.
  predicate Filled(F: Forest, F': Forest, t: nat, r: Huft, i: nat, w: nat, k: nat)
    requires Shape(F) && w <= k
  {
    Extends(F, F') && |F'.tables| == |F.tables| && t < |F.tables|
    && (forall q :: 0 <= q < |F.tables| && q != t ==> F'.tables[q] == F.tables[q])
    && |F'.tables[t]| == |F.tables[t]|
    && (forall j :: 0 <= j < |F.tables[t]| ==>
          F'.tables[t][j] == if IsFilled(j, i, w, k) then r else F.tables[t][j])
  }

  // A stream meets a filled entry of the table exactly when it starts with i.
  lemma MeetsFilled(F: Forest, t: nat, stream: nat, i: nat, w: nat, k: nat)
    requires Shape(F) && t < |F.tables| && F.adW[t] == w < k && F.adX[t] == Low(i, w)
    requires k - w <= F.nb[t] && i < Pow2(k)
    ensures Passes(F, t, stream) && IsFilled(Hit(F, t, stream), i, w, k) <==> Low(stream, k) == i
  {
    PrefixTest(stream, i, w, k - w, F.nb[t]);
  }

  lemma FillOne(F: Forest, F': Forest, cd: Coding, P: nat, a0: nat, i: nat, u: seq<nat>, x: seq<nat>,
                l: nat, w: nat, k: nat, r: Huft, a: nat, stream: nat)
    requires CodingOK(cd) && Shape(F) && StackOK(F, u, x, l) && Shape(F') && StackOK(F', u, x, l)
    requires w == F.adW[u[|u| - 1]] < k && x[|u| - 1] == Low(i, w) && k - w <= F.nb[u[|u| - 1]]
    requires Decoded(F, cd, P) && i == Rev(P, cd.M)
    requires a0 < |cd.lens| && cd.lens[a0] == k && P == BlockStart(cd.lens, cd.M, a0)
    requires !IsLink(r) && Leaf(r, w) == Expect(cd, a0)
    requires Filled(F, F', u[|u| - 1], r, i, w, k)
    requires a < |cd.lens|
    ensures DecodesOne(F', cd, P + Pow2(cd.M - k), a, stream)
  {
    hide Low, Shr, Rev, Pow2, StartTo;
    var lens := cd.lens;
    if Matches(lens, cd.M, a, stream) && BlockStart(lens, cd.M, a) < P + Pow2(cd.M - k) {
      var t := u[|u| - 1];
      CodeIsI(cd, a0, P, i, k);
      MeetsFilled(F, t, stream, i, w, k);
      if BlockStart(lens, cd.M, a) < P {
        assert DecodesOne(F, cd, P, a, stream);
        if Low(stream, k) == i {
          assert Matches(lens, cd.M, a0, stream);
          DecodeUnique(lens, cd.M, a, a0, stream);
        }
        GoodFrame(F, F', 0, stream, Expect(cd, a));
      } else {
        OwnerUnique(lens, cd.M, a, a0, BlockStart(lens, cd.M, a));
        assert Good(F', t, stream, Expect(cd, a));
        GoodFromTop(F', u, x, l, |u| - 1, stream, Expect(cd, a));
      }
    }
  }

  // Writing the entries of one code completes it and harms no other code.
  lemma FillKeeps(F: Forest, F': Forest, cd: Coding, P: nat, a0: nat, i: nat, u: seq<nat>, x: seq<nat>,
                  l: nat, w: nat, k: nat, r: Huft)
    requires CodingOK(cd) && Shape(F) && StackOK(F, u, x, l)
    requires w == F.adW[u[|u| - 1]] < k && x[|u| - 1] == Low(i, w) && k - w <= F.nb[u[|u| - 1]]
    requires Decoded(F, cd, P) && i == Rev(P, cd.M)
    requires a0 < |cd.lens| && cd.lens[a0] == k && P == BlockStart(cd.lens, cd.M, a0)
    requires !IsLink(r) && Leaf(r, w) == Expect(cd, a0)
    requires Filled(F, F', u[|u| - 1], r, i, w, k)
    ensures StackOK(F', u, x, l)
    ensures Decoded(F', cd, P + Pow2(cd.M - k))
  {
    hide Low, Shr, Rev, Pow2, StartTo;
    StackFill(F, F', u, x, l, r, i, w, k);
    var P' := P + Pow2(cd.M - k);
    forall a: nat, stream: nat {:trigger DecodesOne(F', cd, P', a, stream)} | a < |cd.lens|
      ensures DecodesOne(F', cd, P', a, stream)
    {
      FillOne(F, F', cd, P, a0, i, u, x, l, w, k, r, a, stream);
    }
  }

  lemma FillAdequate(F: Forest, F': Forest, cd: Coding, u: seq<nat>, x: seq<nat>, l: nat)
    requires CodingOK(cd) && Extends(F, F') && |u| == |x|
    requires forall q :: 0 <= q < |u| ==> u[q] < |F.tables|
    requires Adequate(F, cd, u, x, l)
    ensures Adequate(F', cd, u, x, l)
  {
    hide Low, Shr, Rev, Pow2, StartTo;
    forall q | 0 <= q < |u| ensures TableAdequate(F', cd, u[q], x[q], l) {
      assert TableAdequate(F, cd, u[q], x[q], l);
    }
  }

  lemma {:induction false} StackIncreasing(F: Forest, u: seq<nat>, x: seq<nat>, l: nat, p: nat, q: nat)
    requires Shape(F) && StackOK(F, u, x, l) && p < q < |u|
    ensures u[p] < u[q] && F.adW[u[p]] + l <= F.adW[u[q]]
    decreases q
  {
    assert Linked(F, u[q - 1], u[q - 1 + 1], x[q - 1], x[q - 1 + 1], l);
    if p < q - 1 { StackIncreasing(F, u, x, l, p, q - 1); }
  }

  lemma StackFill(F: Forest, F': Forest, u: seq<nat>, x: seq<nat>, l: nat, r: Huft, i: nat, w: nat, k: nat)
    requires Shape(F) && StackOK(F, u, x, l) && w < k
    requires Filled(F, F', u[|u| - 1], r, i, w, k)
    ensures StackOK(F', u, x, l)
  {
    forall q | 0 <= q < |u| - 1 ensures Linked(F', u[q], u[q + 1], x[q], x[q + 1], l) {
      assert Linked(F, u[q], u[q + 1], x[q], x[q + 1], l);
      StackIncreasing(F, u, x, l, q, |u| - 1);
    }
  }

  // ---- Where the next code lies ---------------------------------------------------

  // Position of code number t of length k.
  function Pos(M: nat, lens: seq<nat>, k: nat, t: nat): nat
    requires LengthsFit(lens, M) && 0 < k <= M
  {
    Start(lens, M, k, 0) + t * Pow2(M - k)
  }

  lemma RegionOf(M: nat, P: nat, w: nat)
    requires P < Pow2(M) && w <= M
    ensures Rev(Low(Rev(P, M), w), w) == Shr(P, M - w)
    ensures RegionEnd(M, Low(Rev(P, M), w), w) > P
    ensures Low(P, M - w) == 0 ==> RegionEnd(M, Low(Rev(P, M), w), w) == P + Pow2(M - w)
  {
    hide Low, Shr, Rev, Pow2, StartTo;
    var m := M - w;
    RevHigh(P, m, w);
    Split(P, m);
    Pow2Add(w, m);
    if Shr(P, m) >= Pow2(w) { MulMono(Pow2(w), Shr(P, m), Pow2(m)); }
    RevRev(Shr(P, m), w);
    Distribute(Shr(P, m), 1, Pow2(m));
  }

  // The last open table is wide enough for the next code, or is full width if
  // the next code needs a deeper table.
  lemma TopWide(F: Forest, cd: Coding, l: nat, P: nat, t: nat, w: nat, k: nat)
    requires CodingOK(cd) && Shape(F) && t < |F.tables| && w == F.adW[t]
    requires TableAdequate(F, cd, t, Low(Rev(P, cd.M), w), l) && w < k <= cd.M
    requires Start(cd.lens, cd.M, k, 0) <= P < Pow2(cd.M)
    ensures k <= w + l ==> k - w <= F.nb[t]
    ensures k > w + l ==> F.nb[t] == l
  {
    hide Low, Shr, Rev, Pow2, StartTo;
    if F.nb[t] != l && w + F.nb[t] + 1 <= k {
      RegionOf(cd.M, P, w);
      StartMono(cd.lens, cd.M, w + F.nb[t] + 1, 0, k, 0);
    }
  }

  // ---- Opening a table ------------------------------------------------------------

  function Linking(F: Forest, t: nat, i: nat, l: nat, j: nat, mem: seq<Huft>): Forest
    requires Shape(F) && t < |F.tables| && Shr(i, F.adW[t]) < |F.tables[t]|
  {
    Forest(F.tables[t := F.tables[t][Shr(i, F.adW[t]) := Huft(16 + j, l, |F.tables|)]] + [mem],
           F.adW + [F.adW[t] + l], F.adX + [i], F.nb + [j])
  }

  // When the next code needs a deeper table, its position starts a new region.
  lemma LinkIndex(M: nat, P: nat, w: nat, l: nat)
    requires w + l <= M && Low(P, M - (w + l)) == 0
    ensures Rev(P, M) < Pow2(w + l) && Shr(Rev(P, M), w) < Pow2(l)
  {
    hide Low, Shr, Rev, Pow2, StartTo;
    RevAligned(P, M - (w + l), w + l);
    ShrBound(Rev(P, M), w, l);
  }

  // A done code that shared the first W bits with the next code would own P.
  lemma NoSharing(cd: Coding, P: nat, i: nat, W: nat, a0: nat, a: nat, stream: nat)
    requires CodingOK(cd) && W <= cd.M && Low(P, cd.M - W) == 0 && P < Pow2(cd.M)
    requires a0 < |cd.lens| && cd.lens[a0] > 0 && P == BlockStart(cd.lens, cd.M, a0)
    requires i == Rev(P, cd.M) && a < |cd.lens|
    requires Matches(cd.lens, cd.M, a, stream) && BlockStart(cd.lens, cd.M, a) < P
    ensures Low(stream, W) != Low(i, W)
  {
    hide Low, Shr, Rev, Pow2, StartTo, BlockStart, LengthsFit;
    if Low(stream, W) == Low(i, W) {
      RevAgree(stream, i, W, cd.M - W);
      RevRev(P, cd.M);
      InBlock(Rev(stream, cd.M), P, cd.M - W);
      MatchesIffOwns(cd.lens, cd.M, a, stream);
      OwnerUnique(cd.lens, cd.M, a, a0, P);
    }
  }

  lemma LinkKeepsOne(F: Forest, cd: Coding, l: nat, P: nat, i: nat, t: nat, j: nat, mem: seq<Huft>,
                     a0: nat, a: nat, stream: nat)
    requires CodingOK(cd) && Shape(F) && t < |F.tables| && F.adX[t] == Low(i, F.adW[t]) && F.nb[t] == l
    requires F.adW[t] + l <= cd.M && Low(P, cd.M - (F.adW[t] + l)) == 0 && P < Pow2(cd.M)
    requires a0 < |cd.lens| && cd.lens[a0] > 0 && P == BlockStart(cd.lens, cd.M, a0)
    requires i == Rev(P, cd.M) < Pow2(F.adW[t] + l) && Shr(i, F.adW[t]) < |F.tables[t]| && |mem| == Pow2(j)
    requires a < |cd.lens| && DecodesOne(F, cd, P, a, stream)
    ensures Shape(Linking(F, t, i, l, j, mem)) && DecodesOne(Linking(F, t, i, l, j, mem), cd, P, a, stream)
  {
    hide Low, Shr, Rev, Pow2, StartTo;
    var F', w := Linking(F, t, i, l, j, mem), F.adW[t];
    if Matches(cd.lens, cd.M, a, stream) && BlockStart(cd.lens, cd.M, a) < P {
      NoSharing(cd, P, i, w + l, a0, a, stream);
      LowSmall(i, w + l);
      PrefixTest(stream, i, w, l, l);
      LowLow(Shr(stream, w), l, l);
      GoodFrame(F, F', 0, stream, Expect(cd, a));
    }
  }

  lemma LinkDecoded(F: Forest, cd: Coding, l: nat, P: nat, i: nat, t: nat, j: nat, mem: seq<Huft>, a0: nat)
    requires CodingOK(cd) && Shape(F) && t < |F.tables| && F.adX[t] == Low(i, F.adW[t]) && F.nb[t] == l
    requires F.adW[t] + l <= cd.M && Low(P, cd.M - (F.adW[t] + l)) == 0 && P < Pow2(cd.M)
    requires a0 < |cd.lens| && cd.lens[a0] > 0 && P == BlockStart(cd.lens, cd.M, a0)
    requires i == Rev(P, cd.M) < Pow2(F.adW[t] + l) && Shr(i, F.adW[t]) < |F.tables[t]| && |mem| == Pow2(j)
    requires Decoded(F, cd, P)
    ensures Shape(Linking(F, t, i, l, j, mem)) && Decoded(Linking(F, t, i, l, j, mem), cd, P)
  {
    hide Low, Shr, Rev, Pow2, StartTo;
    var F' := Linking(F, t, i, l, j, mem);
    forall a: nat, stream: nat {:trigger DecodesOne(F', cd, P, a, stream)} | a < |cd.lens|
      ensures DecodesOne(F', cd, P, a, stream)
    {
      assert DecodesOne(F, cd, P, a, stream);
      LinkKeepsOne(F, cd, l, P, i, t, j, mem, a0, a, stream);
    }
  }

  lemma LinkAdequate(F: Forest, cd: Coding, l: nat, P: nat, i: nat, u: seq<nat>, x: seq<nat>, w: nat, j: nat,
      mem: seq<Huft>)
    requires CodingOK(cd) && Shape(F) && |u| == |x| && |u| > 0 && forall q :: 0 <= q < |u| ==> u[q] < |F.tables|
    requires Shr(i, F.adW[u[|u| - 1]]) < |F.tables[u[|u| - 1]]| && |mem| == Pow2(j)
    requires w == F.adW[u[|u| - 1]] && w + l <= cd.M && i == Rev(P, cd.M) < Pow2(w + l) && P < Pow2(cd.M)
    requires Low(P, cd.M - (w + l)) == 0
    requires Adequate(F, cd, u, x, l)
    requires j == l || (j < l && P + Pow2(cd.M - (w + l)) <= Start(cd.lens, cd.M, w + l + j + 1, 0))
    ensures Shape(Linking(F, u[|u| - 1], i, l, j, mem))
    ensures Adequate(Linking(F, u[|u| - 1], i, l, j, mem), cd, u + [|F.tables|], x + [i], l)
  {
    hide Low, Shr, Rev, Pow2, StartTo;
    var F' := Linking(F, u[|u| - 1], i, l, j, mem);
    LowSmall(i, w + l);
    RegionOf(cd.M, P, w + l);
    assert TableAdequate(F', cd, |F.tables|, i, l);
    forall q | 0 <= q < |u| ensures TableAdequate(F', cd, u[q], x[q], l) {
      assert TableAdequate(F, cd, u[q], x[q], l);
    }
  }

  // Linking in a new table for the region that starts at P.
  lemma LinkKeeps(F: Forest, cd: Coding, l: nat, P: nat, i: nat, u: seq<nat>, x: seq<nat>, w: nat,
                  a0: nat, j: nat, mem: seq<Huft>)
    requires Inv(F, cd, l, P, i, u, x, w) && w + l <= cd.M
    requires a0 < |cd.lens| && cd.lens[a0] > 0 && P == BlockStart(cd.lens, cd.M, a0) < Pow2(cd.M)
    requires F.nb[u[|u| - 1]] == l && 0 < j <= l && j <= BMAX && |mem| == Pow2(j)
    requires j == l || P + Pow2(cd.M - (w + l)) <= Start(cd.lens, cd.M, w + l + j + 1, 0)
    ensures i < Pow2(w + l) && Shr(i, w) < Pow2(l) <= |F.tables[u[|u| - 1]]|
    ensures Inv(Linking(F, u[|u| - 1], i, l, j, mem), cd, l, P, i, u + [|F.tables|], x + [i], w + l)
  {
    hide Low, Shr, Rev, Pow2, StartTo;
    LinkIndex(cd.M, P, w, l);
    LinkStack(F, l, i, u, x, w, j, mem);
    LinkDecoded(F, cd, l, P, i, u[|u| - 1], j, mem, a0);
    LinkAdequate(F, cd, l, P, i, u, x, w, j, mem);
    LowSmall(i, w + l);
    AlignedDown(P, Room(cd.M, w + l + l), cd.M - (w + l));
  }

  lemma LinkStack(F: Forest, l: nat, i: nat, u: seq<nat>, x: seq<nat>, w: nat, j: nat, mem: seq<Huft>)
    requires Shape(F) && StackOK(F, u, x, l) && w == F.adW[u[|u| - 1]] && x[|u| - 1] == Low(i, w)
    requires i < Pow2(w + l) && Shr(i, w) < |F.tables[u[|u| - 1]]| && F.nb[u[|u| - 1]] == l
    requires 0 < j <= BMAX && |mem| == Pow2(j)
    ensures Shape(Linking(F, u[|u| - 1], i, l, j, mem))
    ensures StackOK(Linking(F, u[|u| - 1], i, l, j, mem), u + [|F.tables|], x + [i], l)
  {
    hide Low, Shr, Rev, Pow2, StartTo;
    var t := u[|u| - 1];
    var F' := Linking(F, t, i, l, j, mem);
    var u', x' := u + [|F.tables|], x + [i];
    forall q | 0 <= q < |u'| - 1 ensures Linked(F', u'[q], u'[q + 1], x'[q], x'[q + 1], l) {
      if q < |u| - 1 {
        assert Linked(F, u[q], u[q + 1], x[q], x[q + 1], l);
        StackIncreasing(F, u, x, l, q, |u| - 1);
      } else {
        LowSmall(i, w + l);
        ShrLow(i, w, l);
      }
    }
  }

  // ---- Leaving tables ---------------------------------------------------------------

  lemma {:induction false} StackPrefix(F: Forest, u: seq<nat>, x: seq<nat>, l: nat, i: nat, q: nat)
    requires Shape(F) && StackOK(F, u, x, l) && q < |u|
    requires x[|u| - 1] == Low(i, F.adW[u[|u| - 1]])
    ensures x[q] == Low(i, F.adW[u[q]])
    decreases |u| - q
  {
    if q < |u| - 1 {
      StackPrefix(F, u, x, l, i, q + 1);
      assert Linked(F, u[q], u[q + 1], x[q], x[q + 1], l);
      LowLow(i, F.adW[u[q]], F.adW[u[q + 1]]);
    }
  }

  lemma StackPop(F: Forest, cd: Coding, u: seq<nat>, x: seq<nat>, l: nat, m: nat)
    requires Shape(F) && CodingOK(cd) && StackOK(F, u, x, l) && Adequate(F, cd, u, x, l)
    requires 0 < m <= |u|
    ensures StackOK(F, u[..m], x[..m], l) && Adequate(F, cd, u[..m], x[..m], l)
  {
    hide Low, Shr, Rev, Pow2, StartTo;
    forall q | 0 <= q < m - 1 ensures Linked(F, u[..m][q], u[..m][q + 1], x[..m][q], x[..m][q + 1], l) {
      assert Linked(F, u[q], u[q + 1], x[q], x[q + 1], l);
    }
    forall q | 0 <= q < m ensures TableAdequate(F, cd, u[..m][q], x[..m][q], l) {
      assert TableAdequate(F, cd, u[q], x[q], l);
    }
  }

  // A finished region leaves the next position aligned to it: if the first W
  // bits changed from P to P + 2^(M-k), then P + 2^(M-k) starts a W-bit region.
  lemma RegionLeft(M: nat, P: nat, k: nat, W: nat)
    requires W < k <= M && Low(P, M - k) == 0
    requires Low(Rev(P, M), W) != Low(Rev(P + Pow2(M - k), M), W)
    ensures Low(P + Pow2(M - k), M - W) == 0
  {
    RegionLeftAt(P, M - k, k - W, W);
  }

  lemma RegionLeftAt(P: nat, n: nat, d: nat, W: nat)
    requires Low(P, n) == 0
    requires Low(Rev(P, n + d + W), W) != Low(Rev(P + Pow2(n), n + d + W), W)
    ensures Low(P + Pow2(n), n + d) == 0
  {
    hide Low, Shr, Rev, Pow2;
    LowAddPow2(P, n);
    var P' := P + Pow2(n);
    if Low(P', n + d) != 0 {
      var c := Shr(P, n);
      if Low(c + 1, d) == 0 { LowZeroJoin(P', n, d); }
      ShrSucc(c, d);
      ShrShr(P, n, d);
      ShrShr(P', n, d);
      RevHigh(P, n + d, W);
      RevHigh(P', n + d, W);
    }
  }

  lemma PopAligned(M: nat, F: Forest, u: seq<nat>, x: seq<nat>, l: nat, P: nat, k: nat, m: nat)
    requires Shape(F) && StackOK(F, u, x, l) && 0 < m <= |u|
    requires x[|u| - 1] == Low(Rev(P, M), F.adW[u[|u| - 1]])
    requires F.adW[u[|u| - 1]] < k <= F.adW[u[|u| - 1]] + l && k <= M && Low(P, M - k) == 0
    requires m < |u| ==> x[m] != Low(Rev(P + Pow2(M - k), M), F.adW[u[m]])
    ensures Low(P + Pow2(M - k), Room(M, F.adW[u[m - 1]] + l)) == 0
  {
    hide Low, Shr, Rev, Pow2, StartTo;
    var n := M - k;
    if m < |u| {
      assert Linked(F, u[m - 1], u[m - 1 + 1], x[m - 1], x[m - 1 + 1], l);
      StackPrefix(F, u, x, l, Rev(P, M), m);
      if m < |u| - 1 { StackIncreasing(F, u, x, l, m, |u| - 1); }
      RegionLeft(M, P, k, F.adW[u[m]]);
    } else {
      AlignedPow2(n, n);
      AlignedAdd(P, Pow2(n), n);
      AlignedDown(P + Pow2(n), Room(M, F.adW[u[m - 1]] + l), n);
    }
  }

  // ---- The root, and the size of a new table ---------------------------------------

  lemma RootInv(cd: Coding, l: nat, mem: seq<Huft>)
    requires CodingOK(cd) && 0 < l && Pow2(l) <= |mem|
    ensures Inv(Forest([mem], [0], [0], [l]), cd, l, 0, 0, [0], [0], 0)
  {
    RevZero(cd.M);
    LowSmall(0, Room(cd.M, l));
  }

  predicate IsMax(lens: seq<nat>, g: nat)
  {
    0 < g && (forall i :: 0 <= i < |lens| ==> lens[i] <= g) && g in lens
  }

  lemma {:induction false} AfterMaxTo(M: nat, lens: seq<nat>, g: nat, L: nat, n: nat)
    requires LengthsFit(lens, M) && IsMax(lens, g) && g < L && n <= |lens|
    ensures StartTo(lens, M, L, 0, n) == StartTo(lens, M, M + 1, 0, n)
  {
    if n > 0 { AfterMaxTo(M, lens, g, L, n - 1); }
  }

  lemma AfterMax(M: nat, lens: seq<nat>, g: nat, L: nat)
    requires LengthsFit(lens, M) && IsMax(lens, g) && g < L
    ensures Start(lens, M, L, 0) == Kraft(lens, M)
  {
    AfterMaxTo(M, lens, g, L, |lens|);
  }

  // Codes no longer than L cannot fill the space while a longer one exists.
  lemma BeforeMax(M: nat, lens: seq<nat>, g: nat, L: nat)
    requires LengthsFit(lens, M) && IsMax(lens, g) && L <= g
    ensures Start(lens, M, L, 0) < Kraft(lens, M)
  {
    var a :| 0 <= a < |lens| && lens[a] == g;
    StartMono(lens, M, L, 0, g, a);
    BlockInside(lens, M, a);
  }

  lemma {:induction false} CodesAfterTo(M: nat, lens: seq<nat>, k: nat, n: nat)
    requires LengthsFit(lens, M) && n <= |lens| && 0 < k <= M
    ensures StartTo(lens, M, M + 1, 0, n) <= StartTo(lens, M, k, 0, n) + n * Pow2(M - k)
  {
    if n > 0 {
      CodesAfterTo(M, lens, k, n - 1);
      Distribute(n - 1, 1, Pow2(M - k));
      if lens[n - 1] >= k { Pow2Mono(M - lens[n - 1], M - k); }
    }
  }

  lemma CancelPow2(x: nat, y: nat, m: nat)
    requires x * Pow2(m) <= y * Pow2(m)
    ensures x <= y
  {
    if x > y {
      MulMono(y + 1, x, Pow2(m));
      Distribute(y, 1, Pow2(m));
    }
  }

  // A region that only holds codes of the greatest length g is filled by the
  // r codes that are left.
  lemma LastRegion(lens: seq<nat>, M: nat, g: nat, P: nat, w: nat, t: nat, r: nat)
    requires LengthsFit(lens, M) && Kraft(lens, M) == Pow2(M) && IsMax(lens, g)
    requires w < g <= M && P == Pos(M, lens, g, t) < Pow2(M) && Low(P, M - w) == 0
    requires Count(lens, g) == t + r
    ensures Pow2(g - w) <= r
  {
    hide Low, Shr, Pow2, StartTo, CountTo;
    AlignedPow2(M - w, M);
    AlignedGap(P, Pow2(M), M - w);
    Pow2Add(g - w, M - g);
    StartNextLength(lens, M, g);
    AfterMax(M, lens, g, g + 1);
    Distribute(t, r, Pow2(M - g));
    CancelPow2(Pow2(g - w), r, M - g);
  }

  // A region of w bits whose shortest code has k bits holds at least 2^(k-w)
  // codes.  So with fewer than 2^l symbols its first table has less than l bits.
  lemma ShortRegion(lens: seq<nat>, M: nat, l: nat, P: nat, w: nat, k: nat, t: nat)
    requires LengthsFit(lens, M) && Kraft(lens, M) == Pow2(M) && |lens| < Pow2(l)
    requires w < k <= M && P == Pos(M, lens, k, t) < Pow2(M) && Low(P, M - w) == 0
    ensures k - w < l
  {
    hide Low, Shr, Pow2, StartTo, CountTo;
    AlignedPow2(M - w, M);
    AlignedGap(P, Pow2(M), M - w);
    Pow2Add(k - w, M - k);
    CodesAfterTo(M, lens, k, |lens|);
    MulMono(0, t, Pow2(M - k));
    CancelPow2(Pow2(k - w), |lens|, M - k);
    if l <= k - w { Pow2Mono(l, k - w); }
  }
}
