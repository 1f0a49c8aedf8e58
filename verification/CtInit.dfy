// ct_init (trees.c): the maps from lengths and distances to their codes, and the
// static trees.
module CtInit {
  import opened Powers
  import opened Canonical
  import opened TreeCodes
  import opened Lz77
  import opened BlockFormat
  import opened Blocks

  // The tables as computed.  baseLength has no entry for the last code, which has
  // no extra bits.
  datatype CodeMaps = CodeMaps(lengthCode: seq<nat>, baseLength: seq<nat>, distCode: seq<nat>, baseDist: seq<nat>)

  // d_code: the code of a distance less one.
  function DCode(distCode: seq<nat>, d: nat): nat
    requires |distCode| == 512 && d < WSIZE
  {
    if d < 256 then distCode[d] else distCode[256 + d / 128]
  }

  // The tables agree with those of the decoder.
  ghost predicate MapsOK(m: CodeMaps)
  {
    |m.lengthCode| == 256 && |m.baseLength| == LENGTH_CODES && |m.distCode| == 512 && |m.baseDist| == D_CODES
    && (forall l :: 0 <= l < 256 ==> m.lengthCode[l] == LengthCode(l + MIN_MATCH))
    && (forall c :: 0 <= c < LENGTH_CODES - 1 ==> m.baseLength[c] + MIN_MATCH == CPLENS[c])
    && (forall d: nat :: d < WSIZE ==> DCode(m.distCode, d) == DistCode(d + 1))
    && (forall c :: 0 <= c < D_CODES ==> m.baseDist[c] + 1 == CPDIST[c])
  }

  // Where the range of a code starts, counted from the least length or distance.
  function LenBase(c: nat): nat
  {
    if c < 28 then CPLENS[c] - MIN_MATCH else 256
  }

  function DistBase(c: nat): nat
  {
    if c < D_CODES then CPDIST[c] - 1 else WSIZE
  }

  predicate InLengthRange(l: nat, c: nat)
  {
    c < 28 && CPLENS[c] <= l + MIN_MATCH < CPLENS[c] + Pow2(EXTRA_LBITS[c])
  }

  // All lengths of one code.
  method FillLength(lengthCode: array<nat>, length0: nat, code: nat) returns (length: nat)
    requires lengthCode.Length == 256 && code < 28 && length0 == LenBase(code)
    requires forall l :: 0 <= l < length0 && l < 256 ==> InLengthRange(l, lengthCode[l])
    modifies lengthCode
    ensures length == LenBase(code + 1) <= 256 && forall l :: 0 <= l < length ==> InLengthRange(l, lengthCode[l])
  {
    hide Pow2, LengthCode, InLengthRange, LenBase;
    LengthRoom(code);
    length := length0;
    var n := 0;
    while n < Pow2(EXTRA_LBITS[code])
      invariant 0 <= n <= Pow2(EXTRA_LBITS[code]) && length == length0 + n
      invariant forall l :: 0 <= l < length ==> InLengthRange(l, lengthCode[l])
    {
      InRange(length, code);
      lengthCode[length] := code;
      length := length + 1;
      n := n + 1;
    }
  }

  method InitLengths() returns (lengthCode: array<nat>, baseLength: array<nat>)
    ensures fresh(lengthCode) && fresh(baseLength) && lengthCode.Length == 256 && baseLength.Length == LENGTH_CODES
    ensures forall l :: 0 <= l < 256 ==> lengthCode[l] == LengthCode(l + MIN_MATCH)
    ensures forall c :: 0 <= c < LENGTH_CODES - 1 ==> baseLength[c] + MIN_MATCH == CPLENS[c]
  {
    hide Pow2, LengthCode, InLengthRange, LenBase;
    LenEnds();
    lengthCode, baseLength := new nat[256], new nat[LENGTH_CODES];
    var length, code: nat := 0, 0;
    while code < LENGTH_CODES - 1
      invariant 0 <= code <= 28 && 0 <= length <= 256 && length == LenBase(code)
      invariant forall l :: 0 <= l < length ==> InLengthRange(l, lengthCode[l])
      invariant forall c :: 0 <= c < code ==> baseLength[c] == LenBase(c)
    {
      baseLength[code] := length;
      length := FillLength(lengthCode, length, code);
      code := code + 1;
    }
    lengthCode[length - 1] := code;
    forall l | 0 <= l < 256 ensures lengthCode[l] == LengthCode(l + MIN_MATCH) {
      RangeIsCode(l, lengthCode[l]);
    }
    forall c | 0 <= c < LENGTH_CODES - 1 ensures baseLength[c] + MIN_MATCH == CPLENS[c] {
      LenBaseIs(c);
    }
  }

  lemma LenEnds()
    ensures LenBase(0) == 0 && LenBase(28) == 256
  {
  }

  lemma LenBaseIs(c: nat)
    requires c < 28
    ensures LenBase(c) + MIN_MATCH == CPLENS[c]
  {
    LengthTables(c);
  }

  lemma LengthRoom(c: nat)
    requires c < 28
    ensures CPLENS[c] == LenBase(c) + MIN_MATCH && LenBase(c) + Pow2(EXTRA_LBITS[c]) == LenBase(c + 1) <= 256
  {
    hide Pow2;
    LengthTables(c);
    if c < 27 { LengthTables(c + 1); }
  }

  lemma InRange(l: nat, c: nat)
    requires c < 28 && CPLENS[c] <= l + MIN_MATCH < CPLENS[c] + Pow2(EXTRA_LBITS[c])
    ensures InLengthRange(l, c)
  {
  }

  lemma RangeIsCode(l: nat, c: nat)
    requires l < 256 && if l == 255 then c == 28 else InLengthRange(l, c)
    ensures c == LengthCode(l + MIN_MATCH)
  {
    hide Pow2;
    if l == 255 { LengthTables(28); PowersOfExtra(); }
    LengthCodeIs(l + MIN_MATCH, c);
  }

  // ---- Distances -------------------------------------------------------------------

  // Distances less one from a to b - 1 are in the range of code c.
  predicate InDistRange(a: nat, b: nat, c: nat)
  {
    c < D_CODES && CPDIST[c] <= a + 1 && b + 1 <= CPDIST[c] + Pow2(EXTRA_DBITS[c])
  }

  // The halves of the table: single distances, and blocks of 128.
  ghost predicate DistsMapped(distCode: seq<nat>, low: nat, high: nat)
  {
    |distCode| == 512 && low <= 256 && high <= 256
    && (forall d :: 0 <= d < low ==> InDistRange(d, d + 1, distCode[d]))
    && forall q :: 2 <= q < high ==> InDistRange(128 * q, 128 * q + 128, distCode[256 + q])
  }

  lemma MapOne(s: seq<nat>, s': seq<nat>, low: nat, high: nat, code: nat, far: bool)
    requires DistsMapped(s, low, high) && |s'| == 512
    requires if far then high < 256 && s' == s[256 + high := code]
             && (high >= 2 ==> InDistRange(128 * high, 128 * high + 128, code))
             else low < 256 && high <= 2 && s' == s[low := code] && InDistRange(low, low + 1, code)
    ensures if far then DistsMapped(s', low, high + 1) else DistsMapped(s', low + 1, high)
  {
    hide InDistRange;
  }

  lemma DistRoom(c: nat)
    requires c < D_CODES
    ensures CPDIST[c] == DistBase(c) + 1 && DistBase(c) + Pow2(EXTRA_DBITS[c]) == DistBase(c + 1) <= WSIZE
  {
    hide Pow2;
    DistTables(c);
    if c < 29 { DistTables(c + 1); }
    PowersOfExtra();
  }

  lemma NearRoom(c: nat)
    requires c < 16
    ensures DistBase(c + 1) <= 256
  {
  }

  // From code 16 on, all ranges are made of whole blocks of 128.
  lemma FarRoom(c: nat)
    requires 16 <= c < D_CODES
    ensures EXTRA_DBITS[c] >= 7 && DistBase(c) % 128 == 0 && Pow2(EXTRA_DBITS[c]) == 128 * Pow2(EXTRA_DBITS[c] - 7)
  {
    hide Pow2;
    PowersOfExtra();
  }

  // All distances of one code below 16, and all blocks of one code from 16 on.
  method FillNear(distCode: array<nat>, dist0: nat, code: nat) returns (dist: nat)
    requires distCode.Length == 512 && code < 16 && dist0 == DistBase(code) && DistsMapped(distCode[..], dist0, 2)
    modifies distCode
    ensures dist == DistBase(code + 1) <= 256 && DistsMapped(distCode[..], dist, 2)
  {
    hide Pow2, InDistRange, DistsMapped, DistBase;
    DistRoom(code);
    NearRoom(code);
    dist := dist0;
    var n := 0;
    while n < Pow2(EXTRA_DBITS[code])
      invariant 0 <= n <= Pow2(EXTRA_DBITS[code]) && dist == dist0 + n && DistsMapped(distCode[..], dist, 2)
    {
      ghost var was := distCode[..];
      RangeOf(dist, dist + 1, code);
      distCode[dist] := code;
      MapOne(was, distCode[..], dist, 2, code, false);
      dist := dist + 1;
      n := n + 1;
    }
  }

  method FillFar(distCode: array<nat>, dist0: nat, code: nat) returns (dist: nat)
    requires distCode.Length == 512 && 16 <= code < D_CODES && 128 * dist0 == DistBase(code) && 2 <= dist0
    requires DistsMapped(distCode[..], 256, dist0)
    modifies distCode
    ensures dist0 <= dist <= 256 && 128 * dist == DistBase(code + 1) && DistsMapped(distCode[..], 256, dist)
  {
    hide Pow2, InDistRange, DistsMapped, DistBase;
    DistRoom(code);
    FarRoom(code);
    dist := dist0;
    var n := 0;
    while n < Pow2(EXTRA_DBITS[code] - 7)
      invariant 0 <= n <= Pow2(EXTRA_DBITS[code] - 7) && dist == dist0 + n && DistsMapped(distCode[..], 256, dist)
    {
      ghost var was := distCode[..];
      RangeOf(128 * dist, 128 * dist + 128, code);
      distCode[256 + dist] := code;
      MapOne(was, distCode[..], 256, dist, code, true);
      dist := dist + 1;
      n := n + 1;
    }
  }

  lemma RangeOf(a: nat, b: nat, c: nat)
    requires c < D_CODES && CPDIST[c] <= a + 1 && b + 1 <= CPDIST[c] + Pow2(EXTRA_DBITS[c])
    ensures InDistRange(a, b, c)
  {
  }

  lemma MappedCode(distCode: seq<nat>, d: nat)
    requires DistsMapped(distCode, 256, 256) && d < WSIZE
    ensures DCode(distCode, d) == DistCode(d + 1)
  {
    hide Pow2, DistCode;
    if d < 256 {
      assert InDistRange(d, d + 1, distCode[d]);
    } else {
      var q := d / 128;
      assert InDistRange(128 * q, 128 * q + 128, distCode[256 + q]);
    }
    DistCodeIs(d + 1, DCode(distCode, d));
  }

  method InitDists() returns (distCode: array<nat>, baseDist: array<nat>)
    ensures fresh(distCode) && fresh(baseDist) && distCode.Length == 512 && baseDist.Length == D_CODES
    ensures forall d: nat :: d < WSIZE ==> DCode(distCode[..], d) == DistCode(d + 1)
    ensures forall c :: 0 <= c < D_CODES ==> baseDist[c] + 1 == CPDIST[c]
  {
    hide Pow2, DistCode, InDistRange, DistsMapped, DCode, DistBase;
    DistEnds();
    distCode, baseDist := new nat[512], new nat[D_CODES];
    NoneMapped(distCode[..]);
    var dist, code: nat := 0, 0;
    while code < 16
      invariant 0 <= code <= 16 && dist == DistBase(code) && DistsMapped(distCode[..], dist, 2)
      invariant forall c :: 0 <= c < code ==> baseDist[c] == DistBase(c)
    {
      baseDist[code] := dist;
      dist := FillNear(distCode, dist, code);
      code := code + 1;
    }
    dist := dist / 128;
    while code < D_CODES
      invariant 16 <= code <= D_CODES && 2 <= dist <= 256 && 128 * dist == DistBase(code)
      invariant DistsMapped(distCode[..], 256, dist)
      invariant forall c :: 0 <= c < code ==> baseDist[c] == DistBase(c)
    {
      baseDist[code] := dist * 128;
      dist := FillFar(distCode, dist, code);
      code := code + 1;
    }
    forall d: nat | d < WSIZE ensures DCode(distCode[..], d) == DistCode(d + 1) {
      MappedCode(distCode[..], d);
    }
    forall c | 0 <= c < D_CODES ensures baseDist[c] + 1 == CPDIST[c] { DistRoom(c); }
  }

  lemma DistEnds()
    ensures DistBase(0) == 0 && DistBase(16) == 256 && DistBase(D_CODES) == WSIZE
  {
  }

  lemma NoneMapped(distCode: seq<nat>)
    requires |distCode| == 512
    ensures DistsMapped(distCode, 0, 2)
  {
  }

  // ---- The static trees ------------------------------------------------------------

  // The elements of the tree with a length have their codes.
  ghost predicate TreeCoded(tree: seq<CtData>, lens: seq<nat>)
  {
    LengthsFit(lens, MAX_BITS) && |lens| <= |tree|
    && forall s :: 0 <= s < |lens| && lens[s] > 0 ==> tree[s].dl == lens[s] && tree[s].fc == Code(lens, MAX_BITS, s)
  }

  // The first n elements have the lengths len and are counted.
  ghost predicate Counted(tree: seq<CtData>, bl: seq<nat>, lens: seq<nat>, n: nat)
  {
    |bl| == MAX_BITS + 1 && n <= |lens| <= |tree|
    && (forall i :: 0 <= i < n ==> tree[i].dl == lens[i])
    && forall b :: 0 <= b <= MAX_BITS ==> bl[b] == CountTo(lens, b, n)
  }

  lemma CountOneMore(tree: seq<CtData>, tree': seq<CtData>, bl: seq<nat>, bl': seq<nat>, lens: seq<nat>, n: nat)
    requires Counted(tree, bl, lens, n) && n < |lens| && lens[n] <= MAX_BITS && |tree'| == |tree|
    requires tree' == tree[n := tree[n].(dl := lens[n])] && bl' == bl[lens[n] := bl[lens[n]] + 1]
    ensures Counted(tree', bl', lens, n + 1)
  {
  }

  // One of the loops that give the symbols up to `last` the length len.
  method SetLengths(tree: array<CtData>, blCount: array<nat>, n0: nat, last: nat, len: nat, ghost lens: seq<nat>)
    returns (n: nat)
    requires Counted(tree[..], blCount[..], lens, n0) && n0 <= last < |lens| && len <= MAX_BITS
    requires forall i :: n0 <= i <= last ==> lens[i] == len
    modifies tree, blCount
    ensures n == last + 1 && Counted(tree[..], blCount[..], lens, n)
  {
    hide Counted, CountTo;
    n := n0;
    CountedSizes(tree[..], blCount[..], lens, n);
    while n <= last
      invariant n0 <= n <= last + 1 && Counted(tree[..], blCount[..], lens, n)
    {
      ghost var t, b := tree[..], blCount[..];
      tree[n] := tree[n].(dl := len);
      n := n + 1;
      blCount[len] := blCount[len] + 1;
      assert tree[..] == t[n - 1 := t[n - 1].(dl := lens[n - 1])] && blCount[..] == b[len := b[len] + 1];
      CountOneMore(t, tree[..], b, blCount[..], lens, n - 1);
    }
  }

  lemma CountedSizes(tree: seq<CtData>, bl: seq<nat>, lens: seq<nat>, n: nat)
    requires Counted(tree, bl, lens, n)
    ensures |bl| == MAX_BITS + 1 && |lens| <= |tree|
  {
  }

  method StaticLtree() returns (tree: array<CtData>)
    ensures fresh(tree) && tree.Length == L_CODES + 2 && TreeCoded(tree[..], FixedLl())
  {
    hide Counted, CountTo, StartTo, Code, Pow2;
    tree := new CtData[L_CODES + 2](i => CtData(0, 0));
    var blCount := new nat[MAX_BITS + 1];
    var bits := 0;
    while bits <= MAX_BITS
      invariant 0 <= bits <= MAX_BITS + 1 && forall b :: 0 <= b < bits ==> blCount[b] == 0
    {
      blCount[bits] := 0;
      bits := bits + 1;
    }
    ghost var lens := FixedLl();
    NoneCounted(tree[..], blCount[..], lens);
    var n := SetLengths(tree, blCount, 0, 143, 8, lens);
    n := SetLengths(tree, blCount, n, 255, 9, lens);
    n := SetLengths(tree, blCount, n, 279, 7, lens);
    n := SetLengths(tree, blCount, n, 287, 8, lens);
    FixedKraft();
    AllCounted(tree[..], blCount[..], lens);
    GenCodes(tree, L_CODES + 1, blCount);
  }

  lemma NoneCounted(tree: seq<CtData>, bl: seq<nat>, lens: seq<nat>)
    requires |bl| == MAX_BITS + 1 && |lens| <= |tree| && forall b :: 0 <= b < |bl| ==> bl[b] == 0
    ensures Counted(tree, bl, lens, 0)
  {
  }

  lemma AllCounted(tree: seq<CtData>, bl: seq<nat>, lens: seq<nat>)
    requires Counted(tree, bl, lens, |lens|) && forall i :: 0 <= i < |lens| ==> lens[i] > 0
    ensures |bl| == MAX_BITS + 1 && CountsAre(bl, lens) && Lens(tree, |lens|) == lens
  {
    NoZero(lens, |lens|);
  }

  lemma {:induction false} NoZero(lens: seq<nat>, n: nat)
    requires n <= |lens| && forall i :: 0 <= i < |lens| ==> lens[i] > 0
    ensures CountTo(lens, 0, n) == 0
  {
    if n > 0 { NoZero(lens, n - 1); }
  }

  // With equal lengths, the code of a symbol is its number reversed.
  lemma {:induction false} EqualStart(lens: seq<nat>, M: nat, L: nat, s: nat, n: nat)
    requires LengthsFit(lens, M) && 0 < L <= M && n <= |lens| && forall i :: 0 <= i < |lens| ==> lens[i] == L
    ensures StartTo(lens, M, L, s, n) == (if s < n then s else n) * Pow2(M - L)
  {
    if n > 0 {
      EqualStart(lens, M, L, s, n - 1);
      Distribute(n - 1, 1, Pow2(M - L));
    }
  }

  lemma FixedDistCode(n: nat)
    requires n < D_CODES
    ensures LengthsFit(FixedDd(), MAX_BITS) && Code(FixedDd(), MAX_BITS, n) == Rev(n, 5)
  {
    hide Pow2, Low, Shr, Rev, StartTo;
    EqualStart(FixedDd(), MAX_BITS, 5, n, D_CODES);
    Pow2Positive(10);
    SplitUnique(n * Pow2(10), 10, n, 0);
  }

  lemma Pow2Positive(n: nat)
    ensures Pow2(n) > 0
  {
  }

  method StaticDtree() returns (tree: array<CtData>)
    ensures fresh(tree) && tree.Length == D_CODES && TreeCoded(tree[..], FixedDd())
  {
    hide Code, Rev, Pow2, StartTo;
    tree := new CtData[D_CODES](i => CtData(0, 0));
    var n := 0;
    while n < D_CODES
      invariant 0 <= n <= D_CODES
      invariant forall s :: 0 <= s < n ==> tree[s] == CtData(Rev(s, 5), 5)
    {
      var code := BiReverse(n, 5);
      tree[n] := tree[n].(dl := 5, fc := code);
      n := n + 1;
    }
    forall s | 0 <= s < D_CODES ensures tree[s].fc == Code(FixedDd(), MAX_BITS, s) { FixedDistCode(s); }
  }

  lemma AreMaps(m: CodeMaps)
    requires |m.lengthCode| == 256 && |m.baseLength| == LENGTH_CODES && |m.distCode| == 512 && |m.baseDist| == D_CODES
    requires forall l :: 0 <= l < 256 ==> m.lengthCode[l] == LengthCode(l + MIN_MATCH)
    requires forall c :: 0 <= c < LENGTH_CODES - 1 ==> m.baseLength[c] + MIN_MATCH == CPLENS[c]
    requires forall d: nat :: d < WSIZE ==> DCode(m.distCode, d) == DistCode(d + 1)
    requires forall c :: 0 <= c < D_CODES ==> m.baseDist[c] + 1 == CPDIST[c]
    ensures MapsOK(m)
  {
  }

  method InitMaps() returns (maps: CodeMaps)
    ensures MapsOK(maps)
  {
    hide MapsOK, DCode, LengthCode, DistCode;
    var lengthCode, baseLength := InitLengths();
    var distCode, baseDist := InitDists();
    maps := CodeMaps(lengthCode[..], baseLength[..], distCode[..], baseDist[..]);
    AreMaps(maps);
  }
}
