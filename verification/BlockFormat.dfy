// The bits of a compressed block (RFC 1951, sections 3.2.3 and 3.2.5): length
// and distance codes with their extra bits, and the tables from which trees.c
// and inflate.c work.
module BlockFormat {
  import opened Powers
  import opened Canonical
  import opened TreeCodes
  import opened Bits
  import opened Lz77

  const LITERALS: nat := 256
  const END_BLOCK: nat := 256
  const LENGTH_CODES: nat := 29
  const L_CODES: nat := 286
  const D_CODES: nat := 30

  // ---- The tables of trees.c -----------------------------------------------------------

  const EXTRA_LBITS: seq<nat> :=
    [0, 0, 0, 0, 0, 0, 0, 0, 1, 1, 1, 1, 2, 2, 2, 2, 3, 3, 3, 3, 4, 4, 4, 4, 5, 5, 5, 5, 0]
  const EXTRA_DBITS: seq<nat> :=
    [0, 0, 0, 0, 1, 1, 2, 2, 3, 3, 4, 4, 5, 5, 6, 6, 7, 7, 8, 8, 9, 9, 10, 10, 11, 11, 12, 12, 13, 13]

  // ---- The tables of inflate.c ---------------------------------------------------------

  const CPLENS: seq<nat> :=
    [3, 4, 5, 6, 7, 8, 9, 10, 11, 13, 15, 17, 19, 23, 27, 31,
     35, 43, 51, 59, 67, 83, 99, 115, 131, 163, 195, 227, 258, 0, 0]
  const CPLEXT: seq<nat> :=
    [0, 0, 0, 0, 0, 0, 0, 0, 1, 1, 1, 1, 2, 2, 2, 2, 3, 3, 3, 3, 4, 4, 4, 4, 5, 5, 5, 5, 0, 99, 99]
  const CPDIST: seq<nat> :=
    [1, 2, 3, 4, 5, 7, 9, 13, 17, 25, 33, 49, 65, 97, 129, 193, 257, 385, 513, 769,
     1025, 1537, 2049, 3073, 4097, 6145, 8193, 12289, 16385, 24577]
  const CPDEXT: seq<nat> :=
    [0, 0, 0, 0, 1, 1, 2, 2, 3, 3, 4, 4, 5, 5, 6, 6, 7, 7, 8, 8, 9, 9, 10, 10, 11, 11, 12, 12, 13, 13]

  // The two sides agree on the extra bits, and each code's range ends where the
  // next one begins; only the greatest length has a code of its own.
  lemma LengthTables(c: nat)
    requires c < 29
    ensures CPLEXT[c] == EXTRA_LBITS[c] <= 5 && 3 <= CPLENS[c] <= 258
    ensures c < 27 ==> CPLENS[c + 1] == CPLENS[c] + Pow2(EXTRA_LBITS[c])
    ensures c == 27 ==> CPLENS[c + 1] + 1 == CPLENS[c] + Pow2(EXTRA_LBITS[c])
    ensures c == 28 ==> CPLENS[c] == 258 && EXTRA_LBITS[c] == 0
  {
    hide Pow2;
    PowersOfExtra();
  }

  lemma DistTables(c: nat)
    requires c < 30
    ensures CPDEXT[c] == EXTRA_DBITS[c] <= 13 && 1 <= CPDIST[c]
    ensures c < 29 ==> CPDIST[c + 1] == CPDIST[c] + Pow2(EXTRA_DBITS[c])
    ensures c == 29 ==> CPDIST[c] + Pow2(EXTRA_DBITS[c]) == 32769
  {
    hide Pow2;
    PowersOfExtra();
  }

  lemma PowersOfExtra()
    ensures Pow2(0) == 1 && Pow2(1) == 2 && Pow2(2) == 4 && Pow2(3) == 8 && Pow2(4) == 16 && Pow2(5) == 32
    ensures Pow2(6) == 64 && Pow2(7) == 128 && Pow2(8) == 256 && Pow2(9) == 512 && Pow2(10) == 1024
    ensures Pow2(11) == 2048 && Pow2(12) == 4096 && Pow2(13) == 8192
  {
    Pow2Add(4, 1);
    Pow2Add(5, 1);
    Pow2Add(6, 1);
    Pow2Add(7, 1);
    Pow2Add(8, 1);
    Pow2Add(9, 1);
    Pow2Add(10, 1);
    Pow2Add(11, 1);
    Pow2Add(12, 1);
  }

  // ---- Codes for lengths and distances ----------------------------------------------

  // The last of the bases 0..top that is not above v.
  function Greatest(bases: seq<nat>, top: nat, v: nat): (c: nat)
    requires top < |bases|
    ensures c <= top
  {
    if top == 0 || bases[top] <= v then top else Greatest(bases, top - 1, v)
  }

  function LengthCode(len: nat): (c: nat)
    ensures c < LENGTH_CODES
  {
    Greatest(CPLENS, 28, len)
  }

  function DistCode(dist: nat): (c: nat)
    ensures c < D_CODES
  {
    Greatest(CPDIST, 29, dist)
  }

  lemma {:induction false} GreatestIs(bases: seq<nat>, top: nat, v: nat, c: nat)
    requires c <= top < |bases| && bases[c] <= v && forall i :: c < i <= top ==> v < bases[i]
    ensures Greatest(bases, top, v) == c
  {
    if c < top { GreatestIs(bases, top - 1, v, c); }
  }

  lemma {:induction false} LengthsGrow(c: nat, i: nat)
    requires c < i <= 28
    ensures CPLENS[c] + Pow2(EXTRA_LBITS[c]) <= CPLENS[i] + if c == 27 then 1 else 0
    ensures CPLENS[c] < CPLENS[i]
    decreases i
  {
    hide Pow2;
    LengthTables(c);
    LengthTables(i - 1);
    PowersOfExtra();
    if c < i - 1 { LengthsGrow(c, i - 1); }
  }

  lemma {:induction false} DistsGrow(c: nat, i: nat)
    requires c < i <= 29
    ensures CPDIST[c] + Pow2(EXTRA_DBITS[c]) <= CPDIST[i]
    decreases i
  {
    hide Pow2;
    DistTables(i - 1);
    if c < i - 1 { DistsGrow(c, i - 1); }
  }

  // The code of a length is the one whose range it is in; 258 has its own.
  lemma LengthCodeIs(len: nat, c: nat)
    requires c < 29 && CPLENS[c] <= len < CPLENS[c] + Pow2(EXTRA_LBITS[c]) && (len == 258 ==> c == 28)
    ensures LengthCode(len) == c
  {
    hide Pow2;
    forall i | c < i <= 28 ensures len < CPLENS[i] {
      LengthsGrow(c, i);
      LengthTables(27);
      if c == 27 { assert i == 28; }
    }
    GreatestIs(CPLENS, 28, len, c);
  }

  lemma DistCodeIs(dist: nat, c: nat)
    requires c < 30 && CPDIST[c] <= dist < CPDIST[c] + Pow2(EXTRA_DBITS[c])
    ensures DistCode(dist) == c
  {
    hide Pow2;
    forall i | c < i <= 29 ensures dist < CPDIST[i] { DistsGrow(c, i); }
    GreatestIs(CPDIST, 29, dist, c);
  }

  lemma {:induction false} GreatestSpan(bases: seq<nat>, top: nat, v: nat)
    requires top < |bases| && bases[0] <= v
    ensures var c := Greatest(bases, top, v); bases[c] <= v && (c < top ==> v < bases[c + 1])
  {
    if top > 0 && bases[top] > v { GreatestSpan(bases, top - 1, v); }
  }

  lemma LengthCodeSpan(len: nat)
    requires MIN_MATCH <= len <= MAX_MATCH
    ensures CPLENS[LengthCode(len)] <= len < CPLENS[LengthCode(len)] + Pow2(EXTRA_LBITS[LengthCode(len)])
    ensures len == 258 ==> LengthCode(len) == 28
  {
    hide Pow2;
    GreatestSpan(CPLENS, 28, len);
    LengthTables(LengthCode(len));
    PowersOfExtra();
  }

  lemma DistCodeSpan(dist: nat)
    requires 1 <= dist <= WSIZE
    ensures CPDIST[DistCode(dist)] <= dist < CPDIST[DistCode(dist)] + Pow2(EXTRA_DBITS[DistCode(dist)])
  {
    hide Pow2;
    GreatestSpan(CPDIST, 29, dist);
    DistTables(DistCode(dist));
  }

  // ---- The bits of a block ---------------------------------------------------------

  // A token as it is coded: codes with the values of their extra bits.
  datatype Item = Lit(b: Byte) | Ref(c: nat, x: nat, e: nat, y: nat)

  predicate ItemOK(it: Item)
  {
    it.Ref? ==> it.c < LENGTH_CODES && it.x < Pow2(CPLEXT[it.c]) && it.e < D_CODES && it.y < Pow2(CPDEXT[it.e])
  }

  function TokenOf(it: Item): Token
    requires ItemOK(it)
  {
    match it
    case Lit(b) => Literal(b)
    case Ref(c, x, e, y) => Match(CPLENS[c] + x, CPDIST[e] + y)
  }

  predicate TokenOK(t: Token)
  {
    t.Match? ==> MIN_MATCH <= t.len <= MAX_MATCH && 1 <= t.dist <= WSIZE
  }

  function ItemOf(t: Token): Item
    requires TokenOK(t)
  {
    match t
    case Literal(b) => Lit(b)
    case Match(len, dist) =>
      LengthCodeSpan(len);
      DistCodeSpan(dist);
      Ref(LengthCode(len), len - CPLENS[LengthCode(len)], DistCode(dist), dist - CPDIST[DistCode(dist)])
  }

  lemma ItemRoundTrip(t: Token)
    requires TokenOK(t)
    ensures ItemOK(ItemOf(t)) && TokenOf(ItemOf(t)) == t
  {
    if t.Match? {
      LengthCodeSpan(t.len);
      DistCodeSpan(t.dist);
      LengthTables(LengthCode(t.len));
      DistTables(DistCode(t.dist));
    }
  }

  function CodeBits(lens: seq<nat>, s: nat): seq<bool>
  {
    if s < |lens| && LengthsFit(lens, MAX_BITS) then BitsOf(Code(lens, MAX_BITS, s), lens[s]) else []
  }

  predicate HasCode(lens: seq<nat>, s: nat)
  {
    s < |lens| && lens[s] > 0
  }

  // All codes of the item exist.
  predicate ItemCoded(ll: seq<nat>, dd: seq<nat>, it: Item)
  {
    ItemOK(it)
    && match it
       case Lit(b) => HasCode(ll, b)
       case Ref(c, x, e, y) => HasCode(ll, LITERALS + 1 + c) && HasCode(dd, e)
  }

  predicate AllOK(its: seq<Item>)
  {
    forall i :: 0 <= i < |its| ==> ItemOK(its[i])
  }

  predicate AllCoded(ll: seq<nat>, dd: seq<nat>, its: seq<Item>)
  {
    forall i :: 0 <= i < |its| ==> ItemCoded(ll, dd, its[i])
  }

  function ItemBits(ll: seq<nat>, dd: seq<nat>, it: Item): seq<bool>
    requires ItemOK(it)
  {
    match it
    case Lit(b) => CodeBits(ll, b)
    case Ref(c, x, e, y) =>
      CodeBits(ll, LITERALS + 1 + c) + BitsOf(x, CPLEXT[c]) + CodeBits(dd, e) + BitsOf(y, CPDEXT[e])
  }

  function ItemsBits(ll: seq<nat>, dd: seq<nat>, its: seq<Item>): seq<bool>
    requires AllOK(its)
  {
    if its == [] then [] else ItemBits(ll, dd, its[0]) + ItemsBits(ll, dd, its[1..])
  }

  lemma {:induction false} ItemsJoin(ll: seq<nat>, dd: seq<nat>, a: seq<Item>, b: seq<Item>)
    requires AllOK(a) && AllOK(b)
    ensures AllOK(a + b) && ItemsBits(ll, dd, a + b) == ItemsBits(ll, dd, a) + ItemsBits(ll, dd, b)
  {
    hide ItemBits, ItemOK;
    if a == [] {
      assert a + b == b;
    } else {
      assert (a + b)[1..] == a[1..] + b;
      ItemsJoin(ll, dd, a[1..], b);
      var x, y, z := ItemBits(ll, dd, a[0]), ItemsBits(ll, dd, a[1..]), ItemsBits(ll, dd, b);
      assert x + (y + z) == (x + y) + z;
    }
  }

  function TokensOf(its: seq<Item>): (ts: seq<Token>)
    requires AllOK(its)
    ensures |ts| == |its|
  {
    seq(|its|, i requires 0 <= i < |its| => TokenOf(its[i]))
  }

  function ItemsOf(ts: seq<Token>): (its: seq<Item>)
    requires forall i :: 0 <= i < |ts| ==> TokenOK(ts[i])
    ensures |its| == |ts|
  {
    seq(|ts|, i requires 0 <= i < |ts| => ItemOf(ts[i]))
  }

  lemma ItemsRoundTrip(ts: seq<Token>)
    requires forall i :: 0 <= i < |ts| ==> TokenOK(ts[i])
    ensures AllOK(ItemsOf(ts))
    ensures TokensOf(ItemsOf(ts)) == ts
  {
    hide ItemOK, TokenOf, ItemOf;
    forall i | 0 <= i < |ts| ensures ItemOK(ItemsOf(ts)[i]) && TokenOf(ItemsOf(ts)[i]) == ts[i] {
      ItemRoundTrip(ts[i]);
    }
  }
}
