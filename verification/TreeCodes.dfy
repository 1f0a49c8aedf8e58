// gen_codes and bi_reverse (trees.c, bits.c): giving every symbol of a tree its
// canonical code, bit-reversed so that the first bit of the code is sent first.
module TreeCodes {
  import opened Powers
  import opened Canonical

  const MAX_BITS: nat := 15

  // One tree element.  As in the source, fc holds first the frequency and then
  // the code, and dl first the father and then the length.
  datatype CtData = CtData(fc: nat, dl: nat)

  function Lens(tree: seq<CtData>, n: nat): (ls: seq<nat>)
    requires n <= |tree|
    ensures |ls| == n && forall i :: 0 <= i < n ==> ls[i] == tree[i].dl
  {
    seq(n, i requires 0 <= i < n => tree[i].dl)
  }

  method BiReverse(code: nat, len: nat) returns (r: nat)
    requires 1 <= len
    ensures r == Rev(code, len)
  {
    var c, i := code, 0;
    var res := 0;
    RevZero(0);
    while i < len
      invariant i <= len && c == Shr(code, i) && res == 2 * Rev(code, i)
    {
      ghost var bit := Shr(code, i) % 2;
      RevSplit(code, i, 1);
      ShrShr(code, i, 1);
      RevOneBit(bit);
      assert Rev(c, 1) == Rev(bit, 1);
      res := res + c % 2; // res is even, so this is res |= c & 1
      c, res := c / 2, res * 2;
      i := i + 1;
    }
    r := res / 2;
  }

  // next_code for one more length.
  lemma NextCode(lens: seq<nat>, b: nat)
    requires LengthsFit(lens, MAX_BITS) && Kraft(lens, MAX_BITS) <= Pow2(MAX_BITS)
    requires 1 < b <= MAX_BITS
    ensures Shr(Start(lens, MAX_BITS, b, 0), MAX_BITS - b)
         == 2 * (Shr(Start(lens, MAX_BITS, b - 1, 0), MAX_BITS - (b - 1)) + Count(lens, b - 1))
  {
    hide Low, Shr, Pow2, StartTo, CountTo;
    var x, y := Start(lens, MAX_BITS, b, 0), Start(lens, MAX_BITS, b - 1, 0);
    StartNextLength(lens, MAX_BITS, b - 1);
    LowAddMultiple(y, Count(lens, b - 1), MAX_BITS - (b - 1));
    StartAligned(lens, MAX_BITS, b - 1, 0);
    AlignedShr(x, MAX_BITS - b);
  }

  // A running code value fits in an unsigned short.
  lemma CodeBound(lens: seq<nat>, b: nat, s: nat)
    requires LengthsFit(lens, MAX_BITS) && Kraft(lens, MAX_BITS) <= Pow2(MAX_BITS)
    requires 1 <= b <= MAX_BITS && (b < MAX_BITS || s <= |lens|)
    ensures Shr(Start(lens, MAX_BITS, b, s), MAX_BITS - b) <= 32768
  {
    StartMono(lens, MAX_BITS, b, s, MAX_BITS + 1, 0);
    ShrMono(Start(lens, MAX_BITS, b, s), Pow2(MAX_BITS), MAX_BITS - b);
    AlignedPow2(MAX_BITS - b, MAX_BITS);
    Pow2Mono(b, MAX_BITS);
    Pow15();
  }

  // Handing out one code of length b advances the running value by one.
  lemma CodeStep(lens: seq<nat>, b: nat, n: nat)
    requires LengthsFit(lens, MAX_BITS) && n < |lens| && 0 < lens[n] == b
    ensures Shr(Start(lens, MAX_BITS, b, n + 1), MAX_BITS - b)
         == Shr(Start(lens, MAX_BITS, b, n), MAX_BITS - b) + 1
  {
    StartStep(lens, MAX_BITS, b, n);
    LowAddMultiple(Start(lens, MAX_BITS, b, n), 1, MAX_BITS - b);
  }

  lemma CodeStay(lens: seq<nat>, b: nat, n: nat)
    requires LengthsFit(lens, MAX_BITS) && n < |lens| && lens[n] != b && 0 < b <= MAX_BITS
    ensures Start(lens, MAX_BITS, b, n + 1) == Start(lens, MAX_BITS, b, n)
  {
    StartStep(lens, MAX_BITS, b, n);
  }

  // bl_count describes the lengths of the first n tree elements.
  predicate CountsAre(blCount: seq<nat>, lens: seq<nat>)
  {
    |blCount| == MAX_BITS + 1 && blCount[0] == 0
    && forall b :: 1 <= b <= MAX_BITS ==> blCount[b] == Count(lens, b)
  }

  // The first loop of gen_codes: the first code of each length.
  method FirstCodes(blCount: array<nat>, ghost lens: seq<nat>) returns (nextCode: array<nat>)
    requires LengthsFit(lens, MAX_BITS) && Kraft(lens, MAX_BITS) <= Pow2(MAX_BITS)
    requires CountsAre(blCount[..], lens)
    ensures fresh(nextCode) && nextCode.Length == MAX_BITS + 1
    ensures forall b :: 1 <= b <= MAX_BITS ==> nextCode[b] == Shr(Start(lens, MAX_BITS, b, 0), MAX_BITS - b)
  {
    hide Low, Shr, Rev, Pow2, StartTo, CountTo;
    nextCode := new nat[MAX_BITS + 1];
    var code := 0;
    var bits := 1;
    while bits <= MAX_BITS
      invariant 1 <= bits <= MAX_BITS + 1
      invariant forall b :: 1 <= b < bits ==> nextCode[b] == Shr(Start(lens, MAX_BITS, b, 0), MAX_BITS - b)
      invariant code == if bits == 1 then 0 else Shr(Start(lens, MAX_BITS, bits - 1, 0), MAX_BITS - (bits - 1))
    {
      assert blCount[bits - 1] == blCount[..][bits - 1];
      CodeBound(lens, bits, 0);
      if bits == 1 {
        StartFirst(lens, MAX_BITS);
        LowSmall(0, MAX_BITS - 1);
      } else {
        NextCode(lens, bits);
      }
      code := (code + blCount[bits - 1]) * 2 % 65536;
      nextCode[bits] := code;
      bits := bits + 1;
    }
  }

  // A tree whose first n elements with a length have been given their codes.
  function WithCodes(tree: seq<CtData>, lens: seq<nat>, n: nat): (t: seq<CtData>)
    requires n <= |lens| <= |tree| && LengthsFit(lens, MAX_BITS)
    ensures |t| == |tree|
  {
    seq(|tree|, i requires 0 <= i < |tree| =>
      if i < n && lens[i] > 0 then tree[i].(fc := Code(lens, MAX_BITS, i)) else tree[i])
  }

  method GenCodes(tree: array<CtData>, maxCode: int, blCount: array<nat>)
    requires -1 <= maxCode < tree.Length
    requires LengthsFit(Lens(tree[..], maxCode + 1), MAX_BITS)
    requires Kraft(Lens(tree[..], maxCode + 1), MAX_BITS) <= Pow2(MAX_BITS)
    requires CountsAre(blCount[..], Lens(tree[..], maxCode + 1))
    modifies tree
    ensures tree[..] == old(WithCodes(tree[..], Lens(tree[..], maxCode + 1), maxCode + 1))
  {
    hide Low, Shr, Rev, Pow2, StartTo, CountTo;
    ghost var lens := Lens(tree[..], maxCode + 1);
    ghost var was := tree[..];
    var nextCode := FirstCodes(blCount, lens);
    var n := 0;
    while n <= maxCode
      invariant 0 <= n <= maxCode + 1
      invariant forall b :: 1 <= b <= MAX_BITS ==> nextCode[b] == Shr(Start(lens, MAX_BITS, b, n), MAX_BITS - b)
      invariant tree[..] == WithCodes(was, lens, n)
    {
      assert tree[n] == tree[..][n] == was[n];
      var len := tree[n].dl;
      forall b | 1 <= b <= MAX_BITS && b != len
        ensures Start(lens, MAX_BITS, b, n + 1) == Start(lens, MAX_BITS, b, n)
      {
        CodeStay(lens, b, n);
      }
      if len != 0 {
        CodeStep(lens, len, n);
        CodeBound(lens, len, n + 1);
        var r := BiReverse(nextCode[len], len);
        tree[n] := tree[n].(fc := r);
        nextCode[len] := (nextCode[len] + 1) % 65536;
      }
      assert tree[..] == WithCodes(was, lens, n + 1);
      n := n + 1;
    }
  }
}
