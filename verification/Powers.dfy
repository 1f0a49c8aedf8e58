// Powers of two, shifts and masks on natural numbers, bit reversal and finite
// sums.  A C expression x >> n is Shr(x, n), x & ((1 << n) - 1) is Low(x, n)
// and 1 << n is Pow2(n).
module Powers {

  function Pow2(n: nat): (r: nat)
    ensures r >= 1
  {
    if n == 0 then 1 else 2 * Pow2(n - 1)
  }

  function Shr(x: nat, n: nat): nat
    decreases n
  {
    if n == 0 then x else Shr(x / 2, n - 1)
  }

  function Low(x: nat, n: nat): (r: nat)
    ensures r < Pow2(n)
    decreases n
  {
    if n == 0 then 0 else x % 2 + 2 * Low(x / 2, n - 1)
  }

  // The n low bits of x, in the opposite order.
  function Rev(x: nat, n: nat): (r: nat)
    ensures r < Pow2(n)
    decreases n
  {
    if n == 0 then 0 else (if x % 2 == 1 then Pow2(n - 1) else 0) + Rev(x / 2, n - 1)
  }

  lemma MulAssoc(x: int, y: int, z: int)
    ensures x * (y * z) == (x * y) * z
  {
  }

  lemma MulMono(x: int, y: int, z: int)
    requires x <= y && 0 <= z
    ensures x * z <= y * z
  {
  }

  lemma Distribute(x: int, y: int, z: int)
    ensures (x + y) * z == x * z + y * z
  {
  }

  lemma {:induction false} Pow2Add(a: nat, b: nat)
    ensures Pow2(a + b) == Pow2(a) * Pow2(b)
  {
    if a > 0 {
      Pow2Add(a - 1, b);
      MulAssoc(2, Pow2(a - 1), Pow2(b));
    }
  }

  lemma Pow15()
    ensures Pow2(15) == 32768
  {
    assert Pow2(5) == 32;
    Pow2Add(5, 5);
    Pow2Add(5, 10);
  }

  lemma {:induction false} Pow2Mono(a: nat, b: nat)
    requires a <= b
    ensures Pow2(a) <= Pow2(b)
    decreases b - a
  {
    if a < b { Pow2Mono(a + 1, b); }
  }

  lemma {:induction false} Pow2Strict(a: nat, b: nat)
    requires a < b
    ensures Pow2(a) < Pow2(b)
  {
    Pow2Mono(a + 1, b);
  }

  // ---- Shifts and masks --------------------------------------------------------

  lemma SplitStep(x: nat, h: int, p: int, l: int)
    requires x / 2 == h * p + l
    ensures x == h * (2 * p) + (x % 2 + 2 * l)
  {
    assert h * (2 * p) == 2 * (h * p);
  }

  lemma {:induction false} Split(x: nat, n: nat)
    ensures x == Shr(x, n) * Pow2(n) + Low(x, n)
    decreases n
  {
    if n > 0 {
      var h, p, l := Shr(x / 2, n - 1), Pow2(n - 1), Low(x / 2, n - 1);
      assert Shr(x, n) == h && Pow2(n) == 2 * p && Low(x, n) == x % 2 + 2 * l;
      hide Shr, Low, Pow2;
      Split(x / 2, n - 1);
      SplitStep(x, h, p, l);
    }
  }

  // The only way to write x as a multiple of 2^n and a rest below 2^n.
  lemma SplitUnique(x: nat, n: nat, q: nat, r: nat)
    requires r < Pow2(n)
    requires x == q * Pow2(n) + r
    ensures Shr(x, n) == q && Low(x, n) == r
  {
    hide Shr, Low, Pow2;
    Split(x, n);
    var p, h, l := Pow2(n), Shr(x, n), Low(x, n);
    Distribute(h - q, q, p);
    if h > q { MulMono(1, h - q, p); }
    if h < q { MulMono(h - q, -1, p); }
  }

  lemma {:induction false} ShrMono(x: nat, y: nat, n: nat)
    requires x <= y
    ensures Shr(x, n) <= Shr(y, n)
    decreases n
  {
    if n > 0 { ShrMono(x / 2, y / 2, n - 1); }
  }

  lemma {:induction false} ShrShr(x: nat, a: nat, b: nat)
    ensures Shr(Shr(x, a), b) == Shr(x, a + b)
    decreases a
  {
    if a > 0 { ShrShr(x / 2, a - 1, b); }
  }

  // The low a bits of the low b bits are the low a bits.
  lemma {:induction false} LowLow(x: nat, a: nat, b: nat)
    requires a <= b
    ensures Low(Low(x, b), a) == Low(x, a)
    decreases a
  {
    if a > 0 {
      assert Low(x, b) / 2 == Low(x / 2, b - 1) && Low(x, b) % 2 == x % 2;
      LowLow(x / 2, a - 1, b - 1);
    }
  }

  // The bits above the low a of the low a + b.
  lemma {:induction false} ShrLow(x: nat, a: nat, b: nat)
    ensures Shr(Low(x, a + b), a) == Low(Shr(x, a), b)
    decreases a
  {
    if a > 0 {
      assert Low(x, a + b) / 2 == Low(x / 2, a - 1 + b);
      ShrLow(x / 2, a - 1, b);
    }
  }

  lemma ShrBound(x: nat, a: nat, b: nat)
    requires x < Pow2(a + b)
    ensures Shr(x, a) < Pow2(b)
  {
    LowSmall(x, a + b);
    ShrLow(x, a, b);
  }

  // Agreeing on the low a + b bits is agreeing on the low a and on the next b.
  lemma LowEqSplit(x: nat, y: nat, a: nat, b: nat)
    ensures Low(x, a + b) == Low(y, a + b)
            <==> Low(x, a) == Low(y, a) && Low(Shr(x, a), b) == Low(Shr(y, a), b)
  {
    if Low(x, a + b) == Low(y, a + b) {
      ShrLow(x, a, b);
      ShrLow(y, a, b);
      LowLow(x, a, a + b);
      LowLow(y, a, a + b);
    }
    if Low(x, a) == Low(y, a) && Low(Shr(x, a), b) == Low(Shr(y, a), b) { LowEqJoin(x, y, a, b); }
  }

  lemma {:induction false} LowEqJoin(x: nat, y: nat, a: nat, b: nat)
    requires Low(x, a) == Low(y, a) && Low(Shr(x, a), b) == Low(Shr(y, a), b)
    ensures Low(x, a + b) == Low(y, a + b)
    decreases a
  {
    if a > 0 { LowEqJoin(x / 2, y / 2, a - 1, b); }
  }

  lemma {:induction false} LowZero(n: nat)
    ensures Low(0, n) == 0 && Shr(0, n) == 0
    decreases n
  {
    if n > 0 { LowZero(n - 1); }
  }

  lemma LowZeroJoin(x: nat, a: nat, b: nat)
    requires Low(x, a) == 0 && Low(Shr(x, a), b) == 0
    ensures Low(x, a + b) == 0
  {
    LowZero(a);
    LowZero(b);
    LowZero(a + b);
    LowEqJoin(x, 0, a, b);
  }

  lemma {:induction false} LowSmall(x: nat, n: nat)
    requires x < Pow2(n)
    ensures Low(x, n) == x && Shr(x, n) == 0
    decreases n
  {
    if n > 0 { LowSmall(x / 2, n - 1); }
  }

  lemma LowAddMultiple(x: nat, k: nat, n: nat)
    ensures Low(x + k * Pow2(n), n) == Low(x, n)
    ensures Shr(x + k * Pow2(n), n) == Shr(x, n) + k
  {
    Split(x, n);
    Distribute(Shr(x, n), k, Pow2(n));
    SplitUnique(x + k * Pow2(n), n, Shr(x, n) + k, Low(x, n));
  }

  // Comparing the low w bits and the next b bits of x with those of a number i
  // of w + b bits compares all w + b bits; the next b bits may be read out of a
  // wider field.
  lemma PrefixTest(x: nat, i: nat, w: nat, b: nat, wide: nat)
    requires i < Pow2(w + b) && b <= wide
    ensures Low(x, w) == Low(i, w) && Low(Low(Shr(x, w), wide), b) == Shr(i, w) <==> Low(x, w + b) == i
  {
    LowLow(Shr(x, w), b, wide);
    LowSmall(i, w + b);
    LowEqSplit(x, i, w, b);
    ShrLow(i, w, b);
  }

  // Multiples of 2^n, by their low bits.
  lemma {:induction false} AlignedDown(x: nat, a: nat, b: nat)
    requires a <= b && Low(x, b) == 0
    ensures Low(x, a) == 0
    decreases a
  {
    if a > 0 { AlignedDown(x / 2, a - 1, b - 1); }
  }

  lemma AlignedAdd(x: nat, y: nat, n: nat)
    requires Low(x, n) == 0 && Low(y, n) == 0
    ensures Low(x + y, n) == 0 && Shr(x + y, n) == Shr(x, n) + Shr(y, n)
  {
    Split(y, n);
    LowAddMultiple(x, Shr(y, n), n);
  }

  lemma {:induction false} AlignedShr(x: nat, n: nat)
    requires Low(x, n + 1) == 0
    ensures Shr(x, n) == 2 * Shr(x, n + 1)
    decreases n
  {
    if n > 0 { AlignedShr(x / 2, n - 1); }
  }

  lemma AlignedPow2(a: nat, b: nat)
    requires a <= b
    ensures Low(Pow2(b), a) == 0 && Shr(Pow2(b), a) == Pow2(b - a)
  {
    Pow2Add(b - a, a);
    SplitUnique(Pow2(b), a, Pow2(b - a), 0);
  }

  // A multiple of 2^n strictly below another one is at least 2^n below it.
  lemma AlignedGap(x: nat, y: nat, n: nat)
    requires Low(x, n) == 0 && Low(y, n) == 0 && x < y
    ensures x + Pow2(n) <= y
  {
    Split(x, n);
    Split(y, n);
    var a, b := Shr(x, n), Shr(y, n);
    if b <= a { MulMono(b, a, Pow2(n)); }
    MulMono(a + 1, b, Pow2(n));
    Distribute(a, 1, Pow2(n));
  }

  // Two numbers with the same low n bits are at least 2^n apart.
  lemma {:induction false} LowGap(x: nat, y: nat, n: nat)
    requires x < y && Low(x, n) == Low(y, n)
    ensures x + Pow2(n) <= y
    decreases n
  {
    if n > 0 { LowGap(x / 2, y / 2, n - 1); }
  }

  lemma LowAddPow2(x: nat, n: nat)
    ensures Low(x + Pow2(n), n) == Low(x, n) && Shr(x + Pow2(n), n) == Shr(x, n) + 1
  {
    hide Low, Shr, Pow2;
    LowAddMultiple(x, 1, n);
  }

  // w lies in the aligned block of size 2^n that starts at x.
  lemma InBlock(w: nat, x: nat, n: nat)
    requires Low(x, n) == 0
    ensures x <= w < x + Pow2(n) <==> Shr(w, n) == Shr(x, n)
  {
    Split(w, n);
    Split(x, n);
    var a, b := Shr(w, n), Shr(x, n);
    Distribute(b, 1, Pow2(n));
    Distribute(a, 1, Pow2(n));
    if a < b { MulMono(a + 1, b, Pow2(n)); }
    if b < a { MulMono(b + 1, a, Pow2(n)); }
  }

  // Adding one changes the bits from d up only by clearing the d low bits.
  lemma {:induction false} ShrSucc(c: nat, d: nat)
    requires Low(c + 1, d) != 0
    ensures Shr(c + 1, d) == Shr(c, d)
    decreases d
  {
    if d > 0 && c % 2 == 1 { ShrSucc(c / 2, d - 1); }
  }

  // ---- Bit reversal ----------------------------------------------------------

  lemma {:induction false} RevSplit(x: nat, a: nat, b: nat)
    ensures Rev(x, a + b) == Rev(x, a) * Pow2(b) + Rev(Shr(x, a), b)
    decreases a
  {
    if a == 0 {
      assert Rev(x, 0) == 0;
    } else {
      var lo, t := Rev(x / 2, a - 1), if x % 2 == 1 then Pow2(a - 1) else 0;
      assert Rev(x, a) == t + lo && Shr(x, a) == Shr(x / 2, a - 1);
      assert Rev(x, a + b) == (if x % 2 == 1 then Pow2(a - 1 + b) else 0) + Rev(x / 2, a - 1 + b);
      hide Shr, Low, Pow2, Rev;
      RevSplit(x / 2, a - 1, b);
      Pow2Add(a - 1, b);
      Distribute(t, lo, Pow2(b));
    }
  }

  // The high m bits of a reversal are the reversal of the low m bits.
  lemma RevHigh(x: nat, m: nat, b: nat)
    ensures Shr(Rev(x, m + b), b) == Rev(x, m)
    ensures Low(Rev(x, m + b), b) == Rev(Shr(x, m), b)
  {
    RevSplit(x, m, b);
    SplitUnique(Rev(x, m + b), b, Rev(x, m), Rev(Shr(x, m), b));
  }

  lemma {:induction false} RevZero(n: nat)
    ensures Rev(0, n) == 0
  {
    if n > 0 { RevZero(n - 1); }
  }

  lemma {:induction false} RevLow(x: nat, a: nat, b: nat)
    requires a <= b
    ensures Rev(Low(x, b), a) == Rev(x, a)
    decreases a
  {
    if a > 0 {
      assert Low(x, b) / 2 == Low(x / 2, b - 1) && Low(x, b) % 2 == x % 2;
      RevLow(x / 2, a - 1, b - 1);
    }
  }

  lemma RevOneBit(t: nat)
    requires t < 2
    ensures Rev(t, 1) == t && Pow2(1) == 2
  {
    assert Pow2(0) == 1 && Rev(t / 2, 0) == 0;
  }

  // Reversing a number of b + 1 bits whose reversal is known on b bits.
  lemma RevTop(t: nat, low: nat, b: nat)
    requires t < 2 && low < Pow2(b)
    ensures Rev((if t == 1 then Pow2(b) else 0) + low, b + 1) == 2 * Rev(low, b) + t
  {
    hide Shr, Low, Pow2, Rev;
    var y := (if t == 1 then Pow2(b) else 0) + low;
    assert y == t * Pow2(b) + low;
    SplitUnique(y, b, t, low);
    RevLow(y, b, b);
    RevSplit(y, b, 1);
    RevOneBit(t);
  }

  lemma {:induction false} RevRev(x: nat, n: nat)
    requires x < Pow2(n)
    ensures Rev(Rev(x, n), n) == x
    decreases n
  {
    if n > 0 {
      RevRev(x / 2, n - 1);
      RevTop(x % 2, Rev(x / 2, n - 1), n - 1);
    }
  }

  lemma RevInjective(x: nat, y: nat, n: nat)
    requires x < Pow2(n) && y < Pow2(n) && Rev(x, n) == Rev(y, n)
    ensures x == y
  {
    RevRev(x, n);
    RevRev(y, n);
  }

  // Two numbers agree on their low m bits iff their reversals agree on their
  // high m bits.
  lemma RevAgree(x: nat, y: nat, m: nat, b: nat)
    ensures Low(x, m) == Low(y, m) <==> Shr(Rev(x, m + b), b) == Shr(Rev(y, m + b), b)
  {
    RevHigh(x, m, b);
    RevHigh(y, m, b);
    RevLow(x, m, m);
    RevLow(y, m, m);
    if Rev(x, m) == Rev(y, m) { RevInjective(Low(x, m), Low(y, m), m); }
  }

  // ---- Finite sums -------------------------------------------------------------

  function Sum(s: seq<nat>): nat
  {
    if s == [] then 0 else s[|s| - 1] + Sum(s[..|s| - 1])
  }

  lemma {:induction false} SumUpdate(s: seq<nat>, i: nat, v: nat)
    requires i < |s|
    ensures Sum(s[i := v]) == Sum(s) - s[i] + v
  {
    var n := |s| - 1;
    if i == n {
      assert s[i := v][..n] == s[..n];
    } else {
      assert s[i := v][..n] == s[..n][i := v];
      SumUpdate(s[..n], i, v);
    }
  }

  lemma SumTake(s: seq<nat>, i: nat)
    requires i < |s|
    ensures Sum(s[..i + 1]) == Sum(s[..i]) + s[i]
  {
    assert s[..i + 1][..i] == s[..i];
  }

  lemma {:induction false} SumLe(s: seq<nat>, t: seq<nat>)
    requires |s| == |t|
    requires forall i :: 0 <= i < |s| ==> s[i] <= t[i]
    ensures Sum(s) <= Sum(t)
  {
    if s != [] { SumLe(s[..|s| - 1], t[..|t| - 1]); }
  }
}
