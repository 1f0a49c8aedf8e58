// The rolling hash of deflate.c, and the chains of positions with equal hashes.
module Hash {
  import opened Powers
  import opened Bits

  const HASH_BITS: nat := 15
  const HASH_SIZE: nat := 0x8000

  // ---- Exclusive or --------------------------------------------------------------------

  function Xor(x: nat, y: nat): nat
    decreases x + y
  {
    if x == 0 && y == 0 then 0 else (x % 2 + y % 2) % 2 + 2 * Xor(x / 2, y / 2)
  }

  // The low bits of the result depend on the low bits of the arguments only.
  lemma {:induction false} XorLow(x: nat, y: nat, n: nat)
    ensures Low(Xor(x, y), n) == Low(Xor(Low(x, n), Low(y, n)), n)
    decreases n
  {
    if n > 0 {
      XorHalf(x, y);
      XorHalf(Low(x, n), Low(y, n));
      LowHalf(x, n);
      LowHalf(y, n);
      XorLow(x / 2, y / 2, n - 1);
    }
  }

  lemma XorHalf(x: nat, y: nat)
    ensures Xor(x, y) % 2 == (x % 2 + y % 2) % 2 && Xor(x, y) / 2 == Xor(x / 2, y / 2)
  {
  }

  lemma LowHalf(x: nat, n: nat)
    requires n > 0
    ensures Low(x, n) % 2 == x % 2 && Low(x, n) / 2 == Low(x / 2, n - 1)
  {
  }

  // With the low bits of one argument and of the result, those of the other
  // argument are determined.
  lemma {:induction false} XorCancel(x: nat, y: nat, z: nat, n: nat)
    requires Low(Xor(x, y), n) == Low(Xor(x, z), n)
    ensures Low(y, n) == Low(z, n)
    decreases n
  {
    hide Xor;
    if n > 0 {
      hide Xor, Low;
      XorHalf(x, y);
      XorHalf(x, z);
      LowHalf(Xor(x, y), n);
      LowHalf(Xor(x, z), n);
      LowHalf(y, n);
      LowHalf(z, n);
      XorCancel(x / 2, y / 2, z / 2, n - 1);
    }
  }

  // ---- The hash ----------------------------------------------------------------------

  // UPDATE_HASH
  function Update(h: nat, c: Byte): (r: nat)
    ensures r < HASH_SIZE
  {
    Pow15();
    Low(Xor(h * 32, c), HASH_BITS)
  }

  // Shifting by five bits: n + 5 low bits come from n low bits.
  lemma ShiftLow(h: nat, g: nat, n: nat)
    requires Low(h, n) == Low(g, n)
    ensures Low(h * 32, n + 5) == Low(g * 32, n + 5)
  {
    Shift5(h, n);
    Shift5(g, n);
  }

  lemma Shift5(h: nat, n: nat)
    ensures Low(h * 32, n + 5) == 32 * Low(h, n)
  {
    hide Low;
    LowTwice(16 * h, n + 4);
    LowTwice(8 * h, n + 3);
    LowTwice(4 * h, n + 2);
    LowTwice(2 * h, n + 1);
    LowTwice(h, n);
  }

  lemma LowTwice(x: nat, n: nat)
    ensures Low(2 * x, n + 1) == 2 * Low(x, n)
  {
    assert (2 * x) / 2 == x && (2 * x) % 2 == 0;
  }

  // What is kept of the hash before.
  lemma UpdateKeeps(h: nat, g: nat, c: Byte, n: nat)
    requires Low(h, n) == Low(g, n) && n + 5 <= HASH_BITS
    ensures Low(Update(h, c), n + 5) == Low(Update(g, c), n + 5)
  {
    hide Low, Xor;
    ShiftLow(h, g, n);
    XorLow(h * 32, c, n + 5);
    XorLow(g * 32, c, n + 5);
    LowLow(Xor(h * 32, c), n + 5, HASH_BITS);
    LowLow(Xor(g * 32, c), n + 5, HASH_BITS);
  }

  // The hash of three bytes.
  function Hash3(a: Byte, b: Byte, c: Byte): (h: nat)
    ensures h < HASH_SIZE
  {
    Update(Update(Update(0, a), b), c)
  }

  // h is the running hash when a and b are the last two bytes.
  predicate Primed(h: nat, a: Byte, b: Byte)
  {
    Low(h, 10) == Low(Update(Update(0, a), b), 10)
  }

  // Older bytes no longer take part in the hash.
  lemma RollOn(h: nat, a: Byte, b: Byte, c: Byte)
    requires Primed(h, a, b)
    ensures Update(h, c) == Hash3(a, b, c) && Primed(Update(h, c), b, c)
  {
    hide Low, Xor;
    var g := Update(Update(0, a), b);
    UpdateKeeps(h, g, c, 10);
    LowSame(Update(h, c));
    LowSame(Update(g, c));
    // the low five bits of what comes before b do not matter for (b, c)
    NoBitsLeft(Update(0, a));
    UpdateKeeps(Update(0, a), 0, b, 0);
    UpdateKeeps(g, Update(0, b), c, 5);
  }

  lemma NoBitsLeft(h: nat)
    ensures Low(h, 0) == Low(0, 0)
  {
  }

  lemma LowSame(h: nat)
    requires h < HASH_SIZE
    ensures Low(h, HASH_BITS) == h
  {
    hide Low, Pow2;
    Pow15();
    LowSmall(h, HASH_BITS);
  }

  lemma StartHash(h0: nat, a: Byte, b: Byte)
    requires h0 == 0
    ensures Primed(Update(Update(h0, a), b), a, b)
  {
  }

  // deflate_fast starts again with the first byte itself.
  lemma RestartHash(a: Byte, b: Byte)
    ensures Primed(Update(a, b), a, b)
  {
    hide Low, Xor;
    ByteHash(a);
    UpdateKeeps(a, Update(0, a), b, 5);
  }

  lemma ByteHash(a: Byte)
    ensures Low(a, 5) == Low(Update(0, a), 5)
  {
    hide Low, Xor;
    XorZero(a);
    assert 0 * 32 == 0;
    LowLow(a, 5, HASH_BITS);
  }

  lemma {:induction false} XorZero(y: nat)
    ensures Xor(0, y) == y
  {
    if y > 0 { XorZero(y / 2); }
  }

  // Equal hashes and equal first two bytes: the third bytes are equal.
  lemma ThirdByte(a: Byte, b: Byte, c: Byte, d: Byte)
    requires Hash3(a, b, c) == Hash3(a, b, d)
    ensures c == d
  {
    hide Low, Xor;
    var h := Update(Update(0, a), b) * 32;
    LowLow(Xor(h, c), 8, HASH_BITS);
    LowLow(Xor(h, d), 8, HASH_BITS);
    XorCancel(h, c, d, 8);
    Pow8();
    LowSmall(c, 8);
    LowSmall(d, 8);
  }
}
