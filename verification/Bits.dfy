// The bit writer of bits.c and the bit reader of inflate.c (RFC 1951, section
// 3.1.1): values go out and come in with their lowest bit first.
module Bits {
  import opened Powers

  // ---- Bit strings --------------------------------------------------------------------

  // The n low bits of v, lowest first.
  function BitsOf(v: nat, n: nat): (s: seq<bool>)
    ensures |s| == n
    decreases n
  {
    if n == 0 then [] else [v % 2 == 1] + BitsOf(v / 2, n - 1)
  }

  function Value(s: seq<bool>): nat
  {
    if s == [] then 0 else (if s[0] then 1 else 0) + 2 * Value(s[1..])
  }

  lemma {:induction false} ValueOfBits(v: nat, n: nat)
    ensures Value(BitsOf(v, n)) == Low(v, n)
    decreases n
  {
    if n > 0 {
      ValueOfBits(v / 2, n - 1);
      assert BitsOf(v, n)[1..] == BitsOf(v / 2, n - 1);
    }
  }

  lemma {:induction false} ValueBound(s: seq<bool>)
    ensures Value(s) < Pow2(|s|)
  {
    if s != [] { ValueBound(s[1..]); }
  }

  lemma {:induction false} BitsOfValue(s: seq<bool>)
    ensures BitsOf(Value(s), |s|) == s
  {
    if s != [] { BitsOfValue(s[1..]); }
  }

  // The first n bits of a string are the low n bits of its value, the rest is
  // the value shifted down.
  lemma {:induction false} ValueSplit(s: seq<bool>, n: nat)
    requires n <= |s|
    ensures Low(Value(s), n) == Value(s[..n]) && Shr(Value(s), n) == Value(s[n..])
    decreases n
  {
    if n == 0 {
      assert s[..0] == [] && s[0..] == s;
    } else {
      ValueSplit(s[1..], n - 1);
      assert s[..n][1..] == s[1..][..n - 1] && s[n..] == s[1..][n - 1..];
    }
  }

  lemma {:induction false} BitsJoin(v: nat, m: nat, n: nat)
    ensures BitsOf(v, m + n) == BitsOf(v, m) + BitsOf(Shr(v, m), n)
    decreases m
  {
    if m == 0 {
      assert BitsOf(v, 0) == [];
    } else {
      BitsJoin(v / 2, m - 1, n);
    }
  }

  lemma {:induction false} BitsLow(v: nat, n: nat, k: nat)
    requires n <= k
    ensures BitsOf(Low(v, k), n) == BitsOf(v, n)
    decreases n
  {
    if n > 0 {
      assert Low(v, k) / 2 == Low(v / 2, k - 1) && Low(v, k) % 2 == v % 2;
      BitsLow(v / 2, n - 1, k - 1);
    }
  }

  // Two numbers side by side.
  lemma BitsAdd(x: nat, m: nat, y: nat, n: nat)
    requires x < Pow2(m)
    ensures BitsOf(x + y * Pow2(m), m + n) == BitsOf(x, m) + BitsOf(y, n)
  {
    hide Low, Shr, Pow2, BitsOf;
    SplitUnique(x + y * Pow2(m), m, y, x);
    BitsJoin(x + y * Pow2(m), m, n);
    BitsLow(x + y * Pow2(m), m, m);
  }

  // Bitwise or.
  function Or(x: nat, y: nat): nat
    decreases x + y
  {
    if x == 0 && y == 0 then 0
    else (if x % 2 == 1 || y % 2 == 1 then 1 else 0) + 2 * Or(x / 2, y / 2)
  }

  lemma {:induction false} OrZero(y: nat)
    ensures Or(0, y) == y
  {
    if y > 0 { OrZero(y / 2); }
  }

  // Or-ing in bits above those of x adds them.
  lemma {:induction false} OrAbove(x: nat, y: nat, n: nat)
    requires x < Pow2(n)
    ensures Or(x, y * Pow2(n)) == x + y * Pow2(n)
    decreases n
  {
    if n == 0 {
      OrZero(y);
    } else {
      var p := Pow2(n - 1);
      assert y * (2 * p) == 2 * (y * p);
      var z := y * p;
      OrAbove(x / 2, y, n - 1);
      assert (2 * z) / 2 == z && (2 * z) % 2 == 0;
    }
  }

  // ---- Bytes ------------------------------------------------------------------------

  type Byte = x: nat | x < 256

  function BytesBits(bytes: seq<Byte>): (s: seq<bool>)
    ensures |s| == 8 * |bytes|
  {
    if bytes == [] then [] else BytesBits(bytes[..|bytes| - 1]) + BitsOf(bytes[|bytes| - 1], 8)
  }

  lemma {:induction false} BytesJoin(a: seq<Byte>, b: seq<Byte>)
    ensures BytesBits(a + b) == BytesBits(a) + BytesBits(b)
  {
    hide BitsOf;
    if b == [] {
      assert a + b == a;
    } else {
      var n := |b| - 1;
      assert (a + b)[..|a + b| - 1] == a + b[..n];
      BytesJoin(a, b[..n]);
    }
  }

  lemma OneByte(x: Byte)
    ensures BytesBits([x]) == BitsOf(x, 8)
  {
    assert [x][..0] == [];
  }

  lemma Pow8()
    ensures Pow2(8) == 256 && Pow2(16) == 65536
  {
    Pow2Add(8, 8);
  }

  // ---- Writing ----------------------------------------------------------------------

  const BUF_SIZE: nat := 16

  class BitWriter {
    var out: seq<Byte>
    var biBuf: nat
    var biValid: nat

    // The bits above the last valid bit are zero.
    ghost predicate Valid()
      reads this
    {
      biValid <= BUF_SIZE && biBuf < Pow2(biValid)
    }

    // Everything sent so far.
    ghost function Sent(): seq<bool>
      reads this
    {
      BytesBits(out) + BitsOf(biBuf, biValid)
    }

    constructor ()
      ensures Valid() && Sent() == [] && out == []
    {
      out, biBuf, biValid := [], 0, 0;
    }

    method PutByte(x: Byte)
      modifies this`out
      ensures out == old(out) + [x]
    {
      out := out + [x];
    }

    // The low byte first.
    method PutShort(w: nat)
      requires w < 65536
      modifies this`out
      ensures |out| == |old(out)| + 2 && old(out) <= out
      ensures BytesBits(out) == old(BytesBits(out)) + BitsOf(w, 16)
    {
      PutByte(w % 256);
      PutByte(w / 256);
      ShortBits(old(out), w);
      assert out == old(out) + [w % 256] + [w / 256];
    }

    method SendBits(value: nat, length: nat)
      requires Valid() && 1 <= length <= 16 && value < Pow2(length)
      modifies this
      ensures Valid() && Sent() == old(Sent()) + BitsOf(value, length) && old(out) <= out
    {
      hide Low, Shr, Pow2, BitsOf, BytesBits, Or;
      OrAbove(biBuf, value, biValid);
      BitsAdd(biBuf, biValid, value, length);
      Pow8();
      ghost var whole := biBuf + value * Pow2(biValid);
      WholeFits(biBuf, biValid, value, length);
      if biValid > BUF_SIZE - length {
        biBuf := Low(Or(biBuf, value * Pow2(biValid)), 16);
        PutShort(biBuf);
        Spill(old(biBuf), biValid, value, length);
        SpillSent(BytesBits(old(out)), BitsOf(old(biBuf), biValid), BitsOf(value, length), BitsOf(biBuf, 16),
          BitsOf(Shr(value, BUF_SIZE - biValid), biValid + length - BUF_SIZE));
        biBuf := Shr(value, BUF_SIZE - biValid);
        biValid := biValid + length - BUF_SIZE;
      } else {
        biBuf := Or(biBuf, value * Pow2(biValid));
        biValid := biValid + length;
      }
    }

    // Write out the last bits, filled up with zeros to a whole byte.
    method BiWindup()
      requires Valid()
      modifies this
      ensures Valid() && biValid == 0 && Sent() == BytesBits(out) && old(out) <= out
      ensures |Sent()| < |old(Sent())| + 8 && old(Sent()) <= Sent()
      ensures forall i :: |old(Sent())| <= i < |Sent()| ==> !Sent()[i]
    {
      hide Low, Shr, Pow2, BitsOf, BytesBits;
      Pow8();
      EmptyBits();
      if biValid > 8 {
        Pow2Mono(biValid, 16);
        ZeroFill(biBuf, biValid, 16 - biValid);
        PutShort(biBuf);
      } else if biValid > 0 {
        Pow2Mono(biValid, 8);
        ZeroFill(biBuf, biValid, 8 - biValid);
        OneByte(biBuf);
        BytesJoin(out, [biBuf]);
        PutByte(biBuf);
      }
      biBuf, biValid := 0, 0;
    }
  }

  lemma EmptyBits()
    ensures Pow2(0) == 1 && BitsOf(0, 0) == []
  {
  }

  lemma ShortBits(out: seq<Byte>, w: nat)
    requires w < 65536
    ensures BytesBits(out + [w % 256] + [w / 256]) == BytesBits(out) + BitsOf(w, 16)
  {
    hide Low, Shr, Pow2, BitsOf, BytesBits;
    Pow8();
    OneByte(w % 256);
    OneByte(w / 256);
    BytesJoin(out, [w % 256]);
    BytesJoin(out + [w % 256], [w / 256]);
    BitsAdd(w % 256, 8, w / 256, 8);
    assert (w % 256) + (w / 256) * 256 == w;
  }

  lemma WholeFits(x: nat, m: nat, v: nat, n: nat)
    requires x < Pow2(m) && v < Pow2(n)
    ensures x + v * Pow2(m) < Pow2(m + n)
  {
    Pow2Add(n, m);
    MulMono(v + 1, Pow2(n), Pow2(m));
    Distribute(v, 1, Pow2(m));
  }

  // When the buffer overflows, its 16 low bits go out and the rest stays.
  lemma Spill(x: nat, m: nat, v: nat, n: nat)
    requires x < Pow2(m) && v < Pow2(n) && m <= 16 && m + n > 16
    ensures Low(x + v * Pow2(m), 16) < 65536
    ensures BitsOf(Low(x + v * Pow2(m), 16), 16) + BitsOf(Shr(v, 16 - m), m + n - 16) == BitsOf(x, m) + BitsOf(v, n)
    ensures Shr(v, 16 - m) < Pow2(m + n - 16)
  {
    hide Low, Shr, Pow2, BitsOf;
    Pow8();
    var w, k := x + v * Pow2(m), 16 - m;
    SplitUnique(w, m, v, x);
    ShrShr(w, m, k);
    assert m + k == 16;
    assert Shr(w, 16) == Shr(v, k);
    BitsJoin(w, 16, m + n - 16);
    BitsAdd(x, m, v, n);
    BitsLow(w, 16, 16);
    ShrBound(v, k, m + n - 16);
  }

  // Moving the border between what is out and what is buffered changes nothing.
  lemma SpillSent(written: seq<bool>, buffered: seq<bool>, fresh': seq<bool>, spilled: seq<bool>, rest: seq<bool>)
    requires spilled + rest == buffered + fresh'
    ensures (written + spilled) + rest == (written + buffered) + fresh'
  {
    assert (written + spilled) + rest == written + (spilled + rest);
    assert (written + buffered) + fresh' == written + (buffered + fresh');
  }

  lemma ZeroFill(x: nat, m: nat, n: nat)
    requires x < Pow2(m)
    ensures BitsOf(x, m + n) == BitsOf(x, m) + BitsOf(0, n)
    ensures forall i :: 0 <= i < n ==> !BitsOf(0, n)[i]
  {
    BitsAdd(x, m, 0, n);
    ZeroBits(n);
  }

  lemma {:induction false} ZeroBits(n: nat)
    ensures forall i :: 0 <= i < n ==> !BitsOf(0, n)[i]
  {
    if n > 0 { ZeroBits(n - 1); }
  }

  // ---- Reading ----------------------------------------------------------------------

  class BitReader {
    const input: seq<Byte>
    var inptr: nat
    var bb: nat
    var bk: nat

    ghost predicate Valid()
      reads this
      ensures Valid() ==> inptr <= |input| && bk <= 8 * inptr
    {
      inptr <= |input| && bb < Pow2(bk) && bk <= 8 * inptr
    }

    // Everything not yet consumed.
    ghost function Rest(): seq<bool>
      reads this
      requires inptr <= |input|
    {
      BitsOf(bb, bk) + BytesBits(input[inptr..])
    }

    constructor (bytes: seq<Byte>)
      ensures Valid() && input == bytes && Rest() == BytesBits(bytes) && inptr == 0 && bk == 0
    {
      input := bytes;
      inptr, bb, bk := 0, 0, 0;
    }

    // NEEDBITS: fails only at the end of the input.
    method NeedBits(n: nat) returns (ok: bool)
      requires Valid()
      modifies this
      ensures Valid() && Rest() == old(Rest())
      ensures ok <==> n <= |Rest()|
      ensures ok ==> n <= bk && Low(bb, n) == Value(Rest()[..n])
      ensures bk <= old(bk) || bk < n + 8
    {
      hide Low, Shr, Pow2, BitsOf, BytesBits, Or, Value;
      while bk < n
        invariant Valid() && Rest() == old(Rest()) && (bk <= old(bk) || bk < n + 8)
        decreases |input| - inptr
      {
        if inptr == |input| {
          AtEnd(input);
          return false;
        }
        var x := input[inptr];
        TakeByte(input, inptr, bb, bk);
        OrAbove(bb, x, bk);
        bb := Or(bb, x * Pow2(bk));
        bk := bk + 8;
        inptr := inptr + 1;
      }
      ok := true;
      LowOfRest(bb, bk, BytesBits(input[inptr..]), n);
    }

    // DUMPBITS
    method DumpBits(n: nat)
      requires Valid() && n <= bk
      modifies this
      ensures Valid() && Rest() == old(Rest())[n..] && bk == old(bk) - n
    {
      hide Low, Shr, Pow2, BitsOf, BytesBits;
      BitsJoin(bb, n, bk - n);
      ShrBound(bb, n, bk - n);
      bb := Shr(bb, n);
      bk := bk - n;
    }
  }

  lemma AtEnd(input: seq<Byte>)
    ensures BytesBits(input[|input|..]) == []
  {
  }

  lemma TakeByte(input: seq<Byte>, p: nat, b: nat, k: nat)
    requires p < |input| && b < Pow2(k)
    ensures BitsOf(b + input[p] * Pow2(k), k + 8) + BytesBits(input[p + 1..]) == BitsOf(b, k) + BytesBits(input[p..])
    ensures b + input[p] * Pow2(k) < Pow2(k + 8)
  {
    hide Low, Shr, Pow2, BitsOf, BytesBits;
    Pow8();
    assert input[p..] == [input[p]] + input[p + 1..];
    BytesJoin([input[p]], input[p + 1..]);
    OneByte(input[p]);
    BitsAdd(b, k, input[p], 8);
    WholeFits(b, k, input[p], 8);
  }

  lemma LowOfRest(b: nat, k: nat, tail: seq<bool>, n: nat)
    requires n <= k
    ensures Low(b, n) == Value((BitsOf(b, k) + tail)[..n])
  {
    hide Low, Shr, BitsOf, Value;
    BitsJoin(b, n, k - n);
    assert (BitsOf(b, k) + tail)[..n] == BitsOf(b, n);
    ValueOfBits(b, n);
  }

  // ---- Round trip -----------------------------------------------------------------

  // A list of (value, length) pairs as they are sent, and read back.
  function Fields(ps: seq<(nat, nat)>): seq<bool>
  {
    if ps == [] then [] else BitsOf(ps[0].0, ps[0].1) + Fields(ps[1..])
  }

  predicate FieldsFit(ps: seq<(nat, nat)>)
  {
    forall i :: 0 <= i < |ps| ==> 1 <= ps[i].1 <= 16 && ps[i].0 < Pow2(ps[i].1)
  }

  // Fields one by one from the front and from the back.
  lemma FieldsCons(ps: seq<(nat, nat)>)
    requires ps != []
    ensures Fields(ps) == BitsOf(ps[0].0, ps[0].1) + Fields(ps[1..])
  {
  }

  method SendAll(w: BitWriter, ps: seq<(nat, nat)>)
    requires w.Valid() && FieldsFit(ps)
    modifies w
    ensures w.Valid() && w.Sent() == old(w.Sent()) + Fields(ps) && old(w.out) <= w.out
  {
    hide Low, Shr, Pow2, BitsOf, BytesBits, Fields;
    NoFields();
    var i := 0;
    assert ps[0..] == ps;
    while i < |ps|
      invariant 0 <= i <= |ps| && w.Valid() && old(w.out) <= w.out
      invariant w.Sent() + Fields(ps[i..]) == old(w.Sent()) + Fields(ps)
    {
      ghost var sent, head := w.Sent(), BitsOf(ps[i].0, ps[i].1);
      assert ps[i..][1..] == ps[i + 1..];
      FieldsCons(ps[i..]);
      w.SendBits(ps[i].0, ps[i].1);
      assert (sent + head) + Fields(ps[i + 1..]) == sent + (head + Fields(ps[i + 1..]));
      i := i + 1;
    }
    assert ps[|ps|..] == [];
  }

  lemma NoFields()
    ensures Fields([]) == []
  {
  }

  lemma FieldFirst(ps: seq<(nat, nat)>, tail: seq<bool>)
    requires ps != [] && FieldsFit(ps)
    ensures |Fields(ps) + tail| >= ps[0].1
    ensures Value((Fields(ps) + tail)[..ps[0].1]) == ps[0].0
    ensures (Fields(ps) + tail)[ps[0].1..] == Fields(ps[1..]) + tail
  {
    hide Low, Shr, Pow2, BitsOf, Value, Fields;
    var v, n := ps[0].0, ps[0].1;
    FieldsCons(ps);
    var head, more := BitsOf(v, n), Fields(ps[1..]) + tail;
    assert Fields(ps) + tail == head + more;
    assert (head + more)[..n] == head && (head + more)[n..] == more;
    ValueOfBits(v, n);
    SplitUnique(v, n, 0, v);
  }

  // Reading with the same lengths returns the values, whatever follows.
  method ReadAll(r: BitReader, lengths: seq<nat>, ghost ps: seq<(nat, nat)>, ghost tail: seq<bool>)
    returns (ok: bool, values: seq<nat>)
    requires r.Valid() && FieldsFit(ps) && r.Rest() == Fields(ps) + tail
    requires |lengths| == |ps| && forall i :: 0 <= i < |ps| ==> lengths[i] == ps[i].1
    modifies r
    ensures ok && |values| == |ps| && (forall i :: 0 <= i < |ps| ==> values[i] == ps[i].0)
    ensures r.Valid() && r.Rest() == tail
  {
    hide Low, Shr, Pow2, BitsOf, BytesBits, Fields, Value;
    NoFields();
    values := [];
    var i := 0;
    assert ps[0..] == ps;
    while i < |lengths|
      invariant 0 <= i <= |ps| == |lengths| && r.Valid() && r.Rest() == Fields(ps[i..]) + tail
      invariant |values| == i && forall j :: 0 <= j < i ==> values[j] == ps[j].0
    {
      FieldFirst(ps[i..], tail);
      assert ps[i..][1..] == ps[i + 1..];
      ok := r.NeedBits(lengths[i]);
      values := values + [Low(r.bb, lengths[i])];
      r.DumpBits(lengths[i]);
      i := i + 1;
    }
    assert ps[|ps|..] == [];
    ok := true;
  }

  // The whole way: what is sent, wound up and read back is what there was.
  method SendAndReadBack(ps: seq<(nat, nat)>) returns (bytes: seq<Byte>, values: seq<nat>)
    requires FieldsFit(ps)
    ensures |values| == |ps| && (forall i :: 0 <= i < |ps| ==> values[i] == ps[i].0)
    ensures |Fields(ps)| <= 8 * |bytes| < |Fields(ps)| + 8
  {
    hide Low, Shr, Pow2, BitsOf, BytesBits, Fields, Value;
    var w := new BitWriter();
    SendAll(w, ps);
    w.BiWindup();
    bytes := w.out;
    var r := new BitReader(bytes);
    ghost var tail := BytesBits(bytes)[|Fields(ps)|..];
    assert BytesBits(bytes) == Fields(ps) + tail;
    var lengths := seq(|ps|, i requires 0 <= i < |ps| => ps[i].1);
    var ok;
    ok, values := ReadAll(r, lengths, ps, tail);
  }
}
