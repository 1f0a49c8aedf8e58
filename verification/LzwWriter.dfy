// The output buffer of compress (compress42.c): codes go into it with their lowest
// bit first, it is written when it is full enough, and the start of the codes of
// one width is kept to fill up their last group.
module LzwWriter {
  import opened Powers
  import opened Bits
  import opened LzwFormat

  // ---- Bits in bytes -----------------------------------------------------------------------

  // The first o bits of the buffer.
  function Content(a: seq<Byte>, o: nat): (s: seq<bool>)
    requires o / 8 < |a|
    ensures |s| == o
  {
    BytesBits(a[..o / 8]) + BitsOf(a[o / 8], o % 8)
  }

  // All bits behind them are zero.
  predicate Tidy(a: seq<Byte>, o: nat)
  {
    o / 8 < |a| && a[o / 8] < Pow2(o % 8) && forall p :: o / 8 < p < |a| ==> a[p] == 0
  }

  lemma OneMore(a: seq<Byte>, o: nat)
    requires Tidy(a, o) && (o + 1) / 8 < |a|
    ensures Tidy(a, o + 1) && Content(a, o + 1) == Content(a, o) + BitsOf(0, 1)
  {
    hide Pow2, BitsOf, BytesBits;
    var q, r := o / 8, o % 8;
    BitsAdd(a[q], r, 0, 1);
    Pow2Mono(r, r + 1);
    if r == 7 {
      assert a[..q + 1] == a[..q] + [a[q]];
      BytesJoin(a[..q], [a[q]]);
      OneByte(a[q]);
      EmptyBits();
      NoBits(a[q + 1]);
    }
  }

  lemma NoBits(v: nat)
    ensures BitsOf(v, 0) == []
  {
  }

  lemma {:induction false} ZeroExtend(a: seq<Byte>, o: nat, k: nat)
    requires Tidy(a, o) && (o + k) / 8 < |a|
    ensures Tidy(a, o + k) && Content(a, o + k) == Content(a, o) + BitsOf(0, k)
    decreases k
  {
    hide Tidy, BitsOf, Content;
    if k == 0 {
      NoBits(0);
    } else {
      StillTidy(a, o, k);
      ZeroExtend(a, o, k - 1);
      OneMore(a, o + k - 1);
      BitsJoin(0, k - 1, 1);
      LowZero(k - 1);
      assert Content(a, o) + BitsOf(0, k - 1) + BitsOf(0, 1) == Content(a, o) + (BitsOf(0, k - 1) + BitsOf(0, 1));
    }
  }

  lemma StillTidy(a: seq<Byte>, o: nat, k: nat)
    requires Tidy(a, o) && (o + k) / 8 < |a| && k > 0
    ensures (o + k - 1) / 8 < |a|
  {
  }

  lemma ShrEight(w: nat)
    ensures Shr(w, 8) == w / 256 && Shr(w, 16) == w / 65536 && Low(w, 8) == w % 256
  {
    hide Pow2, Shr, Low;
    Pow8();
    SplitUnique(w, 8, w / 256, w % 256);
    SplitUnique(w, 16, w / 65536, w % 65536);
  }

  lemma ByteOf(w: nat)
    ensures BytesBits([w % 256]) == BitsOf(w, 8)
  {
    hide Pow2, BitsOf, BytesBits, Low, Shr;
    OneByte(w % 256);
    ShrEight(w);
    BitsLow(w, 8, 8);
  }

  // Three bytes that hold w in their low bits.
  lemma Spread(pre: seq<Byte>, w: nat, k: nat, post: seq<Byte>)
    requires 9 <= k <= 23 && w < Pow2(k) && forall p :: 0 <= p < |post| ==> post[p] == 0
    ensures w / 65536 < 256
    ensures var a := pre + [w % 256, (w / 256) % 256, w / 65536] + post;
            Tidy(a, 8 * |pre| + k) && Content(a, 8 * |pre| + k) == BytesBits(pre) + BitsOf(w, k)
  {
    hide Pow2, BitsOf, BytesBits, Tidy, Content;
    if k < 16 {
      TwoBytes(w, k);
      SpreadTwo(pre, w % 256, w / 256, BitsOf(w, 8), k, post);
    } else {
      ThreeBytes(w, k);
      SpreadThree(pre, w % 256, (w / 256) % 256, w / 65536, BitsOf(w, 8), BitsOf(w / 256, 8), k, post);
    }
  }

  lemma TwoBytes(w: nat, k: nat)
    requires 9 <= k <= 15 && w < Pow2(k)
    ensures w / 65536 == 0 && (w / 256) % 256 == w / 256 < Pow2(k - 8)
    ensures BytesBits([w % 256]) == BitsOf(w, 8) && BitsOf(w, k) == BitsOf(w, 8) + BitsOf(w / 256, k - 8)
  {
    hide Pow2, BitsOf, BytesBits, Shr, Low;
    Pow8();
    ShrEight(w);
    ByteOf(w);
    ShrBound(w, 8, k - 8);
    Pow2Mono(k, 16);
    Pow2Mono(k - 8, 8);
    BitsJoin(w, 8, k - 8);
  }

  lemma ThreeBytes(w: nat, k: nat)
    requires 16 <= k <= 23 && w < Pow2(k)
    ensures w / 65536 < 256 && w / 65536 < Pow2(k - 16)
    ensures BytesBits([w % 256]) == BitsOf(w, 8) && BytesBits([(w / 256) % 256]) == BitsOf(w / 256, 8)
    ensures BitsOf(w, k) == (BitsOf(w, 8) + BitsOf(w / 256, 8)) + BitsOf(w / 65536, k - 16)
  {
    hide Pow2, BitsOf, BytesBits, Shr, Low;
    Pow8();
    ShrEight(w);
    ByteOf(w);
    ByteOf(w / 256);
    ShrBound(w, 16, k - 16);
    Pow2Mono(k - 16, 8);
    BitsJoin(w, 16, k - 16);
    BitsJoin(w, 8, 8);
  }

  lemma SpreadTwo(pre: seq<Byte>, b0: Byte, b1: Byte, x: seq<bool>, k: nat, post: seq<Byte>)
    requires 9 <= k <= 15 && b1 < Pow2(k - 8) && BytesBits([b0]) == x && forall p :: 0 <= p < |post| ==> post[p] == 0
    ensures var a := pre + [b0, b1, 0] + post;
            Tidy(a, 8 * |pre| + k) && Content(a, 8 * |pre| + k) == BytesBits(pre) + (x + BitsOf(b1, k - 8))
  {
    hide Pow2, BitsOf, BytesBits, Shr, Low;
    var a := pre + [b0, b1, 0] + post;
    var o := 8 * |pre| + k;
    assert o / 8 == |pre| + 1 && o % 8 == k - 8;
    assert a[..|pre| + 1] == pre + [b0];
    BytesJoin(pre, [b0]);
    assert (BytesBits(pre) + x) + BitsOf(b1, k - 8) == BytesBits(pre) + (x + BitsOf(b1, k - 8));
  }

  lemma SpreadThree(pre: seq<Byte>, b0: Byte, b1: Byte, b2: Byte, x: seq<bool>, y: seq<bool>, k: nat, post: seq<Byte>)
    requires 16 <= k <= 23 && b2 < Pow2(k - 16) && BytesBits([b0]) == x && BytesBits([b1]) == y
    requires forall p :: 0 <= p < |post| ==> post[p] == 0
    ensures var a := pre + [b0, b1, b2] + post;
            Tidy(a, 8 * |pre| + k) && Content(a, 8 * |pre| + k) == BytesBits(pre) + ((x + y) + BitsOf(b2, k - 16))
  {
    hide Pow2, BitsOf, BytesBits, Shr, Low;
    var a := pre + [b0, b1, b2] + post;
    var o := 8 * |pre| + k;
    assert o / 8 == |pre| + 2 && o % 8 == k - 16;
    assert a[..|pre| + 2] == pre + [b0] + [b1];
    BytesJoin(pre, [b0]);
    BytesJoin(pre + [b0], [b1]);
    var z := BitsOf(b2, k - 16);
    assert ((BytesBits(pre) + x) + y) + z == BytesBits(pre) + ((x + y) + z);
  }

  // Or-ing the three bytes of a shifted code into the buffer.
  lemma OrBytes(v: nat, r: nat, code: nat, n: nat)
    requires r < 8 && v < Pow2(r) && code < Pow2(n) && 9 <= n <= 16
    ensures var i := code * Pow2(r); var w := v + i;
            Or(v, i % 256) == w % 256 && Or(0, (i / 256) % 256) == (w / 256) % 256
              && Or(0, (i / 65536) % 256) == w / 65536
            && w < Pow2(r + n) && w / 65536 < 256 && w % 256 < 256
  {
    hide Pow2, Or, Low, Shr;
    var i := code * Pow2(r);
    WholeFits(v, r, code, n);
    OrZero((i / 256) % 256);
    OrZero((i / 65536) % 256);
    var h, l := Shr(code, 8 - r), Low(code, 8 - r);
    var e := l * Pow2(r);
    Cut(v, r, code, h, l);
    OrAbove(v, l, r);
    Parts(v, e, h, i);
    Pow2Mono(r + n, 24);
    Pow24();
  }

  lemma Pow24()
    ensures Pow2(24) == 16777216
  {
    Pow8();
    Pow2Add(16, 8);
  }

  lemma Cut(v: nat, r: nat, code: nat, h: nat, l: nat)
    requires r < 8 && v < Pow2(r) && h == Shr(code, 8 - r) && l == Low(code, 8 - r)
    ensures code * Pow2(r) == h * 256 + l * Pow2(r) && v + l * Pow2(r) < 256
  {
    hide Pow2, Or, Low, Shr;
    Pow8();
    Split(code, 8 - r);
    Pow2Add(8 - r, r);
    Distribute(h * Pow2(8 - r), l, Pow2(r));
    MulAssoc(h, Pow2(8 - r), Pow2(r));
    WholeFits(v, r, l, 8 - r);
  }

  lemma Parts(v: nat, e: nat, h: nat, i: nat)
    requires v + e < 256 && i == h * 256 + e
    ensures i % 256 == e && (v + i) % 256 == v + e && i / 256 == (v + i) / 256 && i / 65536 == (v + i) / 65536
  {
  }

  function With(a: seq<Byte>, q: nat, x: Byte, y: Byte, z: Byte): seq<Byte>
    requires q + 2 < |a|
  {
    a[q := x][q + 1 := y][q + 2 := z]
  }

  // A code behind the bits of the buffer.
  lemma PutCode(a: seq<Byte>, o: nat, code: nat, n: nat)
    requires Tidy(a, o) && 9 <= n <= 16 && code < Pow2(n) && o / 8 + 2 < |a|
    ensures var q := o / 8; var i := code * Pow2(o % 8);
            var x, y, z := Or(a[q], i % 256), Or(a[q + 1], (i / 256) % 256), Or(a[q + 2], (i / 65536) % 256);
            x < 256 && y < 256 && z < 256 && Tidy(With(a, q, x, y, z), o + n)
            && Content(With(a, q, x, y, z), o + n) == Content(a, o) + BitsOf(code, n)
  {
    hide Pow2, BitsOf, BytesBits, Or, Tidy, Content;
    var q, r := o / 8, o % 8;
    TidyHere(a, o);
    OrBytes(a[q], r, code, n);
    var w := a[q] + code * Pow2(r);
    Spread(a[..q], w, r + n, a[q + 3..]);
    WithIs(a, q, w % 256, (w / 256) % 256, w / 65536);
    ContentIs(a, o);
    BitsAdd(a[q], r, code, n);
    assert (BytesBits(a[..q]) + BitsOf(a[q], r)) + BitsOf(code, n)
           == BytesBits(a[..q]) + (BitsOf(a[q], r) + BitsOf(code, n));
  }

  lemma WithIs(a: seq<Byte>, q: nat, x: Byte, y: Byte, z: Byte)
    requires q + 2 < |a|
    ensures With(a, q, x, y, z) == a[..q] + [x, y, z] + a[q + 3..]
  {
  }

  // ---- Groups ------------------------------------------------------------------------------

  lemma ModUnique(x: int, q: int, r: int, m: nat)
    requires 0 <= r < m && x == q * m + r
    ensures x % m == r && x / m == q
  {
    var q', r' := x / m, x % m;
    Distribute(q, -q', m);
    if q > q' { MulMono(1, q - q', m); }
    if q < q' { MulMono(q - q', -1, m); }
  }

  // Filling up after so many codes of width n.
  lemma FillUp(x: int, used: nat, laps: int, n: nat)
    requires n > 0 && x == used * n + laps * (8 * n) && x >= 0
    ensures (8 * n) - (x - 1 + 8 * n) % (8 * n) - 1 == Pad(n, used)
  {
    hide Pad;
    var u, g := used % 8, used / 8;
    InGroups(used, u, g, n);
    Distribute(g, laps, 8 * n);
    PadIs(n, used, u);
    RoundUp(x, u * n, g + laps, 8 * n);
  }

  lemma PadIs(n: nat, used: nat, u: int)
    requires n > 0 && u == used % 8
    ensures u * n < 8 * n && Pad(n, used) == if u * n == 0 then 0 else 8 * n - u * n
  {
    MulMono(u, 7, n);
    if u > 0 { MulMono(1, u, n); }
    Distribute(8, -u, n);
  }

  lemma InGroups(used: nat, u: nat, g: nat, n: nat)
    requires used == 8 * g + u
    ensures used * n == u * n + g * (8 * n)
  {
    Distribute(8 * g, u, n);
    assert (8 * g) * n == g * (8 * n);
  }

  lemma RoundUp(x: int, e: nat, q: int, m: nat)
    requires x == e + q * m && e < m
    ensures m - (x - 1 + m) % m - 1 == if e == 0 then 0 else m - e
  {
    Distribute(q, 1, m);
    if e == 0 {
      ModUnique(x - 1 + m, q, m - 1, m);
    } else {
      ModUnique(x - 1 + m, q + 1, e - 1, m);
    }
  }

  // The remainder of C, with the sign of the dividend.
  function CMod(x: int, m: nat): int
    requires m > 0
  {
    if x >= 0 then x % m else -((-x) % m)
  }

  function CDiv(x: int, m: nat): int
    requires m > 0
  {
    if x >= 0 then x / m else -((-x) / m)
  }

  lemma CModIs(x: int, m: nat)
    requires m > 0
    ensures x == CDiv(x, m) * m + CMod(x, m)
    ensures x >= 0 ==> CMod(x, m) >= 0
    ensures x < 0 ==> x <= CMod(x, m) <= 0
  {
    if x < 0 {
      var y := -x;
      assert y == (y / m) * m + y % m;
      MulMono(0, y / m, m);
      Distribute(y / m, -(y / m), m);
    }
  }

  // The start of the codes, when the first k bits are gone.
  lemma NewStart(o: int, boff: int, run: int, laps: int, m: nat, k: nat)
    requires m > 0 && boff <= o && k <= o && o - boff == run + laps * m
    ensures -CMod(k - boff, m) <= o - k && (o - k) + CMod(k - boff, m) == run + (laps - CDiv(k - boff, m)) * m
  {
    hide CMod, CDiv;
    CModIs(k - boff, m);
    Distribute(laps, -CDiv(k - boff, m), m);
  }

  // ---- The buffer --------------------------------------------------------------------------

  class CodeWriter {
    const obufsiz: nat
    const outbuf: array<Byte>
    var outbits: nat
    var boff: int
    var bytesOut: nat
    var out: seq<Byte>
    // How many whole groups were between boff and the start of the codes of this width.
    ghost var laps: int

    ghost predicate Valid()
      reads this, outbuf
      ensures Valid() ==> outbits / 8 < outbuf.Length
    {
      obufsiz >= 2048 && outbuf.Length == obufsiz + 2048 && Tidy(outbuf[..], outbits) && bytesOut == |out|
    }

    // used codes of width n were put out since the width began.
    ghost predicate InRun(n: nat, used: nat)
      reads this
    {
      boff <= outbits && outbits - boff == used * n + laps * (8 * n)
    }

    // Everything put out so far.
    ghost function Sent(): seq<bool>
      reads this, outbuf
      requires outbits / 8 < outbuf.Length
    {
      BytesBits(out) + Content(outbuf[..], outbits)
    }

    // The header: two magic bytes, and the limit of the width with the mark of block mode.
    constructor (size: nat, maxbits: nat)
      requires size >= 2048 && maxbits <= 16
      ensures Valid() && fresh(outbuf) && obufsiz == size && out == [] && outbits == 24
      ensures Sent() == BytesBits([0x1f, 0x9d, maxbits + 0x80]) && forall n: nat :: InRun(n, 0)
    {
      hide Pow2, BitsOf, BytesBits;
      var b := new Byte[size + 2048](_ => 0);
      obufsiz, outbuf, outbits, boff, bytesOut, out, laps := size, b, 24, 24, 0, [], 0;
      new;
      outbuf[0] := 0x1f;
      outbuf[1] := 0x9d;
      outbuf[2] := maxbits + 0x80;
      assert outbuf[..3] == [0x1f, 0x9d, maxbits + 0x80];
      NoBits(outbuf[3]);
      NoBytes();
      EmptyBits();
    }

    // The output macro.
    method Output(code: nat, n: nat, ghost used: nat)
      requires Valid() && InRun(n, used) && 9 <= n <= 16 && code < Pow2(n) && outbits / 8 + 2 < outbuf.Length
      modifies this`outbits, outbuf
      ensures Valid() && InRun(n, used + 1) && outbits == old(outbits) + n
      ensures Sent() == old(Sent()) + BitsOf(code, n)
    {
      hide Pow2, BitsOf, BytesBits, Or, Tidy, Content, With;
      var i := code * Pow2(outbits % 8);
      ghost var a := outbuf[..];
      PutCode(a, outbits, code, n);
      OrIn(outbits / 8, i % 256, (i / 256) % 256, (i / 65536) % 256);
      outbits := outbits + n;
      Distribute(used, 1, n);
      ghost var b, c := BytesBits(out), Content(a, old(outbits));
      assert b + (c + BitsOf(code, n)) == (b + c) + BitsOf(code, n);
    }

    // p[0] |= x, p[1] |= y, p[2] |= z
    method OrIn(p: nat, x: Byte, y: Byte, z: Byte)
      requires p + 2 < outbuf.Length && Or(outbuf[p], x) < 256 && Or(outbuf[p + 1], y) < 256
               && Or(outbuf[p + 2], z) < 256
      modifies outbuf
      ensures outbuf[..] == With(old(outbuf[..]), p, Or(old(outbuf[p]), x), Or(old(outbuf[p + 1]), y),
                Or(old(outbuf[p + 2]), z))
    {
      hide Or;
      outbuf[p] := Or(outbuf[p], x);
      outbuf[p + 1] := Or(outbuf[p + 1], y);
      outbuf[p + 2] := Or(outbuf[p + 2], z);
    }

    // The formula that fills up a group of eight codes.
    method FillGroup(n: nat, ghost used: nat)
      requires Valid() && InRun(n, used) && n > 0 && (outbits + Pad(n, used)) / 8 < outbuf.Length
      modifies this`outbits, this`boff, this`laps
      ensures Valid() && outbits == old(outbits) + Pad(n, used) && Sent() == old(Sent()) + BitsOf(0, Pad(n, used))
      ensures forall n': nat :: InRun(n', 0)
    {
      hide Pow2, BitsOf, BytesBits, Tidy, Content, Pad;
      FillUp(outbits - boff, used, laps, n);
      ZeroExtend(outbuf[..], outbits, Pad(n, used));
      ghost var c, o := Content(outbuf[..], outbits), outbits;
      outbits := (outbits - 1) + ((n * 8) - ((outbits - boff - 1 + (n * 8)) % (n * 8)));
      boff := outbits;
      laps := 0;
      assert outbits == o + Pad(n, used);
      assert BytesBits(out) + (c + BitsOf(0, Pad(n, used))) == BytesBits(out) + c + BitsOf(0, Pad(n, used));
    }

    // Write the full part of the buffer.
    method Flush(n: nat, ghost used: nat)
      requires Valid() && InRun(n, used) && n > 0
      modifies this, outbuf
      ensures Valid() && InRun(n, used) && Sent() == old(Sent())
      ensures outbits == if old(outbits) >= obufsiz * 8 then old(outbits) - obufsiz * 8 else old(outbits)
      ensures old(outbits) + 8 < 8 * outbuf.Length ==> outbits < obufsiz * 8
    {
      hide Pow2, BitsOf, BytesBits, Tidy, Content, CMod, CDiv;
      if outbits >= obufsiz * 8 {
        ghost var a := outbuf[..];
        out := out + outbuf[..obufsiz];
        outbits := outbits - obufsiz * 8;
        NewStart(old(outbits), boff, used * n, laps, n * 8, obufsiz * 8);
        laps := laps - CDiv(obufsiz * 8 - boff, n * 8);
        boff := -CMod(obufsiz * 8 - boff, n * 8);
        bytesOut := bytesOut + obufsiz;
        TidyHere(a, old(outbits));
        Slide(outbits / 8 + 1);
        MovedTidy(a, outbuf[..], obufsiz, outbits);
        Moved(old(out), a, outbuf[..], obufsiz, outbits);
      }
    }

    // The k bytes behind the full part, to the front.
    method Slide(k: nat)
      requires k + obufsiz <= outbuf.Length && forall p :: k + obufsiz <= p < outbuf.Length ==> outbuf[p] == 0
      modifies outbuf
      ensures forall p :: 0 <= p < k ==> outbuf[p] == old(outbuf[obufsiz + p])
      ensures forall p :: k <= p < outbuf.Length ==> outbuf[p] == 0
    {
      forall p | 0 <= p < k { outbuf[p] := outbuf[obufsiz + p]; }
      forall p | k <= p < k + obufsiz { outbuf[p] := 0; }
    }

    // The last write, up to the last byte that is begun.
    method Finish()
      requires Valid() && (outbits + 7) / 8 < outbuf.Length
      modifies this`out, this`bytesOut
      ensures BytesBits(out) == old(Sent()) + BitsOf(0, (8 - old(outbits) % 8) % 8)
    {
      hide Pow2, BitsOf, BytesBits, Tidy, Content;
      var k := (outbits + 7) / 8;
      BytesPadded(out, outbuf[..], outbits);
      assert outbuf[..][..k] == outbuf[..k];
      out := out + outbuf[..k];
      bytesOut := bytesOut + k;
    }
  }

  lemma NoBytes()
    ensures BytesBits([]) == []
  {
  }

  lemma TidyHere(a: seq<Byte>, o: nat)
    requires Tidy(a, o)
    ensures o / 8 < |a| && a[o / 8] < Pow2(o % 8) && forall p :: o / 8 < p < |a| ==> a[p] == 0
  {
  }

  lemma ContentIs(a: seq<Byte>, o: nat)
    requires o / 8 < |a|
    ensures Content(a, o) == BytesBits(a[..o / 8]) + BitsOf(a[o / 8], o % 8)
  {
  }

  // The bits of all bytes begun, with zeros up to the end of the last.
  lemma BytesPadded(out: seq<Byte>, a: seq<Byte>, o: nat)
    requires Tidy(a, o) && (o + 7) / 8 < |a|
    ensures BytesBits(out + a[..(o + 7) / 8]) == (BytesBits(out) + Content(a, o)) + BitsOf(0, (8 - o % 8) % 8)
  {
    hide BitsOf, BytesBits, Tidy, Content;
    var k, z := (o + 7) / 8, (8 - o % 8) % 8;
    assert o + z == 8 * k;
    ZeroExtend(a, o, z);
    ContentIs(a, 8 * k);
    NoBits(a[k]);
    BytesJoin(out, a[..k]);
    var b, c := BytesBits(out), Content(a, o);
    assert b + (c + BitsOf(0, z)) == (b + c) + BitsOf(0, z);
  }

  lemma MovedTidy(a: seq<Byte>, b: seq<Byte>, k: nat, o: nat)
    requires Tidy(a, o + 8 * k) && |a| == |b| && o / 8 < |b| && b[o / 8] == a[k + o / 8]
    requires forall p :: o / 8 < p < |b| ==> b[p] == 0
    ensures Tidy(b, o)
  {
  }

  lemma Moved(out: seq<Byte>, a: seq<Byte>, b: seq<Byte>, k: nat, o: nat)
    requires |a| == |b| && (o + 8 * k) / 8 < |a| && forall p :: 0 <= p <= o / 8 ==> b[p] == a[k + p]
    ensures BytesBits(out + a[..k]) + Content(b, o) == BytesBits(out) + Content(a, o + 8 * k)
  {
    hide BitsOf, BytesBits;
    var q := o / 8;
    assert (o + 8 * k) / 8 == q + k && (o + 8 * k) % 8 == o % 8;
    assert a[..q + k] == a[..k] + b[..q];
    BytesJoin(out, a[..k]);
    BytesJoin(a[..k], b[..q]);
    var x, y, z, u := BytesBits(out), BytesBits(a[..k]), BytesBits(b[..q]), BitsOf(b[q], o % 8);
    assert (x + y) + (z + u) == x + ((y + z) + u);
  }
}
