// decompress (compress42.c): codes are taken out of a buffer that is refilled in
// pieces and shifted at every change of width, strings are unwound from the table
// of prefixes and last bytes.
module LzwDecompress {
  import opened Powers
  import opened Bits
  import opened LzwFormat
  import opened LzwWriter
  import opened LzwCompress

  // ---- Reading a code --------------------------------------------------------------------

  function Word(x: nat, y: nat, z: nat): nat
  {
    Or(Or(x, y * 256), z * 65536)
  }

  lemma ThreeBits(x: Byte, y: Byte, z: Byte)
    ensures BytesBits([x, y, z]) == BitsOf(Word(x, y, z), 24)
  {
    hide Pow2, BitsOf, BytesBits, Or;
    Pow8();
    OrAbove(x, y, 8);
    Pow24();
    OrAbove(x + y * 256, z, 16);
    BitsAdd(x, 8, y, 8);
    BitsAdd(x + y * 256, 16, z, 8);
    OneByte(x);
    OneByte(y);
    OneByte(z);
    assert [x, y, z] == [x] + [y] + [z];
    BytesJoin([x], [y]);
    BytesJoin([x] + [y], [z]);
  }

  // The input macro: three bytes, shifted and masked.
  lemma ReadCode(a: seq<Byte>, insize: nat, o: nat, n: nat)
    requires 9 <= n <= 16 && o + n <= 8 * insize && insize <= |a| && o / 8 + 2 < |a|
    ensures var p := o / 8;
            Low(Shr(Word(a[p], a[p + 1], a[p + 2]), o % 8), n) == Value(BytesBits(a[..insize])[o..o + n])
  {
    hide Pow2, BitsOf, BytesBits, Word, Low, Shr, Value;
    var p, r := o / 8, o % 8;
    var v := Word(a[p], a[p + 1], a[p + 2]);
    ThreeBits(a[p], a[p + 1], a[p + 2]);
    assert a == a[..p] + [a[p], a[p + 1], a[p + 2]] + a[p + 3..];
    BytesJoin(a[..p] + [a[p], a[p + 1], a[p + 2]], a[p + 3..]);
    BytesJoin(a[..p], [a[p], a[p + 1], a[p + 2]]);
    assert a == a[..insize] + a[insize..];
    BytesJoin(a[..insize], a[insize..]);
    BitsJoin(v, r, 24 - r);
    BitsJoin(Shr(v, r), n, 24 - r - n);
    Cutting(BytesBits(a), BytesBits(a[..p]), BitsOf(v, r), BitsOf(Shr(v, r), n), BitsOf(Shr(Shr(v, r), n), 24 - r - n),
      BytesBits(a[p + 3..]), BytesBits(a[..insize]), BytesBits(a[insize..]));
    ValueOfBits(Shr(v, r), n);
  }

  lemma Cutting(all: seq<bool>, x: seq<bool>, y: seq<bool>, z: seq<bool>, u: seq<bool>, v: seq<bool>, b: seq<bool>,
      c: seq<bool>)
    requires all == x + (y + (z + u)) + v && all == b + c && |x + y| + |z| <= |b|
    ensures b[|x| + |y|..|x| + |y| + |z|] == z
  {
    assert all == (x + y) + (z + (u + v));
    assert all[|x| + |y|..|x| + |y| + |z|] == z;
    assert b == all[..|b|];
  }

  // ---- The tables --------------------------------------------------------------------------

  // Every string is that of an earlier code and one byte more.
  ghost predicate Prefixed(prefix: seq<nat>, suffix: seq<Byte>, D: seq<seq<Byte>>)
  {
    |prefix| == |suffix| && FIRST + |D| <= |prefix| && forall i :: 0 <= i < |D| ==> Link(prefix, suffix, D, i)
  }

  predicate Link(prefix: seq<nat>, suffix: seq<Byte>, D: seq<seq<Byte>>, i: nat)
    requires i < |D| && FIRST + i < |prefix| == |suffix|
  {
    var p := prefix[FIRST + i];
    p < FIRST + i && Known(D, p) && D[i] == StrOf(D, p) + [suffix[FIRST + i]]
  }

  lemma NewLink(prefix: seq<nat>, suffix: seq<Byte>, D: seq<seq<Byte>>, code: nat, c: Byte)
    requires Prefixed(prefix, suffix, D) && Known(D, code) && FIRST + |D| < |prefix|
    ensures Prefixed(prefix[FIRST + |D| := code], suffix[FIRST + |D| := c], D + [StrOf(D, code) + [c]])
  {
    var k := FIRST + |D|;
    var D' := D + [StrOf(D, code) + [c]];
    var prefix', suffix' := prefix[k := code], suffix[k := c];
    forall i | 0 <= i < |D'| ensures Link(prefix', suffix', D', i) {
      if i < |D| { assert Link(prefix, suffix, D, i); }
    }
  }

  // An entry that no string uses.
  lemma OtherEntry(prefix: seq<nat>, suffix: seq<Byte>, k: nat, code: nat, c: Byte)
    requires |prefix| == |suffix| && k < |prefix| && FIRST <= |prefix|
    ensures Prefixed(prefix[k := code], suffix[k := c], [])
  {
  }

  // A byte is its own last byte.
  predicate Identity(suffix: seq<Byte>)
  {
    |suffix| >= 256 && forall c: nat :: c < 256 ==> Own(suffix, c)
  }

  predicate Own(suffix: seq<Byte>, c: nat)
    requires c < |suffix|
  {
    suffix[c] == c
  }

  // What a code leads to.
  datatype Step = More | Reset | Failed(end: End)

  // How a run ends.
  datatype Status = NotCompressed | TooManyBits | OtherFormat | Done(end: End)

  class Decompressor {
    const src: ByteSource
    const ibufsiz: nat
    const inbuf: array<Byte>
    const prefixof: array<nat>
    const suffixof: array<Byte>
    var insize: int
    var posbits: nat
    var rsize: nat
    var inbits: int
    var maxbits: nat
    var nBits: nat
    var maxcode: nat
    var freeEnt: nat
    var oldcode: int
    var finchar: Byte
    var out: seq<Byte>
    ghost var st: State
    ghost var laps: int

    ghost predicate Parts()
    {
      ibufsiz > 0 && inbuf.Length == ibufsiz + 64 && prefixof.Length == 65536 && suffixof.Length == 65536
      && inbuf != suffixof && (prefixof as object) !in {inbuf, suffixof, this, src}
      && (src as object) !in {inbuf, suffixof, this}
      && (this as object) !in {inbuf, suffixof}
    }

    // Bits in the buffer and still to come.
    ghost predicate Buffered()
      reads this`insize, this`posbits, this`rsize, src
    {
      src.Valid() && insize <= ibufsiz + 63 && (insize < 0 || posbits > 8 * insize ==> src.pos == |src.data|)
      && (rsize == 0 ==> src.pos == |src.data|)
    }

    ghost function Rest(): seq<bool>
      reads this`insize, this`posbits, inbuf, src
      requires insize <= inbuf.Length && src.Valid()
    {
      if 0 <= posbits <= 8 * insize then BytesBits(inbuf[..insize])[posbits..] + BytesBits(src.data[src.pos..]) else []
    }

    // The tables and variables of the algorithm stand for the state.
    ghost predicate Tables()
      reads this`maxbits, this`nBits, this`maxcode, this`freeEnt, this`oldcode, this`finchar, this`st, prefixof,
              suffixof
      ensures Tables() ==> Good(maxbits, st) && nBits == st.n
    {
      Good(maxbits, st) && nBits == st.n && maxcode == MaxCode(maxbits, nBits) && freeEnt == FreeEnt(st)
      && Prefixed(prefixof[..], suffixof[..], st.D) && Identity(suffixof[..])
      && (if st.mode.First? then oldcode == -1 else oldcode >= 0)
      && (st.mode.Going? ==> Known(st.D, oldcode) && StrOf(st.D, oldcode) == st.last && finchar == st.last[0])
    }

    // Codes lie in groups of eight of their width in the buffer.
    ghost predicate Grouped()
      reads this`posbits, this`nBits, this`st, this`laps
    {
      posbits == st.used * nBits + laps * (8 * nBits)
    }

    ghost predicate Valid()
      reads this`insize, this`posbits, this`rsize, this`maxbits, this`nBits, this`maxcode, this`freeEnt, this`oldcode,
              this`finchar,
        this`st, this`laps, inbuf, prefixof, suffixof, src
    {
      Parts() && Buffered() && Tables() && Grouped()
    }

    // Between two widths, or when the buffer is used up.
    ghost predicate AtGroup()
      reads this`insize, this`posbits, this`rsize, this`maxbits, this`nBits, this`maxcode, this`freeEnt, this`oldcode,
              this`finchar,
        this`st, prefixof, suffixof, src
    {
      Parts() && Buffered() && Tables() && posbits % 8 == 0 && st.used % 8 == 0
    }

    // ---- The buffer --------------------------------------------------------------------

    // What is left moves to the front, and more is read when that is little.
    method Refill(ghost all: Decoded)
      requires AtGroup() && Total(all)
      modifies this`insize, this`posbits, this`rsize, this`inbits, this`laps, inbuf, src
      ensures Valid() && Rest() == old(Rest()) && posbits == 0 && Ready() && Total(all)
      ensures src.pos >= old(src.pos) && (rsize > 0 && inbits <= 0 ==> src.pos > old(src.pos))
    {
      hide BytesBits, Tables, Decode, Good, Prepend;
      Shift();
      if insize < 64 { Fill(); }
      SetLimit();
    }

    method SetLimit()
      requires AtGroup() && posbits == 0 && (rsize > 0 ==> insize >= 0)
      modifies this`inbits, this`laps
      ensures Valid() && Ready()
    {
      hide BytesBits, Tables, Decode, Good, Buffered;
      inbits := if rsize > 0 then (insize - insize % nBits) * 8 else insize * 8 - (nBits - 1);
      laps := -(st.used / 8);
      GroupStart(st.used, nBits);
      if rsize > 0 { WholeGroupsLeft(insize, nBits); }
      WidthBound();
    }

    // How many of the bits may be taken as codes.
    ghost predicate Ready()
      reads this`insize, this`posbits, this`rsize, this`inbits, this`nBits
    {
      nBits > 0 && if rsize > 0 then 0 <= insize && posbits <= inbits <= 8 * insize && inbits % (8 * nBits) == 0
        && 8 * insize < inbits + 8 * nBits
                   else inbits == 8 * insize - (nBits - 1)
    }

    method Shift()
      requires Parts() && Buffered() && posbits % 8 == 0
      modifies this`insize, this`posbits, inbuf
      ensures Buffered() && Rest() == old(Rest()) && posbits == 0
    {
      hide BytesBits;
      var o := posbits / 8;
      var e := insize - o;
      if e >= 0 { DropBytes(inbuf[..insize], o); }
      MoveDown(o, e);
      insize := e;
      posbits := 0;
    }

    // The bytes behind the first o of them, to the front.
    method MoveDown(o: nat, e: int)
      requires o + e <= inbuf.Length
      modifies inbuf
      ensures e >= 0 ==> inbuf[..e] == old(inbuf[o..o + e])
    {
      ghost var a := inbuf[..];
      var i := 0;
      while i < e
        invariant 0 <= i && (i <= e || i == 0) && forall k :: 0 <= k < i ==> inbuf[k] == a[k + o]
        invariant forall k :: i <= k < |a| ==> inbuf[k] == a[k]
      {
        inbuf[i] := inbuf[i + o];
        i := i + 1;
      }
      if e >= 0 { assert inbuf[..e] == a[o..o + e]; }
    }

    method Fill()
      requires Parts() && Buffered() && posbits == 0 && insize < 64
      modifies this`insize, this`rsize, inbuf, src
      ensures Buffered() && Rest() == old(Rest()) && posbits == 0
      ensures src.pos >= old(src.pos) && insize >= old(insize) && (rsize > 0 ==> insize >= 0 && src.pos > old(src.pos))
    {
      hide BytesBits;
      ghost var p := src.pos;
      var piece := src.Read(ibufsiz);
      rsize := |piece|;
      if insize >= 0 {
        ghost var a, rest := inbuf[..insize], src.data[src.pos..];
        Append(piece);
        assert src.data[p..] == piece + rest;
        PieceJoins(a, piece, rest);
      }
      insize := insize + |piece|;
    }

    method Append(piece: seq<Byte>)
      requires 0 <= insize && insize + |piece| <= inbuf.Length
      modifies inbuf
      ensures inbuf[..insize + |piece|] == old(inbuf[..insize]) + piece
    {
      ghost var a := inbuf[..insize];
      var i := 0;
      while i < |piece|
        invariant 0 <= i <= |piece| && inbuf[..insize + i] == a + piece[..i]
      {
        inbuf[insize + i] := piece[i];
        i := i + 1;
      }
      assert piece[..|piece|] == piece;
    }

    // The input macro.
    method Input() returns (code: nat)
      requires Parts() && Buffered() && 9 <= nBits <= 16 && posbits + nBits <= 8 * insize
      modifies this`posbits
      ensures posbits == old(posbits) + nBits && |old(Rest())| >= nBits && code == Value(old(Rest())[..nBits])
              && Rest() == old(Rest())[nBits..]
      ensures code < Pow2(nBits)
    {
      hide BytesBits, Pow2, Low, Shr, Word, Value;
      var p := posbits / 8;
      code := Low(Shr(Word(inbuf[p], inbuf[p + 1], inbuf[p + 2]), posbits % 8), nBits);
      ReadCode(inbuf[..], insize, posbits, nBits);
      assert inbuf[..][..insize] == inbuf[..insize];
      ghost var x, y := BytesBits(inbuf[..insize]), BytesBits(src.data[src.pos..]);
      assert (x[posbits..] + y)[..nBits] == x[posbits..posbits + nBits];
      assert (x[posbits..] + y)[nBits..] == x[posbits + nBits..] + y;
      posbits := posbits + nBits;
    }

    // The formula that passes over the rest of a group.
    method SkipGroup(ghost used: nat)
      requires Parts() && Buffered() && nBits > 0 && posbits == used * nBits + laps * (8 * nBits)
      requires posbits + Pad(nBits, used) <= 8 * insize || rsize == 0
      modifies this`posbits
      ensures Buffered() && posbits % 8 == 0 && Rest() == Drop(old(Rest()), Pad(nBits, used))
    {
      hide BytesBits, Pad;
      FillUp(posbits, used, laps, nBits);
      ghost var o, k := posbits, Pad(nBits, used);
      ghost var x, y := if insize >= 0 then BytesBits(inbuf[..insize]) else [], BytesBits(src.data[src.pos..]);
      posbits := (posbits - 1) + (nBits * 8 - (posbits - 1 + nBits * 8) % (nBits * 8));
      WholeByte(used, laps, nBits);
      if rsize == 0 { NoMore(src.data); }
      if o <= 8 * insize { SkipBits(x, y, o, k); }
    }

    // ---- Codes --------------------------------------------------------------------------

    constructor (source: ByteSource, size: nat)
      requires size > 0
      ensures Parts() && src == source && ibufsiz == size && insize == 0 && posbits == 0 && rsize == 1 && out == []
      ensures fresh(inbuf) && fresh(prefixof) && fresh(suffixof)
    {
      var b := new Byte[size + 64](_ => 0);
      var p := new nat[65536](_ => 0);
      var x := new Byte[65536](_ => 0);
      src, ibufsiz, inbuf, prefixof, suffixof := source, size, b, p, x;
      insize, posbits, rsize, inbits, maxbits, nBits, maxcode, freeEnt, oldcode, finchar, out := 0, 0, 1, 0, 0, 0, 0,
        0, 0, 0, [];
      st, laps := Init(), 0;
    }

    // The tables and variables at the start.
    method Start()
      requires Parts() && UsualBits(maxbits)
      modifies this`nBits, this`maxcode, this`freeEnt, this`oldcode, this`finchar, this`st, suffixof
      ensures Tables() && st == Init()
    {
      hide Pow2;
      maxcode := Pow2(INIT_BITS) - 1;
      nBits := INIT_BITS;
      oldcode := -1;
      finchar := 0;
      freeEnt := FIRST;
      var code := 255;
      while code >= 0
        invariant -1 <= code <= 255 && forall c :: code < c < 256 ==> suffixof[c] == c
        modifies suffixof
      {
        suffixof[code] := code;
        code := code - 1;
      }
      ghost var suffix := suffixof[..];
      forall c: nat | c < 256 ensures Own(suffix, c) { assert suffixof[c] == c; }
      st := Init();
      InitGood(maxbits);
      TenBits(maxbits);
    }

    // The codes get wider.
    method Widen(ghost all: Decoded)
      requires Valid() && Bumps(maxbits, st) && |Rest()| >= nBits && Total(all)
      requires posbits + Pad(nBits, st.used) <= 8 * insize || rsize == 0
      modifies this`posbits, this`nBits, this`maxcode, this`st
      ensures AtGroup() && Total(all) && nBits == old(nBits) + 1 && |Rest()| <= old(|Rest()|)
    {
      hide Pow2, BytesBits, Pad, Value, Tables, Bumps, Bumped, Prepend;
      SkipGroup(st.used);
      NextWidth();
    }

    method NextWidth()
      requires Tables() && Bumps(maxbits, st)
      modifies this`nBits, this`maxcode, this`st
      ensures Tables() && st == Bumped(old(st)) && nBits == old(nBits) + 1 && st.used == 0
    {
      hide Pow2, Prefixed, Identity, Filled;
      BumpedGood(maxbits, st);
      nBits := nBits + 1;
      maxcode := if nBits == maxbits then Pow2(maxbits) else Pow2(nBits) - 1;
      st := Bumped(st);
    }

    // All that is out and will come out.
    ghost predicate Total(all: Decoded)
      reads this`insize, this`posbits, this`maxbits, this`st, this`out, inbuf, src
    {
      Good(maxbits, st) && insize <= inbuf.Length && src.Valid() && Prepend(out, Decode(maxbits, st, Rest())) == all
    }

    // CLEAR has been read.
    method Clear(ghost all: Decoded)
      requires Parts() && Buffered() && Tables() && !st.mode.First?
               && posbits == (st.used + 1) * nBits + laps * (8 * nBits)
      requires posbits + Pad(nBits, st.used + 1) <= 8 * insize || rsize == 0
      requires Prepend(out, Decode(maxbits, AfterClear(st), Drop(Rest(), Pad(nBits, st.used + 1)))) == all
               && Good(maxbits, AfterClear(st))
      modifies this`posbits, this`nBits, this`maxcode, this`freeEnt, this`st
      ensures AtGroup() && Total(all) && |Rest()| <= old(|Rest()|)
    {
      hide BytesBits, Pad, Decode, Tables, Good, Prepend, Drop, Pow2, AfterClear, Decompressor.Rest;
      DropShorter(Rest(), Pad(nBits, st.used + 1));
      SkipGroup(st.used + 1);
      FirstWidth();
    }

    method FirstWidth()
      requires Parts() && Tables() && !st.mode.First? && Good(maxbits, AfterClear(st))
      modifies this`nBits, this`maxcode, this`freeEnt, this`st
      ensures Tables() && st == AfterClear(old(st)) && st.used == 0
    {
      hide Pow2, Identity, Filled, Prefixed, Good, MaxCode;
      PrefixedNone(prefixof[..], suffixof[..], st.D);
      freeEnt := FIRST - 1;
      nBits := INIT_BITS;
      maxcode := Pow2(INIT_BITS) - 1;
      st := AfterClear(st);
      TenBits(maxbits);
    }

    // The first code is a byte.
    method FirstCode(code: nat)
      requires Parts() && Tables() && st.mode.First? && code < 256 && !Bumps(maxbits, st) && code < Pow2(nBits)
      modifies this`oldcode, this`finchar, this`out, this`st
      ensures Tables() && st == After(maxbits, old(st), code) && out == old(out) + Text(old(st), code)
    {
      hide Pow2;
      AfterGood(maxbits, st, code);
      out := out + [code];
      oldcode := code;
      finchar := code;
      st := After(maxbits, st, code);
    }

    // The string of a code: from its last byte to its first, and out in order.
    method Unwind(incode: nat)
      requires Parts() && Tables() && !st.mode.First? && Takes(st, incode)
      modifies this`finchar, this`out
      ensures out == old(out) + Text(st, incode) && finchar == Text(st, incode)[0]
    {
      hide Pow2, Good;
      var stack: seq<Byte> := [];
      var code: nat := incode;
      if code >= freeEnt {
        stack := [finchar];
        code := oldcode;
      }
      UnwindStart(st, incode, stack, code);
      while code >= 256
        invariant Known(st.D, code) && StrOf(st.D, code) + stack == Text(st, incode)
        modifies {}
        decreases code
      {
        assert Link(prefixof[..], suffixof[..], st.D, code - FIRST);
        MoveByte(st.D, code, prefixof[code], suffixof[code], stack);
        stack := [suffixof[code]] + stack;
        code := prefixof[code];
      }
      assert Own(suffixof[..], code);
      finchar := suffixof[code];
      assert StrOf(st.D, code) == [finchar];
      stack := [finchar] + stack;
      out := out + stack;
    }

    // A string goes out, and a new one is entered.
    method Put(incode: nat)
      requires Parts() && Tables() && !st.mode.First? && !Bumps(maxbits, st) && incode != CLEAR
               && incode <= FreeEnt(st) && incode < Pow2(nBits)
      modifies this`finchar, this`out, this`freeEnt, this`oldcode, this`st, prefixof, suffixof
      ensures Tables() && Takes(old(st), incode) && st == After(maxbits, old(st), incode)
              && out == old(out) + Text(old(st), incode)
    {
      hide Pow2, Good, Prefixed, Identity, StrOf, Text, After;
      AfterGood(maxbits, st, incode);
      Unwind(incode);
      ghost var s0 := st;
      TextKnown(maxbits, st, incode);
      Shorter(maxbits, st);
      if freeEnt < Pow2(maxbits) {
        if st.mode.Going? {
          NewLink(prefixof[..], suffixof[..], st.D, oldcode, finchar);
        } else {
          OtherEntry(prefixof[..], suffixof[..], freeEnt, oldcode, finchar);
        }
        StillIdentity(suffixof[..], freeEnt, finchar);
        prefixof[freeEnt] := oldcode;
        suffixof[freeEnt] := finchar;
        assert prefixof[..] == old(prefixof[..])[freeEnt := oldcode]
               && suffixof[..] == old(suffixof[..])[freeEnt := finchar];
        freeEnt := freeEnt + 1;
      }
      oldcode := incode;
      st := After(maxbits, st, incode);
    }

    // ---- The loops ------------------------------------------------------------------------

    // The codes that may be taken are there, with the rest of their group.
    lemma InReach()
      requires Valid() && Ready() && inbits > posbits
      ensures 9 <= nBits <= 16 && posbits + nBits <= 8 * insize
      ensures posbits + Pad(nBits, st.used) <= 8 * insize || rsize == 0
      ensures posbits + nBits + Pad(nBits, st.used + 1) <= 8 * insize || rsize == 0
      ensures rsize > 0 ==> posbits + nBits <= inbits
    {
      hide BytesBits, Tables, Pad, Pow2;
      if rsize > 0 { GroupsFit(st.used, laps, nBits, inbits); }
    }

    // One code, or a change of width.
    method OneCode(ghost all: Decoded) returns (step: Step)
      requires Valid() && Ready() && Total(all) && inbits > posbits
      modifies this`posbits, this`nBits, this`maxcode, this`freeEnt, this`oldcode, this`finchar, this`st, this`out,
                 prefixof, suffixof
      ensures step.More? ==> Valid() && Ready() && Total(all) && |Rest()| < old(|Rest()|) && posbits > old(posbits)
                             && nBits == old(nBits)
      ensures step.Reset? ==> AtGroup() && Total(all) && |Rest()| <= old(|Rest()|)
                              && (|Rest()| < old(|Rest()|) || nBits > old(nBits))
      ensures Parts() && Buffered() && (step.Failed? ==> all == Decoded(out, step.end))
    {
      hide BytesBits, Pow2, Pad, Value, Decode, Prefixed, Identity, Text, After, Prepend;
      InReach();
      EnoughLeft();
      if freeEnt > maxcode {
        Widen(all);
        step := Reset;
      } else {
        ghost var bits := Rest();
        var code := Input();
        Distribute(st.used, 1, nBits);
        step := Act(code, bits, all);
      }
    }

    // A code has been taken.
    method Act(code: nat, ghost bits: seq<bool>, ghost all: Decoded) returns (step: Step)
      requires Parts() && Buffered() && Tables() && Ready() && !Bumps(maxbits, st)
               && posbits == (st.used + 1) * nBits + laps * (8 * nBits)
      requires posbits + Pad(nBits, st.used + 1) <= 8 * insize || rsize == 0
      requires |bits| >= nBits && code == Value(bits[..nBits]) && code < Pow2(nBits) && Rest() == bits[nBits..]
      requires Prepend(out, Decode(maxbits, st, bits)) == all
      modifies this`posbits, this`nBits, this`maxcode, this`freeEnt, this`oldcode, this`finchar, this`st, this`out,
                 prefixof, suffixof
      ensures step.More? ==> Valid() && Ready() && Total(all) && posbits == old(posbits) && Rest() == old(Rest())
                             && nBits == old(nBits)
      ensures step.Reset? ==> AtGroup() && Total(all) && |Rest()| <= old(|Rest()|)
      ensures Parts() && Buffered() && (step.Failed? ==> all == Decoded(out, step.end))
    {
      hide BytesBits, Pow2, Pad, Value, Decode, Prefixed, Identity, Text, After, Prepend, Bumps, Good, Filled;
      ghost var s0 := st;
      DecodeHere(maxbits, s0, bits, code);
      if oldcode == -1 {
        if code >= 256 {
          NothingMore(out, BadStart);
          return Failed(BadStart);
        }
        FirstCode(code);
      } else if code == CLEAR {
        Clear(all);
        return Reset;
      } else if code > freeEnt {
        NothingMore(out, Corrupt);
        return Failed(Corrupt);
      } else {
        Put(code);
      }
      PrependTwice(old(out), Text(s0, code), Decode(maxbits, st, Rest()));
      AfterUsed(maxbits, s0, code);
      step := More;
    }

    lemma EnoughLeft()
      requires Parts() && Buffered() && posbits + nBits <= 8 * insize
      ensures |Rest()| >= nBits
    {
    }

    // All the codes that may be taken.
    method Codes(ghost all: Decoded) returns (step: Step)
      requires Valid() && Ready() && Total(all) && posbits == 0
      modifies this`posbits, this`nBits, this`maxcode, this`freeEnt, this`oldcode, this`finchar, this`st, this`out,
                 prefixof, suffixof
      ensures Parts() && Buffered()
      ensures step.More? && rsize > 0 ==> AtGroup() && Total(all) && |Rest()| <= old(|Rest()|)
                                          && (inbits > 0 ==> |Rest()| < old(|Rest()|))
                                          && nBits == old(nBits)
      ensures step.More? && rsize == 0 ==> all == Decoded(out, Complete)
      ensures step.Reset? ==> AtGroup() && Total(all) && |Rest()| <= old(|Rest()|)
                              && (|Rest()| < old(|Rest()|) || nBits > old(nBits))
      ensures step.Failed? ==> all == Decoded(out, step.end)
    {
      hide BytesBits, Pow2, Decode, Tables, Grouped, Rest, Total, Ready, AtGroup;
      while inbits > posbits
        invariant Valid() && Ready() && Total(all) && |Rest()| <= old(|Rest()|)
                  && (posbits > 0 ==> |Rest()| < old(|Rest()|))
        invariant nBits == old(nBits)
        modifies this`posbits, this`nBits, this`maxcode, this`freeEnt, this`oldcode, this`finchar, this`st, this`out,
                   prefixof, suffixof
        decreases |Rest()|
      {
        step := OneCode(all);
        if !step.More? { return; }
      }
      step := More;
      UsedUp(all);
    }

    lemma UsedUp(all: Decoded)
      requires Valid() && Ready() && Total(all) && inbits <= posbits
      ensures rsize > 0 ==> AtGroup()
      ensures rsize == 0 ==> all == Decoded(out, Complete)
    {
      hide BytesBits, Pow2, Decode, Prefixed, Identity;
      if rsize > 0 {
        AllGroups(st.used, laps, nBits);
      } else {
        NoMore(src.data);
        TooShort(maxbits, st, Rest());
        NothingMore(out, Complete);
      }
    }

    // Until the input is at its end.
    method Run(ghost all: Decoded) returns (end: End)
      requires AtGroup() && Total(all)
      modifies this, inbuf, prefixof, suffixof, src
      ensures all == Decoded(out, end)
    {
      hide BytesBits, Pow2, Decode, Tables, Grouped, Rest, Total, Ready, AtGroup, Valid;
      var again := true;
      end := Complete;
      GroupBound();
      while again
        invariant Parts() && Buffered() && if again then AtGroup() && Total(all) && nBits <= 16 && end == Complete
                  else all == Decoded(out, end)
        decreases if again then 1 else 0, |Rest()|, |src.data| - src.pos, 16 - nBits
      {
        Refill(all);
        var step := Codes(all);
        if AtGroup() { GroupBound(); }
        match step
        case Failed(e) =>
          again := false;
          end := e;
        case Reset =>
        case More =>
          again := rsize > 0;
      }
    }

    lemma GroupBound()
      requires AtGroup()
      ensures Parts() && Buffered() && nBits <= 16
    {
      hide Pow2, Prefixed, Identity;
    }

    lemma WidthBound()
      requires Parts()
      ensures Tables() ==> nBits <= 16
    {
      hide Pow2, Prefixed, Identity;
    }

    // ---- The header -----------------------------------------------------------------------

    // What is in the buffer and what is not are together the input.
    lemma Held()
      requires Parts() && Buffered() && posbits == 0 && insize >= 0 && Rest() == BytesBits(src.data)
      ensures inbuf[..insize] + src.data[src.pos..] == src.data
    {
      hide BytesBits;
      var a, b := inbuf[..insize], src.data[src.pos..];
      assert BytesBits(a)[0..] == BytesBits(a);
      BytesJoin(a, b);
      SameBytes(a + b, src.data);
    }

    method Decompress() returns (status: Status)
      requires Parts() && src.Valid() && src.pos == 0 && insize == 0 && posbits == 0 && rsize == 1 && out == []
      modifies this, inbuf, prefixof, suffixof, src
      ensures Meets(src.data, out, status)
    {
      hide BytesBits, Pow2, Decode, Tables, Grouped, Good;
      AllToCome();
      var more := true;
      while insize < 3 && more
        invariant Parts() && Buffered() && Rest() == BytesBits(src.data) && posbits == 0 && insize >= 0 && out == []
        invariant !more ==> src.pos == |src.data|
        modifies this`insize, this`rsize, inbuf, src
        decreases |src.data| - src.pos, if more then 1 else 0
      {
        Fill();
        more := rsize > 0;
      }
      Held();
      if insize < 3 || inbuf[0] != 0x1f || inbuf[1] != 0x9d {
        assert insize >= 3 ==> src.data[0] == inbuf[0] && src.data[1] == inbuf[1];
        return NotCompressed;
      }
      assert src.data[0] == inbuf[0] && src.data[1] == inbuf[1] && src.data[2] == inbuf[2];
      maxbits := inbuf[2] % 32;
      if maxbits > 16 { return TooManyBits; }
      if maxbits < 10 || inbuf[2] < 128 { return OtherFormat; }
      Start();
      posbits := 3 * 8;
      AfterThree();
      ghost var all := Decode(maxbits, st, Rest());
      assert [] + all.bytes == all.bytes;
      var end := Run(all);
      status := Done(end);
    }

    lemma AllToCome()
      requires src.Valid() && src.pos == 0 && insize == 0 && posbits == 0
      ensures Rest() == BytesBits(src.data)
    {
      NoBytes();
      assert src.data[0..] == src.data;
    }

    lemma AfterThree()
      requires Parts() && Buffered() && insize >= 3 && posbits == 24
               && inbuf[..insize] + src.data[src.pos..] == src.data
      ensures Rest() == BytesBits(src.data[3..])
    {
      hide BytesBits;
      var a, b := inbuf[..insize], src.data[src.pos..];
      DropBytes(a, 3);
      assert src.data[3..] == a[3..] + b;
      BytesJoin(a[3..], b);
    }
  }

  lemma NoMore(data: seq<Byte>)
    ensures BytesBits(data[|data|..]) == []
  {
    NoBytes();
  }

  lemma WholeByte(used: nat, laps: int, n: nat)
    ensures (used * n + laps * (8 * n) + Pad(n, used)) % 8 == 0
  {
    hide Pad;
    GroupIs(n, used);
    assert laps * (8 * n) == 8 * (laps * n);
  }

  lemma DropBytes(a: seq<Byte>, o: nat)
    requires o <= |a|
    ensures BytesBits(a)[8 * o..] == BytesBits(a[o..])
  {
    hide BitsOf;
    assert a == a[..o] + a[o..];
    BytesJoin(a[..o], a[o..]);
  }

  lemma GroupStart(used: nat, n: nat)
    requires used % 8 == 0
    ensures 0 == used * n + (-(used / 8)) * (8 * n)
  {
    var q := used / 8;
    assert used * n == (8 * q) * n == q * (8 * n);
    Distribute(q, -q, 8 * n);
  }

  lemma WholeGroupsLeft(insize: nat, n: nat)
    requires n > 0
    ensures ((insize - insize % n) * 8) % (8 * n) == 0
            && 0 <= (insize - insize % n) * 8 <= 8 * insize < (insize - insize % n) * 8 + 8 * n
  {
    var q := insize / n;
    assert insize - insize % n == q * n;
    assert (q * n) * 8 == q * (8 * n);
    ModUnique(q * (8 * n), q, 0, 8 * n);
  }

  lemma PrefixedNone(prefix: seq<nat>, suffix: seq<Byte>, D: seq<seq<Byte>>)
    requires Prefixed(prefix, suffix, D)
    ensures Prefixed(prefix, suffix, [])
  {
  }

  lemma DropShorter(bits: seq<bool>, k: nat)
    ensures |Drop(bits, k)| <= |bits|
  {
  }

  lemma TenBits(mb: nat)
    requires UsualBits(mb)
    ensures MaxCode(mb, INIT_BITS) == Pow2(INIT_BITS) - 1
  {
  }

  lemma UnwindStart(st: State, incode: nat, stack: seq<Byte>, code: nat)
    requires Takes(st, incode) && (st.mode.Going? ==> st.last != []) && (!st.mode.Going? ==> st.D == [])
    requires if incode == FIRST + |st.D| then Known(st.D, code) && StrOf(st.D, code) == st.last && stack == [st.last[0]]
             else code == incode && stack == []
    ensures Known(st.D, code) && StrOf(st.D, code) + stack == Text(st, incode)
  {
  }

  lemma MoveByte(D: seq<seq<Byte>>, code: nat, p: nat, c: Byte, stack: seq<Byte>)
    requires Known(D, code) && Known(D, p) && StrOf(D, code) == StrOf(D, p) + [c]
    ensures StrOf(D, p) + ([c] + stack) == StrOf(D, code) + stack
  {
    assert StrOf(D, p) + [c] + stack == StrOf(D, p) + ([c] + stack);
  }

  lemma StillIdentity(suffix: seq<Byte>, k: nat, c: Byte)
    requires Identity(suffix) && 256 <= k < |suffix|
    ensures Identity(suffix[k := c])
  {
    var suffix' := suffix[k := c];
    forall i: nat | i < 256 ensures Own(suffix', i) { assert Own(suffix, i); }
  }

  lemma Shorter(mb: nat, st: State)
    requires Good(mb, st)
    ensures FreeEnt(st) <= Pow2(mb) <= 65536
  {
    hide Pow2;
    Pow8();
    Pow2Mono(mb, 16);
    Pow9();
    Pow2Mono(9, mb);
  }

  // The code is known afterwards, with its string; the new string ends with the first byte of that.
  lemma TextKnown(mb: nat, st: State, code: nat)
    requires Good(mb, st) && !Bumps(mb, st) && Takes(st, code) && code <= FreeEnt(st) && code < Pow2(st.n)
             && !st.mode.First?
    ensures var s := After(mb, st, code); var t := Text(st, code);
            t != [] && s.last == t && s.mode.Going? && s.n == st.n && Known(s.D, code) && StrOf(s.D, code) == t
            && s.D == (if st.mode.Going? && FreeEnt(st) < Pow2(mb) then st.D + [st.last + [t[0]]] else st.D)
            && FreeEnt(s) == (if FreeEnt(st) < Pow2(mb) then FreeEnt(st) + 1 else FreeEnt(st))
  {
    hide Pow2;
    Pow9();
    Pow2Mono(st.n, mb);
    Pow2Strict(9, mb);
    TextFilled(st, code);
  }

  lemma GroupsFit(used: nat, laps: int, n: nat, inbits: int)
    requires n > 0 && inbits % (8 * n) == 0 && 0 <= used * n + laps * (8 * n) < inbits
    ensures var o := used * n + laps * (8 * n);
            o + n <= inbits && o + Pad(n, used) <= inbits && o + n + Pad(n, used + 1) <= inbits
  {
    hide Pad;
    var j := inbits / (8 * n);
    CodesBefore(used, laps, n);
    CodesInAll(inbits, j, n);
    GroupsFitIn(used + 8 * laps, j, used, laps, n);
  }

  lemma CodesBefore(used: nat, laps: int, n: nat)
    ensures used * n + laps * (8 * n) == (used + 8 * laps) * n
  {
    Distribute(used, 8 * laps, n);
    MulAssoc(laps, 8, n);
  }

  lemma CodesInAll(inbits: int, j: int, n: nat)
    requires n > 0 && inbits % (8 * n) == 0 && j == inbits / (8 * n)
    ensures inbits == (8 * j) * n
  {
    MulAssoc(j, 8, n);
  }

  lemma GroupsFitIn(k: int, j: int, used: nat, laps: int, n: nat)
    requires n > 0 && k == used + 8 * laps && k * n < (8 * j) * n
    ensures k * n + n <= (8 * j) * n && k * n + Pad(n, used) <= (8 * j) * n
            && k * n + n + Pad(n, used + 1) <= (8 * j) * n
  {
    hide Pad;
    if k >= 8 * j { MulMono(8 * j, k, n); }
    PadIs(k, used, n);
    PadIs(k + 1, used + 1, n);
    Distribute(k, 1, n);
    Upward(k, j, used, laps);
    MulMono(k + (8 - used % 8) % 8, 8 * j, n);
    MulMono(k + 1 + (8 - (used + 1) % 8) % 8, 8 * j, n);
    MulMono(k + 1, 8 * j, n);
  }

  lemma PadIs(k: int, used: nat, n: nat)
    ensures k * n + Pad(n, used) == (k + (8 - used % 8) % 8) * n
  {
    Distribute(k, (8 - used % 8) % 8, n);
  }

  lemma Upward(k: int, j: int, used: nat, laps: int)
    requires k == used + 8 * laps && k < 8 * j
    ensures k + (8 - used % 8) % 8 <= 8 * j && k + 1 + (8 - (used + 1) % 8) % 8 <= 8 * j
  {
  }

  lemma NothingMore(out: seq<Byte>, end: End)
    ensures Prepend(out, Decoded([], end)) == Decoded(out, end)
  {
    assert out + [] == out;
  }

  lemma AfterUsed(mb: nat, st: State, code: nat)
    requires Takes(st, code) && (st.mode.Going? ==> st.last != []) && Filled(st.D)
    ensures After(mb, st, code).used == st.used + 1 && After(mb, st, code).n == st.n
  {
  }

  // What the first code does.
  lemma DecodeHere(mb: nat, st: State, bits: seq<bool>, code: nat)
    requires Good(mb, st) && |bits| >= st.n && !Bumps(mb, st) && code == Value(bits[..st.n]) && code < Pow2(st.n)
    ensures st.mode.First? && code >= 256 ==> Decode(mb, st, bits) == Decoded([], BadStart)
    ensures !st.mode.First? && code == CLEAR ==>
            Good(mb, AfterClear(st)) && Decode(mb, st, bits)
              == Decode(mb, AfterClear(st), Drop(bits[st.n..], Pad(st.n, st.used + 1)))
    ensures !st.mode.First? && code != CLEAR && code > FreeEnt(st) ==> Decode(mb, st, bits) == Decoded([], Corrupt)
    ensures (if st.mode.First? then code < 256 else code != CLEAR && code <= FreeEnt(st)) ==>
            Takes(st, code) && Good(mb, After(mb, st, code))
            && Decode(mb, st, bits) == Prepend(Text(st, code), Decode(mb, After(mb, st, code), bits[st.n..]))
  {
    hide Pow2, Value, Pad, Text, After, Good, Bumps;
    if !st.mode.First? && code == CLEAR { ClearedGood(mb, st); }
    if st.mode.First? && code < 256 { FirstIsLow(mb, st); }
    if if st.mode.First? then code < 256 else code != CLEAR && code <= FreeEnt(st) { AfterGood(mb, st, code); }
  }

  lemma FirstIsLow(mb: nat, st: State)
    requires st.mode.First?
    ensures FreeEnt(st) >= FIRST
  {
  }

  // What is to come out of a file.
  ghost predicate Meets(data: seq<Byte>, out: seq<Byte>, status: Status)
  {
    if |data| < 3 || data[0] != 0x1f || data[1] != 0x9d then status == NotCompressed && out == []
    else
      var mb := data[2] % 32;
      if mb > 16 then status == TooManyBits && out == []
      else if mb < 10 || data[2] < 128 then status == OtherFormat && out == []
      else status.Done? && Good(mb, Init()) && Decode(mb, Init(), BytesBits(data[3..])) == Decoded(out, status.end)
  }

  lemma SkipBits(x: seq<bool>, y: seq<bool>, o: nat, k: nat)
    requires o <= |x|
    ensures o + k <= |x| ==> Drop(x[o..] + y, k) == x[o + k..] + y
    ensures o + k > |x| && y == [] ==> Drop(x[o..] + y, k) == []
  {
  }

  lemma PieceJoins(a: seq<Byte>, piece: seq<Byte>, rest: seq<Byte>)
    ensures BytesBits(a + piece)[0..] + BytesBits(rest) == BytesBits(a)[0..] + BytesBits(piece + rest)
  {
    hide BytesBits;
    BytesJoin(a, piece);
    BytesJoin(piece, rest);
    var x, y, z := BytesBits(a), BytesBits(piece), BytesBits(rest);
    assert x[0..] == x && (x + y)[0..] == x + y && x + (y + z) == (x + y) + z;
  }

  lemma AllGroups(used: nat, laps: int, n: nat)
    requires n > 0 && (used * n + laps * (8 * n)) % (8 * n) == 0
    ensures used % 8 == 0 && (used * n + laps * (8 * n)) % 8 == 0
  {
    var x := used * n + laps * (8 * n);
    var j := x / (8 * n);
    CodesBefore(used, laps, n);
    CodesInAll(x, j, n);
    assert (used + 8 * laps) * n == (8 * j) * n;
    SameFactor(used + 8 * laps, 8 * j, n);
    assert (8 * j) * n == 8 * (j * n);
  }

  lemma SameFactor(a: int, b: int, n: nat)
    requires n > 0 && a * n == b * n
    ensures a == b
  {
    Distribute(a, -b, n);
    if a > b { MulMono(1, a - b, n); }
    if a < b { MulMono(a - b, -1, n); }
  }
}
