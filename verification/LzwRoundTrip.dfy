// compress and decompress together give back the input, however the input of
// either comes in pieces, and wherever the compressor starts anew.
module LzwRoundTrip {
  import opened Powers
  import opened Bits
  import opened LzwFormat
  import opened LzwHash
  import opened LzwCompress
  import opened LzwDecompress

  method Compress(data: seq<Byte>, maxbits: nat, ibufsiz: nat, obufsiz: nat, hsize: nat) returns (file: seq<Byte>)
    requires UsualBits(maxbits) && ibufsiz > 0 && obufsiz >= 2048 && Prime(hsize) && hsize > 65536
    ensures |file| >= 3 && file[..3] == Header(maxbits)
    ensures Good(maxbits, Init()) && Decode(maxbits, Init(), BytesBits(file[3..])) == Decoded(data, Complete)
  {
    hide Decode, Good, Prime, BytesBits, Compressor.Valid, Compressor.AtStart;
    var src := new ByteSource(data);
    var c := new Compressor(maxbits, obufsiz, hsize);
    c.Run(src, ibufsiz);
    file := c.w.out;
  }

  method CompressThenDecompress(data: seq<Byte>, maxbits: nat, ibufsiz: nat, obufsiz: nat, hsize: nat, bufsiz: nat)
    returns (back: seq<Byte>, status: Status)
    requires UsualBits(maxbits) && ibufsiz > 0 && obufsiz >= 2048 && Prime(hsize) && hsize > 65536 && bufsiz > 0
    ensures status == Done(Complete) && back == data
  {
    hide Decode, Good, Prime, BytesBits;
    var file := Compress(data, maxbits, ibufsiz, obufsiz, hsize);
    var src := new ByteSource(file);
    var d := new Decompressor(src, bufsiz);
    status := d.Decompress();
    back := d.out;
    assert file[0] == file[..3][0] && file[1] == file[..3][1] && file[2] == file[..3][2];
  }

  // The bits decide what was compressed.
  lemma OneMeaning(mb: nat, file: seq<Byte>, a: seq<Byte>, b: seq<Byte>, status: Status)
    requires UsualBits(mb) && |file| >= 3 && file[..3] == Header(mb) && Good(mb, Init())
    requires Decode(mb, Init(), BytesBits(file[3..])) == Decoded(a, Complete) && Meets(file, b, status)
    ensures a == b && status == Done(Complete)
  {
    hide Decode, Good, BytesBits, Meets;
    HeaderRead(mb, file, b, status);
  }

  lemma HeaderRead(mb: nat, file: seq<Byte>, out: seq<Byte>, status: Status)
    requires UsualBits(mb) && |file| >= 3 && file[..3] == Header(mb) && Meets(file, out, status)
    ensures status.Done? && Good(mb, Init()) && Decode(mb, Init(), BytesBits(file[3..])) == Decoded(out, status.end)
  {
    hide Decode, Good, BytesBits;
    assert file[0] == file[..3][0] && file[1] == file[..3][1] && file[2] == file[..3][2];
  }

  // ---- A file ----------------------------------------------------------------------------

  // 1f 9d 90 61 02 02 is "aaa": the codes 97 and 257, of nine bits each.
  lemma ThreeLetters()
    ensures Meets([0x1f, 0x9d, 0x90, 0x61, 0x02, 0x02], [97, 97, 97], Done(Complete))
  {
    hide Decode, Good, BytesBits, BitsOf;
    var file: seq<Byte> := [0x1f, 0x9d, 0x90, 0x61, 0x02, 0x02];
    assert file[3..] == [0x61, 0x02, 0x02];
    LetterBits();
    LetterCodes();
  }

  lemma LetterBits()
    ensures BytesBits([0x61, 0x02, 0x02]) == BitsOf(97, 9) + BitsOf(257, 9) + BitsOf(0, 6)
  {
    hide BytesBits, BitsOf;
    BytesJoin([0x61], [0x02]);
    BytesJoin([0x61] + [0x02], [0x02]);
    assert [0x61] + [0x02] + [0x02] == [0x61, 0x02, 0x02];
    OneByte(0x61);
    OneByte(0x02);
    Bits97();
    Bits257();
    BitsTwo();
  }

  lemma Bits97()
    ensures BitsOf(0x61, 8) == [true, false, false, false, false, true, true, false]
    ensures BitsOf(97, 9) == [true, false, false, false, false, true, true, false, false]
  {
  }

  lemma Bits257()
    ensures BitsOf(257, 9) == [true, false, false, false, false, false, false, false, true]
  {
  }

  lemma BitsTwo()
    ensures BitsOf(0x02, 8) == [false, true, false, false, false, false, false, false]
    ensures BitsOf(0, 6) == [false, false, false, false, false, false]
  {
  }

  lemma LetterCodes()
    ensures Good(16, Init())
    ensures Decode(16, Init(), BitsOf(97, 9) + BitsOf(257, 9) + BitsOf(0, 6)) == Decoded([97, 97, 97], Complete)
  {
    hide BitsOf, Pow2, Decode, Value, Good;
    var x, y, z := BitsOf(97, 9), BitsOf(257, 9), BitsOf(0, 6);
    GoodStart();
    OneCode(Init(), 97, y + z);
    var s1 := After(16, Init(), 97);
    assert s1 == State(9, 1, [], [97], Going);
    OneCode(s1, 257, z);
    var s2 := After(16, s1, 257);
    assert Text(s1, 257) == [97, 97];
    TooShort(s2, z);
    assert x + (y + z) == x + y + z;
    assert [97] + ([97, 97] + []) == [97, 97, 97];
  }

  lemma GoodStart()
    ensures Good(16, Init())
  {
    hide Pow2;
    Pow8();
    Pow9();
  }

  lemma TooShort(st: State, bits: seq<bool>)
    requires Good(16, st) && |bits| < st.n
    ensures Decode(16, st, bits) == Decoded([], Complete)
  {
    hide Good;
  }

  lemma OneCode(st: State, code: nat, rest: seq<bool>)
    requires Good(16, st) && st.n == 9 && code < 512 && code != CLEAR && FreeEnt(st) <= 511
    requires code <= FreeEnt(st) && (st.mode.First? ==> code < 256)
    ensures Takes(st, code) && Good(16, After(16, st, code))
    ensures Decode(16, st, BitsOf(code, 9) + rest) == Prepend(Text(st, code), Decode(16, After(16, st, code), rest))
  {
    hide Pow2, Value, BitsOf, Good, After, Text, Bumped, AfterClear;
    Pow9();
    var bits := BitsOf(code, 9) + rest;
    assert bits[..9] == BitsOf(code, 9) && bits[9..] == rest;
    ValueOfBits(code, 9);
    LowSmall(code, 9);
    assert !Bumps(16, st);
    AfterGood(16, st, code);
  }
}
