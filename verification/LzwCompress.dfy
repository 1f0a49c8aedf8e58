// compress (compress42.c): the dictionary of the strings met so far, the widening of
// the codes, the watch on the compression ratio, and the reading in pieces.
module LzwCompress {
  import opened Powers
  import opened Bits
  import opened LzwFormat
  import opened LzwHash
  import opened LzwWriter

  const CHECK_GAP: nat := 10000

  // Input that comes in pieces of any size.
  class ByteSource {
    const data: seq<Byte>
    var pos: nat

    ghost predicate Valid()
      reads this
    {
      pos <= |data|
    }

    constructor (d: seq<Byte>)
      ensures Valid() && data == d && pos == 0
    {
      data, pos := d, 0;
    }

    // read: as much as there happens to be, and nothing at the end only.
    method Read(max: nat) returns (piece: seq<Byte>)
      requires Valid() && max > 0
      modifies this
      ensures Valid() && old(pos) <= pos && piece == data[old(pos)..pos] && |piece| <= max
      ensures piece == [] ==> pos == |data|
    {
      if pos == |data| {
        piece := [];
      } else {
        var k: nat :| 1 <= k <= max && pos + k <= |data|;
        piece := data[pos..pos + k];
        pos := pos + k;
      }
    }
  }

  // ---- The two tables ------------------------------------------------------------------

  // The decoder's table is one string behind, until both are full: what it lacks
  // begins like its last string and ends with the first byte to come.
  predicate Tracks(mb: nat, D: seq<seq<Byte>>, ent: nat, st: State)
    requires Known(D, ent)
  {
    if !st.mode.Going? then D == []
    else if |D| == |st.D| + 1 then D[..|st.D|] == st.D && StrOf(D, ent) != []
      && D[|st.D|] == st.last + [StrOf(D, ent)[0]]
    else D == st.D && FIRST + |D| == Limit(mb)
  }

  // Every pair in the dictionary has a code for its string and byte, every code has a pair,
  // and the strings of all codes are different.
  ghost predicate Faithful(dict: map<int, nat>, D: seq<seq<Byte>>)
  {
    (forall c: Byte, e: nat :: Key(c, e) in dict ==> Pairs(dict, D, c, e))
    && (forall k: nat :: FIRST <= k < FIRST + |D| ==> Entered(dict, k)) && Distinct(D)
  }

  ghost predicate Entered(dict: map<int, nat>, k: nat)
  {
    exists c: Byte, e: nat :: Key(c, e) in dict && dict[Key(c, e)] == k
  }

  ghost predicate Distinct(D: seq<seq<Byte>>)
  {
    forall i: nat, j: nat :: Known(D, i) && Known(D, j) && StrOf(D, i) == StrOf(D, j) ==> i == j
  }

  // A code has this string.
  ghost predicate InTable(D: seq<seq<Byte>>, s: seq<Byte>)
  {
    exists k: nat :: Known(D, k) && StrOf(D, k) == s
  }

  // While the string and the next byte are in the table the string grows; when they are not,
  // its code goes out, and it begins anew with the byte; they get a code if the table grows.
  ghost predicate Greedy(D0: seq<seq<Byte>>, put0: seq<Byte>, ent0: nat, grows: bool, c: Byte, D: seq<seq<Byte>>,
                         put: seq<Byte>, ent: nat)
  {
    Known(D0, ent0)
    && var s := StrOf(D0, ent0);
       if InTable(D0, s + [c]) then D == D0 && put == put0 && Known(D, ent) && StrOf(D, ent) == s + [c]
       else ent == c && put == put0 + s && D == D0 + if grows then [s + [c]] else []
  }

  // The code of a string and one byte more is found by the pair.
  lemma PairFound(dict: map<int, nat>, D: seq<seq<Byte>>, c: Byte, e: nat, k: nat)
    requires Faithful(dict, D) && Filled(D) && Known(D, e) && Known(D, k) && StrOf(D, k) == StrOf(D, e) + [c]
    ensures Key(c, e) in dict && dict[Key(c, e)] == k
  {
    hide Key;
    assert |StrOf(D, k)| == |StrOf(D, e)| + 1 > 1;
    assert Entered(dict, k);
    var c': Byte, e': nat :| Key(c', e') in dict && dict[Key(c', e')] == k;
    assert Pairs(dict, D, c', e');
    SameEnds(StrOf(D, e), c, StrOf(D, e'), c');
  }

  // The pair is in the dictionary exactly when its string is in the table.
  lemma OnlyIfFound(dict: map<int, nat>, D: seq<seq<Byte>>, c: Byte, e: nat)
    requires Faithful(dict, D) && Filled(D) && Known(D, e)
    ensures Key(c, e) in dict <==> InTable(D, StrOf(D, e) + [c])
  {
    hide Entered, Distinct, Key;
    if Key(c, e) in dict {
      assert Pairs(dict, D, c, e);
      var k := dict[Key(c, e)];
      assert Known(D, k) && StrOf(D, k) == StrOf(D, e) + [c];
    }
    if InTable(D, StrOf(D, e) + [c]) {
      var k: nat :| Known(D, k) && StrOf(D, k) == StrOf(D, e) + [c];
      PairFound(dict, D, c, e, k);
    }
  }

  lemma SameEnds(a: seq<Byte>, x: Byte, b: seq<Byte>, y: Byte)
    requires a + [x] == b + [y]
    ensures a == b && x == y
  {
    assert a == (a + [x])[..|a|] && b == (b + [y])[..|b|] && x == (a + [x])[|a|] && y == (b + [y])[|b|];
  }

  predicate Pairs(dict: map<int, nat>, D: seq<seq<Byte>>, c: Byte, e: nat)
    requires Key(c, e) in dict
  {
    var k := dict[Key(c, e)];
    Known(D, e) && FIRST <= k < FIRST + |D| && D[k - FIRST] == StrOf(D, e) + [c]
  }

  // How many 256ths of the output make the input; of much input, the parts of 256 bytes of
  // the output, and when there is none of these the greatest number.
  function Ratio(read: int, written: int): (r: int)
    ensures 0 <= read <= 0x007fffff && written > 0 ==> r * written <= read * 256 < (r + 1) * written
    ensures read > 0x007fffff && written >= 256 ==> r * (written / 256) <= read < (r + 1) * (written / 256)
    ensures read > 0x007fffff && 0 < written < 256 ==> r == 0x7fffffff
  {
    if written <= 0 then 0
    else if read > 0x007fffff then
      if written / 256 == 0 then 0x7fffffff
      else
        Quotient(read, written / 256);
        read / (written / 256)
    else
      Quotient(read * 256, written);
      (read * 256) / written
  }

  lemma Quotient(x: int, d: int)
    requires d > 0
    ensures (x / d) * d <= x < (x / d + 1) * d
  {
    var q := x / d;
    assert x == q * d + x % d;
  }

  lemma Enter(dict: map<int, nat>, D: seq<seq<Byte>>, c: Byte, e: nat)
    requires Faithful(dict, D) && Filled(D) && Known(D, e) && Key(c, e) !in dict
    ensures Faithful(dict[Key(c, e) := FIRST + |D|], D + [StrOf(D, e) + [c]])
  {
    hide Entered, Distinct, Key;
    var dict', D' := dict[Key(c, e) := FIRST + |D|], D + [StrOf(D, e) + [c]];
    forall c': Byte, e': nat | Key(c', e') in dict' ensures Pairs(dict', D', c', e') {
      if Key(c', e') == Key(c, e) {
        KeyInjective(c', e', c, e);
      } else {
        assert Pairs(dict, D, c', e');
      }
    }
    forall k: nat | FIRST <= k < FIRST + |D'| ensures Entered(dict', k) {
      EnteredMore(dict, c, e, FIRST + |D|, k);
    }
    DistinctMore(dict, D, c, e);
  }

  lemma EnteredMore(dict: map<int, nat>, c: Byte, e: nat, v: nat, k: nat)
    requires Key(c, e) !in dict && (k == v || Entered(dict, k))
    ensures Entered(dict[Key(c, e) := v], k)
  {
    hide Key;
    var dict' := dict[Key(c, e) := v];
    if k == v {
      assert Key(c, e) in dict' && dict'[Key(c, e)] == k;
    } else {
      var c': Byte, e': nat :| Key(c', e') in dict && dict[Key(c', e')] == k;
      assert Key(c', e') in dict' && dict'[Key(c', e')] == k;
    }
  }

  lemma DistinctMore(dict: map<int, nat>, D: seq<seq<Byte>>, c: Byte, e: nat)
    requires Faithful(dict, D) && Filled(D) && Known(D, e) && Key(c, e) !in dict
    ensures Distinct(D + [StrOf(D, e) + [c]])
  {
    hide Key;
    var s := StrOf(D, e) + [c];
    var D' := D + [s];
    forall i: nat, j: nat | Known(D', i) && Known(D', j) && StrOf(D', i) == StrOf(D', j) ensures i == j {
      NotYet(dict, D, c, e, i);
      NotYet(dict, D, c, e, j);
    }
  }

  // No code of the table has the new string.
  lemma NotYet(dict: map<int, nat>, D: seq<seq<Byte>>, c: Byte, e: nat, k: nat)
    requires Faithful(dict, D) && Filled(D) && Known(D, e) && Key(c, e) !in dict
    ensures Known(D, k) ==> StrOf(D, k) != StrOf(D, e) + [c]
  {
    hide Faithful, Key;
    if Known(D, k) && StrOf(D, k) == StrOf(D, e) + [c] { PairFound(dict, D, c, e, k); }
  }

  // What a code is for the decoder, it is for the compressor.
  lemma SameString(mb: nat, D: seq<seq<Byte>>, ent: nat, st: State)
    requires Good(mb, st) && Known(D, ent) && Tracks(mb, D, ent, st) && Filled(D) && FIRST + |D| <= Limit(mb)
    ensures ent != CLEAR && ent <= FreeEnt(st) && (!st.mode.Going? ==> ent < 256)
    ensures Takes(st, ent) && Text(st, ent) == StrOf(D, ent)
    ensures After(mb, st, ent).D == D && After(mb, st, ent).last == StrOf(D, ent)
  {
    hide Pow2;
    if st.mode.Going? && |D| == |st.D| + 1 {
      assert D == D[..|st.D|] + [D[|st.D|]];
    }
  }

  lemma NextTracks(mb: nat, D: seq<seq<Byte>>, ent: nat, st: State, c: Byte)
    requires st.mode.Going? && st.D == D && Known(D, ent) && st.last == StrOf(D, ent)
    ensures Tracks(mb, D + [StrOf(D, ent) + [c]], c, st)
    ensures FIRST + |D| == Limit(mb) ==> Tracks(mb, D, c, st)
  {
    var D' := D + [StrOf(D, ent) + [c]];
    assert D'[..|D|] == D;
  }

  lemma OneMoreKey(m: map<int, nat>, k: int, v: nat)
    ensures |m[k := v]| <= |m| + 1
  {
    assert m[k := v].Keys == m.Keys + {k};
  }

  // A decoder that has read these codes has put this out and is in this state.
  ghost predicate Follows(mb: nat, codes: seq<bool>, put: seq<Byte>, st: State)
    ensures Follows(mb, codes, put, st) ==> UsualBits(mb) && Good(mb, st)
  {
    Leads(mb, codes, put, st) && Counted(mb, st) && |codes| % 8 == (st.used * st.n) % 8
  }

  lemma SendLeads(mb: nat, codes: seq<bool>, put: seq<Byte>, st: State, D: seq<seq<Byte>>, ent: nat)
    requires Follows(mb, codes, put, st) && Filled(D) && FIRST + |D| <= Limit(mb) && Known(D, ent)
             && Tracks(mb, D, ent, st)
    requires !Bumps(mb, st) && ent < Pow2(st.n)
    ensures Takes(st, ent) && Follows(mb, codes + BitsOf(ent, st.n), put + StrOf(D, ent), After(mb, st, ent))
    ensures var s := After(mb, st, ent);
            s.D == D && s.last == StrOf(D, ent) && s.mode.Going? && s.n == st.n && s.used == st.used + 1
  {
    hide Pow2, BitsOf, Leads, Counted, Bumps, After, Text, Tracks, Filled, Good;
    SameString(mb, D, ent, st);
    LeadsOne(mb, codes, put, st, ent);
    AfterCounted(mb, st, ent);
    AfterIs(mb, st, ent);
    OneMoreCode(|codes|, st.used, st.n);
  }

  lemma OneMoreCode(len: nat, used: nat, n: nat)
    requires len % 8 == (used * n) % 8
    ensures (len + n) % 8 == ((used + 1) * n) % 8
  {
    Distribute(used, 1, n);
    var x := used * n;
    assert (len + n) % 8 == (x + n) % 8;
  }

  lemma Behind(sent: seq<bool>, more: seq<bool>, k: nat)
    requires k <= |sent|
    ensures (sent + more)[k..] == sent[k..] + more && (sent + more)[..k] == sent[..k]
  {
  }

  // ---- The compressor ----------------------------------------------------------------------

  class Compressor {
    const maxbits: nat
    const w: CodeWriter
    const t: HashTable
    var nBits: nat
    var freeEnt: nat
    var extcode: nat
    var stcode: bool
    var ent: nat
    var ratio: int
    var checkpoint: int
    var bytesIn: int
    // The strings of the codes, the state of a decoder that follows, and what it has put out.
    ghost var D: seq<seq<Byte>>
    ghost var st: State
    ghost var put: seq<Byte>

    ghost predicate Parts()
    {
      UsualBits(maxbits) && w.outbuf.Length == w.obufsiz + 2048 && w.obufsiz >= 2048 && t.Sizes()
      && (t as object) != w && (t as object) != this && (w as object) != this
      && (w.outbuf as object) != t.htab && (w.outbuf as object) != t.codetab
    }

    // The bits after the header.
    ghost function Codes(): seq<bool>
      reads w, w.outbuf
    {
      if w.outbits / 8 < w.outbuf.Length && |w.Sent()| >= 24 then w.Sent()[24..] else []
    }

    ghost predicate HasHeader()
      reads w, w.outbuf
      ensures HasHeader() ==> w.outbits / 8 < w.outbuf.Length
    {
      maxbits <= 16 && w.outbits / 8 < w.outbuf.Length && |w.Sent()| >= 24
        && w.Sent()[..24] == BytesBits(Header(maxbits))
    }

    // The decoder would be here.
    ghost predicate Followed()
      reads this`put, this`st, this`nBits, w, w.outbuf
    {
      Follows(maxbits, Codes(), put, st) && nBits == st.n && w.InRun(nBits, st.used)
    }

    ghost predicate Table()
      reads this`freeEnt, this`D, this`ent, this`st, t
      ensures Table() ==> Known(D, ent)
    {
      freeEnt == FIRST + |D| <= Limit(maxbits) && Filled(D) && Known(D, ent) && Tracks(maxbits, D, ent, st)
      && Faithful(t.dict, D) && |t.dict| <= |D|
    }

    // When the codes get wider.  After the last width no more strings are entered.
    predicate Width()
      reads this`stcode, this`extcode, this`nBits, this`freeEnt, this`ent
    {
      if stcode then extcode == (if nBits < maxbits then Pow2(nBits) + 1 else Limit(maxbits)) && freeEnt <= extcode
                     && (ent >= FIRST ==> freeEnt < extcode)
      else nBits == maxbits && freeEnt == Limit(maxbits) && extcode == Pow2(16) + w.obufsiz
    }

    ghost predicate Valid()
      reads this`put, this`st, this`nBits, this`freeEnt, this`D, this`ent, this`stcode, this`extcode, w, w.outbuf, t,
              t.htab, t.codetab
    {
      Parts() && w.Valid() && t.Valid() && HasHeader() && Followed() && Table() && Width()
    }

    // The input taken in.
    ghost function Seen(): seq<Byte>
      reads this`put, this`D, this`ent
      requires Known(D, ent)
    {
      put + StrOf(D, ent)
    }

    function Room(): int
    {
      (w.obufsiz + 2048 - 32) * 8
    }

    constructor (mb: nat, size: nat, hsize: nat)
      requires UsualBits(mb) && size >= 2048 && Prime(hsize) && hsize > 65536
      ensures Valid() && bytesIn == 0 && AtStart() && maxbits == mb
      ensures fresh(w) && fresh(w.outbuf) && fresh(t) && fresh(t.htab) && fresh(t.codetab)
      ensures w.outbits <= Room() + 16
    {
      hide Leads, Pow2, Content, BytesBits;
      var writer := new CodeWriter(size, mb);
      var table := new HashTable(hsize);
      maxbits, w, t := mb, writer, table;
      nBits, freeEnt, extcode, stcode, ent := INIT_BITS, FIRST, Pow2(INIT_BITS) + 1, true, 0;
      ratio, checkpoint, bytesIn := 0, CHECK_GAP, 0;
      D, st, put := [], Init(), [];
      new;
      LeadsInit(mb);
      InitGood(mb);
      assert w.Sent()[..24] == w.Sent() && w.Sent()[24..] == [];
      Pow9();
    }

    // ---- One code -----------------------------------------------------------------------

    // The code of the string so far goes out, and the decoder gets its string.
    method Send()
      requires Valid() && (stcode ==> freeEnt < extcode) && w.outbits <= Room() + 16
      modifies w, w.outbuf, `st, `put
      ensures Parts() && w.Valid() && t.Valid() && HasHeader() && Followed()
      ensures st.mode.Going? && st.D == D && st.last == StrOf(D, ent) && put == old(put) + StrOf(D, ent)
      ensures w.outbits == old(w.outbits) + nBits
    {
      hide Pow2, BitsOf, BytesBits, Bumps, After, Text, Faithful, Tracks, Filled, Good, Follows, HashTable.Valid,
        HashTable.Sizes, CodeWriter.Valid, CodeWriter.Sent, CodeWriter.InRun, Width, Limit;
      NotBumping();
      FitsWidth();
      SendLeads(maxbits, Codes(), put, st, D, ent);
      Behind(w.Sent(), BitsOf(ent, nBits), 24);
      w.Output(ent, nBits, st.used);
      put, st := put + StrOf(D, ent), After(maxbits, st, ent);
    }

    lemma NotBumping()
      requires Parts() && Good(maxbits, st) && nBits == st.n && Table() && Width() && (stcode ==> freeEnt < extcode)
      ensures !Bumps(maxbits, st)
    {
      hide Pow2, Filled;
      Pow9();
      Pow2Mono(9, st.n);
      if st.n < maxbits { Pow2Strict(st.n, maxbits); }
    }

    lemma FitsWidth()
      requires Parts() && Good(maxbits, st) && nBits == st.n && Table() && !Bumps(maxbits, st)
      ensures ent < Pow2(nBits)
    {
      hide Pow2, Filled;
      Pow9();
      Pow2Mono(9, st.n);
    }

    // A new string is entered, and the string begins again with its last byte.
    method Miss(c: Byte, hp: nat)
      requires Valid() && (stcode ==> freeEnt < extcode) && w.outbits <= Room() + 16
      requires ent < 65536 && t.Free(c, ent, hp) && Key(c, ent) !in t.dict
      modifies this`st, this`put, this`D, this`freeEnt, this`ent, w, w.outbuf, t, t.htab, t.codetab
      ensures ent == c && put == old(put + StrOf(D, ent)) && D == old(D + if stcode then [StrOf(D, ent) + [c]] else [])
      ensures Valid() && Seen() == old(Seen()) + [c] && ent < 256
      ensures w.outbits == old(w.outbits) + nBits && freeEnt <= old(freeEnt) + 1
    {
      hide Pow2, BitsOf, BytesBits, Content, Faithful, Tracks, Prime, Follows, HashTable.Valid, HashTable.Sizes,
        HashTable.Free, Key, CodeWriter.Valid, CodeWriter.Sent, CodeWriter.InRun;
      Sizes();
      if nBits < maxbits { Pow2Strict(nBits, maxbits); }
      Send();
      NextTracks(maxbits, D, ent, st, c);
      if stcode { Add(c, hp); }
      ent := c;
      assert put + [c] == old(put) + StrOf(old(D), old(ent)) + [c];
    }

    // The string and the byte behind it get the next code.
    method Add(c: Byte, hp: nat)
      requires Parts() && t.Valid() && ent < 65536 && t.Free(c, ent, hp) && |t.dict| < t.hsize - 2
      requires freeEnt == FIRST + |D| && Known(D, ent) && Faithful(t.dict, D) && |t.dict| <= |D|
      requires Filled(D) && Key(c, ent) !in t.dict
      modifies this`D, this`freeEnt, t, t.htab, t.codetab
      ensures t.Valid() && freeEnt == old(freeEnt) + 1 && D == old(D) + [StrOf(old(D), ent) + [c]]
      ensures freeEnt == FIRST + |D| && Faithful(t.dict, D) && |t.dict| <= |D|
    {
      hide Faithful, Prime, HashTable.Valid, HashTable.Free;
      Enter(t.dict, D, c, ent);
      OneMoreKey(t.dict, Key(c, ent), freeEnt);
      t.Put(hp, c, ent, freeEnt);
      freeEnt := freeEnt + 1;
      D := D + [StrOf(D, ent) + [c]];
    }

    lemma Sizes()
      requires Parts() && Table()
      ensures Limit(maxbits) <= 65536 && (stcode && Width() && freeEnt < extcode ==> |t.dict| < t.hsize - 2)
              && freeEnt <= 65536 && ent < 65536
    {
      hide Pow2, Faithful, Filled, Prime;
      Pow8();
      Pow2Mono(maxbits, 16);
    }

    // One byte of input.
    method Step(c: Byte)
      requires Valid() && (stcode ==> freeEnt < extcode) && w.outbits <= Room() + 16
      modifies this`st, this`put, this`D, this`freeEnt, this`ent, w, w.outbuf, t, t.htab, t.codetab
      ensures Greedy(old(D), old(put), old(ent), stcode, c, D, put, ent)
      ensures Valid() && Seen() == old(Seen()) + [c]
      ensures if ent >= FIRST then freeEnt == old(freeEnt) && w.outbits == old(w.outbits)
              else freeEnt <= old(freeEnt) + 1 && w.outbits == old(w.outbits) + nBits
    {
      hide Pow2, BitsOf, BytesBits, Content, Leads, Counted, Bumps, Faithful, Prime, Key, InTable, Filled;
      Sizes();
      var hp, found := t.Find(c, ent);
      OnlyIfFound(t.dict, D, c, ent);
      if found {
        Hit(c);
        ent := t.codetab[hp];
      } else {
        Miss(c, hp);
      }
    }

    lemma Hit(c: Byte)
      requires Valid() && Key(c, ent) in t.dict
      ensures var k := t.dict[Key(c, ent)];
              FIRST <= k < freeEnt && StrOf(D, k) == StrOf(D, ent) + [c]
              && Tracks(maxbits, D, k, st)
      ensures var k := t.dict[Key(c, ent)]; put + StrOf(D, k) == put + StrOf(D, ent) + [c]
    {
      hide Pow2, Content, BytesBits, Leads, Counted, Entered, Distinct;
      assert Pairs(t.dict, D, c, ent);
    }

    // ---- Between the codes --------------------------------------------------------------

    // When the table is full for this width, the codes get wider, or strings are no
    // longer entered.
    method CheckWidth()
      requires Valid()
      modifies this`nBits, this`extcode, this`stcode, this`st, w`outbits, w`boff, w`laps
      ensures Valid() && freeEnt < extcode && w.outbits == old(w.outbits)
    {
      hide BytesBits, Content, Faithful, Tracks, Prime, Follows, Filled, HashTable.Valid, HashTable.Sizes,
        CodeWriter.Valid, CodeWriter.Sent, CodeWriter.InRun, BitsOf, Pow2, Bumps, Limit;
      LimitIs();
      if freeEnt >= extcode && ent < FIRST {
        if nBits < maxbits {
          Widens();
          TracksBumped(maxbits, D, ent, st);
          BumpFollows(maxbits, Codes(), put, st);
          Behind(w.Sent(), BitsOf(0, Pad(nBits, st.used)), 24);
          w.FillGroup(nBits, st.used);
          nBits := nBits + 1;
          extcode := if nBits < maxbits then Pow2(nBits) + 1 else Pow2(nBits);
          st := Bumped(st);
        } else {
          extcode := Pow2(16) + w.obufsiz;
          stcode := false;
        }
      }
    }

    lemma LimitIs()
      requires UsualBits(maxbits) && INIT_BITS <= nBits <= maxbits
      ensures Limit(maxbits) == Pow2(maxbits) <= Pow2(16)
              && (nBits < maxbits ==> Pow2(nBits) + 1 < Pow2(nBits + 1) <= Pow2(maxbits))
    {
      hide Pow2;
      Pow2Mono(maxbits, 16);
      Pow9();
      Pow2Mono(9, nBits);
      Double(nBits);
      if nBits < maxbits { Pow2Mono(nBits + 1, maxbits); }
    }

    lemma Widens()
      requires Parts() && Table() && Width() && INIT_BITS <= nBits == st.n < maxbits && freeEnt >= extcode
      ensures Bumps(maxbits, st) && stcode
    {
      hide Pow2, Filled, Faithful, HashTable.Sizes;
      Pow9();
      Pow2Mono(9, nBits);
      Pow2Strict(nBits, maxbits);
      Double(nBits);
      Pow2Mono(nBits + 1, maxbits);
      Pow2Mono(maxbits, 16);
    }

    // It is looked at the ratio: the table is full, and enough has been read since the last
    // time.
    predicate RatioDue()
      reads this
    {
      !stcode && bytesIn >= checkpoint && ent < FIRST
    }

    // When the compression gets worse, everything starts anew; CLEAR is sent exactly when
    // the ratio has fallen.
    method CheckRatio()
      requires Valid() && w.outbits <= Room() + 16 && bytesIn >= 0
      modifies this`nBits, this`extcode, this`stcode, this`freeEnt, this`ratio, this`checkpoint, this`st, this`D, w,
                 w.outbuf, t, t.htab
      ensures Valid() && (old(freeEnt < extcode) ==> freeEnt < extcode) && w.outbits <= old(w.outbits) + 16 + 112
      ensures Seen() == old(Seen()) && (!stcode && ent < FIRST ==> bytesIn < checkpoint)
      ensures var now, due := old(Ratio(bytesIn, Written())), old(RatioDue());
              checkpoint == (if due then bytesIn + CHECK_GAP else old(checkpoint))
              && ratio == (if !due then old(ratio) else if now >= old(ratio) then now else 0)
              && if due && now < old(ratio)
                 then st == AfterClear(old(st)) && freeEnt == FIRST && nBits == INIT_BITS && stcode
                 else st == old(st) && freeEnt == old(freeEnt) && nBits == old(nBits) && stcode == old(stcode)
    {
      hide BytesBits, Content, Tracks, Prime, Follows, HashTable.Valid, CodeWriter.Valid, CodeWriter.Sent,
        CodeWriter.InRun, BitsOf, Pow2, Bumps, Pad, AfterClear, Ratio;
      if !stcode && bytesIn >= checkpoint && ent < FIRST {
        checkpoint := bytesIn + CHECK_GAP;
        var rat := CurrentRatio();
        if rat >= ratio {
          ratio := rat;
        } else {
          ratio := 0;
          Restart();
        }
      }
    }

    // The bytes that are out or in the buffer.
    function Written(): int
      reads this, w
    {
      w.bytesOut + w.outbits / 8
    }

    // Input by output, with eight bits after the point.
    method CurrentRatio() returns (rat: int)
      requires Valid() && bytesIn >= 0
      ensures rat == Ratio(bytesIn, Written())
    {
      hide BytesBits, Content, Tracks, Prime, Follows, HashTable.Valid, BitsOf, Pow2, Bumps, Pad, Faithful;
      SomeOutput();
      if bytesIn > 0x007fffff {
        rat := (w.bytesOut + w.outbits / 8) / 256;
        if rat == 0 { rat := 0x7fffffff; } else { rat := bytesIn / rat; }
      } else {
        rat := (bytesIn * 256) / (w.bytesOut + w.outbits / 8);
      }
    }

    lemma SomeOutput()
      requires w.Valid() && HasHeader()
      ensures w.bytesOut + w.outbits / 8 > 0
    {
      hide BytesBits, BitsOf;
    }

    // CLEAR goes out, and with it what is left of its group.
    method SendClear()
      requires Valid() && !stcode && w.outbits <= Room() + 16
      modifies this`st, w, w.outbuf
      ensures w.Valid() && HasHeader() && Follows(maxbits, Codes(), put, st) && st == AfterClear(old(st))
      ensures w.outbits <= old(w.outbits) + 16 + 112 && forall n: nat :: w.InRun(n, 0)
    {
      hide BytesBits, Content, Prime, Follows, HashTable.Valid, HashTable.Sizes, CodeWriter.Valid, CodeWriter.Sent,
        CodeWriter.InRun, BitsOf, Pow2, Bumps, Pad, Limit, Faithful, AfterClear;
      NotAtStart();
      ClearFollows(maxbits, Codes(), put, st);
      ClearFits(nBits);
      PadBound(nBits, st.used + 1);
      Behind(w.Sent(), BitsOf(CLEAR, nBits), 24);
      w.Output(CLEAR, nBits, st.used);
      Behind(w.Sent(), BitsOf(0, Pad(nBits, st.used + 1)), 24);
      w.FillGroup(nBits, st.used + 1);
      st := AfterClear(st);
    }

    // CLEAR, and a new start.
    method Restart()
      requires Valid() && !stcode && ent < FIRST && w.outbits <= Room() + 16
      modifies this`nBits, this`extcode, this`stcode, this`freeEnt, this`st, this`D, w, w.outbuf, t, t.htab
      ensures Valid() && freeEnt < extcode && w.outbits <= old(w.outbits) + 16 + 112 && Seen() == old(Seen()) && stcode
      ensures st == AfterClear(old(st)) && freeEnt == FIRST && nBits == INIT_BITS
    {
      hide BytesBits, Content, Prime, Follows, HashTable.Valid, HashTable.Sizes, CodeWriter.Valid, CodeWriter.Sent,
        CodeWriter.InRun, BitsOf, Pow2, Bumps, Limit, Faithful;
      SendClear();
      t.ClearHtab();
      nBits := INIT_BITS;
      extcode := Pow2(nBits) + 1;
      freeEnt := FIRST;
      stcode := true;
      D := [];
      NoKeys();
      LimitIs();
      Pow9();
    }

    lemma NotAtStart()
      requires Parts() && Table() && Width() && !stcode && Good(maxbits, st) && nBits == st.n
      ensures st.mode.Going? && !Bumps(maxbits, st)
    {
      hide Pow2, Faithful, HashTable.Sizes;
      Pow9();
      Pow2Strict(9, maxbits);
    }

    // ---- The loops ----------------------------------------------------------------------

    // What is due between two stretches of input.
    method Checks()
      requires Valid() && bytesIn >= 0 && w.outbits <= Room() + 16
      modifies this`nBits, this`extcode, this`stcode, this`freeEnt, this`ratio, this`checkpoint, this`st, this`D, w,
                 w.outbuf, t, t.htab
      ensures Valid() && Seen() == old(Seen()) && freeEnt < extcode && w.outbits + 16 <= Room()
      ensures !stcode && ent < FIRST ==> bytesIn < checkpoint
    {
      hide BytesBits, Content, Prime, Follows, HashTable.Valid, HashTable.Sizes, CodeWriter.Valid, CodeWriter.Sent,
        BitsOf, Pow2, Table, Limit, Width;
      SameSeen();
      CheckWidth();
      CheckRatio();
      w.Flush(nBits, st.used);
    }

    lemma SameSeen()
      requires Valid()
      ensures Known(D, ent)
    {
    }

    // How far the next stretch goes: it neither widens the codes nor fills the buffer
    // nor passes the checkpoint.
    method Stretch(left: nat) returns (i: int)
      requires Valid() && left > 0 && freeEnt < extcode && w.outbits + 16 <= Room()
      ensures i <= left && freeEnt + i <= extcode && (i > 0 ==> w.outbits + i * nBits <= Room())
      ensures i <= 0 ==> !stcode && bytesIn >= checkpoint
    {
      hide BytesBits, Content, Prime, Follows, HashTable.Valid, HashTable.Sizes, CodeWriter.Valid, CodeWriter.Sent,
        BitsOf, Pow2, Table, Limit, Width;
      i := left;
      if i > extcode - freeEnt { i := extcode - freeEnt; }
      if i > (Room() - w.outbits) / nBits { i := (Room() - w.outbits) / nBits; }
      RoomFor(Room() - w.outbits, i, nBits);
      if !stcode && i > checkpoint - bytesIn {
        i := checkpoint - bytesIn;
        RoomFor(Room() - w.outbits, i, nBits);
      }
    }

    // The bytes up to rlop, and on to the end of the string that is begun.
    method Consume(inbuf: seq<Byte>, rpos0: nat, rlop: int) returns (rpos: nat)
      requires Valid() && rpos0 <= |inbuf| && rlop <= |inbuf| && w.outbits <= Room() && (stcode ==> freeEnt < extcode)
      requires stcode && rpos0 <= rlop ==> freeEnt + (rlop - rpos0) <= extcode
      requires rpos0 <= rlop ==> w.outbits + (rlop - rpos0) * nBits <= Room()
      modifies this`st, this`put, this`D, this`freeEnt, this`ent, w, w.outbuf, t, t.htab, t.codetab
      ensures Valid() && rpos0 <= rpos <= |inbuf| && rlop <= rpos && w.outbits <= Room() + 16
      ensures Seen() == old(Seen()) + inbuf[rpos0..rpos]
      ensures old(ent) >= FIRST && rpos0 < |inbuf| ==> rpos0 < rpos
    {
      hide BytesBits, Content, Prime, Follows, HashTable.Valid, HashTable.Sizes, CodeWriter.Valid, CodeWriter.Sent,
        CodeWriter.InRun, BitsOf, Pow2, Table, Limit, HasHeader, Leads, Seen;
      rpos := rpos0;
      SameSeen();
      SeenSoFar(inbuf, rpos0);
      ghost var seen := Seen();
      assert seen + [] == seen;
      while rpos < rlop || (ent >= FIRST && rpos < |inbuf|)
        invariant Valid() && rpos0 <= rpos <= |inbuf| && Known(D, ent)
        invariant Seen() == seen + inbuf[rpos0..rpos]
        invariant stcode && rpos <= rlop ==> freeEnt + (rlop - rpos) <= extcode
        invariant rpos <= rlop ==> w.outbits + (rlop - rpos) * nBits <= Room()
        invariant w.outbits <= Room() + 16 && (ent >= FIRST ==> w.outbits <= Room())
        invariant rpos == rpos0 ==> ent == old(ent)
        modifies this`st, this`put, this`D, this`freeEnt, this`ent, w, w.outbuf, t, t.htab, t.codetab
        decreases |inbuf| - rpos
      {
        if rpos < rlop { LessRoom(w.outbits, rlop - rpos, nBits, Room()); }
        SeenOneMore(inbuf, rpos0, rpos);
        assert seen + inbuf[rpos0..rpos] + [inbuf[rpos]] == seen + (inbuf[rpos0..rpos] + [inbuf[rpos]]);
        Step(inbuf[rpos]);
        rpos := rpos + 1;
      }
    }

    // One round of the loop over a piece of input.
    method Round(inbuf: seq<Byte>, rpos0: nat, rlop0: nat) returns (rpos: nat)
      requires Valid() && rlop0 < |inbuf| && bytesIn >= 0 && w.outbits <= Room() + 16
      requires rpos0 == rlop0 || (rlop0 == 0 && rpos0 == 1 && ent < FIRST)
      modifies this`nBits, this`extcode, this`stcode, this`freeEnt, this`ent, this`ratio, this`checkpoint, this`bytesIn,
        this`st, this`D, this`put, w, w.outbuf, t, t.htab, t.codetab
      ensures Valid() && rlop0 < rpos <= |inbuf| && rpos0 <= rpos && w.outbits <= Room() + 16
      ensures Seen() == old(Seen()) + inbuf[rpos0..rpos] && bytesIn == old(bytesIn) + (rpos - rlop0)
    {
      hide BytesBits, Content, Prime, Follows, HashTable.Valid, HashTable.Sizes, CodeWriter.Valid, CodeWriter.Sent,
        CodeWriter.InRun, BitsOf, Pow2, Table, Limit, HasHeader, Leads, Width, Seen;
      SameSeen();
      Checks();
      var i := Stretch(|inbuf| - rlop0);
      var rlop := rlop0 + i;
      bytesIn := bytesIn + i;
      if rpos0 <= rlop { LessWhenLater(w.outbits, i, rlop - rpos0, nBits, Room()); }
      rpos := Consume(inbuf, rpos0, rlop);
      if rpos > rlop {
        bytesIn := bytesIn + (rpos - rlop);
        rlop := rpos;
      }
    }

    // Before the first byte.
    ghost predicate AtStart()
      reads this`put, this`D, this`st, this`ent, w, w.outbuf
    {
      put == [] && D == [] && st == Init() && ent == 0 && Codes() == []
    }

    method FirstByte(c: Byte)
      requires Valid() && AtStart()
      modifies this`ent
      ensures Valid() && Seen() == [c] && ent < 256
    {
      hide BytesBits, Content, Prime, Follows, HashTable.Valid, HashTable.Sizes, CodeWriter.Valid, CodeWriter.Sent,
        CodeWriter.InRun, BitsOf, Pow2, Limit, HasHeader, Leads, Faithful;
      ent := c;
    }

    // All of the input, piece by piece.
    method Run(src: ByteSource, ibufsiz: nat)
      requires Valid() && AtStart() && src.Valid() && src.pos == 0 && ibufsiz > 0 && bytesIn == 0
               && w.outbits <= Room() + 16
      requires (src as object) !in {this, w, w.outbuf, t, t.htab, t.codetab}
      modifies this`nBits, this`extcode, this`stcode, this`freeEnt, this`ent, this`ratio, this`checkpoint, this`bytesIn,
        this`st, this`D, this`put, w, w.outbuf, t, t.htab, t.codetab, src
      ensures |w.out| >= 3 && w.out[..3] == Header(maxbits)
      ensures UsualBits(maxbits) && Good(maxbits, Init())
              && Decode(maxbits, Init(), BytesBits(w.out[3..])) == Decoded(src.data, Complete)
    {
      hide BytesBits, Content, Prime, Follows, HashTable.Valid, HashTable.Sizes, CodeWriter.Valid, CodeWriter.Sent,
        CodeWriter.InRun, BitsOf, Pow2, Table, Limit, HasHeader, Leads, Width, Seen, AtStart, Good;
      var more := true;
      while more
        invariant Valid() && src.Valid() && w.outbits <= Room() + 16 && bytesIn == src.pos && Known(D, ent)
        invariant if bytesIn == 0 then AtStart() else Seen() == src.data[..src.pos]
        invariant !more ==> src.pos == |src.data|
        decreases |src.data| - src.pos, if more then 1 else 0
      {
        ghost var p := src.pos;
        var inbuf := src.Read(ibufsiz);
        if inbuf == [] {
          more := false;
        } else {
          var rpos, rlop := 0, 0;
          if bytesIn == 0 {
            FirstByte(inbuf[0]);
            rpos := 1;
          }
          SeenStart(src.data, p, src.pos, inbuf, rpos);
          while rlop < |inbuf|
            invariant Valid() && w.outbits <= Room() + 16 && Known(D, ent)
            invariant rlop <= |inbuf| && (rpos == rlop || (rlop == 0 && rpos == 1 && ent < FIRST))
                      && bytesIn == p + rlop
            invariant Seen() == src.data[..p + rpos]
            modifies this`nBits, this`extcode, this`stcode, this`freeEnt, this`ent, this`ratio, this`checkpoint,
                       this`bytesIn,
              this`st, this`D, this`put, w, w.outbuf, t, t.htab, t.codetab
            decreases |inbuf| - rlop
          {
            ghost var r0 := rpos;
            rpos := Round(inbuf, rpos, rlop);
            SeenRound(src.data, p, src.pos, inbuf, r0, rpos);
            rlop := rpos;
          }
          SeenAll(src.data, p, src.pos, inbuf);
        }
      }
      assert src.data[..|src.data|] == src.data;
      Close(src.data);
    }

    // The last code and the last byte.
    method Close(ghost data: seq<Byte>)
      requires Valid() && bytesIn >= 0 && w.outbits <= Room() + 16
               && (if bytesIn == 0 then AtStart() && data == [] else Known(D, ent) && Seen() == data)
      modifies w, w.outbuf
      ensures |w.out| >= 3 && w.out[..3] == Header(maxbits)
      ensures UsualBits(maxbits) && Good(maxbits, Init())
              && Decode(maxbits, Init(), BytesBits(w.out[3..])) == Decoded(data, Complete)
    {
      hide BytesBits, Content, Prime, Follows, HashTable.Valid, HashTable.Sizes, CodeWriter.Valid, CodeWriter.Sent,
        CodeWriter.InRun, BitsOf, Pow2, Limit, Leads, Width, Faithful, Tracks, Decode, Good, Filled, Table;
      InitGood(maxbits);
      if bytesIn > 0 {
        CloseAfter(data);
      } else {
        SentLength();
        assert w.outbits == 24 - 8 * |w.out|;
        NoFill(maxbits, w.outbits);
        ghost var all := w.Sent();
        assert all + [] == all && all[24..] == [];
        w.Finish();
        AfterHeader(w.out, Header(maxbits), all);
      }
    }

    method CloseAfter(ghost data: seq<Byte>)
      requires Valid() && w.outbits <= Room() + 16 && Known(D, ent) && Seen() == data && Good(maxbits, Init())
      modifies w, w.outbuf
      ensures |w.out| >= 3 && w.out[..3] == Header(maxbits)
      ensures Decode(maxbits, Init(), BytesBits(w.out[3..])) == Decoded(data, Complete)
    {
      hide BytesBits, Content, Prime, Follows, HashTable.Valid, HashTable.Sizes, CodeWriter.Valid, CodeWriter.Sent,
        CodeWriter.InRun, BitsOf, Pow2, Limit, Leads, Width, Faithful, Tracks, Decode, Good, Filled, Table;
      ghost var sent := w.Sent();
      ghost var more := BitsOf(ent, nBits);
      SentLength();
      LastFits();
      w.Output(ent, nBits, st.used);
      ghost var z := (8 - w.outbits % 8) % 8;
      ghost var fill := BitsOf(0, z);
      Fills(|w.out|, w.outbits, |sent| - 24, nBits, z);
      Final(sent[24..], z);
      Behind(sent, more, 24);
      Behind(sent + more, fill, 24);
      w.Finish();
      AfterHeader(w.out, Header(maxbits), sent + more + fill);
    }

    lemma SentLength()
      requires w.Valid() && HasHeader()
      ensures |w.Sent()| == 8 * |w.out| + w.outbits == 24 + |Codes()|
    {
      hide BytesBits, BitsOf, CodeWriter.Valid;
    }

    lemma LastFits()
      requires Valid()
      ensures ent < Pow2(nBits) && 9 <= nBits <= 16
    {
      hide BytesBits, Content, Prime, Leads, HashTable.Valid, HashTable.Sizes, CodeWriter.Valid, CodeWriter.Sent,
        CodeWriter.InRun, BitsOf, Pow2, Faithful;
      Pow9();
      Pow2Mono(9, nBits);
      if stcode && nBits < maxbits { Pow2Strict(nBits, maxbits); }
    }

    lemma Final(codes: seq<bool>, z: nat)
      requires Follows(maxbits, codes, put, st) && Table() && nBits == st.n && ent < Pow2(nBits)
      requires z < 8 && (|codes| + nBits + z) % 8 == 0
      ensures Decode(maxbits, Init(), codes + BitsOf(ent, nBits) + BitsOf(0, z))
              == Decoded(put + StrOf(D, ent), Complete)
    {
      hide BytesBits, Content, Prime, Leads, BitsOf, Pow2, Decode, Good, Faithful, Counted, Tracks;
      SameString(maxbits, D, ent, st);
      LastCode(maxbits, codes, put, st, ent, z);
    }
  }

  function Header(mb: nat): seq<Byte>
    requires mb <= 16
  {
    [0x1f, 0x9d, mb + 0x80]
  }

  lemma AfterIs(mb: nat, st: State, code: nat)
    requires Takes(st, code) && (st.mode.Going? ==> st.last != []) && Filled(st.D)
    ensures var s := After(mb, st, code); s.mode.Going? && s.n == st.n && s.used == st.used + 1
  {
    hide Text;
  }

  lemma TracksBumped(mb: nat, D: seq<seq<Byte>>, ent: nat, st: State)
    requires Known(D, ent) && Tracks(mb, D, ent, st)
    ensures Tracks(mb, D, ent, Bumped(st))
  {
  }

  lemma NoKeys()
    ensures Faithful(map[], [])
  {
  }

  lemma BumpFollows(mb: nat, codes: seq<bool>, put: seq<Byte>, st: State)
    requires Follows(mb, codes, put, st) && Bumps(mb, st)
    ensures Pad(st.n, st.used) == 0 && Follows(mb, codes + BitsOf(0, Pad(st.n, st.used)), put, Bumped(st))
  {
    hide Pow2, BitsOf, Leads, Counted, Bumps, Good;
    WholeGroups(mb, st);
    LeadsBump(mb, codes, put, st);
    EightTimes(st.used, st.n);
  }

  lemma EightTimes(used: nat, n: nat)
    requires used % 8 == 0
    ensures (used * n) % 8 == 0
  {
    var q := used / 8;
    assert used * n == 8 * (q * n);
  }

  lemma ClearFollows(mb: nat, codes: seq<bool>, put: seq<Byte>, st: State)
    requires Follows(mb, codes, put, st) && !Bumps(mb, st) && !st.mode.First?
    ensures Follows(mb, codes + BitsOf(CLEAR, st.n) + BitsOf(0, Pad(st.n, st.used + 1)), put, AfterClear(st))
  {
    hide Pow2, BitsOf, Leads, Bumps, Good, Pad;
    LeadsClear(mb, codes, put, st);
    WholeGroup(|codes|, st.used, st.n);
    assert AfterClear(st).used * AfterClear(st).n == 0;
  }

  lemma WholeGroup(len: nat, used: nat, n: nat)
    requires len % 8 == (used * n) % 8
    ensures (len + n + Pad(n, used + 1)) % 8 == 0
  {
    hide Pad;
    OneMoreCode(len, used, n);
    var x, p := (used + 1) * n, Pad(n, used + 1);
    GroupIs(n, used + 1);
    assert (len + n + p) % 8 == (x + p) % 8;
  }

  lemma GroupIs(n: nat, used: nat)
    ensures (used * n + Pad(n, used)) % 8 == 0
  {
    var k := (8 - used % 8) % 8;
    Distribute(used, k, n);
    EightTimes(used + k, n);
  }

  lemma PadBound(n: nat, used: nat)
    requires n <= 16
    ensures Pad(n, used) <= 112
  {
    MulMono((8 - used % 8) % 8, 7, n);
  }

  lemma RoomFor(room: int, i: int, n: nat)
    requires n > 0 && i <= room / n && room >= 16 && n <= 16
    ensures room / n >= 1 && (i >= 0 ==> i * n <= room) && (i < 0 ==> i * n <= 0)
  {
    assert room == (room / n) * n + room % n;
    MulMono(i, room / n, n);
    if room / n <= 0 { MulMono(room / n, 0, n); }
    if i < 0 { MulMono(i, 0, n); }
  }

  lemma SeenSoFar(inbuf: seq<Byte>, k: nat)
    requires k <= |inbuf|
    ensures inbuf[k..k] == []
  {
  }

  lemma SeenOneMore(inbuf: seq<Byte>, i: nat, k: nat)
    requires i <= k < |inbuf|
    ensures inbuf[i..k] + [inbuf[k]] == inbuf[i..k + 1]
  {
  }

  lemma LessRoom(o: int, left: int, n: nat, room: int)
    requires left > 0 && o + left * n <= room
    ensures o + n + (left - 1) * n <= room && o + (left - 1) * n <= room && o + n <= room && o <= room
  {
    MulMono(0, left - 1, n);
    Distribute(left - 1, 1, n);
  }

  lemma LessWhenLater(o: int, i: int, left: int, n: nat, room: int)
    requires 0 <= left <= i && o <= room && (i > 0 ==> o + i * n <= room)
    ensures o + left * n <= room
  {
    MulMono(left, i, n);
  }

  lemma Fills(out: nat, outbits: nat, len: nat, n: nat, z: nat)
    requires 8 * out + outbits == 24 + len + n && z == (8 - outbits % 8) % 8
    ensures z < 8 && (len + n + z) % 8 == 0
  {
  }

  lemma SeenStart(data: seq<Byte>, p: nat, q: nat, inbuf: seq<Byte>, k: nat)
    requires p < q <= |data| && inbuf == data[p..q] && k <= 1
    ensures k == 1 && p == 0 ==> [inbuf[0]] == data[..1]
    ensures data[..p + 0] == data[..p]
  {
  }

  lemma SeenRound(data: seq<Byte>, p: nat, q: nat, inbuf: seq<Byte>, i: nat, k: nat)
    requires p <= q <= |data| && inbuf == data[p..q] && i <= k <= |inbuf|
    ensures data[..p + i] + inbuf[i..k] == data[..p + k]
  {
  }

  lemma SeenAll(data: seq<Byte>, p: nat, q: nat, inbuf: seq<Byte>)
    requires p <= q <= |data| && inbuf == data[p..q]
    ensures p + |inbuf| == q
  {
  }

  lemma NoFill(mb: nat, outbits: nat)
    requires UsualBits(mb) && outbits % 8 == 0
    ensures BitsOf(0, (8 - outbits % 8) % 8) == [] && Good(mb, Init())
            && Decode(mb, Init(), []) == Decoded([], Complete)
  {
    hide Decode, Good;
    NoBits(0);
    NoCode(mb);
  }

  // Different bytes have different bits.
  lemma {:induction false} SameBytes(a: seq<Byte>, b: seq<Byte>)
    requires BytesBits(a) == BytesBits(b)
    ensures a == b
  {
    hide Pow2, Low, BitsOf;
    assert |a| == |b|;
    if a != [] {
      var n := |a| - 1;
      var x, y := BytesBits(a[..n]), BytesBits(b[..n]);
      assert x == BytesBits(a)[..8 * n] == y;
      assert BitsOf(a[n], 8) == BytesBits(a)[8 * n..] == BitsOf(b[n], 8);
      SameBytes(a[..n], b[..n]);
      ValueOfBits(a[n], 8);
      ValueOfBits(b[n], 8);
      Pow8();
      LowSmall(a[n], 8);
      LowSmall(b[n], 8);
      assert a == a[..n] + [a[n]] && b == b[..n] + [b[n]];
    }
  }

  lemma AfterHeader(out: seq<Byte>, header: seq<Byte>, bits: seq<bool>)
    requires BytesBits(out) == bits && |header| == 3 && |bits| >= 24 && bits[..24] == BytesBits(header)
    ensures |out| >= 3 && out[..3] == header && BytesBits(out[3..]) == bits[24..]
  {
    hide BytesBits;
    assert out == out[..3] + out[3..];
    BytesJoin(out[..3], out[3..]);
    assert bits[..24] == BytesBits(out[..3]);
    SameBytes(out[..3], header);
  }
}
