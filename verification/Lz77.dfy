// Literals and matches, what they expand to, and the circular window in which
// inflate_codes (inflate.c) expands them.
module Lz77 {
  import opened Bits

  const MIN_MATCH: nat := 3
  const MAX_MATCH: nat := 258

  datatype Token = Literal(b: Byte) | Match(len: nat, dist: nat)

  // ---- What tokens mean ------------------------------------------------------------

  // Copy n bytes from dist bytes back, one byte at a time.
  function Copy(out: seq<Byte>, dist: nat, n: nat): (r: seq<Byte>)
    requires 1 <= dist <= |out|
    ensures |r| == |out| + n
    decreases n
  {
    if n == 0 then out else Copy(out + [out[|out| - dist]], dist, n - 1)
  }

  function Length(t: Token): nat
  {
    if t.Literal? then 1 else t.len
  }

  // The token can follow `size` bytes of output.
  predicate Reaches(t: Token, size: nat)
  {
    t.Match? ==> 1 <= t.dist <= size
  }

  predicate AllReach(ts: seq<Token>, size: nat)
  {
    ts == [] || (Reaches(ts[0], size) && AllReach(ts[1..], size + Length(ts[0])))
  }

  function Apply(out: seq<Byte>, t: Token): (r: seq<Byte>)
    requires Reaches(t, |out|)
    ensures |r| == |out| + Length(t)
  {
    match t
    case Literal(b) => out + [b]
    case Match(len, dist) => Copy(out, dist, len)
  }

  function Expand(out: seq<Byte>, ts: seq<Token>): seq<Byte>
    requires AllReach(ts, |out|)
    decreases |ts|
  {
    if ts == [] then out else Expand(Apply(out, ts[0]), ts[1..])
  }

  lemma {:induction false} ReachJoin(a: seq<Token>, b: seq<Token>, out: seq<Byte>)
    requires AllReach(a, |out|)
    ensures AllReach(a + b, |out|) <==> AllReach(b, |Expand(out, a)|)
    ensures AllReach(a + b, |out|) ==> Expand(out, a + b) == Expand(Expand(out, a), b)
    decreases |a|
  {
    hide Apply, Reaches, Copy;
    if a == [] {
      assert a + b == b;
    } else {
      assert (a + b)[1..] == a[1..] + b;
      ReachJoin(a[1..], b, Apply(out, a[0]));
    }
  }

  // Where the copied bytes come from: each byte equals the one dist before it.
  lemma {:induction false} CopyIs(out: seq<Byte>, dist: nat, n: nat)
    requires 1 <= dist <= |out|
    ensures Copy(out, dist, n)[..|out|] == out
    ensures forall i :: |out| <= i < |out| + n ==> Copy(out, dist, n)[i] == Copy(out, dist, n)[i - dist]
    decreases n
  {
    if n > 0 {
      var next := out + [out[|out| - dist]];
      CopyIs(next, dist, n - 1);
      var r := Copy(out, dist, n);
      assert r[..|next|] == next;
      assert r[|out|] == r[..|next|][|out|] && r[|out| - dist] == r[..|next|][|out| - dist];
      assert next[..|out|] == out;
      assert r[..|out|] == r[..|next|][..|out|];
    }
  }

  // ... and this determines the result.
  lemma {:induction false} CopyUnique(out: seq<Byte>, dist: nat, n: nat, r: seq<Byte>)
    requires 1 <= dist <= |out| && |r| == |out| + n && r[..|out|] == out
    requires forall i :: |out| <= i < |r| ==> r[i] == r[i - dist]
    ensures r == Copy(out, dist, n)
    decreases n
  {
    if n == 0 {
      assert r == r[..|out|];
    } else {
      assert r[..|out| + 1] == r[..|out|] + [r[|out|]];
      assert r[|out| - dist] == r[..|out|][|out| - dist];
      CopyUnique(out + [out[|out| - dist]], dist, n - 1, r);
    }
  }

  lemma CopySplit(out: seq<Byte>, dist: nat, m: nat, n: nat)
    requires 1 <= dist <= |out|
    ensures Copy(Copy(out, dist, m), dist, n) == Copy(out, dist, m + n)
  {
    hide Copy;
    var a := Copy(out, dist, m);
    var r := Copy(a, dist, n);
    CopyIs(out, dist, m);
    CopyIs(a, dist, n);
    assert r[..|out|] == r[..|a|][..|out|];
    forall i | |out| <= i < |r| ensures r[i] == r[i - dist] {
      if i < |a| {
        assert r[i] == r[..|a|][i] && r[i - dist] == r[..|a|][i - dist];
      }
    }
    CopyUnique(out, dist, m + n, r);
  }

  // ---- The circular window ----------------------------------------------------------

  const WSIZE: nat := 0x8000
  const WORD: nat := 0x1_0000_0000

  // The history of the output, as far back as the window holds it.
  ghost predicate Mirrors(slide: seq<Byte>, w: nat, flushed: seq<Byte>)
  {
    |slide| == WSIZE && w <= WSIZE && |flushed| % WSIZE == 0
    && (flushed != [] ==> forall j :: w <= j < WSIZE ==> slide[j] == flushed[|flushed| - WSIZE + j])
  }

  class Window {
    const slide: array<Byte>
    var w: nat
    var flushed: seq<Byte>

    ghost predicate Valid()
      reads this, slide
      ensures Valid() ==> w < slide.Length
    {
      w < WSIZE && Mirrors(slide[..], w, flushed)
    }

    // Everything put out so far, flushed or not.
    ghost function History(): seq<Byte>
      reads this, slide
      requires w <= slide.Length
    {
      flushed + slide[..w]
    }

    constructor ()
      ensures Valid() && History() == [] && fresh(slide)
    {
      slide := new Byte[WSIZE];
      w, flushed := 0, [];
    }

    // flush_output
    method FlushOutput()
      requires w <= slide.Length
      modifies this`w, this`flushed
      ensures w == 0 && flushed == old(flushed + slide[..w])
    {
      flushed := flushed + slide[..w];
      w := 0;
    }

    // One byte of output; the window is flushed when it is full.
    method PutByte(x: Byte)
      requires Valid()
      modifies this, slide
      ensures Valid() && History() == old(History()) + [x]
    {
      ghost var h := History();
      slide[w] := x;
      w := w + 1;
      assert flushed + slide[..w] == h + [x];
      if w == WSIZE { FlushFull(); }
    }

    method FlushFull()
      requires w == WSIZE && Mirrors(slide[..], w, flushed)
      modifies this`w, this`flushed
      ensures Valid() && w == 0 && History() == old(History())
    {
      ghost var h := History();
      assert slide[..w] == slide[..];
      FlushOutput();
      assert flushed + slide[..0] == h;
    }

    // One chunk of a copy: e bytes from slide[d..] to slide[w..], neither of which
    // passes the end of the window.  memcpy reads all bytes before it writes.
    // Before anything was flushed, there is nothing to copy beyond slide[w].
    method CopyChunk(d0: nat, e0: nat)
      requires Mirrors(slide[..], w, flushed) && e0 >= 1 && w + e0 <= WSIZE && d0 + e0 <= WSIZE
      modifies this`w, slide
      ensures w == old(w) + e0 && Mirrors(slide[..], w, flushed)
      ensures d0 < old(w) || flushed != [] ==>
        1 <= Back(d0, old(w)) <= |old(History())| && History() == Copy(old(History()), Back(d0, old(w)), e0)
    {
      hide Copy;
      ghost var h, w0, s0 := History(), w, slide[..];
      if (w - d0) % WORD >= e0 {
        forall i | 0 <= i < e0 {
          slide[w + i] := slide[d0 + i];
        }
        assert forall j :: w0 <= j < w0 + e0 ==> slide[..][j] == s0[d0 + (j - w0)];
        AtOnce(s0, slide[..], w0, d0, e0);
        w := w + e0;
      } else {
        var d, e := d0, e0;
        while e != 0
          invariant 0 <= e <= e0 && d + e == d0 + e0 && w + e == w0 + e0
          invariant Copying(s0, slide[..], w0, d0, w)
          decreases e
        {
          ghost var s := slide[..];
          slide[w] := slide[d];
          assert slide[..] == s[w := s[d]];
          ChunkStep(s0, s, w0, d0, w, slide[..]);
          w, d := w + 1, d + 1;
          e := e - 1;
        }
      }
      ChunkIsCopy(s0, slide[..], w0, d0, e0, flushed);
    }

    // As many of the n bytes of a copy as can be copied without a wrap-around.
    method CopyPart(n: nat, d0: nat, dist: nat) returns (e: nat, d: nat)
      requires Valid() && n >= 1 && 1 <= dist <= WSIZE && d0 % WSIZE == (w - dist) % WSIZE
      modifies this, slide
      ensures Valid() && 1 <= e <= n && d % WSIZE == (w - dist) % WSIZE
      ensures dist <= |old(History())| ==> History() == Copy(old(History()), dist, e)
    {
      hide Copy, Mirrors;
      WindowFacts(slide[..], w, flushed);
      d := d0 % WSIZE;
      e := WSIZE - if d > w then d else w;
      if e > n { e := n; }
      BackIs(d, w, dist);
      ghost var w0 := w;
      CopyChunk(d, e);
      if w == WSIZE { FlushFull(); } else { StillMirrors(slide[..], w, flushed); }
      BackStep(d, w0, dist, e, w);
      d := d + e;
    }

    // Copy n bytes from dist bytes back, in chunks that stay inside the window.
    // A distance that reaches before the first byte copies what is there.
    method CopyMatch(n0: nat, dist: nat)
      requires Valid() && n0 >= 1 && 1 <= dist <= WSIZE
      modifies this, slide
      ensures Valid()
      ensures dist <= |old(History())| ==> History() == Copy(old(History()), dist, n0)
    {
      hide Copy, Mirrors, Valid;
      ghost var h := History();
      var n: nat, d: nat := n0, (w - dist) % WORD;
      if dist <= |h| { CopyNone(h, dist); }
      WordMultiple(w, dist);
      while true
        invariant 0 < n <= n0 && Valid() && d % WSIZE == (w - dist) % WSIZE && w <= slide.Length
        invariant dist <= |h| ==> History() == Copy(h, dist, n0 - n)
        decreases n
      {
        var e;
        e, d := CopyPart(n, d, dist);
        if dist <= |h| { CopySplit(h, dist, n0 - n, e); }
        n := n - e;
        if n == 0 { break; }
      }
    }
  }

  lemma WordMultiple(w: nat, dist: nat)
    ensures ((w - dist) % WORD) % WSIZE == (w - dist) % WSIZE
  {
    var x := w - dist;
    assert x == WSIZE * (0x20000 * (x / WORD)) + x % WORD;
  }

  // How far back slide[d] is, seen from slide[w].
  function Back(d: nat, w: nat): int
  {
    if d < w then w - d else w - d + WSIZE
  }

  lemma BackIs(d: nat, w: nat, dist: nat)
    requires d < WSIZE && w < WSIZE && 1 <= dist <= WSIZE && d % WSIZE == (w - dist) % WSIZE
    ensures Back(d, w) == dist
  {
  }

  lemma CopyNone(out: seq<Byte>, dist: nat)
    requires 1 <= dist <= |out|
    ensures Copy(out, dist, 0) == out
  {
  }

  lemma BackStep(d: nat, w: nat, dist: nat, e: nat, w': nat)
    requires d < WSIZE && w + e <= WSIZE && d % WSIZE == (w - dist) % WSIZE
    requires w' == if w + e == WSIZE then 0 else w + e
    ensures (d + e) % WSIZE == (w' - dist) % WSIZE
  {
  }

  lemma WindowFacts(slide: seq<Byte>, w: nat, flushed: seq<Byte>)
    requires Mirrors(slide, w, flushed)
    ensures |slide| == WSIZE && w <= WSIZE && (|flushed| > 0 ==> |flushed| >= WSIZE)
  {
  }

  lemma StillMirrors(slide: seq<Byte>, w: nat, flushed: seq<Byte>)
    requires Mirrors(slide, w, flushed) && w != WSIZE
    ensures w < WSIZE
  {
  }

  // slide[j] has its final value; bytes copied in the same chunk may be its source.
  predicate Copied(s0: seq<Byte>, s: seq<Byte>, w0: nat, d0: nat, j: nat)
    requires |s0| == |s| && w0 <= j < |s| && d0 + (j - w0) < |s|
  {
    s[j] == if d0 < w0 <= d0 + (j - w0) then s[d0 + (j - w0)] else s0[d0 + (j - w0)]
  }

  // The bytes from w0 to w have been copied and the others are unchanged.
  predicate Copying(s0: seq<Byte>, s: seq<Byte>, w0: nat, d0: nat, w: nat)
  {
    |s0| == |s| && w0 <= w <= |s| && d0 + (w - w0) <= |s|
    && (forall j :: 0 <= j < |s| && (j < w0 || w <= j) ==> s[j] == s0[j])
    && forall j :: w0 <= j < w ==> Copied(s0, s, w0, d0, j)
  }

  lemma ChunkStep(s0: seq<Byte>, s: seq<Byte>, w0: nat, d0: nat, w: nat, s': seq<Byte>)
    requires Copying(s0, s, w0, d0, w) && w < |s| && d0 + (w - w0) < |s|
    requires s' == s[w := s[d0 + (w - w0)]]
    ensures Copying(s0, s', w0, d0, w + 1)
  {
    forall j | w0 <= j < w + 1 ensures Copied(s0, s', w0, d0, j) {
      if j < w { assert Copied(s0, s, w0, d0, j); }
    }
  }

  lemma AtOnce(s0: seq<Byte>, s: seq<Byte>, w0: nat, d0: nat, e: nat)
    requires |s0| == |s| < WORD && w0 + e <= |s| && d0 + e <= |s| && (w0 - d0) % WORD >= e
    requires forall j :: w0 <= j < w0 + e ==> s[j] == s0[d0 + (j - w0)]
    requires forall j :: 0 <= j < |s| && (j < w0 || w0 + e <= j) ==> s[j] == s0[j]
    ensures Copying(s0, s, w0, d0, w0 + e)
  {
    forall j | w0 <= j < w0 + e ensures Copied(s0, s, w0, d0, j) {
    }
  }

  // Writing the bytes one by one gives the bytes of a copy.
  lemma ChunkIsCopy(s0: seq<Byte>, s1: seq<Byte>, w0: nat, d0: nat, e: nat, flushed: seq<Byte>)
    requires Mirrors(s0, w0, flushed) && e >= 1 && w0 + e <= WSIZE && d0 + e <= WSIZE
    requires Copying(s0, s1, w0, d0, w0 + e)
    ensures Mirrors(s1, w0 + e, flushed)
    ensures d0 < w0 || flushed != [] ==>
      1 <= Back(d0, w0) <= |flushed + s0[..w0]| && flushed + s1[..w0 + e] == Copy(flushed + s0[..w0], Back(d0, w0), e)
  {
    if d0 < w0 || flushed != [] { ReachedChunk(s0, s1, w0, d0, e, flushed); }
  }

  lemma ReachedChunk(s0: seq<Byte>, s1: seq<Byte>, w0: nat, d0: nat, e: nat, flushed: seq<Byte>)
    requires Mirrors(s0, w0, flushed) && e >= 1 && w0 + e <= WSIZE && d0 + e <= WSIZE
    requires Copying(s0, s1, w0, d0, w0 + e) && (d0 < w0 || flushed != [])
    ensures 1 <= Back(d0, w0) <= |flushed + s0[..w0]|
    ensures flushed + s1[..w0 + e] == Copy(flushed + s0[..w0], Back(d0, w0), e)
  {
    hide Copy;
    var h, r, dist, n := flushed + s0[..w0], flushed + s1[..w0 + e], Back(d0, w0), |flushed|;
    assert n > 0 ==> n >= WSIZE;
    assert r[..|h|] == h;
    forall i | |h| <= i < |r| ensures r[i] == r[i - dist] {
      var k := i - |h|;
      assert r[i] == s1[w0 + k] && Copied(s0, s1, w0, d0, w0 + k);
      if d0 < w0 {
        assert r[i - dist] == s1[d0 + k];
      } else {
        assert r[i - dist] == flushed[n - WSIZE + (d0 + k)] == s0[d0 + k];
      }
    }
    CopyUnique(h, dist, e, r);
  }
}
