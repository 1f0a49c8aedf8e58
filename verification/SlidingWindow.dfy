// lm_init, INSERT_STRING and fill_window (deflate.c): the input is read into the
// upper part of the window, which slides over the input; the hash chains move
// along.
module SlidingWindow {
  import opened Bits
  import opened Lz77
  import opened Hash
  import opened Matcher

  // The first n bytes of the window are the input from base on.
  ghost predicate Shows(win: seq<Byte>, input: seq<Byte>, base: nat, n: nat)
  {
    n <= |win| && base + n <= |input| && win[..n] == input[base..base + n]
  }

  lemma ShowsAt(win: seq<Byte>, input: seq<Byte>, base: nat, n: nat, i: nat)
    requires Shows(win, input, base, n) && i < n
    ensures win[i] == input[base + i]
  {
    assert win[..n][i] == input[base..base + n][i];
  }

  lemma ShowsSlid(win: seq<Byte>, win': seq<Byte>, input: seq<Byte>, base: nat, n: nat)
    requires Shows(win, input, base, n) && |win'| == |win| == WINDOW_ROOM && WSIZE <= n <= WINDOW_SIZE
    requires forall i :: 0 <= i < WSIZE ==> win'[i] == win[i + WSIZE]
    ensures Shows(win', input, base + WSIZE, n - WSIZE)
  {
    var m := n - WSIZE;
    var a, b := win'[..m], input[base + WSIZE..base + n];
    forall i | 0 <= i < m ensures a[i] == b[i] {
      ShowsAt(win, input, base, n, i + WSIZE);
    }
    assert a == b;
  }

  lemma ShowsMore(win: seq<Byte>, win': seq<Byte>, input: seq<Byte>, base: nat, n: nat, k: nat)
    requires Shows(win, input, base, n) && |win'| == |win| && n + k <= |win| && base + n + k <= |input|
    requires forall i :: 0 <= i < n ==> win'[i] == win[i]
    requires forall i :: n <= i < n + k ==> win'[i] == input[base + i]
    ensures Shows(win', input, base, n + k)
  {
    var a, b := win'[..n + k], input[base..base + n + k];
    forall i | 0 <= i < n + k ensures a[i] == b[i] {
      if i < n { ShowsAt(win, input, base, n, i); }
    }
    assert a == b;
  }

  // The n bytes at k are those at m.
  ghost predicate Repeats(input: seq<Byte>, m: int, k: nat, n: nat)
  {
    0 <= m < k && k - m <= MAX_DIST && k + n <= |input| && forall i :: k <= i < k + n ==> input[i] == input[i - (k - m)]
  }

  // A match found in the window, cut to the bytes there are, repeats input.
  lemma MatchRepeats(win: seq<Byte>, input: seq<Byte>, base: nat, n: nat, m: int, s: nat, len: nat, cut: nat)
    requires Shows(win, input, base, n) && IsMatch(win, m, s, len) && cut <= len && s + cut <= n
    ensures Repeats(input, base + m, base + s, cut)
  {
    forall i | base + s <= i < base + s + cut ensures input[i] == input[i - (s - m)] {
      var k := i - base - s;
      assert SameByte(win, m, s, k);
      ShowsAt(win, input, base, n, s + k);
      ShowsAt(win, input, base, n, m + k);
    }
  }

  // The chains up to position cur, and the hash running on from there.
  ghost predicate Chains(win: seq<Byte>, prev: seq<nat>, head: seq<nat>, ins: seq<bool>, insH: nat, cur: nat)
  {
    Chained(win, prev, head, ins, cur) && Unbroken(win, prev, head, ins, cur)
    && (forall s :: cur <= s < |ins| ==> !ins[s])
    && Primed(insH, win[cur], win[cur + 1])
  }

  lemma ChainsInsert(win: seq<Byte>, prev: seq<nat>, head: seq<nat>, ins: seq<bool>, insH: nat, cur: nat)
    requires Chains(win, prev, head, ins, insH, cur) && cur < WINDOW_SIZE
    ensures |win| == |ins| == WINDOW_ROOM && |prev| == WSIZE && |head| == HASH_SIZE
    ensures var h, ins' := Update(insH, win[cur + 2]), ins[cur := true];
            Chains(win, prev[cur % WSIZE := head[h]], head[h := cur], ins', h, cur + 1)
            && (head[h] != 0 && cur - head[h] <= MAX_DIST ==> Candidate(win, ins', head[h], cur))
            && Latest(win, ins, cur, head[h], cur, HashAt(win, cur))
  {
    hide Update, Hash3;
    RollOn(insH, win[cur], win[cur + 1], win[cur + 2]);
    var h := Update(insH, win[cur + 2]);
    ChainedInsert(win, prev, head, ins, cur, h);
    UnbrokenInsert(win, prev, head, ins, cur, h);
    assert LinksTo(win, ins, cur, head[h], h);
    assert Latest(win, ins, cur, head[h], cur, h);
  }

  // m is the last position before s where a string with the hash of that at s was
  // inserted.
  ghost predicate Newest(win: seq<Byte>, ins: seq<bool>, s: nat, m: nat)
    ensures Newest(win, ins, s, m) ==> |ins| == |win| && s + 2 < |win|
  {
    |ins| == |win| && s + 2 < |win| && Latest(win, ins, s, m, s, HashAt(win, s))
  }

  // The positions from a to b have been marked, and no other.
  ghost predicate Marked(ins: seq<bool>, ins': seq<bool>, a: nat, b: nat)
  {
    |ins'| == |ins| && forall q :: 0 <= q < |ins| ==> ins'[q] == (ins[q] || a <= q < b)
  }

  lemma NoneMarked(ins: seq<bool>, a: nat)
    ensures Marked(ins, ins, a, a)
  {
  }

  lemma MarkedMore(ins: seq<bool>, ins': seq<bool>, a: nat, b: nat)
    requires Marked(ins, ins', a, b) && a <= b < |ins'|
    ensures Marked(ins, ins'[b := true], a, b + 1)
  {
  }

  lemma ChainsChained(win: seq<Byte>, prev: seq<nat>, head: seq<nat>, ins: seq<bool>, insH: nat, cur: nat)
    requires Chains(win, prev, head, ins, insH, cur)
    ensures Chained(win, prev, head, ins, cur) && Unbroken(win, prev, head, ins, cur)
  {
  }

  lemma ChainsSkip(win: seq<Byte>, prev: seq<nat>, head: seq<nat>, ins: seq<bool>, insH: nat, cur: nat, cur': nat)
    requires Chains(win, prev, head, ins, insH, cur) && cur <= cur' <= WINDOW_SIZE && |win| == WINDOW_ROOM
    ensures Chains(win, prev, head, ins, Update(win[cur'], win[cur' + 1]), cur')
  {
    hide Update, Primed;
    ChainedSkip(win, prev, head, ins, cur, cur');
    UnbrokenSkip(win, prev, head, ins, cur, cur');
    RestartHash(win[cur'], win[cur' + 1]);
  }

  lemma ChainsSizes(win: seq<Byte>, prev: seq<nat>, head: seq<nat>, ins: seq<bool>, insH: nat, cur: nat)
    requires Chains(win, prev, head, ins, insH, cur)
    ensures |win| == |ins| == WINDOW_ROOM && |prev| == WSIZE && |head| == HASH_SIZE && cur <= WINDOW_SIZE
  {
  }

  lemma ChainsSlide(win: seq<Byte>, win': seq<Byte>, prev: seq<nat>, prev': seq<nat>, head: seq<nat>, head': seq<nat>,
                    ins: seq<bool>, insH: nat, cur: nat)
    requires Chains(win, prev, head, ins, insH, cur) && WSIZE <= cur < WINDOW_SIZE - 1
    requires |win'| == |win| && |prev'| == |prev| && |head'| == |head|
    requires forall i :: 0 <= i < WSIZE ==> win'[i] == win[i + WSIZE]
    requires forall i :: 0 <= i < |prev| ==> prev'[i] == Slid(prev[i])
    requires forall i :: 0 <= i < |head| ==> head'[i] == Slid(head[i])
    ensures Chains(win', prev', head', SlidMarks(ins), insH, cur - WSIZE)
  {
    hide Primed;
    ChainedSlide(win, win', prev, prev', head, head', ins, cur);
    UnbrokenSlide(win, win', prev, prev', head, head', ins, cur);
  }

  lemma ChainsRead(win: seq<Byte>, win': seq<Byte>, prev: seq<nat>, head: seq<nat>, ins: seq<bool>, insH: nat, cur: nat)
    requires Chains(win, prev, head, ins, insH, cur) && |win'| == |win|
    requires forall i :: 0 <= i < cur + 2 ==> win'[i] == win[i]
    ensures Chains(win', prev, head, ins, insH, cur)
  {
    hide Primed;
    ChainedRead(win, win', prev, head, ins, cur);
    UnbrokenRead(win, win', prev, head, ins, cur);
  }

  class Slider {
    const input: seq<Byte>
    const window: array<Byte>
    const prev: array<nat>
    const head: array<nat>
    var inpos: nat
    var strstart: nat
    var lookahead: nat
    var matchStart: int
    var blockStart: int
    var insH: nat
    var eofile: bool
    ghost var base: nat
    ghost var ins: seq<bool>

    ghost predicate Valid()
      reads this, window
    {
      window.Length == WINDOW_ROOM && prev.Length == WSIZE && head.Length == HASH_SIZE && prev != head
      && strstart + lookahead <= WINDOW_SIZE && base + strstart + lookahead == inpos
      && Shows(window[..], input, base, strstart + lookahead)
      && (eofile ==> inpos == |input| && strstart + lookahead <= WINDOW_SIZE - 2)
    }

    ghost predicate ChainsTo(cur: nat)
      reads this, window, prev, head
    {
      Chains(window[..], prev[..], head[..], ins, insH, cur)
    }

    // The state at the beginning of a step.
    ghost predicate Ready()
      reads this, window, prev, head
    {
      Valid() && ChainsTo(strstart) && (eofile || lookahead >= MIN_LOOKAHEAD)
    }

    // The place in the input.
    ghost function Pos(i: int): int
      reads this
    {
      base + i
    }

    // INSERT_STRING: also the previous head of the chain.
    method InsertString(s: nat) returns (hashHead: nat)
      requires ChainsTo(s) && s < WINDOW_SIZE && prev != head
      modifies this`insH, this`ins, prev, head
      ensures ChainsTo(s + 1) && old(Valid()) == Valid()
      ensures hashHead != 0 && s - hashHead <= MAX_DIST
              ==> |ins| == WINDOW_ROOM && Candidate(window[..], ins, hashHead, s)
      ensures Newest(window[..], old(ins), s, hashHead)
      ensures s < old(|ins|) && ins == old(ins)[s := true]
    {
      hide Chains, Shows, Update, Candidate;
      ChainsSizes(window[..], prev[..], head[..], ins, insH, s);
      ChainsInsert(window[..], prev[..], head[..], ins, insH, s);
      ghost var p, h := prev[..], head[..];
      insH := Update(insH, window[s + 2]);
      hashHead := head[insH];
      prev[s % WSIZE] := hashHead;
      head[insH] := s;
      ins := ins[s := true];
      assert prev[..] == p[s % WSIZE := hashHead] && head[..] == h[insH := s];
    }

    // Go on by one byte.
    method Advance()
      requires Valid() && lookahead >= 1
      modifies this`strstart, this`lookahead
      ensures Valid() && strstart == old(strstart) + 1 && lookahead == old(lookahead) - 1
    {
      strstart := strstart + 1;
      lookahead := lookahead - 1;
    }

    // Go on by n bytes and insert the strings on the way; the one at strstart has
    // been inserted.
    method InsertRest(n: nat)
      requires Valid() && ChainsTo(strstart + 1) && 2 <= n <= lookahead
      modifies this`strstart, this`lookahead, this`insH, this`ins, prev, head
      ensures Valid() && ChainsTo(strstart) && strstart == old(strstart) + n && lookahead == old(lookahead) - n
      ensures Marked(old(ins), ins, old(strstart) + 1, strstart)
    {
      hide Chains, Shows, Newest, Marked;
      ghost var ins0, s0 := ins, strstart + 1;
      NoneMarked(ins, s0);
      lookahead := lookahead - n;
      var m := n - 1;
      while true
        invariant 1 <= m <= n - 1 && strstart + m == old(strstart) + n - 1 && ChainsTo(strstart + 1)
        invariant strstart + m + lookahead + 1 == old(strstart + lookahead) && lookahead == old(lookahead) - n
        invariant s0 <= strstart + 1 && Marked(ins0, ins, s0, strstart + 1)
        decreases m
      {
        strstart := strstart + 1;
        ghost var was := ins;
        var _ := InsertString(strstart);
        MarkedMore(ins0, was, s0, strstart);
        m := m - 1;
        if m == 0 { break; }
      }
      strstart := strstart + 1;
    }

    // Go on by n bytes without inserting strings, and begin the running hash anew.
    method SkipRest(n: nat)
      requires Valid() && ChainsTo(strstart + 1) && 1 <= n <= lookahead
      modifies this`strstart, this`lookahead, this`insH
      ensures Valid() && ChainsTo(strstart) && strstart == old(strstart) + n && lookahead == old(lookahead) - n
    {
      hide Chains, Shows, Update;
      ChainsSizes(window[..], prev[..], head[..], ins, insH, strstart + 1);
      lookahead := lookahead - n;
      strstart := strstart + n;
      ChainsSkip(window[..], prev[..], head[..], ins, insH, strstart - n + 1, strstart);
      insH := window[strstart];
      insH := Update(insH, window[strstart + 1]);
    }

    // What a search at strstart came to: a string of `found` bytes at matchStart.
    ghost predicate FoundIn(hashHead: nat, prevLength: nat, goodMatch: nat, niceMatch: nat, maxChain: nat, found: nat)
      reads this, window, prev
    {
      prev.Length == WSIZE
      && var seen := OnChain(prev[..], hashHead, LimitOf(strstart), ChainLength(prevLength, goodMatch, maxChain));
         Longest(window[..], seen, strstart, prevLength, niceMatch, found, matchStart)
    }

    // longest_match for the string at strstart, cut to the bytes there are.
    method FindMatch(hashHead: nat, prevLength: nat, goodMatch: nat, niceMatch: nat, maxChain: nat)
      returns (len: nat, ghost found: nat)
      requires Valid() && ChainsTo(strstart + 1) && maxChain >= 4 && 1 <= prevLength <= MAX_MATCH && lookahead >= 1
      requires |ins| == WINDOW_ROOM && Candidate(window[..], ins, hashHead, strstart)
      modifies this`matchStart
      ensures Valid() && ChainsTo(strstart + 1) && 1 <= len <= MAX_MATCH && len <= lookahead
      ensures len > prevLength ==> Repeats(input, base + matchStart, base + strstart, len)
      ensures FoundIn(hashHead, prevLength, goodMatch, niceMatch, maxChain, found)
      ensures len == if found > lookahead then lookahead else found
    {
      hide Chains, Shows, Candidate, IsMatch, Longest, OnChain, LimitOf, ChainLength, Unbroken, Chained;
      ChainsSizes(window[..], prev[..], head[..], ins, insH, strstart + 1);
      ChainsChained(window[..], prev[..], head[..], ins, insH, strstart + 1);
      len, matchStart := LongestMatch(window, prev, strstart, hashHead, prevLength, matchStart, goodMatch, niceMatch,
        maxChain, head[..], ins);
      found := len;
      if len > lookahead { len := lookahead; }
      if found > prevLength {
        MatchRepeats(window[..], input, base, strstart + lookahead, matchStart, strstart, found, len);
      }
    }

    // All positions move down by WSIZE.
    method SlidePositions(a: array<nat>)
      modifies a
      ensures forall i :: 0 <= i < a.Length ==> a[i] == Slid(old(a[i]))
    {
      var n := 0;
      while n < a.Length
        invariant 0 <= n <= a.Length
        invariant forall i :: 0 <= i < n ==> a[i] == Slid(old(a[i]))
        invariant forall i :: n <= i < a.Length ==> a[i] == old(a[i])
      {
        var m := a[n];
        a[n] := if m >= WSIZE then m - WSIZE else 0;
        n := n + 1;
      }
    }

    // Move the upper half of the window to the lower one.
    method Slide()
      requires Valid() && ChainsTo(strstart) && strstart >= WSIZE && lookahead >= 2 && !eofile
      modifies this, window, prev, head
      ensures Valid() && ChainsTo(strstart) && strstart == old(strstart) - WSIZE && lookahead == old(lookahead)
      ensures base == old(base) + WSIZE && matchStart == old(matchStart) - WSIZE
              && blockStart == old(blockStart) - WSIZE
      ensures inpos == old(inpos) && eofile == old(eofile)
    {
      hide Chains, Shows, Slid;
      ghost var w0, p0, h0 := window[..], prev[..], head[..];
      ChainsSizes(w0, p0, h0, ins, insH, strstart);
      forall i | 0 <= i < WSIZE { window[i] := window[i + WSIZE]; }
      assert forall i :: 0 <= i < WSIZE ==> window[..][i] == w0[i + WSIZE];
      SlidePositions(head);
      SlidePositions(prev);
      ChainsSlide(w0, window[..], p0, prev[..], h0, head[..], ins, insH, strstart);
      ShowsSlid(w0, window[..], input, base, strstart + lookahead);
      matchStart := matchStart - WSIZE;
      strstart := strstart - WSIZE;
      blockStart := blockStart - WSIZE;
      base := base + WSIZE;
      ins := SlidMarks(ins);
    }

    // read_buf: any number of bytes that fits, none only at the end of the input.
    method ReadBuf(at: nat, size: nat) returns (n: nat)
      requires Valid() && at == strstart + lookahead && 1 <= size && at + size <= window.Length
      modifies window, this`inpos
      ensures n <= size && (n == 0 <==> old(inpos) == |input|) && inpos == old(inpos) + n <= |input|
      ensures forall i :: 0 <= i < at ==> window[i] == old(window[i])
      ensures Shows(window[..], input, base, at + n)
    {
      hide Chains;
      ghost var w0 := window[..];
      ShowsFits(w0, input, base, at);
      if inpos == |input| {
        return 0;
      }
      n :| 1 <= n <= size && n <= |input| - inpos;
      forall i | 0 <= i < n { window[at + i] := input[inpos + i]; }
      assert forall i :: at <= i < at + n ==> window[..][i] == input[base + i];
      ShowsMore(w0, window[..], input, base, at, n);
      inpos := inpos + n;
    }

    // fill_window; at the very beginning there are no chains yet.
    method FillWindow(ghost chained: bool)
      requires Valid() && lookahead < MIN_LOOKAHEAD && !eofile
      requires if chained then ChainsTo(strstart) && lookahead >= 2 else strstart == 0
      modifies this, window, prev, head
      ensures Valid() && (eofile || lookahead > old(lookahead)) && lookahead >= old(lookahead)
      ensures chained ==> ChainsTo(strstart)
      ensures !chained ==> strstart == 0 && head[..] == old(head[..]) && ins == old(ins) && base == old(base)
      ensures strstart == old(strstart) || strstart >= MAX_DIST
      ensures base + strstart == old(base + strstart) && base + matchStart == old(base + matchStart)
      ensures base + blockStart == old(base + blockStart)
    {
      hide Chains, Shows;
      var more := WINDOW_SIZE - lookahead - strstart;
      if strstart >= WSIZE + MAX_DIST {
        Slide();
        more := more + WSIZE;
      }
      ghost var w0 := window[..];
      var n := ReadBuf(strstart + lookahead, more);
      if chained {
        ChainsSizes(w0, prev[..], head[..], ins, insH, strstart);
        ChainsRead(w0, window[..], prev[..], head[..], ins, insH, strstart);
      }
      if n == 0 {
        eofile := true;
      } else {
        lookahead := lookahead + n;
      }
    }

    // Read the first bytes; the hash of the first two begins the running hash.
    method Start()
      requires Valid() && strstart == 0 && lookahead == 0 && !eofile && |ins| == WINDOW_ROOM
      requires forall h :: 0 <= h < HASH_SIZE ==> head[h] == 0
      requires forall s :: 0 <= s < |ins| ==> !ins[s]
      modifies this, window, prev, head
      ensures Ready() && base + strstart == old(base) && base + blockStart == old(base + blockStart)
    {
      hide Chains, Shows, Update;
      ghost var h0 := head[..];
      lookahead := ReadBuf(0, WINDOW_SIZE);
      if lookahead == 0 {
        eofile := true;
      }
      while lookahead < MIN_LOOKAHEAD && !eofile
        invariant Valid() && strstart == 0 && base == old(base) && base + blockStart == old(base + blockStart)
        invariant head[..] == h0 && ins == old(ins)
        decreases !eofile, MIN_LOOKAHEAD - lookahead
      {
        FillWindow(false);
      }
      insH := Update(Update(0, window[0]), window[1]);
      ChainsStart(window[..], prev[..], h0, ins, insH);
    }

    // lm_init
    constructor (bytes: seq<Byte>)
      ensures Ready() && input == bytes && Pos(strstart) == 0 && Pos(blockStart) == 0
      ensures fresh(window) && fresh(prev) && fresh(head)
    {
      hide Chains, Shows;
      input := bytes;
      window, prev := new Byte[WINDOW_ROOM], new nat[WSIZE];
      head := new nat[HASH_SIZE](i => 0);
      inpos, strstart, lookahead, matchStart, blockStart, insH := 0, 0, 0, 0, 0, 0;
      eofile, base, ins := false, 0, seq(WINDOW_ROOM, i => false);
      new;
      ShowsNothing(window[..], input);
      Start();
    }

    // Before the next step there must be enough lookahead, if there is that much input.
    method Refill()
      requires Valid() && ChainsTo(strstart) && (eofile || lookahead >= 2)
      modifies this, window, prev, head
      ensures Ready() && (strstart == old(strstart) || strstart >= MAX_DIST) && lookahead >= old(lookahead)
      ensures base + strstart == old(base + strstart) && base + matchStart == old(base + matchStart)
      ensures base + blockStart == old(base + blockStart)
    {
      hide Chains, Shows;
      while lookahead < MIN_LOOKAHEAD && !eofile
        invariant Valid() && ChainsTo(strstart) && (eofile || lookahead >= 2)
        invariant (strstart == old(strstart) || strstart >= MAX_DIST) && lookahead >= old(lookahead)
        invariant base + strstart == old(base + strstart) && base + matchStart == old(base + matchStart)
        invariant base + blockStart == old(base + blockStart)
        decreases !eofile, MIN_LOOKAHEAD - lookahead
      {
        FillWindow(true);
      }
    }
  }

  lemma ShowsNothing(win: seq<Byte>, input: seq<Byte>)
    ensures Shows(win, input, 0, 0)
  {
  }

  lemma ChainsStart(win: seq<Byte>, prev: seq<nat>, head: seq<nat>, ins: seq<bool>, insH: nat)
    requires |win| == |ins| == WINDOW_ROOM && |prev| == WSIZE && |head| == HASH_SIZE
    requires (forall h :: 0 <= h < HASH_SIZE ==> head[h] == 0) && forall s :: 0 <= s < |ins| ==> !ins[s]
    requires insH == Update(Update(0, win[0]), win[1])
    ensures Chains(win, prev, head, ins, insH, 0)
  {
    ChainedNone(win, prev, head, ins);
    UnbrokenNone(win, prev, head, ins);
    StartHash(0, win[0], win[1]);
  }

  lemma ShowsFits(win: seq<Byte>, input: seq<Byte>, base: nat, n: nat)
    requires Shows(win, input, base, n)
    ensures base + n <= |input| && n <= |win|
  {
  }
}
