// The dictionary of deflate.c: hash chains of positions in the sliding window,
// and the search for a match along a chain.
module Matcher {
  import opened Bits
  import opened Lz77
  import opened Hash

  const MIN_LOOKAHEAD: nat := 262
  const MAX_DIST: nat := 32506
  const WINDOW_SIZE: nat := 0x10000
  // The search reads up to MAX_MATCH bytes beyond the current string, also at
  // the end of the input, where they may lie behind the window.
  const WINDOW_ROOM: nat := WINDOW_SIZE + MAX_MATCH + 1

  function HashAt(win: seq<Byte>, s: nat): nat
    requires s + 2 < |win|
  {
    Hash3(win[s], win[s + 1], win[s + 2])
  }

  // Position s is still within the reach of the links when the next position to
  // be inserted is cur; 0 stands for no position.
  predicate Recent(s: nat, cur: nat)
  {
    0 < s < cur <= s + WSIZE
  }

  // A link to t from where strings have hash h.
  ghost predicate LinksTo(win: seq<Byte>, ins: seq<bool>, cur: nat, t: nat, h: nat)
    requires cur < |win| - 1 && |ins| == |win|
  {
    Recent(t, cur) ==> ins[t] && HashAt(win, t) == h
  }

  ghost predicate LinkOK(win: seq<Byte>, prev: seq<nat>, ins: seq<bool>, cur: nat, s: nat)
    requires cur < |win| - 1 && |ins| == |win| && |prev| == WSIZE && s < cur
  {
    prev[s % WSIZE] < s && LinksTo(win, ins, cur, prev[s % WSIZE], HashAt(win, s))
  }

  // All positions marked in ins are linked to earlier ones with the same hash,
  // and head has the latest position for each hash.
  ghost predicate Chained(win: seq<Byte>, prev: seq<nat>, head: seq<nat>, ins: seq<bool>, cur: nat)
  {
    |win| == |ins| == WINDOW_ROOM && cur <= WINDOW_SIZE && |prev| == WSIZE && |head| == HASH_SIZE
    && (forall h :: 0 <= h < HASH_SIZE ==> (head[h] == 0 || head[h] < cur) && LinksTo(win, ins, cur, head[h], h))
    && forall s: nat :: Recent(s, cur) && ins[s] ==> LinkOK(win, prev, ins, cur, s)
  }

  lemma ChainedNone(win: seq<Byte>, prev: seq<nat>, head: seq<nat>, ins: seq<bool>)
    requires |win| == |ins| == WINDOW_ROOM && |prev| == WSIZE && |head| == HASH_SIZE
    requires forall h :: 0 <= h < HASH_SIZE ==> head[h] == 0
    ensures Chained(win, prev, head, ins, 0)
  {
  }

  // Passing over a position without inserting it.
  lemma ChainedSkip(win: seq<Byte>, prev: seq<nat>, head: seq<nat>, ins: seq<bool>, cur: nat, cur': nat)
    requires Chained(win, prev, head, ins, cur) && cur <= cur' <= WINDOW_SIZE
    requires forall s :: cur <= s < cur' ==> !ins[s]
    ensures Chained(win, prev, head, ins, cur')
  {
    hide Hash3;
    forall h | 0 <= h < HASH_SIZE ensures (head[h] == 0 || head[h] < cur') && LinksTo(win, ins, cur', head[h], h) {
      assert LinksTo(win, ins, cur, head[h], h);
    }
    forall s: nat | Recent(s, cur') && ins[s] ensures LinkOK(win, prev, ins, cur', s) {
      assert LinkOK(win, prev, ins, cur, s);
    }
  }

  lemma SameSlot(s: nat, cur: nat)
    requires Recent(s, cur + 1) && s != cur
    ensures s % WSIZE != cur % WSIZE
  {
  }

  // INSERT_STRING
  lemma ChainedInsert(win: seq<Byte>, prev: seq<nat>, head: seq<nat>, ins: seq<bool>, cur: nat, h: nat)
    requires Chained(win, prev, head, ins, cur) && cur < WINDOW_SIZE && h == HashAt(win, cur) < HASH_SIZE
    ensures Chained(win, prev[cur % WSIZE := head[h]], head[h := cur], ins[cur := true], cur + 1)
  {
    hide Hash3;
    var prev', head', ins' := prev[cur % WSIZE := head[h]], head[h := cur], ins[cur := true];
    assert LinksTo(win, ins, cur, head[h], h);
    forall g | 0 <= g < HASH_SIZE
      ensures (head'[g] == 0 || head'[g] < cur + 1) && LinksTo(win, ins', cur + 1, head'[g], g)
    {
      assert LinksTo(win, ins, cur, head[g], g);
    }
    forall s: nat | Recent(s, cur + 1) && ins'[s] ensures LinkOK(win, prev', ins', cur + 1, s) {
      if s != cur {
        SameSlot(s, cur);
        assert LinkOK(win, prev, ins, cur, s);
      }
    }
  }

  // Bytes behind the last ones that count for the hashes may change.
  lemma ChainedRead(win: seq<Byte>, win': seq<Byte>, prev: seq<nat>, head: seq<nat>, ins: seq<bool>, cur: nat)
    requires Chained(win, prev, head, ins, cur) && |win'| == |win|
    requires forall i :: 0 <= i < cur + 2 && i < |win| ==> win'[i] == win[i]
    ensures Chained(win', prev, head, ins, cur)
  {
    hide Hash3;
    forall h | 0 <= h < HASH_SIZE ensures LinksTo(win', ins, cur, head[h], h) {
      assert LinksTo(win, ins, cur, head[h], h);
    }
    forall s: nat | Recent(s, cur) && ins[s] ensures LinkOK(win', prev, ins, cur, s) {
      assert LinkOK(win, prev, ins, cur, s);
    }
  }

  // ---- Sliding the window ------------------------------------------------------------

  function Slid(m: nat): nat
  {
    if m >= WSIZE then m - WSIZE else 0
  }

  function SlidMarks(ins: seq<bool>): (r: seq<bool>)
    ensures |r| == |ins|
  {
    seq(|ins|, i requires 0 <= i < |ins| => i + WSIZE < |ins| && ins[i + WSIZE])
  }

  lemma ChainedSlide(win: seq<Byte>, win': seq<Byte>, prev: seq<nat>, prev': seq<nat>, head: seq<nat>, head': seq<nat>,
                     ins: seq<bool>, cur: nat)
    requires Chained(win, prev, head, ins, cur) && WSIZE <= cur < WINDOW_SIZE - 1
    requires |win'| == |win| && |prev'| == |prev| && |head'| == |head|
    requires forall i :: 0 <= i < WSIZE ==> win'[i] == win[i + WSIZE]
    requires forall i :: 0 <= i < |prev| ==> prev'[i] == Slid(prev[i])
    requires forall i :: 0 <= i < |head| ==> head'[i] == Slid(head[i])
    ensures Chained(win', prev', head', SlidMarks(ins), cur - WSIZE)
  {
    hide Hash3;
    var ins', c := SlidMarks(ins), cur - WSIZE;
    forall h | 0 <= h < HASH_SIZE ensures (head'[h] == 0 || head'[h] < c) && LinksTo(win', ins', c, head'[h], h) {
      assert LinksTo(win, ins, cur, head[h], h);
    }
    forall s: nat | Recent(s, c) && ins'[s] ensures LinkOK(win', prev', ins', c, s) {
      assert LinkOK(win, prev, ins, cur, s + WSIZE);
      assert (s + WSIZE) % WSIZE == s % WSIZE;
    }
  }

  // ---- Nothing is left out of the chains -----------------------------------------------

  predicate Inserted(win: seq<Byte>, ins: seq<bool>, q: nat, h: nat)
    requires |ins| == |win| && q + 2 < |win|
  {
    ins[q] && HashAt(win, q) == h
  }

  // No position with this hash that was inserted lies between t and `below`.
  ghost predicate Latest(win: seq<Byte>, ins: seq<bool>, cur: nat, t: nat, below: nat, h: nat)
    requires |ins| == |win| && cur + 1 < |win|
  {
    forall q: nat :: q < below && Recent(q, cur) && Inserted(win, ins, q, h) ==> q <= t
  }

  ghost predicate LatestBefore(win: seq<Byte>, prev: seq<nat>, ins: seq<bool>, cur: nat, s: nat)
    requires |ins| == |win| && cur + 1 < |win| && |prev| == WSIZE && s < cur
  {
    Latest(win, ins, cur, prev[s % WSIZE], s, HashAt(win, s))
  }

  // The head of a chain is the latest position with its hash, and from every position the
  // chain goes on with the latest one before it.
  ghost predicate Unbroken(win: seq<Byte>, prev: seq<nat>, head: seq<nat>, ins: seq<bool>, cur: nat)
  {
    |win| == |ins| == WINDOW_ROOM && cur <= WINDOW_SIZE && |prev| == WSIZE && |head| == HASH_SIZE
    && (forall h :: 0 <= h < HASH_SIZE ==> Latest(win, ins, cur, head[h], cur, h))
    && forall s: nat :: Recent(s, cur) && ins[s] ==> LatestBefore(win, prev, ins, cur, s)
  }

  lemma UnbrokenNone(win: seq<Byte>, prev: seq<nat>, head: seq<nat>, ins: seq<bool>)
    requires |win| == |ins| == WINDOW_ROOM && |prev| == WSIZE && |head| == HASH_SIZE
    ensures Unbroken(win, prev, head, ins, 0)
  {
  }

  lemma UnbrokenSkip(win: seq<Byte>, prev: seq<nat>, head: seq<nat>, ins: seq<bool>, cur: nat, cur': nat)
    requires Unbroken(win, prev, head, ins, cur) && cur <= cur' <= WINDOW_SIZE
    requires forall s :: cur <= s < cur' ==> !ins[s]
    ensures Unbroken(win, prev, head, ins, cur')
  {
    hide HashAt;
    forall h | 0 <= h < HASH_SIZE ensures Latest(win, ins, cur', head[h], cur', h) {
      assert Latest(win, ins, cur, head[h], cur, h);
    }
    forall s: nat | Recent(s, cur') && ins[s] ensures LatestBefore(win, prev, ins, cur', s) {
      assert LatestBefore(win, prev, ins, cur, s);
    }
  }

  lemma UnbrokenInsert(win: seq<Byte>, prev: seq<nat>, head: seq<nat>, ins: seq<bool>, cur: nat, h: nat)
    requires Unbroken(win, prev, head, ins, cur) && cur < WINDOW_SIZE && h == HashAt(win, cur) < HASH_SIZE
    ensures Unbroken(win, prev[cur % WSIZE := head[h]], head[h := cur], ins[cur := true], cur + 1)
  {
    hide HashAt;
    var prev', head', ins' := prev[cur % WSIZE := head[h]], head[h := cur], ins[cur := true];
    forall g | 0 <= g < HASH_SIZE ensures Latest(win, ins', cur + 1, head'[g], cur + 1, g) {
      assert Latest(win, ins, cur, head[g], cur, g);
      LatestInserted(win, ins, cur, head[g], g);
    }
    forall s: nat | Recent(s, cur + 1) && ins'[s] ensures LatestBefore(win, prev', ins', cur + 1, s) {
      if s == cur {
        assert Latest(win, ins, cur, head[h], cur, h);
        LatestMarked(win, ins, cur, head[h], cur, h);
      } else {
        SameSlot(s, cur);
        assert LatestBefore(win, prev, ins, cur, s);
        LatestMarked(win, ins, cur, prev[s % WSIZE], s, HashAt(win, s));
      }
    }
  }

  lemma LatestMarked(win: seq<Byte>, ins: seq<bool>, cur: nat, t: nat, below: nat, h: nat)
    requires |ins| == |win| && cur + 2 < |win| && below <= cur && Latest(win, ins, cur, t, below, h)
    ensures Latest(win, ins[cur := true], cur + 1, t, below, h)
  {
    hide HashAt;
    var ins' := ins[cur := true];
    forall q: nat | q < below && Recent(q, cur + 1) && Inserted(win, ins', q, h) ensures q <= t {
      assert Inserted(win, ins, q, h);
    }
  }

  lemma LatestInserted(win: seq<Byte>, ins: seq<bool>, cur: nat, t: nat, h: nat)
    requires |ins| == |win| && cur + 2 < |win| && Latest(win, ins, cur, t, cur, h)
    ensures HashAt(win, cur) == h ==> Latest(win, ins[cur := true], cur + 1, cur, cur + 1, h)
    ensures HashAt(win, cur) != h ==> Latest(win, ins[cur := true], cur + 1, t, cur + 1, h)
  {
    hide HashAt;
    var ins' := ins[cur := true];
    forall q: nat | q < cur && Recent(q, cur + 1) && Inserted(win, ins', q, h) ensures q <= t {
      assert Inserted(win, ins, q, h);
    }
  }

  lemma UnbrokenRead(win: seq<Byte>, win': seq<Byte>, prev: seq<nat>, head: seq<nat>, ins: seq<bool>, cur: nat)
    requires Unbroken(win, prev, head, ins, cur) && |win'| == |win|
    requires forall i :: 0 <= i < cur + 2 && i < |win| ==> win'[i] == win[i]
    ensures Unbroken(win', prev, head, ins, cur)
  {
    hide Hash3;
    forall h | 0 <= h < HASH_SIZE ensures Latest(win', ins, cur, head[h], cur, h) {
      assert Latest(win, ins, cur, head[h], cur, h);
      LatestRead(win, win', ins, cur, head[h], cur, h);
    }
    forall s: nat | Recent(s, cur) && ins[s] ensures LatestBefore(win', prev, ins, cur, s) {
      assert LatestBefore(win, prev, ins, cur, s);
      LatestRead(win, win', ins, cur, prev[s % WSIZE], s, HashAt(win, s));
    }
  }

  lemma LatestRead(win: seq<Byte>, win': seq<Byte>, ins: seq<bool>, cur: nat, t: nat, below: nat, h: nat)
    requires |ins| == |win| == |win'| && cur + 1 < |win| && below <= cur && Latest(win, ins, cur, t, below, h)
    requires forall i :: 0 <= i < cur + 2 && i < |win| ==> win'[i] == win[i]
    ensures Latest(win', ins, cur, t, below, h)
  {
    hide Hash3;
    forall q: nat | q < below && Recent(q, cur) && Inserted(win', ins, q, h) ensures q <= t {
      assert Inserted(win, ins, q, h);
    }
  }

  lemma UnbrokenSlide(win: seq<Byte>, win': seq<Byte>, prev: seq<nat>, prev': seq<nat>, head: seq<nat>, head': seq<nat>,
                      ins: seq<bool>, cur: nat)
    requires Unbroken(win, prev, head, ins, cur) && WSIZE <= cur < WINDOW_SIZE - 1
    requires |win'| == |win| && |prev'| == |prev| && |head'| == |head|
    requires forall i :: 0 <= i < WSIZE ==> win'[i] == win[i + WSIZE]
    requires forall i :: 0 <= i < |prev| ==> prev'[i] == Slid(prev[i])
    requires forall i :: 0 <= i < |head| ==> head'[i] == Slid(head[i])
    ensures Unbroken(win', prev', head', SlidMarks(ins), cur - WSIZE)
  {
    hide Hash3;
    var ins', c := SlidMarks(ins), cur - WSIZE;
    forall h | 0 <= h < HASH_SIZE ensures Latest(win', ins', c, head'[h], c, h) {
      assert Latest(win, ins, cur, head[h], cur, h);
      LatestSlide(win, win', ins, cur, head[h], cur, h);
    }
    forall s: nat | Recent(s, c) && ins'[s] ensures LatestBefore(win', prev', ins', c, s) {
      assert LatestBefore(win, prev, ins, cur, s + WSIZE);
      assert (s + WSIZE) % WSIZE == s % WSIZE;
      LatestSlide(win, win', ins, cur, prev[s % WSIZE], s + WSIZE, HashAt(win, s + WSIZE));
    }
  }

  lemma LatestSlide(win: seq<Byte>, win': seq<Byte>, ins: seq<bool>, cur: nat, t: nat, below: nat, h: nat)
    requires |ins| == |win| == |win'| == WINDOW_ROOM && WSIZE <= below <= cur < WINDOW_SIZE - 1
    requires Latest(win, ins, cur, t, below, h) && forall i :: 0 <= i < WSIZE ==> win'[i] == win[i + WSIZE]
    ensures Latest(win', SlidMarks(ins), cur - WSIZE, Slid(t), below - WSIZE, h)
  {
    hide Hash3;
    forall q: nat | q < below - WSIZE && Recent(q, cur - WSIZE) && Inserted(win', SlidMarks(ins), q, h)
      ensures q <= Slid(t)
    {
      assert Inserted(win, ins, q + WSIZE, h);
    }
  }

  // ---- The search --------------------------------------------------------------------

  // The strings at m and s agree in byte k, and in their first n bytes.
  predicate SameByte(win: seq<Byte>, m: nat, s: nat, k: nat)
    requires m + k < |win| && s + k < |win|
  {
    win[m + k] == win[s + k]
  }

  predicate Same(win: seq<Byte>, m: nat, s: nat, n: nat)
    requires m + n <= |win| && s + n <= |win|
  {
    forall k :: 0 <= k < n ==> SameByte(win, m, s, k)
  }

  // Position m is a place to copy n bytes from at s.
  ghost predicate IsMatch(win: seq<Byte>, m: int, s: nat, n: nat)
  {
    0 <= m < s && s - m <= MAX_DIST && s + n <= |win| && Same(win, m, s, n)
  }

  // What the chain gives: a string with the same hash, not too far away.
  ghost predicate Candidate(win: seq<Byte>, ins: seq<bool>, m: nat, s: nat)
    requires |ins| == |win| && s < |win| - 2
  {
    0 < m < s && s - m <= MAX_DIST && ins[m] && HashAt(win, m) == HashAt(win, s)
  }

  // Compare from the third byte on.  The end is looked for at every eighth byte
  // only; the third bytes themselves are not compared.
  method Compare(window: array<Byte>, match_: nat, scan: nat) returns (len: nat)
    requires match_ < scan && scan + MAX_MATCH < window.Length
    ensures 3 <= len <= MAX_MATCH
    ensures forall k :: 3 <= k < len ==> SameByte(window[..], match_, scan, k)
    ensures len < MAX_MATCH ==> !SameByte(window[..], match_, scan, len)
  {
    len := 2;
    while true
      invariant 2 <= len < MAX_MATCH
      invariant forall k :: 3 <= k <= len ==> SameByte(window[..], match_, scan, k)
      decreases MAX_MATCH - len
    {
      len := len + 1;
      if window[scan + len] != window[match_ + len] { return; }
      if (len - 2) % 8 == 0 && len >= MAX_MATCH { return; }
    }
  }

  // A candidate whose first two bytes are equal has an equal third byte.
  lemma CandidateMatch(win: seq<Byte>, ins: seq<bool>, m: nat, s: nat, n: nat)
    requires |ins| == |win| && s + n <= |win| && s < |win| - 2 && Candidate(win, ins, m, s) && n >= 3
    requires win[m] == win[s] && win[m + 1] == win[s + 1]
    requires forall k :: 3 <= k < n ==> SameByte(win, m, s, k)
    ensures IsMatch(win, m, s, n)
  {
    hide Hash3;
    ThirdByte(win[s], win[s + 1], win[m + 2], win[s + 2]);
    assert SameByte(win, m, s, 0) && SameByte(win, m, s, 1) && SameByte(win, m, s, 2);
    forall k | 0 <= k < n ensures SameByte(win, m, s, k) {
    }
  }

  // The positions that are looked at: n at most, and but for the first those beyond the
  // limit only.
  function OnChain(prev: seq<nat>, m: nat, limit: nat, n: nat): seq<nat>
    requires |prev| == WSIZE
    decreases n
  {
    if n == 0 then []
    else [m] + if prev[m % WSIZE] > limit then OnChain(prev, prev[m % WSIZE], limit, n - 1) else []
  }

  // The string at m agrees with that at s in more than n bytes, of those that count.
  predicate Longer(win: seq<Byte>, m: nat, s: nat, n: nat)
  {
    n < MAX_MATCH && m + n < |win| && s + n < |win| && Same(win, m, s, n + 1)
  }

  predicate NoneLonger(win: seq<Byte>, seen: seq<nat>, s: nat, n: nat)
  {
    forall j :: 0 <= j < |seen| ==> !Longer(win, seen[j], s, n)
  }

  // The match is at the k-th place, as long as it can be there, and longer than what is
  // found before; nothing there is as long as to end the search.
  ghost predicate FoundAt(win: seq<Byte>, seen: seq<nat>, s: nat, prevLength: nat, nice: nat, bestLen: nat,
                          matchStart: int, k: nat)
  {
    k < |seen| && seen[k] == matchStart && 0 < bestLen && !Longer(win, seen[k], s, bestLen)
    && NoneLonger(win, seen[..k], s, bestLen - 1)
    && NoneLonger(win, seen[..k], s, if nice > prevLength then nice - 1 else prevLength)
  }

  // The match is the longest of those seen, and the first of that length, when it does not
  // end the search; when it does it is the first that does.
  ghost predicate Longest(win: seq<Byte>, seen: seq<nat>, s: nat, prevLength: nat, nice: nat, bestLen: nat,
                          matchStart: int)
  {
    (bestLen < nice || bestLen == prevLength ==> NoneLonger(win, seen, s, bestLen))
    && (bestLen > prevLength ==> exists k: nat :: FoundAt(win, seen, s, prevLength, nice, bestLen, matchStart, k))
  }

  function LimitOf(s: nat): nat
  {
    if s > MAX_DIST then s - MAX_DIST else 0
  }

  // How many positions are looked at.
  function ChainLength(prevLength: nat, goodMatch: nat, maxChain: nat): nat
  {
    if prevLength >= goodMatch then maxChain / 4 else maxChain
  }

  // What is known of the result.
  ghost predicate Searched(win: seq<Byte>, seen: seq<nat>, s: nat, prevLength: nat, nice: nat, bestLen: nat,
                           matchStart: int, matchStart0: int)
  {
    prevLength <= bestLen <= MAX_MATCH
    && (bestLen > prevLength ==> bestLen >= 3 && IsMatch(win, matchStart, s, bestLen))
    && (bestLen == prevLength ==> matchStart == matchStart0)
    && Longest(win, seen, s, prevLength, nice, bestLen, matchStart)
  }

  // And after those done, when m comes next.
  ghost predicate Searching(win: seq<Byte>, prev: seq<nat>, seen: seq<nat>, done: seq<nat>, m: nat, n: nat, s: nat,
                            prevLength: nat, nice: nat, bestLen: nat, matchStart: int, matchStart0: int)
  {
    |prev| == WSIZE && Searched(win, done, s, prevLength, nice, bestLen, matchStart, matchStart0)
    && (bestLen < nice || bestLen == prevLength) && seen == done + OnChain(prev, m, LimitOf(s), n)
  }

  // longest_match: follow the chain from curMatch for a match longer than
  // prevLength.
  method LongestMatch(window: array<Byte>, prev: array<nat>, strstart: nat, curMatch0: nat, prevLength: nat,
      matchStart0: int,
                      goodMatch: nat, niceMatch: nat, maxChain: nat, ghost head: seq<nat>, ghost ins: seq<bool>)
    returns (bestLen: nat, matchStart: int)
    requires Chained(window[..], prev[..], head, ins, strstart + 1) && maxChain >= 4
    requires Candidate(window[..], ins, curMatch0, strstart) && 1 <= prevLength <= MAX_MATCH
    ensures prevLength <= bestLen <= MAX_MATCH
    ensures bestLen > prevLength ==> bestLen >= 3 && IsMatch(window[..], matchStart, strstart, bestLen)
    ensures bestLen == prevLength ==> matchStart == matchStart0
    ensures var seen := OnChain(prev[..], curMatch0, LimitOf(strstart), ChainLength(prevLength, goodMatch, maxChain));
            Longest(window[..], seen, strstart, prevLength, niceMatch, bestLen, matchStart)
  {
    hide Hash3, LinkOK, HashAt, Longest, Chained, OnChain, Longer, IsMatch, Recent, Candidate, Searching, SameByte,
      Same;
    ghost var win, links := window[..], prev[..];
    var chainLength: nat, curMatch: nat := maxChain, curMatch0;
    var scan := strstart;
    bestLen, matchStart := prevLength, matchStart0;
    var limit := if strstart > MAX_DIST then strstart - MAX_DIST else 0;
    InWindow(win, links, head, ins, strstart);
    var scanEnd1 := window[scan + bestLen - 1];
    var scanEnd := window[scan + bestLen];
    if prevLength >= goodMatch { chainLength := chainLength / 4; }
    ghost var seen, done := OnChain(links, curMatch0, limit, chainLength), [];
    SearchBegins(win, links, curMatch, chainLength, strstart, prevLength, niceMatch, matchStart0);
    while true
      invariant Candidate(win, ins, curMatch, strstart) && chainLength >= 1
      invariant prevLength <= bestLen <= MAX_MATCH
      invariant Searching(win, links, seen, done, curMatch, chainLength, strstart, prevLength, niceMatch,
                          bestLen, matchStart, matchStart0)
      invariant scanEnd1 == window[scan + bestLen - 1] && scanEnd == window[scan + bestLen]
      decreases chainLength
    {
      CandidateBefore(win, ins, curMatch, strstart);
      ghost var best, start, longer := bestLen, matchStart, false;
      if window[curMatch + bestLen] == scanEnd && window[curMatch + bestLen - 1] == scanEnd1
         && window[curMatch] == window[scan] && window[curMatch + 1] == window[scan + 1]
      {
        var len := Compare(window, curMatch, scan);
        CandidateMatch(win, ins, curMatch, strstart, len);
        NotLonger(win, curMatch, strstart, len, if len > bestLen then len else bestLen);
        if len > bestLen {
          matchStart, bestLen, longer := curMatch, len, true;
          SearchTaken(win, links, seen, done, curMatch, chainLength, strstart, prevLength, niceMatch, best,
                      start, matchStart0, len);
          if len >= niceMatch { break; }
          scanEnd1 := window[scan + bestLen - 1];
          scanEnd := window[scan + bestLen];
        }
      } else {
        LongerAgrees(win, curMatch, strstart, bestLen);
      }
      if !longer {
        SearchPassed(win, links, seen, done, curMatch, chainLength, strstart, prevLength, niceMatch, bestLen,
                     matchStart, matchStart0);
      }
      done := done + [curMatch];
      NextCandidate(win, links, head, ins, strstart, curMatch);
      curMatch := prev[curMatch % WSIZE];
      if curMatch <= limit { break; }
      chainLength := chainLength - 1;
      if chainLength == 0 { break; }
    }
  }

  lemma InWindow(win: seq<Byte>, prev: seq<nat>, head: seq<nat>, ins: seq<bool>, s: nat)
    requires Chained(win, prev, head, ins, s + 1)
    ensures |win| == |ins| == WINDOW_ROOM && s < WINDOW_SIZE && |prev| == WSIZE
  {
  }

  lemma CandidateBefore(win: seq<Byte>, ins: seq<bool>, m: nat, s: nat)
    requires |ins| == |win| && s < |win| - 2 && Candidate(win, ins, m, s)
    ensures 0 < m < s
  {
  }

  lemma SearchBegins(win: seq<Byte>, prev: seq<nat>, m: nat, n: nat, s: nat, prevLength: nat, nice: nat, start: int)
    requires |prev| == WSIZE && prevLength <= MAX_MATCH
    ensures Searching(win, prev, OnChain(prev, m, LimitOf(s), n), [], m, n, s, prevLength, nice, prevLength, start,
              start)
  {
    hide OnChain;
    var seen := OnChain(prev, m, LimitOf(s), n);
    assert [] + seen == seen;
  }

  // What comes after m: the next position, or the end.
  ghost predicate GoesOn(win: seq<Byte>, prev: seq<nat>, seen: seq<nat>, done: seq<nat>, m: nat, n: nat, s: nat,
                         prevLength: nat, nice: nat, bestLen: nat, matchStart: int, matchStart0: int)
    requires |prev| == WSIZE && n > 0
  {
    var next := prev[m % WSIZE];
    if next <= LimitOf(s) || n == 1
    then Searched(win, seen, s, prevLength, nice, bestLen, matchStart, matchStart0)
    else Searching(win, prev, seen, done + [m], next, n - 1, s, prevLength, nice, bestLen, matchStart, matchStart0)
  }

  lemma OneMore(win: seq<Byte>, prev: seq<nat>, seen: seq<nat>, done: seq<nat>, m: nat, n: nat, s: nat,
                prevLength: nat, nice: nat, bestLen: nat, matchStart: int, matchStart0: int)
    requires |prev| == WSIZE && n > 0 && seen == done + OnChain(prev, m, LimitOf(s), n)
    requires Searched(win, done + [m], s, prevLength, nice, bestLen, matchStart, matchStart0)
             && (bestLen < nice || bestLen == prevLength)
    ensures GoesOn(win, prev, seen, done, m, n, s, prevLength, nice, bestLen, matchStart, matchStart0)
  {
    hide Searched, OnChain;
    ChainStep(prev, m, LimitOf(s), n);
    var next := prev[m % WSIZE];
    var rest := if next > LimitOf(s) then OnChain(prev, next, LimitOf(s), n - 1) else [];
    assert done + ([m] + rest) == (done + [m]) + rest && (done + [m]) + [] == done + [m];
  }

  lemma SearchPassed(win: seq<Byte>, prev: seq<nat>, seen: seq<nat>, done: seq<nat>, m: nat, n: nat, s: nat,
                     prevLength: nat, nice: nat, bestLen: nat, matchStart: int, matchStart0: int)
    requires Searching(win, prev, seen, done, m, n, s, prevLength, nice, bestLen, matchStart, matchStart0)
    requires n > 0 && !Longer(win, m, s, bestLen)
    ensures GoesOn(win, prev, seen, done, m, n, s, prevLength, nice, bestLen, matchStart, matchStart0)
  {
    hide Longer, Longest, OnChain, IsMatch, GoesOn;
    LongestPassed(win, done, s, prevLength, nice, bestLen, matchStart, m);
    OneMore(win, prev, seen, done, m, n, s, prevLength, nice, bestLen, matchStart, matchStart0);
  }

  lemma SearchTaken(win: seq<Byte>, prev: seq<nat>, seen: seq<nat>, done: seq<nat>, m: nat, n: nat, s: nat,
                    prevLength: nat, nice: nat, bestLen: nat, matchStart: int, matchStart0: int, len: nat)
    requires Searching(win, prev, seen, done, m, n, s, prevLength, nice, bestLen, matchStart, matchStart0)
    requires n > 0 && 3 <= len <= MAX_MATCH && bestLen < len && IsMatch(win, m, s, len) && !Longer(win, m, s, len)
    ensures if len >= nice then Searched(win, seen, s, prevLength, nice, len, m, matchStart0)
            else GoesOn(win, prev, seen, done, m, n, s, prevLength, nice, len, m, matchStart0)
  {
    hide Longer, Longest, IsMatch, GoesOn, OnChain;
    ChainStep(prev, m, LimitOf(s), n);
    var next := prev[m % WSIZE];
    var rest := if next > LimitOf(s) then OnChain(prev, next, LimitOf(s), n - 1) else [];
    assert done + ([m] + rest) == (done + [m]) + rest;
    LongestTaken(win, done, rest, s, prevLength, nice, bestLen, matchStart, m, len);
    if len < nice { OneMore(win, prev, seen, done, m, n, s, prevLength, nice, len, m, matchStart0); }
  }

  lemma ChainStep(prev: seq<nat>, m: nat, limit: nat, n: nat)
    requires |prev| == WSIZE && n > 0
    ensures OnChain(prev, m, limit, n)
         == [m] + if prev[m % WSIZE] > limit then OnChain(prev, prev[m % WSIZE], limit, n - 1) else []
    ensures OnChain(prev, prev[m % WSIZE], limit, 0) == []
  {
  }

  // With another byte at n, or at the end of what counts, no more bytes agree.
  lemma NotLonger(win: seq<Byte>, m: nat, s: nat, n: nat, best: nat)
    requires n <= best && m + n < |win| && s + n < |win| && (n < MAX_MATCH ==> !SameByte(win, m, s, n))
    ensures !Longer(win, m, s, best)
  {
  }

  // The bytes that are looked at before the strings are compared.
  lemma LongerAgrees(win: seq<Byte>, m: nat, s: nat, n: nat)
    requires n >= 1 && m + n + 1 < |win| && s + n + 1 < |win|
    ensures Longer(win, m, s, n) ==>
              win[m + n] == win[s + n] && win[m + n - 1] == win[s + n - 1] && win[m] == win[s]
                && win[m + 1] == win[s + 1]
  {
    if Longer(win, m, s, n) {
      assert SameByte(win, m, s, n) && SameByte(win, m, s, n - 1) && SameByte(win, m, s, 0) && SameByte(win, m, s, 1);
    }
  }

  lemma LongestPassed(win: seq<Byte>, seen: seq<nat>, s: nat, prevLength: nat, nice: nat, best: nat, start: int, m: nat)
    requires Longest(win, seen, s, prevLength, nice, best, start) && !Longer(win, m, s, best)
    ensures Longest(win, seen + [m], s, prevLength, nice, best, start)
  {
    hide Longer;
    if best > prevLength {
      var k: nat :| FoundAt(win, seen, s, prevLength, nice, best, start, k);
      assert (seen + [m])[..k] == seen[..k];
      assert FoundAt(win, seen + [m], s, prevLength, nice, best, start, k);
    }
  }

  lemma LessIsLess(win: seq<Byte>, seen: seq<nat>, s: nat, n: nat, n': nat)
    requires NoneLonger(win, seen, s, n) && n <= n'
    ensures NoneLonger(win, seen, s, n')
  {
    forall j | 0 <= j < |seen| ensures !Longer(win, seen[j], s, n') {
      assert !Longer(win, seen[j], s, n);
    }
  }

  // A longer match at m; what comes after it counts only when it does not end the search.
  lemma LongestTaken(win: seq<Byte>, seen: seq<nat>, rest: seq<nat>, s: nat, prevLength: nat, nice: nat, best: nat,
                     start: int, m: nat, len: nat)
    requires Longest(win, seen, s, prevLength, nice, best, start) && (best < nice || best == prevLength)
    requires prevLength <= best < len && !Longer(win, m, s, len)
    ensures Longest(win, seen + [m], s, prevLength, nice, len, m)
    ensures len >= nice ==> Longest(win, (seen + [m]) + rest, s, prevLength, nice, len, m)
  {
    hide Longer;
    var k := |seen|;
    LessIsLess(win, seen, s, best, len - 1);
    LessIsLess(win, seen, s, best, len);
    LessIsLess(win, seen, s, best, if nice > prevLength then nice - 1 else prevLength);
    assert (seen + [m])[..k] == seen && ((seen + [m]) + rest)[..k] == seen;
    assert FoundAt(win, seen + [m], s, prevLength, nice, len, m, k);
    assert FoundAt(win, (seen + [m]) + rest, s, prevLength, nice, len, m, k);
  }

  lemma NextCandidate(win: seq<Byte>, prev: seq<nat>, head: seq<nat>, ins: seq<bool>, s: nat, m: nat)
    requires Chained(win, prev, head, ins, s + 1) && Candidate(win, ins, m, s)
    ensures prev[m % WSIZE] < m
    ensures prev[m % WSIZE] > (if s > MAX_DIST then s - MAX_DIST else 0) ==> Candidate(win, ins, prev[m % WSIZE], s)
  {
    hide Hash3;
    assert Recent(m, s + 1);
    assert LinkOK(win, prev, ins, s + 1, m);
  }

  // Every string with this hash that was inserted and is in reach is looked at, when not
  // as many others are before it.
  lemma {:induction false} AllOnChain(win: seq<Byte>, prev: seq<nat>, head: seq<nat>, ins: seq<bool>, s: nat, m: nat,
                                      n: nat, q: nat)
    requires Chained(win, prev, head, ins, s + 1) && Unbroken(win, prev, head, ins, s + 1) && Candidate(win, ins, m, s)
    requires LimitOf(s) < q <= m && Inserted(win, ins, q, HashAt(win, s))
    ensures var seen := OnChain(prev, m, LimitOf(s), n); |seen| == n || q in seen
    decreases n
  {
    hide Hash3, Chained, Unbroken, HashAt, OnChain, Candidate, Inserted;
    InWindow(win, prev, head, ins, s);
    CandidateBefore(win, ins, m, s);
    if n == 0 {
      NoChain(prev, m, LimitOf(s));
    } else {
      ChainStep(prev, m, LimitOf(s), n);
      if q < m {
        NextCandidate(win, prev, head, ins, s, m);
        LatestOnChain(win, prev, head, ins, s, m, q);
        AllOnChain(win, prev, head, ins, s, prev[m % WSIZE], n - 1, q);
      }
    }
  }

  lemma NoChain(prev: seq<nat>, m: nat, limit: nat)
    requires |prev| == WSIZE
    ensures OnChain(prev, m, limit, 0) == []
  {
  }

  lemma LatestOnChain(win: seq<Byte>, prev: seq<nat>, head: seq<nat>, ins: seq<bool>, s: nat, m: nat, q: nat)
    requires Unbroken(win, prev, head, ins, s + 1) && Candidate(win, ins, m, s)
    requires LimitOf(s) < q < m && Inserted(win, ins, q, HashAt(win, s))
    ensures q <= prev[m % WSIZE]
  {
    hide Hash3, HashAt;
    assert Recent(m, s + 1) && Recent(q, s + 1);
    assert LatestBefore(win, prev, ins, s + 1, m);
  }

  // When the whole chain was looked at, no string inserted in reach agrees in more bytes.
  lemma LongestOfAll(win: seq<Byte>, prev: seq<nat>, head: seq<nat>, ins: seq<bool>, s: nat, m: nat, n: nat,
                     prevLength: nat, nice: nat, bestLen: nat, matchStart: int, q: nat)
    requires Chained(win, prev, head, ins, s + 1) && Unbroken(win, prev, head, ins, s + 1) && Candidate(win, ins, m, s)
    requires Longest(win, OnChain(prev, m, LimitOf(s), n), s, prevLength, nice, bestLen, matchStart)
    requires |OnChain(prev, m, LimitOf(s), n)| < n && 2 <= prevLength <= bestLen && bestLen < nice
    requires LimitOf(s) < q <= m && ins[q]
    ensures !Longer(win, q, s, bestLen)
  {
    hide Hash3, Chained, Unbroken, OnChain, FoundAt, Longer, HashAt;
    InWindow(win, prev, head, ins, s);
    CandidateBefore(win, ins, m, s);
    LongerHash(win, q, s, bestLen);
    if HashAt(win, q) == HashAt(win, s) {
      AllOnChain(win, prev, head, ins, s, m, n, q);
      SeenOne(win, OnChain(prev, m, LimitOf(s), n), s, bestLen, q);
    }
  }

  lemma LongerHash(win: seq<Byte>, q: nat, s: nat, n: nat)
    requires n >= 2 && q + 2 < |win| && s + 2 < |win|
    ensures Longer(win, q, s, n) ==> HashAt(win, q) == HashAt(win, s)
  {
    hide Hash3;
    if Longer(win, q, s, n) {
      assert SameByte(win, q, s, 0) && SameByte(win, q, s, 1) && SameByte(win, q, s, 2);
    }
  }

  lemma SeenOne(win: seq<Byte>, seen: seq<nat>, s: nat, n: nat, q: nat)
    requires NoneLonger(win, seen, s, n) && q in seen
    ensures !Longer(win, q, s, n)
  {
    hide Longer;
  }
}
