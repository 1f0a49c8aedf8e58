// The run-length coding of code lengths: scan_tree and send_tree of trees.c,
// and what the decoder in inflate.c makes of the symbols.
module CodeLengths {
  import opened Powers
  import opened TreeCodes
  import opened Bits

  const REP_3_6: nat := 16
  const REPZ_3_10: nat := 17
  const REPZ_11_138: nat := 18
  const BL_CODES: nat := 19
  const GUARD: nat := 0xffff

  // A symbol of the code length alphabet with the value of its extra bits.
  datatype ClSym = ClSym(sym: nat, extra: nat)

  function ExtraBits(sym: nat): nat
  {
    if sym == REP_3_6 then 2 else if sym == REPZ_3_10 then 3 else if sym == REPZ_11_138 then 7 else 0
  }

  predicate ClOK(s: ClSym)
  {
    s.sym < BL_CODES && s.extra < Pow2(ExtraBits(s.sym))
  }

  // ---- What symbols mean -----------------------------------------------------------

  function Repeat(len: nat, count: nat): (s: seq<nat>)
    ensures |s| == count && forall i :: 0 <= i < count ==> s[i] == len
  {
    seq(count, i => len)
  }

  // The lengths one symbol stands for, after a code of length `last`.
  function Run(s: ClSym, last: nat): seq<nat>
  {
    if s.sym < REP_3_6 then [s.sym]
    else if s.sym == REP_3_6 then Repeat(last, 3 + s.extra)
    else if s.sym == REPZ_3_10 then Repeat(0, 3 + s.extra)
    else Repeat(0, 11 + s.extra)
  }

  function LastOf(s: ClSym, last: nat): nat
  {
    if s.sym < REP_3_6 then s.sym else if s.sym == REP_3_6 then last else 0
  }

  function LengthsOf(ss: seq<ClSym>, last: nat): seq<nat>
  {
    if ss == [] then [] else Run(ss[0], last) + LengthsOf(ss[1..], LastOf(ss[0], last))
  }

  function LastAfter(ss: seq<ClSym>, last: nat): nat
  {
    if ss == [] then last else LastAfter(ss[1..], LastOf(ss[0], last))
  }

  lemma {:induction false} ExpandJoin(a: seq<ClSym>, b: seq<ClSym>, last: nat)
    ensures LengthsOf(a + b, last) == LengthsOf(a, last) + LengthsOf(b, LastAfter(a, last))
    ensures LastAfter(a + b, last) == LastAfter(b, LastAfter(a, last))
  {
    hide Run, LastOf;
    if a == [] {
      assert a + b == b;
    } else {
      ExpandJoin(a[1..], b, LastOf(a[0], last));
      assert (a + b)[1..] == a[1..] + b;
      var r, x, y := Run(a[0], last), LengthsOf(a[1..], LastOf(a[0], last)), LengthsOf(b, LastAfter(a, last));
      assert r + (x + y) == (r + x) + y;
    }
  }

  // ---- The symbols for a list of lengths ---------------------------------------------

  // The greatest and least count of a run of `cur` that follows a run of `prev`.
  function MaxCount(prev: int, cur: nat): nat
  {
    if cur == 0 then 138 else if prev == cur then 6 else 7
  }

  function MinCount(prev: int, cur: nat): nat
  {
    if cur == 0 || prev == cur then 3 else 4
  }

  // The symbols for `count` times `cur` after a run of `prev`.
  function Block(prev: int, cur: nat, count: nat): seq<ClSym>
  {
    if count < MinCount(prev, cur) then seq(count, i => ClSym(cur, 0))
    else if cur != 0 then
      if cur != prev then [ClSym(cur, 0), ClSym(REP_3_6, count - 4)] else [ClSym(REP_3_6, count - 3)]
    else if count <= 10 then [ClSym(REPZ_3_10, count - 3)]
    else [ClSym(REPZ_11_138, count - 11)]
  }

  function NextLen(lens: seq<nat>, n: nat): nat
  {
    if n + 1 < |lens| then lens[n + 1] else GUARD
  }

  // The symbols for lens[n..] together with `count` lengths before n that are
  // equal to lens[n].
  function Symbols(lens: seq<nat>, n: nat, prev: int, count: nat): seq<ClSym>
    decreases |lens| - n
  {
    if n >= |lens| then []
    else if count + 1 < MaxCount(prev, lens[n]) && lens[n] == NextLen(lens, n) then
      Symbols(lens, n + 1, prev, count + 1)
    else
      Block(prev, lens[n], count + 1) + Symbols(lens, n + 1, lens[n], 0)
  }

  function AllSymbols(lens: seq<nat>): seq<ClSym>
  {
    Symbols(lens, 0, -1, 0)
  }

  predicate ShortLens(lens: seq<nat>)
  {
    forall i :: 0 <= i < |lens| ==> lens[i] <= MAX_BITS
  }

  lemma {:induction false} ExpandSame(cur: nat, count: nat, last: nat)
    requires cur < REP_3_6 && count > 0
    ensures LengthsOf(seq(count, i => ClSym(cur, 0)), last) == Repeat(cur, count)
    ensures LastAfter(seq(count, i => ClSym(cur, 0)), last) == cur
    decreases count
  {
    var ss := seq(count, i => ClSym(cur, 0));
    assert ss[1..] == seq(count - 1, i => ClSym(cur, 0));
    if count > 1 {
      ExpandSame(cur, count - 1, cur);
    } else {
      assert ss[1..] == [];
    }
    assert [cur] + Repeat(cur, count - 1) == Repeat(cur, count);
  }

  lemma ExpandOne(s: ClSym, last: nat)
    ensures LengthsOf([s], last) == Run(s, last) && LastAfter([s], last) == LastOf(s, last)
  {
    assert [s][1..] == [];
  }

  lemma ExpandBlock(prev: int, cur: nat, count: nat, last: nat)
    requires cur <= MAX_BITS && 1 <= count <= MaxCount(prev, cur) && (prev >= 0 ==> last == prev)
    ensures LengthsOf(Block(prev, cur, count), last) == Repeat(cur, count)
    ensures LastAfter(Block(prev, cur, count), last) == cur
    ensures forall i :: 0 <= i < |Block(prev, cur, count)| ==> ClOK(Block(prev, cur, count)[i])
  {
    SmallPowers();
    if count < MinCount(prev, cur) {
      ExpandSame(cur, count, last);
    } else if cur != 0 && cur != prev {
      var a, b := ClSym(cur, 0), ClSym(REP_3_6, count - 4);
      assert [a, b] == [a] + [b];
      ExpandOne(a, last);
      ExpandOne(b, cur);
      ExpandJoin([a], [b], last);
      assert [cur] + Repeat(cur, count - 1) == Repeat(cur, count);
    } else {
      ExpandOne(Block(prev, cur, count)[0], last);
    }
  }

  lemma SmallPowers()
    ensures Pow2(0) == 1 && Pow2(2) == 4 && Pow2(3) == 8 && Pow2(7) == 128
  {
    Pow2Add(3, 4);
    assert Pow2(4) == 16;
  }

  // The state of the two loops: the last `count` lengths before n are equal to
  // lens[n] and not yet coded, the ones before end with prev.
  predicate RunState(lens: seq<nat>, n: nat, prev: int, count: nat)
  {
    count <= n <= |lens|
    && (n < |lens| ==> forall i :: n - count <= i < n ==> lens[i] == lens[n])
    && (n < |lens| ==> count < MaxCount(prev, lens[n]))
    && (n == |lens| ==> count == 0)
  }

  lemma RunStep(lens: seq<nat>, n: nat, prev: int, count: nat)
    requires RunState(lens, n, prev, count) && n < |lens| && ShortLens(lens)
    ensures if count + 1 < MaxCount(prev, lens[n]) && lens[n] == NextLen(lens, n)
            then RunState(lens, n + 1, prev, count + 1)
            else RunState(lens, n + 1, lens[n], 0)
  {
  }

  // The symbols expand to the lengths again, whatever the decoder read before.
  lemma {:induction false} ExpandSymbols(lens: seq<nat>, n: nat, prev: int, count: nat, last: nat)
    requires ShortLens(lens) && RunState(lens, n, prev, count) && (prev >= 0 ==> last == prev)
    ensures LengthsOf(Symbols(lens, n, prev, count), last) == lens[n - count..]
    ensures forall i :: 0 <= i < |Symbols(lens, n, prev, count)| ==> ClOK(Symbols(lens, n, prev, count)[i])
    decreases |lens| - n
  {
    hide Block, ClOK, LengthsOf, LastAfter, MaxCount, RunState, Repeat;
    RunBounds(lens, n, prev, count);
    if n < |lens| {
      var cur := lens[n];
      RunStep(lens, n, prev, count);
      if count + 1 < MaxCount(prev, cur) && cur == NextLen(lens, n) {
        ExpandSymbols(lens, n + 1, prev, count + 1, last);
      } else {
        var block, more := Block(prev, cur, count + 1), Symbols(lens, n + 1, cur, 0);
        ExpandBlock(prev, cur, count + 1, last);
        ExpandSymbols(lens, n + 1, cur, 0, cur);
        ExpandJoin(block, more, last);
        RunSplit(lens, n, count);
        assert Symbols(lens, n, prev, count) == block + more;
      }
    } else {
      ExpandNothing(last);
    }
  }

  lemma RunSplit(lens: seq<nat>, n: nat, count: nat)
    requires count <= n < |lens| && forall i :: n - count <= i < n ==> lens[i] == lens[n]
    ensures lens[n - count..] == Repeat(lens[n], count + 1) + lens[n + 1..]
  {
  }

  lemma RunBounds(lens: seq<nat>, n: nat, prev: int, count: nat)
    requires RunState(lens, n, prev, count)
    ensures count <= n <= |lens| && (n == |lens| ==> count == 0)
    ensures n < |lens| ==> count < MaxCount(prev, lens[n]) && forall i :: n - count <= i < n ==> lens[i] == lens[n]
  {
  }

  lemma ExpandNothing(last: nat)
    ensures LengthsOf([], last) == []
  {
  }

  // Both trees sent one after the other decode as one stream of lengths.
  lemma TwoTrees(ll: seq<nat>, dd: seq<nat>)
    requires ShortLens(ll) && ShortLens(dd)
    ensures LengthsOf(AllSymbols(ll) + AllSymbols(dd), 0) == ll + dd
    ensures forall i :: 0 <= i < |AllSymbols(ll) + AllSymbols(dd)| ==> ClOK((AllSymbols(ll) + AllSymbols(dd))[i])
  {
    ExpandSymbols(ll, 0, -1, 0, 0);
    ExpandSymbols(dd, 0, -1, 0, LastAfter(AllSymbols(ll), 0));
    ExpandJoin(AllSymbols(ll), AllSymbols(dd), 0);
  }

  // ---- scan_tree ---------------------------------------------------------------------

  function Times(ss: seq<ClSym>, sym: nat): nat
  {
    if ss == [] then 0 else Times(ss[..|ss| - 1], sym) + if ss[|ss| - 1].sym == sym then 1 else 0
  }

  lemma {:induction false} TimesJoin(a: seq<ClSym>, b: seq<ClSym>, sym: nat)
    ensures Times(a + b, sym) == Times(a, sym) + Times(b, sym)
  {
    if b == [] {
      assert a + b == a;
    } else {
      assert (a + b)[..|a + b| - 1] == a + b[..|b| - 1];
      TimesJoin(a, b[..|b| - 1], sym);
    }
  }

  // The frequencies of t0 plus the symbols of ss.
  function Tallied(t0: seq<CtData>, ss: seq<ClSym>): (t: seq<CtData>)
    ensures |t| == |t0|
  {
    seq(|t0|, i requires 0 <= i < |t0| => t0[i].(fc := t0[i].fc + Times(ss, i)))
  }

  lemma {:induction false} TimesSame(cur: nat, count: nat, sym: nat)
    ensures Times(seq(count, i => ClSym(cur, 0)), sym) == if sym == cur then count else 0
    decreases count
  {
    var ss := seq(count, i => ClSym(cur, 0));
    if count > 0 {
      assert ss[..count - 1] == seq(count - 1, i => ClSym(cur, 0));
      TimesSame(cur, count - 1, sym);
    }
  }

  lemma TimesOne(s: ClSym, sym: nat)
    ensures Times([s], sym) == if s.sym == sym then 1 else 0
  {
    assert [s][..0] == [];
  }

  lemma TimesBlock(prev: int, cur: nat, count: nat, sym: nat)
    requires cur <= MAX_BITS && count >= 1
    ensures Times(Block(prev, cur, count), sym) ==
              if count < MinCount(prev, cur) then (if sym == cur then count else 0)
              else if cur != 0 then (if sym == cur && cur != prev then 1 else 0) + (if sym == REP_3_6 then 1 else 0)
              else if sym == (if count <= 10 then REPZ_3_10 else REPZ_11_138) then 1 else 0
  {
    if count < MinCount(prev, cur) {
      TimesSame(cur, count, sym);
    } else if cur != 0 && cur != prev {
      var a, b := ClSym(cur, 0), ClSym(REP_3_6, count - 4);
      assert [a, b] == [a] + [b];
      TimesJoin([a], [b], sym);
      TimesOne(a, sym);
      TimesOne(b, sym);
    } else {
      TimesOne(Block(prev, cur, count)[0], sym);
    }
  }

  // Count the symbols of one run.
  method ScanBlock(prev: int, cur: nat, count: nat, blTree: array<CtData>, ghost t0: seq<CtData>,
      ghost done: seq<ClSym>)
    requires cur <= MAX_BITS && count >= 1 && blTree.Length >= BL_CODES && blTree[..] == Tallied(t0, done)
    modifies blTree
    ensures blTree[..] == Tallied(t0, done + Block(prev, cur, count))
  {
    hide Times;
    forall sym ensures Times(done + Block(prev, cur, count), sym)
      == Times(done, sym) + Times(Block(prev, cur, count), sym) {
      TimesJoin(done, Block(prev, cur, count), sym);
    }
    forall sym { TimesBlock(prev, cur, count, sym); }
    assert forall i :: 0 <= i < blTree.Length ==> blTree[i] == Tallied(t0, done)[i];
    if count < MinCount(prev, cur) {
      blTree[cur] := blTree[cur].(fc := blTree[cur].fc + count);
    } else if cur != 0 {
      if cur != prev { blTree[cur] := blTree[cur].(fc := blTree[cur].fc + 1); }
      blTree[REP_3_6] := blTree[REP_3_6].(fc := blTree[REP_3_6].fc + 1);
    } else if count <= 10 {
      blTree[REPZ_3_10] := blTree[REPZ_3_10].(fc := blTree[REPZ_3_10].fc + 1);
    } else {
      blTree[REPZ_11_138] := blTree[REPZ_11_138].(fc := blTree[REPZ_11_138].fc + 1);
    }
  }

  // scan_tree counts each symbol as often as send_tree will send it.
  method ScanTree(tree: array<CtData>, maxCode: int, blTree: array<CtData>)
    requires -1 <= maxCode < tree.Length - 1 && blTree.Length >= BL_CODES && tree != blTree
    requires ShortLens(Lens(tree[..], maxCode + 1))
    modifies tree, blTree
    ensures blTree[..] == old(Tallied(blTree[..], AllSymbols(Lens(tree[..], maxCode + 1))))
    ensures tree[..] == old(tree[..][maxCode + 1 := tree[maxCode + 1].(dl := GUARD)])
  {
    hide Times, RunState, Tallied, Block;
    ghost var lens, t0 := Lens(tree[..], maxCode + 1), blTree[..];
    ghost var done: seq<ClSym> := [];
    var prevLen: int, nextLen: nat := -1, tree[0].dl;
    var count: nat, maxCount, minCount := 0, 7, 4;
    if nextLen == 0 { maxCount, minCount := 138, 3; }
    tree[maxCode + 1] := tree[maxCode + 1].(dl := GUARD);
    NothingTallied(t0, lens);
    var n := 0;
    while n <= maxCode
      invariant 0 <= n <= maxCode + 1 && RunState(lens, n, prevLen, count)
      invariant n <= maxCode ==>
        nextLen == lens[n] && maxCount == MaxCount(prevLen, lens[n]) && minCount == MinCount(prevLen, lens[n])
      invariant tree[..] == old(tree[..][maxCode + 1 := tree[maxCode + 1].(dl := GUARD)])
      invariant AllSymbols(lens) == done + Symbols(lens, n, prevLen, count)
      invariant blTree[..] == Tallied(t0, done)
    {
      var curLen: nat := nextLen;
      nextLen := tree[n + 1].dl;
      assert tree[n + 1] == tree[..][n + 1];
      assert nextLen == NextLen(lens, n);
      RunStep(lens, n, prevLen, count);
      count := count + 1;
      if count < maxCount && curLen == nextLen {
        n := n + 1;
        continue;
      }
      ScanBlock(prevLen, curLen, count, blTree, t0, done);
      done := done + Block(prevLen, curLen, count);
      count, prevLen := 0, curLen;
      if nextLen == 0 {
        maxCount, minCount := 138, 3;
      } else if curLen == nextLen {
        maxCount, minCount := 6, 3;
      } else {
        maxCount, minCount := 7, 4;
      }
      n := n + 1;
    }
    assert done == AllSymbols(lens);
  }

  lemma NothingTallied(t0: seq<CtData>, lens: seq<nat>)
    ensures Tallied(t0, []) == t0 && RunState(lens, 0, -1, 0)
  {
  }

  // ---- send_tree ---------------------------------------------------------------------

  // The bits of a symbol: its code in the tree of code lengths, then its extra bits.
  function SymBits(blTree: seq<CtData>, s: ClSym): seq<bool>
  {
    if s.sym < |blTree| then BitsOf(blTree[s.sym].fc, blTree[s.sym].dl) + BitsOf(s.extra, ExtraBits(s.sym)) else []
  }

  function SymsBits(blTree: seq<CtData>, ss: seq<ClSym>): seq<bool>
  {
    if ss == [] then [] else SymsBits(blTree, ss[..|ss| - 1]) + SymBits(blTree, ss[|ss| - 1])
  }

  // Every symbol has a code.
  predicate HaveCodes(blTree: seq<CtData>, ss: seq<ClSym>)
  {
    forall i :: 0 <= i < |ss| ==>
      ClOK(ss[i]) && ss[i].sym < |blTree| && 1 <= blTree[ss[i].sym].dl <= 16
      && blTree[ss[i].sym].fc < Pow2(blTree[ss[i].sym].dl)
  }

  lemma {:induction false} SymsJoin(blTree: seq<CtData>, a: seq<ClSym>, b: seq<ClSym>)
    ensures SymsBits(blTree, a + b) == SymsBits(blTree, a) + SymsBits(blTree, b)
  {
    hide SymBits;
    if b == [] {
      assert a + b == a;
    } else {
      assert (a + b)[..|a + b| - 1] == a + b[..|b| - 1];
      SymsJoin(blTree, a, b[..|b| - 1]);
    }
  }

  lemma SymsPush(blTree: seq<CtData>, a: seq<ClSym>, s: ClSym)
    ensures SymsBits(blTree, a + [s]) == SymsBits(blTree, a) + SymBits(blTree, s)
  {
    assert (a + [s])[..|a|] == a;
  }

  method SendCode(w: BitWriter, c: nat, tree: array<CtData>)
    requires w.Valid() && c < tree.Length && 1 <= tree[c].dl <= 16 && tree[c].fc < Pow2(tree[c].dl)
    modifies w
    ensures w.Valid() && w.Sent() == old(w.Sent()) + BitsOf(tree[c].fc, tree[c].dl)
  {
    w.SendBits(tree[c].fc, tree[c].dl);
  }

  lemma HaveJoin(blTree: seq<CtData>, a: seq<ClSym>, b: seq<ClSym>)
    ensures HaveCodes(blTree, a + b) <==> HaveCodes(blTree, a) && HaveCodes(blTree, b)
  {
    hide ClOK;
    if HaveCodes(blTree, a + b) {
      assert forall i :: 0 <= i < |a| ==> a[i] == (a + b)[i];
      assert forall i :: 0 <= i < |b| ==> b[i] == (a + b)[|a| + i];
    }
  }

  // Send one symbol with its extra bits.
  method SendSym(w: BitWriter, s: ClSym, blTree: array<CtData>, ghost before: seq<bool>, ghost done: seq<ClSym>)
    requires w.Valid() && HaveCodes(blTree[..], done) && HaveCodes(blTree[..], [s])
    requires w.Sent() == before + SymsBits(blTree[..], done)
    modifies w
    ensures w.Valid() && HaveCodes(blTree[..], done + [s]) && w.Sent() == before + SymsBits(blTree[..], done + [s])
  {
    hide BitsOf, Pow2, SymsBits;
    HaveJoin(blTree[..], done, [s]);
    assert [s][0] == s;
    SymsPush(blTree[..], done, s);
    SendCode(w, s.sym, blTree);
    if ExtraBits(s.sym) > 0 {
      w.SendBits(s.extra, ExtraBits(s.sym));
    } else {
      NoBits(s.extra);
    }
    assert w.Sent() == before + SymsBits(blTree[..], done) + SymBits(blTree[..], s);
  }

  lemma NoBits(v: nat)
    ensures BitsOf(v, 0) == []
  {
  }

  method SendBlock(w: BitWriter, prev: int, cur: nat, count0: nat, blTree: array<CtData>,
                   ghost before: seq<bool>, ghost done: seq<ClSym>)
    requires w.Valid() && count0 >= 1 && HaveCodes(blTree[..], done) && HaveCodes(blTree[..], Block(prev, cur, count0))
    requires w.Sent() == before + SymsBits(blTree[..], done)
    modifies w
    ensures w.Valid() && HaveCodes(blTree[..], done + Block(prev, cur, count0))
    ensures w.Sent() == before + SymsBits(blTree[..], done + Block(prev, cur, count0))
  {
    hide HaveCodes, SymsBits, BitWriter.Valid, BitWriter.Sent;
    ghost var block := Block(prev, cur, count0);
    var count := count0;
    if count < MinCount(prev, cur) {
      OneOf(blTree[..], block, 0);
      ghost var sent := done;
      while count != 0
        invariant 0 <= count <= count0 && w.Valid() && sent == done + seq(count0 - count, i => ClSym(cur, 0))
        invariant HaveCodes(blTree[..], sent) && w.Sent() == before + SymsBits(blTree[..], sent)
        decreases count
      {
        SendSym(w, ClSym(cur, 0), blTree, before, sent);
        sent := sent + [ClSym(cur, 0)];
        count := count - 1;
      }
      assert sent == done + block;
    } else if cur != 0 {
      ghost var sent := done;
      OneOf(blTree[..], block, 0);
      OneOf(blTree[..], block, |block| - 1);
      if cur != prev {
        SendSym(w, ClSym(cur, 0), blTree, before, sent);
        sent := sent + [ClSym(cur, 0)];
        count := count - 1;
      }
      assert sent + [ClSym(REP_3_6, count - 3)] == done + block;
      SendSym(w, ClSym(REP_3_6, count - 3), blTree, before, sent);
    } else if count <= 10 {
      SendSym(w, ClSym(REPZ_3_10, count - 3), blTree, before, done);
    } else {
      SendSym(w, ClSym(REPZ_11_138, count - 11), blTree, before, done);
    }
  }

  lemma OneOf(blTree: seq<CtData>, ss: seq<ClSym>, i: nat)
    requires HaveCodes(blTree, ss) && i < |ss|
    ensures HaveCodes(blTree, [ss[i]])
  {
    hide ClOK;
  }

  method SendTree(w: BitWriter, tree: array<CtData>, maxCode: int, blTree: array<CtData>)
    requires -1 <= maxCode < tree.Length - 1 && tree[maxCode + 1].dl == GUARD
    requires ShortLens(Lens(tree[..], maxCode + 1))
    requires w.Valid() && HaveCodes(blTree[..], AllSymbols(Lens(tree[..], maxCode + 1)))
    modifies w
    ensures w.Valid() && HaveCodes(blTree[..], AllSymbols(Lens(tree[..], maxCode + 1)))
    ensures w.Sent() == old(w.Sent()) + SymsBits(blTree[..], AllSymbols(Lens(tree[..], maxCode + 1)))
  {
    hide HaveCodes, SymsBits, BitWriter.Valid, BitWriter.Sent, Block, RunState;
    ghost var lens, before := Lens(tree[..], maxCode + 1), w.Sent();
    ghost var done: seq<ClSym> := [];
    var prevLen: int, nextLen: nat := -1, tree[0].dl;
    var count: nat, maxCount, minCount := 0, 7, 4;
    if nextLen == 0 { maxCount, minCount := 138, 3; }
    StartSending(blTree[..], lens);
    var n := 0;
    while n <= maxCode
      invariant 0 <= n <= maxCode + 1 && RunState(lens, n, prevLen, count)
      invariant n <= maxCode ==>
        nextLen == lens[n] && maxCount == MaxCount(prevLen, lens[n]) && minCount == MinCount(prevLen, lens[n])
      invariant AllSymbols(lens) == done + Symbols(lens, n, prevLen, count)
      invariant w.Valid() && HaveCodes(blTree[..], done) && w.Sent() == before + SymsBits(blTree[..], done)
    {
      var curLen: nat := nextLen;
      nextLen := tree[n + 1].dl;
      assert nextLen == NextLen(lens, n);
      RunStep(lens, n, prevLen, count);
      count := count + 1;
      if count < maxCount && curLen == nextLen {
        n := n + 1;
        continue;
      }
      ghost var block, rest := Block(prevLen, curLen, count), Symbols(lens, n + 1, curLen, 0);
      assert done + (block + rest) == (done + block) + rest;
      HaveJoin(blTree[..], done, block + rest);
      HaveJoin(blTree[..], block, rest);
      SendBlock(w, prevLen, curLen, count, blTree, before, done);
      done := done + block;
      count, prevLen := 0, curLen;
      if nextLen == 0 {
        maxCount, minCount := 138, 3;
      } else if curLen == nextLen {
        maxCount, minCount := 6, 3;
      } else {
        maxCount, minCount := 7, 4;
      }
      n := n + 1;
    }
    assert done == AllSymbols(lens);
  }

  lemma StartSending(blTree: seq<CtData>, lens: seq<nat>)
    ensures HaveCodes(blTree, []) && SymsBits(blTree, []) == [] && RunState(lens, 0, -1, 0)
  {
  }
}
