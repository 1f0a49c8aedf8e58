// deflate and deflate_fast (deflate.c): the input passes through a sliding
// window, and becomes literals and matches that stand for it.
module Deflate {
  import opened Bits
  import opened Lz77
  import opened Matcher
  import opened SlidingWindow
  import opened BlockFormat
  import opened Blocks
  import opened Tally
  import opened FlushBlock
  import opened Streams
  import opened CtInit

  const TOO_FAR: nat := 4096

  // One line of the configuration table.
  datatype Config = Config(goodLength: nat, maxLazy: nat, niceLength: nat, maxChain: nat)

  function ConfigFor(level: nat): Config
  {
    match level
    case 1 => Config(4, 4, 8, 4)
    case 2 => Config(4, 5, 16, 8)
    case 3 => Config(4, 6, 32, 32)
    case 4 => Config(4, 4, 16, 16)
    case 5 => Config(8, 16, 32, 32)
    case 6 => Config(8, 16, 128, 128)
    case 7 => Config(8, 32, 128, 256)
    case 8 => Config(32, 128, 258, 1024)
    case 9 => Config(32, 258, 258, 4096)
    case _ => Config(0, 0, 0, 0)
  }

  // ---- What the window and the tokens stand for -----------------------------------------

  // A match is no farther back than deflate looks.
  predicate NearToken(t: Token)
  {
    t.Match? ==> t.dist <= MAX_DIST
  }

  predicate Near(ts: seq<Token>)
  {
    forall i :: 0 <= i < |ts| ==> NearToken(ts[i])
  }

  predicate NearBlock(blk: Block)
  {
    blk.Stored? || (AllOK(blk.its) && Near(TokensOf(blk.its)))
  }

  predicate NearBlocks(blks: seq<Block>)
  {
    forall i :: 0 <= i < |blks| ==> NearBlock(blks[i])
  }

  // The tokens stand for the input from b to k.
  ghost predicate StandFor(input: seq<Byte>, ts: seq<Token>, b: nat, k: nat)
  {
    b <= k <= |input| && TokensOK(ts) && Near(ts) && AllReach(ts, b) && Expand(input[..b], ts) == input[..k]
  }

  lemma NoTokens(input: seq<Byte>, b: nat)
    requires b <= |input|
    ensures StandFor(input, [], b, b)
  {
  }

  lemma OneMore(input: seq<Byte>, ts: seq<Token>, b: nat, k: nat, t: Token)
    requires StandFor(input, ts, b, k) && TokenOK(t) && NearToken(t) && Reaches(t, k) && k + Length(t) <= |input|
    requires Apply(input[..k], t) == input[..k + Length(t)]
    ensures StandFor(input, ts + [t], b, k + Length(t))
  {
    hide Apply, Reaches, Length, TokenOK;
    ReachJoin(ts, [t], input[..b]);
    assert [t][1..] == [];
    assert AllReach([t], k);
    assert Expand(input[..k], [t]) == Apply(input[..k], t);
  }

  lemma LiteralStands(input: seq<Byte>, ts: seq<Token>, b: nat, k: nat)
    requires StandFor(input, ts, b, k) && k < |input|
    ensures StandFor(input, ts + [Literal(input[k])], b, k + 1)
  {
    assert input[..k + 1] == input[..k] + [input[k]];
    OneMore(input, ts, b, k, Literal(input[k]));
  }

  lemma MatchStands(input: seq<Byte>, ts: seq<Token>, b: nat, k: nat, m: int, n: nat)
    requires StandFor(input, ts, b, k) && Repeats(input, m, k, n) && MIN_MATCH <= n <= MAX_MATCH
    ensures StandFor(input, ts + [Match(n, k - m)], b, k + n)
  {
    hide Copy;
    CopyUnique(input[..k], k - m, n, input[..k + n]);
    OneMore(input, ts, b, k, Match(n, k - m));
  }

  // ---- The compressed side --------------------------------------------------------------

  class Output {
    const sender: BlockSender
    ghost var blks: seq<Block>
    ghost var ts: seq<Token>

    // The tokens of all blocks.
    ghost var all: seq<Token>

    // The blocks stand for the input up to b, the tokens of the current block for
    // the input from b to k.
    ghost predicate Covers(input: seq<Byte>, b: int, k: int)
      reads this, sender, sender.w, sender.trees, sender.blTree, sender.staticLtree, sender.staticDtree
      reads sender.t, sender.t.lBuf, sender.t.dBuf, sender.t.flagBuf, sender.t.dynLtree, sender.t.dynDtree
    {
      0 <= b <= k <= |input| && sender.Valid() && sender.t.BuffersHold(ts) && sender.t.Counts(ts)
      && NearBlocks(blks) && PrefixOK(blks, []) && PrefixOut(blks, []) == input[..b]
      && sender.w.Sent() == PrefixBits(0, blks, [])
      && StandFor(input, ts, b, k)
    }

    // There is room for another token.
    ghost predicate Room()
      reads this
    {
      |ts| < LIT_BUFSIZE - 1
    }

    constructor ()
      ensures Room() && all == [] && forall input: seq<Byte> :: Covers(input, 0, 0)
      ensures fresh(sender) && fresh(sender.t) && fresh(sender.t.lBuf) && fresh(sender.t.dBuf)
              && fresh(sender.t.flagBuf)
      ensures fresh(sender.t.dynLtree) && fresh(sender.t.dynDtree) && fresh(sender.blTree) && fresh(sender.trees)
      ensures fresh(sender.trees.heap) && fresh(sender.trees.depth) && fresh(sender.trees.blCount) && fresh(sender.w)
    {
      hide BlockSender.Valid, TallyBuffers.BuffersHold, TallyBuffers.Counts;
      sender := new BlockSender();
      blks, ts, all := [], [], [];
      new;
      forall input: seq<Byte> ensures Covers(input, 0, 0) {
        NoTokens(input, 0);
        assert input[..0] == [];
      }
    }

    // ct_tally for a literal or match that goes on in the input to k'.
    method Put(dist: nat, lc: Byte, level: nat, inLength: int, ghost input: seq<Byte>, ghost b: int, ghost k: int,
        ghost k': int)
      returns (flush: bool)
      requires Covers(input, b, k) && Room() && dist <= WSIZE
      requires 0 <= b <= k' <= |input| && StandFor(input, ts + [TallyBuffers.TokenFor(dist, lc)], b, k')
      modifies `ts, `all, sender.t, sender.t.lBuf, sender.t.dBuf, sender.t.flagBuf, sender.t.dynLtree, sender.t.dynDtree
      ensures Covers(input, b, k') && (!flush ==> Room()) && blks == old(blks)
      ensures ts == old(ts) + [TallyBuffers.TokenFor(dist, lc)] && all == old(all) + [TallyBuffers.TokenFor(dist, lc)]
    {
      hide BlockSender.Valid, TallyBuffers.BuffersHold, TallyBuffers.Counts, StandFor, PrefixOK, PrefixOut, PrefixBits,
        BitWriter.Sent, MapsOK;
      sender.ValidParts();
      flush := sender.t.CtTally(dist, lc, sender.maps, level, inLength, ts);
      ts, all := ts + [TallyBuffers.TokenFor(dist, lc)], all + [TallyBuffers.TokenFor(dist, lc)];
    }

    // FLUSH_BLOCK before the end of the input.
    method EndBlock(buf: Input, storedLen: nat, ghost input: seq<Byte>, ghost b: int, ghost k: int)
      requires Covers(input, b, k)
      requires buf.Bytes? ==> |buf.data| == storedLen < 65536 && buf.data == input[b..k]
      modifies this, sender, sender.t, sender.t.flagBuf, sender.t.dynLtree, sender.t.dynDtree, sender.blTree
      modifies sender.trees, sender.trees.heap, sender.trees.depth, sender.trees.blCount, sender.w
      ensures Covers(input, k, k) && Room() && all == old(all)
    {
      hide BlockSender.Valid, TallyBuffers.BuffersHold, TallyBuffers.Counts, StandFor, Chosen, Forms, PrefixOK,
        PrefixOut, PrefixBits, BitWriter.Sent, BlockOK, BlockReaches, After, BlockBits, NearBlocks;
      TokensStand(input, ts, b, k, buf);
      var bytes;
      ghost var dyn, fix;
      bytes, dyn, fix := sender.Flush(buf, storedLen, false, ts);
      FormFacts(ts, dyn, fix);
      ghost var blk := Chosen(dyn, fix, buf);
      ChosenOut(ts, dyn, fix, buf, input[..b]);
      ChosenNear(input, ts, b, k, dyn, fix, buf, blks);
      PrefixSnoc(0, blks, [], blk);
      blks, ts := blks + [blk], [];
      NoTokens(input, k);
    }

    // FLUSH_BLOCK at the end: the bytes written are a whole stream.
    method EndStream(buf: Input, storedLen: nat, ghost input: seq<Byte>, ghost b: int, ghost k: int)
      requires Covers(input, b, k)
      requires buf.Bytes? ==> |buf.data| == storedLen < 65536 && buf.data == input[b..k]
      modifies this, sender, sender.t, sender.t.flagBuf, sender.t.dynLtree, sender.t.dynDtree, sender.blTree
      modifies sender.trees, sender.trees.heap, sender.trees.depth, sender.trees.blCount, sender.w
      ensures Complete(blks, input[..k], sender.w.out) && all == old(all)
    {
      hide BlockSender.Valid, TallyBuffers.BuffersHold, TallyBuffers.Counts, StandFor, Chosen, Forms, PrefixOK,
        PrefixOut, PrefixBits, BitWriter.Sent, BlockOK, BlockReaches, After, BlockBits, StreamOK, StreamBits, StreamOut,
        Complete, Padding, BytesBits, NearBlocks;
      TokensStand(input, ts, b, k, buf);
      var bytes;
      ghost var dyn, fix;
      bytes, dyn, fix := sender.Flush(buf, storedLen, true, ts);
      FormFacts(ts, dyn, fix);
      ghost var blk := Chosen(dyn, fix, buf);
      ChosenOut(ts, dyn, fix, buf, input[..b]);
      ChosenNear(input, ts, b, k, dyn, fix, buf, blks);
      StreamSnoc(0, blks, [], blk);
      CompleteIs(blks, blk, PrefixBits(0, blks, []), input[..k], sender.w.out);
      blks, ts := blks + [blk], [];
    }
  }

  lemma CompleteIs(blks: seq<Block>, blk: Block, sent: seq<bool>, data: seq<Byte>, out: seq<Byte>)
    requires NearBlocks(blks + [blk]) && BlockOK(blk) && StreamOK(blks + [blk], [])
             && StreamOut(blks + [blk], []) == data
    requires StreamBits(0, blks + [blk], []) == sent + BlockBits(0 + |sent|, true, blk)
    requires BytesBits(out) == sent + BlockBits(|sent|, true, blk) + Padding(|sent| + |BlockBits(|sent|, true, blk)|)
    ensures Complete(blks + [blk], data, out)
  {
    hide NearBlocks, StreamOK, StreamOut, StreamBits, BlockBits, BlockOK, BytesBits;
  }

  lemma ChosenNear(input: seq<Byte>, ts: seq<Token>, b: int, k: int, dyn: Block, fix: Block, buf: Input,
      blks: seq<Block>)
    requires 0 <= b <= k && StandFor(input, ts, b, k) && NearBlocks(blks)
    requires fix == Fixed(ItemsOf(ts)) && dyn.Dynamic? && dyn.its == ItemsOf(ts) && BlockOK(dyn) && BlockOK(fix)
    ensures NearBlocks(blks + [Chosen(dyn, fix, buf)])
  {
    hide Size, BlockOK, Expand, AllReach, AllOK;
    ItemsRoundTrip(ts);
  }

  lemma RepeatsBounds(input: seq<Byte>, m: int, k: nat, n: nat)
    requires Repeats(input, m, k, n)
    ensures 0 <= m < k && k - m <= MAX_DIST && k + n <= |input|
  {
  }

  // The bytes are a stream that stands for the data.
  ghost predicate Complete(blks: seq<Block>, data: seq<Byte>, out: seq<Byte>)
  {
    NearBlocks(blks) && StreamOK(blks, []) && StreamOut(blks, []) == data
    && BytesBits(out) == StreamBits(0, blks, []) + Padding(|StreamBits(0, blks, [])|)
  }

  lemma TokensStand(input: seq<Byte>, ts: seq<Token>, b: int, k: int, buf: Input)
    requires 0 <= b <= k <= |input| && StandFor(input, ts, b, k) && (buf.Bytes? ==> buf.data == input[b..k])
    ensures AllReach(ts, b) && Expand(input[..b], ts) == input[..k]
    ensures buf.Bytes? ==> input[..b] + buf.data == input[..k]
  {
  }

  // ---- deflate -----------------------------------------------------------------------

  class Deflater {
    const level: nat
    const win: Slider
    const out: Output

    // The objects of the two sides are different.
    ghost predicate Apart()
    {
      1 <= level <= 9
      && win.prev != out.sender.t.flagBuf && win.prev != out.sender.trees.heap
      && win.prev != out.sender.trees.depth && win.prev != out.sender.trees.blCount
      && win.head != out.sender.t.flagBuf && win.head != out.sender.trees.heap
      && win.head != out.sender.trees.depth && win.head != out.sender.trees.blCount
      && win.window != out.sender.t.lBuf
    }

    // The tokens stand for the input up to i bytes from the start of the window.
    ghost predicate Done(i: int)
      reads this, win, out, out.sender, out.sender.w, out.sender.trees, out.sender.blTree
      reads out.sender.staticLtree, out.sender.staticDtree
      reads out.sender.t, out.sender.t.lBuf, out.sender.t.dBuf, out.sender.t.flagBuf, out.sender.t.dynLtree,
              out.sender.t.dynDtree
    {
      out.Covers(win.input, win.Pos(win.blockStart), win.Pos(i))
    }

    constructor (input: seq<Byte>, packLevel: nat)
      requires 1 <= packLevel <= 9
      ensures Apart() && win.Ready() && out.Room() && Done(win.strstart) && win.input == input
              && win.Pos(win.strstart) == 0
      ensures fresh(win) && fresh(win.window) && fresh(win.prev) && fresh(win.head) && fresh(out) && fresh(out.sender)
      ensures fresh(out.sender.t) && fresh(out.sender.t.lBuf) && fresh(out.sender.t.dBuf) && fresh(out.sender.t.flagBuf)
      ensures fresh(out.sender.t.dynLtree) && fresh(out.sender.t.dynDtree) && fresh(out.sender.blTree)
              && fresh(out.sender.trees)
      ensures fresh(out.sender.trees.heap) && fresh(out.sender.trees.depth) && fresh(out.sender.trees.blCount)
              && fresh(out.sender.w)
    {
      hide Output.Covers, Slider.Ready;
      level := packLevel;
      var o := new Output();
      var w := new Slider(input);
      out, win := o, w;
      new;
      assert out.Covers(win.input, 0, 0);
    }

    // FLUSH_BLOCK(0) and block_start = strstart
    method EndBlock()
      requires Apart() && win.Valid() && (win.eofile || win.lookahead >= 1) && Done(win.strstart)
      modifies win`blockStart, out, out.sender, out.sender.t, out.sender.t.flagBuf, out.sender.t.dynLtree,
                 out.sender.t.dynDtree
      modifies out.sender.blTree, out.sender.trees, out.sender.trees.heap, out.sender.trees.depth,
                 out.sender.trees.blCount, out.sender.w
      ensures win.Valid() && Done(win.strstart) && out.Room() && win.blockStart == win.strstart
              && out.all == old(out.all)
    {
      hide Shows, Output.Covers;
      DoneBounds(win.strstart);
      ghost var b, k := win.Pos(win.blockStart), win.Pos(win.strstart);
      if win.blockStart >= 0 {
        WindowPart(win.window[..], win.input, win.base, win.strstart + win.lookahead, win.blockStart, win.strstart);
        out.EndBlock(Bytes(win.window[win.blockStart..win.strstart]), win.strstart - win.blockStart, win.input, b, k);
      } else {
        out.EndBlock(TooOld, win.strstart - win.blockStart, win.input, b, k);
      }
      win.blockStart := win.strstart;
    }

    // ct_tally for the byte at i.
    method TallyLiteral(i: nat) returns (flush: bool)
      requires Apart() && win.Valid() && i < win.strstart + win.lookahead && Done(i) && out.Room()
      modifies out`ts, out`all, out.sender.t, out.sender.t.lBuf, out.sender.t.dBuf, out.sender.t.flagBuf,
                 out.sender.t.dynLtree,
                 out.sender.t.dynDtree
      ensures win.Valid() && Done(i + 1) && (!flush ==> out.Room())
              && out.all == old(out.all) + [Literal(win.window[i])]
    {
      hide Output.Covers, Shows, StandFor;
      ghost var b, k := win.Pos(win.blockStart), win.Pos(i);
      CoversFacts(win.input, b, k);
      ShowsFits(win.window[..], win.input, win.base, win.strstart + win.lookahead);
      ShowsAt(win.window[..], win.input, win.base, win.strstart + win.lookahead, i);
      LiteralStands(win.input, out.ts, b, k);
      flush := out.Put(0, win.window[i], level, win.strstart - win.blockStart, win.input, b, k, k + 1);
    }

    // ct_tally for n bytes at i that are those at m.
    method TallyMatch(i: nat, m: int, n: nat) returns (flush: bool)
      requires Apart() && win.Valid() && Done(i) && out.Room() && MIN_MATCH <= n <= MAX_MATCH
      requires Repeats(win.input, win.Pos(m), win.Pos(i), n)
      modifies out`ts, out`all, out.sender.t, out.sender.t.lBuf, out.sender.t.dBuf, out.sender.t.flagBuf,
                 out.sender.t.dynLtree,
                 out.sender.t.dynDtree
      ensures win.Valid() && Done(i + n) && (!flush ==> out.Room()) && out.all == old(out.all) + [Match(n, i - m)]
    {
      hide Output.Covers, Shows, StandFor;
      ghost var b, k := win.Pos(win.blockStart), win.Pos(i);
      CoversFacts(win.input, b, k);
      RepeatsBounds(win.input, win.Pos(m), k, n);
      MatchStands(win.input, out.ts, b, k, win.Pos(m), n);
      flush := out.Put(i - m, n - MIN_MATCH, level, win.strstart - win.blockStart, win.input, b, k, k + n);
    }

    lemma CoversFacts(input: seq<Byte>, b: int, k: int)
      requires out.Covers(input, b, k)
      ensures 0 <= b <= k <= |input| && StandFor(input, out.ts, b, k)
    {
    }

    // ---- deflate_fast ----------------------------------------------------------------

    // Of the bytes found those that there are.
    static function Cut(found: nat, lookahead: nat): nat
    {
      if found > lookahead then lookahead else found
    }

    // Insert the string at strstart and look for a match.
    method FastSearch(matchLength0: nat) returns (matchLength: nat, ghost hashHead: nat, ghost found: nat)
      requires Apart() && win.Ready() && win.lookahead != 0 && matchLength0 < MIN_MATCH
      modifies win`insH, win`ins, win`matchStart, win.prev, win.head
      ensures win.Valid() && win.ChainsTo(win.strstart + 1) && matchLength <= MAX_MATCH
      ensures matchLength >= MIN_MATCH ==>
        matchLength <= win.lookahead && Repeats(win.input, win.Pos(win.matchStart), win.Pos(win.strstart), matchLength)
      ensures Newest(win.window[..], old(win.ins), win.strstart, hashHead)
      ensures var c := ConfigFor(level);
              if hashHead != 0 && win.strstart - hashHead <= MAX_DIST
              then win.FoundIn(hashHead, MIN_MATCH - 1, c.goodLength, c.niceLength, c.maxChain, found)
                   && matchLength == Cut(found, win.lookahead)
              else matchLength == matchLength0
    {
      hide Shows, Chains, Candidate, Repeats, Newest, Slider.FoundIn;
      matchLength := matchLength0;
      var config := ConfigFor(level);
      var head := win.InsertString(win.strstart);
      hashHead, found := head, 0;
      if head != 0 && win.strstart - head <= MAX_DIST {
        matchLength, found := win.FindMatch(head, MIN_MATCH - 1, config.goodLength, config.niceLength, config.maxChain);
      }
    }

    // Put out the match, or else a literal.
    method FastEmit(matchLength: nat) returns (flush: bool)
      requires Apart() && win.Valid() && win.ChainsTo(win.strstart + 1) && win.lookahead != 0
               && matchLength <= MAX_MATCH
      requires out.Room() && Done(win.strstart)
      requires matchLength >= MIN_MATCH ==>
        matchLength <= win.lookahead && Repeats(win.input, win.Pos(win.matchStart), win.Pos(win.strstart), matchLength)
      modifies win`strstart, win`lookahead, win`insH, win`ins, win.prev, win.head
      modifies out`ts, out`all, out.sender.t, out.sender.t.lBuf, out.sender.t.dBuf, out.sender.t.flagBuf,
                 out.sender.t.dynLtree,
                 out.sender.t.dynDtree
      ensures out.all == old(out.all) + [if matchLength >= MIN_MATCH
                                         then Match(matchLength, old(win.strstart - win.matchStart))
                                         else old(Literal(win.window[win.strstart]))]
      ensures win.strstart == old(win.strstart) + if matchLength >= MIN_MATCH then matchLength else 1
      ensures Marked(old(win.ins), win.ins, old(win.strstart) + 1,
                     if MIN_MATCH <= matchLength <= ConfigFor(level).maxLazy then win.strstart
                     else old(win.strstart) + 1)
      ensures win.Valid() && win.ChainsTo(win.strstart) && Done(win.strstart) && (!flush ==> out.Room())
      ensures win.strstart > old(win.strstart) && win.strstart + win.lookahead == old(win.strstart + win.lookahead)
      ensures win.lookahead + MAX_MATCH >= old(win.lookahead)
    {
      hide Output.Covers, Shows, Chains, Repeats, Marked;
      NoneMarked(win.ins, win.strstart + 1);
      if matchLength >= MIN_MATCH {
        flush := TallyMatch(win.strstart, win.matchStart, matchLength);
        if matchLength <= ConfigFor(level).maxLazy {
          win.InsertRest(matchLength);
        } else {
          win.SkipRest(matchLength);
        }
      } else {
        flush := TallyLiteral(win.strstart);
        win.Advance();
      }
    }

    // End the block if it is full, and read on.
    method Finish(flush: bool)
      requires Apart() && win.Valid() && win.ChainsTo(win.strstart) && (win.eofile || win.lookahead >= 2)
      requires Done(win.strstart) && (!flush ==> out.Room())
      modifies win, win.window, win.prev, win.head
      modifies out, out.sender, out.sender.t, out.sender.t.flagBuf, out.sender.t.dynLtree, out.sender.t.dynDtree,
                 out.sender.blTree
      modifies out.sender.trees, out.sender.trees.heap, out.sender.trees.depth, out.sender.trees.blCount, out.sender.w
      ensures win.Ready() && out.Room() && Done(win.strstart)
      ensures win.Pos(win.strstart) == old(win.Pos(win.strstart))
              && win.Pos(win.matchStart) == old(win.Pos(win.matchStart))
      ensures win.strstart == old(win.strstart) || win.strstart >= MAX_DIST
      ensures out.all == old(out.all)
    {
      hide Output.Covers, Shows, Chains;
      if flush { EndBlock(); }
      win.Refill();
    }

    // One step of deflate_fast.
    method FastStep(matchLength0: nat) returns (matchLength: nat, ghost now: nat)
      requires Apart() && win.Ready() && win.lookahead != 0 && out.Room() && Done(win.strstart)
               && matchLength0 < MIN_MATCH
      modifies win, win.window, win.prev, win.head
      modifies out, out.sender, out.sender.t, out.sender.t.lBuf, out.sender.t.dBuf, out.sender.t.flagBuf
      modifies out.sender.t.dynLtree, out.sender.t.dynDtree, out.sender.blTree
      modifies out.sender.trees, out.sender.trees.heap, out.sender.trees.depth, out.sender.trees.blCount, out.sender.w
      ensures win.Ready() && out.Room() && Done(win.strstart) && matchLength < MIN_MATCH
      ensures win.Pos(win.strstart) == old(win.Pos(win.strstart)) + if now >= MIN_MATCH then now else 1
      ensures |out.all| == old(|out.all|) + 1 && out.all[..old(|out.all|)] == old(out.all)
      ensures var t := out.all[old(|out.all|)];
              if now >= MIN_MATCH then t.Match? && t.len == now else t == old(Literal(win.window[win.strstart]))
    {
      hide Output.Covers, Shows, Chains, Repeats, Slider.FoundIn, Newest, Marked, ConfigFor, NotTooFar, Cut;
      ghost var head, found;
      matchLength, head, found := FastSearch(matchLength0);
      now := matchLength;
      var flush := FastEmit(matchLength);
      if matchLength >= MIN_MATCH { matchLength := 0; }
      Finish(flush);
    }

    // ---- deflate with lazy evaluation ------------------------------------------------

    // What is known of the byte before strstart: it is still to be put out, perhaps
    // as the beginning of a match of matchLength bytes.
    ghost predicate Pending(available: bool, matchLength: nat)
      reads this, win
    {
      1 <= matchLength <= MAX_MATCH
      && if available then
           win.strstart >= 1
           && (matchLength >= MIN_MATCH ==>
                 matchLength <= win.lookahead + 1 && Repeats(win.input, win.Pos(win.matchStart),
                   win.Pos(win.strstart - 1), matchLength))
         else matchLength == MIN_MATCH - 1
    }

    // Three bytes that are too far back are not worth a match.
    static function NotTooFar(n: nat, dist: int): nat
    {
      if n == MIN_MATCH && dist > TOO_FAR then MIN_MATCH - 1 else n
    }

    // Insert the string at strstart and look for a match better than prevLength.
    method LazySearch(prevLength: nat) returns (matchLength: nat, ghost hashHead: nat, ghost found: nat)
      requires Apart() && win.Ready() && win.lookahead != 0 && 1 <= prevLength <= MAX_MATCH && level >= 4
      modifies win`insH, win`ins, win`matchStart, win.prev, win.head
      ensures win.Valid() && win.ChainsTo(win.strstart + 1) && 1 <= matchLength <= MAX_MATCH
      ensures matchLength > prevLength && matchLength >= MIN_MATCH ==>
        matchLength <= win.lookahead && Repeats(win.input, win.Pos(win.matchStart), win.Pos(win.strstart), matchLength)
      ensures Newest(win.window[..], old(win.ins), win.strstart, hashHead)
      ensures var c := ConfigFor(level);
              if hashHead != 0 && prevLength < c.maxLazy && win.strstart - hashHead <= MAX_DIST
              then win.FoundIn(hashHead, prevLength, c.goodLength, c.niceLength, c.maxChain, found)
                   && matchLength == NotTooFar(Cut(found, win.lookahead), win.strstart - win.matchStart)
              else matchLength == MIN_MATCH - 1
    {
      hide Shows, Chains, Candidate, Repeats, Newest, Slider.FoundIn;
      var config := ConfigFor(level);
      matchLength := MIN_MATCH - 1;
      var head := win.InsertString(win.strstart);
      hashHead, found := head, 0;
      if head != 0 && prevLength < config.maxLazy && win.strstart - head <= MAX_DIST {
        matchLength, found := win.FindMatch(head, prevLength, config.goodLength, config.niceLength, config.maxChain);
        if matchLength == MIN_MATCH && win.strstart - win.matchStart > TOO_FAR {
          matchLength := matchLength - 1;
        }
      }
    }

    // Put out the match found one step before.
    method LazyMatch(prevMatch: int, prevLength: nat) returns (flush: bool)
      requires Apart() && win.Valid() && win.ChainsTo(win.strstart + 1) && win.strstart >= 1
      requires out.Room() && Done(win.strstart - 1) && MIN_MATCH <= prevLength <= MAX_MATCH
               && prevLength <= win.lookahead + 1
      requires Repeats(win.input, win.Pos(prevMatch), win.Pos(win.strstart - 1), prevLength)
      modifies win`strstart, win`lookahead, win`insH, win`ins, win.prev, win.head
      modifies out`ts, out`all, out.sender.t, out.sender.t.lBuf, out.sender.t.dBuf, out.sender.t.flagBuf,
                 out.sender.t.dynLtree,
                 out.sender.t.dynDtree
      ensures win.Valid() && win.ChainsTo(win.strstart) && Done(win.strstart) && (!flush ==> out.Room())
      ensures win.strstart == old(win.strstart) + prevLength - 1 && win.lookahead + prevLength - 1 == old(win.lookahead)
      ensures out.all == old(out.all) + [Match(prevLength, old(win.strstart) - 1 - prevMatch)]
    {
      hide Output.Covers, Shows, Chains, Repeats;
      flush := TallyMatch(win.strstart - 1, prevMatch, prevLength);
      win.InsertRest(prevLength - 1);
    }

    // Put out the byte before strstart, which begins no match.
    method LazyLiteral()
      requires Apart() && win.Valid() && win.ChainsTo(win.strstart + 1) && 1 <= win.strstart && win.lookahead >= 1
      requires out.Room() && Done(win.strstart - 1)
      modifies win`blockStart
      modifies out, out.sender, out.sender.t, out.sender.t.lBuf, out.sender.t.dBuf, out.sender.t.flagBuf
      modifies out.sender.t.dynLtree, out.sender.t.dynDtree, out.sender.blTree
      modifies out.sender.trees, out.sender.trees.heap, out.sender.trees.depth, out.sender.trees.blCount, out.sender.w
      ensures win.Valid() && win.ChainsTo(win.strstart + 1) && Done(win.strstart) && out.Room()
      ensures out.all == old(out.all) + [Literal(win.window[win.strstart - 1])]
    {
      hide Output.Covers, Shows, Chains;
      var flush := TallyLiteral(win.strstart - 1);
      if flush { EndBlock(); }
    }

    // Keep what was found at strstart for the next step.
    method LazyOn(available0: bool, matchLength: nat)
      requires Apart() && win.Valid() && win.ChainsTo(win.strstart + 1) && (win.eofile || win.lookahead >= 3)
               && win.lookahead >= 1
      requires out.Room() && Done(win.strstart - if available0 then 1 else 0) && (available0 ==> win.strstart >= 1)
      requires 1 <= matchLength <= MAX_MATCH
      requires matchLength >= MIN_MATCH ==>
        matchLength <= win.lookahead && Repeats(win.input, win.Pos(win.matchStart), win.Pos(win.strstart), matchLength)
      modifies win, win.window, win.prev, win.head
      modifies out, out.sender, out.sender.t, out.sender.t.lBuf, out.sender.t.dBuf, out.sender.t.flagBuf
      modifies out.sender.t.dynLtree, out.sender.t.dynDtree, out.sender.blTree
      modifies out.sender.trees, out.sender.trees.heap, out.sender.trees.depth, out.sender.trees.blCount, out.sender.w
      ensures win.Ready() && out.Room() && Pending(true, matchLength) && Done(win.strstart - 1)
      ensures win.Pos(win.strstart) == old(win.Pos(win.strstart)) + 1
      ensures out.all == old(out.all) + if available0 then [old(Literal(win.window[win.strstart - 1]))] else []
    {
      hide Output.Covers, Shows, Chains, Repeats;
      if available0 { LazyLiteral(); }
      win.Advance();
      win.Refill();
    }

    // One step of deflate.
    method LazyStep(available0: bool, matchLength0: nat) returns (available: bool, matchLength: nat, ghost now: nat)
      requires Apart() && level >= 4 && win.Ready() && win.lookahead != 0 && out.Room()
               && Pending(available0, matchLength0)
      requires Done(win.strstart - if available0 then 1 else 0)
      modifies win, win.window, win.prev, win.head
      modifies out, out.sender, out.sender.t, out.sender.t.lBuf, out.sender.t.dBuf, out.sender.t.flagBuf
      modifies out.sender.t.dynLtree, out.sender.t.dynDtree, out.sender.blTree
      modifies out.sender.trees, out.sender.trees.heap, out.sender.trees.depth, out.sender.trees.blCount, out.sender.w
      ensures win.Ready() && out.Room() && Pending(available, matchLength)
      ensures Done(win.strstart - if available then 1 else 0)
      ensures available == !(matchLength0 >= MIN_MATCH && now <= matchLength0)
      ensures matchLength == if available then now else MIN_MATCH - 1
      ensures win.Pos(win.strstart) == old(win.Pos(win.strstart)) + if available then 1 else matchLength0 - 1
      ensures out.all == old(out.all) + if !available then [Match(matchLength0, old(win.strstart - 1 - win.matchStart))]
                                        else if available0 then [old(Literal(win.window[win.strstart - 1]))] else []
    {
      hide Output.Covers, Shows, Chains, Repeats, Slider.FoundIn, Newest, Marked, ConfigFor, NotTooFar, Cut;
      var prevLength, prevMatch := matchLength0, win.matchStart;
      ghost var head, found;
      matchLength, head, found := LazySearch(prevLength);
      now := matchLength;
      if prevLength >= MIN_MATCH && matchLength <= prevLength {
        var flush := LazyMatch(prevMatch, prevLength);
        available, matchLength := false, MIN_MATCH - 1;
        Finish(flush);
      } else {
        LazyOn(available0, matchLength);
        available := true;
      }
    }

    // ---- Whole files -------------------------------------------------------------------

    // FLUSH_BLOCK(1)
    method EndStream()
      requires Apart() && win.Valid() && win.eofile && win.lookahead == 0 && Done(win.strstart)
      modifies out, out.sender, out.sender.t, out.sender.t.flagBuf, out.sender.t.dynLtree, out.sender.t.dynDtree
      modifies out.sender.blTree, out.sender.trees, out.sender.trees.heap, out.sender.trees.depth,
                 out.sender.trees.blCount, out.sender.w
      ensures Complete(out.blks, win.input, out.sender.w.out)
    {
      hide Shows, Output.Covers, Complete;
      DoneBounds(win.strstart);
      ghost var b, k := win.Pos(win.blockStart), win.Pos(win.strstart);
      assert win.input[..k] == win.input;
      if win.blockStart >= 0 {
        WindowPart(win.window[..], win.input, win.base, win.strstart + win.lookahead, win.blockStart, win.strstart);
        out.EndStream(Bytes(win.window[win.blockStart..win.strstart]), win.strstart - win.blockStart, win.input, b, k);
      } else {
        out.EndStream(TooOld, win.strstart - win.blockStart, win.input, b, k);
      }
    }

    method DeflateFast()
      requires Apart() && win.Ready() && out.Room() && Done(win.strstart)
      modifies win, win.window, win.prev, win.head
      modifies out, out.sender, out.sender.t, out.sender.t.lBuf, out.sender.t.dBuf, out.sender.t.flagBuf
      modifies out.sender.t.dynLtree, out.sender.t.dynDtree, out.sender.blTree
      modifies out.sender.trees, out.sender.trees.heap, out.sender.trees.depth, out.sender.trees.blCount, out.sender.w
      ensures Complete(out.blks, win.input, out.sender.w.out)
    {
      hide Output.Covers, Shows, Chains, Complete;
      var matchLength: nat := 0;
      while win.lookahead != 0
        invariant win.Ready() && out.Room() && Done(win.strstart) && matchLength < MIN_MATCH
        decreases |win.input| - win.Pos(win.strstart)
      {
        DoneBounds(win.strstart);
        ghost var now;
        matchLength, now := FastStep(matchLength);
        DoneBounds(win.strstart);
      }
      EndStream();
    }

    // deflate
    method Run()
      requires Apart() && win.Ready() && out.Room() && Done(win.strstart)
      modifies win, win.window, win.prev, win.head
      modifies out, out.sender, out.sender.t, out.sender.t.lBuf, out.sender.t.dBuf, out.sender.t.flagBuf
      modifies out.sender.t.dynLtree, out.sender.t.dynDtree, out.sender.blTree
      modifies out.sender.trees, out.sender.trees.heap, out.sender.trees.depth, out.sender.trees.blCount, out.sender.w
      ensures Complete(out.blks, win.input, out.sender.w.out)
    {
      hide Output.Covers, Shows, Chains, Complete, Repeats;
      if level <= 3 {
        DeflateFast();
        return;
      }
      var available, matchLength: nat := false, MIN_MATCH - 1;
      while win.lookahead != 0
        invariant win.Ready() && out.Room() && Pending(available, matchLength)
                  && Done(win.strstart - if available then 1 else 0)
        decreases |win.input| - win.Pos(win.strstart)
      {
        StartInside();
        ghost var now;
        available, matchLength, now := LazyStep(available, matchLength);
        StartInside();
      }
      if available {
        var _ := TallyLiteral(win.strstart - 1);
      }
      EndStream();
    }

    lemma StartInside()
      requires win.Valid()
      ensures win.Pos(win.strstart) <= |win.input|
    {
    }

    lemma DoneBounds(i: int)
      requires Done(i)
      ensures 0 <= win.Pos(win.blockStart) <= win.Pos(i) <= |win.input|
    {
    }
  }

  lemma WindowPart(win: seq<Byte>, input: seq<Byte>, base: nat, n: nat, a: nat, b: nat)
    requires Shows(win, input, base, n) && a <= b <= n
    ensures win[a..b] == input[base + a..base + b]
  {
    var x, y := win[a..b], input[base + a..base + b];
    forall i | 0 <= i < |x| ensures x[i] == y[i] { ShowsAt(win, input, base, n, a + i); }
    assert x == y;
  }
}
