// Building a stream block by block: the blocks sent so far, and the last one.
module Streams {
  import opened Bits
  import opened Lz77
  import opened BlockFormat
  import opened Blocks
  import opened Tally
  import opened FlushBlock

  // Blocks none of which is the last make sense after the output h.
  predicate PrefixOK(blks: seq<Block>, h: seq<Byte>)
    decreases |blks|
  {
    blks == [] || (BlockOK(blks[0]) && BlockReaches(blks[0], |h|) && PrefixOK(blks[1..], After(h, blks[0])))
  }

  function PrefixOut(blks: seq<Block>, h: seq<Byte>): seq<Byte>
    requires PrefixOK(blks, h)
    decreases |blks|
  {
    if blks == [] then h else PrefixOut(blks[1..], After(h, blks[0]))
  }

  function PrefixBits(pos: nat, blks: seq<Block>, h: seq<Byte>): seq<bool>
    requires PrefixOK(blks, h)
    decreases |blks|
  {
    if blks == [] then []
    else
      var first := BlockBits(pos, false, blks[0]);
      first + PrefixBits(pos + |first|, blks[1..], After(h, blks[0]))
  }

  // One more block.
  lemma {:induction false} PrefixSnoc(pos: nat, blks: seq<Block>, h: seq<Byte>, b: Block)
    requires PrefixOK(blks, h) && BlockOK(b) && BlockReaches(b, |PrefixOut(blks, h)|)
    ensures PrefixOK(blks + [b], h) && PrefixOut(blks + [b], h) == After(PrefixOut(blks, h), b)
    ensures PrefixBits(pos, blks + [b], h) == PrefixBits(pos, blks, h)
            + BlockBits(pos + |PrefixBits(pos, blks, h)|, false, b)
    decreases |blks|
  {
    hide BlockOK, BlockReaches, After, BlockBits;
    if blks == [] {
      OneBlock(pos, h, b);
      assert blks + [b] == [b];
    } else {
      var first := BlockBits(pos, false, blks[0]);
      assert (blks + [b])[1..] == blks[1..] + [b];
      PrefixSnoc(pos + |first|, blks[1..], After(h, blks[0]), b);
      var more := PrefixBits(pos + |first|, blks[1..], After(h, blks[0]));
      Joined(first, more, BlockBits(pos + |first| + |more|, false, b));
      assert pos + |first + more| == pos + |first| + |more|;
    }
  }

  lemma OneBlock(pos: nat, h: seq<Byte>, b: Block)
    requires BlockOK(b) && BlockReaches(b, |h|)
    ensures PrefixOK([b], h) && PrefixOut([b], h) == After(h, b) && PrefixBits(pos, [b], h) == BlockBits(pos, false, b)
  {
    hide BlockOK, BlockReaches, After, BlockBits;
    assert [b][1..] == [];
  }

  // The last block makes a stream of the blocks before.
  lemma {:induction false} StreamSnoc(pos: nat, blks: seq<Block>, h: seq<Byte>, b: Block)
    requires PrefixOK(blks, h) && BlockOK(b) && BlockReaches(b, |PrefixOut(blks, h)|)
    ensures StreamOK(blks + [b], h) && StreamOut(blks + [b], h) == After(PrefixOut(blks, h), b)
    ensures StreamBits(pos, blks + [b], h) == PrefixBits(pos, blks, h)
            + BlockBits(pos + |PrefixBits(pos, blks, h)|, true, b)
    decreases |blks|
  {
    hide BlockOK, BlockReaches, After, BlockBits;
    if blks == [] {
      assert blks + [b] == [b];
      assert [] + BlockBits(pos, true, b) == BlockBits(pos, true, b);
    } else {
      var first := BlockBits(pos, false, blks[0]);
      assert (blks + [b])[1..] == blks[1..] + [b] && |blks + [b]| > 1;
      StreamSnoc(pos + |first|, blks[1..], After(h, blks[0]), b);
      var more := PrefixBits(pos + |first|, blks[1..], After(h, blks[0]));
      Joined(first, more, BlockBits(pos + |first| + |more|, true, b));
      assert pos + |first + more| == pos + |first| + |more|;
    }
  }

  // Whatever kind is chosen, the block stands for the tokens.
  lemma ChosenOut(ts: seq<Token>, dyn: Block, fix: Block, buf: Input, h: seq<Byte>)
    requires Forms(ts, dyn, fix) && BlockOK(Chosen(dyn, fix, buf)) && AllReach(ts, |h|)
    requires buf.Bytes? ==> h + buf.data == Expand(h, ts)
    ensures BlockReaches(Chosen(dyn, fix, buf), |h|) && After(h, Chosen(dyn, fix, buf)) == Expand(h, ts)
  {
    hide BlockOK, ItemOf, TokenOf, TokenOK, Expand, AllReach, Size;
    FormFacts(ts, dyn, fix);
    ItemsRoundTrip(ts);
  }
}
