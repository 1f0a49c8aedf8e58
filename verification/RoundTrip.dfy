// The two halves of gzip together: whatever the input and the level, what deflate
// writes is inflated to the input again.
module RoundTrip {
  import opened Bits
  import opened Blocks
  import opened Deflate
  import opened InflateBlock

  // The compressed data is followed by a trailer, from which inflate may look
  // ahead; it gives back what it has not used.
  method DeflateThenInflate(input: seq<Byte>, level: nat, trailer: seq<Byte>)
    returns (bytes: seq<Byte>, status: nat, output: seq<Byte>, used: nat)
    requires 1 <= level <= 9 && |trailer| >= 2
    ensures status == C.OK && output == input && used == |bytes|
  {
    hide StreamOK, StreamOut, StreamBits, BytesBits, Padding;
    var d := new Deflater(input, level);
    d.Run();
    bytes := d.out.sender.w.out;
    ghost var blks, pad := d.out.blks, Padding(|StreamBits(0, d.out.blks, [])|);
    PaddingShort(|StreamBits(0, blks, [])|);
    BytesJoin(bytes, trailer);
    C.Assoc(StreamBits(0, blks, []), pad, BytesBits(trailer));
    status, output, used := Inflate(bytes + trailer, blks, pad, trailer);
  }

  lemma PaddingShort(pos: nat)
    ensures |Padding(pos)| < 8
  {
  }
}
