/** What the limits of the two wire formats mean for a writer: any-tunnel reports a buffer of any
    length as sent, in one pack, and its reader refuses a pack over the limit. */
module FrameLimits {
  import opened Basics
  import opened Framing
  import opened StreamWrites

  const MAX_PACK_SIZE: nat := 8192 * 2 * 1024

  /** The pack on the wire: its size field has 32 bits. */
  function OnWire<V>(streamId: nat, p: Pack): Packet<V> {
    Data(DataHeader(streamId, p.id, |p.data| % U32), p.data)
  }

  const U32: nat := 0x1_0000_0000

  /** The header fields of a data pack are `u32`. */
  predicate Sized(h: DataHeader) {
    h.streamId < U32 && h.packId < U32 && h.packSize < U32
  }

  /** The texts of data packs are small, whatever the pack carries. */
  ghost predicate SmallTexts<V(!new)>(pr: Profile, c: Codec<V>) {
    forall p: Packet<V> {:trigger HeaderText(pr, c, p)} :: p.Data? && Sized(p.header) ==>
      0 < |HeaderText(pr, c, p)| <= MAX_HEADER_SIZE && |BodyText(c, p)| <= MAX_HEADER_SIZE
  }

  /** Pack `p` comes back from the wire as it was, with what follows it left over. */
  ghost predicate ReadsBack<V(!new)>(pr: Profile, c: Codec<V>, p: Packet<V>, rest: Bytes) {
    Parse(pr, c, None, Frame(pr, c, p) + rest) == Got(p, rest)
  }

  lemma ParsedDataFits<V>(pr: Profile, c: Codec<V>, input: Bytes)
    ensures var r := Parse(pr, c, None, input);
            r.Got? && r.pack.Data? ==> |r.pack.datas| == r.pack.header.packSize
  {
  }

  /** A data pack is read back if and only if its length fits the size field and the limit. */
  lemma DataReadsBackIff<V(!new)>(pr: Profile, c: Codec<V>, streamId: nat, p: Pack, rest: Bytes)
    requires Faithful(c) && SmallTexts(pr, c) && pr.dataKind < pr.kinds && pr.ackKind != Some(pr.dataKind)
    requires streamId < U32 && p.id < U32
    ensures ReadsBack(pr, c, OnWire(streamId, p), rest)
            <==> |p.data| < U32 && (pr.maxData.Some? ==> |p.data| <= pr.maxData.value)
  {
    hide Parse, Frame;
    var packet: Packet<V> := OnWire(streamId, p);
    assert |HeaderText(pr, c, packet)| <= MAX_HEADER_SIZE;
    if |p.data| < U32 {
      ReadsBackIff(pr, c, packet, rest);
    } else {
      ParsedDataFits(pr, c, Frame(pr, c, packet) + rest);
    }
  }

  /** any-tunnel: exactly the buffers of at most 16 MiB. */
  lemma Tunnel1Limit<V(!new)>(c: Codec<V>, p: Pack, rest: Bytes)
    requires Faithful(c) && SmallTexts(TUNNEL_1, c) && p.id < U32
    ensures ReadsBack(TUNNEL_1, c, OnWire(0, p), rest) <==> |p.data| <= MAX_PACK_SIZE
  {
    DataReadsBackIff(TUNNEL_1, c, 0, p, rest);
  }

  /** any-tunnel2: every buffer whose length the size field can hold. */
  lemma Tunnel2Limit<V(!new)>(c: Codec<V>, streamId: nat, p: Pack, rest: Bytes)
    requires Faithful(c) && SmallTexts(TUNNEL_2, c) && streamId < U32 && p.id < U32
    ensures ReadsBack(TUNNEL_2, c, OnWire(streamId, p), rest) <==> |p.data| < U32
  {
    DataReadsBackIff(TUNNEL_2, c, streamId, p, rest);
  }

  /** The input: one byte more than the limit is an error at the reader. */
  lemma OneByteTooMany<V(!new)>(c: Codec<V>, rest: Bytes) returns (p: Pack)
    requires Faithful(c) && SmallTexts(TUNNEL_1, c)
    ensures |p.data| == MAX_PACK_SIZE + 1
    ensures Parse(TUNNEL_1, c, None, Frame(TUNNEL_1, c, OnWire(0, p)) + rest) == Error
  {
    hide Parse, Frame;
    var data: Bytes := seq(MAX_PACK_SIZE + 1, _ => 7);
    p := Pack(1, data);
    assert |p.data| == MAX_PACK_SIZE + 1;
    var packet: Packet<V> := OnWire(0, p);
    assert |HeaderText(TUNNEL_1, c, packet)| <= MAX_HEADER_SIZE;
    RoundTrip(TUNNEL_1, c, packet, rest);
  }

  /** A write of any length that goes through is reported in full, as one pack; the peer can read
      that pack if and only if the buffer was at most 16 MiB. */
  method WriteAndRead<V(!new)>(w: StreamWriter, buf: Bytes, ghost c: Codec<V>, ghost rest: Bytes) returns (r: Poll)
    requires w.Valid() && w.txOpen && w.txFuture.None? && w.senders > 0
    requires Faithful(c) && SmallTexts(TUNNEL_1, c)
    modifies w
    ensures w.Valid() && w.txOpen && r == Ready(|buf|)
    ensures |w.sent| == |old(w.sent)| + 1 && w.sent[|old(w.sent)|].data == buf
    ensures ReadsBack(TUNNEL_1, c, OnWire(0, w.sent[|old(w.sent)|]), rest) <==> |buf| <= MAX_PACK_SIZE
  {
    r := w.PollWrite(buf, Sent);
    assert w.sent[|old(w.sent)|] in w.sent;
    Tunnel1Limit(c, w.sent[|old(w.sent)|], rest);
  }
}
