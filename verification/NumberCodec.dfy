/** A codec that meets what the framing theorems ask of one: every structure is written as its
    numbers, each in digits of base 255 with 255 behind them. */
module NumberCodec {
  import opened Basics
  import opened Framing
  import opened FrameLimits

  const BASE: nat := 255
  const STOP: Byte := 255

  function Digits(n: nat): (r: Bytes)
    ensures forall d <- r :: d < BASE
  {
    if n == 0 then [] else var low: Byte := n % BASE; [low] + Digits(n / BASE)
  }

  function Number(digits: Bytes): nat {
    if digits == [] then 0 else digits[0] as nat + BASE * Number(digits[1..])
  }

  lemma {:induction false} NumberOfDigits(n: nat)
    ensures Number(Digits(n)) == n
  {
    if n == 0 {
    } else {
      NumberOfDigits(n / BASE);
      assert Digits(n)[1..] == Digits(n / BASE);
    }
  }

  function Text(ns: seq<nat>): Bytes {
    if ns == [] then [] else Digits(ns[0]) + [STOP] + Text(ns[1..])
  }

  /** Where the first number ends. */
  function Stop(text: Bytes): (r: nat)
    ensures r <= |text|
    ensures r < |text| ==> text[r] == STOP
  {
    if text == [] || text[0] == STOP then 0 else 1 + Stop(text[1..])
  }

  function Numbers(text: Bytes): Option<seq<nat>>
    decreases |text|
  {
    if text == [] then Some([])
    else
      var k := Stop(text);
      if k == |text| then None
      else
        match Numbers(text[k + 1..])
        case None => None
        case Some(ns) => Some([Number(text[..k])] + ns)
  }

  lemma {:induction false} StopAt(digits: Bytes, rest: Bytes)
    requires forall d <- digits :: d < BASE
    ensures Stop(digits + [STOP] + rest) == |digits|
  {
    var text := digits + [STOP] + rest;
    if digits == [] {
      assert text[0] == STOP;
    } else {
      assert text[0] == digits[0] && digits[0] in digits;
      assert text[1..] == digits[1..] + [STOP] + rest;
      assert forall d <- digits[1..] :: d in digits;
      StopAt(digits[1..], rest);
    }
  }

  lemma {:induction false} NumbersOfText(ns: seq<nat>)
    ensures Numbers(Text(ns)) == Some(ns)
  {
    if ns == [] {
    } else {
      var d, rest := Digits(ns[0]), Text(ns[1..]);
      StopAt(d, rest);
      NumberOfDigits(ns[0]);
      NumbersOfText(ns[1..]);
      var text := Text(ns);
      assert text == d + [STOP] + rest;
      assert text[..|d|] == d && text[|d| + 1..] == rest;
      assert [ns[0]] + ns[1..] == ns;
    }
  }

  /** Short texts for 32-bit numbers. */
  lemma DigitsShort(n: nat)
    requires n < U32
    ensures |Digits(n)| <= 5
  {
    var n1, n2, n3, n4 := n / BASE, n / BASE / BASE, n / BASE / BASE / BASE, n / BASE / BASE / BASE / BASE;
    assert n4 < BASE && n4 / BASE == 0;
    assert |Digits(n4)| <= 1;
    assert |Digits(n3)| <= 2;
    assert |Digits(n2)| <= 3;
    assert |Digits(n1)| <= 4;
  }

  /** Exactly `k` numbers. */
  function Exactly(ns: Option<seq<nat>>, k: nat): Option<seq<nat>> {
    if ns.Some? && |ns.value| == k then ns else None
  }

  const CODEC: Codec<nat> := Codec(
    (h: Header) => Text([h.kind, h.bodySize]),
    (t: Bytes) => var ns := Exactly(Numbers(t), 2); if ns.None? then None else Some(Header(ns.value[0], ns.value[1])),
    (_: nat, v: nat) => Text([v]),
    (_: nat, t: Bytes) => var ns := Exactly(Numbers(t), 1); if ns.None? then None else Some(ns.value[0]),
    (h: DataHeader) => Text([h.streamId, h.packId, h.packSize]),
    (t: Bytes) =>
      var ns := Exactly(Numbers(t), 3);
      if ns.None? then None else Some(DataHeader(ns.value[0], ns.value[1], ns.value[2])),
    (h: AckHeader) => Text([h.streamId, h.dataSize]),
    (t: Bytes) => var ns := Exactly(Numbers(t), 2); if ns.None? then None else Some(AckHeader(ns.value[0], ns.value[1])),
    (ids: seq<nat>) => Text(ids),
    (t: Bytes) => Numbers(t))

  /** The theorems about frames are about something: this codec is faithful. */
  lemma CodecIsFaithful()
    ensures Faithful(CODEC)
  {
    hide Numbers, Text;
    forall h ensures CODEC.decHeader(CODEC.encHeader(h)) == Some(h) {
      NumbersOfText([h.kind, h.bodySize]);
    }
    forall k, v ensures CODEC.decPlain(k, CODEC.encPlain(k, v)) == Some(v) {
      NumbersOfText([v]);
    }
    forall h ensures CODEC.decData(CODEC.encData(h)) == Some(h) {
      NumbersOfText([h.streamId, h.packId, h.packSize]);
    }
    forall h ensures CODEC.decAck(CODEC.encAck(h)) == Some(h) {
      NumbersOfText([h.streamId, h.dataSize]);
    }
    forall ids ensures CODEC.decIds(CODEC.encIds(ids)) == Some(ids) {
      NumbersOfText(ids);
    }
  }

  lemma TwoNumbers(a: nat, b: nat)
    ensures |Text([a, b])| == |Digits(a)| + |Digits(b)| + 2
  {
    assert [a, b][1..] == [b] && [b][1..] == [];
    assert Text([b]) == Digits(b) + [STOP] + [];
  }

  lemma ThreeNumbers(a: nat, b: nat, c: nat)
    ensures |Text([a, b, c])| == |Digits(a)| + |Digits(b)| + |Digits(c)| + 3
  {
    assert [a, b, c][1..] == [b, c];
    TwoNumbers(b, c);
  }

  /** And its texts are small, in both tunnels. */
  lemma CodecIsSmall(pr: Profile)
    requires pr.dataKind < U32
    ensures SmallTexts(pr, CODEC)
  {
    forall p: Packet<nat> {:trigger HeaderText(pr, CODEC, p)} | p.Data? && Sized(p.header)
      ensures 0 < |HeaderText(pr, CODEC, p)| <= MAX_HEADER_SIZE && |BodyText(CODEC, p)| <= MAX_HEADER_SIZE
    {
      var h, size := p.header, |BodyText(CODEC, p)| % 0x1_0000;
      ThreeNumbers(h.streamId, h.packId, h.packSize);
      DigitsShort(h.streamId);
      DigitsShort(h.packId);
      DigitsShort(h.packSize);
      TwoNumbers(pr.dataKind, size);
      DigitsShort(pr.dataKind);
      DigitsShort(size);
    }
  }

  /** The limit of any-tunnel, at this codec: no assumption is left. */
  lemma LimitAtCodec(p: Pack, rest: Bytes)
    requires p.id < U32
    ensures ReadsBack(TUNNEL_1, CODEC, OnWire(0, p), rest) <==> |p.data| <= MAX_PACK_SIZE
    ensures ReadsBack(TUNNEL_2, CODEC, OnWire(0, p), rest) <==> |p.data| < U32
  {
    CodecIsFaithful();
    CodecIsSmall(TUNNEL_1);
    CodecIsSmall(TUNNEL_2);
    Tunnel1Limit(CODEC, p, rest);
    Tunnel2Limit(CODEC, 0, p, rest);
  }
}
