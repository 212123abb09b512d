/** The wire format of both tunnels: flag, big-endian header length, header, body, and behind a
    data pack or an ack its payload.  Header and body are TOML text; the codec is a parameter. */
module Framing {
  import opened Basics

  const MAX_HEADER_SIZE: nat := 4096

  datatype Header = Header(kind: nat, bodySize: nat)

  datatype DataHeader = DataHeader(streamId: nat, packId: nat, packSize: nat)

  datatype AckHeader = AckHeader(streamId: nat, dataSize: nat)

  /** `Plain` is every pack that is all body: hellos, closes, heartbeats, connect requests. */
  datatype Packet<V> =
    | Plain(kind: nat, value: V)
    | Data(header: DataHeader, datas: Bytes)
    | Ack(ackHeader: AckHeader, packIds: seq<nat>)

  /** One tunnel's constants.  The first tunnel has no acks and a limit on data. */
  datatype Profile = Profile(flag: Bytes, kinds: nat, dataKind: nat, ackKind: Option<nat>, maxData: Option<nat>)

  /** "${7tunnel_anyproxy}" */
  const FLAG_1: Bytes := [36, 123, 55, 116, 117, 110, 110, 101, 108, 95, 97, 110, 121, 112, 114, 111, 120, 121, 125]

  /** "${72tunnel_anyproxy}" */
  const FLAG_2: Bytes := [36, 123, 55, 50, 116, 117, 110, 110, 101, 108, 95, 97, 110, 121, 112, 114, 111, 120, 121, 125]

  lemma FlagTexts()
    ensures var text := "${7tunnel_anyproxy}";
            |FLAG_1| == |text| && forall i :: 0 <= i < |text| ==> FLAG_1[i] as int == text[i] as int
    ensures var text := "${72tunnel_anyproxy}";
            |FLAG_2| == |text| && forall i :: 0 <= i < |text| ==> FLAG_2[i] as int == text[i] as int
  {
  }

  const TUNNEL_1 := Profile(FLAG_1, 6, 2, None, Some(8192 * 2 * 1024))

  const TUNNEL_2 := Profile(FLAG_2, 8, 1, Some(2), None)

  /** The TOML text of each structure and the way back. */
  datatype Codec<!V> = Codec(
    encHeader: Header -> Bytes, decHeader: Bytes -> Option<Header>,
    encPlain: (nat, V) -> Bytes, decPlain: (nat, Bytes) -> Option<V>,
    encData: DataHeader -> Bytes, decData: Bytes -> Option<DataHeader>,
    encAck: AckHeader -> Bytes, decAck: Bytes -> Option<AckHeader>,
    encIds: seq<nat> -> Bytes, decIds: Bytes -> Option<seq<nat>>)

  ghost predicate Faithful<V(!new)>(c: Codec<V>) {
    && (forall h :: c.decHeader(c.encHeader(h)) == Some(h))
    && (forall k, v :: c.decPlain(k, c.encPlain(k, v)) == Some(v))
    && (forall h :: c.decData(c.encData(h)) == Some(h))
    && (forall h :: c.decAck(c.encAck(h)) == Some(h))
    && (forall ids :: c.decIds(c.encIds(ids)) == Some(ids))
  }

  // ----- writing -----

  function U16(n: nat): (r: Bytes)
    ensures |r| == 2
  {
    var high: Byte, low: Byte := (n / 256) % 256, n % 256;
    [high, low]
  }

  function FromU16(b: Bytes): nat
    requires |b| == 2
  {
    (b[0] as int) * 256 + b[1] as int
  }

  /** Big-endian, and read back modulo 2^16. */
  lemma U16RoundTrip(n: nat)
    ensures U16(n)[0] as nat * 256 + U16(n)[1] as nat == n % 65536
    ensures FromU16(U16(n)) == n % 0x1_0000
  {
  }

  /** What is written: an ack's size field is computed anew. */
  function Written<V>(c: Codec<V>, p: Packet<V>): Packet<V> {
    if p.Ack? then p.(ackHeader := p.ackHeader.(dataSize := |c.encIds(p.packIds)| % 0x1_0000_0000)) else p
  }

  function Kind<V>(pr: Profile, p: Packet<V>): nat {
    match p
    case Plain(kind, _) => kind
    case Data(_, _) => pr.dataKind
    case Ack(_, _) => if pr.ackKind.Some? then pr.ackKind.value else 0
  }

  function BodyText<V>(c: Codec<V>, p: Packet<V>): Bytes {
    match p
    case Plain(kind, value) => c.encPlain(kind, value)
    case Data(header, _) => c.encData(header)
    case Ack(_, _) => c.encAck(Written(c, p).ackHeader)
  }

  function HeaderText<V>(pr: Profile, c: Codec<V>, p: Packet<V>): Bytes {
    c.encHeader(Header(Kind(pr, p), |BodyText(c, p)| % 0x1_0000))
  }

  function Payload<V>(c: Codec<V>, p: Packet<V>): Bytes {
    match p
    case Plain(_, _) => []
    case Data(_, datas) => datas
    case Ack(_, ids) => c.encIds(ids)
  }

  /** One pack on the wire. */
  function Frame<V>(pr: Profile, c: Codec<V>, p: Packet<V>): Bytes {
    pr.flag + U16(|HeaderText(pr, c, p)|) + HeaderText(pr, c, p) + BodyText(c, p) + Payload(c, p)
  }

  // ----- reading -----

  /** `Got` leaves the unread rest; `NotAPack` is the source's `Ok(None)`. */
  datatype Parsed<V> = Got(pack: Packet<V>, rest: Bytes) | NotAPack | Error

  /** The flag and the header length. */
  function Parse<V>(pr: Profile, c: Codec<V>, only: Option<nat>, input: Bytes): Parsed<V> {
    var n := |pr.flag|;
    if |input| < n then (if input <= pr.flag then Error else NotAPack)
    else if input[..n] != pr.flag then NotAPack
    else if |input| < n + 2 then Error
    else ParseHeader(pr, c, only, FromU16(input[n..n + 2]), input[n + 2..])
  }

  function ParseHeader<V>(pr: Profile, c: Codec<V>, only: Option<nat>, size: nat, input: Bytes): Parsed<V> {
    if size > MAX_HEADER_SIZE || size == 0 || |input| < size then Error
    else
      match c.decHeader(input[..size])
      case None => Error
      case Some(h) =>
        if h.kind >= pr.kinds then Error
        else if only.Some? && only.value != h.kind then NotAPack
        else if h.bodySize > MAX_HEADER_SIZE || |input| - size < h.bodySize then Error
        else ParseBody(pr, c, h.kind, input[size..size + h.bodySize], input[size + h.bodySize..])
  }

  function ParseBody<V>(pr: Profile, c: Codec<V>, kind: nat, body: Bytes, input: Bytes): Parsed<V> {
    if kind == pr.dataKind then
      match c.decData(body)
      case None => Error
      case Some(h) =>
        if (pr.maxData.Some? && h.packSize > pr.maxData.value) || |input| < h.packSize then Error
        else Got(Data(h, input[..h.packSize]), input[h.packSize..])
    else if pr.ackKind == Some(kind) then
      match c.decAck(body)
      case None => Error
      case Some(h) =>
        if |input| < h.dataSize then Error
        else
          match c.decIds(input[..h.dataSize])
          case None => Error
          case Some(ids) => Got(Ack(h, ids), input[h.dataSize..])
    else
      match c.decPlain(kind, body)
      case None => Error
      case Some(v) => Got(Plain(kind, v), input)
  }

  // ----- round trip -----

  /** A pack the source can build: a kind of its own, data that matches its header. */
  predicate WellFormed<V>(pr: Profile, p: Packet<V>) {
    && pr.dataKind < pr.kinds && pr.ackKind != Some(pr.dataKind)
    && match p
       case Plain(kind, _) => kind < pr.kinds && kind != pr.dataKind && pr.ackKind != Some(kind)
       case Data(header, datas) => header.packSize == |datas|
       case Ack(_, _) => pr.ackKind.Some? && pr.ackKind.value < pr.kinds
  }

  /** The lengths fit the fields that carry them. */
  predicate Measured<V>(pr: Profile, c: Codec<V>, p: Packet<V>) {
    && |HeaderText(pr, c, p)| < 0x1_0000 && |BodyText(c, p)| < 0x1_0000
    && (p.Ack? ==> |c.encIds(p.packIds)| < 0x1_0000_0000)
  }

  /** The limits the reader enforces. */
  predicate WithinLimits<V>(pr: Profile, c: Codec<V>, p: Packet<V>) {
    && 0 < |HeaderText(pr, c, p)| <= MAX_HEADER_SIZE
    && |BodyText(c, p)| <= MAX_HEADER_SIZE
    && (p.Data? && pr.maxData.Some? ==> |p.datas| <= pr.maxData.value)
  }

  lemma Cut(x: Bytes, y: Bytes)
    ensures (x + y)[..|x|] == x && (x + y)[|x|..] == y
  {
  }

  lemma ParseBodyOf<V(!new)>(pr: Profile, c: Codec<V>, p: Packet<V>, rest: Bytes)
    requires Faithful(c) && WellFormed(pr, p) && Measured(pr, c, p)
    ensures ParseBody(pr, c, Kind(pr, p), BodyText(c, p), Payload(c, p) + rest)
            == if p.Data? && pr.maxData.Some? && |p.datas| > pr.maxData.value then Error
               else Got(Written(c, p), rest)
  {
    Cut(Payload(c, p), rest);
    assert [] + rest == rest;
  }

  lemma ParseHeaderOf<V(!new)>(pr: Profile, c: Codec<V>, p: Packet<V>, rest: Bytes)
    requires Faithful(c) && WellFormed(pr, p) && Measured(pr, c, p)
    ensures var h, b := HeaderText(pr, c, p), BodyText(c, p);
            ParseHeader(pr, c, None, |h|, h + (b + (Payload(c, p) + rest)))
            == if WithinLimits(pr, c, p) then Got(Written(c, p), rest) else Error
  {
    var h, b := HeaderText(pr, c, p), BodyText(c, p);
    var tail := Payload(c, p) + rest;
    Cut(h, b + tail);
    Cut(b, tail);
    var input := h + (b + tail);
    assert input[|h|..|h| + |b|] == b && input[|h| + |b|..] == tail;
    ParseBodyOf(pr, c, p, rest);
  }

  lemma ParseFlagged<V>(pr: Profile, c: Codec<V>, only: Option<nat>, size: nat, inner: Bytes)
    requires size < 0x1_0000
    ensures Parse(pr, c, only, pr.flag + U16(size) + inner) == ParseHeader(pr, c, only, size, inner)
  {
    hide ParseHeader;
    var input, n := pr.flag + U16(size) + inner, |pr.flag|;
    assert input[..n] == pr.flag && input[n..n + 2] == U16(size) && input[n + 2..] == inner;
    U16RoundTrip(size);
  }

  /** Reading back what was written: the same pack and the exact rest if the pack keeps the
      reader's limits, and an error if it does not. */
  lemma RoundTrip<V(!new)>(pr: Profile, c: Codec<V>, p: Packet<V>, rest: Bytes)
    requires Faithful(c) && WellFormed(pr, p) && Measured(pr, c, p)
    ensures Parse(pr, c, None, Frame(pr, c, p) + rest)
            == if WithinLimits(pr, c, p) then Got(Written(c, p), rest) else Error
  {
    var h, b := HeaderText(pr, c, p), BodyText(c, p);
    var inner := h + (b + (Payload(c, p) + rest));
    assert Frame(pr, c, p) + rest == pr.flag + U16(|h|) + inner;
    ParseFlagged(pr, c, None, |h|, inner);
    ParseHeaderOf(pr, c, p, rest);
  }

  /** What a pack read takes from the bytes behind its body. */
  function PayloadSize<V>(p: Packet<V>): nat {
    match p
    case Plain(_, _) => 0
    case Data(header, _) => header.packSize
    case Ack(header, _) => header.dataSize
  }

  lemma ParseBodyTakes<V>(pr: Profile, c: Codec<V>, kind: nat, body: Bytes, input: Bytes)
    ensures var r := ParseBody(pr, c, kind, body, input);
            r.Got? ==> |input| == PayloadSize(r.pack) + |r.rest|
  {
  }

  /** What the header and what follows it take from the input. */
  lemma ParseHeaderTakes<V>(pr: Profile, c: Codec<V>, h: Bytes, tail: Bytes, header: Header)
    requires c.decHeader(h) == Some(header)
    ensures var r := ParseHeader(pr, c, None, |h|, h + tail);
            r.Got? ==> |tail| == header.bodySize + PayloadSize(r.pack) + |r.rest|
  {
    hide ParseBody;
    Cut(h, tail);
    var r, m, input := ParseHeader(pr, c, None, |h|, h + tail), header.bodySize, h + tail;
    if r.Got? {
      ParseBodyTakes(pr, c, header.kind, input[|h|..|h| + m], input[|h| + m..]);
    }
  }

  /** A length that was cut off shows: the reader stops short of the next pack. */
  lemma ReadBackMeansMeasured<V(!new)>(pr: Profile, c: Codec<V>, p: Packet<V>, rest: Bytes)
    requires Faithful(c) && WellFormed(pr, p) && |HeaderText(pr, c, p)| < 0x1_0000
    requires Parse(pr, c, None, Frame(pr, c, p) + rest) == Got(Written(c, p), rest)
    ensures Measured(pr, c, p)
  {
    hide ParseHeader;
    hide Parse;
    var h, b := HeaderText(pr, c, p), BodyText(c, p);
    var tail := b + Payload(c, p) + rest;
    assert Frame(pr, c, p) + rest == pr.flag + U16(|h|) + (h + tail);
    ParseFlagged(pr, c, None, |h|, h + tail);
    ParseHeaderTakes(pr, c, h, tail, Header(Kind(pr, p), |b| % 0x1_0000));
  }

  /** For every pack: it comes back as it was written, with the bytes behind it left over, if
      and only if body, data and ack text keep their limits. */
  lemma ReadsBackIff<V(!new)>(pr: Profile, c: Codec<V>, p: Packet<V>, rest: Bytes)
    requires Faithful(c) && WellFormed(pr, p) && |HeaderText(pr, c, p)| < 0x1_0000
    ensures Parse(pr, c, None, Frame(pr, c, p) + rest) == Got(Written(c, p), rest)
            <==> && 0 < |HeaderText(pr, c, p)| <= 4096 && |BodyText(c, p)| <= 4096
                 && (p.Data? && pr.maxData.Some? ==> |p.datas| <= pr.maxData.value)
                 && (p.Ack? ==> |c.encIds(p.packIds)| < 0x1_0000_0000)
  {
    hide Parse;
    hide Frame;
    if Parse(pr, c, None, Frame(pr, c, p) + rest) == Got(Written(c, p), rest) {
      ReadBackMeansMeasured(pr, c, p, rest);
    }
    if Measured(pr, c, p) {
      RoundTrip(pr, c, p, rest);
    }
  }

  /** A reader that wants packs of kind `k` gets the pack if it is of that kind and within the
      limits; a pack of another kind is no pack to it, if its header can be read. */
  lemma WantedKind<V(!new)>(pr: Profile, c: Codec<V>, k: nat, p: Packet<V>, rest: Bytes)
    requires Faithful(c) && WellFormed(pr, p) && Measured(pr, c, p)
    ensures var r := Parse(pr, c, Some(k), Frame(pr, c, p) + rest);
            && (Kind(pr, p) == k && WithinLimits(pr, c, p) ==> r == Got(Written(c, p), rest))
            && (Kind(pr, p) == k && !WithinLimits(pr, c, p) ==> r == Error)
            && (Kind(pr, p) != k && 0 < |HeaderText(pr, c, p)| <= 4096 ==> r == NotAPack)
            && (!(0 < |HeaderText(pr, c, p)| <= 4096) ==> r == Error)
  {
    hide Parse, ParseBody;
    var h, b := HeaderText(pr, c, p), BodyText(c, p);
    var inner := h + (b + (Payload(c, p) + rest));
    assert Frame(pr, c, p) + rest == pr.flag + U16(|h|) + inner;
    ParseFlagged(pr, c, Some(k), |h|, inner);
    ParseHeaderOf(pr, c, p, rest);
    Cut(h, b + (Payload(c, p) + rest));
  }

  // ----- what is not a pack -----

  /** One wrong byte in the flag tells a stranger, whatever follows or is missing. */
  lemma ForeignFlag<V>(pr: Profile, c: Codec<V>, only: Option<nat>, input: Bytes, i: nat)
    requires i < |pr.flag| && i < |input| && input[i] != pr.flag[i]
    ensures Parse(pr, c, only, input) == NotAPack
  {
    if |input| >= |pr.flag| {
      assert input[..|pr.flag|][i] != pr.flag[i];
    }
  }

  /** A header of an unknown kind, or one that is no header, is an error for every reader. */
  lemma BadHeaderIsError<V>(pr: Profile, c: Codec<V>, only: Option<nat>, h: Bytes, rest: Bytes)
    requires |h| < 0x1_0000
    requires match c.decHeader(h) case None => true case Some(header) => header.kind >= pr.kinds
    ensures Parse(pr, c, only, pr.flag + U16(|h|) + (h + rest)) == Error
  {
    hide Parse, ParseBody;
    ParseFlagged(pr, c, only, |h|, h + rest);
    Cut(h, rest);
  }

  lemma CutBodyIsError<V(!new)>(pr: Profile, c: Codec<V>, p: Packet<V>, k: nat)
    requires Faithful(c) && WellFormed(pr, p) && Measured(pr, c, p)
    requires k < |Payload(c, p)|
    ensures ParseBody(pr, c, Kind(pr, p), BodyText(c, p), Payload(c, p)[..k]) == Error
  {
  }

  lemma CutHeaderIsError<V(!new)>(pr: Profile, c: Codec<V>, p: Packet<V>, inner: Bytes)
    requires Faithful(c) && WellFormed(pr, p) && Measured(pr, c, p)
    requires var whole := HeaderText(pr, c, p) + (BodyText(c, p) + Payload(c, p));
             |inner| < |whole| && inner == whole[..|inner|]
    ensures ParseHeader(pr, c, None, |HeaderText(pr, c, p)|, inner) == Error
  {
    hide ParseBody;
    var h, b, d := HeaderText(pr, c, p), BodyText(c, p), Payload(c, p);
    if |inner| >= |h| {
      assert inner[..|h|] == h;
      if |inner| >= |h| + |b| {
        assert inner[|h|..|h| + |b|] == b;
        assert inner[|h| + |b|..] == d[..|inner| - |h| - |b|];
        CutBodyIsError(pr, c, p, |inner| - |h| - |b|);
      }
    }
  }

  /** A frame that is cut off anywhere is an error, never a pack. */
  lemma CutFrameIsError<V(!new)>(pr: Profile, c: Codec<V>, p: Packet<V>, k: nat)
    requires Faithful(c) && WellFormed(pr, p) && Measured(pr, c, p) && k < |Frame(pr, c, p)|
    ensures Parse(pr, c, None, Frame(pr, c, p)[..k]) == Error
  {
    hide ParseHeader;
    var h, n := HeaderText(pr, c, p), |pr.flag|;
    var whole := h + (BodyText(c, p) + Payload(c, p));
    var input := Frame(pr, c, p)[..k];
    assert Frame(pr, c, p) == pr.flag + U16(|h|) + whole;
    if k < n {
      assert input == pr.flag[..k];
    } else {
      assert input[..n] == pr.flag;
      if k >= n + 2 {
        var inner := whole[..k - n - 2];
        assert input == pr.flag + U16(|h|) + inner;
        ParseFlagged(pr, c, None, |h|, inner);
        CutHeaderIsError(pr, c, p, inner);
      }
    }
  }

  function Frames<V>(pr: Profile, c: Codec<V>, ps: seq<Packet<V>>): Bytes {
    if ps == [] then [] else Frame(pr, c, ps[0]) + Frames(pr, c, ps[1..])
  }

  /** Reads packs until the bytes are used up. */
  ghost predicate ReadsAll<V(!new)>(pr: Profile, c: Codec<V>, input: Bytes, ps: seq<Packet<V>>)
    decreases ps
  {
    if ps == [] then input == []
    else
      var r := Parse(pr, c, None, input);
      r.Got? && r.pack == ps[0] && ReadsAll(pr, c, r.rest, ps[1..])
  }

  function WrittenAll<V>(c: Codec<V>, ps: seq<Packet<V>>): seq<Packet<V>> {
    if ps == [] then [] else [Written(c, ps[0])] + WrittenAll(c, ps[1..])
  }

  /** A list of packs within the limits is read back as it was written, to the last byte. */
  lemma {:induction false} ListRoundTrip<V(!new)>(pr: Profile, c: Codec<V>, ps: seq<Packet<V>>)
    requires Faithful(c)
    requires forall p <- ps :: WellFormed(pr, p) && Measured(pr, c, p) && WithinLimits(pr, c, p)
    ensures ReadsAll(pr, c, Frames(pr, c, ps), WrittenAll(c, ps))
    decreases ps
  {
    if ps == [] {
    } else {
      assert ps[0] in ps;
      RoundTrip(pr, c, ps[0], Frames(pr, c, ps[1..]));
      ListRoundTrip(pr, c, ps[1..]);
      assert WrittenAll(c, ps)[1..] == WrittenAll(c, ps[1..]);
    }
  }
}
