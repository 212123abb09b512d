/** One any-tunnel connection in one session: two endpoints, each a reader and a writer that
    share `PeerStreamOnce`, and the two wires between them.  Either side, or both at once,
    may close; the other side echoes each Close.  Reader and writer of one endpoint run in
    one `select!`, so an action is the code between two suspension points. */
module CloseHandshake {
  import opened Basics

  /** `Data` stands for every packet that the reader forwards to the peer client. */
  datatype Packet = Hello(ack: bool) | HelloAck | Data(payload: nat) | Close(isClient: bool)

  datatype Reader = AwaitAck | NotStarted | Reading | ReadDone | Failed

  /** `Blocked`: a client waiting for the hello ack; `OweAck`: a server about to send it;
      `Pumping`: the writing loop, `checked` once it has found no Close noted and waits for a pack;
      `Waiting`: the loop that waits for `close_num` to reach 2. */
  datatype Writer = Blocked | OweAck | Pumping(checked: bool) | WritingClose | Waiting | Echoing(close: bool) | Done

  /** `queue` is the channel from the stream; `pushed`, `wrote` and `read` are the session's
      histories. */
  datatype Endpoint = Endpoint(
    isClient: bool,
    reader: Reader,
    writer: Writer,
    peerClose: Option<bool>,
    sendClose: bool,
    closeNum: nat,
    queue: seq<nat>,
    queueClosed: bool,
    pushed: seq<nat>,
    wrote: seq<Packet>,
    read: seq<Packet>)

  function FreshClient(ack: bool): Endpoint {
    Endpoint(true, if ack then AwaitAck else Reading, if ack then Blocked else Pumping(false),
             None, false, 0, [], false, [], [], [])
  }

  function FreshServer(ack: bool): Endpoint {
    Endpoint(false, if ack then NotStarted else Reading, if ack then OweAck else Pumping(false),
             None, false, 0, [], false, [], [], [])
  }

  datatype Action =
    | Push(payload: nat)
    | CloseQueue
    | WriteAck
    | Check
    | WriteData
    | RecvTimeout
    | SeePeerClose
    | StartClose
    | FinishClose
    | TakeEcho
    | FinishEcho
    | Finish
    | ReadPacket

  /** What the stream does, as opposed to the reader and the writer. */
  predicate FromStream(a: Action) {
    a.Push? || a.CloseQueue?
  }

  /** The writing loop looks for a noted Close before it waits for a pack, so that at most one
      pack follows.  A client gets its queue when the hello ack has come: there is nothing to push
      to or to close before.  A timeout with no Close noted leads back to the same wait and is no step. */
  predicate Enabled(e: Endpoint, incoming: seq<Packet>, a: Action) {
    match a
    case Push(_) => !e.queueClosed && !e.writer.Done? && !e.writer.Blocked?
    case CloseQueue => !e.queueClosed && !e.writer.Done? && !e.writer.Blocked?
    case WriteAck => e.writer.OweAck?
    case Check => e.writer == Pumping(false) && e.peerClose.None?
    case WriteData => e.writer == Pumping(true) && e.queue != []
    case RecvTimeout => e.writer == Pumping(true) && e.queue == [] && !e.queueClosed && e.peerClose.Some?
    case SeePeerClose =>
      e.peerClose.Some? && (e.writer == Pumping(false) || (e.writer == Pumping(true) && e.queue == [] && e.queueClosed))
    case StartClose => e.writer == Pumping(true) && e.queue == [] && e.queueClosed && e.peerClose.None?
    case FinishClose => e.writer.WritingClose?
    case TakeEcho => e.writer.Waiting? && e.peerClose.Some?
    case FinishEcho => e.writer.Echoing?
    case Finish => e.writer.Waiting? && e.peerClose.None? && e.closeNum >= 2
    case ReadPacket => (e.reader.Reading? || e.reader.AwaitAck?) && incoming != []
  }

  /** The reader's reaction to one packet.  A stray hello ack, which the source's reader passes on
      for the peer client to reject, is rejected at once. */
  function OnPacket(e: Endpoint, p: Packet): Endpoint {
    var e := e.(read := e.read + [p]);
    if e.reader.AwaitAck? then
      if p.HelloAck? then e.(reader := Reading, writer := Pumping(false)) else e.(reader := Failed)
    else
      match p
      case Hello(_) => e.(reader := Failed)
      case HelloAck => e.(reader := Failed)
      case Data(_) => e
      case Close(isClient) =>
        if isClient == e.isClient then e.(reader := ReadDone, closeNum := e.closeNum + 1)
        else
          var e := e.(peerClose := Some(isClient));
          if e.sendClose then e else e.(reader := ReadDone, closeNum := e.closeNum + 1)
  }

  /** The packets an action puts on the outgoing wire. */
  function Output(e: Endpoint, a: Action): seq<Packet> {
    match a
    case WriteAck => [HelloAck]
    case WriteData => if e.queue == [] then [] else [Data(e.queue[0])]
    case FinishClose => [Close(e.isClient)]
    case FinishEcho => if e.writer.Echoing? then [Close(e.writer.close)] else []
    case _ => []
  }

  function Rest(incoming: seq<Packet>, a: Action): seq<Packet> {
    if a.ReadPacket? && incoming != [] then incoming[1..] else incoming
  }

  function Apply(e: Endpoint, incoming: seq<Packet>, a: Action): Endpoint
    requires Enabled(e, incoming, a)
  {
    var e' := e.(wrote := e.wrote + Output(e, a));
    match a
    case Push(n) => e'.(queue := e.queue + [n], pushed := e.pushed + [n])
    case CloseQueue => e'.(queueClosed := true)
    case WriteAck => e'.(writer := Pumping(false), reader := Reading)
    case Check => e'.(writer := Pumping(true))
    case WriteData => e'.(queue := e.queue[1..], writer := Pumping(false))
    case RecvTimeout => e'.(writer := Pumping(false))
    case SeePeerClose => e'.(writer := Waiting, closeNum := e.closeNum + 1)
    case StartClose => e'.(sendClose := true, writer := WritingClose)
    case FinishClose => e'.(writer := Waiting, closeNum := e.closeNum + 1)
    case TakeEcho => e'.(peerClose := None, writer := Echoing(e.peerClose.value))
    case FinishEcho => e'.(writer := if e.closeNum >= 2 then Done else Waiting)
    case Finish => e'.(writer := Done)
    case ReadPacket => OnPacket(e', incoming[0])
  }

  // ----- the invariant of one session -----

  predicate PastPumping(e: Endpoint) {
    e.writer.Waiting? || e.writer.Echoing? || e.writer.Done?
  }

  function ToNat(b: bool): nat {
    if b then 1 else 0
  }

  predicate Local(e: Endpoint) {
    && !e.reader.Failed?
    && e.closeNum == ToNat(e.reader.ReadDone?) + ToNat(PastPumping(e))
    && (e.peerClose.Some? ==> e.peerClose.value == !e.isClient)
    && (e.writer.Echoing? ==> e.writer.close == !e.isClient)
    && (e.writer.Blocked? <==> e.reader.AwaitAck?) && (e.writer.Blocked? ==> e.isClient)
    && (e.writer.OweAck? <==> e.reader.NotStarted?) && (e.writer.OweAck? ==> !e.isClient)
    && (e.writer.Blocked? || e.writer.OweAck? ==> e.peerClose.None?)
    && (e.sendClose ==> e.writer.WritingClose? || PastPumping(e))
    && (e.writer.WritingClose? ==> e.sendClose)
    && (e.writer.Done? ==> e.reader.ReadDone? && e.peerClose.None?)
    && (e.reader.ReadDone? && !e.sendClose ==> e.peerClose.Some? || PastPumping(e))
    && (PastPumping(e) && !e.sendClose ==> e.reader.ReadDone?)
    && (e.writer.Pumping? && e.peerClose.Some? ==> e.reader.ReadDone?)
  }

  /** On a wire, packets come in the order: hello ack, data, own Close, echo. */
  function Stage(p: Packet, sender: bool): nat {
    match p
    case Hello(_) => 0
    case HelloAck => 0
    case Data(_) => 1
    case Close(isClient) => if isClient == sender then 2 else 3
  }

  ghost predicate Shape(w: seq<Packet>, sender: bool) {
    && (forall i, j :: 0 <= i < j < |w| ==> Stage(w[i], sender) <= Stage(w[j], sender))
    && (forall i :: 0 <= i < |w| ==> !w[i].Hello?)
  }

  /** The wire `w` from `e` to `f`: nothing is lost, no Close before its time, and once `f` has
      stopped reading the wire is empty and stays so. */
  ghost predicate Wire(e: Endpoint, f: Endpoint, w: seq<Packet>) {
    && Shape(w, e.isClient)
    && e.wrote == f.read + w
    && (!PastPumping(e) ==> forall i :: 0 <= i < |w| ==> !w[i].Close?)
    && (e.writer.Blocked? || e.writer.OweAck? ==> w == [])
    && (f.reader.ReadDone? ==> w == [] && (e.writer.Waiting? || e.writer.Done?) && e.peerClose.None?)
  }

  /** The hello ack is the first packet on the wire `u` to a waiting client, and nowhere else. */
  ghost predicate AckPlace(e: Endpoint, f: Endpoint, u: seq<Packet>) {
    if e.reader.AwaitAck? then
      (f.writer.OweAck? && u == []) || (u != [] && u[0].HelloAck? && !f.writer.OweAck? && HelloAck !in u[1..])
    else HelloAck !in u && !f.writer.OweAck?
  }

  function ClosesSent(e: Endpoint): nat {
    ToNat(e.sendClose && !e.writer.WritingClose?)
  }

  function EchoesRead(e: Endpoint): nat {
    ToNat(e.reader.ReadDone? && e.sendClose)
  }

  function CloseCount(w: seq<Packet>, isClient: bool): nat {
    if w == [] then 0 else ToNat(w[0] == Close(isClient)) + CloseCount(w[1..], isClient)
  }

  /** Conservation of `e`'s Close: once sent it is on the wire to `f`, noted by `f`, being echoed
      by `f`, on the wire back, or read back by `e`; exactly one of these. */
  ghost predicate CloseConserved(e: Endpoint, f: Endpoint, w: seq<Packet>, u: seq<Packet>) {
    ClosesSent(e) ==
    CloseCount(w, e.isClient) + ToNat(f.peerClose == Some(e.isClient))
    + ToNat(f.writer == Echoing(e.isClient)) + CloseCount(u, e.isClient) + EchoesRead(e)
  }

  ghost predicate Half(e: Endpoint, f: Endpoint, w: seq<Packet>, u: seq<Packet>) {
    Local(e) && Wire(e, f, w) && AckPlace(e, f, u) && CloseConserved(e, f, w, u)
  }

  /** `w` is the wire from `e` to `f`, `u` the wire back. */
  ghost predicate Session(e: Endpoint, f: Endpoint, w: seq<Packet>, u: seq<Packet>) {
    e.isClient != f.isClient && Half(e, f, w, u) && Half(f, e, u, w)
  }

  lemma {:induction false} SnocCount(w: seq<Packet>, p: Packet, isClient: bool)
    ensures CloseCount(w + [p], isClient) == CloseCount(w, isClient) + ToNat(p == Close(isClient))
  {
    if w == [] {
      assert (w + [p])[1..] == [];
    } else {
      assert (w + [p])[1..] == w[1..] + [p];
      SnocCount(w[1..], p, isClient);
    }
  }

  lemma ShapeSnoc(w: seq<Packet>, sender: bool, p: Packet)
    requires Shape(w, sender) && !p.Hello?
    requires forall i :: 0 <= i < |w| ==> Stage(w[i], sender) <= Stage(p, sender)
    ensures Shape(w + [p], sender)
  {
  }

  /** What follows a Close on a wire is another Close. */
  lemma CloseThenMore(w: seq<Packet>, sender: bool)
    requires Shape(w, sender) && w != [] && w[0].Close?
    ensures |w| == 1 || CloseCount(w, w[0].isClient) >= 2
            || (w[0].isClient == sender && CloseCount(w, !sender) >= 1)
  {
    if |w| > 1 {
      assert Stage(w[0], sender) <= Stage(w[1], sender);
      assert CloseCount(w[1..], w[1].isClient) >= 1;
    }
  }

  /** After the echo, or after a Close that has no echo behind it, the wire is empty. */
  lemma LastClose(w: seq<Packet>, sender: bool)
    requires Shape(w, sender) && w != [] && w[0].Close?
    requires CloseCount(w, w[0].isClient) <= 1
    requires w[0].isClient == sender ==> CloseCount(w, !sender) == 0
    ensures w[1..] == []
  {
    CloseThenMore(w, sender);
  }

  lemma WriteAckKeepsOwnHalf(e: Endpoint, f: Endpoint, w: seq<Packet>, u: seq<Packet>)
    requires Session(e, f, w, u) && Enabled(e, u, WriteAck)
    ensures Half(Apply(e, u, WriteAck), f, w + Output(e, WriteAck), u)
  {
    assert w == [];
    ShapeSnoc(w, e.isClient, HelloAck);
    SnocCount(w, HelloAck, e.isClient);
  }

  lemma WriteAckKeepsPeerHalf(e: Endpoint, f: Endpoint, w: seq<Packet>, u: seq<Packet>)
    requires Session(e, f, w, u) && Enabled(e, u, WriteAck)
    ensures Half(f, Apply(e, u, WriteAck), u, w + Output(e, WriteAck))
  {
    assert w + [HelloAck] == [HelloAck];
  }

  lemma WriteDataKeepsOwnHalf(e: Endpoint, f: Endpoint, w: seq<Packet>, u: seq<Packet>)
    requires Session(e, f, w, u) && Enabled(e, u, WriteData)
    ensures Half(Apply(e, u, WriteData), f, w + Output(e, WriteData), u)
  {
    var p := Data(e.queue[0]);
    ShapeSnoc(w, e.isClient, p);
    SnocCount(w, p, e.isClient);
  }

  lemma WriteDataKeepsPeerHalf(e: Endpoint, f: Endpoint, w: seq<Packet>, u: seq<Packet>)
    requires Session(e, f, w, u) && Enabled(e, u, WriteData)
    ensures Half(f, Apply(e, u, WriteData), u, w + Output(e, WriteData))
  {
    var p := Data(e.queue[0]);
    SnocCount(w, p, f.isClient);
    assert w != [] ==> (w + [p])[1..] == w[1..] + [p];
  }

  lemma FinishCloseKeepsOwnHalf(e: Endpoint, f: Endpoint, w: seq<Packet>, u: seq<Packet>)
    requires Session(e, f, w, u) && Enabled(e, u, FinishClose)
    ensures Half(Apply(e, u, FinishClose), f, w + Output(e, FinishClose), u)
  {
    var p := Close(e.isClient);
    ShapeSnoc(w, e.isClient, p);
    SnocCount(w, p, e.isClient);
  }

  lemma FinishCloseKeepsPeerHalf(e: Endpoint, f: Endpoint, w: seq<Packet>, u: seq<Packet>)
    requires Session(e, f, w, u) && Enabled(e, u, FinishClose)
    ensures Half(f, Apply(e, u, FinishClose), u, w + Output(e, FinishClose))
  {
    var p := Close(e.isClient);
    SnocCount(w, p, f.isClient);
    assert w != [] ==> (w + [p])[1..] == w[1..] + [p];
  }

  lemma EchoKeepsOwnHalf(e: Endpoint, f: Endpoint, w: seq<Packet>, u: seq<Packet>)
    requires Session(e, f, w, u) && Enabled(e, u, FinishEcho)
    ensures Half(Apply(e, u, FinishEcho), f, w + Output(e, FinishEcho), u)
  {
    var p := Close(e.writer.close);
    assert e.peerClose.None?;
    assert !f.reader.ReadDone?;
    ShapeSnoc(w, e.isClient, p);
    SnocCount(w, p, e.isClient);
  }

  lemma EchoKeepsPeerHalf(e: Endpoint, f: Endpoint, w: seq<Packet>, u: seq<Packet>)
    requires Session(e, f, w, u) && Enabled(e, u, FinishEcho)
    ensures Half(f, Apply(e, u, FinishEcho), u, w + Output(e, FinishEcho))
  {
    var p := Close(e.writer.close);
    SnocCount(w, p, f.isClient);
    assert w != [] ==> (w + [p])[1..] == w[1..] + [p];
  }

  /** An action of the writer or the stream that puts nothing on the wire. */
  predicate Quiet(e: Endpoint, a: Action) {
    Output(e, a) == [] && !a.ReadPacket?
  }

  lemma QuietKeepsOwnHalf(e: Endpoint, f: Endpoint, w: seq<Packet>, u: seq<Packet>, a: Action)
    requires Session(e, f, w, u) && Enabled(e, u, a) && Quiet(e, a)
    ensures Half(Apply(e, u, a), f, w, u)
  {
    var e' := Apply(e, u, a);
    assert e'.wrote == e.wrote;
    assert Local(e') by { hide Shape; hide CloseCount; }
    assert Wire(e', f, w) && AckPlace(e', f, u) by { hide Shape; hide CloseCount; }
    assert CloseConserved(e', f, w, u) by { hide Shape; hide CloseCount; }
  }

  lemma QuietKeepsPeerHalf(e: Endpoint, f: Endpoint, w: seq<Packet>, u: seq<Packet>, a: Action)
    requires Session(e, f, w, u) && Enabled(e, u, a) && Quiet(e, a)
    ensures Half(f, Apply(e, u, a), u, w)
  {
  }

  lemma TailShape(u: seq<Packet>, sender: bool)
    requires Shape(u, sender) && u != []
    ensures Shape(u[1..], sender)
  {
  }

  lemma ReadEchoKeepsSession(e: Endpoint, f: Endpoint, w: seq<Packet>, u: seq<Packet>)
    requires Session(e, f, w, u) && Enabled(e, u, ReadPacket) && u[0] == Close(e.isClient)
    ensures Session(Apply(e, u, ReadPacket), f, w, u[1..])
  {
    assert PastPumping(f);
    assert !e.reader.AwaitAck?;
    LastClose(u, f.isClient);
  }

  /** The peer's Close reaches an endpoint that has not sent its own: the reader stops. */
  lemma ReadFirstCloseKeepsSession(e: Endpoint, f: Endpoint, w: seq<Packet>, u: seq<Packet>)
    requires Session(e, f, w, u) && Enabled(e, u, ReadPacket) && u[0] == Close(f.isClient) && !e.sendClose
    ensures Session(Apply(e, u, ReadPacket), f, w, u[1..])
  {
    assert PastPumping(f) && !e.reader.AwaitAck?;
    LastClose(u, f.isClient);
  }

  /** The peer's Close crosses the endpoint's own: the reader notes it and reads on. */
  lemma ReadCrossingCloseKeepsSession(e: Endpoint, f: Endpoint, w: seq<Packet>, u: seq<Packet>)
    requires Session(e, f, w, u) && Enabled(e, u, ReadPacket) && u[0] == Close(f.isClient) && e.sendClose
    ensures Session(Apply(e, u, ReadPacket), f, w, u[1..])
  {
    assert PastPumping(f) && !e.reader.AwaitAck?;
    TailShape(u, f.isClient);
    assert !f.reader.ReadDone? && !e.writer.Done?;
  }

  lemma ReadOtherKeepsOwnHalf(e: Endpoint, f: Endpoint, w: seq<Packet>, u: seq<Packet>)
    requires Session(e, f, w, u) && Enabled(e, u, ReadPacket) && !u[0].Close?
    ensures Half(Apply(e, u, ReadPacket), f, w, u[1..])
  {
    var e' := Apply(e, u, ReadPacket);
    assert Local(e') && Wire(e', f, w);
    assert AckPlace(e', f, u[1..]);
  }

  lemma ReadOtherKeepsPeerHalf(e: Endpoint, f: Endpoint, w: seq<Packet>, u: seq<Packet>)
    requires Session(e, f, w, u) && Enabled(e, u, ReadPacket) && !u[0].Close?
    ensures Half(f, Apply(e, u, ReadPacket), u[1..], w)
  {
    TailShape(u, f.isClient);
    var e' := Apply(e, u, ReadPacket);
    assert e'.read + u[1..] == e.read + u;
    assert CloseCount(u, f.isClient) == CloseCount(u[1..], f.isClient);
    assert Wire(f, e', u[1..]) by { hide CloseConserved; hide Shape; hide CloseCount; }
    assert AckPlace(f, e', w) && CloseConserved(f, e', u[1..], w) by { hide Shape; hide CloseCount; }
  }

  lemma ReadKeepsSession(e: Endpoint, f: Endpoint, w: seq<Packet>, u: seq<Packet>)
    requires Session(e, f, w, u) && Enabled(e, u, ReadPacket)
    ensures Session(Apply(e, u, ReadPacket), f, w, u[1..])
  {
    if u[0] == Close(e.isClient) {
      ReadEchoKeepsSession(e, f, w, u);
    } else if !u[0].Close? {
      ReadOtherKeepsOwnHalf(e, f, w, u);
      ReadOtherKeepsPeerHalf(e, f, w, u);
    } else if e.sendClose {
      ReadCrossingCloseKeepsSession(e, f, w, u);
    } else {
      ReadFirstCloseKeepsSession(e, f, w, u);
    }
  }

  lemma WriteKeepsSession(e: Endpoint, f: Endpoint, w: seq<Packet>, u: seq<Packet>, a: Action)
    requires Session(e, f, w, u) && Enabled(e, u, a)
    requires a.WriteAck? || a.WriteData? || a.FinishClose? || a.FinishEcho?
    ensures Session(Apply(e, u, a), f, w + Output(e, a), u)
  {
    hide Half;
    match a {
      case WriteAck =>
        WriteAckKeepsOwnHalf(e, f, w, u);
        WriteAckKeepsPeerHalf(e, f, w, u);
      case WriteData =>
        WriteDataKeepsOwnHalf(e, f, w, u);
        WriteDataKeepsPeerHalf(e, f, w, u);
      case FinishClose =>
        FinishCloseKeepsOwnHalf(e, f, w, u);
        FinishCloseKeepsPeerHalf(e, f, w, u);
      case FinishEcho =>
        EchoKeepsOwnHalf(e, f, w, u);
        EchoKeepsPeerHalf(e, f, w, u);
    }
  }

  /** Every action of either endpoint keeps the session's invariant. */
  lemma StepKeepsSession(e: Endpoint, f: Endpoint, w: seq<Packet>, u: seq<Packet>, a: Action)
    requires Session(e, f, w, u) && Enabled(e, u, a)
    ensures Session(Apply(e, u, a), f, w + Output(e, a), Rest(u, a))
  {
    hide Half;
    if a.ReadPacket? {
      ReadKeepsSession(e, f, w, u);
      assert w + Output(e, a) == w;
    } else if a.WriteAck? || a.WriteData? || a.FinishClose? || a.FinishEcho? {
      WriteKeepsSession(e, f, w, u, a);
    } else {
      QuietKeepsOwnHalf(e, f, w, u, a);
      QuietKeepsPeerHalf(e, f, w, u, a);
      assert w + Output(e, a) == w;
    }
  }
}
