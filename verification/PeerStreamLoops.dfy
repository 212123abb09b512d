/** The reader and writer loops of one any-tunnel endpoint as code over the shared
    `PeerStreamOnce` fields.  Each method is the code between two suspension points and is one
    action of `CloseHandshake`. */
module PeerStreamLoops {
  import opened Basics
  import opened CloseHandshake

  /** What the writer does next, if anything. */
  function WriterAction(e: Endpoint): Option<Action> {
    match e.writer
    case Blocked => None
    case OweAck => Some(WriteAck)
    case Pumping(checked) =>
      if !checked then Some(if e.peerClose.Some? then SeePeerClose else Check)
      else if e.queue != [] then Some(WriteData)
      else if !e.queueClosed then (if e.peerClose.Some? then Some(RecvTimeout) else None)
      else Some(if e.peerClose.Some? then SeePeerClose else StartClose)
    case WritingClose => Some(FinishClose)
    case Waiting =>
      if e.peerClose.Some? then Some(TakeEcho) else if e.closeNum >= 2 then Some(Finish) else None
    case Echoing(_) => Some(FinishEcho)
    case Done => None
  }

  /** The machine lets the writer do exactly that. */
  lemma WriterActionIsTheOne(e: Endpoint, u: seq<Packet>, a: Action)
    requires !FromStream(a) && !a.ReadPacket?
    ensures Enabled(e, u, a) <==> WriterAction(e) == Some(a)
  {
  }

  class PeerStreamOnce {
    const isClient: bool
    var closeNum: nat
    var tunnelPeerClose: Option<bool>
    var isSendClose: bool
    var reader: Reader
    var writer: Writer
    var queue: seq<nat>
    var queueClosed: bool
    var pushed: seq<nat>
    var wrote: seq<Packet>
    var read: seq<Packet>

    constructor (isClient: bool, ack: bool)
      ensures Model() == if isClient then FreshClient(ack) else FreshServer(ack)
    {
      this.isClient := isClient;
      closeNum, tunnelPeerClose, isSendClose := 0, None, false;
      reader := if !ack then Reading else if isClient then AwaitAck else NotStarted;
      writer := if !ack then Pumping(false) else if isClient then Blocked else OweAck;
      queue, queueClosed, pushed, wrote, read := [], false, [], [], [];
    }

    ghost function Model(): Endpoint
      reads this
    {
      Endpoint(isClient, reader, writer, tunnelPeerClose, isSendClose, closeNum, queue, queueClosed, pushed, wrote, read)
    }

    /** The client's wait for the hello ack: anything else fails the session. */
    method ReadAck(p: Packet)
      requires reader == AwaitAck
      modifies this
      ensures Model() == OnPacket(old(Model()), p)
    {
      read := read + [p];
      if p.HelloAck? {
        reader, writer := Reading, Pumping(false);
      } else {
        reader := Failed;
      }
    }

    method SendAck()
      requires writer == OweAck
      modifies this
      ensures Model() == Apply(old(Model()), [], WriteAck)
    {
      wrote := wrote + [HelloAck];
      reader, writer := Reading, Pumping(false);
    }

    /** One packet in `read_stream`; `stop` tells that the loop returned. */
    method ReadOne(p: Packet) returns (stop: bool)
      requires reader == Reading
      modifies this
      ensures Model() == OnPacket(old(Model()), p)
      ensures stop == (reader != Reading)
    {
      read := read + [p];
      match p {
        case Hello(_) =>
          reader := Failed;
        case HelloAck =>
          reader := Failed;
        case Data(_) =>
        case Close(byClient) =>
          if byClient != isClient {
            tunnelPeerClose := Some(byClient);
            if !isSendClose {
              reader := ReadDone;
              closeNum := closeNum + 1;
            }
          } else {
            reader := ReadDone;
            closeNum := closeNum + 1;
          }
      }
      stop := reader != Reading;
    }

    /** The check at the head of `write_pack`'s loop: a noted Close ends the loop, and only then
        is nothing more written. */
    method CheckPeerClose() returns (stop: bool)
      requires writer == Pumping(false)
      modifies this
      ensures stop == old(tunnelPeerClose.Some?)
      ensures Model() == Apply(old(Model()), [], if stop then SeePeerClose else Check)
    {
      stop := tunnelPeerClose.Some?;
      if stop {
        closeNum := closeNum + 1;
        writer := Waiting;
      } else {
        writer := Pumping(true);
      }
    }

    /** What the wait of at most a second brings; a Close may have been noted meanwhile.  A pack is
        written and the loop goes back to the check; a closed and empty queue starts the endpoint's
        own Close, unless the peer's was noted; a second without a pack leads back to the check,
        which passes at once, and so to the same wait, if no Close was noted. */
    method WriteOne() returns (waits: bool)
      requires writer == Pumping(true)
      modifies this
      ensures waits == old(WriterAction(Model()).None?)
      ensures waits <==> old(queue == [] && !queueClosed && tunnelPeerClose.None?)
      ensures waits ==> unchanged(this)
      ensures old(queue) != [] ==> wrote == old(wrote) + [Data(old(queue)[0])] && queue == old(queue)[1..]
      ensures isSendClose && !old(isSendClose) ==> old(queue == [] && queueClosed && tunnelPeerClose.None?)
      ensures !waits ==> Model() == Apply(old(Model()), [], old(WriterAction(Model()).value))
    {
      waits := false;
      if queue != [] {
        wrote := wrote + [Data(queue[0])];
        queue := queue[1..];
        writer := Pumping(false);
      } else if !queueClosed {
        if tunnelPeerClose.Some? {
          writer := Pumping(false);
        } else {
          waits := true;
        }
      } else if tunnelPeerClose.Some? {
        closeNum := closeNum + 1;
        writer := Waiting;
      } else {
        isSendClose := true;
        writer := WritingClose;
      }
    }

    method WriteClose()
      requires writer == WritingClose
      modifies this
      ensures Model() == Apply(old(Model()), [], FinishClose)
    {
      wrote := wrote + [Close(isClient)];
      closeNum := closeNum + 1;
      writer := Waiting;
    }

    /** The head of the loop that waits for the reader: a noted Close is taken and its echo begun;
        without one the loop ends exactly when `close_num` is 2. */
    method WaitTurn() returns (waits: bool)
      requires writer == Waiting
      modifies this
      ensures waits == old(tunnelPeerClose.None? && closeNum < 2)
      ensures waits ==> unchanged(this)
      ensures !waits ==>
                Model() == Apply(old(Model()), [], if old(tunnelPeerClose.Some?) then TakeEcho else Finish)
    {
      waits := false;
      if tunnelPeerClose.Some? {
        writer := Echoing(tunnelPeerClose.value);
        tunnelPeerClose := None;
      } else if closeNum >= 2 {
        writer := Done;
      } else {
        waits := true;
      }
    }

    /** The echo is written; then the loop looks at `close_num`, which the reader may have raised
        meanwhile. */
    method WriteEcho()
      requires writer.Echoing?
      modifies this
      ensures Model() == Apply(old(Model()), [], FinishEcho)
    {
      wrote := wrote + [Close(writer.close)];
      writer := if closeNum >= 2 then Done else Waiting;
    }

    /** The writer up to its next suspension point; `out` is what it puts on the wire. */
    method WriterTurn() returns (out: seq<Packet>)
      modifies this
      ensures WriterAction(old(Model())).None? ==> unchanged(this) && out == []
      ensures WriterAction(old(Model())).Some? ==>
                var a := WriterAction(old(Model())).value;
                && Enabled(old(Model()), [], a) && Model() == Apply(old(Model()), [], a)
                && out == Output(old(Model()), a)
    {
      var n := |wrote|;
      match writer {
        case Blocked =>
        case OweAck => SendAck();
        case Pumping(checked) =>
          if checked {
            var _ := WriteOne();
          } else {
            var _ := CheckPeerClose();
          }
        case WritingClose => WriteClose();
        case Waiting =>
          var _ := WaitTurn();
        case Echoing(_) => WriteEcho();
        case Done =>
      }
      out := wrote[n..];
    }

    /** The reader takes one packet, if it reads. */
    method ReaderTurn(p: Packet) returns (took: bool)
      modifies this
      ensures took == old(reader == Reading || reader == AwaitAck)
      ensures Model() == if took then OnPacket(old(Model()), p) else old(Model())
    {
      took := true;
      if reader == AwaitAck {
        ReadAck(p);
      } else if reader == Reading {
        var _ := ReadOne(p);
      } else {
        took := false;
      }
    }

    /** The local stream pushes a pack, or closes. */
    method StreamTurn(push: Option<nat>) returns (ok: bool)
      modifies this
      ensures ok == old(!queueClosed && writer != Done && writer != Blocked)
      ensures !ok ==> unchanged(this)
      ensures ok ==> Model() == Apply(old(Model()), [], if push.Some? then Push(push.value) else CloseQueue)
    {
      ok := !queueClosed && writer != Done && writer != Blocked;
      if ok {
        if push.Some? {
          queue, pushed := queue + [push.value], pushed + [push.value];
        } else {
          queueClosed := true;
        }
      }
    }
  }
}
