/** Two endpoints' code joined by their wires, over any number of sessions on one connection:
    whatever turns are taken, in whatever order, the handshake's theorems hold of the objects. */
module ConnectionLink {
  import opened Basics
  import opened CloseHandshake
  import opened ConnectionReuse
  import opened PeerStreamLoops

  datatype Turn =
    | Write(client: bool)
    | Read(client: bool)
    | Stream(client: bool, push: Option<nat>)
    | Open(ack: bool)
    | Accept

  class Connection {
    var c: PeerStreamOnce
    var s: PeerStreamOnce
    /** The wire from client to server, and the wire back. */
    var cs: seq<Packet>
    var sc: seq<Packet>

    ghost function Model(): System
      reads this, c, s
    {
      System(c.Model(), s.Model(), cs, sc)
    }

    ghost predicate Valid()
      reads this, c, s
    {
      c != s && c.isClient && !s.isClient && Reachable(Model())
    }

    /** A connection begins with the client's first Hello, and the server's taking it up. */
    constructor (ack: bool)
      ensures Valid() && fresh(c) && fresh(s)
    {
      c := new PeerStreamOnce(true, ack);
      s := new PeerStreamOnce(false, ack);
      cs, sc := [], [];
      new;
      FirstSession(ack);
    }

    /** The writer of either side up to its next suspension point. */
    method WriterTurn(client: bool)
      requires Valid()
      modifies this`cs, this`sc, c, s
      ensures Valid()
      ensures var a := WriterAction(old(Side(client)));
              Model() == if a.None? then old(Model()) else Next(old(Model()), StepOf(client, a.value))
    {
      hide Reachable;
      ghost var y, a := Model(), WriterAction(Side(client));
      WriterEnabled(Side(client), if client then sc else cs);
      if client {
        var out := c.WriterTurn();
        cs := cs + out;
      } else {
        var out := s.WriterTurn();
        sc := sc + out;
      }
      if a.Some? {
        assert Model() == Next(y, StepOf(client, a.value));
        ReachableNext(y, StepOf(client, a.value));
      } else {
        assert y.cs + [] == y.cs && y.sc + [] == y.sc;
      }
    }

    ghost function Side(client: bool): Endpoint
      reads this, c, s
    {
      if client then c.Model() else s.Model()
    }

    /** The reader of either side takes the next packet, if there is one and it reads. */
    method ReaderTurn(client: bool)
      requires Valid()
      modifies this`cs, this`sc, c, s
      ensures Valid()
      ensures Model() == if CanStep(old(Model()), StepOf(client, ReadPacket))
                         then Next(old(Model()), StepOf(client, ReadPacket)) else old(Model())
    {
      hide Reachable;
      ghost var y := Model();
      if client {
        if sc == [] { return; }
        var took := c.ReaderTurn(sc[0]);
        if !took { return; }
        sc := sc[1..];
      } else {
        if cs == [] { return; }
        var took := s.ReaderTurn(cs[0]);
        if !took { return; }
        cs := cs[1..];
      }
      ReadApplies(if client then y.c else y.s, if client then y.sc else y.cs);
      assert Model() == Next(y, StepOf(client, ReadPacket));
      ReachableNext(y, StepOf(client, ReadPacket));
    }

    method StreamTurn(client: bool, push: Option<nat>)
      requires Valid()
      modifies c, s
      ensures Valid()
      ensures var step := StepOf(client, if push.Some? then Push(push.value) else CloseQueue);
              Model() == if CanStep(old(Model()), step) then Next(old(Model()), step) else old(Model())
    {
      hide Reachable;
      ghost var y, a := Model(), if push.Some? then Push(push.value) else CloseQueue;
      var ok: bool;
      if client {
        ok := c.StreamTurn(push);
      } else {
        ok := s.StreamTurn(push);
      }
      if ok {
        StreamApplies(if client then y.c else y.s, if client then y.cs else y.sc, if client then y.sc else y.cs, a);
        assert Model() == Next(y, StepOf(client, a));
        ReachableNext(y, StepOf(client, a));
      }
    }

    /** The client leases the connection for another session. */
    method OpenNext(ack: bool)
      requires Valid()
      modifies this`c, this`cs
      ensures Valid() && (c == old(c) || fresh(c))
      ensures Model() == if CanStep(old(Model()), OpenSession(ack)) then Next(old(Model()), OpenSession(ack)) else old(Model())
    {
      hide Reachable;
      if c.writer != Done { return; }
      ghost var y := Model();
      c := new PeerStreamOnce(true, ack);
      cs := cs + [Hello(ack)];
      assert Model() == Next(y, OpenSession(ack));
      ReachableNext(y, OpenSession(ack));
    }

    /** The server, between sessions, reads what comes first.  It is a Hello. */
    method AcceptNext()
      requires Valid()
      modifies this`s, this`cs
      ensures Valid() && (s == old(s) || fresh(s))
      ensures Model() == if CanStep(old(Model()), AcceptSession) then Next(old(Model()), AcceptSession) else old(Model())
    {
      hide Reachable;
      ghost var y := Model();
      NeverRejects(y);
      if s.writer != Done || cs == [] { return; }
      FirstIsHello(y);
      s := new PeerStreamOnce(false, cs[0].ack);
      cs := cs[1..];
      assert Model() == Next(y, AcceptSession);
      ReachableNext(y, AcceptSession);
    }

    /** Any turns in any order, over any number of sessions: no packet is ever one to reject; what is
        written and queued is what was pushed; a side that has finished finds its wire clean; when
        both have, each has read what the other wrote, which is all that was pushed on a side that
        closed, and every Close came back once. */
    method Play(turns: seq<Turn>)
      requires Valid()
      modifies this, c, s
      ensures Valid()
      ensures c.reader != Failed && s.reader != Failed
      ensures Payload(c.wrote) + c.queue == c.pushed && Payload(s.wrote) + s.queue == s.pushed
      ensures (c.isSendClose ==> c.queue == [] && c.queueClosed) && (s.isSendClose ==> s.queue == [] && s.queueClosed)
      ensures c.writer == Done && s.writer == Done ==>
                && (c.isSendClose ==> Payload(s.read) == c.pushed) && (s.isSendClose ==> Payload(c.read) == s.pushed)
      ensures c.writer == Done ==> sc == []
      ensures s.writer == Done ==> cs == [] || cs[0].Hello?
      ensures c.writer == Done && s.writer == Done ==>
                && cs == [] && c.wrote == s.read && s.wrote == c.read
                && CloseCount(c.wrote, true) == CloseCount(s.wrote, true) == ToNat(c.isSendClose)
                && CloseCount(s.wrote, false) == CloseCount(c.wrote, false) == ToNat(s.isSendClose)
    {
      for i := 0 to |turns|
        invariant Valid() && (c == old(c) || fresh(c)) && (s == old(s) || fresh(s))
      {
        match turns[i] {
          case Write(client) => WriterTurn(client);
          case Read(client) => ReaderTurn(client);
          case Stream(client, push) => StreamTurn(client, push);
          case Open(ack) => OpenNext(ack);
          case Accept =>
            AcceptNext();
        }
      }
      NeverRejects(Model());
      PushedIsWritten(Model());
      CleanWires(Model());
      if c.writer == Done && s.writer == Done {
        ClosesEchoedOnce(Model());
        PushedIsRead(Model());
      }
    }
  }

  function StepOf(client: bool, a: Action): Step {
    if client then ConnectionReuse.Client(a) else ConnectionReuse.Server(a)
  }

  lemma FirstIsHello(y: System)
    requires Reachable(y) && y.s.writer.Done? && y.cs != []
    ensures y.cs[0].Hello?
  {
    CleanWires(y);
  }

  lemma WriterEnabled(e: Endpoint, u: seq<Packet>)
    ensures var a := WriterAction(e);
            a.Some? ==> !a.value.ReadPacket? && Enabled(e, u, a.value) && Rest(u, a.value) == u
                        && Apply(e, u, a.value) == Apply(e, [], a.value)
  {
  }

  lemma ReadApplies(e: Endpoint, u: seq<Packet>)
    requires u != [] && (e.reader == Reading || e.reader == AwaitAck)
    ensures Enabled(e, u, ReadPacket) && Apply(e, u, ReadPacket) == OnPacket(e, u[0])
  {
    assert e.(wrote := e.wrote + []) == e;
  }

  lemma StreamApplies(e: Endpoint, w: seq<Packet>, u: seq<Packet>, a: Action)
    requires FromStream(a) && !e.queueClosed && e.writer != Done && e.writer != Blocked
    ensures Enabled(e, u, a) && Apply(e, u, a) == Apply(e, [], a) && w + Output(e, a) == w && Rest(u, a) == u
  {
  }

  lemma FirstSession(ack: bool)
    ensures Reachable(System(FreshClient(ack), FreshServer(ack), [], []))
  {
    assert Runs(INITIAL, [], INITIAL);
    ReachableNext(INITIAL, OpenSession(ack));
    var y := Next(INITIAL, OpenSession(ack));
    ReachableNext(y, AcceptSession);
    assert Next(y, AcceptSession) == System(FreshClient(ack), FreshServer(ack), [], []);
  }
}
