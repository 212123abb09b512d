/** A pooled any-tunnel connection over any number of sessions.  The client opens a session
    with a Hello as soon as its side of the last one is over; the server may still be in the
    old session then.  The close handshake must leave nothing behind. */
module ConnectionReuse {
  import opened Basics
  import opened CloseHandshake

  /** `cs` is the wire from client to server, `sc` the wire back. */
  datatype System = System(c: Endpoint, s: Endpoint, cs: seq<Packet>, sc: seq<Packet>)

  datatype Step =
    | Client(a: Action)
    | Server(a: Action)
    | OpenSession(ack: bool)
    | AcceptSession

  /** An endpoint between two sessions. */
  function Idle(isClient: bool): Endpoint {
    Endpoint(isClient, ReadDone, Done, None, false, 2, [], true, [], [], [])
  }

  const INITIAL := System(Idle(true), Idle(false), [], [])

  predicate CanStep(y: System, step: Step) {
    match step
    case Client(a) => Enabled(y.c, y.sc, a)
    case Server(a) => Enabled(y.s, y.cs, a)
    case OpenSession(_) => y.c.writer.Done?
    case AcceptSession => y.s.writer.Done? && !y.s.reader.Failed? && y.cs != []
  }

  /** Between sessions the server accepts a Hello and nothing else. */
  function Next(y: System, step: Step): System
    requires CanStep(y, step)
  {
    match step
    case Client(a) => System(Apply(y.c, y.sc, a), y.s, y.cs + Output(y.c, a), Rest(y.sc, a))
    case Server(a) => System(y.c, Apply(y.s, y.cs, a), Rest(y.cs, a), y.sc + Output(y.s, a))
    case OpenSession(ack) => y.(c := FreshClient(ack), cs := y.cs + [Hello(ack)])
    case AcceptSession =>
      match y.cs[0]
      case Hello(ack) => y.(s := FreshServer(ack), cs := y.cs[1..])
      case _ => y.(s := y.s.(reader := Failed), cs := y.cs[1..])
  }

  ghost predicate Runs(y: System, steps: seq<Step>, z: System)
    decreases steps
  {
    if steps == [] then y == z
    else CanStep(y, steps[0]) && Runs(Next(y, steps[0]), steps[1..], z)
  }

  lemma {:induction false} RunsConcat(y: System, xs: seq<Step>, mid: System, ys: seq<Step>, z: System)
    requires Runs(y, xs, mid) && Runs(mid, ys, z)
    ensures Runs(y, xs + ys, z)
    decreases xs
  {
    hide CanStep, Next;
    if xs == [] {
      assert xs + ys == ys;
    } else {
      assert (xs + ys)[1..] == xs[1..] + ys;
      RunsConcat(Next(y, xs[0]), xs[1..], mid, ys, z);
    }
  }

  ghost predicate Reachable(z: System) {
    exists steps :: Runs(INITIAL, steps, z)
  }

  lemma ReachableNext(y: System, step: Step)
    requires Reachable(y) && CanStep(y, step)
    ensures Reachable(Next(y, step))
  {
    hide CanStep, Next;
    var before :| Runs(INITIAL, before, y);
    assert [step][1..] == [];
    RunsConcat(INITIAL, before, y, [step], Next(y, step));
  }

  /** Both endpoints are in the same session. */
  ghost predicate InStep(y: System) {
    y.c.isClient && Session(y.c, y.s, y.cs, y.sc)
  }

  /** The client is one session ahead: `past` is how it ended the server's session, of which
      `before` is still unread; then comes the Hello, and then what the new session has written. */
  ghost predicate Ahead(y: System, past: Endpoint, before: seq<Packet>, ack: bool, after: seq<Packet>) {
    && y.cs == before + [Hello(ack)] + after
    && y.sc == []
    && past.isClient && past.writer.Done? && y.c.isClient
    && Session(past, y.s, before, [])
    && Session(y.c, FreshServer(ack), after, [])
  }

  ghost predicate ClientAhead(y: System) {
    exists past, before, ack, after :: Ahead(y, past, before, ack, after)
  }

  ghost predicate Inv(y: System) {
    InStep(y) || ClientAhead(y)
  }

  lemma Mirror(e: Endpoint, f: Endpoint, w: seq<Packet>, u: seq<Packet>)
    requires Session(e, f, w, u)
    ensures Session(f, e, u, w)
  {
  }

  lemma FreshClientHalf(ack: bool)
    ensures Half(FreshClient(ack), FreshServer(ack), [], [])
  {
    assert Local(FreshClient(ack));
    assert Wire(FreshClient(ack), FreshServer(ack), []);
    assert AckPlace(FreshClient(ack), FreshServer(ack), []);
  }

  lemma FreshServerHalf(ack: bool)
    ensures Half(FreshServer(ack), FreshClient(ack), [], [])
  {
    assert Local(FreshServer(ack));
    assert Wire(FreshServer(ack), FreshClient(ack), []);
    assert AckPlace(FreshServer(ack), FreshClient(ack), []);
  }

  lemma FreshSession(ack: bool)
    ensures Session(FreshClient(ack), FreshServer(ack), [], [])
  {
    FreshClientHalf(ack);
    FreshServerHalf(ack);
  }

  /** An endpoint that has finished has nothing to read, and its peer writes no more: the peer
      is done, or waits with nothing to echo. */
  lemma FinishedIsClean(e: Endpoint, f: Endpoint, w: seq<Packet>, u: seq<Packet>)
    requires Session(e, f, w, u) && e.writer.Done?
    ensures u == [] && e.reader.ReadDone?
    ensures (f.writer.Waiting? || f.writer.Done?) && f.peerClose.None?
    ensures f.reader.ReadDone? || w != []
  {
  }

  lemma BothFinished(e: Endpoint, f: Endpoint, w: seq<Packet>, u: seq<Packet>)
    requires Session(e, f, w, u) && e.writer.Done? && f.writer.Done?
    ensures w == [] && u == [] && e.wrote == f.read && f.wrote == e.read
    ensures EchoesRead(e) == ToNat(e.sendClose) && EchoesRead(f) == ToNat(f.sendClose)
    ensures e.isClient != f.isClient
    ensures e.closeNum == 2 && f.closeNum == 2
  {
  }

  lemma NobodyFailed(e: Endpoint, f: Endpoint, w: seq<Packet>, u: seq<Packet>)
    requires Session(e, f, w, u)
    ensures !e.reader.Failed? && !f.reader.Failed?
  {
  }

  lemma IdleSession()
    ensures Session(Idle(true), Idle(false), [], [])
  {
    assert Half(Idle(true), Idle(false), [], []);
  }

  lemma FreshServerNotDone(c: Endpoint, ack: bool, w: seq<Packet>)
    requires Session(c, FreshServer(ack), w, [])
    ensures !c.writer.Done?
  {
  }

  lemma DoneMeansInStep(y: System)
    requires Inv(y) && y.c.writer.Done?
    ensures InStep(y)
  {
    hide Session;
    if !InStep(y) {
      var past, before, ack, after :| Ahead(y, past, before, ack, after);
      FreshServerNotDone(y.c, ack, after);
    }
  }

  lemma OpenIsAhead(past: Endpoint, c: Endpoint, s: Endpoint, cs: seq<Packet>, ack: bool)
    requires Session(past, s, cs, []) && past.isClient && past.writer.Done?
    requires Session(c, FreshServer(ack), [], []) && c.isClient
    ensures ClientAhead(System(c, s, cs + [Hello(ack)], []))
  {
    hide Session;
    assert cs + [Hello(ack)] == cs + [Hello(ack)] + [];
    assert Ahead(System(c, s, cs + [Hello(ack)], []), past, cs, ack, []);
  }

  lemma OpenResult(y: System, ack: bool)
    requires y.c.writer.Done? && y.sc == []
    ensures Next(y, OpenSession(ack)) == System(FreshClient(ack), y.s, y.cs + [Hello(ack)], [])
  {
  }

  lemma OpenKeepsInv(y: System, ack: bool)
    requires Inv(y) && y.c.writer.Done?
    ensures ClientAhead(Next(y, OpenSession(ack)))
  {
    hide Session;
    DoneMeansInStep(y);
    FinishedIsClean(y.c, y.s, y.cs, y.sc);
    OpenFromInStep(y, ack);
  }

  lemma OpenFromInStep(y: System, ack: bool)
    requires InStep(y) && y.c.writer.Done? && y.sc == []
    ensures ClientAhead(Next(y, OpenSession(ack)))
  {
    hide Session;
    var newClient := FreshClient(ack);
    assert Session(newClient, FreshServer(ack), [], []) by {
      FreshSession(ack);
    }
    OpenIsAhead(y.c, newClient, y.s, y.cs, ack);
    OpenResult(y, ack);
  }

  lemma AcceptKeepsInv(y: System)
    requires Inv(y) && CanStep(y, AcceptSession)
    ensures y.cs[0].Hello? && InStep(Next(y, AcceptSession))
  {
    hide Session;
    if InStep(y) {
      Mirror(y.c, y.s, y.cs, y.sc);
      FinishedIsClean(y.s, y.c, y.sc, y.cs);
    } else {
      var past, before, ack, after :| Ahead(y, past, before, ack, after);
      Mirror(past, y.s, before, []);
      FinishedIsClean(y.s, past, [], before);
      assert y.cs[1..] == after;
    }
  }

  lemma AheadServerReads(y: System, past: Endpoint, before: seq<Packet>, ack: bool, after: seq<Packet>)
    requires Ahead(y, past, before, ack, after) && Enabled(y.s, y.cs, ReadPacket)
    ensures ClientAhead(Next(y, Server(ReadPacket)))
  {
    hide Session;
    var z := Next(y, Server(ReadPacket));
    FinishedIsClean(past, y.s, before, []);
    Mirror(past, y.s, before, []);
    StepKeepsSession(y.s, past, [], before, ReadPacket);
    assert [] + Output(y.s, ReadPacket) == [];
    Mirror(z.s, past, [], before[1..]);
    assert z.cs == before[1..] + [Hello(ack)] + after;
    assert Ahead(z, past, before[1..], ack, after);
  }

  lemma AheadServerStep(y: System, past: Endpoint, before: seq<Packet>, ack: bool, after: seq<Packet>, a: Action)
    requires Ahead(y, past, before, ack, after) && Enabled(y.s, y.cs, a) && !a.ReadPacket?
    ensures ClientAhead(Next(y, Server(a)))
  {
    hide Session;
    FinishedIsClean(past, y.s, before, []);
    assert Output(y.s, a) == [];
    Mirror(past, y.s, before, []);
    StepKeepsSession(y.s, past, [], before, a);
    assert [] + Output(y.s, a) == [] && y.sc + Output(y.s, a) == [];
    assert Apply(y.s, before, a) == Apply(y.s, y.cs, a);
    AheadServerResult(y, past, before, ack, after, Apply(y.s, y.cs, a));
  }

  lemma AheadServerResult(y: System, past: Endpoint, before: seq<Packet>, ack: bool, after: seq<Packet>, s: Endpoint)
    requires Ahead(y, past, before, ack, after) && Session(s, past, [], before)
    ensures ClientAhead(y.(s := s))
  {
    hide Session;
    Mirror(s, past, [], before);
    assert Ahead(y.(s := s), past, before, ack, after);
  }

  lemma AheadClientStep(y: System, past: Endpoint, before: seq<Packet>, ack: bool, after: seq<Packet>, a: Action)
    requires Ahead(y, past, before, ack, after) && Enabled(y.c, y.sc, a)
    ensures ClientAhead(Next(y, Client(a)))
  {
    hide Session;
    StepKeepsSession(y.c, FreshServer(ack), after, [], a);
    AheadClientResult(y, past, before, ack, after, Apply(y.c, y.sc, a), Output(y.c, a));
  }

  lemma AheadClientResult(y: System, past: Endpoint, before: seq<Packet>, ack: bool, after: seq<Packet>,
                          c: Endpoint, written: seq<Packet>)
    requires Ahead(y, past, before, ack, after)
    requires c.isClient && Session(c, FreshServer(ack), after + written, [])
    ensures ClientAhead(System(c, y.s, y.cs + written, []))
  {
    hide Session;
    assert y.cs + written == before + [Hello(ack)] + (after + written);
    assert Ahead(System(c, y.s, y.cs + written, []), past, before, ack, after + written);
  }

  lemma ClientKeepsInv(y: System, a: Action)
    requires Inv(y) && Enabled(y.c, y.sc, a)
    ensures Inv(Next(y, Client(a)))
  {
    hide Session;
    if InStep(y) {
      StepKeepsSession(y.c, y.s, y.cs, y.sc, a);
    } else {
      var past, before, ack, after :| Ahead(y, past, before, ack, after);
      AheadClientStep(y, past, before, ack, after, a);
    }
  }

  lemma ServerKeepsInv(y: System, a: Action)
    requires Inv(y) && Enabled(y.s, y.cs, a)
    ensures Inv(Next(y, Server(a)))
  {
    hide Session;
    if InStep(y) {
      Mirror(y.c, y.s, y.cs, y.sc);
      StepKeepsSession(y.s, y.c, y.sc, y.cs, a);
      Mirror(Apply(y.s, y.cs, a), y.c, y.sc + Output(y.s, a), Rest(y.cs, a));
    } else {
      var past, before, ack, after :| Ahead(y, past, before, ack, after);
      if a.ReadPacket? {
        AheadServerReads(y, past, before, ack, after);
      } else {
        AheadServerStep(y, past, before, ack, after, a);
      }
    }
  }

  lemma NextKeepsInv(y: System, step: Step)
    requires Inv(y) && CanStep(y, step)
    ensures Inv(Next(y, step))
  {
    hide Session;
    match step
    case OpenSession(ack) => OpenKeepsInv(y, ack);
    case AcceptSession => AcceptKeepsInv(y);
    case Client(a) => ClientKeepsInv(y, a);
    case Server(a) => ServerKeepsInv(y, a);
  }

  lemma {:induction false} RunKeepsInv(y: System, steps: seq<Step>, z: System)
    requires Inv(y) && Runs(y, steps, z)
    ensures Inv(z)
    decreases steps
  {
    hide Session;
    if steps == [] {
    } else {
      NextKeepsInv(y, steps[0]);
      RunKeepsInv(Next(y, steps[0]), steps[1..], z);
    }
  }

  lemma ReachableInv(z: System)
    requires Reachable(z)
    ensures Inv(z)
  {
    hide Session;
    IdleSession();
    var steps :| Runs(INITIAL, steps, z);
    RunKeepsInv(INITIAL, steps, z);
  }

  // ----- theorems over any number of sessions -----

  /** Neither endpoint is ever handed a packet it must reject: no leftover of an old session
      reaches a new one, and no Hello reaches a session that is still running. */
  lemma NeverRejects(z: System)
    requires Reachable(z)
    ensures !z.c.reader.Failed? && !z.s.reader.Failed?
  {
    hide Session;
    ReachableInv(z);
    if InStep(z) {
      NobodyFailed(z.c, z.s, z.cs, z.sc);
    } else {
      var past, before, ack, after :| Ahead(z, past, before, ack, after);
      NobodyFailed(past, z.s, before, []);
      NobodyFailed(z.c, FreshServer(ack), after, []);
    }
  }

  /** An endpoint that has finished has a clean incoming wire: nothing for the client, and for
      the server nothing or the next Hello. */
  lemma CleanWires(z: System)
    requires Reachable(z)
    ensures z.c.writer.Done? ==> z.sc == []
    ensures z.s.writer.Done? ==> z.cs == [] || z.cs[0].Hello?
  {
    hide Session;
    ReachableInv(z);
    if z.c.writer.Done? {
      DoneMeansInStep(z);
      FinishedIsClean(z.c, z.s, z.cs, z.sc);
    }
    if z.s.writer.Done? {
      if InStep(z) {
        Mirror(z.c, z.s, z.cs, z.sc);
        FinishedIsClean(z.s, z.c, z.sc, z.cs);
      } else {
        var past, before, ack, after :| Ahead(z, past, before, ack, after);
        Mirror(past, z.s, before, []);
        FinishedIsClean(z.s, past, [], before);
      }
    }
  }

  // ----- counting the Closes written and read -----

  /** An endpoint has written its own Close as often as it says, and read it back as often. */
  ghost predicate Tally(e: Endpoint) {
    CloseCount(e.wrote, e.isClient) == ClosesSent(e) && CloseCount(e.read, e.isClient) == EchoesRead(e)
  }

  /** A Close of its own comes back only to an endpoint that has sent it and still reads. */
  lemma EchoIsExpected(e: Endpoint, f: Endpoint, w: seq<Packet>, u: seq<Packet>)
    requires Session(e, f, w, u) && u != [] && u[0] == Close(e.isClient)
    ensures e.sendClose && !e.reader.ReadDone? && !e.reader.AwaitAck?
  {
  }

  lemma LocalFacts(e: Endpoint, f: Endpoint, w: seq<Packet>, u: seq<Packet>)
    requires Session(e, f, w, u)
    ensures Local(e)
  {
  }

  lemma WriteKeepsTally(e: Endpoint, u: seq<Packet>, a: Action)
    requires Local(e) && Tally(e) && Enabled(e, u, a) && !a.ReadPacket?
    ensures Tally(Apply(e, u, a))
  {
    if Output(e, a) == [] {
      assert e.wrote + Output(e, a) == e.wrote;
    } else {
      assert Output(e, a) == [Output(e, a)[0]];
      SnocCount(e.wrote, Output(e, a)[0], e.isClient);
    }
  }

  /** The read side of the tally, apart from what the endpoint is doing. */
  lemma CountRead(read: seq<Packet>, p: Packet, isClient: bool)
    ensures CloseCount(read + [p], isClient) == CloseCount(read, isClient) + ToNat(p == Close(isClient))
  {
    SnocCount(read, p, isClient);
  }

  lemma ReadEchoes(e: Endpoint, p: Packet)
    requires Local(e) && (e.reader.Reading? || e.reader.AwaitAck?)
    requires p == Close(e.isClient) ==> e.sendClose && !e.reader.AwaitAck?
    ensures EchoesRead(OnPacket(e, p)) == EchoesRead(e) + ToNat(p == Close(e.isClient))
    ensures ClosesSent(OnPacket(e, p)) == ClosesSent(e)
    ensures OnPacket(e, p).wrote == e.wrote && OnPacket(e, p).read == e.read + [p] && OnPacket(e, p).isClient == e.isClient
  {
  }

  lemma ReadKeepsTally(e: Endpoint, u: seq<Packet>)
    requires Local(e) && Tally(e) && Enabled(e, u, ReadPacket)
    requires u[0] == Close(e.isClient) ==> e.sendClose && !e.reader.AwaitAck?
    ensures Tally(Apply(e, u, ReadPacket))
  {
    hide CloseCount, OnPacket, Local;
    assert e.wrote + Output(e, ReadPacket) == e.wrote;
    assert e.(wrote := e.wrote + Output(e, ReadPacket)) == e;
    CountRead(e.read, u[0], e.isClient);
    ReadEchoes(e, u[0]);
  }

  lemma StepKeepsTally(e: Endpoint, f: Endpoint, w: seq<Packet>, u: seq<Packet>, a: Action)
    requires Session(e, f, w, u) && Tally(e) && Enabled(e, u, a)
    ensures Tally(Apply(e, u, a))
  {
    hide Session, Tally;
    LocalFacts(e, f, w, u);
    if !a.ReadPacket? {
      WriteKeepsTally(e, u, a);
    } else {
      if u[0] == Close(e.isClient) {
        EchoIsExpected(e, f, w, u);
      }
      ReadKeepsTally(e, u);
    }
  }

  lemma ServerKeepsTally(y: System, a: Action)
    requires Inv(y) && Tally(y.s) && Enabled(y.s, y.cs, a)
    ensures Tally(Apply(y.s, y.cs, a))
  {
    hide Session, Tally;
    if InStep(y) {
      Mirror(y.c, y.s, y.cs, y.sc);
      StepKeepsTally(y.s, y.c, y.sc, y.cs, a);
    } else {
      var past, before, ack, after :| Ahead(y, past, before, ack, after);
      FinishedIsClean(past, y.s, before, []);
      Mirror(past, y.s, before, []);
      assert Enabled(y.s, before, a) && Apply(y.s, y.cs, a) == Apply(y.s, before, a);
      StepKeepsTally(y.s, past, [], before, a);
    }
  }

  lemma ClientKeepsTally(y: System, a: Action)
    requires Inv(y) && Tally(y.c) && Enabled(y.c, y.sc, a)
    ensures Tally(Apply(y.c, y.sc, a))
  {
    hide Session, Tally;
    if InStep(y) {
      StepKeepsTally(y.c, y.s, y.cs, y.sc, a);
    } else {
      var past, before, ack, after :| Ahead(y, past, before, ack, after);
      StepKeepsTally(y.c, FreshServer(ack), after, [], a);
    }
  }

  lemma FreshTally(ack: bool)
    ensures Tally(FreshClient(ack)) && Tally(FreshServer(ack))
  {
  }

  lemma {:induction false} RunKeepsTally(y: System, steps: seq<Step>, z: System)
    requires Inv(y) && Tally(y.c) && Tally(y.s) && Runs(y, steps, z)
    ensures Tally(z.c) && Tally(z.s)
    decreases steps
  {
    hide Session, Tally, Inv;
    if steps == [] {
    } else {
      NextKeepsInv(y, steps[0]);
      match steps[0] {
        case Client(a) => ClientKeepsTally(y, a);
        case Server(a) => ServerKeepsTally(y, a);
        case OpenSession(ack) => FreshTally(ack);
        case AcceptSession =>
          AcceptKeepsInv(y);
          FreshTally(y.cs[0].ack);
      }
      RunKeepsTally(Next(y, steps[0]), steps[1..], z);
    }
  }

  // ----- what the streams pushed -----

  /** The payloads of the data packs among packets. */
  function Payload(ps: seq<Packet>): seq<nat> {
    if ps == [] then []
    else Payload(ps[..|ps| - 1]) + (if ps[|ps| - 1].Data? then [ps[|ps| - 1].payload] else [])
  }

  lemma PayloadSnoc(ps: seq<Packet>, p: Packet)
    ensures Payload(ps + [p]) == Payload(ps) + if p.Data? then [p.payload] else []
  {
    assert (ps + [p])[..|ps|] == ps;
  }

  /** Nothing pushed is lost, repeated or overtaken: what was written and then what is queued is
      what was pushed.  A Close of its own is sent only behind all of it, when the stream is
      closed. */
  ghost predicate Accounted(e: Endpoint) {
    && Payload(e.wrote) + e.queue == e.pushed
    && (e.sendClose ==> e.queue == [] && e.queueClosed)
  }

  lemma PushKeepsAccount(e: Endpoint, u: seq<Packet>, n: nat)
    requires Accounted(e) && Enabled(e, u, Push(n))
    ensures Accounted(Apply(e, u, Push(n)))
  {
    hide Payload;
    assert e.wrote + [] == e.wrote;
    assert Payload(e.wrote) + (e.queue + [n]) == e.pushed + [n];
  }

  lemma DataKeepsAccount(e: Endpoint, u: seq<Packet>)
    requires Accounted(e) && Enabled(e, u, WriteData)
    ensures Accounted(Apply(e, u, WriteData))
  {
    PayloadSnoc(e.wrote, Data(e.queue[0]));
    hide Payload;
    assert Payload(e.wrote) + [e.queue[0]] + e.queue[1..] == Payload(e.wrote) + e.queue;
  }

  /** The other writes carry no payload. */
  lemma OtherWritesKeepAccount(e: Endpoint, u: seq<Packet>, a: Action)
    requires Accounted(e) && Enabled(e, u, a) && (a.WriteAck? || a.FinishClose? || a.FinishEcho?)
    ensures Accounted(Apply(e, u, a))
  {
    PayloadSnoc(e.wrote, Output(e, a)[0]);
    assert Output(e, a) == [Output(e, a)[0]];
    hide Payload;
    assert Payload(e.wrote) + [] == Payload(e.wrote);
  }

  lemma ReadKeepsAccount(e: Endpoint, u: seq<Packet>)
    requires Accounted(e) && Enabled(e, u, ReadPacket)
    ensures Accounted(Apply(e, u, ReadPacket))
  {
    hide Payload;
    assert e.wrote + [] == e.wrote;
  }

  lemma QuietKeepsAccount(e: Endpoint, u: seq<Packet>, a: Action)
    requires Accounted(e) && Enabled(e, u, a) && !a.Push? && !a.ReadPacket? && Output(e, a) == []
    ensures Accounted(Apply(e, u, a))
  {
    hide Payload;
    assert e.wrote + [] == e.wrote;
  }

  lemma StepKeepsAccount(e: Endpoint, u: seq<Packet>, a: Action)
    requires Accounted(e) && Enabled(e, u, a)
    ensures Accounted(Apply(e, u, a))
  {
    hide Accounted;
    match a
    case Push(n) => PushKeepsAccount(e, u, n);
    case WriteData => DataKeepsAccount(e, u);
    case WriteAck => OtherWritesKeepAccount(e, u, a);
    case FinishClose => OtherWritesKeepAccount(e, u, a);
    case FinishEcho => OtherWritesKeepAccount(e, u, a);
    case ReadPacket => ReadKeepsAccount(e, u);
    case _ => QuietKeepsAccount(e, u, a);
  }

  lemma {:induction false} RunKeepsAccount(y: System, steps: seq<Step>, z: System)
    requires Inv(y) && Accounted(y.c) && Accounted(y.s) && Runs(y, steps, z)
    ensures Accounted(z.c) && Accounted(z.s)
    decreases steps
  {
    hide Inv, Accounted;
    if steps == [] {
    } else {
      NextKeepsInv(y, steps[0]);
      match steps[0] {
        case Client(a) => StepKeepsAccount(y.c, y.sc, a);
        case Server(a) => StepKeepsAccount(y.s, y.cs, a);
        case OpenSession(ack) => FreshAccount(ack);
        case AcceptSession =>
          AcceptKeepsInv(y);
          FreshAccount(y.cs[0].ack);
      }
      RunKeepsAccount(Next(y, steps[0]), steps[1..], z);
    }
  }

  lemma FreshAccount(ack: bool)
    ensures Accounted(FreshClient(ack)) && Accounted(FreshServer(ack))
  {
  }

  /** In every reachable state, on both sides: the payloads written, followed by those queued, are
      those pushed, in order; and a side that has begun its own Close has written all of them. */
  lemma PushedIsWritten(z: System)
    requires Reachable(z)
    ensures Payload(z.c.wrote) + z.c.queue == z.c.pushed && Payload(z.s.wrote) + z.s.queue == z.s.pushed
    ensures z.c.sendClose ==> z.c.queue == [] && z.c.queueClosed && Payload(z.c.wrote) == z.c.pushed
    ensures z.s.sendClose ==> z.s.queue == [] && z.s.queueClosed && Payload(z.s.wrote) == z.s.pushed
  {
    hide Session;
    IdleSession();
    var steps :| Runs(INITIAL, steps, z);
    RunKeepsAccount(INITIAL, steps, z);
  }

  /** So when both have finished, the peer of a side that closed has read exactly what was pushed
      there; of a side that only echoed, a prefix. */
  lemma PushedIsRead(z: System)
    requires Reachable(z) && z.c.writer.Done? && z.s.writer.Done?
    ensures Payload(z.s.read) <= z.c.pushed && (z.c.sendClose ==> Payload(z.s.read) == z.c.pushed)
    ensures Payload(z.c.read) <= z.s.pushed && (z.s.sendClose ==> Payload(z.c.read) == z.s.pushed)
  {
    PushedIsWritten(z);
    ClosesEchoedOnce(z);
  }

  /** When both have finished, each has read exactly what the other wrote; a side that sent its
      Close has written it once, and the other side has written it back once. */
  lemma ClosesEchoedOnce(z: System)
    requires Reachable(z) && z.c.writer.Done? && z.s.writer.Done?
    ensures z.cs == [] && z.sc == [] && z.c.closeNum == 2 && z.s.closeNum == 2
    ensures z.c.wrote == z.s.read && z.s.wrote == z.c.read
    ensures CloseCount(z.c.wrote, true) == CloseCount(z.s.wrote, true) == ToNat(z.c.sendClose)
    ensures CloseCount(z.s.wrote, false) == CloseCount(z.c.wrote, false) == ToNat(z.s.sendClose)
  {
    hide Session;
    ReachableInv(z);
    DoneMeansInStep(z);
    BothFinished(z.c, z.s, z.cs, z.sc);
    IdleSession();
    var steps :| Runs(INITIAL, steps, z);
    RunKeepsTally(INITIAL, steps, z);
  }
}
