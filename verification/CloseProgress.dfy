/** Progress of the close handshake over any number of sessions: once either outgoing queue is
    closed, no state short of the end is stuck, and every action of a reader or a writer brings
    the end nearer, whatever the streams do meanwhile. */
module CloseProgress {
  import opened CloseHandshake
  import opened ConnectionReuse

  /** With a Close noted, a wait for a pack still has its timeout and its check before it. */
  function WriterWork(writer: Writer, noted: bool): nat {
    match writer
    case Blocked => 12
    case OweAck => 15
    case Pumping(checked) => if !checked then 12 else if noted then 13 else 11
    case WritingClose => 10
    case Waiting => 2
    case Echoing(_) => 5
    case Done => 0
  }

  function PacketWork(p: Packet, sender: bool): nat {
    match p
    case Hello(_) => 16
    case HelloAck => 2
    case Data(_) => 1
    case Close(isClient) => if isClient == sender then 7 else 2
  }

  function WireWork(w: seq<Packet>, sender: bool): nat {
    if w == [] then 0 else PacketWork(w[0], sender) + WireWork(w[1..], sender)
  }

  function EndpointWork(e: Endpoint): nat {
    3 * |e.queue| + WriterWork(e.writer, e.peerClose.Some?) + 4 * ToNat(e.peerClose.Some?)
  }

  /** Work left: queued packs, unread packets and phases. */
  function Work(y: System): nat {
    EndpointWork(y.c) + EndpointWork(y.s) + WireWork(y.cs, true) + WireWork(y.sc, false)
  }

  lemma {:induction false} WireWorkSnoc(w: seq<Packet>, p: Packet, sender: bool)
    ensures WireWork(w + [p], sender) == WireWork(w, sender) + PacketWork(p, sender)
  {
    if w == [] {
      assert (w + [p])[1..] == [];
    } else {
      assert (w + [p])[1..] == w[1..] + [p];
      WireWorkSnoc(w[1..], p, sender);
    }
  }

  /** Reading a packet: it leaves the wire, and what it costs its reader is less than what it
      weighed. */
  lemma ReadSpendsWork(e: Endpoint, f: Endpoint, w: seq<Packet>, u: seq<Packet>)
    requires Local(e) && e.isClient != f.isClient && Enabled(e, u, ReadPacket)
    ensures EndpointWork(Apply(e, u, ReadPacket)) + WireWork(u[1..], f.isClient)
            < EndpointWork(e) + WireWork(u, f.isClient)
  {
  }

  lemma WriteSpendsWork(e: Endpoint, w: seq<Packet>, u: seq<Packet>, a: Action)
    requires Local(e) && Enabled(e, u, a) && !FromStream(a) && !a.ReadPacket?
    ensures EndpointWork(Apply(e, u, a)) + WireWork(w + Output(e, a), e.isClient)
            < EndpointWork(e) + WireWork(w, e.isClient)
  {
    if Output(e, a) == [] {
      assert w + Output(e, a) == w;
    } else {
      assert Output(e, a) == [Output(e, a)[0]];
      WireWorkSnoc(w, Output(e, a)[0], e.isClient);
    }
  }

  /** One action of an endpoint spends more than it leaves to others. */
  lemma StepSpendsWork(e: Endpoint, f: Endpoint, w: seq<Packet>, u: seq<Packet>, a: Action)
    requires Local(e) && e.isClient != f.isClient && Enabled(e, u, a) && !FromStream(a)
    ensures EndpointWork(Apply(e, u, a)) + WireWork(w + Output(e, a), e.isClient) + WireWork(Rest(u, a), f.isClient)
            < EndpointWork(e) + WireWork(w, e.isClient) + WireWork(u, f.isClient)
  {
    if a.ReadPacket? {
      assert w + Output(e, a) == w;
      ReadSpendsWork(e, f, w, u);
    } else {
      WriteSpendsWork(e, w, u, a);
    }
  }

  /** A turn of a reader or a writer, or the server's turn to the next session. */
  predicate Turn(step: Step) {
    match step
    case Client(a) => !FromStream(a)
    case Server(a) => !FromStream(a)
    case AcceptSession => true
    case OpenSession(_) => false
  }

  lemma BothLocal(y: System)
    requires Inv(y)
    ensures Local(y.c) && Local(y.s) && y.c.isClient && !y.s.isClient
  {
    hide Wire, AckPlace, CloseConserved;
    if !InStep(y) {
      var past, before, ack, after :| Ahead(y, past, before, ack, after);
    }
  }

  lemma AcceptSpendsWork(y: System)
    requires Inv(y) && CanStep(y, AcceptSession)
    ensures Work(Next(y, AcceptSession)) < Work(y)
  {
    hide Session;
    AcceptKeepsInv(y);
  }

  /** Whatever session the two are in, a turn lowers the work left. */
  lemma TurnSpendsWork(y: System, step: Step)
    requires Inv(y) && CanStep(y, step) && Turn(step)
    ensures Work(Next(y, step)) < Work(y)
  {
    hide Inv;
    BothLocal(y);
    match step
    case Client(a) => StepSpendsWork(y.c, y.s, y.cs, y.sc, a);
    case Server(a) => StepSpendsWork(y.s, y.c, y.sc, y.cs, a);
    case AcceptSession => AcceptSpendsWork(y);
  }

  /** A push adds one pack's work, a closing stream none. */
  lemma StreamAddsWork(e: Endpoint, w: seq<Packet>, u: seq<Packet>, a: Action)
    requires Enabled(e, u, a) && FromStream(a)
    ensures EndpointWork(Apply(e, u, a)) == EndpointWork(e) + if a.Push? then 3 else 0
    ensures w + Output(e, a) == w && Rest(u, a) == u
  {
  }

  function Turns(steps: seq<Step>): nat {
    if steps == [] then 0 else ToNat(Turn(steps[0])) + Turns(steps[1..])
  }

  predicate IsPush(step: Step) {
    (step.Client? || step.Server?) && step.a.Push?
  }

  function Pushes(steps: seq<Step>): nat {
    if steps == [] then 0 else ToNat(IsPush(steps[0])) + Pushes(steps[1..])
  }

  /** One step of the endpoints, be it a turn or the stream's. */
  lemma StepWork(y: System, step: Step)
    requires Inv(y) && CanStep(y, step) && !step.OpenSession?
    ensures ToNat(Turn(step)) + Work(Next(y, step)) <= Work(y) + 3 * ToNat(IsPush(step))
  {
    hide Inv;
    if Turn(step) {
      TurnSpendsWork(y, step);
    } else if step.Client? {
      StreamAddsWork(y.c, y.cs, y.sc, step.a);
    } else {
      StreamAddsWork(y.s, y.sc, y.cs, step.a);
    }
  }

  /** Until the client opens another session, readers and writers act at most as often as the
      work left and the packs pushed meanwhile allow, however they and the streams interleave. */
  lemma {:induction false} TurnsAreBounded(y: System, steps: seq<Step>, z: System)
    requires Inv(y) && ConnectionReuse.Runs(y, steps, z)
    requires forall step <- steps :: !step.OpenSession?
    ensures Inv(z) && Turns(steps) + Work(z) <= Work(y) + 3 * Pushes(steps)
    decreases steps
  {
    hide Inv, Work;
    if steps == [] {
    } else {
      assert steps[0] in steps;
      assert forall step <- steps[1..] :: step in steps;
      StepWork(y, steps[0]);
      NextKeepsInv(y, steps[0]);
      TurnsAreBounded(Next(y, steps[0]), steps[1..], z);
    }
  }

  // ----- after a noted Close -----

  /** The writing loop is over, or will be at its next check. */
  predicate Ending(e: Endpoint) {
    PastPumping(e) || e.writer.WritingClose? || (e.writer.Pumping? && e.peerClose.Some?)
  }

  predicate WritesData(step: Step, byClient: bool) {
    if byClient then step == Client(WriteData) else step == Server(WriteData)
  }

  function DataWrites(steps: seq<Step>, byClient: bool): nat {
    if steps == [] then 0 else ToNat(WritesData(steps[0], byClient)) + DataWrites(steps[1..], byClient)
  }

  function Side(y: System, client: bool): Endpoint {
    if client then y.c else y.s
  }

  lemma EndingStays(e: Endpoint, u: seq<Packet>, a: Action)
    requires Ending(e) && Enabled(e, u, a) && !e.reader.AwaitAck?
    ensures Ending(Apply(e, u, a)) && !Apply(e, u, a).reader.AwaitAck?
    ensures ToNat(a == WriteData) + ToNat(Apply(e, u, a).writer == Pumping(true)) <= ToNat(e.writer == Pumping(true))
  {
  }

  /** Once a peer's Close is noted, its endpoint writes at most one more pack in the session,
      however many are pushed. */
  lemma {:induction false} OneMorePack(y: System, steps: seq<Step>, z: System, client: bool)
    requires ConnectionReuse.Runs(y, steps, z)
    requires forall step <- steps :: step.Client? || step.Server?
    requires Ending(Side(y, client)) && !Side(y, client).reader.AwaitAck?
    ensures DataWrites(steps, client) <= ToNat(Side(y, client).writer == Pumping(true)) <= 1
    decreases steps
  {
    if steps == [] {
    } else {
      assert steps[0] in steps;
      assert forall step <- steps[1..] :: step in steps;
      if steps[0].Client? == client {
        EndingStays(Side(y, client), if client then y.sc else y.cs, steps[0].a);
      }
      OneMorePack(Next(y, steps[0]), steps[1..], z, client);
    }
  }

  // ----- nothing is stuck -----

  ghost predicate Stuck(e: Endpoint, u: seq<Packet>) {
    forall a :: Enabled(e, u, a) ==> FromStream(a)
  }

  /** An endpoint that can do nothing is pumping an empty open queue, waiting for its reader, or
      through. */
  lemma StuckShape(e: Endpoint, u: seq<Packet>)
    requires Stuck(e, u)
    ensures e.reader.Reading? || e.reader.AwaitAck? ==> u == []
    ensures !e.writer.OweAck? && !e.writer.WritingClose? && !e.writer.Echoing?
    ensures e.writer.Pumping? ==> e.queue == [] && !e.queueClosed && e.peerClose.None?
    ensures e.writer.Waiting? ==> e.peerClose.None? && e.closeNum < 2
  {
    assert !Enabled(e, u, ReadPacket) && !Enabled(e, u, WriteAck) && !Enabled(e, u, FinishClose);
    assert !Enabled(e, u, Check) && !Enabled(e, u, RecvTimeout);
    assert !Enabled(e, u, FinishEcho) && !Enabled(e, u, WriteData) && !Enabled(e, u, SeePeerClose);
    assert !Enabled(e, u, StartClose) && !Enabled(e, u, TakeEcho) && !Enabled(e, u, Finish);
  }

  lemma BothStuckMeansDone(e: Endpoint, f: Endpoint, w: seq<Packet>, u: seq<Packet>)
    requires Session(e, f, w, u) && e.queueClosed
    requires Stuck(e, u) && Stuck(f, w)
    ensures e.writer.Done? && f.writer.Done?
  {
    StuckShape(e, u);
    StuckShape(f, w);
    assert !e.writer.Blocked?;
    assert w == [] && u == [];
  }

  lemma InStepNotStuck(y: System) returns (step: Step)
    requires InStep(y) && (y.c.queueClosed || y.s.queueClosed)
    requires !(y.c.writer.Done? && y.s.writer.Done?)
    ensures CanStep(y, step) && Turn(step) && !step.AcceptSession?
  {
    if !Stuck(y.c, y.sc) {
      var a :| Enabled(y.c, y.sc, a) && !FromStream(a);
      step := Client(a);
    } else if !Stuck(y.s, y.cs) {
      var a :| Enabled(y.s, y.cs, a) && !FromStream(a);
      step := Server(a);
    } else {
      if y.c.queueClosed {
        BothStuckMeansDone(y.c, y.s, y.cs, y.sc);
      } else {
        BothStuckMeansDone(y.s, y.c, y.sc, y.cs);
      }
      step := AcceptSession;
    }
  }

  /** The server's end of a session the client has left: something to read, or the last check. */
  lemma LeftBehindActs(past: Endpoint, s: Endpoint, before: seq<Packet>, cs: seq<Packet>)
    requires Session(past, s, before, []) && past.writer.Done? && !s.writer.Done? && cs != []
    ensures Enabled(s, cs, ReadPacket) || Enabled(s, cs, Finish)
  {
    FinishedIsClean(past, s, before, []);
  }

  /** A server that is a session behind can act on, or accept the next session. */
  lemma AheadNotStuck(y: System) returns (step: Step)
    requires ClientAhead(y)
    ensures CanStep(y, step) && Turn(step) && !step.Client?
  {
    hide Session;
    var past, before, ack, after :| Ahead(y, past, before, ack, after);
    if y.s.writer.Done? {
      NobodyFailed(past, y.s, before, []);
      step := AcceptSession;
    } else {
      LeftBehindActs(past, y.s, before, y.cs);
      step := Server(if Enabled(y.s, y.cs, ReadPacket) then ReadPacket else Finish);
    }
  }

  /** Over any number of sessions: no state is stuck in which a side's queue is closed, or the
      client is a session ahead, and not both sides are done. */
  lemma NotStuck(y: System) returns (step: Step)
    requires Reachable(y) && (y.c.queueClosed || y.s.queueClosed || !InStep(y))
    requires !(y.c.writer.Done? && y.s.writer.Done?)
    ensures CanStep(y, step) && Turn(step)
  {
    hide Session;
    ReachableInv(y);
    if InStep(y) {
      step := InStepNotStuck(y);
    } else {
      step := AheadNotStuck(y);
    }
  }

  // ----- and both get to the end -----

  lemma StaysInStep(y: System, step: Step)
    requires InStep(y) && CanStep(y, step) && (step.Client? || step.Server?)
    ensures InStep(Next(y, step))
  {
    hide Session;
    match step
    case Client(a) => StepKeepsSession(y.c, y.s, y.cs, y.sc, a);
    case Server(a) =>
      Mirror(y.c, y.s, y.cs, y.sc);
      StepKeepsSession(y.s, y.c, y.sc, y.cs, a);
      Mirror(Apply(y.s, y.cs, a), y.c, y.sc + Output(y.s, a), Rest(y.cs, a));
  }

  lemma QueueStaysClosed(e: Endpoint, u: seq<Packet>, a: Action)
    requires Enabled(e, u, a) && !FromStream(a)
    ensures Apply(e, u, a).queueClosed == e.queueClosed
  {
  }

  lemma QueuesStayClosed(y: System, step: Step)
    requires CanStep(y, step) && Turn(step)
    ensures Next(y, step).c.queueClosed == y.c.queueClosed
    ensures !step.AcceptSession? ==> Next(y, step).s.queueClosed == y.s.queueClosed
  {
    match step
    case Client(a) => QueueStaysClosed(y.c, y.sc, a);
    case Server(a) => QueueStaysClosed(y.s, y.cs, a);
    case AcceptSession =>
  }

  lemma DoneMeansTwo(y: System)
    requires InStep(y) && y.c.writer.Done? && y.s.writer.Done?
    ensures y.c.closeNum == 2 && y.s.closeNum == 2
  {
  }

  ghost predicate BothDone(y: System) {
    InStep(y) && y.c.writer.Done? && y.s.writer.Done? && y.c.closeNum == y.s.closeNum == 2
  }

  lemma {:induction false} InStepFinishes(y: System) returns (steps: seq<Step>, z: System)
    requires InStep(y) && (y.c.queueClosed || y.s.queueClosed)
    ensures ConnectionReuse.Runs(y, steps, z) && |steps| <= Work(y)
    ensures (forall step <- steps :: Turn(step)) && BothDone(z)
    decreases Work(y)
  {
    hide Session;
    if y.c.writer.Done? && y.s.writer.Done? {
      steps, z := [], y;
      DoneMeansTwo(y);
    } else {
      var first := InStepNotStuck(y);
      TurnSpendsWork(y, first);
      StaysInStep(y, first);
      QueuesStayClosed(y, first);
      steps, z := InStepFinishes(Next(y, first));
      steps := [first] + steps;
    }
  }

  /** A server that is a session behind catches up by its own turns. */
  lemma {:induction false} CatchesUp(y: System) returns (steps: seq<Step>, z: System)
    requires Inv(y)
    ensures ConnectionReuse.Runs(y, steps, z) && |steps| + Work(z) <= Work(y)
    ensures (forall step <- steps :: Turn(step)) && InStep(z) && z.c.queueClosed == y.c.queueClosed
    decreases Work(y)
  {
    hide Session, Work;
    if InStep(y) {
      steps, z := [], y;
    } else {
      var first := AheadNotStuck(y);
      TurnSpendsWork(y, first);
      NextKeepsInv(y, first);
      QueuesStayClosed(y, first);
      steps, z := CatchesUp(Next(y, first));
      steps := [first] + steps;
    }
  }

  /** From every reachable state in which the client has closed, or the server has in the session
      both are in, readers and writers alone bring both sides to the end. */
  lemma Finishes(y: System) returns (steps: seq<Step>, z: System)
    requires Reachable(y) && (y.c.queueClosed || (InStep(y) && y.s.queueClosed))
    ensures ConnectionReuse.Runs(y, steps, z) && |steps| <= Work(y)
    ensures (forall step <- steps :: Turn(step)) && BothDone(z)
  {
    hide Session, Work;
    ReachableInv(y);
    if InStep(y) {
      steps, z := InStepFinishes(y);
    } else {
      var before, mid := CatchesUp(y);
      steps, z := InStepFinishes(mid);
      RunsConcat(y, before, mid, steps, z);
      steps := before + steps;
    }
  }
}
