/** The early return: a client that has its hello ack finds the round closed and leaves the session
    without the close handshake, and the connection goes back to the pool while the server still
    reads the session.  Such a connection serves no further session. */
module EarlyReturn {
  import opened Basics
  import opened CloseHandshake
  import opened ConnectionReuse
  import opened CloseProgress

  /** `gaveUp`: the client has left a session this way. */
  datatype World = World(y: System, gaveUp: bool)

  datatype Move = Ordinary(step: Step) | GiveUp

  const START := World(INITIAL, false)

  predicate CanMove(w: World, m: Move) {
    match m
    case Ordinary(step) => CanStep(w.y, step)
    // the ack is there, and the round was closed meanwhile
    case GiveUp =>
      w.y.c.reader.AwaitAck? && w.y.sc != [] && w.y.sc[0].HelloAck?
  }

  /** The client reads the ack, finds the round closed, and is done. */
  function Moved(w: World, m: Move): World
    requires CanMove(w, m)
  {
    match m
    case Ordinary(step) => w.(y := Next(w.y, step))
    case GiveUp =>
      var c := w.y.c.(reader := ReadDone, writer := Done, read := w.y.c.read + [HelloAck]);
      World(w.y.(c := c, sc := w.y.sc[1..]), true)
  }

  ghost predicate Moves(w: World, ms: seq<Move>, v: World)
    decreases ms
  {
    if ms == [] then w == v
    else CanMove(w, ms[0]) && Moves(Moved(w, ms[0]), ms[1..], v)
  }

  ghost predicate Reached(w: World) {
    exists ms :: Moves(START, ms, w)
  }

  /** The server is left in a session that no Close will end: it reads, with nothing on the wire or
      the next Hello first, or has rejected that Hello. */
  ghost predicate Abandoned(y: System) {
    && y.c.isClient && !y.s.isClient
    && y.s.peerClose.None? && y.s.closeNum == ToNat(PastPumping(y.s))
    && (y.s.writer.Pumping? || y.s.writer.WritingClose? || y.s.writer.Waiting?)
    && (y.s.reader.Failed? || (y.s.reader.Reading? && (if y.cs == [] then Left(y.c) else y.cs[0].Hello?)))
  }

  predicate Left(c: Endpoint) {
    c.writer.Done? && c.reader.ReadDone?
  }

  ghost predicate WorldInv(w: World) {
    if w.gaveUp then Abandoned(w.y) else Inv(w.y)
  }

  lemma GiveUpAbandons(w: World)
    requires Inv(w.y) && CanMove(w, GiveUp)
    ensures Abandoned(Moved(w, GiveUp).y)
  {
    AheadHearsNothing(w.y);
  }

  lemma AheadHearsNothing(y: System)
    ensures ClientAhead(y) ==> y.sc == []
  {
  }

  lemma AbandonedClientSteps(y: System, a: Action)
    requires Abandoned(y) && CanStep(y, Client(a))
    ensures Abandoned(Next(y, Client(a)))
  {
    assert y.cs == [] && y.s.reader.Reading? ==> Output(y.c, a) == [];
  }

  lemma AbandonedServerSteps(y: System, a: Action)
    requires Abandoned(y) && CanStep(y, Server(a))
    ensures Abandoned(Next(y, Server(a)))
  {
  }

  lemma AbandonedStays(y: System, step: Step)
    requires Abandoned(y) && CanStep(y, step)
    ensures Abandoned(Next(y, step)) && !step.AcceptSession?
  {
    match step
    case Client(a) => AbandonedClientSteps(y, a);
    case Server(a) => AbandonedServerSteps(y, a);
    case OpenSession(_) =>
    case AcceptSession =>
  }

  lemma MoveKeepsInv(w: World, m: Move)
    requires WorldInv(w) && CanMove(w, m)
    ensures WorldInv(Moved(w, m)) && (w.gaveUp ==> Moved(w, m).gaveUp && m != Ordinary(AcceptSession))
  {
    hide Inv, Abandoned;
    match m
    case GiveUp =>
      if w.gaveUp {
        AbandonedNoGiveUp(w);
      } else {
        GiveUpAbandons(w);
      }
    case Ordinary(step) =>
      if w.gaveUp {
        AbandonedStays(w.y, step);
      } else {
        NextKeepsInv(w.y, step);
      }
  }

  /** A second client may give up on the same connection; it is abandoned all the same. */
  lemma AbandonedNoGiveUp(w: World)
    requires Abandoned(w.y) && CanMove(w, GiveUp)
    ensures Abandoned(Moved(w, GiveUp).y)
  {
  }

  lemma {:induction false} MovesKeepInv(w: World, ms: seq<Move>, v: World)
    requires WorldInv(w) && Moves(w, ms, v)
    ensures WorldInv(v) && (w.gaveUp ==> Ordinary(AcceptSession) !in ms)
    decreases ms
  {
    hide WorldInv, CanMove, Moved;
    if ms == [] {
    } else {
      MoveKeepsInv(w, ms[0]);
      MovesKeepInv(Moved(w, ms[0]), ms[1..], v);
    }
  }

  /** The connection can serve another session: some continuation has the server take it up. */
  ghost predicate Reusable(w: World) {
    exists ms, v :: Moves(w, ms, v) && Ordinary(AcceptSession) in ms
  }

  lemma CanCloseOne(y: System)
    requires InStep(y) && !(y.c.writer.Done? && y.s.writer.Done?) && !y.c.queueClosed && !y.s.queueClosed
    ensures CanStep(y, Client(CloseQueue)) || CanStep(y, Server(CloseQueue))
  {
  }

  /** A stream of either side can be closed as long as the session runs. */
  lemma CanClose(y: System) returns (steps: seq<Step>, z: System)
    requires InStep(y) && !(y.c.writer.Done? && y.s.writer.Done?)
    ensures ConnectionReuse.Runs(y, steps, z) && InStep(z) && (z.c.queueClosed || z.s.queueClosed)
  {
    hide Session;
    if y.c.queueClosed || y.s.queueClosed {
      steps, z := [], y;
    } else {
      CanCloseOne(y);
      var step := if CanStep(y, Client(CloseQueue)) then Client(CloseQueue) else Server(CloseQueue);
      StaysInStep(y, step);
      steps, z := [step], Next(y, step);
      assert [step][1..] == [];
    }
  }

  /** From any state of the ordinary handshake both sides can come to the end of a session. */
  lemma CanEnd(y: System) returns (steps: seq<Step>, z: System)
    requires Inv(y)
    ensures ConnectionReuse.Runs(y, steps, z) && InStep(z) && z.c.writer.Done? && z.s.writer.Done?
  {
    hide Session;
    steps, z := CatchesUp(y);
    if !(z.c.writer.Done? && z.s.writer.Done?) {
      var closing, mid := CanClose(z);
      var rest, last := InStepFinishes(mid);
      RunsConcat(z, closing, mid, rest, last);
      RunsConcat(y, steps, z, closing + rest, last);
      steps, z := steps + (closing + rest), last;
    }
  }

  /** Two ended sides take up another session. */
  lemma TakesUp(z: System) returns (steps: seq<Step>, last: System)
    requires InStep(z) && z.c.writer.Done? && z.s.writer.Done?
    ensures ConnectionReuse.Runs(z, steps, last) && AcceptSession in steps
  {
    BothFinished(z.c, z.s, z.cs, z.sc);
    NobodyFailed(z.c, z.s, z.cs, z.sc);
    var mid := Next(z, OpenSession(false));
    last := Next(mid, AcceptSession);
    steps := [OpenSession(false), AcceptSession];
    assert steps[1..] == [AcceptSession] && steps[1..][1..] == [];
    assert ConnectionReuse.Runs(mid, steps[1..], last);
  }

  lemma {:induction false} StepsAmongMoves(w: World, steps: seq<Step>, z: System) returns (ms: seq<Move>)
    requires ConnectionReuse.Runs(w.y, steps, z)
    ensures Moves(w, ms, w.(y := z))
    ensures AcceptSession in steps ==> Ordinary(AcceptSession) in ms
    decreases steps
  {
    if steps == [] {
      ms := [];
    } else {
      ms := StepsAmongMoves(w.(y := Next(w.y, steps[0])), steps[1..], z);
      ms := [Ordinary(steps[0])] + ms;
    }
  }

  /** For every state of a connection whose clients may leave early: it can serve another session
      if and only if no client has. */
  lemma ReusableIff(w: World)
    requires Reached(w)
    ensures Reusable(w) <==> !w.gaveUp
  {
    hide Session, Inv, Abandoned;
    var ms :| Moves(START, ms, w);
    assert Inv(START.y) by {
      StartInv();
    }
    MovesKeepInv(START, ms, w);
    if w.gaveUp {
      forall more, v | Moves(w, more, v) ensures Ordinary(AcceptSession) !in more {
        MovesKeepInv(w, more, v);
      }
    } else {
      var steps, z := CanEnd(w.y);
      var rest, last := TakesUp(z);
      RunsConcat(w.y, steps, z, rest, last);
      var more := StepsAmongMoves(w, steps + rest, last);
    }
  }

  lemma StartInv()
    ensures Inv(INITIAL)
  {
    IdleSession();
  }

  /** The input: a session with a hello ack whose client leaves early; the connection's next Hello
      reaches a server that must reject it. */
  lemma NextHelloIsRejected() returns (ms: seq<Move>, w: World)
    ensures Moves(START, ms, w) && w.gaveUp && w.y.s.reader.Failed?
  {
    var w1 := Moved(START, Ordinary(OpenSession(true)));
    var w2 := Moved(w1, Ordinary(AcceptSession));
    var w3 := Moved(w2, Ordinary(Server(WriteAck)));
    var w5 := Moved(w3, GiveUp);
    var w6 := Moved(w5, Ordinary(OpenSession(false)));
    w := Moved(w6, Ordinary(Server(ReadPacket)));
    ms := [Ordinary(Server(ReadPacket))];
    assert Moves(w6, ms, w);
    ms := [Ordinary(OpenSession(false))] + ms;
    assert Moves(w5, ms, w);
    ms := [GiveUp] + ms;
    assert Moves(w3, ms, w);
    ms := [Ordinary(Server(WriteAck))] + ms;
    assert Moves(w2, ms, w);
    ms := [Ordinary(AcceptSession)] + ms;
    assert Moves(w1, ms, w);
    ms := [Ordinary(OpenSession(true))] + ms;
    assert Moves(START, ms, w);
  }
}
