/** Progress of a striped stream: after the writer has closed, the reader gets every pack and
    then the end of the stream, unless the writing side keeps a connection that came too late. */
module StripingProgress {
  import opened Basics
  import opened Striping

  function StageWork(stage: Stage): nat {
    match stage
    case Unattached => 4
    case Greeted => 3
    case Reading => 2
    case Ending => 1
    case Gone => 0
  }

  function ConnsWork(conns: seq<Conn>): nat {
    if conns == [] then 0
    else 5 * |conns[0].queue| + StageWork(conns[0].stage) + ConnsWork(conns[1..])
  }

  function ReceiverWork(r: R.Receiver): nat {
    |r.cache| + (if r.hand.Some? then 1 else 0) + (if r.draining then 2 else 0)
    + (if r.eos then 0 else if r.finishing then 1 else 5)
  }

  function Work(s: State): nat {
    ConnsWork(s.conns) + 4 * |s.chan| + ReceiverWork(s.r)
  }

  lemma {:induction false} ConnsWorkUpdate(conns: seq<Conn>, x: nat, c: Conn)
    requires x < |conns|
    ensures ConnsWork(conns[x := c]) + 5 * |conns[x].queue| + StageWork(conns[x].stage)
            == ConnsWork(conns) + 5 * |c.queue| + StageWork(c.stage)
  {
    if x == 0 {
      assert conns[x := c][1..] == conns[1..];
    } else {
      assert conns[x := c][1..] == conns[1..][x - 1 := c];
      ConnsWorkUpdate(conns[1..], x - 1, c);
    }
  }

  /** The steps that carry the stream to its end. */
  predicate Forward(a: Action) {
    a.AttachFounder? || a.StartReader? || a.Arrive? || a.EndReader? || a.EndSession? || a.Refuse? || a.Receive?
    || (a.Receiver? && (a.ra.RecvClosed? || a.ra.Accept? || a.ra.DrainEnd? || a.ra.EndOfStream?))
  }

  ghost predicate AllCarrying(s: State) {
    forall x: nat :: IsConn(s, x) ==> s.conns[x].carrying
  }

  /** No connection that came too late is kept. */
  ghost predicate NoneKept(s: State) {
    s.keepsLate ==> AllCarrying(s)
  }

  /** The writer has closed, and every connection has joined before that or is refused. */
  ghost predicate Closing(s: State) {
    Inv(s) && s.roundClosed && NoneKept(s)
  }

  lemma ReceiverStepWork(r: R.Receiver, a: R.Action)
    requires R.Enabled(r, a) && (a.RecvClosed? || a.Accept? || a.DrainEnd? || a.EndOfStream?)
    requires r.eos ==> r.finishing && !r.draining
    ensures ReceiverWork(R.Apply(r, a)) < ReceiverWork(r)
  {
    if a.Accept? && r.hand.None? {
      RemovalShrinks(r.cache, r.packId);
    }
  }

  lemma RecvWork(r: R.Receiver, p: Pack)
    requires R.Enabled(r, R.Recv(p)) && r.hand.None?
    ensures ReceiverWork(R.Apply(r, R.Recv(p))) <= ReceiverWork(r) + 3
  {
    if p.id !in r.cache {
      InsertionGrows(r.cache, p.id, p);
    }
  }

  lemma ForwardSpendsWork(s: State, a: Action)
    requires Inv(s) && Enabled(s, a) && Forward(a)
    ensures Work(Apply(s, a)) < Work(s)
  {
    match a
    case AttachFounder => ConnsWorkUpdate(s.conns, 0, s.conns[0].(stage := Greeted));
    case StartReader(x) => ConnsWorkUpdate(s.conns, x, s.conns[x].(stage := Reading));
    case Arrive(x) => ConnsWorkUpdate(s.conns, x, s.conns[x].(queue := s.conns[x].queue[1..]));
    case EndReader(x) => ConnsWorkUpdate(s.conns, x, s.conns[x].(stage := Ending));
    case EndSession(x) => ConnsWorkUpdate(s.conns, x, s.conns[x].(stage := Gone));
    case Refuse(x) => ConnsWorkUpdate(s.conns, x, s.conns[x].(stage := Gone));
    case Receive => RecvWork(s.r, s.chan[0]);
    case Receiver(ra) => ReceiverStepWork(s.r, ra);
  }

  lemma ForwardKeepsClosing(s: State, a: Action)
    requires Closing(s) && Enabled(s, a) && Forward(a)
    ensures Closing(Apply(s, a)) && Apply(s, a).written == s.written
  {
    StepKeepsInv(s, a);
  }

  /** A connection that is not over can take a step. */
  lemma ConnNotStuck(s: State, x: nat) returns (a: Action)
    requires Closing(s) && IsConn(s, x) && !s.conns[x].stage.Gone?
    ensures Enabled(s, a) && Forward(a)
  {
    assert ConnInv(s, x);
    match s.conns[x].stage
    case Unattached => a := AttachFounder;
    case Greeted => a := StartReader(x);
    case Reading =>
      a := if !s.conns[x].carrying then Refuse(x) else if s.conns[x].queue != [] then Arrive(x) else EndReader(x);
    case Ending => a := EndSession(x);
  }

  lemma LiveMeansNotGone(s: State, h: nat)
    requires Connections(s) && h in s.att.live
    ensures IsConn(s, h / 2) && !s.conns[h / 2].stage.Gone?
  {
    assert ConnInv(s, h / 2);
    assert h == HelloHandle(h / 2) || h == ReaderHandle(h / 2);
  }

  /** When all connections are over, the channel is closed. */
  lemma AllGoneMeansClosed(s: State)
    requires Connections(s) && HasClosed(s)
    requires forall x: nat :: IsConn(s, x) ==> s.conns[x].stage.Gone?
    ensures s.att.isClose
  {
    if h :| h in s.att.live {
      LiveMeansNotGone(s, h);
    }
  }

  /** A channel that had a connection and has none left is closed. */
  ghost predicate HasClosed(s: State) {
    s.att.live == {} ==> s.att.isClose || (|s.conns| > 0 && s.conns[0].stage.Unattached?)
  }

  lemma StepKeepsHasClosed(s: State, a: Action)
    requires Inv(s) && HasClosed(s) && Enabled(s, a)
    ensures HasClosed(Apply(s, a))
  {
    match a
    case AttachFounder => assert HelloHandle(0) in Apply(s, a).att.live;
    case AttachNew => assert HelloHandle(|s.conns|) in Apply(s, a).att.live;
    case StartReader(x) => assert ReaderHandle(x) in Apply(s, a).att.live;
    case EndReader(x) => A.StepKeepsInv(s.att, A.Drop(ReaderHandle(x)));
    case EndSession(x) => A.StepKeepsInv(s.att, A.Drop(HelloHandle(x)));
    case Refuse(x) => A.StepKeepsInv(A.Apply(s.att, A.Drop(ReaderHandle(x))), A.Drop(HelloHandle(x)));
    case _ =>
  }

  lemma {:induction false} RunKeepsHasClosed(s: State, acts: seq<Action>, t: State)
    requires Inv(s) && HasClosed(s) && Runs(s, acts, t) && |t.written| < ID_MODULUS
    ensures HasClosed(t)
    decreases acts
  {
    hide HasClosed, Inv;
    if acts == [] {
    } else {
      WrittenGrows(Apply(s, acts[0]), acts[1..], t);
      StepKeepsInv(s, acts[0]);
      StepKeepsHasClosed(s, acts[0]);
      RunKeepsHasClosed(Apply(s, acts[0]), acts[1..], t);
    }
  }

  lemma NotStuck(s: State) returns (a: Action)
    requires Closing(s) && HasClosed(s) && !s.r.eos
    ensures Enabled(s, a) && Forward(a)
  {
    if x: nat :| IsConn(s, x) && !s.conns[x].stage.Gone? {
      a := ConnNotStuck(s, x);
    } else {
      AllGoneMeansClosed(s);
      if s.r.draining {
        a := Receiver(if s.r.hand.Some? || s.r.packId in s.r.cache then R.Accept else R.DrainEnd);
      } else if s.r.finishing {
        a := Receiver(R.EndOfStream);
      } else {
        a := if s.chan != [] then Receive else Receiver(R.RecvClosed);
      }
    }
  }

  lemma {:induction false} Finishes(s: State) returns (acts: seq<Action>, t: State)
    requires Closing(s) && HasClosed(s)
    ensures Runs(s, acts, t) && |acts| <= Work(s) && t.r.eos && t.written == s.written
    decreases Work(s)
  {
    hide Closing, HasClosed, Work;
    if s.r.eos {
      acts, t := [], s;
    } else {
      var a := NotStuck(s);
      assert Inv(s) by {
        ClosingInv(s);
      }
      ForwardSpendsWork(s, a);
      ForwardKeepsClosing(s, a);
      StepKeepsHasClosed(s, a);
      acts, t := Finishes(Apply(s, a));
      acts := [a] + acts;
    }
  }

  lemma ClosingInv(s: State)
    requires Closing(s)
    ensures Inv(s)
  {
  }

  lemma ReachableHasClosed(s: State)
    requires Reachable(s) && |s.written| < ID_MODULUS
    ensures HasClosed(s)
  {
    var keepsLate, before :| Runs(Initial(keepsLate), before, s);
    assert ConnInv(Initial(keepsLate), 0);
    RunKeepsHasClosed(Initial(keepsLate), before, s);
  }

  /** From every reachable state in which the writer has closed and no late connection is kept,
      the reader can be brought to the end of the stream with every pack received. */
  lemma StripedFinishes(s: State) returns (acts: seq<Action>, t: State)
    requires Reachable(s) && |s.written| < ID_MODULUS
    requires s.roundClosed && NoneKept(s)
    ensures Runs(s, acts, t) && t.r.eos && t.written == s.written
    ensures t.r.toStream == FirstPacks(s.written, |s.written|)
  {
    hide Reachable, Runs, Inv;
    ReachableInv(s);
    ReachableHasClosed(s);
    acts, t := Finishes(s);
    ReachableOn(s, acts, t);
    StripedComplete(t);
  }

  // ----- a connection that comes too late to join -----

  /** The receiver has attached connection `x`, the writer closed before it joined, and the
      writing side keeps it: it can neither join nor be ended. */
  ghost predicate Straggler(s: State, x: nat) {
    s.roundClosed && s.keepsLate && IsConn(s, x) && !s.conns[x].carrying
  }

  /** As long as there is one, the receiver's channel stays open. */
  lemma StragglerBlocks(s: State, x: nat)
    requires Inv(s) && Straggler(s, x)
    ensures !s.att.isClose && !s.r.finishing && !s.r.eos
  {
    assert ConnInv(s, x);
    if s.att.isClose {
      ClosedMeansOver(s, x);
    }
  }

  lemma {:induction false} StragglerStays(s: State, x: nat, acts: seq<Action>, t: State)
    requires Straggler(s, x) && Runs(s, acts, t)
    ensures Straggler(t, x) && t.written == s.written
    decreases acts
  {
    if acts == [] {
    } else {
      StragglerStays(Apply(s, acts[0]), x, acts[1..], t);
    }
  }

  /** The stream can end from `s` with every pack received. */
  ghost predicate CanFinish(s: State) {
    exists acts, t ::
      Runs(s, acts, t) && t.r.eos && t.written == s.written && t.r.toStream == FirstPacks(s.written, |s.written|)
  }

  /** With a straggler no run whatever ends the stream. */
  lemma StragglerStalls(s: State, x: nat, acts: seq<Action>, t: State)
    requires Reachable(s) && |s.written| < ID_MODULUS && Straggler(s, x) && Runs(s, acts, t)
    ensures !t.r.eos
  {
    ReachableInv(s);
    StragglerStays(s, x, acts, t);
    RunKeepsInv(s, acts, t);
    StragglerBlocks(t, x);
  }

  /** After the writer has closed, the reader can get every pack and the end of the stream if and
      only if every connection had joined before the close or the writing side keeps none that
      had not. */
  lemma FinishesIffNoneKept(s: State)
    requires Reachable(s) && |s.written| < ID_MODULUS && s.roundClosed
    ensures CanFinish(s) <==> (s.keepsLate ==> AllCarrying(s))
  {
    if NoneKept(s) {
      var acts, t := StripedFinishes(s);
    } else {
      var x: nat :| IsConn(s, x) && !s.conns[x].carrying;
      forall acts, t | Runs(s, acts, t) ensures !t.r.eos {
        StragglerStalls(s, x, acts, t);
      }
    }
  }

  const LATE_JOIN: seq<Action> := [AttachFounder, AttachNew, StartReader(1), CloseRound]

  /** A second connection is attached, and the writer closes before it joins: with a client that
      pools its connections the stream never ends, with any other writing side it can. */
  lemma LateJoin(keepsLate: bool) returns (s: State)
    ensures Runs(Initial(keepsLate), LATE_JOIN, s) && Reachable(s) && s.written == []
    ensures CanFinish(s) <==> !keepsLate
  {
    var s0 := Initial(keepsLate);
    var s1 := Apply(s0, AttachFounder);
    var s2 := Apply(s1, AttachNew);
    var s3 := Apply(s2, StartReader(1));
    s := Apply(s3, CloseRound);
    assert Runs(s3, LATE_JOIN[3..], s);
    assert LATE_JOIN[2..][1..] == LATE_JOIN[3..] && Runs(s2, LATE_JOIN[2..], s);
    assert LATE_JOIN[1..][1..] == LATE_JOIN[2..] && Runs(s1, LATE_JOIN[1..], s);
    assert Runs(s0, LATE_JOIN, s);
    LateJoinIsLate(s);
  }

  lemma LateJoinIsLate(s: State)
    requires Reachable(s) && s.roundClosed && s.written == [] && IsConn(s, 1) && !s.conns[1].carrying
    ensures CanFinish(s) <==> !s.keepsLate
  {
    FinishesIffNoneKept(s);
  }
}
