/** Striping with connections that fail: order survives any failure, completeness is for runs
    without one. */
module StripingFaults {
  import opened Basics
  import opened Striping

  datatype World = World(s: State, failed: bool)

  /** `Fail(x, closes)`: the session on connection `x` ends with an error.  What the connection
      carried is lost and its handles are dropped; `closes` tells whether the source also closes
      the peer client's channel, as it does after a timeout or once a pack has passed. */
  datatype FaultyAction = Step(a: Action) | Fail(x: nat, closes: bool)

  function Start(keepsLate: bool): World {
    World(Initial(keepsLate), false)
  }

  predicate CanAct(w: World, a: FaultyAction) {
    match a
    case Step(a) => Enabled(w.s, a)
    case Fail(x, _) => IsConn(w.s, x) && !w.s.conns[x].stage.Unattached? && !w.s.conns[x].stage.Gone?
  }

  /** Drops a handle if it is alive. */
  function Without(att: A.State, h: nat): A.State {
    if A.Enabled(att, A.Drop(h)) then A.Apply(att, A.Drop(h)) else att
  }

  function Act(w: World, a: FaultyAction): World
    requires CanAct(w, a)
  {
    match a
    case Step(a) => w.(s := Apply(w.s, a))
    case Fail(x, closes) =>
      var att := if closes then A.Apply(w.s.att, A.Close) else w.s.att;
      var gone := SetConn(w.s, x, w.s.conns[x].(queue := [], stage := Gone));
      World(gone.(att := Without(Without(att, ReaderHandle(x)), HelloHandle(x))), true)
  }

  ghost predicate FaultyRuns(w: World, acts: seq<FaultyAction>, v: World)
    decreases acts
  {
    if acts == [] then w == v
    else CanAct(w, acts[0]) && FaultyRuns(Act(w, acts[0]), acts[1..], v)
  }

  /** What order needs, and no failure breaks. */
  ghost predicate OrderInv(s: State) {
    && s.txPackId == |s.written|
    && R.Inv(s.r, s.written)
    && AllGenuine(s.chan, s.written)
    && (forall x: nat :: IsConn(s, x) ==> AllGenuine(s.conns[x].queue, s.written))
  }

  lemma WriteKeepsOrder(s: State, data: Bytes)
    requires OrderInv(s) && Enabled(s, Write(data)) && |s.written| + 1 < ID_MODULUS
    ensures OrderInv(Apply(s, Write(data)))
  {
    R.MoreWrittenKeepsInv(s.r, s.written, data);
  }

  /** The receiver's own steps leave the connections alone. */
  lemma ReceiverKeepsOrder(s: State, a: Action)
    requires OrderInv(s) && Enabled(s, a) && (a.Receive? || a.Receiver?)
    ensures OrderInv(Apply(s, a))
  {
    R.ApplyKeepsInv(s.r, if a.Receive? then R.Recv(s.chan[0]) else a.ra, s.written);
  }

  lemma ArriveKeepsOrder(s: State, x: nat)
    requires OrderInv(s) && Enabled(s, Arrive(x))
    ensures OrderInv(Apply(s, Arrive(x)))
  {
  }

  lemma StepKeepsOrder(s: State, a: Action)
    requires OrderInv(s) && Enabled(s, a) && |Apply(s, a).written| < ID_MODULUS
    ensures OrderInv(Apply(s, a))
  {
    hide R.Inv, AllGenuine;
    match a
    case Write(data) => WriteKeepsOrder(s, data);
    case Receive => ReceiverKeepsOrder(s, a);
    case Receiver(ra) => ReceiverKeepsOrder(s, a);
    case Arrive(x) => ArriveKeepsOrder(s, x);
    case AttachNew => NewKeepsOrder(s);
    case _ =>
  }

  lemma NewKeepsOrder(s: State)
    requires OrderInv(s) && Enabled(s, AttachNew)
    ensures OrderInv(Apply(s, AttachNew))
  {
  }

  lemma ActKeepsOrder(w: World, a: FaultyAction)
    requires OrderInv(w.s) && CanAct(w, a) && |Act(w, a).s.written| < ID_MODULUS
    ensures OrderInv(Act(w, a).s) && w.s.written <= Act(w, a).s.written
  {
    hide R.Inv;
    if a.Step? {
      StepKeepsOrder(w.s, a.a);
    }
  }

  lemma {:induction false} FaultyWrittenGrows(w: World, acts: seq<FaultyAction>, v: World)
    requires FaultyRuns(w, acts, v)
    ensures w.s.written <= v.s.written
    decreases acts
  {
    if acts == [] {
    } else {
      FaultyWrittenGrows(Act(w, acts[0]), acts[1..], v);
    }
  }

  lemma {:induction false} FaultyRunKeepsOrder(w: World, acts: seq<FaultyAction>, v: World)
    requires OrderInv(w.s) && FaultyRuns(w, acts, v) && |v.s.written| < ID_MODULUS
    ensures OrderInv(v.s)
    decreases acts
  {
    if acts == [] {
    } else {
      FaultyWrittenGrows(Act(w, acts[0]), acts[1..], v);
      ActKeepsOrder(w, acts[0]);
      FaultyRunKeepsOrder(Act(w, acts[0]), acts[1..], v);
    }
  }

  /** A run of the machine with failures, from a session's beginning. */
  ghost predicate FaultyReach(w: World) {
    exists keepsLate, acts :: FaultyRuns(Start(keepsLate), acts, w)
  }

  /** Whatever connections fail, at whatever time, the stream is given a prefix of the packs
      written. */
  lemma OrderSurvivesFailures(v: World)
    requires FaultyReach(v) && |v.s.written| < ID_MODULUS
    ensures |v.s.r.toStream| <= |v.s.written|
    ensures v.s.r.toStream == FirstPacks(v.s.written, |v.s.r.toStream|)
  {
    var keepsLate, acts :| FaultyRuns(Start(keepsLate), acts, v);
    FaultyRunKeepsOrder(Start(keepsLate), acts, v);
  }

  // ----- when nothing is missing at the end -----

  /** Pack `id` is in the channel or with the receiver. */
  ghost predicate Arrived(s: State, id: nat) {
    HasId(s.chan, id) || R.Has(s.r, id)
  }

  /** Closing and draining: the end comes only behind a closed and empty channel. */
  ghost predicate EndInv(s: State) {
    OrderInv(s) && (s.r.finishing ==> s.att.isClose && s.chan == [])
  }

  lemma ActKeepsEndInv(w: World, a: FaultyAction)
    requires EndInv(w.s) && CanAct(w, a) && |Act(w, a).s.written| < ID_MODULUS
    ensures EndInv(Act(w, a).s) && (w.s.att.isClose ==> Act(w, a).s.att.isClose)
  {
    ActKeepsOrder(w, a);
    hide OrderInv;
    if a.Step? {
      ClosedStaysClosed(w.s, a.a);
    }
  }

  lemma ClosedStaysClosed(s: State, a: Action)
    requires Enabled(s, a)
    ensures s.att.isClose ==> Apply(s, a).att.isClose
    ensures s.att.isClose && s.chan == [] ==> Apply(s, a).chan == []
    ensures Apply(s, a).r.finishing && !s.r.finishing ==> s.att.isClose && s.chan == []
  {
  }

  lemma {:induction false} RunKeepsEndInv(w: World, acts: seq<FaultyAction>, v: World)
    requires EndInv(w.s) && FaultyRuns(w, acts, v) && |v.s.written| < ID_MODULUS
    ensures EndInv(v.s)
    decreases acts
  {
    if acts == [] {
    } else {
      FaultyWrittenGrows(Act(w, acts[0]), acts[1..], v);
      ActKeepsEndInv(w, acts[0]);
      RunKeepsEndInv(Act(w, acts[0]), acts[1..], v);
    }
  }

  lemma ReceiveArrived(s: State, id: nat)
    requires EndInv(s) && Enabled(s, Receive)
    ensures Arrived(Apply(s, Receive), id) <==> Arrived(s, id)
  {
    var t, p := Apply(s, Receive), s.chan[0];
    R.ApplyKeepsInv(s.r, R.Recv(p), s.written);
    assert R.Has(t.r, id) <==> R.Has(s.r, id) || p.id == id;
    assert s.chan[0].id == p.id;
    if HasId(s.chan, id) && p.id != id {
      TailHasId(s.chan, id);
    }
    if HasId(t.chan, id) {
      var k :| 0 <= k < |t.chan| && t.chan[k].id == id;
      assert s.chan[k + 1].id == id;
    }
  }

  /** Behind a closed channel nothing arrives any more, and nothing that has arrived is lost. */
  lemma ClosedKeepsArrived(w: World, a: FaultyAction, id: nat)
    requires EndInv(w.s) && w.s.att.isClose && CanAct(w, a)
    ensures Arrived(Act(w, a).s, id) <==> Arrived(w.s, id)
  {
    if a.Step? {
      match a.a
      case Receive => ReceiveArrived(w.s, id);
      case Receiver(ra) =>
        R.ApplyKeepsInv(w.s.r, ra, w.s.written);
      case _ =>
    }
  }

  lemma {:induction false} ClosedRunKeepsArrived(w: World, acts: seq<FaultyAction>, v: World, id: nat)
    requires EndInv(w.s) && w.s.att.isClose && FaultyRuns(w, acts, v) && |v.s.written| < ID_MODULUS
    ensures Arrived(v.s, id) <==> Arrived(w.s, id)
    decreases acts
  {
    if acts == [] {
    } else {
      FaultyWrittenGrows(Act(w, acts[0]), acts[1..], v);
      ActKeepsEndInv(w, acts[0]);
      ClosedKeepsArrived(w, acts[0], id);
      ClosedRunKeepsArrived(Act(w, acts[0]), acts[1..], v, id);
    }
  }

  /** At the end of the stream, what has arrived is what was given. */
  lemma EndGivesArrived(s: State)
    requires EndInv(s) && s.r.eos
    ensures |s.r.toStream| == |s.written| <==> forall id :: 1 <= id <= |s.written| ==> Arrived(s, id)
  {
    var id := |s.r.toStream| + 1;
    if id <= |s.written| {
      assert !Arrived(s, id);
    }
  }

  /** The exact condition, for every run with any failures: at the end of the stream nothing is
      missing if and only if every pack written had arrived when the channel closed. */
  lemma CompleteIffArrived(w: World, acts: seq<FaultyAction>, v: World)
    requires FaultyReach(w) && w.s.att.isClose && FaultyRuns(w, acts, v) && v.s.r.eos && |v.s.written| < ID_MODULUS
    ensures |v.s.r.toStream| == |v.s.written| <==> forall id :: 1 <= id <= |v.s.written| ==> Arrived(w.s, id)
  {
    FaultyWrittenGrows(w, acts, v);
    var keepsLate, before :| FaultyRuns(Start(keepsLate), before, w);
    RunKeepsEndInv(Start(keepsLate), before, w);
    RunKeepsEndInv(w, acts, v);
    EndGivesArrived(v.s);
    forall id: nat ensures Arrived(v.s, id) <==> Arrived(w.s, id) {
      ClosedRunKeepsArrived(w, acts, v, id);
    }
  }

  /** And every run that ends the stream passes the point at which the channel closes: `before`
      leads up to it, `closing` is the action, `w` the state behind it. */
  lemma {:induction false} ChannelCloses(u: World, acts: seq<FaultyAction>, v: World)
    returns (before: seq<FaultyAction>, open: World, closing: FaultyAction, after: seq<FaultyAction>)
    requires FaultyRuns(u, acts, v) && !u.s.att.isClose && v.s.att.isClose
    ensures acts == before + [closing] + after && FaultyRuns(u, before, open) && !open.s.att.isClose
    ensures CanAct(open, closing) && Act(open, closing).s.att.isClose && FaultyRuns(Act(open, closing), after, v)
    decreases acts
  {
    var mid := Act(u, acts[0]);
    if mid.s.att.isClose {
      before, open, closing, after := [], u, acts[0], acts[1..];
    } else {
      before, open, closing, after := ChannelCloses(mid, acts[1..], v);
      before := [acts[0]] + before;
    }
  }

  lemma {:induction false} FaultyConcat(w: World, xs: seq<FaultyAction>, mid: World, ys: seq<FaultyAction>, v: World)
    requires FaultyRuns(w, xs, mid) && FaultyRuns(mid, ys, v)
    ensures FaultyRuns(w, xs + ys, v)
    decreases xs
  {
    hide CanAct, Act;
    if xs == [] {
      assert xs + ys == ys;
    } else {
      assert (xs + ys)[1..] == xs[1..] + ys;
      FaultyConcat(Act(w, xs[0]), xs[1..], mid, ys, v);
    }
  }

  /** Every run that ends the stream, with any failures: there is the one action that closes the
      channel, and nothing is missing at the end if and only if everything had arrived by then. */
  lemma EndedRunComplete(keepsLate: bool, acts: seq<FaultyAction>, v: World)
    returns (before: seq<FaultyAction>, open: World, closing: FaultyAction, after: seq<FaultyAction>)
    requires FaultyRuns(Start(keepsLate), acts, v) && v.s.r.eos && |v.s.written| < ID_MODULUS
    ensures acts == before + [closing] + after && FaultyRuns(Start(keepsLate), before, open)
    ensures !open.s.att.isClose && CanAct(open, closing) && Act(open, closing).s.att.isClose
    ensures |v.s.r.toStream| == |v.s.written|
            <==> forall id :: 1 <= id <= |v.s.written| ==> Arrived(Act(open, closing).s, id)
  {
    RunKeepsEndInv(Start(keepsLate), acts, v);
    before, open, closing, after := ChannelCloses(Start(keepsLate), acts, v);
    var w := Act(open, closing);
    assert [closing][1..] == [];
    FaultyConcat(Start(keepsLate), before, open, [closing], w);
    CompleteIffArrived(w, after, v);
  }

  // ----- runs without a failure -----

  lemma {:induction false} FaultFreeIsStriping(w: World, acts: seq<FaultyAction>, v: World)
    requires FaultyRuns(w, acts, v) && !v.failed && Reachable(w.s)
    ensures Reachable(v.s)
    decreases acts
  {
    hide Reachable;
    if acts == [] {
    } else {
      FailedStays(Act(w, acts[0]), acts[1..], v);
      ReachableNext(w.s, acts[0].a);
      FaultFreeIsStriping(Act(w, acts[0]), acts[1..], v);
    }
  }

  lemma {:induction false} FailedStays(w: World, acts: seq<FaultyAction>, v: World)
    requires FaultyRuns(w, acts, v)
    ensures w.failed ==> v.failed
    decreases acts
  {
    if acts == [] {
    } else {
      FailedStays(Act(w, acts[0]), acts[1..], v);
    }
  }

  /** The end of the stream with a pack missing is the work of a failure. */
  lemma MissingMeansFailed(v: World)
    requires FaultyReach(v) && |v.s.written| < ID_MODULUS
    requires v.s.r.eos && |v.s.r.toStream| < |v.s.written|
    ensures v.failed
  {
    if !v.failed {
      var keepsLate, acts :| FaultyRuns(Start(keepsLate), acts, v);
      assert Runs(Initial(keepsLate), [], Initial(keepsLate));
      FaultFreeIsStriping(Start(keepsLate), acts, v);
      StripedComplete(v.s);
    }
  }

  /** And a failure does it: a pack is written, its connection fails, the stream ends without it. */
  lemma FailureEndsEarly(keepsLate: bool) returns (acts: seq<FaultyAction>, v: World)
    ensures FaultyRuns(Start(keepsLate), acts, v) && v.failed
    ensures v.s.r.eos && v.s.r.toStream == [] && |v.s.written| == 1
  {
    var w1 := Act(Start(keepsLate), Step(AttachFounder));
    var w2 := Act(w1, Step(Write([7])));
    var w3 := Act(w2, Fail(0, true));
    acts, v := EndsEmpty(w3);
    acts := [Fail(0, true)] + acts;
    assert FaultyRuns(w2, acts, v);
    acts := [Step(Write([7]))] + acts;
    assert FaultyRuns(w1, acts, v);
    acts := [Step(AttachFounder)] + acts;
    assert FaultyRuns(Start(keepsLate), acts, v);
  }

  /** A closed and empty channel, and a receiver that has nothing: the stream ends. */
  lemma EndsEmpty(w: World) returns (acts: seq<FaultyAction>, v: World)
    requires w.s.att.isClose && w.s.chan == [] && w.s.r == R.INITIAL
    ensures FaultyRuns(w, acts, v) && v.failed == w.failed && v.s.written == w.s.written
    ensures v.s.r.eos && v.s.r.toStream == []
  {
    var w1 := Act(w, Step(Receiver(R.RecvClosed)));
    var w2 := Act(w1, Step(Receiver(R.DrainEnd)));
    v := Act(w2, Step(Receiver(R.EndOfStream)));
    acts := [Step(Receiver(R.EndOfStream))];
    assert FaultyRuns(w2, acts, v);
    acts := [Step(Receiver(R.DrainEnd))] + acts;
    assert FaultyRuns(w1, acts, v);
    acts := [Step(Receiver(R.RecvClosed))] + acts;
    assert FaultyRuns(w, acts, v);
  }
}
