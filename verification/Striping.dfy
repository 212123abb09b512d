/** any-tunnel's striping end to end, one direction: a writer numbers packs and deals them
    round-robin to the connections that carry data; each connection is a FIFO; the receiver's
    connections feed one channel; `StripeReceiver` puts the packs back in order.

    Connection 0 founds the session: it has joined the round before there is a stream to write to,
    and may carry data before the receiver knows of it, because the receiver comes into being with
    it.  Every other connection joins only after the receiver has attached it (the hello ack). */
module Striping {
  import opened Basics
  import A = Attachment
  import R = StripeReceiver

  /** The receiver's side of a connection: not attached; attached by the hello; read by its
      reader, with a second handle; reader over; session over. */
  datatype Stage = Unattached | Greeted | Reading | Ending | Gone

  /** `queue` is what was dealt to the connection and has not reached the receiver's channel. */
  datatype Conn = Conn(queue: seq<Pack>, carrying: bool, stage: Stage)

  /** `keepsLate`: the writing side keeps a connection that comes too late to join the round.  A
      client that pools its connections does (it returns early and puts the connection back);
      a server refuses such a connection, and a client without a pool closes it.  The close drops
      the receiver's handles and no more if the receiver's side has sent nothing on that
      connection; if it has, the close is a failure that also closes the channel. */
  datatype State = State(
    keepsLate: bool,
    written: seq<Bytes>,
    txPackId: nat,
    senders: seq<nat>,
    index: nat,
    roundClosed: bool,
    conns: seq<Conn>,
    att: A.State,
    chan: seq<Pack>,
    r: R.Receiver)

  function Initial(keepsLate: bool): State {
    State(keepsLate, [], 0, [0], 0, false, [Conn([], true, Unattached)], A.INITIAL, [], R.INITIAL)
  }

  datatype Action =
    | AttachFounder
    | AttachNew
    | StartReader(x: nat)
    | Join(x: nat)
    | Write(data: Bytes)
    | Control
    | CloseRound
    | Arrive(x: nat)
    | EndReader(x: nat)
    | EndSession(x: nat)
    | Refuse(x: nat)
    | Receive
    | Receiver(ra: R.Action)

  /** The two handles of a connection. */
  function HelloHandle(x: nat): nat { 2 * x }

  function ReaderHandle(x: nat): nat { 2 * x + 1 }

  predicate IsConn(s: State, x: nat) {
    x < |s.conns|
  }

  predicate Enabled(s: State, a: Action) {
    match a
    case AttachFounder =>
      |s.conns| > 0 && s.conns[0].stage.Unattached? && A.Enabled(s.att, A.Attach(HelloHandle(0)))
    case AttachNew =>
      && |s.conns| > 0 && !s.conns[0].stage.Unattached?
      && A.Enabled(s.att, A.Attach(HelloHandle(|s.conns|)))
    case StartReader(x) =>
      IsConn(s, x) && s.conns[x].stage.Greeted? && A.Enabled(s.att, A.Attach(ReaderHandle(x)))
    case Join(x) =>
      IsConn(s, x) && !s.conns[x].carrying && !s.roundClosed && s.conns[x].stage.Reading?
    case Write(_) => !s.roundClosed && s.senders != [] && IsConn(s, s.senders[s.index % |s.senders|])
    case Control => true
    case CloseRound => true
    case Arrive(x) => IsConn(s, x) && s.conns[x].stage.Reading? && s.conns[x].queue != []
    case EndReader(x) =>
      && IsConn(s, x) && s.conns[x].stage.Reading? && s.conns[x].carrying && s.roundClosed
      && s.conns[x].queue == [] && A.Enabled(s.att, A.Drop(ReaderHandle(x)))
    case EndSession(x) =>
      IsConn(s, x) && s.conns[x].stage.Ending? && A.Enabled(s.att, A.Drop(HelloHandle(x)))
    case Refuse(x) =>
      && IsConn(s, x) && !s.conns[x].carrying && s.roundClosed && !s.keepsLate && s.conns[x].stage.Reading?
      && ReaderHandle(x) in s.att.live && HelloHandle(x) in s.att.live
    case Receive => s.chan != [] && R.Enabled(s.r, R.Recv(s.chan[0]))
    case Receiver(ra) =>
      !ra.Recv? && R.Enabled(s.r, ra) && (ra.RecvClosed? ==> s.chan == [] && s.att.isClose)
  }

  function SetConn(s: State, x: nat, c: Conn): State
    requires IsConn(s, x)
  {
    s.(conns := s.conns[x := c])
  }

  function SetStage(s: State, x: nat, stage: Stage): State
    requires IsConn(s, x)
  {
    SetConn(s, x, s.conns[x].(stage := stage))
  }

  /** A connection's two handles are dropped. */
  function WithoutBoth(att: A.State, x: nat): A.State
    requires ReaderHandle(x) in att.live && HelloHandle(x) in att.live
  {
    A.Apply(A.Apply(att, A.Drop(ReaderHandle(x))), A.Drop(HelloHandle(x)))
  }

  function Apply(s: State, a: Action): State
    requires Enabled(s, a)
  {
    match a
    case AttachFounder => SetStage(s, 0, Greeted).(att := A.Apply(s.att, A.Attach(HelloHandle(0))))
    case AttachNew =>
      s.(conns := s.conns + [Conn([], false, Greeted)], att := A.Apply(s.att, A.Attach(HelloHandle(|s.conns|))))
    case StartReader(x) => SetStage(s, x, Reading).(att := A.Apply(s.att, A.Attach(ReaderHandle(x))))
    case Join(x) => SetConn(s, x, s.conns[x].(carrying := true)).(senders := s.senders + [x])
    case Write(data) =>
      var x, id := s.senders[s.index % |s.senders|], NextId(s.txPackId);
      SetConn(s, x, s.conns[x].(queue := s.conns[x].queue + [Pack(id, data)]))
        .(written := s.written + [data], txPackId := id, index := s.index + 1)
    case Control => s.(index := s.index + 1)
    case CloseRound => s.(roundClosed := true)
    case Arrive(x) =>
      var c := s.conns[x];
      SetConn(s, x, c.(queue := c.queue[1..])).(chan := if s.att.isClose then s.chan else s.chan + [c.queue[0]])
    case EndReader(x) => SetStage(s, x, Ending).(att := A.Apply(s.att, A.Drop(ReaderHandle(x))))
    case EndSession(x) => SetStage(s, x, Gone).(att := A.Apply(s.att, A.Drop(HelloHandle(x))))
    case Refuse(x) => SetStage(s, x, Gone).(att := WithoutBoth(s.att, x))
    case Receive => s.(chan := s.chan[1..], r := R.Apply(s.r, R.Recv(s.chan[0])))
    case Receiver(ra) => s.(r := R.Apply(s.r, ra))
  }

  ghost predicate Runs(s: State, acts: seq<Action>, t: State)
    decreases acts
  {
    if acts == [] then s == t
    else Enabled(s, acts[0]) && Runs(Apply(s, acts[0]), acts[1..], t)
  }

  lemma {:induction false} RunsConcat(s: State, xs: seq<Action>, mid: State, ys: seq<Action>, t: State)
    requires Runs(s, xs, mid) && Runs(mid, ys, t)
    ensures Runs(s, xs + ys, t)
    decreases xs
  {
    if xs == [] {
      assert xs + ys == ys;
    } else {
      assert (xs + ys)[1..] == xs[1..] + ys;
      RunsConcat(Apply(s, xs[0]), xs[1..], mid, ys, t);
    }
  }

  ghost predicate Reachable(t: State) {
    exists keepsLate, acts :: Runs(Initial(keepsLate), acts, t)
  }

  lemma ReachableOn(s: State, run: seq<Action>, t: State)
    requires Reachable(s) && Runs(s, run, t)
    ensures Reachable(t)
  {
    var keepsLate, before :| Runs(Initial(keepsLate), before, s);
    RunsConcat(Initial(keepsLate), before, s, run, t);
  }

  lemma ReachableNext(s: State, a: Action)
    requires Reachable(s) && Enabled(s, a)
    ensures Reachable(Apply(s, a))
  {
    assert [a][1..] == [];
    ReachableOn(s, [a], Apply(s, a));
  }

  /** The drain loop touches nothing but the receiver. */
  lemma {:induction false} DrainLifts(s: State, acts: seq<R.Action>, r: R.Receiver) returns (run: seq<Action>)
    requires R.Runs(s.r, acts, r) && forall a <- acts :: R.Draws(a)
    ensures Runs(s, run, s.(r := r))
    decreases acts
  {
    if acts == [] {
      run := [];
    } else {
      var first := Receiver(acts[0]);
      assert acts[0] in acts && forall a <- acts[1..] :: a in acts;
      run := DrainLifts(Apply(s, first), acts[1..], r);
      run := [first] + run;
    }
  }

  // ----- the inductive invariant -----

  ghost predicate HasId(q: seq<Pack>, id: nat) {
    exists k :: 0 <= k < |q| && q[k].id == id
  }

  /** Pack `id` is on connection `x`. */
  ghost predicate On(s: State, x: nat, id: nat) {
    IsConn(s, x) && HasId(s.conns[x].queue, id)
  }

  ghost predicate OnSomeConn(s: State, id: nat) {
    exists x :: On(s, x, id)
  }

  /** Where a written pack can be: on a connection, in the channel, or at the receiver. */
  ghost predicate Located(s: State, id: nat) {
    OnSomeConn(s, id) || HasId(s.chan, id) || R.Has(s.r, id)
  }

  ghost predicate AllGenuine(q: seq<Pack>, written: seq<Bytes>) {
    forall k :: 0 <= k < |q| ==> Genuine(written, q[k])
  }

  /** A connection and its handles. */
  ghost predicate ConnInv(s: State, x: nat)
    requires IsConn(s, x)
  {
    var c := s.conns[x];
    && AllGenuine(c.queue, s.written)
    && (HelloHandle(x) in s.att.live <==> c.stage.Greeted? || c.stage.Reading? || c.stage.Ending?)
    && (ReaderHandle(x) in s.att.live <==> c.stage.Reading?)
    && (c.queue != [] ==> c.carrying)
    && (c.carrying && x != 0 ==> !c.stage.Unattached? && !c.stage.Greeted?)
    && (c.stage.Unattached? ==> x == 0)
    && (c.stage.Ending? || c.stage.Gone? ==> c.queue == [] && s.roundClosed && (c.carrying || !s.keepsLate))
    && (c.stage.Ending? || x == 0 ==> c.carrying)
  }

  ghost predicate Connections(s: State) {
    && |s.conns| > 0
    && (|s.conns| > 1 ==> !s.conns[0].stage.Unattached?)
    && (forall x :: IsConn(s, x) ==> ConnInv(s, x))
    && (forall h <- s.att.live :: h < 2 * |s.conns|)
    && (forall i :: 0 <= i < |s.senders| ==> IsConn(s, s.senders[i]) && s.conns[s.senders[i]].carrying)
    && (forall i, j :: 0 <= i < j < |s.senders| ==> s.senders[i] != s.senders[j])
    && A.Inv(s.att)
    && (s.att.isClose ==> s.att.live == {} && s.conns[0].stage.Gone?)
  }

  ghost predicate Packs(s: State) {
    && s.txPackId == |s.written|
    && R.Inv(s.r, s.written)
    && AllGenuine(s.chan, s.written)
    && (forall id :: 1 <= id <= |s.written| ==> Located(s, id))
    && (s.r.finishing ==> s.att.isClose && s.chan == [])
  }

  ghost predicate Inv(s: State) {
    Connections(s) && Packs(s)
  }

  /** Once the receiver's channel is closed, every connection is over and none holds a pack. */
  lemma ClosedMeansOver(s: State, x: nat)
    requires Connections(s) && s.att.isClose && IsConn(s, x)
    ensures s.conns[x].stage.Gone? && s.conns[x].queue == [] && s.roundClosed
  {
    assert ConnInv(s, x) && ConnInv(s, 0);
  }

  lemma OpenRoundMeansOpen(s: State)
    requires Connections(s)
    ensures s.roundClosed || !s.att.isClose
  {
    assert ConnInv(s, 0);
  }

  lemma LoadedMeansOpen(s: State, x: nat)
    requires Connections(s) && IsConn(s, x)
    ensures s.conns[x].queue == [] || !s.att.isClose
  {
    assert ConnInv(s, x);
  }

  // ----- preservation: connections and handles -----

  lemma FounderKeepsConnections(s: State)
    requires Connections(s) && Enabled(s, AttachFounder)
    ensures Connections(Apply(s, AttachFounder))
  {
    var t := Apply(s, AttachFounder);
    A.StepKeepsInv(s.att, A.Attach(HelloHandle(0)));
    forall x | IsConn(t, x)
      ensures ConnInv(t, x)
    {
      assert ConnInv(s, x);
    }
  }

  lemma NewKeepsConnections(s: State)
    requires Connections(s) && Enabled(s, AttachNew)
    ensures Connections(Apply(s, AttachNew))
  {
    var t := Apply(s, AttachNew);
    A.StepKeepsInv(s.att, A.Attach(HelloHandle(|s.conns|)));
    forall x | IsConn(t, x)
      ensures ConnInv(t, x)
    {
      if IsConn(s, x) {
        assert ConnInv(s, x);
      }
    }
  }

  lemma ReaderKeepsConnections(s: State, x: nat)
    requires Connections(s) && Enabled(s, StartReader(x))
    ensures Connections(Apply(s, StartReader(x)))
  {
    var t := Apply(s, StartReader(x));
    A.StepKeepsInv(s.att, A.Attach(ReaderHandle(x)));
    forall y | IsConn(t, y)
      ensures ConnInv(t, y)
    {
      assert ConnInv(s, y);
    }
  }

  lemma DropKeepsConnections(s: State, a: Action)
    requires Connections(s) && Enabled(s, a) && (a.EndReader? || a.EndSession?)
    ensures Connections(Apply(s, a))
  {
    var t := Apply(s, a);
    var h := if a.EndReader? then ReaderHandle(a.x) else HelloHandle(a.x);
    A.StepKeepsInv(s.att, A.Drop(h));
    assert ConnInv(s, a.x) && ConnInv(s, 0);
    forall x | IsConn(t, x)
      ensures ConnInv(t, x)
    {
      assert ConnInv(s, x);
    }
    if a.EndReader? {
      assert HelloHandle(a.x) in t.att.live;
    }
    assert ConnInv(t, 0);
  }

  lemma RefuseKeepsConnections(s: State, x: nat)
    requires Connections(s) && Enabled(s, Refuse(x))
    ensures Connections(Apply(s, Refuse(x)))
  {
    var t := Apply(s, Refuse(x));
    A.StepKeepsInv(s.att, A.Drop(ReaderHandle(x)));
    A.StepKeepsInv(A.Apply(s.att, A.Drop(ReaderHandle(x))), A.Drop(HelloHandle(x)));
    assert ConnInv(s, x) && ConnInv(s, 0);
    assert HelloHandle(x) in A.Apply(s.att, A.Drop(ReaderHandle(x))).live;
    forall y | IsConn(t, y)
      ensures ConnInv(t, y)
    {
      assert ConnInv(s, y);
    }
    assert ConnInv(t, 0);
  }

  lemma QueueKeepsConnections(s: State, a: Action)
    requires Connections(s) && Enabled(s, a) && (a.Join? || a.Write? || a.Arrive?)
    requires a.Write? ==> s.txPackId == |s.written| && |s.written| + 1 < ID_MODULUS
    ensures Connections(Apply(s, a))
  {
    var t := Apply(s, a);
    assert ConnInv(s, 0);
    forall x | IsConn(t, x)
      ensures ConnInv(t, x)
    {
      assert ConnInv(s, x);
    }
  }

  lemma QuietKeepsConnections(s: State, a: Action)
    requires Connections(s) && Enabled(s, a) && (a.Control? || a.CloseRound? || a.Receive? || a.Receiver?)
    ensures Connections(Apply(s, a))
  {
    var t := Apply(s, a);
    assert t.conns == s.conns && t.att == s.att && t.written == s.written && t.senders == s.senders;
    forall x | IsConn(t, x)
      ensures ConnInv(t, x)
    {
      assert ConnInv(s, x);
    }
  }

  lemma StepKeepsConnections(s: State, a: Action)
    requires Connections(s) && Enabled(s, a)
    requires a.Write? ==> s.txPackId == |s.written| && |s.written| + 1 < ID_MODULUS
    ensures Connections(Apply(s, a))
  {
    hide Connections;
    match a
    case AttachFounder => FounderKeepsConnections(s);
    case AttachNew => NewKeepsConnections(s);
    case StartReader(x) => ReaderKeepsConnections(s, x);
    case EndReader(_) => DropKeepsConnections(s, a);
    case EndSession(_) => DropKeepsConnections(s, a);
    case Refuse(x) => RefuseKeepsConnections(s, x);
    case Join(_) => QueueKeepsConnections(s, a);
    case Write(_) => QueueKeepsConnections(s, a);
    case Arrive(_) => QueueKeepsConnections(s, a);
    case _ => QuietKeepsConnections(s, a);
  }

  // ----- preservation: packs -----

  lemma TailHasId(q: seq<Pack>, id: nat)
    requires q != [] && HasId(q, id) && q[0].id != id
    ensures HasId(q[1..], id)
  {
    var k :| 0 <= k < |q| && q[k].id == id;
    assert q[1..][k - 1].id == id;
  }

  lemma SnocHasId(q: seq<Pack>, p: Pack, id: nat)
    requires HasId(q, id) || p.id == id
    ensures HasId(q + [p], id)
  {
    if p.id == id {
      assert (q + [p])[|q|].id == id;
    } else {
      var k :| 0 <= k < |q| && q[k].id == id;
      assert (q + [p])[k].id == id;
    }
  }

  lemma WriteKeepsPacks(s: State, data: Bytes)
    requires Inv(s) && Enabled(s, Write(data)) && |s.written| + 1 < ID_MODULUS
    ensures Packs(Apply(s, Write(data)))
  {
    var t := Apply(s, Write(data));
    OpenRoundMeansOpen(s);
    R.MoreWrittenKeepsInv(s.r, s.written, data);
    var x := s.senders[s.index % |s.senders|];
    var p := Pack(t.txPackId, data);
    forall id | 1 <= id <= |t.written|
      ensures Located(t, id)
    {
      if id == p.id || On(s, x, id) {
        SnocHasId(s.conns[x].queue, p, id);
        assert On(t, x, id);
      } else if OnSomeConn(s, id) {
        var y :| On(s, y, id);
        assert On(t, y, id);
      } else {
        assert Located(s, id);
      }
    }
  }

  lemma ArriveKeepsPacks(s: State, x: nat)
    requires Inv(s) && Enabled(s, Arrive(x))
    ensures Packs(Apply(s, Arrive(x)))
  {
    var t := Apply(s, Arrive(x));
    assert ConnInv(s, x);
    var q := s.conns[x].queue;
    LoadedMeansOpen(s, x);
    forall id | 1 <= id <= |t.written|
      ensures Located(t, id)
    {
      assert Located(s, id);
      if q[0].id == id || HasId(s.chan, id) {
        SnocHasId(s.chan, q[0], id);
      } else if On(s, x, id) {
        TailHasId(q, id);
        assert On(t, x, id);
      } else if OnSomeConn(s, id) {
        var y :| On(s, y, id);
        assert On(t, y, id);
      }
    }
  }

  lemma ReceiveKeepsPacks(s: State)
    requires Inv(s) && Enabled(s, Receive)
    ensures Packs(Apply(s, Receive))
  {
    var t := Apply(s, Receive);
    R.ApplyKeepsInv(s.r, R.Recv(s.chan[0]), s.written);
    forall id | 1 <= id <= |t.written|
      ensures Located(t, id)
    {
      assert Located(s, id);
      if OnSomeConn(s, id) {
        var y :| On(s, y, id);
        assert On(t, y, id);
      } else if HasId(s.chan, id) && s.chan[0].id != id {
        TailHasId(s.chan, id);
      }
    }
  }

  /** The other actions leave every connection's queue alone. */
  lemma OtherKeepsLocated(s: State, a: Action, id: nat)
    requires Connections(s) && Enabled(s, a) && !a.Write? && !a.Arrive? && !a.Receive? && !a.Receiver?
    requires Located(s, id)
    ensures Located(Apply(s, a), id)
  {
    var t := Apply(s, a);
    if OnSomeConn(s, id) {
      var y :| On(s, y, id);
      assert On(t, y, id);
    }
  }

  lemma OtherKeepsPacks(s: State, a: Action)
    requires Inv(s) && Enabled(s, a) && !a.Write? && !a.Arrive? && !a.Receive? && !a.Receiver?
    ensures Packs(Apply(s, a))
  {
    hide R.Inv;
    var t := Apply(s, a);
    forall id | 1 <= id <= |t.written|
      ensures Located(t, id)
    {
      OtherKeepsLocated(s, a, id);
    }
  }

  lemma ReceiverKeepsPacks(s: State, ra: R.Action)
    requires Inv(s) && Enabled(s, Receiver(ra))
    ensures Packs(Apply(s, Receiver(ra)))
  {
    var t := Apply(s, Receiver(ra));
    R.ApplyKeepsInv(s.r, ra, s.written);
    hide R.Inv;
    forall id | 1 <= id <= |t.written|
      ensures Located(t, id)
    {
      assert Located(s, id);
      if OnSomeConn(s, id) {
        var y :| On(s, y, id);
        assert On(t, y, id);
      }
    }
  }

  lemma StepKeepsPacks(s: State, a: Action)
    requires Inv(s) && Enabled(s, a) && |Apply(s, a).written| < ID_MODULUS
    ensures Packs(Apply(s, a))
  {
    hide Connections, Packs;
    match a
    case Write(data) => WriteKeepsPacks(s, data);
    case Arrive(x) => ArriveKeepsPacks(s, x);
    case Receive => ReceiveKeepsPacks(s);
    case Receiver(ra) => ReceiverKeepsPacks(s, ra);
    case _ => OtherKeepsPacks(s, a);
  }

  lemma StepKeepsInv(s: State, a: Action)
    requires Inv(s) && Enabled(s, a) && |Apply(s, a).written| < ID_MODULUS
    ensures Inv(Apply(s, a))
  {
    StepKeepsConnections(s, a);
    StepKeepsPacks(s, a);
  }

  lemma {:induction false} WrittenGrows(s: State, acts: seq<Action>, t: State)
    requires Runs(s, acts, t)
    ensures s.written <= t.written
    decreases acts
  {
    if acts == [] {
    } else {
      WrittenGrows(Apply(s, acts[0]), acts[1..], t);
    }
  }

  lemma {:induction false} RunKeepsInv(s: State, acts: seq<Action>, t: State)
    requires Inv(s) && Runs(s, acts, t) && |t.written| < ID_MODULUS
    ensures Inv(t)
    decreases acts
  {
    if acts == [] {
    } else {
      WrittenGrows(Apply(s, acts[0]), acts[1..], t);
      StepKeepsInv(s, acts[0]);
      RunKeepsInv(Apply(s, acts[0]), acts[1..], t);
    }
  }

  lemma ReachableInv(t: State)
    requires Reachable(t) && |t.written| < ID_MODULUS
    ensures Inv(t)
  {
    var keepsLate, acts :| Runs(Initial(keepsLate), acts, t);
    assert ConnInv(Initial(keepsLate), 0);
    RunKeepsInv(Initial(keepsLate), acts, t);
  }

  // ----- theorems over every run of fewer than 2^32 packs -----

  /** For any number of connections attached at any time and any interleaving, the stream is
      given a prefix of the packs written. */
  lemma StripedOrder(t: State)
    requires Reachable(t) && |t.written| < ID_MODULUS
    ensures |t.r.toStream| <= |t.written|
    ensures t.r.toStream == FirstPacks(t.written, |t.r.toStream|)
  {
    ReachableInv(t);
  }

  /** End of stream comes only after every pack ever written, and nothing can be written then. */
  lemma StripedComplete(t: State)
    requires Reachable(t) && |t.written| < ID_MODULUS && t.r.eos
    ensures t.r.toStream == FirstPacks(t.written, |t.written|)
    ensures t.roundClosed
  {
    ReachableInv(t);
    ClosedMeansOver(t, 0);
    var id := |t.r.toStream| + 1;
    if id <= |t.written| {
      assert Located(t, id);
      if OnSomeConn(t, id) {
        var x :| On(t, x, id);
        ClosedMeansOver(t, x);
      }
    }
  }

  /** A connection whose hello was accepted is never refused by the second check: the channel
      cannot have closed in between. */
  lemma GreetedIsNotRefused(t: State, x: nat)
    requires Reachable(t) && |t.written| < ID_MODULUS
    requires IsConn(t, x) && t.conns[x].stage.Greeted?
    ensures Enabled(t, StartReader(x))
  {
    ReachableInv(t);
    assert ConnInv(t, x);
  }
}
