/** One direction of an any-tunnel2 stream: a sender, a receiver, and a network that may
    lose any message, deliver any message late or out of order, and deliver it again. */
module ReliableStream {
  import opened Basics
  import S = ReliableSender
  import R = ReliableReceiver

  datatype Message = Data(pack: Pack) | Ack(ids: seq<nat>)

  datatype State = State(s: S.Sender, r: R.Receiver, net: set<Message>)

  datatype Action =
    | Sender(sa: S.Action)
    | Receiver(ra: R.Action)
    | DeliverData(pack: Pack)
    | DeliverAck(ids: seq<nat>)
    | Lose(message: Message)

  const INITIAL := State(S.INITIAL, R.INITIAL, {})

  predicate Enabled(st: State, a: Action) {
    match a
    case Sender(sa) => S.Enabled(st.s, sa)
    case Receiver(ra) => !ra.Arrive? && R.Enabled(st.r, ra)
    case DeliverData(p) => Data(p) in st.net && R.Enabled(st.r, R.Arrive(p))
    case DeliverAck(ids) => Ack(ids) in st.net && !st.s.closing
    case Lose(m) => m in st.net
  }

  /** Delivery leaves the message in the network, so that it can come again. */
  function Apply(st: State, a: Action): State
    requires Enabled(st, a)
  {
    match a
    case Sender(sa) =>
      var sent := S.Emitted(st.s, sa);
      st.(s := S.Apply(st.s, sa), net := st.net + if sent.Some? then {Data(sent.value)} else {})
    case Receiver(ra) =>
      st.(r := R.Apply(st.r, ra), net := st.net + if ra.Flush? then {Ack(st.r.packIds)} else {})
    case DeliverData(p) => st.(r := R.Apply(st.r, R.Arrive(p)))
    case DeliverAck(ids) => st.(s := S.OnAck(st.s, ids))
    case Lose(m) => st.(net := st.net - {m})
  }

  ghost predicate Runs(st: State, acts: seq<Action>, t: State)
    decreases acts
  {
    if acts == [] then st == t
    else Enabled(st, acts[0]) && Runs(Apply(st, acts[0]), acts[1..], t)
  }

  lemma {:induction false} RunsConcat(st: State, xs: seq<Action>, mid: State, ys: seq<Action>, t: State)
    requires Runs(st, xs, mid) && Runs(mid, ys, t)
    ensures Runs(st, xs + ys, t)
    decreases xs
  {
    if xs == [] {
      assert xs + ys == ys;
    } else {
      assert (xs + ys)[1..] == xs[1..] + ys;
      RunsConcat(Apply(st, xs[0]), xs[1..], mid, ys, t);
    }
  }

  ghost predicate Reachable(t: State) {
    exists acts :: Runs(INITIAL, acts, t)
  }

  // ----- the inductive invariant -----

  ghost predicate NetworkInv(st: State) {
    && (forall m <- st.net :: m.Data? ==> Genuine(st.s.taken, m.pack))
    && (forall m <- st.net :: m.Ack? ==> forall id <- m.ids :: id in st.r.seen)
  }

  ghost predicate Inv(st: State) {
    && S.Inv(st.s)
    && R.Inv(st.r, st.s.taken)
    && NetworkInv(st)
    && st.s.acked <= st.r.seen
  }

  lemma EmittedIsGenuine(s: S.Sender, a: S.Action)
    requires S.Inv(s) && S.Enabled(s, a)
    ensures S.Emitted(s, a).Some? ==> Genuine(s.taken, S.Emitted(s, a).value)
    ensures s.taken <= S.Apply(s, a).taken
  {
  }

  lemma SenderKeepsInv(st: State, sa: S.Action)
    requires Inv(st) && S.Enabled(st.s, sa) && |S.Apply(st.s, sa).taken| < ID_MODULUS
    ensures Inv(Apply(st, Sender(sa)))
  {
    S.ApplyKeepsInv(st.s, sa);
    EmittedIsGenuine(st.s, sa);
    if sa.Take? {
      R.MoreTakenKeepsInv(st.r, st.s.taken, sa.data);
    }
    hide S.Inv, R.Inv;
  }

  lemma FlushedIsSeen(r: R.Receiver, taken: seq<Bytes>)
    requires R.Inv(r, taken)
    ensures forall id <- r.packIds :: id in r.seen
  {
  }

  lemma ReceiverKeepsInv(st: State, ra: R.Action)
    requires Inv(st) && R.Enabled(st.r, ra) && !ra.Arrive?
    ensures Inv(Apply(st, Receiver(ra)))
  {
    R.ApplyKeepsInv(st.r, ra, st.s.taken);
    FlushedIsSeen(st.r, st.s.taken);
    hide S.Inv, R.Inv;
  }

  lemma StepKeepsInv(st: State, a: Action)
    requires Inv(st) && Enabled(st, a)
    requires |Apply(st, a).s.taken| < ID_MODULUS
    ensures Inv(Apply(st, a))
  {
    hide S.Inv, R.Inv;
    match a
    case Sender(sa) => SenderKeepsInv(st, sa);
    case Receiver(ra) => ReceiverKeepsInv(st, ra);
    case DeliverData(p) => R.ApplyKeepsInv(st.r, R.Arrive(p), st.s.taken);
    case DeliverAck(ids) => S.OnAckKeepsInv(st.s, ids);
    case Lose(m) =>
  }

  lemma {:induction false} OnAckSameTaken(s: S.Sender, ids: seq<nat>)
    ensures S.OnAck(s, ids).taken == s.taken
    decreases ids
  {
    if ids == [] {
    } else {
      OnAckSameTaken(S.AckOne(s, ids[0]), ids[1..]);
    }
  }

  lemma {:induction false} TakenGrows(st: State, acts: seq<Action>, t: State)
    requires Runs(st, acts, t)
    ensures st.s.taken <= t.s.taken
    decreases acts
  {
    if acts == [] {
    } else {
      if acts[0].DeliverAck? {
        OnAckSameTaken(st.s, acts[0].ids);
      }
      TakenGrows(Apply(st, acts[0]), acts[1..], t);
    }
  }

  lemma {:induction false} RunKeepsInv(st: State, acts: seq<Action>, t: State)
    requires Inv(st) && Runs(st, acts, t) && |t.s.taken| < ID_MODULUS
    ensures Inv(t)
    decreases acts
  {
    if acts == [] {
    } else {
      TakenGrows(Apply(st, acts[0]), acts[1..], t);
      StepKeepsInv(st, acts[0]);
      RunKeepsInv(Apply(st, acts[0]), acts[1..], t);
    }
  }

  lemma ReachableInv(t: State)
    requires Reachable(t) && |t.s.taken| < ID_MODULUS
    ensures Inv(t)
  {
    var acts :| Runs(INITIAL, acts, t);
    RunKeepsInv(INITIAL, acts, t);
  }

  // ----- theorems over every run of fewer than 2^32 packs -----

  /** The stream is given a prefix of what the peer took, in order and each pack once; while
      it is open that is everything accepted but at most the one pack on its way to it; and
      the set of accepted ids is exactly 1 to the expected id less one. */
  lemma DeliveryInOrder(t: State)
    requires Reachable(t) && |t.s.taken| < ID_MODULUS
    ensures |t.r.toStream| <= |t.s.taken|
    ensures t.r.toStream == FirstPacks(t.s.taken, |t.r.toStream|)
    ensures t.r.streamOpen ==> |t.r.toStream| <= t.r.accepted <= |t.r.toStream| + 1
    ensures t.r.streamOpen && t.r.phase.Listening? ==> |t.r.toStream| == t.r.accepted
    ensures t.r.accepted + 1 < ID_MODULUS ==> forall id :: id in t.r.seen <==> 1 <= id < t.r.packId
  {
    ReachableInv(t);
  }

  /** As long as the sender's tasks run, a pack that the receiver has not accepted is still kept:
      it waits with exactly one timeout entry, or one of the two tasks has it in hand.  Once they
      have ended, nothing is kept. */
  lemma NoPackForgotten(t: State, id: nat)
    requires Reachable(t) && |t.s.taken| < ID_MODULUS
    requires 1 <= id <= |t.s.taken| && id !in t.r.seen
    ensures S.Kept(t.s, id) <==> !t.s.ended
    ensures id in t.s.waiting ==>
              && t.s.waiting[id] == Numbered(t.s.taken, id)
              && (t.s.timer == S.Popped(id) || multiset(t.s.infos)[id] == 1)
    ensures S.Held(t.s, id) ==> t.s.task.pack == Numbered(t.s.taken, id)
    ensures S.Carried(t.s, id) ==> t.s.timer.pack == Numbered(t.s.taken, id)
  {
    ReachableInv(t);
    OccursOnce(t.s.infos, id);
  }

  lemma {:induction false} OccursOnce(xs: seq<nat>, x: nat)
    requires S.NoDuplicates(xs)
    ensures multiset(xs)[x] == if x in xs then 1 else 0
  {
    if xs == [] {
    } else {
      var n := |xs| - 1;
      assert xs == xs[..n] + [xs[n]];
      OccursOnce(xs[..n], x);
    }
  }

  /** A pack stops being kept only through an ack, and every ack in the network names
      accepted packs only, or when the sender's tasks end. */
  lemma LeavesOnlyByAck(t: State, a: Action, id: nat)
    requires Reachable(t) && Enabled(t, a) && |Apply(t, a).s.taken| < ID_MODULUS
    requires S.Kept(t.s, id) && !S.Kept(Apply(t, a).s, id)
    ensures (a.DeliverAck? && id in a.ids && id in t.r.seen) || Apply(t, a).s.ended
  {
    TakenGrows(t, [a], Apply(t, a));
    ReachableInv(t);
    hide Reachable, Runs, R.Inv;
    if a.DeliverAck? {
      AckedOrKept(t.s, a.ids, id);
    } else if a.Sender? && !Apply(t, a).s.ended {
      StepsKeep(t.s, a.sa, id);
    }
  }

  lemma StepsKeep(s: S.Sender, a: S.Action, id: nat)
    requires S.Inv(s) && S.Enabled(s, a) && S.Kept(s, id) && !S.Apply(s, a).ended
    ensures S.Kept(S.Apply(s, a), id)
  {
  }

  lemma {:induction false} AckedOrKept(s: S.Sender, ids: seq<nat>, id: nat)
    requires S.Kept(s, id)
    ensures S.Kept(S.OnAck(s, ids), id) || id in ids
    decreases ids
  {
    if ids == [] || id == ids[0] {
    } else {
      AckedOrKept(S.AckOne(s, ids[0]), ids[1..], id);
    }
  }

  /** The window counter is the payload of the packs not removed by an ack; it is never
      negative, and exceeds the window by less than one pack. */
  lemma WindowAccounting(t: State, largest: nat)
    requires Reachable(t) && |t.s.taken| < ID_MODULUS
    requires forall i :: 0 <= i < |t.s.taken| ==> |t.s.taken[i]| <= largest
    ensures 0 <= t.s.window == S.Outstanding(t.s.taken, t.s.acked)
    ensures t.s.window < S.WINDOW + largest
  {
    ReachableInv(t);
    var acts :| Runs(INITIAL, acts, t);
    WindowBound(INITIAL, acts, t, largest);
  }

  lemma {:induction false} OnAckShrinksWindow(s: S.Sender, ids: seq<nat>)
    ensures S.OnAck(s, ids).window <= s.window
    decreases ids
  {
    if ids == [] {
    } else {
      OnAckShrinksWindow(S.AckOne(s, ids[0]), ids[1..]);
    }
  }

  lemma WindowStep(st: State, a: Action, largest: nat)
    requires Inv(st) && Enabled(st, a) && st.s.window < S.WINDOW + largest
    requires a.Sender? && a.sa.Take? ==> |a.sa.data| <= largest
    ensures Apply(st, a).s.window < S.WINDOW + largest
  {
    hide R.Inv, NetworkInv, S.Partition, S.Scheduled;
    if a.DeliverAck? {
      OnAckShrinksWindow(st.s, a.ids);
    }
  }

  lemma {:induction false} WindowBound(st: State, acts: seq<Action>, t: State, largest: nat)
    requires Inv(st) && Runs(st, acts, t) && |t.s.taken| < ID_MODULUS
    requires forall i :: 0 <= i < |t.s.taken| ==> |t.s.taken[i]| <= largest
    requires st.s.window < S.WINDOW + largest
    ensures t.s.window < S.WINDOW + largest
    decreases acts
  {
    hide Inv;
    if acts == [] {
    } else {
      var a, mid := acts[0], Apply(st, acts[0]);
      TakenGrows(mid, acts[1..], t);
      StepKeepsInv(st, a);
      if a.Sender? && a.sa.Take? {
        assert mid.s.taken[|st.s.taken|] == t.s.taken[|st.s.taken|] == a.sa.data;
      }
      WindowStep(st, a, largest);
      WindowBound(mid, acts[1..], t, largest);
    }
  }

  /** The ack batches sent from position `from` on, as messages. */
  function AcksFrom(ackTx: seq<seq<nat>>, from: nat): set<Message> {
    set i | from <= i < |ackTx| :: Ack(ackTx[i])
  }

  /** A run of the receive loop whose packs come from the network is a run of the whole system;
      the network gains exactly the ack batches sent. */
  lemma {:induction false} ReceiverRunLifts(st: State, acts: seq<R.Action>, r: R.Receiver)
    returns (run: seq<Action>, t: State)
    requires R.Runs(st.r, acts, r)
    requires forall a <- acts :: a.Arrive? ==> Data(a.pack) in st.net
    ensures Runs(st, run, t) && t.r == r && t.s == st.s
    ensures st.r.ackTx <= r.ackTx && t.net == st.net + AcksFrom(r.ackTx, |st.r.ackTx|)
    decreases acts
  {
    if acts == [] {
      run, t := [], st;
    } else {
      var first := if acts[0].Arrive? then DeliverData(acts[0].pack) else Receiver(acts[0]);
      assert forall a <- acts[1..] :: a in acts;
      var mid := Apply(st, first);
      hide S.Enabled, S.Apply, S.OnAck, S.Emitted;
      run, t := ReceiverRunLifts(mid, acts[1..], r);
      run := [first] + run;
      if acts[0].Flush? {
        AcksFromNext(r.ackTx, |st.r.ackTx|);
        assert mid.r.ackTx[|st.r.ackTx|] == st.r.packIds;
      }
    }
  }

  lemma AcksFromNext(ackTx: seq<seq<nat>>, from: nat)
    requires from < |ackTx|
    ensures AcksFrom(ackTx, from) == {Ack(ackTx[from])} + AcksFrom(ackTx, from + 1)
  {
  }

  lemma ReachableOn(st: State, run: seq<Action>, t: State)
    requires Reachable(st) && Runs(st, run, t)
    ensures Reachable(t)
  {
    var before :| Runs(INITIAL, before, st);
    RunsConcat(INITIAL, before, st, run, t);
  }

  lemma ReachableNext(st: State, a: Action)
    requires Reachable(st) && Enabled(st, a)
    ensures Reachable(Apply(st, a))
  {
    assert [a][1..] == [];
    ReachableOn(st, [a], Apply(st, a));
  }
}
