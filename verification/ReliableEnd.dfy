/** The end of the sender: when the local stream closes, the sender's tasks end and every pack that
    no ack has confirmed is forgotten; while the sender's end is closing, only what its tasks are at
    still goes out.  What the receiver can still get is that and what has reached it or the
    network. */
module ReliableEnd {
  import opened Basics
  import opened ReliableStream
  import opened ReliableRecovery

  /** Pack `id` does not need the sender any more. */
  ghost predicate Available(st: State, id: nat)
    requires 1 <= id <= |st.s.taken|
  {
    || id in st.r.seen
    || id in st.r.cache
    || (st.r.hand.Some? && st.r.hand.value.id == id)
    || Data(Numbered(st.s.taken, id)) in st.net
  }

  ghost predicate AllAvailable(st: State) {
    forall id :: 1 <= id <= |st.s.taken| ==> Available(st, id)
  }

  /** Some continuation hands everything taken so far to the stream. */
  ghost predicate CanDeliverAll(st: State) {
    exists run, t :: Runs(st, run, t) && t.s.taken == st.s.taken && AllDelivered(t)
  }

  ghost predicate AllDelivered(t: State) {
    t.r.toStream == FirstPacks(t.s.taken, |t.s.taken|)
  }

  /** A closing sender still sends the pack its sending task has, and those its scan gets to. */
  ghost predicate Emittable(s: S.Sender, id: nat) {
    && !s.ended
    && (|| ((s.task.Holding? || s.task.Sending?) && s.task.pack.id == id)
        || ((s.timer.Carrying? || s.timer.Resending?) && s.timer.pack.id == id)
        || (!s.timer.Asleep? && id in s.waiting))
  }

  ghost predicate AllInReach(st: State) {
    forall id :: 1 <= id <= |st.s.taken| ==> Available(st, id) || Emittable(st.s, id)
  }

  // ----- what is out of reach stays so -----

  /** The sender's end is closing or has ended, and pack `id` is out of reach. */
  ghost predicate Lost(st: State, id: nat) {
    !Running(st.s) && 1 <= id <= |st.s.taken| && !Available(st, id) && !Emittable(st.s, id)
  }

  lemma LostStaysBySender(st: State, sa: S.Action, id: nat)
    requires Inv(st) && S.Enabled(st.s, sa) && Lost(st, id)
    ensures Lost(Apply(st, Sender(sa)), id)
  {
    var t := Apply(st, Sender(sa));
    assert Numbered(t.s.taken, id) == Numbered(st.s.taken, id);
  }

  lemma LostStays(st: State, a: Action, id: nat)
    requires Inv(st) && Enabled(st, a) && Lost(st, id)
    ensures Lost(Apply(st, a), id)
  {
    hide S.Inv, R.Inv;
    if a.Sender? {
      LostStaysBySender(st, a.sa, id);
    } else if a.DeliverAck? {
      EndedHasNothing(st);
      EndedIgnoresAcks(st.s, a.ids);
    } else {
      LostStaysElsewhere(st, a, id);
    }
  }

  lemma EndedHasNothing(st: State)
    requires Inv(st) && st.s.ended
    ensures st.s.waiting == map[]
  {
  }

  /** The receiver and the network get nothing they did not have. */
  lemma LostStaysElsewhere(st: State, a: Action, id: nat)
    requires Inv(st) && Enabled(st, a) && Lost(st, id) && !a.Sender? && !a.DeliverAck?
    ensures Lost(Apply(st, a), id)
  {
    hide S.Inv;
  }

  /** Acks find nothing once the tasks have ended. */
  lemma {:induction false} EndedIgnoresAcks(s: S.Sender, ids: seq<nat>)
    requires s.waiting == map[]
    ensures S.OnAck(s, ids) == s
    decreases ids
  {
    if ids == [] {
    } else {
      EndedIgnoresAcks(s, ids[1..]);
    }
  }

  lemma {:induction false} LostForGood(st: State, id: nat, run: seq<Action>, t: State)
    requires Inv(st) && Lost(st, id) && Runs(st, run, t) && |t.s.taken| < ID_MODULUS
    ensures Lost(t, id) && Inv(t)
    decreases run
  {
    hide Inv, Lost;
    if run == [] {
    } else {
      TakenGrows(Apply(st, run[0]), run[1..], t);
      LostStays(st, run[0], id);
      StepKeepsInv(st, run[0]);
      LostForGood(Apply(st, run[0]), id, run[1..], t);
    }
  }

  /** A lost pack is never accepted, in any run. */
  lemma NeverAccepted(st: State, id: nat, run: seq<Action>, t: State)
    requires Reachable(st) && |t.s.taken| < ID_MODULUS && Lost(st, id) && Runs(st, run, t)
    ensures id !in t.r.seen && !AllDelivered(t)
  {
    TakenGrows(st, run, t);
    ReachableInv(st);
    LostForGood(st, id, run, t);
  }

  // ----- what is available can be delivered -----

  /** The next pack is taken from the cache or the network, without the sender. */
  lemma DeliverNext(st: State, acts: seq<Action>, t: State) returns (acts': seq<Action>, t': State)
    requires Leads(st, acts, t) && t.r.phase.Listening? && AllAvailable(t) && t.r.accepted < |t.s.taken|
    ensures Leads(st, acts', t') && t'.r.phase.Listening? && AllAvailable(t')
    ensures t'.s.taken == t.s.taken && t'.r.accepted == t.r.accepted + 1
  {
    var id := t.r.accepted + 1;
    assert Available(t, id);
    acts', t' := acts, t;
    if id in t.r.cache {
      acts', t' := Then(st, acts', t', Receiver(R.Quiet));
      acts', t' := Then(st, acts', t', Receiver(R.Accept));
      acts', t' := FinishRound(st, acts', t');
    } else {
      acts', t' := Then(st, acts', t', DeliverData(Numbered(t.s.taken, id)));
      acts', t' := FinishRound(st, acts', t');
    }
    forall i | 1 <= i <= |t'.s.taken| ensures Available(t', i) {
      assert Available(t, i);
    }
  }

  lemma {:induction false} DeliverRest(st: State, acts: seq<Action>, t: State)
    returns (acts': seq<Action>, t': State)
    requires Leads(st, acts, t) && t.r.phase.Listening? && AllAvailable(t)
    ensures Leads(st, acts', t') && t'.s.taken == t.s.taken && AllDelivered(t')
    decreases |t.s.taken| - t.r.accepted
  {
    if t.r.accepted == |t.s.taken| {
      acts', t' := acts, t;
    } else {
      acts', t' := DeliverNext(st, acts, t);
      acts', t' := DeliverRest(st, acts', t');
    }
  }

  lemma AvailableDelivers(st: State) returns (acts: seq<Action>, t: State)
    requires Inv(st) && Open(st) && AllAvailable(st)
    ensures Runs(st, acts, t) && t.s.taken == st.s.taken && AllDelivered(t)
  {
    acts, t := [], st;
    if st.r.phase.Draining? {
      acts, t := FinishRound(st, acts, t);
      forall i | 1 <= i <= |t.s.taken| ensures Available(t, i) {
        assert Available(st, i);
      }
    }
    acts, t := DeliverRest(st, acts, t);
  }

  // ----- what a closing sender still sends -----

  /** The timeout task gets rid of what it has in hand. */
  lemma EmptyHands(st: State, acts: seq<Action>, t: State) returns (acts': seq<Action>, t': State)
    requires Leads(st, acts, t) && AllInReach(t) && !t.s.ended
    ensures Leads(st, acts', t') && AllInReach(t') && !t'.s.ended && t'.r == t.r && t'.s.task == t.s.task
    ensures t'.s.timer.Asleep? || t'.s.timer.Scanning?
  {
    acts', t' := acts, t;
    if t.s.timer.Popped? {
      acts', t' := FinishPopped(st, acts, t);
    } else if t.s.timer.Carrying? || t.s.timer.Resending? {
      acts', t' := FinishResend(st, acts, t);
    }
    forall i | 1 <= i <= |t'.s.taken| ensures Available(t', i) || Emittable(t'.s, i) {
      assert Available(t, i) || Emittable(t.s, i);
    }
  }

  /** Waiting packs that are not in the network. */
  ghost function Unsent(t: State): set<nat> {
    set id | id in t.s.waiting && Data(t.s.waiting[id]) !in t.net
  }

  /** The scan brings every waiting pack into the network. */
  lemma {:induction false} ScanAll(st: State, acts: seq<Action>, t: State) returns (acts': seq<Action>, t': State)
    requires Leads(st, acts, t) && t.s.timer.Scanning? && !t.s.ended
    ensures Leads(st, acts', t') && t'.s.timer.Scanning? && !t'.s.ended && t'.r == t.r && t'.s.task == t.s.task
    ensures t'.s.waiting == t.s.waiting && t.net <= t'.net && Unsent(t') == {}
    decreases |Unsent(t)|
  {
    acts', t' := acts, t;
    if Unsent(t) == {} {
    } else {
      var id :| id in Unsent(t);
      var j :| 0 <= j < |t.s.infos| && t.s.infos[j] == id;
      acts', t' := ResendById(st, acts, t, j);
      assert id !in Unsent(t') && Unsent(t') <= Unsent(t);
      SmallerSet(Unsent(t'), Unsent(t), id);
      acts', t' := ScanAll(st, acts', t');
    }
  }

  lemma SmallerSet(a: set<nat>, b: set<nat>, x: nat)
    requires a <= b && x in b && x !in a
    ensures |a| < |b|
  {
    assert b == a + (b - a) && x in b - a;
  }

  /** After a full scan everything is available but the pack of the sending task. */
  lemma ScannedIsAvailable(t: State, i: nat)
    requires Inv(t) && 1 <= i <= |t.s.taken| && (Available(t, i) || Emittable(t.s, i))
    requires t.s.timer.Asleep? || (t.s.timer.Scanning? && Unsent(t) == {})
    ensures Available(t, i) || ((t.s.task.Holding? || t.s.task.Sending?) && t.s.task.pack.id == i)
  {
    if t.s.timer.Scanning? && i in t.s.waiting {
      assert i !in Unsent(t);
    }
  }

  /** The sending task sends the pack it has, its last if the sender is closing. */
  lemma LastPack(t: State) returns (run: seq<Action>, t': State)
    requires Inv(t) && !t.s.ended && (t.s.task.Holding? || t.s.task.Sending?)
    ensures Runs(t, run, t') && Inv(t') && t'.r == t.r && t'.s.taken == t.s.taken
    ensures t'.net == t.net + {Data(t.s.task.pack)}
  {
    run, t' := [], t;
    if t.s.task.Holding? {
      t' := Apply(t, Sender(S.Register));
      StepKeepsInv(t, Sender(S.Register));
      run := [Sender(S.Register)];
      assert run[1..] == [];
    }
    var mid := t';
    StepKeepsInv(mid, Sender(S.Send));
    t' := Apply(mid, Sender(S.Send));
    assert [Sender(S.Send)][1..] == [] && Runs(mid, [Sender(S.Send)], t');
    RunsConcat(t, run, mid, [Sender(S.Send)], t');
    run := run + [Sender(S.Send)];
  }

  /** Everything within reach of a closing sender can be brought into the network. */
  lemma EmitAll(st: State) returns (run: seq<Action>, t: State)
    requires Inv(st) && Open(st) && AllInReach(st)
    ensures Runs(st, run, t) && Inv(t) && Open(t) && t.s.taken == st.s.taken && AllAvailable(t)
  {
    run, t := [], st;
    if !st.s.ended {
      run, t := EmptyHands(st, run, t);
      var u := t;
      if t.s.timer.Scanning? {
        run, t := ScanAll(st, run, t);
      }
      forall i | 1 <= i <= |t.s.taken|
        ensures Available(t, i) || ((t.s.task.Holding? || t.s.task.Sending?) && t.s.task.pack.id == i)
      {
        assert Available(u, i) || Emittable(u.s, i);
        ScannedIsAvailable(t, i);
      }
      if t.s.task.Holding? || t.s.task.Sending? {
        var mid := t;
        var last: seq<Action>;
        last, t := LastPack(mid);
        RunsConcat(st, run, mid, last, t);
        run := run + last;
        forall i | 1 <= i <= |t.s.taken| ensures Available(t, i) {
          assert Available(mid, i) || mid.s.task.pack.id == i;
        }
      }
    }
  }

  // ----- a receiver that is closed -----

  lemma ClosedStep(st: State, a: Action)
    requires Inv(st) && !Open(st) && Enabled(st, a)
    ensures !Open(Apply(st, a)) && Apply(st, a).r.toStream == st.r.toStream
  {
  }

  lemma {:induction false} ClosedTakesNothing(st: State, run: seq<Action>, t: State)
    requires Inv(st) && !Open(st) && Runs(st, run, t) && |t.s.taken| < ID_MODULUS
    ensures !Open(t) && t.r.toStream == st.r.toStream
    decreases run
  {
    hide Inv;
    if run == [] {
    } else {
      TakenGrows(Apply(st, run[0]), run[1..], t);
      ClosedStep(st, run[0]);
      StepKeepsInv(st, run[0]);
      ClosedTakesNothing(Apply(st, run[0]), run[1..], t);
    }
  }

  // ----- the exact condition -----

  /** For every reachable state: everything taken can still be delivered if and only if it is
      delivered already, or the receiver is open and the sender either runs and is not closing, or
      is not needed any more: every pack has been accepted, is cached, at hand or in the network,
      or is one that a closing sender still sends. */
  lemma DeliverableIff(st: State)
    requires Reachable(st) && |st.s.taken| < ID_MODULUS
    ensures CanDeliverAll(st) <==> AllDelivered(st) || (Open(st) && (Running(st.s) || AllInReach(st)))
  {
    ReachableInv(st);
    if AllDelivered(st) {
      assert Runs(st, [], st);
    } else if !Open(st) {
      forall run, t | Runs(st, run, t) && t.s.taken == st.s.taken ensures !AllDelivered(t) {
        ClosedTakesNothing(st, run, t);
      }
    } else if Running(st.s) {
      var run, t := Recoverable(st);
    } else if AllInReach(st) {
      ReachDelivers(st);
    } else {
      var id :| 1 <= id <= |st.s.taken| && !Available(st, id) && !Emittable(st.s, id);
      forall run, t | Runs(st, run, t) && t.s.taken == st.s.taken ensures !AllDelivered(t) {
        NeverAccepted(st, id, run, t);
      }
    }
  }

  lemma ReachDelivers(st: State)
    requires Inv(st) && Open(st) && AllInReach(st)
    ensures CanDeliverAll(st)
  {
    var run, mid := EmitAll(st);
    var rest, t := AvailableDelivers(mid);
    RunsConcat(st, run, mid, rest, t);
  }

  const ONE_SENT: seq<Action> :=
    [Sender(S.WindowOpen), Sender(S.Take([7])), Sender(S.Register), Sender(S.Send)]

  lemma OneSent() returns (t: State)
    ensures Runs(INITIAL, ONE_SENT, t) && t.net == {Data(Pack(1, [7]))} && t.r == R.INITIAL
    ensures t.s == S.Sender([[7]], 1, 1, map[1 := Pack(1, [7])], [1], S.Blocked, S.Asleep, {}, false, false)
  {
    var t1 := Apply(INITIAL, ONE_SENT[0]);
    var t2 := Apply(t1, ONE_SENT[1]);
    var t3 := Apply(t2, ONE_SENT[2]);
    t := Apply(t3, ONE_SENT[3]);
    assert Runs(t3, ONE_SENT[3..], t);
    assert ONE_SENT[2..][1..] == ONE_SENT[3..] && Runs(t2, ONE_SENT[2..], t);
    assert ONE_SENT[1..][1..] == ONE_SENT[2..] && Runs(t1, ONE_SENT[1..], t);
  }

  /** The input: a pack is sent and lost, and then the sender's tasks end, or its end begins to
      close.  The pack is gone for good, though the stream had taken it and the receiver is well. */
  lemma EndLosesPack(how: S.Action) returns (t: State)
    requires how == S.End || how == S.Closing
    ensures Runs(INITIAL, ONE_SENT + [Lose(Data(Pack(1, [7]))), Sender(how)], t) && Reachable(t)
    ensures Open(t) && t.s.taken == [[7]] && (how == S.End ==> !S.Kept(t.s, 1))
    ensures Lost(t, 1) && !CanDeliverAll(t)
  {
    var sent := OneSent();
    var last := [Lose(Data(Pack(1, [7]))), Sender(how)];
    var lost := Apply(sent, last[0]);
    t := Apply(lost, last[1]);
    assert last[1..] == [Sender(how)] && last[1..][1..] == [];
    assert Runs(lost, last[1..], t) && Runs(sent, last, t);
    RunsConcat(INITIAL, ONE_SENT, sent, last, t);
    LostCannotBeDelivered(t, 1);
  }

  lemma LostCannotBeDelivered(t: State, id: nat)
    requires Reachable(t) && |t.s.taken| < ID_MODULUS && Lost(t, id)
    ensures !CanDeliverAll(t)
  {
    forall run, u | Runs(t, run, u) && u.s.taken == t.s.taken ensures !AllDelivered(u) {
      NeverAccepted(t, id, run, u);
    }
  }
}
