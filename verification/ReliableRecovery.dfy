/** Recovery: whatever the network has lost, an open any-tunnel2 stream can still deliver
    everything as long as the sender's tasks run and its end is not closing.  From every such reachable state there is a
    continuation that takes no new payload and ends with all payloads delivered and acked and the
    window empty. */
module ReliableRecovery {
  import opened Basics
  import opened ReliableStream

  ghost predicate Open(st: State) {
    st.r.streamOpen && !st.r.isClose
  }

  /** `acts` leads from `st` to `t` without taking payloads, closing or ending anything. */
  ghost predicate Leads(st: State, acts: seq<Action>, t: State) {
    && Runs(st, acts, t) && Inv(t) && Open(t)
    && t.s.taken == st.s.taken && t.s.ended == st.s.ended && t.s.closing == st.s.closing
  }

  /** The tasks run, acks are read and timeouts scanned. */
  ghost predicate Running(s: S.Sender) {
    !s.ended && !s.closing
  }

  /** No task is in the middle of something. */
  ghost predicate Settled(st: State) {
    (st.s.timer.Asleep? || st.s.timer.Scanning?) && (st.s.task.Blocked? || st.s.task.Ready?) && st.r.phase.Listening?
  }

  predicate Harmless(a: Action) {
    match a
    case Sender(sa) => !sa.Take? && !sa.Closing? && !sa.End?
    case Receiver(ra) => !ra.Fail? && !ra.StreamCloses?
    case _ => true
  }

  lemma InvBounds(t: State)
    requires Inv(t)
    ensures |t.s.taken| < ID_MODULUS
  {
  }

  lemma Extend(st: State, acts: seq<Action>, t: State, a: Action)
    requires Leads(st, acts, t) && Enabled(t, a) && Harmless(a)
    requires a.Sender? ==> Apply(t, a).s.ended == t.s.ended
    ensures Leads(st, acts + [a], Apply(t, a))
  {
    hide Inv;
    if a.DeliverAck? {
      OnAckSameTaken(t.s, a.ids);
      OnAckSameEnded(t.s, a.ids);
    }
    InvBounds(t);
    StepKeepsInv(t, a);
    assert [a][1..] == [];
    RunsConcat(st, acts, t, [a], Apply(t, a));
  }

  lemma {:induction false} OnAckSameEnded(s: S.Sender, ids: seq<nat>)
    ensures S.OnAck(s, ids).ended == s.ended && S.OnAck(s, ids).closing == s.closing
    decreases ids
  {
    if ids == [] {
    } else {
      OnAckSameEnded(S.AckOne(s, ids[0]), ids[1..]);
    }
  }

  /** Lets the two sender tasks finish what they are doing. */
  lemma SettleSender(st: State) returns (acts: seq<Action>, t: State)
    requires Inv(st) && Open(st) && Running(st.s)
    ensures Leads(st, acts, t) && (t.s.timer.Asleep? || t.s.timer.Scanning?)
    ensures t.r == st.r && (t.s.task.Blocked? || t.s.task.Ready?)
  {
    acts, t := [], st;
    if t.s.task.Holding? {
      acts, t := Then(st, acts, t, Sender(S.Register));
    }
    if t.s.task.Sending? {
      acts, t := Then(st, acts, t, Sender(S.Send));
    }
    if t.s.timer.Popped? {
      acts, t := FinishPopped(st, acts, t);
    } else if t.s.timer.Carrying? || t.s.timer.Resending? {
      acts, t := FinishResend(st, acts, t);
    }
  }

  lemma Then(st: State, acts: seq<Action>, t: State, a: Action) returns (acts': seq<Action>, t': State)
    requires Leads(st, acts, t) && Enabled(t, a) && Harmless(a)
    requires a.Sender? ==> Apply(t, a).s.ended == t.s.ended
    ensures Leads(st, acts', t') && t' == Apply(t, a)
  {
    Extend(st, acts, t, a);
    acts', t' := acts + [a], Apply(t, a);
  }

  /** The timeout task registers and resends the pack it carries. */
  lemma FinishResend(st: State, acts: seq<Action>, t: State) returns (acts': seq<Action>, t': State)
    requires Leads(st, acts, t) && (t.s.timer.Carrying? || t.s.timer.Resending?) && !t.s.ended
    ensures Leads(st, acts', t') && t'.s.timer.Scanning? && !t'.s.ended && t'.s.closing == t.s.closing
    ensures t'.r == t.r && t'.s.task == t.s.task && t'.s.acked == t.s.acked
    ensures t.net <= t'.net && Data(t.s.timer.pack) in t'.net
    ensures t.s.timer.Carrying? ==>
              && t'.s.waiting == t.s.waiting[t.s.timer.pack.id := t.s.timer.pack]
              && t'.s.infos == t.s.infos + [t.s.timer.pack.id]
    ensures t.s.timer.Resending? ==> t'.s.waiting == t.s.waiting
  {
    acts', t' := acts, t;
    if t'.s.timer.Carrying? {
      acts', t' := Then(st, acts', t', Sender(S.Reregister));
    }
    acts', t' := Then(st, acts', t', Sender(S.Resend));
  }

  /** The timeout task deals with the entry it has popped: a pack still waiting is resent and
      listed again, an entry left behind by an ack is dropped. */
  lemma FinishPopped(st: State, acts: seq<Action>, t: State) returns (acts': seq<Action>, t': State)
    requires Leads(st, acts, t) && t.s.timer.Popped? && !t.s.ended
    ensures Leads(st, acts', t') && t'.s.timer.Scanning? && !t'.s.ended && t'.s.closing == t.s.closing
    ensures t'.r == t.r && t'.s.task == t.s.task && t'.s.acked == t.s.acked && t.net <= t'.net
    ensures t'.s.waiting == t.s.waiting
    ensures t'.s.infos == t.s.infos + if t.s.timer.id in t.s.waiting then [t.s.timer.id] else []
    ensures t.s.timer.id in t.s.waiting ==> Data(t.s.waiting[t.s.timer.id]) in t'.net
  {
    hide Runs;
    var id := t.s.timer.id;
    acts', t' := Then(st, acts, t, Sender(S.TakeExpired));
    if id in t.s.waiting {
      var p := t.s.waiting[id];
      assert p.id == id;
      acts', t' := FinishResend(st, acts', t');
      assert (t.s.waiting - {id})[id := p] == t.s.waiting;
    }
  }

  /** What finishing a round relies on. */
  lemma RoundFacts(st: State, acts: seq<Action>, t: State)
    requires Leads(st, acts, t)
    ensures t.r.streamOpen && (t.r.hand.Some? ==> t.r.moving.None?)
  {
  }

  /** The receiver finishes its round. */
  lemma FinishRound(st: State, acts: seq<Action>, t: State) returns (acts': seq<Action>, t': State)
    requires Leads(st, acts, t) && t.r.phase.Draining?
    ensures Leads(st, acts', t') && t'.r.phase.Listening? && t'.s == t.s
    ensures t.net <= t'.net && t'.r.cache == t.r.cache
    ensures t'.r.accepted == t.r.accepted + if t.r.hand.Some? then 1 else 0
    ensures t.r.hand.Some? && t.r.packIds == [] ==> Ack([t.r.hand.value.id]) in t'.net
    ensures t.r.hand.None? && t.r.packIds != [] ==> Ack(t.r.packIds) in t'.net
  {
    hide Leads;
    RoundFacts(st, acts, t);
    acts', t' := acts, t;
    if t'.r.hand.Some? {
      acts', t' := Then(st, acts', t', Receiver(R.Accept));
      assert t.r.packIds == [] ==> t'.r.packIds == [t.r.hand.value.id];
    }
    if t'.r.moving.Some? {
      acts', t' := Then(st, acts', t', Receiver(R.HandOver));
    }
    if t'.r.packIds != [] {
      acts', t' := Then(st, acts', t', Receiver(R.Flush));
    }
    acts', t' := Then(st, acts', t', Receiver(R.EndRound));
  }

  /** A scan rotates the list until the entry at position `j` comes up and its pack is resent. */
  lemma {:induction false} ResendById(st: State, acts: seq<Action>, t: State, j: nat)
    returns (acts': seq<Action>, t': State)
    requires Leads(st, acts, t) && t.s.timer.Scanning? && !t.s.ended
    requires j < |t.s.infos| && t.s.infos[j] in t.s.waiting
    ensures Leads(st, acts', t') && t'.s.timer.Scanning? && !t'.s.ended && t'.s.closing == t.s.closing
    ensures t'.r == t.r && t'.s.task == t.s.task && t.net <= t'.net
    ensures t'.s.waiting == t.s.waiting && t'.s.acked == t.s.acked
    ensures Data(t.s.waiting[t.s.infos[j]]) in t'.net
    decreases j
  {
    hide Leads;
    acts', t' := Then(st, acts, t, Sender(S.PopExpired));
    var infos := t'.s.infos;
    acts', t' := FinishPopped(st, acts', t');
    if j == 0 {
    } else {
      assert infos[j - 1] == t.s.infos[j];
      acts', t' := ResendById(st, acts', t', j - 1);
    }
  }

  /** A waiting pack is resent. */
  lemma ResendWaiting(st: State, acts: seq<Action>, t: State, id: nat) returns (acts': seq<Action>, t': State)
    requires Leads(st, acts, t) && Settled(t) && id in t.s.waiting && Running(t.s)
    ensures Leads(st, acts', t') && Settled(t') && Running(t'.s) && t'.r == t.r
    ensures t'.s.waiting == t.s.waiting && Data(t.s.waiting[id]) in t'.net
  {
    var j :| 0 <= j < |t.s.infos| && t.s.infos[j] == id;
    hide Leads;
    acts', t' := acts, t;
    if t.s.timer.Asleep? {
      acts', t' := Then(st, acts', t', Sender(S.WakeUp));
    }
    acts', t' := ResendById(st, acts', t', j);
  }

  /** One pack that is next in order, or already accepted, is resent, received and acked. */
  lemma Serve(st: State, acts: seq<Action>, t: State, id: nat) returns (acts': seq<Action>, t': State)
    requires Leads(st, acts, t) && Settled(t) && id in t.s.waiting && Running(t.s)
    requires id in t.r.seen || id == t.r.accepted + 1
    ensures Leads(st, acts', t') && Settled(t')
    ensures t'.s.waiting == t.s.waiting - {id} && Running(t'.s)
  {
    acts', t' := ResendWaiting(st, acts, t, id);
    var s := t'.s;
    acts', t' := Then(st, acts', t', DeliverData(s.waiting[id]));
    acts', t' := FinishRound(st, acts', t');
    acts', t' := Then(st, acts', t', DeliverAck([id]));
    assert S.OnAck(s, [id]) == S.OnAck(S.AckOne(s, id), []) by {
      assert [id][1..] == [];
    }
  }

  /** The missing packs come first, in order. */
  lemma NextToServe(st: State, acts: seq<Action>, t: State) returns (id: nat)
    requires Leads(st, acts, t) && Settled(t) && Running(t.s) && t.s.waiting != map[]
    ensures id in t.s.waiting && (id in t.r.seen || id == t.r.accepted + 1)
  {
    hide Runs;
    if t.r.accepted < |t.s.taken| {
      id := t.r.accepted + 1;
      assert S.Kept(t.s, id);
    } else {
      assert exists i :: i in t.s.waiting;
      id :| id in t.s.waiting;
    }
  }

  /** Serves the waiting packs one by one, the missing ones in order first. */
  lemma {:induction false} ServeAll(st: State, acts: seq<Action>, t: State)
    returns (acts': seq<Action>, t': State)
    requires Leads(st, acts, t) && Settled(t) && Running(t.s)
    ensures Leads(st, acts', t') && Settled(t') && t'.s.waiting == map[]
    decreases |t.s.waiting.Keys|
  {
    acts', t' := acts, t;
    if t.s.waiting != map[] {
      hide Leads;
      var id := NextToServe(st, acts, t);
      acts', t' := Serve(st, acts, t, id);
      assert t'.s.waiting.Keys < t.s.waiting.Keys;
      assert t.s.waiting.Keys == t'.s.waiting.Keys + {id};
      acts', t' := ServeAll(st, acts', t');
    }
  }

  lemma {:induction false} NothingOutstanding(taken: seq<Bytes>, acked: set<nat>)
    requires forall id :: 1 <= id <= |taken| ==> id in acked
    ensures S.Outstanding(taken, acked) == 0
  {
    if taken == [] {
    } else {
      NothingOutstanding(taken[..|taken| - 1], acked);
    }
  }

  /** No reachable state of an open stream with a running sender is beyond repair, whatever was
      lost. */
  lemma Recoverable(st: State) returns (acts: seq<Action>, t: State)
    requires Reachable(st) && |st.s.taken| < ID_MODULUS && Open(st) && Running(st.s)
    ensures Runs(st, acts, t) && t.s.taken == st.s.taken
    ensures t.r.toStream == FirstPacks(st.s.taken, |st.s.taken|)
    ensures t.s.waiting == map[] && t.s.window == 0
    ensures forall id :: 1 <= id <= |st.s.taken| ==> id in t.s.acked
  {
    ReachableInv(st);
    acts, t := SettleSender(st);
    if t.r.phase.Draining? {
      acts, t := FinishRound(st, acts, t);
    }
    acts, t := ServeAll(st, acts, t);
    assert forall id :: 1 <= id <= |st.s.taken| ==> !S.Kept(t.s, id);
    NothingOutstanding(t.s.taken, t.s.acked);
    if |st.s.taken| > 0 {
      assert |st.s.taken| in t.s.acked;
    }
  }
}
