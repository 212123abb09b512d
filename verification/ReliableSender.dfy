/** The sending half of any-tunnel2's `StreamPack`: the task that takes payloads from
    the local stream, the task that retransmits on timeout, and the ack handler.
    The three share the map of un-acked packs, the list of timeout entries and the
    byte window.  One action is the code between two suspension points.  When one of the tasks
    ends, all end, and what was not acked goes with them. */
module ReliableSender {
  import opened Basics

  const WINDOW: nat := 1024 * 1024

  /** The task of `stream_to_stream_pack`: waiting for window space, waiting for data,
      holding a pack that is not registered yet, sending a registered pack. */
  datatype Task = Blocked | Ready | Holding(pack: Pack) | Sending(pack: Pack)

  /** The task of `check_waiting_pack_timeout`: between two scans of the timeout list, in a scan, or
      with an entry or a pack of it in hand. */
  datatype Timer = Asleep | Scanning | Popped(id: nat) | Carrying(pack: Pack) | Resending(pack: Pack)

  /** `taken` (payloads taken from the stream so far) and `acked` (ids removed by an ack)
      are histories, `closing` is the source's `is_close` at this end, `ended` tells that the tasks
      are over; the other fields are the source's. */
  datatype Sender = Sender(
    taken: seq<Bytes>,
    packId: nat,
    window: int,
    waiting: map<nat, Pack>,
    infos: seq<nat>,
    task: Task,
    timer: Timer,
    acked: set<nat>,
    closing: bool,
    ended: bool)

  const INITIAL := Sender([], 0, 0, map[], [], Blocked, Asleep, {}, false, false)

  datatype Action =
    | WindowOpen
    | RecvTimeout
    | Take(data: Bytes)
    | Register
    | Send
    | WakeUp
    | ScanEnd
    | PopExpired
    | TakeExpired
    | Reregister
    | Resend
    | Closing
    | End

  /** The receive loop of this end fails: from then on acks are not read, no scan begins, and the
      sending task returns after the pack it is at.  The tasks run in one `select!`, which the local stream's close ends, and the peer's, a
      heartbeat without an answer and a closed connection too: at any time. */
  predicate Enabled(s: Sender, a: Action) {
    && !s.ended
    && match a
       case WindowOpen => s.task.Blocked? && s.window < WINDOW
       case RecvTimeout => s.task.Ready?
       case Take(_) => s.task.Ready?
       case Register => s.task.Holding?
       case Send => s.task.Sending?
       case WakeUp => s.timer.Asleep? && !s.closing
       case ScanEnd => s.timer.Scanning?
       case PopExpired => s.timer.Scanning? && s.infos != []
       case TakeExpired => s.timer.Popped?
       case Reregister => s.timer.Carrying?
       case Resend => s.timer.Resending?
       case Closing => !s.closing
       case End => true
  }

  /** The tasks are over, and what no ack has confirmed goes with them. */
  function Ended(s: Sender): Sender {
    s.(ended := true, waiting := map[], infos := [], task := Blocked, timer := Asleep)
  }

  function Apply(s: Sender, a: Action): Sender
    requires Enabled(s, a)
  {
    match a
    case WindowOpen => s.(task := Ready)
    case RecvTimeout => if s.closing then Ended(s) else s.(task := Blocked)
    case Take(data) =>
      var id := NextId(s.packId);
      s.(taken := s.taken + [data], packId := id, window := s.window + |data|, task := Holding(Pack(id, data)))
    case Register =>
      var p := s.task.pack;
      s.(infos := s.infos + [p.id], waiting := s.waiting[p.id := p], task := Sending(p))
    case Send => if s.closing then Ended(s) else s.(task := Blocked)
    case WakeUp => s.(timer := Scanning)
    case ScanEnd => s.(timer := Asleep)
    case PopExpired => s.(timer := Popped(s.infos[0]), infos := s.infos[1..])
    case TakeExpired =>
      var id := s.timer.id;
      if id in s.waiting then s.(timer := Carrying(s.waiting[id]), waiting := s.waiting - {id})
      else s.(timer := Scanning)
    case Reregister =>
      var p := s.timer.pack;
      s.(infos := s.infos + [p.id], waiting := s.waiting[p.id := p], timer := Resending(p))
    case Resend => s.(timer := Scanning)
    case Closing => s.(closing := true)
    case End => Ended(s)
  }

  /** What an action puts on the way to the peer. */
  function Emitted(s: Sender, a: Action): Option<Pack>
    requires Enabled(s, a)
  {
    match a
    case Send => Some(s.task.pack)
    case Resend => Some(s.timer.pack)
    case _ => None
  }

  /** One acked id: an id that is not waiting is ignored. */
  function AckOne(s: Sender, id: nat): Sender {
    if id in s.waiting then
      s.(waiting := s.waiting - {id}, window := s.window - |s.waiting[id].data|, acked := s.acked + {id})
    else s
  }

  /** A whole ack message; the source holds the map's lock for the whole loop. */
  function OnAck(s: Sender, ids: seq<nat>): Sender
    decreases ids
  {
    if ids == [] then s else OnAck(AckOne(s, ids[0]), ids[1..])
  }

  lemma {:induction false} OnAckSnoc(s: Sender, ids: seq<nat>, id: nat)
    ensures OnAck(s, ids + [id]) == AckOne(OnAck(s, ids), id)
    decreases ids
  {
    if ids == [] {
      assert (ids + [id])[1..] == [];
    } else {
      assert (ids + [id])[1..] == ids[1..] + [id];
      OnAckSnoc(AckOne(s, ids[0]), ids[1..], id);
    }
  }

  // ----- invariant -----

  ghost predicate Held(s: Sender, id: nat) {
    s.task.Holding? && s.task.pack.id == id
  }

  ghost predicate Carried(s: Sender, id: nat) {
    s.timer.Carrying? && s.timer.pack.id == id
  }

  /** An un-acked id is waiting, about to be registered, or in the hands of the timeout task. */
  ghost predicate Kept(s: Sender, id: nat) {
    id in s.waiting || Held(s, id) || Carried(s, id)
  }

  ghost predicate NoDuplicates(xs: seq<nat>) {
    forall i, j :: 0 <= i < j < |xs| ==> xs[i] != xs[j]
  }

  /** Total payload of the packs that no ack has removed. */
  ghost function Outstanding(taken: seq<Bytes>, acked: set<nat>): nat {
    if taken == [] then 0
    else
      var n := |taken|;
      Outstanding(taken[..n - 1], acked) + if n in acked then 0 else |taken[n - 1]|
  }

  /** While the tasks run, every issued id is exactly one of: acked, waiting, held, carried. */
  ghost predicate Partition(s: Sender) {
    && (!s.ended ==> forall id :: 1 <= id <= |s.taken| ==> id in s.acked || Kept(s, id))
    && (s.ended ==> s.waiting == map[] && s.infos == [] && s.task == Blocked && s.timer == Asleep)
    && (forall id <- s.acked :: 1 <= id <= |s.taken| && !Kept(s, id))
    && (forall id <- s.waiting :: s.waiting[id].id == id && Genuine(s.taken, s.waiting[id]))
    && (forall id <- s.waiting :: !Held(s, id) && !Carried(s, id))
    && (s.task.Holding? ==> Genuine(s.taken, s.task.pack) && !Carried(s, s.task.pack.id))
    && (s.task.Sending? ==> Genuine(s.taken, s.task.pack))
    && (s.timer.Carrying? ==> Genuine(s.taken, s.timer.pack))
    && (s.timer.Resending? ==> Genuine(s.taken, s.timer.pack))
  }

  /** Every waiting id has exactly one timeout entry, or the timeout task has just popped it. */
  ghost predicate Scheduled(s: Sender) {
    && NoDuplicates(s.infos)
    && (forall id <- s.waiting :: id in s.infos || s.timer == Popped(id))
    && (s.timer.Popped? ==> 1 <= s.timer.id <= |s.taken| && s.timer.id !in s.infos && !Held(s, s.timer.id))
    && (s.timer.Carrying? ==> s.timer.pack.id !in s.infos)
    && (s.task.Holding? ==> s.task.pack.id !in s.infos)
    && (forall id <- s.infos :: 1 <= id <= |s.taken|)
  }

  ghost predicate Inv(s: Sender) {
    && |s.taken| < ID_MODULUS
    && s.packId == |s.taken|
    && Partition(s)
    && Scheduled(s)
    && s.window == Outstanding(s.taken, s.acked)
    && (s.task.Ready? ==> s.window < WINDOW)
  }

  lemma {:induction false} OutstandingMore(taken: seq<Bytes>, data: Bytes, acked: set<nat>)
    requires |taken| + 1 !in acked
    ensures Outstanding(taken + [data], acked) == Outstanding(taken, acked) + |data|
  {
    assert (taken + [data])[..|taken|] == taken;
  }

  lemma {:induction false} OutstandingAcked(taken: seq<Bytes>, acked: set<nat>, id: nat)
    requires 1 <= id
    ensures |taken| < id || id in acked ==> Outstanding(taken, acked + {id}) == Outstanding(taken, acked)
    ensures id <= |taken| && id !in acked ==>
              Outstanding(taken, acked + {id}) == Outstanding(taken, acked) - |taken[id - 1]|
  {
    if taken == [] {
    } else {
      OutstandingAcked(taken[..|taken| - 1], acked, id);
    }
  }

  lemma AckOneKeepsInv(s: Sender, id: nat)
    requires Inv(s)
    ensures Inv(AckOne(s, id)) && AckOne(s, id).taken == s.taken
    ensures AckOne(s, id).acked <= s.acked + {id}
  {
    if id in s.waiting {
      var t := AckOne(s, id);
      OutstandingAcked(s.taken, s.acked, id);
      assert forall i :: 1 <= i <= |s.taken| ==> Kept(t, i) == (Kept(s, i) && i != id);
    }
  }

  lemma {:induction false} OnAckKeepsInv(s: Sender, ids: seq<nat>)
    requires Inv(s)
    ensures Inv(OnAck(s, ids)) && OnAck(s, ids).taken == s.taken
    ensures forall id <- OnAck(s, ids).acked :: id in s.acked || id in ids
    decreases ids
  {
    if ids == [] {
    } else {
      AckOneKeepsInv(s, ids[0]);
      OnAckKeepsInv(AckOne(s, ids[0]), ids[1..]);
    }
  }

  lemma TakeKeepsInv(s: Sender, data: Bytes)
    requires Inv(s) && Enabled(s, Take(data)) && |s.taken| + 1 < ID_MODULUS
    ensures Inv(Apply(s, Take(data)))
  {
    var t := Apply(s, Take(data));
    OutstandingMore(s.taken, data, s.acked);
    assert forall i :: Kept(t, i) == (Kept(s, i) || i == t.packId);
  }

  lemma SendTaskKeepsInv(s: Sender, a: Action)
    requires Inv(s) && Enabled(s, a)
    requires a.WindowOpen? || a.RecvTimeout? || a.Register? || a.Send?
    requires !Apply(s, a).ended
    ensures Inv(Apply(s, a))
  {
    assert forall i :: Kept(Apply(s, a), i) == Kept(s, i);
  }

  lemma PopKeepsInv(s: Sender)
    requires Inv(s) && Enabled(s, PopExpired)
    ensures Inv(Apply(s, PopExpired))
  {
    assert s.infos[0] in s.infos;
    assert forall x <- s.infos[1..] :: x in s.infos;
    assert forall i :: Kept(Apply(s, PopExpired), i) == Kept(s, i);
  }

  lemma TakeExpiredKeepsInv(s: Sender)
    requires Inv(s) && Enabled(s, TakeExpired)
    ensures Inv(Apply(s, TakeExpired))
  {
    assert s.timer.id in s.waiting ==> s.waiting[s.timer.id].id == s.timer.id;
    assert forall i :: Kept(Apply(s, TakeExpired), i) == Kept(s, i);
  }

  lemma ReregisterKeepsInv(s: Sender)
    requires Inv(s) && Enabled(s, Reregister)
    ensures Inv(Apply(s, Reregister))
  {
    assert forall i :: Kept(Apply(s, Reregister), i) == Kept(s, i);
  }

  /** Steps that move no pack. */
  lemma IdleKeepsInv(s: Sender, a: Action)
    requires Inv(s) && Enabled(s, a) && (a.Resend? || a.WakeUp? || a.ScanEnd? || a.Closing?)
    ensures Inv(Apply(s, a))
  {
    assert forall i :: Kept(Apply(s, a), i) == Kept(s, i);
  }

  lemma EndKeepsInv(s: Sender)
    requires Inv(s)
    ensures Inv(Ended(s))
  {
    assert forall i :: !Kept(Ended(s), i);
  }

  lemma ApplyKeepsInv(s: Sender, a: Action)
    requires Inv(s) && Enabled(s, a)
    requires |Apply(s, a).taken| < ID_MODULUS
    ensures Inv(Apply(s, a)) && Apply(s, a).acked == s.acked
  {
    hide Partition, Scheduled;
    if Apply(s, a).ended {
      EndKeepsInv(s);
      return;
    }
    match a
    case Take(data) => TakeKeepsInv(s, data);
    case WindowOpen => SendTaskKeepsInv(s, a);
    case RecvTimeout => SendTaskKeepsInv(s, a);
    case Register => SendTaskKeepsInv(s, a);
    case Send => SendTaskKeepsInv(s, a);
    case PopExpired => PopKeepsInv(s);
    case TakeExpired => TakeExpiredKeepsInv(s);
    case Reregister => ReregisterKeepsInv(s);
    case _ => IdleKeepsInv(s, a);
  }
}
