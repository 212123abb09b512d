/** `PeerClientToStream`: the receiving end of any-tunnel's striping.  Packs come from many
    connections through one channel, in any order, and go to the stream by id. */
module StripeReceiver {
  import opened Basics

  /** `finishing` is the source's `is_close`: the channel is closed and drained.  `toStream` is
      all that was handed to the stream, `eos` whether the stream was closed behind it. */
  datatype Receiver = Receiver(
    packId: nat,
    cache: map<nat, Pack>,
    finishing: bool,
    draining: bool,
    hand: Option<Pack>,
    toStream: seq<Pack>,
    eos: bool)

  const INITIAL := Receiver(1, map[], false, false, None, [], false)

  datatype Action =
    | Recv(pack: Pack)
    | RecvTimeout
    | RecvClosed
    | Accept
    | TimerBreak
    | DrainEnd
    | EndOfStream

  predicate Enabled(r: Receiver, a: Action) {
    match a
    case Recv(_) => !r.draining && !r.finishing
    case RecvTimeout => !r.draining && !r.finishing
    case RecvClosed => !r.draining && !r.finishing
    case Accept => r.draining && (r.hand.Some? || r.packId in r.cache)
    case TimerBreak => r.draining && r.hand.None? && !r.finishing
    case DrainEnd => r.draining && r.hand.None? && r.packId !in r.cache
    case EndOfStream => r.finishing && !r.draining && !r.eos
  }

  /** `read_tunnel_data` on a data pack: an old id or a cached id is dropped. */
  function OnData(r: Receiver, p: Pack): Receiver {
    if p.id < r.packId then r
    else if p.id == r.packId then r.(hand := Some(p))
    else if p.id in r.cache then r
    else r.(cache := r.cache[p.id := p])
  }

  function Apply(r: Receiver, a: Action): Receiver
    requires Enabled(r, a)
  {
    match a
    case Recv(p) => OnData(r, p).(draining := true)
    case RecvTimeout => r.(draining := true)
    case RecvClosed => r.(finishing := true, draining := true)
    case Accept =>
      var p := if r.hand.Some? then r.hand.value else r.cache[r.packId];
      var rest := if r.hand.Some? then r.cache else r.cache - {r.packId};
      r.(packId := NextId(r.packId), cache := rest, hand := None, toStream := r.toStream + [p])
    case TimerBreak => r.(draining := false)
    case DrainEnd => r.(draining := false)
    case EndOfStream => r.(eos := true)
  }

  ghost predicate Runs(r: Receiver, acts: seq<Action>, t: Receiver)
    decreases acts
  {
    if acts == [] then r == t
    else Enabled(r, acts[0]) && Runs(Apply(r, acts[0]), acts[1..], t)
  }

  lemma {:induction false} RunsConcat(r: Receiver, xs: seq<Action>, mid: Receiver, ys: seq<Action>, t: Receiver)
    requires Runs(r, xs, mid) && Runs(mid, ys, t)
    ensures Runs(r, xs + ys, t)
    decreases xs
  {
    if xs == [] {
      assert xs + ys == ys;
    } else {
      assert (xs + ys)[1..] == xs[1..] + ys;
      RunsConcat(Apply(r, xs[0]), xs[1..], mid, ys, t);
    }
  }

  lemma RunsOne(r: Receiver, a: Action)
    requires Enabled(r, a)
    ensures Runs(r, [a], Apply(r, a))
  {
    assert [a][1..] == [];
  }

  ghost predicate Inv(r: Receiver, written: seq<Bytes>) {
    && |written| < ID_MODULUS
    && |r.toStream| <= |written|
    && r.toStream == FirstPacks(written, |r.toStream|)
    && r.packId == NextId(|r.toStream|)
    && (forall id <- r.cache :: r.cache[id].id == id && Genuine(written, r.cache[id]))
    && (r.hand.Some? ==> r.draining && r.hand.value.id == r.packId && Genuine(written, r.hand.value))
    && (r.finishing && !r.draining ==> r.packId !in r.cache)
    && (r.eos ==> r.finishing && !r.draining)
  }

  /** Either received already, or held by the receiver. */
  ghost predicate Has(r: Receiver, id: nat) {
    id <= |r.toStream| || id in r.cache || (r.hand.Some? && r.hand.value.id == id)
  }

  lemma ApplyKeepsInv(r: Receiver, a: Action, written: seq<Bytes>)
    requires Inv(r, written) && Enabled(r, a)
    requires a.Recv? ==> Genuine(written, a.pack)
    ensures Inv(Apply(r, a), written)
    ensures forall id :: Has(r, id) || (a.Recv? && a.pack.id == id) ==> Has(Apply(r, a), id)
  {
    if a.Accept? {
      FirstPacksStep(written, |r.toStream|);
      assert forall id <- Apply(r, a).cache :: id in r.cache;
    }
  }

  lemma MoreWrittenKeepsInv(r: Receiver, written: seq<Bytes>, data: Bytes)
    requires Inv(r, written) && |written| + 1 < ID_MODULUS
    ensures Inv(r, written + [data])
  {
    FirstPacksGrow(written, data, |r.toStream|);
  }

  /** What the receive of one second yields. */
  datatype Incoming = Timeout | ChannelClosed | Data(pack: Pack)

  /** The action it stands for. */
  function FirstAct(incoming: Incoming): Action {
    match incoming
    case Timeout => RecvTimeout
    case ChannelClosed => RecvClosed
    case Data(p) => Recv(p)
  }

  /** The actions of the drain loop; none of them brings a pack in. */
  predicate Draws(a: Action) {
    a.Accept? || a.TimerBreak? || a.DrainEnd?
  }

  /** `n` packs with consecutive ids, from the one expected, went to the stream. */
  ghost predicate Given(r: Receiver, t: Receiver, n: nat) {
    && r.toStream <= t.toStream && |t.toStream| == |r.toStream| + n
    && Ids(t.toStream[|r.toStream|..]) == IdsFrom(r.packId, n)
    && t.packId == IdAfter(r.packId, n)
  }

  lemma GivenMore(r: Receiver, mid: Receiver, t: Receiver, n: nat, p: Pack)
    requires Given(r, mid, n) && p.id == mid.packId
    requires t.toStream == mid.toStream + [p] && t.packId == NextId(mid.packId)
    ensures Given(r, t, n + 1)
  {
    var given, given' := mid.toStream[|r.toStream|..], t.toStream[|r.toStream|..];
    assert given' == given + [p];
    assert Ids(given') == Ids(given) + [p.id];
  }

  lemma GivenSame(r: Receiver, mid: Receiver, t: Receiver, n: nat)
    requires Given(r, mid, n) && t.toStream == mid.toStream && t.packId == mid.packId
    ensures Given(r, t, n)
  {
  }

  /** One receive and then nothing but the drain loop. */
  ghost predicate OneReceive(acts: seq<Action>, first: Action) {
    acts != [] && acts[0] == first && forall a <- acts[1..] :: Draws(a)
  }

  lemma OneReceiveMore(acts: seq<Action>, first: Action, more: seq<Action>)
    requires OneReceive(acts, first) && forall a <- more :: Draws(a)
    ensures OneReceive(acts + more, first)
  {
    assert (acts + more)[1..] == acts[1..] + more;
  }

  lemma NothingGiven(r: Receiver, t: Receiver, first: Action)
    requires t.toStream == r.toStream && t.packId == r.packId
    ensures Given(r, t, 0) && OneReceive([first], first)
  {
  }

  ghost predicate Never(timer: nat -> bool) {
    forall i :: !timer(i)
  }

  class PeerClientToStream {
    var packId: nat
    var recvPackCacheMap: map<nat, Pack>
    var isClose: bool
    var streamTx: seq<Pack>

    constructor ()
      ensures Model() == INITIAL && Keyed()
    {
      packId, recvPackCacheMap, isClose, streamTx := 1, map[], false, [];
    }

    ghost function Model(): Receiver
      reads this
    {
      Inside(false, None)
    }

    ghost function Inside(draining: bool, hand: Option<Pack>): Receiver
      reads this
    {
      Receiver(packId, recvPackCacheMap, isClose, draining, hand, streamTx, false)
    }

    /** Cached packs are found under their own ids. */
    ghost predicate Keyed()
      reads this
    {
      forall id <- recvPackCacheMap :: recvPackCacheMap[id].id == id
    }

    /** The pack that a turn of the drain loop accepts. */
    ghost function Next(hand: Option<Pack>): Option<Pack>
      reads this
    {
      if hand.Some? then hand
      else if packId in recvPackCacheMap then Some(recvPackCacheMap[packId])
      else None
    }

    method ReadTunnelData(incoming: Incoming) returns (hand: Option<Pack>)
      requires !isClose && Keyed()
      modifies this`recvPackCacheMap, this`isClose
      ensures Keyed() && (hand.Some? ==> hand.value.id == packId)
      ensures isClose == incoming.ChannelClosed?
      ensures Inside(true, hand) == Apply(old(Model()), FirstAct(incoming))
      ensures Runs(old(Model()), [FirstAct(incoming)], Inside(true, hand))
    {
      RunsOne(Model(), FirstAct(incoming));
      hand := None;
      match incoming {
        case Timeout =>
        case ChannelClosed =>
          isClose := true;
        case Data(pack) =>
          if pack.id < packId {
            return;
          }
          if pack.id == packId {
            hand := Some(pack);
          } else if pack.id !in recvPackCacheMap {
            recvPackCacheMap := recvPackCacheMap[pack.id := pack];
          }
      }
    }

    /** One turn of the drain loop; `more` says whether there is to be another. */
    method DrainOne(hand: Option<Pack>, timer: bool) returns (more: bool, ghost acts: seq<Action>)
      requires Keyed() && (hand.Some? ==> hand.value.id == packId)
      modifies this`packId, this`recvPackCacheMap, this`streamTx
      ensures Keyed()
      ensures Runs(old(Inside(true, hand)), acts, Inside(more, None))
      ensures more == (old(Next(hand)).Some? && (isClose || !timer))
      ensures acts == if old(Next(hand)).None? then [DrainEnd] else if more then [Accept] else [Accept, TimerBreak]
      ensures old(Next(hand)).None? ==> unchanged(this) && packId !in recvPackCacheMap
      ensures old(Next(hand)).Some? ==>
                && packId == NextId(old(packId)) && old(Next(hand)).value.id == old(packId)
                && streamTx == old(streamTx) + [old(Next(hand)).value]
      ensures more ==> |recvPackCacheMap| < old(|recvPackCacheMap|) + (if hand.Some? then 1 else 0)
    {
      ghost var s0 := Inside(true, hand);
      var next: Pack;
      if hand.Some? {
        next := hand.value;
      } else if packId in recvPackCacheMap {
        next := recvPackCacheMap[packId];
        RemovalShrinks(recvPackCacheMap, packId);
        recvPackCacheMap := recvPackCacheMap - {packId};
      } else {
        RunsOne(s0, DrainEnd);
        return false, [DrainEnd];
      }
      packId := NextId(packId);
      streamTx := streamTx + [next];
      ghost var s1 := Inside(true, None);
      RunsOne(s0, Accept);
      more, acts := isClose || !timer, [Accept];
      if !more {
        RunsOne(s1, TimerBreak);
        RunsConcat(s0, [Accept], s1, [TimerBreak], Inside(false, None));
        acts := [Accept] + [TimerBreak];
      }
    }

    /** One turn of the outer loop while the stream is open: one receive, then the drain loop.
        `timer(i)` is whether the one-second timer has fired after the i-th pack; it does not
        stop the final drain.  The turn is the run that the receive stands for: first the
        receive, then nothing but the drain loop; `n` packs with consecutive ids go to the stream,
        and a contiguous pack stays behind only when the timer fired. */
    method Turn(incoming: Incoming, timer: nat -> bool) returns (ghost acts: seq<Action>, ghost n: nat)
      requires !isClose && Keyed()
      modifies this
      ensures Keyed() && isClose == incoming.ChannelClosed?
      ensures Runs(old(Model()), acts, Model())
      ensures OneReceive(acts, FirstAct(incoming)) && Given(old(Model()), Model(), n)
      ensures isClose || Never(timer) ==> packId !in recvPackCacheMap
    {
      hide Runs;
      hide Apply;
      hide Given;
      hide OneReceive;
      ghost var start, act := Model(), FirstAct(incoming);
      var hand := ReadTunnelData(incoming);
      acts, n := [act], 0;
      NothingGiven(start, Inside(true, hand), act);
      var i, running := 0, true;
      ghost var more;
      while running
        invariant Runs(start, acts, Inside(running, hand))
        invariant !running ==> hand == None
        invariant Keyed() && (hand.Some? ==> hand.value.id == packId)
        invariant isClose == incoming.ChannelClosed?
        invariant OneReceive(acts, act) && Given(start, Inside(running, hand), n)
        invariant !running && (isClose || Never(timer)) ==> packId !in recvPackCacheMap
        decreases running, |recvPackCacheMap| + if hand.Some? then 1 else 0
      {
        ghost var here, next := Inside(true, hand), Next(hand);
        running, more := DrainOne(hand, timer(i));
        hand := None;
        RunsConcat(start, acts, here, more, Inside(running, None));
        OneReceiveMore(acts, act, more);
        acts := acts + more;
        if next.Some? {
          GivenMore(start, here, Inside(running, None), n, next.value);
          n := n + 1;
        } else {
          GivenSame(start, here, Inside(running, None), n);
        }
        i := i + 1;
      }
    }
  }
}
