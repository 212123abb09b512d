/** The receiving half of any-tunnel2's `StreamPack`: the loop of
    `peer_client_to_stream_pack`, which drops duplicates, puts packs back in order,
    hands them to the local stream and batches the acks. */
module ReliableReceiver {
  import opened Basics

  const MERGE_ACK_SIZE: nat := 128

  datatype Phase = Listening | Draining

  /** `hand` is the pack that just arrived with the expected id; `moving` is a pack that
      was accepted and not yet handed to the stream.  `accepted` (how many packs were
      accepted) is a history, and so are the two outgoing channels: `toStream` is all that
      was handed to the stream, `ackTx` all ack batches sent. */
  datatype Receiver = Receiver(
    packId: nat,
    seen: set<nat>,
    cache: map<nat, Pack>,
    phase: Phase,
    hand: Option<Pack>,
    moving: Option<Pack>,
    packIds: seq<nat>,
    toStream: seq<Pack>,
    streamOpen: bool,
    ackTx: seq<seq<nat>>,
    isClose: bool,
    accepted: nat)

  const INITIAL := Receiver(1, {}, map[], Listening, None, None, [], [], true, [], false, 0)

  datatype Action =
    | Arrive(pack: Pack)
    | Quiet
    | Fail
    | Accept
    | Flush
    | HandOver
    | Discard
    | EndRound
    | StreamCloses

  predicate Enabled(r: Receiver, a: Action) {
    match a
    case Arrive(_) => r.phase.Listening? && !r.isClose
    case Quiet => r.phase.Listening? && !r.isClose
    case Fail => r.phase.Listening? && !r.isClose
    case Accept => r.phase.Draining? && r.moving.None? && (r.hand.Some? || r.packId in r.cache)
    case Flush => r.phase.Draining? && r.packIds != []
    case HandOver => r.moving.Some? && r.streamOpen
    case Discard => r.moving.Some? && !r.streamOpen
    case EndRound => r.phase.Draining? && r.hand.None? && r.moving.None? && r.packIds == []
    case StreamCloses => true
  }

  /** A pack with an accepted id is only acked again; the expected pack goes to `hand`;
      any other pack is cached. */
  function OnData(r: Receiver, p: Pack): Receiver {
    if p.id in r.seen then r.(packIds := [p.id])
    else if p.id == r.packId then r.(hand := Some(p))
    else r.(cache := r.cache[p.id := p])
  }

  function Apply(r: Receiver, a: Action): Receiver
    requires Enabled(r, a)
  {
    match a
    case Arrive(p) => OnData(r, p).(phase := Draining)
    case Quiet => r.(phase := Draining)
    case Fail => r.(isClose := true)
    case Accept =>
      var p := if r.hand.Some? then r.hand.value else r.cache[r.packId];
      var rest := if r.hand.Some? then r.cache else r.cache - {r.packId};
      r.(seen := r.seen + {p.id}, packId := NextId(r.packId), packIds := r.packIds + [p.id],
         cache := rest, hand := None, moving := Some(p), accepted := r.accepted + 1)
    case Flush => r.(ackTx := r.ackTx + [r.packIds], packIds := [])
    case HandOver => r.(toStream := r.toStream + [r.moving.value], moving := None)
    case Discard => r.(moving := None)
    case EndRound => r.(phase := Listening)
    case StreamCloses => r.(streamOpen := false)
  }

  /** `acts` is a run of the loop from `r` to `t`. */
  ghost predicate Runs(r: Receiver, acts: seq<Action>, t: Receiver)
    decreases acts
  {
    if acts == [] then r == t
    else Enabled(r, acts[0]) && Runs(Apply(r, acts[0]), acts[1..], t)
  }

  lemma {:induction false} RunsConcat(r: Receiver, xs: seq<Action>, mid: Receiver, ys: seq<Action>, t: Receiver)
    requires Runs(r, xs, mid) && Runs(mid, ys, t)
    ensures Runs(r, xs + ys, t)
    decreases xs
  {
    if xs == [] {
      assert xs + ys == ys;
    } else {
      assert (xs + ys)[1..] == xs[1..] + ys;
      RunsConcat(Apply(r, xs[0]), xs[1..], mid, ys, t);
    }
  }

  lemma RunsNone(r: Receiver)
    ensures Runs(r, [], r)
  {
  }

  lemma RunsOne(r: Receiver, a: Action)
    requires Enabled(r, a)
    ensures Runs(r, [a], Apply(r, a))
  {
    assert [a][1..] == [];
  }

  // ----- the loop's actions as the code takes them -----

  lemma FailRuns(r: Receiver)
    requires r.phase.Listening? && !r.isClose
    ensures Runs(r, [Fail], r.(isClose := true))
  {
    RunsOne(r, Fail);
  }

  lemma AcceptRuns(r: Receiver, p: Pack, rest: map<nat, Pack>)
    requires r.phase.Draining? && r.moving.None?
    requires (r.hand == Some(p) && rest == r.cache)
             || (r.hand.None? && r.packId in r.cache && p == r.cache[r.packId] && rest == r.cache - {r.packId})
    ensures Runs(r, [Accept], r.(seen := r.seen + {p.id}, packId := NextId(r.packId), packIds := r.packIds + [p.id],
                                 cache := rest, hand := None, moving := Some(p), accepted := r.accepted + 1))
  {
    RunsOne(r, Accept);
  }

  lemma FlushRuns(r: Receiver)
    requires r.phase.Draining? && r.packIds != []
    ensures Runs(r, [Flush], r.(ackTx := r.ackTx + [r.packIds], packIds := []))
  {
    RunsOne(r, Flush);
  }

  lemma HandOverRuns(r: Receiver)
    requires r.moving.Some? && r.streamOpen
    ensures Runs(r, [HandOver], r.(toStream := r.toStream + [r.moving.value], moving := None))
  {
    RunsOne(r, HandOver);
  }

  lemma DiscardRuns(r: Receiver)
    requires r.moving.Some? && !r.streamOpen
    ensures Runs(r, [Discard], r.(moving := None))
  {
    RunsOne(r, Discard);
  }

  lemma CloseRuns(r: Receiver)
    requires r.moving.Some?
    ensures Runs(r, [StreamCloses, Discard], r.(streamOpen := false, moving := None))
  {
    RunsOne(r, StreamCloses);
    DiscardRuns(Apply(r, StreamCloses));
    RunsConcat(r, [StreamCloses], Apply(r, StreamCloses), [Discard], r.(streamOpen := false, moving := None));
    assert [StreamCloses] + [Discard] == [StreamCloses, Discard];
  }

  lemma RoundRuns(r: Receiver, first: Action, mid: Receiver, inner: seq<Action>, last: Receiver, t: Receiver)
    requires Runs(r, [first], mid) && Runs(mid, inner, last)
    requires last.phase.Draining? && last.hand.None? && last.moving.None? && last.packIds == []
    requires t == last.(phase := Listening)
    ensures Runs(r, [first] + inner + [EndRound], t)
  {
    RunsOne(last, EndRound);
    RunsConcat(r, [first], mid, inner, last);
    RunsConcat(r, [first] + inner, last, [EndRound], t);
  }

  // ----- invariant, relative to the payloads the peer has taken from its stream -----

  ghost predicate Inv(r: Receiver, taken: seq<Bytes>) {
    && |taken| < ID_MODULUS
    && r.accepted <= |taken|
    && r.packId == NextId(r.accepted)
    && (forall id :: id in r.seen <==> 1 <= id <= r.accepted)
    && (forall id <- r.cache :: r.cache[id].id == id && Genuine(taken, r.cache[id]))
    && (r.hand.Some? ==> r.hand.value.id == r.packId && Genuine(taken, r.hand.value))
    && (r.hand.Some? || r.moving.Some? || r.packIds != [] ==> r.phase.Draining?)
    && (r.isClose ==> r.phase.Listening?)
    && (r.moving.Some? ==> r.hand.None? && r.accepted > 0 && r.moving.value == Numbered(taken, r.accepted))
    && (forall id <- r.packIds :: id in r.seen)
    && (forall i, j :: 0 <= i < |r.ackTx| && 0 <= j < |r.ackTx[i]| ==> r.ackTx[i][j] in r.seen)
    && Delivered(r, taken)
  }

  /** What the stream was given is a prefix of what was taken; while the stream is open it is
      all that was accepted, save the pack in `moving`. */
  ghost predicate Delivered(r: Receiver, taken: seq<Bytes>) {
    var held := if r.moving.Some? then 1 else 0;
    && |r.toStream| + held <= r.accepted
    && (r.streamOpen ==> |r.toStream| + held == r.accepted)
    && |r.toStream| <= |taken|
    && r.toStream == FirstPacks(taken, |r.toStream|)
  }

  lemma AcceptKeepsInv(r: Receiver, taken: seq<Bytes>)
    requires Inv(r, taken) && Enabled(r, Accept)
    ensures Inv(Apply(r, Accept), taken)
  {
    assert NextId(r.accepted) == r.accepted + 1;
  }

  lemma HandOverKeepsInv(r: Receiver, taken: seq<Bytes>)
    requires Inv(r, taken) && Enabled(r, HandOver)
    ensures Inv(Apply(r, HandOver), taken)
  {
    assert r.moving.value == Numbered(taken, r.accepted);
    FirstPacksStep(taken, |r.toStream|);
  }

  lemma ArriveKeepsInv(r: Receiver, p: Pack, taken: seq<Bytes>)
    requires Inv(r, taken) && Enabled(r, Arrive(p)) && Genuine(taken, p)
    ensures Inv(Apply(r, Arrive(p)), taken)
  {
  }

  lemma ApplyKeepsInv(r: Receiver, a: Action, taken: seq<Bytes>)
    requires Inv(r, taken) && Enabled(r, a)
    requires a.Arrive? ==> Genuine(taken, a.pack)
    ensures Inv(Apply(r, a), taken)
    ensures r.seen <= Apply(r, a).seen
  {
    match a
    case Arrive(p) => ArriveKeepsInv(r, p, taken);
    case Accept => AcceptKeepsInv(r, taken);
    case HandOver => HandOverKeepsInv(r, taken);
    case _ =>
  }

  /** Pack `id` has been accepted, or is kept for later. */
  ghost predicate Has(r: Receiver, id: nat) {
    id in r.seen || id in r.cache || (r.hand.Some? && r.hand.value.id == id)
  }

  /** No pack that has arrived is ever dropped. */
  lemma NothingDropped(r: Receiver, a: Action, taken: seq<Bytes>, id: nat)
    requires Inv(r, taken) && Enabled(r, a)
    requires Has(r, id) || (a.Arrive? && a.pack.id == id)
    ensures Has(Apply(r, a), id)
  {
  }

  lemma MoreTakenKeepsInv(r: Receiver, taken: seq<Bytes>, data: Bytes)
    requires Inv(r, taken) && |taken| + 1 < ID_MODULUS
    ensures Inv(r, taken + [data])
  {
    FirstPacksGrow(taken, data, |r.toStream|);
  }
}
