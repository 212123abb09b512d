/** The receive loop of `StreamPack` as code: one round reads at most one message and then
    drains, and every round is a run of the actions of `ReliableReceiver`. */
module ReliableReceiveLoop {
  import opened Basics
  import opened ReliableReceiver

  /** What the one-second receive yields.  Acks and heartbeats are answered by the sending
      half and leave the receive state alone. */
  datatype Incoming =
    | Timeout
    | ChannelClosed
    | DataFor(streamId: nat, pack: Pack)
    | AckFor(streamId: nat)
    | HeartbeatFor(streamId: nat)
    | CloseFor(streamId: nat)
    | Unexpected

  /** How handing one pack to the stream goes: at once, after waiting for room, or not at all
      because the stream is closed (seen at once, or while waiting). */
  datatype HandOverOutcome = Sent | FullThenSent | FullThenClosed | Closed

  ghost function Elements(ids: seq<nat>): set<nat> {
    set id | id in ids
  }

  ghost predicate GoodBatches(batches: seq<seq<nat>>) {
    forall i :: 0 <= i < |batches| ==> 1 <= |batches[i]| <= MERGE_ACK_SIZE
  }

  /** Whether the stream takes the pack. */
  predicate Sends(outcome: HandOverOutcome) {
    outcome.Sent? || outcome.FullThenSent?
  }

  predicate Full(outcome: HandOverOutcome) {
    outcome.FullThenSent? || outcome.FullThenClosed?
  }

  /** What handing over a pack comes to. */
  function HandActs(outcome: HandOverOutcome, open: bool): seq<Action> {
    if !Sends(outcome) then [StreamCloses, Discard] else if open then [HandOver] else [Discard]
  }

  /** Whether the pending acks go out before the pack is handed over. */
  predicate AcksGoFirst(pending: nat, mergeAckSize: nat, outcome: HandOverOutcome) {
    pending >= mergeAckSize || (Full(outcome) && pending >= 1)
  }

  function AckActs(flush: bool): seq<Action> {
    if flush then [Flush] else []
  }

  /** The actions of the drain loop; none of them brings a pack in. */
  predicate Draws(a: Action) {
    a.Accept? || a.Flush? || a.HandOver? || a.Discard? || a.StreamCloses?
  }

  predicate OnlyDraws(acts: seq<Action>) {
    forall a <- acts :: Draws(a)
  }

  ghost predicate AllSent(env: nat -> HandOverOutcome) {
    forall i :: Sends(env(i))
  }

  ghost predicate Never(flag: nat -> bool) {
    forall i :: !flag(i)
  }

  lemma TurnActs(flush: bool, outcome: HandOverOutcome, open: bool)
    ensures var acts := [Accept] + (AckActs(flush) + HandActs(outcome, open));
            OnlyDraws(acts) && (StreamCloses in acts ==> !Sends(outcome))
  {
  }

  lemma RoundActs(first: Action, inner: seq<Action>)
    ensures var acts := [first] + inner + [EndRound];
            && acts[0] == first && acts[|acts| - 1] == EndRound && acts[1..|acts| - 1] == inner
            && (StreamCloses in acts && first != StreamCloses ==> StreamCloses in inner)
  {
  }

  /** No ack is lost: those sent and those pending are the old ones and then `ids`. */
  ghost predicate AcksKept(before: seq<seq<nat>>, pending: seq<nat>, ids: seq<nat>,
                           ackTx: seq<seq<nat>>, packIds: seq<nat>)
  {
    Flat(ackTx) + packIds == Flat(before) + pending + ids
  }

  lemma AcksKeptMore(before: seq<seq<nat>>, pending: seq<nat>, ids: seq<nat>, mid: seq<seq<nat>>, packIds: seq<nat>,
                     newIds: seq<nat>, ackTx: seq<seq<nat>>, packIds': seq<nat>)
    requires AcksKept(before, pending, ids, mid, packIds) && AcksKept(mid, packIds, newIds, ackTx, packIds')
    ensures AcksKept(before, pending, ids + newIds, ackTx, packIds')
  {
    assert Flat(before) + pending + ids + newIds == Flat(before) + pending + (ids + newIds);
  }

  lemma AcksKeptOnce(before: seq<seq<nat>>, pending: seq<nat>, ids: seq<nat>, ackTx: seq<seq<nat>>, packIds: seq<nat>)
    requires (ackTx == before && packIds == pending + ids) || (ackTx == before + [pending + ids] && packIds == [])
    ensures AcksKept(before, pending, ids, ackTx, packIds)
  {
    FlatSnoc(before, pending + ids);
    assert Flat(before) + (pending + ids) == Flat(before) + pending + ids;
  }

  lemma AcksKeptFlushed(before: seq<seq<nat>>, pending: seq<nat>, ids: seq<nat>, mid: seq<seq<nat>>, packIds: seq<nat>,
                        ackTx: seq<seq<nat>>)
    requires AcksKept(before, pending, ids, mid, packIds) && ackTx == mid + if packIds == [] then [] else [packIds]
    ensures Flat(ackTx) == Flat(before) + pending + ids
  {
    FlatSnoc(mid, packIds);
    assert packIds == [] ==> ackTx == mid;
    assert Flat(mid) + [] == Flat(mid);
  }

  /** Messages that do not end the loop. */
  predicate Welcome(incoming: Incoming, streamId: nat) {
    && !incoming.ChannelClosed? && !incoming.CloseFor? && !incoming.Unexpected?
    && (incoming.Timeout? || incoming.streamId == streamId)
  }

  /** The action a message stands for. */
  function FirstAct(incoming: Incoming, streamId: nat): Action {
    if !Welcome(incoming, streamId) then Fail
    else if incoming.DataFor? then Arrive(incoming.pack)
    else Quiet
  }

  /** One turn of the drain loop as values: `next` is the pack it accepts, if any. */
  ghost predicate Turned(r: Receiver, t: Receiver, next: Option<Pack>, ids: seq<nat>, acts: seq<Action>,
                         outcome: HandOverOutcome)
  {
    && ids == (if next.Some? then [r.packId] else [])
    && t.packId == (if next.Some? then NextId(r.packId) else r.packId)
    && (next.Some? ==> next.value.id == r.packId)
    && t.accepted == r.accepted + |ids| && t.seen == r.seen + Elements(ids)
    && t.streamOpen == (r.streamOpen && (next.Some? ==> Sends(outcome)))
    && t.toStream == r.toStream + (if next.Some? && t.streamOpen then [next.value] else [])
    && OnlyDraws(acts) && (StreamCloses in acts ==> !Sends(outcome))
    && t.isClose == r.isClose
  }

  lemma TurnedIdle(r: Receiver, t: Receiver, outcome: HandOverOutcome)
    requires t == r.(hand := None)
    ensures Turned(r, t, None, [], [], outcome)
  {
  }

  lemma TurnedOnce(r: Receiver, t: Receiver, p: Pack, flush: bool, outcome: HandOverOutcome)
    requires p.id == r.packId && t.packId == NextId(r.packId)
    requires t.accepted == r.accepted + 1 && t.seen == r.seen + {p.id} && t.isClose == r.isClose
    requires t.streamOpen == (r.streamOpen && Sends(outcome))
    requires t.toStream == r.toStream + if t.streamOpen then [p] else []
    ensures Turned(r, t, Some(p), [p.id], [Accept] + (AckActs(flush) + HandActs(outcome, r.streamOpen)), outcome)
  {
    TurnActs(flush, outcome, r.streamOpen);
  }

  /** What the drain loop has done between `r` and `t`: `ids` are accepted, consecutive from the
      id expected at the start, and the packs given to the stream are the first of them, all of
      them as long as the stream takes packs. */
  ghost predicate Drained(r: Receiver, t: Receiver, ids: seq<nat>, acts: seq<Action>, env: nat -> HandOverOutcome) {
    && ids == IdsFrom(r.packId, |ids|) && t.packId == IdAfter(r.packId, |ids|)
    && t.accepted == r.accepted + |ids| && t.seen == r.seen + Elements(ids)
    && Given(r, t, ids)
    && (r.streamOpen && AllSent(env) ==> t.streamOpen)
    && (t.streamOpen ==> r.streamOpen && |t.toStream| == |r.toStream| + |ids|)
    && OnlyDraws(acts) && (StreamCloses in acts ==> !AllSent(env))
    && t.isClose == r.isClose
  }

  /** The packs given to the stream between `r` and `t` are those with the first of `ids`. */
  ghost predicate Given(r: Receiver, t: Receiver, ids: seq<nat>) {
    r.toStream <= t.toStream && Ids(t.toStream[|r.toStream|..]) <= ids
  }

  lemma GivenMore(r: Receiver, mid: Receiver, t: Receiver, ids: seq<nat>, p: Pack)
    requires Given(r, mid, ids)
    requires t.toStream == mid.toStream || (t.toStream == mid.toStream + [p] && |mid.toStream| == |r.toStream| + |ids|)
    ensures Given(r, t, ids + [p.id])
  {
    var given, given' := mid.toStream[|r.toStream|..], t.toStream[|r.toStream|..];
    if t.toStream != mid.toStream {
      assert given' == given + [p];
      assert Ids(given') == Ids(given) + [p.id];
      assert Ids(given) == ids;
    }
  }

  lemma DrainedMore(r: Receiver, mid: Receiver, t: Receiver, ids: seq<nat>, acts: seq<Action>,
                    next: Option<Pack>, newIds: seq<nat>, more: seq<Action>, env: nat -> HandOverOutcome, i: nat)
    requires Drained(r, mid, ids, acts, env) && Turned(mid, t, next, newIds, more, env(i))
    ensures Drained(r, t, ids + newIds, acts + more, env)
  {
    if next.Some? {
      assert ids + newIds == IdsFrom(r.packId, |ids| + 1);
      GivenMore(r, mid, t, ids, next.value);
    } else {
      assert ids + newIds == ids;
    }
  }

  lemma DrainedFlush(r: Receiver, mid: Receiver, t: Receiver, ids: seq<nat>, acts: seq<Action>,
                     more: seq<Action>, env: nat -> HandOverOutcome)
    requires Drained(r, mid, ids, acts, env)
    requires more == [] || more == [Flush]
    requires t == mid.(packIds := t.packIds, ackTx := t.ackTx)
    ensures Drained(r, t, ids, acts + more, env)
  {
  }

  lemma StaysOpen(r: Receiver, t: Receiver, ids: seq<nat>, acts: seq<Action>, env: nat -> HandOverOutcome)
    requires Drained(r, t, ids, acts, env)
    ensures r.streamOpen && AllSent(env) ==> t.streamOpen
  {
  }

  lemma DrainedNone(r: Receiver, env: nat -> HandOverOutcome)
    ensures Drained(r, r, [], [], env)
  {
  }

  lemma BatchSizes(batches: seq<seq<nat>>)
    ensures GoodBatches(batches) <==> forall i :: 0 <= i < |batches| ==> 1 <= |batches[i]| <= 128
  {
  }

  class ReceiveLoop {
    const streamId: nat
    var packId: nat
    var sendPackIdMap: set<nat>
    var recvPackCacheMap: map<nat, Pack>
    var streamTx: seq<Pack>
    var streamOpen: bool
    var ackTx: seq<seq<nat>>
    var isClose: bool
    ghost var accepted: nat

    constructor (streamId: nat)
      ensures this.streamId == streamId
      ensures Model() == INITIAL
    {
      this.streamId := streamId;
      packId, sendPackIdMap, recvPackCacheMap := 1, {}, map[];
      streamTx, streamOpen, ackTx, isClose := [], true, [], false;
      accepted := 0;
    }

    /** The loop between two rounds. */
    ghost function Model(): Receiver
      reads this
    {
      Inside(Listening, None, None, [])
    }

    /** The loop inside a round, with the round's local variables. */
    ghost function Inside(phase: Phase, hand: Option<Pack>, moving: Option<Pack>, packIds: seq<nat>): Receiver
      reads this
    {
      Receiver(packId, sendPackIdMap, recvPackCacheMap, phase, hand, moving, packIds,
               streamTx, streamOpen, ackTx, isClose, accepted)
    }

    /** Cached packs are found under their own ids. */
    ghost predicate Keyed()
      reads this
    {
      forall id <- recvPackCacheMap :: recvPackCacheMap[id].id == id
    }

    /** A pack with this id has been accepted or is cached. */
    ghost predicate Has(id: nat)
      reads this
    {
      id in sendPackIdMap || id in recvPackCacheMap
    }

    /** The pack that a turn of the drain loop accepts. */
    ghost function Next(hand: Option<Pack>): Option<Pack>
      reads this
    {
      if hand.Some? then hand
      else if packId in recvPackCacheMap then Some(recvPackCacheMap[packId])
      else None
    }

    /** One message.  An error closes the loop; anything else may leave a pack to start the
        drain with, or an id to ack again. */
    method Receive(incoming: Incoming) returns (ok: bool, hand: Option<Pack>, packIds: seq<nat>, ghost act: Action)
      requires !isClose
      modifies this`recvPackCacheMap
      requires Keyed()
      ensures Keyed()
      ensures ok <==> Welcome(incoming, streamId)
      ensures ok <==> incoming.Timeout? || ((incoming.DataFor? || incoming.AckFor? || incoming.HeartbeatFor?)
                                            && incoming.streamId == streamId)
      ensures !ok ==> hand == None && packIds == [] && unchanged(this)
      ensures ok ==> act == FirstAct(incoming, streamId)
      ensures ok ==> Inside(Draining, hand, None, packIds) == Apply(old(Model()), act)
      ensures ok ==> Runs(old(Model()), [act], Inside(Draining, hand, None, packIds))
      ensures ok && incoming.DataFor? ==>
                var p := incoming.pack;
                && hand == (if p.id !in sendPackIdMap && p.id == packId then Some(p) else None)
                && recvPackCacheMap == (if p.id !in sendPackIdMap && p.id != packId then old(recvPackCacheMap)[p.id := p]
                                        else old(recvPackCacheMap))
                && packIds == (if p.id in sendPackIdMap then [p.id] else [])
      ensures !(ok && incoming.DataFor?) ==> hand == None && packIds == [] && recvPackCacheMap == old(recvPackCacheMap)
    {
      ok, hand, packIds, act := true, None, [], Quiet;
      match incoming {
        case Timeout =>
        case ChannelClosed => ok := false;
        case Unexpected => ok := false;
        case CloseFor(_) => ok := false;
        case AckFor(id) => ok := id == streamId;
        case HeartbeatFor(id) => ok := id == streamId;
        case DataFor(id, pack) =>
          if id != streamId {
            ok := false;
          } else {
            act := Arrive(pack);
            if pack.id in sendPackIdMap {
              packIds := [pack.id];
            } else if pack.id == packId {
              hand := Some(pack);
            } else {
              recvPackCacheMap := recvPackCacheMap[pack.id := pack];
            }
          }
      }
      if ok {
        RunsOne(old(Model()), act);
      }
    }

    /** Takes the pack at hand, or else the expected pack from the cache, and accepts it. */
    method AcceptNext(hand: Option<Pack>, packIds: seq<nat>) returns (next: Option<Pack>, packIds': seq<nat>)
      requires Keyed() && (hand.Some? ==> hand.value.id == packId)
      modifies this`packId, this`sendPackIdMap, this`recvPackCacheMap, this`accepted
      ensures Keyed() && next == old(Next(hand))
      ensures next.None? ==> packId !in recvPackCacheMap && unchanged(this) && packIds' == packIds
      ensures next.Some? ==>
                && Runs(old(Inside(Draining, hand, None, packIds)), [Accept], Inside(Draining, None, next, packIds'))
                && next.value.id == old(packId) && packId == NextId(old(packId))
                && packIds' == packIds + [old(packId)] && accepted == old(accepted) + 1
                && sendPackIdMap == old(sendPackIdMap) + {old(packId)}
                && |recvPackCacheMap| < old(|recvPackCacheMap|) + (if hand.Some? then 1 else 0)
      ensures forall id :: old(Has(id)) || (hand.Some? && hand.value.id == id) ==> Has(id)
    {
      hide Runs;
      packIds' := packIds;
      ghost var before := Inside(Draining, hand, None, packIds);
      if hand.Some? {
        next := hand;
      } else if packId in recvPackCacheMap {
        next := Some(recvPackCacheMap[packId]);
        RemovalShrinks(recvPackCacheMap, packId);
        recvPackCacheMap := recvPackCacheMap - {packId};
      } else {
        return None, packIds;
      }
      sendPackIdMap := sendPackIdMap + {next.value.id};
      packId := NextId(packId);
      packIds' := packIds + [next.value.id];
      accepted := accepted + 1;
      AcceptRuns(before, next.value, recvPackCacheMap);
    }

    /** Sends the pending acks as one batch if there are at least `limit`. */
    method SendAcks(packIds: seq<nat>, limit: nat, ghost moving: Option<Pack>)
      returns (packIds': seq<nat>, ghost acts: seq<Action>)
      requires GoodBatches(ackTx) && |packIds| <= MERGE_ACK_SIZE && limit >= 1
      modifies this`ackTx
      ensures GoodBatches(ackTx)
      ensures ackTx == old(ackTx) + if |packIds| >= limit then [packIds] else []
      ensures packIds' == if |packIds| >= limit then [] else packIds
      ensures acts == AckActs(|packIds| >= limit)
      ensures Runs(old(Inside(Draining, None, moving, packIds)), acts, Inside(Draining, None, moving, packIds'))
    {
      RunsNone(Inside(Draining, None, moving, packIds));
      packIds', acts := packIds, [];
      if |packIds| >= limit {
        FlushRuns(Inside(Draining, None, moving, packIds));
        ackTx := ackTx + [packIds];
        packIds', acts := [], [Flush];
      }
    }

    /** Gives an accepted pack to the stream, or finds the stream closed.  No ack may be pending when
        it has to wait for room. */
    method Deliver(pack: Pack, outcome: HandOverOutcome, ghost packIds: seq<nat>)
      returns (ok: bool, ghost acts: seq<Action>)
      requires outcome.FullThenSent? || outcome.FullThenClosed? ==> packIds == []
      modifies this`streamTx, this`streamOpen
      ensures ok == streamOpen == ((outcome.Sent? || outcome.FullThenSent?) && old(streamOpen))
      ensures streamTx == old(streamTx) + if ok then [pack] else []
      ensures acts == HandActs(outcome, old(streamOpen))
      ensures Runs(old(Inside(Draining, None, Some(pack), packIds)), acts, Inside(Draining, None, None, packIds))
    {
      hide Runs;
      ghost var here := Inside(Draining, None, Some(pack), packIds);
      acts := HandActs(outcome, streamOpen);
      ok := Sends(outcome) && streamOpen;
      if ok {
        HandOverRuns(here);
        streamTx := streamTx + [pack];
      } else if !streamOpen && Sends(outcome) {
        DiscardRuns(here);
      } else {
        CloseRuns(here);
        streamOpen := false;
      }
    }

    /** The acks that go out before an accepted pack is handed over: when there are enough of them,
        and at once when the stream has no room, so that the peer's window opens before the wait. */
    method AckBefore(pack: Pack, packIds: seq<nat>, mergeAckSize: nat, outcome: HandOverOutcome)
      returns (packIds': seq<nat>, mergeAckSize': nat, ghost acts: seq<Action>)
      requires GoodBatches(ackTx) && |packIds| <= MERGE_ACK_SIZE && 1 <= mergeAckSize <= MERGE_ACK_SIZE
      modifies this`ackTx
      ensures mergeAckSize' == if outcome.FullThenSent? || outcome.FullThenClosed? then 1 else mergeAckSize
      ensures outcome.FullThenSent? || outcome.FullThenClosed? ==>
                packIds' == [] && ackTx == old(ackTx) + (if packIds == [] then [] else [packIds])
      ensures outcome.Sent? || outcome.Closed? ==>
                if |packIds| >= mergeAckSize then packIds' == [] && ackTx == old(ackTx) + [packIds]
                else packIds' == packIds && ackTx == old(ackTx)
      ensures GoodBatches(ackTx)
      ensures acts == AckActs(AcksGoFirst(|packIds|, mergeAckSize, outcome))
      ensures Runs(old(Inside(Draining, None, Some(pack), packIds)), acts, Inside(Draining, None, Some(pack), packIds'))
    {
      hide Runs, Apply, GoodBatches, Flat;
      ghost var s0 := Inside(Draining, None, Some(pack), packIds);
      mergeAckSize' := mergeAckSize;
      packIds', acts := SendAcks(packIds, mergeAckSize, Some(pack));
      if Full(outcome) {
        mergeAckSize' := 1;
        ghost var s1, more := Inside(Draining, None, Some(pack), packIds'), [];
        packIds', more := SendAcks(packIds', mergeAckSize', Some(pack));
        RunsConcat(s0, acts, s1, more, Inside(Draining, None, Some(pack), packIds'));
        acts := acts + more;
      }
    }

    /** Acks and delivers an accepted pack. */
    method AckAndDeliver(pack: Pack, packIds: seq<nat>, mergeAckSize: nat, outcome: HandOverOutcome)
      returns (ok: bool, packIds': seq<nat>, mergeAckSize': nat, ghost acts: seq<Action>)
      requires GoodBatches(ackTx) && |packIds| <= MERGE_ACK_SIZE && 1 <= mergeAckSize <= MERGE_ACK_SIZE
      modifies this`ackTx, this`streamTx, this`streamOpen
      ensures ok == streamOpen == ((outcome.Sent? || outcome.FullThenSent?) && old(streamOpen))
      ensures streamTx == old(streamTx) + if ok then [pack] else []
      ensures outcome.Sent? ==> mergeAckSize' == 128
      ensures outcome.FullThenSent? || outcome.FullThenClosed? ==> mergeAckSize' == 1
      ensures outcome.Closed? ==> mergeAckSize' == mergeAckSize
      ensures outcome.FullThenSent? || outcome.FullThenClosed? ==>
                && packIds' == [] && ackTx == old(ackTx) + (if packIds == [] then [] else [packIds])
                && (packIds != [] ==> acts != [] && acts[0] == Flush)
      ensures outcome.Sent? || outcome.Closed? ==>
                if |packIds| >= mergeAckSize then packIds' == [] && ackTx == old(ackTx) + [packIds]
                else packIds' == packIds && ackTx == old(ackTx)
      ensures GoodBatches(ackTx)
      ensures acts == AckActs(AcksGoFirst(|packIds|, mergeAckSize, outcome)) + HandActs(outcome, old(streamOpen))
      ensures Runs(old(Inside(Draining, None, Some(pack), packIds)), acts, Inside(Draining, None, None, packIds'))
    {
      hide Runs, Apply, GoodBatches, HandActs, Flat;
      ghost var s0 := Inside(Draining, None, Some(pack), packIds);
      packIds', mergeAckSize', acts := AckBefore(pack, packIds, mergeAckSize, outcome);
      ghost var s1, more := Inside(Draining, None, Some(pack), packIds'), [];
      ok, more := Deliver(pack, outcome, packIds');
      RunsConcat(s0, acts, s1, more, Inside(Draining, None, None, packIds'));
      acts := acts + more;
      if outcome.Sent? {
        mergeAckSize' := MERGE_ACK_SIZE;
      }
    }

    /** One turn of the drain loop; `more` says whether there is to be another. */
    method DrainOne(hand: Option<Pack>, packIds: seq<nat>, mergeAckSize: nat, outcome: HandOverOutcome, stop: bool)
      returns (more: bool, packIds': seq<nat>, mergeAckSize': nat, ghost ids: seq<nat>, ghost acts: seq<Action>)
      requires GoodBatches(ackTx) && |packIds| < MERGE_ACK_SIZE && 1 <= mergeAckSize <= MERGE_ACK_SIZE
      requires Keyed() && (hand.Some? ==> hand.value.id == packId)
      modifies this
      ensures GoodBatches(ackTx) && |packIds'| < MERGE_ACK_SIZE && 1 <= mergeAckSize' <= MERGE_ACK_SIZE
      ensures Keyed()
      ensures AcksKept(old(ackTx), packIds, ids, ackTx, packIds')
      ensures Runs(old(Inside(Draining, hand, None, packIds)), acts, Inside(Draining, None, None, packIds'))
      ensures Turned(old(Inside(Draining, hand, None, packIds)), Inside(Draining, None, None, packIds'),
                     old(Next(hand)), ids, acts, outcome)
      ensures more == (old(Next(hand)).Some? && (outcome.Sent? || outcome.FullThenSent?) && old(streamOpen) && !stop)
      ensures old(Next(hand)).None? ==> packId !in recvPackCacheMap
      ensures old(Next(hand)).Some? ==> |ids| > 0
      ensures forall id :: old(Has(id)) || (hand.Some? && hand.value.id == id) ==> Has(id)
      ensures more ==> |recvPackCacheMap| < old(|recvPackCacheMap|) + (if hand.Some? then 1 else 0)
    {
      hide Runs, Apply, GoodBatches;
      hide AcksKept;
      hide Turned;
      ghost var s0 := Inside(Draining, hand, None, packIds);
      RunsNone(s0);
      mergeAckSize', acts, ids := mergeAckSize, [], [];
      var next;
      next, packIds' := AcceptNext(hand, packIds);
      if next.None? {
        AcksKeptOnce(ackTx, packIds, [], ackTx, packIds');
        TurnedIdle(s0, Inside(Draining, None, None, packIds'), outcome);
        return false, packIds', mergeAckSize', ids, acts;
      }
      ids := [next.value.id];
      ghost var s1 := Inside(Draining, None, next, packIds');
      ghost var flush := AcksGoFirst(|packIds'|, mergeAckSize, outcome);
      more, packIds', mergeAckSize', acts := AckAndDeliver(next.value, packIds', mergeAckSize, outcome);
      TurnedOnce(s0, Inside(Draining, None, None, packIds'), next.value, flush, outcome);
      AcksKeptOnce(old(ackTx), packIds, ids, ackTx, packIds');
      RunsConcat(s0, [Accept], s1, acts, Inside(Draining, None, None, packIds'));
      acts := [Accept] + acts;
      more := more && !stop;
    }

    /** The drain loop and the acks left at its end. */
    method Drain(first: Option<Pack>, pending: seq<nat>, env: nat -> HandOverOutcome, writeBreak: nat -> bool)
      returns (ghost acts: seq<Action>, ghost ids: seq<nat>)
      requires GoodBatches(ackTx) && |pending| <= 1
      requires Keyed() && (first.Some? ==> first.value.id == packId)
      modifies this
      ensures Runs(old(Inside(Draining, first, None, pending)), acts, Inside(Draining, None, None, []))
      ensures GoodBatches(ackTx) && Flat(ackTx) == old(Flat(ackTx)) + pending + ids
      ensures Keyed()
      ensures Drained(old(Inside(Draining, first, None, pending)), Inside(Draining, None, None, []), ids, acts, env)
      ensures old(streamOpen) && AllSent(env) && Never(writeBreak) ==> packId !in recvPackCacheMap
      ensures first.Some? ==> |ids| > 0
      ensures forall id :: old(Has(id)) || (first.Some? && first.value.id == id) ==> Has(id)
    {
      hide Runs, Apply, GoodBatches;
      hide AcksKept;
      hide Flat;
      hide Drained;
      hide Turned;
      ghost var start := Inside(Draining, first, None, pending);
      RunsNone(start);
      DrainedNone(start, env);
      AcksKeptOnce(ackTx, pending, [], ackTx, pending);
      acts, ids := [], [];
      var hand, packIds, mergeAckSize := first, pending, MERGE_ACK_SIZE;
      var i, running := 0, true;
      ghost var newIds, more;
      while running
        invariant Runs(start, acts, Inside(Draining, hand, None, packIds))
        invariant !running ==> hand == None
        invariant 1 <= mergeAckSize <= MERGE_ACK_SIZE && |packIds| < MERGE_ACK_SIZE
        invariant GoodBatches(ackTx)
        invariant AcksKept(old(ackTx), pending, ids, ackTx, packIds)
        invariant Keyed() && (hand.Some? ==> hand.value.id == packId)
        invariant Drained(start, Inside(Draining, hand, None, packIds), ids, acts, env)
        invariant !running && old(streamOpen) && AllSent(env) && Never(writeBreak) ==>
                    packId !in recvPackCacheMap
        invariant first.Some? ==> |ids| > 0 || hand == first
        invariant forall id :: old(Has(id)) || (first.Some? && first.value.id == id) ==>
                    Has(id) || (hand.Some? && hand.value.id == id)
        decreases running, |recvPackCacheMap| + if hand.Some? then 1 else 0
      {
        ghost var here, next := Inside(Draining, hand, None, packIds), Next(hand);
        ghost var sent, ready := ackTx, packIds;
        StaysOpen(start, here, ids, acts, env);
        running, packIds, mergeAckSize, newIds, more := DrainOne(hand, packIds, mergeAckSize, env(i), writeBreak(i));
        hand := None;
        RunsConcat(start, acts, here, more, Inside(Draining, None, None, packIds));
        DrainedMore(start, here, Inside(Draining, None, None, packIds), ids, acts, next, newIds, more, env, i);
        AcksKeptMore(old(ackTx), pending, ids, sent, ready, newIds, ackTx, packIds);
        acts, ids := acts + more, ids + newIds;
        i := i + 1;
      }
      ghost var last, sent, ready := Inside(Draining, None, None, packIds), ackTx, packIds;
      packIds, more := SendAcks(packIds, 1, None);
      RunsConcat(start, acts, last, more, Inside(Draining, None, None, []));
      AcksKeptFlushed(old(ackTx), pending, ids, sent, ready, ackTx);
      DrainedFlush(start, last, Inside(Draining, None, None, []), ids, acts, more, env);
      acts := acts + more;
    }

    /** The ids accepted are exactly those up to the expected one, as long as they do not wrap. */
    ghost predicate Gapless()
      reads this
    {
      accepted + 1 < ID_MODULUS ==> packId == accepted + 1 && forall id :: id in sendPackIdMap <==> 1 <= id <= accepted
    }

    /** One round: a message, then the drain loop.  `env(i)` is how the i-th hand-over goes and
        `writeBreak(i)` whether the one-second flag stops the loop after it.

        The round is the run of actions that the message stands for: first the message, then
        nothing but the drain loop, then the end.  No pack that has arrived is dropped.  A duplicate
        is acked again and nothing else is; whichever way the loop ends, the acks sent are that id
        followed by the ids accepted, in batches of 1 to 128 ids. */
    method Round(incoming: Incoming, env: nat -> HandOverOutcome, writeBreak: nat -> bool)
      returns (ghost acts: seq<Action>, ghost dup: seq<nat>, ghost ids: seq<nat>)
      requires !isClose && GoodBatches(ackTx) && Keyed()
      modifies this
      ensures Keyed() && isClose == !Welcome(incoming, streamId)
      ensures !isClose <==> incoming.Timeout? || ((incoming.DataFor? || incoming.AckFor? || incoming.HeartbeatFor?)
                                                  && incoming.streamId == streamId)
      ensures Runs(old(Model()), acts, Model())
      ensures acts != [] && acts[0] == FirstAct(incoming, streamId)
      ensures !isClose && incoming.DataFor? ==> acts[0] == Arrive(incoming.pack)
      ensures !isClose && !incoming.DataFor? ==> acts[0] == Quiet
      ensures isClose ==> acts == [Fail] && ids == []
      ensures !isClose ==> |acts| >= 2 && acts[|acts| - 1] == EndRound && OnlyDraws(acts[1..|acts| - 1])
      ensures StreamCloses in acts ==> !AllSent(env)
      ensures GoodBatches(ackTx) && Flat(ackTx) == old(Flat(ackTx)) + dup + ids
      ensures dup == if !isClose && incoming.DataFor? && incoming.pack.id in old(sendPackIdMap) then [incoming.pack.id] else []
      ensures ids == IdsFrom(old(packId), |ids|) && packId == IdAfter(old(packId), |ids|)
      ensures accepted == old(accepted) + |ids| && sendPackIdMap == old(sendPackIdMap) + Elements(ids)
      ensures old(streamTx) <= streamTx && Ids(streamTx[|old(streamTx)|..]) <= ids
      ensures old(streamOpen) && AllSent(env) ==> streamOpen && |streamTx| == |old(streamTx)| + |ids|
      ensures old(streamOpen) && AllSent(env) && !isClose && Never(writeBreak) ==>
                packId !in recvPackCacheMap
      ensures forall id :: old(Has(id)) ==> Has(id)
      ensures !isClose && incoming.DataFor? ==> Has(incoming.pack.id)
    {
      hide Runs, Apply, GoodBatches;
      hide Flat;
      hide OnlyDraws, Elements, AllSent, Never, Ids, IdsFrom, IdAfter;
      ghost var start := Model();
      var ok, hand, packIds, act := Receive(incoming);
      dup, ids := packIds, [];
      if !ok {
        isClose := true;
        acts := [Fail];
        FailRuns(start);
        DrainedNone(start, env);
        return;
      }
      ghost var s0 := Inside(Draining, hand, None, packIds);
      acts, ids := Drain(hand, packIds, env, writeBreak);
      ghost var s1 := Inside(Draining, None, None, []);
      RoundRuns(start, act, s0, acts, s1, Model());
      RoundActs(act, acts);
      acts := [act] + acts + [EndRound];
    }

    /** A message of this stream that brings pack `id`. */
    ghost predicate Brings(incoming: Incoming, id: nat)
      reads this
    {
      incoming.DataFor? && incoming.streamId == streamId && incoming.pack.id == id
    }

    ghost predicate Brought(messages: seq<Incoming>, id: nat)
      reads this
    {
      exists i :: 0 <= i < |messages| && Brings(messages[i], id)
    }

    /** Packs 1 to `k` are all among the messages. */
    ghost predicate AllBrought(messages: seq<Incoming>, k: nat)
      reads this
    {
      forall id :: 1 <= id <= k ==> Brought(messages, id)
    }

    /** Rounds with a stream that takes every pack and a flag that stays down: in whatever order and
        however often packs arrive, once 1 to `k` have arrived, `k` packs are accepted and in the
        stream. */
    method Rounds(messages: seq<Incoming>)
      requires !isClose && GoodBatches(ackTx) && Keyed() && Gapless() && streamOpen
      requires packId !in recvPackCacheMap && |streamTx| == accepted
      modifies this
      ensures !isClose && accepted + 1 < ID_MODULUS ==> streamOpen && |streamTx| == accepted
      ensures !isClose && accepted + 1 < ID_MODULUS ==>
                forall k :: AllBrought(messages, k) ==> accepted >= k
    {
      hide Runs, GoodBatches, Flat, OnlyDraws;
      var i := 0;
      while i < |messages| && !isClose
        invariant i <= |messages|
        invariant GoodBatches(ackTx) && Keyed() && Gapless()
        invariant !isClose ==> streamOpen && |streamTx| == accepted && packId !in recvPackCacheMap
        invariant !isClose ==> forall j, id :: 0 <= j < i && Brings(messages[j], id) ==> Has(id)
      {
        ghost var was := Model();
        ghost var acts, dup, ids := Round(messages[i], _ => Sent, _ => false);
        GaplessMore(was.packId, was.accepted, was.seen, ids);
        i := i + 1;
      }
      if !isClose && accepted + 1 < ID_MODULUS {
        assert !Has(packId);
        assert forall j :: 0 <= j < |messages| ==> !Brings(messages[j], packId);
        assert !Brought(messages, packId);
      }
    }
  }

  /** Consecutive ids keep the set of accepted ids without a gap. */
  lemma GaplessMore(packId: nat, accepted: nat, seen: set<nat>, ids: seq<nat>)
    requires ids == IdsFrom(packId, |ids|)
    requires accepted + 1 < ID_MODULUS ==> packId == accepted + 1 && forall id :: id in seen <==> 1 <= id <= accepted
    ensures accepted + |ids| + 1 < ID_MODULUS ==>
              && IdAfter(packId, |ids|) == accepted + |ids| + 1
              && forall id :: id in seen + Elements(ids) <==> 1 <= id <= accepted + |ids|
  {
    if accepted + |ids| + 1 < ID_MODULUS {
      forall i: nat | i <= |ids| ensures IdAfter(packId, i) == packId + i {
        IdAfterNoWrap(packId, i);
      }
      forall id | 1 <= id <= accepted + |ids| ensures id in seen + Elements(ids) {
        if id > accepted {
          assert ids[id - packId] == id;
        }
      }
    }
  }
}
