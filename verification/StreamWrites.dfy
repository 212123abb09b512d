/** The writing half of a tunnel stream: a write takes the next pack id and a channel, and its
    sending may stay unfinished over several calls. */
module StreamWrites {
  import opened Basics

  /** What polling the send does: it goes through, the channel is closed, or it must wait. */
  datatype Progress = Sent | Refused | NotYet

  datatype Poll = Ready(count: nat) | Pending

  /** A send under way: the pack and the channel picked for it. */
  datatype Flight = Flight(channel: nat, pack: Pack)

  function Size(packs: seq<Pack>): nat {
    if packs == [] then 0 else |packs[0].data| + Size(packs[1..])
  }

  lemma {:induction false} SizeSnoc(packs: seq<Pack>, p: Pack)
    ensures Size(packs + [p]) == Size(packs) + |p.data|
  {
    if packs == [] {
      assert packs + [p] == [p];
    } else {
      assert (packs + [p])[1..] == packs[1..] + [p];
      SizeSnoc(packs[1..], p);
    }
  }

  class StreamWriter {
    var txOpen: bool
    var txPackId: nat
    var txDataSize: nat
    var txFuture: Option<Flight>
    /** The round-robin counter and the number of channels it deals to. */
    var index: nat
    var senders: nat
    /** Packs handed to the channels, in the order of the sends. */
    var sent: seq<Pack>
    ghost var taken: seq<Bytes>
    ghost var reported: nat

    /** As long as the stream is open, the packs sent and the one under way are exactly the
        buffers taken, numbered from 1 without a gap; what was reported is what was sent. */
    ghost predicate Valid()
      reads this
    {
      && txPackId == |taken| % ID_MODULUS
      && reported == Size(sent)
      && (forall p <- sent :: p.id < ID_MODULUS)
      && (txFuture.Some? ==> txFuture.value.pack.id < ID_MODULUS)
      && (txFuture.Some? ==> txDataSize == |txFuture.value.pack.data|)
      && (txOpen && |taken| < ID_MODULUS ==>
            sent + (if txFuture.Some? then [txFuture.value.pack] else []) == FirstPacks(taken, |taken|))
      && (|taken| < ID_MODULUS ==> |sent| <= |taken| && sent == FirstPacks(taken, |sent|))
    }

    constructor (senders: nat)
      ensures Valid() && txOpen && sent == [] && this.senders == senders
    {
      txOpen, txPackId, txDataSize, txFuture, index := true, 0, 0, None, 0;
      this.senders, sent, taken, reported := senders, [], [], 0;
    }

    method WriteClose()
      requires Valid()
      modifies this`txOpen
      ensures Valid() && !txOpen
    {
      txOpen := false;
    }

    /** Takes a buffer: the next id, the next channel in the round. */
    method Take(buf: Bytes) returns (f: Flight)
      requires Valid() && txOpen && txFuture.None? && senders > 0
      modifies this`txPackId, this`txDataSize, this`index, this`taken, this`txFuture
      ensures Valid() && txFuture == Some(f) && f.pack.data == buf && taken == old(taken) + [buf]
      ensures f.channel == old(index) % senders && index == old(index) + 1
    {
      txDataSize := |buf|;
      if |taken| + 1 < ID_MODULUS {
        FirstPacksStep(taken + [buf], |taken|);
        FirstPacksGrow(taken, buf, |taken|);
        FirstPacksGrow(taken, buf, |sent|);
      }
      txPackId := NextId(txPackId);
      f := Flight(index % senders, Pack(txPackId, buf));
      index, taken, txFuture := index + 1, taken + [buf], Some(f);
    }

    /** A write that has to wait keeps its pack; the next call goes on with that pack and reports
        its size, whatever buffer it is given.  A refused pack ends the stream, reporting 0. */
    method PollWrite(buf: Bytes, progress: Progress) returns (r: Poll)
      requires Valid() && (txOpen && txFuture.None? ==> senders > 0)
      modifies this
      ensures Valid() && senders == old(senders)
      ensures !old(txOpen) ==> r == Ready(0) && taken == old(taken) && sent == old(sent)
      ensures old(txOpen) ==> taken == old(taken) + if old(txFuture).None? then [buf] else []
      ensures r.Pending? <==> old(txOpen) && progress.NotYet?
      ensures old(txOpen) && progress.Sent? ==>
                && txOpen && txFuture.None? && |sent| == |old(sent)| + 1 && sent[..|old(sent)|] == old(sent)
                && r == Ready(|sent[|old(sent)|].data|) && reported == old(reported) + r.count
                && (old(txFuture).None? ==> sent[|old(sent)|].data == buf && r.count == |buf|)
      ensures old(txOpen) && progress.Refused? ==> !txOpen && r == Ready(0) && sent == old(sent)
      ensures progress.NotYet? ==> txOpen == old(txOpen) && sent == old(sent) && (txOpen ==> txFuture.Some?)
    {
      if !txOpen { return Ready(0); }
      if txFuture.None? {
        var _ := Take(buf);
      }
      match progress
      case Refused =>
        txFuture := None;
        txOpen := false;
        r := Ready(0);
      case Sent =>
        var pack := txFuture.value.pack;
        SizeSnoc(sent, pack);
        sent, txFuture, reported := sent + [pack], None, reported + txDataSize;
        r := Ready(txDataSize);
      case NotYet =>
        r := Pending;
    }
  }
}
