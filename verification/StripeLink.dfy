/** The receive loop of any-tunnel as code inside the striping machine: the writer, the
    connections and the channel are the machine's, the receiver is the object. */
module StripeLink {
  import opened Basics
  import opened Striping

  class Link {
    const rx: R.PeerClientToStream
    /** The machine; its receiver is `rx`. */
    ghost var world: State

    ghost predicate Valid()
      reads this, rx
    {
      Reachable(world) && world.r == rx.Model() && rx.Keyed()
    }

    constructor (ghost keepsLate: bool)
      ensures Valid() && fresh(rx) && world == Initial(keepsLate)
    {
      rx := new R.PeerClientToStream();
      world := Initial(keepsLate);
      new;
      assert Runs(Initial(keepsLate), [], Initial(keepsLate));
    }

    /** What the loop can receive now: the head of the channel, the close of a drained channel, or
        nothing for a second. */
    ghost predicate CanHear(incoming: R.Incoming)
      reads this
    {
      match incoming
      case Timeout => true
      case ChannelClosed => world.chan == [] && world.att.isClose
      case Data(p) => world.chan != [] && world.chan[0] == p
    }

    /** Anything the writer, the connections and the channel do. */
    ghost method Elsewhere(a: Action)
      requires Valid() && Enabled(world, a) && !a.Receive? && !a.Receiver?
      modifies this
      ensures Valid() && world == Apply(old(world), a)
    {
      ReachableNext(world, a);
      world := Apply(world, a);
    }

    /** One turn of the loop: the stream has a prefix of what was written, and after the last turn
        all of it. */
    method ServeTurn(incoming: R.Incoming, timer: nat -> bool)
      requires Valid() && !rx.isClose && CanHear(incoming)
      modifies this, rx
      ensures Valid() && rx.isClose == incoming.ChannelClosed?
      ensures world == old(world).(r := rx.Model(), chan := if incoming.Data? then old(world).chan[1..] else old(world).chan)
      ensures |world.written| < ID_MODULUS ==> Ordered(rx.streamTx, world.written)
      ensures |world.written| < ID_MODULUS && rx.isClose ==> rx.streamTx == FirstPacks(world.written, |world.written|)
    {
      hide Reachable;
      ghost var first := if incoming.Data? then Receive else Receiver(R.FirstAct(incoming));
      ghost var acts, n := rx.Turn(incoming, timer);
      ghost var mid := Apply(world, first);
      ReachableNext(world, first);
      ghost var run := DrainLifts(mid, acts[1..], rx.Model());
      world := mid.(r := rx.Model());
      ReachableOn(mid, run, world);
      if |world.written| < ID_MODULUS {
        StripedOrder(world);
        if rx.isClose {
          ReachableNext(world, Receiver(R.EndOfStream));
          StripedComplete(Apply(world, Receiver(R.EndOfStream)));
        }
      }
    }
  }

  /** `given` is a prefix of the packs written. */
  ghost predicate Ordered(given: seq<Pack>, written: seq<Bytes>) {
    |given| <= |written| && given == FirstPacks(written, |given|)
  }
}
