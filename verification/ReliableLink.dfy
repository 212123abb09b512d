/** The two loops of an any-tunnel2 stream as code, with the network between them: whatever is
    played, the stream at the far end is given what was taken at the near end, in order. */
module ReliableLink {
  import opened Basics
  import opened ReliableStream
  import opened ReliableSendSide
  import opened ReliableReceiveLoop

  /** One step of a sender task, of the network, or one round of the receive loop. */
  datatype Scene =
    | PollWindow
    | NothingTaken
    | TakePayload(data: Bytes)
    | RegisterHeld
    | FinishSend
    | StartScan
    | PopExpired(now: int, timeout: nat)
    | TakeExpired
    | RegisterCarried
    | FinishResend
    | StartClosing
    | Shutdown
    | DeliverAcks(ids: seq<nat>)
    | LoseMessage(message: Message)
    | Round(incoming: Incoming, env: nat -> HandOverOutcome, writeBreak: nat -> bool)

  /** The machine's action for a scene that is not a round; `expired` tells whether the oldest
      timeout entry is old enough. */
  function ActionOf(scene: Scene, expired: bool): Action
    requires !scene.Round?
  {
    match scene
    case PollWindow => Sender(S.WindowOpen)
    case NothingTaken => Sender(S.RecvTimeout)
    case TakePayload(data) => Sender(S.Take(data))
    case RegisterHeld => Sender(S.Register)
    case FinishSend => Sender(S.Send)
    case StartScan => Sender(S.WakeUp)
    case PopExpired(_, _) => Sender(if expired then S.PopExpired else S.ScanEnd)
    case TakeExpired => Sender(S.TakeExpired)
    case RegisterCarried => Sender(S.Reregister)
    case FinishResend => Sender(S.Resend)
    case StartClosing => Sender(S.Closing)
    case Shutdown => Sender(S.End)
    case DeliverAcks(ids) => DeliverAck(ids)
    case LoseMessage(message) => Lose(message)
  }

  predicate OfSendTask(scene: Scene) {
    scene.PollWindow? || scene.NothingTaken? || scene.TakePayload? || scene.RegisterHeld? || scene.FinishSend?
  }

  predicate OfTimeoutTask(scene: Scene) {
    OfScan(scene) || OfResend(scene)
  }

  predicate OfScan(scene: Scene) {
    scene.StartScan? || scene.PopExpired?
  }

  predicate OfResend(scene: Scene) {
    scene.TakeExpired? || scene.RegisterCarried? || scene.FinishResend?
  }

  class Link {
    const tx: SendSide
    const rx: ReceiveLoop
    var net: set<Message>

    ghost function Model(): State
      reads this, tx, rx
    {
      State(tx.Model(), rx.Model(), net)
    }

    ghost predicate Valid()
      reads this, tx, rx
    {
      Reachable(Model()) && GoodBatches(rx.ackTx) && rx.Keyed()
    }

    constructor (streamId: nat)
      ensures Valid() && fresh(tx) && fresh(rx) && Model() == INITIAL
    {
      tx := new SendSide();
      rx := new ReceiveLoop(streamId);
      net := {};
      new;
      assert Runs(INITIAL, [], Model());
    }

    /** Data for this stream can only come from the network. */
    predicate CanHear(incoming: Incoming)
      reads this
    {
      incoming.DataFor? && incoming.streamId == rx.streamId ==> Data(incoming.pack) in net
    }

    ghost function Act(scene: Scene): Action
      requires !scene.Round?
      reads tx
    {
      ActionOf(scene, scene.PopExpired? && tx.Expired(scene.now, scene.timeout))
    }

    /** What a scene makes of the two ends and the network, if its moment has come. */
    ghost function After(scene: Scene): State
      requires !scene.Round?
      reads this, tx, rx
    {
      if Enabled(Model(), Act(scene)) then Apply(Model(), Act(scene)) else Model()
    }

    /** A round of the receive loop fed from the network; its acks go into the network. */
    method ServeRound(incoming: Incoming, env: nat -> HandOverOutcome, writeBreak: nat -> bool)
      requires Valid() && !rx.isClose && CanHear(incoming)
      modifies this`net, rx
      ensures Valid() && old(rx.ackTx) <= rx.ackTx
      ensures net == old(net) + AcksFrom(rx.ackTx, |old(rx.ackTx)|)
    {
      hide Reachable;
      ghost var st := Model();
      var sent := |rx.ackTx|;
      ghost var acts, dup, ids := rx.Round(incoming, env, writeBreak);
      ArrivesFirst(acts);
      ghost var run, t := ReceiverRunLifts(st, acts, rx.Model());
      net := net + AcksFrom(rx.ackTx, sent);
      ReachableOn(st, run, t);
      assert Model() == t;
    }

    /** One step of the sending task: the machine's, if its moment has come. */
    method SendTask(scene: Scene)
      requires OfSendTask(scene)
      modifies this`net, tx
      ensures Model() == old(After(scene))
    {
      hide S.Apply, S.OnAck, InfoIds;
      if tx.ended { return; }
      match scene {
        case PollWindow =>
          if tx.task == S.Blocked {
            var ready := tx.PollWindow();
          }
        case NothingTaken =>
          if tx.task == S.Ready { tx.NothingTaken(); }
        case TakePayload(data) =>
          if tx.task == S.Ready { tx.TakePayload(data); }
        case RegisterHeld =>
          if tx.task.Holding? { tx.RegisterHeld(); }
        case FinishSend =>
          if tx.task.Sending? {
            var pack := tx.FinishSend();
            net := net + {Data(pack)};
          }
      }
    }

    /** One step of the timeout task at its list. */
    method ScanTask(scene: Scene)
      requires OfScan(scene)
      modifies this`net, tx
      ensures Model() == old(After(scene))
    {
      hide S.Apply, S.OnAck, InfoIds;
      if tx.ended { return; }
      HeadId(tx.waitingPackInfos);
      match scene {
        case StartScan =>
          if tx.timer == S.Asleep {
            var scans := tx.StartScan();
          }
        case PopExpired(now, timeout) =>
          if tx.timer == S.Scanning {
            var popped := tx.PopExpiredInfo(now, timeout);
          }
      }
    }

    /** One step of the timeout task with an entry or a pack in hand. */
    method ResendTask(scene: Scene)
      requires OfResend(scene)
      modifies this`net, tx
      ensures Model() == old(After(scene))
    {
      hide S.Apply, S.OnAck, InfoIds, InOrder;
      if tx.ended { return; }
      match scene {
        case TakeExpired =>
          if tx.timer.Popped? { tx.TakeExpiredPack(); }
        case RegisterCarried =>
          if tx.timer.Carrying? { tx.RegisterCarried(); }
        case FinishResend =>
          if tx.timer.Resending? {
            var pack := tx.FinishResend();
            net := net + {Data(pack)};
          }
      }
    }

    /** One step of the timeout task. */
    method TimeoutTask(scene: Scene)
      requires OfTimeoutTask(scene)
      modifies this`net, tx
      ensures Model() == old(After(scene))
    {
      hide Apply, Enabled;
      if OfScan(scene) {
        ScanTask(scene);
      } else {
        ResendTask(scene);
      }
    }

    /** The sender's end is closing or ends, a message is lost, or an ack reaches the sender and stays in the network. */
    method Network(scene: Scene)
      requires scene.StartClosing? || scene.Shutdown? || scene.DeliverAcks? || scene.LoseMessage?
      modifies this`net, tx
      ensures Model() == old(After(scene))
    {
      hide S.Apply, S.OnAck, InfoIds;
      match scene {
        case StartClosing =>
          if !tx.ended && !tx.closing { tx.StartClosing(); }
        case Shutdown =>
          if !tx.ended { tx.Shutdown(); }
        case DeliverAcks(ids) =>
          if Ack(ids) in net && !tx.closing { tx.HandleAck(ids); }
        case LoseMessage(message) =>
          if message in net { net := net - {message}; }
      }
    }

    /** A scene that is not a round. */
    method PlayOne(scene: Scene)
      requires Valid() && !scene.Round?
      modifies this`net, tx
      ensures Valid() && Model() == old(After(scene))
    {
      hide Reachable;
      hide Apply, Enabled;
      if Enabled(Model(), Act(scene)) {
        ReachableNext(Model(), Act(scene));
      }
      if OfSendTask(scene) {
        SendTask(scene);
      } else if OfTimeoutTask(scene) {
        TimeoutTask(scene);
      } else {
        Network(scene);
      }
    }

    /** Plays the scenes in turn, leaving out those whose moment has not come. */
    method Play(scenes: seq<Scene>)
      requires Valid()
      modifies this`net, tx, rx
      ensures Valid()
      ensures |tx.taken| < ID_MODULUS ==> Delivered(tx, rx)
    {
      hide Reachable;
      for i := 0 to |scenes|
        invariant Valid()
      {
        match scenes[i] {
          case Round(incoming, env, writeBreak) =>
            if !rx.isClose && CanHear(incoming) {
              ServeRound(incoming, env, writeBreak);
            }
          case _ =>
            PlayOne(scenes[i]);
        }
      }
      if |tx.taken| < ID_MODULUS {
        ReachableMeansDelivered(this);
      }
    }
  }

  /** Only the first action of a round brings a pack in. */
  lemma ArrivesFirst(acts: seq<R.Action>)
    requires acts != []
    requires |acts| >= 2 ==> acts[|acts| - 1] == R.EndRound && OnlyDraws(acts[1..|acts| - 1])
    ensures forall a <- acts :: a.Arrive? ==> a == acts[0]
  {
    forall i | 0 < i < |acts| ensures !acts[i].Arrive? {
      if i < |acts| - 1 {
        var inner := acts[1..|acts| - 1];
        assert acts[i] == inner[i - 1] && inner[i - 1] in inner;
      }
    }
  }

  /** What the far end has handed to its stream is a prefix of what the near end took; between
      rounds of an open stream it is everything accepted, and the accepted ids have no gap. */
  ghost predicate Delivered(tx: SendSide, rx: ReceiveLoop)
    reads tx, rx
  {
    && |rx.streamTx| <= |tx.taken|
    && rx.streamTx == FirstPacks(tx.taken, |rx.streamTx|)
    && (rx.streamOpen ==> |rx.streamTx| == rx.accepted)
    && (rx.accepted + 1 < ID_MODULUS ==> forall id :: id in rx.sendPackIdMap <==> 1 <= id < rx.packId)
  }

  lemma ReachableMeansDelivered(link: Link)
    requires link.Valid() && |link.tx.taken| < ID_MODULUS
    ensures Delivered(link.tx, link.rx)
  {
    hide Reachable;
    DeliveryInOrder(link.Model());
  }
}
