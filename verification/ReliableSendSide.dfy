/** The sending half of `StreamPack` as code: the window counter, the map of un-acked packs
    and the timeout list, each method the code between two suspension points.  `task` and
    `timer` say where the two sender tasks stand. */
module ReliableSendSide {
  import opened Basics
  import opened ReliableSender

  datatype WaitingInfo = WaitingInfo(insertTimestamp: int, packId: nat)

  function InfoIds(infos: seq<WaitingInfo>): (r: seq<nat>)
    ensures |r| == |infos| && forall i :: 0 <= i < |r| ==> r[i] == infos[i].packId
  {
    seq(|infos|, i requires 0 <= i < |infos| => infos[i].packId)
  }

  /** Stamps do not go down along the list, and none is in the future. */
  ghost predicate InOrder(infos: seq<WaitingInfo>, clock: int) {
    && (forall i, j :: 0 <= i < j < |infos| ==> infos[i].insertTimestamp <= infos[j].insertTimestamp)
    && (forall i :: 0 <= i < |infos| ==> infos[i].insertTimestamp <= clock)
  }

  /** The packs of these entries that no ack has removed. */
  function StillWaiting(infos: seq<WaitingInfo>, waiting: map<nat, Pack>): seq<Pack> {
    if infos == [] then []
    else
      var n := |infos| - 1;
      StillWaiting(infos[..n], waiting)
      + if infos[n].packId in waiting then [waiting[infos[n].packId]] else []
  }

  /** New entries for resent packs. */
  function Stamped(packs: seq<Pack>, now: int): seq<WaitingInfo> {
    if packs == [] then [] else Stamped(packs[..|packs| - 1], now) + [WaitingInfo(now, packs[|packs| - 1].id)]
  }

  lemma NothingYet(infos: seq<WaitingInfo>, now: int, waiting: map<nat, Pack>)
    ensures StillWaiting(infos[..0], waiting) == [] && infos == infos[0..] + Stamped([], now)
  {
  }

  lemma StillWaitingMore(infos: seq<WaitingInfo>, next: WaitingInfo, waiting: map<nat, Pack>)
    ensures StillWaiting(infos + [next], waiting)
            == StillWaiting(infos, waiting) + if next.packId in waiting then [waiting[next.packId]] else []
  {
    assert (infos + [next])[..|infos|] == infos;
  }

  lemma StampedMore(packs: seq<Pack>, p: Pack, now: int)
    ensures Stamped(packs + [p], now) == Stamped(packs, now) + [WaitingInfo(now, p.id)]
  {
    assert (packs + [p])[..|packs|] == packs;
  }

  lemma {:induction false} StampedNow(packs: seq<Pack>, now: int)
    ensures forall e <- Stamped(packs, now) :: e.insertTimestamp == now
  {
    if packs == [] {
    } else {
      StampedNow(packs[..|packs| - 1], now);
    }
  }

  lemma HeadId(infos: seq<WaitingInfo>)
    ensures InfoIds(infos) != [] <==> infos != []
  {
  }

  /** The entries older than the timeout are a prefix. */
  lemma ExpiredPrefix(infos: seq<WaitingInfo>, clock: int, timeout: nat, k: nat)
    requires InOrder(infos, clock) && k <= |infos|
    requires forall i :: 0 <= i < k ==> clock - infos[i].insertTimestamp > timeout
    requires k < |infos| ==> clock - infos[k].insertTimestamp <= timeout
    ensures forall i :: 0 <= i < |infos| ==> (i < k <==> clock - infos[i].insertTimestamp > timeout)
  {
  }

  lemma RestInOrder(infos: seq<WaitingInfo>, clock: int, k: nat, packs: seq<Pack>)
    requires InOrder(infos, clock) && k <= |infos|
    ensures InOrder(infos[k..] + Stamped(packs, clock), clock)
  {
    StampedNow(packs, clock);
    var rest, all := infos[k..], infos[k..] + Stamped(packs, clock);
    assert forall i :: |rest| <= i < |all| ==> all[i] in Stamped(packs, clock);
  }

  /** An entry that is too old is not one stamped just now. */
  lemma OldIsFromList(infos: seq<WaitingInfo>, clock: int, timeout: nat, k: nat, packs: seq<Pack>)
    requires k <= |infos| && infos[k..] + Stamped(packs, clock) != []
    requires clock - (infos[k..] + Stamped(packs, clock))[0].insertTimestamp > timeout
    ensures k < |infos| && (infos[k..] + Stamped(packs, clock))[0] == infos[k]
  {
    StampedNow(packs, clock);
    var first := (infos[k..] + Stamped(packs, clock))[0];
    assert first in infos[k..] || first in Stamped(packs, clock);
  }

  lemma WaitingUnderOwnId(s: Sender, id: nat)
    requires Inv(s) && id in s.waiting
    ensures s.waiting[id].id == id
  {
  }

  class SendSide {
    var packId: nat
    var currSendPackLen: int
    var waitingPackMap: map<nat, Pack>
    var waitingPackInfos: seq<WaitingInfo>
    var currTimestamp: int
    var task: Task
    var timer: Timer
    ghost var taken: seq<Bytes>
    ghost var acked: set<nat>
    /** `is_close`. */
    var closing: bool
    var ended: bool

    constructor ()
      ensures Model() == INITIAL
    {
      packId, currSendPackLen, waitingPackMap, waitingPackInfos := 0, 0, map[], [];
      task, timer, taken, acked, closing, ended := Blocked, Asleep, [], {}, false, false;
    }

    ghost function Model(): Sender
      reads this
    {
      Sender(taken, packId, currSendPackLen, waitingPackMap, InfoIds(waitingPackInfos), task, timer, acked, closing, ended)
    }

    /** Waiting for the window: the task goes on exactly when there is room. */
    method PollWindow() returns (ready: bool)
      requires !ended && task == Blocked
      modifies this`task
      ensures ready <==> !ended && old(currSendPackLen) < 1048576
      ensures Model() == if ready then Apply(old(Model()), WindowOpen) else old(Model())
    {
      ready := currSendPackLen < WINDOW;
      if ready { task := Ready; }
    }

    /** A second without a payload: back to the window, unless the stream is closing. */
    method NothingTaken()
      requires !ended && task == Ready
      modifies this
      ensures Model() == Apply(old(Model()), RecvTimeout)
    {
      task := Blocked;
      if closing { Shutdown(); }
    }

    /** A payload arrives from the local stream: it is counted, numbered and held. */
    method TakePayload(data: Bytes)
      requires !ended && task == Ready
      modifies this`packId, this`currSendPackLen, this`task, this`taken
      ensures Model() == Apply(old(Model()), Take(data))
    {
      currSendPackLen := currSendPackLen + |data|;
      packId := NextId(packId);
      task := Holding(Pack(packId, data));
      taken := taken + [data];
    }

    /** Registers a pack for retransmission: a new timeout entry and the map entry. */
    method RegisterPack(pack: Pack)
      modifies this`waitingPackInfos, this`waitingPackMap
      ensures waitingPackMap == old(waitingPackMap)[pack.id := pack]
      ensures InfoIds(waitingPackInfos) == old(InfoIds(waitingPackInfos)) + [pack.id]
      ensures waitingPackInfos == old(waitingPackInfos) + [WaitingInfo(currTimestamp, pack.id)]
      ensures old(InOrder(waitingPackInfos, currTimestamp)) ==> InOrder(waitingPackInfos, currTimestamp)
    {
      waitingPackInfos := waitingPackInfos + [WaitingInfo(currTimestamp, pack.id)];
      waitingPackMap := waitingPackMap[pack.id := pack];
    }

    method RegisterHeld()
      requires !ended && task.Holding?
      modifies this`waitingPackInfos, this`waitingPackMap, this`task
      ensures Model() == Apply(old(Model()), Register)
    {
      RegisterPack(task.pack);
      task := Sending(task.pack);
    }

    method RegisterCarried()
      requires !ended && timer.Carrying?
      modifies this`waitingPackInfos, this`waitingPackMap, this`timer
      ensures Model() == Apply(old(Model()), Reregister)
      ensures timer == Resending(old(timer.pack)) && waitingPackMap == old(waitingPackMap)[old(timer.pack).id := old(timer.pack)]
      ensures waitingPackInfos == old(waitingPackInfos) + [WaitingInfo(currTimestamp, old(timer.pack).id)]
    {
      RegisterPack(timer.pack);
      timer := Resending(timer.pack);
    }

    /** The registered pack goes out; a closing stream has sent its last. */
    method FinishSend() returns (pack: Pack)
      requires !ended && task.Sending?
      modifies this
      ensures Emitted(old(Model()), Send) == Some(pack)
      ensures Model() == Apply(old(Model()), Send)
    {
      pack := task.pack;
      task := Blocked;
      if closing { Shutdown(); }
    }

    method FinishResend() returns (pack: Pack)
      requires !ended && timer.Resending?
      modifies this`timer
      ensures Emitted(old(Model()), Resend) == Some(pack) && pack == old(timer.pack) && timer == Scanning
      ensures Model() == Apply(old(Model()), Resend)
    {
      pack := timer.pack;
      timer := Scanning;
    }

    /** The oldest timeout entry is older than the timeout. */
    predicate Expired(now: int, timeout: nat)
      reads this
    {
      waitingPackInfos != [] && now - waitingPackInfos[0].insertTimestamp > timeout
    }

    /** The clock does not run back. */
    method Tick(now: int)
      requires currTimestamp <= now && InOrder(waitingPackInfos, currTimestamp)
      modifies this`currTimestamp
      ensures InOrder(waitingPackInfos, currTimestamp) && Model() == old(Model())
    {
      currTimestamp := now;
    }

    /** The pack in the timeout task's hands is registered anew and resent. */
    method ResendCarried() returns (pack: Pack)
      requires !ended && timer.Carrying? && Inv(Model())
      modifies this`waitingPackInfos, this`waitingPackMap, this`timer
      ensures timer == Scanning && Inv(Model()) && pack == old(timer.pack)
      ensures waitingPackMap == old(waitingPackMap)[pack.id := pack]
      ensures waitingPackInfos == old(waitingPackInfos) + [WaitingInfo(currTimestamp, pack.id)]
    {
      hide Apply, Inv, InfoIds, Emitted, InOrder;
      ghost var s := Model();
      ReregisterKeepsInv(s);
      RegisterCarried();
      ghost var s1 := Model();
      IdleKeepsInv(s1, Resend);
      pack := FinishResend();
    }

    /** One turn of a scan that finds an expired entry: it is popped, and its pack, if no ack was
        faster, is registered anew and resent. */
    method ScanOne(timeout: nat) returns (resent: Option<Pack>)
      requires !ended && timer == Scanning && Inv(Model())
      requires waitingPackInfos != [] && currTimestamp - waitingPackInfos[0].insertTimestamp > timeout
      modifies this`waitingPackInfos, this`waitingPackMap, this`timer
      ensures timer == Scanning && Inv(Model()) && waitingPackMap == old(waitingPackMap)
      ensures var first := old(waitingPackInfos)[0].packId;
              && resent == (if first in waitingPackMap then Some(waitingPackMap[first]) else None)
              && waitingPackInfos == old(waitingPackInfos)[1..]
                                     + if first in waitingPackMap then [WaitingInfo(currTimestamp, first)] else []
    {
      hide Apply, Inv, InfoIds, Emitted, InOrder;
      ghost var s, id := Model(), waitingPackInfos[0].packId;
      HeadId(waitingPackInfos);
      var popped := PopExpiredInfo(currTimestamp, timeout);
      ghost var s1 := Model();
      PopKeepsInv(s);
      TakeExpiredPack();
      TakeExpiredKeepsInv(s1);
      resent := None;
      if timer.Carrying? {
        WaitingUnderOwnId(s, id);
        assert (s.waiting - {id})[id := s.waiting[id]] == s.waiting;
        var pack := ResendCarried();
        resent := Some(pack);
      }
    }

    /** A whole scan with nobody in between: with the stamps in order it takes exactly the entries
        older than the timeout, `k` of them, resends those of their packs that still wait, in order
        and stamped anew behind the others, which it leaves alone. */
    method Scan(timeout: nat) returns (resent: seq<Pack>, ghost k: nat)
      requires !ended && !closing && timer == Asleep && Inv(Model()) && InOrder(waitingPackInfos, currTimestamp)
      modifies this
      ensures !ended && timer == Asleep && Inv(Model()) && waitingPackMap == old(waitingPackMap)
      ensures k <= |old(waitingPackInfos)|
      ensures forall i :: 0 <= i < |old(waitingPackInfos)| ==>
                (i < k <==> currTimestamp - old(waitingPackInfos)[i].insertTimestamp > timeout)
      ensures resent == StillWaiting(old(waitingPackInfos)[..k], waitingPackMap)
      ensures waitingPackInfos == old(waitingPackInfos)[k..] + Stamped(resent, currTimestamp)
      ensures InOrder(waitingPackInfos, currTimestamp)
    {
      hide Apply, Inv, InfoIds, InOrder, Stamped, StillWaiting;
      ghost var infos := waitingPackInfos;
      NothingYet(infos, currTimestamp, waitingPackMap);
      resent, k := [], 0;
      var scans := StartScan();
      IdleKeepsInv(old(Model()), WakeUp);
      while waitingPackInfos != [] && currTimestamp - waitingPackInfos[0].insertTimestamp > timeout
        invariant !ended && timer == Scanning && Inv(Model()) && waitingPackMap == old(waitingPackMap)
        invariant currTimestamp == old(currTimestamp) && k <= |infos|
        invariant forall i :: 0 <= i < k ==> currTimestamp - infos[i].insertTimestamp > timeout
        invariant resent == StillWaiting(infos[..k], waitingPackMap)
        invariant waitingPackInfos == infos[k..] + Stamped(resent, currTimestamp)
        decreases |infos| - k
      {
        OldIsFromList(infos, currTimestamp, timeout, k, resent);
        ghost var before, id := resent, infos[k].packId;
        var pack := ScanOne(timeout);
        StillWaitingMore(infos[..k], infos[k], waitingPackMap);
        assert infos[..k + 1] == infos[..k] + [infos[k]] && infos[k..] == [infos[k]] + infos[k + 1..];
        if pack.Some? {
          resent := resent + [pack.value];
          WaitingUnderOwnId(Model(), id);
          StampedMore(before, pack.value, currTimestamp);
        }
        k := k + 1;
      }
      ghost var s := Model();
      IdleKeepsInv(s, ScanEnd);
      var popped := PopExpiredInfo(currTimestamp, timeout);
      ghost var head := infos[k..] + Stamped(resent, currTimestamp);
      assert k < |infos| ==> head[0] == infos[k];
      ExpiredPrefix(infos, currTimestamp, timeout, k);
      RestInOrder(infos, currTimestamp, k, resent);
    }

    /** The timeout task wakes up: it scans the list, unless the stream is closing. */
    method StartScan() returns (scans: bool)
      requires !ended && timer == Asleep
      modifies this`timer
      ensures scans <==> !closing
      ensures timer == if scans then Scanning else Asleep
      ensures Model() == if scans then Apply(old(Model()), WakeUp) else old(Model())
    {
      scans := !closing;
      if scans { timer := Scanning; }
    }

    /** Pops the oldest timeout entry if it is old enough, and else ends the scan. */
    method PopExpiredInfo(now: int, timeout: nat) returns (popped: bool)
      requires !ended && timer == Scanning
      modifies this`waitingPackInfos, this`timer
      ensures popped == old(Expired(now, timeout))
      ensures popped <==> old(waitingPackInfos) != [] && now - old(waitingPackInfos)[0].insertTimestamp > timeout
      ensures popped ==> timer == Popped(old(waitingPackInfos)[0].packId) && waitingPackInfos == old(waitingPackInfos)[1..]
      ensures !popped ==> timer == Asleep && waitingPackInfos == old(waitingPackInfos)
      ensures Model() == Apply(old(Model()), if popped then PopExpired else ScanEnd)
    {
      popped := false;
      timer := Asleep;
      if waitingPackInfos == [] {
        return;
      }
      if now - waitingPackInfos[0].insertTimestamp > timeout {
        popped := true;
        timer := Popped(waitingPackInfos[0].packId);
        waitingPackInfos := waitingPackInfos[1..];
        assert InfoIds(waitingPackInfos) == old(InfoIds(waitingPackInfos))[1..];
      }
    }

    /** Takes the popped entry's pack out of the map, unless an ack was faster. */
    method TakeExpiredPack()
      requires !ended && timer.Popped?
      modifies this`waitingPackMap, this`timer
      ensures Model() == Apply(old(Model()), TakeExpired)
      ensures var id := old(timer.id);
              if id in old(waitingPackMap) then
                timer == Carrying(old(waitingPackMap)[id]) && waitingPackMap == old(waitingPackMap) - {id}
              else timer == Scanning && waitingPackMap == old(waitingPackMap)
    {
      var id := timer.id;
      if id in waitingPackMap {
        timer := Carrying(waitingPackMap[id]);
        waitingPackMap := waitingPackMap - {id};
      } else {
        timer := Scanning;
      }
    }

    /** The receive loop of this end has failed. */
    method StartClosing()
      requires !ended && !closing
      modifies this`closing
      ensures Model() == Apply(old(Model()), Closing)
    {
      closing := true;
    }

    /** One of the tasks has returned: the others are dropped where they stand, and with them the
        packs that no ack has confirmed. */
    method Shutdown()
      requires !ended
      modifies this
      ensures Model() == Apply(old(Model()), End)
    {
      ended := true;
      waitingPackMap, waitingPackInfos := map[], [];
      task, timer := Blocked, Asleep;
    }

    /** The ack loop: every id that is still waiting leaves the map and the window. */
    method HandleAck(ids: seq<nat>)
      modifies this`waitingPackMap, this`currSendPackLen, this`acked
      ensures Model() == OnAck(old(Model()), ids)
    {
      for i := 0 to |ids|
        invariant Model() == OnAck(old(Model()), ids[..i])
      {
        assert ids[..i + 1] == ids[..i] + [ids[i]];
        OnAckSnoc(old(Model()), ids[..i], ids[i]);
        var id := ids[i];
        if id in waitingPackMap {
          currSendPackLen := currSendPackLen - |waitingPackMap[id].data|;
          waitingPackMap := waitingPackMap - {id};
          acked := acked + {id};
        }
      }
      assert ids[..|ids|] == ids;
    }
  }
}
