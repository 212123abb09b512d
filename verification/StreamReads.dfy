/** The reading half of a tunnel stream: packs come from a channel, bytes go out in four kinds of
    calls.  While a call runs, the other side may push packs and close the channel. */
module StreamReads {
  import opened Basics

  lemma BytesSnoc(buffered: Bytes, queue: seq<Pack>, p: Pack)
    ensures buffered + Flat(Payloads(queue + [p])) == buffered + Flat(Payloads(queue)) + p.data
  {
    assert Payloads(queue + [p]) == Payloads(queue) + [p.data];
    FlatSnoc(Payloads(queue), p.data);
  }

  lemma BytesHead(queue: seq<Pack>)
    requires queue != []
    ensures Flat(Payloads(queue)) == queue[0].data + Flat(Payloads(queue[1..]))
  {
    assert Payloads(queue)[1..] == Payloads(queue[1..]);
  }

  class StreamBuf {
    var data: Bytes

    constructor ()
      ensures data == []
    {
      data := [];
    }

    /** Replaces the bytes: only a caller that finds the buffer empty loses nothing. */
    method SetBytes(bytes: Bytes)
      modifies this
      ensures data == bytes
    {
      data := bytes;
    }

    method Split() returns (r: Bytes)
      modifies this
      ensures r == old(data) && data == []
    {
      r, data := data, [];
    }

    /** A cut behind the end takes everything. */
    method SplitTo(at: nat) returns (r: Bytes)
      modifies this
      ensures r + data == old(data)
      ensures |r| == if at <= |old(data)| then at else |old(data)|
    {
      if at >= |data| {
        r := Split();
        return;
      }
      r, data := data[..at], data[at..];
    }
  }

  /** What the pushing side does while a read runs. */
  datatype Event = Push(pack: Pack) | CloseSender

  datatype Received = Item(pack: Pack) | Empty | Closed

  datatype Poll = Ready(data: Bytes) | Pending | Reset

  class TunnelStream {
    /** `stream_rx` is there. */
    var rxOpen: bool
    const rxBuf: StreamBuf
    /** A stored receive future; it holds no pack. */
    var rxFuture: bool
    var rxPackId: nat
    var queue: seq<Pack>
    var senderClosed: bool
    ghost var received: Bytes
    ghost var returned: Bytes
    /** The owner closed the reading side. */
    ghost var ownerClosed: bool

    ghost function Unread(): Bytes
      reads this`queue, rxBuf
    {
      rxBuf.data + Flat(Payloads(queue))
    }

    /** Nothing was lost and nothing can come. */
    ghost predicate AllRead()
      reads this, rxBuf
    {
      senderClosed && Unread() == [] && returned == received
    }

    /** Every byte received is returned, buffered or queued, in order; and the stream ends by
        itself only behind the last byte. */
    ghost predicate Valid()
      reads this, rxBuf
    {
      received == returned + Unread() && (!rxOpen && !ownerClosed ==> AllRead())
    }

    constructor ()
      ensures Valid() && rxOpen && !senderClosed && received == [] && fresh(rxBuf)
    {
      rxOpen, rxFuture, rxPackId, queue, senderClosed := true, false, 0, [], false;
      rxBuf := new StreamBuf();
      received, returned, ownerClosed := [], [], false;
    }

    /** The other side of the channel; a closed channel takes nothing. */
    method Happen(e: Event)
      requires Valid()
      modifies this`queue, this`senderClosed, this`received
      ensures Valid() && old(received) <= received
      ensures e.Push? && rxOpen && !old(senderClosed) ==>
                queue == old(queue) + [e.pack] && received == old(received) + e.pack.data
      ensures !e.Push? || !rxOpen || old(senderClosed) ==> queue == old(queue) && received == old(received)
      ensures senderClosed <==> old(senderClosed) || e.CloseSender?
    {
      hide Flat, Payloads;
      match e
      case Push(pack) =>
        if rxOpen && !senderClosed {
          BytesSnoc(rxBuf.data, queue, pack);
          assert returned + Unread() + pack.data == returned + (Unread() + pack.data);
          queue, received := queue + [pack], received + pack.data;
        }
      case CloseSender =>
        senderClosed := true;
    }

    /** Any number of the events that are still to come. */
    method Meanwhile(events: seq<Event>) returns (rest: seq<Event>)
      requires Valid()
      modifies this`queue, this`senderClosed, this`received
      ensures Valid() && old(received) <= received && (old(senderClosed) ==> senderClosed)
      ensures |queue| + |rest| <= old(|queue|) + |events|
      ensures old(queue) <= queue
    {
      rest := events;
      var n :| 0 <= n <= |events|;
      while n > 0
        invariant Valid() && old(received) <= received && (old(senderClosed) ==> senderClosed)
        invariant n <= |rest| && |queue| + |rest| <= old(|queue|) + |events|
        invariant old(queue) <= queue
      {
        Happen(rest[0]);
        rest, n := rest[1..], n - 1;
      }
    }

    /** One `try_recv`, or equally one poll of the receive future, on a used-up buffer, and what
        follows it: a pack becomes the buffer, a closed and drained channel ends the stream. */
    method NextPack(events: seq<Event>) returns (got: Received, rest: seq<Event>)
      requires Valid() && rxOpen && rxBuf.data == []
      modifies this`queue, this`senderClosed, this`received, this`rxPackId, this`rxOpen, rxBuf
      ensures Valid() && old(received) <= received
      ensures got.Item? ==> rxOpen && |queue| + |rest| < old(|queue|) + |events|
      ensures got.Item? ==> rxPackId == got.pack.id && rxBuf.data == got.pack.data
      ensures got.Closed? ==> !rxOpen && AllRead() && rxBuf.data == []
      ensures got.Empty? ==> rxOpen && !senderClosed && returned == received && rxBuf.data == []
      ensures got.Empty? ==> |queue| + |rest| <= old(|queue|) + |events|
    {
      hide Payloads;
      rest := Meanwhile(events);
      if queue != [] {
        BytesHead(queue);
        got, queue := Item(queue[0]), queue[1..];
        rxPackId := got.pack.id;
        assert rxBuf.data == [];
        rxBuf.SetBytes(got.pack.data);
      } else if senderClosed {
        got := Closed;
        rxOpen := false;
      } else {
        got := Empty;
      }
    }

    /** The waiting calls: a stored future is polled again; without one the channel is tried first,
        and a call that has bytes already does not wait.  A future left pending is stored. */
    method Receive(hasData: bool, events: seq<Event>) returns (got: Received, rest: seq<Event>)
      requires Valid() && rxOpen && rxBuf.data == []
      modifies this`queue, this`senderClosed, this`received, this`rxPackId, this`rxOpen, this`rxFuture, rxBuf
      ensures Valid() && old(received) <= received
      ensures got.Item? ==> rxOpen && |queue| + |rest| < old(|queue|) + |events|
      ensures got.Closed? ==> !rxOpen && AllRead() && rxBuf.data == []
      ensures got.Empty? ==> rxOpen && !senderClosed && returned == received && rxBuf.data == []
      ensures got.Empty? && !hasData ==> rxFuture
    {
      hide Flat;
      hide Unread;
      rest := events;
      if rxFuture {
        rxFuture := false;
      } else {
        got, rest := NextPack(rest);
        if !got.Empty? || hasData { return; }
      }
      got, rest := NextPack(rest);
      if got.Empty? { rxFuture := true; }
    }

    /** The owner gives up the reading side; what is unread stays unread. */
    method Close()
      requires Valid()
      modifies this`rxOpen, this`ownerClosed
      ensures Valid() && !rxOpen
    {
      rxOpen, ownerClosed := false, true;
    }

    method ReadBuf(room: nat) returns (some: bool, data: Bytes)
      requires Valid()
      modifies this`returned, rxBuf
      ensures Valid()
      ensures some <==> old(rxBuf.data) != []
      ensures data + rxBuf.data == old(rxBuf.data) && returned == old(returned) + data
      ensures |data| <= room && (|data| == room || rxBuf.data == [])
    {
      hide Flat, Payloads;
      some, data := rxBuf.data != [], [];
      if some {
        data := rxBuf.SplitTo(if room <= |rxBuf.data| then room else |rxBuf.data|);
        returned := returned + data;
        assert old(Unread()) == data + Unread();
      }
    }

    /** Moves the whole buffer into a message. */
    method TakeBuf() returns (data: Bytes)
      requires Valid()
      modifies this`returned, rxBuf
      ensures Valid() && data == old(rxBuf.data) && rxBuf.data == []
      ensures returned == old(returned) + data
    {
      data := rxBuf.Split();
      returned := returned + data;
    }

    /** Blocking read into `capacity` bytes.  It returns the next bytes in order, as many as fit
        or as there are; it waits only when there is nothing; an empty result with room is the
        end of the stream. */
    method PollRead(capacity: nat, events: seq<Event>) returns (r: Poll)
      requires Valid()
      modifies this, rxBuf
      ensures Valid() && old(received) <= received && ownerClosed == old(ownerClosed)
      ensures !r.Reset? && (r.Pending? ==> rxOpen && !senderClosed && rxFuture)
      ensures returned == old(returned) + (if r.Ready? then r.data else [])
      ensures r.Ready? ==> |r.data| <= capacity
      ensures |returned| < |old(returned)| + capacity && old(rxOpen) ==> returned == received
      ensures r == Ready([]) && capacity > 0 ==> !rxOpen && (ownerClosed || AllRead())
    {
      hide Flat;
      hide Unread;
      var data: Bytes, isRead, rest := [], false, events;
      while true
        invariant Valid() && old(received) <= received && ownerClosed == old(ownerClosed)
        invariant returned == old(returned) + data && |data| <= capacity
        invariant isRead ==> data != [] && |data| < capacity
        invariant !isRead ==> data == []
        invariant !rxOpen && old(rxOpen) ==> AllRead()
        decreases rxOpen, |queue| + |rest|
      {
        var got: Received;
        if !rxOpen { return Ready(data); }
        var some, bytes := ReadBuf(capacity - |data|);
        data := data + bytes;
        if some {
          isRead := true;
          if |data| == capacity { return Ready(data); }
        }
        got, rest := Receive(isRead, rest);
        if got.Empty? { return if isRead then Ready(data) else Pending; }
      }
    }

    /** The read that never waits: without bytes it returns empty-handed, and at the end of the
        stream it reports a reset connection. */
    method PollTryRead(capacity: nat, events: seq<Event>) returns (r: Poll)
      requires Valid()
      modifies this, rxBuf
      ensures Valid() && old(received) <= received && ownerClosed == old(ownerClosed)
      ensures !r.Pending? && (r.Reset? ==> !rxOpen && (ownerClosed || AllRead()))
      ensures returned == old(returned) + (if r.Ready? then r.data else [])
      ensures r.Ready? ==> |r.data| <= capacity
      ensures |returned| < |old(returned)| + capacity && old(rxOpen) ==> returned == received
      ensures r == Ready([]) && capacity > 0 ==> rxOpen && !senderClosed
    {
      hide Flat;
      hide Unread;
      var data: Bytes, isRead, rest := [], false, events;
      while true
        invariant Valid() && old(received) <= received && ownerClosed == old(ownerClosed)
        invariant returned == old(returned) + data && |data| <= capacity
        invariant isRead ==> data != [] && |data| < capacity
        invariant !isRead ==> data == []
        invariant !rxOpen && old(rxOpen) ==> AllRead()
        decreases rxOpen, |queue| + |rest|
      {
        var got: Received;
        if !rxOpen { return if isRead then Ready(data) else Reset; }
        var some, bytes := ReadBuf(capacity - |data|);
        data := data + bytes;
        if some {
          isRead := true;
          if |data| == capacity { return Ready(data); }
        }
        got, rest := NextPack(rest);
        if got.Empty? { return Ready(data); }
      }
    }

    /** Blocking read of a message: whole packs until `msgSize` bytes are there or no more packs
        are; a message that is not empty takes the buffer and packs to their ends. */
    method PollReadMsg(msgSize: nat, events: seq<Event>) returns (r: Poll)
      requires Valid()
      modifies this, rxBuf
      ensures Valid() && old(received) <= received && ownerClosed == old(ownerClosed)
      ensures !r.Reset? && (r.Pending? ==> rxOpen && !senderClosed && rxFuture)
      ensures returned == old(returned) + (if r.Ready? then r.data else [])
      ensures old(rxOpen) ==> rxBuf.data == []
      ensures |returned| < |old(returned)| + msgSize && old(rxOpen) ==> returned == received
      ensures r == Ready([]) ==> !rxOpen && (ownerClosed || AllRead())
    {
      hide Flat;
      hide Unread;
      var msg: Bytes, rest := [], events;
      while true
        invariant Valid() && old(received) <= received && ownerClosed == old(ownerClosed)
        invariant returned == old(returned) + msg
        invariant msg == [] || |msg| < msgSize
        invariant !rxOpen && old(rxOpen) ==> AllRead() && rxBuf.data == []
        decreases rxOpen, |queue| + |rest|
      {
        var got: Received;
        if !rxOpen { return Ready(msg); }
        if rxBuf.data != [] {
          var bytes := TakeBuf();
          msg := msg + bytes;
          if |msg| >= msgSize { return Ready(msg); }
        }
        got, rest := Receive(|msg| > 0, rest);
        if got.Empty? { return if |msg| > 0 then Ready(msg) else Pending; }
      }
    }

    method PollTryReadMsg(msgSize: nat, events: seq<Event>) returns (r: Poll)
      requires Valid()
      modifies this, rxBuf
      ensures Valid() && old(received) <= received && ownerClosed == old(ownerClosed)
      ensures !r.Pending? && (r.Reset? ==> !rxOpen && (ownerClosed || AllRead()))
      ensures returned == old(returned) + (if r.Ready? then r.data else [])
      ensures old(rxOpen) ==> rxBuf.data == []
      ensures |returned| < |old(returned)| + msgSize && old(rxOpen) ==> returned == received
      ensures r == Ready([]) ==> rxOpen && !senderClosed
    {
      hide Flat;
      hide Unread;
      var msg: Bytes, rest := [], events;
      while true
        invariant Valid() && old(received) <= received && ownerClosed == old(ownerClosed)
        invariant returned == old(returned) + msg
        invariant msg == [] || |msg| < msgSize
        invariant !rxOpen && old(rxOpen) ==> AllRead() && rxBuf.data == []
        decreases rxOpen, |queue| + |rest|
      {
        var got: Received;
        if !rxOpen { return if msg == [] then Reset else Ready(msg); }
        if rxBuf.data != [] {
          var bytes := TakeBuf();
          msg := msg + bytes;
          if |msg| >= msgSize { return Ready(msg); }
        }
        got, rest := NextPack(rest);
        if got.Empty? { return Ready(msg); }
      }
    }
  }
}
