# Verification of the anyproxy tunnels

A Dafny 4.11 model of the protocol code of anyproxy, with proofs. `dafny verify dfyconfig.toml`
checks everything.

The state machines are values with an `Enabled` and an `Apply` function over an `Action` datatype;
a theorem about "every run" quantifies over all sequences of enabled actions. The loops and the
objects that update their fields are classes whose methods are proved to be runs of those machines,
or to compute a specification function about which the laws are proved.

| files | what they model |
|---|---|
| `ReliableSender`, `ReliableReceiver`, `ReliableStream`, `ReliableRecovery`, `ReliableEnd` | the any-tunnel2 stream (`StreamPack` with acks) over a network that loses, reorders and repeats messages, while its sender runs and after it has ended |
| `ReliableReceiveLoop`, `ReliableSendSide`, `ReliableLink` | the same code as loops over mutable state, tied to the machine, and both ends joined by the network |
| `CloseHandshake`, `ConnectionReuse`, `CloseProgress`, `EarlyReturn`, `PeerStreamLoops`, `ConnectionLink` | the any-tunnel close handshake, over any number of sessions on one connection, as machine and as the code of both ends |
| `Attachment`, `StripeReceiver`, `Striping`, `StripingRound`, `StripeLink`, `StripingProgress`, `StripingFaults` | any-tunnel's striping of one stream over many connections that attach, detach and fail |
| `MaxRegister` | the shared pack-id registers raised by compare-exchange loops |
| `ConnectionPool`, `ConnectionLease` | the client's pool of idle connections and who owns a connection when |
| `StreamReads`, `StreamWrites` | the polling reads and writes of a tunnel stream |
| `Framing`, `FrameWire`, `FrameLimits`, `NumberCodec` | the wire format of both tunnels, its reader and its writer, its limits, and a codec for it |
| `IntrusiveQueue`, `StableSort` | the intrusive reference-counted list on the heap, with its in-place stable sort |
| `FileCache` | the chunked page buffer |
| `Basics` | shared types |

Pack ids are `u32`. The source adds 1 to them, which wraps in a release build and panics in a debug
build; `NextId` wraps. The ordering theorems are for fewer than 2^32 packs in a session, where neither
happens.

The main results are `ReliableStream.DeliveryInOrder`, `ReliableStream.NoPackForgotten`,
`ReliableStream.WindowAccounting`, `ReliableEnd.DeliverableIff` with `ReliableRecovery.Recoverable`,
`ReliableLink.Link.Play`, `ReliableReceiveLoop.ReceiveLoop.Rounds`, `ReliableSendSide.SendSide.Scan`,
`ConnectionReuse.CleanWires`, `ConnectionReuse.NeverRejects`,
`ConnectionReuse.ClosesEchoedOnce`, `ConnectionReuse.PushedIsRead`, `ConnectionLink.Connection.Play`, `CloseProgress.TurnsAreBounded`,
`CloseProgress.Finishes`, `EarlyReturn.ReusableIff`, `Striping.StripedOrder`,
`Striping.StripedComplete`, `StripingProgress.FinishesIffNoneKept`,
`StripingFaults.OrderSurvivesFailures`, `StripingFaults.EndedRunComplete`,
`IntrusiveQueue.Queue.Sort` with the `StableSort` lemmas, `IntrusiveQueue.Queue.Clear`,
`Framing.ReadsBackIff` with `FrameWire.FrameReader.ReadPack`, `FrameLimits.WriteAndRead`, the reads of
`StreamReads.TunnelStream`, `ConnectionLease.PoolExclusive` and `MaxRegister.HoldsMaximum` with
`MaxRegister.LoopsEnd`.

## Findings

- An any-tunnel2 stream that is closed loses what was not acked. When the local stream closes, the sending task returns (any-tunnel2/src/stream_pack.rs:428-429, 455-458), the `select!` (126-153) drops the timeout task, and nothing is retransmitted any more. When the receive loop of the sending end has failed, acks are not read (174-177), no scan begins (481-483), and only what the tasks are at still goes out. `ReliableEnd.EndLosesPack` is the input, `ReliableEnd.DeliverableIff` the exact condition.
- A striped stream that a pooling client writes need not end. If the server has attached a connection and the client closes before that connection has joined the round, the client returns early (any-tunnel/src/peer_stream.rs:423-425) and keeps the connection, the server's handle stays alive, and end of stream does not come until the pooled connection is reused, trimmed or fails. A server that writes refuses the late connection (any-tunnel/src/server.rs:229-242), and a client without a pool closes it: then the stream ends, complete if the server has sent nothing on that connection and else as after a failure. `StripingProgress.LateJoin` is the input, `StripingProgress.FinishesIffNoneKept` the exact condition.
- That early return also spoils the connection: it goes back to the pool (any-tunnel/src/peer_stream.rs:514-524) while the server still reads the old session, and the next Hello is rejected. `EarlyReturn.NextHelloIsRejected` is the input, `EarlyReturn.ReusableIff` the exact condition.
- A failed connection looks like a clean end to the reader of a striped stream: it is given a prefix and then end of stream; the error flag (any-tunnel/src/peer_stream.rs:474-481) is only logged (any-tunnel/src/peer_client.rs:491-495). Order never suffers (`StripingFaults.OrderSurvivesFailures`). `StripingFaults.FailureEndsEarly` is the input, `StripingFaults.EndedRunComplete` the exact condition under which nothing is missing.
- any-tunnel reports a buffer over 16 MiB as sent, in one pack (any-tunnel/src/stream.rs:520-527), and the peer refuses that pack (any-tunnel/src/protopack.rs:331-336). `FrameLimits.OneByteTooMany` is the input, `FrameLimits.WriteAndRead` the exact condition.
- The comment above `Queue::clear` (any-base/src/queue.rs:466-471) promises that a panic in an element's drop costs no other node; the code that would contain it is commented out (508-510). `IntrusiveQueue.ClearLeaks` is the input, `IntrusiveQueue.Queue.Clear` the exact condition.

## Model

| member | source | states |
|---|---|---|
| `ReliableSender.OnAckKeepsInv` | any-tunnel2/src/stream_pack.rs:254-285 | A whole ack message keeps the sender's invariant: every issued id is exactly one of acked, waiting, held or carried by the timeout task, every waiting id has one timeout entry, and the window is the payload not acked |
| `ReliableSender.OnAckSnoc` | any-tunnel2/src/stream_pack.rs:258-284 | Handling ids one after the other in a loop is handling them as a list |
| `ReliableSender.TakeKeepsInv` | any-tunnel2/src/stream_pack.rs:426-448 | Taking a payload from the stream numbers and counts it and keeps the invariant |
| `ReliableSender.PopKeepsInv` | any-tunnel2/src/stream_pack.rs:491-510 | Popping the oldest timeout entry keeps the invariant: the popped id stays scheduled through the timeout task |
| `ReliableSender.ApplyKeepsInv` | any-tunnel2/src/stream_pack.rs:412-536 | Every action of the sending task and the timeout task, their closing and their end, keeps the invariant and acks nothing |
| `ReliableReceiver.ApplyKeepsInv` | any-tunnel2/src/stream_pack.rs:170-407 | Every action of the receive loop keeps: the accepted ids are exactly 1..pack_id-1, what the stream was given is a prefix of what was taken, only accepted ids are acked; accepted ids are never forgotten |
| `ReliableReceiver.NothingDropped` | any-tunnel2/src/stream_pack.rs:236-246 | A pack that has arrived is never dropped: after every action it is still accepted, cached or at hand |
| `ReliableReceiver.AcceptKeepsInv` | any-tunnel2/src/stream_pack.rs:345-356 | Accepting the expected pack, from the message or the cache, keeps that invariant |
| `ReliableReceiver.ArriveKeepsInv` | any-tunnel2/src/stream_pack.rs:236-246 | A duplicate, an expected or an early pack keeps that invariant |
| `ReliableStream.StepKeepsInv` | any-tunnel2/src/stream_pack.rs:126-153 | Every step of sender, receiver or network, the sender's end included, keeps both invariants; all data in the network is genuine and every ack there names accepted packs |
| `ReliableStream.DeliveryInOrder` | any-tunnel2/src/stream_pack.rs:170-410 | In every run with arbitrary loss, reordering and repetition, the stream is handed a prefix of the payloads taken, in order, each once; while it is open nothing accepted is withheld but the pack being handed over; the accepted ids are exactly 1..pack_id-1 |
| `ReliableStream.NoPackForgotten` | any-tunnel2/src/stream_pack.rs:491-536 | A pack issued and not accepted is kept by the sender if and only if its tasks still run; then it is unaltered and waits with exactly one timeout entry (or its entry just popped), is about to be registered, or is carried by the timeout task |
| `ReliableStream.LeavesOnlyByAck` | any-tunnel2/src/stream_pack.rs:258-284 | A pack stops being kept only by an ack that names it, and then the receiver has accepted it, or when the sender's tasks end |
| `ReliableStream.WindowAccounting` | any-tunnel2/src/stream_pack.rs:51-80 | The window counter is always the payload of the packs taken and not acked, never negative, even when an ack races a retransmission; it stays below the window plus one pack |
| `ReliableStream.OnAckShrinksWindow` | any-tunnel2/src/stream_pack.rs:57-65 | An ack never makes the window counter grow |
| `ReliableStream.AckedOrKept` | any-tunnel2/src/stream_pack.rs:258-284 | An ack message leaves every id it does not name with the sender |
| `ReliableStream.RunKeepsInv` | any-tunnel2/src/stream_pack.rs:118-162 | The invariant holds after every run |
| `ReliableStream.ReceiverRunLifts` | any-tunnel2/src/stream_pack.rs:164-410 | Any run of the receive loop whose packs come from the network is a run of the whole stream, and the network gains exactly the ack batches sent |
| `ReliableRecovery.Recoverable` | any-tunnel2/src/stream_pack.rs:467-537 | From every reachable state of an open stream whose sender runs and is not closing, whatever was lost, some continuation without new payload delivers everything in order, acks everything and empties the window; `ReliableEnd.DeliverableIff` has the other states |
| `ReliableEnd.DeliverableIff` | any-tunnel2/src/stream_pack.rs:126-153 | For every reachable state: everything taken can still be delivered if and only if it is already, or the receiver is open and the sender runs and is not closing, or every pack has been accepted, is cached, at hand or in the network, or is one that a closing sender's tasks still send |
| `ReliableEnd.EndLosesPack` | any-tunnel2/src/stream_pack.rs:428-458 | The input: a pack is sent and lost, then the local stream closes, or the sender's own receive loop fails, and the pack is gone for good |
| `ReliableEnd.NeverAccepted` | any-tunnel2/src/stream_pack.rs:460-483 | After the sender's end, or while it closes, a pack that is nowhere else and in no task's hands is accepted in no run |
| `ReliableEnd.EmitAll` | any-tunnel2/src/stream_pack.rs:460-536 | What a closing sender's tasks are at can all be sent: the rest of the scan first, the sending task's pack last |
| `ReliableEnd.ScanAll` | any-tunnel2/src/stream_pack.rs:491-536 | A scan that has begun can bring every waiting pack into the network |
| `ReliableEnd.AvailableDelivers` | any-tunnel2/src/stream_pack.rs:344-401 | What has reached the receiver or the network can be delivered without the sender |
| `ReliableEnd.DeliverNext` | any-tunnel2/src/stream_pack.rs:344-401 | The next pack is accepted from the cache or the network, and the rest stays in reach |
| `ReliableEnd.ClosedTakesNothing` | any-tunnel2/src/stream_pack.rs:403-407 | A closed receiver hands nothing more to the stream |
| `ReliableRecovery.SettleSender` | any-tunnel2/src/stream_pack.rs:412-465 | The two sender tasks can always finish what they are doing |
| `ReliableRecovery.ResendById` | any-tunnel2/src/stream_pack.rs:490-535 | A scan alone brings any waiting pack back into the network without losing another |
| `ReliableRecovery.FinishPopped` | any-tunnel2/src/stream_pack.rs:511-536 | A popped entry's pack is resent and listed again; an entry left behind by an ack is dropped |
| `ReliableRecovery.FinishRound` | any-tunnel2/src/stream_pack.rs:344-401 | A receive round can end with its pack accepted and its acks in the network |
| `ReliableRecovery.Serve` | any-tunnel2/src/stream_pack.rs:344-401 | A waiting pack that is next in order, or a duplicate, can be resent, received and acked, leaving the others waiting |
| `ReliableRecovery.ServeAll` | any-tunnel2/src/stream_pack.rs:467-537 | So all waiting packs can be served |
| `ReliableReceiveLoop.ReceiveLoop.Receive` | any-tunnel2/src/stream_pack.rs:181-341 | For each kind of message whether it ends the loop; a data pack seen before is to be acked again, the expected one is at hand, any other is cached under its id, and nothing else changes the cache |
| `ReliableReceiveLoop.ReceiveLoop.AcceptNext` | any-tunnel2/src/stream_pack.rs:345-356 | The pack at hand, or else the cached pack with the expected id, is accepted: one Accept of the machine, one id further, the cache smaller |
| `ReliableReceiveLoop.ReceiveLoop.SendAcks` | any-tunnel2/src/stream_pack.rs:359-364 | With enough pending ids they leave as one batch and none stays pending, otherwise nothing is sent; the run is that one Flush or nothing |
| `ReliableReceiveLoop.ReceiveLoop.Deliver` | any-tunnel2/src/stream_pack.rs:368-390 | An open stream that takes the pack gets exactly it, a refusal closes the stream, a closed stream gets nothing; no ack may be pending at a hand-over that waits for room |
| `ReliableReceiveLoop.ReceiveLoop.AckBefore` | any-tunnel2/src/stream_pack.rs:358-382 | Before a wait for room all pending acks leave as one batch; otherwise they leave if and only if they are enough |
| `ReliableReceiveLoop.ReceiveLoop.AckAndDeliver` | any-tunnel2/src/stream_pack.rs:358-390 | For each outcome of the hand-over: before a wait for room all pending acks leave as one batch; otherwise they leave if and only if they are enough; what the stream gets, whether it stays open, and the next batch size |
| `ReliableReceiveLoop.ReceiveLoop.DrainOne` | any-tunnel2/src/stream_pack.rs:344-395 | One turn accepts the next pack if there is one, and there is another turn exactly if the stream took it and the flag did not stop the loop |
| `ReliableReceiveLoop.ReceiveLoop.Drain` | any-tunnel2/src/stream_pack.rs:344-401 | Whichever way the loop ends: the ids accepted are consecutive from the expected one, the stream is given the first of them and all of them while it takes packs, no pack is brought in, the stream is closed only by a refusal, and the acks sent are the pending ones followed by those ids |
| `ReliableReceiveLoop.ReceiveLoop.Round` | any-tunnel2/src/stream_pack.rs:178-407 | A round is the machine's run for its message: that message first, then only actions of the drain loop, then the end. No pack that has arrived is dropped. A duplicate is acked again and nothing else is; the concatenated batches are that id followed by the consecutive ids accepted; an open stream that takes packs gets them all; without the flag nothing contiguous stays cached |
| `ReliableReceiveLoop.ReceiveLoop.Rounds` | any-tunnel2/src/stream_pack.rs:173-410 | Over any rounds with a stream that takes packs and a flag that stays down: once packs 1 to k have arrived, in whatever order and however often, at least k are accepted and in the stream |
| `ReliableReceiveLoop.GaplessMore` | any-tunnel2/src/stream_pack.rs:354-356 | Accepting consecutive ids leaves no gap |
| `ReliableReceiveLoop.BatchSizes` | any-tunnel2/src/stream_pack.rs:360-364 | Every ack batch has 1 to 128 ids |
| `ReliableReceiveLoop.DrainedMore` | any-tunnel2/src/stream_pack.rs:344-395 | Another turn extends what the drain loop has done |
| `ReliableReceiveLoop.AcksKeptMore` | any-tunnel2/src/stream_pack.rs:356-401 | Over any number of turns no ack is lost or repeated |
| `ReliableLink.Link.ServeRound` | any-tunnel2/src/stream_pack.rs:164-410 | A round fed from the network keeps the two ends and the network a reachable state of the protocol; its ack batches, and nothing else, enter the network |
| `ReliableLink.Link.SendTask` | any-tunnel2/src/stream_pack.rs:412-465 | Each step of the sending task's code makes of both ends and the network exactly what the machine's action does, when its moment has come, and nothing otherwise |
| `ReliableLink.Link.TimeoutTask` | any-tunnel2/src/stream_pack.rs:467-537 | The same for each step of the timeout task's code; an entry is popped only when old enough |
| `ReliableLink.Link.ScanTask` | any-tunnel2/src/stream_pack.rs:481-510 | Its part at the list: a scan begins, goes on or ends |
| `ReliableLink.Link.ResendTask` | any-tunnel2/src/stream_pack.rs:511-536 | Its part with an entry or a pack in hand |
| `ReliableLink.Link.Network` | any-tunnel2/src/stream_pack.rs:248-285 | The same for an ack handled by the sender's loop, a loss, and the sender's end |
| `ReliableLink.Link.PlayOne` | any-tunnel2/src/stream_pack.rs:118-162 | Any of these keeps both ends and the network a reachable state |
| `ReliableLink.Link.Play` | any-tunnel2/src/stream_pack.rs:118-162 | End to end, for the code of both ends and any order of steps, rounds, losses and repetitions: what the far stream was handed is a prefix of what the near end took, complete up to what was accepted, and the accepted ids have no gap |
| `ReliableLink.ReachableMeansDelivered` | any-tunnel2/src/stream_pack.rs:170-410 | The same for any link in a reachable state |
| `ReliableLink.ArrivesFirst` | any-tunnel2/src/stream_pack.rs:181-182 | Only the first action of a round brings a pack in |
| `ReliableSendSide.SendSide.TakePayload` | any-tunnel2/src/stream_pack.rs:440-448 | The code's effect is the machine's Take |
| `ReliableSendSide.SendSide.PollWindow` | any-tunnel2/src/stream_pack.rs:68-80 | The task goes on exactly when fewer than 1048576 bytes are outstanding |
| `ReliableSendSide.SendSide.FinishSend` | any-tunnel2/src/stream_pack.rs:449-463 | The pack that goes out is the registered one, and the task is back at the window, or over if the sender is closing |
| `ReliableSendSide.SendSide.FinishResend` | any-tunnel2/src/stream_pack.rs:529-536 | The pack that goes out again is the one registered anew |
| `ReliableSendSide.SendSide.RegisterHeld` | any-tunnel2/src/stream_pack.rs:449-451 | The code's effect is the machine's Register |
| `ReliableSendSide.SendSide.RegisterCarried` | any-tunnel2/src/stream_pack.rs:529-535 | The code's effect is the machine's Reregister |
| `ReliableSendSide.SendSide.PopExpiredInfo` | any-tunnel2/src/stream_pack.rs:492-506 | Pops the oldest entry exactly when it is older than the timeout, and else ends the scan and leaves the list alone |
| `ReliableSendSide.SendSide.Scan` | any-tunnel2/src/stream_pack.rs:490-536 | A whole scan takes exactly the entries older than the timeout, resends those of their packs that still wait, in order and stamped anew behind the others, and leaves the others and the map as they were |
| `ReliableSendSide.SendSide.ScanOne` | any-tunnel2/src/stream_pack.rs:511-536 | One expired entry: its pack is resent and listed anew if no ack was faster |
| `ReliableSendSide.ExpiredPrefix` | any-tunnel2/src/stream_pack.rs:499-505 | With stamps in order the expired entries are those at the front |
| `ReliableSendSide.SendSide.StartScan` | any-tunnel2/src/stream_pack.rs:481-491 | A scan begins exactly when the sender is not closing |
| `ReliableSendSide.SendSide.NothingTaken` | any-tunnel2/src/stream_pack.rs:430-463 | A second without a payload leads back to the window, or to the end of a closing sender |
| `ReliableSendSide.SendSide.TakeExpiredPack` | any-tunnel2/src/stream_pack.rs:512-521 | The code's effect is the machine's TakeExpired, whether or not an ack was faster |
| `ReliableSendSide.SendSide.HandleAck` | any-tunnel2/src/stream_pack.rs:258-284 | The loop over an ack's ids computes `OnAck` |
| `ReliableSendSide.SendSide.Shutdown` | any-tunnel2/src/stream_pack.rs:126-162 | The end of one task is the machine's End: all that waits is dropped |
| `CloseHandshake.StepKeepsSession` | any-tunnel/src/peer_stream.rs:566-983 | Every action of either endpoint keeps the session invariant: nothing lost on the wires, packets in the order ack, data, own Close, echo, and each Close in exactly one place |
| `CloseHandshake.ReadKeepsSession` | any-tunnel/src/peer_stream.rs:578-694 | So does reading any packet that can be on the wire |
| `CloseHandshake.ReadCrossingCloseKeepsSession` | any-tunnel/src/peer_stream.rs:604-646 | A peer's Close that crosses the own one is noted and reading goes on |
| `CloseHandshake.ReadFirstCloseKeepsSession` | any-tunnel/src/peer_stream.rs:604-643 | A peer's Close before the own one ends the reader, with nothing behind it on the wire |
| `CloseHandshake.ReadEchoKeepsSession` | any-tunnel/src/peer_stream.rs:648-658 | The echo of the own Close ends the reader, with nothing behind it on the wire |
| `CloseHandshake.WriteKeepsSession` | any-tunnel/src/peer_stream.rs:756-971 | Every write keeps the session invariant |
| `CloseHandshake.LastClose` | any-tunnel/src/peer_stream.rs:930-956 | Behind the Close that ends a reader the wire is empty |
| `ConnectionReuse.NeverRejects` | any-tunnel/src/peer_stream.rs:578-592 | Over any number of sessions on one connection, no endpoint is handed a packet it must reject |
| `ConnectionReuse.CleanWires` | any-tunnel/src/peer_stream.rs:449-463 | An endpoint that finished has nothing of the session left to read: the client nothing at all, the server nothing or the next Hello |
| `EarlyReturn.ReusableIff` | any-tunnel/src/peer_stream.rs:423-425 | With clients that may leave a session early: a connection can serve another session if and only if no client has |
| `EarlyReturn.NextHelloIsRejected` | any-tunnel/src/peer_stream.rs:514-524 | The input: after an early return the connection's next Hello reaches a server that must reject it |
| `EarlyReturn.GiveUpAbandons` | any-tunnel/src/peer_stream.rs:423-425 | The early return leaves the server reading a session that no Close will end |
| `EarlyReturn.AbandonedStays` | any-tunnel/src/peer_stream.rs:589-591 | And it stays so: no later session is ever taken up |
| `ConnectionReuse.ClosesEchoedOnce` | any-tunnel/src/peer_stream.rs:930-971 | When both finished, each has read exactly what the other wrote, and each Close sent was echoed exactly once, for a one-sided or simultaneous close |
| `ConnectionReuse.PushedIsWritten` | any-tunnel/src/peer_stream.rs:779-834 | In every reachable state, on both sides: the payloads written and then those queued are those pushed, in order; a side that has begun its own Close has its stream closed and everything pushed written |
| `ConnectionReuse.PushedIsRead` | any-tunnel/src/peer_stream.rs:779-834 | When both have finished, the peer of a side that closed has read exactly what was pushed there, and of the other side a prefix |
| `ConnectionReuse.StepKeepsAccount` | any-tunnel/src/peer_stream.rs:756-983 | Every action keeps that account |
| `ConnectionReuse.BothFinished` | any-tunnel/src/peer_stream.rs:449-463 | Two finished endpoints: empty wires, equal histories, `close_num` 2 on both sides |
| `ConnectionReuse.FinishedIsClean` | any-tunnel/src/peer_stream.rs:954-956 | When one endpoint has finished, its incoming wire is empty and its peer writes no more |
| `ConnectionReuse.EchoIsExpected` | any-tunnel/src/peer_stream.rs:648-658 | A Close of its own comes back only to an endpoint that sent it and still reads |
| `ConnectionReuse.NextKeepsInv` | any-tunnel/src/peer_stream.rs:223-255 | The invariant over sessions is kept when the client opens the next session while the server is still in the old one |
| `ConnectionReuse.OpenKeepsInv` | any-tunnel/src/peer_stream.rs:303-325 | Also by a Hello written behind the unread rest of the old session |
| `ConnectionReuse.AcceptKeepsInv` | any-tunnel/src/peer_stream.rs:266-302 | The first packet a finished server reads is a Hello, and then both are in the same fresh session |
| `CloseProgress.TurnSpendsWork` | any-tunnel/src/peer_stream.rs:566-983 | In whatever sessions the two sides are, every turn of a reader or writer, and the server's turn to the next session, lowers a measure of queued packs, unread packets and phases |
| `CloseProgress.StepSpendsWork` | any-tunnel/src/peer_stream.rs:566-983 | An action of one endpoint costs more than the work it leaves the other |
| `CloseProgress.NotStuck` | any-tunnel/src/peer_stream.rs:756-983 | No reachable state, over any number of sessions, is stuck in which a queue is closed or the client is a session ahead, and not both sides are done |
| `CloseProgress.AheadNotStuck` | any-tunnel/src/peer_stream.rs:696-971 | A server that is a session behind can act or accept the next session |
| `CloseProgress.BothStuckMeansDone` | any-tunnel/src/peer_stream.rs:696-983 | If neither endpoint can act after a close, both are done |
| `CloseProgress.TurnsAreBounded` | any-tunnel/src/peer_stream.rs:566-983 | In every run until the next session opens, with streams pushing and closing at will, turns and work left are at most the work at the start and three for each push |
| `CloseProgress.OneMorePack` | any-tunnel/src/peer_stream.rs:756-777 | Once a peer's Close is noted, at most one more pack is written in the session, however many are pushed |
| `CloseProgress.Finishes` | any-tunnel/src/peer_stream.rs:696-983 | From every reachable state in which the client has closed, or the server has in the session both are in, readers and writers alone bring both sides to `close_num` 2 within the measure |
| `CloseProgress.CatchesUp` | any-tunnel/src/peer_stream.rs:223-255 | A server that is a session behind catches up by its own turns |
| `PeerStreamLoops.PeerStreamOnce.ReadOne` | any-tunnel/src/peer_stream.rs:578-694 | The reader's reaction to one packet is the machine's, and it stops exactly when the machine's reader does |
| `PeerStreamLoops.PeerStreamOnce.WriteOne` | any-tunnel/src/peer_stream.rs:779-904 | A queued pack is written before anything else; the own Close is begun only for an empty and closed queue with no Close noted; it waits only with nothing to do; the action is the writer's one |
| `PeerStreamLoops.PeerStreamOnce.CheckPeerClose` | any-tunnel/src/peer_stream.rs:757-777 | A noted Close ends the loop, and only a noted Close |
| `PeerStreamLoops.PeerStreamOnce.WriteClose` | any-tunnel/src/peer_stream.rs:820-834 | Writing the own Close is the machine's FinishClose |
| `PeerStreamLoops.PeerStreamOnce.WaitTurn` | any-tunnel/src/peer_stream.rs:932-943 | A noted Close is taken and its echo begun; without one the loop ends exactly when `close_num` is 2 |
| `PeerStreamLoops.PeerStreamOnce.WriteEcho` | any-tunnel/src/peer_stream.rs:944-956 | The echo is written, and the loop ends if `close_num`, which the reader may have raised meanwhile, is 2 |
| `PeerStreamLoops.PeerStreamOnce.WriterTurn` | any-tunnel/src/peer_stream.rs:756-983 | The writer's code, from one suspension point to the next, is the machine's one writer action, and puts that action's packets on the wire |
| `PeerStreamLoops.WriterActionIsTheOne` | any-tunnel/src/peer_stream.rs:756-983 | In every state the machine lets the writer do exactly what the code does next |
| `PeerStreamLoops.PeerStreamOnce.ReadAck` | any-tunnel/src/peer_stream.rs:321-323 | The wait for the hello ack: the ack starts reader and writer, anything else fails |
| `ConnectionLink.Connection.WriterTurn` | any-tunnel/src/peer_stream.rs:756-983 | The code of both ends joined by the wires: a writer's turn is the system's step |
| `ConnectionLink.Connection.ReaderTurn` | any-tunnel/src/peer_stream.rs:566-694 | So is a reader's turn on the next packet |
| `ConnectionLink.Connection.AcceptNext` | any-tunnel/src/peer_stream.rs:266-302 | Between sessions the server's first packet is a Hello, and the next session begins |
| `ConnectionLink.Connection.Play` | any-tunnel/src/peer_stream.rs:223-255 | For the code of both ends, any turns in any order and any number of sessions: nothing is rejected, what is written and queued is what was pushed, a Close of its own is sent only behind all of it, a finished side finds its wire clean, and when both have finished each has read what the other wrote, all that was pushed on a side that closed, and every Close came back once |
| `Attachment.CountIsLive` | any-tunnel/src/peer_client.rs:42-84 | In every interleaving of attach, drop and close the count is the number of live handles, dropping the last closes the channel, and a closed channel stays closed and takes no handle |
| `Attachment.StepKeepsInv` | any-tunnel/src/peer_client.rs:53-84 | Each step keeps the count; a drop closes exactly with the last handle |
| `Attachment.AttachPoint.TryAttach` | any-tunnel/src/peer_client.rs:310-334 | Attaching fails exactly when closed, and else counts one more |
| `Attachment.AttachPoint.DropHandle` | any-tunnel/src/peer_client.rs:72-84 | Dropping is the machine's Drop |
| `StripeReceiver.ApplyKeepsInv` | any-tunnel/src/peer_client.rs:847-1029 | Every action keeps: what the stream got is a prefix of what was written, and cached packs are genuine; a pack received is never lost |
| `StripeReceiver.PeerClientToStream.ReadTunnelData` | any-tunnel/src/peer_client.rs:847-953 | Old and cached ids are dropped, the expected pack goes on, others are cached; a closed channel starts the final drain |
| `StripeReceiver.PeerClientToStream.DrainOne` | any-tunnel/src/peer_client.rs:995-1029 | One turn of the drain loop hands the expected pack to the stream if it is there; the exact actions; only the timer stops the loop early, and not in the final drain |
| `StripeReceiver.PeerClientToStream.Turn` | any-tunnel/src/peer_client.rs:957-1029 | One turn of the outer loop is the machine's run for what was received: the receive first, then only the drain loop; the packs handed on have consecutive ids from the expected one; nothing contiguous stays cached unless the timer fired |
| `StripeReceiver.GivenMore` | any-tunnel/src/peer_client.rs:995-1029 | One more pack handed on continues the consecutive ids |
| `StripeLink.Link.ServeTurn` | any-tunnel/src/peer_client.rs:957-1029 | End to end for the receiving code inside the striping machine: after every turn the stream has a prefix of the packs written, and after the turn that finds the channel closed all of them |
| `Striping.DrainLifts` | any-tunnel/src/peer_client.rs:995-1029 | A run of the drain loop is a run of the whole striping machine that touches only the receiver |
| `Striping.StripedOrder` | any-tunnel/src/peer_client.rs:881-906 | For any number of connections attached at any time, any interleaving, and drains broken off early, the stream is given a prefix of the packs written |
| `StripingFaults.OrderSurvivesFailures` | any-tunnel/src/peer_stream.rs:467-513 | The same when connections fail at any time, losing what they carry, with or without closing the peer client's channel |
| `StripingFaults.ActKeepsOrder` | any-tunnel/src/peer_stream.rs:467-513 | Neither a step nor a failure breaks what order rests on |
| `Striping.StripedComplete` | any-tunnel/src/peer_client.rs:957-1029 | End of stream comes only after every pack ever written, and nothing can be written any more |
| `StripingFaults.EndedRunComplete` | any-tunnel/src/peer_stream.rs:467-513 | For every run with any failures that ends the stream: there is the one action that closes the channel, and at the end nothing is missing if and only if every pack written had arrived by then |
| `StripingFaults.CompleteIffArrived` | any-tunnel/src/peer_client.rs:957-1029 | The same from any state with a closed channel |
| `StripingFaults.ClosedKeepsArrived` | any-tunnel/src/peer_client.rs:847-953 | Behind a closed channel nothing arrives any more and nothing that has arrived is lost |
| `StripingFaults.MissingMeansFailed` | any-tunnel/src/peer_stream.rs:467-513 | An end of stream with a pack missing is the work of a failed connection |
| `StripingFaults.FailureEndsEarly` | any-tunnel/src/peer_stream.rs:467-513 | And a failure does it: the input |
| `Striping.GreetedIsNotRefused` | any-tunnel/src/peer_stream.rs:400-407 | A connection attached by its hello is never refused by the second check |
| `Striping.StepKeepsInv` | any-tunnel/src/peer_stream.rs:415-431 | Every step keeps: each pack written is on one connection, in the channel or with the receiver, and no connection outlives the channel |
| `Striping.ClosedMeansOver` | any-tunnel/src/peer_client.rs:72-84 | Once the receiver's channel is closed, every connection is over and holds no pack |
| `Striping.WriteKeepsPacks` | any-tunnel/src/stream.rs:517-544 | Dealing a numbered pack to the next channel in the round loses none |
| `StripingRound.RoundDealsToAll` | any-tunnel/src/round_async_channel.rs:42-49 | As many writes as there are connections in the round, with nothing between them, give each one pack |
| `StripingRound.WritesDeal` | any-tunnel/src/round_async_channel.rs:42-49 | Fewer writes reach as many different connections, the next in the round |
| `Striping.ArriveKeepsPacks` | any-tunnel/src/peer_stream.rs:659-685 | Nor does forwarding one to the peer client |
| `StripingProgress.FinishesIffNoneKept` | any-tunnel/src/peer_stream.rs:415-431 | For every reachable state after the writer's close: the reader can get every pack and then end of stream if and only if every connection had joined before the close, or the writing side does not keep one that had not |
| `StripingProgress.StragglerStalls` | any-tunnel/src/peer_stream.rs:423-425 | With a connection attached, not joined and kept by a pooling client that writes, no fault-free run whatever ends the stream |
| `StripingProgress.LateJoin` | any-tunnel/src/peer_stream.rs:423-425 | The input: a second connection is attached and the writer closes before it joins; the stream can end exactly if the writing side does not keep the connection |
| `StripingProgress.StripedFinishes` | any-tunnel/src/peer_client.rs:957-1029 | The run to the end, when no late connection is kept |
| `StripingProgress.ForwardSpendsWork` | any-tunnel/src/peer_client.rs:847-1029 | Every such step lowers a measure |
| `StripingProgress.NotStuck` | any-tunnel/src/peer_client.rs:957-1029 | If no late connection is kept, some such step is enabled until end of stream; `FinishesIffNoneKept` is the other half |
| `Striping.RefuseKeepsConnections` | any-tunnel/src/server.rs:205-242 | A writing server refuses a connection after its close, and the client drops the connection's two handles without closing its channel |
| `MaxRegister.HoldsMaximum` | any-tunnel/src/peer_stream.rs:664-678 | In every interleaving of the loops the register holds 0 or an offered id, is at least the id of every finished loop, and is the maximum when no loop runs |
| `MaxRegister.NeverDecreases` | any-tunnel/src/peer_stream.rs:862-876 | In every run the register never goes down |
| `MaxRegister.LoopsEnd` | any-tunnel/src/peer_stream.rs:862-876 | Interfering loops cannot livelock: without new offers they take at most as many steps as the work they began with |
| `MaxRegister.StepSpendsWork` | any-tunnel/src/peer_stream.rs:664-678 | A lost exchange brings the loop nearer to its id |
| `MaxRegister.Register.Raise` | any-tunnel/src/peer_stream.rs:664-678 | One loop with interference between load and exchange ends with the register at least its id, storing no foreign value |
| `ConnectionPool.ClientContext.AddPeerStreamKey` | any-tunnel/src/client.rs:33-71 | The connection goes to the end of its key's queue, or is closed for size 0; above the size exactly the stale ones at the front are dropped and closed, at most five |
| `ConnectionPool.ClientContext.GetPeerStreamKey` | any-tunnel/src/client.rs:73-116 | Returns the first open connection of the key, dropping the closed ones before it, and none only if there is none; then trims as above |
| `ConnectionPool.ClientContext.Trim` | any-tunnel/src/client.rs:56-70 | The loop drops exactly the stale entries at the front, at most five, in order |
| `ConnectionPool.GetsMeans` | any-tunnel/src/client.rs:73-116 | First in, first out: a key with an open entry yields its oldest one, without one none; only the closed entries before it, and trimmed ones behind it, are gone |
| `ConnectionPool.AddsMeans` | any-tunnel/src/client.rs:33-71 | A connection put back is the last of its key, unless trimmed with all before it; for size 0 it is closed and not kept |
| `ConnectionPool.SettlesMeans` | any-tunnel/src/client.rs:56-70 | Trimmed are at most five entries, each idle for more than 10 seconds, closed or listed twice; what is at the front then is neither idle so long nor closed, unless five are gone |
| `ConnectionLease.PoolExclusive` | any-tunnel/src/peer_client.rs:123-169 | At every point of every run a connection is in the pool at most once, under any key, and never while a client holds it or a session uses it |
| `ConnectionLease.LeaseIsOpen` | any-tunnel/src/client.rs:88-115 | What is handed out was open when popped, of the right key, and nobody's |
| `ConnectionLease.PutBackKeepsInv` | any-tunnel/src/peer_stream.rs:514-524 | Putting back after a session or a failed hello keeps exclusivity |
| `ConnectionLease.NextKeepsInv` | any-tunnel/src/peer_client.rs:123-222 | So does every operation |
| `StreamReads.StreamBuf.SplitTo` | any-base/src/stream_buf.rs:62-67 | The cut-off part and the rest are the old bytes, of the length asked for or all |
| `StreamReads.TunnelStream.ReadBuf` | any-tunnel/src/stream.rs:135-146 | Moves as many buffered bytes as fit, in order |
| `StreamReads.TunnelStream.NextPack` | any-tunnel/src/stream.rs:322-339 | A pack replaces the buffer only when it is used up; a closed channel ends the stream only when all is read |
| `StreamReads.TunnelStream.Receive` | any-tunnel/src/stream.rs:451-501 | The stored future and the direct attempt together: what arrives is not lost, and a call with bytes does not wait |
| `StreamReads.TunnelStream.PollRead` | any-tunnel/src/stream.rs:432-503 | With packs and a close arriving meanwhile: returned, buffered and queued bytes are exactly those received; it fills the buffer or returns all there is, waits only for an open empty channel, and reports the end only when everything is read |
| `StreamReads.TunnelStream.PollTryRead` | any-tunnel/src/stream.rs:297-341 | The same without waiting: an empty result means nothing yet, a reset means everything is read |
| `StreamReads.TunnelStream.PollReadMsg` | any-tunnel/src/stream.rs:219-291 | The same for messages of whole packs: it stops short of the size asked for only when there is nothing more |
| `StreamReads.TunnelStream.PollTryReadMsg` | any-tunnel/src/stream.rs:174-218 | The same for messages, without waiting |
| `StreamWrites.StreamWriter.Take` | any-tunnel/src/stream.rs:517-544 | A buffer becomes the pack with the next id on the next channel of the round, and the packs sent and under way stay numbered without a gap |
| `StreamWrites.StreamWriter.PollWrite` | any-tunnel/src/stream.rs:507-559 | A write that has to wait keeps its pack over later calls and takes no second one; the bytes reported are the bytes sent; a refused pack closes the stream |
| `Framing.ReadsBackIff` | any-tunnel/src/protopack.rs:173-366 | A written pack is read back, with exactly the bytes behind it left over, if and only if its header, body and data keep the reader's limits and an ack's text fits its length field |
| `FrameLimits.WriteAndRead` | any-tunnel/src/stream.rs:507-559 | A write of any length that goes through is reported in full, as one pack, and the peer can read it if and only if it was at most 16 MiB |
| `FrameLimits.OneByteTooMany` | any-tunnel/src/protopack.rs:331-336 | The input: one byte more than the limit is an error at the reader |
| `FrameLimits.Tunnel1Limit` | any-tunnel/src/protopack.rs:327-349 | An any-tunnel data pack is read back if and only if it carries at most 16 MiB |
| `FrameLimits.Tunnel2Limit` | any-tunnel2/src/protopack.rs:306-319 | An any-tunnel2 data pack is read back if and only if its length fits the 32-bit size field |
| `FrameLimits.DataReadsBackIff` | any-tunnel/src/protopack.rs:173-191 | The same for any profile |
| `NumberCodec.LimitAtCodec` | any-tunnel/src/protopack.rs:327-349 | Both limits at one concrete codec, with no assumption left |
| `NumberCodec.CodecIsFaithful` | any-tunnel/src/protopack.rs:202-207 | What the framing theorems ask of a codec can be met: this one gives back every structure it writes |
| `NumberCodec.CodecIsSmall` | any-tunnel/src/protopack.rs:55-59 | And its texts of headers with `u32` fields are far below the limit |
| `NumberCodec.NumbersOfText` | any-tunnel/src/protopack.rs:286-287 | Any list of numbers is read back from its text |
| `Framing.RoundTrip` | any-tunnel2/src/protopack.rs:152-336 | If all lengths fit their fields, the outcome is that pack within the limits and an error beyond them |
| `Framing.WantedKind` | any-tunnel/src/protopack.rs:294-301 | A reader that wants one kind gets a pack of that kind, within the limits; a pack of any other kind is no pack to it |
| `Framing.CutFrameIsError` | any-tunnel/src/protopack.rs:254-349 | A frame cut off anywhere is an error, never a pack |
| `Framing.BadHeaderIsError` | any-tunnel/src/protopack.rs:281-294 | A header of an unknown kind, or that is none, is an error for every reader |
| `Framing.ForeignFlag` | any-tunnel/src/protopack.rs:262-265 | One wrong byte in the flag is no pack, whatever follows or is missing |
| `Framing.FlagTexts` | any-tunnel/src/protopack.rs:11-11 | The flags are the source's texts |
| `Framing.ReadBackMeansMeasured` | any-tunnel/src/protopack.rs:202-206 | A body or ack text whose length was cut off on writing is never read back |
| `Framing.ListRoundTrip` | any-tunnel2/src/protopack.rs:152-336 | A list of packs within the limits is read back, to the last byte, up to the recomputed size of acks |
| `Framing.ParseHeaderOf` | any-tunnel/src/protopack.rs:268-314 | The same from the header on |
| `Framing.ParseBodyOf` | any-tunnel2/src/protopack.rs:300-336 | The same from the body on; data over the limit is refused |
| `Framing.U16RoundTrip` | any-tunnel/src/protopack.rs:212-215 | The length is big-endian, and read back modulo 2^16 |
| `FrameWire.FrameWriter.WritePack` | any-tunnel/src/protopack.rs:193-234 | Flag, header length, header and body in this order, lengths cut to 16 bits |
| `FrameWire.FrameWriter.WriteTunnelData` | any-tunnel/src/protopack.rs:173-191 | Appends the frame of a data pack |
| `FrameWire.FrameWriter.WriteTunnelDataAck` | any-tunnel2/src/protopack.rs:152-176 | Appends the frame of an ack, with its size computed anew |
| `FrameWire.FrameReader.ReadFlag` | any-tunnel/src/protopack.rs:252-266 | However the reads are split: matched, different or cut short, as a comparison of the input with the flag says |
| `FrameWire.EarlyDifference` | any-tunnel/src/protopack.rs:262-265 | A difference seen after a partial read settles the comparison |
| `FrameWire.FrameReader.ReadHeader` | any-tunnel/src/protopack.rs:274-314 | Header and body read through one reused buffer give what parsing the bytes gives |
| `FrameWire.FrameReader.ReadBody` | any-tunnel2/src/protopack.rs:300-336 | The same for what follows the header |
| `FrameWire.FrameReader.ReadPack` | any-tunnel/src/protopack.rs:247-366 | For every split of the reads the outcome is that of parsing the input, and after a pack the connection stands right behind it |
| `FrameWire.FrameReader.ReadPackAll` | any-tunnel/src/protopack.rs:236-245 | The same for any kind, with "no pack" an error |
| `FrameWire.FrameReader.ReadWanted` | any-tunnel/src/protopack.rs:129-167 | A session's hello, or its ack, is read exactly as written when it is what comes |
| `IntrusiveQueue.Node.Release` | any-base/src/queue.rs:251-262 | The last handle frees the node, and no other |
| `IntrusiveQueue.Queue.Link` | any-base/src/queue.rs:228-233 | The four pointer writes keep the ring linked both ways and insert at the place |
| `IntrusiveQueue.Queue.InsertAfter` | any-base/src/queue.rs:206-242 | Inserts behind the given node; length, membership flags and counts stay right |
| `IntrusiveQueue.Queue.Remove` | any-base/src/queue.rs:164-196 | Takes the node out and leaves it self-looped; a node in no queue is left alone |
| `IntrusiveQueue.Queue.InsertHead` | any-base/src/queue.rs:390-392 | The new node becomes the first |
| `IntrusiveQueue.Queue.InsertTail` | any-base/src/queue.rs:398-400 | The new node becomes the last |
| `IntrusiveQueue.Queue.PopHead` | any-base/src/queue.rs:406-410 | Returns the first node, detached and alive, or none for an empty queue |
| `IntrusiveQueue.Queue.PopTail` | any-base/src/queue.rs:416-420 | Returns the last node, detached and alive, or none for an empty queue |
| `IntrusiveQueue.Queue.Collect` | any-base/src/queue.rs:290-302 | Handles on all nodes in order, one more for each |
| `IntrusiveQueue.Queue.Clear` | any-base/src/queue.rs:472-523 | The queue is empty and well linked in any case; nodes swept are detached, and freed exactly if no handle was left; if an element's drop panics the nodes behind it stay marked as queued, and none does if and only if no element before the last panics when dropped |
| `IntrusiveQueue.Queue.Sweep` | any-base/src/queue.rs:487-521 | The sweep detaches every node of the cut-off chain once, up to and with the first whose element's drop panics |
| `IntrusiveQueue.Queue.CutOff` | any-base/src/queue.rs:479-483 | The sentinel becomes a ring of its own and the old chain stays linked to its end |
| `IntrusiveQueue.LeftBehind` | any-base/src/queue.rs:503-518 | Where the sweep ends says what is left |
| `IntrusiveQueue.ClearLeaks` | any-base/src/queue.rs:508-517 | The input: of two elements only the queue holds, the first panics when dropped, and the second is neither in the queue nor ever freed |
| `IntrusiveQueue.Queue.MoveBack` | any-base/src/queue.rs:439-457 | One turn of the sort inserts the node into the sorted front, net handles unchanged |
| `IntrusiveQueue.Queue.Sort` | any-base/src/queue.rs:428-458 | The in-place sort computes `StableSort.Sort` on the list of nodes and leaves every node's handles as they were |
| `IntrusiveQueue.SplicedIn` | any-base/src/queue.rs:228-233 | Insertion into a ring linked both ways gives one |
| `IntrusiveQueue.SplicedOut` | any-base/src/queue.rs:171-179 | So does removal |
| `StableSort.SortOrdered` | any-base/src/queue.rs:428-458 | For any total preorder the result is sorted |
| `StableSort.SortPermutes` | any-base/src/queue.rs:428-458 | For any comparison the result is a permutation |
| `StableSort.SortStable` | any-base/src/queue.rs:428-458 | For any total preorder, equivalent elements keep their order |
| `StableSort.InsertSplits` | any-base/src/queue.rs:446-455 | Walking back to the first element not greater finds the place |
| `StableSort.InsertOrdered` | any-base/src/queue.rs:446-455 | Insertion keeps a sorted list sorted |
| `StableSort.InsertStable` | any-base/src/queue.rs:446-455 | Insertion puts an element behind its equals |
| `FileCache.FileCacheBytes.Advance` | any-base/src/file_ext.rs:357-387 | Drops exactly that many bytes from the front, for any chunk sizes, empty chunks included |
| `FileCache.FileCacheBytes.PageChunksCopy` | any-base/src/file_ext.rs:389-429 | The longest whole-page prefix, or everything at the end; none exactly when that is empty |
| `FileCache.FileCacheBytes.TakeFront` | any-base/src/file_ext.rs:407-422 | The chunk loop copies exactly the bytes asked for |
| `FileCache.FileCacheBytes.ChunkAllBytes` | any-base/src/file_ext.rs:431-441 | All bytes in order |
| `FileCache.FileCacheBytes.PushBack` | any-base/src/file_ext.rs:467-470 | Appends, and `size` stays the total length |
| `FileCache.FileCacheBytes.PushBackVec` | any-base/src/file_ext.rs:472-476 | Appends all chunks in order |
| `FileCache.FileCacheBytes.FlushLoop` | any-proxy/src/proxy/http_proxy/http_server_proxy.rs:2296-2310 | Copying and advancing in turn writes every byte once and in order, and leaves less than a page, or nothing at the end |
| `FileCache.LongestWholePages` | any-base/src/file_ext.rs:402-405 | The rounded-down size is the longest whole number of pages, zero exactly below one page |

## Left out

- Sockets, tasks, wakers and clocks: channels are sequences with a closed flag, time is a nondeterministic step or a parameter, and `select!` makes the code between two suspension points one step.
- Weak memory orderings: atomics are sequentially consistent.
- The TOML text: the codec is a parameter that decodes what it encodes, and `NumberCodec` is one that does; flag, length fields and limits are concrete.
- A read that yields no bytes without an error: the stream wrapper turns it into an error.
- Sessions of 2^32 packs and more.
- ReliableSendSide.SendSide.Scan: a scan with nobody in between, and a clock that stands while it runs; the interleaved scan is `ReliableLink`'s.
- ReliableSendSide.SendSide.RegisterHeld: the list push and the map insert under two locks are one step.
- ReliableStream.StepKeepsInv: the network is one set of messages; which of the M:N connections carries a message, and connections dying, are loss and reordering in it.
- Round-trip times and heartbeats of any-tunnel2, which change no pack; any-tunnel2 without the `anyack` feature, which retransmits nothing.
- ReliableRecovery.Recoverable: says that recovery is always possible, not that an unfair network allows it.
- ReliableEnd.DeliverableIff: the Close that a sender sends as it ends (any-tunnel2/src/stream_pack.rs:155) is the receiver's Fail, which may come at any time.
- ConnectionReuse.CleanWires: for sessions that start their reader and writer; the early return of any-tunnel/src/peer_stream.rs:423-425 is in `EarlyReturn`.
- CloseHandshake.StepKeepsSession: no I/O errors and no expiry of the 120-second waits; data, connect requests and limits on connections are one kind of packet; a stray hello ack is rejected by the reader instead of by the peer client behind it.
- CloseProgress.Finishes: the packs still queued by a side that is closed by its peer are abandoned, as in the source; a timeout of the writer's wait with no Close noted is the same wait again and no step.
- Striping.StripedComplete: one direction without connection errors, and a local stream that keeps reading; connections that fail are in `StripingFaults`, which keeps order and not completeness.
- Striping.StepKeepsInv: the maximum-id bookkeeping and the requests for more connections only advance the round counter.
- ConnectionLease.NextKeepsInv: connecting and the hello exchange are single steps; a connection without a pool behind it (server side) is never put back.
- StreamReads.TunnelStream.PollRead: a message is the flat bytes of its chunks, and the ids stored for statistics are kept but not related to other registers.
- StreamWrites.StreamWriter.PollWrite: the lock held by the sending future and file messages, which the source rejects after taking an id.
- Framing.ReadsBackIff: a header text (a kind and a size) of 2^16 bytes or more.
- IntrusiveQueue.Queue.Clear: whether the memory of the node whose element panics is given back.
- IntrusiveQueue.Queue.InsertAfter: the source's panics (node in another queue, detached anchor) are preconditions; one thread, as its comments demand.
- FileCache.FileCacheBytes.Advance: the panic on too large a count or an empty buffer is a precondition; so is a positive page size where the source divides by it.
- The server's session map, executors, the value parser, file and system calls, the vendored HTTP library: easy members or not shown in the repository.
