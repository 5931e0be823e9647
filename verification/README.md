# beyond-protocol: a verified model

beyond-protocol streams packets over TCP, WebSocket and QUIC. This project
models its buffering, framing, flow control and bookkeeping in Dafny and proves
what they promise over every input, every cut of a byte stream and every
interleaving of the threads involved. `dafny verify dfyconfig.toml` checks all
of it.

## How the model is built

Code that changes state in place is a class, or a method on arrays, with the
source's fields and loops. Each such method is proved equal to a function on
values. The theorems are about these functions, or about state machines made of
them. Their steps are the regions the source protects by a mutex and, where it uses
none, the single messages and updates of atomic variables.

| part | files |
|---|---|
| WebSocket codec (sections 5.2 and 5.3 of RFC 6455) | `Bytes`, `WsHeader`, `WsDecoder` (reference decoder, one octet at a time), `WsReader` (incremental reader on values), `WsOversize` and `WsDelivery` (main results), `WebsocketRead` (the reader in place) |
| Sending over a socket | `SocketWrite` |
| Receive buffer of a network stream | `RecvQueue`, `RecvStream` (all interleavings), `RecvOrder`, `RecvVideo`, `RecvVideoRuns`, `RecvEndFrame`, `RecvTiming`, `PacketQueue` (in place) |
| Requests and credit | `FlowControl` (the distributed protocol), `NetHost` (the two ends in place) |
| Packet manager | `PacketManager` (with a window of any length), `PacketOrder` (what it delivers when), `PacketRing` (on the 100-slot ring), `RingSafe`, `RingLoss`, `RingRuns` (when the two agree), `RingBound`, `RingOverrun` (inputs), `StreamState` (in place) |
| Worker queue, QUIC receive worker and send queue | `WorkerQueue`, `QuicRecv`, `QuicSend`, `QuicSender` |
| Muxer, clock offset, base64, peers, persistent strings | `Muxer`, `ClockInfo`, `Base64`, `PeerTable`, `StringArena` |

What the outside world decides is an arbitrary input: how octets are cut into
chunks, how much a socket accepts, which message arrives or completes next,
which thread moves, what a clock shows, how a sort arranges equal elements.

## What turned out not to hold

These promises fail on some input. The code is modelled as it is, and the exact
condition under which the promise holds is proved.

- The incremental reader agrees with the reference decoder after every chunk
  exactly when the stream is cut safely and announces no length of 2^31 or more
  (`WsOversize.AlwaysExact`). Three things make a cut unsafe. A chunk may end
  inside a header so that old and new header octets, the new ones counted twice,
  reach 14: the check at line 283 of `src/quic/src/websocket.hpp` adds the buffer
  to a count that includes it, and `WsDelivery.LongHeaderCrashes` gives such a cut
  for every payload of 65536 octets and more. An empty frame may be followed by
  more octets in its chunk (`WsDelivery.EmptyFrameHidesRest`), against the comment
  at lines 239-240. And a failure may leave octets behind in a chunk that is not
  the last, which the next call of `Next` refuses.
- `Net::refresh` sends its requests and only then resets the tallies, while end
  frames are read without its lock. If at most k of them are read in between, no run
  stalls, and no frame is ever left without a request or credit, exactly for batch
  sizes n from 2 to 255 with n/2 > k, and for negative sizes that are not multiples
  of 256 (`FlowControl.NeverStallsIff`, `FlowControl.AdequateIff`). For every other
  size, and every larger k (`FlowControl.LateStalls`), a stalling run is constructed.
  A frame enabled without a channel is never asked for again
  (`FlowControl.BareStalls`).
- `PacketManager::submit` ends on every input, but its 100-slot ring does not
  conserve packets on every input. After a run of distinct packets each has been
  delivered once or waits if and only if every call was safe (`RingRuns.RunExact`):
  each write less than 100 positions ahead of the oldest one that a drain under
  way has yet to read, and no slot emptied that was taken again. That can be told
  before a call if at most twelve packets wait (`RingBound.ShortWindowSafe`), or
  fewer than 100 and no end of frame among them (`RingBound.CalmSafe`). Nested
  drains lose packets with only 44 waiting (`RingOverrun.LossAt44`).
- Frames that begin in order are delivered in order however they overlap
  (`PacketOrder.InTimeOrder`), but not when a fifth waiting end of frame makes the
  manager give the open frame up: while the drain still counts five of them, the next
  packet it has to put back makes it give up the frame just opened as well. The window
  goes out in order if and only if, up to its first end of frame, it has packets of one
  frame only (`PacketOrder.GivesUpAtFive`).
- A peer in the table need not be found by its address: one that comes in with the
  address of another takes its place in the index (`PeerTable.PlacedAddressed`).
- The muxer's promises hold at every step of a run, given room for framesets, if
  and only if every local id it gives out is free (`Muxer.RunExact`): no fixed
  frameset gives out more than 256 sources, and where an allocated frameset has the
  number of a fixed one they do not give out the same source. With the 257th source
  the local id of the first frame leads to another one (`Muxer.WrapsAt257`), and with
  a fixed frameset 0 that of the first frame of all may (`Muxer.ClashesAtOnce`).
- Packets of a video channel are handed to the pool in the order they came in, but
  their callbacks may start in another. They start in order under every schedule
  of the pool if and only if the pass has an end of frame between any two packets
  of the channel (`RecvVideo.PassExact`, and over whole runs
  `RecvVideoRuns.NextPassExact`). The comment at lines 217-221 of
  `src/streams/netstream.hpp` promises it without the condition.
- A request with a wildcard is processed once per matching frame, and that ends if
  and only if no matching frame is itself numbered 255 (`NetHost.WildcardEnds`).
- `ClockInfo::init` succeeds exactly when n of the first 2n-1 attempts do. With n
  failures and then n answers it returns false although it took all n samples
  (`ClockInfo.FailureWithAllSamples`).

## Model

| member | source | states |
|---|---|---|
| Bytes.XorTwice | src/quic/src/websocket.hpp:52 | combining an octet twice with the same key octet gives it back, by induction over its bits |
| Bytes.XorAt | src/quic/src/websocket.hpp:52 | a bit of the combined octet is set exactly where the two octets differ |
| Bytes.Masked | src/quic/src/websocket.hpp:46-55 | octet i is combined with octet (i + offset) mod 4 of the key as it is on the wire |
| Bytes.MaskedTwice | src/quic/src/websocket.hpp:46-55 | masking is its own inverse for every key and phase |
| Bytes.MaskedSplit | src/quic/src/websocket.hpp:46-55 | masking in parts, with the phase continued, is masking the whole |
| WsHeader.Encoded | src/quic/src/websocket.hpp:70-112 | the octets of a header, of the size the length form calls for |
| WsHeader.WireFormat | src/quic/src/websocket.hpp:70-112 | every field on the wire, as numbers: final bit, opcode, mask bit, the three forms of the length most significant octet first, and the key last |
| WsHeader.WsWriteHeader | src/quic/src/websocket.hpp:70-112 | writes exactly that header and leaves the rest of the buffer alone, or reports -1 and changes nothing when it does not fit |
| WsHeader.WsPrepare | src/protocol/websocket.cpp:71-119 | the TCP writer, its shifts written out: the same octets and the same refusal |
| WsHeader.PrepareLength64 | src/protocol/websocket.cpp:100-109 | the eight shifts give the big-endian length |
| WsHeader.ParseLength | src/protocol/websocket.cpp:139-158 | the shifts of the TCP parser give the length the other parser reads |
| WsHeader.WsParseHeader | src/quic/src/websocket.hpp:121-184 | a parsed header lies within the data |
| WsHeader.ReadFormat | src/quic/src/websocket.hpp:121-184 | reserved bits and undefined opcodes are refused, all else is read field by field from its place |
| WsHeader.WsParse | src/protocol/websocket.cpp:122-171 | the TCP parser accepts, rejects and waits on the same data as the QUIC one, with the same fields |
| WsHeader.NumberOfBigEndian | src/quic/src/websocket.hpp:138-163 | reading a big-endian number gives what was written |
| WsHeader.ParseEncoded | src/quic/src/websocket.hpp:70-184 | parsing a written header, whatever follows it, gives back opcode, mask flag, key, length and size |
| WsHeader.PrefixNotEnough | src/quic/src/websocket.hpp:121-184 | every proper prefix of a written header is too short to parse |
| WsHeader.ShortestForm | src/quic/src/websocket.hpp:70-112 | no header that parses is shorter than the one written for its length |
| WsHeader.TrailingIgnored | src/quic/src/websocket.hpp:121-184 | once decided, the result does not change with more octets |
| WsHeader.HeaderOnly | src/quic/src/websocket.hpp:121-184 | the result depends on the declared header octets alone |
| WsDecoder.FeedAppend | src/quic/src/websocket.hpp:239-245 | the reference decoder does not depend on where its input is cut |
| WsDecoder.DecodeFrame | src/quic/src/websocket.hpp:70-184 | a written frame decodes to its payload |
| WsDecoder.DecodeStream | src/quic/src/websocket.hpp:70-184 | a stream of frames, masked or not, decodes to their payloads in order |
| WsReader.NextBuffer | src/quic/src/websocket.hpp:208-220 | what is delivered and what is left together have the size of the input |
| WsReader.KeepPartial | src/quic/src/websocket.hpp:281-292 | delivers nothing, uses up the chunk and keeps the partial header, or the check fails |
| WsReader.BeginFrame | src/quic/src/websocket.hpp:294-326 | a parsed header leaves a valid reader and never more octets than came |
| WsReader.Buffer | src/quic/src/websocket.hpp:249-327 | one call keeps the reader valid and never yields more octets than came |
| WsReader.BufferIncomplete | src/quic/src/websocket.hpp:281-292 | on an incomplete header the call keeps all octets, unless old octets plus twice the new ones reach 14, when the process ends |
| WsReader.BufferFrame | src/quic/src/websocket.hpp:296-326 | a header split over chunks anywhere is taken off exactly, and the payload starts right after it |
| WsReader.DrainExact | src/quic/src/websocket.hpp:186-328 | draining one chunk agrees with the reference decoder exactly when the chunk is safe, for lengths under 2^31, and a failure leaves no octets exactly when it is a close frame that ends the chunk |
| WsReader.RunExact | src/quic/src/websocket.hpp:186-328 | for any octets announcing lengths under 2^31 and any cut: the reader delivers what the reference decoder does, and uses up all input, if and only if the cut is safe; otherwise it crashes or leaves octets behind |
| WsOversize.OversizeDisagrees | src/quic/src/websocket.hpp:189-191 | a chunk that announces a length of 2^31 or more is never agreed on: the counter goes negative, to zero or to a smaller count |
| WsOversize.ChunkExact | src/quic/src/websocket.hpp:249-327 | one chunk is agreed on if and only if it is safe and announces no such length |
| WsOversize.AlwaysExact | src/quic/src/websocket.hpp:186-328 | for every stream: the reader agrees with the reference decoder after every chunk if and only if the cut is safe and no length of 2^31 or more is announced |
| WsDelivery.DeliversPayloads | src/quic/src/websocket.hpp:186-328 | any non-empty frames under 2^31 octets, cut anywhere, are delivered whole and in order if and only if no chunk falls inside a header in the refused way |
| WsDelivery.ShortFramesAnyCut | src/quic/src/websocket.hpp:199-297 | with payloads of 1 to 65535 octets every cut delivers the payloads, so no internal check can fail and the slice after a split header is in range |
| WsDelivery.LongHeaderCrashes | src/quic/src/websocket.hpp:283 | for every longer payload some cut ends the process |
| WsDelivery.EmptyFrameHidesRest | src/quic/src/websocket.hpp:208-220 | an empty frame makes the reader return nothing while all that follows in the chunk is left |
| WebsocketRead.Mask | src/quic/src/websocket.hpp:46-55 | masks a range of the buffer in place and nothing else |
| WebsocketRead.WebsocketRead.constructor | src/quic/src/websocket.hpp:188-226 | a new reader is between frames |
| WebsocketRead.WebsocketRead.Next | src/quic/src/websocket.hpp:239-245 | hands over a chunk without changing the decoding state |
| WebsocketRead.WebsocketRead.CopyPartialHeader | src/quic/src/websocket.hpp:199-206 | appends to the partial header what fits in its 14 octets |
| WebsocketRead.WebsocketRead.NextBuffer | src/quic/src/websocket.hpp:208-220 | unmasks in place and returns the span the value model yields |
| WebsocketRead.WebsocketRead.KeepPartial | src/quic/src/websocket.hpp:281-292 | keeps a partial header as the value model does |
| WebsocketRead.WebsocketRead.BeginFrame | src/quic/src/websocket.hpp:294-326 | starts a frame as the value model does |
| WebsocketRead.WebsocketRead.Buffer | src/quic/src/websocket.hpp:249-327 | the whole call in place: new state, input left and span equal the value model's, and it aborts exactly when that does |
| WebsocketRead.ReadChunk | src/quic/src/quic_peer.cpp:391-407 | the caller's loop delivers exactly what draining the chunk on values gives |
| SocketWrite.Writev | src/protocol/connection.cpp:73-150 | for any short writes and failures the socket has accepted a prefix of the data, all of it on normal return with its size reported; failure only after a fatal error |
| SocketWrite.Resume | src/protocol/connection.cpp:88-122 | the loop over the local copy offers exactly what is missing, however often it is cut short |
| SocketWrite.MaskAll | src/protocol/websocket.cpp:324-339 | masks the buffers in place as one message, the phase running on across them |
| SocketWrite.PrepareHeader | src/protocol/websocket.cpp:341-350 | the header for the message, which always fits the 20 octets reserved for it |
| SocketWrite.WebSocketWritev | src/protocol/websocket.cpp:318-358 | whatever the socket does it has accepted a prefix of one frame that holds the message, and all of it when the payload size is reported |
| SocketWrite.AcceptedDecodes | src/protocol/websocket.cpp:318-358 | decoding what was accepted gives a prefix of the message, and the message once the frame is complete |
| RecvQueue.Select | src/streams/netstream.cpp:582-620 | exactly the packets that are ready, or those that are not |
| RecvQueue.SelectSplits | src/streams/netstream.cpp:571-626 | a pass divides the queue without loss or duplication |
| RecvQueue.SortedKeeps | src/streams/netstream.cpp:476-487 | sorting orders by timestamp, end of frame last, and keeps the packets |
| RecvQueue.SortedOf | src/streams/netstream.cpp:476-487 | sorting does not disturb a channel that is in order |
| RecvQueue.SelectOf | src/streams/netstream.cpp:571-606 | with the sync option off, what a pass releases of an ordered channel is a prefix of what waits |
| RecvTiming.TakenExactly | src/streams/netstream.cpp:582-620 | over every run: a pass takes a waiting packet of a queue it visits if and only if its clock is past 1000 (local base + relative time + buffering), and the frame has come in whole or the sync option is off and it is not the end of frame |
| RecvTiming.NeverEarly | src/streams/netstream.cpp:603-606 | over every run: whatever was handed to a callback was taken by a pass late enough for it |
| RecvTiming.MarkedIff | src/streams/netstream.cpp:445-463 | a timestamp is not marked incomplete if and only if all its packets have come in |
| RecvStream.ArrivedAll | src/streams/netstream.cpp:445-463 | the packets taken in are those that were inserted, in order |
| RecvStream.RunConserves | src/streams/netstream.cpp:445-513 | in every run each packet is waiting, on its way to a callback or given to one, in all as often as it came in |
| RecvStream.RunConservesFromStart | src/streams/netstream.cpp:445-513 | the same for every run from the start |
| RecvStream.KeepsConserved | src/streams/netstream.cpp:571-626 | every step of the threads keeps this |
| RecvOrder.DispatchedInOrder | src/streams/netstream.hpp:217-221 | with the sync option off, a channel whose packets come in timestamp order is handed to its callbacks, or to the pool that runs them, in that order over all passes and interleavings |
| RecvOrder.CallbacksInOrder | src/streams/netstream.cpp:494-510 | for channels from 32 on, callbacks start in the order packets came in |
| RecvVideo.VideoInOrder | src/streams/netstream.cpp:492-510 | video callbacks start in the order packets came in if every pass is segmented by end-of-frame packets |
| RecvVideo.Reverses | src/streams/netstream.cpp:499-501 | otherwise the pool can start two of them in the reverse order |
| RecvVideo.PassExact | src/streams/netstream.cpp:492-512 | for a pass of distinct packets, video callbacks start in order under every schedule if and only if the pass is segmented |
| RecvVideoRuns.UnsegmentedLeavesOrder | src/streams/netstream.cpp:492-512 | after any run: if a pass that is not segmented is dispatched, some schedule of the pool starts callbacks out of arrival order |
| RecvVideoRuns.NextPassExact | src/streams/netstream.cpp:492-512 | after a run of segmented passes: callbacks are in arrival order under every schedule if and only if the next pass is segmented |
| RecvVideoRuns.TwoReversed | src/streams/netstream.cpp:492-512 | any two packets of a video channel that come in after each other may start in the reverse order, from the empty stream on |
| RecvOrder.RunKeepsInOrder | src/streams/netstream.cpp:468-510 | dispatched, released and waiting packets of the channel, in this order, are those that came in |
| RecvEndFrame.KeepsCounting | src/streams/netstream.cpp:445-463 | every step keeps the count of missing packets of each timestamp right |
| RecvEndFrame.Complete | src/streams/netstream.cpp:445-463 | a timestamp not marked incomplete has come in whole |
| RecvEndFrame.ReleasedWhole | src/streams/netstream.cpp:571-606 | a pass that releases an end of frame has the rest of the frame released, in it or before |
| RecvEndFrame.EndFrameIsLast | src/streams/netstream.cpp:468-513 | in every run, for any arrival order, interleaving and buffering, an end-of-frame callback starts only after the callbacks of all other packets of that frame and timestamp have finished |
| PacketQueue.PacketQueue.constructor | src/streams/netstream.cpp:424-440 | a new queue is empty with the given time bases |
| PacketQueue.PacketQueue.Insert | src/streams/netstream.cpp:445-463 | appends the packet and updates the count of missing packets as the value model does |
| PacketQueue.PacketQueue.ShouldProcessNow | src/streams/netstream.cpp:582-606 | decides readiness as the value model does |
| PacketQueue.PacketQueue.Collect | src/streams/netstream.cpp:571-626 | a pass in place returns the released packets in order, keeps the others, leaves no consumed packet in front, and reports when the next one is due |
| PacketQueue.PacketQueue.TakeReady | src/streams/netstream.cpp:608-620 | marks exactly the ready packets as consumed and returns them |
| PacketQueue.PacketQueue.Visit | src/streams/netstream.cpp:608-620 | one turn of the loop: consumes a ready packet, or lowers the wake-up time to that of one that is left |
| PacketQueue.SoonestIsLeast | src/streams/netstream.cpp:615-619 | the wake-up time is the least release time of the packets left, and there is none only if none is left |
| PacketQueue.PacketQueue.PopConsumed | src/streams/netstream.cpp:622-625 | dropping consumed packets from the front loses no waiting packet |
| FlowControl.KeepsInv | src/streams/netstream.cpp:272-305 | every step of either end keeps each enabled frame with a channel supplied, for a batch size that lasts |
| FlowControl.RunKeepsInv | src/streams/netstream.cpp:722-736 | and so does every run of the protocol, with refreshes overlapping reception |
| FlowControl.AlwaysUnderWay | src/streams/netstream.cpp:202-238 | in every reachable state an enabled frame with a channel has a request coming, or credit and end frames under way cover what is owed, which is at least one |
| FlowControl.TallyCovered | src/streams/netstream.cpp:289-304 | for sizes 2 to 255 and k < n/2: n/2 <= tally <= n, credit <= n, and a request is coming or credit plus end frames under way >= tally - k |
| FlowControl.AdequateIff | src/streams/netstream.cpp:796-825 | the adequate batch sizes, given that a request carries eight bits |
| FlowControl.StalledForever | src/streams/netstream.cpp:870-906 | only the application can end a stall |
| FlowControl.InadequateStalls | src/streams/netstream.cpp:289-304 | every inadequate size has a run that stalls |
| FlowControl.LateStalls | src/streams/netstream.cpp:727-735 | every size n from 2 to 255 has a run that stalls if n/2 end frames can be received while a refresh is between its requests and its reset |
| FlowControl.BareStalls | src/streams/netstream.cpp:769-776 | a frame enabled without a channel has a run that stalls, whatever the size |
| FlowControl.BareRefresh | src/streams/netstream.cpp:727-735 | and a refresh asks for nothing, so the stall stays |
| FlowControl.QuietAfterRewind | src/streams/netstream.cpp:300-303 | once it has asked, the receiver reads half a batch of end frames before it asks again |
| FlowControl.GrantRaises | src/streams/netstream.cpp:882 | a request never lowers a credit and touches that of no other frame |
| FlowControl.NeverStallsIff | src/streams/netstream.cpp:272-305 | if at most k end frames are received during a refresh: no run stalls, and no frame with a channel is ever starved, if and only if the size is adequate and, unless negative, n/2 > k |
| FlowControl.RefreshDecides | src/streams/netstream.cpp:722-736 | with no reception during a refresh the adequate sizes are enough; with any amount of it only negative sizes that are not multiples of 256 are |
| NetHost.Host.ProcessRequest | src/streams/netstream.cpp:852-906 | a request leaves alone every frame that differs from it in a number other than 255, and gives the peer at least the count asked for on every frame of the stream that agrees |
| NetHost.RequestReaches | src/streams/netstream.cpp:855-866 | the same of the value model |
| NetHost.WildcardEnds | src/streams/netstream.cpp:855-865 | processing a request ends, after at most one nested call, if and only if it matches no frame that is itself numbered 255; otherwise calls nest for ever |
| NetHost.Host.RequestFrame | src/streams/netstream.cpp:868-906 | a request for one frame: the first lock region, and the second if the client was not found |
| NetHost.Host.RaiseCredit | src/streams/netstream.cpp:870-892 | the first lock region: raises a known client and says whether there was one |
| NetHost.Host.AddClient | src/streams/netstream.cpp:895-906 | the second lock region: the peer gets an entry with the count asked for |
| NetHost.Host.Send | src/streams/netstream.cpp:193-257 | sends to every client of the frame, charges end frames, takes the credit of clients that cannot be sent to, and cleans up, under a second lock, exactly if a credit is used up, so that no client of the frame is left without |
| NetHost.Host.SendToClients | src/streams/netstream.cpp:193-239 | the first lock region: every client of the frame is sent the packet and charged, or loses its credit, and nothing is erased |
| NetHost.Host.CleanUp | src/streams/netstream.cpp:827-846 | erases exactly the clients without credit and the frames without clients |
| NetHost.RequestRefines | src/streams/netstream.cpp:852-906 | what the asking peer sees is the protocol's step for each matched frame, in any order, and other peers see nothing |
| NetHost.SendRefines | src/streams/netstream.cpp:193-239 | only peers with an entry that can be sent to get the packet, and each sees the protocol's step; one that cannot loses its entry at the next clean-up |
| NetHost.ViewSwept | src/streams/netstream.cpp:827-846 | each peer sees a clean-up as the protocol's step |
| NetHost.EarlyProcess | src/streams/netstream.cpp:289-304 | lowers the tally, or resets it and asks once for each selected channel of the frameset |
| NetHost.EarlyRefines | src/streams/netstream.cpp:289-304 | left undisturbed, that is the protocol's steps of the reading thread |
| NetHost.OrderVisits | src/streams/netstream.cpp:294-299 | the requests go to exactly the enabled frames that have a channel |
| PacketManager.Submit | src/streams/packetmanager.cpp:31-139 | with a window of any length: ends on every input in spite of nested drains, delivers nothing twice and undoes no delivery |
| PacketManager.Drain | src/streams/packetmanager.cpp:126-136 | with a window of any length, a drain delivers a packet whenever one is due |
| PacketManager.SubmitConserves | src/streams/packetmanager.cpp:31-139 | with a window of any length, delivered and waiting packets after a call are those before and the new one |
| PacketManager.DrainConserves | src/streams/packetmanager.cpp:126-136 | with a window of any length, a drain with all nested calls loses no packet and makes up none |
| PacketManager.SubmitCounts | src/streams/packetmanager.cpp:31-139 | with a window of any length, the counter of buffered end frames stays equal to those in the window, and at most one over four |
| PacketManager.DrainCounts | src/streams/packetmanager.cpp:106-137 | with a window of any length, the counter covers end frames in the window and in the drain |
| PacketManager.EveryRun | src/streams/packetmanager.cpp:31-139 | what the ring is to do: after any packets in any order each is delivered once or waiting, the counter is right and at most four, and an idle manager holds nothing |
| PacketOrder.SubmitOnTrack | src/streams/packetmanager.cpp:31-139 | one call, with all nested drains: the state is again the one the reference calls for |
| PacketOrder.DrainOnTrack | src/streams/packetmanager.cpp:46-67 | draining a window is dealing with its packets as they came in |
| PacketOrder.InTimeOrder | src/streams/packetmanager.cpp:31-139 | frames that begin in order and overlap in any way, with true counts and at most four ends of frame waiting: after every packet exactly those up to the first incomplete frame are delivered, frame by frame, and the others wait |
| PacketOrder.ByTimeSorts | src/streams/packetmanager.cpp:31-139 | the reference is the stable sort by timestamp |
| PacketOrder.WholeFrames | src/streams/packetmanager.cpp:31-139 | whole frames are all delivered, sorted by timestamp, and as they come if they do not overlap; the manager is idle again |
| PacketOrder.NextAtOnce | src/streams/packetmanager.cpp:68-72 | when the last packet of the open frame comes in and nothing waits, a packet of any timestamp is delivered by its own call |
| PacketOrder.StaleAtOnce | src/streams/packetmanager.cpp:74-78 | a packet older than the open frame is delivered at once and changes nothing for later ones |
| PacketOrder.GivesUpAtFive | src/streams/packetmanager.cpp:106-136 | a fifth waiting end of frame gives the open frame up; the window then goes out in order if and only if it has packets of one frame only up to its first end of frame |
| PacketOrder.RingInTimeOrder | src/streams/packetmanager.cpp:31-139 | the same on the ring, for distinct packets and at most twelve waiting |
| PacketRing.Submitted | src/streams/packetmanager.cpp:31-139 | `submit` on the ring as the code has it, slots reused unchecked and emptied: it ends for every ring and every packet; window and callbacks gain one packet in all; a call that delivers nothing only moves packets |
| PacketRing.Drained | src/streams/packetmanager.cpp:106-137 | the same of a drain |
| PacketRing.Replayed | src/streams/packetmanager.cpp:126-135 | the same of the loop from any position on |
| PacketRing.PushMeasure | src/streams/packetmanager.cpp:97-99 | a write, whatever it overwrites, widens no range of timestamps |
| PacketRing.NextReplay | src/streams/packetmanager.cpp:126-135 | until a drain delivers, packets still to be read are not before its timestamp and those written again are after it, which makes nested drains end |
| StreamState.StreamState.constructor | src/streams/packetmanager.hpp:22-34 | the initial state is idle with an empty ring |
| StreamState.StreamState.Submit | src/streams/packetmanager.cpp:31-139 | the recursive method in place computes the state of the ring model, on every input |
| StreamState.StreamState.Push | src/streams/packetmanager.cpp:97-104 | moves the packet to the next slot, whoever is in it |
| StreamState.StreamState.Scan | src/streams/packetmanager.cpp:117-122 | finds the earliest timestamp in the window |
| StreamState.StreamState.Drain | src/streams/packetmanager.cpp:109-136 | drains the window as the ring model does |
| StreamState.StreamState.ReplayAll | src/streams/packetmanager.cpp:128-135 | the loop over the old window, reading each slot when its turn comes |
| RingSafe.PushAgrees | src/streams/packetmanager.cpp:97-99 | a write less than 100 positions ahead of the oldest one in use disturbs nothing that is to be read |
| RingSafe.SubmitAgrees | src/streams/packetmanager.cpp:31-139 | a safe call leaves the ring as the window of any length, and outer drains' slots as they were |
| RingLoss.SubmitAbsent | src/streams/packetmanager.cpp:31-139 | a packet that is neither delivered nor in a slot never comes back |
| RingLoss.SubmitOnce | src/streams/packetmanager.cpp:97-99 | packets are moved, so no packet waits in two slots |
| RingLoss.PushLoses | src/streams/packetmanager.cpp:97-99 | the write 100 positions ahead loses the packet it overwrites |
| RingLoss.ClearLoses | src/streams/packetmanager.cpp:133-134 | emptying a slot that was taken again loses the packet in it |
| RingLoss.SubmitLoses | src/streams/packetmanager.cpp:31-139 | a call that is not safe, at any depth of nested drains, loses a packet for good |
| RingRuns.SubmitExact | src/streams/packetmanager.cpp:31-139 | for distinct packets, one call agrees with the window of any length if and only if it is safe |
| RingRuns.RunExact | src/streams/packetmanager.cpp:31-139 | after a run of distinct packets each is delivered once or waits if and only if every call was safe; a safe run keeps the counter right and at most four and spans at most 100 positions |
| RingBound.SubmitWithin | src/streams/packetmanager.cpp:97-99 | a call all of whose writes are within 100 positions is safe |
| RingBound.SubmitWrites | src/streams/packetmanager.cpp:106-137 | each drain delivers a packet in its own loop, so k waiting packets cost at most k(k-1)/2 writes |
| RingBound.WritesBound | src/streams/packetmanager.cpp:31-139 | the bound on the writes of a call, told before it |
| RingBound.ShortWindowSafe | src/streams/packetmanager.cpp:31-139 | a call is safe when at most twelve packets wait |
| RingBound.CalmSafe | src/streams/packetmanager.cpp:31-139 | a call is safe when fewer than 100 packets wait and none is an end of frame |
| RingOverrun.StairsSafe | src/streams/packetmanager.cpp:61-68 | completing a frame while late packets, ends of frames in reverse order and more late packets wait is safe only if these sums are at most 100 |
| RingOverrun.StairsUnsafe | src/streams/packetmanager.cpp:61-68 | every run with larger sums is unsafe |
| RingOverrun.LossAt44 | src/streams/packetmanager.cpp:61-68 | an input of 46 distinct packets, 44 of them waiting, on which the ring loses packets |
| WorkerQueue.KeepsInv | include/ftl/threads.hpp:156-267 | every step keeps: one runner at most and the busy flag says whether, a non-empty unstopped queue has one, tasks leave in the order they came, and those executed are those that left to be run |
| WorkerQueue.EveryRun | include/ftl/threads.hpp:156-267 | this holds after any interleaving of callers and runner |
| WorkerQueue.ExecutedInOrder | include/ftl/threads.hpp:246-267 | executed tasks follow the order in which they were queued |
| WorkerQueue.AcceptedAll | include/ftl/threads.hpp:161-190 | the tasks on record are those of all calls but the ones refused by the stop or a limit, in order |
| WorkerQueue.RunsAll | include/ftl/threads.hpp:246-267 | left to itself the runner runs all that is queued, in order, and leaves |
| WorkerQueue.OneJobStep | include/ftl/threads.hpp:246-267 | and it never has a choice, nor is it ever stuck |
| WorkerQueue.EveryRunFromStart | include/ftl/threads.hpp:156-267 | both from the start |
| WorkerQueue.AllRun | include/ftl/threads.hpp:246-267 | without discarding and clearing every task that left the queue was run |
| WorkerQueue.WorkerQueue.Queue | include/ftl/threads.hpp:161-168 | the task is last in the queue unless stopped; returns the size before, or -1 |
| WorkerQueue.WorkerQueue.TryQueue | include/ftl/threads.hpp:172-179 | queues exactly when not stopped and under the limit, a negative limit being none |
| WorkerQueue.WorkerQueue.QueueDiscard | include/ftl/threads.hpp:182-190 | the task is last, after as many of the latest others as the limit leaves room for; returns the size before, or 0 when stopped |
| WorkerQueue.WorkerQueue.Clear | include/ftl/threads.hpp:212-215 | the step of the state machine |
| WorkerQueue.WorkerQueue.Stop | include/ftl/threads.hpp:201-209 | the step of the state machine |
| WorkerQueue.WorkerQueue.Resume | include/ftl/threads.hpp:218-224 | the step of the state machine: a runner is started for what is queued |
| WorkerQueue.WorkerQueue.StartAndUnlock | include/ftl/threads.hpp:238-244 | starts a runner only if there is none |
| WorkerQueue.WorkerQueue.Next | include/ftl/threads.hpp:246-259 | takes the oldest task, or leaves exactly when stopped or nothing is queued |
| QuicRecv.KeepsInv | src/quic/src/quic_peer.cpp:421-506 | every step keeps: one worker at most, waiting messages imply one, and processed, held and waiting messages in this order are those received |
| QuicRecv.LeavesNothing | src/quic/src/quic_peer.cpp:472-506 | a worker leaves only when all messages received are processed |
| QuicRecv.ProcessesAll | src/quic/src/quic_peer.cpp:465-506 | left to itself a worker processes all that was received, in order, and leaves |
| QuicRecv.WakeExact | src/quic/src/quic_peer.cpp:479-491 | a waiting worker leaves exactly at a timeout with nothing queued, and goes on exactly if there is something |
| QuicRecv.AllReceived | src/quic/src/quic_peer.cpp:421-463 | the messages on record are those of all calls, in order |
| QuicRecv.EveryRun | src/quic/src/quic_peer.cpp:421-506 | over all interleavings, timeouts included: at most one worker, messages processed once and in order, none waiting without a worker |
| QuicRecv.Receiver.OnData | src/quic/src/quic_peer.cpp:421-463 | queues the messages and starts or wakes the worker as the state machine does |
| QuicRecv.Receiver.Look | src/quic/src/quic_peer.cpp:471-501 | takes everything queued, or starts to wait |
| QuicRecv.Receiver.Wake | src/quic/src/quic_peer.cpp:479-491 | goes on after data, leaves after a timeout with nothing queued |
| QuicSend.ClearedKeeps | src/quic/src/quic_peer.cpp:245-258 | clearing drops completed sends from the front only and their headers with them, so the check at line 252 holds, and changes no total |
| QuicSend.KeepsInv | src/quic/src/quic_peer.cpp:217-364 | every step keeps headers and sends paired, the front incomplete, the totals exact and each buffer released once |
| QuicSend.EveryRun | src/quic/src/quic_peer.cpp:217-364 | this holds under any order of sends and completions |
| QuicSend.InitialInv | src/quic/src/quic_peer.cpp:24-53 | a new stream satisfies the invariant |
| QuicSend.BufferUnlessAllInUse | src/quic/src/quic_peer.cpp:155-188 | a caller waits for a buffer only while all 512 are in use |
| QuicSend.PendingBounded | src/quic/src/quic_peer.cpp:286-298 | over every run no more than 24 MiB and one message are under way |
| QuicSend.Quiescent | src/quic/src/quic_peer.cpp:328-364 | when every send has given back its buffer, queue and headers are empty, the counters are zero and all buffers are free or held |
| QuicSender.Sender.GetBuffer | src/quic/src/quic_peer.cpp:155-188 | the step of the state machine |
| QuicSender.Sender.SendBuffer | src/quic/src/quic_peer.cpp:217-324 | queues the send with its header, writes one frame that holds the original message, and records that message |
| QuicSender.Sender.Enqueue | src/quic/src/quic_peer.cpp:217-222 | counters, queue and header of the send |
| QuicSender.Sender.LowerCounters | src/quic/src/quic_peer.cpp:328-340 | the step of the state machine |
| QuicSender.Sender.OnWriteComplete | src/quic/src/quic_peer.cpp:342-364 | marks the send complete, releases its buffer and clears the front |
| QuicSender.Sender.ClearCompleted | src/quic/src/quic_peer.cpp:245-258 | the loop computes what clearing does on values |
| QuicSender.FrameMessage | src/quic/src/quic_peer.cpp:223-234 | header and masked buffer together are the frame of the message |
| QuicSender.PeerReceives | src/quic/src/quic_peer.cpp:217-237 | end to end: of a sender, whatever calls made it send, the octets written and cut into chunks are delivered to the peer as the original buffers in order, if and only if the cut is safe |
| QuicSender.PeerReceivesShort | src/quic/src/quic_peer.cpp:217-237 | with buffers of 1 to 65535 octets, for every cut |
| Muxer.NewIdFresh | src/streams/muxer.cpp:29-60 | a local id given out for a new frame was never given out before, if and only if it is free |
| Muxer.FixedSetFreshIff | src/streams/muxer.cpp:44-46 | in a fixed frameset the id is new if and only if fewer than 256 were given out and no frame of an allocated frameset of that number has the next |
| Muxer.SetFreshIff | src/streams/muxer.cpp:47-51 | in an allocated frameset the id is new if and only if no fixed frameset of that number has given out its source |
| Muxer.DisjointFree | src/streams/muxer.cpp:43-51 | if fixed framesets have numbers of their own, and fewer than 256 sources, every id is free |
| Muxer.OneRemote | src/streams/muxer.cpp:47-51 | in an allocated frameset a local id belongs to one remote frame |
| Muxer.MapKeepsInv | src/streams/muxer.cpp:29-60 | mapping keeps the two maps inverse |
| Muxer.AddKeepsInv | src/streams/muxer.cpp:203-213 | adding a stream keeps the invariant |
| Muxer.RemoveKeepsInv | src/streams/muxer.cpp:259-287 | removing a stream erases its entries from both maps and keeps them inverse |
| Muxer.RemoveForgets | src/streams/muxer.cpp:259-287 | the first entry of the stream goes with all it was mapped to and from, and nothing else |
| Muxer.KeepsInv | src/streams/muxer.cpp:29-301 | every step keeps the invariant and forgets no id that was given out |
| Muxer.EveryRun | src/streams/muxer.cpp:29-301 | over every run the maps stay inverse and a local id never comes to stand for another frame, even after removal; lookups and frames of known framesets are always allowed |
| Muxer.EveryRunFromStart | src/streams/muxer.cpp:29-301 | the same from the start |
| Muxer.AllocatedInTurn | src/streams/muxer.cpp:49 | framesets are allocated as 0, 1, 2 and so on |
| Muxer.TakesId | src/streams/muxer.cpp:44-56 | an id that is not free is taken from an earlier frame |
| Muxer.StepExact | src/streams/muxer.cpp:43-56 | a step keeps all promises if and only if the id it gives out is free |
| Muxer.RunExact | src/streams/muxer.cpp:29-301 | a run keeps every promise at every step if and only if every id it gives out is free |
| Muxer.WrapsAt257 | src/streams/muxer.cpp:44-57 | a run after which the local id of a stream's first frame leads to its 257th |
| Muxer.ClashesAtOnce | src/streams/muxer.cpp:43-57 | a run of two streams, one with fixed frameset 0 and one with none, after which the id of the first frame of one leads to the other |
| Muxer.RoundTrip | src/streams/muxer.cpp:29-81 | the local id of a frame leads back to that frame of that stream, now and as long as the stream is there |
| Muxer.Maps.Add | src/streams/muxer.cpp:203-213 | the step of the state machine |
| Muxer.Maps.MapFromInput | src/streams/muxer.cpp:29-60 | the state and the id of the value model |
| Muxer.Maps.Allocate | src/streams/muxer.cpp:43-51 | takes the next source of a fixed frameset, or the frameset mapped for the stream's |
| Muxer.Maps.MapToOutput | src/streams/muxer.cpp:73-81 | looks the id up |
| Muxer.Maps.Remove | src/streams/muxer.cpp:259-287 | the step of the state machine, by loops that erase from the two maps |
| Muxer.Maps.EraseInputs | src/streams/muxer.cpp:269-275 | erases exactly the entries of the stream |
| Muxer.Maps.EraseOutputs | src/streams/muxer.cpp:276-281 | erases exactly the entries of the stream |
| ClockInfo.MeasuredGenuine | src/rpc/time.cpp:28-40 | a sample taken between two readings of the local clock is off by at most half its round trip, rounded up |
| ClockInfo.UpdatedQueue | src/rpc/time.cpp:62-67 | an update replaces the oldest sample of the ring |
| ClockInfo.LatestSamples | src/rpc/time.cpp:62-67 | after any updates the ring holds the latest samples in order |
| ClockInfo.EstimateBound | src/rpc/time.cpp:69-90 | for sorted samples twice the error of the mean offset is under rtt + 4, and fastest <= rtt <= slowest |
| ClockInfo.OutliersIgnored | src/rpc/time.cpp:75-85 | the fastest and the slowest quarter make no difference to offset and round trip |
| ClockInfo.Constant | src/rpc/time.cpp:69-90 | equal samples are estimated as they are |
| ClockInfo.OffsetError | src/rpc/time.cpp:62-90 | the same after any run that filled the ring at a constant true offset, however the sort arranges equal round trips |
| ClockInfo.RoundTripsDetermined | src/rpc/time.cpp:69-90 | the arrangement of equal elements does not show in the three round trips |
| ClockInfo.FailureWithAllSamples | src/rpc/time.cpp:42-53 | n failures and then n answers count as failure although all samples were taken |
| ClockInfo.SortByRtt | src/rpc/time.cpp:72-73 | an ordered rearrangement |
| ClockInfo.ClockInfo.constructor | src/rpc/time.cpp:17-26 | an empty ring of the given size |
| ClockInfo.ClockInfo.UpdateEstimate | src/rpc/time.cpp:69-90 | the estimate is one that an order by round trip gives |
| ClockInfo.ClockInfo.Update | src/rpc/time.cpp:62-67 | overwrites the ring at its position, moves on and re-estimates |
| ClockInfo.ClockInfo.UpdateInfo | src/rpc/time.cpp:28-40 | records the sample of a request |
| ClockInfo.ClockInfo.UpdateTimeSync | src/rpc/time.cpp:55-60 | records the sample of the peer's request |
| ClockInfo.ClockInfo.TryAll | src/rpc/time.cpp:42-51 | the retry loop: what its counters say about the attempts made |
| ClockInfo.ClockInfo.Init | src/rpc/time.cpp:42-53 | at most 2n attempts; true if and only if n of the first 2n-1 succeed, and then the ring holds exactly these n samples and the estimate has the error bound |
| Base64.PosOfDigit | src/base64.cpp:41-64 | the position of a digit of either alphabet is its value |
| Base64.Forms | src/base64.cpp:41-51 | the 64 digits and the padding of the two forms |
| Base64.GroupNumber | src/base64.cpp:127-135 | three octets and their four digits are the same number |
| Base64.LastGroups | src/base64.cpp:136-146 | one or two octets are encoded as if zeros followed, with padding in the unused places |
| Base64.EncodedLength | src/base64.cpp:106 | the text has four characters for each group of three octets |
| Base64.RoundTrip | src/base64.cpp:104-215 | decoding gives back what was encoded, in either alphabet, for all octets |
| Base64.UnbrokenLines | src/base64.cpp:66-82 | removing line breaks undoes inserting them |
| Base64.BrokenRoundTrip | src/base64.cpp:84-97 | text with line breaks at any distance, decoded with their removal, gives the octets back |
| Base64.EncodeIndexed | src/base64.cpp:104-153 | the indexed loop writes the groups of the specification |
| Base64.EncodeBlocks | src/quic/src/openssl_util.cpp:26-64 | the loop that fills blocks writes the same text |
| Base64.Flush | src/quic/src/openssl_util.cpp:47-61 | the incomplete last block gives its digits and padding |
| Base64.DecodeQuad | src/base64.cpp:195-209 | decodes one group, reading no further than the terminating NUL |
| Base64.DecodeText | src/base64.cpp:179-214 | the loop decodes, or throws exactly when some group has a bad character |
| Base64.InsertLinebreaks | src/base64.cpp:66-82 | the insertions in place give lines of the given length |
| Base64.RemoveLinebreaks | src/base64.cpp:168-173 | the find and erase loop removes all line breaks and nothing else |
| Base64.EncodeWithLineBreaks | src/base64.cpp:84-97 | PEM and MIME text, which decodes to the octets |
| Base64.Base64Decode | src/base64.cpp:155-177 | decoding with or without removal of line breaks |
| PeerTable.InsertNewKeepsInv | src/universe.cpp:278-300 | inserting a peer, a full table and a peer already there keep the invariant |
| PeerTable.RemoveKeepsInv | src/universe.cpp:408-441 | removing a peer in any status keeps it |
| PeerTable.ReconnectKeepsInv | src/universe.cpp:503-531 | reconnecting, refusing our own address and a full table keep it |
| PeerTable.KeepsInv | src/universe.cpp:278-545 | every step keeps it |
| PeerTable.EveryRun | src/universe.cpp:278-545 | over every run: the count is that of taken slots, a local id is the slot, every address leads to a peer with that address, and each peer is in one place |
| PeerTable.TcpPeerKept | src/universe.cpp:424-432 | a TCP peer is for ever after in exactly one of table, reconnect list, garbage and freed, and in the table at its local id |
| PeerTable.Universe.constructor | src/universe.cpp:97 | an empty table of the given capacity |
| PeerTable.Universe.FindPeer | src/universe.cpp:736-742 | whether the peer is in the table |
| PeerTable.Universe.InsertPeer | src/universe.cpp:278-300 | takes the first free slot and updates index, local id and count, or changes nothing |
| PeerTable.Universe.EraseUri | src/universe.cpp:417-422 | erasing the first entry found erases every entry of the peer, because there is at most one |
| PeerTable.Universe.RemovePeer | src/universe.cpp:408-441 | the step of the state machine: a TCP peer that reports to reconnect joins the reconnect list, one that is gone the garbage |
| PeerTable.Universe.CleanupPeers | src/universe.cpp:443-457 | leaves exactly the peers that are up, where they were, and appends the TCP peers to reconnect and the peers that are gone to their lists, in the order of the slots |
| PeerTable.Universe.ReconnectAll | src/universe.cpp:503-545 | handles the waiting peers in order: those at our own address become garbage, the others get a slot, until the table is full |
| PeerTable.Universe.CleanupAndReconnect | src/universe.cpp:443-545 | with a slot to spare in the end, every TCP peer that reported to reconnect, at an address not our own, is in the table again at its local id |
| PeerTable.PlacedAddressed | src/universe.cpp:278-300 | a new peer leaves the others to be found by their addresses if and only if none of them has its address |
| PeerTable.FoundByAddress | src/universe.cpp:278-545 | over every run in which addresses in the table stay apart, each peer in it is found by its address |
| PeerTable.Universe.GetPeer | src/universe.cpp:467-473 | finds the peer of a slot by its local id |
| StringArena.KeepsInv | src/common/profiler.cpp:82-109 | a call keeps strings in place and apart, keeps all pointers, and refuses exactly the strings too long for a block |
| StringArena.EveryRun | src/common/profiler.cpp:56-110 | so does any sequence of calls |
| StringArena.InsertedWhere | src/common/profiler.cpp:94-109 | a new string goes right after the last one if it fits with its NUL, else to the start of a new block |
| StringArena.EveryRunDense | src/common/profiler.cpp:94-109 | no run leaves a gap in the block it is at |
| StringArena.Persistent | src/common/profiler.cpp:56-110 | every pointer ever handed out still reads as its string, inside its block; equal strings share a pointer, distinct ones share no place |
| StringArena.InReads | src/common/profiler.cpp:94-109 | reading memory up to the NUL gives the string stored there |
| StringArena.PersistentStringBuffer.constructor | src/common/profiler.cpp:72-75 | one block and no strings |
| StringArena.PersistentStringBuffer.AllocBlock | src/common/profiler.cpp:66-70 | a new last block; the others are as they were |
| StringArena.PersistentStringBuffer.CopyIn | src/common/profiler.cpp:104-105 | writes the string and its NUL at the head and nothing else |
| StringArena.PersistentStringBuffer.Add | src/common/profiler.cpp:94-109 | stores the string as the value model does, in a new block if need be |
| StringArena.PersistentStringBuffer.GetOrInsert | src/common/profiler.cpp:82-92 | the step of the value model |

## Left out

- WsReader.RunExact: stated for announced lengths under 2^31; `WsOversize.AlwaysExact` covers the others, for chunks under 2^31 octets, whose size the reader converts to `int`. What the reader does after a close frame that ends its chunk is not modelled: the stream is being closed.
- WsReader.DrainExact: stated for announced lengths under 2^31; `WsOversize.ChunkExact` covers the others.
- WsHeader.Encoded: the bit fields of the two header octets are written arithmetically; octets are integers from 0 to 255.
- WsHeader.WsWriteHeader: buffers under 12 octets are a precondition, because the source asserts it.
- WebsocketRead.WebsocketRead.Next: that the previous chunk is used up is a precondition, because the source asserts it; `WsReader.RunExact` says when its caller may rely on it.
- SocketWrite.WebSocketWritev: buffers are distinct and the message is shorter than 2^64; the random masking key is a parameter. `WebSocketBase::prepare_next` on the receiving side of TCP is not modelled.
- RecvQueue.SortedKeeps: the comparison is modelled as (timestamp, is end of frame), because the source's comparison is not irreflexive on end frames.
- RecvStream.RunConserves: channels excluded from buffering, adaptive buffering with floating point, statistics and the end of the thread are not modelled. Buffering delays are arbitrary instead.
- FlowControl.AlwaysUnderWay: sends that fail, after which the host drops the client (`NetHost.SendRefines`), pausing, disabling a frame and changing the batch size of a stream in use are not part of the protocol; a wildcard request is one request for each frame (`NetHost.RequestRefines`). Packets of the stream are read one at a time, as the worker of a QUIC connection does (`QuicRecv.EveryRun`); over TCP two jobs may overlap, because line 378 of src/peer_tcp.cpp clears a flag that may be another job's.
- PacketManager.Submit: has no ring; `PacketRing.Submitted` has it, and `RingRuns.SubmitExact` says when the two agree.
- PacketManager.Drain: has no ring; `PacketRing.Replayed` has it.
- PacketManager.SubmitConserves: does not hold of the ring without the condition of `RingRuns.SubmitExact`.
- PacketManager.DrainConserves: does not hold of the ring without that condition.
- PacketManager.SubmitCounts: is carried to the ring by `RingRuns.RunExact`.
- PacketManager.DrainCounts: is carried to the ring by `RingRuns.RunExact`.
- PacketManager.EveryRun: is what `RingRuns.RunExact` shows of safe runs on the ring. Packets are those of one frame; the table of frames that `getState` looks up only keeps frames apart, and calls for one frame do not run at the same time.
- PacketRing.Submitted: the data of a packet are its identity, and moving a packet onto itself empties it, as the usual vector does; the standard leaves that open.
- PacketOrder.InTimeOrder: a frame that begins before an earlier one has begun, counts that are too small and a fifth waiting end of frame are not covered by it; `PacketOrder.StaleAtOnce`, `PacketOrder.GivesUpAtFive` and `PacketManager.EveryRun` say what is known then.
- RingRuns.RunExact: packets are distinct; a packet overwritten by an equal one would not be missed.
- NetHost.Host.ProcessRequest: two requests of one peer for one frame do not run at the same time here; in the source both could find no entry and add one. Requests matching a frame numbered 255, which never end, are excluded by the precondition that `NetHost.WildcardEnds` shows to be exact. Framesets of 256 and more, which a request cannot carry, are not distinguished. The selected channels, quality and the callbacks are not modelled.
- SocketWrite.MaskAll: two vector entries that share memory would be masked twice; they are excluded.
- RecvVideo.PassExact: packets of a pass are distinct; so are those of a run in `RecvVideoRuns.NextPassExact`.
- WorkerQueue.WorkerQueue.QueueDiscard: a limit of zero empties the queue and then pops from it, so it is excluded by the precondition; `wait` and its condition variable are not modelled.
- QuicRecv.EveryRun: closing the stream is not modelled.
- QuicSend.EveryRun: writes succeed while the stream is open; `flush_send_queue_`, `discard_queued_sends_` and `reset` are not modelled.
- QuicSender.Sender.GetBuffer: blocking while all buffers are in use is the precondition.
- Muxer.KeepsInv: when an id is given out, remote framesets of 65536 and more, which the packed keys cannot hold, and 2^24 and more local framesets are excluded by `RoomFor`; the packed keys are written as sums, which equal the source's bit operations in this range, and stream numbers do not overflow.
- ClockInfo.ClockInfo.Init: samples from the peer's own requests do not come in between; times are unbounded integers.
- Base64.EncodeIndexed: inputs of 2^32 octets and more, for which the source's 32-bit index wraps, are not distinguished.
- PeerTable.EveryRun: the capacity is fixed; the table by peer id and the timing of handshakes are not modelled, and a peer's base address does not change while it is known.
- StringArena.PersistentStringBuffer.Add: the failed check that ends the process is the outcome `Aborted`; allocation does not fail.
- File streams, recording and playback.
- MsQuic, TLS, sockets of the operating system, URI parsing, msgpack encoding and random numbers.
- The dispatcher of remote calls, node wrappers, channel tables and the broadcaster, which would only add easy members.
- The job flags of the TCP peer (src/peer_tcp.cpp:365-420).
