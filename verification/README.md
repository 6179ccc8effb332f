# Verified models of goutils

Dafny models of the parts of this repository that are hard to get right, with proofs of what they
promise: gRPC over WebRTC data channels, the call queues behind its signaling service, the cached
dialer, the managed process, the artifact tree and cache, and the base64 polyfill of the
TypeScript client.

`dafny verify dfyconfig.toml` checks everything.

## How the models are built

* A protocol run by several goroutines is a state machine. A `Step` label carries every choice that
  is not the program's own: who moves next, what the network or the database does, which call
  fails. `Enabled` and `Do` give the atomic steps of the code, `Runs` a whole run, and the theorems
  hold for every run.
* A loop or an object that changes its fields is a method or a class, proved against a function of
  its inputs or of its old state; what the code promises is then proved about that function.
* History, such as which RecvOffer received an offer, is kept in the state only to state a property.
  No step tests it.
* Where a promise is false of the code, the code stays as it is: one lemma gives a run or an input
  that breaks the promise, and another says when it holds.

| files | part |
|---|---|
| `ChangeStreams`, `CallDocuments`, `CandidateForwarding`, `MongoExchange`, `CallerExchange` | the MongoDB call queue, both directions of an exchange over it |
| `MemoryQueue`, `Signaling` | the in-memory call queue, the signaling service over either queue |
| `Packets`, `FrameSize`, `MessageChannel`, `ServerFrames`, `ServerLimits` | streams over a data channel |
| `ManagedProcess`, `Dialer` | the process watchdog, the cached dialer |
| `ArtifactTree`, `UserWalk`, `ArtifactCache`, `TreeJson` | the artifact tree, its walk, its stores, its JSON form |
| `Base64` | the base64 polyfill |

## What turned out to be false, or true only under a condition

* An invalidated change stream wipes the recorded time, and an event can then pass the gate twice
  (`ChangeStreams.InvalidationReplays`). As long as none was harmful yet, an invalidation is harmless if
  and only if the stream was not behind the last event that passed and what the manager holds, options or
  a stream, does not start before it (`ChangeStreams.InvalidationHarmlessIffSafe`).
* Candidates that the call document holds when it is claimed are never sent to the answerer: it gets all
  of them if and only if the document held none (`CandidateForwarding.AnswererGetsAllIff`). A caller that
  waits for its Init, as the clients do, loses none (`CallerExchange.AnswererSeesPrefix`).
* A RecvOffer on the in-memory queue does not wait for offers to all of its hosts. It is in line for a
  host's later offers if and only if the host was unbound, or bound to the queue of the last of its hosts
  that was bound (`MemoryQueue.OfferMeetsRecvIff`, `MemoryQueue.HostBoundApart`).
* The Go and the TypeScript receivers disagree on an empty last packet after a non-empty buffer
  (`Packets.ReceiversAgree`); no sender produces that packet.
* A message comes back if and only if it is within `MaxMessageSize` (`Packets.RoundTripIffWithinLimit`). Of a
  larger one the packets up to the first that exceeds the limit are dropped and the rest is taken for a message
  of its own, so an end of it may arrive as a message (`Packets.ReceivedExactly`, `Packets.CutMessageArrives`).
* Data frames fit the channel's 65535 bytes if and only if the stream ID is below 2^35; the packet
  size was computed from a probe with one byte of data, whose length prefixes are shorter
  (`FrameSize.FramesFitIffSmallId`).
* Trailers leave a client stream closed with its message channel marked closed. A frame that is out of place is
  handled without the mutex, so the channel may be marked a moment later, by another thread that is closing
  (`ClientStream.EndingFramesClose`, `ClientStream.ProtocolErrorRunsAhead`).
* Headers that alone fail to be written, for instance because they do not encode, are not retried, and
  trailers or messages go out without them (`ServerFrames.FailedHeadersLoseOrder`). Without races the
  frames are in order if and only if the headers did not fail or nothing was written
  (`ServerFrames.SerialFramesInOrder`).
* A reset that races the handler can put the trailers first (`ServerFrames.ResetRaceReorders`). Whether the
  order can still be lost is settled when somebody wins `sendClosed`: with headers that did not fail, if and
  only if the winner is a reset, the stream is not closed, and the headers are not taken or the handler still
  has them or a message to write (`ServerFrames.OrderLostIffRacy`).
* A request rejected for lack of a ticket keeps its place in the wait group, so `Stop` never returns
  afterwards; nothing else keeps it from returning (`CallTickets.StopCanReturnIff`).
* `managingCh` can be closed twice if and only if more than one external Start of the managed process has
  succeeded (`ManagedProcess.ClosedOnceIffOneStart`).
* Stream IDs repeat after 2^64 streams, and not before (`ChannelStreams.StreamTable.NextStreamID`).
* A look-up that hits the dialer's cache takes its reference after the lock is released; if the last
  handle is closed in between, the reference panics (`Dialer.InterruptedLookupPanics`,
  `Dialer.PanicsIffReleased`).
* `WriteThroughUser` leaves a stale size in the tree when the hash was already there
  (`UserWalk.StaleSizeStays`, `UserWalk.FilesStored`).

## Model

| member | source | states |
|---|---|---|
| ChangeStreams.EventGate.ProcessClusterEventState | rpc/wrtc_call_queue_mongodb.go:526-550 | the recorded position after an event, and whether the event is new, are those of the gate function that the runs below use |
| ChangeStreams.PositionAt | rpc/wrtc_call_queue_mongodb.go:417-524 | a stream opened at a cluster time starts at the first event of that time or later |
| ChangeStreams.GateExactlyOnceInOrder | rpc/wrtc_call_queue_mongodb.go:417-721 | in every run whose invalidations are safe, with any number of broken and overlapping streams, events pass in strictly increasing cluster time, none twice, and none of this operator's is skipped after the baseline |
| ChangeStreams.CanCatchUp | rpc/wrtc_call_queue_mongodb.go:417-721 | from every state reached with safe invalidations only, whatever streams broke, a continuation exists in which every event of this operator since the baseline has passed |
| ChangeStreams.InvalidationHarmlessIffSafe | rpc/wrtc_call_queue_mongodb.go:526-580 | in every state reached with safe invalidations only, the next one is harmless, whatever follows it as long as later ones are safe, iff the stream was not behind and the manager holds nothing that starts before the last event that passed |
| ChangeStreams.OneStartOption | rpc/wrtc_call_queue_mongodb.go:447-459 | in every run, whatever is invalidated, at most one of resume token and cluster time is set, so opening a stream is never refused |
| ChangeStreams.InvalidationReplays | mongo/change_stream.go:92-171 | a run in which an invalidation makes one event pass twice |
| ChangeStreams.RunInv | rpc/wrtc_call_queue_mongodb.go:677-721 | every run with safe invalidations keeps the recorded position, every stream and what the manager holds in step with the last event that passed |
| CallClaims.ClaimedByAtMostOne | rpc/wrtc_call_queue_mongodb.go:1079-1134 | however find-and-claim and event-triggered claims of any number of operators race, a call is returned by at most one RecvOffer, and the document bears the claimer's operator ID |
| CallClaims.AnswererNeverChanges | rpc/wrtc_call_queue_mongodb.go:1171-1183 | an answerer operator ID, once written, is never changed by any later step |
| CallClaims.ReturnedCallIsDue | rpc/wrtc_call_queue_mongodb.go:1079-1134 | a call returned by a RecvOffer was, when claimed, unanswered and for one of its hosts, and if found by search had no caller error and was in the window |
| CallClaims.CanReturnIffDue | rpc/wrtc_call_queue_mongodb.go:599-625 | a waiting RecvOffer can return a call next, by search or from an event, iff that holds of the call |
| CandidateForwarding.ForwardsLongestList | rpc/wrtc_call_queue_mongodb.go:932-981 | snapshots of one push-only list, however repeated, stale or gapped, are forwarded as exactly the longest of them past the starting length |
| CandidateForwarding.CallerGetsLongestList | rpc/wrtc_call_queue_mongodb.go:912-982 | the caller gets exactly the longest list of answerer candidates among the events handled |
| CandidateForwarding.AnswersExactly | rpc/wrtc_call_queue_mongodb.go:932-981 | for all event lists, everything the forwarder sends: the candidates before the first handled event with an SDP, that SDP and no other, the candidates it and later ones add, and last the error that ended the handling, if one did |
| CandidateForwarding.AnswererGetsLongestList | rpc/wrtc_call_queue_mongodb.go:1241-1316 | the answerer gets exactly the longest list of caller candidates past what the claimed document held |
| CandidateForwarding.AnswererGetsAllIff | rpc/wrtc_call_queue_mongodb.go:1259-1287 | it gets every caller candidate handled iff the claimed document held none |
| CandidateForwarding.SendCandidates | rpc/wrtc_call_queue_mongodb.go:966-976 | sends the candidates past the counted ones, in order, or a prefix of them if cancelled |
| CandidateForwarding.ForwardEvent | rpc/wrtc_call_queue_mongodb.go:932-981 | one event: what the specification sends and the state it leaves |
| CandidateForwarding.ForwardAnswers | rpc/wrtc_call_queue_mongodb.go:927-982 | the goroutine delivers exactly the answers its events call for, or a prefix if cancelled |
| CandidateForwarding.SendCallerCandidates | rpc/wrtc_call_queue_mongodb.go:1241-1287 | sends the caller candidates past the counted ones, or a prefix of them if cancelled |
| CandidateForwarding.ForwardCallerCandidates | rpc/wrtc_call_queue_mongodb.go:1259-1316 | delivers exactly what its documents add to the claimed one, or a prefix if cancelled |
| Signaling.AnswererLoop | rpc/wrtc_signaling_server.go:416-468 | the queue is handed the answers to the answerer's messages, up to the first failing call |
| Signaling.AnswersToExactly | rpc/wrtc_signaling_server.go:416-468 | one answer for each message that fits its place, up to the first that does not, and then the error if that one reports one |
| Signaling.RelayAnswer | rpc/wrtc_signaling_server.go:206-242 | one receive of the Call loop sends what the specification says |
| Signaling.Call | rpc/wrtc_signaling_server.go:194-243 | the Call loop sends what its receives call for, up to the first failing send |
| Signaling.CallRelaysExactly | rpc/wrtc_signaling_server.go:194-243 | if the first receive brings the SDP, the Init and an update for every candidate before the first error; otherwise nothing |
| Signaling.ReceivePasses | rpc/wrtc_signaling_server.go:194-243 | a receive keeps one Init before all updates and passes a candidate on exactly once if the loop goes on |
| Signaling.HearOk | rpc/wrtc_signaling_server.go:416-468 | a message adds its candidate to those sent, and the Init is the first message |
| MemoryExchange.CallerSeesPrefix | rpc/wrtc_call_queue_memory.go:281-290 | over the memory queue, the caller's stream is at most one Init with the answerer's SDP, then updates that are a prefix of the candidates sent; while both loops run and nothing is on its way, all of them, and the Init iff one was sent |
| MongoExchange.CallerSeesPrefix | rpc/wrtc_call_queue_mongodb.go:912-982 | the same end to end over call documents and change events, with lost, stale and repeated events |
| MongoExchange.CallerHasInitIff | rpc/wrtc_call_queue_mongodb.go:932-981 | while Call runs with nothing on its way and the forwarder not cancelled, the caller has its Init iff the forwarder was given an event with an SDP, the first such SDP, and all candidates counted |
| MongoExchange.ForwarderStopsIff | rpc/wrtc_call_queue_mongodb.go:932-981 | the forwarder takes no event after one with an error or the done mark, and stops for no other reason unless cancelled |
| MongoExchange.DocumentRecordsAnswerer | rpc/wrtc_call_queue_mongodb.go:1412-1465 | the document has the last error written, is done iff AnswererDone was called, and while Answer runs has the SDP and all candidates the answerer sent |
| MongoExchange.ForwardExtends | rpc/wrtc_call_queue_mongodb.go:932-981 | an event makes the forwarder send exactly the candidates between the old and the new counted length |
| CallerExchange.AnswererSeesStretch | rpc/wrtc_call_queue_mongodb.go:1241-1316 | the other direction end to end: the answerer is sent one Init, updates, at most one error and one Done; the updates are a contiguous stretch of the candidates accepted from the caller, in order, from the claimed length on; if the loop ends because the caller is done, the stretch has all accepted before that |
| CallerExchange.AnswererSeesPrefix | rpc/wrtc_signaling_server.go:364-414 | if candidates are accepted only once the caller's stream has its Init, the updates are a prefix of them, and complete up to the caller's Done when the loop ends because of it |
| CallerExchange.AnswererIsTold | rpc/wrtc_call_queue_mongodb.go:1262-1309 | the answerer is sent at most one error: by a loop that saw the forwarder end and could send, exactly the error of the version looked at last, or that the offer expired |
| CallerExchange.DocumentRecordsCaller | rpc/wrtc_call_queue_mongodb.go:987-1034 | the document has the caller's candidates in the order accepted, that it is done iff it said so, and its last error before that |
| MemoryQueue.HostQueueTable.GetOrMakeHostsQueue | rpc/wrtc_call_queue_memory.go:305-328 | binds only unbound hosts and returns the queue of the specification |
| MemoryQueue.OfferReachesOneRecv | rpc/wrtc_call_queue_memory.go:128-227 | over all interleavings an offer reaches at most one RecvOffer |
| MemoryQueue.BindingsAndErrorsAreFinal | rpc/wrtc_call_queue_memory.go:64-75 | a host's queue never changes, and once CallerDone is signalled CallerErr is fixed |
| MemoryQueue.OfferEndsAsSent | rpc/wrtc_call_queue_memory.go:171-210 | over all interleavings an offer's error is the last one sent for it, CallerDone is signalled iff it was done or failed, and it is listed iff no error ended it and no sweep came after its deadline |
| MemoryQueue.EndAcceptedIff | rpc/wrtc_call_queue_memory.go:171-210 | done and errors are accepted for an offer iff they name a host of its queue, the queue is not locked and still lists it; an error has an effect iff the offer is not done |
| MemoryQueue.OfferMeetsRecvIff | rpc/wrtc_call_queue_memory.go:305-328 | whatever happens in between, a later offer to one of a waiting RecvOffer's hosts can be received by it iff that host was unbound, or bound to the queue of its last bound host, when the RecvOffer began; always so for its last host |
| MemoryQueue.HostBoundApart | rpc/wrtc_call_queue_memory.go:305-328 | a run after which a RecvOffer for two hosts is not in line for the first |
| Packets.SendMsg | rpc/wrtc_server_stream.go:194-219 | the packets of a message: full ones, then one that alone is marked last |
| Packets.SplitMeans | rpc/wrtc_server_stream.go:194-219 | the packets are together the message, all full but the last, which alone is marked |
| Packets.WriteMessageGo | rpc/wrtc_client_stream.go:239-280 | the frames of an optional message, with the end-of-stream mark, for nil, empty and non-empty messages |
| Packets.WriteMessageTs | rpc/js/src/ClientStream.ts:82-111 | the same frames as the Go client's |
| Packets.FramesMean | rpc/wrtc_client_stream.go:239-280 | one frame per packet; each says whether there is a message and bears the end-of-stream mark |
| Packets.GoReceiver.ProcessMessage | rpc/wrtc_base_stream.go:174-191 | the buffer and the message of the Go specification |
| Packets.TsReceiver.ProcessPacketMessage | rpc/js/src/BaseStream.ts:37-62 | the buffers, joined, and the message of the TypeScript specification |
| Packets.TsReceiver.Join | rpc/js/src/BaseStream.ts:49-56 | the copy loop yields the concatenation of the buffers |
| Packets.ReceiversAgree | rpc/js/src/BaseStream.ts:37-62 | the receivers agree on a packet iff it is not an empty last packet over a non-empty buffer |
| Packets.ReceiveSplit | rpc/wrtc_base_stream.go:174-191 | the packets of a message within the limit give exactly that message and an empty buffer, for either receiver |
| Packets.ResponsesRoundTrip | rpc/wrtc_server_stream.go:194-219 | any list of messages within the limit, any packet size: received exactly, buffer empty, by either receiver |
| Packets.RoundTripIffWithinLimit | rpc/wrtc_base_stream.go:178-182 | a message is received as sent iff it is within the limit |
| Packets.ReceivedExactly | rpc/wrtc_base_stream.go:174-191 | what either receiver makes of a message of any size: the message, an end of it after the packets dropped for exceeding the limit, or nothing; the buffer is empty afterwards |
| Packets.CutMessageArrives | rpc/wrtc_base_stream.go:178-182 | a message over the limit by a packet and a byte arrives as its last byte |
| Packets.RequestsRoundTrip | rpc/wrtc_server_stream.go:316-350 | any list of optional messages is delivered exactly, with end-of-stream seen iff the last write carried it |
| Packets.ServerGetsWrite | rpc/wrtc_server_stream.go:316-350 | one write delivers its message, if it has one, and its end-of-stream mark |
| Packets.EndOnlyAfterLastPacket | rpc/wrtc_server_stream.go:316-350 | end-of-stream takes effect only with the last packet of the message that carries it |
| Packets.NothingAfterEnd | rpc/wrtc_server_stream.go:316-350 | after the end of the stream no frame has any effect |
| FrameSize.VarintWidth | rpc/wrtc_client_stream.go:190-211 | a varint has at most k bytes iff its value is below 128 to the power k |
| FrameSize.Overheads | rpc/wrtc_client_stream.go:190-211 | the probes have 26 and 22 bytes, so packets carry 65509 and 65513 bytes of data |
| FrameSize.RequestFrameSize | rpc/wrtc_client_stream.go:239-280 | the exact length of a request frame's encoding |
| FrameSize.ResponseFrameSize | rpc/wrtc_server_stream.go:194-219 | the exact length of a response frame's encoding |
| FrameSize.RequestReadBack | proto/rpc/webrtc/v1/grpc.proto:26-48 | a request's data frame, read by the rules of the wire format, gives back its stream ID and message |
| FrameSize.ResponseReadBack | proto/rpc/webrtc/v1/grpc.proto:54-72 | and so does a response's |
| FrameSize.RequestFramesFit | rpc/wrtc_client_stream.go:188-211 | every request frame is at most 65540 bytes, and at most 65535 for IDs below 2^35 |
| FrameSize.ResponseFramesFit | rpc/wrtc_server_stream.go:131-152 | every response frame is at most 65540 bytes, and at most 65535 for IDs below 2^35 |
| FrameSize.FramesFitIffSmallId | rpc/wrtc_client_stream.go:188-211 | all request frames, and all response frames, of a stream fit the channel iff its ID is below 2^35 |
| MessageChannel.ChannelIsSafe | rpc/wrtc_base_stream.go:128-172 | over all interleavings of lock, flag, wait-group and channel operations, nothing is sent on a closed channel, it is closed at most once, onDone runs at most once, and messages queued while the context is live are a prefix of those dispatched, and all of them when the dispatch thread is idle and the channel open; what is received is what was queued, in order |
| MessageChannel.ClosedIsComplete | rpc/wrtc_base_stream.go:134-172 | when nobody is closing, a stream is closed iff onDone has run, its channel is marked iff it is closed, and a closed stream has both, and its context done |
| ClientStream.MessagesBetweenHeadersAndTrailers | rpc/wrtc_client_stream.go:283-360 | a client's messages are a prefix of what the frames after the headers and before the trailers reassemble to, and all of it while the dispatch thread is idle and the channel open |
| ClientStream.EndingFramesClose | rpc/wrtc_client_stream.go:283-360 | with the dispatch thread idle, after trailers the stream is closed and its channel marked; after a frame out of place it is closed, and its channel marked unless another thread is about to; after no other frame does the dispatch thread close |
| ClientStream.ProtocolErrorRunsAhead | rpc/wrtc_client_stream.go:283-314 | a run in which the channel is not marked yet when a protocol error has been handled |
| ServerFrames.OneHeadersOneTrailers | rpc/wrtc_server_stream.go:354-405 | in every run at most one Headers and one Trailers frame is written |
| ServerFrames.FailedSendCloses | rpc/wrtc_server_stream.go:168-221 | in every run, with no operation under way, a stream whose sending side closed, or on which a write of SendMsg failed, is closed |
| ServerFrames.SendMsgAlone | rpc/wrtc_server_stream.go:168-221 | SendMsg on its own writes the headers if nobody took them, and a message frame for each packet |
| ServerFrames.CloseAlone | rpc/wrtc_server_stream.go:354-405 | closing on its own writes the headers if nobody took them and the trailers, and leaves the stream and its sending side closed |
| ServerFrames.SerialFramesInOrder | rpc/wrtc_server_stream.go:168-221 | while no two operations overlap, whatever writes fail, the frames are a prefix of Headers Message* Trailers iff the headers did not fail or nothing was written |
| ServerFrames.FailedHeadersLoseOrder | rpc/wrtc_server_stream.go:394-405 | a run without races in which only the headers fail, and Trailers alone are written |
| ServerFrames.ResetRaceReorders | rpc/wrtc_server_stream.go:354-405 | a run with a racing reset in which Trailers come before Headers |
| ServerFrames.InOrderUntilClosed | rpc/wrtc_server_stream.go:354-360 | whatever resets begin, until somebody wins sendClosed the frames are in order iff the headers did not fail or nothing was written |
| ServerFrames.OrderLostIffRacy | rpc/wrtc_server_stream.go:354-405 | in any run of the handler, one operation at a time, and any number of resets: once somebody wins sendClosed, the order can be lost, by anything that begins, races or fails later, iff the winner is a reset that will send trailers and the headers are not taken or the handler still has them or a message to write; after failed headers, iff something was written, or the winner or the handler has something left to write |
| CallTickets.TicketsConserved | rpc/wrtc_server_stream.go:280-313 | tickets never exceed the capacity; between steps they equal the running handlers, and the wait group counts running handlers plus rejected requests |
| CallTickets.RejectedIffFull | rpc/wrtc_server_stream.go:280-313 | a request is rejected iff as many handlers as there are tickets have not returned theirs, and runs otherwise |
| CallTickets.CanRunIffAdmitted | rpc/wrtc_server_stream.go:280-313 | a request can come to run iff there are tickets and it passed, or will pass, the test of the context |
| CallTickets.WaitReturnsIff | rpc/wrtc_server.go:92-110 | the wait returns iff Stop holds its lock and no request is admitted, running or rejected |
| CallTickets.RejectionBlocksStop | rpc/wrtc_server.go:92-110 | after a rejection, or with a request that no ticket is left for, the wait group is above zero in every later state |
| CallTickets.StopCanReturnIff | rpc/wrtc_server.go:92-110 | Stop can still return iff no request was rejected and none is bound to be |
| ChannelStreams.StreamTable.StreamForRequest | rpc/wrtc_server_channel.go:106-140 | an existing stream, or a new one on headers while there is room; the table never exceeds the limit |
| ChannelStreams.StreamTable.NewStream | rpc/wrtc_client_channel.go:257-281 | the stream under the ID, a new one if there is none, and none if the table is full |
| ChannelStreams.StreamTable.NextStreamID | rpc/wrtc_client_channel.go:245-249 | an ID never returned before iff this is one of the first 2^64 calls; before the wrap-around, the number of the call |
| ChannelStreams.StreamTable.NewClientStream | rpc/wrtc_client_channel.go:218-229 | for the first 2^64 streams always a stream of its own while there is room; for the first 2^35 - 1 all its request frames fit the channel |
| ChannelStreams.StreamTable.RemoveStreamByID | rpc/wrtc_client_channel.go:251-255 | exactly that stream is gone |
| ManagedProcess.LifecycleIsSafe | pexec/managed_process.go:238-365 | with one external Start and any number of Stops, each channel is closed at most once, at most one child is un-waited, and none is spawned after killCh closes |
| ManagedProcess.StopWaitsForLastChild | pexec/managed_process.go:367-421 | a Stop past managingCh returns only after the last child was waited on, and no child follows |
| ManagedProcess.RestartedUnlessGivenUp | pexec/managed_process.go:318-364 | in every run, while killCh is open managingCh is closed only after onUnexpectedExit said no or a restart failed |
| ManagedProcess.StopIsExpected | pexec/managed_process.go:318-330 | an exit noticed after killCh was closed is never taken for unexpected |
| ManagedProcess.StopReturnsEarlyOnlyIf | pexec/managed_process.go:367-395 | a Stop returns without having waited only if there is no child and never will be, another Stop came first, or killing failed |
| ManagedProcess.ClosedOnceIffOneStart | pexec/managed_process.go:138-229 | from every reachable state, no continuation without another external Start closes managingCh twice iff at most one has succeeded; in every run killCh is closed at most once and no child is spawned after that |
| ManagedProcess.TwoStartsCloseTwice | pexec/managed_process.go:138-229 | a run with two external Starts that closes managingCh twice and never waits on the first child |
| RefCount.RefCountedValue.constructor | ref.go:27-29 | the count starts at zero and is not released |
| RefCount.RefCountedValue.Ref | ref.go:31-39 | one more reference, or a panic exactly on a released value |
| RefCount.RefCountedValue.Deref | ref.go:41-53 | one reference less, released at zero, a panic exactly when there is none |
| Dialer.ConnectionsCounted | rpc/dialer.go:115-153 | in every run a connection is closed at most once and never under an open handle; its count is its number of open handles; no key has two connections in use; when dials and closes are over, each dialed connection is cached and in use or closed exactly once |
| Dialer.DialsGetTheirKey | rpc/dialer.go:115-153 | a dial that returned got a handle on a connection for the key it asked for, unless its own dial or the close of a late connection failed |
| Dialer.PanicsIffReleased | rpc/dialer.go:124-129 | a step panics iff it references a connection whose last handle was dereferenced |
| Dialer.NoPanicUnlessInterrupted | rpc/dialer.go:187-218 | no run panics in which look-up hits and handle closes are not interrupted, with dials interleaved freely |
| Dialer.InterruptedLookupPanics | rpc/dialer.go:123-129 | a run that panics because the last close comes between a look-up and its reference |
| ArtifactTree.Config.Lookup | artifact/tree.go:29-42 | finds a node iff the path leads to one, and the node it leads to, on the heap of nested maps |
| ArtifactTree.Config.StoreHash | artifact/tree.go:46-66 | a leaf at the path, directories above it, nothing below it, and every unrelated path as before; every directory keeps its own map object |
| ArtifactTree.Config.RemovePath | artifact/tree.go:69-81 | exactly the path and everything below it is gone |
| ArtifactTree.Config.Enter | artifact/cache.go:352-358 | the directory at a name, made in place of a leaf or of nothing |
| TreeView.StoredBelow | artifact/tree.go:54-65 | storing through a directory just made is the same as storing from the start |
| UserWalk.WalkFrame | artifact/cache.go:328-394 | the walk changes nothing that is not at or below a name of the directory |
| UserWalk.WalkSyncs | artifact/cache.go:328-412 | after a walk that writes, the tree has every file that is not ignored and every directory |
| UserWalk.FilesStored | artifact/cache.go:328-412 | every such file's path leads to its hash; the size is the file's length iff the tree did not hold that hash there with another size |
| UserWalk.VisitsExactly | artifact/cache.go:363-434 | a path and data are visited iff the directory has that file there, it is not ignored and the tree lacks its hash there; marked modified iff the tree had something there; no path twice |
| UserWalk.StaleSizeStays | artifact/cache.go:379-381 | a tree and a file for which the stale size stays |
| UserWalk.StatusAfterWriteThrough | artifact/cache.go:413-434 | Status right after WriteThroughUser reports nothing and changes nothing |
| UserWalk.OthersKept | artifact/cache.go:328-394 | paths under other names lead where they did |
| ArtifactCache.CachedStore.Store | artifact/cache.go:169-180 | source first, then cache; keeps the cache within the source; on success both hold the data |
| ArtifactCache.CachedStore.Load | artifact/cache.go:158-167 | whatever is loaded is what the source holds; without failures it is found iff the source holds it, and what is cached needs no source |
| ArtifactCache.CachedStore.StoreAt | artifact/cache.go:402-411 | data in both stores, then its hash at its path |
| ArtifactCache.CachedStore.VisitData | artifact/cache.go:363-392 | one file visited as specified; visited data is in both stores |
| ArtifactCache.CachedStore.VisitFolder | artifact/cache.go:352-362 | a directory is entered, or made, in the tree and walked as specified |
| ArtifactCache.CachedStore.WalkTree | artifact/cache.go:328-394 | the loop over shared, changing maps does what the walk function says and keeps every map in place |
| ArtifactCache.CachedStore.WriteThroughUser | artifact/cache.go:216-224 | on success the tree is in step with the directory, and exactly the files the tree did not have were visited and are in both stores |
| ArtifactCache.CachedStore.Status | artifact/cache.go:413-434 | reports exactly the files, not ignored, whose hash the tree does not have at their path, each once and as modified iff the tree had something there; the stores stay as they are |
| ArtifactCache.CachedStore.EmplaceFile | artifact/file.go:66-128 | on success the file at the path has the hash; a file that has it already is left alone; no other file is touched |
| ArtifactCache.CachedStore.EnsureLeaf | artifact/cache.go:258-287 | the leaf is placed, or passed over, with files and cache as they were, exactly when it is too large and not cached; the cache stays within the source |
| ArtifactCache.CachedStore.EnsureNode | artifact/cache.go:241-288 | on success every leaf below has a file with its hash, save those too large; nothing else is touched; with every leaf cached, no source is needed |
| ArtifactCache.CachedStore.Ensure | artifact/cache.go:186-194 | the same for the node a path leads to, and failure for a path that leads nowhere |
| TreeJson.Marshal | artifact/tree.go:97-102 | writes a form of the node |
| TreeJson.RoundTrip | artifact/tree.go:83-102 | reading any written form of a node gives the node, with empty nodes, zero sizes and children named size or hash in any case |
| TreeJson.TreeRoundTrip | artifact/tree.go:83-102 | the same for a whole tree, none of whose forms can be taken for an external node |
| TreeJson.Unambiguous | artifact/tree.go:83-102 | no two nodes have a form in common |
| TreeJson.ReadExactly | artifact/tree.go:83-94 | any object reads as an external node iff its last size is an int and every other null or an int, with the last hash and size that are not null; otherwise as an internal node |
| TreeJson.KidsMean | artifact/tree.go:83-94 | a map of nodes reads iff every member does, and the last member of a name counts |
| TreeJson.NamesByFolding | artifact/tree.go:83-94 | a member names a field iff it does so after case folding |
| Base64.Btoa | rpc/js/src/polyfills.ts:4-26 | the encoding of section 4 of RFC 4648, or an error iff a character is above 0xff |
| Base64.TableLookedUp | rpc/js/src/polyfills.ts:1-2 | the table is the literal of Table 1 of RFC 4648 with the padding; a character's place in it is found, and -1 iff it has none |
| Base64.DigitsFromTable | rpc/js/src/polyfills.ts:1-26 | the four characters of three octets are those at the places that are the base-64 digits of their 24-bit number |
| Base64.TestVectors | rpc/js/src/polyfills.ts:4-26 | the test vectors of section 10 of RFC 4648 |
| Base64.DigitsNumber | rpc/js/src/polyfills.ts:1-2 | the four characters of three octets, read as digits to the base 64, are the number of 24 bits the octets make up |
| Base64.Atob | rpc/js/src/polyfills.ts:28-47 | the octets of the digits left after dropping the padding, or an error iff the length left is 1 modulo 4 |
| Base64.ShiftedIn | rpc/js/src/polyfills.ts:20-20 | after a 32-bit shift the low sixteen bits are the last two octets |
| Base64.OctetsSnoc | rpc/js/src/polyfills.ts:37-42 | one digit more completes at most one octet, taken from the number so far |
| Base64.DecodeEncode | rpc/js/src/polyfills.ts:4-47 | atob undoes btoa for every Latin-1 string |
| Base64.EncodeDecodeIffCanonical | rpc/js/src/polyfills.ts:4-47 | btoa undoes atob on exactly the canonical texts |

## Left out

- Authentication, TLS, mDNS, HTTP servers, gateways, interceptors, secrets and web sessions.
- The MongoDB driver, host queue size checks, expiry of documents, heartbeats and the shortcut for calls already tracked; a document changes by atomic conditional updates, and a change stream is an ordered log whose events have distinct, increasing cluster times.
- The caller's candidates over the in-memory queue: one unbuffered channel from SendOfferUpdate to the caller loop.
- ICE, DTLS, SCTP and renegotiation; a data channel is reliable and ordered, its messages are dispatched one at a time, and each write may fail on its own.
- Liveness: every result is about safety, none says that something happens eventually.
- ManagedProcess.LifecycleIsSafe: one external Start, as two break it; one-shot processes, signals, log pipes and panics are not modelled.
- Dialer.ConnectionsCounted: Close of the dialer itself, which closes cached connections under their handles, is not a step.
- ArtifactCache.CachedStore.Store: asks that data is stored under its own hash and that stored hashes do not collide; without that a cache entry can differ from the source's. A nil source store is not modelled.
- ArtifactCache.CachedStore.Ensure: takes the path already split, the slash standing for the empty path; links, permissions and temporary file names are not modelled, and a failed step is an arbitrary choice.
- ArtifactCache.CachedStore.EmplaceFile: local files are a flat map, so a file can stand beside files below its path. That the code fails where a directory is in the way (artifact/file.go:71-75) is not captured, here or where EnsureLeaf, EnsureNode and Ensure promise success.
- ArtifactTree.Config.StoreHash: the root map is never nil.
- cleanTree, which deletes local files that the tree does not name, and Remove's trimming of path prefixes: no other operation relies on either.
- The FNV hash is any function of the data.
- Protobuf beyond the fields of data frames; gRPC status codes and the contents of metadata.
- JSON text: the tree's form is a JSON value with its members in any order.
- Error texts, and flag.go, protoutils and the other small utilities.
