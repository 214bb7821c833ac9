# A verified model of miniTCP

miniTCP is a user-space TCP/IP stack: a TCP transport over a RIP-like distance-vector
network layer over raw Ethernet frames. This project models its transport engine, its
routing and two arithmetic kernels in Dafny 4.11 and proves what they guarantee.
`dafny verify dfyconfig.toml` checks everything.

## What is modelled

**Values and objects.** Code that updates fields, buffers and lists in place is a class
whose methods have the same loops and branches, and each method is proved equal to a
function on plain values; the theorems are about those functions.

| code | object | functions | theorems |
|---|---|---|---|
| `Socket` | `socket.dfy`, over `intrusive_list.dfy`, `segment_queues.dfy`, `ring_buffer.dfy`, `reno_manager.dfy` | `endpoints.dfy` | `endpoint_*.dfy`, `protocol*.dfy` |
| `TCPReno` | `reno_manager.dfy` | `reno.dfy` | `reno.dfy` |
| kernel maps, accept queue | `tcp_kernel.dfy` | `kernel.dfy` | `kernel_*.dfy`, `hosts.dfy` |
| `RoutingTable`, `routing.cc` | `routing_table_object.dfy`, `router.dfy` | `routing_table.dfy` | `routing_*.dfy`, `distance_vector*.dfy` |
| `ip.cc` | methods of `checksum.dfy`, `ip.dfy` | the same files | the same files, `forwarding.dfy` |

**The connection.** An endpoint carries four histories beside the fields of its socket:
every packet handed to the IP layer, the stream of symbols (SYN, FIN or a byte) given
sequence numbers, the bytes accepted by `Write` and the bytes returned by `Read`. Both
initial sequence numbers are 0 in the source, so a position in the stream is a sequence
number. The network is the set of packets ever sent: a step may deliver any of them, at any
time, any number of times, or never. Each locked section is one step, and a call that waits
is split at its wait.

**The joint invariant** (`Protocol.Joint`) says of each direction that
`unackBase <= peer.recvSeq <= SentUpto <= |stream|`, that the retransmit queue followed by
the send queue tiles the unacknowledged stream, that credit and window accounting balance,
that no packet on the wire misreports the stream or acknowledges more than was received,
and that what the receiver delivered or still holds is exactly the data below its
`recv_seq_num_`. Stream safety, no loss, accounting and close safety are read off it.

**Two receptions break it**, and the model keeps them as the code has them. A bare SYN in
SYN-SENT withdraws one sequence number, which is sound exactly when the SYN is alone and
unacknowledged (`SimultaneousOpenExact`); in the run `EagerWriterLosesByte` the number
belongs to a byte already written, and the peer never misses it. A SYN+ACK in SYN-RECEIVED
that moves `recv_seq_num_` backwards is the other; `LateSynAckUncounts` is a run that meets
it, after nothing else went wrong, and loses conservation. `EndpointReceive.Hazard` is the
guard for both and a *safe* run is one without them. That is exact: a run keeps the joint
invariant throughout if and only if it is safe (`SafeRunsExactly`). Every run of a client
against a listener is safe (`PassiveRunsAreSafe`). A run of any two endpoints whose
applications wait for `connect` before writing or closing is safe if and only if no bare
SYN arrives late, after a handshake acknowledgement the IP layer refused
(`DisciplinedSafeExactly`, `UnrefusedRunsAreSafe`; `LateSynOvercounts` is a run in which one
does).

**What a good run achieves.** Safety is also kept by a program that does nothing, so
`protocol_session.dfy` shows the other half: whatever two applications have to say and
whichever closes first, there is a run from fresh sockets that delivers all of it and ends
with both closed (`SessionsComplete`). If both close at once, none does: the code has no
CLOSING state, and one of the two calls of `Close` never returns (`SimultaneousCloseHangs`). `endpoint_opening.dfy` and `endpoint_closing.dfy` say
what each packet and call does in the states around it.

**The handshake** puts the client first with one exception, which is the code's: a client
whose acknowledgement was refused and which then closes lets the child through with its FIN
(`PatientClientIsFirst`, `CloseReversesExactly`).

**Whole hosts.** `hosts.dfy` puts two kernels with any number of sockets on one network and
proves that what happens to any one connection is a run of the two-endpoint model, so each
connection a client opens to a listener has these guarantees
(`EveryConnectionIsSafe`, `EveryConnectionClosesSafely`).

**Routing.** A table is its sequence of entries. `distance_vector.dfy` lets many tables
exchange vectors over a static topology with loss, delay, duplication and reordering;
`distance_vector_convergence.dfy` runs loss-free synchronous rounds, and `forwarding.dfy`
sends packets over the tables they lead to. `distance_vector_stability.dfy` starts from any
tables at all, as after a change of the topology, and proves that every infinite execution
of such rounds comes to the exact routes (`Reconverges`): the routes of each distance stop
changing, shortest first, and what no longer changes is right. No bound on the number of
rounds is given, because garbage hides better routes for as long as the order of the vectors
keeps reviving it. `routing_slots.dfy` is the table as one destination sees it.

**Where the code decides.** Three paths of the congestion manager end without a return; the
Boolean they yield is an input, and everything holds for either value. `RetransmitFront`
applies `container_of` to the list sentinel; the model resends the first queued segment,
which is what it is evidently for. `queryRoutingTable` has no return either; the model uses
`RoutingTable::Query`. Where the repository's own README and code differ the model follows
the code: CLOSE-WAIT is left in the same locked step that enters it, a duplicate FIN does
not restart the TIME-WAIT timer, the backlog counts established connections only
(`BacklogIgnoresHalfOpen`; `BacklogBoundedExactly` says when that makes no difference), and
a packet that arrives with a time to live of zero is
forwarded with 255 (`ForwardKeeps`).

Every theorem about a connection assumes it uses fewer than 2^32 sequence numbers
(`EndpointActions.Room`); the source compares them as plain integers.

## Model

| member | source | states |
|---|---|---|
| `Hosts.EveryConnectionIsSafe` | src/transport/tcp_kernel.cc:269-298 | For two hosts with any number of connections over a network that loses, duplicates and reorders, and whatever arrives for the other connections: every connection a client opens to a listener delivers a prefix of what was written in both directions, loses nothing, keeps its queues tiled and its accounts balanced, and agrees about its handshake; the client is first unless it closes hastily |
| `Hosts.EveryConnectionClosesSafely` | src/transport/socket_impl.cc:332-343 | Of every such connection: an end that leaves FIN-WAIT-1, or LAST-ACK for CLOSED, has nothing queued and the other end has accepted every byte and FIN |
| `Hosts.HostsProject` | src/transport/tcp_kernel.cc:118-139 | What any interleaving of the events of two hosts is to one connection is a run of the two-endpoint model, with the same end states |
| `Hosts.OneMove` | src/transport/tcp_kernel.cc:269-298 | An event of a host is at most one step of a connection, and one the two-endpoint model permits; only packets of that connection need be genuine |
| `ProtocolTheorems.StreamSafety` | src/transport/socket_impl.cc:293-319 | In every safe run, bytes read plus bytes in the ring are exactly the data of the peer's stream below `recv_seq_num_`, a prefix of what the peer wrote |
| `ProtocolTheorems.NothingLost` | src/transport/socket_impl.cc:62-94 | In every safe run no acknowledgement sent exceeds the sender's `recv_seq_num_`, and what was written equals what was delivered, is in the ring, or is in the unaccepted part of the queues, in order |
| `ProtocolTheorems.TilingInEveryRun` | src/transport/socket_impl.cc:16-108 | In every safe run the retransmit queue followed by the send queue covers `[send_unack_base_, send_seq_num_)` without gap or overlap |
| `ProtocolTheorems.QueueTiling` | src/transport/socket_impl.cc:194-227 | Under the invariant the two queues end to end are the symbols of the stream from the base on |
| `ProtocolTheorems.Accounting` | src/transport/socket_impl.cc:16-60 | In every safe run bytes in flight equal, modulo 2^64, unacknowledged payload less acknowledged SYN/FIN; credit plus queued payload is 8192 plus that count; a non-empty send queue has a head that fails the window test |
| `ProtocolTheorems.CloseSafety` | src/transport/socket_impl.cc:332-343 | Leaving FIN-WAIT-1, or LAST-ACK for CLOSED, both queues are empty and the peer has accepted every byte and FIN ever queued |
| `ProtocolTheorems.ClosingNeedsFullAck` | src/transport/socket_impl.cc:321-344 | Only an acknowledgement of everything numbered, received from the peer, makes those two moves |
| `ProtocolTheorems.LinkConserves` | src/transport/socket_impl.cc:229-237 | The joint invariant of one direction implies conservation of the written bytes |
| `ProtocolRun.StepKeepsJoint` | src/transport/socket_impl.cc:381-476 | Every enabled step of either endpoint that is not a hazard keeps the joint invariant of the pair |
| `ProtocolRun.RunKeepsJoint` | src/transport/socket_impl.cc:381-597 | Every state of every safe run from fresh sockets satisfies the joint invariant |
| `ProtocolRun.ReceiveSound` | src/transport/socket_impl.cc:381-476 | A genuine packet keeps one endpoint's invariant and life-cycle facts, whatever state it is in |
| `ProtocolRun.ReceiveLinks` | src/transport/socket_impl.cc:293-344 | What a genuine packet does to a receiver keeps both directions linked |
| `ProtocolRun.RunGoesForward` | src/transport/socket_impl.cc:346-597 | Over any run, safe or not, each side passes through its states in one order and never rests in CLOSE-WAIT or CLOSING |
| `ProtocolRun.NoStateTwice` | src/transport/socket_impl.cc:346-597 | Over any run, safe or not, a state other than CLOSED that has been left is never entered again |
| `ProtocolSession.SessionsComplete` | src/transport/socket_impl.cc:194-597 | For any dialogue between two applications, and whichever closes first: a run from two fresh sockets, one of them listening, in which each reads exactly what the other wrote and both end in CLOSED with empty queues |
| `ProtocolSession.Transfer` | src/transport/socket_impl.cc:293-344 | From a calm connection a write, its delivery, its acknowledgement and a read leave a calm connection with all bytes delivered |
| `ProtocolSession.WindUp` | src/transport/socket_impl.cc:321-379 | From a calm connection `Close` takes one end through FIN-WAIT-1, FIN-WAIT-2 and TIME-WAIT and the other through LAST-ACK to CLOSED, everything accepted and acknowledged |
| `ProtocolSession.QuietSends` | src/transport/socket_impl.cc:21-47 | With nothing queued the next segment always passes the window test, whatever the wrapped count of bytes in flight |
| `ProtocolHang.SimultaneousCloseHangs` | src/transport/socket_impl.cc:346-363 | If both ends of a calm connection close, then in every run in which the applications only read and wait, at every point one of the two `Close` calls has not returned: the state CLOSING of section 3.3.2 of RFC 9293 is missing |
| `EndpointClosing.CloseNumbersFin` | src/transport/socket_impl.cc:578-594 | `Close` numbers exactly one FIN, sent at once exactly if the window test lets it, and takes ESTABLISHED to FIN-WAIT-1; in CLOSED and LISTEN it changes nothing |
| `EndpointClosing.FinMovesOn` | src/transport/socket_impl.cc:346-379 | A FIN not yet counted takes an end to TIME-WAIT exactly if its own FIN is acknowledged, and to LAST-ACK with one FIN more exactly if it had not closed |
| `EndpointOpening.SynSentOutcome` | src/transport/socket_impl.cc:400-417 | In SYN-SENT: no SYN, nothing; a SYN+ACK of everything establishes if its acknowledgement can be sent; one of anything else draws a reset; a bare SYN opens simultaneously |
| `EndpointOpening.ListenOutcome` | src/transport/socket_impl.cc:240-271 | A listener answers exactly a bare SYN, with a child and its SYN+ACK, and only while its backlog has room |
| `EndpointOpening.DataOutcome` | src/transport/socket_impl.cc:293-319 | In every synchronized state exactly the next segment in order that fits the ring is counted and kept, and a segment at or beyond it is answered with the number reached |
| `EndpointOpening.SynReceivedOutcome` | src/transport/socket_impl.cc:419-440 | In SYN-RECEIVED exactly an acknowledgement of everything numbered establishes the connection; data that comes with it is taken; a SYN+ACK counts the SYN again |
| `EndpointOpening.SynOutcome` | src/transport/socket_impl.cc:451-473 | A SYN is ignored in every synchronized state but FIN-WAIT-2, which counts it |
| `ProtocolOpening.PassiveRunsAreSafe` | src/transport/socket_impl.cc:240-272 | Every run of a client against a listener is safe: no hazard is ever enabled |
| `ProtocolOpening.PassiveHasNoHazard` | src/transport/socket_impl.cc:400-417 | With SYNs and SYN+ACKs as a client and a child send them, no packet withdraws or rewinds |
| `ProtocolOpening.ActAdds` | src/transport/socket_impl.cc:16-237 | Which flags and acknowledgement numbers a step can put on the wire or queue |
| `ProtocolOpening.OpeningStates` | src/transport/socket_impl.cc:400-448 | SYN-RECEIVED is entered only from LISTEN or by a bare SYN in SYN-SENT; only `Connect` leaves CLOSED |
| `ProtocolOpening.PacketStates` | src/transport/socket_impl.cc:419-437 | A socket leaves SYN-RECEIVED exactly on an acknowledgement of everything it numbered |
| `ProtocolSimultaneous.DisciplinedSafeExactly` | src/transport/socket_impl.cc:400-417 | A run in which the applications wait for `connect` before writing or closing, whichever sides connect, is safe if and only if no bare SYN reaches an end still in SYN-SENT whose own SYN is acknowledged |
| `ProtocolSimultaneous.UnrefusedRunsAreSafe` | src/transport/socket_impl.cc:284-290 | That does not happen, and every such run is safe, when the IP layer refuses no handshake acknowledgement |
| `ProtocolSimultaneous.HandshakeStep` | src/transport/socket_impl.cc:400-448 | A disciplined step keeps what both ends of a handshake, simultaneous open included, have numbered at exactly their SYNs |
| `ProtocolHandshake.HandshakeAgreement` | src/transport/socket_impl.cc:275-291 | Each side past its handshake has counted the peer's SYN and had its own acknowledged; when the child is past it, so is the client, provided it did not close in SYN-SENT after its acknowledgement was refused |
| `ProtocolHandshake.PatientClientIsFirst` | src/transport/socket_impl.cc:400-410 | Unless the client closes in SYN-SENT after its handshake acknowledgement was refused, the child is past its handshake only after the client |
| `ProtocolHandshake.CloseReversesExactly` | src/transport/socket_impl.cc:365-379 | A close lets the child be first if and only if the acknowledgement was refused, the child waits with only its SYN numbered, and the FIN passes the window test at once |
| `ProtocolExact.SafeRunsExactly` | src/transport/socket_impl.cc:381-476 | A run from fresh sockets keeps the joint invariant throughout if and only if it meets neither hazard |
| `ProtocolExact.StepExact` | src/transport/socket_impl.cc:381-476 | An enabled step keeps the joint invariant if and only if it is not a hazard |
| `ProtocolExact.RewindBreaks` | src/transport/socket_impl.cc:433-437 | A SYN+ACK that moves `recv_seq_num_` back makes an acknowledgement already sent untrue |
| `ProtocolExact.ReceiveTold` | src/transport/socket_impl.cc:293-319 | A packet moves `recv_seq_num_` only to 0 or 1, or with an acknowledgement of the new value on the wire |
| `ProtocolLimits.EagerWriterLosesByte` | src/transport/socket_impl.cc:411-417 | A concrete run in which a simultaneous open withdraws the number of a byte already written, and the peer ends up holding [8] where [7, 8] was written |
| `ProtocolLimits.LateSynAckUncounts` | src/transport/socket_impl.cc:433-437 | A concrete run, without hazard before its last move, in which a late SYN+ACK moves `recv_seq_num_` below what the peer has had acknowledged |
| `ProtocolLimits.ImpatientClientIsSecond` | src/transport/socket_impl.cc:284-290 | A concrete run in which a client whose acknowledgement was refused closes, and its FIN takes the child past the handshake first |
| `ProtocolLimits.LateSynOvercounts` | src/transport/socket_impl.cc:411-417 | A concrete run without a write or close in which a bare SYN after a refused acknowledgement makes one end count its SYN acknowledged twice, beyond what the peer has counted |
| `ProtocolHandshake.ClientIsFirst` | src/transport/socket_impl.cc:400-410 | In particular the client is first if the IP layer refuses no handshake acknowledgement |
| `EndpointActions.ReceiveKeeps` | src/transport/socket_impl.cc:381-476 | Any well-formed packet that is not a hazard keeps the endpoint invariant, in every state, and moves the receiving side by nothing, one segment in order, or a SYN |
| `EndpointActions.WriteKeeps` | src/transport/socket_impl.cc:561-573 | One turn of `Write` keeps the invariant and appends exactly its bytes to the stream |
| `EndpointActions.ReadKeeps` | src/transport/socket_impl.cc:537-546 | `Read` keeps the invariant and conserves delivered plus buffered bytes |
| `EndpointActions.ConnectKeeps` | src/transport/socket_impl.cc:515-535 | `Connect` on a fresh socket establishes the invariant with a lone SYN |
| `EndpointActions.ChildKeeps` | src/transport/socket_impl.cc:251-269 | The socket made for a SYN satisfies the invariant with a lone SYN+ACK and has counted the peer's SYN |
| `EndpointActions.FullAckPasses` | src/transport/socket_impl.cc:321-330 | Acknowledging everything numbered moves the base past the SYN |
| `EndpointOperations.SimultaneousOpenExact` | src/transport/socket_impl.cc:411-417 | A simultaneous open keeps the invariant if and only if our SYN is alone and unacknowledged |
| `EndpointOperations.UnsafeWithdraw` | src/transport/socket_impl.cc:412-413 | In every other case it destroys the invariant |
| `EndpointReceive.ReceiveDataKeeps` | src/transport/socket_impl.cc:293-319 | `ReceiveData` keeps the invariant and takes in at most the next segment in order, on any packet |
| `EndpointReceive.ReceiveAckKeeps` | src/transport/socket_impl.cc:321-344 | `ReceiveAck` keeps the invariant on any acknowledgement number and moves the base at most to it |
| `EndpointReceive.ReceiveShutDownKeeps` | src/transport/socket_impl.cc:346-363 | `ReceiveShutDown` keeps the invariant in every state; which states it leads to is `FinMovesOn` |
| `EndpointReceive.ShutDownKeeps` | src/transport/socket_impl.cc:365-379 | `ShutDown` keeps the invariant from any state and numbers one FIN |
| `EndpointReceive.ConnectionKeeps` | src/transport/socket_impl.cc:275-291 | `ReceiveConnection` keeps the invariant whether or not the IP layer takes the acknowledgement |
| `EndpointReceive.SynSentAckKeeps` | src/transport/socket_impl.cc:400-410 | A SYN+ACK in SYN-SENT, where nothing but the peer's SYN has been counted, keeps the invariant, accepted or reset |
| `EndpointReceive.SynReceivedKeeps` | src/transport/socket_impl.cc:419-437 | Any packet in SYN-RECEIVED that does not rewind keeps the invariant |
| `EndpointReceive.SynchronizedKeeps` | src/transport/socket_impl.cc:451-468 | Any packet in a synchronized state keeps the invariant |
| `EndpointSend.EnqueueKeeps` | src/transport/socket_impl.cc:194-227 | Numbering and queueing data or a SYN or FIN keeps the invariant and appends exactly its symbols to the stream |
| `EndpointSend.QueuedTiles` | src/transport/socket_impl.cc:209-222 | A newly numbered segment extends the tiling at its end |
| `EndpointInvariant.ExtendKeeps` | src/transport/socket_impl.cc:16-60 | `RetransmitExtend` keeps the invariant, preserves the two queues as one sequence, and stops only when nothing passes the window test |
| `EndpointInvariant.ExtendLoopKeeps` | src/transport/socket_impl.cc:21-57 | The same of its loop, from any point |
| `EndpointInvariant.FitsWithinWindow` | src/transport/socket_impl.cc:26-47 | A first transmission leaves at most the window plus the acknowledged SYN/FIN count of payload outstanding, in wrapping 64-bit arithmetic |
| `EndpointInvariant.MoveHeadKeeps` | src/transport/socket_impl.cc:28-47 | Sending the head keeps tiling, credit, history and the wire |
| `EndpointSteps.ShrinkKeeps` | src/transport/socket_impl.cc:62-94 | `RetransmitShrink` keeps the invariant and moves the base by whole segments, at most to the acknowledgement |
| `EndpointSteps.ShrinkAll` | src/transport/socket_impl.cc:67-92 | An acknowledgement of everything sent empties the retransmit queue |
| `EndpointSteps.PopAckedKeeps` | src/transport/socket_impl.cc:72-88 | Dropping one acknowledged segment keeps the accounting, whose two sides it moves differently for SYN and FIN |
| `EndpointSteps.TimeoutKeeps` | src/transport/socket_impl.cc:137-160 | A timeout keeps the invariant, also when the smaller window makes the head fail |
| `EndpointSteps.CongestKeeps` | src/transport/socket_impl.cc:321-327 | The congestion manager's window change and front retransmission keep the invariant, for either value of a missing return |
| `EndpointSteps.ProcessAckKeeps` | src/transport/socket_impl.cc:321-330 | The whole queue part of an acknowledgement keeps the invariant, for any number |
| `EndpointSteps.ProcessAckAll` | src/transport/socket_impl.cc:321-330 | Once everything is sent, a full acknowledgement leaves both queues empty |
| `EndpointStates.StepMovesAlongEdge` | src/transport/socket_impl.cc:346-597 | Every step of every endpoint on any packet moves along one edge of a fixed graph |
| `EndpointStates.EdgesAreStandard` | src/transport/socket_impl.cc:381-476 | Each edge is a path of at most three transitions of section 3.3.2 of RFC 9293, and none ends in CLOSE-WAIT or CLOSING |
| `EndpointStates.StreamNeverEmpties` | src/transport/socket_impl.cc:411-417 | Every step but a simultaneous open only extends the stream, and a stream that is not empty never becomes empty |
| `EndpointWrite.WriteIsTurns` | src/transport/socket_impl.cc:548-576 | A call of `Write` is a sequence of protocol steps, permitted once the socket is opened, spends exactly the credit of the bytes queued, and ends done or waiting for credit |
| `EndpointWrite.WriteAccepts` | src/transport/socket_impl.cc:555-573 | Every byte up to the offset reached joins the stream once and in order, and the invariant survives the call |
| `EndpointRetransmission.TimeoutResendsAll` | src/transport/socket_impl.cc:137-153 | A timeout sends every unacknowledged sequence number again |
| `EndpointRetransmission.TimeoutClosesWindow` | src/transport/congestion.cc:36-42 | Unless a SYN is outstanding, a timeout leaves a window of one segment and half the threshold |
| `EndpointRetransmission.TimeoutSparesHandshake` | src/transport/socket_impl.cc:137-160 | With a SYN outstanding, or nothing, a timeout leaves manager, window and queues alone |
| `EndpointRetransmission.ThirdDuplicateResendsBase` | src/transport/socket_impl.cc:321-327 | The third duplicate acknowledgement resends the segment that starts at `send_unack_base_` (section 3.2 of RFC 5681) |
| `EndpointRetransmission.AnswersExactly` | src/transport/socket_impl.cc:293-319 | Exactly which segments `ReceiveData` answers, first of all and with what number, and when that number moves |
| `EndpointRetransmission.DuplicateDataIgnored` | src/transport/socket_impl.cc:302-317 | Data already accepted has no effect and is not acknowledged again |
| `Segments.TilesSymbols` | src/transport/tcp_kernel.cc:246-249 | Segments that tile a stretch carry exactly its symbols |
| `Segments.BytesOfSegment` | src/transport/tcp_kernel.cc:246-249 | The application bytes of a segment's symbols are its payload: SYN and FIN are numbered but carry none |
| `Sockets.Socket.constructor` | src/transport/socket_impl.h:122-134 | A fresh socket equals the fresh endpoint |
| `Sockets.Socket.SendHead` | src/transport/socket_impl.cc:28-47 | Sends the head and relinks it to the other list |
| `Sockets.Socket.TestHead` | src/transport/socket_impl.cc:26-28 | The window test in 64-bit arithmetic |
| `Sockets.Socket.RetransmitExtend` | src/transport/socket_impl.cc:16-60 | The in-place loop equals the function `Extend` |
| `Sockets.Socket.SetCongestionWindow` | src/transport/socket_impl.h:191-194 | Equals `SetWindow` |
| `Sockets.Socket.DropAcked` | src/transport/socket_impl.cc:70-88 | One turn of the shrinking loop |
| `Sockets.Socket.RetransmitShrink` | src/transport/socket_impl.cc:62-94 | The in-place loop equals `Shrink` |
| `Sockets.Socket.RetransmitFront` | src/transport/socket_impl.cc:126-135 | Resends the first queued segment, or nothing |
| `Sockets.Socket.ResendAll` | src/transport/socket_impl.cc:140-153 | Resends the retransmit queue in order and tells whether a SYN is in it |
| `Sockets.Socket.RetransmitCallback` | src/transport/socket_impl.cc:137-160 | Equals `Timeout` |
| `Sockets.Socket.SendTCPPacketImpl` | src/transport/socket_impl.cc:194-227 | Equals `Enqueue`; refuses an oversized payload with status 1 and no change |
| `Sockets.Socket.SendTCPPacketPush` | src/transport/socket_impl.cc:231-237 | One packet on the wire exactly when the IP layer takes it, whose status it returns |
| `Sockets.Socket.ShutDown` | src/transport/socket_impl.cc:365-379 | Equals `ShutDown` of the model |
| `Sockets.Socket.ReceiveShutDown` | src/transport/socket_impl.cc:346-363 | Equals `ReceiveShutDown` of the model, whose meaning is `FinMovesOn` |
| `Sockets.Socket.Accept` | src/transport/socket_impl.cc:303-310 | Counts and stores a segment in order exactly when the ring takes it |
| `Sockets.Socket.ReceiveData` | src/transport/socket_impl.cc:293-319 | Equals `ReceiveData` of the model |
| `Sockets.Socket.Congest` | src/transport/socket_impl.cc:321-327 | Equals `Congest` |
| `Sockets.Socket.ReceiveAck` | src/transport/socket_impl.cc:321-344 | Equals `ReceiveAck` of the model |
| `Sockets.Socket.ReceiveConnection` | src/transport/socket_impl.cc:275-291 | Equals `ReceiveConnection` of the model |
| `Sockets.Socket.WithdrawSyn` | src/transport/socket_impl.cc:412-414 | Withdraws one segment and one sequence number |
| `Sockets.Socket.SimultaneousOpen` | src/transport/socket_impl.cc:411-417 | Equals `SimultaneousOpen` of the model |
| `Sockets.Socket.ReceiveRequest` | src/transport/socket_impl.cc:240-271 | Refuses with status 1 exactly on a full backlog; else a new socket equal to `Child` that knows its listener, which is unchanged |
| `Sockets.Socket.ReceiveInSynSent` | src/transport/socket_impl.cc:400-418 | Equals the model in SYN-SENT |
| `Sockets.Socket.ReceiveInSynReceived` | src/transport/socket_impl.cc:419-441 | Equals the model in SYN-RECEIVED, and puts the socket at the front of its listener's accept queue exactly when its handshake completes |
| `Sockets.Socket.ReceiveSynchronized` | src/transport/socket_impl.cc:449-468 | Equals the model in the other states |
| `Sockets.Socket.ReceiveStateProcess` | src/transport/socket_impl.cc:381-476 | Equals `Receive`; a listener stays as it is and yields the child, and a completed handshake is queued at the listener |
| `Sockets.Socket.Connect` | src/transport/socket_impl.cc:515-527 | Equals `Connect` of the model |
| `Sockets.Socket.WriteSegment` | src/transport/socket_impl.cc:570-573 | One turn of the loop of `Write` |
| `Sockets.Socket.Write` | src/transport/socket_impl.cc:548-576 | The segmenting loop equals `WriteLoop`, whose meaning is `WriteAccepts` |
| `Sockets.Socket.Read` | src/transport/socket_impl.cc:537-546 | Hands over the longest prefix of the ring up to the request |
| `Sockets.Socket.Close` | src/transport/socket_impl.cc:579-587 | Equals `Close` of the model, whose meaning is `CloseNumbersFin` |
| `IntrusiveList.Init` | src/common/intrusive.h:16-22 | A fresh sentinel is the empty list |
| `IntrusiveList.Empty` | src/common/intrusive.h:20-22 | True exactly for the empty list |
| `IntrusiveList.InsertBetween` | src/common/intrusive.h:24-32 | Linking between neighbours inserts at exactly that position of the sequence and keeps the circle well formed |
| `IntrusiveList.InsertAfter` | src/common/intrusive.h:44-52 | Inserts behind the given element |
| `IntrusiveList.InsertBefore` | src/common/intrusive.h:34-42 | Inserts in front of the given element |
| `IntrusiveList.Insert` | src/common/intrusive.h:54-59 | Inserts at the front |
| `IntrusiveList.Append` | src/transport/socket_impl.cc:11-14 | Inserting behind `prev` of the sentinel appends |
| `IntrusiveList.Remove` | src/common/intrusive.h:61-73 | Deletes exactly the given node and keeps the circle well formed |
| `SegmentQueues.MoveFront` | src/transport/socket_impl.cc:43-46 | Removing the front of one list and queueing it on another keeps both well formed and disjoint |
| `SegmentQueues.Queues.constructor` | src/transport/socket_impl.h:265-273 | Two empty lists |
| `SegmentQueues.Queues.FirstToSend` | src/transport/socket_impl.cc:20-21 | Where the scan of the send queue starts |
| `SegmentQueues.Queues.FirstUnacked` | src/transport/socket_impl.cc:64-67 | Where the scan of the retransmit queue starts |
| `SegmentQueues.Queues.NextUnacked` | src/transport/socket_impl.cc:144 | The next link of that scan |
| `SegmentQueues.Queues.HeadToSend` | src/transport/socket_impl.cc:22 | `container_of` yields the head of the sequence |
| `SegmentQueues.Queues.Unacked` | src/transport/socket_impl.cc:68 | `container_of` yields the element of the sequence |
| `SegmentQueues.Queues.TxEnqueue` | src/transport/socket_impl.cc:11-14 | Appends to the send queue only |
| `SegmentQueues.Queues.MoveHead` | src/transport/socket_impl.cc:43-46 | Moves the head across, preserving (retransmit queue ++ send queue) |
| `SegmentQueues.Queues.RtxDequeue` | src/transport/socket_impl.cc:103-108 | Drops the front, or nothing when empty |
| `SegmentQueues.Queues.DropFront` | src/transport/socket_impl.cc:80-82 | Drops the front and finds the next link first |
| `RingBuffers.RingBuffer.constructor` | src/transport/ringbuffer.h:13-15 | An empty buffer |
| `RingBuffers.RingBuffer.GetFreeSpace` | src/transport/ringbuffer.h:24-32 | Free plus available is always `size_`, and at least one byte is free |
| `RingBuffers.RingBuffer.GetAvailableBytes` | src/transport/ringbuffer.h:34-40 | The number of bytes waiting, through the unsigned wrap |
| `RingBuffers.RingBuffer.Read` | src/transport/ringbuffer.h:42-57 | Removes exactly the longest available prefix up to the request and leaves the rest of the destination |
| `RingBuffers.RingBuffer.Write` | src/transport/ringbuffer.h:59-75 | Appends all bytes or none, all exactly when they leave one byte free |
| `RingBuffers.CopyOut` | src/transport/ringbuffer.h:44-54 | The one or two stretches copied by a read |
| `RingBuffers.CopyIn` | src/transport/ringbuffer.h:62-71 | The one or two stretches copied by a write |
| `RingBuffers.SpanAppend` | src/transport/ringbuffer.h:59-75 | For every wrap position a write that leaves a byte free appends to the queue |
| `RingBuffers.SpanDrop` | src/transport/ringbuffer.h:55-56 | Moving the head drops a prefix of the queue |
| `RingBuffers.DrainedIs` | src/transport/ringbuffer.h:44-54 | For every wrap position a read delivers a prefix of the queue |
| `Reno.RunKeepsInv` | src/transport/congestion.cc:16-115 | Over every sequence of acknowledgements and timeouts the joint invariant of the three phases holds |
| `Reno.StepKeepsInv` | src/transport/congestion.cc:16-115 | One callback keeps the invariant, and the window announced is the congestion window |
| `Reno.FastRecoveryInflates` | src/transport/congestion.cc:62-69 | From the third duplicate until a new acknowledgement or a timeout the window is the halved threshold plus 3 + n segments after n further duplicates, whatever older acknowledgements come between (section 3.2 of RFC 5681) |
| `Reno.DuplicatesInflate` | src/transport/congestion.cc:99-115 | Exactly new acknowledgements and timeouts leave fast recovery; until then each duplicate adds one segment and nothing else changes |
| `Reno.OneSegmentPerWindow` | src/transport/congestion.cc:76-84 | A window's worth of new acknowledgements, whatever comes between them, adds at most one segment (section 3.1 of RFC 5681) |
| `Reno.NewAcksGrow` | src/transport/congestion.cc:76-84 | n new acknowledgements grow the window by at most n * MSS^2 / cwnd, and nothing between them does |
| `Reno.NewAcksGrowBelow` | src/transport/congestion.cc:76-84 | And by at least that at the window reached, less one byte each for the integer division |
| `Reno.EveryNewAckOpens` | src/transport/congestion.cc:82-83 | Below MSS^2 every new acknowledgement opens the window |
| `Reno.ThirdOfASegmentPerWindow` | src/transport/congestion.cc:76-84 | A window's worth of new acknowledgements adds at least a third of a segment less two bytes, up to a window of MSS^2 - MSS |
| `Reno.SlowStartGrows` | src/transport/congestion.cc:44-60 | In slow start the window grows by one segment for each new acknowledgement and by nothing else; growth ends the phase exactly at the threshold |
| `Reno.SlowStartEnds` | src/transport/congestion.cc:52-59 | The acknowledgement that ends slow start opens the window as congestion avoidance does, by MSS^2 / cwnd to within a byte |
| `Reno.KnowsHighest` | src/transport/congestion.cc:47-107 | Between timeouts the manager knows the highest acknowledgement so far, in whatever order they arrive |
| `Reno.ThreeDuplicatesRecover` | src/transport/congestion.cc:61-72 | An acknowledgement of new data and three more of the same lead to fast recovery from any state outside it, with half the window |
| `Reno.TimeoutStartsOver` | src/transport/congestion.cc:36-42 | A timeout leaves one segment, half the window as threshold, and every next acknowledgement new |
| `Reno.RecoveryHalves` | src/transport/congestion.cc:61-115 | A recovery asks for a resend with the third and every later duplicate, and the new acknowledgement that ends it leaves congestion avoidance with half the window the loss was found with |
| `Reno.EarlyDuplicates` | src/transport/congestion.cc:61-97 | The first two duplicates move no window and ask for nothing; an older acknowledgement changes nothing |
| `Reno.NewAcksStay` | src/transport/congestion.cc:76-84 | New acknowledgements alone never leave congestion avoidance |
| `Reno.GrownCap` | src/transport/congestion.cc:82-83 | The additive step never passes the larger of its argument and MSS^2 + 1 |
| `Reno.AvoidanceCap` | src/transport/congestion.cc:76-97 | Nor does the window while the manager stays in congestion avoidance |
| `RenoManagers.TCPReno.constructor` | src/transport/congestion.h:43-46 | The initial state |
| `RenoManagers.TCPReno.OnReceiveAck` | src/transport/congestion.cc:16-34 | Equals the function of that name |
| `RenoManagers.TCPReno.OnSlowStart` | src/transport/congestion.cc:44-74 | Equals the function of that name |
| `RenoManagers.TCPReno.OnDuplicate` | src/transport/congestion.cc:61-72 | Enters fast recovery exactly on the third duplicate |
| `RenoManagers.TCPReno.OnCongestionAvoidance` | src/transport/congestion.cc:76-97 | Equals the function of that name, bounded from both sides by `NewAcksGrow` and `NewAcksGrowBelow` |
| `RenoManagers.TCPReno.OnFastRecovery` | src/transport/congestion.cc:99-115 | Equals the function of that name |
| `RenoManagers.TCPReno.OnTimeout` | src/transport/congestion.cc:36-42 | Equals the function of that name |
| `KernelConnections.RunProjects` | src/transport/tcp_kernel.cc:118-139 | However the packets and calls of a host interleave, each connection sees only its own, as permitted steps of the two-endpoint model |
| `KernelConnections.NextProjects` | src/transport/tcp_kernel.cc:269-298 | The same of one event |
| `KernelConnections.DuplicateSynMakesNoChild` | src/transport/tcp_kernel.cc:92-99 | While a connection is in the establish map no sequence of packets makes another child for it |
| `KernelConnections.AtMostOneChild` | src/transport/tcp_kernel.cc:92-139 | From an empty kernel a connection never removed from the map has at most one child, ever |
| `KernelConnections.NextKeepsChildren` | src/transport/tcp_kernel.cc:32-116 | Only its own cleanup ends a map entry, and a child appears only with the entry that names it |
| `KernelConnections.ListenRegisters` | src/transport/tcp_kernel.cc:32-45 | After `listen` a free address finds the new listener; a taken one keeps the listener it has |
| `KernelConnections.ConnectRegisters` | src/transport/tcp_kernel.cc:92-99 | After `connect` a free key finds the connecting socket, which has sent its SYN |
| `KernelConnections.SynRegisters` | src/transport/socket_impl.cc:240-271 | A SYN for a listener with room makes a child that its key finds from then on, knows its listener, and has sent its SYN+ACK |
| `KernelConnections.CleanupFrees` | src/transport/tcp_kernel.cc:173-190 | Cleanup frees exactly the key of the connection or the address of the listener |
| `KernelTheorems.NextKeepsWell` | src/transport/tcp_kernel.cc:19-190 | Every event keeps the maps naming sockets of the right key and role |
| `KernelTheorems.ExecKeepsWell` | src/transport/tcp_kernel.cc:19-190 | So does every run |
| `KernelTheorems.PacketProjects` | src/transport/tcp_kernel.cc:118-139 | A packet moves the connection of its key by `Receive` and leaves every other connection alone |
| `KernelAccept.EveryChildOfferedOnce` | src/transport/socket_impl.h:166-180 | In every run a child is in its listener's accept queue exactly from the end of its handshake until `Accept` returns it, once; the backlog counts the queue |
| `KernelAccept.NextKeepsOffered` | src/transport/socket_impl.cc:419-437 | The same of one event |
| `KernelAccept.AcceptHandsOver` | src/transport/socket_impl.cc:504-513 | `Accept` returns a child of that listener past its handshake and not returned before, the latest first |
| `KernelBacklog.BacklogBoundedExactly` | src/transport/socket_impl.cc:240-246 | Over a run the connections pending at a listener, in the handshake or to be accepted, stay within `max_backlog_` if and only if no SYN is taken while a child is in its handshake; the backlog then does too |
| `KernelBacklog.LimitSurvivesExactly` | src/transport/socket_impl.cc:240-246 | The same of one event |
| `KernelBacklog.PendingExact` | src/transport/socket_impl.h:242-245 | A SYN that makes a child adds one to the pending connections, `Accept` takes one, and nothing else counts |
| `KernelAccept.BacklogIgnoresHalfOpen` | src/transport/socket_impl.cc:240-246 | Two overlapping handshakes exceed the backlog of one: connections in the handshake are not counted |
| `TcpKernels.TcpKernel.constructor` | src/transport/tcp_kernel.cc:25-30 | Empty maps |
| `TcpKernels.TcpKernel.InsertListen` | src/transport/tcp_kernel.cc:32-45 | Inserts unless the address is taken, and says so |
| `TcpKernels.TcpKernel.RemoveListen` | src/transport/tcp_kernel.cc:61-77 | Removes exactly the entry |
| `TcpKernels.TcpKernel.InsertEstablish` | src/transport/tcp_kernel.cc:92-99 | An existing entry stays, and success is reported all the same |
| `TcpKernels.TcpKernel.RemoveEstablish` | src/transport/tcp_kernel.cc:101-116 | Removes exactly the entry |
| `TcpKernels.TcpKernel.FindSocket` | src/transport/tcp_kernel.cc:118-139 | Connections before listeners |
| `TcpKernels.TcpKernel.InsertSocketByFd` | src/transport/tcp_kernel.cc:151-160 | Inserts unless the descriptor is taken |
| `TcpKernels.TcpKernel.CleanupSocket` | src/transport/tcp_kernel.cc:173-190 | Removes the descriptor and whatever entry the socket's key names; a status only for an unknown descriptor |
| `DistanceVectorConvergence.Convergence` | src/network/routing.cc:25-72 | After k loss-free rounds a router has a route to an address exactly when it is at most min(k, 15) hops away, with the exact distance, through a neighbour one hop nearer |
| `DistanceVectorStability.Reconverges` | src/network/routing.cc:25-72 | From any tables, stale or contradictory, in every infinite execution of loss-free rounds: eventually and from then on every usable route has the exact hop distance through a neighbour one hop nearer, and no address within 15 hops is missed |
| `DistanceVectorStability.EventuallyFrozen` | src/network/routing_impl.cc:173-223 | The routes of at most any given distance eventually stop changing, whatever the order and number of the vectors in a round |
| `DistanceVectorStability.LayerStays` | src/network/routing_impl.cc:173-203 | A route one hop longer than those that no longer change stays once it is there |
| `DistanceVectorStability.Real` | src/network/routing_impl.cc:83-95 | A route that no longer changes is backed by a walk of exactly its distance |
| `DistanceVectorStability.Reached` | src/network/routing_impl.cc:122-149 | And every router within 15 hops has one at most that long: held-down garbage gives way in time |
| `DistanceVectorStability.PoisonedNeighbourUnused` | src/network/routing_impl.cc:111-113 | A neighbour whose route leads to the segment's known peer is nobody's next hop on that segment after the round |
| `DistanceVectorStability.MutualRoutesEnd` | src/network/routing_impl.cc:111-113 | Two peers never route a destination through each other for two rounds running (section 3.4.3 of RFC 2453) |
| `DistanceVectorConvergence.RoundConverges` | src/network/routing_impl.cc:83-149 | One round takes one more hop into account and keeps what is known |
| `DistanceVectorConvergence.RoundsAreQuiet` | src/network/routing.cc:48-58 | No such round asks for a triggered broadcast |
| `DistanceVectorConvergence.PoisonMissesChosen` | src/network/routing_impl.cc:112-114 | Poison reverse never hits the next hop a neighbour needs (section 3.4.3 of RFC 2453) |
| `DistanceVectorConvergence.LineOutcome` | src/network/routing_impl.cc:173-223 | During a round a line of a vector adds a route of the exact distance or refreshes the route it was learned for, and changes nothing else |
| `DistanceVectorConvergence.NearerIsHeard` | src/network/routing_impl.cc:97-120 | A neighbour one hop nearer always advertises the address |
| `DistanceVectorConvergence.RouteIsFresh` | src/network/routing_impl.cc:187-194 | Every route is refreshed in the round by the neighbour it leads to |
| `DistanceVectors.RoutesAreReal` | src/network/routing_impl.cc:83-149 | Under any loss, delay, duplication, reordering and ageing a usable learned route has a direct neighbour as next hop and a walk of exactly its distance through it: no router underestimates |
| `DistanceVectors.NextSound` | src/network/routing.cc:25-58 | Every event of the network keeps every table and every vector ever sent true |
| `DistanceVectors.LearnSound` | src/network/routing_impl.cc:173-223 | One line of a true vector keeps a table true |
| `DistanceVectors.SerializeSound` | src/network/routing_impl.cc:97-120 | A true table sends true vectors, whatever the ARP table says |
| `DistanceVectors.UnknownPeerHidesLocals` | src/network/routing.cc:33-41 | Exactly while a segment's peer is unknown a router advertises its own addresses as unreachable |
| `DistanceVectors.BroadcastPoisons` | src/network/routing_impl.cc:97-120 | A vector sent to a known peer says 17 of exactly the destinations routed through that peer or given up, and of every other the distance of the route |
| `RoutingInvariant.RunKeepsTable` | src/network/routing_impl.cc:83-154 | Over every run of vectors that do not wrap keys stay unique, ages, distances and garbage counters stay in range, and own addresses never change |
| `RoutingInvariant.TableInEveryRun` | src/network/routing_impl.cc:16-41 | From distinct local addresses, whatever vectors arrive, the persistent entries are exactly those of `InitRoutingTable`, and the table stays sound throughout if and only if every line is harmless when it arrives |
| `RoutingInvariant.RunExact` | src/network/routing_impl.cc:83-154 | A sound table stays sound after every line of a run if and only if each line, when it arrives, does not wrap or is ignored |
| `RoutingInvariant.RunKeepsLocals` | src/network/routing_impl.cc:173-223 | No vector at all from a sender with an address changes the router's own entries |
| `RoutingInvariant.LearnExact` | src/network/routing_impl.cc:83-95 | One line of a vector keeps the table sound if and only if its distance does not wrap or the line is ignored; own addresses stay in any case |
| `RoutingInvariant.WireDistanceExact` | src/network/routing_impl.cc:90-92 | The distance taken from the wire is positive exactly below 2^31 - 1 |
| `RoutingInvariant.SerializeSane` | src/network/routing_impl.cc:97-120 | A sound table never sends a distance above 17 |
| `RoutingNews.SerializeExact` | src/network/routing_impl.cc:97-120 | A line is 17 exactly for a route through the peer addressed and for a route given up, and else the distance |
| `RoutingNews.WithdrawnRouteDies` | src/network/routing_impl.cc:180-187 | When its own next hop withdraws a route no address matches it, every peer is told 17, and a broadcast is asked for |
| `RoutingNews.HandSetRouteLasts` | src/network/routing_impl.cc:206-223 | A route set by hand for an absent key, shorter than 16 hops, is used whatever the ageing; garbage is never inserted |
| `RoutingNews.HandSetRouteStays` | src/network/routing_impl.cc:180-187 | A route set by hand with a next hop stays in use when that next hop withdraws it, at distance 17 |
| `RoutingNews.ModifiesExactly` | src/network/routing_impl.cc:83-95 | A vector asks for a broadcast if and only if some line of it turns a route in use to garbage |
| `RoutingNews.RemoveExact` | src/network/routing_impl.cc:49-59 | `Remove` takes the entry of the key and nothing else |
| `RoutingNews.CollectExact` | src/network/routing_impl.cc:236-245 | `GarbageCollection` takes exactly the garbage whose time has run out |
| `RoutingNews.ExpiresExactly` | src/network/routing_impl.cc:122-149 | `Aging` reports an expiry exactly when a route in use is garbage after it |
| `RoutingInvariant.AgingKeeps` | src/network/routing_impl.cc:122-149 | Ageing keeps the table sound and own addresses in it |
| `RoutingInvariant.CollectsNothing` | src/network/routing_impl.cc:236-245 | `GarbageCollection` never finds anything to remove |
| `RoutingLifetime.ExactLifetime` | src/network/routing_impl.cc:122-149 | A stable route of age a is used for exactly a - 1 further `Aging` calls, is garbage for the next four and then gone |
| `RoutingLifetime.UnrefreshedRouteDies` | src/network/routing_impl.cc:122-149 | Whatever vectors arrive, a learned route nobody calls reachable is unused after six `Aging` calls and gone after ten |
| `RoutingLifetime.RunLeft` | src/network/routing_impl.cc:83-149 | Without a reachable advertisement the remaining life only falls, by one for each `Aging` |
| `RoutingQuery.TakesLongestExactly` | src/network/routing_impl.cc:61-81 | For masks of any shape: `Query` takes a longest match if and only if there is one, the first such, and every other usable route covers all that it covers |
| `RoutingQuery.ScanFinds` | src/network/routing_impl.cc:66-75 | The scan holds the first longest match once it has passed it, and something strictly shorter before |
| `RoutingQuery.LongestPrefixMatch` | src/network/routing_impl.cc:61-81 | With the masks of prefixes there always is one: `Query` is longest-prefix match |
| `Forwarding.PacketsArrive` | src/network/ip.cc:37-150 | Over tables converged by the rounds a packet for an address h <= 15 hops away visits routers h, h - 1, ..., 0 hops away, each keeping or passing it on by `isLocalIP`, and causes exactly h frames, each checksum-valid with the data sent |
| `Forwarding.UnreachableStops` | src/network/routing_impl.cc:61-81 | A packet for an address out of reach stays where it is and causes no frame |
| `Forwarding.IsLocalExactly` | src/network/ip.cc:165-169 | On a converged table `isLocalIP` is true of exactly the router's own addresses |
| `Forwarding.QueryAnswersReachable` | src/network/routing_impl.cc:61-81 | On a converged table `Query` answers for exactly the addresses within min(k, 15) hops |
| `Forwarding.RouteNears` | src/network/routing_impl.cc:61-81 | Each router on the way is one hop nearer, and the last owns the address |
| `Forwarding.QueryExact` | src/network/routing_impl.cc:61-81 | `Query` on a converged table finds the one entry of the address |
| `RoutingQuery.AnswersExactly` | src/network/routing_impl.cc:66-80 | `Query` answers exactly when a usable entry with a non-zero mask covers the address: a default route is never taken |
| `RoutingTableObjects.RoutingTable.constructor` | src/network/routing_impl.cc:16-41 | One persistent entry for each local address |
| `RoutingTableObjects.RoutingTable.UnsafeInsert` | src/network/routing_impl.cc:173-223 | The scan equals `Insert`, whose news is `WithdrawnRouteDies` and `Reconverges`, and reports exactly a stable route turned to garbage |
| `RoutingTableObjects.RoutingTable.UpdateByDistanceVector` | src/network/routing_impl.cc:83-95 | The loop equals `Update` |
| `RoutingTableObjects.RoutingTable.SerializeDistanceVector` | src/network/routing_impl.cc:97-120 | The buffer equals `Serialize`, whose lines are `SerializeExact` |
| `RoutingTableObjects.RoutingTable.AgeAt` | src/network/routing_impl.cc:126-146 | One turn of the erasing loop |
| `RoutingTableObjects.RoutingTable.Aging` | src/network/routing_impl.cc:122-149 | The erasing loop equals `Aging`, and reports exactly an expiry |
| `RoutingTableObjects.RoutingTable.GarbageCollection` | src/network/routing_impl.cc:236-245 | The erasing loop equals `Collect` |
| `RoutingTableObjects.RoutingTable.Remove` | src/network/routing_impl.cc:49-59 | Erases the first entry with the key |
| `RoutingTableObjects.RoutingTable.Query` | src/network/routing_impl.cc:61-81 | The scan equals `Query` |
| `Routers.Host.constructor` | src/network/routing.cc:15-18 | A table of the local addresses |
| `Routers.Host.BroadcastDVTable` | src/network/routing.cc:25-46 | One vector for each device, poisoned towards its own peer as `BroadcastPoisons` says |
| `Routers.Host.ReceiveDVTable` | src/network/routing.cc:48-58 | Updates, and announces exactly when a route was poisoned |
| `Routers.Host.TimerRIP` | src/network/routing.cc:60-72 | Announces and then ages |
| `Checksums.FoldIsOnesSum` | src/network/ip.cc:25-34 | Summing and folding gives the one's complement sum of section 1 of RFC 1071 |
| `Checksums.FoldIs` | src/network/ip.cc:31-33 | Folding is reduction modulo 65535 to a non-zero representative |
| `Checksums.SumCommutesWithSwap` | src/network/ip.cc:23-33 | Swapping the bytes of every word swaps the sum (section 2 of RFC 1071) |
| `Checksums.TestsAgreeExactly` | src/network/ip.cc:132-134 | Recompute-and-compare agrees with the all-ones test exactly outside the 0xFFFF/0x0000 corner |
| `Checksums.ShortHeader` | src/network/ip.cc:16-22 | A header of illegal length verifies exactly with a stored 0xFFFF |
| `Checksums.SumBound` | src/network/ip.cc:25-28 | The 32-bit accumulator does not overflow |
| `Checksums.CalculateCheckSum` | src/network/ip.cc:14-35 | The summing and folding loops end with the checksum |
| `IpPackets.TransmittedAtMost255Times` | src/network/ip.cc:88-150 | Over any routing tables a packet of `sendIPPacket` is transmitted at most 255 times, each time checksum-valid and with its data unchanged |
| `IpPackets.FramesExact` | src/network/ip.cc:120-150 | A valid packet causes exactly as many frames as hosts are willing to send, up to its time to live |
| `IpPackets.ForwardKeeps` | src/network/ip.cc:126-146 | A packet is dropped exactly when its checksum fails or its time to live is one; otherwise only those two fields change and the checksum stays valid |
| `IpPackets.BuildVerifies` | src/network/ip.cc:88-112 | A built packet is valid by both tests, with time to live 255 and the addresses and data given |
| `IpPackets.BuildDescribes` | src/network/ip.cc:91-109 | A built header states the total length and the protocol, asks not to be fragmented, and leaves type of service and identification zero |
| `IpPackets.SealedVerifies` | src/network/ip.cc:112 | A header whose checksum field is recomputed verifies |
| `IpPackets.SendIPPacket` | src/network/ip.cc:88-118 | Equals `Build`, sent exactly when there is a route and a neighbour; the status is then the Ethernet layer's |
| `IpPackets.ForwardIPPacket` | src/network/ip.cc:120-150 | Equals `Forward`, sent exactly when there is a route and a neighbour; the status is then the Ethernet layer's |
| `IpPackets.Seal` | src/network/ip.cc:112 | Writes the checksum and nothing else |

## Left out

- Devices, pcap, Ethernet frames, ARP resolution, epoll, logging and the sample applications: input and output without a property of their own. What the ARP table knows is an input of routing and forwarding.
- The `__wrap_*` layer and real file descriptors: thin plumbing over `Socket`; only the descriptor map itself is modelled.
- Threads and condition variables: a locked section is one step, a wait is a guard on the step that follows it.
- Liveness under loss: data already received is not acknowledged again (`DuplicateDataIgnored`) and the last handshake acknowledgement is not resent, so delivery need not happen; that it can is `SessionsComplete`.
- Packets of an earlier connection with the same key, and sequence numbers beyond 2^32.
- The refusal of a packet by the IP layer is an input where its status matters, in `ReceiveConnection`; elsewhere the source ignores it and a refused packet is a lost one.
- `RttEstimator`, timers and keepalive: a timeout may happen at any step, which covers every timer.
- The advertised window and the TCP checksum: the source sends constants and reads neither.
- `congestion_window_` is unbounded here; the source keeps it in 64 bits and passes it to the socket in 32.
- Freed sockets: names are not reused, so a pointer left behind in `listen_socket_` or a map is not modelled.
- `Connect` and `Listen` are taken once per socket and not at an address that is listening; the source checks neither.
- Persistent routes added by hand: the methods cover them, the table invariant and the distance-vector theorems do not.
- A vector or header shorter than the length it declares: the source reads past its buffer.
- Sockets.Socket.ReceiveStateProcess: returns no status, because the source takes it from `ReceiveAck`, which ends without a value.
- Sockets.Socket.ReceiveRequest: leaves the establish map to its caller; the insertion is in `Kernels.Request`, where sockets are values named by index and aliasing through the kernel's pointers is not captured.
- EndpointActions.WriteKeeps: not for a listening socket, on which the source would number and queue data that no peer can ask for.
- EndpointWrite.WriteAccepts: not for a listening socket, for the same reason.
- StreamSafety: holds of safe runs only, because a simultaneous open may withdraw a written byte (`EagerWriterLosesByte`); `SafeRunsExactly`, `PassiveRunsAreSafe` and `DisciplinedSafeExactly` say which runs those are.
