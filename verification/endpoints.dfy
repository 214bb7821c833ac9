/**
 One TCP endpoint: the fields of a `Socket` as a value and its operations as
 functions (src/transport/socket_impl.cc).  `Sockets.Socket` is the object that
 updates the fields in place; each of its methods is proved equal to one of
 these functions.

 `unackBase`, `unackNext` and `credit` are `std::size_t` and wrap modulo 2^64;
 `sendSeq` and `recvSeq` are `std::uint32_t` and wrap modulo 2^32.

 The last four fields are history: `wire` lists every packet handed to the IP
 layer, `stream` every symbol given a sequence number, `written` the bytes
 accepted by `Write` and `delivered` the bytes returned by `Read`.
 */
module Endpoints {
  import opened Machine
  import opened Segments
  import Reno

  datatype ConnectionState =
    | Closed | Listen | SynSent | SynReceived | Established
    | FinWait1 | FinWait2 | CloseWait | Closing | LastAck | TimeWait

  const SEND_BUFFER: int := 8192
  const RING_SIZE: int := 262144

  /** `max_backlog_`, whatever `listen` is asked for (src/transport/socket_impl.cc:498). */
  const MAX_BACKLOG: int := 1

  datatype Endpoint = Endpoint(
    state: ConnectionState,
    sendQ: seq<Segment>,
    rtxQ: seq<Segment>,
    unackBase: nat,
    unackNext: nat,
    sendSeq: nat,
    recvSeq: nat,
    credit: nat,
    window: nat,
    reno: Reno.RenoState,
    ring: seq<byte>,
    wire: seq<Segment>,
    stream: seq<Symbol>,
    written: seq<byte>,
    delivered: seq<byte>)

  /** What the environment decides while a packet is handled: the Boolean of the
      Reno paths without a return, whether the IP layer accepts the handshake
      acknowledgement, and whether the listener's backlog is full. */
  datatype Environment = Environment(junk: bool, sendOk: bool, backlogFull: bool)

  /** A socket as constructed. */
  function Fresh(state: ConnectionState, recvSeq: nat): Endpoint {
    Endpoint(state, [], [], 0, 0, 0, recvSeq, SEND_BUFFER, Reno.MSS, Reno.Initial, [], [], [], [], [])
  }

  // ----- sending -----

  /** `bytes_in_flight`, the unsigned difference of the two cursors. */
  function InFlight(e: Endpoint): nat {
    (e.unackNext - e.unackBase) % U64
  }

  /** The window test applied to the head of the send queue. */
  predicate HeadFits(e: Endpoint, inFlight: nat)
    requires e.sendQ != []
  {
    (Len(e.sendQ[0]) + inFlight) % U64 <= e.window
  }

  /** One turn of the loop of `RetransmitExtend`: send the head and move it to
      the retransmit queue. */
  function MoveHead(e: Endpoint): Endpoint
    requires e.sendQ != []
  {
    var s := e.sendQ[0];
    e.(sendQ := e.sendQ[1..], rtxQ := e.rtxQ + [s], wire := e.wire + [s])
  }

  function ExtendLoop(e: Endpoint, inFlight: nat): Endpoint
    decreases |e.sendQ|
  {
    if e.sendQ != [] && HeadFits(e, inFlight) then
      ExtendLoop(MoveHead(e), (inFlight + |e.sendQ[0].payload|) % U64)
    else
      e.(unackNext := (e.unackBase + inFlight) % U64)
  }

  /** `RetransmitExtend`. */
  function Extend(e: Endpoint): Endpoint {
    ExtendLoop(e, InFlight(e))
  }

  /** `Socket::SetCongestionWindow`. */
  function SetWindow(e: Endpoint, window: nat): Endpoint {
    Extend(e.(window := window))
  }

  /** `RetransmitShrink`. */
  function Shrink(e: Endpoint, ack: nat): Endpoint
    decreases |e.rtxQ|
  {
    if e.rtxQ != [] && (e.rtxQ[0].seqNum + Len(e.rtxQ[0])) % U32 <= ack then
      Shrink(PopAcked(e), ack)
    else
      e
  }

  /** One turn of its loop. */
  function PopAcked(e: Endpoint): Endpoint
    requires e.rtxQ != []
  {
    var n := Len(e.rtxQ[0]);
    e.(rtxQ := e.rtxQ[1..], unackBase := (e.unackBase + n) % U64, credit := (e.credit + n) % U64)
  }

  /** `RetransmitFront`: the source applies `container_of` to the list sentinel;
      this is what it is evidently for, resending the first queued segment. */
  function ResendFront(e: Endpoint): Endpoint {
    if e.rtxQ == [] then e else e.(wire := e.wire + [e.rtxQ[0]])
  }

  /** `RetransmitCallback`: resend everything unacknowledged, then tell the
      congestion manager unless a SYN is among it. */
  function Timeout(e: Endpoint): Endpoint {
    var e1 := e.(wire := e.wire + e.rtxQ);
    if e.rtxQ == [] || exists s :: s in e.rtxQ && s.flags.syn then
      e1
    else
      var r := Reno.OnTimeout(e.reno);
      SetWindow(e1.(reno := r), r.cwnd)
  }

  /** `SendTCPPacketImpl`: number a segment, queue it, send what the window allows. */
  function Enqueue(e: Endpoint, flags: Flags, payload: seq<byte>): Endpoint {
    if |payload| > MAX_PAYLOAD then e
    else
      var s := Segment(e.sendSeq, e.recvSeq, flags, payload);
      Extend(e.(sendQ := e.sendQ + [s],
                sendSeq := (e.sendSeq + Len(s)) % U32,
                stream := e.stream + Symbols(s)))
  }

  /** `SendTCPPacketPush`: send once, without queueing. */
  function Push(e: Endpoint, seqNum: nat, ackNum: nat, flags: Flags): Endpoint {
    e.(wire := e.wire + [Segment(seqNum, ackNum, flags, [])])
  }

  /** The pure acknowledgement sent by the receiver. */
  function PushAck(e: Endpoint): Endpoint {
    Push(e, e.sendSeq, e.recvSeq, ACK)
  }

  // ----- closing -----

  /** `ShutDown`. */
  function ShutDown(e: Endpoint): Endpoint {
    var state := match e.state
                 case Established => FinWait1
                 case CloseWait => LastAck
                 case s => s;
    Enqueue(e.(state := state), FIN_ACK, [])
  }

  /** `ReceiveShutDown`. */
  function ReceiveShutDown(e: Endpoint): Endpoint {
    match e.state
    case Established => ShutDown(e.(state := CloseWait))
    case FinWait2 => e.(state := TimeWait)
    case _ => e
  }

  // ----- receiving -----

  /** Whether `RingBuffer::Write` takes the payload. */
  predicate RingAccepts(e: Endpoint, length: nat) {
    length < RING_SIZE - |e.ring|
  }

  /** The in-order part of `ReceiveData`: count the segment and, unless it is a
      SYN or FIN, keep its payload. */
  function Accept(e: Endpoint, p: Segment): Endpoint {
    if p.seqNum == e.recvSeq && (p.flags.fin || p.flags.syn || RingAccepts(e, |p.payload|)) then
      e.(recvSeq := (e.recvSeq + Len(p)) % U32,
         ring := if p.flags.fin || p.flags.syn then e.ring else e.ring + p.payload)
    else
      e
  }

  /** `ReceiveData`. */
  function ReceiveData(e: Endpoint, p: Segment): Endpoint {
    var isFinish := p.flags == FIN_ACK;
    if Len(p) == 0 then e
    else if p.seqNum >= e.recvSeq then
      var e1 := PushAck(Accept(e, p));
      if isFinish then ReceiveShutDown(e1) else e1
    else if isFinish && p.seqNum == (e.recvSeq - 1) % U32 then PushAck(e)
    else e
  }

  /** `ReceiveAck` up to `RetransmitFront`: the congestion manager may move the
      window, which extends, and may ask for a resend. */
  function Congest(e: Endpoint, ack: nat, junk: bool): Endpoint {
    var r := Reno.OnReceiveAck(e.reno, ack, junk);
    var e1 := e.(reno := r.next);
    var e2 := if r.window.Some? then SetWindow(e1, r.window.value) else e1;
    if r.retransmit then ResendFront(e2) else e2
  }

  /** The queue part of `ReceiveAck`: congestion manager, then shrink and extend. */
  function ProcessAck(e: Endpoint, ack: nat, junk: bool): Endpoint {
    Extend(Shrink(Congest(e, ack, junk), ack))
  }

  /** The state change at the end of `ReceiveAck`. */
  function CompleteAck(e: Endpoint, ack: nat): Endpoint {
    if ack == e.sendSeq then
      match e.state
      case FinWait1 => e.(state := FinWait2)
      case LastAck => e.(state := Closed)
      case _ => e
    else e
  }

  /** `ReceiveAck`. */
  function ReceiveAck(e: Endpoint, ack: nat, junk: bool): Endpoint {
    CompleteAck(ProcessAck(e, ack, junk), ack)
  }

  /** `ReceiveConnection`: when the IP layer refuses the packet the peer's SYN
      has been counted but the state stays SYN-SENT. */
  function ReceiveConnection(e: Endpoint, p: Segment, sendOk: bool): Endpoint {
    var e1 := e.(recvSeq := (p.seqNum + 1) % U32);
    if sendOk then PushAck(e1).(state := Established) else e1
  }

  /** A bare SYN in SYN-SENT: withdraw our SYN and reuse its sequence number. */
  function SimultaneousOpen(e: Endpoint, p: Segment): Endpoint {
    var e1 := e.(rtxQ := if e.rtxQ == [] then [] else e.rtxQ[1..],
                 sendSeq := (e.sendSeq - 1) % U32,
                 recvSeq := (p.seqNum + 1) % U32,
                 stream := if e.stream == [] then [] else e.stream[..|e.stream| - 1]);
    Enqueue(e1, SYN_ACK, []).(state := SynReceived)
  }

  /** The socket `ReceiveRequest` creates for a SYN that reaches a listener. */
  function Child(p: Segment): Endpoint {
    Enqueue(Fresh(SynReceived, (p.seqNum + 1) % U32), SYN_ACK, [])
  }

  function ReceiveInSynSent(e: Endpoint, p: Segment, env: Environment): Endpoint {
    if !p.flags.syn then e
    else if p.flags.ack then
      var e1 := ReceiveAck(e, p.ackNum, env.junk);
      if e1.sendSeq == p.ackNum then ReceiveConnection(e1, p, env.sendOk)
      else Push(e1, p.ackNum, (e1.recvSeq + 1) % U32, RST)
    else
      SimultaneousOpen(e, p)
  }

  /** The acknowledgement that takes a socket out of SYN-RECEIVED. */
  predicate Completes(e: Endpoint, p: Segment) {
    e.state == SynReceived && p.flags != SYN && p.flags.ack && p.ackNum == e.sendSeq
  }

  function ReceiveInSynReceived(e: Endpoint, p: Segment, env: Environment): Endpoint {
    if p.flags == SYN || !p.flags.ack then e
    else
      var e1 := ReceiveAck(e, p.ackNum, env.junk);
      var e2 := if p.ackNum == e1.sendSeq then e1.(state := Established) else e1;
      var e3 := if p.flags.syn then e2.(recvSeq := p.seqNum) else e2;
      ReceiveData(e3, p)
  }

  function ReceiveSynchronized(e: Endpoint, p: Segment, env: Environment): Endpoint {
    if p.flags.syn && e.state != FinWait2 then e
    else
      var e1 := if p.flags.ack then ReceiveAck(e, p.ackNum, env.junk) else e;
      ReceiveData(e1, p)
  }

  /** `ReceiveStateProcess`.  In LISTEN the endpoint stands for the listener as
      seen by one connection; its value afterwards is the child socket, which is
      what `findSocket` resolves the connection to from then on. */
  function Receive(e: Endpoint, p: Segment, env: Environment): Endpoint {
    match e.state
    case SynSent => ReceiveInSynSent(e, p, env)
    case SynReceived => ReceiveInSynReceived(e, p, env)
    case Listen => if p.flags == SYN && !env.backlogFull then Child(p) else e
    case Closed => e
    case Closing => e
    case _ => ReceiveSynchronized(e, p, env)
  }

  // ----- the application's calls -----

  /** `Connect`, up to the wait. */
  function Connect(e: Endpoint): Endpoint {
    Enqueue(e, SYN, []).(state := SynSent)
  }

  /** One turn of the loop of `Write`. */
  function WriteSegment(e: Endpoint, data: seq<byte>): Endpoint
    requires |data| <= e.credit
  {
    Enqueue(e.(credit := e.credit - |data|, written := e.written + data), NONE, data)
  }

  /** `Write` from offset `start` until it is done or has to wait, and the offset
      reached.  After a wait the source asks for strictly more credit than the
      segment needs. */
  function WriteLoop(e: Endpoint, data: seq<byte>, start: nat, resumed: bool): (r: (Endpoint, nat))
    requires start <= |data|
    decreases |data| - start
  {
    var n := Min(MAX_PAYLOAD, |data| - start);
    if start == |data| || e.credit < n || (resumed && e.credit == n) then (e, start)
    else WriteLoop(WriteSegment(e, data[start..start + n]), data, start + n, false)
  }

  /** `Read`, once the wait is over. */
  function Read(e: Endpoint, length: nat): Endpoint {
    var n := Min(length, |e.ring|);
    e.(ring := e.ring[n..], delivered := e.delivered + e.ring[..n])
  }

  /** `Close`, up to the wait. */
  function Close(e: Endpoint): Endpoint {
    if e.state == Closed || e.state == Listen then e else ShutDown(e)
  }

  /** The end of `Close`, once the wait is over. */
  function CloseDone(e: Endpoint): Endpoint {
    e.(state := Closed)
  }
}
