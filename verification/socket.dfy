/**
 The socket as an object: src/transport/socket_impl.cc and socket_impl.h.

 Its queues are intrusive lists, its ring buffer a byte array and its congestion
 manager an object, all updated in place.  `View` is the value of the whole, and
 every method is proved to change it by the function of `Endpoints` of the same
 purpose.
 */
module Sockets {
  import opened Machine
  import opened Segments
  import opened E = Endpoints
  import opened IntrusiveList
  import opened SegmentQueues
  import opened RingBuffers
  import opened RenoManagers
  import EndpointStates
  import Reno

  /** The established children a listener has not handed over, and their count
      (src/transport/socket_impl.h:166-180). */
  class AcceptQueue {
    var backlogCount: int
    var waiting: seq<Socket>

    constructor ()
      ensures backlogCount == 0 && waiting == []
    {
      backlogCount, waiting := 0, [];
    }

    /** `AddToAcceptQueue`. */
    method Add(request: Socket)
      modifies this
      ensures backlogCount == old(backlogCount) + 1 && waiting == [request] + old(waiting)
    {
      backlogCount := backlogCount + 1;
      waiting := [request] + waiting;
    }

    /** `PopAcceptQueue`. */
    method Pop() returns (child: Socket)
      requires waiting != []
      modifies this
      ensures backlogCount == old(backlogCount) - 1 && [child] + waiting == old(waiting)
    {
      backlogCount := backlogCount - 1;
      child := waiting[0];
      waiting := waiting[1..];
    }
  }

  class Socket {
    var state: ConnectionState
    var sendBufferSize: nat
    var sendWindow: nat
    var recvSeqNum: nat
    var sendUnackBase: nat
    var sendUnackNextseq: nat
    var sendSeqNum: nat
    const queues: Queues
    const congestion: TCPReno
    const ringBuffer: RingBuffer
    const accepting: AcceptQueue
    /** The listener that made this socket, if one did. */
    const listenSocket: Socket?
    /** Every packet handed to the IP layer so far. */
    var wire: seq<Segment>

    ghost var stream: seq<Symbol>
    ghost var written: seq<byte>
    ghost var delivered: seq<byte>

    /** Everything a method may change. */
    ghost function Repr(): set<object>
      reads this, queues
    {
      {this, queues, congestion, ringBuffer, ringBuffer.buffer} + queues.links
    }

    ghost predicate Valid()
      reads this, Repr()
    {
      queues.Valid() && ringBuffer.Valid() && ringBuffer.size == RING_SIZE
    }

    ghost function View(): Endpoint
      reads this, Repr()
      requires Valid()
    {
      Endpoint(state, queues.send, queues.rtx, sendUnackBase, sendUnackNextseq, sendSeqNum, recvSeqNum,
               sendBufferSize, sendWindow, congestion.View(), ringBuffer.Contents(), wire, stream, written, delivered)
    }

    constructor (recvSeqNum: nat, listenSocket: Socket?)
      ensures Valid() && fresh(Repr()) && fresh(accepting)
      ensures View() == Fresh(Closed, recvSeqNum) && this.listenSocket == listenSocket
      ensures accepting.backlogCount == 0 && accepting.waiting == []
    {
      hide Queues.Valid, Span;
      state := Closed;
      sendBufferSize, sendWindow := SEND_BUFFER, Reno.MSS;
      this.recvSeqNum := recvSeqNum;
      sendUnackBase, sendUnackNextseq, sendSeqNum := 0, 0, 0;
      queues := new Queues();
      congestion := new TCPReno();
      ringBuffer := new RingBuffer(RING_SIZE);
      accepting := new AcceptQueue();
      this.listenSocket := listenSocket;
      wire, stream, written, delivered := [], [], [], [];
    }

    // ----- sending -----

    /** One turn of the loop of `RetransmitExtend`. */
    method SendHead(node: ListHead) returns (next: ListHead)
      requires Valid() && queues.send != [] && node == At(queues.sendQueue, queues.sendNodes, 0)
      modifies this`wire, queues, queues.links
      ensures Valid() && queues.links == old(queues.links)
      ensures View() == E.MoveHead(old(View()))
      ensures next == At(queues.sendQueue, queues.sendNodes, 0) && (next == queues.sendQueue <==> queues.send == [])
    {
      hide Queues.Valid, TCPReno.View, RingBuffer.Contents, RingBuffer.Valid, At;
      var buffer := queues.HeadToSend(node);
      wire := wire + [buffer];
      next := queues.MoveHead(node);
    }

    /** Whether the segment at the head of the send queue passes the window test. */
    method TestHead(node: ListHead, inFlight: nat) returns (payload: nat, fits: bool)
      requires Valid() && queues.send != [] && node == At(queues.sendQueue, queues.sendNodes, 0)
      ensures payload == |View().sendQ[0].payload| && fits == HeadFits(View(), inFlight)
    {
      hide Queues.Valid, TCPReno.View, RingBuffer.Contents, RingBuffer.Valid, At, PacketBytes;
      var buffer := queues.HeadToSend(node);
      payload, fits := |buffer.payload|, (Len(buffer) + inFlight) % U64 <= sendWindow;
    }

    /** `RetransmitExtend`. */
    method RetransmitExtend()
      requires Valid()
      modifies this`wire, this`sendUnackNextseq, queues, queues.links
      ensures Valid() && queues.links == old(queues.links)
      ensures View() == Extend(old(View()))
    {
      hide Queues.Valid, TCPReno.View, RingBuffer.Contents, RingBuffer.Valid, At, HeadFits, E.MoveHead, ExtendLoop;
      var inFlight: nat := (sendUnackNextseq - sendUnackBase) % U64;
      var node := queues.FirstToSend();
      while node != queues.sendQueue
        invariant Valid() && queues.links == old(queues.links)
        invariant node == At(queues.sendQueue, queues.sendNodes, 0)
        invariant node == queues.sendQueue <==> queues.send == []
        invariant ExtendLoop(View(), inFlight) == Extend(old(View()))
        decreases |queues.send|
      {
        var payload, fits := TestHead(node, inFlight);
        if !fits { break; }
        ExtendTurn(View(), inFlight);
        node := SendHead(node);
        inFlight := (inFlight + payload) % U64;
      }
      ExtendStops(View(), inFlight);
      sendUnackNextseq := (sendUnackBase + inFlight) % U64;
    }

    /** `SetCongestionWindow`, the callback of the congestion manager. */
    method SetCongestionWindow(window: nat)
      requires Valid()
      modifies this`sendWindow, this`wire, this`sendUnackNextseq, queues, queues.links
      ensures Valid() && queues.links == old(queues.links)
      ensures View() == SetWindow(old(View()), window)
    {
      hide Queues.Valid, TCPReno.View, RingBuffer.Contents, RingBuffer.Valid, At, ExtendLoop;
      sendWindow := window;
      RetransmitExtend();
    }

    /** One turn of the loop of `RetransmitShrink`. */
    method DropAcked(node: ListHead) returns (next: ListHead)
      requires Valid() && queues.rtx != [] && node == At(queues.retransmitQueue, queues.rtxNodes, 0)
      modifies this`sendUnackBase, this`sendBufferSize, queues, queues.links
      ensures Valid() && queues.links <= old(queues.links)
      ensures View() == PopAcked(old(View()))
      ensures next == At(queues.retransmitQueue, queues.rtxNodes, 0)
      ensures next == queues.retransmitQueue <==> queues.rtx == []
    {
      hide Queues.Valid, TCPReno.View, RingBuffer.Contents, RingBuffer.Valid, At, PacketBytes;
      var buffer := queues.Unacked(node, 0);
      var length := Len(buffer);
      sendUnackBase := (sendUnackBase + length) % U64;
      sendBufferSize := (sendBufferSize + length) % U64;
      next := queues.DropFront(node);
    }

    /** `RetransmitShrink`. */
    method RetransmitShrink(ack: nat)
      requires Valid()
      modifies this`sendUnackBase, this`sendBufferSize, queues, queues.links
      ensures Valid() && queues.links <= old(queues.links)
      ensures View() == Shrink(old(View()), ack)
    {
      hide Queues.Valid, TCPReno.View, RingBuffer.Contents, RingBuffer.Valid, At, PacketBytes, Shrink, PopAcked;
      var node := queues.FirstUnacked();
      while node != queues.retransmitQueue
        invariant Valid() && queues.links <= old(queues.links)
        invariant node == At(queues.retransmitQueue, queues.rtxNodes, 0)
        invariant node == queues.retransmitQueue <==> queues.rtx == []
        invariant Shrink(View(), ack) == Shrink(old(View()), ack)
        decreases |queues.rtx|
      {
        var buffer := queues.Unacked(node, 0);
        var length := Len(buffer);
        if (buffer.seqNum + length) % U32 > ack { break; }
        ShrinkTurn(View(), ack);
        node := DropAcked(node);
      }
      ShrinkStops(View(), ack);
    }

    /** `RetransmitFront`, by its intent. */
    method RetransmitFront()
      requires Valid()
      modifies this`wire
      ensures Valid() && View() == ResendFront(old(View()))
    {
      hide Queues.Valid, TCPReno.View, RingBuffer.Contents, RingBuffer.Valid, At;
      var node := queues.FirstUnacked();
      if node != queues.retransmitQueue {
        var buffer := queues.Unacked(node, 0);
        wire := wire + [buffer];
      }
    }

    /** The loop of `RetransmitCallback`. */
    method ResendAll() returns (isSyn: bool)
      requires Valid()
      modifies this`wire
      ensures Valid() && View() == old(View()).(wire := old(wire) + queues.rtx)
      ensures isSyn <==> exists s :: s in queues.rtx && s.flags.syn
    {
      hide Queues.Valid, TCPReno.View, RingBuffer.Contents, RingBuffer.Valid, At;
      isSyn := false;
      ghost var i := 0;
      var node := queues.FirstUnacked();
      while node != queues.retransmitQueue
        invariant i <= |queues.rtx|
        invariant node == At(queues.retransmitQueue, queues.rtxNodes, i)
        invariant node == queues.retransmitQueue <==> i == |queues.rtx|
        invariant wire == old(wire) + queues.rtx[..i]
        invariant isSyn <==> exists s :: s in queues.rtx[..i] && s.flags.syn
        decreases |queues.rtx| - i
      {
        var buffer := queues.Unacked(node, i);
        wire := wire + [buffer];
        isSyn := isSyn || buffer.flags.syn;
        assert queues.rtx[..i + 1] == queues.rtx[..i] + [buffer];
        node := queues.NextUnacked(node, i);
        i := i + 1;
      }
      assert queues.rtx[..i] == queues.rtx;
    }

    /** `RetransmitCallback`. */
    method RetransmitCallback()
      requires Valid()
      modifies this, congestion, queues, queues.links
      ensures Valid() && queues.links == old(queues.links)
      ensures View() == E.Timeout(old(View()))
    {
      hide Queues.Valid, RingBuffer.Contents, RingBuffer.Valid, At, Extend, Reno.OnTimeout;
      var isSyn := ResendAll();
      var node := queues.FirstUnacked();
      if node != queues.retransmitQueue && !isSyn {
        var window := congestion.OnTimeout();
        SetCongestionWindow(window.value);
      }
    }

    /** `SendTCPPacketImpl`. */
    method SendTCPPacketImpl(flags: Flags, payload: seq<byte>) returns (status: int)
      requires Valid()
      modifies this, queues, queues.links
      ensures Valid() && fresh(queues.links - old(queues.links))
      ensures View() == Enqueue(old(View()), flags, payload)
      ensures status == if |payload| > MAX_PAYLOAD then 1 else 0
    {
      hide Queues.Valid, TCPReno.View, RingBuffer.Contents, RingBuffer.Valid, At, ExtendLoop, PacketBytes, Symbols;
      if |payload| > MAX_PAYLOAD {
        return 1;
      }
      var buffer := Segment(sendSeqNum, recvSeqNum, flags, payload);
      sendSeqNum := (sendSeqNum + Len(buffer)) % U32;
      stream := stream + Symbols(buffer);
      queues.TxEnqueue(buffer);
      RetransmitExtend();
      return 0;
    }

    /** `SendTCPPacketPush`: the status is the IP layer's. */
    method SendTCPPacketPush(seqNum: nat, ackNum: nat, flags: Flags, sendOk: bool) returns (status: int)
      requires Valid()
      modifies this`wire
      ensures Valid() && View() == if sendOk then Push(old(View()), seqNum, ackNum, flags) else old(View())
      ensures status == 0 <==> sendOk
    {
      hide Queues.Valid, TCPReno.View, RingBuffer.Contents, RingBuffer.Valid, At;
      if !sendOk {
        return 1;
      }
      wire := wire + [Segment(seqNum, ackNum, flags, [])];
      return 0;
    }

    // ----- closing -----

    /** `ShutDown`. */
    method ShutDown()
      requires Valid()
      modifies Repr()
      ensures Valid() && fresh(Repr() - old(Repr()))
      ensures View() == E.ShutDown(old(View()))
    {
      hide Queues.Valid, TCPReno.View, RingBuffer.Contents, RingBuffer.Valid, At, Enqueue;
      match state {
        case Established => state := FinWait1;
        case CloseWait => state := LastAck;
        case _ =>
      }
      var status := SendTCPPacketImpl(FIN_ACK, []);
    }

    /** `ReceiveShutDown`. */
    method ReceiveShutDown()
      requires Valid()
      modifies Repr()
      ensures Valid() && fresh(Repr() - old(Repr()))
      ensures View() == E.ReceiveShutDown(old(View()))
    {
      hide Queues.Valid, TCPReno.View, RingBuffer.Contents, RingBuffer.Valid, At, E.ShutDown;
      match state {
        case Established =>
          state := CloseWait;
          ShutDown();
        case FinWait2 => state := TimeWait;
        case _ =>
      }
    }

    // ----- receiving -----

    /** The in-order part of `ReceiveData`. */
    method Accept(p: Segment)
      requires Valid()
      modifies this`recvSeqNum, ringBuffer, ringBuffer.buffer
      ensures Valid() && View() == E.Accept(old(View()), p)
    {
      hide Queues.Valid, TCPReno.View, At, PacketBytes, Span;
      if p.seqNum == recvSeqNum {
        var taken := p.flags.fin || p.flags.syn;
        if !taken {
          var payload := new byte[|p.payload|](i requires 0 <= i < |p.payload| => p.payload[i]);
          assert payload[..payload.Length] == p.payload;
          taken := ringBuffer.Write(payload, payload.Length);
        }
        if taken {
          recvSeqNum := (recvSeqNum + Len(p)) % U32;
        }
      }
    }

    /** `ReceiveData`. */
    method ReceiveData(p: Segment)
      requires Valid()
      modifies Repr()
      ensures Valid() && fresh(Repr() - old(Repr()))
      ensures View() == E.ReceiveData(old(View()), p)
    {
      hide Queues.Valid, TCPReno.View, RingBuffer.Contents, RingBuffer.Valid, At,
           PacketBytes, E.ReceiveShutDown, E.Accept;
      var isFinish := p.flags == FIN_ACK;
      if Len(p) > 0 {
        if p.seqNum >= recvSeqNum {
          Accept(p);
          var status := SendTCPPacketPush(sendSeqNum, recvSeqNum, ACK, true);
          if isFinish {
            ReceiveShutDown();
          }
        } else if isFinish && p.seqNum == (recvSeqNum - 1) % U32 {
          var status := SendTCPPacketPush(sendSeqNum, recvSeqNum, ACK, true);
        }
      }
    }

    /** `ReceiveAck` up to `RetransmitFront`. */
    method Congest(ack: nat, junk: bool)
      requires Valid()
      modifies this, congestion, queues, queues.links
      ensures Valid() && queues.links == old(queues.links)
      ensures View() == E.Congest(old(View()), ack, junk)
    {
      hide Queues.Valid, RingBuffer.Contents, RingBuffer.Valid, At, Extend, Reno.OnReceiveAck;
      var window, retransmit := congestion.OnReceiveAck(ack, junk);
      if window.Some? {
        SetCongestionWindow(window.value);
      }
      if retransmit {
        RetransmitFront();
      }
    }

    /** `ReceiveAck`. */
    method ReceiveAck(ack: nat, junk: bool)
      requires Valid()
      modifies this, congestion, queues, queues.links
      ensures Valid() && queues.links <= old(queues.links)
      ensures View() == E.ReceiveAck(old(View()), ack, junk)
    {
      hide Queues.Valid, TCPReno.View, RingBuffer.Contents, RingBuffer.Valid, At, E.Congest, Shrink, Extend;
      Congest(ack, junk);
      RetransmitShrink(ack);
      RetransmitExtend();
      if ack == sendSeqNum {
        match state {
          case FinWait1 => state := FinWait2;
          case LastAck => state := Closed;
          case _ =>
        }
      }
    }

    /** `ReceiveConnection`. */
    method ReceiveConnection(p: Segment, sendOk: bool) returns (status: int)
      requires Valid()
      modifies this
      ensures Valid() && View() == E.ReceiveConnection(old(View()), p, sendOk)
      ensures status == 0 <==> sendOk
    {
      hide Queues.Valid, TCPReno.View, RingBuffer.Contents, RingBuffer.Valid, At;
      recvSeqNum := (p.seqNum + 1) % U32;
      status := SendTCPPacketPush(sendSeqNum, recvSeqNum, ACK, sendOk);
      if status == 0 {
        state := Established;
      }
    }

    /** Lines 412 to 414 of `ReceiveStateProcess`: withdraw our SYN. */
    method WithdrawSyn(p: Segment)
      requires Valid()
      modifies this, queues, queues.links
      ensures Valid() && queues.links <= old(queues.links)
      ensures View() == var e := old(View());
                        e.(rtxQ := if e.rtxQ == [] then [] else e.rtxQ[1..],
                           sendSeq := (e.sendSeq - 1) % U32,
                           recvSeq := (p.seqNum + 1) % U32,
                           stream := if e.stream == [] then [] else e.stream[..|e.stream| - 1])
    {
      hide Queues.Valid, TCPReno.View, RingBuffer.Contents, RingBuffer.Valid, At;
      queues.RtxDequeue();
      stream := if stream == [] then [] else stream[..|stream| - 1];
      sendSeqNum := (sendSeqNum - 1) % U32;
      recvSeqNum := (p.seqNum + 1) % U32;
    }

    /** Lines 412 to 416 of `ReceiveStateProcess`. */
    method SimultaneousOpen(p: Segment)
      requires Valid()
      modifies Repr()
      ensures Valid() && fresh(Repr() - old(Repr()))
      ensures View() == E.SimultaneousOpen(old(View()), p)
    {
      hide Queues.Valid, TCPReno.View, RingBuffer.Contents, RingBuffer.Valid, At, Enqueue;
      WithdrawSyn(p);
      var status := SendTCPPacketImpl(SYN_ACK, []);
      state := SynReceived;
    }

    /** `ReceiveRequest`: unless the backlog is full, a socket of its own for the
        connection; the listener itself is unchanged.  The caller enters the new
        socket in the establish map. */
    method ReceiveRequest(p: Segment) returns (status: int, request: Socket?)
      ensures status == 0 <==> accepting.backlogCount < MAX_BACKLOG
      ensures request != null <==> status == 0
      ensures request != null ==> fresh(request) && request.Valid() && fresh(request.Repr()) && fresh(request.accepting)
      ensures request != null ==> request.View() == Child(p) && request.listenSocket == this
    {
      hide Queues.Valid, TCPReno.View, RingBuffer.Contents, RingBuffer.Valid, At, Enqueue;
      if accepting.backlogCount >= MAX_BACKLOG {
        return 1, null;
      }
      var child := new Socket((p.seqNum + 1) % U32, this);
      child.state := SynReceived;
      assert child.View() == Fresh(SynReceived, (p.seqNum + 1) % U32);
      var sent := child.SendTCPPacketImpl(SYN_ACK, []);
      return 0, child;
    }

    /** The accept queue a completed handshake adds to. */
    ghost function Offers(): set<object> {
      if listenSocket == null then {} else {listenSocket.accepting}
    }

    method ReceiveInSynSent(p: Segment, env: Environment)
      requires Valid() && state == SynSent
      modifies Repr()
      ensures Valid() && fresh(Repr() - old(Repr()))
      ensures View() == E.ReceiveInSynSent(old(View()), p, env)
    {
      hide Queues.Valid, TCPReno.View, RingBuffer.Contents, RingBuffer.Valid, At,
           E.ReceiveAck, E.SimultaneousOpen, E.ReceiveConnection;
      if p.flags.syn {
        if p.flags.ack {
          ReceiveAck(p.ackNum, env.junk);
          if sendSeqNum == p.ackNum {
            var status := ReceiveConnection(p, env.sendOk);
          } else {
            var status := SendTCPPacketPush(p.ackNum, (recvSeqNum + 1) % U32, RST, true);
          }
        } else {
          SimultaneousOpen(p);
        }
      }
    }

    /** Lines 425 to 432 of `ReceiveStateProcess`. */
    method CompleteHandshake(ack: nat)
      requires Valid()
      modifies this`state, Offers()
      ensures Valid()
      ensures View() == if ack == sendSeqNum then old(View()).(state := Established) else old(View())
      ensures listenSocket != null ==>
                var q := listenSocket.accepting;
                if ack == sendSeqNum then
                  q.waiting == [this] + old(q.waiting) && q.backlogCount == old(q.backlogCount) + 1
                else q.waiting == old(q.waiting) && q.backlogCount == old(q.backlogCount)
    {
      hide Queues.Valid, TCPReno.View, RingBuffer.Contents, RingBuffer.Valid, At;
      if ack == sendSeqNum {
        if listenSocket != null {
          listenSocket.accepting.Add(this);
        }
        state := Established;
      }
    }

    /** Lines 424 to 435 of `ReceiveStateProcess`. */
    method AcknowledgeInSynReceived(p: Segment, junk: bool)
      requires Valid() && state == SynReceived
      modifies Repr(), Offers()
      ensures Valid() && queues.links <= old(queues.links)
      ensures var e1 := E.ReceiveAck(old(View()), p.ackNum, junk);
              var e2 := if p.ackNum == e1.sendSeq then e1.(state := Established) else e1;
              View() == if p.flags.syn then e2.(recvSeq := p.seqNum) else e2
      ensures listenSocket != null ==>
                var q := listenSocket.accepting;
                if p.ackNum == old(sendSeqNum) then
                  q.waiting == [this] + old(q.waiting) && q.backlogCount == old(q.backlogCount) + 1
                else q.waiting == old(q.waiting) && q.backlogCount == old(q.backlogCount)
    {
      hide Queues.Valid, TCPReno.View, RingBuffer.Contents, RingBuffer.Valid, At, E.ReceiveAck;
      AckKeepsNumber(View(), p.ackNum, junk);
      ReceiveAck(p.ackNum, junk);
      CompleteHandshake(p.ackNum);
      if p.flags.syn {
        recvSeqNum := p.seqNum;
      }
    }

    method ReceiveInSynReceived(p: Segment, env: Environment)
      requires Valid() && state == SynReceived
      modifies Repr(), Offers()
      ensures Valid() && fresh(Repr() - old(Repr()))
      ensures View() == E.ReceiveInSynReceived(old(View()), p, env)
      ensures listenSocket != null ==>
                var q := listenSocket.accepting;
                if Completes(old(View()), p) then
                  q.waiting == [this] + old(q.waiting) && q.backlogCount == old(q.backlogCount) + 1
                else q.waiting == old(q.waiting) && q.backlogCount == old(q.backlogCount)
    {
      hide Queues.Valid, TCPReno.View, RingBuffer.Contents, RingBuffer.Valid, At, E.ReceiveAck, E.ReceiveData;
      if p.flags != SYN && p.flags.ack {
        AcknowledgeInSynReceived(p, env.junk);
        ReceiveData(p);
      }
    }

    method ReceiveSynchronized(p: Segment, env: Environment)
      requires Valid()
      modifies Repr()
      ensures Valid() && fresh(Repr() - old(Repr()))
      ensures View() == E.ReceiveSynchronized(old(View()), p, env)
    {
      hide Queues.Valid, TCPReno.View, RingBuffer.Contents, RingBuffer.Valid, At, E.ReceiveAck, E.ReceiveData;
      if !(p.flags.syn && state != FinWait2) {
        if p.flags.ack {
          ReceiveAck(p.ackNum, env.junk);
        }
        ReceiveData(p);
      }
    }

    /** What the environment decides, and the backlog test. */
    function EnvironmentOf(junk: bool, sendOk: bool): Environment
      reads accepting
    {
      Environment(junk, sendOk, accepting.backlogCount >= MAX_BACKLOG)
    }

    /** `ReceiveStateProcess`.  A SYN that reaches a listener leaves it as it was
        and yields the socket of the new connection; the acknowledgement that
        completes a child's handshake queues the child at its listener. */
    method ReceiveStateProcess(p: Segment, junk: bool, sendOk: bool) returns (request: Socket?)
      requires Valid()
      modifies Repr(), Offers()
      ensures Valid() && fresh(Repr() - old(Repr()))
      ensures request != null <==>
                old(state) == Listen && p.flags == SYN && old(accepting.backlogCount) < MAX_BACKLOG
      ensures request == null ==> View() == Receive(old(View()), p, old(EnvironmentOf(junk, sendOk)))
      ensures request != null ==> View() == old(View()) && fresh(request) && request.Valid() && fresh(request.Repr())
      ensures request != null ==>
                request.View() == Receive(old(View()), p, old(EnvironmentOf(junk, sendOk))) && request.listenSocket == this
      ensures listenSocket != null ==>
                var q := listenSocket.accepting;
                if Completes(old(View()), p) then
                  q.waiting == [this] + old(q.waiting) && q.backlogCount == old(q.backlogCount) + 1
                else q.waiting == old(q.waiting) && q.backlogCount == old(q.backlogCount)
    {
      hide Queues.Valid, TCPReno.View, RingBuffer.Contents, RingBuffer.Valid, At,
           E.ReceiveInSynSent, E.ReceiveInSynReceived, E.ReceiveSynchronized, Child;
      request := null;
      var env := EnvironmentOf(junk, sendOk);
      match state {
        case SynSent => ReceiveInSynSent(p, env);
        case SynReceived => ReceiveInSynReceived(p, env);
        case Listen =>
          if p.flags == SYN {
            var status;
            status, request := ReceiveRequest(p);
          }
        case Closed =>
        case Closing =>
        case _ => ReceiveSynchronized(p, env);
      }
    }

    // ----- the application's calls -----

    /** `Connect`, up to the wait. */
    method Connect()
      requires Valid()
      modifies Repr()
      ensures Valid() && fresh(Repr() - old(Repr()))
      ensures View() == E.Connect(old(View()))
    {
      hide Queues.Valid, TCPReno.View, RingBuffer.Contents, RingBuffer.Valid, At, Enqueue;
      var status := SendTCPPacketImpl(SYN, []);
      state := SynSent;
    }

    /** One turn of the loop of `Write`. */
    method WriteSegment(data: seq<byte>)
      requires Valid() && |data| <= sendBufferSize
      modifies Repr()
      ensures Valid() && fresh(Repr() - old(Repr()))
      ensures View() == E.WriteSegment(old(View()), data)
    {
      hide Queues.Valid, TCPReno.View, RingBuffer.Contents, RingBuffer.Valid, At, Enqueue;
      sendBufferSize := sendBufferSize - |data|;
      written := written + data;
      var status := SendTCPPacketImpl(NONE, data);
    }

    /** `Write` from offset `start` until done or made to wait. */
    method Write(data: seq<byte>, start: nat, resumed: bool) returns (reached: nat)
      requires Valid() && start <= |data|
      modifies Repr()
      ensures Valid() && fresh(Repr() - old(Repr()))
      ensures start <= reached <= |data| && (View(), reached) == WriteLoop(old(View()), data, start, resumed)
    {
      hide Queues.Valid, TCPReno.View, RingBuffer.Contents, RingBuffer.Valid, At, E.WriteSegment, WriteLoop;
      reached := start;
      var waited := resumed;
      while reached < |data|
        invariant start <= reached <= |data|
        invariant Valid() && fresh(Repr() - old(Repr()))
        invariant WriteLoop(View(), data, reached, waited) == WriteLoop(old(View()), data, start, resumed)
      {
        var length := Min(MAX_PAYLOAD, |data| - reached);
        if sendBufferSize < length || (waited && sendBufferSize == length) { break; }
        WriteTurn(View(), data, reached, waited);
        WriteSegment(data[reached..reached + length]);
        reached, waited := reached + length, false;
      }
      WriteStops(View(), data, reached, waited);
    }

    /** `Read`, once the wait is over. */
    method Read(dst: array<byte>, length: nat) returns (n: nat)
      requires Valid() && length <= dst.Length && dst != ringBuffer.buffer
      modifies this`delivered, ringBuffer, dst
      ensures Valid() && View() == E.Read(old(View()), length)
      ensures n == Min(length, |old(View()).ring|) && dst[..n] == old(View()).ring[..n]
    {
      hide Queues.Valid, TCPReno.View, RingBuffer.Contents, RingBuffer.Valid, At;
      n := Drain(dst, length);
      delivered := delivered + dst[..n];
    }

    /** `RingBuffer::Read` on behalf of `Read`. */
    method Drain(dst: array<byte>, length: nat) returns (n: nat)
      requires Valid() && length <= dst.Length && dst != ringBuffer.buffer
      modifies ringBuffer, dst
      ensures Valid() && n == Min(length, |old(View()).ring|)
      ensures View() == old(View()).(ring := old(View()).ring[n..])
      ensures dst[..n] == old(View()).ring[..n]
    {
      hide Queues.Valid, TCPReno.View, At, Span;
      n := ringBuffer.Read(dst, length);
    }

    /** `Socket::Accept`, once the wait is over; nothing else of the socket changes. */
    method AcceptChild() returns (child: Socket)
      requires Valid() && accepting.waiting != []
      modifies accepting
      ensures Valid() && View() == old(View())
      ensures [child] + accepting.waiting == old(accepting.waiting)
      ensures accepting.backlogCount == old(accepting.backlogCount) - 1
    {
      hide Queues.Valid, TCPReno.View, RingBuffer.Contents, RingBuffer.Valid, At;
      child := accepting.Pop();
    }

    /** `Close`, up to the wait. */
    method Close()
      requires Valid()
      modifies Repr()
      ensures Valid() && fresh(Repr() - old(Repr()))
      ensures View() == E.Close(old(View()))
    {
      hide Queues.Valid, TCPReno.View, RingBuffer.Contents, RingBuffer.Valid, At, E.ShutDown;
      if state != Closed && state != Listen {
        ShutDown();
      }
    }

    /** The end of `Close`, once the wait is over. */
    method CloseDone()
      requires Valid()
      modifies this`state
      ensures Valid() && View() == E.CloseDone(old(View()))
    {
      state := Closed;
    }
  }

  lemma WriteTurn(e: Endpoint, data: seq<byte>, start: nat, resumed: bool)
    requires start < |data|
    requires var n := Min(MAX_PAYLOAD, |data| - start); e.credit >= n && !(resumed && e.credit == n)
    ensures var n := Min(MAX_PAYLOAD, |data| - start);
            WriteLoop(e, data, start, resumed)
            == WriteLoop(E.WriteSegment(e, data[start..start + n]), data, start + n, false)
  {
  }

  lemma WriteStops(e: Endpoint, data: seq<byte>, start: nat, resumed: bool)
    requires start <= |data|
    requires var n := Min(MAX_PAYLOAD, |data| - start);
             start == |data| || e.credit < n || (resumed && e.credit == n)
    ensures WriteLoop(e, data, start, resumed) == (e, start)
  {
  }

  /** The number the handshake test compares with is not changed by the
      acknowledgement. */
  lemma AckKeepsNumber(e: Endpoint, ack: nat, junk: bool)
    ensures E.ReceiveAck(e, ack, junk).sendSeq == e.sendSeq
  {
    hide ProcessAck;
    EndpointStates.ProcessAckFields(e, ack, junk);
  }

  lemma ShrinkTurn(e: Endpoint, ack: nat)
    requires e.rtxQ != [] && (e.rtxQ[0].seqNum + Len(e.rtxQ[0])) % U32 <= ack
    ensures Shrink(e, ack) == Shrink(PopAcked(e), ack)
    ensures |PopAcked(e).rtxQ| < |e.rtxQ|
  {
  }

  lemma ShrinkStops(e: Endpoint, ack: nat)
    requires e.rtxQ == [] || (e.rtxQ[0].seqNum + Len(e.rtxQ[0])) % U32 > ack
    ensures Shrink(e, ack) == e
  {
  }

  lemma ExtendTurn(e: Endpoint, inFlight: nat)
    requires e.sendQ != [] && HeadFits(e, inFlight)
    ensures ExtendLoop(e, inFlight) == ExtendLoop(E.MoveHead(e), (inFlight + |e.sendQ[0].payload|) % U64)
    ensures |E.MoveHead(e).sendQ| < |e.sendQ|
  {
    ExtendUnrolls(e, inFlight);
    hide HeadFits, ExtendLoop;
  }

  lemma ExtendUnrolls(e: Endpoint, inFlight: nat)
    requires e.sendQ != [] && HeadFits(e, inFlight)
    ensures ExtendLoop(e, inFlight) == ExtendLoop(E.MoveHead(e), (inFlight + |e.sendQ[0].payload|) % U64)
  {
    hide HeadFits, E.MoveHead;
  }

  lemma ExtendStops(e: Endpoint, inFlight: nat)
    requires e.sendQ == [] || !HeadFits(e, inFlight)
    ensures ExtendLoop(e, inFlight) == e.(unackNext := (e.unackBase + inFlight) % U64)
  {
  }
}
