/** What a packet does, state by state: src/transport/socket_impl.cc:240-319 and 400-473. */
module EndpointOpening {
  import opened Machine
  import opened Segments
  import opened Endpoints
  import opened EndpointStates
  import opened EndpointClosing
  import opened EndpointRetransmission
  import opened EndpointSteps
  import Reno

  /** The packets a step hands to the IP layer. */
  ghost predicate Sends(e: Endpoint, f: Endpoint, p: Segment) {
    f.wire != [] && |f.wire| > |e.wire| && f.wire[|f.wire| - 1] == p
  }

  /** SYN-SENT, packet by packet: what is not a SYN is ignored; a SYN|ACK of everything
      numbered is counted and, if its acknowledgement can be sent, establishes the
      connection; one of anything else is answered with a reset and changes neither
      state nor count; a bare SYN is answered with a SYN|ACK. */
  lemma SynSentOutcome(e: Endpoint, p: Segment, env: Environment)
    requires e.state == SynSent && p.seqNum + 1 < U32 && e.recvSeq + 1 < U32
    ensures var f := Endpoints.Receive(e, p, env);
            && (!p.flags.syn ==> f == e)
            && (p.flags.syn && p.flags.ack && p.ackNum == e.sendSeq ==>
                  && f.recvSeq == p.seqNum + 1 && f.state == (if env.sendOk then Established else SynSent)
                  && (env.sendOk ==> Sends(e, f, Segment(e.sendSeq, p.seqNum + 1, ACK, []))))
            && (p.flags.syn && p.flags.ack && p.ackNum != e.sendSeq ==>
                  f.recvSeq == e.recvSeq && f.state == SynSent && Sends(e, f, Segment(p.ackNum, e.recvSeq + 1, RST, [])))
            && (p.flags.syn && !p.flags.ack ==> f.recvSeq == p.seqNum + 1 && f.state == SynReceived)
  {
    hide ReceiveAck, SimultaneousOpen;
    AckMovesOn(e, p.ackNum, env.junk);
    AckWire(e, p.ackNum, env.junk);
    if p.flags.syn && !p.flags.ack { SimultaneousOpenCounts(e, p); }
  }

  lemma AckWire(e: Endpoint, ack: nat, junk: bool)
    ensures e.wire <= ReceiveAck(e, ack, junk).wire
  {
    CongestWire(e, ack, junk);
    var e3 := Congest(e, ack, junk);
    ShrinkFields(e3, ack);
    hide Congest, Shrink, ExtendLoop;
    ExtendLoopWire(Shrink(e3, ack), InFlight(Shrink(e3, ack)));
  }

  lemma CongestWire(e: Endpoint, ack: nat, junk: bool)
    ensures e.wire <= Congest(e, ack, junk).wire
  {
    var r := Reno.OnReceiveAck(e.reno, ack, junk);
    var e2 := e.(reno := r.next, window := if r.window.Some? then r.window.value else 0);
    hide Reno.OnReceiveAck, ExtendLoop;
    ExtendLoopWire(e2, InFlight(e2));
  }

  /** A simultaneous open renumbers the SYN as a SYN|ACK that counts the peer's. */
  lemma SimultaneousOpenCounts(e: Endpoint, p: Segment)
    requires p.seqNum + 1 < U32
    ensures var f := SimultaneousOpen(e, p);
            f.recvSeq == p.seqNum + 1 && f.state == SynReceived
            && f.stream == (if e.stream == [] then [] else e.stream[..|e.stream| - 1]) + [Syn]
            && f.sendSeq == e.sendSeq % U32
  {
    hide Enqueue;
    var e1 := e.(rtxQ := if e.rtxQ == [] then [] else e.rtxQ[1..],
                 sendSeq := (e.sendSeq - 1) % U32,
                 recvSeq := (p.seqNum + 1) % U32,
                 stream := if e.stream == [] then [] else e.stream[..|e.stream| - 1]);
    EnqueueStream(e1, SYN_ACK, []);
    EnqueueFields(e1, SYN_ACK, []);
    assert Symbols(Segment(e1.sendSeq, e1.recvSeq, SYN_ACK, [])) == [Syn];
  }

  lemma SynSymbols(s: Segment)
    requires s.flags.syn && s.payload == []
    ensures Symbols(s) == [Syn]
  {
  }

  /** A listener answers exactly a bare SYN, and that only while its backlog has room,
      with a child that has counted it and sent its SYN|ACK. */
  lemma ListenOutcome(e: Endpoint, p: Segment, env: Environment)
    requires e.state == Listen && p.seqNum + 1 < U32
    ensures var f := Endpoints.Receive(e, p, env);
            if p.flags == SYN && !env.backlogFull then
              f.state == SynReceived && f.recvSeq == p.seqNum + 1 && f.stream == [Syn] && f.sendSeq == 1
              && f.wire == [Segment(0, p.seqNum + 1, SYN_ACK, [])]
            else f == e
  {
    if p.flags == SYN && !env.backlogFull {
      hide Symbols;
      GoesOut(Fresh(SynReceived, p.seqNum + 1), SYN_ACK, []);
      SynSymbols(Segment(0, p.seqNum + 1, SYN_ACK, []));
      hide Enqueue;
    }
  }

  /** In a synchronized state a segment with the SYN flag is ignored, whatever it says,
      except in FIN-WAIT-2, where nobody looks at the flag and a SYN that is next in
      order is counted and acknowledged. */
  lemma SynOutcome(e: Endpoint, p: Segment, env: Environment)
    requires p.flags.syn && p.payload == []
    requires e.state == Established || e.state == FinWait1 || e.state == FinWait2 || e.state == LastAck || e.state == TimeWait
    ensures var f := Endpoints.Receive(e, p, env);
            if e.state != FinWait2 then f == e
            else if p.seqNum == e.recvSeq then f.recvSeq == (e.recvSeq + 1) % U32
            else f.recvSeq == e.recvSeq
  {
    if e.state == FinWait2 {
      hide ReceiveAck, ReceiveData;
      AckMovesOn(e, p.ackNum, env.junk);
      AnswersExactly(if p.flags.ack then ReceiveAck(e, p.ackNum, env.junk) else e, p);
    }
  }

  predicate Takes(e: Endpoint, p: Segment) {
    0 < Len(p) && p.seqNum == e.recvSeq && (p.flags.fin || |p.payload| + |e.ring| < RING_SIZE)
  }

  /** In every synchronized state, closing ones included, exactly the next segment in
      order that the ring has room for is counted and its payload kept, and a segment
      at or beyond the next one is answered with the number reached. */
  lemma DataOutcome(e: Endpoint, p: Segment, env: Environment)
    requires !p.flags.syn && (p.flags.fin ==> p.payload == [])
    requires e.state == Established || e.state == FinWait1 || e.state == FinWait2 || e.state == LastAck || e.state == TimeWait
    ensures var f := Endpoints.Receive(e, p, env);
            && f.recvSeq == (if Takes(e, p) then (e.recvSeq + Len(p)) % U32 else e.recvSeq)
            && f.ring == (if Takes(e, p) then e.ring + p.payload else e.ring) && f.delivered == e.delivered
            && (Answered(e, p) ==> Segment(e.sendSeq, f.recvSeq, ACK, []) in f.wire)
  {
    hide ReceiveAck, ReceiveData;
    AckMovesOn(e, p.ackNum, env.junk);
    var e1 := if p.flags.ack then ReceiveAck(e, p.ackNum, env.junk) else e;
    AnswersExactly(e1, p);
    RingOutcome(e1, p);
    assert Endpoints.Receive(e, p, env) == ReceiveData(e1, p);
    hide Endpoints.Receive;
    var f := ReceiveData(e1, p);
    if Answered(e1, p) { assert f.wire[|e1.wire|] == Segment(e.sendSeq, f.recvSeq, ACK, []); }
  }

  /** SYN-RECEIVED: what carries no acknowledgement is ignored; an acknowledgement of
      everything numbered establishes the connection and any other does not; data and
      FIN are taken as later; a SYN|ACK counts the SYN again. */
  lemma SynReceivedOutcome(e: Endpoint, p: Segment, env: Environment)
    requires e.state == SynReceived && p.seqNum + 1 < U32 && (p.flags.fin || p.flags.syn ==> p.payload == [])
    ensures var f := Endpoints.Receive(e, p, env);
            && (p.flags == SYN || !p.flags.ack ==> f == e)
            && (p.flags.ack && !p.flags.fin ==> f.state == if p.ackNum == e.sendSeq then Established else SynReceived)
            && (p.flags.ack && !p.flags.syn ==>
                  && f.recvSeq == (if Takes(e, p) then (e.recvSeq + Len(p)) % U32 else e.recvSeq)
                  && f.ring == (if Takes(e, p) then e.ring + p.payload else e.ring)
                  && (Answered(e, p) ==> Segment(e.sendSeq, f.recvSeq, ACK, []) in f.wire))
            && (p.flags.ack && p.flags.syn ==> f.recvSeq == p.seqNum + 1 && f.ring == e.ring)
  {
    if p.flags != SYN && p.flags.ack {
      hide ReceiveAck, ReceiveData, Takes, Answered;
      AckMovesOn(e, p.ackNum, env.junk);
      var e1 := ReceiveAck(e, p.ackNum, env.junk);
      var e2 := if p.ackNum == e.sendSeq then e1.(state := Established) else e1;
      var e3 := if p.flags.syn then e2.(recvSeq := p.seqNum) else e2;
      assert Endpoints.Receive(e, p, env) == ReceiveData(e3, p);
      hide Endpoints.Receive;
      SynReceivedData(e, e3, p);
    }
  }

  lemma SynReceivedData(e: Endpoint, e3: Endpoint, p: Segment)
    requires e3.ring == e.ring && e3.delivered == e.delivered && e3.sendSeq == e.sendSeq
    requires e3.recvSeq == (if p.flags.syn then p.seqNum else e.recvSeq) && p.seqNum + 1 < U32
    requires (p.flags.fin || p.flags.syn ==> p.payload == []) && (e3.state == Established || e3.state == SynReceived)
    ensures var f := ReceiveData(e3, p);
            && (!p.flags.fin ==> f.state == e3.state)
            && (!p.flags.syn ==>
                  && f.recvSeq == (if Takes(e, p) then (e.recvSeq + Len(p)) % U32 else e.recvSeq)
                  && f.ring == (if Takes(e, p) then e.ring + p.payload else e.ring)
                  && (Answered(e, p) ==> Segment(e.sendSeq, f.recvSeq, ACK, []) in f.wire))
            && (p.flags.syn ==> f.recvSeq == p.seqNum + 1 && f.ring == e.ring)
  {
    AnswersExactly(e3, p);
    ReceiveDataStates(e3, p);
    if !p.flags.syn { RingOutcome(e3, p); } else { SynRing(e3, p); }
    hide ReceiveData;
    var f := ReceiveData(e3, p);
    if !p.flags.syn && Answered(e, p) { assert f.wire[|e3.wire|] == Segment(e.sendSeq, f.recvSeq, ACK, []); }
  }

  lemma SynRing(e: Endpoint, p: Segment)
    requires p.flags.syn && p.seqNum == e.recvSeq
    ensures ReceiveData(e, p).ring == e.ring
  {
    hide Enqueue;
    var g := PushAck(Accept(e, p)).(state := LastAck);
    EnqueueFields(g, FIN_ACK, []);
  }

  lemma RingOutcome(e: Endpoint, p: Segment)
    requires p.flags.fin ==> p.payload == []
    requires !p.flags.syn
    ensures var f := ReceiveData(e, p);
            f.ring == (if Takes(e, p) then e.ring + p.payload else e.ring) && f.delivered == e.delivered
  {
    hide Enqueue;
    var g := PushAck(Accept(e, p)).(state := LastAck);
    EnqueueStream(g, FIN_ACK, []);
    EnqueueFields(g, FIN_ACK, []);
    assert e.ring + [] == e.ring;
  }
}
