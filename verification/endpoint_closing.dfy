/** What closing does, from the call to the last state: src/transport/socket_impl.cc:321-379
    and 578-594. */
module EndpointClosing {
  import opened Machine
  import opened Segments
  import opened Endpoints
  import opened EndpointInvariant
  import opened EndpointSteps
  import opened EndpointReceive
  import opened EndpointActions
  import opened EndpointStates

  // ----- queueing with nothing in the way -----

  /** With nothing waiting, extending changes nothing. */
  lemma ExtendIdle(e: Endpoint)
    requires e.sendQ == [] && e.unackBase < U64 && e.unackNext < U64
    ensures Extend(e) == e
  {
    assert (e.unackBase + (e.unackNext - e.unackBase) % U64) % U64 == e.unackNext;
  }

  /** A segment that fits the window, queued with nothing waiting, goes out. */
  lemma GoesOut(e: Endpoint, flags: Flags, payload: seq<byte>)
    requires e.sendQ == [] && |payload| <= MAX_PAYLOAD
    requires (PacketBytes(flags, |payload|) + InFlight(e)) % U64 <= e.window
    ensures var s := Segment(e.sendSeq, e.recvSeq, flags, payload);
            Enqueue(e, flags, payload)
            == e.(rtxQ := e.rtxQ + [s], wire := e.wire + [s], sendSeq := (e.sendSeq + Len(s)) % U32,
                  stream := e.stream + Symbols(s),
                  unackNext := (e.unackBase + (InFlight(e) + |payload|) % U64) % U64)
  {
    hide Symbols;
    var s := Segment(e.sendSeq, e.recvSeq, flags, payload);
    var g := e.(sendQ := [s], sendSeq := (e.sendSeq + Len(s)) % U32, stream := e.stream + Symbols(s));
    assert e.sendQ + [s] == [s];
    assert Enqueue(e, flags, payload) == ExtendLoop(g, InFlight(e));
    assert HeadFits(g, InFlight(e));
    var h := MoveHead(g);
    assert h.sendQ == [];
    assert ExtendLoop(g, InFlight(e)) == ExtendLoop(h, (InFlight(e) + |payload|) % U64);
  }

  lemma EnqueueStream(e: Endpoint, flags: Flags, payload: seq<byte>)
    requires |payload| <= MAX_PAYLOAD
    ensures var f := Enqueue(e, flags, payload);
            var s := Segment(e.sendSeq, e.recvSeq, flags, payload);
            f.stream == e.stream + Symbols(s) && f.sendSeq == (e.sendSeq + Len(s)) % U32
            && f.delivered == e.delivered && f.written == e.written
  {
    hide Extend, Symbols;
    var s := Segment(e.sendSeq, e.recvSeq, flags, payload);
    ExtendFields(e.(sendQ := e.sendQ + [s], sendSeq := (e.sendSeq + Len(s)) % U32, stream := e.stream + Symbols(s)));
  }

  /** A FIN numbered now would be sent at once. */
  predicate SendsAtOnce(e: Endpoint) {
    e.sendQ == [] && (1 + InFlight(e)) % U64 <= e.window
  }

  ghost function FinOf(e: Endpoint): Segment {
    Segment(e.sendSeq, e.recvSeq, FIN_ACK, [])
  }

  lemma FinGoesOut(e: Endpoint)
    requires e.sendQ == [] || !HeadFits(e, InFlight(e))
    ensures var f := Enqueue(e, FIN_ACK, []);
            if SendsAtOnce(e) then FinOf(e) in f.wire else f.wire == e.wire
  {
    hide Symbols;
    var s := FinOf(e);
    var g := e.(sendQ := e.sendQ + [s], sendSeq := (e.sendSeq + Len(s)) % U32, stream := e.stream + Symbols(s));
    assert Enqueue(e, FIN_ACK, []) == Extend(g);
    if SendsAtOnce(e) {
      GoesOut(e, FIN_ACK, []);
    } else {
      assert !HeadFits(g, InFlight(g));
    }
  }

  // ----- the call -----

  /** `Close` numbers one FIN, which goes out at once exactly if the window test
      lets it, and takes an established connection to FIN-WAIT-1; a socket that was
      never opened, or only listens, it leaves alone. */
  lemma CloseNumbersFin(e: Endpoint)
    requires Inv(e) && Life(e) && Room(e, Close)
    ensures var f := Act(e, Close);
            if e.state == Closed || e.state == Listen then f == e
            else
              && Inv(f) && f.stream == e.stream + [Fin] && f.written == e.written && f.unackBase == e.unackBase
              && f.recvSeq == e.recvSeq && f.ring == e.ring && f.delivered == e.delivered
              && f.state == (if e.state == Established then FinWait1 else e.state)
              && (if SendsAtOnce(e) then FinOf(e) in f.wire else f.wire == e.wire)
  {
    hide Inv, Enqueue, InFlight, ShutDown, HeadFits, SentUpto;
    if e.state != Closed && e.state != Listen {
      var g := e.(state := if e.state == Established then FinWait1 else e.state);
      StalledHead(e, g.state);
      ShutDownKeeps(e);
      ShutDownIs(e);
      hide Life, Progress, SendsAtOnce;
      FinGoesOut(g);
      EnqueueStream(g, FIN_ACK, []);
      EnqueueFields(g, FIN_ACK, []);
    }
  }

  lemma StalledHead(e: Endpoint, state: ConnectionState)
    requires Inv(e)
    ensures var g := e.(state := state);
            (g.sendQ == [] || !HeadFits(g, InFlight(g))) && SendsAtOnce(g) == SendsAtOnce(e)
  {
  }

  lemma ShutDownIs(e: Endpoint)
    requires e.state != CloseWait
    ensures ShutDown(e) == Enqueue(e.(state := if e.state == Established then FinWait1 else e.state), FIN_ACK, [])
  {
    hide Enqueue;
  }

  // ----- a FIN received -----

  /** The state an acknowledgement leaves, whether of everything numbered or not. */
  function AfterAck(state: ConnectionState, full: bool): ConnectionState {
    if !full then state
    else match state
         case SynReceived => Established
         case FinWait1 => FinWait2
         case LastAck => Closed
         case s => s
  }

  predicate TakesFin(state: ConnectionState) {
    state == SynReceived || state == Established || state == FinWait1 || state == FinWait2 || state == LastAck
    || state == TimeWait
  }

  /** A FIN not yet counted: the end that has closed and been acknowledged comes to
      TIME-WAIT, exactly; the one that has not closed numbers its own FIN and comes
      to LAST-ACK, exactly; the FIN is counted if it is next in order. */
  lemma FinMovesOn(e: Endpoint, p: Segment, env: Environment)
    requires TakesFin(e.state) && p.flags == FIN_ACK && p.payload == [] && p.seqNum >= e.recvSeq
    ensures var f := Endpoints.Receive(e, p, env);
            var state := AfterAck(e.state, p.ackNum == e.sendSeq);
            && (f.state == TimeWait <==> state == FinWait2 || state == TimeWait)
            && (f.state == LastAck <==> state == Established || state == LastAck)
            && (state != FinWait2 && state != Established ==> f.state == state)
            && f.stream == e.stream + (if state == Established then [Fin] else [])
            && f.recvSeq == (if p.seqNum == e.recvSeq then (e.recvSeq + 1) % U32 else e.recvSeq)
            && f.ring == e.ring && f.delivered == e.delivered
  {
    hide ProcessAck, Enqueue;
    var e1 := ReceiveAck(e, p.ackNum, env.junk);
    AckMovesOn(e, p.ackNum, env.junk);
    hide ReceiveAck;
    var e2 := if e.state == SynReceived && p.ackNum == e.sendSeq then e1.(state := Established) else e1;
    ReceiveIs(e, p, env, e2);
    FinTaken(e2, p);
    hide ReceiveData, Endpoints.Receive;
  }

  lemma AckMovesOn(e: Endpoint, ack: nat, junk: bool)
    ensures var f := ReceiveAck(e, ack, junk);
            && f.stream == e.stream && f.recvSeq == e.recvSeq && f.ring == e.ring && f.delivered == e.delivered
            && f.written == e.written && f.sendSeq == e.sendSeq
            && f.state == if e.state == SynReceived then e.state else AfterAck(e.state, ack == e.sendSeq)
  {
    ProcessAckFields(e, ack, junk);
    hide ProcessAck;
  }

  /** Which handler a FIN gets to. */
  lemma ReceiveIs(e: Endpoint, p: Segment, env: Environment, e2: Endpoint)
    requires TakesFin(e.state) && p.flags == FIN_ACK
    requires var e1 := ReceiveAck(e, p.ackNum, env.junk);
             e1.sendSeq == e.sendSeq
             && e2 == if e.state == SynReceived && p.ackNum == e1.sendSeq then e1.(state := Established) else e1
    ensures Endpoints.Receive(e, p, env) == ReceiveData(e2, p)
  {
    hide ReceiveAck, ReceiveData;
  }

  /** The FIN itself, once its acknowledgement has been handled. */
  lemma FinTaken(e: Endpoint, p: Segment)
    requires e.state != CloseWait && p.flags == FIN_ACK && p.payload == [] && p.seqNum >= e.recvSeq
    ensures var f := ReceiveData(e, p);
            && f.state == (match e.state case Established => LastAck case FinWait2 => TimeWait case s => s)
            && f.stream == e.stream + (if e.state == Established then [Fin] else [])
            && f.recvSeq == (if p.seqNum == e.recvSeq then (e.recvSeq + 1) % U32 else e.recvSeq)
            && f.ring == e.ring && f.delivered == e.delivered
  {
    hide Enqueue;
    var g := PushAck(Accept(e, p)).(state := LastAck);
    EnqueueStream(g, FIN_ACK, []);
    EnqueueFields(g, FIN_ACK, []);
    assert e.stream + [] == e.stream;
  }
}
