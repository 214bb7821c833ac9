/** Handling a packet keeps the invariant, whatever the packet says, with two
    exceptions that are named and characterised here. */
module EndpointReceive {
  import opened Machine
  import opened Segments
  import opened Endpoints
  import opened EndpointInvariant
  import opened EndpointSteps
  import opened EndpointSend
  import Reno

  /** Facts about the packet itself: it does not wrap the receiver's sequence
      number and a SYN or FIN carries no payload. */
  ghost predicate WellFormed(p: Segment) {
    && (0 < Len(p) ==> p.seqNum + Len(p) < U32)
    && (p.flags.syn || p.flags.fin ==> p.payload == [])
  }

  /** A bare SYN in SYN-SENT withdraws one sequence number.  That is sound only
      while our SYN is all we have numbered and is still unacknowledged. */
  ghost predicate WithdrawSafe(e: Endpoint) {
    e.sendSeq == 1 && e.unackBase == 0
  }

  /** SYN-RECEIVED sets `recv_seq_num_` from a SYN|ACK; this is when that moves it
      backwards. */
  ghost predicate Rewinds(e: Endpoint, p: Segment) {
    e.state == SynReceived && p.flags.syn && p.flags.ack && p.seqNum + 1 < e.recvSeq
  }

  ghost predicate Hazard(e: Endpoint, p: Segment) {
    || (e.state == SynSent && p.flags.syn && !p.flags.ack && !WithdrawSafe(e))
    || Rewinds(e, p)
  }

  /** How a packet moves the receiving side: not at all, by the next segment in
      order, or by a SYN counted in a handshake state. */
  ghost predicate Intake(e: Endpoint, f: Endpoint, p: Segment) {
    || (f.recvSeq == e.recvSeq && f.ring == e.ring)
    || (0 < Len(p) && p.seqNum == e.recvSeq && f.recvSeq == e.recvSeq + Len(p) && f.ring == e.ring + p.payload)
    || (p.flags.syn && p.seqNum + 1 == f.recvSeq && e.recvSeq <= f.recvSeq && f.ring == e.ring)
  }

  ghost function AckOf(p: Segment): nat {
    if p.flags.ack then p.ackNum else 0
  }

  /** The whole effect of a packet, as the peer needs to know it. */
  ghost predicate Receives(e: Endpoint, f: Endpoint, p: Segment) {
    && e.stream <= f.stream && f.written == e.written && e.wire <= f.wire
    && e.unackBase <= f.unackBase <= Max(e.unackBase, AckOf(p))
    && SentUpto(e) <= SentUpto(f)
    && f.delivered == e.delivered
    && Intake(e, f, p)
  }

  // ----- small steps -----

  lemma StateKeeps(e: Endpoint, state: ConnectionState)
    requires Inv(e)
    ensures Inv(e.(state := state)) && SentUpto(e.(state := state)) == SentUpto(e)
  {
    hide Carries, Tiles, Payload, Controls, Bytes, Reno.Inv;
    CoreFrame(e, e.(state := state));
  }

  lemma PushKeeps(e: Endpoint, seqNum: nat, ackNum: nat, flags: Flags)
    requires Inv(e) && !flags.syn && !flags.fin && (flags.ack ==> ackNum <= e.recvSeq)
    ensures var f := Push(e, seqNum, ackNum, flags);
            Inv(f) && Progress(e, f, 0)
  {
    hide Carries, Tiles, Payload, Controls, Bytes, Reno.Inv;
    var f := Push(e, seqNum, ackNum, flags);
    forall p | p in f.wire ensures Truthful(f, p) {
      if p in e.wire { assert Truthful(e, p); }
    }
  }

  lemma RecvKeeps(e: Endpoint, recvSeq: nat, ring: seq<byte>)
    requires Inv(e) && e.recvSeq <= recvSeq && (ring == e.ring || |ring| < RING_SIZE)
    ensures var f := e.(recvSeq := recvSeq, ring := ring);
            Inv(f) && SentUpto(f) == SentUpto(e)
  {
    hide Carries, Tiles, Payload, Controls, Bytes, Reno.Inv;
    var f := e.(recvSeq := recvSeq, ring := ring);
    forall p | p in f.wire ensures Truthful(f, p) { assert Truthful(e, p); }
  }

  lemma InvFacts(e: Endpoint)
    requires Inv(e)
    ensures Core(e) && Accounted(e) && |e.ring| < RING_SIZE && e.sendSeq == |e.stream| < U32
    ensures e.unackBase <= SentUpto(e) <= |e.stream|
  {
    CoreBounds(e);
  }

  // ----- closing -----

  lemma ShutDownKeeps(e: Endpoint)
    requires Inv(e) && e.stream != [] && |e.stream| + 1 < U32
    ensures Inv(ShutDown(e)) && Progress(e, ShutDown(e), 0)
    ensures ShutDown(e).stream == e.stream + [Fin] && ShutDown(e).written == e.written
    ensures ShutDown(e).unackBase == e.unackBase
  {
    hide Inv, Core, Accounted, SentUpto, Enqueue;
    var state := match e.state case Established => FinWait1 case CloseWait => LastAck case s => s;
    StateKeeps(e, state);
    InvFacts(e.(state := state));
    EnqueueControl(e.(state := state), FIN_ACK);
  }

  lemma ReceiveShutDownKeeps(e: Endpoint)
    requires Inv(e) && e.stream != [] && |e.stream| + 1 < U32
    ensures var f := ReceiveShutDown(e);
            Inv(f) && Progress(e, f, 0) && f.written == e.written && f.unackBase == e.unackBase
  {
    hide Inv, Core, Accounted, SentUpto, ShutDown;
    match e.state
    case Established =>
      StateKeeps(e, CloseWait);
      ShutDownKeeps(e.(state := CloseWait));
    case FinWait2 =>
      StateKeeps(e, TimeWait);
    case _ =>
  }

  // ----- data -----

  lemma AcceptIs(e: Endpoint, p: Segment)
    requires WellFormed(p) && 0 < Len(p) && |e.ring| < RING_SIZE
    ensures var f := Accept(e, p);
            f == e || (p.seqNum == e.recvSeq && |e.ring + p.payload| < RING_SIZE
                       && f == e.(recvSeq := e.recvSeq + Len(p), ring := e.ring + p.payload))
  {
  }

  lemma AcceptKeeps(e: Endpoint, p: Segment)
    requires Inv(e) && WellFormed(p) && 0 < Len(p)
    ensures var f := Accept(e, p);
            Inv(f) && Intake(e, f, p) && f == e.(recvSeq := f.recvSeq, ring := f.ring) && SentUpto(f) == SentUpto(e)
  {
    InvFacts(e);
    AcceptIs(e, p);
    hide Inv, Core, Accounted, SentUpto, Accept, WellFormed;
    if Accept(e, p) != e {
      RecvKeeps(e, e.recvSeq + Len(p), e.ring + p.payload);
    }
  }

  lemma ReceiveDataKeeps(e: Endpoint, p: Segment)
    requires Inv(e) && WellFormed(p) && (p.flags == FIN_ACK ==> e.stream != [] && |e.stream| + 1 < U32)
    ensures var f := ReceiveData(e, p);
            Inv(f) && f.written == e.written && e.stream <= f.stream && e.wire <= f.wire
            && f.unackBase == e.unackBase && SentUpto(e) <= SentUpto(f) && f.delivered == e.delivered
            && Intake(e, f, p)
  {
    hide Inv, Core, Accounted, SentUpto, Accept, ReceiveShutDown, WellFormed, Intake;
    if Len(p) != 0 {
      if p.seqNum >= e.recvSeq {
        AcceptKeeps(e, p);
        var e1 := Accept(e, p);
        PushKeeps(e1, e1.sendSeq, e1.recvSeq, ACK);
        var e2 := PushAck(e1);
        if p.flags == FIN_ACK { ReceiveShutDownKeeps(e2); }
        IntakeFrame(e, e1, ReceiveData(e, p), p);
      } else {
        PushKeeps(e, e.sendSeq, e.recvSeq, ACK);
        IntakeFrame(e, e, ReceiveData(e, p), p);
      }
    } else {
      IntakeFrame(e, e, e, p);
    }
  }

  lemma IntakeFrame(e: Endpoint, f: Endpoint, g: Endpoint, p: Segment)
    requires Intake(e, f, p) || f == e
    requires g.recvSeq == f.recvSeq && g.ring == f.ring
    ensures Intake(e, g, p)
  {
  }

  lemma ReceiveAckKeeps(e: Endpoint, ack: nat, junk: bool)
    requires Inv(e)
    ensures var f := ReceiveAck(e, ack, junk);
            Inv(f) && Progress(e, f, ack) && f.written == e.written && f.stream == e.stream && f.sendSeq == e.sendSeq
  {
    hide Inv, SentUpto, ProcessAck, Core, Accounted;
    ProcessAckKeeps(e, ack, junk);
    var g := ProcessAck(e, ack, junk);
    StateKeeps(g, FinWait2);
    StateKeeps(g, Closed);
    InvFacts(e);
    InvFacts(g);
  }

  // ----- whole packets -----

  lemma SynchronizedKeeps(e: Endpoint, p: Segment, env: Environment)
    requires Inv(e) && WellFormed(p) && e.stream != [] && |e.stream| + 1 < U32
    ensures var f := ReceiveSynchronized(e, p, env);
            Inv(f) && Receives(e, f, p)
  {
    hide Inv, SentUpto, ReceiveAck, ReceiveData, WellFormed;
    if p.flags.ack { ReceiveAckKeeps(e, p.ackNum, env.junk); }
    var e1 := if p.flags.ack then ReceiveAck(e, p.ackNum, env.junk) else e;
    ReceiveDataKeeps(e1, p);
  }

  lemma SynReceivedKeeps(e: Endpoint, p: Segment, env: Environment)
    requires Inv(e) && WellFormed(p) && e.stream != [] && |e.stream| + 1 < U32
    requires e.state == SynReceived && !Hazard(e, p)
    ensures var f := ReceiveInSynReceived(e, p, env);
            Inv(f) && Receives(e, f, p)
  {
    hide Inv, SentUpto, ReceiveAck, ReceiveData, Accept;
    if p.flags != SYN && p.flags.ack {
      ReceiveAckKeeps(e, p.ackNum, env.junk);
      var e1 := ReceiveAck(e, p.ackNum, env.junk);
      StateKeeps(e1, Established);
      var e2 := if p.ackNum == e1.sendSeq then e1.(state := Established) else e1;
      if p.flags.syn {
        SynCounted(e2, p);
      } else {
        ReceiveDataKeeps(e2, p);
      }
    }
  }

  /** The receiving side has counted a SYN; nothing else moved. */
  ghost predicate Counted(e: Endpoint, f: Endpoint, p: Segment) {
    && Inv(f) && f.recvSeq == p.seqNum + 1 && f.ring == e.ring && f.delivered == e.delivered
    && f.written == e.written && f.unackBase == e.unackBase && f.stream == e.stream && e.wire <= f.wire
    && SentUpto(e) <= SentUpto(f)
  }

  /** Rewinding to the SYN and receiving it again counts it once. */
  lemma SynCounted(e: Endpoint, p: Segment)
    requires Inv(e) && WellFormed(p) && p.flags.syn && e.recvSeq <= p.seqNum + 1
    ensures Counted(e, ReceiveData(e.(recvSeq := p.seqNum), p), p)
  {
    assert Len(p) == 1;
    var g := e.(recvSeq := p.seqNum + 1);
    assert ReceiveData(e.(recvSeq := p.seqNum), p) == PushAck(g);
    CountedPush(e, p);
  }

  lemma CountedPush(e: Endpoint, p: Segment)
    requires Inv(e) && e.recvSeq <= p.seqNum + 1
    ensures var g := e.(recvSeq := p.seqNum + 1);
            Counted(e, g, p) && Counted(e, PushAck(g), p) && Counted(e, PushAck(g).(state := Established), p)
  {
    var g := e.(recvSeq := p.seqNum + 1);
    assert e.(recvSeq := p.seqNum + 1, ring := e.ring) == g;
    hide Inv, SentUpto;
    RecvKeeps(e, p.seqNum + 1, e.ring);
    PushKeeps(g, g.sendSeq, g.recvSeq, ACK);
    StateKeeps(PushAck(g), Established);
  }

  lemma CountedReceives(e: Endpoint, e1: Endpoint, f: Endpoint, p: Segment)
    requires Progress(e, e1, p.ackNum) && e1.written == e.written && Counted(e1, f, p)
    requires p.flags.syn && p.flags.ack && e.recvSeq <= p.seqNum + 1
    ensures Receives(e, f, p)
  {
  }

  lemma PushedReceives(e: Endpoint, e1: Endpoint, f: Endpoint, p: Segment)
    requires Progress(e, e1, p.ackNum) && e1.written == e.written && p.flags.ack
    requires Progress(e1, f, 0) && f.written == e1.written
    ensures Receives(e, f, p)
  {
  }

  /** SYN|ACK in SYN-SENT: the two outcomes, after the acknowledgement. */
  lemma ConnectionKeeps(e: Endpoint, e1: Endpoint, p: Segment, sendOk: bool)
    requires Inv(e1) && Progress(e, e1, p.ackNum) && e1.written == e.written
    requires p.seqNum + 1 < U32 && p.flags.syn && p.flags.ack && e.recvSeq <= p.seqNum + 1
    ensures Inv(ReceiveConnection(e1, p, sendOk)) && Receives(e, ReceiveConnection(e1, p, sendOk), p)
  {
    hide Inv, SentUpto, PushAck, Intake, ReceiveConnection, Counted;
    assert e1.recvSeq == e.recvSeq;
    CountedPush(e1, p);
    var f := ReceiveConnection(e1, p, sendOk);
    ConnectionIs(e1, p, sendOk);
    CountedInv(e1, f, p);
    CountedReceives(e, e1, f, p);
  }

  lemma RefusalKeeps(e: Endpoint, e1: Endpoint, p: Segment)
    requires Inv(e1) && Progress(e, e1, p.ackNum) && e1.written == e.written && p.flags.ack
    ensures var f := Push(e1, p.ackNum, (e1.recvSeq + 1) % U32, RST);
            Inv(f) && Receives(e, f, p)
  {
    hide Inv, SentUpto;
    PushKeeps(e1, p.ackNum, (e1.recvSeq + 1) % U32, RST);
    PushedReceives(e, e1, Push(e1, p.ackNum, (e1.recvSeq + 1) % U32, RST), p);
  }

  /** In SYN-SENT nothing but the peer's SYN has been counted. */
  lemma SynSentAckKeeps(e: Endpoint, p: Segment, env: Environment)
    requires Inv(e) && WellFormed(p)
    requires e.state == SynSent && e.recvSeq <= 1 && p.flags.syn && p.flags.ack
    ensures Inv(ReceiveInSynSent(e, p, env)) && Receives(e, ReceiveInSynSent(e, p, env), p)
  {
    hide *;
    SynRoom(e, p);
    SynSentAckIs(e, p, env);
    ReceiveAckKeeps(e, p.ackNum, env.junk);
    var e1 := ReceiveAck(e, p.ackNum, env.junk);
    if e1.sendSeq == p.ackNum {
      ConnectionKeeps(e, e1, p, env.sendOk);
    } else {
      RefusalKeeps(e, e1, p);
    }
  }

  lemma SynRoom(e: Endpoint, p: Segment)
    requires WellFormed(p) && p.flags.syn && e.state == SynSent && e.recvSeq <= 1 && p.flags.ack
    ensures p.seqNum + 1 < U32 && (p.ackNum == e.sendSeq ==> e.recvSeq <= p.seqNum + 1)
  {
  }

  lemma SynSentAckIs(e: Endpoint, p: Segment, env: Environment)
    requires p.flags.syn && p.flags.ack
    ensures var e1 := ReceiveAck(e, p.ackNum, env.junk);
            ReceiveInSynSent(e, p, env)
            == if e1.sendSeq == p.ackNum then ReceiveConnection(e1, p, env.sendOk)
               else Push(e1, p.ackNum, (e1.recvSeq + 1) % U32, RST)
  {
  }

  lemma ConnectionIs(e: Endpoint, p: Segment, sendOk: bool)
    requires p.seqNum + 1 < U32
    ensures var g := e.(recvSeq := p.seqNum + 1);
            ReceiveConnection(e, p, sendOk) == if sendOk then PushAck(g).(state := Established) else g
  {
  }

  lemma CountedInv(e: Endpoint, f: Endpoint, p: Segment)
    requires Counted(e, f, p)
    ensures Inv(f)
  {
  }
}
