/** Both sides connect: runs are safe when the applications wait for `connect`
    to return before writing or closing, as a blocking call makes them. */
module ProtocolSimultaneous {
  import opened Machine
  import opened Segments
  import opened Endpoints
  import opened EndpointInvariant
  import opened EndpointSteps
  import opened EndpointReceive
  import opened EndpointOperations
  import opened EndpointActions
  import opened EndpointStates
  import opened Protocol
  import opened ProtocolRun
  import opened ProtocolOpening
  import Reno

  /** The application writes and closes only past `connect`. */
  ghost predicate Disciplined(e: Endpoint, a: Action) {
    a.Write? || a.Close? ==> e.state != SynSent && e.state != SynReceived
  }

  ghost predicate DisciplinedRun(s: System, moves: seq<Move>)
    decreases |moves|
  {
    moves == []
    || (Disciplined(Get(s, moves[0].side), moves[0].action) && DisciplinedRun(Next(s, moves[0]), moves[1..]))
  }

  /** A bare SYN comes after the peer acknowledged ours: so this side's own
      acknowledgement was refused by its IP layer. */
  ghost predicate LateSyn(e: Endpoint, a: Action) {
    a.Receive? && a.packet.flags.syn && !a.packet.flags.ack && e.state == SynSent && e.unackBase == 1
  }

  ghost predicate NoLateSyn(s: System, moves: seq<Move>)
    decreases |moves|
  {
    moves == []
    || (!LateSyn(Get(s, moves[0].side), moves[0].action) && NoLateSyn(Next(s, moves[0]), moves[1..]))
  }

  /** During its handshake an endpoint has numbered only its SYN and counted only
      its peer's; its FINs acknowledge at least that, and its data carries no flags. */
  ghost predicate Orderly(e: Endpoint) {
    && (e.state == SynSent ==> e.stream == [Syn])
    && (e.state == SynReceived ==> e.stream == [Syn] && e.recvSeq == 1)
    && (forall p :: Mentions(e, p) ==> Proper(p))
  }

  ghost predicate Proper(p: Segment) {
    (p.flags.fin ==> 1 <= p.ackNum) && (p.payload != [] ==> p.flags == NONE)
  }

  lemma OrderlyHazard(e: Endpoint, a: Action)
    requires Sound(e) && Orderly(e) && a.Receive? && (a.packet.flags.syn ==> a.packet.seqNum == 0)
    ensures Hazard(e, a.packet) <==> LateSyn(e, a)
  {
    InvFacts(e);
  }

  lemma ProperStays(e: Endpoint, f: Endpoint, kinds: set<Flags>, floor: nat)
    requires Adds(e, f, kinds, floor) && (forall p :: Mentions(e, p) ==> Proper(p))
    requires (forall k :: k in kinds ==> !k.fin) || 1 <= floor
    ensures forall p :: Mentions(f, p) ==> Proper(p)
  {
  }

  lemma OrderlyProper(e: Endpoint)
    requires Orderly(e)
    ensures forall p :: Mentions(e, p) ==> Proper(p)
  {
  }

  /** A FIN is queued only once the peer's SYN has been counted. */
  lemma FinsAcknowledge(e: Endpoint, a: Action)
    requires Sound(e) && Orderly(e) && Allowed(e, a) && Disciplined(e, a)
    requires a.Receive? ==> WellFormed(a.packet)
    ensures forall p :: Mentions(Act(e, a), p) ==> Proper(p)
  {
    hide *;
    SoundStates(e);
    OrderlyProper(e);
    if a.Close? && (e.state == Closed || e.state == Listen) {
      IdleClose(e, a);
    } else if e.state == Closed && a.Receive? {
      ClosedIgnores(e, a.packet, a.env);
      ActReceives(e, a);
    } else if e.state == SynSent && a.Receive? {
      SynSentProper(e, a);
    } else {
      ActAdds(e, a);
      FinKinds(e, a);
      ProperStays(e, Act(e, a), Kinds(e, a), FinFloor(e));
    }
  }

  lemma IdleClose(e: Endpoint, a: Action)
    requires a.Close? && (e.state == Closed || e.state == Listen)
    ensures Act(e, a) == e
  {
  }

  lemma ActReceives(e: Endpoint, a: Action)
    requires a.Receive?
    ensures Act(e, a) == Endpoints.Receive(e, a.packet, a.env)
  {
  }

  lemma SynSentProper(e: Endpoint, a: Action)
    requires e.state == SynSent && a.Receive? && forall p :: Mentions(e, p) ==> Proper(p)
    ensures forall p :: Mentions(Act(e, a), p) ==> Proper(p)
  {
    hide Mentions, Proper, Adds, ReceiveInSynSent;
    SynSentAdds(e, a.packet, a.env);
    ProperStays(e, Act(e, a), if a.packet.flags.syn && !a.packet.flags.ack then {SYN_ACK} else {ACK, RST}, 1);
  }

  /** Whenever a FIN may be queued the peer's SYN has been counted. */
  lemma FinKinds(e: Endpoint, a: Action)
    requires Sound(e) && Allowed(e, a) && Disciplined(e, a)
    requires !(a.Close? && (e.state == Closed || e.state == Listen)) && !(e.state == SynSent && a.Receive?)
    ensures (forall k :: k in Kinds(e, a) ==> !k.fin) || 1 <= FinFloor(e) || (a.Receive? && e.state == Closed)
  {
  }

  // ----- the handshake states -----

  /** Still in SYN-SENT: the stream is as it was. */
  lemma StaysSynSent(x: Endpoint, p: Segment, env: Environment)
    requires Orderly(x) && x.state == SynSent
    requires Endpoints.Receive(x, p, env).state == SynSent
    ensures Endpoints.Receive(x, p, env).stream == [Syn]
  {
    hide ReceiveAck, SimultaneousOpen;
    ReceiveAckStates(x, p.ackNum, env.junk);
    SimultaneousOpenState(x, p);
  }

  lemma GenuineAck(p: Segment, y: Endpoint)
    requires Genuine(p, y)
    ensures p.flags.ack ==> p.ackNum <= y.recvSeq
  {
  }

  lemma EntersSynReceived(x: Endpoint, p: Segment, env: Environment)
    requires Sound(x) && Orderly(x) && (x.state == SynSent || x.state == Listen) && !Hazard(x, p)
    requires WellFormed(p) && (p.flags.syn ==> p.seqNum == 0)
    requires Endpoints.Receive(x, p, env).state == SynReceived
    ensures var f := Endpoints.Receive(x, p, env);
            f.stream == [Syn] && f.recvSeq == 1
  {
    SentWithinStream(x);
    if x.state == SynSent {
      ReceiveOpeningStates(x, p, env);
      SynSentBare(x, p, env);
      SimultaneousOpenIs(x, p);
    } else {
      ChildKeeps(p);
      hide Enqueue, Inv;
      EnqueueFields(Fresh(SynReceived, (p.seqNum + 1) % U32), SYN_ACK, []);
    }
  }

  /** Still in SYN-RECEIVED: nothing but the SYN has been counted. */
  lemma StaysSynReceived(x: Endpoint, y: Endpoint, p: Segment, env: Environment)
    requires Sound(x) && Orderly(x) && Link(x, y) && x.state == SynReceived
    requires Genuine(p, y) && Proper(p)
    requires Endpoints.Receive(x, p, env).state == SynReceived
    ensures var f := Endpoints.Receive(x, p, env);
            f.stream == [Syn] && f.recvSeq == 1
  {
    hide Inv, SentUpto, Bytes, Truthful, ReceiveInSynReceived;
    SentWithinStream(x);
    GenuineAck(p, y);
    SynReceivedCounts(x, p, env);
  }

  lemma SynReceivedCounts(x: Endpoint, p: Segment, env: Environment)
    requires x.state == SynReceived && x.stream == [Syn] && x.recvSeq == 1 && x.sendSeq == 1
    requires p.flags.ack ==> p.ackNum <= 1
    requires (p.flags.syn ==> p.seqNum == 0 && Len(p) == 1) && Proper(p)
    requires ReceiveInSynReceived(x, p, env).state == SynReceived
    ensures var f := ReceiveInSynReceived(x, p, env);
            f.stream == [Syn] && f.recvSeq == 1
  {
    hide ReceiveAck, ReceiveData;
    if p.flags != SYN && p.flags.ack {
      ReceiveAckStates(x, p.ackNum, env.junk);
      var e1 := ReceiveAck(x, p.ackNum, env.junk);
      if p.ackNum == 1 {
        ReceiveDataStates(if p.flags.syn then e1.(state := Established, recvSeq := p.seqNum) else e1.(state := Established), p);
      } else {
        AckedNothing(if p.flags.syn then e1.(recvSeq := p.seqNum) else e1, p);
      }
    }
  }

  lemma AckedNothing(e: Endpoint, p: Segment)
    requires e.state == SynReceived && !p.flags.fin && p.payload == []
    requires e.recvSeq == if p.flags.syn then p.seqNum else 1
    requires p.flags.syn ==> p.seqNum == 0
    ensures var f := ReceiveData(e, p);
            f.stream == e.stream && f.recvSeq == 1
  {
  }

  lemma OrderlyStep(x: Endpoint, y: Endpoint, a: Action)
    requires Pair(x, y) && Orderly(x) && Orderly(y) && Allowed(x, a) && Room(x, a) && Disciplined(x, a)
    requires a.Receive? ==> a.packet in y.wire
    requires !LateSyn(x, a)
    ensures Orderly(Act(x, a))
  {
    if a.Receive? {
      WireGenuine(y, a.packet);
      assert Mentions(y, a.packet);
      OrderlyHazard(x, a);
    }
    SoundStates(x);
    FinsAcknowledge(x, a);
    hide Inv, Bytes, Truthful, WellFormed, Hazard, Act;
    ActPair(x, y, a);
    HandshakeStep(x, y, a);
  }

  lemma HandshakeStep(x: Endpoint, y: Endpoint, a: Action)
    requires Pair(x, y) && Orderly(x) && Orderly(y) && Allowed(x, a) && Room(x, a) && Disciplined(x, a)
    requires a.Receive? ==> a.packet in y.wire && Genuine(a.packet, y) && !Hazard(x, a.packet)
    ensures var f := Act(x, a);
            (f.state == SynSent ==> f.stream == [Syn])
            && (f.state == SynReceived ==> f.stream == [Syn] && f.recvSeq == 1)
  {
    SoundStates(x);
    OpeningStates(x, a);
    match a
    case Connect =>
      ConnectKeeps(x);
      hide Inv, Enqueue, SentUpto;
      EnqueueFields(x, SYN, []);
    case Write(data) => WriteState(x, data);
    case Read(length) =>
      hide Inv;
      ReadKeeps(x, length);
    case Close => ShutDownState(x);
    case CloseDone =>
    case Timeout =>
      TimeoutKeeps(x);
    case Receive(p, env) =>
      assert Mentions(y, p);
      hide Inv, Endpoints.Receive, Truthful, WellFormed, SentUpto, Bytes;
      ReceiveHandshake(x, y, p, env);
  }

  lemma ReceiveHandshake(x: Endpoint, y: Endpoint, p: Segment, env: Environment)
    requires Pair(x, y) && Orderly(x) && |x.stream| + 1 < U32
    requires Genuine(p, y) && Proper(p) && !Hazard(x, p)
    ensures var f := Endpoints.Receive(x, p, env);
            (f.state == SynSent ==> f.stream == [Syn])
            && (f.state == SynReceived ==> f.stream == [Syn] && f.recvSeq == 1)
  {
    PairParts(x, y, p);
    hide *;
    SoundStates(x);
    OpeningReceive(x, p, env);
    var f := Endpoints.Receive(x, p, env);
    if f.state == SynSent {
      StaysSynSent(x, p, env);
    } else if f.state == SynReceived {
      if x.state == SynReceived { StaysSynReceived(x, y, p, env); }
      else { EntersSynReceived(x, p, env); }
    }
  }

  lemma PairParts(x: Endpoint, y: Endpoint, p: Segment)
    requires Pair(x, y) && Genuine(p, y)
    ensures Sound(x) && Link(x, y) && WellFormed(p) && (p.flags.syn ==> p.seqNum == 0)
  {
  }

  lemma OpeningReceive(e: Endpoint, p: Segment, env: Environment)
    requires e.state != CloseWait
    ensures Endpoints.Receive(e, p, env).state == SynReceived ==>
              e.state == SynReceived || e.state == Listen || e.state == SynSent
    ensures Endpoints.Receive(e, p, env).state == SynSent ==> e.state == SynSent
  {
    hide Endpoints.Receive;
    OpeningStates(e, Action.Receive(p, env));
  }

  // ----- runs -----

  /** The one hazard a disciplined step can be. */
  lemma HazardIsLate(s: System, m: Move)
    requires Joint(s) && Orderly(s.a) && Orderly(s.b) && Enabled(s, m)
    ensures Hazardous(s, m) <==> LateSyn(Get(s, m.side), m.action)
  {
    hide Inv, Orderly, Hazard, Link, Life, Truthful, Allowed, Room, LateSyn;
    if m.action.Receive? {
      GenuineInJoint(s, m);
      OrderlyHazard(Get(s, m.side), m.action);
    } else {
      NotLate(Get(s, m.side), m.action);
    }
  }

  lemma NotLate(e: Endpoint, a: Action)
    ensures !a.Receive? ==> !LateSyn(e, a)
  {
  }

  lemma {:induction false} OrderlyAfter(s: System, moves: seq<Move>)
    requires Joint(s) && Orderly(s.a) && Orderly(s.b) && Run(s, moves) && DisciplinedRun(s, moves)
    ensures Safe(s, moves) <==> NoLateSyn(s, moves)
    decreases |moves|
  {
    hide Inv, Orderly, Allowed, Room, Act, Disciplined, Hazard, Pair, LateSyn;
    if moves != [] {
      var m := moves[0];
      HazardIsLate(s, m);
      if !Hazardous(s, m) {
        if m.side == B { PairSymmetric(s.a, s.b); }
        OrderlyStep(Get(s, m.side), Peer(s, m.side), m.action);
        StepKeepsJoint(s, m);
        OrderlyAfter(Next(s, m), moves[1..]);
      }
    }
  }

  lemma InitialOrderly(s: System)
    requires Initial(s)
    ensures Orderly(s.a) && Orderly(s.b)
  {
  }

  /** A disciplined run, whichever sides connect or listen, is safe if and only if
      no bare SYN comes late. */
  lemma DisciplinedSafeExactly(start: System, moves: seq<Move>)
    requires Initial(start) && Run(start, moves) && DisciplinedRun(start, moves)
    ensures Safe(start, moves) <==> NoLateSyn(start, moves)
    ensures NoLateSyn(start, moves) ==> Joint(Exec(start, moves))
  {
    hide *;
    InitialJoint(start);
    InitialOrderly(start);
    OrderlyAfter(start, moves);
    if NoLateSyn(start, moves) { JointAfter(start, moves); }
  }

  // ----- where a late SYN comes from -----

  /** Still in SYN-SENT with its acknowledgements taken: nothing acknowledged. */
  lemma StaysUnacked(x: Endpoint, y: Endpoint, p: Segment, env: Environment)
    requires Sound(x) && Orderly(x) && Link(x, y) && x.state == SynSent && x.unackBase == 0 && env.sendOk
    requires Genuine(p, y) && Receives(x, Endpoints.Receive(x, p, env), p)
    requires Endpoints.Receive(x, p, env).state == SynSent
    ensures Endpoints.Receive(x, p, env).unackBase == 0
  {
    SentWithinStream(x);
    hide Inv, ReceiveAck, SimultaneousOpen, SentUpto, Bytes, Truthful, WellFormed;
    ReceiveAckStates(x, p.ackNum, env.junk);
    SimultaneousOpenState(x, p);
    if p.flags.syn && p.flags.ack { GenuineAck(p, y); }
  }

  ghost predicate Unacked(e: Endpoint) {
    e.state == SynSent ==> e.unackBase == 0
  }

  lemma UnackedStep(x: Endpoint, y: Endpoint, a: Action)
    requires Pair(x, y) && Orderly(x) && Unacked(x) && Allowed(x, a) && Room(x, a) && Disciplined(x, a)
    requires a.Receive? ==> a.env.sendOk && a.packet in y.wire && !Hazard(x, a.packet)
    ensures Unacked(Act(x, a))
  {
    SoundStates(x);
    OpeningStates(x, a);
    hide Inv, Enqueue, Endpoints.Receive, Endpoints.Timeout, WriteSegment, SentUpto, Bytes, Truthful, Hazard;
    match a
    case Connect => ConnectUnacked(x);
    case Write(data) => WriteState(x, data);
    case Close => ShutDownState(x);
    case Timeout => TimeoutUnacked(x);
    case Receive(p, env) =>
      if x.state == SynSent && Endpoints.Receive(x, p, env).state == SynSent {
        WireGenuine(y, p);
        PairParts(x, y, p);
        ReceiveSound(x, p, env);
        StaysUnacked(x, y, p, env);
      }
    case _ =>
  }

  lemma ConnectUnacked(e: Endpoint)
    requires e == Fresh(Closed, 0)
    ensures Endpoints.Connect(e).unackBase == 0
  {
    hide Enqueue;
    EnqueueFields(e, SYN, []);
  }

  lemma TimeoutUnacked(e: Endpoint)
    ensures Endpoints.Timeout(e).unackBase == e.unackBase && Endpoints.Timeout(e).state == e.state
  {
    hide Extend;
    var r := Reno.OnTimeout(e.reno);
    ExtendFields(e.(wire := e.wire + e.rtxQ, reno := r, window := r.cwnd));
  }

  lemma {:induction false} UnackedAfter(s: System, moves: seq<Move>)
    requires Joint(s) && Orderly(s.a) && Orderly(s.b) && Unacked(s.a) && Unacked(s.b)
    requires Run(s, moves) && DisciplinedRun(s, moves) && NeverRefused(moves)
    ensures NoLateSyn(s, moves)
    decreases |moves|
  {
    hide Inv, Orderly, Allowed, Room, Act, Disciplined, Hazard, Pair;
    if moves != [] {
      var m := moves[0];
      assert m in moves;
      HazardIsLate(s, m);
      if m.side == B { PairSymmetric(s.a, s.b); }
      OrderlyStep(Get(s, m.side), Peer(s, m.side), m.action);
      UnackedStep(Get(s, m.side), Peer(s, m.side), m.action);
      StepKeepsJoint(s, m);
      hide LateSyn, Unacked;
      UnackedAfter(Next(s, m), moves[1..]);
    }
  }

  /** A SYN comes late only after a refused acknowledgement: with none refused
      every disciplined run is safe. */
  lemma UnrefusedRunsAreSafe(start: System, moves: seq<Move>)
    requires Initial(start) && Run(start, moves) && DisciplinedRun(start, moves) && NeverRefused(moves)
    ensures Safe(start, moves) && Joint(Exec(start, moves))
  {
    InitialJoint(start);
    InitialOrderly(start);
    assert Unacked(start.a) && Unacked(start.b);
    hide *;
    UnackedAfter(start, moves);
    DisciplinedSafeExactly(start, moves);
  }
}
