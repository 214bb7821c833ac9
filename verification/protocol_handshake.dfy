/** Handshake agreement. */
module ProtocolHandshake {
  import opened Machine
  import opened Segments
  import opened Endpoints
  import opened EndpointInvariant
  import opened EndpointReceive
  import opened EndpointActions
  import opened EndpointStates
  import opened EndpointClosing
  import opened Protocol
  import opened ProtocolRun
  import opened ProtocolOpening
  import Reno

  // ----- client and listener -----

  /** In SYN-SENT the peer's SYN is counted only by a handshake acknowledgement
      the IP layer refused. */
  ghost predicate AckRefused(e: Endpoint) {
    e.state == SynSent && e.recvSeq == 1
  }

  /** Each side past its handshake has counted the peer's SYN and had its own
      acknowledged; once the child is past it the client is too, or else has counted
      the child's SYN and still waits in SYN-SENT. */
  ghost predicate Agreed(client: Endpoint, child: Endpoint) {
    && (PastHandshake(client) ==> 1 <= client.recvSeq && 1 <= client.unackBase && 1 <= child.recvSeq)
    && (PastHandshake(child) ==> 1 <= child.recvSeq && 1 <= child.unackBase && 1 <= client.recvSeq)
    && (PastHandshake(client) ==> child.state == SynReceived || PastHandshake(child))
    && (PastHandshake(child) ==> (PastHandshake(client) <==> !AckRefused(client)))
  }

  lemma JointAgrees(s: System)
    requires Joint(s) && PassiveOpen(s)
    ensures Agreed(s.a, s.b)
  {
    hide Inv, SynsAre, Bytes, SentUpto;
  }

  lemma HandshakeAgreement(start: System, moves: seq<Move>)
    requires ClientAndListener(start) && Run(start, moves)
    ensures Agreed(Exec(start, moves).a, Exec(start, moves).b)
    ensures Patient(start, moves) ==> ClientFirst(Exec(start, moves))
  {
    hide *;
    PassiveRunsAreSafe(start, moves);
    JointAgrees(Exec(start, moves));
    if Patient(start, moves) { PatientClientIsFirst(start, moves); }
  }

  // ----- who is first -----

  /** No acknowledgement `e` queued or sent acknowledges anything. */
  ghost predicate Mute(e: Endpoint) {
    forall p :: Mentions(e, p) && p.flags.ack ==> p.ackNum == 0
  }

  ghost predicate ClientFirst(s: System) {
    PastHandshake(s.b) ==> PastHandshake(s.a)
  }

  /** As long as the client is in its handshake it has acknowledged nothing. */
  ghost predicate Ordered(s: System) {
    Joint(s) && PassiveOpen(s) && (PastHandshake(s.a) || Mute(s.a)) && ClientFirst(s)
  }

  /** The client closes although its handshake acknowledgement was refused. */
  ghost predicate Hasty(s: System, m: Move) {
    m.side == A && m.action.Close? && AckRefused(s.a)
  }

  ghost predicate Patient(s: System, moves: seq<Move>)
    decreases |moves|
  {
    moves == [] || (!Hasty(s, moves[0]) && Patient(Next(s, moves[0]), moves[1..]))
  }

  lemma MuteStays(e: Endpoint, f: Endpoint, kinds: set<Flags>, floor: nat)
    requires Adds(e, f, kinds, floor) && Mute(e) && forall k :: k in kinds ==> !k.ack
    ensures Mute(f)
  {
  }

  lemma MuteShutDown(e: Endpoint)
    requires Mute(e) && e.recvSeq == 0
    ensures Mute(ShutDown(e))
  {
    hide Enqueue;
    var state := match e.state case Established => FinWait1 case CloseWait => LastAck case s => s;
    EnqueueMentions(e.(state := state), FIN_ACK, []);
  }

  /** A SYN|ACK in SYN-SENT is acknowledged only on becoming established. */
  lemma MuteReceive(e: Endpoint, p: Segment, env: Environment)
    requires e.state == SynSent && Mute(e) && (p.flags.syn ==> p.flags.ack)
    requires Endpoints.Receive(e, p, env).state == SynSent
    ensures Mute(Endpoints.Receive(e, p, env))
  {
    hide ReceiveAck;
    ReceiveAckAdds(e, p.ackNum, env.junk);
    MuteStays(e, ReceiveAck(e, p.ackNum, env.junk), {}, 0);
  }

  /** What a handshake state is for a client. */
  lemma ClientStates(e: Endpoint)
    requires Sound(e) && e.state != Listen && e.state != SynReceived
    ensures PastHandshake(e) || e.state == SynSent || e == Fresh(Closed, 0)
    ensures e.state == SynSent && !AckRefused(e) ==> e.recvSeq == 0
    ensures PastHandshake(e) ==> e.stream != []
  {
  }

  lemma FreshSteps(e: Endpoint, a: Action)
    requires e == Fresh(Closed, 0) && Allowed(e, a) && !a.Connect?
    ensures Act(e, a) == e
  {
    assert e.ring[0..] == [] && e.delivered + e.ring[..0] == [];
  }

  lemma ClientMute(e: Endpoint, a: Action)
    requires Sound(e) && !PastHandshake(e) && e.state != Listen && e.state != SynReceived && Mute(e)
    requires Allowed(e, a) && !(a.Close? && AckRefused(e))
    requires a.Receive? ==> WellFormed(a.packet) && (a.packet.flags.syn ==> a.packet.flags.ack)
    ensures PastHandshake(Act(e, a)) || Mute(Act(e, a))
  {
    ClientStates(e);
    hide Sound, Mute, WellFormed, Act, AckRefused, PastHandshake;
    if a.Receive? && e.state == SynSent {
      StillSynSent(e, a);
      if Act(e, a).state == SynSent { ReceiveMutes(e, a); }
    } else if a.Close? && e.state == SynSent {
      CloseMutes(e, a);
    } else if e.state != SynSent && !a.Connect? {
      FreshSteps(e, a);
    } else {
      QuietMutes(e, a);
    }
  }

  /** A client that takes a SYN|ACK stays in SYN-SENT or is past the handshake. */
  lemma StillSynSent(e: Endpoint, a: Action)
    requires e.state == SynSent && a.Receive? && (a.packet.flags.syn ==> a.packet.flags.ack)
    ensures Act(e, a).state == SynSent || PastHandshake(Act(e, a))
  {
    StepMovesAlongEdge(e, a);
    OpeningStates(e, a);
    hide Act;
  }

  lemma QuietMutes(e: Endpoint, a: Action)
    requires Mute(e) && e.state != Listen && !a.Receive? && !a.Close?
    ensures Mute(Act(e, a))
  {
    ActAdds(e, a);
    hide Mute, Act, Adds;
    MuteStays(e, Act(e, a), Kinds(e, a), FinFloor(e));
  }

  lemma ReceiveMutes(e: Endpoint, a: Action)
    requires a.Receive? && e.state == SynSent && Mute(e) && Act(e, a).state == SynSent
    requires a.packet.flags.syn ==> a.packet.flags.ack
    ensures Mute(Act(e, a))
  {
    hide Mute, Endpoints.Receive;
    MuteReceive(e, a.packet, a.env);
  }

  lemma CloseMutes(e: Endpoint, a: Action)
    requires a.Close? && e.state == SynSent && e.recvSeq == 0 && Mute(e)
    ensures Mute(Act(e, a))
  {
    hide Mute, ShutDown;
    MuteShutDown(e);
  }

  lemma StaysPast(e: Endpoint, a: Action)
    requires Sound(e) && PastHandshake(e) && Allowed(e, a)
    ensures PastHandshake(Act(e, a))
  {
    SoundStates(e);
    assert e.stream != [] && !a.Connect?;
    hide Sound, Allowed, Act;
    StepMovesAlongEdge(e, a);
    OpeningStates(e, a);
    StreamNeverEmpties(e, a);
  }

  /** A child leaves its handshake only by an acknowledgement of all it numbered. */
  lemma ChildPasses(e: Endpoint, a: Action)
    requires Sound(e) && !PastHandshake(e) && e.state != SynSent && (e.state == Closed ==> e.stream != [])
    requires Allowed(e, a) && PastHandshake(Act(e, a))
    ensures a.Receive? && Completes(e, a.packet) && 1 <= e.sendSeq
  {
    SoundStates(e);
    if e.stream != [] { NumberedSyn(e); }
    hide Sound, Allowed, Act, Completes;
    StepMovesAlongEdge(e, a);
    if e.state == SynReceived {
      if a.Receive? { PacketPasses(e, a); } else { CallStates(e, a); }
    }
  }

  lemma NumberedSyn(e: Endpoint)
    requires Sound(e) && e.stream != []
    ensures 1 <= e.sendSeq
  {
    SentWithinStream(e);
  }

  lemma PacketPasses(e: Endpoint, a: Action)
    requires a.Receive? && e.state == SynReceived
    ensures Act(e, a).state == SynReceived <==> !Completes(e, a.packet)
  {
    hide Endpoints.Receive;
    PacketStates(e, a.packet, a.env);
  }

  lemma PacketFromClient(s: System, m: Move)
    requires Joint(s) && PassiveOpen(s) && Enabled(s, m) && m.action.Receive?
    ensures Mentions(Peer(s, m.side), m.action.packet) && WellFormed(m.action.packet)
    ensures m.side == A && m.action.packet.flags.syn ==> m.action.packet.flags.ack
  {
    hide Inv, Link, Life, Allowed, Room, Truthful;
    GenuineInJoint(s, m);
  }

  lemma OrderedStep(s: System, m: Move)
    requires Ordered(s) && Enabled(s, m) && !Hasty(s, m)
    ensures Ordered(Next(s, m))
  {
    PassiveHasNoHazard(s, m);
    StepKeepsJoint(s, m);
    PassiveStep(s, m);
    if m.action.Receive? { PacketFromClient(s, m); }
    hide Inv, Link, Life, Act, Allowed, Room, Hazardous, AckRefused, SynsAre, WellFormed, Mentions, Completes, PastHandshake;
    if m.side == A {
      if PastHandshake(s.a) { StaysPast(s.a, m.action); } else { ClientMute(s.a, m.action); }
    } else if !PastHandshake(s.b) && PastHandshake(Act(s.b, m.action)) {
      ChildPasses(s.b, m.action);
      CompletesAcks(s.b, m.action.packet);
    }
  }

  lemma CompletesAcks(e: Endpoint, p: Segment)
    requires Completes(e, p)
    ensures e.state == SynReceived && p.flags.ack && p.ackNum == e.sendSeq
  {
  }

  lemma {:induction false} OrderedAfter(s: System, moves: seq<Move>)
    requires Ordered(s) && Run(s, moves) && Patient(s, moves)
    ensures Ordered(Exec(s, moves))
    decreases |moves|
  {
    hide Ordered, Enabled, Hasty, Next;
    if moves != [] {
      OrderedStep(s, moves[0]);
      OrderedAfter(Next(s, moves[0]), moves[1..]);
    }
  }

  /** Unless the client closes in SYN-SENT after its handshake acknowledgement was
      refused, the server's child reaches ESTABLISHED only after the client has. */
  lemma PatientClientIsFirst(start: System, moves: seq<Move>)
    requires ClientAndListener(start) && Run(start, moves) && Patient(start, moves)
    ensures ClientFirst(Exec(start, moves)) && Ordered(Exec(start, moves))
  {
    hide *;
    StartsOrdered(start);
    OrderedAfter(start, moves);
    OrderedIsFirst(Exec(start, moves));
  }

  lemma StartsOrdered(start: System)
    requires ClientAndListener(start)
    ensures Ordered(start)
  {
    InitialJoint(start);
    hide Joint;
  }

  // ----- what a hasty close can do -----

  /** The child has numbered nothing but its SYN. */
  predicate Waits(e: Endpoint) {
    e.state == SynReceived && e.sendSeq == 1
  }

  /** Some packet already sent takes the child past its handshake before the client. */
  ghost predicate Reversible(s: System) {
    exists p, env :: Enabled(s, Move(B, Receive(p, env))) && !ClientFirst(Next(s, Move(B, Receive(p, env))))
  }

  lemma CloseSends(e: Endpoint)
    requires Inv(e) && e.state == SynSent && SendsAtOnce(e)
    ensures var f := Act(e, Close); f.state == SynSent && FinOf(e) in f.wire
  {
    ShutDownState(e);
    hide Enqueue, SendsAtOnce;
    FinGoesOut(e);
  }

  lemma FinReverses(s: System)
    requires Joint(s) && PassiveOpen(s) && Allowed(s.a, Close) && Room(s.a, Close)
    requires AckRefused(s.a) && Waits(s.b) && SendsAtOnce(s.a)
    ensures Reversible(Next(s, Move(A, Close)))
  {
    var t := Next(s, Move(A, Close));
    var p, env := FinOf(s.a), Environment(false, true, false);
    CloseSends(s.a);
    SentWithinStream(s.b);
    FinPasses(s.b, p, env);
    hide Inv, Link, Life, Act, Waits, SendsAtOnce, SentUpto;
    assert Room(s.b, Receive(p, env)) by { assert s.b.sendSeq == 1 by { WaitsIs(s.b); } }
    assert Enabled(t, Move(B, Receive(p, env)));
  }

  lemma WaitsIs(e: Endpoint)
    requires Waits(e)
    ensures e.sendSeq == 1
  {
  }

  lemma FinPasses(e: Endpoint, p: Segment, env: Environment)
    requires Waits(e) && p.flags == FIN_ACK && p.ackNum == 1
    ensures PastHandshake(Act(e, Receive(p, env)))
  {
    PacketStates(e, p, env);
    hide Endpoints.Receive;
    StepMovesAlongEdge(e, Receive(p, env));
  }

  /** What the client mentions after the close and did not before. */
  lemma OnlyFinSpeaks(e: Endpoint, p: Segment)
    requires Inv(e) && e.state == SynSent && Mute(e)
    requires p in Act(e, Close).wire && p.flags.ack && 1 <= p.ackNum
    ensures SendsAtOnce(e) && p == FinOf(e)
  {
    StalledHead(e, e.state);
    assert e.(state := e.state) == e;
    FinGoesOut(e);
    EnqueueMentions(e, FIN_ACK, []);
    hide Inv, Enqueue, InFlight;
    assert Act(e, Close) == Enqueue(e, FIN_ACK, []);
    assert Mentions(Act(e, Close), p);
  }

  lemma ReversedByFin(s: System, p: Segment, env: Environment)
    requires Ordered(s) && Enabled(s, Move(A, Close))
    requires var t := Next(s, Move(A, Close));
             Enabled(t, Move(B, Receive(p, env))) && !ClientFirst(Next(t, Move(B, Receive(p, env))))
    ensures AckRefused(s.a) && Waits(s.b) && SendsAtOnce(s.a)
  {
    var t := Next(s, Move(A, Close));
    if !AckRefused(s.a) {
      hide Ordered, Enabled, ClientFirst, AckRefused, Next;
      assert !Hasty(s, Move(A, Close)) by { NotHasty(s); }
      OrderedStep(s, Move(A, Close));
      OrderedStep(t, Move(B, Receive(p, env)));
      OrderedIsFirst(Next(t, Move(B, Receive(p, env))));
      assert false;
    } else {
      hide Inv, Link, Life, Act, Allowed, Room, SynsAre, Mentions, Completes, InFlight;
      ChildPasses(s.b, Receive(p, env));
      CompletesAcks(s.b, p);
      OnlyFinSpeaks(s.a, p);
    }
  }

  lemma NotHasty(s: System)
    ensures !AckRefused(s.a) ==> !Hasty(s, Move(A, Close))
  {
  }

  lemma OrderedIsFirst(s: System)
    requires Ordered(s)
    ensures ClientFirst(s)
  {
  }

  /** A close lets the child be first if and only if the client's acknowledgement
      was refused, the child waits for it, and the FIN goes out at once. */
  lemma CloseReversesExactly(s: System)
    requires Ordered(s) && Enabled(s, Move(A, Close))
    ensures Reversible(Next(s, Move(A, Close))) <==> AckRefused(s.a) && Waits(s.b) && SendsAtOnce(s.a)
  {
    hide Joint, PassiveOpen, Mute, ClientFirst, AckRefused, Waits, SendsAtOnce, Next, Allowed, Room;
    var t := Next(s, Move(A, Close));
    if AckRefused(s.a) && Waits(s.b) && SendsAtOnce(s.a) { FinReverses(s); }
    if p, env :| Enabled(t, Move(B, Receive(p, env))) && !ClientFirst(Next(t, Move(B, Receive(p, env)))) {
      ReversedByFin(s, p, env);
    }
  }

  lemma SynSentUncounted(e: Endpoint, a: Action)
    requires Allowed(e, a) && e.state != CloseWait && (e.state == Closed && e.stream == [] ==> e.recvSeq == 0)
    requires a.Receive? ==> a.env.sendOk
    requires e.state == SynSent ==> e.recvSeq == 0
    ensures Act(e, a).state == SynSent ==> Act(e, a).recvSeq == 0
  {
    OpeningStates(e, a);
    hide Enqueue, Extend, Endpoints.Receive, ShutDown;
    match a
    case Connect => EnqueueFields(e, SYN, []);
    case Write(data) => EnqueueFields(e.(credit := e.credit - |data|, written := e.written + data), NONE, data);
    case Close => ShutDownRecv(e);
    case Timeout => TimeoutRecv(e);
    case Receive(p, env) => if e.state == SynSent { ReceiveUncounted(e, p, env); }
    case _ =>
  }

  lemma ShutDownRecv(e: Endpoint)
    ensures ShutDown(e).recvSeq == e.recvSeq
  {
    hide Enqueue;
    var state := match e.state case Established => FinWait1 case CloseWait => LastAck case s => s;
    EnqueueFields(e.(state := state), FIN_ACK, []);
  }

  lemma TimeoutRecv(e: Endpoint)
    ensures Endpoints.Timeout(e).recvSeq == e.recvSeq
  {
    hide Extend;
    var r := Reno.OnTimeout(e.reno);
    ExtendFields(e.(wire := e.wire + e.rtxQ, reno := r, window := r.cwnd));
  }

  lemma ReceiveUncounted(e: Endpoint, p: Segment, env: Environment)
    requires env.sendOk && e.state == SynSent
    ensures Endpoints.Receive(e, p, env).state == SynSent ==> Endpoints.Receive(e, p, env).recvSeq == e.recvSeq
  {
    hide ReceiveAck, SimultaneousOpen;
    ReceiveAckStates(e, p.ackNum, env.junk);
    SimultaneousOpenState(e, p);
  }

  lemma {:induction false} UnrefusedIsPatient(s: System, moves: seq<Move>)
    requires Joint(s) && PassiveOpen(s) && Run(s, moves) && NeverRefused(moves)
    requires s.a.state == SynSent ==> s.a.recvSeq == 0
    ensures Patient(s, moves)
    decreases |moves|
  {
    hide PassiveOpen, Hazardous, Act, Allowed, Room, Inv, Link;
    if moves != [] {
      var m := moves[0];
      assert m in moves;
      if m.side == A { SynSentUncounted(s.a, m.action); }
      PassiveHasNoHazard(s, m);
      StepKeepsJoint(s, m);
      PassiveStep(s, m);
      hide Joint;
      UnrefusedIsPatient(Next(s, m), moves[1..]);
    }
  }

  /** In particular when the IP layer refuses no handshake acknowledgement. */
  lemma ClientIsFirst(start: System, moves: seq<Move>)
    requires ClientAndListener(start) && Run(start, moves) && NeverRefused(moves)
    ensures ClientFirst(Exec(start, moves))
  {
    InitialJoint(start);
    assert PassiveOpen(start);
    hide Joint, PassiveOpen, Run, Exec, NeverRefused, Patient;
    UnrefusedIsPatient(start, moves);
    PatientClientIsFirst(start, moves);
  }
}
