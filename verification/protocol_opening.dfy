/**
 Opening a connection: which runs are free of the two hazards, and what the
 handshake guarantees.
 */
module ProtocolOpening {
  import opened Machine
  import opened Segments
  import opened Endpoints
  import opened EndpointInvariant
  import opened EndpointReceive
  import opened EndpointActions
  import opened EndpointStates
  import opened Protocol
  import opened ProtocolRun
  import Reno

  // ----- which segments a step can introduce -----

  /** The segment is queued or was sent. */
  ghost predicate Mentions(e: Endpoint, s: Segment) {
    s in e.wire || s in e.rtxQ || s in e.sendQ
  }

  /** Flags among `kinds`, data only without flags, and a FIN acknowledges at
      least `floor`. */
  ghost predicate Admissible(s: Segment, kinds: set<Flags>, floor: nat) {
    s.flags in kinds && (s.payload != [] ==> s.flags == NONE) && (s.flags.fin ==> floor <= s.ackNum)
  }

  /** Every segment `f` mentions and `e` does not is admissible. */
  ghost predicate Adds(e: Endpoint, f: Endpoint, kinds: set<Flags>, floor: nat) {
    forall s :: Mentions(f, s) ==> Mentions(e, s) || Admissible(s, kinds, floor)
  }

  lemma {:induction false} ExtendLoopAdds(e: Endpoint, inFlight: nat)
    ensures Adds(e, ExtendLoop(e, inFlight), {}, 0)
    decreases |e.sendQ|
  {
    if e.sendQ != [] && HeadFits(e, inFlight) {
      var g := MoveHead(e);
      ExtendLoopAdds(g, (inFlight + |e.sendQ[0].payload|) % U64);
      assert Adds(e, g, {}, 0);
    }
  }

  lemma {:induction false} ShrinkAdds(e: Endpoint, ack: nat)
    ensures Adds(e, Shrink(e, ack), {}, 0)
    decreases |e.rtxQ|
  {
    if e.rtxQ != [] {
      ShrinkAdds(PopAcked(e), ack);
      assert Adds(e, PopAcked(e), {}, 0);
    }
  }

  lemma ExtendAdds(e: Endpoint)
    ensures Adds(e, Extend(e), {}, 0)
  {
    ExtendLoopAdds(e, InFlight(e));
  }

  lemma CongestAdds(e: Endpoint, ack: nat, junk: bool)
    ensures Adds(e, Congest(e, ack, junk), {}, 0)
  {
    hide Reno.OnReceiveAck, Extend;
    var r := Reno.OnReceiveAck(e.reno, ack, junk);
    ExtendAdds(e.(reno := r.next, window := if r.window.Some? then r.window.value else 0));
  }

  lemma ProcessAckAdds(e: Endpoint, ack: nat, junk: bool)
    ensures Adds(e, ProcessAck(e, ack, junk), {}, 0)
  {
    hide Extend, Shrink, Congest;
    CongestAdds(e, ack, junk);
    var e3 := Congest(e, ack, junk);
    ShrinkAdds(e3, ack);
    ExtendAdds(Shrink(e3, ack));
  }

  /** Queueing introduces one segment. */
  lemma EnqueueMentions(e: Endpoint, flags: Flags, payload: seq<byte>)
    ensures forall s :: Mentions(Enqueue(e, flags, payload), s) ==>
              Mentions(e, s) || s == Segment(e.sendSeq, e.recvSeq, flags, payload)
  {
    hide Extend, Symbols;
    var s := Segment(e.sendSeq, e.recvSeq, flags, payload);
    ExtendAdds(e.(sendQ := e.sendQ + [s], sendSeq := (e.sendSeq + Len(s)) % U32, stream := e.stream + Symbols(s)));
  }

  lemma EnqueueAdds(e: Endpoint, flags: Flags, payload: seq<byte>)
    requires payload != [] ==> flags == NONE
    ensures Adds(e, Enqueue(e, flags, payload), {flags}, e.recvSeq)
  {
    hide Enqueue;
    EnqueueMentions(e, flags, payload);
  }

  lemma ReceiveAckAdds(e: Endpoint, ack: nat, junk: bool)
    ensures Adds(e, ReceiveAck(e, ack, junk), {}, 0)
  {
    hide ProcessAck;
    ProcessAckAdds(e, ack, junk);
  }

  lemma ShutDownAdds(e: Endpoint)
    ensures Adds(e, ShutDown(e), {FIN_ACK}, e.recvSeq)
  {
    hide Enqueue;
    var state := match e.state case Established => FinWait1 case CloseWait => LastAck case s => s;
    EnqueueAdds(e.(state := state), FIN_ACK, []);
  }

  /** Receiving data queues a FIN only after counting what came before it. */
  lemma ReceiveDataAdds(e: Endpoint, p: Segment)
    requires WellFormed(p)
    ensures Adds(e, ReceiveData(e, p), {ACK, FIN_ACK}, e.recvSeq)
  {
    hide ShutDown;
    var e1 := PushAck(Accept(e, p));
    if 0 < Len(p) { assert e.recvSeq <= e1.recvSeq; }
    ShutDownAdds(e1.(state := CloseWait));
  }

  lemma SimultaneousOpenAdds(e: Endpoint, p: Segment)
    ensures Adds(e, SimultaneousOpen(e, p), {SYN_ACK}, 0)
  {
    hide Enqueue;
    var e1 := e.(rtxQ := if e.rtxQ == [] then [] else e.rtxQ[1..],
                 sendSeq := (e.sendSeq - 1) % U32,
                 recvSeq := (p.seqNum + 1) % U32,
                 stream := if e.stream == [] then [] else e.stream[..|e.stream| - 1]);
    EnqueueAdds(e1, SYN_ACK, []);
    var f := Enqueue(e1, SYN_ACK, []);
    forall s | Mentions(f, s) ensures Mentions(e, s) || Admissible(s, {SYN_ACK}, 0) {
      assert Mentions(e1, s) ==> Mentions(e, s);
    }
  }

  /** The flags a packet can make an endpoint use. */
  ghost function Replies(e: Endpoint, p: Segment): set<Flags> {
    if e.state == Listen || (e.state == SynSent && p.flags.syn && !p.flags.ack) then {SYN_ACK}
    else {ACK, RST, FIN_ACK}
  }

  /** What the FINs it queues acknowledge at least. */
  ghost function FinFloor(e: Endpoint): nat {
    if e.state == SynSent || e.state == Listen then 0 else Min(e.recvSeq, 1)
  }

  lemma SynSentAdds(e: Endpoint, p: Segment, env: Environment)
    ensures Adds(e, ReceiveInSynSent(e, p, env),
                 if p.flags.syn && !p.flags.ack then {SYN_ACK} else {ACK, RST}, 1)
  {
    hide ReceiveAck, SimultaneousOpen;
    SimultaneousOpenAdds(e, p);
    ReceiveAckAdds(e, p.ackNum, env.junk);
  }

  lemma SynReceivedAdds(e: Endpoint, p: Segment, env: Environment)
    requires WellFormed(p)
    ensures Adds(e, ReceiveInSynReceived(e, p, env), {ACK, FIN_ACK}, Min(e.recvSeq, 1))
  {
    hide ReceiveAck, ReceiveData;
    ReceiveAckAdds(e, p.ackNum, env.junk);
    ReceiveAckStates(e, p.ackNum, env.junk);
    var e1 := ReceiveAck(e, p.ackNum, env.junk);
    var e2 := if p.ackNum == e1.sendSeq then e1.(state := Established) else e1;
    var e3 := if p.flags.syn then e2.(recvSeq := p.seqNum) else e2;
    ReceiveDataAdds(e3, p);
    if p.flags.syn { SynDataAdds(e3, p); }
  }

  lemma SynDataAdds(e: Endpoint, p: Segment)
    requires p.flags.syn
    ensures Adds(e, ReceiveData(e, p), {ACK}, 0)
  {
  }

  lemma SynchronizedAdds(e: Endpoint, p: Segment, env: Environment)
    requires WellFormed(p)
    ensures Adds(e, ReceiveSynchronized(e, p, env), {ACK, FIN_ACK}, Min(e.recvSeq, 1))
  {
    hide ReceiveAck, ReceiveData;
    ReceiveAckAdds(e, p.ackNum, env.junk);
    ReceiveAckStates(e, p.ackNum, env.junk);
    ReceiveDataAdds(if p.flags.ack then ReceiveAck(e, p.ackNum, env.junk) else e, p);
  }

  lemma ReceiveAdds(e: Endpoint, p: Segment, env: Environment)
    requires WellFormed(p) && (e.state == Listen ==> e == Fresh(Listen, 0))
    ensures Adds(e, Endpoints.Receive(e, p, env), Replies(e, p), FinFloor(e))
  {
    hide ReceiveInSynSent, ReceiveInSynReceived, ReceiveSynchronized, Enqueue;
    match e.state
    case SynSent => SynSentAdds(e, p, env);
    case SynReceived => SynReceivedAdds(e, p, env);
    case Listen => EnqueueAdds(Fresh(SynReceived, (p.seqNum + 1) % U32), SYN_ACK, []);
    case _ => SynchronizedAdds(e, p, env);
  }

  /** The flags each action can introduce. */
  ghost function Kinds(e: Endpoint, a: Action): set<Flags> {
    match a
    case Connect => {SYN}
    case Write(_) => {NONE}
    case Close => {FIN_ACK}
    case Receive(p, _) => Replies(e, p)
    case _ => {}
  }

  lemma ActAdds(e: Endpoint, a: Action)
    requires a.Receive? ==> WellFormed(a.packet)
    requires e.state == Listen ==> e == Fresh(Listen, 0)
    ensures Adds(e, Act(e, a), Kinds(e, a), FinFloor(e))
  {
    hide Enqueue, Extend, ShutDown, Endpoints.Receive;
    match a
    case Connect => EnqueueAdds(e, SYN, []);
    case Write(data) =>
      if |data| <= e.credit {
        EnqueueAdds(e.(credit := e.credit - |data|, written := e.written + data), NONE, data);
      }
    case Close => ShutDownAdds(e);
    case Timeout =>
      var r := Reno.OnTimeout(e.reno);
      ExtendAdds(e.(wire := e.wire + e.rtxQ, reno := r, window := r.cwnd));
    case Receive(p, env) => ReceiveAdds(e, p, env);
    case _ =>
  }

  /** The IP layer takes every handshake acknowledgement. */
  ghost predicate NeverRefused(moves: seq<Move>) {
    forall m :: m in moves && m.action.Receive? ==> m.action.env.sendOk
  }

  // ----- one side listens -----

  /** The SYNs `e` mentions all have these flags. */
  ghost predicate SynsAre(e: Endpoint, syn: Flags) {
    forall p :: Mentions(e, p) && p.flags.syn ==> p.flags == syn
  }

  /** A client at `a` and a listener, or the child it created, at `b`: only `a`
      sends a bare SYN and only `b` a SYN|ACK. */
  ghost predicate PassiveOpen(s: System) {
    && SynsAre(s.a, SYN) && SynsAre(s.b, SYN_ACK)
    && s.a.state != Listen && s.a.state != SynReceived
    && s.b.state != SynSent && (s.b.state == Closed ==> s.b.stream != [])
  }

  lemma GenuineInJoint(s: System, m: Move)
    requires Joint(s) && Enabled(s, m) && m.action.Receive?
    ensures Genuine(m.action.packet, Peer(s, m.side))
  {
    hide Genuine, Inv, Link, Life, Allowed, Room;
    WireGenuine(Peer(s, m.side), m.action.packet);
  }

  /** With a listener on one side neither hazard can arise. */
  lemma PassiveHasNoHazard(s: System, m: Move)
    requires Joint(s) && PassiveOpen(s) && Enabled(s, m)
    ensures !Hazardous(s, m)
  {
    if m.action.Receive? {
      hide Inv, Link, Life, Allowed, Room, Truthful;
      GenuineInJoint(s, m);
      var p := m.action.packet;
      assert Mentions(Peer(s, m.side), p);
    }
  }

  /** SYN-SENT leads to SYN-RECEIVED only by a bare SYN, nothing else enters it
      from outside LISTEN, and only `Connect` leaves CLOSED. */
  lemma OpeningStates(e: Endpoint, a: Action)
    requires e.state != CloseWait && Allowed(e, a)
    ensures Act(e, a).state == SynReceived ==>
              e.state == SynReceived || e.state == Listen
              || (e.state == SynSent && a.Receive? && a.packet.flags.syn && !a.packet.flags.ack)
    ensures Act(e, a).state == SynSent ==> e.state == SynSent || a.Connect?
    ensures e.state == Closed && !a.Connect? ==> Act(e, a).state == Closed
  {
    StepMovesAlongEdge(e, a);
    hide Allowed, WriteSegment, Endpoints.Read, Endpoints.Connect, Endpoints.Receive, Endpoints.Timeout, ShutDown;
    match a
    case Receive(p, env) => ReceiveOpeningStates(e, p, env);
    case Write(data) => WriteState(e, data);
    case Read(length) => ReadState(e, length);
    case Timeout => TimeoutState(e);
    case Close => ShutDownState(e);
    case _ =>
  }

  lemma ReceiveOpeningStates(e: Endpoint, p: Segment, env: Environment)
    ensures e.state == SynSent && !(p.flags.syn && !p.flags.ack) ==> Endpoints.Receive(e, p, env).state != SynReceived
    ensures e.state == Closed ==> Endpoints.Receive(e, p, env) == e
  {
    hide ReceiveAck, SimultaneousOpen, ReceiveInSynReceived, ReceiveSynchronized, Child;
    ReceiveAckStates(e, p.ackNum, env.junk);
  }

  lemma WriteState(e: Endpoint, data: seq<byte>)
    requires |data| <= e.credit
    ensures WriteSegment(e, data).state == e.state
  {
    hide Enqueue;
    EnqueueFields(e.(credit := e.credit - |data|, written := e.written + data), NONE, data);
  }

  lemma ReadState(e: Endpoint, length: nat)
    ensures Endpoints.Read(e, length).state == e.state
  {
  }

  lemma TimeoutState(e: Endpoint)
    ensures Endpoints.Timeout(e).state == e.state
  {
    hide Extend;
    var r := Reno.OnTimeout(e.reno);
    ExtendFields(e.(wire := e.wire + e.rtxQ, reno := r, window := r.cwnd));
  }

  // ----- when a socket leaves SYN-RECEIVED -----

  lemma CallStates(e: Endpoint, a: Action)
    requires e.state != CloseWait && e.state != Listen && Allowed(e, a) && !a.Receive? && !a.Connect?
    ensures Act(e, a).state == SynReceived <==> e.state == SynReceived
    ensures Act(e, a).state == SynSent ==> e.state == SynSent
  {
    OpeningStates(e, a);
    hide Allowed, WriteSegment, Endpoints.Read, Endpoints.Connect, Endpoints.Receive, Endpoints.Timeout, ShutDown;
    match a
    case Write(data) => WriteState(e, data);
    case Read(length) => ReadState(e, length);
    case Timeout => TimeoutState(e);
    case Close => ShutDownState(e);
    case CloseDone => assert e.state == Closed || e.state == TimeWait by { assert Allowed(e, CloseDone); }
  }

  lemma PacketStates(e: Endpoint, p: Segment, env: Environment)
    requires e.state != CloseWait && e.state != Listen && e.state != SynSent
    ensures Endpoints.Receive(e, p, env).state == SynReceived <==> e.state == SynReceived && !Completes(e, p)
    ensures Endpoints.Receive(e, p, env).state != SynSent
  {
    hide ReceiveAck, ReceiveData, SimultaneousOpen, Enqueue, Accept;
    ReceiveStates(e, p, env);
    if e.state == SynReceived {
      ReceiveAckStates(e, p.ackNum, env.junk);
      var e1 := ReceiveAck(e, p.ackNum, env.junk);
      var e2 := if p.ackNum == e1.sendSeq then e1.(state := Established) else e1;
      ReceiveDataStates(if p.flags.syn then e2.(recvSeq := p.seqNum) else e2, p);
    }
  }

  lemma SoundStates(e: Endpoint)
    requires Sound(e)
    ensures e.state != CloseWait && (e.state == Listen ==> e == Fresh(Listen, 0))
    ensures e.state != Closed && e.state != Listen ==> e.stream != []
  {
  }

  /** Segments that are not SYNs, or are the right ones, keep `SynsAre`. */
  lemma AddsKeepsSyns(e: Endpoint, f: Endpoint, kinds: set<Flags>, floor: nat, syn: Flags)
    requires Adds(e, f, kinds, floor) && (forall k :: k in kinds && k.syn ==> k == syn) && SynsAre(e, syn)
    ensures SynsAre(f, syn)
  {
  }

  lemma ClientStep(x: Endpoint, y: Endpoint, a: Action)
    requires Sound(x) && SynsAre(x, SYN) && SynsAre(y, SYN_ACK) && x.state != Listen && x.state != SynReceived
    requires Allowed(x, a) && (a.Receive? ==> WellFormed(a.packet) && a.packet in y.wire)
    ensures var f := Act(x, a);
            SynsAre(f, SYN) && f.state != Listen && f.state != SynReceived
  {
    hide Sound, Act, WellFormed, Allowed, Adds, FinFloor;
    SoundStates(x);
    StepMovesAlongEdge(x, a);
    OpeningStates(x, a);
    ActAdds(x, a);
    if a.Receive? { assert Mentions(y, a.packet); }
    AddsKeepsSyns(x, Act(x, a), Kinds(x, a), FinFloor(x), SYN);
  }

  lemma ServerStep(x: Endpoint, y: Endpoint, a: Action)
    requires Sound(x) && SynsAre(x, SYN_ACK) && x.state != SynSent && (x.state == Closed ==> x.stream != [])
    requires Allowed(x, a) && (a.Receive? ==> WellFormed(a.packet))
    ensures var f := Act(x, a);
            SynsAre(f, SYN_ACK) && f.state != SynSent && (f.state == Closed ==> f.stream != [])
  {
    SoundStates(x);
    assert !a.Connect?;
    StepMovesAlongEdge(x, a);
    if x.state != Listen { StreamNeverEmpties(x, a); }
    hide Sound, Act, WellFormed, Allowed;
    OpeningStates(x, a);
    ActAdds(x, a);
    AddsKeepsSyns(x, Act(x, a), Kinds(x, a), FinFloor(x), SYN_ACK);
  }

  lemma PassiveStep(s: System, m: Move)
    requires Joint(s) && PassiveOpen(s) && Enabled(s, m)
    ensures PassiveOpen(Next(s, m))
  {
    if m.action.Receive? { GenuineInJoint(s, m); }
    hide Inv, Link, Life, Act, Allowed, Room, WellFormed, SynsAre, Truthful;
    if m.side == A {
      ClientStep(s.a, s.b, m.action);
    } else {
      ServerStep(s.b, s.a, m.action);
    }
  }

  /** Fresh sockets with a listener at `b`. */
  ghost predicate ClientAndListener(s: System) {
    s.a == Fresh(Closed, 0) && s.b == Fresh(Listen, 0)
  }

  lemma {:induction false} PassiveAfter(s: System, moves: seq<Move>)
    requires Joint(s) && PassiveOpen(s) && Run(s, moves)
    ensures Safe(s, moves) && Joint(Exec(s, moves)) && PassiveOpen(Exec(s, moves))
    decreases |moves|
  {
    hide Joint, PassiveOpen, Enabled, Hazardous, Next;
    if moves != [] {
      PassiveHasNoHazard(s, moves[0]);
      StepKeepsJoint(s, moves[0]);
      PassiveStep(s, moves[0]);
      PassiveAfter(Next(s, moves[0]), moves[1..]);
    }
  }

  /** A client and a listener: every run at all is safe, so everything proved of
      safe runs holds of it. */
  lemma PassiveRunsAreSafe(start: System, moves: seq<Move>)
    requires ClientAndListener(start) && Run(start, moves)
    ensures Initial(start) && Safe(start, moves)
    ensures Joint(Exec(start, moves)) && PassiveOpen(Exec(start, moves))
  {
    InitialJoint(start);
    assert PassiveOpen(start);
    hide *;
    PassiveAfter(start, moves);
  }
}
