/** The two hazards are exactly what breaks the joint invariant. */
module ProtocolExact {
  import opened Machine
  import opened Segments
  import opened Endpoints
  import opened EndpointInvariant
  import opened EndpointSteps
  import opened EndpointReceive
  import opened EndpointOperations
  import opened EndpointActions
  import opened EndpointStates
  import opened EndpointRetransmission
  import opened Protocol
  import opened ProtocolRun

  // ----- what has been counted has been acknowledged -----

  /** Beyond the peer's SYN, `recv_seq_num_` has been told to the peer. */
  ghost predicate Told(e: Endpoint) {
    1 < e.recvSeq ==> Acknowledged(e, e.recvSeq)
  }

  ghost predicate Acknowledged(e: Endpoint, n: nat) {
    exists q :: q in e.wire && q.flags.ack && q.ackNum == n
  }

  lemma DataTold(e: Endpoint, p: Segment)
    ensures var f := ReceiveData(e, p);
            e.wire <= f.wire && (f.recvSeq == e.recvSeq || Acknowledged(f, f.recvSeq))
  {
    AnswersExactly(e, p);
    hide ReceiveData;
    var f := ReceiveData(e, p);
    var answer := Segment(e.sendSeq, f.recvSeq, ACK, []);
    if Answered(e, p) { assert f.wire[|e.wire|] == answer && answer in f.wire; }
  }

  lemma SimultaneousOpenRecv(e: Endpoint, p: Segment)
    ensures SimultaneousOpen(e, p).recvSeq == (p.seqNum + 1) % U32
  {
    hide Enqueue;
    var e1 := e.(rtxQ := if e.rtxQ == [] then [] else e.rtxQ[1..],
                 sendSeq := (e.sendSeq - 1) % U32,
                 recvSeq := (p.seqNum + 1) % U32,
                 stream := if e.stream == [] then [] else e.stream[..|e.stream| - 1]);
    EnqueueFields(e1, SYN_ACK, []);
  }

  ghost predicate Counts(e: Endpoint, f: Endpoint) {
    f.recvSeq == e.recvSeq || f.recvSeq <= 1 || Acknowledged(f, f.recvSeq)
  }

  lemma SynReceivedTold(e: Endpoint, p: Segment, env: Environment)
    requires p.flags.syn ==> p.seqNum == 0
    ensures Counts(e, ReceiveInSynReceived(e, p, env))
  {
    ReceiveAckStates(e, p.ackNum, env.junk);
    var e1 := ReceiveAck(e, p.ackNum, env.junk);
    var e2 := if p.ackNum == e1.sendSeq then e1.(state := Established) else e1;
    DataTold(if p.flags.syn then e2.(recvSeq := p.seqNum) else e2, p);
    hide ReceiveAck, ReceiveData, Acknowledged;
  }

  lemma SynchronizedTold(e: Endpoint, p: Segment, env: Environment)
    ensures Counts(e, ReceiveSynchronized(e, p, env))
  {
    ReceiveAckStates(e, p.ackNum, env.junk);
    DataTold(if p.flags.ack then ReceiveAck(e, p.ackNum, env.junk) else e, p);
    hide ReceiveAck, ReceiveData, Acknowledged;
  }

  lemma SynSentTold(e: Endpoint, p: Segment, env: Environment)
    requires p.flags.syn ==> p.seqNum == 0
    ensures Counts(e, ReceiveInSynSent(e, p, env))
  {
    ReceiveAckStates(e, p.ackNum, env.junk);
    SimultaneousOpenRecv(e, p);
    hide ReceiveAck, SimultaneousOpen, Acknowledged;
  }

  /** A packet moves `recv_seq_num_` only to 0 or 1, or with an acknowledgement. */
  lemma ReceiveTold(e: Endpoint, p: Segment, env: Environment)
    requires (p.flags.syn ==> p.seqNum == 0) && e.state != Listen
    ensures Counts(e, Endpoints.Receive(e, p, env))
  {
    SynSentTold(e, p, env);
    SynReceivedTold(e, p, env);
    SynchronizedTold(e, p, env);
    hide ReceiveInSynSent, ReceiveInSynReceived, ReceiveSynchronized, Acknowledged;
  }

  lemma ToldStays(e: Endpoint, f: Endpoint)
    requires Told(e) && e.wire <= f.wire
    requires Counts(e, f)
    ensures Told(f)
  {
  }

  lemma CallTold(e: Endpoint, a: Action)
    requires Sound(e) && Told(e) && Allowed(e, a) && Room(e, a) && !a.Receive?
    ensures Told(Act(e, a))
  {
    hide Inv, Told, SentUpto, WriteSegment, Endpoints.Connect, Endpoints.Timeout, ShutDown;
    SoundRoom(e);
    match a {
      case Connect => FreshTold(e);
      case Write(data) => WriteKeeps(e, data);
      case Timeout => TimeoutKeeps(e);
      case Close => if e.state != Closed && e.state != Listen { ShutDownKeeps(e); }
      case _ =>
    }
    ToldStays(e, Act(e, a));
  }

  lemma FreshTold(e: Endpoint)
    requires e.state == Closed && e.stream == [] && Sound(e)
    ensures Endpoints.Connect(e).recvSeq == e.recvSeq && e.wire <= Endpoints.Connect(e).wire
  {
    ConnectKeeps(e);
    hide Inv, Endpoints.Connect, SentUpto;
  }

  lemma SoundRoom(e: Endpoint)
    requires Sound(e)
    ensures Inv(e) && (e.state != Closed && e.state != Listen ==> e.stream != [])
  {
  }

  // ----- what a hazard does -----

  /** A SYN|ACK that rewinds makes an acknowledgement already sent untrue. */
  lemma RewindBreaks(e: Endpoint, p: Segment, env: Environment)
    requires Inv(e) && Told(e) && Rewinds(e, p) && p.seqNum == 0 && p.payload == []
    ensures !Inv(Endpoints.Receive(e, p, env))
  {
    var q :| q in e.wire && q.flags.ack && q.ackNum == e.recvSeq;
    RewoundIs(e, p, env);
    var f := Endpoints.Receive(e, p, env);
    hide Inv, Endpoints.Receive;
    assert q in f.wire;
    if Inv(f) { Untrue(f, q); }
  }

  lemma RewoundIs(e: Endpoint, p: Segment, env: Environment)
    requires Inv(e) && Rewinds(e, p) && p.seqNum == 0 && p.payload == []
    ensures var f := Endpoints.Receive(e, p, env); e.wire <= f.wire && f.recvSeq == 1
  {
    hide ReceiveAck, ReceiveData, Inv, SentUpto, Answered;
    var e1 := ReceiveAck(e, p.ackNum, env.junk);
    ReceiveAckKeeps(e, p.ackNum, env.junk);
    var e2 := if p.ackNum == e1.sendSeq then e1.(state := Established) else e1;
    AnswersExactly(e2.(recvSeq := 0), p);
    assert Endpoints.Receive(e, p, env) == ReceiveData(e2.(recvSeq := 0), p);
  }

  lemma Untrue(f: Endpoint, q: Segment)
    requires Inv(f) && q in f.wire && q.flags.ack
    ensures q.ackNum <= f.recvSeq
  {
    assert Truthful(f, q);
  }

  lemma HazardBreaks(x: Endpoint, y: Endpoint, p: Segment, env: Environment)
    requires Pair(x, y) && Told(x) && p in y.wire && Hazard(x, p)
    ensures !Inv(Endpoints.Receive(x, p, env))
  {
    WireGenuine(y, p);
    SoundRoom(x);
    if Rewinds(x, p) {
      hide Inv, SentUpto, Link, Truthful, Told;
      RewindBreaks(x, p, env);
    } else {
      UnsafeWithdraw(x, p);
      SynSentBare(x, p, env);
      hide Inv, SimultaneousOpen, ReceiveInSynSent, Link;
    }
  }

  // ----- exactly -----

  /** The pair after a step of `x`: sound exactly unless the step is a hazard. */
  lemma ActExact(x: Endpoint, y: Endpoint, a: Action)
    requires Pair(x, y) && Told(x) && Allowed(x, a) && Room(x, a) && (a.Receive? ==> a.packet in y.wire)
    ensures Pair(Act(x, a), y) <==> !(a.Receive? && Hazard(x, a.packet))
    ensures !(a.Receive? && Hazard(x, a.packet)) ==> Told(Act(x, a))
  {
    hide Inv, Life, Link, Told, Hazard, Allowed, Endpoints.Receive;
    if a.Receive? && Hazard(x, a.packet) {
      HazardBreaks(x, y, a.packet, a.env);
    } else {
      ActPair(x, y, a);
      if a.Receive? { PacketTold(x, y, a.packet, a.env); } else { CallTold(x, a); }
    }
  }

  lemma PacketTold(x: Endpoint, y: Endpoint, p: Segment, env: Environment)
    requires Pair(x, y) && Told(x) && p in y.wire && !Hazard(x, p) && |x.stream| + 1 < U32
    ensures Told(Endpoints.Receive(x, p, env))
  {
    WireGenuine(y, p);
    if x.state == Listen {
      ListenTold(x, p, env);
    } else {
      hide Inv, SentUpto, Hazard, Life, Truthful, Endpoints.Receive, Acknowledged, Link;
      ReceiveSound(x, p, env);
      ReceiveTold(x, p, env);
      ToldStays(x, Endpoints.Receive(x, p, env));
    }
  }

  lemma ListenTold(e: Endpoint, p: Segment, env: Environment)
    requires e.state == Listen && e.recvSeq == 0 && (p.flags.syn ==> p.seqNum == 0)
    ensures Told(Endpoints.Receive(e, p, env))
  {
    EnqueueFields(Fresh(SynReceived, 1), SYN_ACK, []);
    hide Enqueue, Acknowledged;
  }

  /** One step of the system keeps the joint invariant if and only if it is not one
      of the two hazards. */
  lemma StepExact(s: System, m: Move)
    requires Joint(s) && Told(s.a) && Told(s.b) && Enabled(s, m)
    ensures Joint(Next(s, m)) <==> !Hazardous(s, m)
    ensures !Hazardous(s, m) ==> Told(Next(s, m).a) && Told(Next(s, m).b)
  {
    hide Pair, Hazard, Act, Allowed, Room, Told;
    if m.side == A {
      ActExact(s.a, s.b, m.action);
    } else {
      PairSymmetric(s.a, s.b);
      ActExact(s.b, s.a, m.action);
      var f := Act(s.b, m.action);
      if Pair(f, s.a) { PairSymmetric(f, s.a); }
      if Pair(s.a, f) { PairSymmetric(s.a, f); }
    }
  }

  ghost predicate AlwaysJoint(s: System, moves: seq<Move>)
    decreases |moves|
  {
    Joint(s) && (moves == [] || AlwaysJoint(Next(s, moves[0]), moves[1..]))
  }

  lemma {:induction false} ExactAfter(s: System, moves: seq<Move>)
    requires Joint(s) && Told(s.a) && Told(s.b) && Run(s, moves)
    ensures AlwaysJoint(s, moves) <==> Safe(s, moves)
    decreases |moves|
  {
    hide Joint, Told, Enabled, Hazardous, Next;
    if moves != [] {
      StepExact(s, moves[0]);
      if !Hazardous(s, moves[0]) { ExactAfter(Next(s, moves[0]), moves[1..]); }
    }
  }

  /** A run keeps the joint invariant throughout if and only if it is safe. */
  lemma SafeRunsExactly(start: System, moves: seq<Move>)
    requires Initial(start) && Run(start, moves)
    ensures AlwaysJoint(start, moves) <==> Safe(start, moves)
  {
    InitialJoint(start);
    assert Told(start.a) && Told(start.b);
    hide *;
    ExactAfter(start, moves);
  }
}
