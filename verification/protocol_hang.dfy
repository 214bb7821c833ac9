/** Simultaneous close: without the state CLOSING (section 3.3.2 of RFC 9293) one of the two
    `Close` calls never returns.  src/transport/socket_impl.cc:346-379 and 578-594. */
module ProtocolHang {
  import opened Machine
  import opened Segments
  import opened Endpoints
  import opened EndpointInvariant
  import opened EndpointReceive
  import opened EndpointActions
  import opened EndpointStates
  import opened EndpointClosing
  import opened Protocol
  import opened ProtocolRun
  import opened ProtocolSession
  import Reno

  /** In one of the states a socket passes through once its application has closed. */
  predicate Shut(e: Endpoint) {
    e.state == FinWait1 || e.state == FinWait2 || e.state == TimeWait || e.state == LastAck || e.state == Closed
  }

  /** `Close` may return. */
  predicate Returns(e: Endpoint) {
    e.state == TimeWait || e.state == Closed
  }

  /** It has counted all its peer will ever send, but not in the right state. */
  ghost predicate Stuck(x: Endpoint, y: Endpoint) {
    (x.state == FinWait1 || x.state == FinWait2) && x.recvSeq == |y.stream|
  }

  /** Both have closed and neither has counted the other's FIN. */
  ghost predicate Crossing(x: Endpoint, y: Endpoint) {
    x.state == FinWait1 && y.state == FinWait1 && x.recvSeq < |y.stream| && y.recvSeq < |x.stream|
  }

  /** The application makes no call but to read and to wait for `Close`. */
  predicate Waiting(a: Action) {
    !a.Write? && !a.Close? && !a.Connect?
  }

  /** Such a step numbers nothing in these states, and stays in them. */
  lemma NumbersNothing(e: Endpoint, a: Action)
    requires Shut(e) && Allowed(e, a) && Waiting(a)
    ensures Act(e, a).stream == e.stream && Shut(Act(e, a))
    ensures !a.Receive? && !a.CloseDone? ==> Act(e, a).state == e.state && Act(e, a).recvSeq == e.recvSeq
  {
    hide ReceiveAck, Enqueue, Extend;
    match a
    case Timeout =>
      var r := Reno.OnTimeout(e.reno);
      ExtendFields(e.(wire := e.wire + e.rtxQ, reno := r, window := r.cwnd));
    case Receive(p, env) => AckMovesOn(e, p.ackNum, env.junk);
    case _ =>
  }

  /** What a packet of the peer can say. */
  lemma PacketBounds(x: Endpoint, y: Endpoint, p: Segment)
    requires Pair(x, y) && p in y.wire
    ensures p.flags.ack ==> p.ackNum <= y.recvSeq
    ensures 0 < Len(p) ==> p.seqNum + Len(p) <= |y.stream|
    ensures x.sendSeq == |x.stream|
  {
    assert Inv(x) && Inv(y);
    SentWithinStream(x);
    SentWithinStream(y);
    WireGenuine(y, p);
    hide Inv, Life, Link, SentUpto, WellFormed;
  }

  /** What such a packet can do to an end in FIN-WAIT-1 or FIN-WAIT-2. */
  lemma ShutReceives(x: Endpoint, y: Endpoint, p: Segment, env: Environment)
    requires Pair(x, y) && p in y.wire && (x.state == FinWait1 || x.state == FinWait2)
    ensures var f := Endpoints.Receive(x, p, env);
            && (x.recvSeq == |y.stream| ==> (f.state == FinWait1 || f.state == FinWait2) && f.recvSeq == x.recvSeq)
            && (x.state == FinWait1 && y.recvSeq < |x.stream| ==> f.state == FinWait1)
  {
    hide Pair, ReceiveAck, Link, Sound;
    PacketBounds(x, y, p);
    AckMovesOn(x, p.ackNum, env.junk);
  }

  lemma StepHangs(x: Endpoint, y: Endpoint, a: Action)
    requires Pair(x, y) && Shut(x) && Shut(y) && Allowed(x, a) && Room(x, a) && Waiting(a)
    requires a.Receive? ==> a.packet in y.wire
    requires Crossing(x, y) || Stuck(x, y) || Stuck(y, x)
    ensures var f := Act(x, a);
            Shut(f) && (Crossing(f, y) || Stuck(f, y) || Stuck(y, f))
  {
    hide Pair, Allowed, Room, Hazard, Waiting, Endpoints.Receive;
    NumbersNothing(x, a);
    if x.state == FinWait1 || x.state == FinWait2 {
      NotDone(x, a);
      if a.Receive? { ShutReceives(x, y, a.packet, a.env); }
    }
    ShutIsSafe(x, a);
    ActPair(x, y, a);
    CountsWithin(Act(x, a), y);
    assert a.Receive? ==> Act(x, a) == Endpoints.Receive(x, a.packet, a.env);
    hide Act;
  }

  lemma CountsWithin(x: Endpoint, y: Endpoint)
    requires Pair(x, y)
    ensures x.recvSeq <= |y.stream|
  {
  }

  lemma NotDone(e: Endpoint, a: Action)
    requires Allowed(e, a) && (e.state == FinWait1 || e.state == FinWait2)
    ensures !a.CloseDone?
  {
  }

  lemma {:induction false} HangsAfter(s: System, moves: seq<Move>)
    requires Joint(s) && Shut(s.a) && Shut(s.b) && Run(s, moves) && forall m :: m in moves ==> Waiting(m.action)
    requires Crossing(s.a, s.b) || Stuck(s.a, s.b) || Stuck(s.b, s.a)
    ensures !(Returns(Exec(s, moves).a) && Returns(Exec(s, moves).b))
    decreases |moves|
  {
    hide Pair, Act, Allowed, Room, Hazard, Shut, Waiting;
    if moves != [] {
      var m := moves[0];
      assert m in moves;
      assert !Hazardous(s, m) by { ShutIsSafe(Get(s, m.side), m.action); }
      StepKeepsJoint(s, m);
      if m.side == B { PairSymmetric(s.a, s.b); }
      StepHangs(Get(s, m.side), Peer(s, m.side), m.action);
      hide Crossing, Stuck;
      HangsAfter(Next(s, m), moves[1..]);
    }
  }

  lemma ShutIsSafe(e: Endpoint, a: Action)
    requires Shut(e)
    ensures !(a.Receive? && Hazard(e, a.packet))
  {
  }

  /** If both ends of a calm connection close, then in every run from there in which
      the applications only read and wait, at every point at least one of the two
      `Close` calls has still not returned. */
  lemma SimultaneousCloseHangs(s: System, moves: seq<Move>)
    requires Joint(s) && Calm(s.a, s.b) && |s.a.stream| + 1 < U32 && |s.b.stream| + 1 < U32
    requires forall m :: m in moves ==> Waiting(m.action)
    requires var t := System(Act(s.a, Close), Act(s.b, Close)); Run(t, moves)
    ensures var t := System(Act(s.a, Close), Act(s.b, Close));
            Run(s, [Move(A, Close), Move(B, Close)] + moves)
            && Exec(s, [Move(A, Close), Move(B, Close)] + moves) == Exec(t, moves)
            && !(Returns(Exec(t, moves).a) && Returns(Exec(t, moves).b))
  {
    var closes := [Move(A, Close), Move(B, Close)];
    var t1, t := System(Act(s.a, Close), s.b), System(Act(s.a, Close), Act(s.b, Close));
    hide Calm, Joint, Act, Enabled, Crossing;
    BothClose(s);
    hide Shut;
    assert (closes + moves)[1..] == [Move(B, Close)] + moves && ([Move(B, Close)] + moves)[1..] == moves;
    assert Run(t1, [Move(B, Close)] + moves) && Exec(t1, [Move(B, Close)] + moves) == Exec(t, moves);
    HangsAfter(t, moves);
  }

  lemma BothClose(s: System)
    requires Joint(s) && Calm(s.a, s.b) && |s.a.stream| + 1 < U32 && |s.b.stream| + 1 < U32
    ensures var t1, t := System(Act(s.a, Close), s.b), System(Act(s.a, Close), Act(s.b, Close));
            && Enabled(s, Move(A, Close)) && Next(s, Move(A, Close)) == t1
            && Enabled(t1, Move(B, Close)) && Next(t1, Move(B, Close)) == t
            && Joint(t) && Shut(t.a) && Shut(t.b) && Crossing(t.a, t.b)
  {
    hide Pair, Sound, Quiet, Act, Inv, Link;
    assert Sound(s.a) && Sound(s.b) by { JointSide(s, A); }
    QuietClose(s.a);
    QuietClose(s.b);
    StepKeepsJoint(s, Move(A, Close));
    StepKeepsJoint(System(Act(s.a, Close), s.b), Move(B, Close));
  }
}
