/** Delivering a packet keeps the joint invariant, and so does every safe run. */
module ProtocolRun {
  import opened Machine
  import opened Segments
  import opened Endpoints
  import opened EndpointInvariant
  import opened EndpointReceive
  import opened EndpointOperations
  import opened EndpointActions
  import opened EndpointStates
  import opened Protocol
  import Reno

  // ----- what a packet of the peer can say -----

  /** A packet the peer really sent: its symbols are the peer's, a SYN is the
      peer's first symbol, and it acknowledges no more than the peer accepted. */
  ghost predicate Genuine(p: Segment, y: Endpoint) {
    && Truthful(y, p)
    && WellFormed(p)
    && (p.flags.syn ==> p.seqNum == 0 && Len(p) == 1)
  }

  lemma WireGenuine(y: Endpoint, p: Segment)
    requires Inv(y) && p in y.wire
    ensures Genuine(p, y)
  {
    assert Truthful(y, p);
    if p.flags.syn {
      assert y.stream[p.seqNum..p.seqNum + Len(p)][0] == Symbols(p)[0] == Syn;
    }
  }

  // ----- links -----

  lemma SynHasNoBytes(y: Endpoint, p: Segment)
    requires Genuine(p, y) && p.flags.syn
    ensures 1 <= |y.stream| && 1 <= SentUpto(y) && p.payload == []
    ensures Bytes(y.stream[..1]) == [] && Bytes(y.stream[..0]) == []
  {
  }

  lemma DataIntake(x: Endpoint, f: Endpoint, y: Endpoint, p: Segment)
    requires Genuine(p, y) && 0 < Len(p) && p.seqNum == x.recvSeq
    requires f.recvSeq == x.recvSeq + Len(p) && f.ring == x.ring + p.payload && f.delivered == x.delivered
    requires x.recvSeq <= |y.stream| && x.delivered + x.ring == Bytes(y.stream[..x.recvSeq])
    ensures f.recvSeq <= SentUpto(y) && f.recvSeq <= |y.stream| && f.delivered + f.ring == Bytes(y.stream[..f.recvSeq])
  {
    BytesExtend(y.stream, x.recvSeq, p);
    hide Bytes, SentUpto;
    assert f.delivered + f.ring == (x.delivered + x.ring) + p.payload;
  }

  /** The handed-over data after each kind of intake. */
  lemma IntakeData(x: Endpoint, f: Endpoint, y: Endpoint, p: Segment)
    requires Genuine(p, y) && Intake(x, f, p) && f.delivered == x.delivered
    requires x.recvSeq <= SentUpto(y) <= |y.stream| && x.delivered + x.ring == Bytes(y.stream[..x.recvSeq])
    ensures x.recvSeq <= f.recvSeq <= SentUpto(y) && f.delivered + f.ring == Bytes(y.stream[..f.recvSeq])
  {
    hide Bytes, SentUpto, Truthful, WellFormed;
    if f.recvSeq == x.recvSeq && f.ring == x.ring {
    } else if p.flags.syn && p.seqNum + 1 == f.recvSeq && f.ring == x.ring {
      SynHasNoBytes(y, p);
      assert x.recvSeq == 0 || x.recvSeq == 1;
    } else {
      DataIntake(x, f, y, p);
    }
  }

  lemma ReceiveLinks(x: Endpoint, f: Endpoint, y: Endpoint, p: Segment)
    requires Genuine(p, y) && Receives(x, f, p) && SentUpto(f) <= |f.stream|
    requires Link(x, y) && Link(y, x)
    ensures Link(f, y) && Link(y, f)
  {
    hide Inv, SentUpto, Bytes, Intake, WellFormed;
    assert AckOf(p) <= y.recvSeq;
    hide Truthful;
    IntakeData(x, f, y, p);
    assert f.stream[..y.recvSeq] == x.stream[..y.recvSeq];
  }

  // ----- life -----

  lemma ConnectionLife(e: Endpoint, p: Segment, env: Environment)
    requires Sound(e) && e.state == SynSent && WellFormed(p) && p.seqNum == 0 && p.flags.syn && p.flags.ack
    requires Receives(e, ReceiveInSynSent(e, p, env), p) && Inv(ReceiveInSynSent(e, p, env))
    ensures Sound(ReceiveInSynSent(e, p, env))
  {
    hide Inv, SentUpto, ReceiveAck, ReceiveInSynSent, ProcessAck;
    var f := ReceiveInSynSent(e, p, env);
    SentWithinStream(e);
    SynSentAckIs(e, p, env);
    ReceiveAckStates(e, p.ackNum, env.junk);
    if p.ackNum == e.sendSeq { FullAckPasses(e, p.ackNum, env.junk); }
    PastFrame(e, f);
  }

  lemma ReopenedLife(e: Endpoint, p: Segment)
    requires Sound(e) && e.state == SynSent && Receives(e, Reopened(e, p), p) && Inv(Reopened(e, p))
    ensures Sound(Reopened(e, p))
  {
  }

  lemma SynSentLife(e: Endpoint, p: Segment, env: Environment)
    requires Sound(e) && e.state == SynSent && WellFormed(p) && (p.flags.syn ==> p.seqNum == 0)
    requires !Hazard(e, p) && Receives(e, ReceiveInSynSent(e, p, env), p) && Inv(ReceiveInSynSent(e, p, env))
    ensures Sound(ReceiveInSynSent(e, p, env))
  {
    hide Inv, ReceiveInSynSent, SimultaneousOpen, Receives, WellFormed, Life, Reopened;
    if p.flags.syn && p.flags.ack {
      ConnectionLife(e, p, env);
    } else {
      SynSentBare(e, p, env);
      if p.flags.syn {
        SimultaneousOpenIs(e, p);
        ReopenedLife(e, p);
      }
    }
  }

  lemma SynReceivedLife(e: Endpoint, p: Segment, env: Environment)
    requires Sound(e) && e.state == SynReceived
    requires Receives(e, ReceiveInSynReceived(e, p, env), p) && Inv(ReceiveInSynReceived(e, p, env))
    ensures Sound(ReceiveInSynReceived(e, p, env))
  {
    var f := ReceiveInSynReceived(e, p, env);
    SentWithinStream(e);
    if p.flags != SYN && p.flags.ack {
      ReceiveAckStates(e, p.ackNum, env.junk);
      var e1 := ReceiveAck(e, p.ackNum, env.junk);
      var e2 := if p.ackNum == e1.sendSeq then e1.(state := Established) else e1;
      var e3 := if p.flags.syn then e2.(recvSeq := p.seqNum) else e2;
      ReceiveDataStates(e3, p);
      if p.ackNum == e.sendSeq { FullAckPasses(e, p.ackNum, env.junk); }
      hide Inv, SentUpto, ReceiveAck, ReceiveData, ProcessAck, ReceiveInSynReceived;
      assert e.recvSeq <= f.recvSeq;
      PastFrame(e, f);
    }
  }

  lemma PastLife(e: Endpoint, p: Segment, env: Environment)
    requires Sound(e) && PastHandshake(e)
    requires Receives(e, Endpoints.Receive(e, p, env), p) && Inv(Endpoints.Receive(e, p, env))
    ensures Sound(Endpoints.Receive(e, p, env))
  {
    hide Inv, SentUpto, Endpoints.Receive;
    var f := Endpoints.Receive(e, p, env);
    ReceiveStates(e, p, env);
    ClosedIgnores(e, p, env);
    assert e.recvSeq <= f.recvSeq;
    PastFrame(e, f);
  }

  lemma ClosedIgnores(e: Endpoint, p: Segment, env: Environment)
    ensures e.state == Closed ==> Endpoints.Receive(e, p, env) == e
  {
  }

  lemma ListenLife(e: Endpoint, p: Segment, env: Environment)
    requires Sound(e) && e.state == Listen && WellFormed(p)
    ensures Sound(Endpoints.Receive(e, p, env))
  {
    hide Inv, Child;
    if p.flags == SYN { ChildKeeps(p); }
  }

  lemma ReceiveSound(e: Endpoint, p: Segment, env: Environment)
    requires Sound(e) && WellFormed(p) && (p.flags.syn ==> p.seqNum == 0)
    requires !Hazard(e, p) && |e.stream| + 1 < U32
    ensures Sound(Endpoints.Receive(e, p, env)) && Receives(e, Endpoints.Receive(e, p, env), p)
  {
    hide Inv, SentUpto, Receives, WellFormed, Hazard, ReceiveInSynSent, ReceiveInSynReceived, ReceiveSynchronized;
    ReceiveKeeps(e, p, env);
    if e.state == SynSent { SynSentLife(e, p, env); }
    else if e.state == SynReceived { SynReceivedLife(e, p, env); }
    else if PastHandshake(e) { PastLife(e, p, env); }
    else if e.state == Listen { ListenLife(e, p, env); }
  }

  // ----- the pair -----

  lemma ListenPair(x: Endpoint, y: Endpoint, p: Segment)
    requires Pair(x, y) && x.state == Listen && Genuine(p, y) && p.flags == SYN
    ensures Pair(Child(p), y)
  {
    hide Inv, Child, Bytes;
    ChildKeeps(p);
    var f := Child(p);
    SentWithinStream(f);
    var g := Fresh(SynReceived, p.seqNum + 1);
    assert f.recvSeq == 1 && f.unackBase == 0 && f.delivered + f.ring == [];
    assert y.recvSeq == 0 && x.recvSeq == 0 && x.delivered + x.ring == [];
    assert x.stream[..0] == f.stream[..0];
    SynHasNoBytes(y, p);
  }

  lemma ReceivePair(x: Endpoint, y: Endpoint, p: Segment, env: Environment)
    requires Pair(x, y) && p in y.wire && !Hazard(x, p) && |x.stream| + 1 < U32
    ensures Pair(Endpoints.Receive(x, p, env), y)
  {
    WireGenuine(y, p);
    hide Inv, SentUpto, Hazard, Link, Child, Life, Truthful, WellFormed;
    if x.state == Listen {
      if p.flags == SYN && !env.backlogFull { ListenPair(x, y, p); }
    } else {
      ReceiveSound(x, p, env);
      var f := Endpoints.Receive(x, p, env);
      SentWithinStream(f);
      hide Endpoints.Receive;
      ReceiveLinks(x, f, y, p);
    }
  }

  lemma ActPair(x: Endpoint, y: Endpoint, a: Action)
    requires Pair(x, y) && Allowed(x, a) && Room(x, a)
    requires a.Receive? ==> a.packet in y.wire && !Hazard(x, a.packet)
    ensures Pair(Act(x, a), y)
  {
    hide Pair, Hazard, WriteSegment, Endpoints.Read, Endpoints.Close, Endpoints.Connect,
         Endpoints.CloseDone, Endpoints.Timeout, Endpoints.Receive;
    match a
    case Connect => ConnectPair(x, y);
    case Write(data) => WritePair(x, y, data);
    case Read(length) => ReadPair(x, y, length);
    case Close => ClosePair(x, y);
    case CloseDone => CloseDonePair(x, y);
    case Timeout => TimeoutPair(x, y);
    case Receive(p, env) => ReceivePair(x, y, p, env);
  }

  lemma PairSymmetric(x: Endpoint, y: Endpoint)
    requires Pair(x, y)
    ensures Pair(y, x)
  {
  }

  // ----- runs -----

  lemma StepKeepsJoint(s: System, m: Move)
    requires Joint(s) && Enabled(s, m) && !Hazardous(s, m)
    ensures Joint(Next(s, m))
  {
    hide Pair, Hazard, Act, Allowed, Room;
    if m.side == A {
      ActPair(s.a, s.b, m.action);
    } else {
      PairSymmetric(s.a, s.b);
      ActPair(s.b, s.a, m.action);
      PairSymmetric(Act(s.b, m.action), s.a);
    }
  }

  lemma InitialJoint(s: System)
    requires Initial(s)
    ensures Joint(s)
  {
    FreshInv(s.a.state, 0);
    FreshInv(s.b.state, 0);
    assert s.a.stream[..0] == [] && s.b.stream[..0] == [];
  }

  lemma {:induction false} JointAfter(s: System, moves: seq<Move>)
    requires Joint(s) && Run(s, moves) && Safe(s, moves)
    ensures Joint(Exec(s, moves))
    decreases |moves|
  {
    hide Joint, Enabled, Hazardous, Next;
    if moves != [] {
      StepKeepsJoint(s, moves[0]);
      JointAfter(Next(s, moves[0]), moves[1..]);
    }
  }

  /** Every state of every safe run satisfies the joint invariant. */
  lemma RunKeepsJoint(s: System, moves: seq<Move>)
    requires Initial(s) && Run(s, moves) && Safe(s, moves)
    ensures Joint(Exec(s, moves))
  {
    InitialJoint(s);
    JointAfter(s, moves);
  }

  // ----- the state graph over runs -----

  /** The order in which a connection passes through its states.  CLOSED is the
      first of them and the last. */
  function Stage(e: Endpoint): nat {
    match e.state
    case Closed => if e.stream == [] then 0 else 9
    case Listen => 1
    case SynSent => 2
    case SynReceived => 3
    case Established => 4
    case FinWait1 => 5
    case FinWait2 => 6
    case LastAck => 7
    case TimeWait => 8
    case _ => 10
  }

  /** Not in CLOSE-WAIT or CLOSING; a listener has numbered nothing and a socket
      that is not closed its SYN at least. */
  predicate OnItsWay(e: Endpoint) {
    && Stage(e) < 10
    && (e.state == Listen ==> e.stream == [])
    && (e.state != Closed && e.state != Listen ==> e.stream != [])
  }

  lemma ListenerOpens(e: Endpoint, a: Action)
    requires e.state == Listen && e.stream == [] && Allowed(e, a)
    ensures var f := Act(e, a);
            if f.state == Listen then f.stream == [] else f.state == SynReceived && f.stream != []
  {
    hide Extend, Child;
    if a.Timeout? {
      var r := Reno.OnTimeout(e.reno);
      ExtendFields(e.(wire := e.wire + e.rtxQ, reno := r, window := r.cwnd));
    } else if a.Receive? {
      ChildStates(a.packet);
    }
  }

  lemma ChildStates(p: Segment)
    ensures Child(p).state == SynReceived && Child(p).stream != []
  {
    hide Enqueue;
    EnqueueOpens(Fresh(SynReceived, (p.seqNum + 1) % U32), SYN_ACK);
  }

  lemma EnqueueOpens(e: Endpoint, flags: Flags)
    requires flags.syn
    ensures Enqueue(e, flags, []).state == e.state && Enqueue(e, flags, []).stream != []
  {
    var s := Segment(e.sendSeq, e.recvSeq, flags, []);
    var g := e.(sendQ := e.sendQ + [s], sendSeq := (e.sendSeq + Len(s)) % U32, stream := e.stream + Symbols(s));
    hide Extend;
    ExtendFields(g);
    assert Enqueue(e, flags, []) == Extend(g);
  }

  lemma StageGrows(e: Endpoint, a: Action)
    requires Allowed(e, a) && OnItsWay(e)
    ensures var f := Act(e, a);
            OnItsWay(f) && Stage(e) <= Stage(f) && (Stage(f) == Stage(e) ==> f.state == e.state)
  {
    hide Act, Allowed;
    StepMovesAlongEdge(e, a);
    StreamNeverEmpties(e, a);
    match e.state
    case Listen => ListenerOpens(e, a);
    case Closed => ClosedOpens(e, a);
    case _ =>
  }

  lemma ClosedOpens(e: Endpoint, a: Action)
    requires e.state == Closed && Allowed(e, a)
    ensures var f := Act(e, a);
            if a.Connect? then e.stream == [] && f.state == SynSent && f.stream != []
            else f.state == Closed && (e.stream == [] ==> f.stream == [])
  {
    hide Enqueue, Extend;
    match a
    case Connect => ConnectOpens(e);
    case Write(data) => EnqueueFields(e.(credit := e.credit - |data|, written := e.written + data), NONE, data);
    case Timeout =>
      var r := Reno.OnTimeout(e.reno);
      ExtendFields(e.(wire := e.wire + e.rtxQ, reno := r, window := r.cwnd));
    case Receive(p, env) => ClosedIgnores(e, p, env);
    case _ =>
  }

  lemma ConnectOpens(e: Endpoint)
    ensures Endpoints.Connect(e).state == SynSent && Endpoints.Connect(e).stream != []
  {
    hide Enqueue;
    EnqueueOpens(e, SYN);
  }

  /** Over any run, safe or not, each side only moves forward: it never comes back
      to a state it has left, and never rests in CLOSE-WAIT or CLOSING. */
  lemma {:induction false} RunGoesForward(s: System, moves: seq<Move>, side: Side)
    requires Run(s, moves) && OnItsWay(s.a) && OnItsWay(s.b)
    ensures var e, f := Get(s, side), Get(Exec(s, moves), side);
            OnItsWay(f) && Stage(e) <= Stage(f) && (Stage(f) == Stage(e) ==> f.state == e.state)
    decreases |moves|
  {
    hide Act, OnItsWay, Stage, Allowed, Room;
    if moves != [] {
      StageGrows(Get(s, moves[0].side), moves[0].action);
      RunGoesForward(Next(s, moves[0]), moves[1..], side);
    }
  }

  lemma {:induction false} RunSplits(s: System, moves: seq<Move>, n: nat)
    requires Run(s, moves) && n <= |moves|
    ensures Run(s, moves[..n]) && Run(Exec(s, moves[..n]), moves[n..])
    ensures Exec(s, moves) == Exec(Exec(s, moves[..n]), moves[n..])
    decreases n
  {
    hide Enabled, Next;
    if n > 0 {
      RunSplits(Next(s, moves[0]), moves[1..], n - 1);
      assert moves[..n][1..] == moves[1..][..n - 1];
    } else {
      assert moves[0..] == moves;
    }
  }

  /** A state other than CLOSED is left once: if a run begins and ends in it, the
      side was in it all the time. */
  lemma NoStateTwice(s: System, moves: seq<Move>, side: Side, n: nat)
    requires Run(s, moves) && OnItsWay(s.a) && OnItsWay(s.b) && n <= |moves|
    requires Get(s, side).state == Get(Exec(s, moves), side).state != Closed
    ensures Get(Exec(s, moves[..n]), side).state == Get(s, side).state
  {
    hide OnItsWay, Run, Exec;
    RunSplits(s, moves, n);
    RunGoesForward(s, moves[..n], A);
    RunGoesForward(s, moves[..n], B);
    RunGoesForward(Exec(s, moves[..n]), moves[n..], side);
  }
}
