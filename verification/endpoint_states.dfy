/** The state graph, for any endpoint and any packet at all. */
module EndpointStates {
  import opened Machine
  import opened Segments
  import opened Endpoints
  import opened EndpointInvariant
  import opened EndpointOperations
  import opened EndpointActions
  import Reno

  // ----- what the queue operations leave alone -----

  lemma ExtendFields(e: Endpoint)
    ensures SameButQueues(e, Extend(e))
  {
    ExtendLoopFields(e, InFlight(e));
  }

  lemma EnqueueFields(e: Endpoint, flags: Flags, payload: seq<byte>)
    ensures var f := Enqueue(e, flags, payload);
            f.state == e.state && f.recvSeq == e.recvSeq && f.unackBase == e.unackBase && f.ring == e.ring
            && e.stream <= f.stream
  {
    hide Extend, Symbols;
    var s := Segment(e.sendSeq, e.recvSeq, flags, payload);
    ExtendFields(e.(sendQ := e.sendQ + [s], sendSeq := (e.sendSeq + Len(s)) % U32, stream := e.stream + Symbols(s)));
  }

  lemma {:induction false} ShrinkFields(e: Endpoint, ack: nat)
    ensures var f := Shrink(e, ack);
            f == e.(rtxQ := f.rtxQ, unackBase := f.unackBase, credit := f.credit)
    decreases |e.rtxQ|
  {
    if e.rtxQ != [] { ShrinkFields(PopAcked(e), ack); }
  }

  lemma ProcessAckFields(e: Endpoint, ack: nat, junk: bool)
    ensures var f := ProcessAck(e, ack, junk);
            f.state == e.state && f.sendSeq == e.sendSeq && f.recvSeq == e.recvSeq && f.stream == e.stream
            && f.ring == e.ring && f.delivered == e.delivered && f.written == e.written
  {
    hide Reno.OnReceiveAck, Extend, Shrink;
    var r := Reno.OnReceiveAck(e.reno, ack, junk);
    ExtendFields(e.(reno := r.next, window := if r.window.Some? then r.window.value else 0));
    var e3 := Congest(e, ack, junk);
    ShrinkFields(e3, ack);
    ExtendFields(Shrink(e3, ack));
  }

  // ----- the graph -----

  /** The direct transitions of Figure 5 in section 3.3.2 of RFC 9293, without
      the reset and timeout paths the source lacks. */
  predicate RfcEdge(s: ConnectionState, t: ConnectionState) {
    || (s == Closed && (t == Listen || t == SynSent))
    || (s == Listen && (t == SynReceived || t == SynSent || t == Closed))
    || (s == SynSent && (t == SynReceived || t == Established || t == Closed))
    || (s == SynReceived && (t == Established || t == FinWait1 || t == Listen))
    || (s == Established && (t == FinWait1 || t == CloseWait))
    || (s == FinWait1 && (t == FinWait2 || t == Closing || t == TimeWait))
    || (s == FinWait2 && t == TimeWait)
    || (s == CloseWait && t == LastAck)
    || (s == Closing && t == TimeWait)
    || (s == LastAck && t == Closed)
    || (s == TimeWait && t == Closed)
  }

  /** The moves one completed step can make in this implementation. */
  predicate Edge(s: ConnectionState, t: ConnectionState) {
    || s == t
    || (s == Closed && t == SynSent)
    || (s == Listen && t == SynReceived)
    || (s == SynSent && (t == SynReceived || t == Established))
    || (s == SynReceived && (t == Established || t == LastAck))
    || (s == Established && (t == FinWait1 || t == LastAck))
    || (s == FinWait1 && (t == FinWait2 || t == TimeWait))
    || (s == FinWait2 && t == TimeWait)
    || (s == LastAck && t == Closed)
    || (s == TimeWait && t == Closed)
  }

  predicate IsPath(path: seq<ConnectionState>) {
    |path| > 0 && forall i :: 0 <= i < |path| - 1 ==> RfcEdge(path[i], path[i + 1])
  }

  /** Each move is a path of at most three transitions of the standard, and none
      ends in CLOSE-WAIT or CLOSING: those the implementation only passes
      through, or never reaches. */
  lemma EdgesAreStandard(s: ConnectionState, t: ConnectionState) returns (path: seq<ConnectionState>)
    requires Edge(s, t)
    ensures IsPath(path) && path[0] == s && path[|path| - 1] == t && |path| <= 4
    ensures s != CloseWait && s != Closing ==> t != CloseWait && t != Closing
  {
    path := if s == t then [s]
            else if s == SynReceived && t == LastAck then [s, Established, CloseWait, t]
            else if s == Established && t == LastAck then [s, CloseWait, t]
            else if s == FinWait1 && t == TimeWait then [s, FinWait2, t]
            else [s, t];
  }

  lemma ReceiveAckStates(e: Endpoint, ack: nat, junk: bool)
    ensures var f := ReceiveAck(e, ack, junk);
            f.state == (if ack != e.sendSeq then e.state
                        else if e.state == FinWait1 then FinWait2
                        else if e.state == LastAck then Closed else e.state)
            && f.sendSeq == e.sendSeq && f.recvSeq == e.recvSeq && f.unackBase == ProcessAck(e, ack, junk).unackBase
            && f.stream == e.stream
  {
    hide ProcessAck;
    ProcessAckFields(e, ack, junk);
  }

  lemma ReceiveDataStates(e: Endpoint, p: Segment)
    ensures var f := ReceiveData(e, p);
            f.state == e.state
            || (p.flags == FIN_ACK && e.state == Established && f.state == LastAck)
            || (p.flags == FIN_ACK && e.state == FinWait2 && f.state == TimeWait)
            || (p.flags == FIN_ACK && e.state == CloseWait && f.state == CloseWait)
    ensures ReceiveData(e, p).unackBase == e.unackBase && e.stream <= ReceiveData(e, p).stream
  {
    hide Enqueue;
    var e1 := PushAck(Accept(e, p));
    EnqueueFields(e1.(state := LastAck), FIN_ACK, []);
  }

  lemma SimultaneousOpenState(e: Endpoint, p: Segment)
    ensures SimultaneousOpen(e, p).state == SynReceived
  {
  }

  lemma ShutDownState(e: Endpoint)
    ensures ShutDown(e).state == (match e.state case Established => FinWait1 case CloseWait => LastAck case s => s)
  {
    hide Enqueue;
    EnqueueFields(e.(state := match e.state case Established => FinWait1 case CloseWait => LastAck case s => s), FIN_ACK, []);
  }

  lemma ReceiveStates(e: Endpoint, p: Segment, env: Environment)
    requires e.state != CloseWait
    ensures Edge(e.state, Endpoints.Receive(e, p, env).state)
  {
    hide ReceiveAck, ReceiveData, SimultaneousOpen, Enqueue, Accept;
    ReceiveAckStates(e, p.ackNum, env.junk);
    var e1 := if p.flags.ack then ReceiveAck(e, p.ackNum, env.junk) else e;
    ReceiveDataStates(e1, p);
    match e.state
    case SynSent => SimultaneousOpenState(e, p);
    case SynReceived =>
      var e2 := if p.ackNum == e1.sendSeq then e1.(state := Established) else e1;
      ReceiveDataStates(if p.flags.syn then e2.(recvSeq := p.seqNum) else e2, p);
    case Listen => EnqueueFields(Fresh(SynReceived, (p.seqNum + 1) % U32), SYN_ACK, []);
    case _ =>
  }

  /** The state graph: every step of every endpoint, on any packet, moves along
      an edge.  The wait at the end of `Close` and the fresh socket that connects
      are the guards of the source. */
  lemma StepMovesAlongEdge(e: Endpoint, a: Action)
    requires e.state != CloseWait && Allowed(e, a)
    ensures Edge(e.state, Act(e, a).state)
  {
    hide Enqueue, Endpoints.Receive, Extend, ShutDown;
    match a
    case Connect =>
    case Write(data) => EnqueueFields(e.(credit := e.credit - |data|, written := e.written + data), NONE, data);
    case Read(_) =>
    case Close => ShutDownState(e);
    case CloseDone =>
    case Timeout =>
      var r := Reno.OnTimeout(e.reno);
      ExtendFields(e.(wire := e.wire + e.rtxQ, reno := r, window := r.cwnd));
    case Receive(p, env) => ReceiveStates(e, p, env);
  }

  // ----- the stream -----

  lemma SimultaneousOpenStream(e: Endpoint, p: Segment)
    ensures SimultaneousOpen(e, p).stream != []
  {
    hide Extend;
    var e1 := e.(rtxQ := if e.rtxQ == [] then [] else e.rtxQ[1..],
                 sendSeq := (e.sendSeq - 1) % U32,
                 recvSeq := (p.seqNum + 1) % U32,
                 stream := if e.stream == [] then [] else e.stream[..|e.stream| - 1]);
    var s := Segment(e1.sendSeq, e1.recvSeq, SYN_ACK, []);
    ExtendFields(e1.(sendQ := e1.sendQ + [s], sendSeq := (e1.sendSeq + Len(s)) % U32, stream := e1.stream + Symbols(s)));
  }

  /** The one step that takes a symbol out of the stream. */
  predicate Withdraws(e: Endpoint, a: Action) {
    a.Receive? && e.state == SynSent && a.packet.flags.syn && !a.packet.flags.ack
  }

  lemma ReceiveStream(e: Endpoint, p: Segment, env: Environment)
    requires e.state == Listen ==> e.stream == []
    ensures !Withdraws(e, Action.Receive(p, env)) ==> e.stream <= Endpoints.Receive(e, p, env).stream
    ensures e.stream != [] ==> Endpoints.Receive(e, p, env).stream != []
  {
    hide ReceiveAck, ReceiveData, SimultaneousOpen, Child;
    ReceiveAckStates(e, p.ackNum, env.junk);
    SimultaneousOpenStream(e, p);
    var e1 := if p.flags.ack then ReceiveAck(e, p.ackNum, env.junk) else e;
    ReceiveDataStates(e1, p);
    var e2 := if p.ackNum == e1.sendSeq then e1.(state := Established) else e1;
    ReceiveDataStates(if p.flags.syn then e2.(recvSeq := p.seqNum) else e2, p);
  }

  /** No step but a simultaneous open takes a symbol out of the stream, and that
      one puts a SYN in its place: the stream never empties. */
  lemma StreamNeverEmpties(e: Endpoint, a: Action)
    requires e.state == Listen ==> e.stream == []
    ensures !Withdraws(e, a) ==> e.stream <= Act(e, a).stream
    ensures e.stream != [] ==> Act(e, a).stream != []
  {
    hide Enqueue, Extend, Endpoints.Receive;
    match a
    case Connect => EnqueueFields(e, SYN, []);
    case Write(data) => EnqueueFields(e.(credit := if |data| <= e.credit then e.credit - |data| else 0,
                                         written := e.written + data), NONE, data);
    case Close =>
      var state := match e.state case Established => FinWait1 case CloseWait => LastAck case s => s;
      EnqueueFields(e.(state := state), FIN_ACK, []);
    case Timeout =>
      var r := Reno.OnTimeout(e.reno);
      ExtendFields(e.(wire := e.wire + e.rtxQ, reno := r, window := r.cwnd));
    case Receive(p, env) => ReceiveStream(e, p, env);
    case _ =>
  }
}
