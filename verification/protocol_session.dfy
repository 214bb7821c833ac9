/** Whole sessions: from two fresh sockets through handshake, any exchange of data and
    close, on a network that loses nothing.  Safety says that nothing bad happens in any
    run; this is what a good run achieves. */
module ProtocolSession {
  import opened Machine
  import opened Segments
  import opened Endpoints
  import opened EndpointInvariant
  import opened EndpointSteps
  import opened EndpointReceive
  import opened EndpointActions
  import opened EndpointClosing
  import opened Protocol
  import opened ProtocolRun
  import opened ProtocolOpening
  import opened ProtocolLimits
  import Reno

  // ----- runs, one move at a time -----

  lemma {:induction false} RunSnoc(s: System, moves: seq<Move>, m: Move)
    requires Run(s, moves) && Enabled(Exec(s, moves), m)
    ensures Run(s, moves + [m]) && Exec(s, moves + [m]) == Next(Exec(s, moves), m)
    decreases |moves|
  {
    hide Enabled, Next;
    if moves == [] {
      assert [m][1..] == [] && moves + [m] == [m];
    } else {
      RunSnoc(Next(s, moves[0]), moves[1..], m);
      assert (moves + [m])[1..] == moves[1..] + [m];
    }
  }

  lemma {:induction false} RunConcat(s: System, first: seq<Move>, second: seq<Move>)
    requires Run(s, first) && Run(Exec(s, first), second)
    ensures Run(s, first + second) && Exec(s, first + second) == Exec(Exec(s, first), second)
    decreases |first|
  {
    hide Enabled, Next;
    if first == [] {
      assert first + second == second;
    } else {
      RunConcat(Next(s, first[0]), first[1..], second);
      assert (first + second)[1..] == first[1..] + second;
    }
  }

  // ----- quiet endpoints -----

  /** Established, with nothing queued, and not closed by its application. */
  ghost predicate Quiet(e: Endpoint) {
    e.state == Established && e.rtxQ == [] && e.sendQ == [] && Fin !in e.stream
  }

  /** Both ends established, everything sent accepted and acknowledged. */
  ghost predicate Calm(x: Endpoint, y: Endpoint) {
    Pair(x, y) && Quiet(x) && Quiet(y) && x.recvSeq == |y.stream| && y.recvSeq == |x.stream|
  }

  /** Whatever is sent next on a quiet connection passes the window test: the SYN
      alone has been acknowledged without having been charged. */
  lemma QuietSends(e: Endpoint, length: nat)
    requires Inv(e) && e.rtxQ == [] && e.sendQ == [] && Fin !in e.stream && e.stream != []
    requires 1 <= length <= MAX_PAYLOAD
    ensures (length + InFlight(e)) % U64 <= e.window
    ensures e.credit == SEND_BUFFER + 1 && e.sendSeq == |e.stream| == e.unackBase && SentUpto(e) == |e.stream|
  {
    assert e.unackBase == |e.stream| == e.sendSeq;
    assert e.stream[..Min(e.unackBase, |e.stream|)] == e.stream;
    OneControl(e.stream);
    assert AckedControls(e) == 1;
  }

  lemma {:induction false} OneControl(stream: seq<Symbol>)
    requires stream != [] && Fin !in stream && forall i :: 0 <= i < |stream| ==> (stream[i] == Syn <==> i == 0)
    ensures Controls(stream) == 1
    decreases |stream|
  {
    var n := |stream| - 1;
    if n > 0 {
      assert stream[..n][0] == Syn;
      OneControl(stream[..n]);
      assert stream[n] != Syn && stream[n] in stream;
    } else {
      assert stream[..n] == [];
    }
  }

  // ----- data -----

  lemma QuietFacts(e: Endpoint)
    requires Sound(e) && Quiet(e)
    ensures Inv(e) && e.stream != [] && e.rtxQ == [] && e.sendQ == [] && e.state == Established && Fin !in e.stream
  {
  }

  /** Charging for data leaves the window test alone. */
  lemma ChargedFlight(e: Endpoint, data: seq<byte>)
    requires |data| <= e.credit
    ensures InFlight(e.(credit := e.credit - |data|, written := e.written + data)) == InFlight(e)
  {
  }

  lemma QuietWrite(x: Endpoint, data: seq<byte>)
    requires Sound(x) && Quiet(x) && 0 < |data| <= MAX_PAYLOAD && |x.stream| + |data| < U32
    ensures Allowed(x, Write(data))
    ensures var f := Act(x, Write(data));
            && Inv(f) && f.state == Established && f.sendQ == [] && f.stream == x.stream + DataSymbols(data)
            && Segment(|x.stream|, x.recvSeq, NONE, data) in f.wire && f.recvSeq == x.recvSeq
            && f.ring == x.ring && f.delivered == x.delivered && f.written == x.written + data
  {
    hide Sound, Quiet, Inv, InFlight, SentUpto, Enqueue, Progress;
    QuietFacts(x);
    QuietSends(x, |data|);
    WriteKeeps(x, data);
    ChargedFlight(x, data);
    GoesOut(x.(credit := x.credit - |data|, written := x.written + data), NONE, data);
  }

  /** The next segment in order, taken by a ring that has room. */
  lemma TakesData(y: Endpoint, p: Segment, env: Environment)
    requires y.state == Established && p.flags == NONE && p.payload != [] && p.seqNum == y.recvSeq
    requires |y.ring| + |p.payload| < RING_SIZE && y.recvSeq + |p.payload| < U32
    ensures Act(y, Receive(p, env)) == PushAck(y.(recvSeq := y.recvSeq + |p.payload|, ring := y.ring + p.payload))
  {
  }

  /** An acknowledgement of everything, with nothing waiting to be sent. */
  lemma TakesAck(x: Endpoint, p: Segment, env: Environment)
    requires Inv(x) && x.sendQ == [] && p.flags == ACK && p.payload == [] && p.ackNum == |x.stream|
    requires x.state == Established || x.state == FinWait1 || x.state == LastAck
    ensures var f := Act(x, Receive(p, env));
            && f.rtxQ == [] && f.sendQ == [] && f.state == AfterAck(x.state, true) && f.stream == x.stream
            && f.recvSeq == x.recvSeq && f.ring == x.ring && f.delivered == x.delivered && f.written == x.written
            && x.wire <= f.wire && Inv(f) && f.sendSeq == |x.stream|
  {
    hide Inv, SentUpto, ReceiveAck;
    FullAck(x, env.junk);
  }

  /** Acknowledging everything empties both queues and moves the state on. */
  lemma FullAck(x: Endpoint, junk: bool)
    requires Inv(x) && x.sendQ == []
    ensures var f := ReceiveAck(x, |x.stream|, junk);
            && Inv(f) && f.rtxQ == [] && f.sendQ == [] && x.sendSeq == |x.stream| == f.sendSeq
            && f.state == (if x.state == SynReceived then x.state else AfterAck(x.state, true))
            && f.stream == x.stream && f.recvSeq == x.recvSeq && f.ring == x.ring && f.delivered == x.delivered
            && f.written == x.written && x.wire <= f.wire
  {
    AllWasSent(x);
    hide Inv, SentUpto, ProcessAck;
    ProcessAckAll(x, |x.stream|, junk);
    ReceiveAckKeeps(x, |x.stream|, junk);
    AckMovesOn(x, |x.stream|, junk);
  }

  lemma AllWasSent(x: Endpoint)
    requires Inv(x) && x.sendQ == []
    ensures SentUpto(x) == |x.stream| == x.sendSeq
  {
  }

  // ----- exchanges -----

  const ENV := Environment(false, true, false)

  /** A step of the near end or of the far one. */
  datatype Turn = Near(action: Action) | Far(action: Action)

  /** A step the end can take now, being past its handshake. */
  ghost predicate Ready(x: Endpoint, y: Endpoint, a: Action) {
    && Allowed(x, a) && Room(x, a) && (a.Receive? ==> a.packet in y.wire)
    && x.state != SynSent && x.state != SynReceived
  }

  /** The turns can be taken one after the other and lead from `(x, y)` to `(f, g)`. */
  ghost predicate Leads(x: Endpoint, y: Endpoint, turns: seq<Turn>, f: Endpoint, g: Endpoint)
    decreases |turns|
  {
    if turns == [] then f == x && g == y
    else match turns[0]
         case Near(a) => Ready(x, y, a) && Leads(Act(x, a), y, turns[1..], f, g)
         case Far(a) => Ready(y, x, a) && Leads(x, Act(y, a), turns[1..], f, g)
  }

  lemma LeadsNear(x: Endpoint, y: Endpoint, a: Action, rest: seq<Turn>, f: Endpoint, g: Endpoint)
    requires Ready(x, y, a) && Leads(Act(x, a), y, rest, f, g)
    ensures Leads(x, y, [Near(a)] + rest, f, g)
  {
    hide Ready, Act;
    assert ([Near(a)] + rest)[1..] == rest;
  }

  lemma LeadsFar(x: Endpoint, y: Endpoint, a: Action, rest: seq<Turn>, f: Endpoint, g: Endpoint)
    requires Ready(y, x, a) && Leads(x, Act(y, a), rest, f, g)
    ensures Leads(x, y, [Far(a)] + rest, f, g)
  {
    hide Ready, Act;
    assert ([Far(a)] + rest)[1..] == rest;
  }

  function SideMove(side: Side, turn: Turn): Move {
    match turn
    case Near(a) => Move(side, a)
    case Far(a) => Move(Other(side), a)
  }

  function SideMoves(side: Side, turns: seq<Turn>): seq<Move>
    decreases |turns|
  {
    if turns == [] then [] else [SideMove(side, turns[0])] + SideMoves(side, turns[1..])
  }

  lemma SafeStep(s: System, side: Side, turn: Turn)
    requires Joint(s)
    requires var x, y := Get(s, side), Peer(s, side);
             if turn.Near? then Ready(x, y, turn.action) else Ready(y, x, turn.action)
    ensures var m := SideMove(side, turn);
            Enabled(s, m) && Joint(Next(s, m))
            && Get(Next(s, m), side) == (if turn.Near? then Act(Get(s, side), turn.action) else Get(s, side))
            && Peer(Next(s, m), side) == (if turn.Near? then Peer(s, side) else Act(Peer(s, side), turn.action))
  {
    var m := SideMove(side, turn);
    assert Enabled(s, m) && !Hazardous(s, m);
    hide Enabled, Joint, Hazardous, Act, Ready;
    StepKeepsJoint(s, m);
  }

  /** Such turns are a run of the system, and a safe one. */
  lemma {:induction false} LeadsIsRun(s: System, side: Side, turns: seq<Turn>, f: Endpoint, g: Endpoint)
    requires Joint(s) && Leads(Get(s, side), Peer(s, side), turns, f, g)
    ensures var moves := SideMoves(side, turns);
            Run(s, moves) && Joint(Exec(s, moves)) && Get(Exec(s, moves), side) == f && Peer(Exec(s, moves), side) == g
    decreases |turns|
  {
    hide Joint, Ready, Enabled, Next, Act, Get, Peer, SideMove;
    if turns == [] {
      assert SideMoves(side, turns) == [];
    } else {
      SafeStep(s, side, turns[0]);
      var m := SideMove(side, turns[0]);
      LeadsIsRun(Next(s, m), side, turns[1..], f, g);
      assert SideMoves(side, turns)[1..] == SideMoves(side, turns[1..]);
    }
  }

  // ----- one exchange of data -----

  lemma JointSide(s: System, side: Side)
    requires Joint(s)
    ensures Pair(Get(s, side), Peer(s, side)) && Sound(Get(s, side)) && Sound(Peer(s, side))
  {
    hide Sound, Link;
  }

  ghost predicate Sendable(x: Endpoint, y: Endpoint, data: seq<byte>) {
    && 0 < |data| <= MAX_PAYLOAD && |x.stream| + |data| < U32 - 1 && |y.stream| < U32 - 1 && y.ring == []
  }

  /** The near end after its data has been acknowledged. */
  ghost predicate Sent(x: Endpoint, f: Endpoint, data: seq<byte>) {
    && Quiet(f) && f.stream == x.stream + DataSymbols(data) && f.written == x.written + data
    && f.ring == x.ring && f.delivered == x.delivered && f.recvSeq == x.recvSeq
  }

  /** The far end after its application has read them. */
  ghost predicate Taken(y: Endpoint, g: Endpoint, data: seq<byte>) {
    && Quiet(g) && g.stream == y.stream && g.written == y.written
    && g.ring == [] && g.delivered == y.delivered + data && g.recvSeq == y.recvSeq + |data|
  }

  /** One end writes, the other takes the segment and acknowledges it, and its
      application reads. */
  lemma Exchange(x: Endpoint, y: Endpoint, data: seq<byte>) returns (turns: seq<Turn>, f: Endpoint, g: Endpoint)
    requires Calm(x, y) && Sendable(x, y, data)
    ensures Leads(x, y, turns, f, g) && Sent(x, f, data) && Taken(y, g, data)
  {
    hide Inv, Life, Link, Endpoints.Receive, WriteSegment, Sound, PushAck;
    var p := Segment(|x.stream|, x.recvSeq, NONE, data);
    var ack := Segment(y.sendSeq, y.recvSeq + |data|, ACK, []);
    QuietFacts(x);
    QuietFacts(y);
    QuietWrite(x, data);
    var x1 := Act(x, Write(data));
    TakesData(y, p, ENV);
    var y1 := Act(y, Receive(p, ENV));
    Acknowledges(y, y1, data);
    TakesAck(x1, ack, ENV);
    f := Act(x1, Receive(ack, ENV));
    g := Act(y1, Read(|data|));
    Reads(y1, data);
    assert Fin !in DataSymbols(data);
    assert Ready(x, y, Write(data)) && Ready(y, x1, Receive(p, ENV));
    assert Ready(x1, y1, Receive(ack, ENV)) && Ready(y1, f, Read(|data|));
    hide Act, Ready;
    LeadsFar(f, y1, Read(|data|), [], f, g);
    LeadsNear(x1, y1, Receive(ack, ENV), [Far(Read(|data|))] + [], f, g);
    LeadsFar(x1, y, Receive(p, ENV), [Near(Receive(ack, ENV))] + ([Far(Read(|data|))] + []), f, g);
    turns := [Near(Write(data))] + ([Far(Receive(p, ENV))] + ([Near(Receive(ack, ENV))] + ([Far(Read(|data|))] + [])));
    LeadsNear(x, y, Write(data), [Far(Receive(p, ENV))] + ([Near(Receive(ack, ENV))] + ([Far(Read(|data|))] + [])), f, g);
  }

  lemma Acknowledges(y: Endpoint, y1: Endpoint, data: seq<byte>)
    requires y.ring == []
    requires y1 == PushAck(y.(recvSeq := y.recvSeq + |data|, ring := y.ring + data))
    ensures Segment(y.sendSeq, y.recvSeq + |data|, ACK, []) in y1.wire
    ensures y1 == y.(recvSeq := y.recvSeq + |data|, ring := data, wire := y1.wire)
  {
    assert y.ring + data == data;
  }

  lemma Reads(y: Endpoint, data: seq<byte>)
    requires y.ring == data
    ensures Act(y, Read(|data|)) == y.(ring := [], delivered := y.delivered + data)
  {
    assert data[|data|..] == [] && data[..|data|] == data;
  }

  /** All bytes have arrived, and both ends are as quiet as before. */
  lemma Transfer(s: System, side: Side, data: seq<byte>) returns (moves: seq<Move>)
    requires Joint(s) && Calm(Get(s, side), Peer(s, side)) && Sendable(Get(s, side), Peer(s, side), data)
    ensures Run(s, moves) && Joint(Exec(s, moves))
    ensures var f, g := Get(Exec(s, moves), side), Peer(Exec(s, moves), side);
            Calm(f, g) && Sent(Get(s, side), f, data) && Taken(Peer(s, side), g, data)
  {
    var x, y := Get(s, side), Peer(s, side);
    hide Pair, Joint, Get, Peer, Run, Exec;
    var turns, f, g := Exchange(x, y, data);
    LeadsIsRun(s, side, turns, f, g);
    moves := SideMoves(side, turns);
    JointSide(Exec(s, moves), side);
  }

  // ----- closing -----

  lemma QuietClose(x: Endpoint)
    requires Sound(x) && Quiet(x) && |x.stream| + 1 < U32
    ensures var f := Act(x, Close);
            && Inv(f) && f.state == FinWait1 && f.sendQ == [] && f.stream == x.stream + [Fin] && f.recvSeq == x.recvSeq
            && f.ring == x.ring && f.delivered == x.delivered && f.written == x.written
            && Segment(|x.stream|, x.recvSeq, FIN_ACK, []) in f.wire
  {
    QuietLife(x);
    hide Sound, Quiet, Inv, InFlight, SentUpto, Life, Act, Enqueue, SendsAtOnce;
    QuietFacts(x);
    QuietSends(x, 1);
    CloseNumbersFin(x);
    CloseIs(x);
    SameFlight(x, x.(state := FinWait1));
    GoesOut(x.(state := FinWait1), FIN_ACK, []);
  }

  lemma CloseIs(x: Endpoint)
    requires x.state == Established
    ensures Act(x, Close) == Enqueue(x.(state := FinWait1), FIN_ACK, [])
  {
    hide Enqueue;
  }

  lemma QuietLife(x: Endpoint)
    requires Sound(x)
    ensures Life(x)
  {
  }

  /** A quiet end that is closed upon acknowledges the FIN and sends its own. */
  lemma QuietFin(y: Endpoint, p: Segment, env: Environment)
    requires Sound(y) && Quiet(y) && |y.stream| + 1 < U32 && y.recvSeq + 1 < U32
    requires p == Segment(y.recvSeq, |y.stream|, FIN_ACK, [])
    ensures var f := Act(y, Receive(p, env));
            && Inv(f) && f.state == LastAck && f.sendQ == [] && f.stream == y.stream + [Fin]
            && f.recvSeq == y.recvSeq + 1 && f.ring == y.ring && f.delivered == y.delivered && f.written == y.written
            && Segment(|y.stream|, y.recvSeq + 1, ACK, []) in f.wire
            && Segment(|y.stream|, y.recvSeq + 1, FIN_ACK, []) in f.wire
  {
    hide Sound, Quiet, Inv, SentUpto, ReceiveAck, ReceiveData, Life, Endpoints.Receive, Receives, WellFormed, Hazard;
    QuietLife(y);
    QuietFacts(y);
    FinWellFormed(y, p);
    ReceiveKeeps(y, p, env);
    FullAck(y, env.junk);
    var y1 := ReceiveAck(y, |y.stream|, env.junk);
    ReceiveIs(y, p, env, y1);
    FinFromQuiet(y1, p);
  }

  lemma FinWellFormed(e: Endpoint, p: Segment)
    requires p.flags == FIN_ACK && p.payload == [] && p.seqNum + 1 < U32
    ensures WellFormed(p) && !Hazard(e, p)
  {
  }

  lemma FinFromQuiet(y: Endpoint, p: Segment)
    requires Inv(y) && y.state == Established && y.rtxQ == [] && y.sendQ == [] && Fin !in y.stream && y.stream != []
    requires p.flags == FIN_ACK && p.payload == [] && p.seqNum == y.recvSeq && y.recvSeq + 1 < U32
    ensures var f := ReceiveData(y, p);
            && f.state == LastAck && f.sendQ == [] && f.stream == y.stream + [Fin]
            && f.recvSeq == y.recvSeq + 1 && f.ring == y.ring && f.delivered == y.delivered && f.written == y.written
            && Segment(|y.stream|, y.recvSeq + 1, ACK, []) in f.wire
            && Segment(|y.stream|, y.recvSeq + 1, FIN_ACK, []) in f.wire
  {
    hide Inv, SentUpto, Enqueue, InFlight;
    QuietSends(y, 1);
    var z := PushAck(y.(recvSeq := y.recvSeq + 1)).(state := LastAck);
    assert ReceiveData(y, p) == Enqueue(z, FIN_ACK, []);
    hide ReceiveData;
    SameFlight(y, z);
    GoesOut(z, FIN_ACK, []);
    assert Segment(|y.stream|, y.recvSeq + 1, ACK, []) in z.wire;
  }

  lemma SameFlight(e: Endpoint, f: Endpoint)
    requires f.unackBase == e.unackBase && f.unackNext == e.unackNext
    ensures InFlight(f) == InFlight(e)
  {
  }

  /** The last FIN, taken in FIN-WAIT-2. */
  lemma LastFin(x: Endpoint, p: Segment, env: Environment)
    requires Inv(x) && x.state == FinWait2 && x.sendQ == []
    requires p == Segment(x.recvSeq, |x.stream|, FIN_ACK, []) && x.recvSeq + 1 < U32
    ensures var f := Act(x, Receive(p, env));
            && f.state == TimeWait && f.sendQ == [] && f.rtxQ == [] && f.sendSeq == |x.stream| && f.stream == x.stream
            && f.recvSeq == x.recvSeq + 1 && f.ring == x.ring && f.delivered == x.delivered && f.written == x.written
            && Segment(|x.stream|, x.recvSeq + 1, ACK, []) in f.wire
  {
    hide Inv, ReceiveAck;
    FullAck(x, env.junk);
    var x1 := ReceiveAck(x, |x.stream|, env.junk);
    ReceiveIs(x, p, env, x1);
    assert ReceiveData(x1, p) == PushAck(x1.(recvSeq := x.recvSeq + 1)).(state := TimeWait);
    hide Endpoints.Receive, ReceiveData;
    var ack := Segment(|x.stream|, x.recvSeq + 1, ACK, []);
    assert ack in PushAck(x1.(recvSeq := x.recvSeq + 1)).wire;
  }

  /** The end has nothing left to do and its peer has everything. */
  ghost predicate Ended(x: Endpoint, f: Endpoint, peer: Endpoint) {
    && f.rtxQ == [] && f.sendQ == [] && f.stream == x.stream + [Fin] && f.sendSeq == |f.stream| == peer.recvSeq
    && f.written == x.written && f.ring == x.ring && f.delivered == x.delivered
  }

  /** What has not changed at an end that has sent its FIN and counted `n` symbols more. */
  ghost predicate Closes(x: Endpoint, f: Endpoint, n: nat) {
    && f.sendQ == [] && f.stream == x.stream + [Fin] && f.recvSeq == x.recvSeq + n
    && f.written == x.written && f.ring == x.ring && f.delivered == x.delivered
  }

  /** Up to FIN-WAIT-2 and LAST-ACK. */
  lemma FirstHalf(x: Endpoint, y: Endpoint, fin: Segment, ack: Segment)
    requires Calm(x, y) && |x.stream| + 2 < U32 && |y.stream| + 2 < U32
    requires fin == Segment(|x.stream|, x.recvSeq, FIN_ACK, [])
    requires ack == Segment(|y.stream|, y.recvSeq + 1, ACK, [])
    ensures var x1, y1 := Act(x, Close), Act(y, Receive(fin, ENV));
            var x2 := Act(x1, Receive(ack, ENV));
            && Ready(x, y, Close) && Ready(y, x1, Receive(fin, ENV)) && Ready(x1, y1, Receive(ack, ENV))
            && Inv(x2) && x2.state == FinWait2 && Closes(x, x2, 0)
            && Inv(y1) && y1.state == LastAck && Closes(y, y1, 1)
            && Segment(|y.stream|, y.recvSeq + 1, FIN_ACK, []) in y1.wire
  {
    hide Inv, Life, Link, Endpoints.Receive, Endpoints.Close, Sound;
    QuietFacts(x);
    QuietFacts(y);
    QuietClose(x);
    var x1 := Act(x, Close);
    QuietFin(y, fin, ENV);
    TakesAck(x1, ack, ENV);
  }

  /** And on to TIME-WAIT and CLOSED. */
  lemma SecondHalf(x: Endpoint, y: Endpoint, x2: Endpoint, y1: Endpoint, fin: Segment, ack: Segment)
    requires x.recvSeq == |y.stream| && y.recvSeq == |x.stream| && |x.stream| + 2 < U32 && |y.stream| + 2 < U32
    requires Inv(x2) && x2.state == FinWait2 && Closes(x, x2, 0) && Inv(y1) && y1.state == LastAck && Closes(y, y1, 1)
    requires fin == Segment(|y.stream|, y.recvSeq + 1, FIN_ACK, []) && fin in y1.wire
    requires ack == Segment(|x.stream| + 1, x.recvSeq + 1, ACK, [])
    ensures var x3, g := Act(x2, Receive(fin, ENV)), Act(y1, Receive(ack, ENV));
            var f := Act(x3, CloseDone);
            && Ready(x2, y1, Receive(fin, ENV)) && Ready(y1, x3, Receive(ack, ENV)) && Ready(x3, g, CloseDone)
            && Ended(x, f, g) && Ended(y, g, f) && f.state == Closed && g.state == Closed
  {
    hide Inv, Endpoints.Receive;
    LastFin(x2, fin, ENV);
    TakesAck(y1, ack, ENV);
  }

  /** From a calm connection `Close` takes the near end through FIN-WAIT-1 and
      FIN-WAIT-2 to TIME-WAIT and CLOSED, and the far one through LAST-ACK to CLOSED. */
  lemma WindUp(x: Endpoint, y: Endpoint) returns (turns: seq<Turn>, f: Endpoint, g: Endpoint)
    requires Calm(x, y) && |x.stream| + 2 < U32 && |y.stream| + 2 < U32
    ensures Leads(x, y, turns, f, g) && Ended(x, f, g) && Ended(y, g, f) && f.state == Closed && g.state == Closed
  {
    hide Pair, Quiet, Act, Ready, Closes, Ended, Inv;
    var fin, ack := Segment(|x.stream|, x.recvSeq, FIN_ACK, []), Segment(|y.stream|, y.recvSeq + 1, ACK, []);
    var fin2, ack2 := Segment(|y.stream|, y.recvSeq + 1, FIN_ACK, []), Segment(|x.stream| + 1, x.recvSeq + 1, ACK, []);
    var y1, x2 := Act(y, Receive(fin, ENV)), Act(Act(x, Close), Receive(ack, ENV));
    FirstHalf(x, y, fin, ack);
    SecondHalf(x, y, x2, y1, fin2, ack2);
    f := Act(Act(x2, Receive(fin2, ENV)), CloseDone);
    g := Act(y1, Receive(ack2, ENV));
    turns := SixTurns(x, y, fin, ack, fin2, ack2);
  }

  lemma SixTurns(x: Endpoint, y: Endpoint, fin: Segment, ack: Segment, fin2: Segment, ack2: Segment)
      returns (turns: seq<Turn>)
    requires var x1, y1 := Act(x, Close), Act(y, Receive(fin, ENV));
             var x2 := Act(x1, Receive(ack, ENV));
             var x3, g := Act(x2, Receive(fin2, ENV)), Act(y1, Receive(ack2, ENV));
             && Ready(x, y, Close) && Ready(y, x1, Receive(fin, ENV)) && Ready(x1, y1, Receive(ack, ENV))
             && Ready(x2, y1, Receive(fin2, ENV)) && Ready(y1, x3, Receive(ack2, ENV)) && Ready(x3, g, CloseDone)
    ensures var x3 := Act(Act(Act(x, Close), Receive(ack, ENV)), Receive(fin2, ENV));
            Leads(x, y, turns, Act(x3, CloseDone), Act(Act(y, Receive(fin, ENV)), Receive(ack2, ENV)))
  {
    hide Act, Ready;
    var x1, y1 := Act(x, Close), Act(y, Receive(fin, ENV));
    var x2 := Act(x1, Receive(ack, ENV));
    var x3, g := Act(x2, Receive(fin2, ENV)), Act(y1, Receive(ack2, ENV));
    var f := Act(x3, CloseDone);
    turns := [Near(CloseDone)] + [];
    LeadsNear(x3, g, CloseDone, [], f, g);
    LeadsFar(x3, y1, Receive(ack2, ENV), turns, f, g);
    turns := [Far(Receive(ack2, ENV))] + turns;
    LeadsNear(x2, y1, Receive(fin2, ENV), turns, f, g);
    turns := [Near(Receive(fin2, ENV))] + turns;
    LeadsNear(x1, y1, Receive(ack, ENV), turns, f, g);
    turns := [Near(Receive(ack, ENV))] + turns;
    LeadsFar(x1, y, Receive(fin, ENV), turns, f, g);
    turns := [Far(Receive(fin, ENV))] + turns;
    LeadsNear(x, y, Close, turns, f, g);
    turns := [Near(Close)] + turns;
  }

  // ----- opening -----

  /** After the three-way handshake. */
  ghost function Client(): Endpoint {
    Refused().(state := Established, wire := [Syn0(), Segment(1, 1, ACK, [])])
  }

  ghost function Server(): Endpoint {
    Born().(state := Established, rtxQ := [], unackBase := 1, credit := SEND_BUFFER + 1, window := 2920,
            reno := Reno.RenoState(Reno.SlowStart, 2920, 65536, 1, 0))
  }

  ghost function ThreeWay(): seq<Move> {
    [Move(A, Connect), Move(B, Receive(Syn0(), ENV)), Move(A, Receive(SynAck0(), YIELDING)),
     Move(B, Receive(Segment(1, 1, ACK, []), ENV))]
  }

  lemma ClientConnects()
    ensures Endpoints.Receive(Connecting(), SynAck0(), YIELDING) == Client()
  {
    AckTaken(Connecting(), 1, false, 1);
    hide ReceiveAck;
  }

  lemma ServerConnects()
    ensures Endpoints.Receive(Born(), Segment(1, 1, ACK, []), ENV) == Server()
  {
    AckTaken(Born(), 1, false, 1);
    hide ReceiveAck;
  }

  /** Connect and listen, and both ends are calm. */
  lemma Opens()
    ensures var start := System(Idle(), Listening());
            && ClientAndListener(start) && Run(start, ThreeWay()) && Exec(start, ThreeWay()) == System(Client(), Server())
            && Joint(System(Client(), Server()))
  {
    Connects();
    IsBorn();
    ClientConnects();
    ServerConnects();
    hide Endpoints.Receive, Endpoints.Connect;
    var s0, s1, s2 := System(Idle(), Listening()), System(Connecting(), Listening()), System(Connecting(), Born());
    var s3, s4 := System(Client(), Born()), System(Client(), Server());
    ConnectGoes(s0, A, Connecting());
    ReceiveGoes(s1, B, Syn0(), ENV, Born());
    ReceiveGoes(s2, A, SynAck0(), YIELDING, Client());
    ReceiveGoes(s3, B, Segment(1, 1, ACK, []), ENV, Server());
    var m := ThreeWay();
    hide Goes, Run, Safe, Exec, Joint;
    Onward(s3, m, 3, s4);
    Onward(s2, m, 2, s3);
    Onward(s1, m, 1, s2);
    Onward(s0, m, 0, s1);
    ProtocolLimits.Finished(s4, m);
    assert m[0..] == m;
    PassiveRunsAreSafe(s0, m);
  }

  lemma OpensCalm()
    requires Joint(System(Client(), Server()))
    ensures Calm(Client(), Server())
  {
    hide Sound, Link;
  }

  // ----- a whole session -----

  /** Who says what, in order. */
  datatype Line = Line(side: Side, data: seq<byte>)

  function Said(script: seq<Line>, side: Side): seq<byte>
    decreases |script|
  {
    if script == [] then []
    else (if script[0].side == side then script[0].data else []) + Said(script[1..], side)
  }

  /** Each line fits one segment; all of them fit the sequence numbers. */
  predicate Speakable(script: seq<Line>, room: int)
    decreases |script|
  {
    if script == [] then 0 <= room
    else 0 < |script[0].data| <= MAX_PAYLOAD && Speakable(script[1..], room - |script[0].data|)
  }

  ghost predicate Resting(s: System, room: int) {
    && Joint(s) && Calm(s.a, s.b) && s.a.ring == [] && s.b.ring == []
    && |s.a.stream| + room < U32 - 2 && |s.b.stream| + room < U32 - 2
  }

  /** What each has written and read from `s` to `t` is what the script says. */
  ghost predicate Follows(s: System, t: System, script: seq<Line>) {
    && t.b.delivered == s.b.delivered + Said(script, A) && t.a.written == s.a.written + Said(script, A)
    && t.a.delivered == s.a.delivered + Said(script, B) && t.b.written == s.b.written + Said(script, B)
  }

  lemma FollowsOn(s: System, t: System, u: System, script: seq<Line>)
    requires script != [] && Follows(s, t, [script[0]]) && Follows(t, u, script[1..])
    ensures Follows(s, u, script)
  {
    SaidCons(script, A);
    SaidCons(script, B);
    hide Said;
    var a, a1, b, b1 := Said([script[0]], A), Said(script[1..], A), Said([script[0]], B), Said(script[1..], B);
    Regroup(s.b.delivered, a, a1);
    Regroup(s.a.written, a, a1);
    Regroup(s.a.delivered, b, b1);
    Regroup(s.b.written, b, b1);
  }

  lemma Regroup(x: seq<byte>, y: seq<byte>, z: seq<byte>)
    ensures (x + y) + z == x + (y + z)
  {
  }

  lemma SaidCons(script: seq<Line>, side: Side)
    requires script != []
    ensures Said(script, side) == Said([script[0]], side) + Said(script[1..], side)
  {
    SaidOne(script[0], side);
  }

  lemma SaidOne(line: Line, side: Side)
    ensures Said([line], side) == if line.side == side then line.data else []
  {
    assert [line][1..] == [];
  }

  lemma FollowsNothing(s: System)
    ensures Follows(s, s, [])
  {
  }

  /** One line of the script. */
  lemma Speak(s: System, line: Line, room: int) returns (moves: seq<Move>)
    requires Resting(s, room) && 0 < |line.data| <= MAX_PAYLOAD && |line.data| <= room
    ensures Run(s, moves) && Resting(Exec(s, moves), room - |line.data|) && Follows(s, Exec(s, moves), [line])
  {
    hide Joint, Calm, Run, Exec, Quiet;
    SaidOne(line, A);
    SaidOne(line, B);
    hide Said;
    if line.side == B { CalmSymmetric(s.a, s.b); }
    moves := Transfer(s, line.side, line.data);
    var t := Exec(s, moves);
    if line.side == B { CalmSymmetric(t.b, t.a); }
  }

  lemma {:induction false} Converse(s: System, script: seq<Line>, room: int) returns (moves: seq<Move>)
    requires Resting(s, room) && Speakable(script, room)
    ensures Run(s, moves) && Resting(Exec(s, moves), 0) && Follows(s, Exec(s, moves), script)
    decreases |script|
  {
    hide Resting, Run, Exec, Follows;
    SpeakableRoom(script, room);
    if script == [] {
      moves := [];
      EmptyRun(s);
      RestingLess(s, room);
      FollowsNothing(s);
    } else {
      SpeakableRoom(script[1..], room - |script[0].data|);
      var first := Speak(s, script[0], room);
      var t := Exec(s, first);
      var rest := Converse(t, script[1..], room - |script[0].data|);
      RunConcat(s, first, rest);
      moves := first + rest;
      FollowsOn(s, t, Exec(t, rest), script);
    }
  }

  lemma RestingLess(s: System, room: int)
    requires Resting(s, room) && 0 <= room
    ensures Resting(s, 0)
  {
    hide Joint, Calm;
  }

  lemma EmptyRun(s: System)
    ensures Run(s, []) && Exec(s, []) == s
  {
  }

  lemma {:induction false} SpeakableRoom(script: seq<Line>, room: int)
    requires Speakable(script, room)
    ensures 0 <= room
    decreases |script|
  {
    if script != [] { SpeakableRoom(script[1..], room - |script[0].data|); }
  }

  lemma CalmSymmetric(x: Endpoint, y: Endpoint)
    requires Calm(x, y)
    ensures Calm(y, x)
  {
    hide Sound, Link, Quiet;
  }

  /** Whatever two applications have to say to each other, in whatever order, and
      whichever of them closes: there is a run from two fresh sockets, one of which
      listens, after which each has read exactly what the other wrote and both are
      closed with nothing left to send. */
  lemma SessionsComplete(script: seq<Line>, room: int, closer: Side) returns (moves: seq<Move>)
    requires Speakable(script, room) && room < U32 - 4
    ensures var start := System(Idle(), Listening());
            ClientAndListener(start) && Run(start, moves) &&
            var end := Exec(start, moves);
            && end.a.state == Closed && end.b.state == Closed
            && end.b.delivered == Said(script, A) == end.a.written && end.a.delivered == Said(script, B) == end.b.written
            && end.a.rtxQ == [] && end.a.sendQ == [] && end.b.rtxQ == [] && end.b.sendQ == []
            && end.b.recvSeq == end.a.sendSeq && end.a.recvSeq == end.b.sendSeq
  {
    hide Joint, Calm, Run, Exec, Quiet;
    var start := System(Idle(), Listening());
    Opens();
    OpensCalm();
    var open := System(Client(), Server());
    var talk := Converse(open, script, room);
    RunConcat(start, ThreeWay(), talk);
    var s := Exec(open, talk);
    if closer == B { CalmSymmetric(s.a, s.b); }
    var turns, f, g := WindUp(Get(s, closer), Peer(s, closer));
    LeadsIsRun(s, closer, turns, f, g);
    RunConcat(start, ThreeWay() + talk, SideMoves(closer, turns));
    moves := ThreeWay() + talk + SideMoves(closer, turns);
  }
}
