/**
 Two endpoints and the network between them.

 A packet, once sent, is in the sender's `wire` for ever, and a step may deliver
 any packet of the peer's `wire` at any time: that is a network that drops,
 duplicates, delays and reorders without limit.  Each locked section of the
 source is one step.
 */
module Protocol {
  import opened Machine
  import opened Segments
  import opened Endpoints
  import opened EndpointInvariant
  import opened EndpointSteps
  import opened EndpointReceive
  import opened EndpointActions
  import opened EndpointStates

  datatype System = System(a: Endpoint, b: Endpoint)

  datatype Side = A | B

  datatype Move = Move(side: Side, action: Action)

  function Get(s: System, side: Side): Endpoint {
    if side == A then s.a else s.b
  }

  function Peer(s: System, side: Side): Endpoint {
    if side == A then s.b else s.a
  }

  function Other(side: Side): Side {
    if side == A then B else A
  }

  function Set(s: System, side: Side, e: Endpoint): System {
    if side == A then s.(a := e) else s.(b := e)
  }

  /** A step the source can take: the packet handled is one the peer sent. */
  ghost predicate Enabled(s: System, m: Move) {
    && Allowed(Get(s, m.side), m.action)
    && Room(Get(s, m.side), m.action)
    && (m.action.Receive? ==> m.action.packet in Peer(s, m.side).wire)
  }

  /** One of the two receptions characterised in `EndpointReceive`. */
  ghost predicate Hazardous(s: System, m: Move) {
    m.action.Receive? && Hazard(Get(s, m.side), m.action.packet)
  }

  function Next(s: System, m: Move): System {
    Set(s, m.side, Act(Get(s, m.side), m.action))
  }

  function Exec(s: System, moves: seq<Move>): System
    decreases |moves|
  {
    if moves == [] then s else Exec(Next(s, moves[0]), moves[1..])
  }

  /** Every move is enabled when it is made. */
  ghost predicate Run(s: System, moves: seq<Move>)
    decreases |moves|
  {
    moves == [] || (Enabled(s, moves[0]) && Run(Next(s, moves[0]), moves[1..]))
  }

  /** No move of the run is one of the two hazards. */
  ghost predicate Safe(s: System, moves: seq<Move>)
    decreases |moves|
  {
    moves == [] || (!Hazardous(s, moves[0]) && Safe(Next(s, moves[0]), moves[1..]))
  }

  /** Fresh sockets; in LISTEN an endpoint stands for a listener as seen by this
      connection and becomes the child socket once a SYN arrives. */
  ghost predicate Initial(s: System) {
    && (s.a == Fresh(Closed, 0) || s.a == Fresh(Listen, 0))
    && (s.b == Fresh(Closed, 0) || s.b == Fresh(Listen, 0))
  }

  // ----- the joint invariant -----

  /** Sender `x` and receiver `y`: nothing is accepted before it is sent,
      nothing is acknowledged before it is accepted, and what the receiver has
      handed over or still holds is exactly the data it has accepted. */
  ghost predicate Link(x: Endpoint, y: Endpoint) {
    && x.unackBase <= y.recvSeq <= SentUpto(x) <= |x.stream|
    && y.delivered + y.ring == Bytes(x.stream[..y.recvSeq])
  }

  ghost predicate Sound(e: Endpoint) {
    Inv(e) && Life(e)
  }

  ghost predicate Pair(x: Endpoint, y: Endpoint) {
    Sound(x) && Sound(y) && Link(x, y) && Link(y, x)
  }

  ghost predicate Joint(s: System) {
    Pair(s.a, s.b)
  }

  // ----- sending steps -----

  /** A step that touches only the sending side keeps both links. */
  lemma ProgressLinks(x: Endpoint, f: Endpoint, y: Endpoint)
    requires Link(x, y) && Link(y, x) && Progress(x, f, 0) && SentUpto(f) <= |f.stream|
    ensures Link(f, y) && Link(y, f)
  {
    hide SentUpto, Bytes;
    assert f.stream[..y.recvSeq] == x.stream[..y.recvSeq];
  }

  lemma PastFrame(e: Endpoint, f: Endpoint)
    requires Life(e) && f.stream != [] && SentUpto(e) <= SentUpto(f) && e.unackBase <= f.unackBase && e.recvSeq <= f.recvSeq
    requires e.stream != [] && f.state != Listen && f.state != CloseWait && f.state != Closing
    requires f.state == SynSent ==> f.recvSeq <= 1
    requires f.state == SynReceived ==> e.state == SynReceived || 1 <= f.recvSeq
    requires PastHandshake(f) ==> PastHandshake(e) || (1 <= f.recvSeq && 1 <= f.unackBase)
    ensures Life(f)
  {
  }

  lemma SentWithinStream(e: Endpoint)
    requires Inv(e)
    ensures SentUpto(e) <= |e.stream| && e.sendSeq == |e.stream|
  {
  }

  lemma ConnectPair(x: Endpoint, y: Endpoint)
    requires Pair(x, y) && Allowed(x, Connect)
    ensures Pair(Endpoints.Connect(x), y)
  {
    hide Inv, SentUpto, Endpoints.Connect;
    ConnectKeeps(x);
    var f := Endpoints.Connect(x);
    SentWithinStream(f);
    ProgressLinks(x, f, y);
  }

  lemma WritePair(x: Endpoint, y: Endpoint, data: seq<byte>)
    requires Pair(x, y) && Allowed(x, Write(data)) && Room(x, Write(data))
    ensures Pair(WriteSegment(x, data), y)
  {
    hide Inv, SentUpto, WriteSegment, Bytes;
    WriteKeeps(x, data);
    var f := WriteSegment(x, data);
    SentWithinStream(f);
    ProgressLinks(x, f, y);
    PastFrame(x, f);
  }

  lemma ReadPair(x: Endpoint, y: Endpoint, length: nat)
    requires Pair(x, y) && Allowed(x, Read(length))
    ensures Pair(Endpoints.Read(x, length), y)
  {
    hide Inv, Bytes;
    ReadKeeps(x, length);
    var f := Endpoints.Read(x, length);
    if x.ring == [] { assert f == x; }
  }

  lemma ClosePair(x: Endpoint, y: Endpoint)
    requires Pair(x, y) && Room(x, Close)
    ensures Pair(Endpoints.Close(x), y)
  {
    hide Inv, SentUpto, ShutDown, Bytes;
    if x.state != Closed && x.state != Listen {
      ShutDownKeeps(x);
      ShutDownState(x);
      var f := ShutDown(x);
      SentWithinStream(f);
      ProgressLinks(x, f, y);
      PastFrame(x, f);
    }
  }

  lemma CloseDonePair(x: Endpoint, y: Endpoint)
    requires Pair(x, y) && Allowed(x, CloseDone)
    ensures Pair(Endpoints.CloseDone(x), y)
  {
    hide Inv, Bytes;
    StateKeeps(x, Closed);
    if x.state == Closed { assert Endpoints.CloseDone(x) == x; }
  }

  lemma TimeoutPair(x: Endpoint, y: Endpoint)
    requires Pair(x, y)
    ensures Pair(Endpoints.Timeout(x), y)
  {
    if x.stream == [] {
      IdleTimeout(x);
    } else {
      hide Inv, SentUpto, Endpoints.Timeout, Bytes;
      TimeoutKeeps(x);
      var f := Endpoints.Timeout(x);
      SentWithinStream(f);
      ProgressLinks(x, f, y);
      PastFrame(x, f);
    }
  }

  lemma IdleTimeout(x: Endpoint)
    requires Life(x) && x.stream == []
    ensures Endpoints.Timeout(x) == x
  {
  }
}
