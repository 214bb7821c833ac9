/** What the joint invariant gives an application: stream delivery, no loss,
    window and credit accounting, and safe closing. */
module ProtocolTheorems {
  import opened Machine
  import opened Segments
  import opened Endpoints
  import opened EndpointInvariant
  import opened EndpointSteps
  import opened EndpointReceive
  import opened EndpointActions
  import opened EndpointStates
  import opened Protocol
  import opened ProtocolRun
  import Reno

  lemma SideSound(s: System, side: Side)
    requires Joint(s)
    ensures var x, y := Get(s, side), Peer(s, side);
            Sound(x) && Sound(y) && Link(x, y) && Link(y, x)
  {
    hide Sound, Link;
  }

  lemma RunSides(start: System, moves: seq<Move>, side: Side)
    requires Initial(start) && Run(start, moves) && Safe(start, moves)
    ensures var x, y := Get(Exec(start, moves), side), Peer(Exec(start, moves), side);
            Sound(x) && Sound(y) && Link(x, y) && Link(y, x)
  {
    hide *;
    RunKeepsJoint(start, moves);
    SideSound(Exec(start, moves), side);
  }

  // ----- delivery -----

  /** What a sound link means for the data. */
  ghost predicate Delivers(x: Endpoint, y: Endpoint) {
    && y.recvSeq <= |x.stream|
    && y.delivered + y.ring == Bytes(x.stream[..y.recvSeq])
    && y.delivered + y.ring <= x.written
    && y.delivered <= x.written
  }

  lemma LinkDelivers(x: Endpoint, y: Endpoint)
    requires Sound(x) && Link(x, y)
    ensures Delivers(x, y) && x.written == y.delivered + y.ring + Bytes(x.stream[y.recvSeq..])
  {
    hide Inv, Life, Bytes, SentUpto;
    InvWritten(x);
    assert x.stream == x.stream[..y.recvSeq] + x.stream[y.recvSeq..];
    BytesConcat(x.stream[..y.recvSeq], x.stream[y.recvSeq..]);
  }

  /** Stream safety: in every safe run, what the receiver has read plus what
      waits in its ring buffer is a prefix of what the peer wrote, namely the
      data of the stream below its `recv_seq_num_`. */
  lemma StreamSafety(start: System, moves: seq<Move>, side: Side)
    requires Initial(start) && Run(start, moves) && Safe(start, moves)
    ensures Delivers(Get(Exec(start, moves), side), Peer(Exec(start, moves), side))
  {
    hide *;
    RunSides(start, moves, side);
    LinkDelivers(Get(Exec(start, moves), side), Peer(Exec(start, moves), side));
  }

  /** Queue tiling: the two queues, end to end, are exactly the symbols from
      `send_unack_base_` up to `send_seq_num_`. */
  lemma QueueTiling(e: Endpoint)
    requires Inv(e)
    ensures Tiles(e.rtxQ + e.sendQ, e.unackBase, e.sendSeq, e.stream)
    ensures e.unackBase <= e.sendSeq == |e.stream|
    ensures QueueSymbols(e.rtxQ + e.sendQ) == e.stream[e.unackBase..]
  {
    CoreBounds(e);
    TilesConcat(e.rtxQ, e.sendQ, e.unackBase, SentUpto(e), |e.stream|, e.stream);
    TilesSymbols(e.rtxQ + e.sendQ, e.unackBase, |e.stream|, e.stream);
  }

  /** No acknowledgement of `y` runs ahead of what `y` accepted, and every byte
      `x` wrote is delivered, in `y`'s ring, or in the part of `x`'s queues that
      `y` has not accepted, exactly once and in order. */
  ghost predicate Conserves(x: Endpoint, y: Endpoint) {
    var queued := QueueSymbols(x.rtxQ + x.sendQ);
    && (forall p :: p in y.wire && p.flags.ack ==> p.ackNum <= y.recvSeq)
    && x.unackBase <= y.recvSeq <= x.unackBase + |queued|
    && x.written == y.delivered + y.ring + Bytes(queued[y.recvSeq - x.unackBase..])
  }

  lemma AcksTruthful(y: Endpoint)
    requires Inv(y)
    ensures forall p :: p in y.wire && p.flags.ack ==> p.ackNum <= y.recvSeq
  {
  }

  lemma LinkConserves(x: Endpoint, y: Endpoint)
    requires Sound(x) && Sound(y) && Link(x, y)
    ensures Conserves(x, y)
  {
    hide Inv, Life, Bytes, SentUpto, QueueSymbols, Tiles, Controls;
    AcksTruthful(y);
    QueueTiling(x);
    LinkDelivers(x, y);
    var queued := QueueSymbols(x.rtxQ + x.sendQ);
    assert queued[y.recvSeq - x.unackBase..] == x.stream[y.recvSeq..];
  }

  /** Nothing is lost, in every safe run. */
  lemma NothingLost(start: System, moves: seq<Move>, side: Side)
    requires Initial(start) && Run(start, moves) && Safe(start, moves)
    ensures Conserves(Get(Exec(start, moves), side), Peer(Exec(start, moves), side))
  {
    hide *;
    RunSides(start, moves, side);
    LinkConserves(Get(Exec(start, moves), side), Peer(Exec(start, moves), side));
  }

  /** Both queues tile the unacknowledged stream in every state of every safe run. */
  lemma TilingInEveryRun(start: System, moves: seq<Move>, side: Side)
    requires Initial(start) && Run(start, moves) && Safe(start, moves)
    ensures var x := Get(Exec(start, moves), side);
            Tiles(x.rtxQ + x.sendQ, x.unackBase, x.sendSeq, x.stream)
  {
    hide *;
    RunSides(start, moves, side);
    SoundInv(Get(Exec(start, moves), side));
    QueueTiling(Get(Exec(start, moves), side));
  }

  lemma SoundInv(e: Endpoint)
    requires Sound(e)
    ensures Inv(e)
  {
  }

  // ----- accounting -----

  /** `send_unack_nextseq_ - send_unack_base_` is, modulo 2^64, the unacknowledged
      payload less the SYN and FIN already acknowledged; the credit is short of
      its initial value by the queued payload and over it by the same count; and
      the send queue waits only for the window. */
  ghost predicate Balanced(x: Endpoint) {
    var controls := AckedControls(x);
    && (x.unackNext - x.unackBase) % U64 == (Payload(x.rtxQ) - controls) % U64
    && x.credit + Payload(x.rtxQ + x.sendQ) == SEND_BUFFER + controls
    && (x.sendQ != [] ==> x.window < (Len(x.sendQ[0]) + (x.unackNext - x.unackBase) % U64) % U64)
    && Reno.MSS <= x.window
  }

  lemma InvBalanced(x: Endpoint)
    requires Inv(x)
    ensures Balanced(x)
  {
    hide Tiled, Historic, WireSound, Controls;
    PayloadConcat(x.rtxQ, x.sendQ);
  }

  lemma Accounting(start: System, moves: seq<Move>, side: Side)
    requires Initial(start) && Run(start, moves) && Safe(start, moves)
    ensures Balanced(Get(Exec(start, moves), side))
  {
    hide *;
    RunSides(start, moves, side);
    SoundInv(Get(Exec(start, moves), side));
    InvBalanced(Get(Exec(start, moves), side));
  }

  // ----- closing -----

  lemma QuietReceive(e: Endpoint, p: Segment)
    requires e.state != Established && e.state != CloseWait
    ensures var f := ReceiveData(e, p);
            f.rtxQ == e.rtxQ && f.sendQ == e.sendQ && f.sendSeq == e.sendSeq
            && f.stream == e.stream && f.written == e.written
  {
  }

  /** Only an acknowledgement of everything takes an endpoint out of FIN-WAIT-1
      or LAST-ACK. */
  lemma ClosingNeedsFullAck(e: Endpoint, a: Action)
    requires (e.state == FinWait1 || e.state == LastAck) && Allowed(e, a) && Act(e, a).state != e.state
    ensures a.Receive? && a.packet.flags.ack && a.packet.ackNum == e.sendSeq
    ensures Act(e, a) == ReceiveData(ReceiveAck(e, e.sendSeq, a.env.junk), a.packet)
    ensures ReceiveAck(e, e.sendSeq, a.env.junk).state == (if e.state == FinWait1 then FinWait2 else Closed)
  {
    hide Enqueue, Extend, ShutDown, ReceiveAck, ReceiveData;
    match a
    case Write(data) => EnqueueFields(e.(credit := e.credit - |data|, written := e.written + data), NONE, data);
    case Close => ShutDownState(e);
    case Timeout =>
      var r := Reno.OnTimeout(e.reno);
      ExtendFields(e.(wire := e.wire + e.rtxQ, reno := r, window := r.cwnd));
    case Receive(p, env) =>
      ReceiveAckStates(e, p.ackNum, env.junk);
      ReceiveDataStates(if p.flags.ack then ReceiveAck(e, p.ackNum, env.junk) else e, p);
    case _ =>
  }

  /** Nothing of `x` is queued and `y` has accepted every byte and FIN it ever queued. */
  ghost predicate Finished(x: Endpoint, y: Endpoint) {
    && x.rtxQ == [] && x.sendQ == []
    && y.recvSeq == x.sendSeq == |x.stream|
    && y.delivered + y.ring == x.written
  }

  /** Close safety: when an endpoint leaves FIN-WAIT-1, or LAST-ACK for CLOSED,
      both its queues are empty and the peer has accepted everything. */
  lemma CloseSafety(start: System, moves: seq<Move>, m: Move)
    requires Initial(start) && Run(start, moves) && Safe(start, moves)
    requires Enabled(Exec(start, moves), m)
    requires var s := Exec(start, moves);
             var x, f := Get(s, m.side), Get(Next(s, m), m.side);
             (x.state == FinWait1 || x.state == LastAck) && f.state != x.state
    ensures var t := Next(Exec(start, moves), m);
            Finished(Get(t, m.side), Peer(t, m.side))
  {
    hide Sound, Link, Exec, Run, Safe, Initial, Act, Allowed, Room, Hazard;
    var s := Exec(start, moves);
    RunSides(start, moves, m.side);
    var x, y := Get(s, m.side), Peer(s, m.side);
    ClosingNeedsFullAck(x, m.action);
    ClosesEmpty(x, y, m.action);
  }

  lemma ClosesEmpty(x: Endpoint, y: Endpoint, a: Action)
    requires Sound(x) && Sound(y) && Link(x, y)
    requires a.Receive? && a.packet in y.wire && a.packet.flags.ack && a.packet.ackNum == x.sendSeq
    requires x.state == FinWait1 || x.state == LastAck
    requires Act(x, a) == ReceiveData(ReceiveAck(x, x.sendSeq, a.env.junk), a.packet)
    ensures Finished(Act(x, a), y)
  {
    AcksAccepted(y, a.packet);
    SentWithinStream(x);
    hide Inv, SentUpto, ReceiveAck, ReceiveData, Act, ProcessAck, Bytes, Truthful, Life, Receives, Shrinks;
    ProcessAckAll(x, x.sendSeq, a.env.junk);
    ProcessAckKeeps(x, x.sendSeq, a.env.junk);
    var e1 := ReceiveAck(x, x.sendSeq, a.env.junk);
    AckCompleted(x, x.sendSeq, a.env.junk);
    ReceiveAckStates(x, x.sendSeq, a.env.junk);
    QuietReceive(e1, a.packet);
    assert x.stream[..y.recvSeq] == x.stream;
    assert x.written == Bytes(x.stream) by { InvWritten(x); }
  }

  lemma AcksAccepted(y: Endpoint, p: Segment)
    requires Sound(y) && p in y.wire && p.flags.ack
    ensures p.ackNum <= y.recvSeq
  {
  }

  lemma AckCompleted(e: Endpoint, ack: nat, junk: bool)
    ensures var f := ReceiveAck(e, ack, junk);
            f == ProcessAck(e, ack, junk).(state := f.state)
  {
  }

  lemma InvWritten(e: Endpoint)
    requires Inv(e)
    ensures e.written == Bytes(e.stream)
  {
  }
}
