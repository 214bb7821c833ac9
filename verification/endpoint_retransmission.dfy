/** What is sent again, what is acknowledged, and what is not. */
module EndpointRetransmission {
  import opened Machine
  import opened Segments
  import opened Endpoints
  import opened EndpointInvariant
  import opened EndpointSteps
  import opened EndpointStates
  import Reno

  // ----- resending -----

  /** A packet that carries the symbol with sequence number `n`. */
  ghost predicate Covers(p: Segment, n: nat, stream: seq<Symbol>) {
    p.seqNum <= n < p.seqNum + Len(p) && Carries(p, stream)
  }

  lemma {:induction false} TilesCover(q: seq<Segment>, from: nat, to: nat, stream: seq<Symbol>, n: nat)
      returns (s: Segment)
    requires Tiles(q, from, to, stream) && from <= n < to
    ensures s in q && Covers(s, n, stream)
    decreases |q|
  {
    if n < q[0].seqNum + Len(q[0]) {
      s := q[0];
    } else {
      s := TilesCover(q[1..], from + Len(q[0]), to, stream, n);
    }
  }

  /** A timeout sends every unacknowledged symbol again. */
  lemma TimeoutResendsAll(e: Endpoint, n: nat)
    requires Inv(e) && e.unackBase <= n < SentUpto(e)
    ensures |e.wire| <= |Timeout(e).wire|
    ensures exists p :: p in Timeout(e).wire[|e.wire|..] && Covers(p, n, e.stream)
  {
    var s := TilesCover(e.rtxQ, e.unackBase, SentUpto(e), e.stream, n);
    var e1 := e.(wire := e.wire + e.rtxQ);
    var r := Reno.OnTimeout(e.reno);
    var g := e1.(reno := r, window := r.cwnd);
    ExtendLoopWire(g, InFlight(g));
    hide Inv, Covers, Tiles, SentUpto, ExtendLoop;
    var f := Timeout(e);
    assert e1.wire <= f.wire;
    assert f.wire[|e.wire|..][..|e.rtxQ|] == e.rtxQ;
    var i :| 0 <= i < |e.rtxQ| && e.rtxQ[i] == s;
    assert f.wire[|e.wire|..][i] == s;
  }

  /** And, unless a SYN is among it, closes the window to one segment. */
  lemma TimeoutClosesWindow(e: Endpoint)
    requires e.rtxQ != [] && forall s :: s in e.rtxQ ==> !s.flags.syn
    ensures Timeout(e).window == Reno.MSS == Timeout(e).reno.cwnd && Timeout(e).reno.phase == Reno.SlowStart
    ensures Timeout(e).reno.ssthresh == Reno.HalvedThreshold(e.reno)
  {
    hide Extend;
    var r := Reno.OnTimeout(e.reno);
    ExtendFields(e.(wire := e.wire + e.rtxQ, reno := r, window := r.cwnd));
  }

  /** With a SYN outstanding, or nothing, the congestion manager is left alone: the
      timeout only sends again. */
  lemma TimeoutSparesHandshake(e: Endpoint)
    requires e.rtxQ == [] || exists s :: s in e.rtxQ && s.flags.syn
    ensures var f := Timeout(e);
            && f.reno == e.reno && f.window == e.window && f.sendQ == e.sendQ && f.rtxQ == e.rtxQ
            && f.unackBase == e.unackBase && f.unackNext == e.unackNext && f.wire == e.wire + e.rtxQ
  {
    hide Extend;
  }

  /** The third duplicate acknowledgement resends the segment that starts at
      `send_unack_base_` (fast retransmit, section 3.2 of RFC 5681), after
      whatever the new window lets out. */
  lemma ThirdDuplicateResendsBase(e: Endpoint, ack: nat, junk: bool)
    requires Inv(e) && e.rtxQ != [] && e.reno.dups == 2 && e.reno.acked == ack != 0
    ensures var f := Congest(e, ack, junk);
            && f.wire != [] && e.wire < f.wire
            && Covers(f.wire[|f.wire| - 1], e.unackBase, f.stream) && f.wire[|f.wire| - 1].seqNum == e.unackBase
            && f.reno == Reno.EnterFastRecovery(e.reno).next && f.window == f.reno.cwnd
  {
    var r := Reno.EnterFastRecovery(e.reno);
    assert Reno.OnReceiveAck(e.reno, ack, junk) == r;
    Reno.StepKeepsInv(e.reno, Reno.Ack(ack, junk));
    InvCore(e);
    TilesBounds(e.rtxQ, e.unackBase, SentUpto(e), e.stream);
    AdoptWindow(e, r.next);
    ExtendFields(e.(reno := r.next, window := r.next.cwnd));
    var e2 := SetWindow(e.(reno := r.next), r.next.cwnd);
    FrontIsBase(e2);
    hide Inv, Core, SetWindow, Extend, Tiles, SentUpto, Carries, Reno.Inv;
  }

  lemma FrontIsBase(e: Endpoint)
    requires Inv(e) && e.unackBase < SentUpto(e)
    ensures e.rtxQ != [] && e.rtxQ[0].seqNum == e.unackBase && Covers(e.rtxQ[0], e.unackBase, e.stream)
  {
  }

  // ----- acknowledging -----

  /** What `ReceiveData` answers: an acknowledgement of everything received so
      far to a segment at or beyond the next one, and to a FIN just counted. */
  ghost predicate Answered(e: Endpoint, p: Segment) {
    0 < Len(p) && (p.seqNum >= e.recvSeq || (p.flags == FIN_ACK && p.seqNum == (e.recvSeq - 1) % U32))
  }

  /** A segment is answered exactly then, at once and with the number reached; a
      FIN that closes our side too may let more out after the answer.  The number
      moves exactly for the next segment in order that the ring can take. */
  lemma AnswersExactly(e: Endpoint, p: Segment)
    ensures var f := ReceiveData(e, p);
            var answer := if Answered(e, p) then [Segment(e.sendSeq, f.recvSeq, ACK, [])] else [];
            && e.wire + answer <= f.wire
            && (p.flags != FIN_ACK || e.state != Established ==> f.wire == e.wire + answer)
            && f.recvSeq == (if 0 < Len(p) && p.seqNum == e.recvSeq
                                && (p.flags.fin || p.flags.syn || |p.payload| + |e.ring| < RING_SIZE)
                             then (e.recvSeq + Len(p)) % U32 else e.recvSeq)
  {
    hide Enqueue, Symbols;
    var e1 := PushAck(Accept(e, p));
    FinWire(e1.(state := LastAck));
    EnqueueFields(e1.(state := LastAck), FIN_ACK, []);
  }

  /** Queueing a FIN leaves the wire's past alone. */
  lemma FinWire(e: Endpoint)
    ensures e.wire <= Enqueue(e, FIN_ACK, []).wire
  {
    hide ExtendLoop, Symbols;
    var s := Segment(e.sendSeq, e.recvSeq, FIN_ACK, []);
    var g := e.(sendQ := e.sendQ + [s], sendSeq := (e.sendSeq + Len(s)) % U32, stream := e.stream + Symbols(s));
    ExtendLoopWire(g, InFlight(g));
  }

  /** Data already accepted is not acknowledged again, in any synchronized state:
      once its acknowledgement is lost, no retransmission of it has any effect. */
  lemma DuplicateDataIgnored(e: Endpoint, p: Segment, env: Environment)
    requires p.flags == NONE && p.seqNum < e.recvSeq
    requires e.state != SynSent && e.state != SynReceived && e.state != Listen
    ensures Receive(e, p, env) == e
  {
  }
}
