/** The two exceptions in full, and the theorem that every operation of an
    endpoint keeps the invariant. */
module EndpointOperations {
  import opened Machine
  import opened Segments
  import opened Endpoints
  import opened EndpointInvariant
  import opened EndpointReceive
  import Reno

  // ----- simultaneous open -----

  /** While our SYN is all there is, it is the one segment of the retransmit queue. */
  lemma OnlySyn(e: Endpoint)
    requires Inv(e) && WithdrawSafe(e)
    ensures e.stream == [Syn] && e.sendQ == [] && |e.rtxQ| == 1 && Len(e.rtxQ[0]) == 1
    ensures Payload(e.rtxQ) == 0 && InFlight(e) == 0 && e.credit == SEND_BUFFER && SentUpto(e) == 1
  {
    hide WireSound, Truthful;
    assert e.stream == [e.stream[0]];
    assert AckedControls(e) == 0 by { assert e.stream[..0] == []; }
    TilesBounds(e.rtxQ, 0, SentUpto(e), e.stream);
    if e.sendQ != [] {
      TilesBounds(e.sendQ, SentUpto(e), 1, e.stream);
      assert false;
    }
    var s := e.rtxQ[0];
    TilesBounds(e.rtxQ[1..], Len(s), 1, e.stream);
    assert Symbols(s) == e.stream[0..1] == [Syn];
    assert s.payload == [];
  }

  /** The SYN|ACK that takes the withdrawn SYN's place. */
  ghost function Reopened(e: Endpoint, p: Segment): Endpoint {
    var s := Segment(0, p.seqNum + 1, SYN_ACK, []);
    e.(state := SynReceived, rtxQ := [s], wire := e.wire + [s], unackNext := 0, recvSeq := p.seqNum + 1)
  }

  lemma SimultaneousOpenIs(e: Endpoint, p: Segment)
    requires Inv(e) && WithdrawSafe(e) && WellFormed(p) && p.flags.syn
    ensures SimultaneousOpen(e, p) == Reopened(e, p)
  {
    OnlySyn(e);
    assert Reno.Inv(e.reno) && e.window == e.reno.cwnd;
    var s := Segment(0, p.seqNum + 1, SYN_ACK, []);
    var e1 := e.(rtxQ := [], sendSeq := 0, recvSeq := p.seqNum + 1, stream := []);
    assert e.rtxQ[1..] == [] && e.stream[..0] == [];
    SynAckAlone(e1, s);
    hide Inv, Enqueue;
  }

  /** A SYN|ACK numbered on an endpoint with nothing queued goes straight out. */
  lemma SynAckAlone(e: Endpoint, s: Segment)
    requires e.sendQ == [] && e.rtxQ == [] && e.stream == [] && e.sendSeq == 0 && InFlight(e) == 0
    requires s == Segment(0, e.recvSeq, SYN_ACK, []) && e.window >= 1
    ensures Enqueue(e, SYN_ACK, []) == e.(rtxQ := [s], sendSeq := 1, stream := [Syn], wire := e.wire + [s],
                                          unackNext := e.unackBase % U64)
  {
    var g := e.(sendQ := [s], sendSeq := 1, stream := [Syn]);
    assert Symbols(s) == [Syn];
    assert Enqueue(e, SYN_ACK, []) == Extend(g) by {
      assert e.sendQ + [s] == [s] && e.stream + Symbols(s) == [Syn];
    }
    assert InFlight(g) == 0 && HeadFits(g, 0);
    var h := MoveHead(g);
    assert h.sendQ == [] && h.rtxQ == [s];
    assert ExtendLoop(g, 0) == ExtendLoop(h, 0);
  }

  lemma ReopenedKeeps(e: Endpoint, p: Segment)
    requires Inv(e) && WithdrawSafe(e) && WellFormed(p) && p.flags.syn && e.recvSeq <= p.seqNum + 1
    ensures Inv(Reopened(e, p)) && SentUpto(Reopened(e, p)) == SentUpto(e)
  {
    OnlySyn(e);
    var s := Segment(0, p.seqNum + 1, SYN_ACK, []);
    var f := Reopened(e, p);
    assert Symbols(s) == [Syn] == f.stream[0..1];
    assert [s][1..] == [];
    assert Tiles([s][1..], 1, 1, f.stream);
    assert Payload(f.rtxQ) == 0;
    assert AckedControls(f) == AckedControls(e) == 0 by { assert f.stream[..0] == []; }
    assert Tiled(f) && Funded(f) && Accounted(f) && Stalled(f);
    hide Tiles, Payload, Controls, Bytes, Reno.Inv;
    forall q | q in f.wire ensures Truthful(f, q) {
      if q in e.wire { assert Truthful(e, q); }
    }
    assert f.rtxQ + f.sendQ == [s];
  }

  /** Exactly when a simultaneous open is sound: the withdrawn segment was our
      SYN, alone and unacknowledged.  With anything queued behind the SYN, or the
      SYN already acknowledged, the invariant is lost. */
  lemma SimultaneousOpenExact(e: Endpoint, p: Segment)
    requires Inv(e) && WellFormed(p) && p.flags.syn && e.stream != [] && e.recvSeq <= p.seqNum + 1
    ensures Inv(SimultaneousOpen(e, p)) <==> WithdrawSafe(e)
  {
    if WithdrawSafe(e) {
      SimultaneousOpenIs(e, p);
      ReopenedKeeps(e, p);
    } else if Inv(SimultaneousOpen(e, p)) {
      UnsafeWithdraw(e, p);
      assert false;
    }
  }

  lemma {:induction false} ExtendLoopFields(e: Endpoint, inFlight: nat)
    ensures SameButQueues(e, ExtendLoop(e, inFlight))
    decreases |e.sendQ|
  {
    if e.sendQ != [] && HeadFits(e, inFlight) {
      ExtendLoopFields(MoveHead(e), (inFlight + |e.sendQ[0].payload|) % U64);
    }
  }

  /** The segment a simultaneous open queues, and the endpoint just before it
      extends. */
  ghost function ReplacementSyn(e: Endpoint, p: Segment): Segment {
    Segment((e.sendSeq - 1) % U32, (p.seqNum + 1) % U32, SYN_ACK, [])
  }

  ghost function Withdrawn(e: Endpoint, p: Segment): Endpoint
    requires e.stream != []
  {
    e.(rtxQ := if e.rtxQ == [] then [] else e.rtxQ[1..],
       sendQ := e.sendQ + [ReplacementSyn(e, p)],
       sendSeq := ((e.sendSeq - 1) % U32 + 1) % U32,
       recvSeq := (p.seqNum + 1) % U32,
       stream := e.stream[..|e.stream| - 1] + [Syn])
  }

  lemma SimultaneousOpenExtends(e: Endpoint, p: Segment)
    requires e.stream != []
    ensures SimultaneousOpen(e, p) == Extend(Withdrawn(e, p)).(state := SynReceived)
  {
    hide Extend;
    assert Symbols(ReplacementSyn(e, p)) == [Syn];
  }

  lemma UnsafeWithdraw(e: Endpoint, p: Segment)
    requires Inv(e) && e.stream != [] && !WithdrawSafe(e)
    ensures !Inv(SimultaneousOpen(e, p))
  {
    var f := SimultaneousOpen(e, p);
    var g := Withdrawn(e, p);
    var n := |e.stream|;
    SimultaneousOpenExtends(e, p);
    ExtendLoopFields(g, InFlight(g));
    if n == 1 {
      AcknowledgedSyn(e);
      OneSegment(g, ReplacementSyn(e, p));
    }
    hide Extend, Tiles, Payload, Controls, Bytes, Reno.Inv, SimultaneousOpen, Truthful;
    assert f.stream == g.stream && f.stream[n - 1] == Syn;
  }

  /** Once a lone SYN is acknowledged nothing is queued. */
  lemma AcknowledgedSyn(e: Endpoint)
    requires Inv(e) && |e.stream| == 1 && !WithdrawSafe(e)
    ensures e.unackBase == 1 && e.rtxQ == [] && e.sendQ == [] && e.sendSeq == 1
  {
  }

  /** Whatever the window decides, a lone queued segment below the base breaks
      the tiling. */
  lemma OneSegment(g: Endpoint, s: Segment)
    requires g.sendQ == [s] && g.rtxQ == [] && s.seqNum == 0 && g.unackBase == 1
    ensures !Tiled(Extend(g).(state := SynReceived))
  {
    var f := Extend(g);
    var h := MoveHead(g);
    assert h.sendQ == [] && h.rtxQ == [s];
    if HeadFits(g, InFlight(g)) {
      var x := (InFlight(g) + |s.payload|) % U64;
      assert f == ExtendLoop(h, x) == h.(unackNext := (h.unackBase + x) % U64);
      assert f.rtxQ == [s] && f.rtxQ[0].seqNum != f.unackBase;
    } else {
      assert f == g.(unackNext := (g.unackBase + InFlight(g)) % U64);
    }
  }
}
