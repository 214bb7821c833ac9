/**
 What every operation keeps of one endpoint, whatever its peer sends.

 `Core` holds at every point of an operation, `Inv` between operations.
 */
module EndpointInvariant {
  import opened Machine
  import opened Segments
  import opened Endpoints
  import Reno

  /** The first sequence number not yet handed to the IP layer. */
  ghost function SentUpto(e: Endpoint): nat {
    if e.sendQ == [] then |e.stream| else e.sendQ[0].seqNum
  }

  /** The retransmit queue followed by the send queue covers every sequence
      number from `send_unack_base_` up to `send_seq_num_`, once each. */
  ghost predicate Tiled(e: Endpoint) {
    && |e.stream| < U32 && e.sendSeq == |e.stream|
    && Tiles(e.rtxQ, e.unackBase, SentUpto(e), e.stream)
    && Tiles(e.sendQ, SentUpto(e), |e.stream|, e.stream)
  }

  /** SYN and FIN symbols already acknowledged. */
  ghost function AckedControls(e: Endpoint): nat {
    Controls(e.stream[..Min(e.unackBase, |e.stream|)])
  }

  /** Unacknowledged payload less acknowledged controls, as the 64-bit unsigned
      number the source computes. */
  ghost function Outstanding(e: Endpoint): nat {
    (Payload(e.rtxQ) - AckedControls(e)) % U64
  }

  /** Credit is charged payload only and refunded payload plus SYN/FIN. */
  ghost predicate Funded(e: Endpoint) {
    e.credit + Payload(e.rtxQ) + Payload(e.sendQ) == SEND_BUFFER + AckedControls(e)
  }

  ghost predicate Windowed(e: Endpoint) {
    Reno.Inv(e.reno) && e.window == e.reno.cwnd
  }

  ghost predicate Historic(e: Endpoint) {
    && e.written == Bytes(e.stream)
    && (forall i :: 0 <= i < |e.stream| ==> (e.stream[i] == Syn <==> i == 0))
    && |e.ring| < RING_SIZE
  }

  /** A packet that misreports neither our stream nor what we have received. */
  ghost predicate Truthful(e: Endpoint, p: Segment) {
    && (0 < Len(p) ==> Carries(p, e.stream) && p.seqNum + Len(p) <= SentUpto(e))
    && (p.flags.ack ==> p.ackNum <= e.recvSeq)
  }

  ghost predicate WireSound(e: Endpoint) {
    && (forall p :: p in e.wire ==> Truthful(e, p))
    && (forall s :: s in e.rtxQ + e.sendQ ==> (s.flags.ack ==> s.ackNum <= e.recvSeq))
    && (forall s :: s in e.rtxQ ==> s in e.wire)
  }

  ghost predicate Core(e: Endpoint) {
    Tiled(e) && Funded(e) && Windowed(e) && Historic(e) && WireSound(e)
  }

  ghost predicate Accounted(e: Endpoint) {
    InFlight(e) == Outstanding(e)
  }

  /** `RetransmitExtend` has nothing left to send: the send queue is empty or its
      head fails the window test. */
  ghost predicate Stalled(e: Endpoint) {
    e.sendQ == [] || !HeadFits(e, InFlight(e))
  }

  ghost predicate Inv(e: Endpoint) {
    Core(e) && Accounted(e) && Stalled(e)
  }

  // ----- sizes -----

  lemma CoreBounds(e: Endpoint)
    requires Tiled(e)
    ensures e.unackBase <= SentUpto(e) <= |e.stream|
    ensures AckedControls(e) <= e.unackBase
  {
    TilesBounds(e.rtxQ, e.unackBase, SentUpto(e), e.stream);
    TilesBounds(e.sendQ, SentUpto(e), |e.stream|, e.stream);
  }

  // ----- extending -----

  /** The fields `RetransmitExtend` leaves alone. */
  ghost predicate SameButQueues(e: Endpoint, f: Endpoint) {
    f == e.(sendQ := f.sendQ, rtxQ := f.rtxQ, wire := f.wire, unackNext := f.unackNext)
  }

  lemma MoveHeadTiles(e: Endpoint)
    requires Tiled(e) && e.sendQ != []
    ensures Tiled(MoveHead(e)) && SentUpto(MoveHead(e)) == SentUpto(e) + Len(e.sendQ[0])
    ensures Carries(e.sendQ[0], e.stream)
    ensures Payload(MoveHead(e).rtxQ) == Payload(e.rtxQ) + |e.sendQ[0].payload|
    ensures Payload(e.sendQ) == |e.sendQ[0].payload| + Payload(MoveHead(e).sendQ)
    ensures MoveHead(e).rtxQ + MoveHead(e).sendQ == e.rtxQ + e.sendQ
  {
    var s := e.sendQ[0];
    TilesBounds(e.sendQ[1..], s.seqNum + Len(s), |e.stream|, e.stream);
    TilesAppend(e.rtxQ, e.unackBase, SentUpto(e), e.stream, s);
    PayloadConcat(e.rtxQ, [s]);
    assert Payload([s]) == |s.payload| + Payload([s][1..]);
  }

  lemma MoveHeadWire(e: Endpoint)
    requires WireSound(e) && e.sendQ != []
    requires Carries(e.sendQ[0], e.stream) && SentUpto(MoveHead(e)) == SentUpto(e) + Len(e.sendQ[0])
    requires MoveHead(e).rtxQ + MoveHead(e).sendQ == e.rtxQ + e.sendQ
    ensures WireSound(MoveHead(e))
  {
  }

  lemma MoveHeadKeeps(e: Endpoint)
    requires Core(e) && e.sendQ != []
    ensures Core(MoveHead(e)) && SentUpto(e) < SentUpto(MoveHead(e))
    ensures Payload(MoveHead(e).rtxQ) == Payload(e.rtxQ) + |e.sendQ[0].payload|
    ensures MoveHead(e).rtxQ + MoveHead(e).sendQ == e.rtxQ + e.sendQ
  {
    hide Tiled, WireSound, Tiles, Payload, Controls, Reno.Inv, SentUpto;
    MoveHeadTiles(e);
    MoveHeadWire(e);
  }

  lemma ModNear(x: int)
    requires -U64 <= x < U64
    ensures x % U64 == if x >= 0 then x else x + U64
  {
  }

  lemma WindowTest(length: nat, payload: nat, outstanding: nat, controls: nat, window: nat)
    requires payload <= length < U32 && outstanding < U64 - U32 && controls < U32
    ensures (length + (outstanding - controls) % U64) % U64 <= window ==> outstanding + payload <= window + controls
    ensures ((outstanding - controls) % U64 + payload) % U64 == (outstanding + payload - controls) % U64
  {
    ModNear(outstanding - controls);
    ModNear(outstanding + length - controls);
    ModNear(outstanding + payload - controls);
  }

  /** A segment that passes the window test leaves at most the window plus the
      acknowledged controls of payload outstanding. */
  lemma FitsWithinWindow(e: Endpoint)
    requires Core(e) && e.sendQ != [] && HeadFits(e, Outstanding(e))
    ensures Payload(e.rtxQ) + |e.sendQ[0].payload| <= e.window + AckedControls(e)
    ensures (Outstanding(e) + |e.sendQ[0].payload|) % U64
            == (Payload(e.rtxQ) + |e.sendQ[0].payload| - AckedControls(e)) % U64
  {
    hide WireSound, Historic, Controls, Reno.Inv;
    CoreBounds(e);
    var s := e.sendQ[0];
    var k := AckedControls(e);
    assert |s.payload| <= Len(s) < U32;
    WindowTest(Len(s), |s.payload|, Payload(e.rtxQ), k, e.window);
  }

  lemma MoveHeadAccounts(e: Endpoint)
    requires Core(e) && e.sendQ != [] && HeadFits(e, Outstanding(e))
    ensures Outstanding(MoveHead(e)) == (Outstanding(e) + |e.sendQ[0].payload|) % U64
    ensures Payload(MoveHead(e).rtxQ) <= e.window + AckedControls(e)
  {
    FitsWithinWindow(e);
    MoveHeadKeeps(e);
  }

  /** What a call of `RetransmitExtend` does to the queues. */
  ghost predicate Extends(e: Endpoint, f: Endpoint) {
    && SameButQueues(e, f)
    && SentUpto(e) <= SentUpto(f)
    && f.rtxQ + f.sendQ == e.rtxQ + e.sendQ
    && (f.rtxQ == e.rtxQ || Payload(f.rtxQ) <= e.window + AckedControls(e))
  }

  lemma StopKeeps(e: Endpoint)
    requires Core(e) && (e.sendQ == [] || !HeadFits(e, Outstanding(e)))
    ensures var f := e.(unackNext := (e.unackBase + Outstanding(e)) % U64);
            Inv(f) && Extends(e, f)
  {
    hide Payload, Controls, Tiles, Reno.Inv, Truthful;
    var f := e.(unackNext := (e.unackBase + Outstanding(e)) % U64);
    CoreBounds(e);
    CoreFrame(e, f);
    ModDifference(e.unackBase, Outstanding(e));
  }

  lemma {:induction false} ExtendLoopKeeps(e: Endpoint)
    requires Core(e)
    ensures Inv(ExtendLoop(e, Outstanding(e))) && Extends(e, ExtendLoop(e, Outstanding(e)))
    decreases |e.sendQ|
  {
    hide Core, Inv, SentUpto, Outstanding, HeadFits;
    if e.sendQ != [] && HeadFits(e, Outstanding(e)) {
      MoveHeadKeeps(e);
      MoveHeadAccounts(e);
      ExtendLoopKeeps(MoveHead(e));
    } else {
      StopKeeps(e);
    }
  }

  lemma ModDifference(base: nat, n: nat)
    requires base < U64 && n < U64
    ensures ((base + n) % U64 - base) % U64 == n
  {
  }

  /** `Core` does not depend on the cursor or the connection state. */
  lemma CoreFrame(e: Endpoint, f: Endpoint)
    requires Core(e) && f == e.(unackNext := f.unackNext, state := f.state)
    ensures Core(f) && SentUpto(e) == SentUpto(f) && Outstanding(e) == Outstanding(f)
  {
    hide Carries, Tiles, Payload, Controls, Reno.Inv;
    forall p | p in f.wire ensures Truthful(f, p) { assert Truthful(e, p); }
  }

  lemma ExtendKeeps(e: Endpoint)
    requires Core(e) && Accounted(e)
    ensures Inv(Extend(e)) && Extends(e, Extend(e))
  {
    ExtendLoopKeeps(e);
  }
}
