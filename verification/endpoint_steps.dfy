/** Every operation of an endpoint keeps the invariant, and what else it does
    to the sending and receiving sides. */
module EndpointSteps {
  import opened Machine
  import opened Segments
  import opened Endpoints
  import opened EndpointInvariant
  import Reno

  /** What the sending operations do: history only grows, the acknowledged
      prefix grows at most to `ack`, and the receiving side is untouched. */
  ghost predicate Progress(e: Endpoint, f: Endpoint, ack: nat) {
    && e.stream <= f.stream && e.written <= f.written && e.wire <= f.wire
    && e.unackBase <= f.unackBase <= Max(e.unackBase, ack)
    && SentUpto(e) <= SentUpto(f)
    && f.recvSeq == e.recvSeq && f.ring == e.ring && f.delivered == e.delivered
  }

  lemma ProgressTrans(e: Endpoint, f: Endpoint, g: Endpoint, ack: nat)
    requires Progress(e, f, ack) && Progress(f, g, ack)
    ensures Progress(e, g, ack)
  {
  }

  lemma {:induction false} ExtendLoopWire(e: Endpoint, inFlight: nat)
    ensures e.wire <= ExtendLoop(e, inFlight).wire
    decreases |e.sendQ|
  {
    if e.sendQ != [] && HeadFits(e, inFlight) {
      ExtendLoopWire(MoveHead(e), (inFlight + |e.sendQ[0].payload|) % U64);
    }
  }

  lemma ExtendProgress(e: Endpoint)
    requires Core(e) && Accounted(e)
    ensures Inv(Extend(e)) && Progress(e, Extend(e), 0) && Extend(e).state == e.state
    ensures Extends(e, Extend(e))
  {
    hide Core, Inv, SentUpto, Accounted;
    ExtendKeeps(e);
    ExtendLoopWire(e, InFlight(e));
  }

  // ----- acknowledging -----

  lemma ModShift(x: int, y: int, n: int)
    requires x % U64 == y % U64
    ensures (x - n) % U64 == (y - n) % U64
  {
  }

  lemma PopAckedTiles(e: Endpoint)
    requires Tiled(e) && e.rtxQ != []
    ensures Tiled(PopAcked(e)) && SentUpto(PopAcked(e)) == SentUpto(e)
    ensures var s := e.rtxQ[0];
            s.seqNum == e.unackBase && PopAcked(e).unackBase == s.seqNum + Len(s) <= |e.stream|
            && Carries(s, e.stream)
            && Payload(e.rtxQ) == |s.payload| + Payload(PopAcked(e).rtxQ)
  {
  }

  lemma PopAckedControls(e: Endpoint)
    requires e.rtxQ != [] && Carries(e.rtxQ[0], e.stream) && e.rtxQ[0].seqNum == e.unackBase
    requires PopAcked(e).unackBase == e.unackBase + Len(e.rtxQ[0])
    ensures var s := e.rtxQ[0];
            AckedControls(PopAcked(e)) == AckedControls(e) + Len(s) - |s.payload|
  {
    hide Controls;
    BytesExtend(e.stream, e.unackBase, e.rtxQ[0]);
  }

  lemma PopAckedFrame(e: Endpoint)
    requires Historic(e) && WireSound(e) && e.rtxQ != [] && SentUpto(PopAcked(e)) == SentUpto(e)
    ensures Historic(PopAcked(e)) && WireSound(PopAcked(e))
  {
  }

  lemma PopAckedKeeps(e: Endpoint)
    requires Core(e) && Accounted(e) && e.rtxQ != []
    ensures Core(PopAcked(e)) && Accounted(PopAcked(e))
    ensures PopAcked(e).unackBase == e.rtxQ[0].seqNum + Len(e.rtxQ[0]) < U32
    ensures e.unackBase < PopAcked(e).unackBase && SentUpto(PopAcked(e)) == SentUpto(e)
    ensures PopAcked(e).credit == e.credit + Len(e.rtxQ[0])
  {
    hide Historic, WireSound, Reno.Inv, AckedControls, SentUpto, Payload, Tiles;
    PopAckedTiles(e);
    PopAckedControls(e);
    PopAckedFrame(e);
    CoreBounds(e);
    var s := e.rtxQ[0];
    ModShift(e.unackNext - e.unackBase, Payload(e.rtxQ) - AckedControls(e), Len(s));
  }

  /** The fields `RetransmitShrink` leaves alone. */
  ghost predicate SameButAcked(e: Endpoint, f: Endpoint) {
    f == e.(rtxQ := f.rtxQ, unackBase := f.unackBase, credit := f.credit)
  }

  /** What `RetransmitShrink(ack)` does: it drops exactly the queued segments
      that end at or before `ack`. */
  ghost predicate Shrinks(e: Endpoint, f: Endpoint, ack: nat) {
    && SameButAcked(e, f)
    && e.unackBase <= f.unackBase <= Max(e.unackBase, ack)
    && SentUpto(f) == SentUpto(e)
    && |f.rtxQ| <= |e.rtxQ| && f.rtxQ == e.rtxQ[|e.rtxQ| - |f.rtxQ|..]
    && (forall i :: 0 <= i < |e.rtxQ| ==>
          (i < |e.rtxQ| - |f.rtxQ| <==> e.rtxQ[i].seqNum + Len(e.rtxQ[i]) <= ack))
  }

  lemma {:induction false} TilesRises(q: seq<Segment>, from: nat, to: nat, stream: seq<Symbol>)
    requires Tiles(q, from, to, stream)
    ensures forall i :: 0 < i < |q| ==> q[0].seqNum + Len(q[0]) < q[i].seqNum + Len(q[i])
    decreases |q|
  {
    forall i | 0 < i < |q| ensures q[0].seqNum + Len(q[0]) < q[i].seqNum + Len(q[i]) {
      TilesMember(q[1..], from + Len(q[0]), to, stream, q[1..][i - 1]);
    }
  }

  lemma ShrinksCons(e: Endpoint, g: Endpoint, ack: nat)
    requires e.rtxQ != [] && Shrinks(PopAcked(e), g, ack)
    requires e.rtxQ[0].seqNum + Len(e.rtxQ[0]) <= ack
    requires e.unackBase < PopAcked(e).unackBase <= ack && SentUpto(PopAcked(e)) == SentUpto(e)
    ensures Shrinks(e, g, ack)
  {
  }

  lemma ShrinksStop(e: Endpoint, ack: nat)
    requires Core(e) && (e.rtxQ == [] || e.rtxQ[0].seqNum + Len(e.rtxQ[0]) > ack)
    ensures Shrinks(e, e, ack)
  {
    RtxRises(e);
    hide Core, SentUpto, Len;
  }

  lemma {:induction false} ShrinkKeeps(e: Endpoint, ack: nat)
    requires Core(e) && Accounted(e)
    ensures Core(Shrink(e, ack)) && Accounted(Shrink(e, ack)) && Shrinks(e, Shrink(e, ack), ack)
    decreases |e.rtxQ|
  {
    hide Core, Accounted, Shrinks, SentUpto;
    if e.rtxQ != [] {
      PopAckedKeeps(e);
      if e.rtxQ[0].seqNum + Len(e.rtxQ[0]) <= ack {
        ShrinkKeeps(PopAcked(e), ack);
        ShrinksCons(e, Shrink(PopAcked(e), ack), ack);
        return;
      }
    }
    ShrinksStop(e, ack);
  }

  lemma RtxRises(e: Endpoint)
    requires Core(e)
    ensures forall i :: 0 < i < |e.rtxQ| ==>
              e.rtxQ[0].seqNum + Len(e.rtxQ[0]) < e.rtxQ[i].seqNum + Len(e.rtxQ[i])
  {
    TilesRises(e.rtxQ, e.unackBase, SentUpto(e), e.stream);
  }

  /** An acknowledgement of everything sent empties the retransmit queue. */
  lemma ShrinkAll(e: Endpoint, ack: nat)
    requires Core(e) && Accounted(e) && SentUpto(e) <= ack
    ensures Shrink(e, ack).rtxQ == [] && Shrink(e, ack).unackBase == SentUpto(e)
  {
    ShrinkKeeps(e, ack);
    var f := Shrink(e, ack);
    if f.rtxQ != [] {
      var s := f.rtxQ[0];
      TilesMember(e.rtxQ, e.unackBase, SentUpto(e), e.stream, e.rtxQ[|e.rtxQ| - |f.rtxQ|]);
      assert false;
    }
  }

  // ----- the congestion manager and resending -----

  /** Adopting a manager state and its announced window, then extending. */
  lemma AdoptWindow(e: Endpoint, r: Reno.RenoState)
    requires Core(e) && Accounted(e) && Reno.Inv(r)
    ensures var f := SetWindow(e.(reno := r), r.cwnd);
            Inv(f) && Progress(e, f, 0) && f.state == e.state && f.stream == e.stream && f.written == e.written
            && f.sendSeq == e.sendSeq && f.unackBase == e.unackBase
  {
    var g := e.(reno := r, window := r.cwnd);
    assert Core(g) && Accounted(g) && SentUpto(g) == SentUpto(e) by {
      hide Carries, Tiles, Payload, Controls, Bytes, Reno.Inv;
      forall p | p in g.wire ensures Truthful(g, p) { assert Truthful(e, p); }
    }
    hide Core, Accounted, Inv, SentUpto;
    ExtendProgress(g);
  }

  /** Resending queued segments only adds to the wire. */
  lemma ResendKeeps(e: Endpoint, again: seq<Segment>)
    requires Core(e) && Accounted(e) && forall s :: s in again ==> s in e.rtxQ
    ensures var f := e.(wire := e.wire + again);
            Core(f) && Accounted(f) && Progress(e, f, 0) && (Stalled(e) ==> Stalled(f))
  {
    var f := e.(wire := e.wire + again);
    hide Tiles, Payload, Controls, Bytes, Reno.Inv, Carries;
    forall p | p in f.wire ensures Truthful(f, p) {
      assert p in e.wire;
      assert Truthful(e, p);
    }
  }

  lemma TimeoutKeeps(e: Endpoint)
    requires Inv(e)
    ensures Inv(Timeout(e)) && Progress(e, Timeout(e), 0)
    ensures Timeout(e).state == e.state && Timeout(e).stream == e.stream && Timeout(e).written == e.written
    ensures Timeout(e).unackBase == e.unackBase
  {
    ResendKeeps(e, e.rtxQ);
    var f := e.(wire := e.wire + e.rtxQ);
    Reno.StepKeepsInv(e.reno, Reno.Timeout);
    hide Core, Accounted, SentUpto, Reno.Inv, SetWindow;
    AdoptWindow(f, Reno.OnTimeout(e.reno));
  }

  lemma AdoptSilently(e: Endpoint, r: Reno.RenoState)
    requires Core(e) && Accounted(e) && Reno.Inv(r) && r.cwnd == e.reno.cwnd
    ensures var f := e.(reno := r);
            Core(f) && Accounted(f) && Progress(e, f, 0)
  {
    hide Reno.Inv, Tiles, Payload, Controls, Bytes, Carries;
    var f := e.(reno := r);
    forall p | p in f.wire ensures Truthful(f, p) { assert Truthful(e, p); }
  }

  lemma MaybeResend(e: Endpoint, again: bool)
    requires Core(e) && Accounted(e)
    ensures var f := if again then ResendFront(e) else e;
            Core(f) && Accounted(f) && Progress(e, f, 0)
  {
    hide Core, Accounted, SentUpto;
    if again && e.rtxQ != [] {
      ResendKeeps(e, [e.rtxQ[0]]);
    }
  }

  lemma CongestKeeps(e: Endpoint, ack: nat, junk: bool)
    requires Inv(e)
    ensures var f := Congest(e, ack, junk);
            Core(f) && Accounted(f) && Progress(e, f, 0)
            && f.state == e.state && f.stream == e.stream && f.written == e.written
  {
    var r := Reno.OnReceiveAck(e.reno, ack, junk);
    Reno.StepKeepsInv(e.reno, Reno.Ack(ack, junk));
    assert Core(e) && Accounted(e) && Reno.Inv(r.next);
    assert r.window.Some? ==> r.window.value == r.next.cwnd;
    hide Core, Accounted, Inv, SentUpto, Reno.OnReceiveAck, Reno.Inv, SetWindow;
    if r.window.Some? {
      AdoptWindow(e, r.next);
      assert Core(SetWindow(e.(reno := r.next), r.next.cwnd)) by { InvCore(SetWindow(e.(reno := r.next), r.next.cwnd)); }
      MaybeResend(SetWindow(e.(reno := r.next), r.next.cwnd), r.retransmit);
    } else {
      AdoptSilently(e, r.next);
      MaybeResend(e.(reno := r.next), r.retransmit);
    }
  }

  lemma InvCore(e: Endpoint)
    requires Inv(e)
    ensures Core(e) && Accounted(e)
  {
  }

  /** The queue part of an acknowledgement. */
  lemma ProcessAckKeeps(e: Endpoint, ack: nat, junk: bool)
    requires Inv(e)
    ensures var f := ProcessAck(e, ack, junk);
            Inv(f) && Progress(e, f, ack) && f.state == e.state && f.stream == e.stream && f.written == e.written
  {
    hide Core, Accounted, SentUpto, Inv, Congest, Shrink, Extend, Payload, Controls;
    CongestKeeps(e, ack, junk);
    var e3 := Congest(e, ack, junk);
    ShrinkKeeps(e3, ack);
    ExtendProgress(Shrink(e3, ack));
  }

  /** An acknowledgement of everything ever numbered, once everything has been
      sent, leaves both queues empty. */
  lemma ProcessAckAll(e: Endpoint, ack: nat, junk: bool)
    requires Inv(e) && SentUpto(e) == |e.stream| && ack == |e.stream|
    ensures var f := ProcessAck(e, ack, junk);
            f.rtxQ == [] && f.sendQ == [] && f.unackBase == |e.stream|
  {
    CongestKeeps(e, ack, junk);
    var e3 := Congest(e, ack, junk);
    CoreBounds(e3);
    ShrinkAll(e3, ack);
    ShrinkKeeps(e3, ack);
    AllSent(e3);
  }

  lemma AllSent(e: Endpoint)
    requires Tiled(e) && SentUpto(e) == |e.stream|
    ensures e.sendQ == []
  {
  }
}
