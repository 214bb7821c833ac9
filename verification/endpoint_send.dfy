/** Numbering and queueing a segment keeps the invariant. */
module EndpointSend {
  import opened Machine
  import opened Segments
  import opened Endpoints
  import opened EndpointInvariant
  import opened EndpointSteps
  import Reno

  /** A segment `SendTCPPacketImpl` may be asked for: data the credit pays for,
      or a bare SYN or FIN, with room left below 2^32. */
  ghost predicate Sendable(e: Endpoint, flags: Flags, payload: seq<byte>) {
    && |payload| <= MAX_PAYLOAD && |payload| <= e.credit
    && 0 < PacketBytes(flags, |payload|)
    && (flags.syn || flags.fin ==> payload == [])
    && (flags.syn <==> e.stream == [])
    && !(flags.syn && flags.fin)
    && |e.stream| + PacketBytes(flags, |payload|) < U32
  }

  /** `Write` pays for a payload before it is queued; SYN and FIN are free. */
  ghost function Charged(e: Endpoint, payload: seq<byte>): Endpoint
    requires |payload| <= e.credit
  {
    e.(credit := e.credit - |payload|, written := e.written + payload)
  }

  /** The numbered segment. */
  ghost function Numbered(e: Endpoint, flags: Flags, payload: seq<byte>): Segment {
    Segment(e.sendSeq, e.recvSeq, flags, payload)
  }

  /** The endpoint with the segment queued and not yet extended. */
  ghost function Queued(e: Endpoint, flags: Flags, payload: seq<byte>): Endpoint
    requires |payload| <= e.credit
  {
    var s := Numbered(e, flags, payload);
    Charged(e, payload).(sendQ := e.sendQ + [s],
                         sendSeq := (e.sendSeq + Len(s)) % U32,
                         stream := e.stream + Symbols(s))
  }

  lemma QueuedTiles(e: Endpoint, flags: Flags, payload: seq<byte>)
    requires Tiled(e) && Sendable(e, flags, payload)
    ensures Tiled(Queued(e, flags, payload)) && SentUpto(Queued(e, flags, payload)) == SentUpto(e)
    ensures Carries(Numbered(e, flags, payload), Queued(e, flags, payload).stream)
  {
    var s := Numbered(e, flags, payload);
    var f := Queued(e, flags, payload);
    CoreBounds(e);
    TilesGrow(e.rtxQ, e.unackBase, SentUpto(e), e.stream, Symbols(s));
    TilesGrow(e.sendQ, SentUpto(e), |e.stream|, e.stream, Symbols(s));
    assert f.stream[s.seqNum..s.seqNum + Len(s)] == Symbols(s);
    TilesAppend(e.sendQ, SentUpto(e), |e.stream|, f.stream, s);
  }

  lemma QueuedFunds(e: Endpoint, flags: Flags, payload: seq<byte>)
    requires Funded(e) && Sendable(e, flags, payload) && e.unackBase <= |e.stream|
    ensures Funded(Queued(e, flags, payload))
    ensures AckedControls(Queued(e, flags, payload)) == AckedControls(e)
  {
    hide Controls;
    var s := Numbered(e, flags, payload);
    var f := Queued(e, flags, payload);
    assert f.stream[..e.unackBase] == e.stream[..e.unackBase];
    PayloadConcat(e.sendQ, [s]);
    assert Payload([s]) == |payload| + Payload([s][1..]);
  }

  lemma QueuedHistory(e: Endpoint, flags: Flags, payload: seq<byte>)
    requires Historic(e) && Sendable(e, flags, payload)
    ensures Historic(Queued(e, flags, payload))
  {
    var s := Numbered(e, flags, payload);
    BytesConcat(e.stream, Symbols(s));
    BytesOfSegment(s);
  }

  lemma QueuedWire(e: Endpoint, flags: Flags, payload: seq<byte>)
    requires WireSound(e) && Sendable(e, flags, payload)
    requires SentUpto(Queued(e, flags, payload)) == SentUpto(e)
    ensures WireSound(Queued(e, flags, payload))
  {
  }

  lemma QueuedCore(e: Endpoint, flags: Flags, payload: seq<byte>)
    requires Core(e) && Accounted(e) && Sendable(e, flags, payload)
    ensures var g := Queued(e, flags, payload);
            Core(g) && Accounted(g) && Progress(e, g, 0)
  {
    hide WireSound, Funded, Historic, AckedControls, SentUpto, Payload, Tiles, Carries, Reno.Inv, Symbols;
    CoreBounds(e);
    QueuedTiles(e, flags, payload);
    QueuedFunds(e, flags, payload);
    QueuedHistory(e, flags, payload);
    QueuedWire(e, flags, payload);
  }

  lemma EnqueueIsExtend(e: Endpoint, flags: Flags, payload: seq<byte>)
    requires |payload| <= MAX_PAYLOAD && |payload| <= e.credit
    ensures Enqueue(Charged(e, payload), flags, payload) == Extend(Queued(e, flags, payload))
  {
  }

  lemma EnqueueKeeps(e: Endpoint, flags: Flags, payload: seq<byte>)
    requires Core(e) && Accounted(e) && Sendable(e, flags, payload)
    ensures var f := Enqueue(Charged(e, payload), flags, payload);
            Inv(f) && Progress(e, f, 0) && f.state == e.state && f.unackBase == e.unackBase
            && f.stream == e.stream + Symbols(Numbered(e, flags, payload)) && f.written == e.written + payload
  {
    hide Core, Accounted, Inv, SentUpto, Enqueue, Extend, Symbols;
    var g := Queued(e, flags, payload);
    QueuedCore(e, flags, payload);
    EnqueueIsExtend(e, flags, payload);
    ExtendProgress(g);
  }

  /** SYN and FIN, which are free. */
  lemma EnqueueControl(e: Endpoint, flags: Flags)
    requires Core(e) && Accounted(e) && Sendable(e, flags, [])
    ensures var f := Enqueue(e, flags, []);
            Inv(f) && Progress(e, f, 0) && f.state == e.state && f.unackBase == e.unackBase
            && f.stream == e.stream + ControlSymbols(flags) && f.written == e.written
  {
    hide Core, Accounted, Inv, SentUpto, Enqueue;
    EnqueueKeeps(e, flags, []);
    assert Charged(e, []) == e;
    assert Symbols(Numbered(e, flags, [])) == ControlSymbols(flags);
  }
}
