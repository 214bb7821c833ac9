/**
 Segments, and the stream of symbols they carry.

 A connection's history is held as a sequence of symbols whose positions are
 sequence numbers: SYN and FIN take one number each, like a byte of data
 (src/transport/tcp_kernel.cc:246-249).  Both initial sequence numbers of the
 source are 0, so position and sequence number coincide.
 */
module Segments {
  import opened Machine

  const MAX_PAYLOAD: int := 1456

  datatype Flags = Flags(syn: bool, ack: bool, fin: bool, rst: bool)

  const NONE := Flags(false, false, false, false)
  const SYN := Flags(true, false, false, false)
  const SYN_ACK := Flags(true, true, false, false)
  const ACK := Flags(false, true, false, false)
  const FIN_ACK := Flags(false, true, true, false)
  const RST := Flags(false, false, false, true)

  /** A queued `SocketBuffer` and, once handed to the IP layer, a packet.  The
      timestamps and the window field are not modelled: nothing reads the latter. */
  datatype Segment = Segment(seqNum: nat, ackNum: nat, flags: Flags, payload: seq<byte>)

  datatype Symbol = Syn | Fin | Data(value: byte)

  /** `calculatePacketBytes`. */
  function PacketBytes(flags: Flags, length: nat): nat {
    (if flags.syn || flags.fin then 1 else 0) + length
  }

  function Len(s: Segment): nat {
    PacketBytes(s.flags, |s.payload|)
  }

  function ControlSymbols(flags: Flags): seq<Symbol> {
    if flags.syn then [Syn] else if flags.fin then [Fin] else []
  }

  function DataSymbols(payload: seq<byte>): (r: seq<Symbol>)
    ensures |r| == |payload|
    ensures forall i :: 0 <= i < |r| ==> r[i] == Data(payload[i])
  {
    seq(|payload|, i requires 0 <= i < |payload| => Data(payload[i]))
  }

  function Symbols(s: Segment): (r: seq<Symbol>)
    ensures |r| == Len(s)
  {
    ControlSymbols(s.flags) + DataSymbols(s.payload)
  }

  /** The application bytes of a stretch of stream. */
  function Bytes(stream: seq<Symbol>): (r: seq<byte>)
    ensures |r| <= |stream|
  {
    if stream == [] then []
    else Bytes(stream[..|stream| - 1]) + (match stream[|stream| - 1] case Data(b) => [b] case _ => [])
  }

  /** How many symbols of a stretch of stream are SYN or FIN. */
  function Controls(stream: seq<Symbol>): nat {
    |stream| - |Bytes(stream)|
  }

  lemma {:induction false} BytesConcat(a: seq<Symbol>, b: seq<Symbol>)
    ensures Bytes(a + b) == Bytes(a) + Bytes(b)
    decreases |b|
  {
    if b == [] {
      assert a + b == a;
    } else {
      var last := |b| - 1;
      assert (a + b)[..|a + b| - 1] == a + b[..last];
      BytesConcat(a, b[..last]);
    }
  }

  lemma {:induction false} BytesOfData(payload: seq<byte>)
    ensures Bytes(DataSymbols(payload)) == payload
    decreases |payload|
  {
    if payload != [] {
      var last := |payload| - 1;
      assert DataSymbols(payload)[..last] == DataSymbols(payload[..last]);
      BytesOfData(payload[..last]);
    }
  }

  lemma BytesOfSegment(s: Segment)
    ensures Bytes(Symbols(s)) == s.payload
    ensures Controls(Symbols(s)) == Len(s) - |s.payload|
  {
    var c := ControlSymbols(s.flags);
    assert Bytes(c) == [] by {
      if |c| == 1 { assert c[..0] == []; }
    }
    BytesConcat(c, DataSymbols(s.payload));
    BytesOfData(s.payload);
  }

  /** Bytes up to `n` symbols, for a stretch that grows by one segment. */
  lemma BytesExtend(stream: seq<Symbol>, n: nat, s: Segment)
    requires n + Len(s) <= |stream| && stream[n..n + Len(s)] == Symbols(s)
    ensures Bytes(stream[..n + Len(s)]) == Bytes(stream[..n]) + s.payload
    ensures Controls(stream[..n + Len(s)]) == Controls(stream[..n]) + Len(s) - |s.payload|
  {
    assert stream[..n + Len(s)] == stream[..n] + stream[n..n + Len(s)];
    BytesConcat(stream[..n], Symbols(s));
    BytesOfSegment(s);
  }

  // ----- queues of segments -----

  /** Total payload, that is, the sum of the buffers' `length` fields. */
  function Payload(q: seq<Segment>): nat {
    if q == [] then 0 else |q[0].payload| + Payload(q[1..])
  }

  lemma {:induction false} PayloadConcat(p: seq<Segment>, q: seq<Segment>)
    ensures Payload(p + q) == Payload(p) + Payload(q)
    decreases |p|
  {
    if p == [] {
      assert p + q == q;
    } else {
      assert (p + q)[1..] == p[1..] + q;
      PayloadConcat(p[1..], q);
    }
  }

  /** A segment that carries exactly the symbols its sequence numbers name. */
  predicate Carries(s: Segment, stream: seq<Symbol>) {
    && 0 < Len(s)
    && |s.payload| <= MAX_PAYLOAD
    && (s.flags.syn || s.flags.fin ==> s.payload == [])
    && s.seqNum + Len(s) <= |stream|
    && stream[s.seqNum..s.seqNum + Len(s)] == Symbols(s)
  }

  /** `q` covers stream positions `from` up to `to`, in order, with no gap and
      no overlap. */
  predicate Tiles(q: seq<Segment>, from: nat, to: nat, stream: seq<Symbol>) {
    if q == [] then from == to
    else Carries(q[0], stream) && q[0].seqNum == from && Tiles(q[1..], from + Len(q[0]), to, stream)
  }

  /** The symbols of a whole queue. */
  function QueueSymbols(q: seq<Segment>): seq<Symbol> {
    if q == [] then [] else Symbols(q[0]) + QueueSymbols(q[1..])
  }

  lemma {:induction false} TilesBounds(q: seq<Segment>, from: nat, to: nat, stream: seq<Symbol>)
    requires Tiles(q, from, to, stream)
    ensures from <= to
    ensures q != [] ==> from < to <= |stream|
    decreases |q|
  {
    if q != [] { TilesBounds(q[1..], from + Len(q[0]), to, stream); }
  }

  /** A tiling read back as symbols is the stretch of stream it covers. */
  lemma {:induction false} TilesSymbols(q: seq<Segment>, from: nat, to: nat, stream: seq<Symbol>)
    requires Tiles(q, from, to, stream) && to <= |stream|
    ensures from <= to && QueueSymbols(q) == stream[from..to]
    decreases |q|
  {
    hide Symbols, PacketBytes;
    if q != [] {
      var m := from + Len(q[0]);
      TilesBounds(q[1..], m, to, stream);
      TilesSymbols(q[1..], m, to, stream);
      assert stream[from..to] == stream[from..m] + stream[m..to];
    }
  }

  lemma {:induction false} TilesConcat(p: seq<Segment>, q: seq<Segment>, from: nat, mid: nat, to: nat, stream: seq<Symbol>)
    requires Tiles(p, from, mid, stream) && Tiles(q, mid, to, stream)
    ensures Tiles(p + q, from, to, stream)
    decreases |p|
  {
    if p == [] {
      assert p + q == q;
    } else {
      assert (p + q)[1..] == p[1..] + q;
      TilesConcat(p[1..], q, from + Len(p[0]), mid, to, stream);
    }
  }

  lemma TilesAppend(q: seq<Segment>, from: nat, to: nat, stream: seq<Symbol>, s: Segment)
    requires Tiles(q, from, to, stream) && Carries(s, stream) && s.seqNum == to
    ensures Tiles(q + [s], from, to + Len(s), stream)
  {
    assert [s][1..] == [];
    assert Tiles([], to + Len(s), to + Len(s), stream);
    TilesConcat(q, [s], from, to, to + Len(s), stream);
  }

  lemma CarriesGrow(s: Segment, stream: seq<Symbol>, more: seq<Symbol>)
    requires Carries(s, stream)
    ensures Carries(s, stream + more)
  {
  }

  lemma {:induction false} TilesGrow(q: seq<Segment>, from: nat, to: nat, stream: seq<Symbol>, more: seq<Symbol>)
    requires Tiles(q, from, to, stream)
    ensures Tiles(q, from, to, stream + more)
    decreases |q|
  {
    if q != [] {
      CarriesGrow(q[0], stream, more);
      TilesGrow(q[1..], from + Len(q[0]), to, stream, more);
    }
  }

  lemma {:induction false} TilesMember(q: seq<Segment>, from: nat, to: nat, stream: seq<Symbol>, s: Segment)
    requires Tiles(q, from, to, stream) && s in q
    ensures Carries(s, stream) && from <= s.seqNum && s.seqNum + Len(s) <= to
    decreases |q|
  {
    if s == q[0] {
      TilesBounds(q[1..], from + Len(q[0]), to, stream);
    } else {
      TilesMember(q[1..], from + Len(q[0]), to, stream, s);
    }
  }
}
