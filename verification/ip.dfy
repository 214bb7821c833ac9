/** Building and forwarding IP packets: src/network/ip.cc:37-150. */
module IpPackets {
  import opened Machine
  import opened Checksums
  import opened RoutingTables

  const TTL_AT: int := 8

  function Ttl(p: seq<byte>): nat
    requires HasHeader(p)
  {
    p[TTL_AT] as int
  }

  /** The packet with its checksum field recomputed. */
  function Sealed(p: seq<byte>): (q: seq<byte>)
    requires HasHeader(p)
    ensures |q| == |p|
  {
    var c := CheckSum(p);
    p[10 := (c % 256) as byte][11 := (c / 256) as byte]
  }

  /** The header `sendIPPacket` fills in, before the checksum. */
  function Header(src: seq<byte>, dest: seq<byte>, proto: int, length: nat): (h: seq<byte>)
    requires |src| == 4 && |dest| == 4
    ensures |h| == 20 && h[0] == 0x45 && HasHeader(h)
  {
    var total := (20 + length) % 0x1_0000;
    [0x45, 0, (total / 256) as byte, (total % 256) as byte, 0, 0, 0x40, 0, 255, (proto % 256) as byte, 0, 0] + src + dest
  }

  /** `sendIPPacket`, up to the hand-over. */
  function Build(src: seq<byte>, dest: seq<byte>, proto: int, payload: seq<byte>): seq<byte>
    requires |src| == 4 && |dest| == 4
  {
    Sealed(Header(src, dest, proto, |payload|)) + payload
  }

  /** `forwardIPPacket`, up to the hand-over; the time to live is a
      `std::uint8_t`. */
  function Forward(p: seq<byte>): Option<seq<byte>>
    requires HasHeader(p)
  {
    if !Verifies(p) then None
    else
      var ttl := (Ttl(p) - 1) % 256;
      if ttl == 0 then None else Some(Sealed(p[TTL_AT := ttl as byte]))
  }

  /** What a host's tables answer for the destination: the next hop of its
      routing table, if any, and the addresses its ARP table knows. */
  datatype Hop = Hop(route: Option<Ip>, known: set<Ip>)

  /** `sendIPPacketInternal`. */
  predicate Sends(h: Hop) {
    h.route.Some? && h.route.value in h.known
  }

  /** The frames a packet causes: its origin is the first hop, and every host a
      frame reaches forwards it.  The tables met on the way are arbitrary. */
  function Frames(p: seq<byte>, hops: seq<Hop>): seq<seq<byte>>
    requires HasHeader(p)
    decreases |hops|
  {
    if hops == [] || !Sends(hops[0]) then []
    else
      [p] + (match Forward(p) case None => [] case Some(q) => Frames(q, hops[1..]))
  }

  // ----- the checksum on the way -----

  /** The checksum depends on the header alone, its own field excepted. */
  ghost predicate SameHeader(p: seq<byte>, q: seq<byte>)
    requires HasHeader(p) && HasHeader(q)
  {
    HeaderLength(p) == HeaderLength(q)
    && forall i :: 0 <= i < 4 * HeaderLength(p) && i != 10 && i != 11 ==> p[i] == q[i]
  }

  lemma {:induction false} SameSum(p: seq<byte>, q: seq<byte>, n: nat)
    requires HasHeader(p) && HasHeader(q) && SameHeader(p, q) && n <= 2 * HeaderLength(p)
    ensures Sum(p, n) - (if n > 5 then Word(p, 5) else 0) == Sum(q, n) - (if n > 5 then Word(q, 5) else 0)
  {
    if n > 0 { SameSum(p, q, n - 1); }
  }

  lemma SameCheckSum(p: seq<byte>, q: seq<byte>)
    requires HasHeader(p) && HasHeader(q) && SameHeader(p, q)
    ensures CheckSum(p) == CheckSum(q)
  {
    hide Fold;
    if HeaderLength(p) >= 5 { SameSum(p, q, 2 * HeaderLength(p)); }
  }

  lemma SealedVerifies(p: seq<byte>)
    requires HasHeader(p)
    ensures HasHeader(Sealed(p)) && Verifies(Sealed(p)) && SameHeader(p, Sealed(p))
    ensures forall i :: 0 <= i < |p| && i != 10 && i != 11 ==> Sealed(p)[i] == p[i]
  {
    SameCheckSum(p, Sealed(p));
  }

  lemma BuildVerifies(src: seq<byte>, dest: seq<byte>, proto: int, payload: seq<byte>)
    requires |src| == 4 && |dest| == 4
    ensures var p := Build(src, dest, proto, payload);
            && HasHeader(p) && HeaderLength(p) == 5 && Verifies(p) && AllOnes(p) && Ttl(p) == 255
            && p[12..16] == src && p[16..20] == dest && p[20..] == payload
  {
    var h := Header(src, dest, proto, |payload|);
    SealedVerifies(h);
    var s := Sealed(h);
    var p := Build(src, dest, proto, payload);
    hide CheckSum, OnesSum;
    assert p[..20] == s && p[20..] == payload;
    assert forall i :: 0 <= i < 20 ==> p[i] == s[i];
    assert forall i :: 0 <= i < 20 && i != 10 && i != 11 ==> s[i] == h[i];
    SameCheckSum(p, s);
    TestsAgreeExactly(p);
    assert h[12..16] == src && h[16..20] == dest;
    assert p[12..16] == h[12..16] && p[16..20] == h[16..20];
  }

  /** The header says how long the packet is and which protocol it carries, and asks
      not to be fragmented. */
  lemma BuildDescribes(src: seq<byte>, dest: seq<byte>, proto: int, payload: seq<byte>)
    requires |src| == 4 && |dest| == 4
    ensures var p := Build(src, dest, proto, payload);
            && |p| == 20 + |payload| && 256 * (p[2] as int) + (p[3] as int) == |p| % 0x1_0000
            && p[9] as int == proto % 256 && p[1] == 0 && p[4] == 0 && p[5] == 0 && p[6] == 0x40 && p[7] == 0
  {
    SealedVerifies(Header(src, dest, proto, |payload|));
    hide CheckSum, OnesSum, Sealed, Verifies;
  }

  /** Everything but the time to live and the checksum. */
  ghost predicate SameButTtl(p: seq<byte>, q: seq<byte>) {
    |p| == |q| && forall i :: 0 <= i < |p| && i != TTL_AT && i != 10 && i != 11 ==> p[i] == q[i]
  }

  /** Each hop checks, counts down, and seals again.  A packet is dropped exactly
      when its checksum fails or its time to live is one: one that arrives with
      zero wraps to 255 and goes on. */
  lemma ForwardKeeps(p: seq<byte>)
    requires HasHeader(p)
    ensures Forward(p) == None <==> !Verifies(p) || Ttl(p) == 1
    ensures match Forward(p)
            case None => true
            case Some(q) =>
              HasHeader(q) && Verifies(p) && Verifies(q) && SameButTtl(p, q)
              && Ttl(q) == if Ttl(p) == 0 then 255 else Ttl(p) - 1
  {
    hide CheckSum;
    if Verifies(p) && (Ttl(p) - 1) % 256 != 0 {
      SealedVerifies(p[TTL_AT := ((Ttl(p) - 1) % 256) as byte]);
    }
  }

  // ----- the time to live -----

  /** How many frames a packet may still cause.  A packet that arrives with a
      time to live of zero is not dropped: the counter wraps. */
  function Budget(p: seq<byte>): nat
    requires HasHeader(p)
  {
    if Ttl(p) == 0 then 256 else Ttl(p)
  }

  /** The leading hosts whose tables let them send. */
  function Willing(hops: seq<Hop>): nat
    decreases |hops|
  {
    if hops == [] || !Sends(hops[0]) then 0 else 1 + Willing(hops[1..])
  }

  /** `f` is the packet `i` hops later, still valid. */
  ghost predicate Older(p: seq<byte>, f: seq<byte>, i: nat) {
    HasHeader(p) && HasHeader(f) && Verifies(f) && SameButTtl(p, f) && Ttl(f) == (Ttl(p) - i) % 256
  }

  lemma OlderStep(p: seq<byte>, q: seq<byte>, f: seq<byte>, i: nat)
    requires HasHeader(p) && Forward(p) == Some(q) && Older(q, f, i)
    ensures Older(p, f, i + 1)
  {
  }

  /** Exactly as many frames as hosts willing to send, up to the budget; each is
      the packet one hop older, with a valid checksum. */
  lemma {:induction false} FramesExact(p: seq<byte>, hops: seq<Hop>)
    requires HasHeader(p) && Verifies(p)
    ensures |Frames(p, hops)| == Min(Budget(p), Willing(hops))
    ensures forall i :: 0 <= i < |Frames(p, hops)| ==> Older(p, Frames(p, hops)[i], i)
    decreases |hops|
  {
    if hops != [] && Sends(hops[0]) {
      ForwardKeeps(p);
      if Forward(p).Some? {
        var q := Forward(p).value;
        FramesExact(q, hops[1..]);
        hide Older, Verifies, Forward;
        var rest := Frames(q, hops[1..]);
        forall i | 0 < i < |Frames(p, hops)| ensures Older(p, Frames(p, hops)[i], i) {
          assert Frames(p, hops)[i] == rest[i - 1];
          OlderStep(p, q, rest[i - 1], i - 1);
        }
      }
      assert Older(p, p, 0) by { hide CheckSum; }
    }
  }

  /** A packet `sendIPPacket` builds is transmitted at most 255 times, whatever
      the routing tables say and even if they loop, and every frame carries a
      valid checksum and the data sent. */
  lemma TransmittedAtMost255Times(src: seq<byte>, dest: seq<byte>, proto: int, payload: seq<byte>, hops: seq<Hop>)
    requires |src| == 4 && |dest| == 4
    ensures var p := Build(src, dest, proto, payload);
            HasHeader(p) &&
            var frames := Frames(p, hops);
            && |frames| == Min(255, Willing(hops))
            && forall i :: 0 <= i < |frames| ==>
                 && HasHeader(frames[i]) && Verifies(frames[i]) && Ttl(frames[i]) == 255 - i >= 1
                 && frames[i][12..16] == src && frames[i][16..20] == dest && frames[i][20..] == payload
  {
    var p := Build(src, dest, proto, payload);
    BuildVerifies(src, dest, proto, payload);
    FramesExact(p, hops);
    hide Build, Verifies, Frames, Older;
    forall i | 0 <= i < |Frames(p, hops)|
      ensures var f := Frames(p, hops)[i];
              HasHeader(f) && Verifies(f) && Ttl(f) == 255 - i
              && f[12..16] == p[12..16] && f[16..20] == p[16..20] && f[20..] == p[20..]
    {
      OlderFields(p, Frames(p, hops)[i], i);
    }
  }

  lemma OlderFields(p: seq<byte>, f: seq<byte>, i: nat)
    requires Older(p, f, i) && Ttl(p) == 255 && i < 255
    ensures HasHeader(f) && Verifies(f) && Ttl(f) == 255 - i
    ensures f[12..16] == p[12..16] && f[16..20] == p[16..20] && f[20..] == p[20..]
  {
  }

  // ----- the source's buffers -----

  /** `ip_sum = calculateCheckSum(ip_header)`. */
  method Seal(buffer: array<byte>)
    requires HasHeader(buffer[..])
    modifies buffer
    ensures buffer[..] == Sealed(old(buffer[..]))
  {
    var c := CalculateCheckSum(buffer);
    buffer[10] := (c % 256) as byte;
    buffer[11] := (c / 256) as byte;
  }

  /** `sendIPPacketInternal`: the status is that of the Ethernet layer, once there is
      a route and a neighbour. */
  method Transmit(packet: seq<byte>, hop: Hop, frameStatus: int) returns (status: int, frame: Option<seq<byte>>)
    ensures frame == if Sends(hop) then Some(packet) else None
    ensures status == if Sends(hop) then frameStatus else 1
  {
    match hop.route {
      case Some(nexthop) =>
        if nexthop in hop.known {
          return frameStatus, Some(packet);
        }
        return 1, None;
      case None => return 1, None;
    }
  }

  method SendIPPacket(src: seq<byte>, dest: seq<byte>, proto: int, payload: array<byte>, hop: Hop, frameStatus: int)
    returns (status: int, frame: Option<seq<byte>>)
    requires |src| == 4 && |dest| == 4
    ensures frame == if Sends(hop) then Some(Build(src, dest, proto, payload[..])) else None
    ensures status == if Sends(hop) then frameStatus else 1
  {
    var header := Header(src, dest, proto, payload.Length);
    var packet := new byte[20](i requires 0 <= i < 20 => header[i]);
    assert packet[..] == header;
    Seal(packet);
    status, frame := Transmit(packet[..] + payload[..], hop, frameStatus);
  }

  method ForwardIPPacket(packet: array<byte>, hop: Hop, frameStatus: int)
    returns (status: int, frame: Option<seq<byte>>)
    requires HasHeader(packet[..])
    ensures frame == if Sends(hop) then Forward(packet[..]) else None
    ensures status == if Sends(hop) && Forward(packet[..]).Some? then frameStatus else 1
  {
    var buffer := new byte[packet.Length](i requires 0 <= i < packet.Length reads packet => packet[i]);
    assert buffer[..] == packet[..];
    var checksum := CalculateCheckSum(buffer);
    if checksum != buffer[10] as int + 256 * buffer[11] as int {
      return 1, None;
    }
    var ttl := (buffer[TTL_AT] as int - 1) % 256;
    buffer[TTL_AT] := ttl as byte;
    if ttl == 0 {
      return 1, None;
    }
    assert buffer[..] == packet[..][TTL_AT := ttl as byte];
    Seal(buffer);
    status, frame := Transmit(buffer[..], hop, frameStatus);
  }
}
