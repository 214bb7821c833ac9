/** The exchange of vectors by one host: src/network/routing.cc. */
module Routers {
  import opened RoutingTables
  import opened DistanceVectors
  import opened O = RoutingTableObjects

  function PeerOf(arp: map<Ip, Ip>, device: Ip): Ip {
    if device in arp then arp[device] else NONE
  }

  /** One vector for each device, poisoned towards that device's own peer. */
  function Vectors(t: seq<RoutingEntry>, devices: seq<Ip>, arp: map<Ip, Ip>): (v: seq<Message>)
    ensures |v| == |devices|
    ensures forall i :: 0 <= i < |v| ==> v[i] == Message(devices[i], Serialize(t, PeerOf(arp, devices[i])))
  {
    seq(|devices|, i requires 0 <= i < |devices| => Message(devices[i], Serialize(t, PeerOf(arp, devices[i]))))
  }

  class Host {
    const routing: RoutingTable
    const devices: seq<Ip>
    /** The frames handed to the devices so far. */
    var frames: seq<Message>

    constructor (devices: seq<Ip>)
      ensures this.devices == devices && frames == [] && fresh(routing)
      ensures routing.table == RoutingTables.Initial(devices)
    {
      this.devices := devices;
      frames := [];
      routing := new RoutingTable(devices);
    }

    method BroadcastDVTable(arp: map<Ip, Ip>)
      modifies this`frames
      ensures frames == old(frames) + Vectors(routing.table, devices, arp)
    {
      var i := 0;
      while i < |devices|
        invariant i <= |devices|
        invariant frames == old(frames) + Vectors(routing.table, devices, arp)[..i]
      {
        var nexthop := NONE;
        if devices[i] in arp {
          nexthop := arp[devices[i]];
        }
        var vector := routing.SerializeDistanceVector(nexthop);
        frames := frames + [Message(devices[i], vector[..])];
        i := i + 1;
      }
    }

    /** A received vector; a route that it poisons is announced at once. */
    method ReceiveDVTable(m: Message, arp: map<Ip, Ip>)
      modifies this`frames, routing
      ensures routing.table == Update(old(routing.table), m.sender, m.vector)
      ensures frames == old(frames) + if UpdateModifies(old(routing.table), m.sender, m.vector)
                                      then Vectors(routing.table, devices, arp) else []
    {
      var buffer := new DVEntry[|m.vector|](i requires 0 <= i < |m.vector| => m.vector[i]);
      assert buffer[..] == m.vector;
      var modified := routing.UpdateByDistanceVector(m.sender, buffer);
      if modified {
        BroadcastDVTable(arp);
      }
    }

    /** The timer: announce, then age. */
    method TimerRIP(arp: map<Ip, Ip>)
      modifies this`frames, routing
      ensures frames == old(frames) + Vectors(old(routing.table), devices, arp)
      ensures routing.table == Aging(old(routing.table))
    {
      BroadcastDVTable(arp);
      var modified := routing.Aging();
    }
  }
}
