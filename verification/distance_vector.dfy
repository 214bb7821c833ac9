/**
 Many routing tables exchanging vectors over a static topology:
 src/network/routing.cc.

 A device address lies on one Ethernet segment and belongs to one router.  A
 vector broadcast on a segment may reach any other device there, any number of
 times, at any later time and in any order, or never.
 */
module DistanceVectors {
  import opened Machine
  import opened RoutingTables
  import opened RoutingInvariant

  type Router = nat

  datatype Topology = Topology(owner: map<Ip, Router>, segment: map<Ip, nat>)

  ghost predicate Wired(g: Topology) {
    g.owner.Keys == g.segment.Keys && NONE !in g.owner
  }

  predicate Linked(g: Topology, a: Ip, b: Ip) {
    a in g.segment && b in g.segment && g.segment[a] == g.segment[b] && a != b
  }

  /** `b` is the address of a device directly reachable from router `r`. */
  ghost predicate Adjacent(g: Topology, r: Router, b: Ip) {
    b in g.owner && exists a :: a in g.owner && g.owner[a] == r && Linked(g, a, b)
  }

  /** A walk of exactly `k` hops from router `r` to the owner of an address. */
  ghost predicate Walk(g: Topology, r: Router, address: Ip, k: int)
    decreases k
  {
    if k <= 0 then k == 0 && address in g.owner && g.owner[address] == r
    else exists b :: Adjacent(g, r, b) && Walk(g, g.owner[b], address, k - 1)
  }

  /** The header's sender address and the lines of the vector. */
  datatype Message = Message(sender: Ip, vector: seq<DVEntry>)

  /** The tables now and every vector ever broadcast. */
  datatype Network = Network(tables: map<Router, seq<RoutingEntry>>, sent: set<Message>)

  /** `arp` is what the ARP table says of a device's segment, zero if nothing. */
  datatype Event =
    | Broadcast(device: Ip, arp: Ip)
    | Deliver(device: Ip, message: Message)
    | Tick(router: Router)
    | Collect(router: Router)

  ghost predicate Enabled(g: Topology, n: Network, ev: Event) {
    match ev
    case Broadcast(a, _) => a in g.owner && g.owner[a] in n.tables
    case Deliver(b, m) => m in n.sent && Linked(g, m.sender, b) && b in g.owner && g.owner[b] in n.tables
    case Tick(r) => r in n.tables
    case Collect(r) => r in n.tables
  }

  function Next(g: Topology, n: Network, ev: Event): Network
    requires Enabled(g, n, ev)
  {
    match ev
    case Broadcast(a, arp) => n.(sent := n.sent + {Message(a, Serialize(n.tables[g.owner[a]], arp))})
    case Deliver(b, m) =>
      var r := g.owner[b];
      n.(tables := n.tables[r := Update(n.tables[r], m.sender, m.vector)])
    case Tick(r) => n.(tables := n.tables[r := Aging(n.tables[r])])
    case Collect(r) => n.(tables := n.tables[r := RoutingTables.Collect(n.tables[r])])
  }

  ghost predicate Run(g: Topology, n: Network, events: seq<Event>)
    decreases |events|
  {
    events == [] || (Enabled(g, n, events[0]) && Run(g, Next(g, n, events[0]), events[1..]))
  }

  ghost function Exec(g: Topology, n: Network, events: seq<Event>): Network
    requires Run(g, n, events)
    decreases |events|
  {
    if events == [] then n else Exec(g, Next(g, n, events[0]), events[1..])
  }

  /** `InitRoutingTable` for a router: its own addresses, each once, in some order. */
  ghost predicate IsInitial(g: Topology, r: Router, t: seq<RoutingEntry>) {
    exists locals: seq<Ip> ::
      && t == Initial(locals)
      && (forall i, j :: 0 <= i < j < |locals| ==> locals[i] != locals[j])
      && (forall a :: a in locals <==> a in g.owner && g.owner[a] == r)
  }

  // ----- the invariant -----

  /** What an entry of router `r` claims is so. */
  ghost predicate EntrySound(g: Topology, r: Router, e: RoutingEntry) {
    && e.mask == EXACT
    && (e.status == Persist ==> e.dest in g.owner && g.owner[e.dest] == r)
    && (e.status != Persist ==> Adjacent(g, r, e.nexthop))
    && (e.status == Stable ==> Walk(g, g.owner[e.nexthop], e.dest, e.distance - 1))
  }

  ghost predicate TableSound(g: Topology, r: Router, t: seq<RoutingEntry>) {
    TableOk(t) && forall e :: e in t ==> EntrySound(g, r, e)
  }

  /** What a line of a vector claims is so: a reachable destination is backed by
      a walk from the sender. */
  ghost predicate LineSound(g: Topology, r: Router, v: DVEntry) {
    && v.mask == EXACT && v.distance <= POISON_THRESHOLD + 1
    && (v.distance <= POISON_THRESHOLD ==> Walk(g, r, v.dest, v.distance))
  }

  ghost predicate MessageSound(g: Topology, m: Message) {
    m.sender in g.owner && forall v :: v in m.vector ==> LineSound(g, g.owner[m.sender], v)
  }

  ghost predicate Sound(g: Topology, n: Network) {
    && (forall r :: r in n.tables ==> TableSound(g, r, n.tables[r]))
    && (forall m :: m in n.sent ==> MessageSound(g, m))
  }

  // ----- sending -----

  lemma WalkThrough(g: Topology, r: Router, b: Ip, address: Ip, k: int)
    requires Adjacent(g, r, b) && k > 0 && Walk(g, g.owner[b], address, k - 1)
    ensures Walk(g, r, address, k)
  {
  }

  lemma EntryWalks(g: Topology, r: Router, e: RoutingEntry)
    requires EntryOk(e) && EntrySound(g, r, e) && e.status != Garbage
    ensures Walk(g, r, e.dest, e.distance)
  {
  }

  lemma AdvertiseSound(g: Topology, r: Router, e: RoutingEntry, arp: Ip)
    requires EntryOk(e) && EntrySound(g, r, e)
    ensures LineSound(g, r, Advertise(e, arp))
  {
    hide Walk, Adjacent;
    if e.status != Garbage { EntryWalks(g, r, e); }
  }

  lemma SerializeSound(g: Topology, a: Ip, t: seq<RoutingEntry>, arp: Ip)
    requires a in g.owner && TableSound(g, g.owner[a], t)
    ensures MessageSound(g, Message(a, Serialize(t, arp)))
  {
    hide EntryOk, EntrySound, LineSound, UniqueKeys;
    var vector := Serialize(t, arp);
    forall v | v in vector ensures LineSound(g, g.owner[a], v) {
      var i :| 0 <= i < |vector| && vector[i] == v;
      assert t[i] in t;
      AdvertiseSound(g, g.owner[a], t[i], arp);
    }
  }

  /** Exactly while the peer of a segment is unknown, poison reverse hits the
      router's own addresses: they carry no next hop either. */
  lemma UnknownPeerHidesLocals(t: seq<RoutingEntry>, peer: Ip, i: nat)
    requires TableOk(t) && i < |t| && t[i].status == Persist
    ensures Serialize(t, peer)[i].distance == if peer == NONE then POISON_THRESHOLD + 1 else 0
  {
    assert t[i] in t;
  }

  /** A vector sent on a segment whose peer is known calls no destination reachable
      that the router itself routes through that peer, and every other at the
      distance of the router's own route. */
  lemma BroadcastPoisons(g: Topology, n: Network, a: Ip, arp: Ip, e: RoutingEntry)
    requires Sound(g, n) && Enabled(g, n, Broadcast(a, arp)) && arp != NONE && e in n.tables[g.owner[a]]
    ensures var m := Message(a, Serialize(n.tables[g.owner[a]], arp));
            && m in Next(g, n, Broadcast(a, arp)).sent
            && (exists v :: v in m.vector && v.dest == e.dest && v.mask == e.mask)
            && forall v :: v in m.vector && v.dest == e.dest && v.mask == e.mask ==>
                 v.distance == if e.nexthop == arp || e.status == Garbage then 17 else e.distance
  {
    var t := n.tables[g.owner[a]];
    SoundIsOk(g, g.owner[a], t);
    hide TableSound, MessageSound, TableOk;
    OneLine(t, e, arp);
  }

  lemma OneLine(t: seq<RoutingEntry>, e: RoutingEntry, peer: Ip)
    requires TableOk(t) && e in t && peer != NONE
    ensures var vector := Serialize(t, peer);
            && (exists v :: v in vector && v.dest == e.dest && v.mask == e.mask)
            && forall v :: v in vector && v.dest == e.dest && v.mask == e.mask ==>
                 v.distance == if e.nexthop == peer || e.status == Garbage then 17 else e.distance
  {
    var vector := Serialize(t, peer);
    var i :| 0 <= i < |t| && t[i] == e;
    assert vector[i] in vector;
    assert EntryOk(e);
    hide EntryOk;
    forall v | v in vector && v.dest == e.dest && v.mask == e.mask ensures v == Advertise(e, peer) {
      var j :| 0 <= j < |t| && vector[j] == v;
      OneEntry(t, e, t[j]);
    }
  }

  // ----- receiving -----

  lemma MergeSound(g: Topology, r: Router, e: RoutingEntry, v: DVEntry, sender: Ip)
    requires Wired(g) && EntryOk(e) && EntrySound(g, r, e) && Adjacent(g, r, sender)
    requires LineSound(g, g.owner[sender], v) && HasKey(e, v.dest, v.mask)
    ensures EntrySound(g, r, Merge(e, sender, WireDistance(v.distance)))
  {
    hide Walk, Adjacent;
    WireDistanceExact(v.distance);
    if e.status == Persist { assert e.nexthop != sender by { assert sender in g.owner by { AdjacentOwned(g, r, sender); } } }
  }

  lemma AdjacentOwned(g: Topology, r: Router, b: Ip)
    requires Adjacent(g, r, b)
    ensures b in g.owner
  {
  }

  lemma LearnSound(g: Topology, r: Router, t: seq<RoutingEntry>, v: DVEntry, sender: Ip)
    requires Wired(g) && TableSound(g, r, t) && Adjacent(g, r, sender) && LineSound(g, g.owner[sender], v)
    ensures TableSound(g, r, Learn(t, sender, v))
  {
    hide Walk, Adjacent, WireDistance;
    AdjacentOwned(g, r, sender);
    LearnExact(t, sender, v);
    WireDistanceExact(v.distance);
    var t1 := Learn(t, sender, v);
    var i := Find(t, v.dest, v.mask);
    if i < |t| {
      assert t[i] in t;
      MergeSound(g, r, t[i], v, sender);
    }
    hide TableOk, Merge;
    forall x | x in t1 ensures EntrySound(g, r, x) { }
  }

  lemma {:induction false} UpdateSound(g: Topology, r: Router, t: seq<RoutingEntry>, vector: seq<DVEntry>, sender: Ip)
    requires Wired(g) && TableSound(g, r, t) && Adjacent(g, r, sender)
    requires forall v :: v in vector ==> LineSound(g, g.owner[sender], v)
    ensures TableSound(g, r, Update(t, sender, vector))
    decreases |vector|
  {
    hide TableSound, Adjacent, LineSound, Learn;
    AdjacentOwned(g, r, sender);
    if vector != [] {
      var n := |vector| - 1;
      UpdateSound(g, r, t, vector[..n], sender);
      LearnSound(g, r, Update(t, sender, vector[..n]), vector[n], sender);
    }
  }

  // ----- ageing -----

  lemma AgingSound(g: Topology, r: Router, t: seq<RoutingEntry>)
    requires TableSound(g, r, t)
    ensures TableSound(g, r, Aging(t))
  {
    hide Walk, Adjacent, TableOk;
    AgingKeeps(t);
    forall x | x in Aging(t) ensures EntrySound(g, r, x) {
      AgingMembers(t, x);
      var e :| e in t && RoutingTables.Tick(e) == Some(x);
      assert EntrySound(g, r, e);
    }
  }

  // ----- runs -----

  lemma InitialSound(g: Topology, r: Router, t: seq<RoutingEntry>)
    requires IsInitial(g, r, t)
    ensures TableSound(g, r, t)
  {
  }

  lemma NextSound(g: Topology, n: Network, ev: Event)
    requires Wired(g) && Sound(g, n) && Enabled(g, n, ev)
    ensures Sound(g, Next(g, n, ev))
  {
    hide TableSound, MessageSound;
    match ev
    case Broadcast(a, arp) => SerializeSound(g, a, n.tables[g.owner[a]], arp);
    case Deliver(b, m) =>
      MessageLines(g, m);
      assert Adjacent(g, g.owner[b], m.sender);
      UpdateSound(g, g.owner[b], n.tables[g.owner[b]], m.vector, m.sender);
    case Tick(r) => AgingSound(g, r, n.tables[r]);
    case Collect(r) =>
      assert TableOk(n.tables[r]) by { SoundIsOk(g, r, n.tables[r]); }
      CollectsNothing(n.tables[r]);
  }

  lemma MessageLines(g: Topology, m: Message)
    requires MessageSound(g, m)
    ensures m.sender in g.owner && forall v :: v in m.vector ==> LineSound(g, g.owner[m.sender], v)
  {
  }

  lemma SoundIsOk(g: Topology, r: Router, t: seq<RoutingEntry>)
    requires TableSound(g, r, t)
    ensures TableOk(t)
  {
  }

  lemma {:induction false} SoundAfter(g: Topology, n: Network, events: seq<Event>)
    requires Wired(g) && Sound(g, n) && Run(g, n, events)
    ensures Sound(g, Exec(g, n, events))
    decreases |events|
  {
    hide Sound, Wired, Enabled;
    if events != [] {
      NextSound(g, n, events[0]);
      SoundAfter(g, Next(g, n, events[0]), events[1..]);
    }
  }

  /** The network before any vector is sent. */
  ghost predicate Start(g: Topology, n: Network) {
    n.sent == {} && forall r :: r in n.tables ==> IsInitial(g, r, n.tables[r])
  }

  /** No router ever underestimates: whatever is lost, delayed, duplicated,
      reordered or aged, a usable learned route has a direct neighbour as next
      hop and is backed by a walk, through that neighbour, of exactly its
      distance. */
  lemma RoutesAreReal(g: Topology, start: Network, events: seq<Event>, r: Router, e: RoutingEntry)
    requires Wired(g) && Start(g, start) && Run(g, start, events)
    requires r in Exec(g, start, events).tables && e in Exec(g, start, events).tables[r]
    ensures e.status == Stable ==>
              && 1 <= e.distance <= POISON_THRESHOLD && Adjacent(g, r, e.nexthop)
              && Walk(g, g.owner[e.nexthop], e.dest, e.distance - 1) && Walk(g, r, e.dest, e.distance)
    ensures e.status == Persist <==> e.dest in g.owner && g.owner[e.dest] == r && e.nexthop == NONE
  {
    hide Walk, Adjacent, Exec, Run, IsInitial;
    forall s | s in start.tables ensures TableSound(g, s, start.tables[s]) { InitialSound(g, s, start.tables[s]); }
    SoundAfter(g, start, events);
    var t := Exec(g, start, events).tables[r];
    assert EntrySound(g, r, e) && EntryOk(e);
    if e.status == Stable { EntryWalks(g, r, e); }
  }
}
