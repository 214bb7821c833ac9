/** Forwarding over converged tables: src/network/ip.cc:37-150 with
    src/network/routing_impl.cc:61-81. */
module Forwarding {
  import opened Machine
  import opened RoutingTables
  import opened RoutingInvariant
  import opened RoutingQuery
  import opened DistanceVectors
  import opened C = DistanceVectorConvergence
  import opened Checksums
  import opened IpPackets

  /** The four bytes of a header's destination as an address in host order. */
  function AddressOf(bytes: seq<byte>): Ip
    requires |bytes| == 4
  {
    Ip(((bytes[0] as bv32) << 24) | ((bytes[1] as bv32) << 16) | ((bytes[2] as bv32) << 8) | (bytes[3] as bv32))
  }

  // ----- looking up a converged table -----

  lemma ExactBits(a: bv32)
    ensures And(a, 0xFFFF_FFFF) == a
  {
  }

  lemma ExactMatches(e: RoutingEntry, address: Ip)
    requires e.mask == EXACT && e.status != Garbage
    ensures Matches(e, address) <==> e.dest == address
  {
    ExactBits(address.bits);
    ExactBits(e.dest.bits);
    hide And;
  }

  lemma ExactMask()
    ensures !Zero(EXACT) && Within(EXACT, EXACT)
  {
  }

  /** The lookup finds the one entry of the address. */
  lemma QueryExact(g: Topology, k: nat, r: Router, t: seq<RoutingEntry>, address: Ip) returns (e: RoutingEntry)
    requires Converged(g, k, r, t) && HasRoute(t, address)
    ensures e in t && e.dest == address && Query(t, address) == Some(e.nexthop)
  {
    ConvergedExact(g, k, r, t);
    forall x | x in t ensures x.mask == EXACT && x.status != Garbage { ConvergedEntry(g, k, r, t, x); }
    forall x | x in t ensures Matches(x, address) <==> x.dest == address { ExactMatches(x, address); }
    hide Converged, TableExact, Matches, Zero, Within, Query, Best;
    ExactMask();
    var f :| f in t && HasKey(f, address, EXACT);
    var i: nat :| i < |t| && t[i] == f;
    assert Longest(t, address, i);
    TakesLongestExactly(t, address);
    var b := Best(t, address, |t|).value;
    assert Longest(t, address, b);
    e := t[b];
  }

  // ----- the path of a packet -----

  ghost predicate Owns(g: Topology, r: Router, address: Ip) {
    address in g.owner && g.owner[address] == r
  }

  /** `isLocalIP`: the lookup finds an entry without a next hop. */
  predicate IsLocalIP(t: seq<RoutingEntry>, address: Ip) {
    Query(t, address) == Some(NONE)
  }

  /** On a converged table the test finds exactly the router's own addresses. */
  lemma IsLocalExactly(g: Topology, k: nat, r: Router, t: seq<RoutingEntry>, address: Ip)
    requires Wired(g) && Converged(g, k, r, t)
    ensures IsLocalIP(t, address) <==> Owns(g, r, address)
  {
    hide Converged, Matches, Best, Hops;
    if IsLocalIP(t, address) {
      var i := Best(t, address, |t|).value;
      BestMatches(t, address, |t|);
      assert t[i] in t;
      ConvergedEntry(g, k, r, t, t[i]);
      ExactMatches(t[i], address);
      assert t[i].status == Persist;
      OwnEntry(g, k, r, t, t[i]);
    }
    if Owns(g, r, address) {
      OwnHops(g, r, address);
      ConvergedReaches(g, k, r, t, address);
      var e := QueryExact(g, k, r, t, address);
      ConvergedEntry(g, k, r, t, e);
      if e.status == Stable { HopsUnique(g, r, address, e.distance, 0); }
      OwnEntry(g, k, r, t, e);
    }
  }

  lemma {:induction false} BestMatches(t: seq<RoutingEntry>, address: Ip, n: nat)
    requires n <= |t| && Best(t, address, n).Some?
    ensures Matches(t[Best(t, address, n).value], address)
    decreases n
  {
    hide Matches;
    var b := Best(t, address, n - 1);
    if Best(t, address, n) == b { BestMatches(t, address, n - 1); }
  }

  lemma OwnEntry(g: Topology, k: nat, r: Router, t: seq<RoutingEntry>, e: RoutingEntry)
    requires Converged(g, k, r, t) && e in t
    ensures e.status == Persist ==> e.nexthop == NONE && Owns(g, r, e.dest)
    ensures e.status == Stable ==> 1 <= e.distance
  {
    hide Hops;
    assert EntryExact(g, k, r, e) && EntryOk(e);
  }

  /** The routers a packet visits, from `r` on: one whose table calls the address
      local keeps it, any other passes it to its next hop.  At most `n` passes. */
  ghost function Route(g: Topology, tables: Tables, r: Router, address: Ip, n: nat): seq<Router>
    requires Complete(g, tables) && r in tables
    decreases n
  {
    [r] + if IsLocalIP(tables[r], address) || n == 0 then []
          else match Query(tables[r], address)
               case Some(b) => if b in g.owner then Route(g, tables, g.owner[b], address, n - 1) else []
               case None => []
  }

  /** What each of the routers that pass it on has to go by. */
  ghost function Itinerary(g: Topology, tables: Tables, known: map<Router, set<Ip>>, r: Router, address: Ip, n: nat)
    : seq<Hop>
    requires Complete(g, tables) && r in tables
    decreases n
  {
    if IsLocalIP(tables[r], address) || n == 0 then []
    else
      [Hop(Query(tables[r], address), if r in known then known[r] else {})]
      + match Query(tables[r], address)
        case Some(b) => if b in g.owner then Itinerary(g, tables, known, g.owner[b], address, n - 1) else []
        case None => []
  }

  /** Every router's ARP table knows its neighbours. */
  ghost predicate NeighboursKnown(g: Topology, known: map<Router, set<Ip>>) {
    forall r, b :: Adjacent(g, r, b) ==> r in known && b in known[r]
  }

  lemma NextIsNearer(g: Topology, k: nat, tables: Tables, r: Router, address: Ip, h: nat) returns (b: Ip)
    requires Complete(g, tables) && AllConverged(g, k, tables) && r in tables
    requires Hops(g, r, address, h) && 0 < h <= Min(k, FARTHEST)
    ensures Query(tables[r], address) == Some(b) && Adjacent(g, r, b)
    ensures b in g.owner && Hops(g, g.owner[b], address, h - 1)
  {
    var t := tables[r];
    assert Converged(g, k, r, t);
    ConvergedReaches(g, k, r, t, address);
    hide Converged, Query, Walk, Adjacent;
    var e := QueryExact(g, k, r, t, address);
    ConvergedEntry(g, k, r, t, e);
    HopsUnique(g, r, address, e.distance, h);
    assert e.status == Stable by { NotLocal(g, k, r, t, e); }
    b := e.nexthop;
  }

  lemma NotLocal(g: Topology, k: nat, r: Router, t: seq<RoutingEntry>, e: RoutingEntry)
    requires Converged(g, k, r, t) && e in t && 0 < e.distance
    ensures e.status == Stable
  {
    assert EntryExact(g, k, r, e) && EntryOk(e);
  }

  /** Exactly the owner of the address keeps the packet. */
  lemma StopsAtZero(g: Topology, k: nat, tables: Tables, r: Router, address: Ip, h: nat)
    requires Wired(g) && AllConverged(g, k, tables) && r in tables && Hops(g, r, address, h)
    ensures IsLocalIP(tables[r], address) <==> h == 0
    ensures Owns(g, r, address) <==> h == 0
  {
    hide Converged, IsLocalIP;
    assert Converged(g, k, r, tables[r]);
    IsLocalExactly(g, k, r, tables[r], address);
    if Owns(g, r, address) {
      OwnHops(g, r, address);
      HopsUnique(g, r, address, 0, h);
    }
  }

  /** A path of routers h, h - 1, ..., 0 hops away, the last of which owns the address. */
  ghost predicate Nears(g: Topology, route: seq<Router>, address: Ip, h: nat) {
    && |route| == h + 1
    && (forall i :: 0 <= i <= h ==> Hops(g, route[i], address, h - i))
    && Owns(g, route[h], address)
  }

  /** Every router on the way is one hop nearer than the one before. */
  lemma {:induction false} RouteNears(g: Topology, k: nat, tables: Tables, known: map<Router, set<Ip>>, r: Router,
                                      address: Ip, h: nat, n: nat)
    requires Wired(g) && Complete(g, tables) && AllConverged(g, k, tables) && NeighboursKnown(g, known) && r in tables
    requires Hops(g, r, address, h) && h <= Min(k, FARTHEST) && h <= n
    ensures Nears(g, Route(g, tables, r, address, n), address, h)
    ensures var hops := Itinerary(g, tables, known, r, address, n);
            |hops| == h == Willing(hops)
    decreases n
  {
    hide *;
    StopsAtZero(g, k, tables, r, address, h);
    if h == 0 {
      RouteEnds(g, tables, known, r, address, n);
    } else {
      var b := NextIsNearer(g, k, tables, r, address, h);
      var s := g.owner[b];
      RouteStep(g, tables, known, r, b, address, n);
      RouteNears(g, k, tables, known, s, address, h - 1, n - 1);
      NearsCons(g, r, Route(g, tables, s, address, n - 1), address, h);
    }
  }

  lemma RouteEnds(g: Topology, tables: Tables, known: map<Router, set<Ip>>, r: Router, address: Ip, n: nat)
    requires Complete(g, tables) && r in tables && IsLocalIP(tables[r], address)
    requires Hops(g, r, address, 0) && Owns(g, r, address)
    ensures Nears(g, Route(g, tables, r, address, n), address, 0)
    ensures Itinerary(g, tables, known, r, address, n) == [] && Willing([]) == 0
  {
  }

  lemma NearsCons(g: Topology, r: Router, rest: seq<Router>, address: Ip, h: nat)
    requires 0 < h && Hops(g, r, address, h) && Nears(g, rest, address, h - 1)
    ensures Nears(g, [r] + rest, address, h)
  {
    hide Hops;
  }

  lemma RouteStep(g: Topology, tables: Tables, known: map<Router, set<Ip>>, r: Router, b: Ip, address: Ip, n: nat)
    requires Complete(g, tables) && NeighboursKnown(g, known) && r in tables && 0 < n
    requires !IsLocalIP(tables[r], address) && Query(tables[r], address) == Some(b)
    requires Adjacent(g, r, b) && b in g.owner
    ensures g.owner[b] in tables
    ensures Route(g, tables, r, address, n) == [r] + Route(g, tables, g.owner[b], address, n - 1)
    ensures var hops := Itinerary(g, tables, known, r, address, n);
            var rest := Itinerary(g, tables, known, g.owner[b], address, n - 1);
            |hops| == 1 + |rest| && Willing(hops) == 1 + Willing(rest)
  {
    hide Adjacent, Query, IsLocalIP;
    var hops := Itinerary(g, tables, known, r, address, n);
    assert Sends(hops[0]);
    assert hops[1..] == Itinerary(g, tables, known, g.owner[b], address, n - 1);
  }

  /** The lookup answers for exactly the addresses within reach. */
  lemma QueryAnswersReachable(g: Topology, k: nat, r: Router, t: seq<RoutingEntry>, address: Ip)
    requires Converged(g, k, r, t)
    ensures Query(t, address).Some? <==> exists h :: Hops(g, r, address, h) && h <= Min(k, FARTHEST)
  {
    ConvergedReaches(g, k, r, t, address);
    hide Converged, Hops, Matches;
    if HasRoute(t, address) {
      var e := QueryExact(g, k, r, t, address);
    }
    if Best(t, address, |t|).Some? {
      var i := Best(t, address, |t|).value;
      BestMatches(t, address, |t|);
      assert t[i] in t;
      ConvergedEntry(g, k, r, t, t[i]);
      ExactMatches(t[i], address);
      assert HasKey(t[i], address, EXACT);
    }
  }

  /** A packet for an address out of reach stays where it is and causes no frame. */
  lemma UnreachableStops(g: Topology, k: nat, tables: Tables, known: map<Router, set<Ip>>, r: Router, address: Ip, n: nat)
    requires Complete(g, tables) && AllConverged(g, k, tables) && r in tables
    requires !exists h :: Hops(g, r, address, h) && h <= Min(k, FARTHEST)
    ensures Route(g, tables, r, address, n) == [r]
    ensures Willing(Itinerary(g, tables, known, r, address, n)) == 0
  {
    hide Hops, Converged, Query;
    assert Converged(g, k, r, tables[r]);
    QueryAnswersReachable(g, k, r, tables[r], address);
  }

  /** Over converged tables a packet for an address h <= 15 hops away visits routers
      h, h - 1, ..., 0 hops away, the last of which owns the address, and causes
      exactly h frames, each with a valid checksum and the data sent. */
  lemma PacketsArrive(g: Topology, k: nat, tables: Tables, known: map<Router, set<Ip>>, r: Router, h: nat, n: nat,
                      src: seq<byte>, dest: seq<byte>, proto: int, payload: seq<byte>)
    requires |src| == 4 && |dest| == 4
    requires Wired(g) && Complete(g, tables) && AllConverged(g, k, tables) && NeighboursKnown(g, known) && r in tables
    requires Hops(g, r, AddressOf(dest), h) && h <= Min(k, FARTHEST) && h <= n
    ensures Nears(g, Route(g, tables, r, AddressOf(dest), n), AddressOf(dest), h)
    ensures var p := Build(src, dest, proto, payload);
            HasHeader(p) &&
            var frames := Frames(p, Itinerary(g, tables, known, r, AddressOf(dest), n));
            && |frames| == h
            && forall i :: 0 <= i < h ==>
                 && HasHeader(frames[i]) && Verifies(frames[i]) && Ttl(frames[i]) == 255 - i
                 && frames[i][16..20] == dest && frames[i][20..] == payload
  {
    hide Hops, AllConverged, Complete, NeighboursKnown, AddressOf, Build, Frames, Verifies;
    RouteNears(g, k, tables, known, r, AddressOf(dest), h, n);
    TransmittedAtMost255Times(src, dest, proto, payload, Itinerary(g, tables, known, r, AddressOf(dest), n));
  }
}
