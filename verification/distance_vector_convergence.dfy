/**
 Loss-free synchronous rounds: src/network/routing.cc:25-72.

 In one round every router broadcasts its table to its segments, ages it, and
 then receives what its neighbours broadcast, in any order and possibly more
 than once.  The ARP table knows a peer on the segment of every device.
 */
module DistanceVectorConvergence {
  import opened Machine
  import opened RoutingTables
  import opened RoutingInvariant
  import opened DistanceVectors

  const FARTHEST: int := POISON_THRESHOLD - 1

  // ----- rounds -----

  type Tables = map<Router, seq<RoutingEntry>>

  /** The topology with what the ARP table says of each device's segment. */
  ghost predicate KnownPeers(g: Topology, arp: map<Ip, Ip>) {
    Wired(g) && forall a :: a in g.owner ==> a in arp && Linked(g, a, arp[a]) && arp[a] in g.owner
  }

  ghost predicate Complete(g: Topology, tables: Tables) {
    forall a :: a in g.owner ==> g.owner[a] in tables
  }

  function Vector(g: Topology, arp: map<Ip, Ip>, tables: Tables, a: Ip): Message
    requires a in g.owner && a in arp && g.owner[a] in tables
  {
    Message(a, Serialize(tables[g.owner[a]], arp[a]))
  }

  function Absorb(t: seq<RoutingEntry>, inbox: seq<Message>): seq<RoutingEntry>
    decreases |inbox|
  {
    if inbox == [] then t
    else Update(Absorb(t, inbox[..|inbox| - 1]), inbox[|inbox| - 1].sender, inbox[|inbox| - 1].vector)
  }

  /** Some update in the inbox asks for a triggered broadcast. */
  ghost predicate Triggers(t: seq<RoutingEntry>, inbox: seq<Message>) {
    exists i :: 0 <= i < |inbox| && UpdateModifies(Absorb(t, inbox[..i]), inbox[i].sender, inbox[i].vector)
  }

  /** Every neighbour's vector, nothing else, in any order. */
  ghost predicate Inbox(g: Topology, arp: map<Ip, Ip>, tables: Tables, r: Router, inbox: seq<Message>)
    requires KnownPeers(g, arp) && Complete(g, tables)
  {
    && (forall m :: m in inbox ==> Adjacent(g, r, m.sender) && m == Vector(g, arp, tables, m.sender))
    && (forall a :: Adjacent(g, r, a) ==> Vector(g, arp, tables, a) in inbox)
  }

  ghost predicate Round(g: Topology, arp: map<Ip, Ip>, before: Tables, after: Tables)
    requires KnownPeers(g, arp) && Complete(g, before)
  {
    && Complete(g, after)
    && forall r :: r in after ==> r in before && exists inbox ::
         Inbox(g, arp, before, r, inbox) && after[r] == Absorb(Aging(before[r]), inbox)
  }

  // ----- hop distance -----

  /** The shortest walk from `r` to the address has `h` hops. */
  ghost predicate Hops(g: Topology, r: Router, address: Ip, h: int) {
    Walk(g, r, address, h) && forall j :: j < h ==> !Walk(g, r, address, j)
  }

  lemma HopsUnique(g: Topology, r: Router, address: Ip, h: int, k: int)
    requires Hops(g, r, address, h) && Hops(g, r, address, k)
    ensures h == k && 0 <= h
  {
  }

  lemma {:induction false} Shortest(g: Topology, r: Router, address: Ip, k: int) returns (h: int)
    requires Walk(g, r, address, k)
    ensures Hops(g, r, address, h) && 0 <= h <= k
    decreases k
  {
    if j :| j < k && Walk(g, r, address, j) {
      h := Shortest(g, r, address, j);
    } else {
      h := k;
    }
  }

  /** A neighbour `h - 1` hops away, of a router `h` hops away. */
  lemma Toward(g: Topology, r: Router, address: Ip, h: int) returns (b: Ip)
    requires Hops(g, r, address, h) && h > 0
    ensures Adjacent(g, r, b) && Hops(g, g.owner[b], address, h - 1)
  {
    b :| Adjacent(g, r, b) && Walk(g, g.owner[b], address, h - 1);
    forall j | j < h - 1 ensures !Walk(g, g.owner[b], address, j) {
      if Walk(g, g.owner[b], address, j) {
        if j >= 0 { WalkThrough(g, r, b, address, j + 1); }
      }
    }
  }

  lemma NeighbourHops(g: Topology, r: Router, b: Ip, address: Ip, w: int) returns (h: int)
    requires Adjacent(g, r, b) && Hops(g, g.owner[b], address, w)
    ensures Hops(g, r, address, h) && 0 <= h <= w + 1
  {
    HopsUnique(g, g.owner[b], address, w, w);
    hide Adjacent;
    WalkThrough(g, r, b, address, w + 1);
    h := Shortest(g, r, address, w + 1);
  }

  /** Poison reverse never hits the chosen next hop: if `b` reaches an address in
      `h - 1` hops through `x` on the segment it shares with `r`, then `r`, being
      on that segment too, is not `h` hops away. */
  lemma PoisonMissesChosen(g: Topology, r: Router, b: Ip, x: Ip, address: Ip, h: int)
    requires Adjacent(g, r, b) && Hops(g, r, address, h) && Linked(g, b, x) && x in g.owner
    ensures !Hops(g, g.owner[x], address, h - 2)
  {
    if Hops(g, g.owner[x], address, h - 2) {
      HopsUnique(g, g.owner[x], address, h - 2, h - 2);
      var a :| a in g.owner && g.owner[a] == r && Linked(g, a, b);
      if a == x {
        HopsUnique(g, r, address, h, h - 2);
      } else {
        assert Adjacent(g, r, x);
        WalkThrough(g, r, x, address, h - 1);
      }
    }
  }

  // ----- what a table holds after k rounds -----

  /** An entry in the middle of a round that follows `k` complete rounds. */
  ghost predicate EntryExact(g: Topology, k: nat, r: Router, e: RoutingEntry) {
    && e.mask == EXACT && e.status != Garbage
    && (e.status == Persist ==> e.dest in g.owner && g.owner[e.dest] == r)
    && (e.status == Stable ==>
          && e.distance <= Min(k, FARTHEST) && Hops(g, r, e.dest, e.distance)
          && Adjacent(g, r, e.nexthop) && Hops(g, g.owner[e.nexthop], e.dest, e.distance - 1))
  }

  ghost predicate TableExact(g: Topology, k: nat, r: Router, t: seq<RoutingEntry>) {
    TableOk(t) && forall e :: e in t ==> EntryExact(g, k, r, e)
  }

  ghost predicate HasRoute(t: seq<RoutingEntry>, address: Ip) {
    exists e :: e in t && HasKey(e, address, EXACT)
  }

  ghost predicate Reaches(g: Topology, k: nat, r: Router, t: seq<RoutingEntry>) {
    forall address, h :: Hops(g, r, address, h) && h <= Min(k, FARTHEST) ==> HasRoute(t, address)
  }

  /** After `k` rounds: exactly the addresses at most `k` and at most 15 hops
      away, each with its exact distance, none about to expire. */
  ghost predicate Converged(g: Topology, k: nat, r: Router, t: seq<RoutingEntry>) {
    && TableExact(g, k, r, t) && Reaches(g, k, r, t)
    && forall e :: e in t && e.status == Stable ==> e.age == MAX_AGING
  }

  // ----- one line of a neighbour's vector -----

  /** What a neighbour `a` of `r` says after `k` rounds: its exact distance, or,
      by poison reverse, that it cannot help, which is never said of an address
      `r` reaches through it. */
  ghost predicate LineExact(g: Topology, k: nat, r: Router, a: Ip, v: DVEntry)
    requires a in g.owner
  {
    && v.mask == EXACT
    && (v.distance == POISON_THRESHOLD + 1
        || (v.distance <= Min(k, FARTHEST) && Hops(g, g.owner[a], v.dest, v.distance)))
    && (v.distance == POISON_THRESHOLD + 1 ==>
          forall h {:trigger Hops(g, r, v.dest, h)} :: Hops(g, r, v.dest, h) ==> !Hops(g, g.owner[a], v.dest, h - 1))
  }

  /** The line changes a table only by a new route, or by refreshing the route
      it was learned for. */
  lemma LineOutcome(g: Topology, k: nat, r: Router, t: seq<RoutingEntry>, a: Ip, v: DVEntry)
    requires TableExact(g, k + 1, r, t) && Reaches(g, k, r, t) && Adjacent(g, r, a) && a != NONE
    requires a in g.owner && LineExact(g, k, r, a, v)
    ensures var i := Find(t, v.dest, v.mask);
            var t1 := Learn(t, a, v);
            !InsertModifies(t, v.dest, v.mask, a, WireDistance(v.distance))
            && if i < |t| then
                 t1 == t[i := t[i].(age := t1[i].age)]
                 && t1[i].age == if t[i].status == Stable && t[i].nexthop == a then MAX_AGING else t[i].age
               else if v.distance < FARTHEST then
                 t1 == t + [NewEntry(v.dest, v.mask, a, v.distance + 1, Stable)]
                 && v.distance == k && Hops(g, r, v.dest, k + 1)
               else t1 == t
  {
    hide Walk, Adjacent, Find, TableExact, Reaches, LineExact, Merge, Hops, WireDistance, InsertModifies, Learn;
    var i := Find(t, v.dest, v.mask);
    if i < |t| {
      KnownOutcome(g, k, r, t, a, v);
    } else {
      UnknownLine(g, k, r, t, a, v);
      NewOutcome(g, k, r, t, a, v);
    }
  }

  lemma LineDistance(g: Topology, k: nat, r: Router, a: Ip, v: DVEntry)
    requires a in g.owner && LineExact(g, k, r, a, v)
    ensures WireDistance(v.distance) == v.distance + 1
  {
  }

  lemma KnownOutcome(g: Topology, k: nat, r: Router, t: seq<RoutingEntry>, a: Ip, v: DVEntry)
    requires TableExact(g, k + 1, r, t) && Adjacent(g, r, a) && a != NONE && a in g.owner && LineExact(g, k, r, a, v)
    requires Find(t, v.dest, v.mask) < |t|
    ensures var i := Find(t, v.dest, v.mask);
            var t1 := Learn(t, a, v);
            !InsertModifies(t, v.dest, v.mask, a, WireDistance(v.distance))
            && t1 == t[i := t[i].(age := t1[i].age)]
            && t1[i].age == if t[i].status == Stable && t[i].nexthop == a then MAX_AGING else t[i].age
  {
    hide Walk, Adjacent, Find, LineExact, Merge, Hops, WireDistance, EntryOk, EntryExact, Poisons;
    var i := Find(t, v.dest, v.mask);
    assert t[i] in t && HasKey(t[i], v.dest, v.mask);
    LineDistance(g, k, r, a, v);
    KnownLine(g, k, r, t[i], a, v);
  }

  lemma NewOutcome(g: Topology, k: nat, r: Router, t: seq<RoutingEntry>, a: Ip, v: DVEntry)
    requires a in g.owner && LineExact(g, k, r, a, v) && Find(t, v.dest, v.mask) == |t|
    ensures !InsertModifies(t, v.dest, v.mask, a, WireDistance(v.distance))
    ensures Learn(t, a, v) == if v.distance < FARTHEST then t + [NewEntry(v.dest, v.mask, a, v.distance + 1, Stable)] else t
  {
    LineDistance(g, k, r, a, v);
    hide Find, LineExact, WireDistance;
  }

  /** The line when the table has no entry. */
  lemma UnknownLine(g: Topology, k: nat, r: Router, t: seq<RoutingEntry>, a: Ip, v: DVEntry)
    requires Reaches(g, k, r, t) && Adjacent(g, r, a) && a in g.owner && LineExact(g, k, r, a, v)
    requires Find(t, v.dest, v.mask) == |t|
    ensures v.distance < FARTHEST ==> v.distance == k && Hops(g, r, v.dest, k + 1)
  {
    hide Walk, Adjacent;
    if v.distance < FARTHEST {
      var h := NeighbourHops(g, r, a, v.dest, v.distance);
      assert !HasRoute(t, v.dest);
    }
  }

  /** The line against the entry the table has. */
  lemma KnownLine(g: Topology, k: nat, r: Router, e: RoutingEntry, a: Ip, v: DVEntry)
    requires EntryOk(e) && EntryExact(g, k + 1, r, e) && HasKey(e, v.dest, v.mask) && Adjacent(g, r, a) && a != NONE
    requires a in g.owner && LineExact(g, k, r, a, v)
    ensures var d := v.distance + 1;
            && !Poisons(e, a, d)
            && Merge(e, a, d) == e.(age := Merge(e, a, d).age)
            && Merge(e, a, d).age == if e.status == Stable && e.nexthop == a then MAX_AGING else e.age
  {
    hide Walk, Adjacent;
    if e.status == Stable {
      AdjacentOwned(g, r, e.nexthop);
      assert Hops(g, r, v.dest, e.distance) && Hops(g, g.owner[e.nexthop], v.dest, e.distance - 1);
      if v.distance <= FARTHEST {
        var h := NeighbourHops(g, r, a, v.dest, v.distance);
        HopsUnique(g, r, v.dest, h, e.distance);
        if e.nexthop == a { HopsUnique(g, g.owner[a], v.dest, v.distance, e.distance - 1); }
      }
    }
  }

  // ----- a whole inbox -----

  /** The senders and destinations of the usable lines received so far. */
  ghost function Heard(m: Message): set<(Ip, Ip)> {
    set v | v in m.vector && v.distance <= FARTHEST :: (m.sender, v.dest)
  }

  ghost function AllHeard(inbox: seq<Message>): set<(Ip, Ip)>
    decreases |inbox|
  {
    if inbox == [] then {} else AllHeard(inbox[..|inbox| - 1]) + Heard(inbox[|inbox| - 1])
  }

  /** The table in the middle of a round: routes not refreshed yet are old, but
      none is for a line already heard; a destination heard of is known. */
  ghost predicate Midway(g: Topology, k: nat, r: Router, t: seq<RoutingEntry>, heard: set<(Ip, Ip)>) {
    && TableExact(g, k + 1, r, t) && Reaches(g, k, r, t)
    && (forall e :: e in t && e.status == Stable ==> e.age == MAX_AGING || (e.nexthop, e.dest) !in heard)
    && (forall p :: p in heard && p.0 in g.owner && Adjacent(g, r, p.0) && Hops(g, g.owner[p.0], p.1, k) && k < FARTHEST ==>
          HasRoute(t, p.1))
  }

  ghost function HeardLine(a: Ip, v: DVEntry): set<(Ip, Ip)> {
    if v.distance <= FARTHEST then {(a, v.dest)} else {}
  }

  lemma LineKnownMidway(g: Topology, k: nat, r: Router, t: seq<RoutingEntry>, a: Ip, v: DVEntry, heard: set<(Ip, Ip)>)
    requires Midway(g, k, r, t, heard) && v.mask == EXACT
    requires var i := Find(t, v.dest, v.mask); var t1 := Learn(t, a, v);
             i < |t| && t1 == t[i := t[i].(age := t1[i].age)] && TableOk(t1)
             && t1[i].age == if t[i].status == Stable && t[i].nexthop == a then MAX_AGING else t[i].age
    ensures Midway(g, k, r, Learn(t, a, v), heard + HeardLine(a, v))
  {
    hide Walk, Adjacent, Learn, Hops, EntryOk;
    var i := Find(t, v.dest, v.mask);
    var t1 := Learn(t, a, v);
    forall j | 0 <= j < |t1|
      ensures EntryExact(g, k + 1, r, t1[j])
      ensures t1[j].status == Stable ==> t1[j].age == MAX_AGING || (t1[j].nexthop, t1[j].dest) !in heard + HeardLine(a, v)
    {
      assert t[j] in t && EntryExact(g, k + 1, r, t[j]);
      if j != i { assert !HasKey(t[j], v.dest, v.mask); }
    }
    assert HasRoute(t, v.dest) by { assert t[i] in t && HasKey(t[i], v.dest, EXACT); }
    forall address | HasRoute(t, address) ensures HasRoute(t1, address) { KeepsRoutes(t, t1, address); }
  }

  /** A line for a destination the table lacks refreshes nothing. */
  lemma NothingToRefresh(g: Topology, k: nat, r: Router, t: seq<RoutingEntry>, a: Ip, v: DVEntry, heard: set<(Ip, Ip)>)
    requires Midway(g, k, r, t, heard) && v.mask == EXACT && Find(t, v.dest, v.mask) == |t|
    ensures forall e :: e in t && e.status == Stable ==>
              e.age == MAX_AGING || (e.nexthop, e.dest) !in heard + HeardLine(a, v)
  {
    hide Hops, Adjacent, EntryOk, Find, Reaches, UniqueKeys;
    assert forall j :: 0 <= j < |t| ==> !HasKey(t[j], v.dest, v.mask);
    forall e | e in t && e.status == Stable
      ensures e.age == MAX_AGING || (e.nexthop, e.dest) !in heard + HeardLine(a, v)
    {
      assert !HasKey(e, v.dest, v.mask) && EntryExact(g, k + 1, r, e);
    }
  }

  /** A line the table takes no route from. */
  lemma LineUnusedMidway(g: Topology, k: nat, r: Router, t: seq<RoutingEntry>, a: Ip, v: DVEntry, heard: set<(Ip, Ip)>)
    requires Midway(g, k, r, t, heard) && a in g.owner && LineExact(g, k, r, a, v)
    requires Find(t, v.dest, v.mask) == |t| && v.distance >= FARTHEST
    ensures Midway(g, k, r, t, heard + HeardLine(a, v))
  {
    NothingToRefresh(g, k, r, t, a, v, heard);
    hide Hops, Adjacent, TableExact, Reaches, HasRoute, Find;
  }

  lemma AddedEntry(g: Topology, k: nat, r: Router, t: seq<RoutingEntry>, added: RoutingEntry)
    requires TableExact(g, k, r, t) && TableOk(t + [added]) && EntryExact(g, k, r, added)
    ensures TableExact(g, k, r, t + [added])
  {
    hide EntryExact, TableOk;
    forall e | e in t + [added] ensures EntryExact(g, k, r, e) { assert e in t || e == added; }
  }

  lemma AddedRoute(t: seq<RoutingEntry>, added: RoutingEntry, address: Ip)
    requires added.mask == EXACT && (HasRoute(t, address) || added.dest == address)
    ensures HasRoute(t + [added], address)
  {
    if HasRoute(t, address) {
      KeepsRoutes(t, t + [added], address);
    } else {
      assert (t + [added])[|t|] == added && HasKey(added, address, EXACT);
    }
  }

  /** A line the table takes a new route from. */
  lemma LineNewMidway(g: Topology, k: nat, r: Router, t: seq<RoutingEntry>, a: Ip, v: DVEntry, heard: set<(Ip, Ip)>)
    requires Midway(g, k, r, t, heard) && Adjacent(g, r, a) && a in g.owner && LineExact(g, k, r, a, v)
    requires Find(t, v.dest, v.mask) == |t| && v.distance == k < FARTHEST && Hops(g, r, v.dest, k + 1)
    requires TableOk(t + [NewEntry(v.dest, v.mask, a, k + 1, Stable)])
    ensures Midway(g, k, r, t + [NewEntry(v.dest, v.mask, a, k + 1, Stable)], heard + HeardLine(a, v))
  {
    hide Hops, Adjacent, Find, TableOk;
    NothingToRefresh(g, k, r, t, a, v, heard);
    var added := NewEntry(v.dest, v.mask, a, k + 1, Stable);
    var t1, heard1 := t + [added], heard + HeardLine(a, v);
    AddedEntry(g, k + 1, r, t, added);
    hide TableExact, HasRoute;
    forall address | HasRoute(t, address) || address == v.dest ensures HasRoute(t1, address) {
      AddedRoute(t, added, address);
    }
    assert TableExact(g, k + 1, r, t1) && Reaches(g, k, r, t1);
    assert forall e :: e in t1 ==> e in t || e == added;
    assert forall p :: p in heard1 ==> p in heard || p.1 == v.dest;
    assert Midway(g, k, r, t1, heard1);
  }

  lemma LineMidway(g: Topology, k: nat, r: Router, t: seq<RoutingEntry>, a: Ip, v: DVEntry, heard: set<(Ip, Ip)>)
    requires Midway(g, k, r, t, heard) && Adjacent(g, r, a) && a != NONE && a in g.owner && LineExact(g, k, r, a, v)
    ensures Midway(g, k, r, Learn(t, a, v), heard + HeardLine(a, v))
  {
    hide Walk, Adjacent;
    LineOutcome(g, k, r, t, a, v);
    LearnExact(t, a, v);
    var i := Find(t, v.dest, v.mask);
    if i < |t| { LineKnownMidway(g, k, r, t, a, v, heard); }
    else if v.distance < FARTHEST { LineNewMidway(g, k, r, t, a, v, heard); }
    else { LineUnusedMidway(g, k, r, t, a, v, heard); }
  }

  lemma KeepsRoutes(t: seq<RoutingEntry>, t1: seq<RoutingEntry>, address: Ip)
    requires HasRoute(t, address) && |t| <= |t1|
    requires forall j :: 0 <= j < |t| ==> t1[j].dest == t[j].dest && t1[j].mask == t[j].mask
    ensures HasRoute(t1, address)
  {
    var e :| e in t && HasKey(e, address, EXACT);
    var j :| 0 <= j < |t| && t[j] == e;
    assert t1[j] in t1;
  }

  // ----- one message -----

  lemma HeardSnoc(m: Message, n: nat)
    requires n == |m.vector| - 1
    ensures Heard(m) == Heard(m.(vector := m.vector[..n])) + HeardLine(m.sender, m.vector[n])
  {
  }

  ghost predicate MessageExact(g: Topology, k: nat, r: Router, m: Message) {
    m.sender in g.owner && m.sender != NONE && Adjacent(g, r, m.sender)
    && forall v :: v in m.vector ==> LineExact(g, k, r, m.sender, v)
  }

  lemma {:induction false} MessageMidway(g: Topology, k: nat, r: Router, t: seq<RoutingEntry>, m: Message,
                                         heard: set<(Ip, Ip)>)
    requires Midway(g, k, r, t, heard) && MessageExact(g, k, r, m)
    ensures Midway(g, k, r, Update(t, m.sender, m.vector), heard + Heard(m))
    ensures !UpdateModifies(t, m.sender, m.vector)
    decreases |m.vector|
  {
    hide Midway, Adjacent, LineExact, Learn, InsertModifies, WireDistance;
    if m.vector == [] {
      assert heard + Heard(m) == heard;
    } else {
      var n := |m.vector| - 1;
      var first := m.(vector := m.vector[..n]);
      var v := m.vector[n];
      MessageMidway(g, k, r, t, first, heard);
      var t1 := Update(t, m.sender, first.vector);
      LineMidway(g, k, r, t1, m.sender, v, heard + Heard(first));
      MidwayTable(g, k, r, t1, heard + Heard(first));
      LineOutcome(g, k, r, t1, m.sender, v);
      HeardSnoc(m, n);
      assert heard + Heard(first) + HeardLine(m.sender, v) == heard + Heard(m);
    }
  }

  lemma MidwayTable(g: Topology, k: nat, r: Router, t: seq<RoutingEntry>, heard: set<(Ip, Ip)>)
    requires Midway(g, k, r, t, heard)
    ensures TableExact(g, k + 1, r, t) && Reaches(g, k, r, t)
  {
  }

  lemma {:induction false} InboxMidway(g: Topology, k: nat, r: Router, t: seq<RoutingEntry>, inbox: seq<Message>)
    requires Midway(g, k, r, t, {}) && forall m :: m in inbox ==> MessageExact(g, k, r, m)
    ensures Midway(g, k, r, Absorb(t, inbox), AllHeard(inbox))
    ensures !Triggers(t, inbox)
    decreases |inbox|
  {
    hide Midway, MessageExact, UpdateModifies, Heard, Triggers;
    if inbox == [] {
      assert !Triggers(t, []) by { NothingTriggers(t); }
    } else {
      var n := |inbox| - 1;
      InboxMidway(g, k, r, t, inbox[..n]);
      MessageMidway(g, k, r, Absorb(t, inbox[..n]), inbox[n], AllHeard(inbox[..n]));
      TriggersSnoc(t, inbox);
    }
  }

  lemma TriggersSnoc(t: seq<RoutingEntry>, inbox: seq<Message>)
    requires inbox != []
    ensures var n := |inbox| - 1;
            Triggers(t, inbox) ==>
              Triggers(t, inbox[..n]) || UpdateModifies(Absorb(t, inbox[..n]), inbox[n].sender, inbox[n].vector)
  {
    hide UpdateModifies, Absorb;
    var n := |inbox| - 1;
    forall i | 0 <= i < n ensures inbox[..n][..i] == inbox[..i] { }
  }

  lemma NothingTriggers(t: seq<RoutingEntry>)
    ensures !Triggers(t, [])
  {
  }

  // ----- a whole round -----

  lemma LineOfVector(g: Topology, k: nat, r: Router, a: Ip, x: Ip, e: RoutingEntry)
    requires Wired(g) && Adjacent(g, r, a) && a in g.owner && Linked(g, a, x) && x in g.owner
    requires EntryOk(e) && EntryExact(g, k, g.owner[a], e)
    ensures LineExact(g, k, r, a, Advertise(e, x))
  {
    hide Walk, Adjacent;
    var s := g.owner[a];
    if e.status == Persist {
      OwnHops(g, s, e.dest);
    } else {
      AdjacentOwned(g, s, e.nexthop);
      if e.nexthop == x {
        forall h {:trigger Hops(g, r, e.dest, h)} | Hops(g, r, e.dest, h) ensures !Hops(g, s, e.dest, h - 1) {
          PoisonMissesChosen(g, r, a, x, e.dest, h);
          if Hops(g, s, e.dest, h - 1) { HopsUnique(g, s, e.dest, h - 1, e.distance); }
        }
      }
    }
  }

  lemma OwnHops(g: Topology, r: Router, address: Ip)
    requires address in g.owner && g.owner[address] == r
    ensures Hops(g, r, address, 0)
  {
  }

  lemma VectorExact(g: Topology, arp: map<Ip, Ip>, k: nat, tables: Tables, r: Router, a: Ip)
    requires KnownPeers(g, arp) && Complete(g, tables) && Adjacent(g, r, a) && a in g.owner
    requires TableExact(g, k, g.owner[a], tables[g.owner[a]])
    ensures MessageExact(g, k, r, Vector(g, arp, tables, a))
  {
    hide Adjacent, LineExact, EntryExact, UniqueKeys;
    var t := tables[g.owner[a]];
    var m := Vector(g, arp, tables, a);
    forall v | v in m.vector ensures LineExact(g, k, r, a, v) {
      var i :| 0 <= i < |t| && m.vector[i] == v;
      assert t[i] in t;
      LineOfVector(g, k, r, a, arp[a], t[i]);
    }
  }

  /** Ageing at the start of a round removes nothing. */
  lemma AgingMidway(g: Topology, k: nat, r: Router, t: seq<RoutingEntry>)
    requires Converged(g, k, r, t)
    ensures Midway(g, k, r, Aging(t), {})
  {
    hide Hops, Adjacent, UniqueKeys;
    AgingKeeps(t);
    forall x | x in Aging(t) ensures EntryExact(g, k + 1, r, x) {
      AgingMembers(t, x);
      var e :| e in t && RoutingTables.Tick(e) == Some(x);
      assert EntryExact(g, k, r, e);
    }
    forall address | HasRoute(t, address) ensures HasRoute(Aging(t), address) {
      var e :| e in t && HasKey(e, address, EXACT);
      assert EntryExact(g, k, r, e);
      AgingMembers(t, RoutingTables.Tick(e).value);
    }
  }

  lemma {:induction false} HeardInInbox(inbox: seq<Message>, m: Message, p: (Ip, Ip))
    requires m in inbox && p in Heard(m)
    ensures p in AllHeard(inbox)
    decreases |inbox|
  {
    hide Heard;
    var n := |inbox| - 1;
    if m != inbox[n] {
      assert inbox == inbox[..n] + [inbox[n]];
      HeardInInbox(inbox[..n], m, p);
    }
  }

  /** A neighbour one hop nearer is always heard, and never poisoned. */
  lemma NearerIsHeard(g: Topology, arp: map<Ip, Ip>, k: nat, tables: Tables, r: Router, inbox: seq<Message>, a: Ip,
                      address: Ip, h: int)
    requires KnownPeers(g, arp) && Complete(g, tables) && Inbox(g, arp, tables, r, inbox)
    requires Adjacent(g, r, a) && a in g.owner && Hops(g, r, address, h) && Hops(g, g.owner[a], address, h - 1)
    requires h - 1 <= Min(k, FARTHEST)
    requires TableExact(g, k, g.owner[a], tables[g.owner[a]]) && Reaches(g, k, g.owner[a], tables[g.owner[a]])
    ensures (a, address) in AllHeard(inbox)
  {
    var t := tables[g.owner[a]];
    var m := Vector(g, arp, tables, a);
    assert m in inbox;
    assert HasRoute(t, address);
    VectorExact(g, arp, k, tables, r, a);
    assert m.vector == Serialize(t, arp[a]);
    hide *;
    UsefulLine(g, k, r, m, t, arp[a], address, h);
    HeardInInbox(inbox, m, (a, address));
  }

  /** The sender's line for an address it is nearer to is not poisoned. */
  lemma UsefulLine(g: Topology, k: nat, r: Router, m: Message, t: seq<RoutingEntry>, peer: Ip, address: Ip, h: int)
    requires MessageExact(g, k, r, m) && m.vector == Serialize(t, peer) && HasRoute(t, address)
    requires Hops(g, r, address, h) && m.sender in g.owner && Hops(g, g.owner[m.sender], address, h - 1)
    ensures (m.sender, address) in Heard(m)
  {
    hide Hops, Adjacent;
    var e :| e in t && HasKey(e, address, EXACT);
    var i :| 0 <= i < |t| && t[i] == e;
    var v := m.vector[i];
    assert v in m.vector && v.dest == address;
    assert LineExact(g, k, r, m.sender, v);
    assert v.distance <= FARTHEST;
  }

  ghost predicate AllConverged(g: Topology, k: nat, tables: Tables) {
    forall r :: r in tables ==> Converged(g, k, r, tables[r])
  }

  lemma NeighbourExact(g: Topology, k: nat, tables: Tables, a: Ip)
    requires Complete(g, tables) && AllConverged(g, k, tables) && a in g.owner
    ensures g.owner[a] in tables
    ensures TableExact(g, k, g.owner[a], tables[g.owner[a]]) && Reaches(g, k, g.owner[a], tables[g.owner[a]])
  {
  }

  lemma MidwayRoute(g: Topology, k: nat, r: Router, t: seq<RoutingEntry>, heard: set<(Ip, Ip)>, e: RoutingEntry)
    requires Midway(g, k, r, t, heard) && e in t && e.status == Stable
    ensures Adjacent(g, r, e.nexthop) && e.nexthop in g.owner && e.distance - 1 <= Min(k, FARTHEST)
    ensures Hops(g, r, e.dest, e.distance) && Hops(g, g.owner[e.nexthop], e.dest, e.distance - 1)
    ensures (e.nexthop, e.dest) in heard ==> e.age == MAX_AGING
  {
  }

  lemma MidwayKnows(g: Topology, k: nat, r: Router, t: seq<RoutingEntry>, heard: set<(Ip, Ip)>, b: Ip, address: Ip)
    requires Midway(g, k, r, t, heard) && (b, address) in heard && b in g.owner && Adjacent(g, r, b)
    requires Hops(g, g.owner[b], address, k) && k < FARTHEST
    ensures HasRoute(t, address)
  {
  }

  /** Every usable route was refreshed by the neighbour it leads to. */
  lemma RouteIsFresh(g: Topology, arp: map<Ip, Ip>, k: nat, tables: Tables, r: Router, inbox: seq<Message>,
                     t: seq<RoutingEntry>, e: RoutingEntry)
    requires KnownPeers(g, arp) && Complete(g, tables) && Inbox(g, arp, tables, r, inbox) && AllConverged(g, k, tables)
    requires Midway(g, k, r, t, AllHeard(inbox)) && e in t && e.status == Stable
    ensures e.age == MAX_AGING
  {
    hide *;
    MidwayRoute(g, k, r, t, AllHeard(inbox), e);
    NeighbourExact(g, k, tables, e.nexthop);
    NearerIsHeard(g, arp, k, tables, r, inbox, e.nexthop, e.dest, e.distance);
  }

  /** Every address one hop further than before is now known. */
  lemma RouteIsLearned(g: Topology, arp: map<Ip, Ip>, k: nat, tables: Tables, r: Router, inbox: seq<Message>,
                       t: seq<RoutingEntry>, address: Ip)
    requires KnownPeers(g, arp) && Complete(g, tables) && Inbox(g, arp, tables, r, inbox) && AllConverged(g, k, tables)
    requires Midway(g, k, r, t, AllHeard(inbox)) && Hops(g, r, address, k + 1) && k < FARTHEST
    ensures HasRoute(t, address)
  {
    hide KnownPeers, Complete, Inbox, AllConverged, Midway, Hops, HasRoute, AllHeard, Adjacent, Reaches, TableExact;
    var b := Toward(g, r, address, k + 1);
    AdjacentOwned(g, r, b);
    NeighbourExact(g, k, tables, b);
    NearerIsHeard(g, arp, k, tables, r, inbox, b, address, k + 1);
    MidwayKnows(g, k, r, t, AllHeard(inbox), b, address);
  }

  lemma RoundEnds(g: Topology, arp: map<Ip, Ip>, k: nat, tables: Tables, r: Router, inbox: seq<Message>, t: seq<RoutingEntry>)
    requires KnownPeers(g, arp) && Complete(g, tables) && Inbox(g, arp, tables, r, inbox) && AllConverged(g, k, tables)
    requires Midway(g, k, r, t, AllHeard(inbox))
    ensures Converged(g, k + 1, r, t)
  {
    hide Hops, TableExact, Midway, AllHeard, Inbox, KnownPeers, HasRoute, AllConverged, Complete;
    MidwayTable(g, k, r, t, AllHeard(inbox));
    forall e | e in t && e.status == Stable ensures e.age == MAX_AGING {
      RouteIsFresh(g, arp, k, tables, r, inbox, t, e);
    }
    forall address, h | Hops(g, r, address, h) && h <= Min(k + 1, FARTHEST) ensures HasRoute(t, address) {
      if h == k + 1 { RouteIsLearned(g, arp, k, tables, r, inbox, t, address); }
    }
  }

  lemma InboxExact(g: Topology, arp: map<Ip, Ip>, k: nat, tables: Tables, r: Router, inbox: seq<Message>)
    requires KnownPeers(g, arp) && Complete(g, tables) && Inbox(g, arp, tables, r, inbox) && AllConverged(g, k, tables)
    ensures forall m :: m in inbox ==> MessageExact(g, k, r, m)
  {
    hide MessageExact, TableExact, Vector, Reaches;
    forall m | m in inbox ensures MessageExact(g, k, r, m) {
      AdjacentOwned(g, r, m.sender);
      assert Converged(g, k, g.owner[m.sender], tables[g.owner[m.sender]]);
      VectorExact(g, arp, k, tables, r, m.sender);
    }
  }

  /** One round takes one more hop into account, keeps what is known, and asks
      for no triggered broadcast. */
  lemma RoundConverges(g: Topology, arp: map<Ip, Ip>, k: nat, before: Tables, after: Tables)
    requires KnownPeers(g, arp) && Complete(g, before) && AllConverged(g, k, before) && Round(g, arp, before, after)
    ensures AllConverged(g, k + 1, after)
  {
    hide KnownPeers, Inbox, Converged;
    forall r | r in after ensures Converged(g, k + 1, r, after[r]) {
      var inbox :| Inbox(g, arp, before, r, inbox) && after[r] == Absorb(Aging(before[r]), inbox);
      QuietRound(g, arp, k, before, r, inbox);
    }
  }

  lemma QuietRound(g: Topology, arp: map<Ip, Ip>, k: nat, before: Tables, r: Router, inbox: seq<Message>)
    requires KnownPeers(g, arp) && Complete(g, before) && AllConverged(g, k, before)
    requires r in before && Inbox(g, arp, before, r, inbox)
    ensures Converged(g, k + 1, r, Absorb(Aging(before[r]), inbox))
    ensures !Triggers(Aging(before[r]), inbox)
  {
    assert Converged(g, k, r, before[r]);
    hide KnownPeers, Inbox, Converged, MessageExact, Midway, Complete;
    AgingMidway(g, k, r, before[r]);
    InboxExact(g, arp, k, before, r, inbox);
    InboxMidway(g, k, r, Aging(before[r]), inbox);
    RoundEnds(g, arp, k, before, r, inbox, Absorb(Aging(before[r]), inbox));
  }

  // ----- every execution -----

  ghost predicate Rounds(g: Topology, arp: map<Ip, Ip>, states: seq<Tables>) {
    && KnownPeers(g, arp) && states != [] && (forall i :: 0 <= i < |states| ==> Complete(g, states[i]))
    && (forall r :: r in states[0] ==> IsInitial(g, r, states[0][r]))
    && forall i :: 0 <= i < |states| - 1 ==> Round(g, arp, states[i], states[i + 1])
  }

  lemma InitialConverged(g: Topology, r: Router, t: seq<RoutingEntry>)
    requires IsInitial(g, r, t)
    ensures Converged(g, 0, r, t)
  {
    InitialSound(g, r, t);
    var locals :| t == Initial(locals)
                  && (forall i, j :: 0 <= i < j < |locals| ==> locals[i] != locals[j])
                  && (forall a :: a in locals <==> a in g.owner && g.owner[a] == r);
    forall address, h | Hops(g, r, address, h) && h <= 0 ensures HasRoute(t, address) {
      HopsUnique(g, r, address, h, h);
      assert address in locals;
      var i :| 0 <= i < |locals| && locals[i] == address;
      assert t[i] in t && HasKey(t[i], address, EXACT);
    }
  }

  lemma {:induction false} ConvergedAfter(g: Topology, arp: map<Ip, Ip>, states: seq<Tables>, k: nat)
    requires Rounds(g, arp, states) && k < |states|
    ensures AllConverged(g, k, states[k])
    decreases k
  {
    hide Converged, Round, KnownPeers, IsInitial, Complete;
    if k == 0 {
      forall r | r in states[0] ensures Converged(g, 0, r, states[0][r]) { InitialConverged(g, r, states[0][r]); }
    } else {
      ConvergedAfter(g, arp, states, k - 1);
      RoundConverges(g, arp, k - 1, states[k - 1], states[k]);
    }
  }

  /** After `k` loss-free rounds from the initial tables, a router has a route to
      an address exactly when the address is at most `k` and at most 15 hops
      away; the route has the exact hop distance and leads to a neighbour one
      hop nearer.  So routes to everything within 15 hops are there after 15
      rounds, and later rounds keep them. */
  lemma Convergence(g: Topology, arp: map<Ip, Ip>, states: seq<Tables>, k: nat, r: Router, address: Ip)
    requires Rounds(g, arp, states) && k < |states| && r in states[k]
    ensures HasRoute(states[k][r], address) <==> exists h :: Hops(g, r, address, h) && h <= Min(k, FARTHEST)
    ensures forall e :: e in states[k][r] ==>
              && e.mask == EXACT && Hops(g, r, e.dest, e.distance) && e.status != Garbage
              && (e.status == Stable ==>
                    e.nexthop in g.owner && Adjacent(g, r, e.nexthop) && Hops(g, g.owner[e.nexthop], e.dest, e.distance - 1))
  {
    ConvergedAfter(g, arp, states, k);
    var t := states[k][r];
    assert Converged(g, k, r, t);
    hide *;
    ConvergedReaches(g, k, r, t, address);
    forall e | e in t
      ensures e.mask == EXACT && Hops(g, r, e.dest, e.distance) && e.status != Garbage
      ensures e.status == Stable ==>
                e.nexthop in g.owner && Adjacent(g, r, e.nexthop) && Hops(g, g.owner[e.nexthop], e.dest, e.distance - 1)
    { ConvergedEntry(g, k, r, t, e); }
  }

  lemma ConvergedEntry(g: Topology, k: nat, r: Router, t: seq<RoutingEntry>, e: RoutingEntry)
    requires Converged(g, k, r, t) && e in t
    ensures e.mask == EXACT && e.status != Garbage && Hops(g, r, e.dest, e.distance) && e.distance <= Min(k, FARTHEST)
    ensures e.status == Stable ==>
              e.nexthop in g.owner && Adjacent(g, r, e.nexthop) && Hops(g, g.owner[e.nexthop], e.dest, e.distance - 1)
  {
  }

  lemma ConvergedReaches(g: Topology, k: nat, r: Router, t: seq<RoutingEntry>, address: Ip)
    requires Converged(g, k, r, t)
    ensures HasRoute(t, address) <==> exists h :: Hops(g, r, address, h) && h <= Min(k, FARTHEST)
  {
    hide Hops, TableExact;
    if HasRoute(t, address) {
      var e :| e in t && HasKey(e, address, EXACT);
      hide Converged, Reaches;
      ConvergedEntry(g, k, r, t, e);
    }
  }

  lemma ConvergedExact(g: Topology, k: nat, r: Router, t: seq<RoutingEntry>)
    requires Converged(g, k, r, t)
    ensures TableExact(g, k, r, t) && Reaches(g, k, r, t)
  {
  }

  /** And no round ever asks for a triggered broadcast. */
  lemma RoundsAreQuiet(g: Topology, arp: map<Ip, Ip>, states: seq<Tables>, k: nat, r: Router, inbox: seq<Message>)
    requires Rounds(g, arp, states) && k < |states| && r in states[k] && Inbox(g, arp, states[k], r, inbox)
    ensures !Triggers(Aging(states[k][r]), inbox)
  {
    ConvergedAfter(g, arp, states, k);
    hide Round, Inbox, AllConverged, IsInitial;
    QuietRound(g, arp, k, states[k], r, inbox);
  }
}
