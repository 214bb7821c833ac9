/**
 Loss-free rounds from any tables whatever: src/network/routing.cc:25-72.

 The tables may hold stale, contradictory or invented routes, as after a change of
 the topology or the failure of a router; only the routers' own addresses are right.
 */
module DistanceVectorStability {
  import opened Machine
  import opened RoutingTables
  import opened RoutingInvariant
  import opened RoutingSlots
  import opened DistanceVectors
  import opened C = DistanceVectorConvergence

  // ----- executions -----

  /** The tables before each round. */
  type Execution = nat -> Tables

  /** The router's own addresses, and nothing else, are in its table for good. */
  ghost predicate Plausible(g: Topology, r: Router, t: seq<RoutingEntry>) {
    && TableOk(t)
    && forall e :: e in Locals(t) <==> e == NewEntry(e.dest, EXACT, NONE, 0, Persist) && e.dest in g.owner && g.owner[e.dest] == r
  }

  ghost function Owners(g: Topology): set<Router> {
    g.owner.Values
  }

  ghost predicate RoundAt(g: Topology, arp: map<Ip, Ip>, states: Execution, n: nat)
    requires KnownPeers(g, arp)
  {
    Complete(g, states(n)) && Round(g, arp, states(n), states(n + 1))
  }

  /** Rounds without end. */
  ghost predicate Forever(g: Topology, arp: map<Ip, Ip>, states: Execution) {
    KnownPeers(g, arp) && forall n: nat :: RoundAt(g, arp, states, n)
  }

  /** An execution, watched at one key. */
  datatype Watch = Watch(g: Topology, arp: map<Ip, Ip>, states: Execution, dest: Ip, mask: Ip)

  ghost predicate Running(w: Watch) {
    && Forever(w.g, w.arp, w.states)
    && forall r :: r in Owners(w.g) ==> r in w.states(0) && Plausible(w.g, r, w.states(0)[r])
  }

  ghost function At(w: Watch, n: nat, r: Router): Slot {
    if r in w.states(n) then SlotOf(w.states(n)[r], w.dest, w.mask) else None
  }

  /** The distance a router learns from what device `a` says in round `n`. */
  ghost function Says(w: Watch, n: nat, a: Ip): Option<int> {
    if a in w.g.owner && a in w.arp then
      match At(w, n, w.g.owner[a])
      case None => None
      case Some(e) => Some(WireDistance(Advertise(e, w.arp[a]).distance))
    else None
  }

  ghost function HearOne(w: Watch, n: nat, s: Slot, a: Ip): Slot {
    match Says(w, n, a)
    case None => s
    case Some(d) => Hear(s, w.dest, w.mask, a, d)
  }

  ghost function HearAll(w: Watch, n: nat, s: Slot, senders: seq<Ip>): Slot
    decreases |senders|
  {
    if senders == [] then s
    else HearOne(w, n, HearAll(w, n, s, senders[..|senders| - 1]), senders[|senders| - 1])
  }

  // ----- tables stay plausible -----

  lemma {:induction false} AbsorbKeeps(g: Topology, r: Router, t: seq<RoutingEntry>, inbox: seq<Message>)
    requires Plausible(g, r, t) && forall m :: m in inbox ==> m.sender != NONE && Sane(m.vector)
    ensures Plausible(g, r, Absorb(t, inbox))
    decreases |inbox|
  {
    hide Update, TableOk, Sane;
    if inbox != [] {
      var k := |inbox| - 1;
      AbsorbKeeps(g, r, t, inbox[..k]);
      assert inbox[k] in inbox;
      UpdateKeeps(Absorb(t, inbox[..k]), inbox[k].sender, inbox[k].vector);
    }
  }

  /** What a router does in one round. */
  lemma RoundInbox(w: Watch, n: nat, r: Router) returns (inbox: seq<Message>)
    requires Forever(w.g, w.arp, w.states) && r in Owners(w.g)
    ensures r in w.states(n) && r in w.states(n + 1) && Complete(w.g, w.states(n))
    ensures Inbox(w.g, w.arp, w.states(n), r, inbox)
    ensures w.states(n + 1)[r] == Absorb(Aging(w.states(n)[r]), inbox)
  {
    assert RoundAt(w.g, w.arp, w.states, n);
    assert Round(w.g, w.arp, w.states(n), w.states(n + 1));
    var a :| a in w.g.owner && w.g.owner[a] == r;
    hide Inbox;
    inbox :| Inbox(w.g, w.arp, w.states(n), r, inbox) && w.states(n + 1)[r] == Absorb(Aging(w.states(n)[r]), inbox);
  }

  ghost predicate AllPlausible(w: Watch, n: nat) {
    forall r :: r in Owners(w.g) ==> r in w.states(n) && Plausible(w.g, r, w.states(n)[r])
  }

  lemma MessageFine(w: Watch, n: nat, r: Router, inbox: seq<Message>, m: Message)
    requires KnownPeers(w.g, w.arp) && Complete(w.g, w.states(n)) && AllPlausible(w, n)
    requires Inbox(w.g, w.arp, w.states(n), r, inbox) && m in inbox
    ensures m.sender in w.g.owner && m.sender in w.arp && m.sender != NONE && Adjacent(w.g, r, m.sender)
    ensures m == C.Vector(w.g, w.arp, w.states(n), m.sender) && Sane(m.vector)
    ensures TableOk(w.states(n)[w.g.owner[m.sender]])
  {
    AdjacentOwned(w.g, r, m.sender);
    hide Adjacent, Sane, TableOk;
    assert w.g.owner[m.sender] in Owners(w.g);
    assert Plausible(w.g, w.g.owner[m.sender], w.states(n)[w.g.owner[m.sender]]);
    SerializeSane(w.states(n)[w.g.owner[m.sender]], w.arp[m.sender]);
  }

  lemma NextPlausible(w: Watch, n: nat, r: Router)
    requires Forever(w.g, w.arp, w.states) && AllPlausible(w, n) && r in Owners(w.g)
    ensures r in w.states(n + 1) && Plausible(w.g, r, w.states(n + 1)[r])
  {
    var inbox := RoundInbox(w, n, r);
    hide Forever, Plausible, Inbox, Adjacent, Sane;
    forall m | m in inbox ensures m.sender != NONE && Sane(m.vector) { MessageFine(w, n, r, inbox, m); }
    AgingPlausible(w.g, r, w.states(n)[r]);
    AbsorbKeeps(w.g, r, Aging(w.states(n)[r]), inbox);
  }

  lemma {:induction false} StaysPlausible(w: Watch, n: nat)
    requires Running(w)
    ensures AllPlausible(w, n)
    decreases n
  {
    hide Forever, Plausible;
    if n > 0 {
      StaysPlausible(w, n - 1);
      forall r | r in Owners(w.g) ensures r in w.states(n) && Plausible(w.g, r, w.states(n)[r]) {
        NextPlausible(w, n - 1, r);
      }
    }
  }

  lemma AgingPlausible(g: Topology, r: Router, t: seq<RoutingEntry>)
    requires Plausible(g, r, t)
    ensures Plausible(g, r, Aging(t))
  {
    AgingKeeps(t);
    hide TableOk;
  }

  // ----- a round, as one slot sees it -----

  function Senders(inbox: seq<Message>): seq<Ip> {
    seq(|inbox|, i requires 0 <= i < |inbox| => inbox[i].sender)
  }

  lemma {:induction false} AbsorbSlot(w: Watch, n: nat, r: Router, t: seq<RoutingEntry>, inbox: seq<Message>)
    requires forall m :: m in inbox ==> m.sender in w.g.owner && m.sender in w.arp && w.g.owner[m.sender] in w.states(n)
                                        && m == C.Vector(w.g, w.arp, w.states(n), m.sender)
                                        && UniqueKeys(w.states(n)[w.g.owner[m.sender]])
    ensures SlotOf(Absorb(t, inbox), w.dest, w.mask) == HearAll(w, n, SlotOf(t, w.dest, w.mask), Senders(inbox))
    decreases |inbox|
  {
    hide Update, SlotOf, Hear, UniqueKeys, WireDistance, Advertise;
    if inbox != [] {
      var k := |inbox| - 1;
      var m := inbox[k];
      assert m in inbox;
      AbsorbSlot(w, n, r, t, inbox[..k]);
      assert Senders(inbox)[..k] == Senders(inbox[..k]) && Senders(inbox)[k] == m.sender;
      var before := Absorb(t, inbox[..k]);
      UpdateSlot(before, m.sender, m.vector, w.dest, w.mask);
      SerializedSlot(SlotOf(before, w.dest, w.mask), w.dest, w.mask, m.sender, w.states(n)[w.g.owner[m.sender]],
                     w.arp[m.sender]);
    }
  }

  /** In a round a slot ages and then hears every neighbour, in some order and
      perhaps repeatedly. */
  lemma RoundHears(w: Watch, n: nat, r: Router) returns (senders: seq<Ip>)
    requires Running(w) && r in Owners(w.g)
    ensures At(w, n + 1, r) == HearAll(w, n, TickSlot(At(w, n, r)), senders)
    ensures forall a :: a in senders <==> Adjacent(w.g, r, a)
    ensures forall a :: a in senders ==> a in w.g.owner && a != NONE && w.g.owner[a] in Owners(w.g)
  {
    StaysPlausible(w, n);
    var inbox := RoundInbox(w, n, r);
    senders := Senders(inbox);
    hide Adjacent, Sane;
    forall m | m in inbox
      ensures m.sender in w.g.owner && m.sender in w.arp && m.sender != NONE && Adjacent(w.g, r, m.sender)
      ensures m == C.Vector(w.g, w.arp, w.states(n), m.sender) && TableOk(w.states(n)[w.g.owner[m.sender]])
    { MessageFine(w, n, r, inbox, m); }
    SendersAre(w, n, r, inbox);
    assert TableOk(w.states(n)[r]);
    hide Inbox, C.Vector;
    AgingSlot(w.states(n)[r], w.dest, w.mask);
    AbsorbSlot(w, n, r, Aging(w.states(n)[r]), inbox);
  }

  lemma SendersAre(w: Watch, n: nat, r: Router, inbox: seq<Message>)
    requires KnownPeers(w.g, w.arp) && Complete(w.g, w.states(n)) && Inbox(w.g, w.arp, w.states(n), r, inbox)
    ensures forall a :: a in Senders(inbox) <==> Adjacent(w.g, r, a)
  {
    hide Adjacent;
    forall a | Adjacent(w.g, r, a) ensures a in Senders(inbox) {
      AdjacentOwned(w.g, r, a);
      var m := C.Vector(w.g, w.arp, w.states(n), a);
      var i :| 0 <= i < |inbox| && inbox[i] == m;
      assert Senders(inbox)[i] == a;
    }
    forall a | a in Senders(inbox) ensures Adjacent(w.g, r, a) {
      var i :| 0 <= i < |inbox| && Senders(inbox)[i] == a;
      assert inbox[i] in inbox;
    }
  }

  // ----- hearing -----

  predicate Used(s: Slot) {
    s.Some? && s.value.status != Garbage
  }

  predicate Low(s: Slot, v: int) {
    Used(s) && s.value.distance <= v
  }

  ghost predicate SlotOk(s: Slot) {
    s.Some? ==> EntryOk(s.value)
  }

  /** A route its own next hop vouches for in this very round. */
  ghost predicate Backed(w: Watch, n: nat, s: Slot) {
    s.Some? && s.value.status == Stable && s.value.distance <= POISON_THRESHOLD
    && Says(w, n, s.value.nexthop) == Some(s.value.distance)
  }

  /** Nothing, or what the sender can replace or revive. */
  ghost predicate Open(w: Watch, n: nat, s: Slot, b: Ip) {
    || s == None
    || (s.value.nexthop == b && (s.value.status == Garbage || (s.value.status == Stable && s.value.distance <= POISON_THRESHOLD)))
    || Backed(w, n, s)
  }

  lemma HearBacked(w: Watch, n: nat, s: Slot, a: Ip)
    requires Backed(w, n, s)
    ensures var f := HearOne(w, n, s, a);
            Backed(w, n, f) && f.value.distance <= s.value.distance
  {
    hide Says;
  }

  lemma {:induction false} AllBacked(w: Watch, n: nat, s: Slot, senders: seq<Ip>)
    requires Backed(w, n, s)
    ensures var f := HearAll(w, n, s, senders);
            Backed(w, n, f) && f.value.distance <= s.value.distance
    decreases |senders|
  {
    hide Says, Backed, HearOne;
    if senders != [] {
      AllBacked(w, n, s, senders[..|senders| - 1]);
      HearBacked(w, n, HearAll(w, n, s, senders[..|senders| - 1]), senders[|senders| - 1]);
    }
  }

  lemma HearOpen(w: Watch, n: nat, s: Slot, a: Ip, b: Ip, d: int)
    requires Open(w, n, s, b) && Says(w, n, b) == Some(d) && d <= POISON_THRESHOLD && (s == None ==> d < POISON_THRESHOLD)
    ensures var f := HearOne(w, n, s, a);
            && Open(w, n, f, b) && (f == None ==> s == None)
            && (a == b || (Low(s, d) && Backed(w, n, s)) ==> Backed(w, n, f) && Low(f, d))
  {
    hide HearOne, Hear, Low, Open, Backed;
    if a == b { HearTaken(w, n, s, b, d); } else { HearOther(w, n, s, a, b, d); }
  }

  lemma HearTaken(w: Watch, n: nat, s: Slot, b: Ip, d: int)
    requires Open(w, n, s, b) && Says(w, n, b) == Some(d) && d <= POISON_THRESHOLD && (s == None ==> d < POISON_THRESHOLD)
    ensures var f := HearOne(w, n, s, b);
            Backed(w, n, f) && Low(f, d) && Open(w, n, f, b) && f != None
  {
    hide Says;
  }

  lemma HearOther(w: Watch, n: nat, s: Slot, a: Ip, b: Ip, d: int)
    requires Open(w, n, s, b) && a != b
    ensures var f := HearOne(w, n, s, a);
            && Open(w, n, f, b) && (f == None ==> s == None)
            && (Low(s, d) && Backed(w, n, s) ==> Backed(w, n, f) && Low(f, d))
  {
    hide Says;
  }

  /** Whatever else is heard, a slot open to `b` ends with a route at least as good
      as the one `b` offers. */
  lemma {:induction false} TakesLine(w: Watch, n: nat, s: Slot, senders: seq<Ip>, b: Ip, d: int)
    requires Open(w, n, s, b) && Says(w, n, b) == Some(d) && d <= POISON_THRESHOLD && (s == None ==> d < POISON_THRESHOLD)
    ensures var f := HearAll(w, n, s, senders);
            && Open(w, n, f, b) && (f == None ==> s == None)
            && (b in senders ==> Backed(w, n, f) && Low(f, d))
    decreases |senders|
  {
    hide Says, Backed, HearOne, Open, Low;
    if senders != [] {
      var k := |senders| - 1;
      TakesLine(w, n, s, senders[..k], b, d);
      assert senders == senders[..k] + [senders[k]];
      HearOpen(w, n, HearAll(w, n, s, senders[..k]), senders[k], b, d);
    }
  }

  /** The route through `b` at distance `d` or below, or a better one. */
  ghost predicate Held(w: Watch, n: nat, s: Slot, b: Ip, d: int) {
    && s.Some? && s.value.status != Persist
    && ((s.value.nexthop == b && (s.value.status == Stable ==> s.value.distance <= d))
        || (Backed(w, n, s) && s.value.distance < d))
  }

  lemma {:induction false} StaysHeld(w: Watch, n: nat, s: Slot, senders: seq<Ip>, b: Ip, d: int)
    requires Held(w, n, s, b, d) && Says(w, n, b) == Some(d) && d <= POISON_THRESHOLD
    ensures Held(w, n, HearAll(w, n, s, senders), b, d)
    decreases |senders|
  {
    hide Says;
    if senders != [] {
      StaysHeld(w, n, s, senders[..|senders| - 1], b, d);
      HearHeld(w, n, HearAll(w, n, s, senders[..|senders| - 1]), senders[|senders| - 1], b, d);
    }
  }

  lemma HearHeld(w: Watch, n: nat, s: Slot, a: Ip, b: Ip, d: int)
    requires Held(w, n, s, b, d) && Says(w, n, b) == Some(d) && d <= POISON_THRESHOLD
    ensures Held(w, n, HearOne(w, n, s, a), b, d)
  {
    hide Says;
  }

  /** A route after a round was heard in it from its next hop, or was there before. */
  ghost predicate HeardOrKept(w: Watch, n: nat, s: Slot, f: Slot, senders: seq<Ip>) {
    f.Some? && f.value.status == Stable ==>
      || (Backed(w, n, f) && f.value.nexthop in senders && f.value.age == MAX_AGING)
      || f == s
  }

  lemma {:induction false} AllHeardOrKept(w: Watch, n: nat, s: Slot, senders: seq<Ip>)
    requires s.Some? && s.value.status == Stable ==> s.value.distance <= POISON_THRESHOLD
    ensures HeardOrKept(w, n, s, HearAll(w, n, s, senders), senders)
    decreases |senders|
  {
    hide Says;
    if senders != [] {
      var k := |senders| - 1;
      assert senders == senders[..k] + [senders[k]];
      AllHeardOrKept(w, n, s, senders[..k]);
      HearOrKeep(w, n, HearAll(w, n, s, senders[..k]), senders[k]);
    }
  }

  lemma HearOrKeep(w: Watch, n: nat, s: Slot, a: Ip)
    requires s.Some? && s.value.status == Stable ==> s.value.distance <= POISON_THRESHOLD
    ensures var f := HearOne(w, n, s, a);
            f.Some? && f.value.status == Stable ==>
              (Backed(w, n, f) && f.value.nexthop == a && f.value.age == MAX_AGING) || f == s
  {
    hide Says;
  }

  /** Garbage that is not revived is left as it was. */
  lemma {:induction false} GarbageWaits(w: Watch, n: nat, s: Slot, senders: seq<Ip>)
    requires s.Some? && s.value.status == Garbage
    ensures var f := HearAll(w, n, s, senders);
            Backed(w, n, f) || (f.Some? && f.value.status == Garbage && f.value.gc == s.value.gc)
    decreases |senders|
  {
    hide Says;
    if senders != [] {
      var k := |senders| - 1;
      GarbageWaits(w, n, s, senders[..k]);
      var before := HearAll(w, n, s, senders[..k]);
      if Backed(w, n, before) { HearBacked(w, n, before, senders[k]); }
      else { WaitOne(w, n, before, senders[k]); }
    }
  }

  lemma WaitOne(w: Watch, n: nat, s: Slot, a: Ip)
    requires s.Some? && s.value.status == Garbage
    ensures var f := HearOne(w, n, s, a);
            Backed(w, n, f) || (f.Some? && f.value.status == Garbage && f.value.gc == s.value.gc)
  {
    hide Says;
  }

  // ----- slots of a running network -----

  lemma AtFacts(w: Watch, n: nat, r: Router)
    requires Running(w) && r in Owners(w.g)
    ensures r in w.states(n) && TableOk(w.states(n)[r]) && SlotOk(At(w, n, r))
    ensures At(w, n, r).Some? ==> HasKey(At(w, n, r).value, w.dest, w.mask) && At(w, n, r).value in w.states(n)[r]
    ensures At(w, n, r).Some? && At(w, n, r).value.status == Persist <==> Own(w, r)
  {
    StaysPlausible(w, n);
    var t := w.states(n)[r];
    assert Plausible(w.g, r, t);
    var own := NewEntry(w.dest, EXACT, NONE, 0, Persist);
    if Own(w, r) {
      assert own in Locals(t);
      SlotIs(t, w.dest, w.mask, own);
    }
    if At(w, n, r).Some? {
      var e := At(w, n, r).value;
      SlotIs(t, w.dest, w.mask, e);
      assert EntryOk(e);
      if e.status == Persist { assert e in Locals(t); }
    }
    hide TableOk, EntryOk;
  }

  ghost predicate Own(w: Watch, r: Router) {
    w.mask == EXACT && w.dest in w.g.owner && w.g.owner[w.dest] == r
  }

  /** What a router says, it has; a poisoned line or garbage offers no route. */
  lemma SaysIs(w: Watch, n: nat, a: Ip, d: int)
    requires Running(w) && a in w.g.owner && a in w.arp && w.arp[a] in w.g.owner && d <= POISON_THRESHOLD
    ensures var s := At(w, n, w.g.owner[a]);
            Says(w, n, a) == Some(d) <==> Used(s) && s.value.distance == d - 1 && s.value.nexthop != w.arp[a]
  {
    hide Running, At, TableOk, Says, Advertise, WireDistance;
    assert w.g.owner[a] in Owners(w.g);
    AtFacts(w, n, w.g.owner[a]);
    SaysAdvertised(w, n, a);
    var s := At(w, n, w.g.owner[a]);
    if s.Some? { AdvertisedDistance(s.value, w.arp[a]); }
  }

  lemma SaysAdvertised(w: Watch, n: nat, a: Ip)
    requires a in w.g.owner && a in w.arp
    ensures var s := At(w, n, w.g.owner[a]);
            Says(w, n, a) == match s case None => None case Some(e) => Some(WireDistance(Advertise(e, w.arp[a]).distance))
  {
    hide At;
  }

  lemma AdvertisedDistance(e: RoutingEntry, peer: Ip)
    requires EntryOk(e)
    ensures WireDistance(Advertise(e, peer).distance)
            == (if e.nexthop == peer then POISON_THRESHOLD + 1 else e.distance) + 1
    ensures e.status == Garbage ==> e.distance == POISON_THRESHOLD + 1
    ensures e.status == Persist ==> e.distance == 0
    ensures e.status == Stable ==> 1 <= e.distance <= POISON_THRESHOLD && 1 <= e.age <= MAX_AGING
  {
  }

  // ----- layers that no longer change -----

  ghost predicate SameRoute(s: Slot, f: Slot) {
    Used(s) && Used(f) && f.value.status == s.value.status && f.value.nexthop == s.value.nexthop
    && f.value.distance == s.value.distance
  }

  /** From round `t` on the router's route of at most distance `v`, or that it has
      none, stays as it is. */
  ghost predicate RouterFrozen(w: Watch, v: int, t: nat, r: Router) {
    forall n: nat :: n >= t ==>
      (Low(At(w, n, r), v) <==> Low(At(w, t, r), v)) && (Low(At(w, n, r), v) ==> SameRoute(At(w, t, r), At(w, n, r)))
  }

  ghost predicate Frozen(w: Watch, v: int, t: nat) {
    forall r :: r in Owners(w.g) ==> RouterFrozen(w, v, t, r)
  }

  lemma FrozenLater(w: Watch, v: int, t: nat, u: nat, r: Router)
    requires RouterFrozen(w, v, t, r) && t <= u
    ensures RouterFrozen(w, v, u, r)
  {
    hide Low, At;
  }

  /** What is said of a route that no longer changes no longer changes. */
  lemma SaysConstant(w: Watch, v: int, t: nat, m: nat, n: nat, a: Ip)
    requires Running(w) && Frozen(w, v, t) && t <= m && t <= n && v < POISON_THRESHOLD + 1
    requires a in w.g.owner && a in w.arp && w.arp[a] in w.g.owner
    requires Says(w, m, a).Some? && Says(w, m, a).value <= Min(v + 1, POISON_THRESHOLD)
    ensures Says(w, n, a) == Says(w, m, a)
  {
    hide Running, Says, At;
    var d := Says(w, m, a).value;
    var r := w.g.owner[a];
    assert r in Owners(w.g) && RouterFrozen(w, v, t, r);
    SaysIs(w, m, a, d);
    SaysIs(w, n, a, d);
    assert Low(At(w, m, r), v) && SameRoute(At(w, t, r), At(w, m, r));
    assert Low(At(w, n, r), v) && SameRoute(At(w, t, r), At(w, n, r));
  }

  lemma Neighbour(w: Watch, r: Router, a: Ip)
    requires Running(w) && Adjacent(w.g, r, a)
    ensures a in w.g.owner && a in w.arp && w.arp[a] in w.g.owner && a != NONE && w.g.owner[a] in Owners(w.g)
    ensures Linked(w.g, a, w.arp[a])
  {
    AdjacentOwned(w.g, r, a);
  }

  // ----- where a route comes from -----

  /** A route is old, or its next hop offered it since round `t`. */
  ghost predicate Sourced(w: Watch, t: nat, n: nat, r: Router, s: Slot) {
    s.Some? && s.value.status == Stable ==>
      || s.value.age <= MAX_AGING - (n - t)
      || (Adjacent(w.g, r, s.value.nexthop)
          && exists m: nat :: t <= m < n && Says(w, m, s.value.nexthop) == Some(s.value.distance))
  }

  lemma TickFacts(s: Slot)
    requires SlotOk(s)
    ensures var f := TickSlot(s);
            && SlotOk(f)
            && (f.Some? && f.value.status == Stable ==>
                  s.Some? && s.value.status == Stable && f == Some(s.value.(age := s.value.age - 1)))
            && (s.Some? && s.value.status == Stable ==>
                  f.Some? && f.value.nexthop == s.value.nexthop
                  && (if s.value.age >= 2 then f == Some(s.value.(age := s.value.age - 1)) else f.value.status == Garbage))
  {
  }

  lemma StillSourced(w: Watch, t: nat, n: nat, r: Router, s: Slot, f: Slot, senders: seq<Ip>)
    requires t <= n && Sourced(w, t, n, r, s) && SlotOk(s)
    requires HeardOrKept(w, n, TickSlot(s), f, senders) && forall a :: a in senders ==> Adjacent(w.g, r, a)
    ensures Sourced(w, t, n + 1, r, f)
  {
    TickFacts(s);
    hide Says, Adjacent, EntryOk, TickSlot;
    if f.Some? && f.value.status == Stable && f != TickSlot(s) {
      assert Says(w, n, f.value.nexthop) == Some(f.value.distance);
    } else if f.Some? && f.value.status == Stable && s.value.age > MAX_AGING - (n - t) {
      var m: nat :| t <= m < n && Says(w, m, s.value.nexthop) == Some(s.value.distance);
      assert Says(w, m, f.value.nexthop) == Some(f.value.distance);
    }
  }

  lemma {:induction false} EverySourced(w: Watch, t: nat, n: nat, r: Router)
    requires Running(w) && r in Owners(w.g) && t <= n
    ensures Sourced(w, t, n, r, At(w, n, r))
    decreases n
  {
    hide Running, At, Says, Adjacent, TableOk, HeardOrKept, HearAll;
    if t < n {
      EverySourced(w, t, n - 1, r);
      var senders := RoundHears(w, n - 1, r);
      AtFacts(w, n - 1, r);
      TickFacts(At(w, n - 1, r));
      hide Sourced;
      AllHeardOrKept(w, n - 1, TickSlot(At(w, n - 1, r)), senders);
      StillSourced(w, t, n - 1, r, At(w, n - 1, r), At(w, n, r), senders);
    } else {
      AtFacts(w, n, r);
    }
  }

  /** So after six rounds every route in use was offered in one of them. */
  lemma RecentlySaid(w: Watch, t: nat, n: nat, r: Router) returns (m: nat)
    requires Running(w) && r in Owners(w.g) && t + MAX_AGING <= n
    requires At(w, n, r).Some? && At(w, n, r).value.status == Stable
    ensures var e := At(w, n, r).value;
            t <= m < n && Adjacent(w.g, r, e.nexthop) && Says(w, m, e.nexthop) == Some(e.distance)
            && 1 <= e.distance <= POISON_THRESHOLD
  {
    EverySourced(w, t, n, r);
    AtFacts(w, n, r);
    hide Running, At, Says, Adjacent;
    m :| t <= m < n && Says(w, m, At(w, n, r).value.nexthop) == Some(At(w, n, r).value.distance);
  }

  // ----- one layer more -----

  /** The next hop of a route one beyond the frozen layers goes on offering it. */
  lemma StillOffered(w: Watch, v: int, t: nat, n: nat, r: Router)
    requires Running(w) && Frozen(w, v, t) && 0 <= v <= POISON_THRESHOLD && r in Owners(w.g) && t + MAX_AGING <= n
    requires At(w, n, r).Some? && At(w, n, r).value.status == Stable && At(w, n, r).value.distance <= v + 1
    ensures var e := At(w, n, r).value;
            && Adjacent(w.g, r, e.nexthop) && 1 <= e.distance <= POISON_THRESHOLD
            && forall k: nat :: k >= t ==> Says(w, k, e.nexthop) == Some(e.distance)
  {
    hide Running, At, Says, Adjacent, Frozen;
    var e := At(w, n, r).value;
    var m := RecentlySaid(w, t, n, r);
    Neighbour(w, r, e.nexthop);
    forall k: nat | k >= t ensures Says(w, k, e.nexthop) == Some(e.distance) {
      SaysConstant(w, v, t, m, k, e.nexthop);
    }
  }

  lemma NeverLow(w: Watch, v: int, t: nat, n: nat, r: Router)
    requires Frozen(w, v, t) && r in Owners(w.g) && t <= n && !Low(At(w, t, r), v)
    ensures !Low(At(w, n, r), v)
  {
    assert RouterFrozen(w, v, t, r);
    hide At;
  }

  /** A route one beyond the frozen layers, once there, stays. */
  lemma LayerStays(w: Watch, v: int, t: nat, n: nat, r: Router)
    requires Running(w) && Frozen(w, v, t) && 0 <= v < POISON_THRESHOLD && r in Owners(w.g) && t + MAX_AGING <= n
    requires !Low(At(w, t, r), v) && Low(At(w, n, r), v + 1)
    ensures SameRoute(At(w, n, r), At(w, n + 1, r))
  {
    hide Running, At, Says, TableOk, HearAll, Adjacent, Frozen, TickSlot;
    AtFacts(w, n, r);
    NeverLow(w, v, t, n, r);
    NeverLow(w, v, t, n + 1, r);
    var e := At(w, n, r).value;
    assert e.status == Stable && e.distance == v + 1;
    StillOffered(w, v, t, n, r);
    var senders := RoundHears(w, n, r);
    hide SlotOk;
    Refreshed(w, n, At(w, n, r), senders, e.nexthop);
  }

  /** A route its next hop offers again survives the round or gives way to a shorter one. */
  lemma Refreshed(w: Watch, n: nat, s: Slot, senders: seq<Ip>, b: Ip)
    requires SlotOk(s) && s.Some? && s.value.status == Stable && s.value.nexthop == b && b in senders
    requires Says(w, n, b) == Some(s.value.distance)
    ensures var f := HearAll(w, n, TickSlot(s), senders);
            && Backed(w, n, f) && f.value.distance <= s.value.distance
            && (f.value.distance == s.value.distance ==> f.value.nexthop == b)
  {
    TickFacts(s);
    hide Says, TickSlot, HearAll;
    TakesLine(w, n, TickSlot(s), senders, b, s.value.distance);
    StaysHeld(w, n, TickSlot(s), senders, b, s.value.distance);
  }

  lemma {:induction false} LayerStaysOn(w: Watch, v: int, t: nat, u: nat, n: nat, r: Router)
    requires Running(w) && Frozen(w, v, t) && 0 <= v < POISON_THRESHOLD && r in Owners(w.g) && t + MAX_AGING <= u <= n
    requires !Low(At(w, t, r), v) && Low(At(w, u, r), v + 1)
    ensures SameRoute(At(w, u, r), At(w, n, r))
    decreases n
  {
    hide Running, At, Frozen, TableOk;
    if u < n {
      LayerStaysOn(w, v, t, u, n - 1, r);
      LayerStays(w, v, t, n - 1, r);
    }
  }

  lemma FrozenFrom(w: Watch, v: int, t: nat, r: Router)
    requires (forall n: nat :: n >= t ==> SameRoute(At(w, t, r), At(w, n, r)))
             || (forall n: nat :: n >= t ==> !Low(At(w, n, r), v))
    ensures RouterFrozen(w, v, t, r)
  {
    hide At;
  }

  /** Every router comes to a point from which its routes of the next layer stay. */
  lemma Settles(w: Watch, v: int, t: nat, r: Router) returns (u: nat)
    requires Running(w) && Frozen(w, v, t) && 0 <= v < POISON_THRESHOLD && r in Owners(w.g)
    ensures t <= u && RouterFrozen(w, v + 1, u, r)
  {
    hide Running, At, SameRoute;
    assert RouterFrozen(w, v, t, r);
    hide Frozen;
    if Low(At(w, t, r), v) {
      u := t;
      forall n: nat | n >= t ensures SameRoute(At(w, t, r), At(w, n, r)) { assert Low(At(w, n, r), v); }
    } else if n: nat :| n >= t + MAX_AGING && Low(At(w, n, r), v + 1) {
      u := n;
      hide Low, RouterFrozen;
      forall m: nat | m >= u ensures SameRoute(At(w, u, r), At(w, m, r)) { LayerStaysOn(w, v, t, u, m, r); }
    } else {
      u := t + MAX_AGING;
    }
    hide Low;
    FrozenFrom(w, v + 1, u, r);
  }

  /** And so do all routers together. */
  lemma {:induction false} AllSettle(w: Watch, v: int, t: nat, routers: set<Router>) returns (u: nat)
    requires Running(w) && Frozen(w, v, t) && 0 <= v < POISON_THRESHOLD && routers <= Owners(w.g)
    ensures t <= u && forall r :: r in routers ==> RouterFrozen(w, v + 1, u, r)
    decreases |routers|
  {
    hide Running, Frozen, RouterFrozen;
    if routers == {} {
      u := t;
    } else {
      var r :| r in routers;
      var u0 := AllSettle(w, v, t, routers - {r});
      var u1 := Settles(w, v, t, r);
      u := Max(u0, u1);
      forall x | x in routers ensures RouterFrozen(w, v + 1, u, x) {
        assert x == r || x in routers - {r};
        FrozenLater(w, v + 1, if x == r then u1 else u0, u, x);
      }
    }
  }

  lemma LowestFrozen(w: Watch)
    requires Running(w)
    ensures Frozen(w, 0, 0)
  {
    forall r, n: nat | r in Owners(w.g)
      ensures Low(At(w, n, r), 0) <==> Own(w, r)
      ensures Own(w, r) ==> At(w, n, r) == Some(NewEntry(w.dest, EXACT, NONE, 0, Persist))
    { OwnAt(w, n, r); }
    hide Running, At, Own;
  }

  lemma OwnAt(w: Watch, n: nat, r: Router)
    requires Running(w) && r in Owners(w.g)
    ensures Low(At(w, n, r), 0) <==> Own(w, r)
    ensures Own(w, r) ==> At(w, n, r) == Some(NewEntry(w.dest, EXACT, NONE, 0, Persist))
  {
    AtFacts(w, n, r);
    hide Running, At, TableOk;
  }

  lemma {:induction false} EventuallyFrozen(w: Watch, v: nat) returns (t: nat)
    requires Running(w) && v <= POISON_THRESHOLD
    ensures Frozen(w, v, t)
    decreases v
  {
    hide Running, RouterFrozen, Owners;
    if v == 0 {
      LowestFrozen(w);
      t := 0;
    } else {
      var u := EventuallyFrozen(w, v - 1);
      t := AllSettle(w, v - 1, u, Owners(w.g));
    }
  }

  // ----- what does not change is right -----

  lemma FrozenRoute(w: Watch, t: nat, n: nat, r: Router)
    requires Running(w) && Frozen(w, POISON_THRESHOLD, t) && t <= n && r in Owners(w.g)
    ensures Used(At(w, n, r)) <==> Used(At(w, t, r))
    ensures Used(At(w, n, r)) ==> SameRoute(At(w, t, r), At(w, n, r))
  {
    AtFacts(w, n, r);
    AtFacts(w, t, r);
    assert RouterFrozen(w, POISON_THRESHOLD, t, r);
    hide Running, At, TableOk;
  }

  /** A learned route leads to a neighbour whose own route is one hop shorter and does
      not lead back. */
  lemma NextHop(w: Watch, t: nat, n: nat, r: Router)
    requires Running(w) && Frozen(w, POISON_THRESHOLD, t) && t + MAX_AGING <= n && r in Owners(w.g)
    requires At(w, n, r).Some? && At(w, n, r).value.status == Stable
    ensures var e := At(w, n, r).value;
            var b := e.nexthop;
            && Adjacent(w.g, r, b) && b in w.g.owner && w.g.owner[b] in Owners(w.g) && b in w.arp
            && 1 <= e.distance <= POISON_THRESHOLD
            && var s := At(w, n, w.g.owner[b]);
               Used(s) && s.value.distance == e.distance - 1 && s.value.nexthop != w.arp[b]
  {
    AtFacts(w, n, r);
    hide Running, At, Adjacent, Frozen, TableOk;
    var e := At(w, n, r).value;
    assert e.distance <= POISON_THRESHOLD;
    StillOffered(w, POISON_THRESHOLD, t, n, r);
    Neighbour(w, r, e.nexthop);
    assert Says(w, n, e.nexthop) == Some(e.distance);
    SaysIs(w, n, e.nexthop, e.distance);
  }

  /** Every route in use is backed by a walk of exactly its distance. */
  lemma {:induction false} Real(w: Watch, t: nat, n: nat, r: Router)
    requires Running(w) && Frozen(w, POISON_THRESHOLD, t) && t + MAX_AGING <= n && r in Owners(w.g)
    requires Used(At(w, n, r))
    ensures w.mask == EXACT && 0 <= At(w, n, r).value.distance && Walk(w.g, r, w.dest, At(w, n, r).value.distance)
    decreases At(w, n, r).value.distance
  {
    hide Running, At, Frozen, TableOk, Adjacent, Walk, RouterFrozen;
    AtFacts(w, n, r);
    if At(w, n, r).value.status == Stable {
      NextHop(w, t, n, r);
      var b := At(w, n, r).value.nexthop;
      Real(w, t, n, w.g.owner[b]);
      WalkThrough(w.g, r, b, w.dest, At(w, n, r).value.distance);
    } else {
      OwnHops(w.g, r, w.dest);
    }
  }

  /** A neighbour one hop nearer, its route being exact, always offers it. */
  lemma NearerOffers(w: Watch, t: nat, r: Router, b: Ip, h: int)
    requires Running(w) && Frozen(w, POISON_THRESHOLD, t) && r in Owners(w.g) && w.mask == EXACT
    requires Hops(w.g, r, w.dest, h) && 0 < h <= FARTHEST && Adjacent(w.g, r, b)
    requires b in w.g.owner && Hops(w.g, w.g.owner[b], w.dest, h - 1) && Low(At(w, t, w.g.owner[b]), h - 1)
    ensures forall k: nat :: k >= t ==> Says(w, k, b) == Some(h)
  {
    Neighbour(w, r, b);
    var a, n := w.g.owner[b], t + MAX_AGING;
    hide Running, Frozen, Adjacent, At, Walk, TableOk, Says;
    FrozenRoute(w, t, n, a);
    Real(w, t, n, a);
    var s := At(w, n, a);
    assert s.value.distance == h - 1;
    assert s.value.nexthop != w.arp[b] by { NotBack(w, t, n, r, b, h); }
    forall k: nat | k >= t ensures Says(w, k, b) == Some(h) {
      FrozenRoute(w, t, k, a);
      SaysIs(w, k, b, h);
    }
  }

  lemma PeerExists(w: Watch, b: Ip)
    requires Running(w) && b in w.arp && w.arp[b] in w.g.owner
    ensures w.arp[b] != NONE
  {
  }

  /** Such a route does not lead over the segment it is offered on, so it is not
      poisoned there. */
  lemma NotBack(w: Watch, t: nat, n: nat, r: Router, b: Ip, h: int)
    requires Running(w) && Frozen(w, POISON_THRESHOLD, t) && t + MAX_AGING <= n && r in Owners(w.g)
    requires Adjacent(w.g, r, b) && b in w.g.owner && b in w.arp && w.arp[b] in w.g.owner && Linked(w.g, b, w.arp[b])
    requires Hops(w.g, r, w.dest, h) && 0 < h && Hops(w.g, w.g.owner[b], w.dest, h - 1)
    requires Used(At(w, n, w.g.owner[b])) && At(w, n, w.g.owner[b]).value.distance == h - 1
    ensures At(w, n, w.g.owner[b]).value.nexthop != w.arp[b]
  {
    hide Running, Frozen, At, TableOk, Adjacent, Walk, RouterFrozen, Linked;
    var a, x := w.g.owner[b], w.arp[b];
    assert a in Owners(w.g);
    AtFacts(w, n, a);
    PeerExists(w, b);
    if At(w, n, a).value.nexthop == x {
      NextHop(w, t, n, a);
      Real(w, t, n, w.g.owner[x]);
      var l := Shortest(w.g, w.g.owner[x], w.dest, h - 2);
      var m := NeighbourHops(w.g, a, x, w.dest, l);
      HopsUnique(w.g, a, w.dest, m, h - 1);
      PoisonMissesChosen(w.g, r, b, x, w.dest, h);
      assert false;
    }
  }

  /** A router that is offered a route in every round comes to have one. */
  lemma {:induction false} ComesToUse(w: Watch, n: nat, r: Router, b: Ip, h: int) returns (m: nat)
    requires Running(w) && r in Owners(w.g) && Adjacent(w.g, r, b) && h <= FARTHEST
    requires forall k: nat :: k >= n ==> Says(w, k, b) == Some(h)
    ensures n <= m && Used(At(w, m, r))
    decreases if At(w, n, r).Some? then At(w, n, r).value.gc else 0
  {
    hide Running, At, Adjacent, TableOk, Says;
    AtFacts(w, n, r);
    if Used(At(w, n, r)) {
      m := n;
    } else {
      WaitsOrUses(w, n, r, b, h);
      if Used(At(w, n + 1, r)) { m := n + 1; } else { m := ComesToUse(w, n + 1, r, b, h); }
    }
  }

  /** One round of waiting: either there is a route after it, or garbage that has one
      call of `Aging` less to go. */
  lemma WaitsOrUses(w: Watch, n: nat, r: Router, b: Ip, h: int)
    requires Running(w) && r in Owners(w.g) && Adjacent(w.g, r, b) && h <= FARTHEST && Says(w, n, b) == Some(h)
    requires !Used(At(w, n, r))
    ensures var s, f := At(w, n, r), At(w, n + 1, r);
            Used(f) || (s.Some? && f.Some? && f.value.gc == s.value.gc - 1 && 0 <= f.value.gc)
  {
    hide Running, At, Adjacent, TableOk, Says, HearAll;
    AtFacts(w, n, r);
    AtFacts(w, n + 1, r);
    var senders := RoundHears(w, n, r);
    var s := TickSlot(At(w, n, r));
    if s == None { TakesLine(w, n, s, senders, b, h); } else { GarbageWaits(w, n, s, senders); }
  }

  /** A route in use is never longer than one offered in every round. */
  lemma NoneLonger(w: Watch, t: nat, r: Router, b: Ip, h: int)
    requires Running(w) && Frozen(w, POISON_THRESHOLD, t) && r in Owners(w.g) && Adjacent(w.g, r, b) && 0 <= h <= FARTHEST
    requires Used(At(w, t, r)) && forall k: nat :: k >= t ==> Says(w, k, b) == Some(h)
    ensures Low(At(w, t, r), h)
  {
    hide Running, Frozen, At, Adjacent, TableOk, Says;
    var n := t + MAX_AGING;
    AtFacts(w, n, r);
    FrozenRoute(w, t, n, r);
    FrozenRoute(w, t, n + 1, r);
    FrozenRoute(w, t, n + 2, r);
    if At(w, n, r).value.status == Stable {
      NextHop(w, t, n, r);
      StillOffered(w, POISON_THRESHOLD, t, n, r);
      if At(w, n, r).value.age >= 2 {
        TakesBetter(w, n, r, b, h);
      } else {
        BecomesFresh(w, n, r);
        AtFacts(w, n + 1, r);
        TakesBetter(w, n + 1, r, b, h);
      }
    }
  }

  lemma TakesBetter(w: Watch, n: nat, r: Router, b: Ip, h: int)
    requires Running(w) && r in Owners(w.g) && Adjacent(w.g, r, b) && h <= FARTHEST && Says(w, n, b) == Some(h)
    requires var s := At(w, n, r);
             s.Some? && s.value.status == Stable && 2 <= s.value.age && Says(w, n, s.value.nexthop) == Some(s.value.distance)
    ensures Low(At(w, n + 1, r), h)
  {
    hide Running, At, Adjacent, TableOk, Says, HearAll, TickSlot, EntryOk;
    AtFacts(w, n, r);
    TickFacts(At(w, n, r));
    assert At(w, n, r).value.distance <= POISON_THRESHOLD by { StableInRange(At(w, n, r)); }
    var senders := RoundHears(w, n, r);
    TakesLine(w, n, TickSlot(At(w, n, r)), senders, b, h);
  }

  lemma StableInRange(s: Slot)
    requires SlotOk(s) && s.Some? && s.value.status == Stable
    ensures 1 <= s.value.distance <= POISON_THRESHOLD
  {
  }

  /** A route about to expire that is still there after the round is fresh. */
  lemma BecomesFresh(w: Watch, n: nat, r: Router)
    requires Running(w) && r in Owners(w.g)
    requires At(w, n, r).Some? && At(w, n, r).value.status == Stable && At(w, n, r).value.age < 2
    requires At(w, n + 1, r).Some? && At(w, n + 1, r).value.status == Stable
    ensures At(w, n + 1, r).value.age == MAX_AGING
  {
    AtFacts(w, n, r);
    hide Running, At, TableOk, Says;
    var senders := RoundHears(w, n, r);
    AllHeardOrKept(w, n, TickSlot(At(w, n, r)), senders);
  }

  lemma ZeroHops(g: Topology, r: Router, address: Ip)
    requires Hops(g, r, address, 0)
    ensures address in g.owner && g.owner[address] == r
  {
  }

  /** Every router at most 15 hops away has a route at most that long. */
  lemma {:induction false} Reached(w: Watch, t: nat, r: Router, h: int)
    requires Running(w) && Frozen(w, POISON_THRESHOLD, t) && r in Owners(w.g) && w.mask == EXACT
    requires Hops(w.g, r, w.dest, h) && 0 <= h <= FARTHEST
    ensures Low(At(w, t, r), h)
    decreases h
  {
    hide Running, Frozen, RouterFrozen, At, Walk, Adjacent, Says;
    if h == 0 {
      assert Own(w, r) by { ZeroHops(w.g, r, w.dest); }
      OwnAt(w, t, r);
    } else {
      var b := Toward(w.g, r, w.dest, h);
      Neighbour(w, r, b);
      Reached(w, t, w.g.owner[b], h - 1);
      NearerOffers(w, t, r, b, h);
      var m := ComesToUse(w, t, r, b, h);
      FrozenRoute(w, t, m, r);
      NoneLonger(w, t, r, b, h);
    }
  }

  lemma ExactlyHops(w: Watch, t: nat, n: nat, r: Router)
    requires Running(w) && Frozen(w, POISON_THRESHOLD, t) && t + MAX_AGING <= n && r in Owners(w.g)
    requires Used(At(w, n, r))
    ensures w.mask == EXACT && Hops(w.g, r, w.dest, At(w, n, r).value.distance)
  {
    AtFacts(w, n, r);
    Real(w, t, n, r);
    FrozenRoute(w, t, n, r);
    hide Running, Frozen, At, Walk, TableOk;
    var h := Shortest(w.g, r, w.dest, At(w, n, r).value.distance);
    if h <= FARTHEST { Reached(w, t, r, h); }
  }

  /** What a router uses for a destination is right, and it misses nothing. */
  ghost predicate Right(g: Topology, r: Router, t: seq<RoutingEntry>, dest: Ip, mask: Ip) {
    && (forall e :: e in t && HasKey(e, dest, mask) && e.status != Garbage ==>
          && mask == EXACT && Hops(g, r, dest, e.distance)
          && (e.status == Stable ==>
                Adjacent(g, r, e.nexthop) && e.nexthop in g.owner && Hops(g, g.owner[e.nexthop], dest, e.distance - 1)))
    && (forall h :: mask == EXACT && Hops(g, r, dest, h) && h <= FARTHEST ==>
          exists e :: e in t && HasKey(e, dest, mask) && e.status != Garbage)
  }

  /** Whatever the tables hold, in a network without loss every router eventually, and
      from then on for ever, uses for every destination a shortest route through a
      neighbour one hop nearer, if there is one of at most 15 hops, and none that does
      not exist. */
  lemma Reconverges(g: Topology, arp: map<Ip, Ip>, states: Execution, dest: Ip, mask: Ip) returns (t: nat)
    requires Forever(g, arp, states)
    requires forall r :: r in Owners(g) ==> r in states(0) && Plausible(g, r, states(0)[r])
    ensures forall n: nat, r :: n >= t && r in Owners(g) ==> r in states(n) && Right(g, r, states(n)[r], dest, mask)
  {
    var w := Watch(g, arp, states, dest, mask);
    assert Running(w);
    var u := EventuallyFrozen(w, POISON_THRESHOLD);
    t := u + MAX_AGING;
    hide Running, Forever, Frozen, Right, Plausible;
    forall n: nat, r | n >= t && r in Owners(g) ensures r in states(n) && Right(g, r, states(n)[r], dest, mask) {
      ComesRight(w, u, n, r);
    }
  }

  lemma ComesRight(w: Watch, t: nat, n: nat, r: Router)
    requires Running(w) && Frozen(w, POISON_THRESHOLD, t) && t + MAX_AGING <= n && r in Owners(w.g)
    ensures r in w.states(n) && Right(w.g, r, w.states(n)[r], w.dest, w.mask)
  {
    hide Running, Frozen, RouterFrozen, Hops, Adjacent, SlotOf, EntryOk, UniqueKeys;
    AtFacts(w, n, r);
    var table := w.states(n)[r];
    assert At(w, n, r) == SlotOf(table, w.dest, w.mask);
    forall e | e in table && HasKey(e, w.dest, w.mask) && e.status != Garbage
      ensures w.mask == EXACT && Hops(w.g, r, w.dest, e.distance)
      ensures e.status == Stable ==> Adjacent(w.g, r, e.nexthop) && e.nexthop in w.g.owner
                                     && Hops(w.g, w.g.owner[e.nexthop], w.dest, e.distance - 1)
    {
      SlotIs(table, w.dest, w.mask, e);
      EntryRight(w, t, n, r);
    }
    forall h | w.mask == EXACT && Hops(w.g, r, w.dest, h) && h <= FARTHEST
      ensures exists e :: e in table && HasKey(e, w.dest, w.mask) && e.status != Garbage
    {
      HopsUnique(w.g, r, w.dest, h, h);
      Reached(w, t, r, h);
      FrozenRoute(w, t, n, r);
    }
  }

  lemma EntryRight(w: Watch, t: nat, n: nat, r: Router)
    requires Running(w) && Frozen(w, POISON_THRESHOLD, t) && t + MAX_AGING <= n && r in Owners(w.g)
    requires Used(At(w, n, r))
    ensures var e := At(w, n, r).value;
            && w.mask == EXACT && Hops(w.g, r, w.dest, e.distance)
            && (e.status == Stable ==> Adjacent(w.g, r, e.nexthop) && e.nexthop in w.g.owner
                                       && Hops(w.g, w.g.owner[e.nexthop], w.dest, e.distance - 1))
  {
    hide Running, Frozen, RouterFrozen, At, Hops, Adjacent;
    ExactlyHops(w, t, n, r);
    var e := At(w, n, r).value;
    if e.status == Stable {
      NextHop(w, t, n, r);
      ExactlyHops(w, t, n, w.g.owner[e.nexthop]);
    }
  }

  // ----- poison reverse -----

  ghost predicate RoutesVia(s: Slot, b: Ip) {
    s.Some? && s.value.status == Stable && s.value.nexthop == b
  }

  ghost predicate InRange(s: Slot, b: Ip) {
    s.Some? ==> (s.value.status == Persist ==> s.value.nexthop != b)
                && (s.value.status == Stable ==> s.value.distance <= POISON_THRESHOLD)
  }

  lemma HearPoison(w: Watch, n: nat, s: Slot, a: Ip, b: Ip)
    requires Says(w, n, b) == Some(POISON_THRESHOLD + 2) && InRange(s, b)
    ensures a == b || !RoutesVia(s, b) ==> !RoutesVia(HearOne(w, n, s, a), b)
    ensures InRange(HearOne(w, n, s, a), b)
  {
    hide Says;
  }

  lemma {:induction false} AllHearPoison(w: Watch, n: nat, s: Slot, senders: seq<Ip>, b: Ip)
    requires Says(w, n, b) == Some(POISON_THRESHOLD + 2) && InRange(s, b)
    ensures var f := HearAll(w, n, s, senders);
            && InRange(f, b) && (b in senders || !RoutesVia(s, b) ==> !RoutesVia(f, b))
    decreases |senders|
  {
    hide Says, HearOne, RoutesVia, InRange;
    if senders != [] {
      var k := |senders| - 1;
      assert senders == senders[..k] + [senders[k]];
      AllHearPoison(w, n, s, senders[..k], b);
      HearPoison(w, n, HearAll(w, n, s, senders[..k]), senders[k], b);
    }
  }

  /** A neighbour whose own route leads back over the segment, to the peer its ARP
      table names there, is nobody's next hop on that segment after the round. */
  lemma PoisonedNeighbourUnused(w: Watch, n: nat, r: Router, b: Ip)
    requires Running(w) && r in Owners(w.g) && Adjacent(w.g, r, b)
    requires b in w.g.owner && b in w.arp && RoutesVia(At(w, n, w.g.owner[b]), w.arp[b])
    ensures !RoutesVia(At(w, n + 1, r), b)
  {
    hide Running, At, Adjacent, TableOk, Says, RouterFrozen;
    AtFacts(w, n, r);
    Neighbour(w, r, b);
    AtFacts(w, n, w.g.owner[b]);
    AdvertisedDistance(At(w, n, w.g.owner[b]).value, w.arp[b]);
    assert Says(w, n, b) == Some(POISON_THRESHOLD + 2) by { SaysAdvertised(w, n, b); }
    TickFacts(At(w, n, r));
    TickNoNeighbour(At(w, n, r), b);
    var senders := RoundHears(w, n, r);
    AllHearPoison(w, n, TickSlot(At(w, n, r)), senders, b);
  }

  lemma TickNoNeighbour(s: Slot, b: Ip)
    requires SlotOk(s) && b != NONE
    ensures InRange(TickSlot(s), b)
  {
  }

  /** Two neighbours that are each other's peer on a segment never route a destination
      through each other for two rounds running. */
  lemma MutualRoutesEnd(w: Watch, n: nat, a: Ip, b: Ip)
    requires Running(w) && Linked(w.g, a, b) && a in w.g.owner && b in w.g.owner
    requires a in w.arp && b in w.arp && w.arp[a] == b && w.arp[b] == a
    requires RoutesVia(At(w, n, w.g.owner[a]), b) && RoutesVia(At(w, n, w.g.owner[b]), a)
    ensures !RoutesVia(At(w, n + 1, w.g.owner[a]), b) && !RoutesVia(At(w, n + 1, w.g.owner[b]), a)
  {
    assert Adjacent(w.g, w.g.owner[a], b) && Adjacent(w.g, w.g.owner[b], a);
    hide Running, At, RoutesVia, Adjacent;
    PoisonedNeighbourUnused(w, n, w.g.owner[a], b);
    PoisonedNeighbourUnused(w, n, w.g.owner[b], a);
  }
}
