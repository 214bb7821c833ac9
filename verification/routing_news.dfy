/** What bad news does to a table, and what a table says to whom:
    src/network/routing_impl.cc:83-120 and 173-223. */
module RoutingNews {
  import opened Machine
  import opened RoutingTables
  import opened RoutingInvariant
  import opened RoutingLifetime
  import opened RoutingSlots

  // ----- a withdrawal -----

  /** The line says that the sender cannot reach its destination. */
  predicate Withdraws(v: DVEntry) {
    POISON_THRESHOLD <= v.distance < U32 / 2 - 1
  }

  predicate About(v: DVEntry, dest: Ip, mask: Ip) {
    v.dest == dest && v.mask == mask
  }

  /** A route given up: not used, and gone in four calls of `Aging`. */
  predicate GivenUp(e: RoutingEntry) {
    e.status == Garbage && e.gc == 4 && e.distance == 17
  }

  lemma {:induction false} HearWithdrawal(e: RoutingEntry, vector: seq<DVEntry>)
    requires e.status == Stable
    requires forall v :: v in vector && About(v, e.dest, e.mask) ==> Withdraws(v)
    ensures var s := HearVector(Some(e), e.dest, e.mask, e.nexthop, vector);
            if exists v :: v in vector && About(v, e.dest, e.mask)
            then s.Some? && GivenUp(s.value) && HasKey(s.value, e.dest, e.mask) && s.value.nexthop == e.nexthop
            else s == Some(e)
    decreases |vector|
  {
    if vector != [] {
      var n := |vector| - 1;
      var v := vector[n];
      assert vector == vector[..n] + [v];
      HearWithdrawal(e, vector[..n]);
      var before := HearVector(Some(e), e.dest, e.mask, e.nexthop, vector[..n]);
      if About(v, e.dest, e.mask) { HearLast(before.value, e, v); }
      hide Hear, WireDistance;
    }
  }

  lemma HearLast(f: RoutingEntry, e: RoutingEntry, v: DVEntry)
    requires Withdraws(v) && f.nexthop == e.nexthop && HasKey(f, e.dest, e.mask)
    requires (f == e && e.status == Stable) || GivenUp(f)
    ensures var s := Hear(Some(f), e.dest, e.mask, e.nexthop, WireDistance(v.distance));
            s.Some? && GivenUp(s.value) && HasKey(s.value, e.dest, e.mask) && s.value.nexthop == e.nexthop
  {
  }

  lemma {:induction false} WithdrawalReports(t: seq<RoutingEntry>, e: RoutingEntry, vector: seq<DVEntry>)
    requires TableOk(t) && e in t && e.status == Stable
    requires forall v :: v in vector && About(v, e.dest, e.mask) ==> Withdraws(v)
    requires exists v :: v in vector && About(v, e.dest, e.mask)
    ensures UpdateModifies(t, e.nexthop, vector)
    decreases |vector|
  {
    var n := |vector| - 1;
    assert vector == vector[..n] + [vector[n]];
    hide TableOk, InsertModifies, Update, WireDistance, Withdraws;
    if v :| v in vector[..n] && About(v, e.dest, e.mask) {
      WithdrawalReports(t, e, vector[..n]);
    } else {
      HearWithdrawal(e, vector[..n]);
      UpdateSlot(t, e.nexthop, vector[..n], e.dest, e.mask);
      assert SlotOf(t, e.dest, e.mask) == Some(e) by { OkSlot(t, e); }
      LastReports(Update(t, e.nexthop, vector[..n]), e, vector[n]);
    }
  }

  lemma OkSlot(t: seq<RoutingEntry>, e: RoutingEntry)
    requires TableOk(t) && e in t
    ensures SlotOf(t, e.dest, e.mask) == Some(e)
  {
    SlotIs(t, e.dest, e.mask, e);
  }

  lemma LastReports(t: seq<RoutingEntry>, e: RoutingEntry, v: DVEntry)
    requires SlotOf(t, e.dest, e.mask) == Some(e) && e.status == Stable && About(v, e.dest, e.mask) && Withdraws(v)
    ensures InsertModifies(t, v.dest, v.mask, e.nexthop, WireDistance(v.distance))
  {
  }

  /** When a route's own next hop says that it can no longer reach the destination,
      no address matches the route any more, every peer is told so, and a broadcast
      is asked for at once. */
  lemma WithdrawnRouteDies(t: seq<RoutingEntry>, e: RoutingEntry, vector: seq<DVEntry>, peer: Ip)
    requires TableOk(t) && e in t && e.status == Stable
    requires forall v :: v in vector && About(v, e.dest, e.mask) ==> Withdraws(v)
    requires exists v :: v in vector && About(v, e.dest, e.mask)
    ensures var after := Update(t, e.nexthop, vector);
            && Unused(after, e.dest, e.mask)
            && (exists i :: 0 <= i < |after| && HasKey(after[i], e.dest, e.mask) && GivenUp(after[i])
                            && Serialize(after, peer)[i] == DVEntry(e.dest, e.mask, 17))
    ensures UpdateModifies(t, e.nexthop, vector)
  {
    var after := Update(t, e.nexthop, vector);
    HearWithdrawal(e, vector);
    UpdateSlot(t, e.nexthop, vector, e.dest, e.mask);
    SlotIs(t, e.dest, e.mask, e);
    UniqueUpdate(t, e.nexthop, vector);
    WithdrawalReports(t, e, vector);
    hide Update, UpdateModifies, HearVector, TableOk, UniqueKeys;
    var i := Find(after, e.dest, e.mask);
    assert GivenUp(after[i]) && Serialize(after, peer)[i] == Advertise(after[i], peer);
    forall x, address | x in after && HasKey(x, e.dest, e.mask) ensures !Matches(x, address) {
      SlotIs(after, e.dest, e.mask, x);
    }
  }

  /** A route set by hand for a key the table lacks is used from then on, provided it is
      shorter than 16 hops, and no amount of ageing ends it; garbage is never inserted. */
  lemma HandSetRouteLasts(t: seq<RoutingEntry>, dest: Ip, mask: Ip, nexthop: Ip, distance: int, n: nat)
    requires SlotOf(t, dest, mask) == None
    ensures var after := Insert(t, dest, mask, nexthop, distance, Persist);
            if distance < 16 then
              exists e :: e in AgeTimes(after, n) && HasKey(e, dest, mask) && e.nexthop == nexthop && e.distance == distance
                          && forall address :: Matches(e, address) <==> Masked(address, mask) == Masked(dest, mask)
            else after == t
    ensures Insert(t, dest, mask, nexthop, distance, Garbage) == t
  {
    if distance < 16 {
      var after := Insert(t, dest, mask, nexthop, distance, Persist);
      var e := NewEntry(dest, mask, nexthop, distance, Persist);
      assert after[|t|] == e;
      HandAged(e, n);
      AgeTimesMembers(after, n, e);
      hide AgeTimes, Aged, Insert;
      assert e in AgeTimes(after, n);
    }
  }

  lemma {:induction false} HandAged(e: RoutingEntry, n: nat)
    requires e.status == Persist
    ensures Aged(e, n) == Some(e)
    decreases n
  {
    if n > 0 { HandAged(e, n - 1); }
  }

  /** A route set by hand with a next hop is the exception: a withdrawal leaves it in
      use, at a distance of 17. */
  lemma HandSetRouteStays(t: seq<RoutingEntry>, e: RoutingEntry, v: DVEntry)
    requires SlotOf(t, e.dest, e.mask) == Some(e) && e.status == Persist && About(v, e.dest, e.mask) && Withdraws(v)
    ensures SlotOf(Learn(t, e.nexthop, v), e.dest, e.mask) == Some(e.(distance := 17))
    ensures forall address :: Matches(e.(distance := 17), address) <==> Matches(e, address)
    ensures !InsertModifies(t, v.dest, v.mask, e.nexthop, WireDistance(v.distance))
  {
    LearnSlot(t, e.nexthop, v, e.dest, e.mask);
    hide Learn;
  }

  // ----- what asks for a broadcast -----

  /** The line turns a route in use to garbage. */
  ghost predicate Turns(t: seq<RoutingEntry>, sender: Ip, v: DVEntry) {
    var before, after := SlotOf(t, v.dest, v.mask), SlotOf(Learn(t, sender, v), v.dest, v.mask);
    before.Some? && before.value.status == Stable && after.Some? && after.value.status == Garbage
  }

  lemma TurnsExactly(t: seq<RoutingEntry>, sender: Ip, v: DVEntry)
    ensures Turns(t, sender, v) <==> InsertModifies(t, v.dest, v.mask, sender, WireDistance(v.distance))
  {
    LearnSlot(t, sender, v, v.dest, v.mask);
    hide WireDistance, Learn;
  }

  /** A vector asks for a broadcast if and only if some line of it turns a route in
      use to garbage. */
  lemma {:induction false} ModifiesExactly(t: seq<RoutingEntry>, sender: Ip, vector: seq<DVEntry>)
    ensures UpdateModifies(t, sender, vector)
            <==> exists n :: 0 <= n < |vector| && Turns(Update(t, sender, vector[..n]), sender, vector[n])
    decreases |vector|
  {
    hide Turns, Update, InsertModifies;
    if vector != [] {
      var k := |vector| - 1;
      var front := vector[..k];
      ModifiesExactly(t, sender, front);
      TurnsExactly(Update(t, sender, front), sender, vector[k]);
      assert forall n :: 0 <= n < k ==> front[..n] == vector[..n];
    }
  }

  // ----- what a table says to whom -----

  /** Split horizon with poison reverse (section 3.4.3 of RFC 2453), in numbers: a line
      is 17 exactly for a route through the very peer addressed and for a route given
      up; any other line is the route's distance. */
  lemma SerializeExact(t: seq<RoutingEntry>, peer: Ip, i: nat)
    requires TableOk(t) && peer != NONE && i < |t|
    ensures var v := Serialize(t, peer)[i];
            && v.dest == t[i].dest && v.mask == t[i].mask
            && (v.distance == 17 <==> t[i].nexthop == peer || t[i].status == Garbage)
            && (v.distance != 17 ==> v.distance == t[i].distance <= 16)
  {
    assert t[i] in t;
  }

  // ----- what is removed -----

  /** `Remove` takes the entry of the key, if there is one, and nothing else. */
  lemma RemoveExact(t: seq<RoutingEntry>, dest: Ip, mask: Ip)
    requires UniqueKeys(t)
    ensures var after := Remove(t, dest, mask);
            && UniqueKeys(after) && (forall x :: x in after <==> x in t && !HasKey(x, dest, mask))
            && |after| == if SlotOf(t, dest, mask).Some? then |t| - 1 else |t|
  {
    var i := Find(t, dest, mask);
    if i < |t| {
      var after := t[..i] + t[i + 1..];
      assert forall j :: 0 <= j < |after| ==> after[j] == t[if j < i then j else j + 1];
      OthersKept(t, i, dest, mask);
    }
  }

  lemma OthersKept(t: seq<RoutingEntry>, i: nat, dest: Ip, mask: Ip)
    requires UniqueKeys(t) && i < |t| && HasKey(t[i], dest, mask)
    ensures var after := t[..i] + t[i + 1..];
            forall x :: x in after <==> x in t && !HasKey(x, dest, mask)
  {
    var after := t[..i] + t[i + 1..];
    forall x | x in t && !HasKey(x, dest, mask) ensures x in after {
      var j :| 0 <= j < |t| && t[j] == x;
      assert after[if j < i then j else j - 1] == x;
    }
    forall x | x in after ensures x in t && !HasKey(x, dest, mask) {
      var j :| 0 <= j < |after| && after[j] == x;
      assert t[if j < i then j else j + 1] == x;
    }
  }

  /** `GarbageCollection` takes exactly the garbage whose time has run out. */
  lemma {:induction false} CollectExact(t: seq<RoutingEntry>, x: RoutingEntry)
    ensures x in Collect(t) <==> x in t && !(x.status == Garbage && x.gc == 0)
    decreases |t|
  {
    if t != [] {
      var n := |t| - 1;
      CollectExact(t[..n], x);
      assert t == t[..n] + [t[n]];
    }
  }

  /** `Aging` reports an expiry exactly when a route in use is garbage after it. */
  lemma ExpiresExactly(e: RoutingEntry)
    requires EntryOk(e)
    ensures Expires(e) <==> e.status == Stable && Tick(e).Some? && Tick(e).value.status == Garbage
  {
  }
}
