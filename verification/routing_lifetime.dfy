/** How long a route lives without being refreshed. */
module RoutingLifetime {
  import opened Machine
  import opened RoutingTables
  import opened RoutingInvariant

  /** The `Aging` calls an entry has left; the last four as garbage. */
  function Remaining(e: RoutingEntry): int {
    match e.status
    case Stable => e.age + MAX_GARBAGE
    case Garbage => e.gc
    case Persist => 0
  }

  /** The route to a key, if the table has one, is learned and in range, and gone
      within `n` more calls.  Nothing is asked of the rest of the table. */
  ghost predicate LeftAtMost(t: seq<RoutingEntry>, dest: Ip, mask: Ip, n: int) {
    forall e :: e in t && HasKey(e, dest, mask) ==> EntryOk(e) && e.status != Persist && Remaining(e) <= n
  }

  // ----- one entry, exactly -----

  function AgeTimes(t: seq<RoutingEntry>, n: nat): seq<RoutingEntry>
    decreases n
  {
    if n == 0 then t else AgeTimes(Aging(t), n - 1)
  }

  /** What is left of an entry after `n` calls. */
  function Aged(e: RoutingEntry, n: nat): Option<RoutingEntry>
    decreases n
  {
    if n == 0 then Some(e)
    else match Tick(e) case None => None case Some(f) => Aged(f, n - 1)
  }

  lemma {:induction false} AgeTimesMembers(t: seq<RoutingEntry>, n: nat, x: RoutingEntry)
    ensures x in AgeTimes(t, n) <==> exists e :: e in t && Aged(e, n) == Some(x)
    decreases n
  {
    hide Tick, Aging;
    if n > 0 {
      AgeTimesMembers(Aging(t), n - 1, x);
      if x in AgeTimes(t, n) {
        var f :| f in Aging(t) && Aged(f, n - 1) == Some(x);
        AgingMembers(t, f);
        var e :| e in t && Tick(e) == Some(f);
        assert Aged(e, n) == Some(x);
      }
      if e :| e in t && Aged(e, n) == Some(x) {
        AgingMembers(t, Tick(e).value);
      }
    }
  }

  /** A stable route of age `a` is used for exactly `a - 1` further calls, is
      garbage for the four after that, and is then gone. */
  lemma {:induction false} AgedExactly(e: RoutingEntry, n: nat)
    requires EntryOk(e) && e.status == Stable
    ensures Aged(e, n) == if n < e.age then Some(e.(age := e.age - n))
                          else if n < e.age + MAX_GARBAGE then
                            Some(e.(status := Garbage, age := 0, distance := POISON_THRESHOLD + 1,
                                    gc := e.age + MAX_GARBAGE - n))
                          else None
    decreases n
  {
    if n > 0 {
      if e.age > 1 { AgedExactly(e.(age := e.age - 1), n - 1); }
      else { GarbageAged(Tick(e).value, n - 1); }
    }
  }

  lemma {:induction false} GarbageAged(e: RoutingEntry, n: nat)
    requires EntryOk(e) && e.status == Garbage
    ensures Aged(e, n) == if n < e.gc then Some(e.(gc := e.gc - n)) else None
    decreases n
  {
    if n > 0 && e.gc > 1 { GarbageAged(e.(gc := e.gc - 1), n - 1); }
  }

  /** The table-level statement: which entry a route has become. */
  lemma ExactLifetime(t: seq<RoutingEntry>, e: RoutingEntry, n: nat)
    requires TableOk(t) && e in t && e.status == Stable
    ensures n < e.age ==> e.(age := e.age - n) in AgeTimes(t, n)
    ensures e.age <= n < e.age + MAX_GARBAGE ==>
              forall x :: x in AgeTimes(t, n) && HasKey(x, e.dest, e.mask) ==> x.status == Garbage
    ensures e.age + MAX_GARBAGE <= n ==> forall x :: x in AgeTimes(t, n) ==> !HasKey(x, e.dest, e.mask)
  {
    AgedExactly(e, n);
    forall x | x in AgeTimes(t, n) && HasKey(x, e.dest, e.mask) ensures Aged(e, n) == Some(x) {
      AgeTimesMembers(t, n, x);
      var y :| y in t && Aged(y, n) == Some(x);
      AgedKey(y, n);
      OneEntry(t, e, y);
    }
    AgeTimesMembers(t, n, e.(age := e.age - n));
  }

  lemma {:induction false} AgedKey(e: RoutingEntry, n: nat)
    ensures Aged(e, n).Some? ==> HasKey(Aged(e, n).value, e.dest, e.mask)
    decreases n
  {
    if n > 0 && Tick(e).Some? { AgedKey(Tick(e).value, n - 1); }
  }

  // ----- whole runs -----

  /** A vector that calls the key reachable. */
  ghost predicate Refreshes(ev: Event, dest: Ip, mask: Ip) {
    ev.Vector? && exists i :: 0 <= i < |ev.vector| && ev.vector[i].dest == dest && ev.vector[i].mask == mask
                              && WireDistance(ev.vector[i].distance) <= POISON_THRESHOLD
  }

  ghost function CountAges(events: seq<Event>): nat
    decreases |events|
  {
    if events == [] then 0 else (if events[0] == Age then 1 else 0) + CountAges(events[1..])
  }

  lemma LearnLeft(t: seq<RoutingEntry>, sender: Ip, v: DVEntry, dest: Ip, mask: Ip, n: int)
    requires LeftAtMost(t, dest, mask, n)
    requires v.dest == dest && v.mask == mask ==> WireDistance(v.distance) > POISON_THRESHOLD
    ensures LeftAtMost(Learn(t, sender, v), dest, mask, n)
  {
    hide WireDistance;
    var t1 := Learn(t, sender, v);
    var i := Find(t, v.dest, v.mask);
    forall x | x in t1 && HasKey(x, dest, mask)
      ensures EntryOk(x) && x.status != Persist && Remaining(x) <= n
    {
      if x !in t && i < |t| {
        assert x == t1[i] && t[i] in t;
      }
    }
  }

  lemma {:induction false} UpdateLeft(t: seq<RoutingEntry>, sender: Ip, vector: seq<DVEntry>, dest: Ip, mask: Ip, n: int)
    requires LeftAtMost(t, dest, mask, n)
    requires !Refreshes(Vector(sender, vector), dest, mask)
    ensures LeftAtMost(Update(t, sender, vector), dest, mask, n)
    decreases |vector|
  {
    hide LeftAtMost, Learn, WireDistance;
    if vector != [] {
      var k := |vector| - 1;
      assert !Refreshes(Vector(sender, vector[..k]), dest, mask);
      UpdateLeft(t, sender, vector[..k], dest, mask, n);
      LearnLeft(Update(t, sender, vector[..k]), sender, vector[k], dest, mask, n);
    }
  }

  lemma AgingLeft(t: seq<RoutingEntry>, dest: Ip, mask: Ip, n: int)
    requires LeftAtMost(t, dest, mask, n)
    ensures LeftAtMost(Aging(t), dest, mask, n - 1)
  {
    forall x | x in Aging(t) && HasKey(x, dest, mask)
      ensures EntryOk(x) && x.status != Persist && Remaining(x) <= n - 1
    {
      AgingMembers(t, x);
      var e :| e in t && Tick(e) == Some(x);
    }
  }

  lemma {:induction false} CollectMembers(t: seq<RoutingEntry>)
    ensures forall x :: x in Collect(t) ==> x in t
    decreases |t|
  {
    if t != [] { CollectMembers(t[..|t| - 1]); }
  }

  lemma NextLeft(t: seq<RoutingEntry>, ev: Event, dest: Ip, mask: Ip, n: int)
    requires LeftAtMost(t, dest, mask, n) && !Refreshes(ev, dest, mask)
    ensures LeftAtMost(Next(t, ev), dest, mask, if ev == Age then n - 1 else n)
  {
    hide Refreshes, EntryOk, Aging, Update, Collect;
    match ev
    case Vector(sender, vector) => UpdateLeft(t, sender, vector, dest, mask, n);
    case Age => AgingLeft(t, dest, mask, n);
    case GarbageCollection => CollectMembers(t);
  }

  lemma {:induction false} RunLeft(t: seq<RoutingEntry>, events: seq<Event>, dest: Ip, mask: Ip, n: int)
    requires LeftAtMost(t, dest, mask, n)
    requires forall ev :: ev in events ==> !Refreshes(ev, dest, mask)
    ensures LeftAtMost(Exec(t, events), dest, mask, n - CountAges(events))
    decreases |events|
  {
    hide LeftAtMost, Refreshes, Next;
    if events != [] {
      assert !Refreshes(events[0], dest, mask);
      NextLeft(t, events[0], dest, mask, n);
      RunLeft(Next(t, events[0]), events[1..], dest, mask, if events[0] == Age then n - 1 else n);
    }
  }

  /** The entry of a key is past use, so no address matches it. */
  ghost predicate Unused(t: seq<RoutingEntry>, dest: Ip, mask: Ip) {
    forall e, address :: e in t && HasKey(e, dest, mask) ==> !Matches(e, address)
  }

  /** Whatever vectors arrive, a learned route nobody calls reachable is unused
      after six `Aging` calls and gone after ten. */
  lemma UnrefreshedRouteDies(t: seq<RoutingEntry>, events: seq<Event>, dest: Ip, mask: Ip)
    requires forall e :: e in t && HasKey(e, dest, mask) ==> EntryOk(e) && e.status != Persist
    requires forall ev :: ev in events ==> !Refreshes(ev, dest, mask)
    ensures CountAges(events) >= MAX_AGING ==> Unused(Exec(t, events), dest, mask)
    ensures CountAges(events) >= MAX_AGING + MAX_GARBAGE ==>
              forall e :: e in Exec(t, events) ==> !HasKey(e, dest, mask)
  {
    hide Exec, Refreshes;
    RunLeft(t, events, dest, mask, MAX_AGING + MAX_GARBAGE);
  }
}
