/** What every event keeps of one routing table, and how long a route lives. */
module RoutingInvariant {
  import opened Machine
  import opened RoutingTables

  // ----- the invariant -----

  ghost predicate EntryOk(e: RoutingEntry) {
    match e.status
    case Persist => e.mask == EXACT && e.nexthop == NONE && e.distance == 0 && e.age == 0 && e.gc == 0
    case Stable => 1 <= e.age <= MAX_AGING && e.gc == 0 && 1 <= e.distance <= POISON_THRESHOLD && e.nexthop != NONE
    case Garbage =>
      e.age == 0 && 1 <= e.gc <= MAX_GARBAGE && e.distance == POISON_THRESHOLD + 1 && e.nexthop != NONE
  }

  ghost predicate UniqueKeys(t: seq<RoutingEntry>) {
    forall i, j :: 0 <= i < j < |t| ==> !HasKey(t[i], t[j].dest, t[j].mask)
  }

  ghost predicate TableOk(t: seq<RoutingEntry>) {
    UniqueKeys(t) && forall e :: e in t ==> EntryOk(e)
  }

  /** The entries for the router's own addresses. */
  ghost function Locals(t: seq<RoutingEntry>): set<RoutingEntry> {
    set e | e in t && e.status == Persist
  }

  lemma OneEntry(t: seq<RoutingEntry>, e: RoutingEntry, f: RoutingEntry)
    requires UniqueKeys(t) && e in t && f in t && HasKey(f, e.dest, e.mask)
    ensures e == f
  {
  }

  lemma InitialOk(locals: seq<Ip>)
    requires forall i, j :: 0 <= i < j < |locals| ==> locals[i] != locals[j]
    ensures TableOk(Initial(locals))
  {
  }

  // ----- insertion -----

  /** The wire distance a table may act on: one more must still be a positive
      `int`. */
  lemma WireDistanceExact(w: nat)
    requires w < U32
    ensures 1 <= WireDistance(w) <==> w < U32 / 2 - 1
    ensures w < U32 / 2 - 1 ==> WireDistance(w) == w + 1
  {
  }

  lemma MergeOk(e: RoutingEntry, nexthop: Ip, distance: int)
    requires EntryOk(e) && nexthop != NONE
    ensures EntryOk(Merge(e, nexthop, distance)) <==> 1 <= distance || (e.nexthop != nexthop && e.status != Stable)
    ensures Merge(e, nexthop, distance).dest == e.dest && Merge(e, nexthop, distance).mask == e.mask
    ensures e.status == Persist ==> Merge(e, nexthop, distance) == e
    ensures e.status != Persist ==> Merge(e, nexthop, distance).status != Persist
  {
  }

  /** The table has the key and leaves it alone: it is its own address, or it is
      garbage last heard of from another router. */
  ghost predicate Ignores(t: seq<RoutingEntry>, sender: Ip, v: DVEntry) {
    var i := Find(t, v.dest, v.mask);
    i < |t| && t[i].nexthop != sender && t[i].status != Stable
  }

  /** One line of a vector keeps the invariant exactly when its distance does
      not wrap, or the line is ignored anyway; own addresses always stay. */
  lemma LearnExact(t: seq<RoutingEntry>, sender: Ip, v: DVEntry)
    requires TableOk(t) && sender != NONE && v.distance < U32
    ensures TableOk(Learn(t, sender, v)) <==> v.distance < U32 / 2 - 1 || Ignores(t, sender, v)
    ensures Locals(Learn(t, sender, v)) == Locals(t)
  {
    WireDistanceExact(v.distance);
    var d := WireDistance(v.distance);
    var i := Find(t, v.dest, v.mask);
    var t1 := Learn(t, sender, v);
    if i < |t| {
      assert t[i] in t && t1[i] in t1;
      MergeOk(t[i], sender, d);
      hide Merge, EntryOk, WireDistance;
      ReplaceOk(t, i, Merge(t[i], sender, d));
    } else if d < POISON_THRESHOLD {
      assert t1[|t|] == NewEntry(v.dest, v.mask, sender, d, Stable);
      hide WireDistance, Find;
      AppendOk(t, NewEntry(v.dest, v.mask, sender, d, Stable));
    }
  }

  lemma ReplaceOk(t: seq<RoutingEntry>, i: nat, e: RoutingEntry)
    requires TableOk(t) && i < |t| && HasKey(e, t[i].dest, t[i].mask)
    requires t[i].status == Persist ==> e == t[i]
    requires t[i].status != Persist ==> e.status != Persist
    ensures TableOk(t[i := e]) <==> EntryOk(e)
    ensures Locals(t[i := e]) == Locals(t)
  {
    hide EntryOk;
    var t1 := t[i := e];
    assert t1[i] in t1;
    forall x | x in t1 ensures x == e || x in t { }
    forall x | x in t ensures x == t[i] || x in t1 {
      var j :| 0 <= j < |t| && t[j] == x;
      if j != i { assert t1[j] == x; }
    }
  }

  lemma AppendOk(t: seq<RoutingEntry>, e: RoutingEntry)
    requires TableOk(t) && (forall j :: 0 <= j < |t| ==> !HasKey(t[j], e.dest, e.mask)) && e.status != Persist
    ensures TableOk(t + [e]) <==> EntryOk(e)
    ensures Locals(t + [e]) == Locals(t)
  {
  }

  /** A vector whose distances do not wrap; every vector a sound table sends. */
  ghost predicate Sane(vector: seq<DVEntry>) {
    forall i :: 0 <= i < |vector| ==> vector[i].distance < U32 / 2 - 1
  }

  lemma SerializeSane(t: seq<RoutingEntry>, peer: Ip)
    requires TableOk(t)
    ensures Sane(Serialize(t, peer))
    ensures forall i :: 0 <= i < |t| ==> Serialize(t, peer)[i].distance <= POISON_THRESHOLD + 1
  {
    forall i | 0 <= i < |t| ensures Serialize(t, peer)[i].distance <= POISON_THRESHOLD + 1 {
      assert t[i] in t;
    }
  }

  lemma {:induction false} UpdateKeeps(t: seq<RoutingEntry>, sender: Ip, vector: seq<DVEntry>)
    requires TableOk(t) && sender != NONE && Sane(vector)
    ensures TableOk(Update(t, sender, vector)) && Locals(Update(t, sender, vector)) == Locals(t)
    decreases |vector|
  {
    hide TableOk, Locals, Learn;
    if vector != [] {
      var n := |vector| - 1;
      UpdateKeeps(t, sender, vector[..n]);
      LearnExact(Update(t, sender, vector[..n]), sender, vector[n]);
    }
  }

  // ----- ageing -----

  lemma {:induction false} AgingMembers(t: seq<RoutingEntry>, x: RoutingEntry)
    ensures x in Aging(t) <==> exists e :: e in t && Tick(e) == Some(x)
    decreases |t|
  {
    hide Tick;
    if t != [] {
      var n := |t| - 1;
      AgingMembers(t[..n], x);
      assert t == t[..n] + [t[n]];
    }
  }

  lemma TickOk(e: RoutingEntry)
    requires EntryOk(e)
    ensures match Tick(e)
            case None => e.status == Garbage && e.gc == 1
            case Some(f) =>
              EntryOk(f) && HasKey(f, e.dest, e.mask) && (f.status == Persist <==> e.status == Persist)
              && (e.status == Persist ==> f == e)
  {
  }

  lemma {:induction false} AgingUnique(t: seq<RoutingEntry>)
    requires TableOk(t)
    ensures UniqueKeys(Aging(t))
    decreases |t|
  {
    hide Tick, EntryOk;
    if t != [] {
      var n := |t| - 1;
      assert forall e :: e in t[..n] ==> e in t;
      AgingUnique(t[..n]);
      var a := Aging(t[..n]);
      forall i | 0 <= i < |a| ensures !HasKey(a[i], t[n].dest, t[n].mask) {
        AgingMembers(t[..n], a[i]);
        var e :| e in t[..n] && Tick(e) == Some(a[i]);
        TickOk(e);
      }
      TickOk(t[n]);
    }
  }

  lemma AgingKeeps(t: seq<RoutingEntry>)
    requires TableOk(t)
    ensures TableOk(Aging(t)) && Locals(Aging(t)) == Locals(t)
  {
    hide Tick, EntryOk, UniqueKeys;
    AgingUnique(t);
    forall x ensures x in Aging(t) <==> exists e :: e in t && Tick(e) == Some(x) { AgingMembers(t, x); }
    forall e | e in t ensures Tick(e).Some? ==> Tick(e).value in Aging(t) && EntryOk(Tick(e).value) { TickOk(e); }
    forall e | e in t && e.status == Persist ensures e in Aging(t) { TickOk(e); }
    forall x | x in Aging(t) && x.status == Persist ensures x in t {
      var e :| e in t && Tick(e) == Some(x);
      TickOk(e);
    }
  }

  lemma {:induction false} AliveStay(t: seq<RoutingEntry>)
    requires forall i :: 0 <= i < |t| ==> !Dead(t[i])
    ensures Collect(t) == t
    decreases |t|
  {
    if t != [] { AliveStay(t[..|t| - 1]); }
  }

  /** There is never anything for `GarbageCollection` to remove. */
  lemma CollectsNothing(t: seq<RoutingEntry>)
    requires TableOk(t)
    ensures Collect(t) == t
  {
    hide UniqueKeys;
    forall i | 0 <= i < |t| ensures !Dead(t[i]) { assert t[i] in t; }
    AliveStay(t);
  }

  // ----- whole runs -----

  datatype Event = Vector(sender: Ip, vector: seq<DVEntry>) | Age | GarbageCollection

  function Next(t: seq<RoutingEntry>, ev: Event): seq<RoutingEntry> {
    match ev
    case Vector(sender, vector) => Update(t, sender, vector)
    case Age => Aging(t)
    case GarbageCollection => Collect(t)
  }

  function Exec(t: seq<RoutingEntry>, events: seq<Event>): seq<RoutingEntry>
    decreases |events|
  {
    if events == [] then t else Exec(Next(t, events[0]), events[1..])
  }

  // ----- own addresses, whatever arrives -----

  /** The router's own entries have no next hop. */
  ghost predicate Unrouted(t: seq<RoutingEntry>) {
    forall e :: e in t && e.status == Persist ==> e.nexthop == NONE
  }

  lemma LearnLocals(t: seq<RoutingEntry>, sender: Ip, v: DVEntry)
    requires Unrouted(t) && sender != NONE
    ensures Locals(Learn(t, sender, v)) == Locals(t)
  {
    hide WireDistance, Find;
    var i := Find(t, v.dest, v.mask);
    var t1 := Learn(t, sender, v);
    if i < |t| {
      assert t[i] in t && t1[i] in t1;
      forall x | x in t ensures x == t[i] || x in t1 {
        var j :| 0 <= j < |t| && t[j] == x;
        assert j == i || t1[j] == x;
      }
    }
  }

  lemma {:induction false} UpdateLocals(t: seq<RoutingEntry>, sender: Ip, vector: seq<DVEntry>)
    requires Unrouted(t) && sender != NONE
    ensures Locals(Update(t, sender, vector)) == Locals(t) && Unrouted(Update(t, sender, vector))
    decreases |vector|
  {
    hide Learn;
    if vector != [] {
      var n := |vector| - 1;
      UpdateLocals(t, sender, vector[..n]);
      LearnLocals(Update(t, sender, vector[..n]), sender, vector[n]);
    }
    LocalsUnrouted(t, Update(t, sender, vector));
  }

  lemma LocalsUnrouted(t: seq<RoutingEntry>, t1: seq<RoutingEntry>)
    requires Unrouted(t) && Locals(t1) == Locals(t)
    ensures Unrouted(t1)
  {
    forall e | e in t1 && e.status == Persist ensures e.nexthop == NONE { assert e in Locals(t1); }
  }

  lemma AgingLocals(t: seq<RoutingEntry>)
    ensures Locals(Aging(t)) == Locals(t)
  {
    forall x: RoutingEntry | x.status == Persist ensures x in Aging(t) <==> x in t {
      AgingMembers(t, x);
      assert Tick(x) == Some(x);
    }
  }

  lemma {:induction false} CollectLocals(t: seq<RoutingEntry>)
    ensures Locals(Collect(t)) == Locals(t)
    decreases |t|
  {
    if t != [] {
      var n := |t| - 1;
      CollectLocals(t[..n]);
      assert t == t[..n] + [t[n]];
      assert Locals(t) == Locals(t[..n]) + Locals([t[n]]);
    }
  }

  /** Every vector names its sender. */
  ghost predicate Sent(ev: Event) {
    ev.Vector? ==> ev.sender != NONE
  }

  lemma NextLocals(t: seq<RoutingEntry>, ev: Event)
    requires Unrouted(t) && Sent(ev)
    ensures Locals(Next(t, ev)) == Locals(t) && Unrouted(Next(t, ev))
  {
    hide Aging, Collect, Update, Unrouted, Locals;
    match ev {
      case Vector(sender, vector) => UpdateLocals(t, sender, vector);
      case Age => AgingLocals(t);
      case GarbageCollection => CollectLocals(t);
    }
    LocalsUnrouted(t, Next(t, ev));
  }

  /** No vector at all, however it is made up, changes the router's own entries. */
  lemma {:induction false} RunKeepsLocals(t: seq<RoutingEntry>, events: seq<Event>)
    requires Unrouted(t) && forall ev :: ev in events ==> Sent(ev)
    ensures Locals(Exec(t, events)) == Locals(t)
    decreases |events|
  {
    hide Unrouted, Locals, Next, Sent;
    if events != [] {
      NextLocals(t, events[0]);
      RunKeepsLocals(Next(t, events[0]), events[1..]);
    }
  }

  // ----- the whole table, exactly -----

  /** What arrives is a vector of 32-bit distances that names its sender. */
  ghost predicate Received(ev: Event) {
    ev.Vector? ==> ev.sender != NONE && forall v :: v in ev.vector ==> v.distance < U32
  }

  /** A line with which the table can do something sound, or nothing. */
  ghost predicate Harmless(t: seq<RoutingEntry>, sender: Ip, v: DVEntry) {
    v.distance < U32 / 2 - 1 || Ignores(t, sender, v)
  }

  /** Every line is harmless to the table it meets. */
  ghost predicate AllHarmless(t: seq<RoutingEntry>, sender: Ip, vector: seq<DVEntry>) {
    forall n :: 0 <= n < |vector| ==> Harmless(Update(t, sender, vector[..n]), sender, vector[n])
  }

  ghost predicate HarmlessRun(t: seq<RoutingEntry>, events: seq<Event>)
    decreases |events|
  {
    events == []
    || (&& (events[0].Vector? ==> AllHarmless(t, events[0].sender, events[0].vector))
        && HarmlessRun(Next(t, events[0]), events[1..]))
  }

  /** The table is sound after every line of the vector. */
  ghost predicate SoundThroughout(t: seq<RoutingEntry>, sender: Ip, vector: seq<DVEntry>) {
    forall n :: 0 <= n <= |vector| ==> TableOk(Update(t, sender, vector[..n]))
  }

  ghost predicate SoundRun(t: seq<RoutingEntry>, events: seq<Event>)
    decreases |events|
  {
    && TableOk(t)
    && (events == []
        || (&& (events[0].Vector? ==> SoundThroughout(t, events[0].sender, events[0].vector))
            && SoundRun(Next(t, events[0]), events[1..])))
  }

  lemma LastLine(t: seq<RoutingEntry>, sender: Ip, vector: seq<DVEntry>)
    requires vector != []
    ensures var n := |vector| - 1;
            && (AllHarmless(t, sender, vector) <==>
                  AllHarmless(t, sender, vector[..n]) && Harmless(Update(t, sender, vector[..n]), sender, vector[n]))
            && (SoundThroughout(t, sender, vector) <==>
                  SoundThroughout(t, sender, vector[..n]) && TableOk(Update(t, sender, vector)))
  {
    hide Update, TableOk, Harmless;
    var n := |vector| - 1;
    assert forall i :: 0 <= i <= n ==> vector[..i] == vector[..n][..i];
    assert vector[..n + 1] == vector;
  }

  lemma {:induction false} UpdateExact(t: seq<RoutingEntry>, sender: Ip, vector: seq<DVEntry>)
    requires TableOk(t) && sender != NONE && forall v :: v in vector ==> v.distance < U32
    ensures SoundThroughout(t, sender, vector) <==> AllHarmless(t, sender, vector)
    decreases |vector|
  {
    hide TableOk, Harmless, Learn, AllHarmless;
    if vector != [] {
      var n := |vector| - 1;
      UpdateExact(t, sender, vector[..n]);
      LastLine(t, sender, vector);
      if SoundThroughout(t, sender, vector[..n]) {
        AtTheEnd(t, sender, vector[..n]);
        LineExact(Update(t, sender, vector[..n]), sender, vector[n]);
      }
    } else {
      assert AllHarmless(t, sender, vector) by { NothingHarms(t, sender); }
    }
  }

  lemma NothingHarms(t: seq<RoutingEntry>, sender: Ip)
    ensures AllHarmless(t, sender, [])
  {
  }

  lemma LineExact(t: seq<RoutingEntry>, sender: Ip, v: DVEntry)
    requires TableOk(t) && sender != NONE && v.distance < U32
    ensures TableOk(Learn(t, sender, v)) <==> Harmless(t, sender, v)
  {
    LearnExact(t, sender, v);
  }

  /** The table stays sound through a run, line by line, if and only if every line
      is harmless when it arrives. */
  lemma {:induction false} RunExact(t: seq<RoutingEntry>, events: seq<Event>)
    requires TableOk(t) && forall ev :: ev in events ==> Received(ev)
    ensures SoundRun(t, events) <==> HarmlessRun(t, events)
    ensures SoundRun(t, events) ==> TableOk(Exec(t, events))
    decreases |events|
  {
    hide TableOk, SoundThroughout, AllHarmless, Next;
    if events != [] {
      var ev := events[0];
      assert Received(ev);
      NextIs(t, ev);
      match ev {
        case Vector(sender, vector) =>
          UpdateExact(t, sender, vector);
          if SoundThroughout(t, sender, vector) { AtTheEnd(t, sender, vector); }
        case Age => AgingKeeps(t);
        case GarbageCollection => CollectsNothing(t);
      }
      if ev.Vector? ==> SoundThroughout(t, ev.sender, ev.vector) {
        RunExact(Next(t, ev), events[1..]);
      }
    }
  }

  lemma NextIs(t: seq<RoutingEntry>, ev: Event)
    ensures Next(t, ev) == match ev
                           case Vector(sender, vector) => Update(t, sender, vector)
                           case Age => Aging(t)
                           case GarbageCollection => Collect(t)
  {
  }

  lemma AtTheEnd(t: seq<RoutingEntry>, sender: Ip, vector: seq<DVEntry>)
    requires SoundThroughout(t, sender, vector)
    ensures TableOk(Update(t, sender, vector))
  {
    assert vector[..|vector|] == vector;
  }

  /** Vectors that do not wrap, as sound tables send them. */
  ghost predicate Genuine(ev: Event) {
    ev.Vector? ==> ev.sender != NONE && Sane(ev.vector)
  }

  lemma {:induction false} GenuineIsHarmless(t: seq<RoutingEntry>, events: seq<Event>)
    requires forall ev :: ev in events ==> Genuine(ev)
    ensures HarmlessRun(t, events)
    decreases |events|
  {
    hide Update, Ignores, Next;
    if events != [] {
      assert Genuine(events[0]);
      GenuineIsHarmless(Next(t, events[0]), events[1..]);
    }
  }

  lemma GenuineIsReceived(ev: Event)
    requires Genuine(ev)
    ensures Received(ev)
  {
  }

  /** Over every run of vectors that do not wrap: keys stay unique, and ages,
      distances and garbage counters stay in range. */
  lemma RunKeepsTable(t: seq<RoutingEntry>, events: seq<Event>)
    requires TableOk(t) && forall ev :: ev in events ==> Genuine(ev)
    ensures TableOk(Exec(t, events)) && Locals(Exec(t, events)) == Locals(t)
  {
    forall ev | ev in events ensures Received(ev) && Sent(ev) { GenuineIsReceived(ev); }
    assert Unrouted(t) by { OkIsUnrouted(t); }
    hide *;
    RunKeepsLocals(t, events);
    GenuineIsHarmless(t, events);
    RunExact(t, events);
  }

  lemma OkIsUnrouted(t: seq<RoutingEntry>)
    requires TableOk(t)
    ensures Unrouted(t)
  {
  }

  /** From the addresses of the local devices: the persistent entries are always
      exactly theirs, and the table stays sound exactly as long as every line is
      harmless. */
  lemma TableInEveryRun(locals: seq<Ip>, events: seq<Event>)
    requires forall i, j :: 0 <= i < j < |locals| ==> locals[i] != locals[j]
    requires forall ev :: ev in events ==> Received(ev)
    ensures var t := Initial(locals);
            && Locals(Exec(t, events)) == (set a | a in locals :: NewEntry(a, EXACT, NONE, 0, Persist))
            && (SoundRun(t, events) <==> HarmlessRun(t, events))
  {
    var t := Initial(locals);
    InitialOk(locals);
    RunExact(t, events);
    OkIsUnrouted(t);
    RunKeepsLocals(t, events);
    hide TableOk, Exec, SoundRun, HarmlessRun;
    forall a | a in locals ensures NewEntry(a, EXACT, NONE, 0, Persist) in t {
      var i :| 0 <= i < |locals| && locals[i] == a;
      assert t[i] in t;
    }
  }
}
