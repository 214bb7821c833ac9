/** A table as one destination sees it: the entry of one key, and what each operation of
    src/network/routing_impl.cc:83-223 does to it. */
module RoutingSlots {
  import opened Machine
  import opened RoutingTables
  import opened RoutingInvariant

  type Slot = Option<RoutingEntry>

  function SlotOf(t: seq<RoutingEntry>, dest: Ip, mask: Ip): Slot {
    var i := Find(t, dest, mask);
    if i < |t| then Some(t[i]) else None
  }

  /** A route of this distance through this sender, offered to the slot. */
  function Hear(s: Slot, dest: Ip, mask: Ip, sender: Ip, distance: int): Slot {
    match s
    case Some(e) => Some(Merge(e, sender, distance))
    case None => if distance < POISON_THRESHOLD then Some(NewEntry(dest, mask, sender, distance, Stable)) else None
  }

  function TickSlot(s: Slot): Slot {
    match s case Some(e) => Tick(e) case None => None
  }

  lemma FindKeeps(t: seq<RoutingEntry>, t1: seq<RoutingEntry>, dest: Ip, mask: Ip)
    requires |t| <= |t1| && forall j :: 0 <= j < |t| ==> t1[j].dest == t[j].dest && t1[j].mask == t[j].mask
    requires Find(t, dest, mask) < |t|
    ensures Find(t1, dest, mask) == Find(t, dest, mask)
  {
    var i, j := Find(t, dest, mask), Find(t1, dest, mask);
    if j < i { assert HasKey(t[j], dest, mask); }
  }

  lemma LearnSlot(t: seq<RoutingEntry>, sender: Ip, v: DVEntry, dest: Ip, mask: Ip)
    ensures SlotOf(Learn(t, sender, v), dest, mask)
            == if v.dest == dest && v.mask == mask then Hear(SlotOf(t, dest, mask), dest, mask, sender, WireDistance(v.distance))
               else SlotOf(t, dest, mask)
  {
    hide WireDistance, Find;
    var t1 := Learn(t, sender, v);
    var i := Find(t, dest, mask);
    if i < |t| {
      FindKeeps(t, t1, dest, mask);
    } else {
      assert forall k :: 0 <= k < |t| ==> t1[k].dest == t[k].dest && t1[k].mask == t[k].mask;
      assert forall k :: 0 <= k < |t| ==> !HasKey(t1[k], dest, mask);
      var j := Find(t1, dest, mask);
      assert j >= |t|;
      if |t1| > |t| {
        assert t1[|t|] == NewEntry(v.dest, v.mask, sender, WireDistance(v.distance), Stable);
        assert HasKey(t1[|t|], dest, mask) <==> v.dest == dest && v.mask == mask;
      }
    }
  }

  // ----- a whole vector -----

  /** The lines of a vector for one key, heard in order. */
  function HearVector(s: Slot, dest: Ip, mask: Ip, sender: Ip, vector: seq<DVEntry>): Slot
    decreases |vector|
  {
    if vector == [] then s
    else
      var before := HearVector(s, dest, mask, sender, vector[..|vector| - 1]);
      var v := vector[|vector| - 1];
      if v.dest == dest && v.mask == mask then Hear(before, dest, mask, sender, WireDistance(v.distance)) else before
  }

  lemma {:induction false} UpdateSlot(t: seq<RoutingEntry>, sender: Ip, vector: seq<DVEntry>, dest: Ip, mask: Ip)
    ensures SlotOf(Update(t, sender, vector), dest, mask) == HearVector(SlotOf(t, dest, mask), dest, mask, sender, vector)
    decreases |vector|
  {
    hide Learn, Hear, WireDistance, SlotOf;
    if vector != [] {
      var n := |vector| - 1;
      UpdateSlot(t, sender, vector[..n], dest, mask);
      LearnSlot(Update(t, sender, vector[..n]), sender, vector[n], dest, mask);
    }
  }

  lemma {:induction false} UniqueUpdate(t: seq<RoutingEntry>, sender: Ip, vector: seq<DVEntry>)
    requires UniqueKeys(t)
    ensures UniqueKeys(Update(t, sender, vector))
    decreases |vector|
  {
    hide WireDistance;
    if vector != [] {
      var n := |vector| - 1;
      UniqueUpdate(t, sender, vector[..n]);
      UniqueLearn(Update(t, sender, vector[..n]), sender, vector[n]);
    }
  }

  lemma UniqueLearn(t: seq<RoutingEntry>, sender: Ip, v: DVEntry)
    requires UniqueKeys(t)
    ensures UniqueKeys(Learn(t, sender, v))
  {
    hide WireDistance;
  }

  lemma SlotIs(t: seq<RoutingEntry>, dest: Ip, mask: Ip, e: RoutingEntry)
    requires UniqueKeys(t)
    ensures e in t && HasKey(e, dest, mask) <==> SlotOf(t, dest, mask) == Some(e)
  {
    if e in t && HasKey(e, dest, mask) { OneEntry(t, e, SlotOf(t, dest, mask).value); }
  }

  // ----- what a table advertises -----

  /** The vector of a table has at most one line for a key, that of its slot. */
  lemma {:induction false} SerializedSlot(s: Slot, dest: Ip, mask: Ip, sender: Ip, t: seq<RoutingEntry>, peer: Ip)
    requires UniqueKeys(t)
    ensures HearVector(s, dest, mask, sender, Serialize(t, peer))
            == match SlotOf(t, dest, mask)
               case None => s
               case Some(e) => Hear(s, dest, mask, sender, WireDistance(Advertise(e, peer).distance))
    decreases |t|
  {
    hide Hear, WireDistance;
    if t != [] {
      var n := |t| - 1;
      SerializedSlot(s, dest, mask, sender, t[..n], peer);
      assert Serialize(t, peer)[..n] == Serialize(t[..n], peer);
      SlotFront(t, dest, mask);
      assert Serialize(t, peer)[n] == Advertise(t[n], peer);
    }
  }

  lemma SlotFront(t: seq<RoutingEntry>, dest: Ip, mask: Ip)
    requires UniqueKeys(t) && t != []
    ensures var n := |t| - 1;
            if HasKey(t[n], dest, mask) then SlotOf(t, dest, mask) == Some(t[n]) && SlotOf(t[..n], dest, mask) == None
            else SlotOf(t, dest, mask) == SlotOf(t[..n], dest, mask)
  {
    hide Find;
    var n := |t| - 1;
    var i, j := Find(t, dest, mask), Find(t[..n], dest, mask);
    assert forall k :: 0 <= k < n ==> t[..n][k] == t[k];
  }

  // ----- ageing -----

  lemma AgingSlot(t: seq<RoutingEntry>, dest: Ip, mask: Ip)
    requires TableOk(t)
    ensures SlotOf(Aging(t), dest, mask) == TickSlot(SlotOf(t, dest, mask))
  {
    AgingKeeps(t);
    hide TableOk, Aging, SlotOf, Tick;
    var s := TickSlot(SlotOf(t, dest, mask));
    forall x ensures SlotOf(Aging(t), dest, mask) == Some(x) <==> s == Some(x) {
      AgedSlot(t, dest, mask, x);
    }
    if s.Some? { assert SlotOf(Aging(t), dest, mask) == Some(s.value); }
    if SlotOf(Aging(t), dest, mask).Some? { assert s == Some(SlotOf(Aging(t), dest, mask).value); }
  }

  lemma AgedSlot(t: seq<RoutingEntry>, dest: Ip, mask: Ip, x: RoutingEntry)
    requires TableOk(t) && TableOk(Aging(t))
    ensures SlotOf(Aging(t), dest, mask) == Some(x) <==> TickSlot(SlotOf(t, dest, mask)) == Some(x)
  {
    hide Aging, EntryOk, SlotOf, Tick;
    SlotIs(Aging(t), dest, mask, x);
    AgingMembers(t, x);
    if x in Aging(t) && HasKey(x, dest, mask) {
      var e :| e in t && Tick(e) == Some(x);
      TickOk(e);
      SlotIs(t, dest, mask, e);
    }
    if TickSlot(SlotOf(t, dest, mask)) == Some(x) {
      var e := SlotOf(t, dest, mask).value;
      SlotIs(t, dest, mask, e);
      TickOk(e);
    }
  }
}
