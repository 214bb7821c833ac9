/** The routing table as an object whose loops change the vector of entries in
    place: src/network/routing_impl.cc. */
module RoutingTableObjects {
  import opened Machine
  import opened T = RoutingTables

  /** What the cursor of an erasing loop stands on, and what changing or erasing
      it does: `done` has been dealt with and `rest` is still to come. */
  lemma AtFront(done: seq<RoutingEntry>, rest: seq<RoutingEntry>, e: RoutingEntry)
    requires rest != []
    ensures (done + rest)[|done|] == rest[0]
    ensures (done + rest)[..|done|] + (done + rest)[|done| + 1..] == done + rest[1..]
    ensures (done + rest)[|done| := e] == (done + [e]) + rest[1..]
    ensures done + rest == (done + [rest[0]]) + rest[1..]
  {
  }

  lemma AgingSnoc(t: seq<RoutingEntry>, k: nat)
    requires k < |t|
    ensures T.Aging(t[..k + 1]) == T.Aging(t[..k]) + AsSeq(Tick(t[k]))
    ensures AnyExpires(t[..k + 1]) <==> AnyExpires(t[..k]) || Expires(t[k])
  {
    assert t[..k + 1][..k] == t[..k];
    assert t[..k + 1] == t[..k] + [t[k]];
    if Expires(t[k]) { assert t[k] in t[..k + 1]; }
    if AnyExpires(t[..k]) {
      var e :| e in t[..k] && Expires(e);
      assert e in t[..k + 1];
    }
  }

  predicate AnyExpires(t: seq<RoutingEntry>) {
    exists e :: e in t && Expires(e)
  }

  lemma NothingYet(t: seq<RoutingEntry>)
    ensures T.Aging(t[..0]) == [] == Collect(t[..0]) && !AnyExpires(t[..0])
  {
  }

  lemma CollectSnoc(t: seq<RoutingEntry>, k: nat)
    requires k < |t|
    ensures Collect(t[..k + 1]) == Collect(t[..k]) + (if Dead(t[k]) then [] else [t[k]])
  {
    assert t[..k + 1][..k] == t[..k];
  }

  class RoutingTable {
    var table: seq<RoutingEntry>

    /** `InitRoutingTable`. */
    constructor (locals: seq<Ip>)
      ensures table == T.Initial(locals)
    {
      var t := [];
      var i := 0;
      while i < |locals|
        invariant i <= |locals| && t == T.Initial(locals)[..i]
      {
        t := t + [NewEntry(locals[i], EXACT, NONE, 0, Persist)];
        i := i + 1;
      }
      table := t;
    }

    /** `unsafeInsert`. */
    method UnsafeInsert(dest: Ip, mask: Ip, nexthop: Ip, distance: int, status: Status) returns (modified: bool)
      modifies this
      ensures table == T.Insert(old(table), dest, mask, nexthop, distance, status)
      ensures modified <==> InsertModifies(old(table), dest, mask, nexthop, distance)
    {
      modified := false;
      var i := 0;
      while i < |table|
        invariant i <= |table| && table == old(table)
        invariant forall j :: 0 <= j < i ==> !HasKey(table[j], dest, mask)
      {
        var entry := table[i];
        if entry.dest == dest && entry.mask == mask {
          if entry.nexthop == nexthop {
            if distance > POISON_THRESHOLD {
              entry := entry.(distance := POISON_THRESHOLD + 1);
              if entry.status == Stable {
                modified := true;
                entry := entry.(status := Garbage, age := 0, gc := 4);
              }
            } else {
              entry := entry.(distance := distance, status := Stable, age := MAX_AGING, gc := 0);
            }
          } else if distance < entry.distance && entry.status == Stable {
            entry := entry.(distance := distance, nexthop := nexthop, age := MAX_AGING);
          }
          table := table[i := entry];
          return;
        }
        i := i + 1;
      }
      if distance < POISON_THRESHOLD {
        match status {
          case Stable => table := table + [RoutingEntry(Stable, MAX_AGING, 0, dest, mask, nexthop, distance)];
          case Persist => table := table + [RoutingEntry(Persist, 0, 0, dest, mask, nexthop, distance)];
          case Garbage =>
        }
      }
    }

    /** `UpdateByDistanceVector`. */
    method UpdateByDistanceVector(sender: Ip, vector: array<DVEntry>) returns (modified: bool)
      modifies this
      ensures table == Update(old(table), sender, vector[..])
      ensures modified <==> UpdateModifies(old(table), sender, vector[..])
    {
      modified := false;
      var i := 0;
      while i < vector.Length
        invariant i <= vector.Length
        invariant table == Update(old(table), sender, vector[..i])
        invariant modified <==> UpdateModifies(old(table), sender, vector[..i])
      {
        assert vector[..i + 1][..i] == vector[..i];
        var changed := UnsafeInsert(vector[i].dest, vector[i].mask, sender, WireDistance(vector[i].distance), Stable);
        modified := modified || changed;
        i := i + 1;
      }
      assert vector[..i] == vector[..];
    }

    /** `SerializeDistanceVector`, into a fresh buffer. */
    method SerializeDistanceVector(peer: Ip) returns (vector: array<DVEntry>)
      ensures fresh(vector) && vector[..] == Serialize(table, peer)
    {
      vector := new DVEntry[|table|](_ => DVEntry(NONE, NONE, 0));
      var i := 0;
      while i < |table|
        invariant i <= |table| == vector.Length
        invariant forall j :: 0 <= j < i ==> vector[j] == Advertise(table[j], peer)
      {
        if table[i].nexthop == peer {
          vector[i] := DVEntry(table[i].dest, table[i].mask, ToWire(1 + POISON_THRESHOLD));
        } else {
          vector[i] := DVEntry(table[i].dest, table[i].mask, ToWire(table[i].distance));
        }
        i := i + 1;
      }
    }

    /** One turn of the loop of `Aging`: the entry at the cursor, which moves on
        unless the entry is erased. */
    method AgeAt(i: nat, ghost done: seq<RoutingEntry>, ghost rest: seq<RoutingEntry>) returns (next: nat, expired: bool)
      requires rest != [] && table == done + rest && i == |done|
      modifies this
      ensures table == (done + AsSeq(Tick(rest[0]))) + rest[1..]
      ensures next == |done + AsSeq(Tick(rest[0]))| && (expired <==> Expires(rest[0]))
    {
      next, expired := i + 1, false;
      var entry := table[i];
      AtFront(done, rest, entry);
      if entry.status == Stable {
        entry := entry.(age := entry.age - 1);
        if entry.age == 0 {
          expired := true;
          entry := entry.(distance := 1 + POISON_THRESHOLD, status := Garbage, gc := MAX_GARBAGE);
        }
        AtFront(done, rest, entry);
        table := table[i := entry];
      } else if entry.status == Garbage {
        entry := entry.(gc := entry.gc - 1);
        if entry.gc == 0 {
          table := table[..i] + table[i + 1..];
          next := i;
        } else {
          AtFront(done, rest, entry);
          table := table[i := entry];
        }
      }
    }

    /** `Aging`: erases behind the cursor as it goes. */
    method Aging() returns (modified: bool)
      modifies this
      ensures table == T.Aging(old(table))
      ensures modified <==> AnyExpires(old(table))
    {
      NothingYet(table);
      hide T.Aging, AnyExpires, Tick, Expires;
      modified := false;
      ghost var seen, done, rest := 0, [], table;
      var i := 0;
      while i < |table|
        invariant seen <= |old(table)| && rest == old(table)[seen..]
        invariant done == T.Aging(old(table)[..seen])
        invariant table == done + rest && i == |done|
        invariant modified <==> AnyExpires(old(table)[..seen])
        decreases |rest|
      {
        AgingSnoc(old(table), seen);
        var expired;
        i, expired := AgeAt(i, done, rest);
        modified := modified || expired;
        done, rest, seen := done + AsSeq(Tick(rest[0])), rest[1..], seen + 1;
      }
      assert old(table)[..seen] == old(table);
    }

    /** `unsafeGarbageCollection`. */
    method GarbageCollection()
      modifies this
      ensures table == Collect(old(table))
    {
      NothingYet(table);
      hide Collect;
      ghost var seen, done, rest := 0, [], table;
      var i := 0;
      while i < |table|
        invariant seen <= |old(table)| && rest == old(table)[seen..]
        invariant done == Collect(old(table)[..seen])
        invariant table == done + rest && i == |done|
        decreases |rest|
      {
        CollectSnoc(old(table), seen);
        AtFront(done, rest, rest[0]);
        if table[i].status == Garbage && table[i].gc == 0 {
          table := table[..i] + table[i + 1..];
        } else {
          done := done + [rest[0]];
          i := i + 1;
        }
        rest, seen := rest[1..], seen + 1;
      }
      assert old(table)[..seen] == old(table);
    }

    method Remove(dest: Ip, mask: Ip)
      modifies this
      ensures table == T.Remove(old(table), dest, mask)
    {
      var i := 0;
      while i < |table|
        invariant i <= |table| && table == old(table)
        invariant forall j :: 0 <= j < i ==> !HasKey(table[j], dest, mask)
      {
        if table[i].dest == dest && table[i].mask == mask {
          table := table[..i] + table[i + 1..];
          return;
        }
        i := i + 1;
      }
    }

    method Query(address: Ip) returns (nexthop: Option<Ip>)
      ensures nexthop == T.Query(table, address)
    {
      hide Matches, Longer;
      var found := false;
      var best, prefix := NONE, NONE;
      var i := 0;
      while i < |table|
        invariant i <= |table|
        invariant found <==> Best(table, address, i).Some?
        invariant prefix == PrefixOf(table, Best(table, address, i))
        invariant found ==> best == table[Best(table, address, i).value].nexthop
      {
        var entry := table[i];
        if Matches(entry, address) && Longer(entry, prefix) {
          found := true;
          best, prefix := entry.nexthop, entry.mask;
        }
        i := i + 1;
      }
      return if found then Some(best) else None;
    }
  }
}
