/**
 One RIP-like routing table: src/network/routing_impl.cc and routing_impl.h.

 A table is a sequence of entries and each operation a function on it;
 `RoutingTableObjects.RoutingTable` is the object whose loops change the vector
 in place.
 */
module RoutingTables {
  import opened Machine

  const MAX_AGING: int := 6
  const MAX_GARBAGE: int := 4
  const POISON_THRESHOLD: int := 16

  /** An address or netmask, in host order. */
  datatype Ip = Ip(bits: bv32)

  const NONE: Ip := Ip(0)
  const EXACT: Ip := Ip(0xFFFF_FFFF)

  datatype Status = Persist | Stable | Garbage

  datatype RoutingEntry = RoutingEntry(
    status: Status,
    age: int,
    gc: int,
    dest: Ip,
    mask: Ip,
    nexthop: Ip,
    distance: int)

  /** An entry of a vector on the wire; the distance is a `std::uint32_t`. */
  datatype DVEntry = DVEntry(dest: Ip, mask: Ip, distance: nat)

  predicate HasKey(e: RoutingEntry, dest: Ip, mask: Ip) {
    e.dest == dest && e.mask == mask
  }

  // ----- insertion -----

  /** The position of the first entry with a key, or the length. */
  function Find(t: seq<RoutingEntry>, dest: Ip, mask: Ip): (i: nat)
    ensures i <= |t|
    ensures forall j :: 0 <= j < i ==> !HasKey(t[j], dest, mask)
    ensures i < |t| ==> HasKey(t[i], dest, mask)
  {
    if t == [] || HasKey(t[0], dest, mask) then 0 else 1 + Find(t[1..], dest, mask)
  }

  /** News about a destination the table has. */
  function Merge(e: RoutingEntry, nexthop: Ip, distance: int): RoutingEntry {
    if e.nexthop == nexthop then
      if distance > POISON_THRESHOLD then
        if e.status == Stable then
          e.(distance := POISON_THRESHOLD + 1, status := Garbage, age := 0, gc := MAX_GARBAGE)
        else
          e.(distance := POISON_THRESHOLD + 1)
      else
        e.(distance := distance, status := Stable, age := MAX_AGING, gc := 0)
    else if distance < e.distance && e.status == Stable then
      e.(distance := distance, nexthop := nexthop, age := MAX_AGING)
    else
      e
  }

  /** `modified`: only a stable route that turns to garbage reports. */
  predicate Poisons(e: RoutingEntry, nexthop: Ip, distance: int) {
    e.nexthop == nexthop && distance > POISON_THRESHOLD && e.status == Stable
  }

  function NewEntry(dest: Ip, mask: Ip, nexthop: Ip, distance: int, status: Status): RoutingEntry {
    RoutingEntry(status, if status == Stable then MAX_AGING else 0, 0, dest, mask, nexthop, distance)
  }

  /** `unsafeInsert`. */
  function Insert(t: seq<RoutingEntry>, dest: Ip, mask: Ip, nexthop: Ip, distance: int, status: Status)
    : seq<RoutingEntry>
  {
    var i := Find(t, dest, mask);
    if i < |t| then t[i := Merge(t[i], nexthop, distance)]
    else if distance < POISON_THRESHOLD && status != Garbage then t + [NewEntry(dest, mask, nexthop, distance, status)]
    else t
  }

  predicate InsertModifies(t: seq<RoutingEntry>, dest: Ip, mask: Ip, nexthop: Ip, distance: int) {
    var i := Find(t, dest, mask);
    i < |t| && Poisons(t[i], nexthop, distance)
  }

  // ----- vectors -----

  /** `ntohl(distance) + 1` passed as an `int`. */
  function WireDistance(distance: nat): int {
    var w := (distance + 1) % U32;
    if w < U32 / 2 then w else w - U32
  }

  function Learn(t: seq<RoutingEntry>, sender: Ip, v: DVEntry): seq<RoutingEntry> {
    Insert(t, v.dest, v.mask, sender, WireDistance(v.distance), Stable)
  }

  /** `UpdateByDistanceVector`. */
  function Update(t: seq<RoutingEntry>, sender: Ip, vector: seq<DVEntry>): seq<RoutingEntry>
    decreases |vector|
  {
    if vector == [] then t
    else Learn(Update(t, sender, vector[..|vector| - 1]), sender, vector[|vector| - 1])
  }

  predicate UpdateModifies(t: seq<RoutingEntry>, sender: Ip, vector: seq<DVEntry>)
    decreases |vector|
  {
    vector != [] &&
    var last := vector[|vector| - 1];
    (UpdateModifies(t, sender, vector[..|vector| - 1])
     || InsertModifies(Update(t, sender, vector[..|vector| - 1]), last.dest, last.mask, sender, WireDistance(last.distance)))
  }

  /** `htonl(distance)` of an `int`. */
  function ToWire(distance: int): nat {
    distance % U32
  }

  /** What is advertised of an entry towards a peer: routes through that very
      peer are advertised as unreachable. */
  function Advertise(e: RoutingEntry, peer: Ip): DVEntry {
    DVEntry(e.dest, e.mask, ToWire(if e.nexthop == peer then POISON_THRESHOLD + 1 else e.distance))
  }

  /** `SerializeDistanceVector`. */
  function Serialize(t: seq<RoutingEntry>, peer: Ip): (v: seq<DVEntry>)
    ensures |v| == |t| && forall i :: 0 <= i < |t| ==> v[i] == Advertise(t[i], peer)
  {
    seq(|t|, i requires 0 <= i < |t| => Advertise(t[i], peer))
  }

  // ----- ageing -----

  /** One tick of one entry; `None` when it leaves the table. */
  function Tick(e: RoutingEntry): Option<RoutingEntry> {
    match e.status
    case Stable =>
      if e.age - 1 == 0 then
        Some(e.(age := 0, distance := POISON_THRESHOLD + 1, status := Garbage, gc := MAX_GARBAGE))
      else Some(e.(age := e.age - 1))
    case Garbage => if e.gc - 1 == 0 then None else Some(e.(gc := e.gc - 1))
    case Persist => Some(e)
  }

  function AsSeq(e: Option<RoutingEntry>): seq<RoutingEntry> {
    match e case Some(x) => [x] case None => []
  }

  /** `Aging`. */
  function Aging(t: seq<RoutingEntry>): seq<RoutingEntry> {
    if t == [] then [] else Aging(t[..|t| - 1]) + AsSeq(Tick(t[|t| - 1]))
  }

  /** A tick that turns a stable route to garbage. */
  predicate Expires(e: RoutingEntry) {
    e.status == Stable && e.age - 1 == 0
  }

  // ----- removal -----

  predicate Dead(e: RoutingEntry) {
    e.status == Garbage && e.gc == 0
  }

  /** `unsafeGarbageCollection`. */
  function Collect(t: seq<RoutingEntry>): seq<RoutingEntry> {
    if t == [] then []
    else Collect(t[..|t| - 1]) + (if Dead(t[|t| - 1]) then [] else [t[|t| - 1]])
  }

  /** `Remove`: the first entry with the key. */
  function Remove(t: seq<RoutingEntry>, dest: Ip, mask: Ip): seq<RoutingEntry> {
    var i := Find(t, dest, mask);
    if i < |t| then t[..i] + t[i + 1..] else t
  }

  // ----- lookup -----

  function And(a: bv32, b: bv32): bv32 {
    a & b
  }

  /** Unsigned comparison. */
  predicate Less(a: bv32, b: bv32) {
    a < b
  }

  function Masked(a: Ip, mask: Ip): bv32 {
    And(a.bits, mask.bits)
  }

  /** An entry `Query` considers; the prefix it starts from is zero. */
  predicate Matches(e: RoutingEntry, address: Ip) {
    Masked(address, e.mask) == Masked(e.dest, e.mask) && e.status != Garbage
  }

  /** The mask of the best entry so far. */
  function PrefixOf(t: seq<RoutingEntry>, b: Option<nat>): Ip
    requires b.Some? ==> b.value < |t|
  {
    if b.Some? then t[b.value].mask else NONE
  }

  predicate Longer(e: RoutingEntry, prefix: Ip) {
    Less(prefix.bits, e.mask.bits)
  }

  /** The position of the best entry among the first `n`, as `Query` keeps it;
      `None` while the prefix is still zero. */
  function Best(t: seq<RoutingEntry>, address: Ip, n: nat): (b: Option<nat>)
    requires n <= |t|
    ensures b.Some? ==> b.value < n
  {
    if n == 0 then None
    else
      var b := Best(t, address, n - 1);
      if Matches(t[n - 1], address) && Longer(t[n - 1], PrefixOf(t, b)) then Some(n - 1) else b
  }

  /** `Query`. */
  function Query(t: seq<RoutingEntry>, address: Ip): Option<Ip> {
    match Best(t, address, |t|)
    case Some(i) => Some(t[i].nexthop)
    case None => None
  }

  /** `InitRoutingTable`: one persistent exact entry for each local address. */
  function Initial(locals: seq<Ip>): (t: seq<RoutingEntry>)
    ensures |t| == |locals|
    ensures forall i :: 0 <= i < |t| ==> t[i] == NewEntry(locals[i], EXACT, NONE, 0, Persist)
  {
    seq(|locals|, i requires 0 <= i < |locals| => NewEntry(locals[i], EXACT, NONE, 0, Persist))
  }
}
