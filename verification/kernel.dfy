/**
 The sockets of one host and the maps that find them: src/transport/tcp_kernel.cc,
 with the accept queue of src/transport/socket_impl.h:165-180 and the order of
 calls in src/transport/socket.cc.

 A socket is named by its index in `sockets`; a map entry holds such a name where
 the source holds a pointer.  `TcpKernels.TcpKernel` is the object that updates
 the maps in place.
 */
module Kernels {
  import opened Machine
  import opened Segments
  import opened Endpoints
  import opened EndpointActions

  datatype Address = Address(ip: nat, port: nat)

  /** `connection_key_t`. */
  datatype Key = Key(remote: Address, local: Address)

  datatype Role = Idle | Passive | Active

  /** A socket and what the kernel keeps with it.  `parent` is `listen_socket_`
      and `accepted` counts how often `Accept` has returned the socket. */
  datatype Entry = Entry(
    endpoint: Endpoint,
    key: Key,
    role: Role,
    parent: Option<nat>,
    backlog: int,
    acceptQueue: seq<nat>,
    accepted: nat)

  datatype Kernel = Kernel(establish: map<Key, nat>, listen: map<Address, nat>, sockets: seq<Entry>)

  datatype Event =
    | Open(local: Address)
    | ListenOn(i: nat)
    | ConnectTo(i: nat, remote: Address)
    | Packet(key: Key, packet: Segment, junk: bool, sendOk: bool)
    | AcceptOn(i: nat)
    | Step(i: nat, action: Action)
    | Cleanup(i: nat)

  // ----- the maps -----

  /** `std::map::insert`: an existing entry stays. */
  function Insert<K, V>(m: map<K, V>, k: K, v: V): map<K, V> {
    if k in m then m else m[k := v]
  }

  function Lookup<K, V>(m: map<K, V>, k: K): Option<V> {
    if k in m then Some(m[k]) else None
  }

  /** `findSocket`: connections first, then listeners. */
  function FindSocket(establish: map<Key, nat>, listen: map<Address, nat>, key: Key): Option<nat> {
    if key in establish then Some(establish[key]) else Lookup(listen, key.local)
  }

  // ----- what the maps and sockets always satisfy -----

  ghost predicate Known(k: Kernel, e: Entry) {
    && (e.role == Idle ==> e.endpoint == Fresh(Closed, 0) && e.parent == None && e.acceptQueue == [])
    && (e.role == Passive ==> e.endpoint == Fresh(Listen, 0) && e.parent == None)
    && (e.role == Active ==> e.endpoint.state != Listen && e.endpoint.state != CloseWait && e.acceptQueue == [])
    && (e.parent.Some? ==> e.role == Active && e.parent.value < |k.sockets| && k.sockets[e.parent.value].role == Passive)
  }

  ghost predicate Well(k: Kernel) {
    && (forall i :: 0 <= i < |k.sockets| ==> Known(k, k.sockets[i]))
    && (forall c :: c in k.establish ==>
          k.establish[c] < |k.sockets| && k.sockets[k.establish[c]].role == Active && k.sockets[k.establish[c]].key == c)
    && (forall a :: a in k.listen ==> k.listen[a] < |k.sockets| && k.sockets[k.listen[a]].role == Passive)
  }

  // ----- events -----

  /** What the source, or the way it is called, requires of each event. */
  ghost predicate Enabled(k: Kernel, ev: Event) {
    match ev
    case Open(_) => true
    case ListenOn(i) => i < |k.sockets| && k.sockets[i].role == Idle
    case ConnectTo(i, remote) => i < |k.sockets| && k.sockets[i].role == Idle && k.sockets[i].key.local !in k.listen
    case Packet(_, _, _, _) => true
    case AcceptOn(i) => i < |k.sockets| && k.sockets[i].acceptQueue != []
    case Step(i, a) =>
      i < |k.sockets| && k.sockets[i].role == Active && Allowed(k.sockets[i].endpoint, a) && !a.Receive? && !a.Connect?
    case Cleanup(i) => i < |k.sockets|
  }

  /** `AddToAcceptQueue`: at the front. */
  function AddToAcceptQueue(k: Kernel, listener: nat, child: nat): Kernel {
    if listener >= |k.sockets| then k
    else
      var e := k.sockets[listener];
      k.(sockets := k.sockets[listener := e.(backlog := e.backlog + 1, acceptQueue := [child] + e.acceptQueue)])
  }

  /** `ReceiveRequest`: a socket for the new connection, entered in the map. */
  function Request(k: Kernel, listener: nat, key: Key, p: Segment): Kernel {
    k.(establish := Insert(k.establish, key, |k.sockets|),
       sockets := k.sockets + [Entry(Child(p), key, Active, Some(listener), 0, [], 0)])
  }

  /** What the environment decides when socket `i` handles a packet. */
  function EnvironmentOf(k: Kernel, i: nat, junk: bool, sendOk: bool): Environment
    requires i < |k.sockets|
  {
    Environment(junk, sendOk, k.sockets[i].backlog >= MAX_BACKLOG)
  }

  /** `ReceiveStateProcess` of socket `i`. */
  function ReceiveAt(k: Kernel, i: nat, key: Key, p: Segment, env: Environment): Kernel
    requires i < |k.sockets|
  {
    var s := k.sockets[i];
    if s.endpoint.state == Listen then
      if p.flags == SYN && !env.backlogFull then Request(k, i, key, p) else k
    else
      var k1 := k.(sockets := k.sockets[i := s.(endpoint := Endpoints.Receive(s.endpoint, p, env))]);
      if Completes(s.endpoint, p) && s.parent.Some? then AddToAcceptQueue(k1, s.parent.value, i) else k1
  }

  /** `tcpReceiveCallback`.  Every name in the maps denotes a socket: see `Well`. */
  function Deliver(k: Kernel, key: Key, p: Segment, junk: bool, sendOk: bool): Kernel {
    match FindSocket(k.establish, k.listen, key)
    case None => k
    case Some(i) => if i < |k.sockets| then ReceiveAt(k, i, key, p, EnvironmentOf(k, i, junk, sendOk)) else k
  }

  /** `PopAcceptQueue`: from the front. */
  function PopAcceptQueue(k: Kernel, i: nat): Kernel
    requires i < |k.sockets| && k.sockets[i].acceptQueue != []
  {
    var e := k.sockets[i];
    var child := e.acceptQueue[0];
    var k1 := k.(sockets := k.sockets[i := e.(backlog := e.backlog - 1, acceptQueue := e.acceptQueue[1..])]);
    if child < |k1.sockets| then
      k1.(sockets := k1.sockets[child := k1.sockets[child].(accepted := k1.sockets[child].accepted + 1)])
    else k1
  }

  ghost function Next(k: Kernel, ev: Event): Kernel
    requires Enabled(k, ev)
  {
    match ev
    case Open(local) =>
      k.(sockets := k.sockets + [Entry(Fresh(Closed, 0), Key(Address(0, 0), local), Idle, None, 0, [], 0)])
    case ListenOn(i) =>
      var e := k.sockets[i];
      k.(listen := Insert(k.listen, e.key.local, i),
         sockets := k.sockets[i := e.(endpoint := e.endpoint.(state := Listen), role := Passive)])
    case ConnectTo(i, remote) =>
      var e := k.sockets[i];
      var key := Key(remote, e.key.local);
      k.(establish := Insert(k.establish, key, i),
         sockets := k.sockets[i := e.(endpoint := Endpoints.Connect(e.endpoint), key := key, role := Active)])
    case Packet(key, p, junk, sendOk) => Deliver(k, key, p, junk, sendOk)
    case AcceptOn(i) => PopAcceptQueue(k, i)
    case Step(i, a) => k.(sockets := k.sockets[i := k.sockets[i].(endpoint := Act(k.sockets[i].endpoint, a))])
    case Cleanup(i) =>
      match k.sockets[i].role
      case Passive => k.(listen := k.listen - {k.sockets[i].key.local})
      case Active => k.(establish := k.establish - {k.sockets[i].key})
      case Idle => k
  }

  ghost predicate Run(k: Kernel, events: seq<Event>)
    decreases |events|
  {
    events == [] || (Enabled(k, events[0]) && Run(Next(k, events[0]), events[1..]))
  }

  ghost function Exec(k: Kernel, events: seq<Event>): Kernel
    requires Run(k, events)
    decreases |events|
  {
    if events == [] then k else Exec(Next(k, events[0]), events[1..])
  }
}
