/** Every connection of a host runs as one endpoint of the two-endpoint model, and
    has at most one child socket. */
module KernelConnections {
  import opened Machine
  import opened Segments
  import opened E = Endpoints
  import opened EndpointActions
  import opened EndpointWrite
  import opened EndpointClosing
  import opened EndpointOpening
  import opened Kernels
  import opened KernelTheorems

  // ----- projection -----

  lemma {:induction false} ActAllSplits(e: Endpoint, first: seq<Action>, rest: seq<Action>)
    ensures ActAll(e, first + rest) == ActAll(ActAll(e, first), rest)
    ensures AllAllowed(e, first) && AllAllowed(ActAll(e, first), rest) ==> AllAllowed(e, first + rest)
    decreases |first|
  {
    hide Act, Allowed;
    if first == [] {
      assert first + rest == rest;
    } else {
      assert (first + rest)[1..] == first[1..] + rest;
      ActAllSplits(Act(e, first[0]), first[1..], rest);
    }
  }

  lemma OneAction(e: Endpoint, a: Action)
    ensures ActAll(e, [a]) == Act(e, a) && (AllAllowed(e, [a]) <==> Allowed(e, a))
  {
  }

  lemma OneReceive(e: Endpoint, p: Segment, env: Environment)
    ensures ActAll(e, [Action.Receive(p, env)]) == E.Receive(e, p, env) && AllAllowed(e, [Action.Receive(p, env)])
  {
  }

  lemma NoAction(e: Endpoint)
    ensures ActAll(e, []) == e && AllAllowed(e, [])
  {
  }

  /** How one event moves one connection. */
  ghost predicate Moves(k: Kernel, ev: Event, key: Key)
    requires Well(k) && Enabled(k, ev) && Well(Next(k, ev))
  {
    && Seen(Next(k, ev), key) == ActAll(Seen(k, key), Projected(k, ev, key))
    && AllAllowed(Seen(k, key), Projected(k, ev, key))
  }

  lemma PacketMoves(k: Kernel, c: Key, p: Segment, junk: bool, sendOk: bool, key: Key)
    requires Well(k) && Well(Next(k, Packet(c, p, junk, sendOk)))
    ensures Moves(k, Packet(c, p, junk, sendOk), key)
  {
    PacketProjects(k, c, p, junk, sendOk, key);
    hide Deliver, Well, E.Receive, Known, ActAll, AllAllowed, Act, Allowed;
    var found := FindSocket(k.establish, k.listen, c);
    if found.Some? {
      OneReceive(Seen(k, key), p, EnvironmentOf(k, found.value, junk, sendOk));
    }
    NoAction(Seen(k, key));
  }

  lemma ConnectMoves(k: Kernel, i: nat, remote: Address, key: Key)
    requires Well(k) && Enabled(k, ConnectTo(i, remote)) && Well(Next(k, ConnectTo(i, remote)))
    ensures Moves(k, ConnectTo(i, remote), key)
  {
    assert Known(k, k.sockets[i]);
    hide E.Connect;
    OneAction(Fresh(Closed, 0), Action.Connect);
  }

  lemma StepMoves(k: Kernel, i: nat, a: Action, key: Key)
    requires Well(k) && Enabled(k, Event.Step(i, a)) && Well(Next(k, Event.Step(i, a)))
    ensures Moves(k, Event.Step(i, a), key)
  {
    hide Act, Allowed;
    OneAction(k.sockets[i].endpoint, a);
  }

  lemma AcceptMoves(k: Kernel, i: nat, key: Key)
    requires Well(k) && Enabled(k, AcceptOn(i)) && Well(Next(k, AcceptOn(i)))
    ensures Moves(k, AcceptOn(i), key)
  {
  }

  lemma QuietMoves(k: Kernel, ev: Event, key: Key)
    requires Well(k) && Enabled(k, ev) && Well(Next(k, ev)) && !Disturbs(k, ev, key)
    requires ev.Open? || ev.ListenOn? || ev.Cleanup?
    ensures Moves(k, ev, key)
  {
    hide Act, Allowed, Known;
  }

  /** An event either does nothing to a connection or is one permitted step of
      the two-endpoint model on it. */
  lemma NextProjects(k: Kernel, ev: Event, key: Key)
    requires Well(k) && Enabled(k, ev) && !Disturbs(k, ev, key)
    ensures Well(Next(k, ev)) && Moves(k, ev, key)
  {
    NextKeepsWell(k, ev);
    hide Well, Next, Moves, Allowed;
    match ev
    case Packet(c, p, junk, sendOk) => PacketMoves(k, c, p, junk, sendOk, key);
    case ConnectTo(i, remote) => ConnectMoves(k, i, remote, key);
    case Step(i, a) => StepMoves(k, i, a, key);
    case AcceptOn(i) => AcceptMoves(k, i, key);
    case _ => QuietMoves(k, ev, key);
  }

  ghost predicate Undisturbed(k: Kernel, events: seq<Event>, key: Key)
    requires Run(k, events)
    decreases |events|
  {
    events == [] || (!Disturbs(k, events[0], key) && Undisturbed(Next(k, events[0]), events[1..], key))
  }

  /** The steps a run of the whole host is to one connection. */
  ghost function Projection(k: Kernel, events: seq<Event>, key: Key): seq<Action>
    requires Well(k) && Run(k, events)
    decreases |events|
  {
    if events == [] then []
    else
      NextKeepsWell(k, events[0]);
      Projected(k, events[0], key) + Projection(Next(k, events[0]), events[1..], key)
  }

  /** However the packets and calls of a host's connections interleave, each
      connection sees only its own, as steps of the two-endpoint model. */
  lemma {:induction false} RunProjects(k: Kernel, events: seq<Event>, key: Key)
    requires Well(k) && Run(k, events) && Undisturbed(k, events, key)
    ensures Well(Exec(k, events))
    ensures Seen(Exec(k, events), key) == ActAll(Seen(k, key), Projection(k, events, key))
    ensures AllAllowed(Seen(k, key), Projection(k, events, key))
    decreases |events|
  {
    hide Well, Next, Enabled, Projected, Seen, Disturbs;
    ExecKeepsWell(k, events);
    if events != [] {
      NextProjects(k, events[0], key);
      RunProjects(Next(k, events[0]), events[1..], key);
      ActAllSplits(Seen(k, key), Projected(k, events[0], key), Projection(Next(k, events[0]), events[1..], key));
    }
  }

  // ----- one child -----

  ghost predicate IsChild(k: Kernel, i: nat, key: Key) {
    i < |k.sockets| && k.sockets[i].parent.Some? && k.sockets[i].key == key
  }

  /** The only child of a connection is the one the map names. */
  ghost predicate SingleChild(k: Kernel, key: Key) {
    forall i: nat :: IsChild(k, i, key) ==> key in k.establish && k.establish[key] == i
  }

  ghost predicate Removes(k: Kernel, ev: Event, key: Key)
    requires Enabled(k, ev)
  {
    ev.Cleanup? && k.sockets[ev.i].role == Active && k.sockets[ev.i].key == key
  }

  /** The children of a connection before and after an event, and its map entry. */
  ghost predicate KeepsChildren(k: Kernel, k1: Kernel, key: Key) {
    && (key in k.establish ==> key in k1.establish && k1.establish[key] == k.establish[key])
    && (forall i: nat :: IsChild(k1, i, key) ==>
          IsChild(k, i, key) || (key !in k.establish && key in k1.establish && k1.establish[key] == i))
  }

  lemma PacketKeepsChildren(k: Kernel, c: Key, p: Segment, junk: bool, sendOk: bool, key: Key)
    requires Well(k)
    ensures KeepsChildren(k, Deliver(k, c, p, junk, sendOk), key)
  {
    if FindSocket(k.establish, k.listen, c).Some? { FoundIsListening(k, c); }
    hide E.Receive, Child, Well;
  }

  lemma ConnectKeepsChildren(k: Kernel, i: nat, remote: Address, key: Key)
    requires Well(k) && Enabled(k, ConnectTo(i, remote))
    ensures KeepsChildren(k, Next(k, ConnectTo(i, remote)), key)
  {
    assert Known(k, k.sockets[i]);
    hide E.Connect, Well;
  }

  /** Nothing but its own cleanup ends a map entry, and a child appears only with
      the entry that names it. */
  lemma NextKeepsChildren(k: Kernel, ev: Event, key: Key)
    requires Well(k) && Enabled(k, ev) && !Removes(k, ev, key)
    ensures KeepsChildren(k, Next(k, ev), key)
  {
    match ev
    case Packet(c, p, junk, sendOk) => hide Deliver, KeepsChildren; PacketKeepsChildren(k, c, p, junk, sendOk, key);
    case ConnectTo(i, remote) => hide Next, KeepsChildren; ConnectKeepsChildren(k, i, remote, key);
    case _ => hide Act, Well, Allowed;
  }

  lemma SingleStays(k: Kernel, k1: Kernel, key: Key)
    requires SingleChild(k, key) && KeepsChildren(k, k1, key)
    ensures SingleChild(k1, key)
    ensures key in k.establish ==> key in k1.establish && k1.establish[key] == k.establish[key]
    ensures key in k.establish ==> forall i: nat :: IsChild(k1, i, key) ==> IsChild(k, i, key)
  {
  }

  ghost predicate NeverRemoved(k: Kernel, events: seq<Event>, key: Key)
    requires Run(k, events)
    decreases |events|
  {
    events == [] || (!Removes(k, events[0], key) && NeverRemoved(Next(k, events[0]), events[1..], key))
  }

  /** While a connection's entry is in the map, no sequence of packets, duplicate
      SYNs among them, creates another child for it; and from an empty kernel it
      never has more than one. */
  lemma {:induction false} DuplicateSynMakesNoChild(k: Kernel, events: seq<Event>, key: Key)
    requires Well(k) && Run(k, events) && SingleChild(k, key) && NeverRemoved(k, events, key)
    ensures SingleChild(Exec(k, events), key)
    ensures key in k.establish ==>
              && key in Exec(k, events).establish && Exec(k, events).establish[key] == k.establish[key]
              && forall i: nat :: IsChild(Exec(k, events), i, key) ==> IsChild(k, i, key)
    decreases |events|
  {
    hide Well, Next, Enabled, SingleChild, KeepsChildren, Removes;
    if events != [] {
      NextKeepsWell(k, events[0]);
      NextKeepsChildren(k, events[0], key);
      SingleStays(k, Next(k, events[0]), key);
      DuplicateSynMakesNoChild(Next(k, events[0]), events[1..], key);
    }
  }

  const Empty := Kernel(map[], map[], [])

  /** In a kernel that starts with no sockets, a connection never removed from
      the map has at most one child socket, ever. */
  lemma AtMostOneChild(events: seq<Event>, key: Key, i: nat, j: nat)
    requires Run(Empty, events) && NeverRemoved(Empty, events, key)
    requires IsChild(Exec(Empty, events), i, key) && IsChild(Exec(Empty, events), j, key)
    ensures i == j
  {
    hide Run, Exec, NeverRemoved;
    DuplicateSynMakesNoChild(Empty, events, key);
  }

  // ----- cleanup -----

  /** Cleanup frees the key of a connection or the address of a listener, and leaves
      every other key and every socket alone: the connection then finds its listener
      again, or nothing, and a listener that is gone is found by no new connection. */
  lemma CleanupFrees(k: Kernel, i: nat, key: Key)
    requires Well(k) && Enabled(k, Cleanup(i))
    ensures var after := Next(k, Cleanup(i));
            && after.sockets == k.sockets
            && (key in after.establish <==> key in k.establish && !(k.sockets[i].role == Active && k.sockets[i].key == key))
            && (key.local in after.listen <==>
                  key.local in k.listen && !(k.sockets[i].role == Passive && k.sockets[i].key.local == key.local))
            && (key in after.establish ==> after.establish[key] == k.establish[key])
            && (key.local in after.listen ==> after.listen[key.local] == k.listen[key.local])
  {
    hide Well;
  }

  // ----- who is found -----

  /** After `listen` an address that was free finds the new listener, through any key
      without a connection; a taken address keeps the listener it has. */
  lemma ListenRegisters(k: Kernel, i: nat, key: Key)
    requires Well(k) && Enabled(k, ListenOn(i)) && key !in k.establish && key.local == k.sockets[i].key.local
    ensures var after := Next(k, ListenOn(i));
            && FindSocket(after.establish, after.listen, key)
               == Some(if key.local in k.listen then k.listen[key.local] else i)
            && after.sockets[i].endpoint == Fresh(Listen, 0) && after.sockets[i].role == Passive
  {
    assert Known(k, k.sockets[i]);
    hide Well;
  }

  /** After `connect` a key that was free finds the connecting socket, which has sent
      its SYN. */
  lemma ConnectRegisters(k: Kernel, i: nat, remote: Address)
    requires Well(k) && Enabled(k, ConnectTo(i, remote)) && Key(remote, k.sockets[i].key.local) !in k.establish
    ensures var key := Key(remote, k.sockets[i].key.local);
            var after := Next(k, ConnectTo(i, remote));
            && FindSocket(after.establish, after.listen, key) == Some(i)
            && after.sockets[i].key == key && after.sockets[i].endpoint.state == SynSent
            && after.sockets[i].endpoint.wire == [Segment(0, 0, SYN, [])]
  {
    assert Known(k, k.sockets[i]);
    hide Well;
    GoesOut(Fresh(Closed, 0), SYN, []);
    hide Enqueue;
  }

  /** A SYN for a listener with room makes a child that the key finds from then on,
      that knows its listener, and that has sent its SYN|ACK. */
  lemma SynRegisters(k: Kernel, key: Key, p: Segment, junk: bool, sendOk: bool)
    requires Well(k) && key !in k.establish && key.local in k.listen && p.flags == SYN && p.seqNum + 1 < U32
    requires k.sockets[k.listen[key.local]].backlog < MAX_BACKLOG
    ensures var after := Next(k, Packet(key, p, junk, sendOk));
            var i := |k.sockets|;
            && FindSocket(after.establish, after.listen, key) == Some(i) && |after.sockets| == i + 1
            && after.sockets[i].parent == Some(k.listen[key.local]) && after.sockets[i].key == key
            && after.sockets[i].endpoint.state == SynReceived
            && after.sockets[i].endpoint.wire == [Segment(0, p.seqNum + 1, SYN_ACK, [])]
  {
    assert Known(k, k.sockets[k.listen[key.local]]);
    hide Well;
    ListenOutcome(Fresh(Listen, 0), p, Environment(junk, sendOk, false));
    hide Child;
  }
}
