/**
 Two whole hosts, each with any number of sockets and connections, and the network
 between them: the guarantees of the two-endpoint model hold of every one of their
 connections.
 */
module Hosts {
  import opened Segments
  import opened E = Endpoints
  import opened EndpointActions
  import opened P = Protocol
  import opened ProtocolTheorems
  import opened ProtocolOpening
  import opened ProtocolHandshake
  import K = Kernels
  import opened KernelTheorems
  import opened KernelConnections

  datatype Hosts = Hosts(a: K.Kernel, b: K.Kernel)

  datatype HostMove = HostMove(side: Side, event: K.Event)

  function Host(h: Hosts, side: Side): K.Kernel {
    if side == A then h.a else h.b
  }

  /** A connection as the other host names it. */
  function Mirror(key: K.Key): K.Key {
    K.Key(key.local, key.remote)
  }

  /** The connection `key` of host A, as the host on a side names it. */
  function KeyAt(key: K.Key, side: Side): K.Key {
    if side == A then key else Mirror(key)
  }

  ghost predicate WellHosts(h: Hosts) {
    K.Well(h.a) && K.Well(h.b)
  }

  /** The two ends of a connection, as the two-endpoint model sees them. */
  ghost function Ends(h: Hosts, key: K.Key): System
    requires WellHosts(h)
  {
    System(Seen(h.a, key), Seen(h.b, Mirror(key)))
  }

  /** A packet of the connection was sent by its other end, any time before; what
      arrives for any other key is arbitrary. */
  ghost predicate MayMove(h: Hosts, m: HostMove, key: K.Key)
    requires WellHosts(h)
  {
    && K.Enabled(Host(h, m.side), m.event)
    && (m.event.Packet? && m.event.key == KeyAt(key, m.side) ==>
          m.event.packet in Seen(Host(h, Other(m.side)), KeyAt(key, Other(m.side))).wire)
  }

  function AfterMove(h: Hosts, m: HostMove, k: K.Kernel): Hosts {
    if m.side == A then h.(a := k) else h.(b := k)
  }

  ghost function NextHosts(h: Hosts, m: HostMove, key: K.Key): Hosts
    requires WellHosts(h) && MayMove(h, m, key)
  {
    AfterMove(h, m, K.Next(Host(h, m.side), m.event))
  }

  lemma NextWell(h: Hosts, m: HostMove, key: K.Key)
    requires WellHosts(h) && MayMove(h, m, key)
    ensures WellHosts(NextHosts(h, m, key))
  {
    NextKeepsWell(Host(h, m.side), m.event);
    hide K.Well, K.Next, K.Enabled;
  }

  /** A run in which the connection keeps its map entries and has room for its
      sequence numbers. */
  ghost predicate HostRun(h: Hosts, moves: seq<HostMove>, key: K.Key)
    requires WellHosts(h)
    decreases |moves|
  {
    moves == [] ||
    (&& MayMove(h, moves[0], key)
     && !Disturbs(Host(h, moves[0].side), moves[0].event, KeyAt(key, moves[0].side))
     && (forall a :: a in Projected(Host(h, moves[0].side), moves[0].event, KeyAt(key, moves[0].side)) ==>
           Room(Seen(Host(h, moves[0].side), KeyAt(key, moves[0].side)), a))
     && (NextWell(h, moves[0], key); HostRun(NextHosts(h, moves[0], key), moves[1..], key)))
  }

  ghost function ExecHosts(h: Hosts, moves: seq<HostMove>, key: K.Key): (r: Hosts)
    requires WellHosts(h) && HostRun(h, moves, key)
    ensures WellHosts(r)
    decreases |moves|
  {
    if moves == [] then h
    else
      NextWell(h, moves[0], key);
      ExecHosts(NextHosts(h, moves[0], key), moves[1..], key)
  }

  function Lift(side: Side, actions: seq<Action>): (moves: seq<Move>)
    ensures |moves| == |actions|
  {
    seq(|actions|, i requires 0 <= i < |actions| => Move(side, actions[i]))
  }

  /** What a run of the two hosts is to one connection. */
  ghost function ProjectHosts(h: Hosts, moves: seq<HostMove>, key: K.Key): seq<Move>
    requires WellHosts(h) && HostRun(h, moves, key)
    decreases |moves|
  {
    if moves == [] then []
    else
      NextWell(h, moves[0], key);
      Lift(moves[0].side, Projected(Host(h, moves[0].side), moves[0].event, KeyAt(key, moves[0].side)))
      + ProjectHosts(NextHosts(h, moves[0], key), moves[1..], key)
  }

  /** At most one step of the connection per event, and a permitted one. */
  lemma OneMove(h: Hosts, m: HostMove, key: K.Key)
    requires WellHosts(h) && MayMove(h, m, key)
    requires !Disturbs(Host(h, m.side), m.event, KeyAt(key, m.side))
    requires forall a :: a in Projected(Host(h, m.side), m.event, KeyAt(key, m.side)) ==>
               Room(Seen(Host(h, m.side), KeyAt(key, m.side)), a)
    ensures WellHosts(NextHosts(h, m, key))
    ensures var actions := Projected(Host(h, m.side), m.event, KeyAt(key, m.side));
            if actions == [] then Ends(NextHosts(h, m, key), key) == Ends(h, key)
            else |actions| == 1 && P.Enabled(Ends(h, key), Move(m.side, actions[0]))
                 && Ends(NextHosts(h, m, key), key) == P.Next(Ends(h, key), Move(m.side, actions[0]))
  {
    NextWell(h, m, key);
    var k := Host(h, m.side);
    var c := KeyAt(key, m.side);
    NextProjects(k, m.event, c);
    var actions := Projected(k, m.event, c);
    ProjectedIs(k, m.event, c);
    hide K.Well, K.Next, K.Enabled, Room, Allowed, Act, Projected, Seen;
    if actions == [] {
      NoAction(Seen(k, c));
    } else {
      assert actions[0] in actions && actions == [actions[0]];
      OneAction(Seen(k, c), actions[0]);
    }
  }

  /** The one step an event can be, and where its packet comes from. */
  lemma ProjectedIs(k: K.Kernel, ev: K.Event, c: K.Key)
    requires K.Well(k) && K.Enabled(k, ev)
    ensures |Projected(k, ev, c)| <= 1
    ensures forall a :: a in Projected(k, ev, c) && a.Receive? ==> ev.Packet? && ev.key == c && ev.packet == a.packet
  {
  }

  lemma LiftCons(s: System, side: Side, actions: seq<Action>, rest: seq<Move>)
    requires |actions| <= 1
    requires if actions == [] then P.Run(s, rest)
             else P.Enabled(s, Move(side, actions[0])) && P.Run(P.Next(s, Move(side, actions[0])), rest)
    ensures P.Run(s, Lift(side, actions) + rest)
    ensures P.Exec(s, Lift(side, actions) + rest)
            == if actions == [] then P.Exec(s, rest) else P.Exec(P.Next(s, Move(side, actions[0])), rest)
  {
    hide P.Enabled, P.Next;
    if actions == [] {
      assert Lift(side, actions) + rest == rest;
    } else {
      assert (Lift(side, actions) + rest)[1..] == rest;
    }
  }

  /** However the events of two hosts interleave, what happens to the two ends of
      one connection is a run of the two-endpoint model. */
  lemma {:induction false} HostsProject(h: Hosts, moves: seq<HostMove>, key: K.Key)
    requires WellHosts(h) && HostRun(h, moves, key)
    ensures P.Run(Ends(h, key), ProjectHosts(h, moves, key))
    ensures Ends(ExecHosts(h, moves, key), key) == P.Exec(Ends(h, key), ProjectHosts(h, moves, key))
    decreases |moves|
  {
    hide K.Well, K.Enabled, Seen, NextHosts, Ends, Projected, Room, P.Enabled, P.Next, Disturbs;
    if moves != [] {
      NextWell(h, moves[0], key);
      OneMove(h, moves[0], key);
      HostsProject(NextHosts(h, moves[0], key), moves[1..], key);
      LiftCons(Ends(h, key), moves[0].side,
               Projected(Host(h, moves[0].side), moves[0].event, KeyAt(key, moves[0].side)),
               ProjectHosts(NextHosts(h, moves[0], key), moves[1..], key));
    }
  }

  /** No socket of A uses the connection yet and B listens at its address. */
  ghost predicate AboutToConnect(h: Hosts, key: K.Key)
    requires WellHosts(h)
  {
    && key !in h.a.establish && key.local !in h.a.listen
    && Mirror(key) !in h.b.establish && key.remote in h.b.listen
  }

  /** What an application at either end relies on. */
  ghost predicate Guaranteed(x: Endpoint, y: Endpoint) {
    && Delivers(x, y) && Conserves(x, y) && Balanced(x)
    && Tiles(x.rtxQ + x.sendQ, x.unackBase, x.sendSeq, x.stream)
  }

  lemma SafeIsGuaranteed(start: System, moves: seq<Move>, side: Side)
    requires Initial(start) && Run(start, moves) && Safe(start, moves)
    ensures Guaranteed(Get(P.Exec(start, moves), side), Peer(P.Exec(start, moves), side))
  {
    hide Delivers, Conserves, Balanced, Tiles, Run, Safe, Initial, P.Exec;
    StreamSafety(start, moves, side);
    NothingLost(start, moves, side);
    Accounting(start, moves, side);
    TilingInEveryRun(start, moves, side);
  }

  /** Between two hosts with any number of connections, every connection that a
      client opens to a listener delivers its bytes in order and without loss in
      both directions, keeps its books and agrees about its handshake, whatever the
      network and the other connections do. */
  lemma EveryConnectionIsSafe(h: Hosts, moves: seq<HostMove>, key: K.Key)
    requires WellHosts(h) && AboutToConnect(h, key) && HostRun(h, moves, key)
    ensures var s := Ends(ExecHosts(h, moves, key), key);
            && Guaranteed(s.a, s.b) && Guaranteed(s.b, s.a) && Agreed(s.a, s.b)
            && (Patient(Ends(h, key), ProjectHosts(h, moves, key)) ==> ClientFirst(s))
  {
    var start := Ends(h, key);
    assert ClientAndListener(start);
    hide *;
    HostsProject(h, moves, key);
    var steps := ProjectHosts(h, moves, key);
    PassiveRunsAreSafe(start, steps);
    HandshakeAgreement(start, steps);
    SafeIsGuaranteed(start, steps, A);
    SafeIsGuaranteed(start, steps, B);
    SidesAre(P.Exec(start, steps));
  }

  /** An end that leaves FIN-WAIT-1, or LAST-ACK for CLOSED, has nothing queued,
      and the other end has accepted every byte and FIN it ever queued. */
  lemma EveryConnectionClosesSafely(h: Hosts, moves: seq<HostMove>, m: HostMove, key: K.Key)
    requires WellHosts(h) && AboutToConnect(h, key) && HostRun(h, moves, key)
    requires var g := ExecHosts(h, moves, key); HostRun(g, [m], key)
    requires var g := ExecHosts(h, moves, key);
             var x, f := Get(Ends(g, key), m.side), Get(Ends(ExecHosts(g, [m], key), key), m.side);
             (x.state == FinWait1 || x.state == LastAck) && f.state != x.state
    ensures var t := Ends(ExecHosts(ExecHosts(h, moves, key), [m], key), key);
            Finished(Get(t, m.side), Peer(t, m.side))
  {
    var g := ExecHosts(h, moves, key);
    var start := Ends(h, key);
    assert ClientAndListener(start);
    hide *;
    HostsProject(h, moves, key);
    PassiveRunsAreSafe(start, ProjectHosts(h, moves, key));
    LastMove(g, m, key);
    var actions := Projected(Host(g, m.side), m.event, KeyAt(key, m.side));
    CloseSafety(start, ProjectHosts(h, moves, key), Move(m.side, actions[0]));
  }

  lemma LastMove(g: Hosts, m: HostMove, key: K.Key)
    requires WellHosts(g) && HostRun(g, [m], key)
    requires Get(Ends(ExecHosts(g, [m], key), key), m.side) != Get(Ends(g, key), m.side)
    ensures K.Enabled(Host(g, m.side), m.event)
    ensures var actions := Projected(Host(g, m.side), m.event, KeyAt(key, m.side));
            |actions| == 1 && P.Enabled(Ends(g, key), Move(m.side, actions[0]))
            && Ends(ExecHosts(g, [m], key), key) == P.Next(Ends(g, key), Move(m.side, actions[0]))
  {
    hide K.Well, K.Enabled, Seen, NextHosts, Ends, Projected, Room, P.Enabled, P.Next, Disturbs;
    OneMove(g, m, key);
    assert ExecHosts(g, [m], key) == NextHosts(g, m, key);
  }

  lemma SidesAre(s: System)
    ensures Get(s, A) == s.a == Peer(s, B) && Get(s, B) == s.b == Peer(s, A)
  {
  }
}
