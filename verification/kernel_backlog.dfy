/** What the backlog bounds: src/transport/socket_impl.cc:240-246 against the limit
    described at src/transport/socket_impl.h:242-245. */
module KernelBacklog {
  import opened Machine
  import opened Segments
  import opened E = Endpoints
  import opened EndpointActions
  import opened ProtocolOpening
  import opened Kernels
  import opened KernelTheorems
  import opened KernelAccept

  // ----- what the limit is meant to bound -----

  /** The children of a listener still in the handshake. */
  ghost function HalfOpenOf(k: Kernel, l: nat): set<nat> {
    set i: nat | i < |k.sockets| && k.sockets[i].parent == Some(l) && k.sockets[i].endpoint.state == SynReceived
  }

  /** The connections waiting in the handshake or to be accepted. */
  ghost function Pending(k: Kernel, l: nat): nat
    requires l < |k.sockets|
  {
    |k.sockets[l].acceptQueue| + |HalfOpenOf(k, l)|
  }

  /** The event is a SYN of which listener `l` makes a child. */
  ghost predicate TakesSyn(k: Kernel, ev: Event, l: nat)
    requires l < |k.sockets|
  {
    && ev.Packet? && FindSocket(k.establish, k.listen, ev.key) == Some(l)
    && k.sockets[l].endpoint.state == Listen && ev.packet.flags == SYN && k.sockets[l].backlog < MAX_BACKLOG
  }

  // ----- one event -----

  lemma SamePending(k: Kernel, k1: Kernel, l: nat)
    requires SameChildren(k, k1) && l < |k.sockets|
    ensures Pending(k1, l) == Pending(k, l)
  {
    assert HalfOpenOf(k1, l) == HalfOpenOf(k, l);
  }

  /** A new socket; in the handshake if it is a child. */
  lemma AppendPending(k: Kernel, k1: Kernel, s: Entry, l: nat)
    requires k1.sockets == k.sockets + [s] && l < |k.sockets|
    requires s.parent.Some? ==> s.endpoint.state == SynReceived
    ensures Pending(k1, l) == Pending(k, l) + (if s.parent == Some(l) then 1 else 0)
  {
    var n := |k.sockets|;
    if s.parent == Some(l) {
      assert HalfOpenOf(k1, l) == HalfOpenOf(k, l) + {n};
    } else {
      assert HalfOpenOf(k1, l) == HalfOpenOf(k, l);
    }
  }

  /** A child that completes its handshake moves from one part to the other. */
  lemma CompletionPending(k: Kernel, i: nat, f: Endpoint, m: nat, l: nat)
    requires i < |k.sockets| && l < |k.sockets| && m < |k.sockets| && m != i && k.sockets[i].parent == Some(m)
    requires k.sockets[i].endpoint.state == SynReceived && f.state != SynReceived
    ensures var k1 := AddToAcceptQueue(k.(sockets := k.sockets[i := k.sockets[i].(endpoint := f)]), m, i);
            l < |k1.sockets| && Pending(k1, l) == Pending(k, l)
  {
    MovedPending(k, AddToAcceptQueue(k.(sockets := k.sockets[i := k.sockets[i].(endpoint := f)]), m, i), i, m, l);
  }

  lemma MovedPending(k: Kernel, k1: Kernel, i: nat, m: nat, l: nat)
    requires i < |k.sockets| == |k1.sockets| && l < |k.sockets| && k.sockets[i].parent == Some(m)
    requires k.sockets[i].endpoint.state == SynReceived && k1.sockets[i].endpoint.state != SynReceived
    requires forall j: nat :: j < |k.sockets| ==>
               && k1.sockets[j].parent == k.sockets[j].parent
               && (j != i ==> k1.sockets[j].endpoint == k.sockets[j].endpoint)
               && k1.sockets[j].acceptQueue == (if j == m then [i] else []) + k.sockets[j].acceptQueue
    ensures Pending(k1, l) == Pending(k, l)
  {
    if m == l {
      assert HalfOpenOf(k, l) == HalfOpenOf(k1, l) + {i};
    } else {
      assert HalfOpenOf(k1, l) == HalfOpenOf(k, l);
    }
  }

  lemma ReceivePending(k: Kernel, i: nat, key: Key, p: Segment, env: Environment, l: nat)
    requires Well(k) && Offered(k) && i < |k.sockets| && k.sockets[i].role != Idle && l < |k.sockets|
    ensures var k1 := ReceiveAt(k, i, key, p, env);
            var child := i == l && k.sockets[l].endpoint.state == Listen && p.flags == SYN && !env.backlogFull;
            l < |k1.sockets| && Pending(k1, l) == Pending(k, l) + (if child then 1 else 0)
  {
    var s := k.sockets[i];
    assert Known(k, s) && ChildOk(k, i);
    assert s.parent.Some? ==> s.parent.value != i;
    ChildState(p);
    hide Well, E.Receive, Child, Known, Offered, Completes, Pending;
    var k1 := ReceiveAt(k, i, key, p, env);
    if s.endpoint.state == Listen {
      if p.flags == SYN && !env.backlogFull {
        AppendPending(k, k1, Entry(Child(p), key, Active, Some(i), 0, [], 0), l);
      }
    } else if s.parent.Some? {
      assert s.endpoint.state != CloseWait by { KnownState(k, s); }
      PacketStates(s.endpoint, p, env);
      if Completes(s.endpoint, p) {
        CompletesIn(s.endpoint, p);
        CompletionPending(k, i, E.Receive(s.endpoint, p, env), s.parent.value, l);
      } else {
        SamePending(k, k1, l);
      }
    } else {
      SamePending(k, k1, l);
    }
  }

  lemma KnownState(k: Kernel, s: Entry)
    requires Known(k, s) && s.parent.Some?
    ensures s.endpoint.state != CloseWait && s.parent.value < |k.sockets|
  {
  }

  lemma AcceptPending(k: Kernel, i: nat, l: nat)
    requires i < |k.sockets| && l < |k.sockets| && k.sockets[i].acceptQueue != []
    ensures var k1 := PopAcceptQueue(k, i);
            l < |k1.sockets| && Pending(k1, l) == Pending(k, l) - (if i == l then 1 else 0)
  {
    assert HalfOpenOf(PopAcceptQueue(k, i), l) == HalfOpenOf(k, l);
  }

  /** Exactly what each event does to the connections pending at a listener: a SYN
      that makes a child adds one, `Accept` takes one, nothing else counts. */
  lemma PendingExact(k: Kernel, ev: Event, l: nat)
    requires Well(k) && Offered(k) && Enabled(k, ev) && l < |k.sockets|
    ensures l < |Next(k, ev).sockets|
    ensures Pending(Next(k, ev), l)
            == Pending(k, l) + (if TakesSyn(k, ev, l) then 1 else 0) - (if ev == AcceptOn(l) then 1 else 0)
  {
    hide Well, Offered, Pending, Next, Enabled, TakesSyn;
    match ev
    case Packet(_, _, _, _) => PacketPending(k, ev, l);
    case AcceptOn(i) => AcceptOnPending(k, i, l);
    case Step(_, _) => QuietPending(k, ev, l);
    case ListenOn(_) => RolePending(k, ev, l);
    case ConnectTo(_, _) => RolePending(k, ev, l);
    case Open(_) => OpenPending(k, ev, l);
    case Cleanup(_) => OpenPending(k, ev, l);
  }

  lemma OpenPending(k: Kernel, ev: Event, l: nat)
    requires Enabled(k, ev) && l < |k.sockets| && (ev.Open? || ev.Cleanup?)
    ensures l < |Next(k, ev).sockets| && Pending(Next(k, ev), l) == Pending(k, l) && !TakesSyn(k, ev, l)
  {
    hide Pending;
    if ev.Open? {
      AppendPending(k, Next(k, ev), Entry(Fresh(Closed, 0), Key(Address(0, 0), ev.local), Idle, None, 0, [], 0), l);
    } else {
      SamePending(k, Next(k, ev), l);
    }
  }

  lemma RolePending(k: Kernel, ev: Event, l: nat)
    requires Well(k) && Enabled(k, ev) && l < |k.sockets| && (ev.ListenOn? || ev.ConnectTo?)
    ensures l < |Next(k, ev).sockets| && Pending(Next(k, ev), l) == Pending(k, l) && !TakesSyn(k, ev, l)
  {
    assert Known(k, k.sockets[ev.i]);
    hide Well, Known, E.Connect, Pending;
    SamePending(k, Next(k, ev), l);
  }

  lemma QuietPending(k: Kernel, ev: Event, l: nat)
    requires Well(k) && Enabled(k, ev) && l < |k.sockets| && ev.Step?
    ensures l < |Next(k, ev).sockets| && Pending(Next(k, ev), l) == Pending(k, l) && !TakesSyn(k, ev, l)
  {
    assert Known(k, k.sockets[ev.i]);
    hide Well, Act, Allowed, Pending;
    CallStates(k.sockets[ev.i].endpoint, ev.action);
    SamePending(k, Next(k, ev), l);
  }

  lemma AcceptOnPending(k: Kernel, i: nat, l: nat)
    requires Enabled(k, AcceptOn(i)) && l < |k.sockets|
    ensures l < |Next(k, AcceptOn(i)).sockets| && !TakesSyn(k, AcceptOn(i), l)
    ensures Pending(Next(k, AcceptOn(i)), l) == Pending(k, l) - (if i == l then 1 else 0)
  {
    hide Pending;
    AcceptPending(k, i, l);
  }

  lemma PacketPending(k: Kernel, ev: Event, l: nat)
    requires Well(k) && Offered(k) && l < |k.sockets| && ev.Packet?
    ensures l < |Next(k, ev).sockets|
    ensures Pending(Next(k, ev), l) == Pending(k, l) + (if TakesSyn(k, ev, l) then 1 else 0)
  {
    hide Well, Offered, ReceiveAt, Known, Pending;
    if FindSocket(k.establish, k.listen, ev.key).Some? {
      FoundIsSocket(k, ev.key);
      var i := FindSocket(k.establish, k.listen, ev.key).value;
      ReceivePending(k, i, ev.key, ev.packet, EnvironmentOf(k, i, ev.junk, ev.sendOk), l);
    }
  }

  /** The limit on pending connections survives an event if and only if the event
      is not a SYN that is taken while the limit is reached.  The guard the source
      tests instead is the number waiting to be accepted. */
  lemma LimitSurvivesExactly(k: Kernel, ev: Event, l: nat)
    requires Well(k) && Offered(k) && Enabled(k, ev) && l < |k.sockets| && Pending(k, l) <= MAX_BACKLOG
    ensures l < |Next(k, ev).sockets|
    ensures Pending(Next(k, ev), l) <= MAX_BACKLOG <==> !(TakesSyn(k, ev, l) && HalfOpenOf(k, l) != {})
  {
    PendingExact(k, ev, l);
    assert QueueOk(k, l);
    hide Well, Next, Enabled;
    if HalfOpenOf(k, l) != {} { NotEmpty(HalfOpenOf(k, l)); }
  }

  lemma NotEmpty(s: set<nat>)
    requires s != {}
    ensures |s| >= 1
  {
  }

  // ----- runs -----

  ghost predicate AlwaysWithin(k: Kernel, events: seq<Event>, l: nat)
    requires Run(k, events)
    decreases |events|
  {
    && l < |k.sockets| && Pending(k, l) <= MAX_BACKLOG && k.sockets[l].backlog <= MAX_BACKLOG
    && (events == [] || AlwaysWithin(Next(k, events[0]), events[1..], l))
  }

  /** No SYN is taken while a child of the listener is in its handshake. */
  ghost predicate OneHandshake(k: Kernel, events: seq<Event>, l: nat)
    requires Run(k, events)
    decreases |events|
  {
    events == []
    || (&& l < |k.sockets| && !(TakesSyn(k, events[0], l) && HalfOpenOf(k, l) != {})
        && OneHandshake(Next(k, events[0]), events[1..], l))
  }

  /** So the pending connections of a listener, and with them its backlog, stay
      within the limit through a run if and only if handshakes do not overlap. */
  lemma {:induction false} BacklogBoundedExactly(k: Kernel, events: seq<Event>, l: nat)
    requires Well(k) && Offered(k) && Run(k, events) && l < |k.sockets| && Pending(k, l) <= MAX_BACKLOG
    ensures AlwaysWithin(k, events, l) <==> OneHandshake(k, events, l)
    decreases |events|
  {
    assert k.sockets[l].backlog <= Pending(k, l) by { assert QueueOk(k, l); }
    hide Well, Offered, Next, Enabled, Pending, TakesSyn, HalfOpenOf;
    if events != [] {
      NextKeepsWell(k, events[0]);
      NextKeepsOffered(k, events[0]);
      LimitSurvivesExactly(k, events[0], l);
      if Pending(Next(k, events[0]), l) <= MAX_BACKLOG {
        BacklogBoundedExactly(Next(k, events[0]), events[1..], l);
      } else {
        Exceeds(Next(k, events[0]), events[1..], l);
      }
    }
  }

  lemma Exceeds(k: Kernel, events: seq<Event>, l: nat)
    requires Run(k, events) && l < |k.sockets| && Pending(k, l) > MAX_BACKLOG
    ensures !AlwaysWithin(k, events, l)
  {
    hide Next, Enabled, Pending;
  }
}
