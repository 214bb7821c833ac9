/** What the kernel's maps guarantee each connection, over whole runs. */
module KernelTheorems {
  import opened Machine
  import opened Segments
  import opened E = Endpoints
  import opened EndpointActions
  import opened EndpointStates
  import opened Kernels

  // ----- the maps stay in order -----

  lemma ChildState(p: Segment)
    ensures Child(p).state == SynReceived
  {
    hide Enqueue;
    EnqueueFields(Fresh(SynReceived, (p.seqNum + 1) % U32), SYN_ACK, []);
  }

  lemma ActiveStays(e: Endpoint, a: Action)
    requires e.state != Listen && e.state != CloseWait && Allowed(e, a)
    ensures Act(e, a).state != Listen && Act(e, a).state != CloseWait
  {
    hide Act, Allowed;
    StepMovesAlongEdge(e, a);
  }

  lemma ReceiveStays(e: Endpoint, p: Segment, env: Environment)
    requires e.state != Listen && e.state != CloseWait
    ensures E.Receive(e, p, env).state != Listen && E.Receive(e, p, env).state != CloseWait
  {
    hide E.Receive;
    ReceiveStates(e, p, env);
  }

  lemma ConnectState(e: Endpoint)
    ensures E.Connect(e).state == SynSent
  {
  }

  /** A socket may change in what the maps do not look at. */
  lemma ReplaceKeepsWell(k: Kernel, i: nat, s: Entry)
    requires Well(k) && i < |k.sockets| && Known(k, s)
    requires s.role == k.sockets[i].role && s.key == k.sockets[i].key && s.parent == k.sockets[i].parent
    ensures Well(k.(sockets := k.sockets[i := s]))
  {
    var k1 := k.(sockets := k.sockets[i := s]);
    forall j | 0 <= j < |k1.sockets| ensures Known(k1, k1.sockets[j]) {
      assert Known(k, k.sockets[j]);
    }
  }

  lemma AppendKeepsWell(k: Kernel, s: Entry)
    requires Well(k) && Known(k, s)
    ensures Well(k.(sockets := k.sockets + [s]))
  {
  }

  lemma RequestKeepsWell(k: Kernel, listener: nat, key: Key, p: Segment)
    requires Well(k) && listener < |k.sockets| && k.sockets[listener].role == Passive
    ensures Well(Request(k, listener, key, p))
  {
    ChildState(p);
    hide Child;
    AppendKeepsWell(k, Entry(Child(p), key, Active, Some(listener), 0, [], 0));
  }

  lemma AcceptQueueKeepsWell(k: Kernel, listener: nat, child: nat)
    requires Well(k) && (listener < |k.sockets| ==> k.sockets[listener].role == Passive)
    ensures Well(AddToAcceptQueue(k, listener, child))
  {
  }

  lemma ReceiveKeepsWell(k: Kernel, i: nat, key: Key, p: Segment, env: Environment)
    requires Well(k) && i < |k.sockets| && k.sockets[i].role != Idle
    ensures Well(ReceiveAt(k, i, key, p, env))
  {
    assert Known(k, k.sockets[i]);
    hide E.Receive, Child;
    var s := k.sockets[i];
    if s.role == Passive {
      if p.flags == SYN && !env.backlogFull { RequestKeepsWell(k, i, key, p); }
    } else {
      ReceiveStays(s.endpoint, p, env);
      var s1 := s.(endpoint := E.Receive(s.endpoint, p, env));
      ReplaceKeepsWell(k, i, s1);
      if s.parent.Some? { AcceptQueueKeepsWell(k.(sockets := k.sockets[i := s1]), s.parent.value, i); }
    }
  }

  /** The socket a packet is handed to. */
  lemma FoundIsSocket(k: Kernel, key: Key)
    requires Well(k) && FindSocket(k.establish, k.listen, key).Some?
    ensures var i := FindSocket(k.establish, k.listen, key).value;
            i < |k.sockets| && Known(k, k.sockets[i])
            && k.sockets[i].role == (if key in k.establish then Active else Passive)
  {
  }

  lemma PacketKeepsWell(k: Kernel, key: Key, p: Segment, junk: bool, sendOk: bool)
    requires Well(k)
    ensures Well(Deliver(k, key, p, junk, sendOk))
  {
    hide Well, ReceiveAt;
    if FindSocket(k.establish, k.listen, key).Some? {
      FoundIsSocket(k, key);
      var i := FindSocket(k.establish, k.listen, key).value;
      ReceiveKeepsWell(k, i, key, p, EnvironmentOf(k, i, junk, sendOk));
    }
  }

  /** An idle socket, which nothing refers to yet, takes its role. */
  lemma PromoteKeepsWell(k: Kernel, i: nat, s: Entry)
    requires Well(k) && i < |k.sockets| && k.sockets[i].role == Idle && Known(k, s) && s.parent == None
    ensures Well(k.(sockets := k.sockets[i := s]))
  {
  }

  lemma EstablishKeepsWell(k: Kernel, i: nat)
    requires Well(k) && i < |k.sockets| && k.sockets[i].role == Active
    ensures Well(k.(establish := Insert(k.establish, k.sockets[i].key, i)))
  {
  }

  lemma ConnectKeepsWell(k: Kernel, i: nat, remote: Address)
    requires Well(k) && Enabled(k, ConnectTo(i, remote))
    ensures Well(Next(k, ConnectTo(i, remote)))
  {
    assert Known(k, k.sockets[i]);
    ConnectState(k.sockets[i].endpoint);
    hide E.Connect, Well;
    var e := k.sockets[i];
    var s := e.(endpoint := E.Connect(e.endpoint), key := Key(remote, e.key.local), role := Active);
    PromoteKeepsWell(k, i, s);
    EstablishKeepsWell(k.(sockets := k.sockets[i := s]), i);
  }

  lemma ListenKeepsWell(k: Kernel, i: nat)
    requires Well(k) && Enabled(k, ListenOn(i))
    ensures Well(Next(k, ListenOn(i)))
  {
    assert Known(k, k.sockets[i]);
    var e := k.sockets[i];
    var s := e.(endpoint := e.endpoint.(state := Listen), role := Passive);
    PromoteKeepsWell(k, i, s);
    var k1 := k.(sockets := k.sockets[i := s]);
    hide Known;
    assert Well(k1.(listen := Insert(k1.listen, e.key.local, i))) by {
      forall j | 0 <= j < |k1.sockets| ensures Known(k1.(listen := Insert(k1.listen, e.key.local, i)), k1.sockets[j]) {
        KnownFrame(k1, k1.(listen := Insert(k1.listen, e.key.local, i)), k1.sockets[j]);
      }
    }
  }

  lemma KnownFrame(k: Kernel, k1: Kernel, s: Entry)
    requires Known(k, s) && k1.sockets == k.sockets
    ensures Known(k1, s)
  {
  }

  lemma StepKeepsWell(k: Kernel, i: nat, a: Action)
    requires Well(k) && Enabled(k, Event.Step(i, a))
    ensures Well(Next(k, Event.Step(i, a)))
  {
    hide Act, Allowed;
    assert Known(k, k.sockets[i]);
    ActiveStays(k.sockets[i].endpoint, a);
    ReplaceKeepsWell(k, i, k.sockets[i].(endpoint := Act(k.sockets[i].endpoint, a)));
  }

  lemma HandedKeepsWell(k: Kernel, child: nat)
    requires Well(k) && child < |k.sockets|
    ensures var s := k.sockets[child]; Well(k.(sockets := k.sockets[child := s.(accepted := s.accepted + 1)]))
  {
  }

  lemma TakenKeepsWell(k: Kernel, i: nat)
    requires Well(k) && i < |k.sockets| && k.sockets[i].acceptQueue != []
    ensures var e := k.sockets[i];
            Well(k.(sockets := k.sockets[i := e.(backlog := e.backlog - 1, acceptQueue := e.acceptQueue[1..])]))
  {
  }

  lemma AcceptKeepsWell(k: Kernel, i: nat)
    requires Well(k) && Enabled(k, AcceptOn(i))
    ensures Well(Next(k, AcceptOn(i)))
  {
    hide Well;
    var e := k.sockets[i];
    TakenKeepsWell(k, i);
    var k1 := k.(sockets := k.sockets[i := e.(backlog := e.backlog - 1, acceptQueue := e.acceptQueue[1..])]);
    if e.acceptQueue[0] < |k1.sockets| { HandedKeepsWell(k1, e.acceptQueue[0]); }
  }

  lemma CleanupKeepsWell(k: Kernel, i: nat)
    requires Well(k) && Enabled(k, Cleanup(i))
    ensures Well(Next(k, Cleanup(i)))
  {
    var k1 := Next(k, Cleanup(i));
    forall j | 0 <= j < |k1.sockets| ensures Known(k1, k1.sockets[j]) {
      assert Known(k, k.sockets[j]);
    }
  }

  lemma NextKeepsWell(k: Kernel, ev: Event)
    requires Well(k) && Enabled(k, ev)
    ensures Well(Next(k, ev))
  {
    match ev
    case Open(local) =>
      hide Act, E.Receive;
      AppendKeepsWell(k, Entry(Fresh(Closed, 0), Key(Address(0, 0), local), Idle, None, 0, [], 0));
    case ListenOn(i) => hide Well; ListenKeepsWell(k, i);
    case ConnectTo(i, remote) => hide Well; ConnectKeepsWell(k, i, remote);
    case Packet(key, p, junk, sendOk) => hide Well, Deliver; PacketKeepsWell(k, key, p, junk, sendOk);
    case AcceptOn(i) => hide Well; AcceptKeepsWell(k, i);
    case Step(i, a) => hide Well; StepKeepsWell(k, i, a);
    case Cleanup(i) => hide Well; CleanupKeepsWell(k, i);
  }

  lemma {:induction false} ExecKeepsWell(k: Kernel, events: seq<Event>)
    requires Well(k) && Run(k, events)
    ensures Well(Exec(k, events))
    decreases |events|
  {
    hide Well, Next, Enabled;
    if events != [] {
      NextKeepsWell(k, events[0]);
      ExecKeepsWell(Next(k, events[0]), events[1..]);
    }
  }

  // ----- one connection at a time -----

  /** The endpoint a connection finds: its socket, else the listener as the
      two-endpoint model sees one, else nothing yet. */
  ghost function Seen(k: Kernel, key: Key): Endpoint
    requires Well(k)
  {
    if key in k.establish then k.sockets[k.establish[key]].endpoint
    else if key.local in k.listen then Fresh(Listen, 0)
    else Fresh(Closed, 0)
  }

  /** What an event means to one connection. */
  ghost function Projected(k: Kernel, ev: Event, key: Key): seq<Action>
    requires Well(k) && Enabled(k, ev)
  {
    match ev
    case Packet(c, p, junk, sendOk) =>
      if c == key && FindSocket(k.establish, k.listen, key).Some? then
        [Action.Receive(p, EnvironmentOf(k, FindSocket(k.establish, k.listen, key).value, junk, sendOk))]
      else []
    case ConnectTo(i, remote) =>
      if Key(remote, k.sockets[i].key.local) == key && key !in k.establish then [Action.Connect] else []
    case Step(i, a) => if key in k.establish && k.establish[key] == i then [a] else []
    case _ => []
  }

  /** An event that takes a connection's map entry away, or changes whether an
      address not yet connected has a listener. */
  ghost predicate Disturbs(k: Kernel, ev: Event, key: Key)
    requires Enabled(k, ev)
  {
    match ev
    case Cleanup(i) =>
      || (key in k.establish && k.sockets[i].role == Active && k.sockets[i].key == key)
      || (key !in k.establish && key.local in k.listen
          && k.sockets[i].role == Passive && k.sockets[i].key.local == key.local)
    case ListenOn(i) => key !in k.establish && key.local !in k.listen && k.sockets[i].key.local == key.local
    case _ => false
  }

  /** A packet reaches exactly one connection, and moves it by `Receive`. */
  lemma PacketProjects(k: Kernel, c: Key, p: Segment, junk: bool, sendOk: bool, key: Key)
    requires Well(k) && Well(Deliver(k, c, p, junk, sendOk))
    ensures var k1 := Deliver(k, c, p, junk, sendOk);
            var found := FindSocket(k.establish, k.listen, c);
            if found.None? then k1 == k
            else found.value < |k.sockets|
                 && Seen(k1, key) == if c == key then E.Receive(Seen(k, key), p, EnvironmentOf(k, found.value, junk, sendOk))
                                     else Seen(k, key)
  {
    if FindSocket(k.establish, k.listen, c).Some? {
      FoundIsSocket(k, c);
      FoundIsListening(k, c);
      var i := FindSocket(k.establish, k.listen, c).value;
      var env := EnvironmentOf(k, i, junk, sendOk);
      hide Well, Known, E.Receive, Completes;
      if c in k.establish { SocketProjects(k, c, p, env, key); } else { ListenerProjects(k, c, p, env, key); }
    }
  }

  /** A packet for a connection that has a socket. */
  lemma SocketProjects(k: Kernel, c: Key, p: Segment, env: Environment, key: Key)
    requires Well(k) && c in k.establish && k.establish[c] < |k.sockets|
    requires k.sockets[k.establish[c]].endpoint.state != Listen
    requires Well(ReceiveAt(k, k.establish[c], c, p, env))
    ensures Seen(ReceiveAt(k, k.establish[c], c, p, env), key)
            == if c == key then E.Receive(Seen(k, key), p, env) else Seen(k, key)
  {
    hide E.Receive, Known, Completes, Request;
  }

  /** A packet for a connection that only has a listener. */
  lemma ListenerProjects(k: Kernel, c: Key, p: Segment, env: Environment, key: Key)
    requires Well(k) && c !in k.establish && c.local in k.listen && k.listen[c.local] < |k.sockets|
    requires k.sockets[k.listen[c.local]].endpoint.state == Listen
    requires Well(ReceiveAt(k, k.listen[c.local], c, p, env))
    ensures Seen(ReceiveAt(k, k.listen[c.local], c, p, env), key)
            == if c == key then E.Receive(Seen(k, key), p, env) else Seen(k, key)
  {
    ReceiveFromListen(p, env);
    hide E.Receive, Known, Child;
  }

  lemma FoundIsListening(k: Kernel, key: Key)
    requires Well(k) && FindSocket(k.establish, k.listen, key).Some?
    ensures var i := FindSocket(k.establish, k.listen, key).value;
            i < |k.sockets|
            && (k.sockets[i].endpoint.state == Listen <==> key !in k.establish)
            && (key !in k.establish ==> k.sockets[i].endpoint == Fresh(Listen, 0))
            && k.sockets[i].endpoint == Seen(k, key)
  {
  }

  lemma ReceiveFromListen(p: Segment, env: Environment)
    ensures E.Receive(Fresh(Listen, 0), p, env)
            == if p.flags == SYN && !env.backlogFull then Child(p) else Fresh(Listen, 0)
  {
  }
}
