/** The accept queue of a listener: src/transport/socket_impl.h:165-180 and
    src/transport/socket_impl.cc:240-291, 423-437, 504-513. */
module KernelAccept {
  import opened Machine
  import opened Segments
  import opened E = Endpoints
  import opened EndpointActions
  import opened EndpointStates
  import opened ProtocolOpening
  import opened Kernels
  import opened KernelTheorems

  ghost predicate Distinct(q: seq<nat>) {
    forall i, j :: 0 <= i < j < |q| ==> q[i] != q[j]
  }

  /** A listener's queue: counted by its backlog, without repetition, and of its
      own children only. */
  ghost predicate QueueOk(k: Kernel, l: nat)
    requires l < |k.sockets|
  {
    var s := k.sockets[l];
    && s.backlog == |s.acceptQueue| && Distinct(s.acceptQueue)
    && forall c :: c in s.acceptQueue ==> c < |k.sockets| && k.sockets[c].parent == Some(l)
  }

  /** A child waits in its listener's queue exactly from the completion of its
      handshake until `Accept` returns it, which happens at most once. */
  ghost predicate ChildOk(k: Kernel, i: nat)
    requires i < |k.sockets|
  {
    var s := k.sockets[i];
    s.parent.Some? ==>
      && s.parent.value < |k.sockets| && s.endpoint.state != SynSent && s.accepted <= 1
      && (i in k.sockets[s.parent.value].acceptQueue <==> s.endpoint.state != SynReceived && s.accepted == 0)
      && (s.endpoint.state == SynReceived ==> s.accepted == 0)
  }

  ghost predicate Offered(k: Kernel) {
    && (forall l: nat :: l < |k.sockets| ==> QueueOk(k, l))
    && (forall i: nat :: i < |k.sockets| ==> ChildOk(k, i))
  }

  // ----- each event -----

  /** Nothing the queues depend on has changed. */
  ghost predicate SameChildren(k: Kernel, k1: Kernel) {
    && |k.sockets| == |k1.sockets|
    && forall i: nat :: i < |k.sockets| ==>
         && k1.sockets[i].parent == k.sockets[i].parent && k1.sockets[i].acceptQueue == k.sockets[i].acceptQueue
         && k1.sockets[i].backlog == k.sockets[i].backlog && k1.sockets[i].accepted == k.sockets[i].accepted
         && (k.sockets[i].parent.Some? ==>
               && (k1.sockets[i].endpoint.state == SynReceived <==> k.sockets[i].endpoint.state == SynReceived)
               && (k1.sockets[i].endpoint.state == SynSent ==> k.sockets[i].endpoint.state == SynSent))
  }

  lemma SameKeepsOffered(k: Kernel, k1: Kernel)
    requires Offered(k) && SameChildren(k, k1)
    ensures Offered(k1)
  {
    forall l: nat | l < |k1.sockets| ensures QueueOk(k1, l) { assert QueueOk(k, l); }
    forall i: nat | i < |k1.sockets| ensures ChildOk(k1, i) { assert ChildOk(k, i); }
  }

  /** A new socket waiting in no queue. */
  lemma AppendKeepsOffered(k: Kernel, k1: Kernel, s: Entry)
    requires Offered(k) && k1.sockets == k.sockets + [s]
    requires s.acceptQueue == [] && s.backlog == 0 && s.accepted == 0
    requires s.parent.Some? ==> s.parent.value < |k.sockets| && s.endpoint.state == SynReceived
    ensures Offered(k1)
  {
    forall l: nat | l < |k1.sockets| ensures QueueOk(k1, l) { if l < |k.sockets| { assert QueueOk(k, l); } }
    forall i: nat | i < |k1.sockets| ensures ChildOk(k1, i) {
      if i < |k.sockets| { assert ChildOk(k, i); }
      else if s.parent.Some? { assert QueueOk(k, s.parent.value); }
    }
  }

  /** The handshake of child `i` completes. */
  lemma CompletionKeepsOffered(k: Kernel, i: nat, f: Endpoint)
    requires Well(k) && Offered(k) && i < |k.sockets| && k.sockets[i].parent.Some?
    requires k.sockets[i].endpoint.state == SynReceived && f.state != SynReceived && f.state != SynSent
    ensures Offered(AddToAcceptQueue(k.(sockets := k.sockets[i := k.sockets[i].(endpoint := f)]),
                                     k.sockets[i].parent.value, i))
  {
    var l := k.sockets[i].parent.value;
    assert Known(k, k.sockets[i]);
    assert ChildOk(k, i) && QueueOk(k, l);
    var k1 := AddToAcceptQueue(k.(sockets := k.sockets[i := k.sockets[i].(endpoint := f)]), l, i);
    hide Well, Known;
    forall m: nat | m < |k1.sockets| ensures QueueOk(k1, m) { assert QueueOk(k, m); }
    forall c: nat | c < |k1.sockets| ensures ChildOk(k1, c) { assert ChildOk(k, c); }
  }

  lemma ReceiveKeepsOffered(k: Kernel, i: nat, key: Key, p: Segment, env: Environment)
    requires Well(k) && Offered(k) && i < |k.sockets| && k.sockets[i].role != Idle
    ensures Offered(ReceiveAt(k, i, key, p, env))
  {
    var s := k.sockets[i];
    assert Known(k, s) && ChildOk(k, i);
    ChildState(p);
    hide Well, E.Receive, Child, Known, Offered, Completes;
    var k1 := ReceiveAt(k, i, key, p, env);
    if s.endpoint.state == Listen {
      if p.flags == SYN && !env.backlogFull {
        AppendKeepsOffered(k, k1, Entry(Child(p), key, Active, Some(i), 0, [], 0));
      }
    } else {
      var f := E.Receive(s.endpoint, p, env);
      if s.parent.Some? {
        assert Known(k, s);
        PacketStates(s.endpoint, p, env);
        if Completes(s.endpoint, p) {
          assert s.endpoint.state == SynReceived by { CompletesIn(s.endpoint, p); }
          CompletionKeepsOffered(k, i, f);
        } else {
          SameKeepsOffered(k, k1);
        }
      } else {
        SameKeepsOffered(k, k1);
      }
    }
  }

  lemma CompletesIn(e: Endpoint, p: Segment)
    requires Completes(e, p)
    ensures e.state == SynReceived
  {
  }

  /** `Accept` hands over a child that completed its handshake and was never
      handed over before: the one that completed last. */
  lemma AcceptHandsOver(k: Kernel, i: nat)
    requires Well(k) && Offered(k) && Enabled(k, AcceptOn(i))
    ensures var child := k.sockets[i].acceptQueue[0];
            && child < |k.sockets| && k.sockets[child].parent == Some(i)
            && k.sockets[child].endpoint.state != SynReceived && k.sockets[child].accepted == 0
            && child != i
            && Next(k, AcceptOn(i)).sockets[child] == k.sockets[child].(accepted := 1)
    ensures Offered(Next(k, AcceptOn(i)))
  {
    var q := k.sockets[i].acceptQueue;
    var child := q[0];
    assert QueueOk(k, i) && Known(k, k.sockets[i]) && child in q;
    assert ChildOk(k, child);
    TailOf(q);
    hide Well, Known, Distinct;
    var k1 := Next(k, AcceptOn(i));
    AcceptIs(k, i);
    assert k1.sockets[child] == k.sockets[child].(accepted := 1);
    hide Next;
    forall m: nat | m < |k1.sockets| ensures QueueOk(k1, m) { assert QueueOk(k, m); }
    forall c: nat | c < |k1.sockets| ensures ChildOk(k1, c) { assert ChildOk(k, c); }
  }

  lemma AcceptIs(k: Kernel, i: nat)
    requires i < |k.sockets| && k.sockets[i].acceptQueue != [] && k.sockets[i].acceptQueue[0] < |k.sockets|
    ensures var q := k.sockets[i].acceptQueue;
            var k1 := PopAcceptQueue(k, i);
            |k1.sockets| == |k.sockets| &&
            forall m: nat :: m < |k1.sockets| ==>
              k1.sockets[m] == k.sockets[m].(acceptQueue := if m == i then q[1..] else k.sockets[m].acceptQueue,
                                             backlog := k.sockets[m].backlog - (if m == i then 1 else 0),
                                             accepted := k.sockets[m].accepted + (if m == q[0] then 1 else 0))
  {
  }

  lemma TailOf(q: seq<nat>)
    requires Distinct(q) && q != []
    ensures Distinct(q[1..]) && forall c :: c in q[1..] <==> c in q && c != q[0]
  {
  }

  lemma RoleKeepsOffered(k: Kernel, ev: Event, i: nat)
    requires Well(k) && Offered(k) && Enabled(k, ev)
    requires ev == ListenOn(i) || (ev.ConnectTo? && ev.i == i)
    ensures Offered(Next(k, ev))
  {
    assert Known(k, k.sockets[i]);
    hide Well, Offered, E.Connect, Known;
    SameKeepsOffered(k, Next(k, ev));
  }

  lemma CallKeepsOffered(k: Kernel, i: nat, a: Action)
    requires Well(k) && Offered(k) && Enabled(k, Event.Step(i, a))
    ensures Offered(Next(k, Event.Step(i, a)))
  {
    assert Known(k, k.sockets[i]);
    hide Well, Offered, Act, Allowed;
    CallStates(k.sockets[i].endpoint, a);
    SameKeepsOffered(k, Next(k, Event.Step(i, a)));
  }

  lemma NextKeepsOffered(k: Kernel, ev: Event)
    requires Well(k) && Offered(k) && Enabled(k, ev)
    ensures Offered(Next(k, ev))
  {
    match ev
    case Open(local) =>
      hide Well, Offered;
      AppendKeepsOffered(k, Next(k, ev), Entry(Fresh(Closed, 0), Key(Address(0, 0), local), Idle, None, 0, [], 0));
    case ListenOn(i) =>
      hide Well, Offered, Next;
      RoleKeepsOffered(k, ev, i);
    case ConnectTo(i, _) =>
      hide Well, Offered, Next;
      RoleKeepsOffered(k, ev, i);
    case Packet(key, p, junk, sendOk) =>
      hide Well, Offered, ReceiveAt, Known;
      if FindSocket(k.establish, k.listen, key).Some? {
        FoundIsSocket(k, key);
        var i := FindSocket(k.establish, k.listen, key).value;
        ReceiveKeepsOffered(k, i, key, p, EnvironmentOf(k, i, junk, sendOk));
      }
    case AcceptOn(i) => hide Well, Offered, Next; AcceptHandsOver(k, i);
    case Step(i, a) =>
      hide Well, Offered, Next;
      CallKeepsOffered(k, i, a);
    case Cleanup(i) =>
      hide Well, Offered;
      SameKeepsOffered(k, Next(k, ev));
  }

  /** In every run, each child is offered to `Accept` exactly once, and only
      after its handshake. */
  lemma {:induction false} EveryChildOfferedOnce(k: Kernel, events: seq<Event>)
    requires Well(k) && Offered(k) && Run(k, events)
    ensures Well(Exec(k, events)) && Offered(Exec(k, events))
    decreases |events|
  {
    hide Well, Offered, Next, Enabled;
    if events != [] {
      NextKeepsWell(k, events[0]);
      NextKeepsOffered(k, events[0]);
      EveryChildOfferedOnce(Next(k, events[0]), events[1..]);
    }
  }

  // ----- the backlog -----

  lemma ChildSendSeq(p: Segment)
    ensures Child(p).sendSeq == 1 && Child(p).state == SynReceived
  {
    hide Extend, Symbols;
    var e := Fresh(SynReceived, (p.seqNum + 1) % U32);
    var s := Segment(0, e.recvSeq, SYN_ACK, []);
    ExtendFields(e.(sendQ := [s], sendSeq := 1, stream := Symbols(s)));
    assert e.sendQ + [s] == [s] && e.stream + Symbols(s) == Symbols(s);
  }

  /** A SYN for a new connection while no established child is waiting. */
  lemma SynMakesChild(k: Kernel, key: Key, p: Segment)
    requires Well(k) && key !in k.establish && key.local in k.listen && p.flags == SYN
    requires k.sockets[k.listen[key.local]].backlog == 0
    ensures Deliver(k, key, p, false, true) == Request(k, k.listen[key.local], key, p)
  {
  }

  /** The acknowledgement of a child's SYN. */
  lemma AckOffersChild(k: Kernel, key: Key, i: nat, l: nat, p: Segment, a: Segment)
    requires key in k.establish && k.establish[key] == i < |k.sockets| && l < |k.sockets| && l != i
    requires k.sockets[i].endpoint == Child(p) && k.sockets[i].parent == Some(l)
    requires a.flags == ACK && a.ackNum == 1
    ensures var k1 := Deliver(k, key, a, false, true);
            && k1.establish == k.establish && |k1.sockets| == |k.sockets|
            && k1.sockets[l].acceptQueue == [i] + k.sockets[l].acceptQueue
            && k1.sockets[l].backlog == k.sockets[l].backlog + 1
            && forall j :: 0 <= j < |k.sockets| && j != i && j != l ==> k1.sockets[j] == k.sockets[j]
  {
    ChildSendSeq(p);
    hide Child, E.Receive;
  }

  lemma NobodyWaiting(k: Kernel, key: Key)
    requires Well(k) && Offered(k) && key.local in k.listen && key !in k.establish
    ensures k.listen[key.local] < |k.sockets|
    ensures k.sockets[k.listen[key.local]].backlog == |k.sockets[k.listen[key.local]].acceptQueue|
  {
    FoundIsListening(k, key);
    assert QueueOk(k, k.listen[key.local]);
  }

  /** A packet for each of two connections, in turn. */
  function Both(k: Kernel, first: Key, second: Key, p: Segment, q: Segment): Kernel {
    Deliver(Deliver(k, first, p, false, true), second, q, false, true)
  }

  /** Two children of one listener, neither past its handshake. */
  ghost predicate HalfOpen(k: Kernel, first: Key, second: Key, p: Segment, q: Segment, l: nat, n: nat) {
    && |k.sockets| == n + 2 && l < n && k.sockets[l].acceptQueue == [] && k.sockets[l].backlog == 0
    && first in k.establish && k.establish[first] == n && second in k.establish && k.establish[second] == n + 1
    && k.sockets[n].endpoint == Child(p) && k.sockets[n].parent == Some(l)
    && k.sockets[n + 1].endpoint == Child(q) && k.sockets[n + 1].parent == Some(l)
  }

  /** Both SYNs are taken: the first connection is not counted yet. */
  lemma TwoHalfOpen(k: Kernel, first: Key, second: Key, p: Segment, q: Segment, l: nat)
    requires Well(k) && first != second && first.local == second.local && first.local in k.listen
    requires first !in k.establish && second !in k.establish && k.listen[first.local] == l < |k.sockets|
    requires k.sockets[l].backlog == 0 && k.sockets[l].acceptQueue == []
    requires p.flags == SYN && q.flags == SYN
    ensures HalfOpen(Both(k, first, second, p, q), first, second, p, q, l, |k.sockets|)
  {
    SynMakesChild(k, first, p);
    PacketKeepsWell(k, first, p, false, true);
    SynMakesChild(Deliver(k, first, p, false, true), second, q);
    hide Well, Deliver, Child;
  }

  lemma TwoComplete(k: Kernel, first: Key, second: Key, p: Segment, q: Segment, a: Segment, b: Segment, l: nat, n: nat)
    requires HalfOpen(k, first, second, p, q, l, n)
    requires a.flags == ACK && a.ackNum == 1 && b.flags == ACK && b.ackNum == 1
    ensures var k1 := Both(k, first, second, a, b);
            l < |k1.sockets| && k1.sockets[l].acceptQueue == [n + 1, n] && k1.sockets[l].backlog == 2
  {
    hide Deliver, Child;
    AckOffersChild(k, first, n, l, p, a);
    AckOffersChild(Deliver(k, first, a, false, true), second, n + 1, l, q, b);
  }

  lemma LimitIsOne()
    ensures MAX_BACKLOG < 2
  {
  }

  /** The header describes the backlog as the most connections waiting in the
      handshake or to be accepted.  The code counts only those waiting to be
      accepted, so however small the limit, two handshakes that overlap exceed
      it: the second SYN is taken because the first is not yet counted. */
  lemma BacklogIgnoresHalfOpen(k: Kernel, first: Key, second: Key, p: Segment, q: Segment, a: Segment, b: Segment)
    requires Well(k) && Offered(k)
    requires first != second && first.local == second.local && first.local in k.listen
    requires first !in k.establish && second !in k.establish
    requires k.sockets[k.listen[first.local]].acceptQueue == []
    requires p.flags == SYN && q.flags == SYN && a.flags == ACK && a.ackNum == 1 && b.flags == ACK && b.ackNum == 1
    ensures var l := k.listen[first.local];
            var n := |k.sockets|;
            var after := Both(Both(k, first, second, p, q), first, second, a, b);
            l < |after.sockets| && after.sockets[l].acceptQueue == [n + 1, n]
            && after.sockets[l].backlog == 2 > MAX_BACKLOG
  {
    hide *;
    LimitIsOne();
    var l := k.listen[first.local];
    NobodyWaiting(k, first);
    TwoHalfOpen(k, first, second, p, q, l);
    TwoComplete(Both(k, first, second, p, q), first, second, p, q, a, b, l, |k.sockets|);
  }
}
