/** The atomic steps one endpoint can take, and what each keeps. */
module EndpointActions {
  import opened Machine
  import opened Segments
  import opened Endpoints
  import opened EndpointInvariant
  import opened EndpointSteps
  import opened EndpointSend
  import opened EndpointReceive
  import opened EndpointOperations
  import Reno

  /** Each call that may block is split at its wait: what it does before, and
      what it does once the wait is over.  `Write` is one turn of its loop. */
  datatype Action =
    | Connect
    | Write(data: seq<byte>)
    | Read(length: nat)
    | Close
    | CloseDone
    | Timeout
    | Receive(packet: Segment, env: Environment)

  /** What the source requires for the step to happen at all, and how it is
      called.  A fresh socket connects once.  `Write` returns at once on a closed
      socket, and a turn of its loop waits for credit; on a listening socket the
      source would number the data, and no such call is modelled. */
  ghost predicate Allowed(e: Endpoint, a: Action) {
    match a
    case Connect => e.state == Closed && e.stream == []
    case Write(data) => 0 < |data| <= MAX_PAYLOAD && |data| <= e.credit && e.stream != []
    case Read(_) => e.ring != [] || e.state == Closed
    case CloseDone => e.state == Closed || e.state == TimeWait
    case _ => true
  }

  function Act(e: Endpoint, a: Action): Endpoint {
    match a
    case Connect => Endpoints.Connect(e)
    case Write(data) => if |data| <= e.credit then WriteSegment(e, data) else e
    case Read(length) => Endpoints.Read(e, length)
    case Close => Endpoints.Close(e)
    case CloseDone => Endpoints.CloseDone(e)
    case Timeout => Endpoints.Timeout(e)
    case Receive(packet, env) => Endpoints.Receive(e, packet, env)
  }

  /** The step leaves the connection below 2^32 sequence numbers. */
  ghost predicate Room(e: Endpoint, a: Action) {
    |e.stream| + (if a.Write? then |a.data| else 1) < U32
  }

  // ----- life of a connection -----

  predicate PastHandshake(e: Endpoint) {
    match e.state
    case Established => true
    case FinWait1 => true
    case FinWait2 => true
    case LastAck => true
    case TimeWait => true
    case Closed => e.stream != []
    case _ => false
  }

  ghost predicate Life(e: Endpoint) {
    && (e.state == Listen ==> e == Fresh(Listen, 0))
    && (e.state == Closed && e.stream == [] ==> e == Fresh(Closed, 0))
    && (e.state != Closed && e.state != Listen ==> e.stream != [])
    && e.state != CloseWait && e.state != Closing
    && (e.stream != [] ==> 1 <= SentUpto(e))
    && (e.state == SynSent ==> e.recvSeq <= 1)
    && (e.state == SynReceived ==> 1 <= e.recvSeq)
    && (PastHandshake(e) ==> 1 <= e.recvSeq && 1 <= e.unackBase)
  }

  // ----- opening -----

  lemma FreshInv(state: ConnectionState, recvSeq: nat)
    ensures Inv(Fresh(state, recvSeq)) && SentUpto(Fresh(state, recvSeq)) == 0
  {
  }

  /** A SYN queued on a fresh socket goes out at once. */
  lemma OpeningKeeps(e: Endpoint, flags: Flags)
    requires e == Fresh(e.state, e.recvSeq) && flags.syn && !flags.fin
    ensures var f := Enqueue(e, flags, []);
            Inv(f) && Progress(e, f, 0) && f.state == e.state && f.unackBase == 0
            && f.stream == [Syn] && f.written == [] && SentUpto(f) == 1
  {
    FreshInv(e.state, e.recvSeq);
    EnqueueControl(e, flags);
    var f := Enqueue(e, flags, []);
    hide Enqueue;
    OnlySyn(f);
  }

  lemma ConnectKeeps(e: Endpoint)
    requires e == Fresh(Closed, 0)
    ensures Inv(Endpoints.Connect(e)) && Life(Endpoints.Connect(e)) && Progress(e, Endpoints.Connect(e), 0)
    ensures Endpoints.Connect(e).stream == [Syn] && Endpoints.Connect(e).written == []
  {
    hide Inv, Enqueue, Tiled;
    OpeningKeeps(e, SYN);
    StateKeeps(Enqueue(e, SYN, []), SynSent);
  }

  lemma ChildKeeps(p: Segment)
    requires WellFormed(p) && p.flags.syn
    ensures Inv(Child(p)) && Life(Child(p)) && Child(p).state == SynReceived
    ensures Progress(Fresh(SynReceived, p.seqNum + 1), Child(p), 0)
    ensures Child(p).stream == [Syn] && Child(p).written == []
  {
    hide Inv, Enqueue, Tiled;
    OpeningKeeps(Fresh(SynReceived, p.seqNum + 1), SYN_ACK);
  }

  // ----- the other calls -----

  lemma WriteKeeps(e: Endpoint, data: seq<byte>)
    requires Inv(e) && Allowed(e, Write(data)) && Room(e, Write(data))
    ensures var f := WriteSegment(e, data);
            Inv(f) && Progress(e, f, 0) && f.state == e.state && f.unackBase == e.unackBase
            && f.stream == e.stream + DataSymbols(data) && f.written == e.written + data
  {
    InvFacts(e);
    hide Inv, Core, Accounted, Enqueue, SentUpto;
    EnqueueKeeps(e, NONE, data);
    assert Symbols(Numbered(e, NONE, data)) == DataSymbols(data);
  }

  lemma ReadKeeps(e: Endpoint, length: nat)
    requires Inv(e)
    ensures var f := Endpoints.Read(e, length);
            Inv(f) && SentUpto(f) == SentUpto(e) && f.delivered + f.ring == e.delivered + e.ring
            && f == e.(ring := f.ring, delivered := f.delivered)
  {
    hide Tiles, Payload, Controls, Bytes, Reno.Inv, Carries;
    var f := Endpoints.Read(e, length);
    forall p | p in f.wire ensures Truthful(f, p) { assert Truthful(e, p); }
  }

  // ----- packets -----

  /** Acknowledging everything numbered moves the base past the SYN. */
  lemma FullAckPasses(e: Endpoint, ack: nat, junk: bool)
    requires Inv(e) && ack == e.sendSeq && 1 <= SentUpto(e)
    ensures 1 <= ProcessAck(e, ack, junk).unackBase
  {
    CongestKeeps(e, ack, junk);
    var e3 := Congest(e, ack, junk);
    CoreBounds(e3);
    ShrinkAll(e3, ack);
    ShrinkKeeps(e3, ack);
    hide Core, Accounted, SentUpto, Congest, Shrinks, Tiled;
    ExtendProgress(Shrink(e3, ack));
  }

  lemma ReceiveKeeps(e: Endpoint, p: Segment, env: Environment)
    requires Inv(e) && Life(e) && WellFormed(p) && !Hazard(e, p) && |e.stream| + 1 < U32
    ensures Inv(Endpoints.Receive(e, p, env)) && Receives(e, Endpoints.Receive(e, p, env), p)
  {
    hide Inv, SentUpto, ReceiveInSynSent, ReceiveInSynReceived, ReceiveSynchronized, WellFormed, Intake;
    match e.state
    case SynSent =>
      if p.flags.syn && p.flags.ack {
        SynSentAckKeeps(e, p, env);
      } else if p.flags.syn {
        SimultaneousOpenIs(e, p);
        ReopenedKeeps(e, p);
        ReopenedReceives(e, p);
        assert ReceiveInSynSent(e, p, env) == Reopened(e, p) by { SynSentBare(e, p, env); }
      } else {
        SynSentBare(e, p, env);
        NothingReceived(e, p);
      }
    case SynReceived => SynReceivedKeeps(e, p, env);
    case Listen => if p.flags == SYN && !env.backlogFull { ChildReceives(e, p); } else { NothingReceived(e, p); }
    case Closed => NothingReceived(e, p);
    case Closing =>
    case _ => SynchronizedKeeps(e, p, env);
  }

  lemma ChildReceives(e: Endpoint, p: Segment)
    requires e == Fresh(Listen, 0) && WellFormed(p) && p.flags.syn
    ensures Inv(Child(p)) && Receives(e, Child(p), p)
  {
    hide Child, Inv;
    ChildKeeps(p);
  }

  lemma NothingReceived(e: Endpoint, p: Segment)
    ensures Inv(e) ==> Receives(e, e, p)
  {
  }

  lemma SynSentBare(e: Endpoint, p: Segment, env: Environment)
    ensures p.flags.syn && !p.flags.ack ==> ReceiveInSynSent(e, p, env) == SimultaneousOpen(e, p)
    ensures !p.flags.syn ==> ReceiveInSynSent(e, p, env) == e
  {
  }

  lemma ReopenedReceives(e: Endpoint, p: Segment)
    requires Inv(e) && WithdrawSafe(e) && WellFormed(p) && p.flags.syn && e.recvSeq <= p.seqNum + 1
    requires SentUpto(Reopened(e, p)) == SentUpto(e)
    ensures Receives(e, Reopened(e, p), p)
  {
  }
}
