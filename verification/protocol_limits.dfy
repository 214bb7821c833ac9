/** Where the guarantees end: four runs, move by move. */
module ProtocolLimits {
  import opened Machine
  import opened Segments
  import opened Endpoints
  import opened EndpointActions
  import opened EndpointClosing
  import opened Protocol
  import opened ProtocolTheorems
  import opened ProtocolOpening
  import opened ProtocolSimultaneous
  import Reno

  // ----- runs, move by move -----

  /** An enabled move and the state it leads to. */
  ghost predicate Goes(s: System, m: Move, t: System) {
    Enabled(s, m) && Next(s, m) == t
  }

  lemma ReceiveGoes(s: System, side: Side, p: Segment, env: Environment, f: Endpoint)
    requires p in Peer(s, side).wire && |Get(s, side).stream| + 1 < U32
    requires Endpoints.Receive(Get(s, side), p, env) == f
    ensures Goes(s, Move(side, Receive(p, env)), Set(s, side, f))
  {
    hide Endpoints.Receive;
  }

  lemma WriteGoes(s: System, side: Side, data: seq<byte>, f: Endpoint)
    requires 0 < |data| <= MAX_PAYLOAD && |data| <= Get(s, side).credit && Get(s, side).stream != []
    requires |Get(s, side).stream| + |data| < U32 && WriteSegment(Get(s, side), data) == f
    ensures Goes(s, Move(side, Write(data)), Set(s, side, f))
  {
    hide WriteSegment;
  }

  lemma ConnectGoes(s: System, side: Side, f: Endpoint)
    requires Get(s, side) == Fresh(Closed, 0) && Endpoints.Connect(Get(s, side)) == f
    ensures Goes(s, Move(side, Action.Connect), Set(s, side, f))
  {
    hide Endpoints.Connect;
  }

  lemma CloseGoes(s: System, side: Side, f: Endpoint)
    requires |Get(s, side).stream| + 1 < U32 && Endpoints.Close(Get(s, side)) == f
    ensures Goes(s, Move(side, Action.Close), Set(s, side, f))
  {
    hide Endpoints.Close;
  }

  /** The run from move `i` on, once that move is known. */
  lemma Onward(s: System, moves: seq<Move>, i: nat, t: System)
    requires i < |moves| && Goes(s, moves[i], t)
    ensures Run(t, moves[i + 1..]) ==> Run(s, moves[i..])
    ensures Exec(s, moves[i..]) == Exec(t, moves[i + 1..])
    ensures Safe(s, moves[i..]) <==> !Hazardous(s, moves[i]) && Safe(t, moves[i + 1..])
  {
    hide Hazardous;
    assert moves[i..][1..] == moves[i + 1..];
  }

  // ----- steps on short queues -----

  /** The first acknowledgement a socket sees, or one beyond the last, in slow start. */
  lemma NewAck(e: Endpoint, ack: nat, junk: bool)
    requires e.sendQ == [] && e.unackBase < U64 && e.unackNext < U64
    requires e.reno.phase == Reno.SlowStart && Reno.IsNew(e.reno, ack) && e.reno.cwnd < e.reno.ssthresh
    ensures Congest(e, ack, junk)
            == e.(reno := e.reno.(cwnd := e.reno.cwnd + Reno.MSS, acked := ack, dups := 0),
                  window := e.reno.cwnd + Reno.MSS)
  {
    var r := e.reno.(cwnd := e.reno.cwnd + Reno.MSS, acked := ack, dups := 0);
    ExtendIdle(e.(reno := r, window := r.cwnd));
    hide Extend;
  }

  /** An acknowledgement that takes in the first `n` of the queued segments, at most two. */
  ghost predicate Pops(e: Endpoint, ack: nat, n: nat) {
    && n <= |e.rtxQ| && n <= 2 && e.unackBase + 2 < U64 && e.credit + 2 < U64
    && (forall i :: 0 <= i < n ==> Len(e.rtxQ[i]) == 1 && e.rtxQ[i].seqNum + 1 <= ack && e.rtxQ[i].seqNum + 1 < U32)
    && (n < |e.rtxQ| ==> (e.rtxQ[n].seqNum + Len(e.rtxQ[n])) % U32 > ack)
  }

  lemma ShrinkShort(e: Endpoint, ack: nat, n: nat)
    requires Pops(e, ack, n)
    ensures Shrink(e, ack) == e.(rtxQ := e.rtxQ[n..], unackBase := e.unackBase + n, credit := e.credit + n)
    decreases n
  {
    hide PacketBytes;
    if n > 0 {
      var f := PopAcked(e);
      assert f == e.(rtxQ := e.rtxQ[1..], unackBase := e.unackBase + 1, credit := e.credit + 1);
      assert Shrink(e, ack) == Shrink(f, ack);
      assert f.rtxQ[n - 1..] == e.rtxQ[n..];
      ShrinkAgain(f, ack, n - 1);
    }
  }

  lemma ShrinkAgain(e: Endpoint, ack: nat, n: nat)
    requires n <= 1 && n <= |e.rtxQ| && e.unackBase + 1 < U64 && e.credit + 1 < U64
    requires forall i :: 0 <= i < n ==> Len(e.rtxQ[i]) == 1 && e.rtxQ[i].seqNum + 1 <= ack && e.rtxQ[i].seqNum + 1 < U32
    requires n < |e.rtxQ| ==> (e.rtxQ[n].seqNum + Len(e.rtxQ[n])) % U32 > ack
    ensures Shrink(e, ack) == e.(rtxQ := e.rtxQ[n..], unackBase := e.unackBase + n, credit := e.credit + n)
  {
    hide PacketBytes;
    if n == 1 {
      assert PopAcked(e) == e.(rtxQ := e.rtxQ[1..], unackBase := e.unackBase + 1, credit := e.credit + 1);
      assert Shrink(PopAcked(e), ack) == PopAcked(e);
    } else {
      assert e.rtxQ[0..] == e.rtxQ;
    }
  }

  /** `ReceiveAck` up to the change of state, for such an acknowledgement. */
  lemma AckTaken(e: Endpoint, ack: nat, junk: bool, n: nat)
    requires e.sendQ == [] && e.unackNext < U64 && Pops(e, ack, n)
    requires e.reno.phase == Reno.SlowStart && Reno.IsNew(e.reno, ack) && e.reno.cwnd < e.reno.ssthresh
    ensures ReceiveAck(e, ack, junk)
            == CompleteAck(e.(reno := e.reno.(cwnd := e.reno.cwnd + Reno.MSS, acked := ack, dups := 0),
                              window := e.reno.cwnd + Reno.MSS,
                              rtxQ := e.rtxQ[n..], unackBase := e.unackBase + n, credit := e.credit + n), ack)
  {
    NewAck(e, ack, junk);
    var e1 := Congest(e, ack, junk);
    ShrinkShort(e1, ack, n);
    ExtendIdle(Shrink(e1, ack));
    hide Congest, Shrink, Extend;
  }

  // ----- states the runs share -----

  const YIELDING := Environment(false, true, false)
  const REFUSING := Environment(false, false, false)

  ghost function Syn0(): Segment {
    Segment(0, 0, SYN, [])
  }

  ghost function SynAck0(): Segment {
    Segment(0, 1, SYN_ACK, [])
  }

  ghost function Idle(): Endpoint {
    Fresh(Closed, 0)
  }

  /** After `connect`. */
  ghost function Connecting(): Endpoint {
    Idle().(state := SynSent, rtxQ := [Syn0()], sendSeq := 1, wire := [Syn0()], stream := [Syn])
  }

  lemma Connects()
    ensures Endpoints.Connect(Idle()) == Connecting()
  {
    GoesOut(Idle(), SYN, []);
    assert Symbols(Syn0()) == [Syn];
    hide Enqueue;
  }

  // ----- a written byte withdrawn -----

  ghost function D7(): Segment { Segment(1, 0, NONE, [7]) }
  ghost function SynAck1(): Segment { Segment(1, 1, SYN_ACK, []) }
  ghost function D8(): Segment { Segment(2, 1, NONE, [8]) }

  /** Both sides connect and `a` writes before its handshake is over; the SYN of
      `b` then withdraws the number of the byte written, and `b` never misses it. */
  ghost function EagerWriter(): seq<Move> {
    [Move(A, Connect), Move(B, Connect), Move(A, Write([7])), Move(A, Receive(Syn0(), YIELDING)),
     Move(B, Receive(SynAck1(), YIELDING)), Move(A, Receive(Segment(1, 2, ACK, []), YIELDING)),
     Move(A, Write([8])), Move(B, Receive(D8(), YIELDING))]
  }

  ghost function A3(): Endpoint {
    Connecting().(rtxQ := [Syn0(), D7()], wire := [Syn0(), D7()], sendSeq := 2, stream := [Syn, Data(7)],
                  unackNext := 1, credit := SEND_BUFFER - 1, written := [7])
  }

  ghost function A4(): Endpoint {
    A3().(state := SynReceived, rtxQ := [D7(), SynAck1()], wire := [Syn0(), D7(), SynAck1()], recvSeq := 1,
          stream := [Syn, Syn])
  }

  ghost function B5(): Endpoint {
    Connecting().(state := Established, rtxQ := [], unackBase := 1, credit := SEND_BUFFER + 1, recvSeq := 2,
                  wire := [Syn0(), Segment(1, 2, ACK, [])], window := 2920,
                  reno := Reno.RenoState(Reno.SlowStart, 2920, 65536, 1, 0))
  }

  ghost function A6(): Endpoint {
    A4().(state := Established, rtxQ := [], unackBase := 2, credit := SEND_BUFFER + 1, window := 2920,
          reno := Reno.RenoState(Reno.SlowStart, 2920, 65536, 2, 0))
  }

  ghost function A7(): Endpoint {
    A6().(rtxQ := [D8()], wire := [Syn0(), D7(), SynAck1(), D8()], sendSeq := 3, stream := [Syn, Syn, Data(8)],
          unackNext := 2, credit := SEND_BUFFER, written := [7, 8])
  }

  ghost function B8(): Endpoint {
    B5().(recvSeq := 3, ring := [8], wire := [Syn0(), Segment(1, 2, ACK, []), Segment(1, 3, ACK, [])])
  }

  lemma WritesSeven()
    ensures WriteSegment(Connecting(), [7]) == A3()
  {
    var e := Connecting().(credit := SEND_BUFFER - 1, written := [7]);
    assert Connecting().written + [7] == [7];
    GoesOut(e, NONE, [7]);
    assert Symbols(D7()) == [Data(7)];
    hide Enqueue;
  }

  lemma WithdrawsSeven()
    ensures Endpoints.Receive(A3(), Syn0(), YIELDING) == A4()
  {
    var e := A3().(rtxQ := [D7()], sendSeq := 1, recvSeq := 1, stream := [Syn]);
    assert A3().rtxQ[1..] == [D7()] && A3().stream[..1] == [Syn];
    GoesOut(e, SYN_ACK, []);
    assert Symbols(SynAck1()) == [Syn];
    hide Enqueue;
  }

  lemma PeerConnects()
    ensures Endpoints.Receive(Connecting(), SynAck1(), YIELDING) == B5()
  {
    AckTaken(Connecting(), 1, false, 1);
    hide ReceiveAck;
  }

  lemma WriterConnects()
    ensures Endpoints.Receive(A4(), Segment(1, 2, ACK, []), YIELDING) == A6()
  {
    AckTaken(A4(), 2, false, 2);
    hide ReceiveAck;
  }

  lemma WritesEight()
    ensures WriteSegment(A6(), [8]) == A7()
  {
    var e := A6().(credit := SEND_BUFFER, written := [7, 8]);
    assert A6().written + [8] == [7, 8];
    GoesOut(e, NONE, [8]);
    assert Symbols(D8()) == [Data(8)];
    hide Enqueue;
  }

  lemma PeerMissesSeven()
    ensures Endpoints.Receive(B5(), D8(), YIELDING) == B8()
  {
  }

  /** A run that breaks stream safety: `b` holds the second byte written and will
      never be sent the first. */
  lemma EagerWriterLosesByte()
    ensures var start := System(Idle(), Idle());
            var end := Exec(start, EagerWriter());
            && Initial(start) && Run(start, EagerWriter()) && !Safe(start, EagerWriter())
            && end.a.written == [7, 8] && end.b.delivered + end.b.ring == [8]
            && !Delivers(end.a, end.b)
  {
    Connects();
    WritesSeven();
    WithdrawsSeven();
    PeerConnects();
    WriterConnects();
    WritesEight();
    PeerMissesSeven();
    hide Endpoints.Receive, Endpoints.Connect, WriteSegment;
    var s0, s1, s2 := System(Idle(), Idle()), System(Connecting(), Idle()), System(Connecting(), Connecting());
    var s3, s4, s5 := System(A3(), Connecting()), System(A4(), Connecting()), System(A4(), B5());
    var s6, s7, s8 := System(A6(), B5()), System(A7(), B5()), System(A7(), B8());
    ConnectGoes(s0, A, Connecting());
    ConnectGoes(s1, B, Connecting());
    WriteGoes(s2, A, [7], A3());
    ReceiveGoes(s3, A, Syn0(), YIELDING, A4());
    ReceiveGoes(s4, B, SynAck1(), YIELDING, B5());
    ReceiveGoes(s5, A, Segment(1, 2, ACK, []), YIELDING, A6());
    WriteGoes(s6, A, [8], A7());
    ReceiveGoes(s7, B, D8(), YIELDING, B8());
    var m := EagerWriter();
    assert Hazardous(s3, m[3]);
    hide Goes, Run, Safe, Exec, Hazardous;
    Eight(s0, s1, s2, s3, s4, s5, s6, s7, s8, m);
    assert [8][0] != [7, 8][0];
  }

  lemma Finished(s: System, moves: seq<Move>)
    ensures Run(s, moves[|moves|..]) && Exec(s, moves[|moves|..]) == s && Safe(s, moves[|moves|..])
  {
  }

  // ----- a reception rewound -----

  ghost function Fin1(): Segment { Segment(1, 1, FIN_ACK, []) }
  ghost function Byte1(): Segment { Segment(1, 1, NONE, [7]) }

  /** Both sides connect, and in SYN-RECEIVED `a` writes and `b` closes; `a` counts
      the FIN and `b` its acknowledgement, and then the SYN|ACK of `b` comes again. */
  ghost function LateSynAck(): seq<Move> {
    [Move(A, Connect), Move(B, Connect), Move(A, Receive(Syn0(), YIELDING)), Move(B, Receive(Syn0(), YIELDING)),
     Move(A, Write([7])), Move(B, Close), Move(A, Receive(Fin1(), YIELDING)),
     Move(B, Receive(Segment(2, 2, ACK, []), YIELDING)), Move(A, Receive(SynAck0(), YIELDING))]
  }

  /** After the other side's SYN. */
  ghost function Crossed(): Endpoint {
    Connecting().(state := SynReceived, rtxQ := [SynAck0()], wire := [Syn0(), SynAck0()], recvSeq := 1)
  }

  ghost function Writer(): Endpoint {
    Crossed().(rtxQ := [SynAck0(), Byte1()], wire := [Syn0(), SynAck0(), Byte1()], sendSeq := 2,
               stream := [Syn, Data(7)], unackNext := 1, credit := SEND_BUFFER - 1, written := [7])
  }

  ghost function Closer(): Endpoint {
    Crossed().(rtxQ := [SynAck0(), Fin1()], wire := [Syn0(), SynAck0(), Fin1()], sendSeq := 2, stream := [Syn, Fin])
  }

  ghost function FinCounted(): Endpoint {
    Writer().(rtxQ := [Byte1()], unackBase := 1, credit := SEND_BUFFER, recvSeq := 2, window := 2920,
              wire := Writer().wire + [Segment(2, 2, ACK, [])],
              reno := Reno.RenoState(Reno.SlowStart, 2920, 65536, 1, 0))
  }

  ghost function FinAcked(): Endpoint {
    Closer().(state := Established, rtxQ := [], unackBase := 2, credit := SEND_BUFFER + 2, window := 2920,
              reno := Reno.RenoState(Reno.SlowStart, 2920, 65536, 2, 0))
  }

  ghost function Rewound(): Endpoint {
    FinCounted().(recvSeq := 1, wire := FinCounted().wire + [Segment(2, 1, ACK, [])],
                  reno := Reno.RenoState(Reno.SlowStart, 2920, 65536, 1, 1))
  }

  lemma Crosses()
    ensures Endpoints.Receive(Connecting(), Syn0(), YIELDING) == Crossed()
  {
    var e := Connecting().(rtxQ := [], sendSeq := 0, recvSeq := 1, stream := []);
    assert Connecting().rtxQ[1..] == [] && Connecting().stream[..0] == [];
    GoesOut(e, SYN_ACK, []);
    assert Symbols(SynAck0()) == [Syn];
    hide Enqueue;
  }

  lemma Writes()
    ensures WriteSegment(Crossed(), [7]) == Writer()
  {
    var e := Crossed().(credit := SEND_BUFFER - 1, written := [7]);
    assert Crossed().written + [7] == [7];
    GoesOut(e, NONE, [7]);
    assert Symbols(Byte1()) == [Data(7)];
    hide Enqueue;
  }

  lemma Closes()
    ensures Endpoints.Close(Crossed()) == Closer()
  {
    GoesOut(Crossed(), FIN_ACK, []);
    assert Symbols(Fin1()) == [Fin];
    hide Enqueue;
  }

  lemma CountsFin()
    ensures Endpoints.Receive(Writer(), Fin1(), YIELDING) == FinCounted()
  {
    WriterAcked();
    hide ReceiveAck, PushAck;
    var e := FinCounted().(recvSeq := 1, wire := Writer().wire);
    assert Endpoints.Receive(Writer(), Fin1(), YIELDING) == ReceiveData(e, Fin1());
    hide Endpoints.Receive;
    FinAnswered(e);
  }

  lemma FinAnswered(e: Endpoint)
    requires e == FinCounted().(recvSeq := 1, wire := Writer().wire)
    ensures ReceiveData(e, Fin1()) == FinCounted()
  {
  }

  lemma WriterAcked()
    ensures ReceiveAck(Writer(), 1, false) == FinCounted().(recvSeq := 1, wire := Writer().wire)
  {
    AckTaken(Writer(), 1, false, 1);
    hide ReceiveAck;
  }

  lemma TakesFinAck()
    ensures Endpoints.Receive(Closer(), Segment(2, 2, ACK, []), YIELDING) == FinAcked()
  {
    AckTaken(Closer(), 2, false, 2);
    hide ReceiveAck;
  }

  /** The acknowledgement it carries is a duplicate and moves nothing. */
  lemma Rewind()
    ensures Endpoints.Receive(FinCounted(), SynAck0(), YIELDING) == Rewound()
  {
    var e := FinCounted();
    var e1 := e.(reno := e.reno.(dups := 1));
    assert Congest(e, 1, false) == e1;
    ShrinkShort(e1, 1, 0);
    assert e1.rtxQ[0..] == e1.rtxQ;
    ExtendIdle(e1);
    assert ReceiveAck(e, 1, false) == e1 by { hide Shrink, Extend, Congest; }
    hide ReceiveAck;
  }

  /** A run without any hazard before its last move that loses conservation there:
      `b` has been acknowledged beyond what `a` now counts. */
  lemma LateSynAckUncounts()
    ensures var start := System(Idle(), Idle());
            var m := LateSynAck();
            var end := Exec(start, m);
            && Initial(start) && Run(start, m) && Safe(start, m[..8]) && Hazardous(Exec(start, m[..8]), m[8])
            && end.b.unackBase == 2 && end.a.recvSeq == 1
            && !Conserves(end.b, end.a)
  {
    Connects();
    Crosses();
    Writes();
    Closes();
    CountsFin();
    TakesFinAck();
    Rewind();
    hide Endpoints.Receive, Endpoints.Connect, Endpoints.Close, WriteSegment;
    var s0, s1, s2 := System(Idle(), Idle()), System(Connecting(), Idle()), System(Connecting(), Connecting());
    var s3, s4, s5 := System(Crossed(), Connecting()), System(Crossed(), Crossed()), System(Writer(), Crossed());
    var s6, s7, s8 := System(Writer(), Closer()), System(FinCounted(), Closer()), System(FinCounted(), FinAcked());
    var s9 := System(Rewound(), FinAcked());
    ConnectGoes(s0, A, Connecting());
    ConnectGoes(s1, B, Connecting());
    ReceiveGoes(s2, A, Syn0(), YIELDING, Crossed());
    ReceiveGoes(s3, B, Syn0(), YIELDING, Crossed());
    WriteGoes(s4, A, [7], Writer());
    CloseGoes(s5, B, Closer());
    ReceiveGoes(s6, A, Fin1(), YIELDING, FinCounted());
    ReceiveGoes(s7, B, Segment(2, 2, ACK, []), YIELDING, FinAcked());
    ReceiveGoes(s8, A, SynAck0(), YIELDING, Rewound());
    var m := LateSynAck();
    var first := m[..8];
    assert !Hazardous(s2, m[2]) && !Hazardous(s3, m[3]) && !Hazardous(s6, m[6]) && !Hazardous(s7, m[7]);
    assert Hazardous(s8, m[8]);
    assert !Hazardous(s0, m[0]) && !Hazardous(s1, m[1]) && !Hazardous(s4, m[4]) && !Hazardous(s5, m[5]);
    hide Goes, Run, Safe, Exec, Hazardous;
    Eight(s0, s1, s2, s3, s4, s5, s6, s7, s8, first);
    Eight(s1, s2, s3, s4, s5, s6, s7, s8, s9, m[1..]);
    Onward(s0, m, 0, s1);
    assert m[0..] == m;
  }

  lemma Eight(s0: System, s1: System, s2: System, s3: System, s4: System, s5: System, s6: System, s7: System,
              s8: System, m: seq<Move>)
    requires |m| == 8 && Goes(s0, m[0], s1) && Goes(s1, m[1], s2) && Goes(s2, m[2], s3) && Goes(s3, m[3], s4)
    requires Goes(s4, m[4], s5) && Goes(s5, m[5], s6) && Goes(s6, m[6], s7) && Goes(s7, m[7], s8)
    ensures Run(s0, m) && Exec(s0, m) == s8
    ensures Safe(s0, m) <==>
              && !Hazardous(s0, m[0]) && !Hazardous(s1, m[1]) && !Hazardous(s2, m[2]) && !Hazardous(s3, m[3])
              && !Hazardous(s4, m[4]) && !Hazardous(s5, m[5]) && !Hazardous(s6, m[6]) && !Hazardous(s7, m[7])
  {
    hide Goes, Run, Safe, Exec, Hazardous;
    Onward(s7, m, 7, s8);
    Onward(s6, m, 6, s7);
    Onward(s5, m, 5, s6);
    Onward(s4, m, 4, s5);
    Onward(s3, m, 3, s4);
    Onward(s2, m, 2, s3);
    Onward(s1, m, 1, s2);
    Onward(s0, m, 0, s1);
    Finished(s8, m);
    assert m[0..] == m;
  }

  // ----- a handshake acknowledgement refused -----

  /** The client's handshake acknowledgement is refused and it then closes: its
      FIN carries the acknowledgement that lets the child through. */
  ghost function ImpatientClient(): seq<Move> {
    [Move(A, Connect), Move(B, Receive(Syn0(), YIELDING)), Move(A, Receive(SynAck0(), REFUSING)),
     Move(A, Close), Move(B, Receive(Fin1(), YIELDING))]
  }

  ghost function Listening(): Endpoint {
    Fresh(Listen, 0)
  }

  ghost function Born(): Endpoint {
    Fresh(SynReceived, 1).(rtxQ := [SynAck0()], sendSeq := 1, wire := [SynAck0()], stream := [Syn])
  }

  ghost function Refused(): Endpoint {
    Connecting().(rtxQ := [], unackBase := 1, credit := SEND_BUFFER + 1, recvSeq := 1, window := 2920,
                  reno := Reno.RenoState(Reno.SlowStart, 2920, 65536, 1, 0))
  }

  ghost function GivenUp(): Endpoint {
    Refused().(rtxQ := [Fin1()], wire := [Syn0(), Fin1()], sendSeq := 2, stream := [Syn, Fin])
  }

  lemma IsBorn()
    ensures Endpoints.Receive(Listening(), Syn0(), YIELDING) == Born()
  {
    GoesOut(Fresh(SynReceived, 1), SYN_ACK, []);
    assert Symbols(SynAck0()) == [Syn];
    hide Enqueue;
  }

  lemma IsRefused()
    ensures Endpoints.Receive(Connecting(), SynAck0(), REFUSING) == Refused()
  {
    AckTaken(Connecting(), 1, false, 1);
    hide ReceiveAck;
  }

  lemma GivesUp()
    ensures Endpoints.Close(Refused()) == GivenUp()
  {
    GoesOut(Refused(), FIN_ACK, []);
    assert Symbols(Fin1()) == [Fin];
    hide Enqueue;
  }

  /** A run in which the child is past its handshake while the client is still in
      SYN-SENT, its acknowledgement refused. */
  lemma ImpatientClientIsSecond()
    ensures var start := System(Idle(), Listening());
            var end := Exec(start, ImpatientClient());
            && ClientAndListener(start) && Run(start, ImpatientClient())
            && PastHandshake(end.b) && end.a.state == SynSent && end.a.recvSeq == 1
  {
    Connects();
    IsBorn();
    IsRefused();
    GivesUp();
    FinPasses();
    hide Endpoints.Receive, Endpoints.Connect, Endpoints.Close;
    var last := Endpoints.Receive(Born(), Fin1(), YIELDING);
    var s0, s1, s2 := System(Idle(), Listening()), System(Connecting(), Listening()), System(Connecting(), Born());
    var s3, s4, s5 := System(Refused(), Born()), System(GivenUp(), Born()), System(GivenUp(), last);
    ConnectGoes(s0, A, Connecting());
    ReceiveGoes(s1, B, Syn0(), YIELDING, Born());
    ReceiveGoes(s2, A, SynAck0(), REFUSING, Refused());
    CloseGoes(s3, A, GivenUp());
    ReceiveGoes(s4, B, Fin1(), YIELDING, last);
    var m := ImpatientClient();
    hide Goes, Run, Safe, Exec;
    Onward(s4, m, 4, s5);
    Onward(s3, m, 3, s4);
    Onward(s2, m, 2, s3);
    Onward(s1, m, 1, s2);
    Onward(s0, m, 0, s1);
    Finished(s5, m);
    assert m[0..] == m;
  }

  lemma FinPasses()
    ensures Endpoints.Receive(Born(), Fin1(), YIELDING).state == LastAck
  {
    FinMovesOn(Born(), Fin1(), YIELDING);
    hide Endpoints.Receive;
  }

  // ----- a late SYN -----

  /** Both sides connect and nobody writes or closes; `b` has its acknowledgement
      refused and then takes the bare SYN of `a`. */
  ghost function LateBareSyn(): seq<Move> {
    [Move(A, Connect), Move(B, Connect), Move(A, Receive(Syn0(), YIELDING)), Move(B, Receive(SynAck0(), REFUSING)),
     Move(B, Receive(Syn0(), YIELDING)), Move(B, Receive(SynAck0(), YIELDING))]
  }

  ghost function Reopened(): Endpoint {
    Refused().(state := SynReceived, rtxQ := [SynAck0()], wire := [Syn0(), SynAck0()])
  }

  ghost function Overcounted(): Endpoint {
    Reopened().(state := Established, rtxQ := [], unackBase := 2, credit := SEND_BUFFER + 2,
                wire := [Syn0(), SynAck0(), Segment(1, 1, ACK, [])],
                reno := Reno.RenoState(Reno.SlowStart, 2920, 65536, 1, 1))
  }

  lemma Reopens()
    ensures Endpoints.Receive(Refused(), Syn0(), YIELDING) == Reopened()
  {
    SynSentBare(Refused(), Syn0(), YIELDING);
    hide Enqueue, ReceiveInSynSent;
    var e := Refused().(sendSeq := 0, stream := []);
    assert Refused().stream[..0] == [];
    assert Endpoints.Receive(Refused(), Syn0(), YIELDING) == Enqueue(e, SYN_ACK, []).(state := SynReceived);
    hide SimultaneousOpen;
    GoesOut(e, SYN_ACK, []);
    assert Symbols(SynAck0()) == [Syn];
  }

  lemma Overcounts()
    ensures Endpoints.Receive(Reopened(), SynAck0(), YIELDING) == Overcounted()
  {
    var e := Reopened();
    var e1 := e.(reno := e.reno.(dups := 1));
    var e2 := e1.(rtxQ := [], unackBase := 2, credit := SEND_BUFFER + 2);
    assert Congest(e, 1, false) == e1;
    ShrinkShort(e1, 1, 1);
    assert e1.rtxQ[1..] == [];
    ExtendIdle(e2);
    assert ReceiveAck(e, 1, false) == e2 by { hide Shrink, Extend, Congest; }
    hide ReceiveAck;
  }

  /** A disciplined run in which a late SYN makes `b` count an acknowledgement for
      the same sequence number twice. */
  lemma LateSynOvercounts()
    ensures var start := System(Idle(), Idle());
            var m := LateBareSyn();
            var end := Exec(start, m);
            && Initial(start) && Run(start, m) && DisciplinedRun(start, m) && !NoLateSyn(start, m)
            && end.b.unackBase == 2 && end.a.recvSeq == 1
            && !Conserves(end.b, end.a)
  {
    Connects();
    Crosses();
    IsRefused();
    Reopens();
    Overcounts();
    hide Endpoints.Receive, Endpoints.Connect;
    var s0, s1, s2 := System(Idle(), Idle()), System(Connecting(), Idle()), System(Connecting(), Connecting());
    var s3, s4 := System(Crossed(), Connecting()), System(Crossed(), Refused());
    var s5, s6 := System(Crossed(), Reopened()), System(Crossed(), Overcounted());
    ConnectGoes(s0, A, Connecting());
    ConnectGoes(s1, B, Connecting());
    ReceiveGoes(s2, A, Syn0(), YIELDING, Crossed());
    ReceiveGoes(s3, B, SynAck0(), REFUSING, Refused());
    ReceiveGoes(s4, B, Syn0(), YIELDING, Reopened());
    ReceiveGoes(s5, B, SynAck0(), YIELDING, Overcounted());
    var m := LateBareSyn();
    assert LateSyn(s4.b, m[4].action);
    assert Calm(m);
    hide Goes, Run, Exec, LateSyn, DisciplinedRun, NoLateSyn, Calm;
    CalmOnward(s5, m, 5, s6);
    CalmOnward(s4, m, 4, s5);
    CalmOnward(s3, m, 3, s4);
    CalmOnward(s2, m, 2, s3);
    CalmOnward(s1, m, 1, s2);
    CalmOnward(s0, m, 0, s1);
    CalmEnd(s6, m);
    assert m[0..] == m;
  }

  /** Nobody writes or closes. */
  ghost predicate Calm(moves: seq<Move>) {
    forall i :: 0 <= i < |moves| ==> !moves[i].action.Write? && !moves[i].action.Close?
  }

  lemma CalmOnward(s: System, moves: seq<Move>, i: nat, t: System)
    requires i < |moves| && Goes(s, moves[i], t) && Calm(moves)
    ensures Run(t, moves[i + 1..]) ==> Run(s, moves[i..])
    ensures Exec(s, moves[i..]) == Exec(t, moves[i + 1..])
    ensures DisciplinedRun(t, moves[i + 1..]) ==> DisciplinedRun(s, moves[i..])
    ensures NoLateSyn(s, moves[i..]) ==> !LateSyn(Get(s, moves[i].side), moves[i].action) && NoLateSyn(t, moves[i + 1..])
  {
    hide LateSyn;
    assert moves[i..][1..] == moves[i + 1..];
  }

  lemma CalmEnd(s: System, moves: seq<Move>)
    ensures var rest := moves[|moves|..];
            Run(s, rest) && Exec(s, rest) == s && DisciplinedRun(s, rest)
  {
  }
}
