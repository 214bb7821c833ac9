/** The segmenting and waiting loop of `Write` (src/transport/socket_impl.cc:537-576)
    against the bytes it was given. */
module EndpointWrite {
  import opened Machine
  import opened Segments
  import opened Endpoints
  import opened EndpointInvariant
  import opened EndpointSteps
  import opened EndpointActions
  import opened EndpointStates

  /** The length of the next segment. */
  function NextLength(data: seq<byte>, start: nat): nat
    requires start <= |data|
  {
    Min(MAX_PAYLOAD, |data| - start)
  }

  /** The loop has to wait for credit at `start`. */
  predicate Waits(credit: nat, data: seq<byte>, start: nat, resumed: bool)
    requires start <= |data|
  {
    start < |data| && (credit < NextLength(data, start) || (resumed && credit == NextLength(data, start)))
  }

  /** The steps of the protocol the loop amounts to. */
  ghost function Turns(credit: nat, data: seq<byte>, start: nat, resumed: bool): seq<Action>
    requires start <= |data|
    decreases |data| - start
  {
    var n := NextLength(data, start);
    if start == |data| || Waits(credit, data, start, resumed) then []
    else [Action.Write(data[start..start + n])] + Turns(credit - n, data, start + n, false)
  }

  ghost function ActAll(e: Endpoint, actions: seq<Action>): Endpoint
    decreases |actions|
  {
    if actions == [] then e else ActAll(Act(e, actions[0]), actions[1..])
  }

  ghost predicate AllAllowed(e: Endpoint, actions: seq<Action>)
    decreases |actions|
  {
    actions == [] || (Allowed(e, actions[0]) && AllAllowed(Act(e, actions[0]), actions[1..]))
  }

  /** One turn takes its credit exactly once, since sending refunds nothing. */
  lemma SegmentCredit(e: Endpoint, data: seq<byte>)
    requires |data| <= e.credit
    ensures WriteSegment(e, data).credit == e.credit - |data|
    ensures e.stream <= WriteSegment(e, data).stream
  {
    hide Extend, Symbols;
    var e1 := e.(credit := e.credit - |data|, written := e.written + data);
    var s := Segment(e1.sendSeq, e1.recvSeq, NONE, data);
    ExtendFields(e1.(sendQ := e1.sendQ + [s], sendSeq := (e1.sendSeq + Len(s)) % U32, stream := e1.stream + Symbols(s)));
  }

  /** A call of `Write` is a sequence of protocol steps and nothing else, permitted
      on any socket that has been opened; it ends with all data queued, or waiting
      for credit. */
  lemma {:induction false} WriteIsTurns(e: Endpoint, data: seq<byte>, start: nat, resumed: bool)
    requires start <= |data|
    ensures var (f, reached) := WriteLoop(e, data, start, resumed);
            var turns := Turns(e.credit, data, start, resumed);
            && ActAll(e, turns) == f && (e.stream != [] ==> AllAllowed(e, turns))
            && start <= reached <= |data| && f.credit == e.credit - (reached - start)
            && (reached == |data| || Waits(f.credit, data, reached, resumed && reached == start))
    decreases |data| - start
  {
    hide WriteSegment;
    if start < |data| && !Waits(e.credit, data, start, resumed) {
      var n := NextLength(data, start);
      var piece := data[start..start + n];
      var g := WriteSegment(e, piece);
      SegmentCredit(e, piece);
      WriteIsTurns(g, data, start + n, false);
      assert Act(e, Action.Write(piece)) == g;
      var rest := Turns(g.credit, data, start + n, false);
      assert Turns(e.credit, data, start, resumed)[1..] == rest;
    }
  }

  /** `data`, and nothing else, has joined the stream, in order. */
  ghost predicate Accepts(e: Endpoint, f: Endpoint, data: seq<byte>) {
    && Inv(f) && Progress(e, f, 0) && f.state == e.state
    && f.written == e.written + data && f.stream == e.stream + DataSymbols(data)
  }

  lemma AcceptsTrans(e: Endpoint, g: Endpoint, f: Endpoint, data: seq<byte>, from: nat, middle: nat, to: nat)
    requires from <= middle <= to <= |data|
    requires Accepts(e, g, data[from..middle]) && Accepts(g, f, data[middle..to])
    ensures Accepts(e, f, data[from..to])
  {
    hide Inv, Progress, DataSymbols;
    ProgressTrans(e, g, f, 0);
    DataSplits(data, from, middle, to);
  }

  lemma DataSplits(data: seq<byte>, from: nat, middle: nat, to: nat)
    requires from <= middle <= to <= |data|
    ensures data[from..middle] + data[middle..to] == data[from..to]
    ensures DataSymbols(data[from..middle]) + DataSymbols(data[middle..to]) == DataSymbols(data[from..to])
  {
  }

  lemma TurnAccepts(e: Endpoint, piece: seq<byte>)
    requires Inv(e) && Allowed(e, Action.Write(piece)) && |e.stream| + |piece| < U32
    ensures Accepts(e, WriteSegment(e, piece), piece)
  {
    hide Inv, WriteSegment;
    WriteKeeps(e, piece);
  }

  /** Every byte up to the offset reached is in the stream, once and in order,
      and the invariant survives the whole call. */
  lemma {:induction false} WriteAccepts(e: Endpoint, data: seq<byte>, start: nat, resumed: bool)
    requires Inv(e) && e.stream != [] && start <= |data| && |e.stream| + (|data| - start) < U32
    ensures var (f, reached) := WriteLoop(e, data, start, resumed);
            start <= reached <= |data| && Accepts(e, f, data[start..reached])
    decreases |data| - start
  {
    hide Inv, WriteSegment, Accepts;
    if start < |data| && !Waits(e.credit, data, start, resumed) {
      var n := NextLength(data, start);
      var piece := data[start..start + n];
      var g := WriteSegment(e, piece);
      TurnAccepts(e, piece);
      AcceptsGrow(e, g, piece);
      WriteAccepts(g, data, start + n, false);
      var (f, reached) := WriteLoop(g, data, start + n, false);
      AcceptsTrans(e, g, f, data, start, start + n, reached);
    } else {
      AcceptsNothing(e);
      assert data[start..start] == [];
    }
  }

  lemma AcceptsGrow(e: Endpoint, g: Endpoint, piece: seq<byte>)
    requires Accepts(e, g, piece)
    ensures Inv(g) && |g.stream| == |e.stream| + |piece|
  {
  }

  lemma AcceptsNothing(e: Endpoint)
    requires Inv(e)
    ensures Accepts(e, e, [])
  {
  }
}
