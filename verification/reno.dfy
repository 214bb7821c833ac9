/**
 TCP Reno congestion control: src/transport/congestion.cc.

 A `RenoState` is the value of the managenexts fields, `OnReceiveAck` and
 `OnTimeout` are its callbacks as functions, and the class
 `RenoManagers.TCPReno` is the object that updates its fields in place.

 Three paths of the source end without a return statement; the Boolean they
 yield is the parameter `junk`, so every result below holds for either value.
 Every callback announces at most one new window to the socket; it is returned
 in `window` and the socket applies it.  `congestion_window_` is a 64-bit
 integer in the source and unbounded here.
 */
module Reno {
  import opened Machine

  const MSS: int := 1460

  datatype Phase = SlowStart | CongestionAvoidance | FastRecovery

  datatype RenoState = RenoState(phase: Phase, cwnd: nat, ssthresh: nat, acked: nat, dups: nat)

  datatype AckResult = AckResult(next: RenoState, window: Option<nat>, retransmit: bool)

  datatype Event = Ack(ack: nat, junk: bool) | Timeout

  const Initial := RenoState(SlowStart, MSS, 65536, 0, 0)

  /** An acknowledgement the manager treats as new. */
  predicate IsNew(r: RenoState, ack: nat) {
    r.acked == 0 || ack > r.acked
  }

  /** The additive step of congestion avoidance, truncated to an integer. */
  function Grown(cwnd: nat): nat {
    if cwnd == 0 then 0 else cwnd + MSS * MSS / cwnd
  }

  function HalvedThreshold(r: RenoState): nat {
    Max(MSS, r.cwnd / 2)
  }

  function EnterFastRecovery(r: RenoState): AckResult {
    var threshold := HalvedThreshold(r);
    var w := threshold + 3 * MSS;
    AckResult(RenoState(FastRecovery, w, threshold, r.acked, r.dups + 1), Some(w), true)
  }

  function OnSlowStart(r: RenoState, ack: nat, junk: bool): AckResult {
    if IsNew(r, ack) then
      var w := if r.cwnd < r.ssthresh then r.cwnd + MSS else Grown(r.cwnd);
      var phase := if r.cwnd < r.ssthresh then SlowStart else CongestionAvoidance;
      AckResult(RenoState(phase, w, r.ssthresh, ack, 0), Some(w), false)
    else if ack == r.acked then
      if r.dups + 1 == 3 then EnterFastRecovery(r) else AckResult(r.(dups := r.dups + 1), None, false)
    else
      AckResult(r, None, junk)
  }

  function OnCongestionAvoidance(r: RenoState, ack: nat, junk: bool): AckResult {
    if IsNew(r, ack) then
      AckResult(r.(cwnd := Grown(r.cwnd), acked := ack, dups := 0), Some(Grown(r.cwnd)), junk)
    else if ack == r.acked then
      if r.dups + 1 == 3 then EnterFastRecovery(r) else AckResult(r.(dups := r.dups + 1), None, false)
    else
      AckResult(r, None, junk)
  }

  function OnFastRecovery(r: RenoState, ack: nat, junk: bool): AckResult {
    if IsNew(r, ack) then
      AckResult(RenoState(CongestionAvoidance, r.ssthresh, r.ssthresh, ack, 0), Some(r.ssthresh), false)
    else if ack == r.acked then
      AckResult(r.(cwnd := r.cwnd + MSS), Some(r.cwnd + MSS), true)
    else
      AckResult(r, None, junk)
  }

  function OnReceiveAck(r: RenoState, ack: nat, junk: bool): AckResult {
    match r.phase
    case SlowStart => OnSlowStart(r, ack, junk)
    case CongestionAvoidance => OnCongestionAvoidance(r, ack, junk)
    case FastRecovery => OnFastRecovery(r, ack, junk)
  }

  function OnTimeout(r: RenoState): RenoState {
    RenoState(SlowStart, MSS, HalvedThreshold(r), 0, 0)
  }

  function Apply(r: RenoState, e: Event): RenoState {
    match e
    case Ack(ack, junk) => OnReceiveAck(r, ack, junk).next
    case Timeout => OnTimeout(r)
  }

  function Run(r: RenoState, events: seq<Event>): RenoState
    decreases |events|
  {
    if events == [] then r else Run(Apply(r, events[0]), events[1..])
  }

  /** The joint invariant of the three phases. */
  predicate Inv(r: RenoState) {
    && MSS <= r.cwnd
    && MSS <= r.ssthresh
    && (r.dups == 3 <==> r.phase == FastRecovery)
    && r.dups <= 3
    && match r.phase
       case SlowStart => r.cwnd < r.ssthresh + MSS
       case CongestionAvoidance => r.ssthresh <= r.cwnd
       case FastRecovery => Inflation(r) >= 3 && r.cwnd == r.ssthresh + Inflation(r) * MSS
  }

  /** Whole segments by which the window exceeds the threshold: 3 on entry to
      fast recovery plus one for every further duplicate. */
  function Inflation(r: RenoState): int {
    (r.cwnd - r.ssthresh) / MSS
  }

  lemma GrownBounds(cwnd: nat)
    requires 1 <= cwnd
    ensures cwnd <= Grown(cwnd)
    ensures (Grown(cwnd) - cwnd) * cwnd <= MSS * MSS
  {
  }

  /** One callback keeps the invariant; the window it announces, if any, is the
      new congestion window, and silence means the window did not move. */
  lemma StepKeepsInv(r: RenoState, e: Event)
    requires Inv(r)
    ensures Inv(Apply(r, e))
    ensures e.Ack? ==> var res := OnReceiveAck(r, e.ack, e.junk);
                       res.window == (if res.window.Some? then Some(res.next.cwnd) else None)
                       && (res.window.None? ==> res.next.cwnd == r.cwnd)
  {
    GrownBounds(r.cwnd);
  }

  /** Every state reached by any sequence of acknowledgements and timeouts is in
      the invariant. */
  lemma {:induction false} RunKeepsInv(r: RenoState, events: seq<Event>)
    requires Inv(r)
    ensures Inv(Run(r, events))
    decreases |events|
  {
    if events == [] {
    } else {
      StepKeepsInv(r, events[0]);
      RunKeepsInv(Apply(r, events[0]), events[1..]);
    }
  }

  // ----- inflation in fast recovery -----

  predicate StaysInRecovery(r: RenoState, events: seq<Event>)
    decreases |events|
  {
    r.phase == FastRecovery && (events == [] || StaysInRecovery(Apply(r, events[0]), events[1..]))
  }

  /** How many of the events acknowledge exactly `acked`. */
  function Dups(acked: nat, events: seq<Event>): nat
    decreases |events|
  {
    if events == [] then 0
    else (if events[0].Ack? && events[0].ack == acked then 1 else 0) + Dups(acked, events[1..])
  }

  /** Only a new acknowledgement or a timeout leaves fast recovery; until then the
      window grows by one segment for each duplicate, whatever older
      acknowledgements come between, and nothing else changes. */
  lemma {:induction false} DuplicatesInflate(r: RenoState, events: seq<Event>)
    requires r.phase == FastRecovery
    ensures StaysInRecovery(r, events) <==> forall e :: e in events ==> e.Ack? && !IsNew(r, e.ack)
    ensures StaysInRecovery(r, events) ==> Run(r, events) == r.(cwnd := r.cwnd + Dups(r.acked, events) * MSS)
    decreases |events|
  {
    if events != [] {
      var r1 := Apply(r, events[0]);
      assert events == [events[0]] + events[1..];
      if r1.phase == FastRecovery {
        DuplicatesInflate(r1, events[1..]);
        assert forall e :: e in events <==> e == events[0] || e in events[1..];
      }
    }
  }

  /** From the third duplicate on, until an acknowledgement is new or a timeout
      fires, the window is the halved threshold plus three segments plus one for
      every further duplicate. */
  lemma FastRecoveryInflates(r: RenoState, ack: nat, junk: bool, events: seq<Event>)
    requires Inv(r) && r.phase != FastRecovery && r.dups == 2 && !IsNew(r, ack) && ack == r.acked
    requires forall e :: e in events ==> e.Ack? && !IsNew(r, e.ack)
    ensures var after := Run(r, [Ack(ack, junk)] + events);
            after.phase == FastRecovery && after.ssthresh == HalvedThreshold(r)
            && after.cwnd == HalvedThreshold(r) + (3 + Dups(ack, events)) * MSS
  {
    var entered := Apply(r, Ack(ack, junk));
    assert ([Ack(ack, junk)] + events)[1..] == events;
    DuplicatesInflate(entered, events);
  }

  // ----- growth in congestion avoidance -----

  predicate StaysInAvoidance(r: RenoState, events: seq<Event>)
    decreases |events|
  {
    r.phase == CongestionAvoidance && (events == [] || StaysInAvoidance(Apply(r, events[0]), events[1..]))
  }

  /** How many of the events are acknowledgements that are new when they arrive. */
  function News(r: RenoState, events: seq<Event>): nat
    decreases |events|
  {
    if events == [] then 0
    else (if events[0].Ack? && IsNew(r, events[0].ack) then 1 else 0) + News(Apply(r, events[0]), events[1..])
  }

  /** New acknowledgements alone never leave congestion avoidance. */
  lemma {:induction false} NewAcksStay(r: RenoState, events: seq<Event>)
    requires r.phase == CongestionAvoidance && News(r, events) == |events|
    ensures StaysInAvoidance(r, events)
    decreases |events|
  {
    if events != [] {
      NewsBound(Apply(r, events[0]), events[1..]);
      NewAcksStay(Apply(r, events[0]), events[1..]);
    }
  }

  lemma {:induction false} NewsBound(r: RenoState, events: seq<Event>)
    ensures News(r, events) <= |events|
    decreases |events|
  {
    if events != [] { NewsBound(Apply(r, events[0]), events[1..]); }
  }

  /** Each acknowledgement that is new adds at most MSS^2 / cwnd, and nothing that
      comes between them adds anything. */
  lemma {:induction false} NewAcksGrow(r: RenoState, events: seq<Event>, base: nat)
    requires Inv(r) && StaysInAvoidance(r, events)
    requires 1 <= base <= r.cwnd
    ensures var after := Run(r, events);
            r.cwnd <= after.cwnd && (after.cwnd - r.cwnd) * base <= News(r, events) * (MSS * MSS)
    decreases |events|
  {
    if events != [] {
      var next := Apply(r, events[0]);
      AvoidanceGain(r, events[0], base);
      NewAcksGrow(next, events[1..], base);
      var rest := Run(next, events[1..]).cwnd - next.cwnd;
      var news := News(next, events[1..]);
      hide *;
      Accumulate(next.cwnd - r.cwnd, rest, base, if events[0].Ack? && IsNew(r, events[0].ack) then 1 else 0, news);
    }
  }

  lemma AvoidanceGain(r: RenoState, e: Event, base: nat)
    requires Inv(r) && r.phase == CongestionAvoidance && Apply(r, e).phase == CongestionAvoidance
    requires 1 <= base <= r.cwnd
    ensures Inv(Apply(r, e)) && r.cwnd <= Apply(r, e).cwnd
    ensures (Apply(r, e).cwnd - r.cwnd) * base <= (if e.Ack? && IsNew(r, e.ack) then 1 else 0) * (MSS * MSS)
  {
    StepKeepsInv(r, e);
    GrownBounds(r.cwnd);
    MulMono(Apply(r, e).cwnd - r.cwnd, base, r.cwnd);
  }

  lemma Accumulate(x: nat, y: nat, base: nat, m: nat, n: nat)
    requires x * base <= m * (MSS * MSS) && y * base <= n * (MSS * MSS)
    ensures (x + y) * base <= (m + n) * (MSS * MSS)
  {
  }

  lemma MulMono(x: nat, a: nat, b: nat)
    requires a <= b
    ensures x * a <= x * b
  {
  }

  /** A window's worth of new acknowledgements, whatever comes between them, opens
      the window by at most one segment. */
  lemma OneSegmentPerWindow(r: RenoState, events: seq<Event>)
    requires Inv(r) && StaysInAvoidance(r, events) && News(r, events) <= r.cwnd / MSS
    ensures r.cwnd <= Run(r, events).cwnd <= r.cwnd + MSS
  {
    NewAcksGrow(r, events, r.cwnd);
    assert News(r, events) * MSS <= r.cwnd;
    hide *;
    GainBound(Run(r, events).cwnd - r.cwnd, r.cwnd, News(r, events));
  }

  // ----- growth from below -----

  /** One new acknowledgement falls short of MSS^2 / cwnd by less than one byte. */
  lemma AvoidanceGainBelow(r: RenoState, e: Event)
    requires Inv(r) && r.phase == CongestionAvoidance && Apply(r, e).phase == CongestionAvoidance
    ensures var news := if e.Ack? && IsNew(r, e.ack) then 1 else 0;
            (Apply(r, e).cwnd - r.cwnd + news) * r.cwnd >= news * (MSS * MSS)
    ensures e.Ack? && IsNew(r, e.ack) && r.cwnd <= MSS * MSS ==> r.cwnd < Apply(r, e).cwnd
  {
    if e.Ack? && IsNew(r, e.ack) { Quotient(MSS * MSS, r.cwnd); }
  }

  lemma Quotient(a: nat, b: nat)
    requires 1 <= b
    ensures (a / b + 1) * b >= a
    ensures b <= a ==> 1 <= a / b
  {
  }

  /** n new acknowledgements add at least n * MSS^2 / cwnd, less one byte each for the
      integer division, cwnd being any bound on the window reached. */
  lemma {:induction false} NewAcksGrowBelow(r: RenoState, events: seq<Event>, top: nat)
    requires Inv(r) && StaysInAvoidance(r, events) && Run(r, events).cwnd <= top
    ensures r.cwnd <= Run(r, events).cwnd
    ensures (Run(r, events).cwnd - r.cwnd + News(r, events)) * top >= News(r, events) * (MSS * MSS)
    decreases |events|
  {
    if events != [] {
      var next := Apply(r, events[0]);
      AvoidanceGain(r, events[0], 1);
      AvoidanceGainBelow(r, events[0]);
      NewAcksGrowBelow(next, events[1..], top);
      var rest := Run(next, events[1..]).cwnd - next.cwnd;
      var news := News(next, events[1..]);
      var now := if events[0].Ack? && IsNew(r, events[0].ack) then 1 else 0;
      assert r.cwnd <= top;
      hide *;
      MulMono(next.cwnd - r.cwnd + now, r.cwnd, top);
      AccumulateBelow(next.cwnd - r.cwnd, rest, top, now, news);
    }
  }

  lemma AccumulateBelow(x: nat, y: nat, top: nat, m: nat, n: nat)
    requires (x + m) * top >= m * (MSS * MSS) && (y + n) * top >= n * (MSS * MSS)
    ensures (x + y + (m + n)) * top >= (m + n) * (MSS * MSS)
  {
    assert (x + y + (m + n)) * top == (x + m) * top + (y + n) * top;
  }

  /** While the window is below MSS^2 every new acknowledgement opens it. */
  lemma {:induction false} EveryNewAckOpens(r: RenoState, events: seq<Event>)
    requires Inv(r) && StaysInAvoidance(r, events) && Run(r, events).cwnd <= MSS * MSS
    ensures r.cwnd + News(r, events) <= Run(r, events).cwnd
    decreases |events|
  {
    if events != [] {
      AvoidanceGain(r, events[0], 1);
      AvoidanceGainBelow(r, events[0]);
      NewAcksGrowBelow(Apply(r, events[0]), events[1..], MSS * MSS);
      EveryNewAckOpens(Apply(r, events[0]), events[1..]);
    }
  }

  /** A window's worth of new acknowledgements opens the window by at least a third
      of a segment, less two bytes, up to the size at which additive increase ends. */
  lemma ThirdOfASegmentPerWindow(r: RenoState, events: seq<Event>)
    requires Inv(r) && StaysInAvoidance(r, events) && News(r, events) == r.cwnd / MSS
    requires r.cwnd <= MSS * MSS - MSS
    ensures MSS <= 3 * (Run(r, events).cwnd - r.cwnd + 2)
  {
    OneSegmentPerWindow(r, events);
    var after := Run(r, events);
    NewAcksGrowBelow(r, events, after.cwnd);
    EveryNewAckOpens(r, events);
    var n := News(r, events);
    assert 1 <= n && r.cwnd < (n + 1) * MSS;
    hide *;
    Share(after.cwnd - r.cwnd, n, after.cwnd);
  }

  lemma Share(gain: nat, n: nat, top: nat)
    requires 1 <= n <= gain && top <= (n + 2) * MSS && (gain + n) * top >= n * (MSS * MSS)
    ensures MSS <= 3 * (gain + 2)
  {
    if gain <= 484 { SmallGain(gain, n); }
    MulMono(gain + n, top, (n + 2) * MSS);
    assert (gain + n) * ((n + 2) * MSS) == ((gain + n) * (n + 2)) * MSS;
    assert n * (MSS * MSS) == (n * MSS) * MSS;
    assert (gain + n) * (n + 2) >= n * MSS;
  }

  lemma SmallGain(gain: nat, n: nat)
    requires 1 <= n <= gain <= 484
    ensures (gain + n) * (n + 2) < n * MSS
  {
    MulMono(n + 2, gain + n, 484 + n);
    assert (484 + n) * (n + 2) == n * n + 486 * n + 968;
    MulMono(n, n, 484);
  }

  lemma GainBound(gain: int, cwnd: nat, n: nat)
    requires 0 < cwnd && n * MSS <= cwnd && gain * cwnd <= n * (MSS * MSS)
    ensures gain <= MSS
  {
  }

  lemma GrownCap(cwnd: nat)
    requires 1 <= cwnd
    ensures Grown(cwnd) <= Max(cwnd, MSS * MSS + 1)
  {
  }

  /** While every event leaves the manager in congestion avoidance its window
      stays under the larger of its entry value and MSS^2 + 1. */
  lemma {:induction false} AvoidanceCap(r: RenoState, events: seq<Event>)
    requires Inv(r) && StaysInAvoidance(r, events)
    ensures Run(r, events).cwnd <= Max(r.cwnd, MSS * MSS + 1)
    decreases |events|
  {
    if events == [] {
    } else {
      StepKeepsInv(r, events[0]);
      GrownCap(r.cwnd);
      AvoidanceCap(Apply(r, events[0]), events[1..]);
    }
  }

  // ----- slow start -----

  predicate StaysInSlowStart(r: RenoState, events: seq<Event>)
    decreases |events|
  {
    r.phase == SlowStart && (events == [] || StaysInSlowStart(Apply(r, events[0]), events[1..]))
  }

  /** In slow start the window grows by one segment for every new acknowledgement
      and by nothing else, so that a window's worth of them doubles it; the phase
      ends for growth exactly with the first one that finds the window at the
      threshold. */
  lemma {:induction false} SlowStartGrows(r: RenoState, events: seq<Event>)
    requires Inv(r) && StaysInSlowStart(r, events) && Timeout !in events
    ensures Run(r, events).cwnd == r.cwnd + News(r, events) * MSS
    ensures forall ack, junk :: var after := Run(r, events);
              IsNew(after, ack) ==> (OnReceiveAck(after, ack, junk).next.phase == CongestionAvoidance
                                     <==> after.ssthresh <= after.cwnd)
    decreases |events|
  {
    if events != [] {
      StepKeepsInv(r, events[0]);
      assert events[0] in events;
      SlowStartGrows(Apply(r, events[0]), events[1..]);
    }
  }

  /** The acknowledgement that ends slow start already opens the window as congestion
      avoidance does, by MSS^2 / cwnd to within a byte. */
  lemma SlowStartEnds(r: RenoState, ack: nat, junk: bool)
    requires Inv(r) && r.phase == SlowStart && IsNew(r, ack) && r.ssthresh <= r.cwnd
    ensures var f := OnReceiveAck(r, ack, junk).next;
            && f.phase == CongestionAvoidance && f.ssthresh == r.ssthresh && f.acked == ack && f.dups == 0
            && (f.cwnd - r.cwnd) * r.cwnd <= MSS * MSS <= (f.cwnd - r.cwnd + 1) * r.cwnd
  {
    GrownBounds(r.cwnd);
    Quotient(MSS * MSS, r.cwnd);
  }

  // ----- losses -----

  /** Half the window, but at least a segment. */
  predicate Halves(threshold: nat, cwnd: nat) {
    MSS <= threshold && (2 * threshold <= cwnd < 2 * threshold + 2 || (threshold == MSS && cwnd < 2 * MSS))
  }

  /** After a timeout: one segment, half the window as threshold, slow start, and
      the next acknowledgement is new whatever its number. */
  lemma TimeoutStartsOver(r: RenoState)
    requires Inv(r)
    ensures var f := Apply(r, Timeout);
            f.phase == SlowStart && f.cwnd == MSS && Halves(f.ssthresh, r.cwnd) && f.dups == 0
            && forall ack :: IsNew(f, ack)
  {
  }

  /** A whole recovery, however many duplicates and older acknowledgements it takes:
      the third duplicate and every later one ask for a resend, and the new
      acknowledgement that ends it leaves congestion avoidance with half the window
      the loss was found with. */
  lemma RecoveryHalves(r: RenoState, ack: nat, junk: bool, events: seq<Event>, next: nat, late: bool)
    requires Inv(r) && r.phase != FastRecovery && r.dups == 2 && !IsNew(r, ack) && ack == r.acked < next
    requires forall e :: e in events ==> e.Ack? && !IsNew(r, e.ack)
    ensures OnReceiveAck(r, ack, junk).retransmit
    ensures var during := Run(r, [Ack(ack, junk)] + events);
            && OnReceiveAck(during, ack, junk).retransmit
            && !OnReceiveAck(during, next, late).retransmit
            && var after := Run(r, [Ack(ack, junk)] + events + [Ack(next, late)]);
               after.phase == CongestionAvoidance && after.cwnd == after.ssthresh && Halves(after.cwnd, r.cwnd)
               && after.acked == next && after.dups == 0
  {
    FastRecoveryInflates(r, ack, junk, events);
    var entered := Apply(r, Ack(ack, junk));
    assert ([Ack(ack, junk)] + events)[1..] == events;
    DuplicatesInflate(entered, events);
    RunSnoc(r, [Ack(ack, junk)] + events, Ack(next, late));
  }

  lemma {:induction false} RunSnoc(r: RenoState, events: seq<Event>, e: Event)
    ensures Run(r, events + [e]) == Apply(Run(r, events), e)
    decreases |events|
  {
    if events == [] {
      assert [e][1..] == [] && events + [e] == [e];
    } else {
      assert (events + [e])[1..] == events[1..] + [e];
      RunSnoc(Apply(r, events[0]), events[1..], e);
    }
  }

  /** The first two duplicates neither move the window nor ask for a resend, and
      an older acknowledgement is nothing at all. */
  lemma EarlyDuplicates(r: RenoState, ack: nat, junk: bool)
    requires Inv(r) && r.phase != FastRecovery && !IsNew(r, ack)
    ensures var res := OnReceiveAck(r, ack, junk);
            if ack < r.acked then res.next == r && res.window.None?
            else r.dups < 2 ==> !res.retransmit && res.window.None? && res.next == r.(dups := r.dups + 1)
  {
  }

  // ----- which acknowledgement is the last -----

  /** The highest number acknowledged. */
  function Highest(acked: nat, events: seq<Event>): nat
    decreases |events|
  {
    if events == [] then acked
    else Highest(if events[0].Ack? then Max(acked, events[0].ack) else acked, events[1..])
  }

  /** Between timeouts the manager always knows the highest acknowledgement so far,
      whatever order they arrive in and whatever phase it is in. */
  lemma {:induction false} KnowsHighest(r: RenoState, events: seq<Event>)
    requires Timeout !in events
    ensures Run(r, events).acked == Highest(r.acked, events)
    decreases |events|
  {
    if events != [] {
      assert events[0] in events;
      KnowsHighest(Apply(r, events[0]), events[1..]);
    }
  }

  /** An acknowledgement of new data and then three times the same: fast recovery, from
      any state outside it, with half the window the first one left. */
  lemma ThreeDuplicatesRecover(r: RenoState, ack: nat, j0: bool, j1: bool, j2: bool, j3: bool)
    requires Inv(r) && r.phase != FastRecovery && IsNew(r, ack) && ack != 0
    ensures var first := Apply(r, Ack(ack, j0));
            var last := Apply(Apply(Apply(first, Ack(ack, j1)), Ack(ack, j2)), Ack(ack, j3));
            && first.phase != FastRecovery && r.cwnd <= first.cwnd
            && last.phase == FastRecovery && last.acked == ack && Halves(last.ssthresh, first.cwnd)
            && last.cwnd == last.ssthresh + 3 * MSS
  {
    GrownBounds(r.cwnd);
    hide Grown;
  }
}
