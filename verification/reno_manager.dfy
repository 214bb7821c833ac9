/** The congestion manager of src/transport/congestion.cc as an object whose
    callbacks update its fields in place, each proved against `Reno`. */
module RenoManagers {
  import opened Machine
  import opened R = Reno

  /** The congestion manager with its fields updated in place. */
  class TCPReno {
    var phase: Phase
    var congestionWindow: nat
    var ssthresh: nat
    var ackedNum: nat
    var duplicatedCount: nat

    ghost function View(): RenoState
      reads this
    {
      RenoState(phase, congestionWindow, ssthresh, ackedNum, duplicatedCount)
    }

    constructor ()
      ensures View() == Initial
    {
      phase := SlowStart;
      ssthresh, ackedNum, duplicatedCount := 65536, 0, 0;
      congestionWindow := MSS;
    }

    method SetCongestionWindow(cwnd: nat) returns (window: Option<nat>)
      modifies this`congestionWindow
      ensures congestionWindow == cwnd && window == Some(cwnd)
    {
      congestionWindow := cwnd;
      window := Some(cwnd);
    }

    method OnReceiveAck(ack: nat, junk: bool) returns (window: Option<nat>, retransmit: bool)
      modifies this
      ensures AckResult(View(), window, retransmit) == R.OnReceiveAck(old(View()), ack, junk)
    {
      match phase
      case SlowStart => window, retransmit := OnSlowStart(ack, junk);
      case CongestionAvoidance => window, retransmit := OnCongestionAvoidance(ack, junk);
      case FastRecovery => window, retransmit := OnFastRecovery(ack, junk);
    }

    method OnSlowStart(ack: nat, junk: bool) returns (window: Option<nat>, retransmit: bool)
      modifies this
      requires phase == SlowStart
      ensures AckResult(View(), window, retransmit) == R.OnSlowStart(old(View()), ack, junk)
    {
      window, retransmit := None, junk;
      if ackedNum == 0 || ack > ackedNum {
        ackedNum := ack;
        duplicatedCount := 0;
        retransmit := false;
        if congestionWindow < ssthresh {
          window := SetCongestionWindow(congestionWindow + MSS);
        } else {
          phase := CongestionAvoidance;
          window := SetCongestionWindow(Grown(congestionWindow));
        }
      } else if ack == ackedNum {
        window, retransmit := OnDuplicate();
      }
    }

    /** The duplicate branch shared by slow start and congestion avoidance. */
    method OnDuplicate() returns (window: Option<nat>, retransmit: bool)
      modifies this
      ensures old(duplicatedCount) + 1 == 3 ==>
                AckResult(View(), window, retransmit) == EnterFastRecovery(old(View()))
      ensures old(duplicatedCount) + 1 != 3 ==>
                AckResult(View(), window, retransmit)
                == AckResult(old(View()).(dups := old(duplicatedCount) + 1), None, false)
    {
      window, retransmit := None, false;
      duplicatedCount := duplicatedCount + 1;
      if duplicatedCount == 3 {
        phase := FastRecovery;
        ssthresh := Max(MSS, congestionWindow / 2);
        window := SetCongestionWindow(ssthresh + 3 * MSS);
        retransmit := true;
      }
    }

    method OnCongestionAvoidance(ack: nat, junk: bool) returns (window: Option<nat>, retransmit: bool)
      modifies this
      ensures AckResult(View(), window, retransmit) == R.OnCongestionAvoidance(old(View()), ack, junk)
    {
      window, retransmit := None, junk;
      if ackedNum == 0 || ack > ackedNum {
        ackedNum := ack;
        duplicatedCount := 0;
        window := SetCongestionWindow(Grown(congestionWindow));
      } else if ack == ackedNum {
        window, retransmit := OnDuplicate();
      }
    }

    method OnFastRecovery(ack: nat, junk: bool) returns (window: Option<nat>, retransmit: bool)
      modifies this
      ensures AckResult(View(), window, retransmit) == R.OnFastRecovery(old(View()), ack, junk)
    {
      window, retransmit := None, junk;
      if ackedNum == 0 || ack > ackedNum {
        phase := CongestionAvoidance;
        window := SetCongestionWindow(ssthresh);
        ackedNum := ack;
        duplicatedCount := 0;
        retransmit := false;
      } else if ack == ackedNum {
        window := SetCongestionWindow(congestionWindow + MSS);
        retransmit := true;
      }
    }

    method OnTimeout() returns (window: Option<nat>)
      modifies this
      ensures View() == R.OnTimeout(old(View())) && window == Some(congestionWindow)
    {
      phase := SlowStart;
      ssthresh := Max(MSS, congestionWindow / 2);
      window := SetCongestionWindow(MSS);
      ackedNum := 0;
      duplicatedCount := 0;
    }
  }
}
