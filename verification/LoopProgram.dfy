/**
 * One pass of the accept loop as a grammar over its shared accesses, read off the source from top to
 * bottom: the transition system accepts exactly these sequences, including every way to be cancelled.
 */
module LoopProgram {
  import opened Admission
  import Common

  /** Running `acts` takes the loop to the end of the pass: back to waiting for a permit, or out of the loop. */
  predicate Returns(p: LoopPoint, acts: seq<LoopAct>, ipLimit: nat, granted: bool)
    decreases acts
  {
    if p.AwaitingPermit? || p.Stopped? then acts == []
    else acts != [] && PointAllows(p, acts[0]) && Returns(LoopMoved(p, acts[0], ipLimit, granted), acts[1..], ipLimit, granted)
  }

  /** A whole pass, from waiting for a permit; `granted` is what the per-IP limiter answers if asked. */
  predicate Passes(acts: seq<LoopAct>, ipLimit: nat, granted: bool) {
    && acts != [] && PointAllows(AwaitingPermit, acts[0])
    && Returns(LoopMoved(AwaitingPermit, acts[0], ipLimit, granted), acts[1..], ipLimit, granted)
  }

  predicate Then(acts: seq<LoopAct>, act: LoopAct) {
    acts != [] && acts[0] == act
  }

  /** A refused connection gives the slot back, uncounted first, and is counted as rejected. */
  predicate Reject(acts: seq<LoopAct>) {
    acts == [Uncount, ReleasePermit, CountRejection]
  }

  /** The limit is loaded, the address checked, and the connection handed over exactly when it is granted. */
  predicate CheckAddress(acts: seq<LoopAct>, granted: bool) {
    && |acts| >= 2 && acts[0] == LoadIpLimit && acts[1] == CheckIp
    && if granted then acts[2..] == [Spawn] else Reject(acts[2..])
  }

  /** The rate is checked first. */
  predicate CheckPeer(acts: seq<LoopAct>, granted: bool) {
    || (Then(acts, CheckRate(false)) && Reject(acts[1..]))
    || (Then(acts, CheckRate(true)) && CheckAddress(acts[1..], granted))
  }

  /** With the slot in hand the loop accepts, fails to, or is cancelled; the latter two give the slot back. */
  predicate AcceptOne(acts: seq<LoopAct>, granted: bool) {
    || acts == [FailAccept, Uncount, ReleasePermit]
    || acts == [Shutdown, Uncount, ReleasePermit]
    || (acts != [] && acts[0].Accept? && CheckPeer(acts[1..], granted))
  }

  /** The slot is taken before anything is accepted, its permit before its count. */
  predicate Pass(acts: seq<LoopAct>, granted: bool) {
    || acts == [Shutdown]
    || (|acts| >= 2 && acts[0] == TakePermit && acts[1] == CountConnection && AcceptOne(acts[2..], granted))
  }

  lemma RejectingReturns(acts: seq<LoopAct>, why: Reason, ipLimit: nat, granted: bool)
    ensures Returns(Rejecting(why), acts, ipLimit, granted) <==> acts == [CountRejection]
  {
    if acts != [] {
      assert acts == [acts[0]] + acts[1..];
    }
  }

  lemma HoldingBothReturns(ip: Common.IpAddr, acts: seq<LoopAct>, ipLimit: nat, granted: bool)
    ensures Returns(HoldingBoth(ip), acts, ipLimit, granted) <==> acts == [Spawn]
  {
    if acts != [] {
      assert acts == [acts[0]] + acts[1..];
    }
  }

  lemma ReleasingReturns(acts: seq<LoopAct>, why: Reason, ipLimit: nat, granted: bool)
    ensures Returns(Releasing(why), acts, ipLimit, granted) <==>
              acts == if why.RateExceeded? || why.IpFull? then [ReleasePermit, CountRejection] else [ReleasePermit]
  {
    if Then(acts, ReleasePermit) {
      assert acts == [ReleasePermit] + acts[1..];
      RejectingReturns(acts[1..], why, ipLimit, granted);
    }
  }

  lemma UncountingReturns(acts: seq<LoopAct>, why: Reason, ipLimit: nat, granted: bool)
    ensures Returns(Uncounting(why), acts, ipLimit, granted) <==>
              if why.RateExceeded? || why.IpFull? then Reject(acts) else acts == [Uncount, ReleasePermit]
  {
    if Then(acts, Uncount) {
      assert acts == [Uncount] + acts[1..];
      ReleasingReturns(acts[1..], why, ipLimit, granted);
    }
  }

  lemma LimitLoadedReturns(ip: Common.IpAddr, acts: seq<LoopAct>, limit: nat, ipLimit: nat, granted: bool)
    ensures Returns(LimitLoaded(ip, limit), acts, ipLimit, granted) <==>
              Then(acts, CheckIp) && if granted then acts[1..] == [Spawn] else Reject(acts[1..])
  {
    if Then(acts, CheckIp) {
      if granted {
        HoldingBothReturns(ip, acts[1..], ipLimit, granted);
      } else {
        UncountingReturns(acts[1..], IpFull, ipLimit, granted);
      }
    }
  }

  lemma RatePassedReturns(ip: Common.IpAddr, acts: seq<LoopAct>, ipLimit: nat, granted: bool)
    ensures Returns(RatePassed(ip), acts, ipLimit, granted) <==> CheckAddress(acts, granted)
  {
    if Then(acts, LoadIpLimit) {
      LimitLoadedReturns(ip, acts[1..], ipLimit, ipLimit, granted);
      if |acts| >= 2 {
        assert acts[1..][1..] == acts[2..];
      }
    }
  }

  lemma PeerAcceptedReturns(ip: Common.IpAddr, acts: seq<LoopAct>, ipLimit: nat, granted: bool)
    ensures Returns(PeerAccepted(ip), acts, ipLimit, granted) <==> CheckPeer(acts, granted)
  {
    if Then(acts, CheckRate(false)) {
      UncountingReturns(acts[1..], RateExceeded, ipLimit, granted);
    } else if Then(acts, CheckRate(true)) {
      RatePassedReturns(ip, acts[1..], ipLimit, granted);
    }
  }

  lemma AwaitingPeerReturns(acts: seq<LoopAct>, ipLimit: nat, granted: bool)
    ensures Returns(AwaitingPeer, acts, ipLimit, granted) <==> AcceptOne(acts, granted)
  {
    if acts != [] {
      assert acts == [acts[0]] + acts[1..];
      match acts[0] {
        case Accept(ip) => PeerAcceptedReturns(ip, acts[1..], ipLimit, granted);
        case FailAccept => UncountingReturns(acts[1..], AcceptFailed, ipLimit, granted);
        case Shutdown => UncountingReturns(acts[1..], Cancelled, ipLimit, granted);
        case _ =>
      }
    }
  }

  /** The loop's possible passes are exactly the grammar's, whatever the limit. */
  lemma LoopFollowsItsProgram(acts: seq<LoopAct>, ipLimit: nat, granted: bool)
    ensures Passes(acts, ipLimit, granted) <==> Pass(acts, granted)
  {
    if Then(acts, Shutdown) {
      assert acts == [Shutdown] + acts[1..];
    } else if Then(acts, TakePermit) {
      if Then(acts[1..], CountConnection) {
        AwaitingPeerReturns(acts[1..][1..], ipLimit, granted);
        assert acts[1..][1..] == acts[2..];
      }
    }
  }
}
