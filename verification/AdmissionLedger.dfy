/** Every counter is the sum of what each task and the accept loop have put into it, at every atomic step. */
module AdmissionLedger {
  import opened Common
  import opened Admission
  import Slots = IpSlotRuns

  /** What one task contributes to a meter at its current point. */
  function Weight(t: Task, m: Meter): int {
    var holds :=
      match m
      case Connections => !t.at.Uncounted? && !t.at.Finished?
      case SlotsOf(ip) => t.ip == ip && !t.at.IpSlotDropped? && !t.at.Uncounted? && !t.at.Finished?
      case Accepted => true
      case Available => !t.at.Finished?
      case ProbeIoError => t.sni.ReadFailed?
      case ProbeTimeout => t.sni.TimedOut?
      case SniPresent => t.sni.Present?
      case SniAbsent => t.sni.Absent?
      case ProxiedTotal => t.route.Proxied?
      case FallbackTotal => t.route.Fallback?
      case ActiveProxied => t.route.Proxied? && t.at.Serving?
      case ActiveFallback => t.route.Fallback? && t.at.Serving?
      case ProxiedCompleted => t.route.Proxied? && RouteOver(t)
      case FallbackCompleted => t.route.Fallback? && RouteOver(t)
      case HandshakeSuccess => t.handshake.Succeeded?
      case HandshakeFailure => t.handshake.Failed?
      case AlpnH2 => t.alpn.H2?
      case AlpnHttp1 => t.alpn.Http1?
      case AlpnNone => t.alpn.Other?
      case _ => false;
    if !holds then 0 else if m.Available? then -1 else 1
  }

  predicate RouteOver(t: Task) {
    t.at.Routed? || t.at.IpSlotDropped? || t.at.Uncounted? || t.at.Finished?
  }

  function Sum(tasks: seq<Task>, m: Meter): int {
    if tasks == [] then 0 else Sum(tasks[..|tasks| - 1], m) + Weight(tasks[|tasks| - 1], m)
  }

  /** What the accept loop itself holds. */
  function LoopShare(p: LoopPoint, m: Meter): int {
    match m
    case Available => if p.AwaitingPermit? || p.Rejecting? || p.Stopped? then 0 else -1
    case Connections =>
      if p.AwaitingPeer? || p.PeerAccepted? || p.RatePassed? || p.LimitLoaded? || p.HoldingBoth? || p.Uncounting? then 1 else 0
    case Accepted => if InHand(p) then 1 else 0
    case SlotsOf(ip) => if p.HoldingBoth? && p.ip == ip then 1 else 0
    case _ => 0
  }

  /** The loop has accepted a connection it has neither handed over nor counted as rejected. */
  predicate InHand(p: LoopPoint) {
    || p.PeerAccepted? || p.RatePassed? || p.LimitLoaded? || p.HoldingBoth?
    || ((p.Uncounting? || p.Releasing? || p.Rejecting?) && (p.why.RateExceeded? || p.why.IpFull?))
  }

  function Base(s: State, m: Meter): int {
    match m
    case Available => s.max
    case Accepted => Read(s, RejectedRate) + Read(s, RejectedIp)
    case RejectedRate => Read(s, RejectedRate)
    case RejectedIp => Read(s, RejectedIp)
    case _ => 0
  }

  /** The meter reads what the tasks and the loop have put into it. */
  predicate BalancedAt(s: State, m: Meter) {
    Read(s, m) == Base(s, m) + Sum(s.tasks, m) + LoopShare(s.loop, m)
  }

  ghost predicate Balanced(s: State) {
    forall m :: BalancedAt(s, m)
  }

  /** A task's records agree with where it is. */
  predicate Consistent(t: Task) {
    && (t.at.Spawned? || t.at.Probing? ==> t.sni.Unprobed? && !t.panicked)
    && (t.at.Classified? || t.at.TotalCounted? || t.at.Serving? || t.at.GaugeLowered? ==> t.sni.Present? || t.sni.Absent?)
    && (t.at.TotalCounted? || t.at.Serving? || t.at.GaugeLowered? ==> !t.route.Unrouted?)
    && (t.at.Spawned? || t.at.Probing? || t.at.Classified? ==> t.route.Unrouted?)
    && (t.route.Proxied? ==> t.sni.Present? && t.handshake.NotTried?)
    && (t.route.Fallback? ==> t.sni.Present? || t.sni.Absent?)
    && (!t.handshake.NotTried? ==> t.route.Fallback?)
    && (!t.alpn.Unread? ==> t.handshake.Succeeded?)
    && (t.at.TotalCounted? ==> t.handshake.NotTried?)
    && (!t.panicked && (t.at.GaugeLowered? || RouteOver(t)) && t.route.Fallback? ==> t.handshake.Failed? || !t.alpn.Unread?)
    && (!t.panicked && RouteOver(t) ==> !t.sni.Unprobed? && (t.sni.Present? || t.sni.Absent? ==> !t.route.Unrouted?))
  }

  predicate LoopConsistent(p: LoopPoint) {
    p.Rejecting? ==> p.why.RateExceeded? || p.why.IpFull?
  }

  ghost predicate Inv(s: State) {
    && Balanced(s)
    && Slots.Inv(s.ips)
    && LoopConsistent(s.loop)
    && (forall i :: 0 <= i < |s.tasks| ==> Consistent(s.tasks[i]))
    && Read(s, Available) >= 0
  }

  lemma {:induction false} SumOfUpdate(tasks: seq<Task>, i: nat, t: Task, m: Meter)
    requires i < |tasks|
    ensures Sum(tasks[i := t], m) == Sum(tasks, m) - Weight(tasks[i], m) + Weight(t, m)
  {
    var n := |tasks| - 1;
    if i < n {
      assert tasks[i := t][..n] == tasks[..n][i := t];
      SumOfUpdate(tasks[..n], i, t, m);
    } else {
      assert tasks[i := t][..n] == tasks[..n];
    }
  }

  /** How much a touch moves one meter. */
  function Delta(touch: Option<(Meter, int)>, m: Meter): int {
    if touch.Some? && touch.value.0 == m then touch.value.1 else 0
  }

  lemma TouchMovesOneMeter(s: State, s': State, touch: Option<(Meter, int)>, m: Meter)
    requires s'.meters == Touched(s.meters, touch) && (touch.Some? ==> !touch.value.0.SlotsOf?) && !m.SlotsOf?
    ensures Read(s', m) == Read(s, m) + Delta(touch, m)
  {}

  /** A task's action changes its weight on a meter by exactly what the action does to the meter. */
  lemma TaskActIsWeighed(t: Task, act: TaskAct, m: Meter)
    requires Consistent(t) && TaskEnabled(t, act)
    ensures Weight(Moved(t, act), m) - Weight(t, m)
         == Delta(Touch(t, act), m) + (if act.DropIpSlot? && m == SlotsOf(t.ip) then -1 else 0)
  {
    if m.Available? || m.Connections? || m.SlotsOf? {
      HoldingIsWeighed(t, act, m);
    } else if CountsProbe(m) {
      ProbeIsWeighed(t, act, m);
    } else if CountsHandshake(m) {
      HandshakeIsWeighed(t, act, m);
    } else {
      RouteIsWeighed(t, act, m);
    }
  }

  predicate CountsProbe(m: Meter) {
    m.ProbeIoError? || m.ProbeTimeout? || m.SniPresent? || m.SniAbsent?
  }

  predicate CountsHandshake(m: Meter) {
    m.HandshakeSuccess? || m.HandshakeFailure? || m.AlpnH2? || m.AlpnHttp1? || m.AlpnNone?
  }

  lemma HoldingIsWeighed(t: Task, act: TaskAct, m: Meter)
    requires Consistent(t) && TaskEnabled(t, act) && (m.Available? || m.Connections? || m.SlotsOf?)
    ensures Weight(Moved(t, act), m) - Weight(t, m)
         == Delta(Touch(t, act), m) + (if act.DropIpSlot? && m == SlotsOf(t.ip) then -1 else 0)
  {}

  lemma ProbeIsWeighed(t: Task, act: TaskAct, m: Meter)
    requires Consistent(t) && TaskEnabled(t, act) && CountsProbe(m)
    ensures Weight(Moved(t, act), m) - Weight(t, m) == Delta(Touch(t, act), m)
  {}

  lemma HandshakeIsWeighed(t: Task, act: TaskAct, m: Meter)
    requires Consistent(t) && TaskEnabled(t, act) && CountsHandshake(m)
    ensures Weight(Moved(t, act), m) - Weight(t, m) == Delta(Touch(t, act), m)
  {}

  lemma RouteIsWeighed(t: Task, act: TaskAct, m: Meter)
    requires Consistent(t) && TaskEnabled(t, act)
    requires !(m.Available? || m.Connections? || m.SlotsOf? || CountsProbe(m) || CountsHandshake(m))
    ensures Weight(Moved(t, act), m) - Weight(t, m) == Delta(Touch(t, act), m)
  {
    match m {
      case ProxiedTotal =>
      case FallbackTotal =>
      case ActiveProxied =>
      case ActiveFallback =>
      case ProxiedCompleted =>
      case FallbackCompleted =>
      case _ =>
    }
  }

  lemma TaskStaysConsistent(t: Task, act: TaskAct)
    requires Consistent(t) && TaskEnabled(t, act)
    ensures Consistent(Moved(t, act))
  {}

  lemma TaskStepKeepsBalance(s: State, i: nat, act: TaskAct, m: Meter)
    requires Enabled(s, OfTask(i, act)) && Consistent(s.tasks[i]) && BalancedAt(s, m)
    ensures BalancedAt(Next(s, OfTask(i, act)), m)
  {
    var s', t := Next(s, OfTask(i, act)), s.tasks[i];
    TaskActIsWeighed(t, act, m);
    SumOfUpdate(s.tasks, i, Moved(t, act), m);
    TaskStepReads(s, i, act, m);
    TaskStepReads(s, i, act, RejectedRate);
    TaskStepReads(s, i, act, RejectedIp);
    assert Delta(Touch(t, act), RejectedRate) == Delta(Touch(t, act), RejectedIp) == 0;
    if m.RejectedRate? || m.RejectedIp? {
      assert Weight(t, m) == 0 && Base(s', m) == Base(s, m);
    } else {
      assert Base(s', m) == Base(s, m);
    }
  }

  lemma TaskStepReads(s: State, i: nat, act: TaskAct, m: Meter)
    requires Enabled(s, OfTask(i, act))
    ensures var s', t := Next(s, OfTask(i, act)), s.tasks[i];
            Read(s', m) == Read(s, m) + Delta(Touch(t, act), m) + (if act.DropIpSlot? && m == SlotsOf(t.ip) then -1 else 0)
  {
    var s', t := Next(s, OfTask(i, act)), s.tasks[i];
    if m.SlotsOf? {
      assert s'.ips.live == if act.DropIpSlot? then s.ips.live - multiset{t.ip} else s.ips.live;
    } else {
      TouchMovesOneMeter(s, s', Touch(t, act), m);
    }
  }

  lemma TaskStepKeepsInv(s: State, i: nat, act: TaskAct)
    requires Inv(s) && Enabled(s, OfTask(i, act))
    ensures Inv(Next(s, OfTask(i, act)))
  {
    forall m ensures BalancedAt(Next(s, OfTask(i, act)), m) {
      assert BalancedAt(s, m);
      TaskStepKeepsBalance(s, i, act, m);
    }
    if act.DropIpSlot? {
      Slots.StepKeepsInv(s.ips, Slots.Release(s.tasks[i].ip));
    }
    TaskStaysConsistent(s.tasks[i], act);
    TouchMovesOneMeter(s, Next(s, OfTask(i, act)), Touch(s.tasks[i], act), Available);
  }

  /** What the loop takes from or gives to a meter is what its share and the base change by. */
  lemma LoopActIsWeighed(p: LoopPoint, act: LoopAct, ipLimit: nat, m: Meter)
    requires LoopConsistent(p) && PointAllows(p, act) && !act.Spawn? && !act.CheckIp?
    ensures LoopShare(LoopMoved(p, act, ipLimit, false), m) - LoopShare(p, m)
         == Delta(LoopTouch(p, act), m)
            - (if m.Accepted? || m.RejectedRate? then Delta(LoopTouch(p, act), RejectedRate) else 0)
            - (if m.Accepted? || m.RejectedIp? then Delta(LoopTouch(p, act), RejectedIp) else 0)
  {
    match m {
      case Available =>
      case Connections =>
      case Accepted =>
      case SlotsOf(_) =>
      case _ =>
    }
  }

  /** The spawned task starts out with exactly what the loop had in hand. */
  lemma NewTaskWeighsTheLoopShare(ip: IpAddr, m: Meter)
    ensures Weight(NewTask(ip), m) == LoopShare(HoldingBoth(ip), m) && LoopShare(AwaitingPermit, m) == 0
  {
    match m {
      case SlotsOf(_) =>
      case _ =>
    }
  }

  lemma SpawnKeepsBalance(s: State, m: Meter)
    requires LoopEnabled(s, Spawn) && BalancedAt(s, m)
    ensures BalancedAt(LoopNext(s, Spawn), m)
  {
    var s' := LoopNext(s, Spawn);
    NewTaskWeighsTheLoopShare(s.loop.ip, m);
    assert s'.tasks[..|s.tasks|] == s.tasks;
    assert Sum(s'.tasks, m) == Sum(s.tasks, m) + Weight(NewTask(s.loop.ip), m);
    SameBase(s, s', m);
  }

  lemma SameBase(s: State, s': State, m: Meter)
    requires s'.meters == s.meters && s'.max == s.max
    ensures Base(s', m) == Base(s, m)
    ensures s'.ips == s.ips ==> Read(s', m) == Read(s, m)
  {}

  lemma CheckIpKeepsBalance(s: State, m: Meter)
    requires LoopEnabled(s, CheckIp) && BalancedAt(s, m)
    ensures BalancedAt(LoopNext(s, CheckIp), m)
  {
    var s', ip := LoopNext(s, CheckIp), s.loop.ip;
    SameBase(s, s', m);
    assert s'.ips.live == if s'.loop.HoldingBoth? then s.ips.live + multiset{ip} else s.ips.live;
    assert Read(s', m) - Read(s, m) == LoopShare(s'.loop, m) - LoopShare(s.loop, m);
  }

  lemma OtherLoopActKeepsBalance(s: State, act: LoopAct, m: Meter)
    requires LoopConsistent(s.loop) && LoopEnabled(s, act) && !act.Spawn? && !act.CheckIp? && BalancedAt(s, m)
    ensures BalancedAt(LoopNext(s, act), m)
  {
    var s', touch := LoopNext(s, act), LoopTouch(s.loop, act);
    LoopActIsWeighed(s.loop, act, s.ipLimit, m);
    TouchMovesOneMeter(s, s', touch, RejectedRate);
    TouchMovesOneMeter(s, s', touch, RejectedIp);
    if !m.SlotsOf? {
      TouchMovesOneMeter(s, s', touch, m);
    }
    assert Base(s', m) - Base(s, m)
        == (if m.Accepted? || m.RejectedRate? then Delta(touch, RejectedRate) else 0)
           + (if m.Accepted? || m.RejectedIp? then Delta(touch, RejectedIp) else 0);
  }

  lemma LoopStepKeepsRest(s: State, act: LoopAct)
    requires Inv(s) && LoopEnabled(s, act)
    ensures LoopConsistent(LoopNext(s, act).loop) && Read(LoopNext(s, act), Available) >= 0
    ensures Slots.Inv(LoopNext(s, act).ips)
    ensures var tasks := LoopNext(s, act).tasks; forall i :: 0 <= i < |tasks| ==> Consistent(tasks[i])
  {
    TouchMovesOneMeter(s, LoopNext(s, act), LoopTouch(s.loop, act), Available);
    if act.CheckIp? {
      Slots.StepKeepsInv(s.ips, Slots.Acquire(s.loop.ip, s.loop.limit));
    }
    if act.Spawn? {
      assert Consistent(NewTask(s.loop.ip));
    }
  }

  lemma LoopStepKeepsInv(s: State, act: LoopAct)
    requires Inv(s) && LoopEnabled(s, act)
    ensures Inv(LoopNext(s, act))
  {
    LoopStepKeepsRest(s, act);
    forall m ensures BalancedAt(LoopNext(s, act), m) {
      assert BalancedAt(s, m);
      if act.Spawn? {
        SpawnKeepsBalance(s, m);
      } else if act.CheckIp? {
        CheckIpKeepsBalance(s, m);
      } else {
        OtherLoopActKeepsBalance(s, act, m);
      }
    }
  }

  lemma StepKeepsInv(s: State, step: Step)
    requires Inv(s) && Enabled(s, step)
    ensures Inv(Next(s, step))
  {
    match step {
      case Loop(act) => LoopStepKeepsInv(s, act);
      case OfTask(i, act) => TaskStepKeepsInv(s, i, act);
      case SetIpLimit(_) =>
        forall m ensures BalancedAt(Next(s, step), m) {
          assert BalancedAt(s, m);
          SameBase(s, Next(s, step), m);
        }
    }
  }
}
