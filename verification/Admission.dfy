/**
 * The admission and lifetime engine as one transition system: the accept loop of src/main.rs, the
 * connection slots of src/limiter.rs, the per-IP slots of src/ip_limiter.rs, and the tasks that route
 * accepted connections, interleaved at every access to shared memory. Accesses are sequentially
 * consistent, counters do not wrap, and network outcomes are free choices.
 */
module Admission {
  import opened Common
  import IpSlots
  import Slots = IpSlotRuns

  /** What the engine counts: the shared atomics, the semaphore, and two quantities only the proof reads. */
  datatype Meter =
    | Available
    | Connections
    | RejectedRate
    | RejectedIp
    | ProbeIoError
    | ProbeTimeout
    | SniPresent
    | SniAbsent
    | ProxiedTotal
    | FallbackTotal
    | ActiveProxied
    | ActiveFallback
    | ProxiedCompleted
    | FallbackCompleted
    | HandshakeSuccess
    | HandshakeFailure
    | AlpnH2
    | AlpnHttp1
    | AlpnNone
    | Accepted
    | SlotsOf(ip: IpAddr)

  /** Why the accept loop gives its connection slot back. */
  datatype Reason = AcceptFailed | RateExceeded | IpFull | Cancelled

  /** Where the accept loop is, between two shared accesses. */
  datatype LoopPoint =
    | AwaitingPermit
    | PermitTaken
    | AwaitingPeer
    | PeerAccepted(ip: IpAddr)
    | RatePassed(ip: IpAddr)
    | LimitLoaded(ip: IpAddr, limit: nat)
    | HoldingBoth(ip: IpAddr)
    | Uncounting(why: Reason)
    | Releasing(why: Reason)
    | Rejecting(why: Reason)
    | Stopped

  datatype LoopAct =
    | TakePermit
    | CountConnection
    | Accept(ip: IpAddr)
    | FailAccept
    | CheckRate(allowed: bool)
    | LoadIpLimit
    | CheckIp
    | Spawn
    | Uncount
    | ReleasePermit
    | CountRejection
    | Shutdown

  /** Where a connection's task is, between two shared accesses. */
  datatype TaskPoint =
    | Spawned
    | Probing
    | Classified
    | TotalCounted
    | Serving
    | GaugeLowered
    | Routed
    | IpSlotDropped
    | Uncounted
    | Finished

  datatype Sni = Unprobed | ReadFailed | TimedOut | Present | Absent
  datatype Route = Unrouted | Proxied | Fallback
  datatype Handshake = NotTried | Succeeded | Failed
  datatype Alpn = Unread | H2 | Http1 | Other

  /** A task, with everything it has counted so far. */
  datatype Task = Task(ip: IpAddr, at: TaskPoint, sni: Sni, route: Route, handshake: Handshake, alpn: Alpn, panicked: bool)

  function NewTask(ip: IpAddr): Task {
    Task(ip, Spawned, Unprobed, Unrouted, NotTried, Unread, false)
  }

  datatype TaskAct =
    | Snapshot
    | FailProbe
    | TimeOutProbe
    | ReadSni(present: bool)
    | BeginRoute(route: Route)
    | RaiseGauge
    | FinishHandshake(success: bool)
    | ReadAlpn(alpn: Alpn)
    | LowerGauge
    | CountCompleted
    | Panic
    | DropIpSlot
    | UncountTask
    | DropPermit

  datatype Step = Loop(act: LoopAct) | OfTask(i: nat, what: TaskAct) | SetIpLimit(limit: nat)

  datatype State = State(
    max: nat,
    meters: map<Meter, int>,
    loop: LoopPoint,
    ips: Slots.State,
    ipLimit: nat,
    tasks: seq<Task>)

  function Init(max: nat, ipLimit: nat): State {
    State(max, map[Available := max], AwaitingPermit, Slots.EMPTY, ipLimit, [])
  }

  function Read(s: State, m: Meter): int {
    if m.SlotsOf? then s.ips.live[m.ip]
    else if m in s.meters then s.meters[m]
    else 0
  }

  /**
   * The actions the loop's program allows at `p`. It can be cancelled only while it waits: for a permit, for
   * a peer, or in its error pause.
   */
  predicate PointAllows(p: LoopPoint, act: LoopAct) {
    match act
    case TakePermit => p.AwaitingPermit?
    case CountConnection => p.PermitTaken?
    case Accept(_) => p.AwaitingPeer?
    case FailAccept => p.AwaitingPeer?
    case CheckRate(_) => p.PeerAccepted?
    case LoadIpLimit => p.RatePassed?
    case CheckIp => p.LimitLoaded?
    case Spawn => p.HoldingBoth?
    case Uncount => p.Uncounting?
    case ReleasePermit => p.Releasing?
    case CountRejection => p.Rejecting?
    case Shutdown => p.AwaitingPermit? || p.AwaitingPeer?
  }

  /** Taking a permit also waits until one is free. */
  predicate LoopEnabled(s: State, act: LoopAct) {
    PointAllows(s.loop, act) && (act.TakePermit? ==> Read(s, Available) > 0)
  }

  /** Where the loop goes; `ipLimit` is the limit now stored, `granted` the per-IP limiter's answer. */
  function LoopMoved(p: LoopPoint, act: LoopAct, ipLimit: nat, granted: bool): LoopPoint
    requires PointAllows(p, act)
  {
    match act
    case TakePermit => PermitTaken
    case CountConnection => AwaitingPeer
    case Accept(ip) => PeerAccepted(ip)
    case FailAccept => Uncounting(AcceptFailed)
    case CheckRate(allowed) => if allowed then RatePassed(p.ip) else Uncounting(RateExceeded)
    case LoadIpLimit => LimitLoaded(p.ip, ipLimit)
    case CheckIp => if granted then HoldingBoth(p.ip) else Uncounting(IpFull)
    case Spawn => AwaitingPermit
    case Uncount => Releasing(p.why)
    case ReleasePermit =>
      if p.why.AcceptFailed? then AwaitingPermit else if p.why.Cancelled? then Stopped else Rejecting(p.why)
    case CountRejection => AwaitingPermit
    case Shutdown => if p.AwaitingPermit? then Stopped else Uncounting(Cancelled)
  }

  /** The shared counter a loop action touches, and by how much. */
  function LoopTouch(p: LoopPoint, act: LoopAct): Option<(Meter, int)>
    requires PointAllows(p, act)
  {
    match act
    case TakePermit => Some((Available, -1))
    case CountConnection => Some((Connections, 1))
    case Accept(_) => Some((Accepted, 1))
    case Uncount => Some((Connections, -1))
    case ReleasePermit => Some((Available, 1))
    case CountRejection => Some((if p.why.RateExceeded? then RejectedRate else RejectedIp, 1))
    case _ => None
  }

  function Touched(meters: map<Meter, int>, touch: Option<(Meter, int)>): map<Meter, int> {
    match touch
    case None => meters
    case Some((m, delta)) => meters[m := (if m in meters then meters[m] else 0) + delta]
  }

  function LoopNext(s: State, act: LoopAct): State
    requires LoopEnabled(s, act)
  {
    var granted := act.CheckIp? && IpSlots.Granted(s.ips.counts, s.loop.ip, s.loop.limit);
    s.(loop := LoopMoved(s.loop, act, s.ipLimit, granted),
       meters := Touched(s.meters, LoopTouch(s.loop, act)),
       ips := if act.CheckIp? then Slots.Next(s.ips, Slots.Acquire(s.loop.ip, s.loop.limit)) else s.ips,
       tasks := if act.Spawn? then s.tasks + [NewTask(s.loop.ip)] else s.tasks)
  }

  predicate TaskEnabled(t: Task, act: TaskAct) {
    match act
    case Snapshot => t.at.Spawned?
    case FailProbe => t.at.Probing?
    case TimeOutProbe => t.at.Probing?
    case ReadSni(_) => t.at.Probing?
    // Only a present name can match a configured route.
    case BeginRoute(route) => t.at.Classified? && (route.Fallback? || (route.Proxied? && t.sni.Present?))
    case RaiseGauge => t.at.TotalCounted?
    case FinishHandshake(_) => t.at.Serving? && !t.panicked && t.route.Fallback? && t.handshake.NotTried?
    case ReadAlpn(alpn) => t.at.Serving? && !t.panicked && t.handshake.Succeeded? && t.alpn.Unread? && !alpn.Unread?
    case LowerGauge => t.at.Serving? && (t.panicked || t.route.Proxied? || t.handshake.Failed? || !t.alpn.Unread?)
    case CountCompleted => t.at.GaugeLowered?
    case Panic => !t.panicked && (t.at.Spawned? || t.at.Probing? || t.at.Classified? || t.at.Serving?)
    case DropIpSlot => t.at.Routed?
    case UncountTask => t.at.IpSlotDropped?
    case DropPermit => t.at.Uncounted?
  }

  function Moved(t: Task, act: TaskAct): Task
    requires TaskEnabled(t, act)
  {
    match act
    case Snapshot => t.(at := Probing)
    case FailProbe => t.(at := Routed, sni := ReadFailed)
    case TimeOutProbe => t.(at := Routed, sni := TimedOut)
    case ReadSni(present) => t.(at := Classified, sni := if present then Present else Absent)
    case BeginRoute(route) => t.(at := TotalCounted, route := route)
    case RaiseGauge => t.(at := Serving)
    case FinishHandshake(success) => t.(handshake := if success then Succeeded else Failed)
    case ReadAlpn(alpn) => t.(alpn := alpn)
    case LowerGauge => t.(at := GaugeLowered)
    case CountCompleted => t.(at := Routed)
    // Unwinding drops the guard if there is one, and the slots in any case.
    case Panic => t.(panicked := true, at := if t.at.Serving? then Serving else Routed)
    case DropIpSlot => t.(at := IpSlotDropped)
    case UncountTask => t.(at := Uncounted)
    case DropPermit => t.(at := Finished)
  }

  /** The shared counter a task's action touches, and by how much. */
  function Touch(t: Task, act: TaskAct): Option<(Meter, int)>
    requires TaskEnabled(t, act)
  {
    match act
    case FailProbe => Some((ProbeIoError, 1))
    case TimeOutProbe => Some((ProbeTimeout, 1))
    case ReadSni(present) => Some((if present then SniPresent else SniAbsent, 1))
    case BeginRoute(route) => Some((if route.Proxied? then ProxiedTotal else FallbackTotal, 1))
    case RaiseGauge => Some((if t.route.Proxied? then ActiveProxied else ActiveFallback, 1))
    case FinishHandshake(success) => Some((if success then HandshakeSuccess else HandshakeFailure, 1))
    case ReadAlpn(alpn) => Some((if alpn.H2? then AlpnH2 else if alpn.Http1? then AlpnHttp1 else AlpnNone, 1))
    case LowerGauge => Some((if t.route.Proxied? then ActiveProxied else ActiveFallback, -1))
    case CountCompleted => Some((if t.route.Proxied? then ProxiedCompleted else FallbackCompleted, 1))
    case UncountTask => Some((Connections, -1))
    case DropPermit => Some((Available, 1))
    case _ => None
  }

  predicate Enabled(s: State, step: Step) {
    match step
    case Loop(act) => LoopEnabled(s, act)
    case OfTask(i, act) =>
      && i < |s.tasks| && TaskEnabled(s.tasks[i], act)
      && (act.DropIpSlot? ==> s.tasks[i].ip in s.ips.live)
    case SetIpLimit(_) => true
  }

  function Next(s: State, step: Step): State
    requires Enabled(s, step)
  {
    match step
    case Loop(act) => LoopNext(s, act)
    case OfTask(i, act) =>
      var t := s.tasks[i];
      s.(tasks := s.tasks[i := Moved(t, act)],
         meters := Touched(s.meters, Touch(t, act)),
         ips := if act.DropIpSlot? then Slots.Next(s.ips, Slots.Release(t.ip)) else s.ips)
    case SetIpLimit(limit) => s.(ipLimit := limit)
  }

  predicate ValidRun(s: State, steps: seq<Step>)
    decreases steps
  {
    steps == [] || (Enabled(s, steps[0]) && ValidRun(Next(s, steps[0]), steps[1..]))
  }

  function After(s: State, steps: seq<Step>): State
    requires ValidRun(s, steps)
    decreases steps
  {
    if steps == [] then s else After(Next(s, steps[0]), steps[1..])
  }
}
