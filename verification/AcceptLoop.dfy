/**
 * The imperative side of admission: the counters of src/metrics.rs, the connection slots of
 * src/limiter.rs, and the body of the accept loop of src/main.rs. Each iteration, left undisturbed,
 * is shown to be a run of the transition system in Admission, which is where other tasks interleave.
 */
module AcceptLoop {
  import opened Common
  import opened Admission
  import Slots = IpSlotRuns
  import IpSlots
  import TokenBucket

  /** The counters that admission and the active-connection guards move. */
  class Stats {
    var connections: int
    var rejectedRate: int
    var rejectedIp: int
    var proxiedTotal: int
    var fallbackTotal: int
    var activeProxied: int
    var activeFallback: int
    var proxiedCompleted: int
    var fallbackCompleted: int
    ghost var guards: multiset<Route>

    /** The gauges count the guards alive; whatever else began on a route has completed. */
    ghost predicate Valid()
      reads this
    {
      && activeProxied == guards[Proxied] && activeFallback == guards[Fallback] && Unrouted !in guards
      && proxiedTotal == activeProxied + proxiedCompleted
      && fallbackTotal == activeFallback + fallbackCompleted
    }

    constructor ()
      ensures Valid() && guards == multiset{}
      ensures connections == rejectedRate == rejectedIp == 0
      ensures proxiedTotal == activeProxied == proxiedCompleted == 0
      ensures fallbackTotal == activeFallback == fallbackCompleted == 0
    {
      connections, rejectedRate, rejectedIp := 0, 0, 0;
      proxiedTotal, activeProxied, proxiedCompleted := 0, 0, 0;
      fallbackTotal, activeFallback, fallbackCompleted := 0, 0, 0;
      guards := multiset{};
    }

    method Begin(route: Route) returns (guard: ActiveGuard)
      requires !route.Unrouted? && Valid()
      modifies this`proxiedTotal, this`activeProxied, this`fallbackTotal, this`activeFallback, this`guards
      ensures Valid() && guard == ActiveGuard(route) && guards == old(guards) + multiset{route}
      ensures activeProxied == old(activeProxied) + (if route.Proxied? then 1 else 0)
      ensures activeFallback == old(activeFallback) + (if route.Proxied? then 0 else 1)
    {
      if route.Proxied? {
        proxiedTotal := proxiedTotal + 1;
        activeProxied := activeProxied + 1;
      } else {
        fallbackTotal := fallbackTotal + 1;
        activeFallback := activeFallback + 1;
      }
      guards := guards + multiset{route};
      guard := ActiveGuard(route);
    }

    /** Dropping a guard that is alive, so that no gauge ever goes below 0. */
    method DropGuard(guard: ActiveGuard)
      requires Valid() && guard.route in guards
      modifies this`activeProxied, this`proxiedCompleted, this`activeFallback, this`fallbackCompleted, this`guards
      ensures Valid() && guards == old(guards) - multiset{guard.route}
      ensures activeProxied == old(activeProxied) - (if guard.route.Proxied? then 1 else 0)
      ensures activeFallback == old(activeFallback) - (if guard.route.Proxied? then 0 else 1)
    {
      if guard.route.Proxied? {
        activeProxied := activeProxied - 1;
        proxiedCompleted := proxiedCompleted + 1;
      } else {
        activeFallback := activeFallback - 1;
        fallbackCompleted := fallbackCompleted + 1;
      }
      guards := guards - multiset{guard.route};
    }

    /** `connections_available` of a metrics snapshot: one load, then a subtraction that no run of the engine saturates. */
    method ConnectionsAvailable(maxConnections: nat) returns (available: nat)
      ensures available == SaturatingSub(maxConnections, connections)
      ensures connections <= maxConnections ==> available == maxConnections - connections
      ensures connections > maxConnections ==> available == 0
    {
      var now := connections;
      available := if now >= maxConnections then 0 else maxConnections - now;
    }
  }

  datatype ActiveGuard = ActiveGuard(route: Route)

  /** The global limiter: a semaphore, and the counter kept in step with it. */
  class ConnectionLimiter {
    var permits: nat
    const stats: Stats

    constructor (permits: nat, stats: Stats)
      ensures this.permits == permits && this.stats == stats
    {
      this.permits := permits;
      this.stats := stats;
    }

    /** Returns once a permit is free, so the caller may rely on one. */
    method AcquireSlot()
      requires permits > 0
      modifies this`permits, stats`connections
      ensures permits == old(permits) - 1 && stats.connections == old(stats.connections) + 1
    {
      permits := permits - 1;
      stats.connections := stats.connections + 1;
    }

    method DropSlot()
      modifies this`permits, stats`connections
      ensures permits == old(permits) + 1 && stats.connections == old(stats.connections) - 1
    {
      stats.connections := stats.connections - 1;
      permits := permits + 1;
    }
  }

  /** Everything admission has moved so far, as the objects' fields spell it. */
  datatype Admissions = Admissions(permits: int, connections: int, accepted: int, rejectedRate: int, rejectedIp: int,
                                   counts: IpSlots.Counts, live: multiset<IpAddr>, tasks: seq<Task>)

  /** What `accept()` may bring. */
  datatype Incoming = AcceptError | Peer(ip: IpAddr, now: real)

  /** The accept loop with everything it owns or shares; `tasks` are the connections handed over. */
  class Acceptor {
    const maxConnections: nat
    const stats: Stats
    const limiter: ConnectionLimiter
    const ipLimiter: IpSlots.IpLimiter
    const rateLimiter: TokenBucket.RateLimiter
    var accepted: nat
    ghost var tasks: seq<Task>

    ghost predicate Valid()
      reads this, stats, limiter, ipLimiter, rateLimiter
    {
      && limiter.stats == stats && ipLimiter.Valid() && rateLimiter.Valid()
    }

    ghost function View(): Admissions
      reads this, stats, limiter, ipLimiter
    {
      Admissions(limiter.permits, stats.connections, accepted, stats.rejectedRate, stats.rejectedIp,
                 ipLimiter.slots, ipLimiter.live, tasks)
    }

    constructor (maxConnections: nat, rateLimiter: TokenBucket.RateLimiter, ipLimiter: IpSlots.IpLimiter)
      requires rateLimiter.Valid() && ipLimiter.Valid()
      ensures Valid() && this.rateLimiter == rateLimiter && this.ipLimiter == ipLimiter
      ensures fresh(stats) && fresh(limiter) && limiter.permits == this.maxConnections == maxConnections
      ensures stats.connections == stats.rejectedRate == stats.rejectedIp == accepted == 0 && tasks == []
    {
      this.maxConnections := maxConnections;
      this.rateLimiter := rateLimiter;
      this.ipLimiter := ipLimiter;
      var counters := new Stats();
      this.stats := counters;
      this.limiter := new ConnectionLimiter(maxConnections, counters);
      accepted := 0;
      tasks := [];
    }

    /** The per-IP check and the spawn; a full address costs the loop its slot back. */
    method HandOver(ip: IpAddr)
      requires Valid()
      modifies this`tasks, stats`connections, stats`rejectedIp, limiter`permits, ipLimiter
      ensures Valid() && ipLimiter.maxPerIp == old(ipLimiter.maxPerIp)
      ensures View() == IpDecided(old(View()), ip, ipLimiter.maxPerIp)
    {
      var slot := ipLimiter.TryAcquireSlot(ip);
      if slot.None? {
        limiter.DropSlot();
        stats.rejectedIp := stats.rejectedIp + 1;
        return;
      }
      tasks := tasks + [NewTask(ip)];
    }

    /** The two checks of an accepted connection; a rate refused costs the loop its slot back. */
    method Admit(ip: IpAddr, now: real)
      requires Valid()
      modifies this`accepted, this`tasks, stats`connections, stats`rejectedRate, stats`rejectedIp,
               limiter`permits, ipLimiter, rateLimiter
      ensures Valid()
      ensures View() == PeerDecided(old(View()), ip, old(RateAllows(ip, now)), ipLimiter.maxPerIp)
      ensures rateLimiter.CurrentLimits() == old(rateLimiter.CurrentLimits()) && ipLimiter.maxPerIp == old(ipLimiter.maxPerIp)
      ensures rateLimiter.buckets
           == old(TokenBucket.AfterCall(rateLimiter.buckets, ip, now, rateLimiter.CurrentLimits()))
    {
      ghost var before := View();
      accepted := accepted + 1;
      var allowed := rateLimiter.Allow(ip, now);
      assert Valid() && View() == before.(accepted := before.accepted + 1);
      if !allowed {
        limiter.DropSlot();
        stats.rejectedRate := stats.rejectedRate + 1;
        return;
      }
      HandOver(ip);
    }

    /** One iteration: take a slot, accept, check the rate, check the address, hand over; every other way out gives the slot back. */
    method Iterate(incoming: Incoming)
      requires Valid() && limiter.permits > 0
      modifies this`accepted, this`tasks, stats`connections, stats`rejectedRate, stats`rejectedIp,
               limiter`permits, ipLimiter, rateLimiter
      ensures Valid()
      ensures View() == Iterated(old(View()), incoming, old(incoming.Peer? && RateAllows(incoming.ip, incoming.now)), ipLimiter.maxPerIp)
      ensures rateLimiter.CurrentLimits() == old(rateLimiter.CurrentLimits()) && ipLimiter.maxPerIp == old(ipLimiter.maxPerIp)
      ensures rateLimiter.buckets == old(BucketsAfter(incoming))
    {
      ghost var before := View();
      limiter.AcquireSlot();
      assert View() == before.(permits := before.permits - 1, connections := before.connections + 1);
      if incoming.AcceptError? {
        limiter.DropSlot();
        return;
      }
      Admit(incoming.ip, incoming.now);
    }

    predicate RateAllows(ip: IpAddr, now: real)
      reads rateLimiter
    {
      TokenBucket.Allowed(rateLimiter.buckets, ip, now, rateLimiter.CurrentLimits())
    }

    function BucketsAfter(incoming: Incoming): TokenBucket.Buckets
      reads rateLimiter
    {
      if incoming.AcceptError? then rateLimiter.buckets
      else TokenBucket.AfterCall(rateLimiter.buckets, incoming.ip, incoming.now, rateLimiter.CurrentLimits())
    }
  }

  /** What the per-IP check makes of a connection for which the loop holds a slot. */
  function IpDecided(a: Admissions, ip: IpAddr, ipLimit: nat): Admissions {
    if IpSlots.Granted(a.counts, ip, ipLimit) then
      a.(counts := IpSlots.AfterAcquire(a.counts, ip, ipLimit), live := a.live + multiset{ip}, tasks := a.tasks + [NewTask(ip)])
    else a.(permits := a.permits + 1, connections := a.connections - 1, rejectedIp := a.rejectedIp + 1)
  }

  function PeerDecided(a: Admissions, ip: IpAddr, allowed: bool, ipLimit: nat): Admissions {
    var seen := a.(accepted := a.accepted + 1);
    if allowed then IpDecided(seen, ip, ipLimit)
    else seen.(permits := a.permits + 1, connections := a.connections - 1, rejectedRate := a.rejectedRate + 1)
  }

  /** What one iteration leaves behind, case by case. */
  function Iterated(v: Admissions, incoming: Incoming, allowed: bool, ipLimit: nat): Admissions {
    if incoming.AcceptError? then v
    else if !allowed then v.(accepted := v.accepted + 1, rejectedRate := v.rejectedRate + 1)
    else if !IpSlots.Granted(v.counts, incoming.ip, ipLimit) then
      v.(accepted := v.accepted + 1, rejectedIp := v.rejectedIp + 1)
    else
      v.(accepted := v.accepted + 1, permits := v.permits - 1, connections := v.connections + 1,
         counts := IpSlots.AfterAcquire(v.counts, incoming.ip, ipLimit), live := v.live + multiset{incoming.ip},
         tasks := v.tasks + [NewTask(incoming.ip)])
  }

  function Meters(v: Admissions): map<Meter, int> {
    map[Available := v.permits, Connections := v.connections, Accepted := v.accepted,
        RejectedRate := v.rejectedRate, RejectedIp := v.rejectedIp]
  }

  /** The transition system's state with the loop at `p`. */
  function At(v: Admissions, p: LoopPoint, max: nat, ipLimit: nat): State
  {
    State(max, Meters(v), p, Slots.State(v.counts, v.live), ipLimit, v.tasks)
  }

  predicate CanAct(a: Admissions, p: LoopPoint, act: LoopAct) {
    PointAllows(p, act) && (act.TakePermit? ==> a.permits > 0)
  }

  /** What a loop action does to the view. */
  function Acted(a: Admissions, p: LoopPoint, act: LoopAct, ipLimit: nat): (Admissions, LoopPoint)
    requires CanAct(a, p, act)
  {
    var granted := act.CheckIp? && IpSlots.Granted(a.counts, p.ip, p.limit);
    var b :=
      match act
      case TakePermit => a.(permits := a.permits - 1)
      case CountConnection => a.(connections := a.connections + 1)
      case Accept(ip) => a.(accepted := a.accepted + 1)
      case CheckIp =>
        if granted then a.(counts := IpSlots.AfterAcquire(a.counts, p.ip, p.limit), live := a.live + multiset{p.ip}) else a
      case Spawn => a.(tasks := a.tasks + [NewTask(p.ip)])
      case Uncount => a.(connections := a.connections - 1)
      case ReleasePermit => a.(permits := a.permits + 1)
      case CountRejection =>
        if p.why.RateExceeded? then a.(rejectedRate := a.rejectedRate + 1) else a.(rejectedIp := a.rejectedIp + 1)
      case _ => a;
    (b, LoopMoved(p, act, ipLimit, granted))
  }

  lemma MetersFollow(a: Admissions, p: LoopPoint, act: LoopAct, ipLimit: nat)
    requires CanAct(a, p, act)
    ensures Touched(Meters(a), LoopTouch(p, act)) == Meters(Acted(a, p, act, ipLimit).0)
  {
    match act {
      case TakePermit => MetersTouched(a, -1);
      case CountConnection => MetersTouched(a, 1);
      case Accept(_) => MetersTouched(a, 1);
      case Uncount => MetersTouched(a, -1);
      case ReleasePermit => MetersTouched(a, 1);
      case CountRejection => MetersTouched(a, 1);
      case _ => assert LoopTouch(p, act).None?;
    }
  }

  lemma MetersTouched(a: Admissions, delta: int)
    ensures Touched(Meters(a), Some((Available, delta))) == Meters(a.(permits := a.permits + delta))
    ensures Touched(Meters(a), Some((Connections, delta))) == Meters(a.(connections := a.connections + delta))
    ensures Touched(Meters(a), Some((Accepted, delta))) == Meters(a.(accepted := a.accepted + delta))
    ensures Touched(Meters(a), Some((RejectedRate, delta))) == Meters(a.(rejectedRate := a.rejectedRate + delta))
    ensures Touched(Meters(a), Some((RejectedIp, delta))) == Meters(a.(rejectedIp := a.rejectedIp + delta))
  {}

  lemma ActedFollowsLoop(a: Admissions, p: LoopPoint, act: LoopAct, max: nat, ipLimit: nat)
    requires CanAct(a, p, act)
    ensures LoopEnabled(At(a, p, max, ipLimit), act)
    ensures var next := Acted(a, p, act, ipLimit);
            LoopNext(At(a, p, max, ipLimit), act) == At(next.0, next.1, max, ipLimit)
  {
    var next := Acted(a, p, act, ipLimit);
    if act.CheckIp? {
      assert Slots.Next(Slots.State(a.counts, a.live), Slots.Acquire(p.ip, p.limit)) == Slots.State(next.0.counts, next.0.live);
    } else {
      assert next.0.counts == a.counts && next.0.live == a.live;
    }
    MetersFollow(a, p, act, ipLimit);
  }

  predicate CanActAll(a: Admissions, p: LoopPoint, acts: seq<LoopAct>, ipLimit: nat)
    decreases acts
  {
    acts == [] ||
    (CanAct(a, p, acts[0]) && var next := Acted(a, p, acts[0], ipLimit); CanActAll(next.0, next.1, acts[1..], ipLimit))
  }

  function ActedAll(a: Admissions, p: LoopPoint, acts: seq<LoopAct>, ipLimit: nat): (Admissions, LoopPoint)
    requires CanActAll(a, p, acts, ipLimit)
    decreases acts
  {
    if acts == [] then (a, p)
    else var next := Acted(a, p, acts[0], ipLimit); ActedAll(next.0, next.1, acts[1..], ipLimit)
  }

  function AsSteps(acts: seq<LoopAct>): seq<Step> {
    if acts == [] then [] else [Loop(acts[0])] + AsSteps(acts[1..])
  }

  lemma {:induction false} ActsAreARun(a: Admissions, p: LoopPoint, acts: seq<LoopAct>, max: nat, ipLimit: nat)
    requires CanActAll(a, p, acts, ipLimit)
    ensures ValidRun(At(a, p, max, ipLimit), AsSteps(acts))
    ensures var end := ActedAll(a, p, acts, ipLimit);
            After(At(a, p, max, ipLimit), AsSteps(acts)) == At(end.0, end.1, max, ipLimit)
    decreases acts
  {
    if acts != [] {
      ActedFollowsLoop(a, p, acts[0], max, ipLimit);
      var next := Acted(a, p, acts[0], ipLimit);
      ActsAreARun(next.0, next.1, acts[1..], max, ipLimit);
      assert AsSteps(acts)[1..] == AsSteps(acts[1..]);
    }
  }

  const GIVE_BACK := [Uncount, ReleasePermit]

  const REJECT := GIVE_BACK + [CountRejection]

  function IpActs(counts: IpSlots.Counts, ip: IpAddr, ipLimit: nat): seq<LoopAct> {
    [LoadIpLimit, CheckIp] + if IpSlots.Granted(counts, ip, ipLimit) then [Spawn] else REJECT
  }

  function PeerActs(counts: IpSlots.Counts, ip: IpAddr, allowed: bool, ipLimit: nat): seq<LoopAct> {
    [Accept(ip)] + if allowed then [CheckRate(true)] + IpActs(counts, ip, ipLimit) else [CheckRate(false)] + REJECT
  }

  /** The shared accesses of one iteration, in program order. */
  function Acts(v: Admissions, incoming: Incoming, allowed: bool, ipLimit: nat): seq<LoopAct> {
    [TakePermit, CountConnection] +
    match incoming
    case AcceptError => [FailAccept] + GIVE_BACK
    case Peer(ip, _) => PeerActs(v.counts, ip, allowed, ipLimit)
  }

  lemma Unfold(a: Admissions, p: LoopPoint, acts: seq<LoopAct>, ipLimit: nat)
    requires acts != [] && CanAct(a, p, acts[0])
    requires var next := Acted(a, p, acts[0], ipLimit); CanActAll(next.0, next.1, acts[1..], ipLimit)
    ensures CanActAll(a, p, acts, ipLimit)
    ensures var next := Acted(a, p, acts[0], ipLimit);
            ActedAll(a, p, acts, ipLimit) == ActedAll(next.0, next.1, acts[1..], ipLimit)
  {}

  lemma GivesBack(a: Admissions, why: Reason, ipLimit: nat)
    requires why.RateExceeded? || why.IpFull?
    ensures CanActAll(a, Uncounting(why), REJECT, ipLimit)
    ensures var back := a.(permits := a.permits + 1, connections := a.connections - 1);
            ActedAll(a, Uncounting(why), REJECT, ipLimit)
            == (if why.RateExceeded? then back.(rejectedRate := a.rejectedRate + 1) else back.(rejectedIp := a.rejectedIp + 1),
                AwaitingPermit)
  {
    var uncounted := a.(connections := a.connections - 1);
    var back := uncounted.(permits := a.permits + 1);
    Unfold(back, Rejecting(why), [CountRejection], ipLimit);
    assert [ReleasePermit, CountRejection][1..] == [CountRejection];
    Unfold(uncounted, Releasing(why), [ReleasePermit, CountRejection], ipLimit);
    assert REJECT[1..] == [ReleasePermit, CountRejection];
    Unfold(a, Uncounting(why), REJECT, ipLimit);
  }

  lemma FailedAcceptGivesBack(a: Admissions, ipLimit: nat)
    ensures CanActAll(a, AwaitingPeer, [FailAccept] + GIVE_BACK, ipLimit)
    ensures ActedAll(a, AwaitingPeer, [FailAccept] + GIVE_BACK, ipLimit)
         == (a.(permits := a.permits + 1, connections := a.connections - 1), AwaitingPermit)
  {
    var uncounted := a.(connections := a.connections - 1);
    Unfold(uncounted, Releasing(AcceptFailed), [ReleasePermit], ipLimit);
    assert GIVE_BACK[1..] == [ReleasePermit];
    Unfold(a, Uncounting(AcceptFailed), GIVE_BACK, ipLimit);
    assert ([FailAccept] + GIVE_BACK)[1..] == GIVE_BACK;
    Unfold(a, AwaitingPeer, [FailAccept] + GIVE_BACK, ipLimit);
  }

  lemma PeerIsDecided(a: Admissions, ip: IpAddr, allowed: bool, ipLimit: nat)
    ensures CanActAll(a, AwaitingPeer, PeerActs(a.counts, ip, allowed, ipLimit), ipLimit)
    ensures ActedAll(a, AwaitingPeer, PeerActs(a.counts, ip, allowed, ipLimit), ipLimit)
         == (PeerDecided(a, ip, allowed, ipLimit), AwaitingPermit)
  {
    var seen := a.(accepted := a.accepted + 1);
    var rest := if allowed then [CheckRate(true)] + IpActs(a.counts, ip, ipLimit) else [CheckRate(false)] + REJECT;
    if allowed {
      RateAllowed(seen, ip, ipLimit);
    } else {
      RateRefused(seen, ip, ipLimit);
    }
    assert CanActAll(seen, PeerAccepted(ip), rest, ipLimit);
    assert ActedAll(seen, PeerAccepted(ip), rest, ipLimit) == (PeerDecided(a, ip, allowed, ipLimit), AwaitingPermit);
    assert PeerActs(a.counts, ip, allowed, ipLimit)[1..] == rest;
    Unfold(a, AwaitingPeer, PeerActs(a.counts, ip, allowed, ipLimit), ipLimit);
  }

  lemma RateRefused(a: Admissions, ip: IpAddr, ipLimit: nat)
    ensures CanActAll(a, PeerAccepted(ip), [CheckRate(false)] + REJECT, ipLimit)
    ensures ActedAll(a, PeerAccepted(ip), [CheckRate(false)] + REJECT, ipLimit)
         == (a.(permits := a.permits + 1, connections := a.connections - 1, rejectedRate := a.rejectedRate + 1), AwaitingPermit)
  {
    GivesBack(a, RateExceeded, ipLimit);
    assert ([CheckRate(false)] + REJECT)[1..] == REJECT;
    Unfold(a, PeerAccepted(ip), [CheckRate(false)] + REJECT, ipLimit);
  }

  lemma RateAllowed(a: Admissions, ip: IpAddr, ipLimit: nat)
    ensures CanActAll(a, PeerAccepted(ip), [CheckRate(true)] + IpActs(a.counts, ip, ipLimit), ipLimit)
    ensures ActedAll(a, PeerAccepted(ip), [CheckRate(true)] + IpActs(a.counts, ip, ipLimit), ipLimit)
         == ActedAll(a, RatePassed(ip), IpActs(a.counts, ip, ipLimit), ipLimit) == (IpDecided(a, ip, ipLimit), AwaitingPermit)
  {
    IpIsDecided(a, ip, ipLimit);
    assert ([CheckRate(true)] + IpActs(a.counts, ip, ipLimit))[1..] == IpActs(a.counts, ip, ipLimit);
    Unfold(a, PeerAccepted(ip), [CheckRate(true)] + IpActs(a.counts, ip, ipLimit), ipLimit);
  }

  lemma IpIsDecided(a: Admissions, ip: IpAddr, ipLimit: nat)
    ensures CanActAll(a, RatePassed(ip), IpActs(a.counts, ip, ipLimit), ipLimit)
    ensures ActedAll(a, RatePassed(ip), IpActs(a.counts, ip, ipLimit), ipLimit) == (IpDecided(a, ip, ipLimit), AwaitingPermit)
  {
    var acts := IpActs(a.counts, ip, ipLimit);
    if IpSlots.Granted(a.counts, ip, ipLimit) {
      var held := a.(counts := IpSlots.AfterAcquire(a.counts, ip, ipLimit), live := a.live + multiset{ip});
      Unfold(held, HoldingBoth(ip), [Spawn], ipLimit);
      assert acts[1..][1..] == [Spawn];
    } else {
      GivesBack(a, IpFull, ipLimit);
      assert acts[1..][1..] == REJECT;
    }
    Unfold(a, LimitLoaded(ip, ipLimit), acts[1..], ipLimit);
    Unfold(a, RatePassed(ip), acts, ipLimit);
  }

  lemma ActsMakeAnIteration(v: Admissions, incoming: Incoming, allowed: bool, ipLimit: nat)
    requires v.permits > 0
    ensures CanActAll(v, AwaitingPermit, Acts(v, incoming, allowed, ipLimit), ipLimit)
    ensures ActedAll(v, AwaitingPermit, Acts(v, incoming, allowed, ipLimit), ipLimit)
         == (Iterated(v, incoming, allowed, ipLimit), AwaitingPermit)
  {
    var acts := Acts(v, incoming, allowed, ipLimit);
    var taken := v.(permits := v.permits - 1, connections := v.connections + 1);
    match incoming {
      case AcceptError =>
        FailedAcceptGivesBack(taken, ipLimit);
        assert acts[1..][1..] == [FailAccept] + GIVE_BACK;
      case Peer(ip, _) =>
        PeerIsDecided(taken, ip, allowed, ipLimit);
        assert acts[1..][1..] == PeerActs(v.counts, ip, allowed, ipLimit);
    }
    Unfold(v.(permits := v.permits - 1), PermitTaken, acts[1..], ipLimit);
    Unfold(v, AwaitingPermit, acts, ipLimit);
  }

  /** An undisturbed iteration is a run of the transition system, so all that is proved of runs holds after it. */
  lemma IterationIsARun(v: Admissions, incoming: Incoming, allowed: bool, max: nat, ipLimit: nat)
    requires v.permits > 0
    ensures var run := AsSteps(Acts(v, incoming, allowed, ipLimit));
            var v' := Iterated(v, incoming, allowed, ipLimit);
            && ValidRun(At(v, AwaitingPermit, max, ipLimit), run)
            && After(At(v, AwaitingPermit, max, ipLimit), run) == At(v', AwaitingPermit, max, ipLimit)
  {
    ActsMakeAnIteration(v, incoming, allowed, ipLimit);
    ActsAreARun(v, AwaitingPermit, Acts(v, incoming, allowed, ipLimit), max, ipLimit);
  }
}
