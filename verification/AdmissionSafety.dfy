/** What the ledger means for every run of the engine from start-up. */
module AdmissionSafety {
  import opened Common
  import opened Admission
  import opened AdmissionLedger
  import IpSlots
  import Slots = IpSlotRuns

  lemma {:induction false} InvHoldsAlong(s: State, steps: seq<Step>)
    requires Inv(s) && ValidRun(s, steps)
    ensures Inv(After(s, steps)) && After(s, steps).max == s.max
    decreases steps
  {
    if steps != [] {
      StepKeepsInv(s, steps[0]);
      InvHoldsAlong(Next(s, steps[0]), steps[1..]);
    }
  }

  lemma InvAlwaysHolds(max: nat, ipLimit: nat, steps: seq<Step>)
    requires ValidRun(Init(max, ipLimit), steps)
    ensures Inv(After(Init(max, ipLimit), steps)) && After(Init(max, ipLimit), steps).max == max
  {
    InvHoldsAlong(Init(max, ipLimit), steps);
  }

  /** How many tasks satisfy `p`. */
  function Count(tasks: seq<Task>, p: Task -> bool): nat {
    if tasks == [] then 0 else Count(tasks[..|tasks| - 1], p) + if p(tasks[|tasks| - 1]) then 1 else 0
  }

  /** The task has not yet given its permit back. */
  predicate HoldsPermit(t: Task) {
    !t.at.Finished?
  }

  ghost predicate AllConsistent(tasks: seq<Task>) {
    forall i :: 0 <= i < |tasks| ==> Consistent(tasks[i])
  }

  lemma {:induction false} GaugesAreCounted(tasks: seq<Task>)
    ensures Sum(tasks, ActiveProxied) >= 0 && Sum(tasks, ActiveFallback) >= 0
    ensures Sum(tasks, ActiveProxied) + Sum(tasks, ActiveFallback) <= Sum(tasks, Connections)
  {
    if tasks != [] {
      GaugesAreCounted(tasks[..|tasks| - 1]);
    }
  }

  lemma {:induction false} PermitsAreCounted(tasks: seq<Task>)
    ensures Sum(tasks, Connections) <= Count(tasks, HoldsPermit)
    ensures Sum(tasks, Available) + Count(tasks, HoldsPermit) == 0
  {
    if tasks != [] {
      PermitsAreCounted(tasks[..|tasks| - 1]);
    }
  }

  lemma {:induction false} TasksAreAccepted(tasks: seq<Task>)
    ensures Sum(tasks, Accepted) == |tasks|
  {
    if tasks != [] {
      TasksAreAccepted(tasks[..|tasks| - 1]);
    }
  }

  /**
   * Nested resources at every atomic step: active_proxied + active_fallback <= connections <= permits
   * checked out <= max_connections, nothing is negative, and available permits plus held ones make
   * the maximum.
   */
  lemma ResourcesAreNested(max: nat, ipLimit: nat, steps: seq<Step>)
    requires ValidRun(Init(max, ipLimit), steps)
    ensures var s := After(Init(max, ipLimit), steps);
            && 0 <= Read(s, ActiveProxied) && 0 <= Read(s, ActiveFallback)
            && Read(s, ActiveProxied) + Read(s, ActiveFallback) <= Read(s, Connections)
            && Read(s, Connections) <= max - Read(s, Available) <= max
            && Read(s, Available) + Count(s.tasks, HoldsPermit) - LoopShare(s.loop, Available) == max
  {
    InvAlwaysHolds(max, ipLimit, steps);
    var s := After(Init(max, ipLimit), steps);
    GaugesAreCounted(s.tasks);
    PermitsAreCounted(s.tasks);
    assert BalancedAt(s, ActiveProxied) && BalancedAt(s, ActiveFallback);
    assert BalancedAt(s, Connections) && BalancedAt(s, Available);
  }

  /**
   * What a metrics snapshot reports as available: the subtraction never saturates, and permits may be
   * fewer, for a taken one is counted a moment later and a released one a moment before.
   */
  lemma AvailabilityNeverSaturates(max: nat, ipLimit: nat, steps: seq<Step>)
    requires ValidRun(Init(max, ipLimit), steps)
    ensures var s := After(Init(max, ipLimit), steps);
            SaturatingSub(max, Read(s, Connections)) == max - Read(s, Connections) >= Read(s, Available)
  {
    ResourcesAreNested(max, ipLimit, steps);
  }

  /**
   * Admission conservation: every accepted connection was rejected by rate, rejected by its address's
   * limit, handed to a task, or is the one the loop has in hand; `connections` counts the tasks that
   * have not dropped their slot, plus the loop's own.
   */
  lemma AdmissionsAreConserved(max: nat, ipLimit: nat, steps: seq<Step>)
    requires ValidRun(Init(max, ipLimit), steps)
    ensures var s := After(Init(max, ipLimit), steps);
            && Read(s, Accepted) == Read(s, RejectedRate) + Read(s, RejectedIp) + |s.tasks| + (if InHand(s.loop) then 1 else 0)
            && Read(s, Connections) == Sum(s.tasks, Connections) + LoopShare(s.loop, Connections)
            && (s.loop.AwaitingPermit? ==> Read(s, Available) == max - Count(s.tasks, HoldsPermit))
  {
    InvAlwaysHolds(max, ipLimit, steps);
    var s := After(Init(max, ipLimit), steps);
    TasksAreAccepted(s.tasks);
    PermitsAreCounted(s.tasks);
    assert BalancedAt(s, Accepted) && BalancedAt(s, Connections) && BalancedAt(s, Available);
  }

  /** The loop waits for a permit exactly as long as `max_connections` tasks hold one. */
  lemma LoopWaitsExactlyWhenFull(max: nat, ipLimit: nat, steps: seq<Step>)
    requires ValidRun(Init(max, ipLimit), steps)
    requires After(Init(max, ipLimit), steps).loop.AwaitingPermit?
    ensures !Enabled(After(Init(max, ipLimit), steps), Loop(TakePermit))
       <==> Count(After(Init(max, ipLimit), steps).tasks, HoldsPermit) == max
  {
    AdmissionsAreConserved(max, ipLimit, steps);
    ResourcesAreNested(max, ipLimit, steps);
  }

  lemma {:induction false} HolderIsCounted(tasks: seq<Task>, i: nat)
    requires i < |tasks| && tasks[i].at.Routed?
    ensures Sum(tasks, SlotsOf(tasks[i].ip)) >= 1
  {
    var m, n := SlotsOf(tasks[i].ip), |tasks| - 1;
    SlotSumsAreNonNegative(tasks[..n], tasks[i].ip);
    if i < n {
      HolderIsCounted(tasks[..n], i);
    }
  }

  lemma {:induction false} SlotSumsAreNonNegative(tasks: seq<Task>, ip: IpAddr)
    ensures Sum(tasks, SlotsOf(ip)) >= 0
  {
    if tasks != [] {
      SlotSumsAreNonNegative(tasks[..|tasks| - 1], ip);
    }
  }

  /** A task that has finished routing can always drop its per-IP slot, and no counter exceeds the slots alive. */
  lemma IpSlotsAreOwned(max: nat, ipLimit: nat, steps: seq<Step>, i: nat)
    requires ValidRun(Init(max, ipLimit), steps) && i < |After(Init(max, ipLimit), steps).tasks|
    ensures var s := After(Init(max, ipLimit), steps);
            && (s.tasks[i].at.Routed? ==> Enabled(s, OfTask(i, DropIpSlot)))
            && forall ip :: IpSlots.CountOf(s.ips.counts, ip) <= Sum(s.tasks, SlotsOf(ip)) + LoopShare(s.loop, SlotsOf(ip))
  {
    InvAlwaysHolds(max, ipLimit, steps);
    var s := After(Init(max, ipLimit), steps);
    if s.tasks[i].at.Routed? {
      HolderIsCounted(s.tasks, i);
      assert BalancedAt(s, SlotsOf(s.tasks[i].ip));
    }
    forall ip ensures IpSlots.CountOf(s.ips.counts, ip) <= Sum(s.tasks, SlotsOf(ip)) + LoopShare(s.loop, SlotsOf(ip)) {
      assert BalancedAt(s, SlotsOf(ip));
    }
  }

  lemma {:induction false} NoConnectionsAreNegative(tasks: seq<Task>)
    ensures Sum(tasks, Connections) >= 0
  {
    if tasks != [] {
      NoConnectionsAreNegative(tasks[..|tasks| - 1]);
    }
  }

  lemma {:induction false} NoConnectionsMeansNoServing(tasks: seq<Task>)
    requires AllConsistent(tasks) && Sum(tasks, Connections) <= 0
    ensures forall i :: 0 <= i < |tasks| ==> tasks[i].at.Uncounted? || tasks[i].at.Finished?
    ensures forall ip :: Sum(tasks, SlotsOf(ip)) == 0
  {
    if tasks != [] {
      NoConnectionsAreNegative(tasks[..|tasks| - 1]);
      NoConnectionsMeansNoServing(tasks[..|tasks| - 1]);
    }
  }

  /**
   * The shutdown drain: once the loop has stopped and `active_connections` reads 0, every task has
   * left its route, both gauges are 0, and no per-IP counter is left.
   */
  lemma DrainedMeansIdle(max: nat, ipLimit: nat, steps: seq<Step>)
    requires ValidRun(Init(max, ipLimit), steps)
    requires After(Init(max, ipLimit), steps).loop.Stopped? && Read(After(Init(max, ipLimit), steps), Connections) <= 0
    ensures var s := After(Init(max, ipLimit), steps);
            && (forall i :: 0 <= i < |s.tasks| ==> s.tasks[i].at.Uncounted? || s.tasks[i].at.Finished?)
            && Read(s, ActiveProxied) == Read(s, ActiveFallback) == 0
            && s.ips.counts == map[]
  {
    InvAlwaysHolds(max, ipLimit, steps);
    ResourcesAreNested(max, ipLimit, steps);
    var s := After(Init(max, ipLimit), steps);
    assert BalancedAt(s, Connections);
    NoConnectionsMeansNoServing(s.tasks);
    forall ip ensures ip !in s.ips.counts {
      assert BalancedAt(s, SlotsOf(ip)) && Sum(s.tasks, SlotsOf(ip)) == 0;
    }
  }

  /** The per-IP limiter's critical sections, in the order the run makes them. */
  function IpOps(s: State, steps: seq<Step>): seq<Slots.Op>
    requires ValidRun(s, steps)
    decreases steps
  {
    if steps == [] then []
    else
      var rest := IpOps(Next(s, steps[0]), steps[1..]);
      match steps[0]
      case Loop(act) => if act.CheckIp? then [Slots.Acquire(s.loop.ip, s.loop.limit)] + rest else rest
      case OfTask(i, act) => if act.DropIpSlot? then [Slots.Release(s.tasks[i].ip)] + rest else rest
      case SetIpLimit(_) => rest
  }

  /** The engine's runs project onto runs of the per-IP limiter, so all that is proved of those holds here. */
  lemma {:induction false} EngineRunsTheIpLimiter(s: State, steps: seq<Step>)
    requires ValidRun(s, steps)
    ensures Slots.ValidRun(s.ips, IpOps(s, steps))
    ensures Slots.After(s.ips, IpOps(s, steps)) == After(s, steps).ips
    decreases steps
  {
    if steps != [] {
      var s' := Next(s, steps[0]);
      EngineRunsTheIpLimiter(s', steps[1..]);
      var rest, ops := IpOps(s', steps[1..]), IpOps(s, steps);
      assert ops == rest || ops[1..] == rest;
    }
  }

  /** Every per-IP limit the run ever sets, and any it starts with, lies between 1 and `top`. */
  predicate IpLimitsWithin(s: State, steps: seq<Step>, top: nat) {
    && 1 <= s.ipLimit <= top && (s.loop.LimitLoaded? ==> 1 <= s.loop.limit <= top)
    && forall k :: 0 <= k < |steps| && steps[k].SetIpLimit? ==> 1 <= steps[k].limit <= top
  }

  lemma {:induction false} OpsCarryTheLimits(s: State, steps: seq<Step>, ip: IpAddr, top: nat)
    requires ValidRun(s, steps) && IpLimitsWithin(s, steps, top)
    ensures Slots.LimitsWithin(IpOps(s, steps), ip, top)
    decreases steps
  {
    if steps != [] {
      var s' := Next(s, steps[0]);
      assert forall k :: 0 <= k < |steps| - 1 ==> steps[1..][k] == steps[k + 1];
      OpsCarryTheLimits(s', steps[1..], ip, top);
      var rest, ops := IpOps(s', steps[1..]), IpOps(s, steps);
      forall i | 0 <= i < |ops| && ops[i].Acquire? ensures 1 <= ops[i].limit <= top || ops[i].ip != ip {
        if ops != rest && i > 0 {
          assert ops[i] == rest[i - 1];
        }
      }
    }
  }

  /** While reloads keep the limit between 1 and `top`, no address but loopback ever has more than `top` live tasks. */
  lemma TasksPerAddressAreCapped(max: nat, ipLimit: nat, steps: seq<Step>, ip: IpAddr, top: nat)
    requires ValidRun(Init(max, ipLimit), steps) && IpLimitsWithin(Init(max, ipLimit), steps, top) && !ip.IsLoopback()
    ensures Sum(After(Init(max, ipLimit), steps).tasks, SlotsOf(ip)) <= top
  {
    var s := Init(max, ipLimit);
    EngineRunsTheIpLimiter(s, steps);
    OpsCarryTheLimits(s, steps, ip, top);
    Slots.PositiveLimitsCap(Slots.EMPTY, IpOps(s, steps), ip, top);
    InvAlwaysHolds(max, ipLimit, steps);
    assert BalancedAt(After(s, steps), SlotsOf(ip));
  }
}
