/**
 * Where every connection went: the outcome counters of a run balance at every atomic step, with
 * connections in flight, and what is left over once all tasks have finished is owed to panics alone.
 */
module AdmissionOutcomes {
  import opened Admission
  import opened AdmissionLedger
  import opened AdmissionSafety

  /** The task's ClientHello is not classified yet. */
  predicate Unprobed(t: Task) {
    t.sni.Unprobed?
  }

  /** The ClientHello is classified but no route begun. */
  predicate Undecided(t: Task) {
    (t.sni.Present? || t.sni.Absent?) && t.route.Unrouted?
  }

  /** The task takes the route and is between one of its counters and its gauge, on the way in or out. */
  predicate BesideGauge(t: Task, route: Route) {
    t.route == route && (t.at.TotalCounted? || t.at.GaugeLowered?)
  }

  predicate BesideProxiedGauge(t: Task) {
    BesideGauge(t, Proxied)
  }

  predicate BesideFallbackGauge(t: Task) {
    BesideGauge(t, Fallback)
  }

  /** A fallback whose handshake has no outcome yet. */
  predicate Untried(t: Task) {
    t.route.Fallback? && t.handshake.NotTried?
  }

  /** A handshake succeeded and its protocol is not read yet. */
  predicate ProtocolUnread(t: Task) {
    t.handshake.Succeeded? && t.alpn.Unread?
  }

  /** A counter only tasks write to. */
  predicate TaskMeter(m: Meter) {
    !(m.Available? || m.Connections? || m.Accepted? || m.RejectedRate? || m.RejectedIp? || m.SlotsOf?)
  }

  lemma ReadIsSum(s: State, m: Meter)
    requires Balanced(s) && TaskMeter(m)
    ensures Read(s, m) == Sum(s.tasks, m)
  {
    assert BalancedAt(s, m);
  }

  lemma {:induction false} ProbesAddUp(tasks: seq<Task>)
    ensures |tasks| == Sum(tasks, ProbeIoError) + Sum(tasks, ProbeTimeout) + Sum(tasks, SniPresent) + Sum(tasks, SniAbsent)
                       + Count(tasks, Unprobed)
  {
    if tasks != [] {
      ProbesAddUp(tasks[..|tasks| - 1]);
    }
  }

  lemma {:induction false} RoutesAddUp(tasks: seq<Task>)
    requires AllConsistent(tasks)
    ensures Sum(tasks, SniPresent) + Sum(tasks, SniAbsent)
         == Sum(tasks, ProxiedTotal) + Sum(tasks, FallbackTotal) + Count(tasks, Undecided)
    ensures Sum(tasks, ProxiedTotal) <= Sum(tasks, SniPresent)
  {
    if tasks != [] {
      RoutesAddUp(tasks[..|tasks| - 1]);
    }
  }

  lemma {:induction false} ProxiedAddUp(tasks: seq<Task>)
    requires AllConsistent(tasks)
    ensures Sum(tasks, ProxiedTotal)
         == Sum(tasks, ActiveProxied) + Sum(tasks, ProxiedCompleted) + Count(tasks, BesideProxiedGauge)
  {
    if tasks != [] {
      ProxiedAddUp(tasks[..|tasks| - 1]);
    }
  }

  lemma {:induction false} FallbacksAddUp(tasks: seq<Task>)
    requires AllConsistent(tasks)
    ensures Sum(tasks, FallbackTotal)
         == Sum(tasks, ActiveFallback) + Sum(tasks, FallbackCompleted) + Count(tasks, BesideFallbackGauge)
  {
    if tasks != [] {
      FallbacksAddUp(tasks[..|tasks| - 1]);
    }
  }

  lemma {:induction false} HandshakesAddUp(tasks: seq<Task>)
    requires AllConsistent(tasks)
    ensures Sum(tasks, FallbackTotal) == Sum(tasks, HandshakeSuccess) + Sum(tasks, HandshakeFailure) + Count(tasks, Untried)
  {
    if tasks != [] {
      HandshakesAddUp(tasks[..|tasks| - 1]);
    }
  }

  lemma ProtocolWeighs(t: Task)
    requires Consistent(t)
    ensures Weight(t, HandshakeSuccess)
         == Weight(t, AlpnH2) + Weight(t, AlpnHttp1) + Weight(t, AlpnNone) + if ProtocolUnread(t) then 1 else 0
  {}

  lemma {:induction false} ProtocolsAddUp(tasks: seq<Task>)
    requires AllConsistent(tasks)
    ensures Sum(tasks, HandshakeSuccess)
         == Sum(tasks, AlpnH2) + Sum(tasks, AlpnHttp1) + Sum(tasks, AlpnNone) + Count(tasks, ProtocolUnread)
  {
    if tasks != [] {
      var n := |tasks| - 1;
      ProtocolWeighs(tasks[n]);
      ProtocolsAddUp(tasks[..n]);
    }
  }

  /**
   * At every atomic step: every task is a probe error, a probe timeout, a name present or absent, or
   * not probed yet; every name led to a route or is not decided yet; and only a present name is proxied.
   */
  lemma ProbesAndRoutesAreConserved(max: nat, ipLimit: nat, steps: seq<Step>)
    requires ValidRun(Init(max, ipLimit), steps)
    ensures var s := After(Init(max, ipLimit), steps);
            var named := Read(s, SniPresent) + Read(s, SniAbsent);
            && |s.tasks| == Read(s, ProbeIoError) + Read(s, ProbeTimeout) + named + Count(s.tasks, Unprobed)
            && named == Read(s, ProxiedTotal) + Read(s, FallbackTotal) + Count(s.tasks, Undecided)
            && Read(s, ProxiedTotal) <= Read(s, SniPresent)
  {
    InvAlwaysHolds(max, ipLimit, steps);
    var s := After(Init(max, ipLimit), steps);
    ReadIsSum(s, ProbeIoError);
    ReadIsSum(s, ProbeTimeout);
    ReadIsSum(s, SniPresent);
    ReadIsSum(s, SniAbsent);
    ReadIsSum(s, ProxiedTotal);
    ReadIsSum(s, FallbackTotal);
    ProbesAddUp(s.tasks);
    RoutesAddUp(s.tasks);
  }

  /** At every atomic step: total = active + completed on each route, but for tasks beside their gauge. */
  lemma GuardsAreConserved(max: nat, ipLimit: nat, steps: seq<Step>)
    requires ValidRun(Init(max, ipLimit), steps)
    ensures var s := After(Init(max, ipLimit), steps);
            && Read(s, ProxiedTotal) == Read(s, ActiveProxied) + Read(s, ProxiedCompleted) + Count(s.tasks, BesideProxiedGauge)
            && Read(s, FallbackTotal) == Read(s, ActiveFallback) + Read(s, FallbackCompleted) + Count(s.tasks, BesideFallbackGauge)
  {
    InvAlwaysHolds(max, ipLimit, steps);
    var s := After(Init(max, ipLimit), steps);
    ReadIsSum(s, ProxiedTotal);
    ReadIsSum(s, ActiveProxied);
    ReadIsSum(s, ProxiedCompleted);
    ReadIsSum(s, FallbackTotal);
    ReadIsSum(s, ActiveFallback);
    ReadIsSum(s, FallbackCompleted);
    ProxiedAddUp(s.tasks);
    FallbacksAddUp(s.tasks);
  }

  /** At every atomic step: every fallback is a handshake success, a failure or not tried yet, and every success has one protocol or none read yet. */
  lemma HandshakesAreConserved(max: nat, ipLimit: nat, steps: seq<Step>)
    requires ValidRun(Init(max, ipLimit), steps)
    ensures var s := After(Init(max, ipLimit), steps);
            && Read(s, FallbackTotal) == Read(s, HandshakeSuccess) + Read(s, HandshakeFailure) + Count(s.tasks, Untried)
            && Read(s, HandshakeSuccess)
               == Read(s, AlpnH2) + Read(s, AlpnHttp1) + Read(s, AlpnNone) + Count(s.tasks, ProtocolUnread)
  {
    InvAlwaysHolds(max, ipLimit, steps);
    var s := After(Init(max, ipLimit), steps);
    ReadIsSum(s, FallbackTotal);
    ReadIsSum(s, HandshakeSuccess);
    ReadIsSum(s, HandshakeFailure);
    ReadIsSum(s, AlpnH2);
    ReadIsSum(s, AlpnHttp1);
    ReadIsSum(s, AlpnNone);
    HandshakesAddUp(s.tasks);
    ProtocolsAddUp(s.tasks);
  }

  /** Every task has run to its end. */
  ghost predicate Quiet(tasks: seq<Task>) {
    forall i :: 0 <= i < |tasks| ==> tasks[i].at.Finished?
  }

  predicate Panicked(t: Task) {
    t.panicked
  }

  lemma {:induction false} LeftoversPanicked(tasks: seq<Task>)
    requires AllConsistent(tasks) && Quiet(tasks)
    ensures Count(tasks, Unprobed) + Count(tasks, Undecided) + Count(tasks, Untried) + Count(tasks, ProtocolUnread)
         <= Count(tasks, Panicked)
  {
    if tasks != [] {
      LeftoversPanicked(tasks[..|tasks| - 1]);
    }
  }

  lemma {:induction false} GuardsAreDropped(tasks: seq<Task>)
    requires Quiet(tasks)
    ensures Sum(tasks, ActiveProxied) == Sum(tasks, ActiveFallback) == 0
    ensures Count(tasks, BesideProxiedGauge) == Count(tasks, BesideFallbackGauge) == 0
  {
    if tasks != [] {
      GuardsAreDropped(tasks[..|tasks| - 1]);
    }
  }

  lemma QuietStateIsComplete(s: State)
    requires Balanced(s) && AllConsistent(s.tasks) && Quiet(s.tasks)
    ensures Read(s, ProxiedCompleted) == Read(s, ProxiedTotal) && Read(s, FallbackCompleted) == Read(s, FallbackTotal)
  {
    ReadIsSum(s, ProxiedTotal);
    ReadIsSum(s, ProxiedCompleted);
    ReadIsSum(s, FallbackTotal);
    ReadIsSum(s, FallbackCompleted);
    ProxiedAddUp(s.tasks);
    FallbacksAddUp(s.tasks);
    GuardsAreDropped(s.tasks);
  }

  /**
   * Once every task has finished, totals are completions even after panics, and the four chains are
   * together short by at most one for each task that panicked; without panics they are exact.
   */
  lemma FinishedOutcomesAreComplete(max: nat, ipLimit: nat, steps: seq<Step>)
    requires ValidRun(Init(max, ipLimit), steps) && Quiet(After(Init(max, ipLimit), steps).tasks)
    ensures var s := After(Init(max, ipLimit), steps);
            var named := Read(s, SniPresent) + Read(s, SniAbsent);
            var unprobed := |s.tasks| - (Read(s, ProbeIoError) + Read(s, ProbeTimeout) + named);
            var undecided := named - (Read(s, ProxiedTotal) + Read(s, FallbackTotal));
            var untried := Read(s, FallbackCompleted) - (Read(s, HandshakeSuccess) + Read(s, HandshakeFailure));
            var unread := Read(s, HandshakeSuccess) - (Read(s, AlpnH2) + Read(s, AlpnHttp1) + Read(s, AlpnNone));
            && Read(s, ProxiedCompleted) == Read(s, ProxiedTotal) && Read(s, FallbackCompleted) == Read(s, FallbackTotal)
            && unprobed >= 0 && undecided >= 0 && untried >= 0 && unread >= 0
            && unprobed + undecided + untried + unread <= Count(s.tasks, Panicked)
  {
    InvAlwaysHolds(max, ipLimit, steps);
    var s := After(Init(max, ipLimit), steps);
    ProbesAndRoutesAreConserved(max, ipLimit, steps);
    HandshakesAreConserved(max, ipLimit, steps);
    QuietStateIsComplete(s);
    LeftoversPanicked(s.tasks);
  }
}
