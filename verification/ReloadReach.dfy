/**
 * Which generations one connection can see together: the generation chain is not only kept by every
 * run, every combination it allows is seen in some run.
 */
module ReloadReach {
  import opened Reload

  ghost predicate Reachable(s: State) {
    exists steps: seq<Step> :: ValidRun(INIT, steps) && After(INIT, steps) == s
  }

  lemma {:induction false} StepLast(s: State, steps: seq<Step>, step: Step)
    requires ValidRun(s, steps) && Enabled(After(s, steps), step)
    ensures ValidRun(s, steps + [step]) && After(s, steps + [step]) == Next(After(s, steps), step)
    decreases steps
  {
    var all := steps + [step];
    if steps == [] {
      var s' := Next(s, step);
      assert all == [step] && all[1..] == [] && ValidRun(s', []) && After(s', []) == s';
    } else {
      assert all[0] == steps[0] && all[1..] == steps[1..] + [step];
      StepLast(Next(s, steps[0]), steps[1..], step);
    }
  }

  lemma StepReaches(s: State, step: Step)
    requires Reachable(s) && Enabled(s, step)
    ensures Reachable(Next(s, step))
  {
    var steps: seq<Step> :| ValidRun(INIT, steps) && After(INIT, steps) == s;
    StepLast(INIT, steps, step);
  }

  /** Between reloads, with generation `n` stored and one connection. */
  function Settled(n: nat, conn: Conn): State {
    State(Cells(n, n, n, n, n), Waiting, [conn])
  }

  /** The reload of generation `n + 1` with everything stored but the rate. */
  function AlmostStored(n: nat, conn: Conn): State {
    State(Cells(n + 1, n + 1, n + 1, n + 1, n), Storing(4), [conn])
  }

  lemma ReloadAlmost(n: nat, conn: Conn)
    requires Reachable(Settled(n, conn))
    ensures Reachable(AlmostStored(n, conn))
  {
    var s1 := Next(Settled(n, conn), Hangup);
    StepReaches(Settled(n, conn), Hangup);
    var s2 := Next(s1, ConfigLoaded(true));
    StepReaches(s1, ConfigLoaded(true));
    var s3 := Next(s2, KeyLoaded(true));
    StepReaches(s2, KeyLoaded(true));
    var s4 := Next(s3, Store);
    StepReaches(s3, Store);
    var s5 := Next(s4, Store);
    StepReaches(s4, Store);
    var s6 := Next(s5, Store);
    StepReaches(s5, Store);
    StepReaches(s6, Store);
    assert Next(s6, Store) == AlmostStored(n, conn);
  }

  lemma LastStore(n: nat, conn: Conn)
    requires Reachable(AlmostStored(n, conn))
    ensures Reachable(Settled(n + 1, conn))
  {
    StepReaches(AlmostStored(n, conn), Store);
    assert Next(AlmostStored(n, conn), Store) == Settled(n + 1, conn);
  }

  lemma {:induction false} ReloadUpTo(n: nat, m: nat, conn: Conn)
    requires n <= m && Reachable(Settled(n, conn))
    ensures Reachable(Settled(m, conn))
    decreases m - n
  {
    if n < m {
      ReloadAlmost(n, conn);
      LastStore(n, conn);
      ReloadUpTo(n + 1, m, conn);
    }
  }

  /** The connection's next read, between reloads. */
  lemma ReadSettled(n: nat, conn: Conn)
    requires Reachable(Settled(n, conn)) && !conn.Served?
    ensures Reachable(Settled(n, AfterRead(conn, Cells(n, n, n, n, n))))
  {
    StepReaches(Settled(n, conn), Read(0));
    assert Next(Settled(n, conn), Read(0)) == Settled(n, AfterRead(conn, Cells(n, n, n, n, n)));
  }

  lemma ReadAlmost(n: nat, conn: Conn)
    requires Reachable(AlmostStored(n, conn)) && !conn.Served?
    ensures Reachable(AlmostStored(n, AfterRead(conn, AlmostStored(n, conn).cells)))
  {
    StepReaches(AlmostStored(n, conn), Read(0));
    assert Next(AlmostStored(n, conn), Read(0)) == AlmostStored(n, AfterRead(conn, AlmostStored(n, conn).cells));
  }

  lemma AcceptedAt(n: nat)
    ensures Reachable(Settled(n, Accepted))
  {
    assert ValidRun(INIT, []) && After(INIT, []) == INIT;
    StepReaches(INIT, Accept);
    assert Next(INIT, Accept) == Settled(0, Accepted);
    ReloadUpTo(0, n, Accepted);
  }

  /** Both rate limits read: the burst may be of any generation up to one ahead of the rate's. */
  lemma RateLimitsRead(burst: nat, rate: nat)
    requires burst <= rate + 1
    ensures Reachable(Settled(if burst <= rate then rate else burst, SawRate(burst, rate)))
  {
    if burst <= rate {
      AcceptedAt(burst);
      ReadSettled(burst, Accepted);
      ReloadUpTo(burst, rate, SawBurst(burst));
      ReadSettled(rate, SawBurst(burst));
    } else {
      AcceptedAt(rate);
      ReloadAlmost(rate, Accepted);
      ReadAlmost(rate, Accepted);
      ReadAlmost(rate, SawBurst(burst));
      LastStore(rate, SawRate(burst, rate));
    }
  }

  predicate Chained(burst: nat, rate: nat, ipLimit: nat, router: nat, cert: nat) {
    burst <= rate + 1 && burst <= ipLimit && rate <= ipLimit <= router <= cert
  }

  lemma ChainedIsSeen(burst: nat, rate: nat, ipLimit: nat, router: nat, cert: nat)
    requires Chained(burst, rate, ipLimit, router, cert)
    ensures Reachable(Settled(cert, Served(burst, rate, ipLimit, router, cert)))
  {
    RateLimitsRead(burst, rate);
    ReloadUpTo(if burst <= rate then rate else burst, ipLimit, SawRate(burst, rate));
    ReadSettled(ipLimit, SawRate(burst, rate));
    ReloadUpTo(ipLimit, router, SawIpLimit(burst, rate, ipLimit));
    ReadSettled(router, SawIpLimit(burst, rate, ipLimit));
    ReloadUpTo(router, cert, Routed(burst, rate, ipLimit, router));
    ReadSettled(cert, Routed(burst, rate, ipLimit, router));
  }

  ghost predicate Seen(conn: Conn) {
    exists steps: seq<Step> :: ValidRun(INIT, steps) && conn in After(INIT, steps).conns
  }

  /** The chain is exact: a connection can see these generations together if and only if they are chained. */
  lemma GenerationsSeenAreTheChained(burst: nat, rate: nat, ipLimit: nat, router: nat, cert: nat)
    ensures Seen(Served(burst, rate, ipLimit, router, cert)) <==> Chained(burst, rate, ipLimit, router, cert)
  {
    var conn := Served(burst, rate, ipLimit, router, cert);
    if Seen(conn) {
      var steps: seq<Step> :| ValidRun(INIT, steps) && conn in After(INIT, steps).conns;
      var i :| 0 <= i < |After(INIT, steps).conns| && After(INIT, steps).conns[i] == conn;
      GenerationsAreChained(steps, i);
    }
    if Chained(burst, rate, ipLimit, router, cert) {
      ChainedIsSeen(burst, rate, ipLimit, router, cert);
      var steps: seq<Step> :| ValidRun(INIT, steps) && After(INIT, steps) == Settled(cert, conn);
      assert conn in After(INIT, steps).conns;
    }
  }
}
