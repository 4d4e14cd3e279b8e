/**
 * Live reload against connections in flight, by generation number: each successful reload is one
 * generation, stored cell by cell in the order of `hot_reload` while connections read cell by cell in
 * their own order. Accesses are sequentially consistent.
 */
module Reload {
  /** The generation each shared cell holds. */
  datatype Cells = Cells(cert: nat, router: nat, ipLimit: nat, burst: nat, rate: nat)

  /** `Storing(k)`: the first k of certificate, router, per-IP limit, burst and rate are stored. */
  datatype Reloader = Waiting | LoadingConfig | LoadingKey | Storing(done: nat)

  /** What a connection has read, in its program's order: burst, rate, per-IP limit, routes, certificate. */
  datatype Conn =
    | Accepted
    | SawBurst(burst: nat)
    | SawRate(burst: nat, rate: nat)
    | SawIpLimit(burst: nat, rate: nat, ipLimit: nat)
    | Routed(burst: nat, rate: nat, ipLimit: nat, router: nat)
    | Served(burst: nat, rate: nat, ipLimit: nat, router: nat, cert: nat)

  datatype State = State(cells: Cells, reloader: Reloader, conns: seq<Conn>)

  datatype Step =
    | Hangup
    | ConfigLoaded(ok: bool)
    | KeyLoaded(ok: bool)
    | Store
    | Accept
    | Read(i: nat)

  const INIT := State(Cells(0, 0, 0, 0, 0), Waiting, [])

  predicate Enabled(s: State, step: Step) {
    match step
    case Hangup => s.reloader.Waiting?
    case ConfigLoaded(_) => s.reloader.LoadingConfig?
    case KeyLoaded(_) => s.reloader.LoadingKey?
    case Store => s.reloader.Storing? && s.reloader.done < 5
    case Accept => true
    case Read(i) => i < |s.conns| && !s.conns[i].Served?
  }

  function Stored(c: Cells, k: nat): Cells
    requires k < 5
  {
    if k == 0 then c.(cert := c.cert + 1)
    else if k == 1 then c.(router := c.router + 1)
    else if k == 2 then c.(ipLimit := c.ipLimit + 1)
    else if k == 3 then c.(burst := c.burst + 1)
    else c.(rate := c.rate + 1)
  }

  function AfterRead(conn: Conn, cells: Cells): Conn
    requires !conn.Served?
  {
    match conn
    case Accepted => SawBurst(cells.burst)
    case SawBurst(burst) => SawRate(burst, cells.rate)
    case SawRate(burst, rate) => SawIpLimit(burst, rate, cells.ipLimit)
    case SawIpLimit(burst, rate, ipLimit) => Routed(burst, rate, ipLimit, cells.router)
    case Routed(burst, rate, ipLimit, router) => Served(burst, rate, ipLimit, router, cells.cert)
  }

  function Next(s: State, step: Step): State
    requires Enabled(s, step)
  {
    match step
    case Hangup => s.(reloader := LoadingConfig)
    case ConfigLoaded(ok) => s.(reloader := if ok then LoadingKey else Waiting)
    case KeyLoaded(ok) => s.(reloader := if ok then Storing(0) else Waiting)
    case Store =>
      var k := s.reloader.done;
      s.(cells := Stored(s.cells, k), reloader := if k == 4 then Waiting else Storing(k + 1))
    case Accept => s.(conns := s.conns + [Accepted])
    case Read(i) => s.(conns := s.conns[i := AfterRead(s.conns[i], s.cells)])
  }

  predicate ValidRun(s: State, steps: seq<Step>)
    decreases steps
  {
    steps == [] || (Enabled(s, steps[0]) && ValidRun(Next(s, steps[0]), steps[1..]))
  }

  function After(s: State, steps: seq<Step>): State
    requires ValidRun(s, steps)
    decreases steps
  {
    if steps == [] then s else After(Next(s, steps[0]), steps[1..])
  }

  /** How far each cell is ahead of the last completed generation. */
  predicate StoredPrefix(c: Cells, done: nat) {
    && c.cert == c.rate + (if done > 0 then 1 else 0)
    && c.router == c.rate + (if done > 1 then 1 else 0)
    && c.ipLimit == c.rate + (if done > 2 then 1 else 0)
    && c.burst == c.rate + (if done > 3 then 1 else 0)
  }

  function Done(r: Reloader): nat {
    if r.Storing? then r.done else 0
  }

  /** What a connection has read is in order, and no newer than what is stored now. */
  predicate InOrder(conn: Conn, c: Cells) {
    match conn
    case Accepted => true
    case SawBurst(burst) => burst <= c.burst
    case SawRate(burst, rate) => burst <= c.burst && burst <= rate + 1 <= c.rate + 1
    case SawIpLimit(burst, rate, ipLimit) => burst <= rate + 1 && burst <= ipLimit && rate <= ipLimit <= c.ipLimit
    case Routed(burst, rate, ipLimit, router) =>
      burst <= rate + 1 && burst <= ipLimit && rate <= ipLimit <= router <= c.router
    case Served(burst, rate, ipLimit, router, cert) =>
      burst <= rate + 1 && burst <= ipLimit && rate <= ipLimit <= router <= cert <= c.cert
  }

  ghost predicate Inv(s: State) {
    && StoredPrefix(s.cells, Done(s.reloader)) && Done(s.reloader) < 5
    && forall i :: 0 <= i < |s.conns| ==> InOrder(s.conns[i], s.cells)
  }

  lemma StepKeepsInv(s: State, step: Step)
    requires Inv(s) && Enabled(s, step)
    ensures Inv(Next(s, step))
  {
    if step.Store? {
      forall i | 0 <= i < |s.conns| ensures InOrder(s.conns[i], Next(s, step).cells) {
        assert InOrder(s.conns[i], s.cells);
      }
    }
  }

  lemma {:induction false} InvHoldsAlong(s: State, steps: seq<Step>)
    requires Inv(s) && ValidRun(s, steps)
    ensures Inv(After(s, steps))
    decreases steps
  {
    if steps != [] {
      StepKeepsInv(s, steps[0]);
      InvHoldsAlong(Next(s, steps[0]), steps[1..]);
    }
  }

  /**
   * The generation chain, for every connection under every interleaving with reloads: rate limits no
   * newer than the per-IP limit, that no newer than the routes, those no newer than the certificate; and
   * the burst, read before the rate, at most one ahead of it.
   */
  lemma GenerationsAreChained(steps: seq<Step>, i: nat)
    requires ValidRun(INIT, steps) && i < |After(INIT, steps).conns| && After(INIT, steps).conns[i].Served?
    ensures var c := After(INIT, steps).conns[i];
            c.burst <= c.rate + 1 && c.burst <= c.ipLimit && c.rate <= c.ipLimit <= c.router <= c.cert
  {
    InvHoldsAlong(INIT, steps);
    assert InOrder(After(INIT, steps).conns[i], After(INIT, steps).cells);
  }

  /** The cells are never more than one generation apart, and all agree whenever no reload is storing. */
  lemma CellsStayTogether(steps: seq<Step>)
    requires ValidRun(INIT, steps)
    ensures var s := After(INIT, steps);
            && s.cells.rate <= s.cells.burst <= s.cells.ipLimit <= s.cells.router <= s.cells.cert <= s.cells.rate + 1
            && (!s.reloader.Storing? ==> s.cells.cert == s.cells.rate)
  {
    InvHoldsAlong(INIT, steps);
  }

  function CertStores(s: State, steps: seq<Step>): nat
    requires ValidRun(s, steps)
    decreases steps
  {
    if steps == [] then 0
    else (if steps[0].Store? && s.reloader.done == 0 then 1 else 0) + CertStores(Next(s, steps[0]), steps[1..])
  }

  /** Generations only grow, the certificate's by its own stores, and a routed connection keeps its snapshot. */
  lemma {:induction false} SnapshotIsKept(s: State, steps: seq<Step>, i: nat)
    requires ValidRun(s, steps) && i < |s.conns| && s.conns[i].Routed?
    requires i < |After(s, steps).conns| && After(s, steps).conns[i].Routed?
    ensures After(s, steps).conns[i] == s.conns[i]
    ensures After(s, steps).cells.cert == s.cells.cert + CertStores(s, steps)
    decreases steps
  {
    if steps != [] {
      var s' := Next(s, steps[0]);
      if s'.conns[i].Served? {
        ServedStaysServed(s', steps[1..], i);
      }
      SnapshotIsKept(s', steps[1..], i);
    }
  }

  lemma {:induction false} ServedStaysServed(s: State, steps: seq<Step>, i: nat)
    requires ValidRun(s, steps) && i < |s.conns| && s.conns[i].Served?
    ensures i < |After(s, steps).conns| && After(s, steps).conns[i] == s.conns[i]
    decreases steps
  {
    if steps != [] {
      ServedStaysServed(Next(s, steps[0]), steps[1..], i);
    }
  }

  /**
   * Exactly how far routes and certificate may differ. A connection takes its snapshot after `before`
   * and resolves its certificate after `during`: the certificate is ahead by one if a reload was
   * between its first two stores at the snapshot, plus one for every certificate stored meanwhile. So
   * they agree exactly when neither happened.
   */
  lemma CertificateAheadOfRoutes(before: seq<Step>, during: seq<Step>, i: nat)
    requires ValidRun(INIT, before) && i < |After(INIT, before).conns| && After(INIT, before).conns[i].SawIpLimit?
    requires var s := Next(After(INIT, before), Read(i));
             ValidRun(s, during) && i < |After(s, during).conns| && After(s, during).conns[i].Routed?
    ensures var s := Next(After(INIT, before), Read(i));
            var conn := Next(After(s, during), Read(i)).conns[i];
            && conn.cert == conn.router + (if s.reloader == Storing(1) then 1 else 0) + CertStores(s, during)
            && (conn.cert == conn.router <==> s.reloader != Storing(1) && CertStores(s, during) == 0)
  {
    InvHoldsAlong(INIT, before);
    var s := Next(After(INIT, before), Read(i));
    SnapshotIsKept(s, during, i);
  }

  const BEFORE := [Accept, Read(0), Read(0), Read(0)]
  const DURING := [Hangup, ConfigLoaded(true), KeyLoaded(true), Store]

  lemma {:induction false} FourSteps(s: State, a: Step, b: Step, c: Step, d: Step)
    requires Enabled(s, a) && Enabled(Next(s, a), b) && Enabled(Next(Next(s, a), b), c)
    requires Enabled(Next(Next(Next(s, a), b), c), d)
    ensures ValidRun(s, [a, b, c, d]) && After(s, [a, b, c, d]) == Next(Next(Next(Next(s, a), b), c), d)
  {
    var s1 := Next(s, a);
    var s2 := Next(s1, b);
    var s3 := Next(s2, c);
    var s4 := Next(s3, d);
    assert [a, b, c, d][1..] == [b, c, d] && [b, c, d][1..] == [c, d] && [c, d][1..] == [d] && [d][1..] == [];
    assert ValidRun(s4, []) && After(s4, []) == s4;
    assert ValidRun(s3, [d]) && After(s3, [d]) == s4;
    assert ValidRun(s2, [c, d]) && After(s2, [c, d]) == s4;
  }

  /** A connection does see routes of one generation with the certificate of the next. */
  lemma RoutesAndCertificateCanMix()
    ensures ValidRun(INIT, BEFORE) && Enabled(After(INIT, BEFORE), Read(0))
    ensures var s := Next(After(INIT, BEFORE), Read(0));
            && ValidRun(s, DURING) && Enabled(After(s, DURING), Read(0))
            && Next(After(s, DURING), Read(0)).conns[0] == Served(0, 0, 0, 0, 1)
  {
    FourSteps(INIT, BEFORE[0], BEFORE[1], BEFORE[2], BEFORE[3]);
    assert BEFORE == [BEFORE[0], BEFORE[1], BEFORE[2], BEFORE[3]];
    var s := Next(After(INIT, BEFORE), Read(0));
    FourSteps(s, DURING[0], DURING[1], DURING[2], DURING[3]);
    assert DURING == [DURING[0], DURING[1], DURING[2], DURING[3]];
  }

  /** Whatever connections do meanwhile, reloads whose key does not load leave every cell alone. */
  lemma {:induction false} BadKeysChangeNothing(s: State, steps: seq<Step>)
    requires ValidRun(s, steps) && !s.reloader.Storing? && KeyLoaded(true) !in steps
    ensures After(s, steps).cells == s.cells && !After(s, steps).reloader.Storing?
    decreases steps
  {
    if steps != [] {
      assert steps[0] in steps;
      BadKeysChangeNothing(Next(s, steps[0]), steps[1..]);
    }
  }

  /** Nor do reloads whose configuration does not load, and those never get as far as the key. */
  lemma {:induction false} BadConfigsChangeNothing(s: State, steps: seq<Step>)
    requires ValidRun(s, steps) && (s.reloader.Waiting? || s.reloader.LoadingConfig?) && ConfigLoaded(true) !in steps
    ensures After(s, steps).cells == s.cells
    ensures After(s, steps).reloader.Waiting? || After(s, steps).reloader.LoadingConfig?
    decreases steps
  {
    if steps != [] {
      assert steps[0] in steps;
      BadConfigsChangeNothing(Next(s, steps[0]), steps[1..]);
    }
  }

  /** What the reload loop did, without what connections did. */
  function OfReloads(steps: seq<Step>): seq<Step> {
    if steps == [] then []
    else (if steps[0].Accept? || steps[0].Read? then [] else [steps[0]]) + OfReloads(steps[1..])
  }

  /** The log ends with a reload that loaded both files, in order, and has just made its first store. */
  predicate JustApplied(log: seq<Step>) {
    |log| >= 4 && JustKeyed(log[..|log| - 1]) && log[|log| - 1] == Store
  }

  /** The log ends with a reload that loaded both files, in order. */
  predicate JustKeyed(log: seq<Step>) {
    |log| >= 3 && log[|log| - 3] == Hangup && log[|log| - 2] == ConfigLoaded(true) && log[|log| - 1] == KeyLoaded(true)
  }

  /** How often a reload was applied in the course of `log`. */
  function Applied(log: seq<Step>): nat {
    if log == [] then 0 else Applied(log[..|log| - 1]) + if JustApplied(log) then 1 else 0
  }

  /** What the log of the loop ends with at each of its points. */
  predicate Logged(log: seq<Step>, r: Reloader) {
    match r
    case Waiting => true
    case LoadingConfig => |log| >= 1 && log[|log| - 1] == Hangup
    case LoadingKey => |log| >= 2 && log[|log| - 2] == Hangup && log[|log| - 1] == ConfigLoaded(true)
    case Storing(k) => if k == 0 then JustKeyed(log) else |log| >= 1 && log[|log| - 1] == Store
  }

  lemma StepIsLogged(s: State, step: Step, log: seq<Step>)
    requires Enabled(s, step) && !step.Accept? && !step.Read? && Logged(log, s.reloader)
    ensures Logged(log + [step], Next(s, step).reloader)
    ensures Next(s, step).cells.cert - s.cells.cert == if JustApplied(log + [step]) then 1 else 0
  {
    assert (log + [step])[..|log|] == log;
  }

  lemma {:induction false} LogOf(log: seq<Step>, steps: seq<Step>)
    requires steps != []
    ensures log + OfReloads(steps) ==
              if steps[0].Accept? || steps[0].Read? then log + OfReloads(steps[1..]) else log + [steps[0]] + OfReloads(steps[1..])
  {
    var rest := OfReloads(steps[1..]);
    if steps[0].Accept? || steps[0].Read? {
      assert OfReloads(steps) == [] + rest == rest;
    } else {
      assert log + ([steps[0]] + rest) == log + [steps[0]] + rest;
    }
  }

  lemma OneApplied(s: State, step: Step, log: seq<Step>)
    requires Enabled(s, step) && !step.Accept? && !step.Read? && Logged(log, s.reloader) && s.cells.cert == Applied(log)
    ensures Logged(log + [step], Next(s, step).reloader) && Next(s, step).cells.cert == Applied(log + [step])
  {
    StepIsLogged(s, step, log);
    assert (log + [step])[..|log|] == log;
  }

  lemma {:induction false} LogGrows(s: State, steps: seq<Step>, log: seq<Step>)
    requires ValidRun(s, steps) && Logged(log, s.reloader) && s.cells.cert == Applied(log)
    ensures After(s, steps).cells.cert == Applied(log + OfReloads(steps))
    decreases steps
  {
    if steps == [] {
      assert log + OfReloads(steps) == log;
    } else {
      LogOf(log, steps);
      if steps[0].Accept? || steps[0].Read? {
        LogGrows(Next(s, steps[0]), steps[1..], log);
      } else {
        OneApplied(s, steps[0], log);
        LogGrows(Next(s, steps[0]), steps[1..], log + [steps[0]]);
      }
    }
  }

  /**
   * The certificate's generation is the number of reloads that loaded first a configuration and then a
   * key and made their first store; no other reload is ever stored.
   */
  lemma GenerationsCountAppliedReloads(steps: seq<Step>)
    requires ValidRun(INIT, steps)
    ensures After(INIT, steps).cells.cert == Applied(OfReloads(steps))
  {
    LogGrows(INIT, steps, []);
    assert [] + OfReloads(steps) == OfReloads(steps);
  }
}
