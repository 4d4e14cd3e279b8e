/**
 * The admission-rate bound under every interleaving. `set_limit` is two stores, and both `allow` and
 * `sweep` load the two limits one after the other, and read the clock, before taking the lock, so
 * limits may change and time may pass anywhere in between. Each atomic access is one step; accesses
 * are sequentially consistent.
 */
module RateBound {
  import opened Common
  import opened TokenBucket

  /** What the accept loop's pending `allow` has loaded so far. */
  datatype Caller = Resting | LoadedCapacity(ip: IpAddr, capacity: nat) | LoadedBoth(ip: IpAddr, limits: Limits)

  /** What the janitor's pending `sweep` has loaded so far. */
  datatype Sweeper = Idle | SweepCapacity(capacity: nat) | SweepBoth(limits: Limits)

  /** `clock` is the latest reading any call or sweep has used. */
  datatype State = State(buckets: Buckets, capacity: nat, rate: real, clock: real, caller: Caller, sweeper: Sweeper)

  datatype Step =
    | StoreCapacity(capacity: nat)
    | StoreRate(rate: real)
    | LoadCapacity(ip: IpAddr)
    | LoadRate
    | Decide(now: real)
    | SweepLoadCapacity
    | SweepLoadRate
    | Retain(now: real)

  /** A call or a sweep may act on any clock reading, however long ago it took it. */
  predicate Enabled(s: State, step: Step) {
    match step
    case LoadCapacity(_) => s.caller.Resting?
    case LoadRate => s.caller.LoadedCapacity?
    case Decide(_) => s.caller.LoadedBoth?
    case SweepLoadCapacity => s.sweeper.Idle?
    case SweepLoadRate => s.sweeper.SweepCapacity?
    case Retain(_) => s.sweeper.SweepBoth?
    case _ => true
  }

  function Next(s: State, step: Step): State
    requires Enabled(s, step)
  {
    match step
    case StoreCapacity(capacity) => s.(capacity := capacity)
    case StoreRate(rate) => s.(rate := rate)
    case LoadCapacity(ip) => s.(caller := LoadedCapacity(ip, s.capacity))
    case LoadRate =>
      // A disabled limiter and loopback return true here, before the lock.
      var limits := Limits(s.caller.capacity, s.rate);
      s.(caller := if Gated(s.caller.ip, limits) then LoadedBoth(s.caller.ip, limits) else Resting)
    case Decide(now) =>
      s.(buckets := AfterCall(s.buckets, s.caller.ip, now, s.caller.limits), clock := Max(s.clock, now), caller := Resting)
    case SweepLoadCapacity => s.(sweeper := SweepCapacity(s.capacity))
    case SweepLoadRate => s.(sweeper := SweepBoth(Limits(s.sweeper.capacity, s.rate)))
    case Retain(now) =>
      s.(buckets := AfterSweep(s.buckets, now, s.sweeper.limits), clock := Max(s.clock, now), sweeper := Idle)
  }

  predicate ValidRun(s: State, steps: seq<Step>)
    decreases steps
  {
    steps == [] || (Enabled(s, steps[0]) && ValidRun(Next(s, steps[0]), steps[1..]))
  }

  function After(s: State, steps: seq<Step>): State
    requires ValidRun(s, steps)
    decreases steps
  {
    if steps == [] then s else After(Next(s, steps[0]), steps[1..])
  }

  /** What one step contributes to the count of `ip`'s bucket-decided admissions. */
  function Admitted(s: State, step: Step, ip: IpAddr): nat
    requires Enabled(s, step)
  {
    if step.Decide? && s.caller.ip == ip && Allowed(s.buckets, ip, step.now, s.caller.limits) then 1 else 0
  }

  /** The largest capacity the next decision may still use. */
  function Ceiling(s: State): nat {
    match s.caller
    case Resting => s.capacity
    case LoadedCapacity(_, capacity) => if capacity <= s.capacity then s.capacity else capacity
    case LoadedBoth(_, limits) => if limits.capacity <= s.capacity then s.capacity else limits.capacity
  }

  /** How much a step raises the configured capacity. */
  function Raise(s: State, step: Step): nat {
    if step.StoreCapacity? && step.capacity > s.capacity then step.capacity - s.capacity else 0
  }

  /** How far a sweep's loaded capacity lags behind the ceiling when it finally runs. */
  function Lag(s: State, step: Step): nat
    requires Enabled(s, step)
  {
    if step.Retain? && s.sweeper.limits.capacity < Ceiling(s) then Ceiling(s) - s.sweeper.limits.capacity else 0
  }

  /** What refills at `top` between the reading a call decides on and the latest reading used by then. */
  function Overdue(s: State, step: Step, top: real): real
    requires Enabled(s, step)
  {
    if step.Decide? then Earned(step.now, Max(s.clock, step.now), top) else 0.0
  }

  function Admissions(s: State, steps: seq<Step>, ip: IpAddr): nat
    requires ValidRun(s, steps)
    decreases steps
  {
    if steps == [] then 0 else Admitted(s, steps[0], ip) + Admissions(Next(s, steps[0]), steps[1..], ip)
  }

  function Raises(s: State, steps: seq<Step>): nat
    requires ValidRun(s, steps)
    decreases steps
  {
    if steps == [] then 0 else Raise(s, steps[0]) + Raises(Next(s, steps[0]), steps[1..])
  }

  function Lags(s: State, steps: seq<Step>): nat
    requires ValidRun(s, steps)
    decreases steps
  {
    if steps == [] then 0 else Lag(s, steps[0]) + Lags(Next(s, steps[0]), steps[1..])
  }

  function Overdues(s: State, steps: seq<Step>, top: real): real
    requires ValidRun(s, steps)
    decreases steps
  {
    if steps == [] then 0.0 else Overdue(s, steps[0], top) + Overdues(Next(s, steps[0]), steps[1..], top)
  }

  /** `top` bounds every rate the run stores or has already loaded. */
  predicate RatesWithin(s: State, steps: seq<Step>, top: real) {
    && 0.0 <= top && s.rate <= top
    && (s.caller.LoadedBoth? ==> s.caller.limits.rate <= top)
    && (s.sweeper.SweepBoth? ==> s.sweeper.limits.rate <= top)
    && forall i :: 0 <= i < |steps| && steps[i].StoreRate? ==> steps[i].rate <= top
  }

  /** Holds in the initial state and after every run: a pending decision is gated, no refill lies ahead of the clock. */
  ghost predicate WellFormed(s: State) {
    && NonNegative(s.buckets)
    && (forall ip :: ip in s.buckets ==> s.buckets[ip].lastRefill <= s.clock)
    && (s.caller.LoadedBoth? ==> Gated(s.caller.ip, s.caller.limits))
  }

  /** The most `ip` could be granted at this instant if refilling ran at `top` since its last call. */
  function Potential(s: State, ip: IpAddr, top: real): real {
    if ip in s.buckets then Min(Accrued(s.buckets[ip], s.clock, top), Ceiling(s) as real) else Ceiling(s) as real
  }

  lemma AccruedRateMonotone(b: Bucket, now: real, rate: real, top: real)
    requires rate <= top
    ensures Accrued(b, now, rate) <= Accrued(b, now, top)
  {
    ProductMonotone(rate, top, Elapsed(now, b.lastRefill));
  }

  lemma StaysWellFormed(s: State, step: Step)
    requires WellFormed(s) && Enabled(s, step)
    ensures WellFormed(Next(s, step)) && s.clock <= Next(s, step).clock
  {
    if step.Decide? {
      TokensStayNonNegative(s.buckets, s.caller.ip, step.now, s.caller.limits);
    }
  }

  /** Refilling at rate `top` between two clock readings. */
  function Earned(from: real, to: real, top: real): real {
    (to - from) * top
  }

  lemma EarnedAddsUp(a: real, b: real, c: real, top: real)
    ensures Earned(a, c, top) == Earned(a, b, top) + Earned(b, c, top)
  {}

  lemma EarnedNonNegative(from: real, to: real, top: real)
    requires from <= to && 0.0 <= top
    ensures Earned(from, to, top) >= 0.0
  {
    ProductNonNegative(to - from, top);
  }

  lemma AccruedGrows(b: Bucket, from: real, to: real, top: real)
    requires b.lastRefill <= from <= to && 0.0 <= top
    ensures Accrued(b, to, top) == Accrued(b, from, top) + Earned(from, to, top)
  {
    EarnedAddsUp(b.lastRefill, from, to, top);
  }

  lemma DecidePaysFromPotential(s: State, now: real, ip: IpAddr, top: real)
    requires WellFormed(s) && Enabled(s, Decide(now)) && s.caller.limits.rate <= top
    ensures Admitted(s, Decide(now), ip) as real + Potential(Next(s, Decide(now)), ip, top)
         <= Potential(s, ip, top) + Earned(s.clock, Max(s.clock, now), top) + Overdue(s, Decide(now), top)
  {
    var limits, later := s.caller.limits, Max(s.clock, now);
    EarnedNonNegative(s.clock, later, top);
    EarnedNonNegative(now, later, top);
    if ip in s.buckets {
      AccruedGrows(s.buckets[ip], s.clock, later, top);
    }
    if ip == s.caller.ip {
      assert Level(s.buckets, ip, now, limits) <= Potential(s, ip, top) + Earned(s.clock, later, top) by {
        if ip in s.buckets {
          AccruedRateMonotone(s.buckets[ip], now, limits.rate, top);
          AccruedMonotone(s.buckets[ip], now, later, top);
        }
      }
      FreshlyDecided(s, now, top);
    }
  }

  lemma FreshlyDecided(s: State, now: real, top: real)
    requires WellFormed(s) && Enabled(s, Decide(now))
    ensures Potential(Next(s, Decide(now)), s.caller.ip, top)
         <= Level(s.buckets, s.caller.ip, now, s.caller.limits) - Admitted(s, Decide(now), s.caller.ip) as real
            + Overdue(s, Decide(now), top)
  {}

  lemma RetainPaysFromPotential(s: State, now: real, ip: IpAddr, top: real)
    requires WellFormed(s) && Enabled(s, Retain(now)) && 0.0 <= top && s.sweeper.limits.rate <= top
    ensures Potential(Next(s, Retain(now)), ip, top)
         <= Potential(s, ip, top) + Earned(s.clock, Max(s.clock, now), top) + Lag(s, Retain(now)) as real
  {
    var later := Max(s.clock, now);
    EarnedNonNegative(s.clock, later, top);
    if ip in s.buckets {
      AccruedGrows(s.buckets[ip], s.clock, later, top);
      if ip !in Next(s, Retain(now)).buckets {
        AccruedRateMonotone(s.buckets[ip], now, s.sweeper.limits.rate, top);
        AccruedMonotone(s.buckets[ip], now, later, top);
      }
    }
  }

  lemma OtherStepsPayFromPotential(s: State, step: Step, ip: IpAddr, top: real)
    requires Enabled(s, step) && !step.Decide? && !step.Retain?
    ensures Next(s, step).clock == s.clock && Admitted(s, step, ip) == 0
    ensures Potential(Next(s, step), ip, top) <= Potential(s, ip, top) + Raise(s, step) as real
  {
    var s' := Next(s, step);
    assert s'.buckets == s.buckets && Ceiling(s') <= Ceiling(s) + Raise(s, step);
  }

  /** Every step pays for the admission it makes out of potential, elapsed time, raises and lags. */
  lemma StepPaysFromPotential(s: State, step: Step, ip: IpAddr, top: real)
    requires WellFormed(s) && Enabled(s, step) && RatesWithin(s, [step], top)
    ensures Admitted(s, step, ip) as real + Potential(Next(s, step), ip, top)
         <= Potential(s, ip, top) + Earned(s.clock, Next(s, step).clock, top) + Raise(s, step) as real + Lag(s, step) as real
            + Overdue(s, step, top)
  {
    match step {
      case Decide(now) => DecidePaysFromPotential(s, now, ip, top);
      case Retain(now) => RetainPaysFromPotential(s, now, ip, top);
      case _ => OtherStepsPayFromPotential(s, step, ip, top);
    }
  }

  lemma {:induction false} RunPaysFromPotential(s: State, steps: seq<Step>, ip: IpAddr, top: real)
    requires WellFormed(s) && ValidRun(s, steps) && RatesWithin(s, steps, top)
    ensures WellFormed(After(s, steps))
    ensures Admissions(s, steps, ip) as real + Potential(After(s, steps), ip, top)
         <= Potential(s, ip, top) + Earned(s.clock, After(s, steps).clock, top) + Raises(s, steps) as real + Lags(s, steps) as real
            + Overdues(s, steps, top)
    decreases steps
  {
    if steps != [] {
      var s' := Next(s, steps[0]);
      StaysWellFormed(s, steps[0]);
      StepPaysFromPotential(s, steps[0], ip, top);
      RunPaysFromPotential(s', steps[1..], ip, top);
      EarnedAddsUp(s.clock, s'.clock, After(s, steps).clock, top);
    }
  }

  /**
   * The rate bound. From any reachable state, one address's admissions over a run of length T are at
   * most the initial capacity, plus the highest rate times T, plus every raise of the capacity, plus
   * what sweeps with an outdated capacity give away, plus the highest rate times the time by which
   * calls were overtaken between reading the clock and deciding.
   */
  lemma AdmissionsAreBounded(s: State, steps: seq<Step>, ip: IpAddr, top: real)
    requires WellFormed(s) && ValidRun(s, steps) && RatesWithin(s, steps, top)
    ensures Admissions(s, steps, ip) as real
         <= Ceiling(s) as real + Earned(s.clock, After(s, steps).clock, top) + Raises(s, steps) as real + Lags(s, steps) as real
            + Overdues(s, steps, top)
  {
    RunPaysFromPotential(s, steps, ip, top);
    var end := After(s, steps);
    if ip in end.buckets {
      ProductNonNegative(end.clock - end.buckets[ip].lastRefill, top);
    }
  }

  /** By how many seconds a call's reading of the clock has been overtaken when it decides. */
  function Behind(s: State, step: Step): real {
    if step.Decide? then Elapsed(s.clock, step.now) else 0.0
  }

  /** No sweep lags by more than `lag`, and no call is overtaken by more than `lead` seconds. */
  predicate DisturbedWithin(s: State, steps: seq<Step>, lag: nat, lead: real)
    requires ValidRun(s, steps)
    decreases steps
  {
    steps == [] ||
    (&& Lag(s, steps[0]) <= lag && Behind(s, steps[0]) <= lead
     && DisturbedWithin(Next(s, steps[0]), steps[1..], lag, lead))
  }

  lemma {:induction false} UndisturbedRunsOweNothing(s: State, steps: seq<Step>, top: real)
    requires ValidRun(s, steps) && DisturbedWithin(s, steps, 0, 0.0)
    ensures Lags(s, steps) == 0 && Overdues(s, steps, top) == 0.0
    decreases steps
  {
    if steps != [] {
      UndisturbedRunsOweNothing(Next(s, steps[0]), steps[1..], top);
      assert 0.0 * top == 0.0;
    }
  }

  /** The plain bound: burst + rate * time + raises. */
  predicate MeetsPlainBound(s: State, steps: seq<Step>, ip: IpAddr, top: real)
    requires ValidRun(s, steps)
  {
    Admissions(s, steps, ip) as real
      <= Ceiling(s) as real + Earned(s.clock, After(s, steps).clock, top) + Raises(s, steps) as real
  }

  /**
   * An undisturbed run meets the plain bound, for any interleaving of the two stores, with sweeps and
   * calls pending at the same time, and however stale the clock of a sweep.
   */
  lemma UndisturbedAdmissionsAreBounded(s: State, steps: seq<Step>, ip: IpAddr, top: real)
    requires WellFormed(s) && ValidRun(s, steps) && RatesWithin(s, steps, top)
    requires DisturbedWithin(s, steps, 0, 0.0)
    ensures MeetsPlainBound(s, steps, ip, top)
  {
    UndisturbedRunsOweNothing(s, steps, top);
    AdmissionsAreBounded(s, steps, ip, top);
  }

  /** Every run within `rate`, disturbed by at most `lag` and `lead`, meets the plain bound at every address. */
  ghost predicate PlainBoundHolds(rate: real, lag: nat, lead: real) {
    forall s: State, steps: seq<Step>, ip: IpAddr ::
      WellFormed(s) && ValidRun(s, steps) && RatesWithin(s, steps, rate) && DisturbedWithin(s, steps, lag, lead) ==>
        MeetsPlainBound(s, steps, ip, rate)
  }

  /** Exactly when the plain bound holds: no sweep may lag at all, and no call be overtaken at all. */
  lemma PlainBoundConditionIsExact(rate: real, lag: nat, lead: real)
    requires rate > 0.0 && lead >= 0.0
    ensures PlainBoundHolds(rate, lag, lead) <==> lag == 0 && lead == 0.0
  {
    if lag == 0 && lead == 0.0 {
      forall s: State, steps: seq<Step>, ip: IpAddr |
        WellFormed(s) && ValidRun(s, steps) && RatesWithin(s, steps, rate) && DisturbedWithin(s, steps, 0, 0.0)
        ensures MeetsPlainBound(s, steps, ip, rate)
      {
        UndisturbedAdmissionsAreBounded(s, steps, ip, rate);
      }
    } else if lag > 0 {
      OutdatedSweepExceedsPlainBound(rate, lag, lead);
    } else {
      var period := 1.0 / rate;
      OvertakenCallExceedsPlainBound(rate, period, Min(lead, period), lag, lead);
    }
  }

  lemma {:induction false} RunsCompose(s: State, first: seq<Step>, second: seq<Step>, ip: IpAddr, lag: nat, lead: real)
    requires ValidRun(s, first) && ValidRun(After(s, first), second)
    ensures ValidRun(s, first + second)
    ensures After(s, first + second) == After(After(s, first), second)
    ensures Admissions(s, first + second, ip) == Admissions(s, first, ip) + Admissions(After(s, first), second, ip)
    ensures Raises(s, first + second) == Raises(s, first) + Raises(After(s, first), second)
    ensures DisturbedWithin(s, first + second, lag, lead)
       <==> DisturbedWithin(s, first, lag, lead) && DisturbedWithin(After(s, first), second, lag, lead)
    decreases first
  {
    if first == [] {
      assert first + second == second;
    } else {
      assert (first + second)[1..] == first[1..] + second;
      RunsCompose(Next(s, first[0]), first[1..], second, ip, lag, lead);
    }
  }

  const CLIENT := V4(0xCB00_7101)

  /** How much disturbance a run may show. */
  datatype Slack = Slack(lag: nat, lead: real)

  /** Where a run within the slack ends, and what its admissions and raises come to. */
  ghost predicate Reaches(s: State, steps: seq<Step>, slack: Slack, end: State, admitted: nat, raised: nat) {
    && ValidRun(s, steps) && DisturbedWithin(s, steps, slack.lag, slack.lead)
    && After(s, steps) == end && Admissions(s, steps, CLIENT) == admitted && Raises(s, steps) == raised
  }

  lemma ThenReaches(s: State, first: seq<Step>, mid: State, a: nat, r: nat, second: seq<Step>, end: State, b: nat, q: nat,
                    slack: Slack)
    requires Reaches(s, first, slack, mid, a, r) && Reaches(mid, second, slack, end, b, q)
    ensures Reaches(s, first + second, slack, end, a + b, r + q)
  {
    RunsCompose(s, first, second, CLIENT, slack.lag, slack.lead);
  }

  predicate Allows(slack: Slack, s: State, step: Step)
    requires Enabled(s, step)
  {
    Lag(s, step) <= slack.lag && Behind(s, step) <= slack.lead
  }

  lemma OneStep(s: State, step: Step, slack: Slack)
    requires Enabled(s, step) && Allows(slack, s, step)
    ensures Reaches(s, [step], slack, Next(s, step), Admitted(s, step, CLIENT), Raise(s, step))
  {
    var s' := Next(s, step);
    assert [step][1..] == [] && ValidRun(s', []) && After(s', []) == s';
  }

  lemma ThreeSteps(s: State, a: Step, b: Step, c: Step, slack: Slack)
    requires Enabled(s, a) && Enabled(Next(s, a), b) && Enabled(Next(Next(s, a), b), c)
    requires Allows(slack, s, a) && Allows(slack, Next(s, a), b) && Allows(slack, Next(Next(s, a), b), c)
    ensures var s1, s2 := Next(s, a), Next(Next(s, a), b);
            Reaches(s, [a, b, c], slack, Next(s2, c),
                    Admitted(s, a, CLIENT) + Admitted(s1, b, CLIENT) + Admitted(s2, c, CLIENT),
                    Raise(s, a) + Raise(s1, b) + Raise(s2, c))
  {
    var s1, s2 := Next(s, a), Next(Next(s, a), b);
    OneStep(s, a, slack);
    OneStep(s1, b, slack);
    OneStep(s2, c, slack);
    ThenReaches(s, [a], s1, Admitted(s, a, CLIENT), Raise(s, a), [b], s2, Admitted(s1, b, CLIENT), Raise(s1, b), slack);
    ThenReaches(s, [a] + [b], s2, Admitted(s, a, CLIENT) + Admitted(s1, b, CLIENT), Raise(s, a) + Raise(s1, b),
                [c], Next(s2, c), Admitted(s2, c, CLIENT), Raise(s2, c), slack);
    assert [a] + [b] + [c] == [a, b, c];
  }

  /** A run of three legs that admit one call each. */
  lemma ThreeLegs(s: State, a: seq<Step>, s1: State, b: seq<Step>, s2: State, c: seq<Step>, end: State, raised: nat, slack: Slack)
    requires Reaches(s, a, slack, s1, 1, raised) && Reaches(s1, b, slack, s2, 1, 0) && Reaches(s2, c, slack, end, 1, 0)
    ensures Reaches(s, a + b + c, slack, end, 3, raised)
  {
    ThenReaches(s, a, s1, 1, raised, b, s2, 1, 0, slack);
    ThenReaches(s, a + b, s2, 2, raised, c, end, 1, 0, slack);
  }

  function Start(rate: real): State {
    State(map[], 1, rate, 0.0, Resting, Idle)
  }

  /** The same with `tokens` left in the client's bucket at `last`. */
  function Left(s: State, tokens: real, last: real): State {
    s.(buckets := map[CLIENT := Bucket(tokens, last)])
  }

  function CallAt(now: real): seq<Step> {
    [LoadCapacity(CLIENT), LoadRate, Decide(now)]
  }

  /** A call that finds `level` tokens, at least one, takes one of them. */
  lemma OneCall(s: State, now: real, level: real, slack: Slack)
    requires s.rate > 0.0 && s.caller.Resting? && Elapsed(s.clock, now) <= slack.lead && 0.0 <= slack.lead
    requires level == Level(s.buckets, CLIENT, now, Limits(s.capacity, s.rate)) >= 1.0
    ensures Reaches(s, CallAt(now), slack,
                    s.(buckets := s.buckets[CLIENT := Bucket(level - 1.0, now)], clock := Max(s.clock, now)), 1, 0)
  {
    ThreeSteps(s, LoadCapacity(CLIENT), LoadRate, Decide(now), slack);
  }

  const LOADS := [SweepLoadCapacity, SweepLoadRate, StoreCapacity(2)]

  /** A sweep loads capacity 1, the capacity is raised to 2, a call is admitted, and only then the sweep runs. */
  const OUTDATED_SWEEP := LOADS + CallAt(0.0) + [Retain(0.0)] + CallAt(0.0) + CallAt(0.0)

  function Raised(rate: real): State {
    Start(rate).(capacity := 2)
  }

  function RaisedBehind(rate: real): State {
    Raised(rate).(sweeper := SweepBoth(Limits(1, rate)))
  }

  lemma OutdatedLoads(rate: real, slack: Slack)
    requires slack.lead >= 0.0
    ensures Reaches(Start(rate), LOADS, slack, RaisedBehind(rate), 0, 1)
  {
    ThreeSteps(Start(rate), LOADS[0], LOADS[1], LOADS[2], slack);
    assert LOADS == [LOADS[0], LOADS[1], LOADS[2]];
  }

  lemma OutdatedStart(rate: real, slack: Slack)
    requires rate > 0.0 && slack.lag >= 1 && slack.lead >= 0.0
    ensures Reaches(Start(rate), LOADS + CallAt(0.0) + [Retain(0.0)], slack, Raised(rate), 1, 1)
  {
    var behind := RaisedBehind(rate);
    OutdatedLoads(rate, slack);
    OneCall(behind, 0.0, 2.0, slack);
    ThenReaches(Start(rate), LOADS, behind, 0, 1, CallAt(0.0), Left(behind, 1.0, 0.0), 1, 0, slack);
    assert AfterSweep(Left(behind, 1.0, 0.0).buckets, 0.0, Limits(1, rate)) == map[];
    OneStep(Left(behind, 1.0, 0.0), Retain(0.0), slack);
    ThenReaches(Start(rate), LOADS + CallAt(0.0), Left(behind, 1.0, 0.0), 1, 1, [Retain(0.0)], Raised(rate), 0, 0, slack);
  }

  lemma OutdatedRun(rate: real, slack: Slack)
    requires rate > 0.0 && slack.lag >= 1 && slack.lead >= 0.0
    ensures Reaches(Start(rate), OUTDATED_SWEEP, slack, Left(Raised(rate), 0.0, 0.0), 3, 1)
  {
    OutdatedStart(rate, slack);
    OneCall(Raised(rate), 0.0, 2.0, slack);
    OneCall(Left(Raised(rate), 1.0, 0.0), 0.0, 1.0, slack);
    ThreeLegs(Start(rate), LOADS + CallAt(0.0) + [Retain(0.0)], Raised(rate),
              CallAt(0.0), Left(Raised(rate), 1.0, 0.0), CallAt(0.0), Left(Raised(rate), 0.0, 0.0), 1, slack);
  }

  /** At every rate an outdated sweep admits three calls in no time, where capacity and raises allow two. */
  lemma OutdatedSweepExceedsPlainBound(rate: real, lag: nat, lead: real)
    requires rate > 0.0 && lag >= 1 && lead >= 0.0
    ensures WellFormed(Start(rate)) && ValidRun(Start(rate), OUTDATED_SWEEP) && RatesWithin(Start(rate), OUTDATED_SWEEP, rate)
    ensures DisturbedWithin(Start(rate), OUTDATED_SWEEP, lag, lead)
    ensures Admissions(Start(rate), OUTDATED_SWEEP, CLIENT) == 3
    ensures Ceiling(Start(rate)) + Raises(Start(rate), OUTDATED_SWEEP) == 2
    ensures After(Start(rate), OUTDATED_SWEEP).clock == 0.0 && !MeetsPlainBound(Start(rate), OUTDATED_SWEEP, CLIENT, rate)
  {
    OutdatedRun(rate, Slack(lag, lead));
    assert Earned(0.0, 0.0, rate) == 0.0;
  }

  function SweepAt(now: real): seq<Step> {
    [SweepLoadCapacity, SweepLoadRate, Retain(now)]
  }

  /** A call is admitted; when the bucket has refilled, a sweep overtakes a second call by `d`; a third comes one period later. */
  function OvertakenCall(period: real, d: real): seq<Step> {
    CallAt(0.0) + SweepAt(period) + CallAt(period - d) + CallAt(period - d + period)
  }

  function Swept(rate: real, period: real): State {
    Start(rate).(clock := period)
  }

  lemma WholeSweep(rate: real, period: real, slack: Slack)
    requires period > 0.0 && period * rate == 1.0 && slack.lead >= 0.0
    ensures Reaches(Left(Start(rate), 0.0, 0.0), SweepAt(period), slack, Swept(rate, period), 0, 0)
  {
    var s := Left(Start(rate), 0.0, 0.0);
    ThreeSteps(s, SweepLoadCapacity, SweepLoadRate, Retain(period), slack);
    assert AfterSweep(s.buckets, period, Limits(1, rate)) == map[];
  }

  lemma OvertakenStart(rate: real, period: real, slack: Slack)
    requires rate > 0.0 && period > 0.0 && period * rate == 1.0 && slack.lead >= 0.0
    ensures Reaches(Start(rate), CallAt(0.0) + SweepAt(period), slack, Swept(rate, period), 1, 0)
  {
    OneCall(Start(rate), 0.0, 1.0, slack);
    WholeSweep(rate, period, slack);
    ThenReaches(Start(rate), CallAt(0.0), Left(Start(rate), 0.0, 0.0), 1, 0,
                SweepAt(period), Swept(rate, period), 0, 0, slack);
  }

  lemma OvertakenRun(rate: real, period: real, d: real, slack: Slack)
    requires rate > 0.0 && period * rate == 1.0 && 0.0 < d <= period && d <= slack.lead
    ensures Reaches(Start(rate), OvertakenCall(period, d), slack,
                    Left(Start(rate), 0.0, period - d + period).(clock := period - d + period), 3, 0)
  {
    var swept, third := Swept(rate, period), period - d + period;
    OvertakenStart(rate, period, slack);
    OneCall(swept, period - d, 1.0, slack);
    assert Accrued(Bucket(0.0, period - d), third, rate) == 1.0;
    OneCall(Left(swept, 0.0, period - d), third, 1.0, slack);
    ThreeLegs(Start(rate), CallAt(0.0) + SweepAt(period), swept, CallAt(period - d), Left(swept, 0.0, period - d),
              CallAt(third), Left(Start(rate), 0.0, third).(clock := third), 0, slack);
  }

  /** At every rate, and however little a call is overtaken, three calls are admitted where the plain bound is 3 - d * rate. */
  lemma OvertakenCallExceedsPlainBound(rate: real, period: real, d: real, lag: nat, lead: real)
    requires rate > 0.0 && period * rate == 1.0 && 0.0 < d <= period && d <= lead
    ensures var s, steps := Start(rate), OvertakenCall(period, d);
            && WellFormed(s) && ValidRun(s, steps) && RatesWithin(s, steps, rate) && DisturbedWithin(s, steps, lag, lead)
            && Admissions(s, steps, CLIENT) == 3 && Raises(s, steps) == 0
            && Ceiling(s) as real + Earned(s.clock, After(s, steps).clock, rate) == 3.0 - d * rate
            && !MeetsPlainBound(s, steps, CLIENT, rate)
  {
    OvertakenRun(rate, period, d, Slack(lag, lead));
    assert (period - d + period) * rate == 2.0 * (period * rate) - d * rate;
    assert d * rate > 0.0;
  }
}
