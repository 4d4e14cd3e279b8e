/**
 * The retry loop over the backoff, its counters and its time bound. The network is a function from
 * attempt numbers to what a connect would do; sleeps and timeouts are taken to be exact.
 */
module Connect {
  import opened Backoff
  import opened Common

  /** What one connect would do if left alone, and after how many nanoseconds. */
  datatype Try = Connects(after: nat) | Fails(after: nat, code: int) | Hangs

  datatype Error = Io(code: int) | TimedOut

  datatype Result = Ok(attempt: nat) | Err(error: Error)

  type Network = nat -> Try

  /** The attempt under its timeout. */
  function AttemptOutcome(network: Network, n: nat, limit: nat): Result {
    match network(n)
    case Connects(after) => if after <= limit then Ok(n) else Err(TimedOut)
    case Fails(after, code) => if after <= limit then Err(Io(code)) else Err(TimedOut)
    case Hangs => Err(TimedOut)
  }

  function AttemptTime(network: Network, n: nat, limit: nat): nat {
    if network(n).Hangs? then limit else Smaller(network(n).after, limit)
  }

  function Limit(policy: Policy): nat {
    if policy.maxAttempts <= 1 then 1 else policy.maxAttempts
  }

  /** Sleeps and attempts 1..n together. */
  function TimeOf(policy: Policy, network: Network, n: nat): nat {
    if n == 0 then 0
    else TimeOf(policy, network, n - 1)
         + IdealDelay(policy.baseDelay.Nanos(), policy.maxDelay.Nanos(), n)
         + AttemptTime(network, n, policy.attemptTimeout.Nanos())
  }

  lemma {:induction false} TimeIsBounded(policy: Policy, network: Network, n: nat)
    ensures TimeOf(policy, network, n)
         <= n * policy.attemptTimeout.Nanos() + TotalDelay(policy.baseDelay.Nanos(), policy.maxDelay.Nanos(), n)
  {
    if n > 0 {
      TimeIsBounded(policy, network, n - 1);
      Distribute1(n, policy.attemptTimeout.Nanos());
    }
  }

  lemma Distribute1(n: nat, t: nat)
    requires n > 0
    ensures n * t == (n - 1) * t + t
  {}

  lemma {:induction false} MoreAttemptsTakeLonger(policy: Policy, network: Network, n: nat, m: nat)
    requires n <= m
    ensures TimeOf(policy, network, n) <= TimeOf(policy, network, m)
    decreases m
  {
    if n < m {
      MoreAttemptsTakeLonger(policy, network, n, m - 1);
    }
  }

  /** Every attempt up to `n` answers within `limit`. */
  ghost predicate Prompt(network: Network, n: nat, limit: nat) {
    forall k :: 1 <= k <= n ==> !network(k).Hangs? && network(k).after <= limit
  }

  /** No attempt up to `n` answers within `limit`. */
  ghost predicate Stalled(network: Network, n: nat, limit: nat) {
    forall k :: 1 <= k <= n ==> network(k).Hangs? || network(k).after >= limit
  }

  function AnswerTimes(network: Network, n: nat): nat {
    if n == 0 then 0 else AnswerTimes(network, n - 1) + if network(n).Hangs? then 0 else network(n).after
  }

  /** Prompt attempts cost just what they take, stalled ones the whole timeout, on top of all the delays. */
  lemma {:induction false} TimeIsExact(policy: Policy, network: Network, n: nat)
    ensures var limit := policy.attemptTimeout.Nanos();
            var delays := TotalDelay(policy.baseDelay.Nanos(), policy.maxDelay.Nanos(), n);
            && (Prompt(network, n, limit) ==> TimeOf(policy, network, n) == delays + AnswerTimes(network, n))
            && (Stalled(network, n, limit) ==> TimeOf(policy, network, n) == delays + n * limit)
  {
    if n > 0 {
      TimeIsExact(policy, network, n - 1);
      Distribute1(n, policy.attemptTimeout.Nanos());
    }
  }

  /** The connect counters, beside the true number of attempts that failed. */
  class ConnectStats {
    var retries: nat
    var failures: nat
    ghost var failedAttempts: nat

    /** Holds between connects: every failed attempt was counted once, as a retry or as the failure. */
    ghost predicate Valid()
      reads this
    {
      retries + failures == failedAttempts
    }

    constructor ()
      ensures Valid() && failedAttempts == 0
    {
      retries, failures, failedAttempts := 0, 0, 0;
    }
  }

  /** A connect that would succeed within the timeout. */
  predicate ConnectsWithin(attempt: Try, limit: nat) {
    attempt.Connects? && attempt.after <= limit
  }

  /** `n` is the first attempt to succeed. */
  ghost predicate FirstSuccess(network: Network, limit: nat, n: nat) {
    AttemptOutcome(network, n, limit).Ok? && forall k :: 1 <= k < n ==> AttemptOutcome(network, k, limit).Err?
  }

  /**
   * What a run must report, in terms of the policy's fields and the network alone: all max(1, max_attempts)
   * attempts are made unless one connects, and then the last one's error is reported.
   */
  ghost predicate MeetsNetwork(policy: Policy, network: Network, result: Result, attempts: nat) {
    var m := if policy.maxAttempts == 0 then 1 else policy.maxAttempts;
    var limit := policy.attemptTimeout.Nanos();
    && 1 <= attempts <= m
    && (result.Ok? <==> exists n :: 1 <= n <= m && ConnectsWithin(network(n), limit))
    && (result.Ok? ==> ConnectsWithin(network(attempts), limit))
    && (forall k :: 1 <= k < attempts ==> !ConnectsWithin(network(k), limit))
    && (result.Err? ==> attempts == m && result == Err(
          match network(m)
          case Fails(after, code) => if after <= limit then Io(code) else TimedOut
          case _ => TimedOut))
  }

  lemma OutcomesMeetNetwork(policy: Policy, network: Network, result: Result, attempts: nat)
    requires 1 <= attempts <= Limit(policy)
    requires result == AttemptOutcome(network, attempts, policy.attemptTimeout.Nanos())
    requires forall k :: 1 <= k < attempts ==> AttemptOutcome(network, k, policy.attemptTimeout.Nanos()).Err?
    requires result.Err? ==> attempts == Limit(policy)
    ensures MeetsNetwork(policy, network, result, attempts)
  {
    var limit := policy.attemptTimeout.Nanos();
    forall n | 1 <= n <= Limit(policy) ensures AttemptOutcome(network, n, limit).Ok? <==> ConnectsWithin(network(n), limit) {}
  }

  /** One round of the loop: sleep if there is a delay, then connect under the timeout. */
  method Attempt(policy: Policy, network: Network, n: nat) returns (result: Result, took: nat)
    requires policy.Valid() && 1 <= n <= U32_MAX
    ensures result == AttemptOutcome(network, n, policy.attemptTimeout.Nanos())
    ensures TimeOf(policy, network, n) == TimeOf(policy, network, n - 1) + took
  {
    var delay := policy.GetDelay(n);
    DelayClosedForm(policy, n);
    took := 0;
    if delay != ZERO {
      took := delay.Nanos();
    }
    var limit := policy.attemptTimeout.Nanos();
    result := AttemptOutcome(network, n, limit);
    took := took + AttemptTime(network, n, limit);
  }

  /**
   * The retry loop with a connect as its attempt: attempts run in order until the first success or until
   * all are used up, each after its delay; a failed attempt that will be retried counts as a retry.
   * `attempts` and `elapsed` report what the run did.
   */
  method RetryWithBackoff(policy: Policy, network: Network, stats: ConnectStats)
    returns (result: Result, attempts: nat, elapsed: nat)
    requires policy.Valid()
    modifies stats
    ensures 1 <= attempts <= Limit(policy)
    ensures result.Ok? ==> result == Ok(attempts) && FirstSuccess(network, policy.attemptTimeout.Nanos(), attempts)
    ensures result.Err? ==>
              && attempts == Limit(policy)
              && result == AttemptOutcome(network, attempts, policy.attemptTimeout.Nanos())
              && forall k :: 1 <= k <= attempts ==> AttemptOutcome(network, k, policy.attemptTimeout.Nanos()).Err?
    ensures stats.retries == old(stats.retries) + attempts - 1
    ensures stats.failures == old(stats.failures)
    ensures stats.failedAttempts == old(stats.failedAttempts) + attempts - (if result.Ok? then 1 else 0)
    ensures elapsed == TimeOf(policy, network, attempts)
  {
    var last := Limit(policy);
    var limit := policy.attemptTimeout.Nanos();
    elapsed, attempts := 0, 0;
    result := Err(TimedOut);
    for n := 1 to last + 1
      invariant attempts == n - 1
      invariant forall k :: 1 <= k < n ==> AttemptOutcome(network, k, limit).Err?
      invariant n > 1 ==> result == AttemptOutcome(network, n - 1, limit)
      invariant stats.failures == old(stats.failures)
      invariant stats.retries == old(stats.retries) + if n - 1 < last then n - 1 else last - 1
      invariant stats.failedAttempts == old(stats.failedAttempts) + n - 1
      invariant elapsed == TimeOf(policy, network, n - 1)
    {
      var took;
      result, took := Attempt(policy, network, n);
      attempts, elapsed := n, elapsed + took;
      if result.Ok? {
        return;
      }
      stats.failedAttempts := stats.failedAttempts + 1;
      if n < last {
        stats.retries := stats.retries + 1;
      }
    }
  }

  /** The same, told by the policy and the network. */
  method ConnectWithBackoff(policy: Policy, network: Network, stats: ConnectStats)
    returns (result: Result, attempts: nat, elapsed: nat)
    requires policy.Valid()
    modifies stats
    ensures 1 <= attempts <= Limit(policy)
    ensures result.Ok? ==> result == Ok(attempts) && FirstSuccess(network, policy.attemptTimeout.Nanos(), attempts)
    ensures result.Err? ==>
              && attempts == Limit(policy)
              && result == AttemptOutcome(network, attempts, policy.attemptTimeout.Nanos())
              && forall k :: 1 <= k <= attempts ==> AttemptOutcome(network, k, policy.attemptTimeout.Nanos()).Err?
    ensures MeetsNetwork(policy, network, result, attempts)
    ensures stats.retries == old(stats.retries) + attempts - 1
    ensures stats.failures == old(stats.failures)
    ensures stats.failedAttempts == old(stats.failedAttempts) + attempts - (if result.Ok? then 1 else 0)
    ensures elapsed == TimeOf(policy, network, attempts)
  {
    result, attempts, elapsed := RetryWithBackoff(policy, network, stats);
    OutcomesMeetNetwork(policy, network, result, attempts);
  }

  const DEFAULT := Policy(Duration(3, 0), 4, Duration(0, 200_000_000), Duration(2, 0))

  /** Under the production policy a dead upstream holds a connection for at most 13.4 seconds. */
  lemma DefaultGivesUpIn13400Millis(network: Network, attempts: nat)
    requires attempts <= Limit(DEFAULT)
    ensures TimeOf(DEFAULT, network, attempts) <= 13_400_000_000
  {
    MoreAttemptsTakeLonger(DEFAULT, network, attempts, 4);
    TimeIsBounded(DEFAULT, network, 4);
    var base, max := DEFAULT.baseDelay.Nanos(), DEFAULT.maxDelay.Nanos();
    assert IdealDelay(base, max, 2) == 200_000_000;
    assert IdealDelay(base, max, 3) == 400_000_000;
    assert IdealDelay(base, max, 4) == 800_000_000;
    assert TotalDelay(base, max, 1) == 0;
    assert TotalDelay(base, max, 2) == 200_000_000;
    assert TotalDelay(base, max, 3) == 600_000_000;
  }

  /** The production policy doubles from 200 ms. */
  lemma DefaultDelaysDouble(n: u32)
    requires 2 <= n <= 5
    ensures DEFAULT.GetDelay(n).Nanos() == 200_000_000 * [1, 2, 4, 8][n - 2]
  {
    DelayClosedForm(DEFAULT, n);
    assert Pow2(n - 2) == [1, 2, 4, 8][n - 2];
  }

  /** And waits 2 s from the sixth attempt on. */
  lemma DefaultDelaysEnd(n: u32)
    requires n >= 6
    ensures DEFAULT.GetDelay(n).Nanos() == 2_000_000_000
  {
    DelayClosedForm(DEFAULT, n);
    assert Pow2(4) == 16;
    Pow2Grows(4, n - 2);
    TimesMonotone(200_000_000, 16, Smaller(Pow2(n - 2), U32_MAX));
  }

  /** An upstream that never answers takes exactly that long. */
  lemma DefaultBoundIsReached()
    ensures TimeOf(DEFAULT, (n: nat) => Hangs, Limit(DEFAULT)) == 13_400_000_000
  {
    var network: Network := (n: nat) => Hangs;
    var base, max := DEFAULT.baseDelay.Nanos(), DEFAULT.maxDelay.Nanos();
    assert IdealDelay(base, max, 2) == 200_000_000;
    assert IdealDelay(base, max, 3) == 400_000_000;
    assert IdealDelay(base, max, 4) == 800_000_000;
    assert TimeOf(DEFAULT, network, 1) == 3_000_000_000;
    assert TimeOf(DEFAULT, network, 2) == 6_200_000_000;
    assert TimeOf(DEFAULT, network, 3) == 9_600_000_000;
  }

  /** The connecting half of `relay_to_service`: giving up counts as a failure, so the books balance again. */
  method RelayToService(policy: Policy, network: Network, stats: ConnectStats) returns (connected: bool, elapsed: nat)
    requires policy.Valid() && stats.Valid()
    modifies stats
    ensures stats.Valid()
    ensures connected <==> exists n :: 1 <= n <= Limit(policy) && AttemptOutcome(network, n, policy.attemptTimeout.Nanos()).Ok?
    ensures connected <==> exists n ::
              && 1 <= n <= (if policy.maxAttempts == 0 then 1 else policy.maxAttempts)
              && network(n).Connects? && network(n).after <= policy.attemptTimeout.Nanos()
    ensures stats.failures == old(stats.failures) + if connected then 0 else 1
    ensures elapsed <= Limit(policy) * policy.attemptTimeout.Nanos()
                       + TotalDelay(policy.baseDelay.Nanos(), policy.maxDelay.Nanos(), Limit(policy))
    ensures policy == DEFAULT ==> elapsed <= 13_400_000_000
  {
    var result, attempts, time := ConnectWithBackoff(policy, network, stats);
    MoreAttemptsTakeLonger(policy, network, attempts, Limit(policy));
    TimeIsBounded(policy, network, Limit(policy));
    if policy == DEFAULT {
      DefaultGivesUpIn13400Millis(network, attempts);
    }
    elapsed := time;
    connected := result.Ok?;
    if !connected {
      stats.failures := stats.failures + 1;
    } else {
      assert AttemptOutcome(network, attempts, policy.attemptTimeout.Nanos()).Ok?;
    }
  }
}
