/**
 * `NoMoreGenerous` is the exact condition for a sweep to be unobservable across limit changes and
 * clocks that run ahead of a call's, and a bound on what survives a sweep.
 */
module SweepCondition {
  import opened Common
  import opened TokenBucket
  import opened RateRuns
  import opened SweepUnobservable

  /**
   * Every sweep of the run that a decided call follows was made under `atSweep`, that call under
   * `atCall`, and the sweep's clock was at most `lead` ahead of the call's.
   */
  ghost predicate SweptUnder(initial: Limits, ops: seq<Op>, atSweep: Limits, atCall: Limits, lead: real) {
    forall i, j :: 0 <= i < j < |ops| && NextDecided(initial, ops, i, j) ==>
      LimitsAt(initial, ops, i) == atSweep && LimitsAt(initial, ops, j) == atCall && Lead(ops, i, j) <= lead
  }

  ghost predicate SameAnswers(initial: Limits, ops: seq<Op>, skipped: set<nat>, skipped': set<nat>) {
    forall i :: 0 <= i < |ops| && ops[i].Call? ==> (Answer(initial, ops, i, skipped) <==> Answer(initial, ops, i, skipped'))
  }

  /** No run that sweeps under `atSweep` and next decides under `atCall` shows whether it swept. */
  ghost predicate Unobservable(atSweep: Limits, atCall: Limits, lead: real) {
    forall initial: Limits, ops: seq<Op>, skipped: set<nat>, skipped': set<nat> ::
      CallsInOrder(ops) && SweptUnder(initial, ops, atSweep, atCall, lead) ==> SameAnswers(initial, ops, skipped, skipped')
  }

  /** `m` calls from `ip` at the one instant `now`, all under `limits`, start at position `n`. */
  ghost predicate Burst(initial: Limits, ops: seq<Op>, n: nat, m: nat, ip: IpAddr, now: real, limits: Limits) {
    && n + m <= |ops| && Gated(ip, limits)
    && LimitsAt(initial, ops, n) == limits
    && forall k :: n <= k < n + m ==> ops[k] == Call(ip, now)
  }

  lemma {:induction false} LimitsDuringBurst(initial: Limits, ops: seq<Op>, n: nat, m: nat, ip: IpAddr, now: real, limits: Limits)
    requires Burst(initial, ops, n, m, ip, now, limits)
    ensures LimitsAt(initial, ops, n + m) == limits
  {
    if m > 0 {
      LimitsDuringBurst(initial, ops, n, m - 1, ip, now, limits);
    }
  }

  /** While a burst is admitted, each call takes one token and nothing comes back. */
  lemma {:induction false} BurstDrains(initial: Limits, ops: seq<Op>, n: nat, m: nat, ip: IpAddr, now: real,
                                       limits: Limits, skipped: set<nat>)
    requires Burst(initial, ops, n, m, ip, now, limits)
    requires forall k :: n <= k < n + m ==> Answer(initial, ops, k, skipped)
    ensures Level(TableAt(initial, ops, n + m, skipped), ip, now, limits)
         == Level(TableAt(initial, ops, n, skipped), ip, now, limits) - m as real
  {
    if m > 0 {
      BurstDrains(initial, ops, n, m - 1, ip, now, limits, skipped);
      LimitsDuringBurst(initial, ops, n, m - 1, ip, now, limits);
      assert Answer(initial, ops, n + m - 1, skipped);
    }
  }

  /** A burst of `m` calls is admitted entirely exactly when the level covers it. */
  lemma {:induction false} BurstAdmittedIffCovered(initial: Limits, ops: seq<Op>, n: nat, m: nat, ip: IpAddr, now: real,
                                                   limits: Limits, skipped: set<nat>)
    requires Burst(initial, ops, n, m, ip, now, limits) && m > 0
    ensures (forall k :: n <= k < n + m ==> Answer(initial, ops, k, skipped))
        <==> Level(TableAt(initial, ops, n, skipped), ip, now, limits) >= m as real
  {
    LimitsDuringBurst(initial, ops, n, m - 1, ip, now, limits);
    if m > 1 {
      BurstAdmittedIffCovered(initial, ops, n, m - 1, ip, now, limits, skipped);
    }
    if forall k :: n <= k < n + m - 1 ==> Answer(initial, ops, k, skipped) {
      BurstDrains(initial, ops, n, m - 1, ip, now, limits, skipped);
      assert ops[n + m - 1] == Call(ip, now);
      assert Answer(initial, ops, n + m - 1, skipped)
          <==> Level(TableAt(initial, ops, n, skipped), ip, now, limits) - (m - 1) as real >= 1.0;
    } else {
      assert m > 1;
    }
  }

  const WITNESS_IP := V4(0xCB00_7101)

  /** Limits under which a call at -1 and one at 0 leave `left` tokens, for any `left`. */
  function Prelude(left: real): Limits
    requires left >= 0.0
  {
    var whole := left.Floor;
    if left == whole as real then Limits(whole + 1, 1.0) else Limits(whole + 2, left - whole as real)
  }

  /** Two calls leave `left` tokens at time 0; a sweep reads `swept`; then a burst at `at` that a full bucket covers. */
  function Telltale(left: real, swept: real, at: real, atSweep: Limits, atCall: Limits): seq<Op>
    requires left >= 0.0
  {
    [SetLimit(Prelude(left)), Call(WITNESS_IP, -1.0), Call(WITNESS_IP, 0.0), SetLimit(atSweep), Sweep(swept), SetLimit(atCall)]
    + seq(atCall.capacity, k => Call(WITNESS_IP, at))
  }

  /** If the forgotten bucket would not have filled the later limits, the burst gets different answers. */
  lemma TelltaleTells(left: real, swept: real, at: real, atSweep: Limits, atCall: Limits, lead: real)
    requires atCall.rate > 0.0 && atCall.capacity > 0 && left >= 0.0 && swept >= 0.0 && at >= 0.0 && 0.0 <= swept - at <= lead
    requires left + swept * atSweep.rate >= atSweep.Full()
    requires left + at * atCall.rate < atCall.Full()
    ensures !Unobservable(atSweep, atCall, lead)
  {
    var ops := Telltale(left, swept, at, atSweep, atCall);
    TelltaleTables(left, swept, at, atSweep, atCall);
    BurstTells(atSweep, ops, 6, WITNESS_IP, at, atCall, {}, {4});
    TelltaleIsSweptUnder(left, swept, at, atSweep, atCall, lead);
  }

  /** A burst of full size tells a level that covers it from one that does not. */
  lemma BurstTells(initial: Limits, ops: seq<Op>, n: nat, ip: IpAddr, now: real, limits: Limits,
                   skipped: set<nat>, skipped': set<nat>)
    requires Burst(initial, ops, n, limits.capacity, ip, now, limits) && limits.capacity > 0
    requires Level(TableAt(initial, ops, n, skipped), ip, now, limits) == limits.Full()
    requires Level(TableAt(initial, ops, n, skipped'), ip, now, limits) < limits.Full()
    ensures !SameAnswers(initial, ops, skipped, skipped')
  {
    BurstAdmittedIffCovered(initial, ops, n, limits.capacity, ip, now, limits, skipped);
    BurstAdmittedIffCovered(initial, ops, n, limits.capacity, ip, now, limits, skipped');
    var k :| n <= k < n + limits.capacity && !Answer(initial, ops, k, skipped');
    assert Answer(initial, ops, k, skipped);
  }

  lemma PreludeLeaves(left: real)
    requires left >= 0.0
    ensures var limits := Prelude(left);
            && limits.rate > 0.0
            && AfterCall(AfterCall(map[], WITNESS_IP, -1.0, limits), WITNESS_IP, 0.0, limits) == map[WITNESS_IP := Bucket(left, 0.0)]
  {
    var limits := Prelude(left);
    var first := AfterCall(map[], WITNESS_IP, -1.0, limits);
    assert first == map[WITNESS_IP := Bucket(limits.Full() - 1.0, -1.0)];
    assert Level(first, WITNESS_IP, 0.0, limits) == left + 1.0;
  }

  lemma TelltaleTables(left: real, swept: real, at: real, atSweep: Limits, atCall: Limits)
    requires atCall.rate > 0.0 && left >= 0.0 && swept >= 0.0
    requires left + swept * atSweep.rate >= atSweep.Full()
    ensures var ops := Telltale(left, swept, at, atSweep, atCall);
            && Burst(atSweep, ops, 6, atCall.capacity, WITNESS_IP, at, atCall)
            && TableAt(atSweep, ops, 6, {}) == map[]
            && TableAt(atSweep, ops, 6, {4}) == map[WITNESS_IP := Bucket(left, 0.0)]
  {
    var ops := Telltale(left, swept, at, atSweep, atCall);
    var kept := map[WITNESS_IP := Bucket(left, 0.0)];
    TelltaleStart(left, swept, at, atSweep, atCall, {});
    TelltaleStart(left, swept, at, atSweep, atCall, {4});
    assert LimitsAt(atSweep, ops, 4) == atSweep;
    assert AfterSweep(kept, swept, atSweep) == map[];
    assert TableAt(atSweep, ops, 6, {}) == map[] by { assert TableAt(atSweep, ops, 5, {}) == map[]; }
    assert TableAt(atSweep, ops, 6, {4}) == kept by { assert TableAt(atSweep, ops, 5, {4}) == kept; }
  }

  lemma TelltaleStart(left: real, swept: real, at: real, atSweep: Limits, atCall: Limits, skipped: set<nat>)
    requires left >= 0.0
    ensures TableAt(atSweep, Telltale(left, swept, at, atSweep, atCall), 4, skipped) == map[WITNESS_IP := Bucket(left, 0.0)]
  {
    var ops, limits := Telltale(left, swept, at, atSweep, atCall), Prelude(left);
    PreludeLeaves(left);
    assert TableAt(atSweep, ops, 1, skipped) == map[] by { assert TableAt(atSweep, ops, 0, skipped) == map[]; }
    assert LimitsAt(atSweep, ops, 1) == LimitsAt(atSweep, ops, 2) == limits;
    assert TableAt(atSweep, ops, 2, skipped) == AfterCall(map[], WITNESS_IP, -1.0, limits);
    assert TableAt(atSweep, ops, 3, skipped) == map[WITNESS_IP := Bucket(left, 0.0)];
  }

  lemma TelltaleIsSweptUnder(left: real, swept: real, at: real, atSweep: Limits, atCall: Limits, lead: real)
    requires atCall.rate > 0.0 && atCall.capacity > 0 && left >= 0.0 && at >= 0.0 && 0.0 <= swept - at <= lead
    ensures CallsInOrder(Telltale(left, swept, at, atSweep, atCall))
    ensures SweptUnder(atSweep, Telltale(left, swept, at, atSweep, atCall), atSweep, atCall, lead)
  {
    var ops := Telltale(left, swept, at, atSweep, atCall);
    assert LimitsAt(atSweep, ops, 4) == atSweep;
    assert LimitsAt(atSweep, ops, 6) == atCall;
    assert ops[6] == Call(WITNESS_IP, at);
    forall i, j | 0 <= i < j < |ops| && NextDecided(atSweep, ops, i, j)
      ensures LimitsAt(atSweep, ops, i) == atSweep && LimitsAt(atSweep, ops, j) == atCall && Lead(ops, i, j) <= lead
    {
      assert i == 4;
      assert j > 6 ==> !GatedCall(atSweep, ops, 6, WITNESS_IP);
    }
  }

  /**
   * Exactly which limit changes between a sweep and the next decided call keep the sweep unobservable,
   * for calls overtaken by up to `lead` seconds.
   */
  lemma SweepConditionIsExact(atSweep: Limits, atCall: Limits, lead: real)
    requires atCall.rate > 0.0 && lead >= 0.0
    ensures Unobservable(atSweep, atCall, lead) <==> NoMoreGenerous(atSweep, atCall, lead)
  {
    if NoMoreGenerous(atSweep, atCall, lead) {
      forall initial: Limits, ops: seq<Op>, skipped: set<nat>, skipped': set<nat> |
        CallsInOrder(ops) && SweptUnder(initial, ops, atSweep, atCall, lead)
        ensures SameAnswers(initial, ops, skipped, skipped')
      {
        SweptUnderIsSafe(initial, ops, atSweep, atCall, lead);
        forall i | 0 <= i < |ops| && ops[i].Call?
          ensures Answer(initial, ops, i, skipped) <==> Answer(initial, ops, i, skipped')
        {
          SweepsUnobservable(initial, ops, i, skipped, skipped');
        }
      }
    } else if atCall.Full() > Room(atSweep, lead) {
      FullBucketTells(atSweep, atCall, lead);
    } else {
      EmptyBucketTells(atSweep, atCall, lead);
    }
  }

  /** At fixed limits, in particular, a sweep is unobservable exactly when it never overtakes a call. */
  lemma FixedLimitsAllowNoLead(limits: Limits, lead: real)
    requires limits.rate > 0.0 && limits.capacity > 0 && lead >= 0.0
    ensures Unobservable(limits, limits, lead) <==> lead == 0.0
  {
    SweepConditionIsExact(limits, limits, lead);
    ProductNonNegative(lead, limits.rate);
    CancelPositive(0.0, lead, limits.rate);
  }

  lemma SweptUnderIsSafe(initial: Limits, ops: seq<Op>, atSweep: Limits, atCall: Limits, lead: real)
    requires atCall.rate > 0.0 && NoMoreGenerous(atSweep, atCall, lead) && SweptUnder(initial, ops, atSweep, atCall, lead)
    ensures SweptSafely(initial, ops)
  {
    forall i, j | 0 <= i < j < |ops| && NextDecided(initial, ops, i, j)
      ensures NoMoreGenerous(LimitsAt(initial, ops, i), LimitsAt(initial, ops, j), Lead(ops, i, j))
    {
      LessLeadLeavesMoreRoom(atSweep, atCall, Lead(ops, i, j), lead);
    }
  }

  lemma LessLeadLeavesMoreRoom(atSweep: Limits, atCall: Limits, less: real, lead: real)
    requires atCall.rate > 0.0 && less <= lead && NoMoreGenerous(atSweep, atCall, lead)
    ensures NoMoreGenerous(atSweep, atCall, less)
  {
    ProductMonotone(less, lead, Max(atSweep.rate, 0.0));
    ProductMonotone(Room(atSweep, lead), Room(atSweep, less), atCall.rate);
  }

  /** A bucket that holds just what `lead` seconds will fill up, called before those have passed. */
  lemma FullBucketTells(atSweep: Limits, atCall: Limits, lead: real)
    requires atCall.rate > 0.0 && lead >= 0.0 && atCall.Full() > Room(atSweep, lead)
    ensures !Unobservable(atSweep, atCall, lead)
  {
    var swept := if atSweep.rate > 0.0 then lead else 0.0;
    TelltaleTells(Room(atSweep, lead), swept, 0.0, atSweep, atCall, lead);
  }

  lemma PositiveFactor(x: real, y: real)
    requires x >= 0.0
    ensures x * y > 0.0 ==> y > 0.0
  {
    if y <= 0.0 {
      ProductNonNegative(x, -y);
      assert x * -y == -(x * y);
    }
  }

  /** An empty bucket that fills under the sweep's rate but not under the call's. */
  lemma EmptyBucketTells(atSweep: Limits, atCall: Limits, lead: real)
    requires atCall.rate > 0.0 && lead >= 0.0 && atCall.Full() <= Room(atSweep, lead)
    requires atCall.Full() * atSweep.rate > Room(atSweep, lead) * atCall.rate
    ensures !Unobservable(atSweep, atCall, lead)
  {
    var room, r := Room(atSweep, lead), atSweep.rate;
    ProductNonNegative(room, atCall.rate);
    PositiveFactor(atCall.Full(), r);
    assert atCall.capacity > 0;
    var at := room / r;
    assert at * r == room;
    CancelPositive(at, 0.0, r);
    CancelPositive(at * atCall.rate, atCall.Full(), r);
    assert (at * atCall.rate) * r == room * atCall.rate;
    assert (at + lead) * r == at * r + lead * r;
    TelltaleTells(0.0, at + lead, at, atSweep, atCall, lead);
  }

  /** When `ip`'s bucket was last touched: its latest decided call before position `n`. */
  function LastTouch(initial: Limits, ops: seq<Op>, n: nat, ip: IpAddr): Option<real>
    requires n <= |ops|
  {
    if n == 0 then None
    else if GatedCall(initial, ops, n - 1, ip) then Some(ops[n - 1].now)
    else LastTouch(initial, ops, n - 1, ip)
  }

  lemma {:induction false} BucketsRememberLastTouch(initial: Limits, ops: seq<Op>, n: nat, skipped: set<nat>, ip: IpAddr)
    requires n <= |ops|
    ensures ip in TableAt(initial, ops, n, skipped) ==>
              LastTouch(initial, ops, n, ip) == Some(TableAt(initial, ops, n, skipped)[ip].lastRefill)
  {
    if n > 0 {
      BucketsRememberLastTouch(initial, ops, n - 1, skipped, ip);
    }
  }

  /** `last` is later than `now` minus the time an empty bucket takes to fill (stated without dividing). */
  predicate WithinRefillTime(last: real, now: real, limits: Limits) {
    (now - last) * limits.rate < limits.Full()
  }

  /**
   * The memory bound: whatever limits were in force before, every bucket that survives a sweep under
   * capacity C and rate r belongs to an address whose last decided call came after now - C/r.
   */
  lemma SurvivorsAreRecent(initial: Limits, ops: seq<Op>, i: nat, ip: IpAddr)
    requires i < |ops| && ops[i].Sweep? && LimitsAt(initial, ops, i).rate > 0.0
    requires ip in TableAt(initial, ops, i + 1, {})
    ensures LastTouch(initial, ops, i, ip).Some?
    ensures WithinRefillTime(LastTouch(initial, ops, i, ip).value, ops[i].now, LimitsAt(initial, ops, i))
  {
    var before, limits := TableAt(initial, ops, i, {}), LimitsAt(initial, ops, i);
    assert ip in before && ip in AfterSweep(before, ops[i].now, limits);
    TableStaysNonNegative(initial, ops, i, {});
    BucketsRememberLastTouch(initial, ops, i, {}, ip);
    SurvivorIsRecent(before, ops[i].now, limits, ip);
  }

  lemma SurvivorIsRecent(before: Buckets, now: real, limits: Limits, ip: IpAddr)
    requires NonNegative(before) && limits.rate > 0.0 && ip in AfterSweep(before, now, limits)
    ensures WithinRefillTime(before[ip].lastRefill, now, limits)
  {
    SaturatedElapsed(before[ip].tokens, now, before[ip].lastRefill, limits.rate, limits.Full());
  }

  lemma SaturatedElapsed(tokens: real, now: real, last: real, rate: real, full: real)
    requires tokens >= 0.0 && rate > 0.0 && tokens + Elapsed(now, last) * rate < full
    ensures (now - last) * rate < full
  {
    if now < last {
      ProductNonNegative(last - now, rate);
      assert (now - last) * rate == -((last - now) * rate);
    }
  }
}
