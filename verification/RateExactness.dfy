/**
 * At fixed limits the one-number bucket decides exactly as a rule over the whole request history
 * would: admit a call unless some window of past calls, ending at it, would then hold more than
 * capacity + rate * length admissions.
 */
module RateExactness {
  import opened Common
  import opened TokenBucket
  import opened RateRuns

  ghost predicate FixedLimits(ops: seq<Op>) {
    forall i :: 0 <= i < |ops| ==> !ops[i].SetLimit?
  }

  /** How many of the calls from `ip` at positions lo..hi are admitted by `decisions`. */
  function Admissions(ops: seq<Op>, decisions: seq<bool>, ip: IpAddr, lo: nat, hi: nat): nat
    requires lo <= hi <= |ops| == |decisions|
  {
    if lo == hi then 0
    else Admissions(ops, decisions, ip, lo, hi - 1) + if CallFrom(ops, hi - 1, ip) && decisions[hi - 1] then 1 else 0
  }

  /** The room left at time `now` in the window that opens with the call at position `k`. */
  function WindowRoom(limits: Limits, ops: seq<Op>, decisions: seq<bool>, k: nat, n: nat, now: real): real
    requires k < n <= |ops| == |decisions| && ops[k].Call?
  {
    limits.Full() + (now - ops[k].now) * limits.rate - Admissions(ops, decisions, ops[k].ip, k, n) as real
  }

  /** The history rule for the call at position `i`: it fits every window of its own address's calls. */
  ghost predicate FitsEveryWindow(limits: Limits, ops: seq<Op>, decisions: seq<bool>, i: nat)
    requires i < |ops| == |decisions| && ops[i].Call?
  {
    && limits.Full() >= 1.0
    && forall k :: 0 <= k < i && CallFrom(ops, k, ops[i].ip) ==>
         WindowRoom(limits, ops, decisions, k, i, ops[i].now) >= 1.0
  }

  /** `decisions` follows the history rule at every call that is not from loopback. */
  ghost predicate ObeysWindowRule(limits: Limits, ops: seq<Op>, decisions: seq<bool>) {
    && |decisions| == |ops|
    && forall i :: 0 <= i < |ops| && ops[i].Call? && !ops[i].ip.IsLoopback() ==>
         (decisions[i] <==> FitsEveryWindow(limits, ops, decisions, i))
  }

  ghost predicate AreTheAnswers(limits: Limits, ops: seq<Op>, decisions: seq<bool>) {
    && |decisions| == |ops|
    && forall i :: 0 <= i < |ops| && ops[i].Call? && !ops[i].ip.IsLoopback() ==>
         (decisions[i] <==> Answer(limits, ops, i, {}))
  }

  /** `now` is no earlier than anything that happened before position `n`. */
  ghost predicate NotBefore(ops: seq<Op>, n: nat, now: real)
    requires n <= |ops| && FixedLimits(ops)
  {
    forall k :: 0 <= k < n ==> ops[k].now <= now
  }

  lemma {:induction false} LimitsNeverChange(limits: Limits, ops: seq<Op>, n: nat)
    requires FixedLimits(ops) && n <= |ops|
    ensures LimitsAt(limits, ops, n) == limits
  {
    if n > 0 {
      LimitsNeverChange(limits, ops, n - 1);
    }
  }

  /** A sweep leaves every address's level as it was, from the sweep's own reading onwards. */
  lemma SweepKeepsLevel(buckets: Buckets, swept: real, limits: Limits, ip: IpAddr, now: real)
    requires limits.rate > 0.0 && swept <= now
    ensures Level(AfterSweep(buckets, swept, limits), ip, now, limits) == Level(buckets, ip, now, limits)
  {
    if ip in buckets {
      AccruedMonotone(buckets[ip], swept, now, limits.rate);
    }
  }

  /** What is left of a level after deciding a call at `at`, seen later. */
  lemma CallThenWait(buckets: Buckets, ip: IpAddr, at: real, now: real, limits: Limits)
    requires Gated(ip, limits) && at <= now
    ensures Level(AfterCall(buckets, ip, at, limits), ip, now, limits)
         == Min(Level(buckets, ip, at, limits) - (if Allowed(buckets, ip, at, limits) then 1.0 else 0.0)
                + (now - at) * limits.rate,
                limits.Full())
  {}

  lemma WindowRoomGrows(limits: Limits, ops: seq<Op>, decisions: seq<bool>, k: nat, n: nat, at: real, now: real)
    requires k < n < |ops| == |decisions| && ops[k].Call?
    ensures WindowRoom(limits, ops, decisions, k, n + 1, now)
         == WindowRoom(limits, ops, decisions, k, n, at) + (now - at) * limits.rate
            - (if CallFrom(ops, n, ops[k].ip) && decisions[n] then 1.0 else 0.0)
  {
    assert (now - ops[k].now) * limits.rate == (at - ops[k].now) * limits.rate + (now - at) * limits.rate;
  }

  /** The bucket's level is the room in the tightest window, or the capacity when no window is tighter. */
  ghost predicate LevelIsTightestWindow(limits: Limits, ops: seq<Op>, decisions: seq<bool>, n: nat, ip: IpAddr, now: real)
    requires n <= |ops| == |decisions|
  {
    var level := Level(TableAt(limits, ops, n, {}), ip, now, limits);
    && (forall k :: 0 <= k < n && CallFrom(ops, k, ip) ==> level <= WindowRoom(limits, ops, decisions, k, n, now))
    && (level == limits.Full()
        || exists k :: 0 <= k < n && CallFrom(ops, k, ip) && level == WindowRoom(limits, ops, decisions, k, n, now))
  }

  lemma {:induction false} LevelTracksWindows(limits: Limits, ops: seq<Op>, decisions: seq<bool>, n: nat, ip: IpAddr, now: real)
    requires Timely(ops) && FixedLimits(ops) && limits.rate > 0.0 && !ip.IsLoopback()
    requires n <= |ops| == |decisions|
    requires forall i :: 0 <= i < n && CallFrom(ops, i, ip) ==> (decisions[i] <==> Answer(limits, ops, i, {}))
    requires NotBefore(ops, n, now)
    ensures LevelIsTightestWindow(limits, ops, decisions, n, ip, now)
  {
    if n > 0 {
      if CallFrom(ops, n - 1, ip) {
        LevelTracksWindows(limits, ops, decisions, n - 1, ip, ops[n - 1].now);
        CallStepTracksWindows(limits, ops, decisions, n, ip, now);
      } else {
        LevelTracksWindows(limits, ops, decisions, n - 1, ip, now);
        OtherStepTracksWindows(limits, ops, decisions, n, ip, now);
      }
    }
  }

  lemma OtherStepTracksWindows(limits: Limits, ops: seq<Op>, decisions: seq<bool>, n: nat, ip: IpAddr, now: real)
    requires FixedLimits(ops) && limits.rate > 0.0
    requires 0 < n <= |ops| == |decisions| && !CallFrom(ops, n - 1, ip) && ops[n - 1].now <= now
    requires LevelIsTightestWindow(limits, ops, decisions, n - 1, ip, now)
    ensures LevelIsTightestWindow(limits, ops, decisions, n, ip, now)
  {
    LimitsNeverChange(limits, ops, n - 1);
    if ops[n - 1].Sweep? {
      SweepKeepsLevel(TableAt(limits, ops, n - 1, {}), ops[n - 1].now, limits, ip, now);
    }
    forall k | 0 <= k < n - 1 && CallFrom(ops, k, ip)
      ensures WindowRoom(limits, ops, decisions, k, n, now) == WindowRoom(limits, ops, decisions, k, n - 1, now)
    {
      WindowRoomGrows(limits, ops, decisions, k, n - 1, now, now);
    }
  }

  lemma CallStepTracksWindows(limits: Limits, ops: seq<Op>, decisions: seq<bool>, n: nat, ip: IpAddr, now: real)
    requires FixedLimits(ops) && Gated(ip, limits)
    requires 0 < n <= |ops| == |decisions| && CallFrom(ops, n - 1, ip) && ops[n - 1].now <= now
    requires decisions[n - 1] <==> Answer(limits, ops, n - 1, {})
    requires LevelIsTightestWindow(limits, ops, decisions, n - 1, ip, ops[n - 1].now)
    ensures LevelIsTightestWindow(limits, ops, decisions, n, ip, now)
  {
    LimitsNeverChange(limits, ops, n - 1);
    var before := TableAt(limits, ops, n - 1, {});
    var at := ops[n - 1].now;
    var level, wait := Level(before, ip, at, limits), (now - at) * limits.rate;
    var spent := if decisions[n - 1] then 1.0 else 0.0;
    CallThenWait(before, ip, at, now, limits);
    ProductNonNegative(now - at, limits.rate);
    var level' := Level(TableAt(limits, ops, n, {}), ip, now, limits);
    forall k | 0 <= k < n && CallFrom(ops, k, ip)
      ensures WindowRoom(limits, ops, decisions, k, n, now)
           == (if k < n - 1 then WindowRoom(limits, ops, decisions, k, n - 1, at) else limits.Full()) + wait - spent
    {
      WindowStep(limits, ops, decisions, k, n - 1, at, now);
    }
    TightestAfterStep(limits, ops, decisions, n, ip, now, level, level', wait, spent);
  }

  lemma WindowStep(limits: Limits, ops: seq<Op>, decisions: seq<bool>, k: nat, n: nat, at: real, now: real)
    requires k <= n < |ops| == |decisions| && ops[k].Call? && CallFrom(ops, n, ops[k].ip) && at == ops[n].now
    ensures WindowRoom(limits, ops, decisions, k, n + 1, now)
         == (if k < n then WindowRoom(limits, ops, decisions, k, n, at) else limits.Full())
            + (now - at) * limits.rate - (if decisions[n] then 1.0 else 0.0)
  {
    if k < n {
      WindowRoomGrows(limits, ops, decisions, k, n, at, now);
    } else {
      LastWindow(limits, ops, decisions, k, now);
    }
  }

  /** If every window gains `wait` and loses `spent`, and the level does too below the cap, the minimum is kept. */
  lemma TightestAfterStep(limits: Limits, ops: seq<Op>, decisions: seq<bool>, n: nat, ip: IpAddr, now: real,
                          level: real, level': real, wait: real, spent: real)
    requires 0 < n <= |ops| == |decisions| && CallFrom(ops, n - 1, ip)
    requires level' == Min(level - spent + wait, limits.Full()) && level <= limits.Full()
    requires level' == Level(TableAt(limits, ops, n, {}), ip, now, limits)
    requires forall k :: 0 <= k < n && CallFrom(ops, k, ip) ==>
               WindowRoom(limits, ops, decisions, k, n, now)
               == (if k < n - 1 then WindowRoom(limits, ops, decisions, k, n - 1, ops[n - 1].now) else limits.Full())
                  + wait - spent
    requires LevelIsTightestWindow(limits, ops, decisions, n - 1, ip, ops[n - 1].now)
    requires level == Level(TableAt(limits, ops, n - 1, {}), ip, ops[n - 1].now, limits)
    ensures LevelIsTightestWindow(limits, ops, decisions, n, ip, now)
  {
    if level' != limits.Full() {
      if level == limits.Full() {
        assert level' == WindowRoom(limits, ops, decisions, n - 1, n, now);
      } else {
        var k :| 0 <= k < n - 1 && CallFrom(ops, k, ip)
                 && level == WindowRoom(limits, ops, decisions, k, n - 1, ops[n - 1].now);
        assert level' == WindowRoom(limits, ops, decisions, k, n, now);
      }
    }
  }

  lemma LastWindow(limits: Limits, ops: seq<Op>, decisions: seq<bool>, k: nat, now: real)
    requires k < |ops| == |decisions| && ops[k].Call?
    ensures WindowRoom(limits, ops, decisions, k, k + 1, now)
         == limits.Full() + (now - ops[k].now) * limits.rate - (if decisions[k] then 1.0 else 0.0)
  {
    assert Admissions(ops, decisions, ops[k].ip, k, k) == 0;
  }

  /**
   * The bucket refines the history rule: provided the earlier decisions on this address were the
   * limiter's own, a call is admitted exactly when it fits every window.
   */
  lemma AnswerIsWindowRule(limits: Limits, ops: seq<Op>, decisions: seq<bool>, i: nat)
    requires Timely(ops) && FixedLimits(ops) && limits.rate > 0.0
    requires i < |ops| == |decisions| && ops[i].Call? && !ops[i].ip.IsLoopback()
    requires forall k :: 0 <= k < i && CallFrom(ops, k, ops[i].ip) ==> (decisions[k] <==> Answer(limits, ops, k, {}))
    ensures Answer(limits, ops, i, {}) <==> FitsEveryWindow(limits, ops, decisions, i)
  {
    LimitsNeverChange(limits, ops, i);
    LevelTracksWindows(limits, ops, decisions, i, ops[i].ip, ops[i].now);
  }

  /**
   * Both directions over whole histories: the limiter's answers obey the history rule, and no other
   * sequence of decisions does.
   */
  lemma LimiterIsTheWindowRule(limits: Limits, ops: seq<Op>, decisions: seq<bool>)
    requires Timely(ops) && FixedLimits(ops) && limits.rate > 0.0
    ensures ObeysWindowRule(limits, ops, decisions) <==> AreTheAnswers(limits, ops, decisions)
  {
    if |decisions| == |ops| {
      if ObeysWindowRule(limits, ops, decisions) {
        RuleDeterminesAnswers(limits, ops, decisions, |ops|);
      }
      if AreTheAnswers(limits, ops, decisions) {
        forall i | 0 <= i < |ops| && ops[i].Call? && !ops[i].ip.IsLoopback()
          ensures decisions[i] <==> FitsEveryWindow(limits, ops, decisions, i)
        {
          AnswerIsWindowRule(limits, ops, decisions, i);
        }
      }
    }
  }

  lemma {:induction false} RuleDeterminesAnswers(limits: Limits, ops: seq<Op>, decisions: seq<bool>, n: nat)
    requires Timely(ops) && FixedLimits(ops) && limits.rate > 0.0
    requires ObeysWindowRule(limits, ops, decisions) && n <= |ops|
    ensures forall i :: 0 <= i < n && ops[i].Call? && !ops[i].ip.IsLoopback() ==>
              (decisions[i] <==> Answer(limits, ops, i, {}))
  {
    if n > 0 {
      RuleDeterminesAnswers(limits, ops, decisions, n - 1);
      if ops[n - 1].Call? && !ops[n - 1].ip.IsLoopback() {
        AnswerIsWindowRule(limits, ops, decisions, n - 1);
      }
    }
  }
}
