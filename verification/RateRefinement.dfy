/**
 * The two views of the rate limiter agree: every history of whole operations, carried out access by
 * access, is a run of the staged system that leaves the same table and limits and admits the same calls.
 * So the bounds of the staged system hold of the limiter, and its steps are the limiter's own.
 */
module RateRefinement {
  import opened Common
  import opened TokenBucket
  import RateBound
  import RateRuns

  /** The shared accesses of one operation under `limits`, in program order. */
  function Staged(op: RateRuns.Op, limits: Limits): seq<RateBound.Step> {
    match op
    case Call(ip, now) =>
      [RateBound.LoadCapacity(ip), RateBound.LoadRate]
      + if limits.rate <= 0.0 || ip.IsLoopback() then [] else [RateBound.Decide(now)]
    case Sweep(now) => [RateBound.SweepLoadCapacity, RateBound.SweepLoadRate, RateBound.Retain(now)]
    case SetLimit(next) => [RateBound.StoreCapacity(next.capacity), RateBound.StoreRate(next.rate)]
  }

  /** The first `n` operations, one after the other. */
  function AllStaged(initial: Limits, ops: seq<RateRuns.Op>, n: nat): seq<RateBound.Step>
    requires n <= |ops|
  {
    if n == 0 then [] else AllStaged(initial, ops, n - 1) + Staged(ops[n - 1], RateRuns.LimitsAt(initial, ops, n - 1))
  }

  function Start(initial: Limits): RateBound.State {
    RateBound.State(map[], initial.capacity, initial.rate, 0.0, RateBound.Resting, RateBound.Idle)
  }

  /** No operation is under way, and the shared cells are these. */
  predicate Holds(s: RateBound.State, buckets: Buckets, limits: Limits) {
    s.buckets == buckets && s.capacity == limits.capacity && s.rate == limits.rate && s.caller.Resting? && s.sweeper.Idle?
  }

  function OpAfter(op: RateRuns.Op, buckets: Buckets, limits: Limits): Buckets {
    match op
    case Call(ip, now) => AfterCall(buckets, ip, now, limits)
    case Sweep(now) => AfterSweep(buckets, now, limits)
    case SetLimit(_) => buckets
  }

  /** Whether the operation is a call from `ip` that a bucket admits. */
  predicate Admits(op: RateRuns.Op, buckets: Buckets, limits: Limits, ip: IpAddr) {
    op.Call? && op.ip == ip && Gated(ip, limits) && Allowed(buckets, ip, op.now, limits)
  }

  /** How many of `ip`'s calls a bucket decides and admits. */
  function Admissions(initial: Limits, ops: seq<RateRuns.Op>, n: nat, ip: IpAddr): nat
    requires n <= |ops|
  {
    if n == 0 then 0
    else Admissions(initial, ops, n - 1, ip)
         + if RateRuns.GatedCall(initial, ops, n - 1, ip) && RateRuns.Answer(initial, ops, n - 1, {}) then 1 else 0
  }

  lemma RunOfTwo(s: RateBound.State, a: RateBound.Step, b: RateBound.Step, ip: IpAddr)
    requires RateBound.Enabled(s, a) && RateBound.Enabled(RateBound.Next(s, a), b)
    ensures RateBound.ValidRun(s, [a, b]) && RateBound.After(s, [a, b]) == RateBound.Next(RateBound.Next(s, a), b)
    ensures RateBound.Admissions(s, [a, b], ip) == RateBound.Admitted(s, a, ip) + RateBound.Admitted(RateBound.Next(s, a), b, ip)
  {
    var s1 := RateBound.Next(s, a);
    var s2 := RateBound.Next(s1, b);
    assert [a, b][1..] == [b] && [b][1..] == [];
    assert RateBound.ValidRun(s2, []) && RateBound.After(s2, []) == s2 && RateBound.Admissions(s2, [], ip) == 0;
    assert RateBound.ValidRun(s1, [b]) && RateBound.After(s1, [b]) == s2;
  }

  lemma RunOfThree(s: RateBound.State, a: RateBound.Step, b: RateBound.Step, c: RateBound.Step, ip: IpAddr)
    requires RateBound.Enabled(s, a) && RateBound.Enabled(RateBound.Next(s, a), b)
    requires RateBound.Enabled(RateBound.Next(RateBound.Next(s, a), b), c)
    ensures var s1, s2 := RateBound.Next(s, a), RateBound.Next(RateBound.Next(s, a), b);
            && RateBound.ValidRun(s, [a, b, c]) && RateBound.After(s, [a, b, c]) == RateBound.Next(s2, c)
            && RateBound.Admissions(s, [a, b, c], ip)
               == RateBound.Admitted(s, a, ip) + RateBound.Admitted(s1, b, ip) + RateBound.Admitted(s2, c, ip)
  {
    RunOfTwo(RateBound.Next(s, a), b, c, ip);
    assert [a, b, c][1..] == [b, c];
  }

  lemma OneOperation(s: RateBound.State, op: RateRuns.Op, buckets: Buckets, limits: Limits, ip: IpAddr)
    requires Holds(s, buckets, limits)
    ensures RateBound.ValidRun(s, Staged(op, limits))
    ensures Holds(RateBound.After(s, Staged(op, limits)), OpAfter(op, buckets, limits), if op.SetLimit? then op.limits else limits)
    ensures RateBound.Admissions(s, Staged(op, limits), ip) == if Admits(op, buckets, limits, ip) then 1 else 0
  {
    match op {
      case Call(from, now) =>
        if Gated(from, limits) {
          RunOfThree(s, RateBound.LoadCapacity(from), RateBound.LoadRate, RateBound.Decide(now), ip);
          assert Staged(op, limits) == [RateBound.LoadCapacity(from), RateBound.LoadRate, RateBound.Decide(now)];
        } else {
          RunOfTwo(s, RateBound.LoadCapacity(from), RateBound.LoadRate, ip);
          assert Staged(op, limits) == [RateBound.LoadCapacity(from), RateBound.LoadRate];
        }
      case Sweep(now) =>
        RunOfThree(s, RateBound.SweepLoadCapacity, RateBound.SweepLoadRate, RateBound.Retain(now), ip);
      case SetLimit(next) =>
        RunOfTwo(s, RateBound.StoreCapacity(next.capacity), RateBound.StoreRate(next.rate), ip);
    }
  }

  lemma AfterAnOperation(start: RateBound.State, before: seq<RateBound.Step>, op: RateRuns.Op, buckets: Buckets, limits: Limits,
                         ip: IpAddr)
    requires RateBound.ValidRun(start, before) && Holds(RateBound.After(start, before), buckets, limits)
    ensures var all := before + Staged(op, limits);
            && RateBound.ValidRun(start, all)
            && Holds(RateBound.After(start, all), OpAfter(op, buckets, limits), if op.SetLimit? then op.limits else limits)
            && RateBound.Admissions(start, all, ip)
               == RateBound.Admissions(start, before, ip) + if Admits(op, buckets, limits, ip) then 1 else 0
  {
    OneOperation(RateBound.After(start, before), op, buckets, limits, ip);
    RateBound.RunsCompose(start, before, Staged(op, limits), ip, 0, 0.0);
  }

  lemma HistoryStep(initial: Limits, ops: seq<RateRuns.Op>, n: nat, ip: IpAddr)
    requires 0 < n <= |ops|
    ensures var op, buckets, limits := ops[n - 1], RateRuns.TableAt(initial, ops, n - 1, {}), RateRuns.LimitsAt(initial, ops, n - 1);
            && RateRuns.TableAt(initial, ops, n, {}) == OpAfter(op, buckets, limits)
            && RateRuns.LimitsAt(initial, ops, n) == (if op.SetLimit? then op.limits else limits)
            && Admissions(initial, ops, n, ip)
               == Admissions(initial, ops, n - 1, ip) + if Admits(op, buckets, limits, ip) then 1 else 0
  {}

  /** Every history of the limiter is a run of the staged system, with the same table, limits and admissions. */
  lemma {:induction false} HistoriesAreStagedRuns(initial: Limits, ops: seq<RateRuns.Op>, n: nat, ip: IpAddr)
    requires n <= |ops|
    ensures RateBound.ValidRun(Start(initial), AllStaged(initial, ops, n))
    ensures Holds(RateBound.After(Start(initial), AllStaged(initial, ops, n)),
                  RateRuns.TableAt(initial, ops, n, {}), RateRuns.LimitsAt(initial, ops, n))
    ensures RateBound.Admissions(Start(initial), AllStaged(initial, ops, n), ip) == Admissions(initial, ops, n, ip)
  {
    if n > 0 {
      HistoriesAreStagedRuns(initial, ops, n - 1, ip);
      HistoryStep(initial, ops, n, ip);
      AfterAnOperation(Start(initial), AllStaged(initial, ops, n - 1), ops[n - 1],
                       RateRuns.TableAt(initial, ops, n - 1, {}), RateRuns.LimitsAt(initial, ops, n - 1), ip);
    }
  }
}
