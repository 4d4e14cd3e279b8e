/**
 * Runs of the rate limiter: any interleaving of calls from any addresses, sweeps and limit changes,
 * from the empty table. A run may leave out some of its sweeps, which is how two runs that sweep
 * differently are compared.
 */
module RateRuns {
  import opened Common
  import opened TokenBucket

  datatype Op =
    | Call(ip: IpAddr, now: real)
    | Sweep(now: real)
    | SetLimit(limits: Limits)

  /** The accept loop is the only caller, so calls read the clock in the order in which they are decided. */
  ghost predicate CallsInOrder(ops: seq<Op>) {
    forall i, j :: 0 <= i < j < |ops| && ops[i].Call? && ops[j].Call? ==> ops[i].now <= ops[j].now
  }

  /** No call read the clock before a sweep that took the lock first. A sweep's own reading may be stale. */
  ghost predicate NoCallOvertaken(ops: seq<Op>) {
    forall i, j :: 0 <= i < j < |ops| && ops[i].Sweep? && ops[j].Call? ==> ops[i].now <= ops[j].now
  }

  ghost predicate Timely(ops: seq<Op>) {
    CallsInOrder(ops) && NoCallOvertaken(ops)
  }

  /** The limits in force just before operation `n`. */
  function LimitsAt(initial: Limits, ops: seq<Op>, n: nat): Limits
    requires n <= |ops|
  {
    if n == 0 then initial
    else if ops[n - 1].SetLimit? then ops[n - 1].limits
    else LimitsAt(initial, ops, n - 1)
  }

  /** The table just before operation `n`, when the sweeps at the `skipped` positions do not happen. */
  function TableAt(initial: Limits, ops: seq<Op>, n: nat, skipped: set<nat>): Buckets
    requires n <= |ops|
  {
    if n == 0 then map[]
    else
      var before := TableAt(initial, ops, n - 1, skipped);
      var limits := LimitsAt(initial, ops, n - 1);
      match ops[n - 1]
      case Call(ip, now) => AfterCall(before, ip, now, limits)
      case Sweep(now) => if n - 1 in skipped then before else AfterSweep(before, now, limits)
      case SetLimit(_) => before
  }

  /** The answer the call at position `i` gets. */
  predicate Answer(initial: Limits, ops: seq<Op>, i: nat, skipped: set<nat>)
    requires i < |ops| && ops[i].Call?
  {
    Allowed(TableAt(initial, ops, i, skipped), ops[i].ip, ops[i].now, LimitsAt(initial, ops, i))
  }

  predicate CallFrom(ops: seq<Op>, i: nat, ip: IpAddr)
    requires i < |ops|
  {
    ops[i].Call? && ops[i].ip == ip
  }

  /** A call that a bucket decided: the limiter was enabled and the address is not loopback. */
  predicate GatedCall(initial: Limits, ops: seq<Op>, i: nat, ip: IpAddr)
    requires i < |ops|
  {
    CallFrom(ops, i, ip) && Gated(ip, LimitsAt(initial, ops, i))
  }

  /** `tokens >= 0` holds over every run, whatever the limits and the clock readings. */
  lemma {:induction false} TableStaysNonNegative(initial: Limits, ops: seq<Op>, n: nat, skipped: set<nat>)
    requires n <= |ops|
    ensures NonNegative(TableAt(initial, ops, n, skipped))
  {
    if n > 0 {
      TableStaysNonNegative(initial, ops, n - 1, skipped);
      var before := TableAt(initial, ops, n - 1, skipped);
      var limits := LimitsAt(initial, ops, n - 1);
      match ops[n - 1] {
        case Call(ip, now) => TokensStayNonNegative(before, ip, now, limits);
        case Sweep(now) => TokensStayNonNegative(before, V6(1), now, limits);
        case SetLimit(_) =>
      }
    }
  }

  /** In every run a call from loopback, or while the limiter is disabled, is allowed and touches no bucket. */
  lemma ExemptCallsPass(initial: Limits, ops: seq<Op>, i: nat, skipped: set<nat>)
    requires i < |ops| && ops[i].Call?
    requires ops[i].ip.IsLoopback() || LimitsAt(initial, ops, i).rate <= 0.0
    ensures Answer(initial, ops, i, skipped)
    ensures TableAt(initial, ops, i + 1, skipped) == TableAt(initial, ops, i, skipped)
  {}

  /** No run ever tracks a loopback address. */
  lemma {:induction false} LoopbackIsNeverTracked(initial: Limits, ops: seq<Op>, n: nat, skipped: set<nat>)
    requires n <= |ops|
    ensures forall ip :: ip in TableAt(initial, ops, n, skipped) ==> !ip.IsLoopback()
  {
    if n > 0 {
      LoopbackIsNeverTracked(initial, ops, n - 1, skipped);
    }
  }
}
