/**
 * The per-IP token bucket of src/rate_limiter.rs: buckets are created on first sight, refilled
 * lazily by the next call, and forgotten by a periodic sweep. Floating-point numbers are reals and
 * instants are seconds on a real time line.
 */
module TokenBucket {
  import opened Common

  datatype Bucket = Bucket(tokens: real, lastRefill: real)

  type Buckets = map<IpAddr, Bucket>

  datatype Limits = Limits(capacity: nat, rate: real) {
    function Full(): real {
      capacity as real
    }
  }

  /** `saturating_duration_since`: a clock reading from before the last refill counts as no time. */
  function Elapsed(now: real, last: real): real {
    if last <= now then now - last else 0.0
  }

  /** What a bucket holds, before the cap, at `now`. */
  function Accrued(b: Bucket, now: real, rate: real): real {
    b.tokens + Elapsed(now, b.lastRefill) * rate
  }

  /** What a call from `ip` at `now` would find: a bucket never seen counts as full. */
  function Level(buckets: Buckets, ip: IpAddr, now: real, limits: Limits): real {
    if ip in buckets then Min(Accrued(buckets[ip], now, limits.rate), limits.Full()) else limits.Full()
  }

  /** Whether a call is decided by a bucket at all. */
  predicate Gated(ip: IpAddr, limits: Limits) {
    limits.rate > 0.0 && !ip.IsLoopback()
  }

  predicate Allowed(buckets: Buckets, ip: IpAddr, now: real, limits: Limits) {
    Gated(ip, limits) ==> Level(buckets, ip, now, limits) >= 1.0
  }

  function AfterCall(buckets: Buckets, ip: IpAddr, now: real, limits: Limits): Buckets {
    if !Gated(ip, limits) then buckets
    else
      var level := Level(buckets, ip, now, limits);
      buckets[ip := Bucket(if level >= 1.0 then level - 1.0 else level, now)]
  }

  function AfterSweep(buckets: Buckets, now: real, limits: Limits): Buckets {
    map ip | ip in buckets && Accrued(buckets[ip], now, limits.rate) < limits.Full() :: buckets[ip]
  }

  ghost predicate NonNegative(buckets: Buckets) {
    forall ip :: ip in buckets ==> buckets[ip].tokens >= 0.0
  }

  /** No operation, under any limits and any clock reading, drives a bucket below zero. */
  lemma TokensStayNonNegative(buckets: Buckets, ip: IpAddr, now: real, limits: Limits)
    requires NonNegative(buckets)
    ensures NonNegative(AfterCall(buckets, ip, now, limits))
    ensures NonNegative(AfterSweep(buckets, now, limits))
    ensures limits.rate >= 0.0 ==> Level(buckets, ip, now, limits) >= 0.0
  {
    if limits.rate >= 0.0 && ip in buckets {
      ProductNonNegative(Elapsed(now, buckets[ip].lastRefill), limits.rate);
    }
  }

  /** Waiting longer never lowers what a bucket holds. */
  lemma AccruedMonotone(b: Bucket, now: real, later: real, rate: real)
    requires now <= later && rate >= 0.0
    ensures Accrued(b, now, rate) <= Accrued(b, later, rate)
  {
    ProductMonotone(Elapsed(now, b.lastRefill), Elapsed(later, b.lastRefill), rate);
  }

  /** The shared limiter. Its two atomics are plain fields here; RateBound takes their accesses apart. */
  class RateLimiter {
    var buckets: Buckets
    var capacity: nat
    var refillPerSec: real

    ghost predicate Valid()
      reads this
    {
      NonNegative(buckets)
    }

    function CurrentLimits(): Limits
      reads this
    {
      Limits(capacity, refillPerSec)
    }

    constructor (ratePerSec: real, burst: nat)
      ensures Valid()
      ensures buckets == map[] && CurrentLimits() == Limits(burst, ratePerSec)
    {
      buckets := map[];
      capacity := burst;
      refillPerSec := ratePerSec;
    }

    method SetLimit(ratePerSec: real, burst: nat)
      requires Valid()
      modifies this
      ensures Valid()
      ensures buckets == old(buckets) && CurrentLimits() == Limits(burst, ratePerSec)
    {
      capacity := burst;
      refillPerSec := ratePerSec;
    }

    method Allow(ip: IpAddr, now: real) returns (allowed: bool)
      requires Valid()
      modifies this
      ensures Valid()
      ensures CurrentLimits() == old(CurrentLimits())
      ensures allowed == old(Allowed(buckets, ip, now, CurrentLimits()))
      ensures buckets == old(AfterCall(buckets, ip, now, CurrentLimits()))
      ensures old(refillPerSec) <= 0.0 || ip.IsLoopback() ==> allowed && buckets == old(buckets)
    {
      TokensStayNonNegative(buckets, ip, now, CurrentLimits());
      var full := capacity as real;
      if refillPerSec <= 0.0 || ip.IsLoopback() {
        return true;
      }
      if ip !in buckets {
        buckets := buckets[ip := Bucket(full, now)];
      }
      var tokens := Min(Accrued(buckets[ip], now, refillPerSec), full);
      if tokens >= 1.0 {
        buckets := buckets[ip := Bucket(tokens - 1.0, now)];
        allowed := true;
      } else {
        buckets := buckets[ip := Bucket(tokens, now)];
        allowed := false;
      }
    }

    method Sweep(now: real)
      requires Valid()
      modifies this
      ensures Valid()
      ensures CurrentLimits() == old(CurrentLimits())
      ensures buckets == old(AfterSweep(buckets, now, CurrentLimits()))
    {
      var full := capacity as real;
      buckets := map ip | ip in buckets && Min(Accrued(buckets[ip], now, refillPerSec), full) < full
                 :: buckets[ip];
    }
  }
}
