/**
 * Connecting to the upstream with bounded, exponentially spaced retries (src/route/proxy.rs).
 * Durations are whole nanoseconds, at most 2^64 - 1 seconds and 999999999 nanoseconds.
 */
module Backoff {
  import opened Common

  const NANOS_PER_SEC: nat := 1_000_000_000
  const U32_MAX: nat := 0xFFFF_FFFF
  const U64_MAX: nat := 0xFFFF_FFFF_FFFF_FFFF

  /** A duration as it is stored: whole seconds and the nanoseconds below one. */
  datatype Duration = Duration(secs: nat, nanos: nat) {
    ghost predicate Valid() {
      secs <= U64_MAX && nanos < NANOS_PER_SEC
    }

    function Nanos(): nat {
      secs * NANOS_PER_SEC + nanos
    }
  }

  const ZERO := Duration(0, 0)

  function MaxNanos(): nat {
    U64_MAX * NANOS_PER_SEC + (NANOS_PER_SEC - 1)
  }

  /** `Duration::checked_mul`: nanoseconds first, their carry into the seconds, either step may overflow. */
  function CheckedMul(d: Duration, factor: nat): Option<Duration> {
    var total := d.nanos * factor;
    var carry, nanos := total / NANOS_PER_SEC, total % NANOS_PER_SEC;
    var secs := d.secs * factor;
    if secs > U64_MAX || secs + carry > U64_MAX then None else Some(Duration(secs + carry, nanos))
  }

  function MinDuration(a: Duration, b: Duration): Duration {
    if a.secs < b.secs || (a.secs == b.secs && a.nanos <= b.nanos) then a else b
  }

  function Smaller(a: nat, b: nat): nat {
    if a <= b then a else b
  }

  /** Multiplication by parts is multiplication of the nanoseconds, and it fails exactly past the largest duration. */
  lemma CheckedMulIsExact(d: Duration, factor: nat)
    requires d.Valid()
    ensures CheckedMul(d, factor).None? <==> d.Nanos() * factor > MaxNanos()
    ensures CheckedMul(d, factor).Some? ==>
              CheckedMul(d, factor).value.Valid() && CheckedMul(d, factor).value.Nanos() == d.Nanos() * factor
  {
    var total := d.nanos * factor;
    var carry, nanos := total / NANOS_PER_SEC, total % NANOS_PER_SEC;
    var secs := d.secs * factor;
    calc {
      d.Nanos() * factor;
      d.secs * NANOS_PER_SEC * factor + d.nanos * factor;
      secs * NANOS_PER_SEC + total;
      (secs + carry) * NANOS_PER_SEC + nanos;
    }
  }

  lemma MinDurationIsExact(a: Duration, b: Duration)
    requires a.Valid() && b.Valid()
    ensures MinDuration(a, b).Valid() && MinDuration(a, b).Nanos() == Smaller(a.Nanos(), b.Nanos())
  {}

  function Pow2(n: nat): nat {
    if n == 0 then 1 else 2 * Pow2(n - 1)
  }

  lemma {:induction false} Pow2Grows(a: nat, b: nat)
    requires a <= b
    ensures 1 <= Pow2(a) <= Pow2(b)
    decreases b
  {
    if a < b {
      Pow2Grows(a, b - 1);
    } else if a > 0 {
      Pow2Grows(a - 1, a - 1);
    }
  }

  lemma Pow2Of32()
    ensures Pow2(31) == 0x8000_0000 && Pow2(32) == 0x1_0000_0000
  {
    assert Pow2(8) == 0x100;
    assert Pow2(16) == 0x1_0000;
    assert Pow2(24) == 0x100_0000;
  }

  /** `1u32.checked_shl(exponent).unwrap_or(u32::MAX)`. */
  function Multiplier(exponent: nat): nat {
    if exponent < 32 then Pow2(exponent) else U32_MAX
  }

  datatype Policy = Policy(attemptTimeout: Duration, maxAttempts: u32, baseDelay: Duration, maxDelay: Duration) {
    ghost predicate Valid() {
      attemptTimeout.Valid() && baseDelay.Valid() && maxDelay.Valid()
    }

    function GetDelay(attempt: u32): Duration {
      if attempt <= 1 then ZERO
      else
        var grown := match CheckedMul(baseDelay, Multiplier(attempt - 2)) case None => maxDelay case Some(d) => d;
        MinDuration(grown, maxDelay)
    }
  }

  /** The delay before attempt `n`, with no trace of the machine arithmetic. */
  function IdealDelay(base: nat, max: nat, n: nat): nat {
    if n <= 1 then 0 else Smaller(base * Smaller(Pow2(n - 2), U32_MAX), max)
  }

  lemma MultiplierIsSaturatedPower(exponent: nat)
    ensures Multiplier(exponent) == Smaller(Pow2(exponent), U32_MAX)
  {
    Pow2Of32();
    if exponent < 32 {
      Pow2Grows(exponent, 31);
    } else {
      Pow2Grows(32, exponent);
    }
  }

  /** For every policy and every attempt number, overflow of the shift or of the product changes nothing. */
  lemma DelayClosedForm(policy: Policy, attempt: u32)
    requires policy.Valid()
    ensures policy.GetDelay(attempt).Valid()
    ensures policy.GetDelay(attempt).Nanos() == IdealDelay(policy.baseDelay.Nanos(), policy.maxDelay.Nanos(), attempt)
  {
    if attempt > 1 {
      var factor := Multiplier(attempt - 2);
      MultiplierIsSaturatedPower(attempt - 2);
      CheckedMulIsExact(policy.baseDelay, factor);
      match CheckedMul(policy.baseDelay, factor) {
        case None => MinDurationIsExact(policy.maxDelay, policy.maxDelay);
        case Some(grown) => MinDurationIsExact(grown, policy.maxDelay);
      }
    }
  }

  lemma TimesMonotone(base: nat, a: nat, b: nat)
    requires a <= b
    ensures base * a <= base * b
  {}

  lemma DelayIsMonotone(base: nat, max: nat, n: nat)
    ensures IdealDelay(base, max, n) <= IdealDelay(base, max, n + 1)
  {
    if n > 1 {
      Pow2Grows(n - 2, n - 1);
      TimesMonotone(base, Smaller(Pow2(n - 2), U32_MAX), Smaller(Pow2(n - 1), U32_MAX));
    }
  }

  ghost predicate Doubles(n: nat) {
    forall base: nat, max: nat :: IdealDelay(base, max, n + 1) == Smaller(2 * IdealDelay(base, max, n), max)
  }

  /** Each wait is twice the last, up to the cap, for every policy exactly until the multiplier saturates. */
  lemma DelayDoublesUntilSaturation(n: nat)
    requires n >= 2
    ensures Doubles(n) <==> n <= 32
  {
    Pow2Of32();
    if n <= 32 {
      Pow2Grows(n - 1, 31);
      Pow2Grows(n - 2, 31);
      forall base: nat, max: nat ensures IdealDelay(base, max, n + 1) == Smaller(2 * IdealDelay(base, max, n), max) {
        assert base * Pow2(n - 1) == 2 * (base * Pow2(n - 2));
      }
    } else {
      Pow2Grows(32, n - 1);
      Pow2Grows(31, n - 2);
      assert IdealDelay(1, 0x2_0000_0000, n + 1) == U32_MAX;
      assert 2 * IdealDelay(1, 0x2_0000_0000, n) >= 0x1_0000_0000;
    }
  }

  /** The waits before attempts 1..m together. */
  function TotalDelay(base: nat, max: nat, m: nat): nat {
    if m == 0 then 0 else TotalDelay(base, max, m - 1) + IdealDelay(base, max, m)
  }

  lemma {:induction false} TotalDelayWithinCaps(base: nat, max: nat, m: nat)
    requires m >= 1
    ensures TotalDelay(base, max, m) <= (m - 1) * max
  {
    if m == 1 {
      assert TotalDelay(base, max, 0) == 0;
    } else {
      TotalDelayWithinCaps(base, max, m - 1);
      OneMoreWait(TotalDelay(base, max, m - 1), IdealDelay(base, max, m), m, max);
    }
  }

  lemma OneMoreWait(total: nat, wait: nat, m: nat, max: nat)
    requires m >= 2 && total <= (m - 2) * max && wait <= max
    ensures total + wait <= (m - 1) * max
  {}

  lemma {:induction false} TotalDelayWithinDoubling(base: nat, max: nat, m: nat)
    requires m >= 1
    ensures TotalDelay(base, max, m) <= base * (Pow2(m - 1) - 1)
  {
    if m == 1 {
      assert TotalDelay(base, max, 0) == 0;
    } else {
      TotalDelayWithinDoubling(base, max, m - 1);
      var p := Pow2(m - 2);
      Pow2Grows(0, m - 2);
      TimesMonotone(base, Smaller(p, U32_MAX), p);
      Distribute(base, p);
    }
  }

  lemma Distribute(base: nat, p: nat)
    ensures base * (2 * p - 1) == base * (p - 1) + base * p
  {}
}
