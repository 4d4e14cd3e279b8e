/**
 * Forgetting full buckets. A sweep changes no answer as long as the limits in force at each
 * address's next decided call are no more generous than those the sweep looked at, in the exact
 * sense of `NoMoreGenerous`, which also counts how far the sweep's clock was ahead of that call's.
 */
module SweepUnobservable {
  import opened Common
  import opened TokenBucket
  import opened RateRuns
  import RateExactness

  /** What a bucket that is full at the sweep is sure to have held `lead` seconds before. */
  function Room(atSweep: Limits, lead: real): real {
    Max(atSweep.Full() - lead * Max(atSweep.rate, 0.0), 0.0)
  }

  /**
   * Any bucket that fills `atSweep` also fills `atCall`, however its content came about, even for a
   * call that read the clock up to `lead` seconds before the sweep did.
   */
  predicate NoMoreGenerous(atSweep: Limits, atCall: Limits, lead: real) {
    && atCall.Full() <= Room(atSweep, lead)
    && atCall.Full() * atSweep.rate <= Room(atSweep, lead) * atCall.rate
  }

  /** How far the sweep at `i` was ahead of the call at `j`; 0 if it was not. */
  function Lead(ops: seq<Op>, i: nat, j: nat): real
    requires i < j < |ops| && ops[i].Sweep? && ops[j].Call?
  {
    Elapsed(ops[i].now, ops[j].now)
  }

  /** Position `j` is the first decided call from its address after the sweep at `i`. */
  ghost predicate NextDecided(initial: Limits, ops: seq<Op>, i: nat, j: nat)
    requires i < j < |ops|
  {
    && ops[i].Sweep? && ops[j].Call? && GatedCall(initial, ops, j, ops[j].ip)
    && forall k :: i < k < j ==> !GatedCall(initial, ops, k, ops[j].ip)
  }

  ghost predicate SweptSafely(initial: Limits, ops: seq<Op>) {
    forall i, j :: 0 <= i < j < |ops| && NextDecided(initial, ops, i, j) ==>
      NoMoreGenerous(LimitsAt(initial, ops, i), LimitsAt(initial, ops, j), Lead(ops, i, j))
  }

  /** The two tables differ at `ip` only because a sweep since its last decided call found its bucket full. */
  ghost predicate SweptAway(initial: Limits, ops: seq<Op>, n: nat, ip: IpAddr, b: Bucket, i: nat)
    requires n <= |ops|
  {
    && i < n && ops[i].Sweep?
    && Accrued(b, ops[i].now, LimitsAt(initial, ops, i).rate) >= LimitsAt(initial, ops, i).Full()
    && forall k :: i < k < n ==> !GatedCall(initial, ops, k, ip)
  }

  ghost predicate Shadows(initial: Limits, ops: seq<Op>, n: nat, unswept: Buckets, swept: Buckets)
    requires n <= |ops|
  {
    && (forall ip :: ip in swept ==> ip in unswept && swept[ip] == unswept[ip])
    && (forall ip :: ip in unswept && ip !in swept ==> exists i: nat :: SweptAway(initial, ops, n, ip, unswept[ip], i))
  }

  /** Filling one set of limits carries over to a set that is no more generous. */
  lemma FullStaysFull(b: Bucket, swept: real, now: real, atSweep: Limits, atCall: Limits)
    requires b.tokens >= 0.0 && atCall.rate > 0.0
    requires NoMoreGenerous(atSweep, atCall, Elapsed(swept, now))
    requires Accrued(b, swept, atSweep.rate) >= atSweep.Full()
    ensures Accrued(b, now, atCall.rate) >= atCall.Full()
  {
    var e, lead := Elapsed(swept, b.lastRefill), Elapsed(swept, now);
    HeldBefore(b.tokens, e, lead, atSweep);
    if atSweep.rate < 0.0 {
      ProductNonNegative(Room(atSweep, lead), atCall.rate);
    }
    StillFull(b.tokens, Elapsed(e, lead), Max(atSweep.rate, 0.0), atCall.rate, Room(atSweep, lead), atCall.Full());
    ProductMonotone(Elapsed(e, lead), Elapsed(now, b.lastRefill), atCall.rate);
  }

  /** A bucket that is full after `e` seconds held at least `Room` when `lead` of them were still to come. */
  lemma HeldBefore(tokens: real, e: real, lead: real, limits: Limits)
    requires tokens >= 0.0 && e >= 0.0 && lead >= 0.0 && tokens + e * limits.rate >= limits.Full()
    ensures tokens + Elapsed(e, lead) * Max(limits.rate, 0.0) >= Room(limits, lead)
  {
    var r := Max(limits.rate, 0.0);
    ProductMonotone(limits.rate, r, e);
    ProductNonNegative(Elapsed(e, lead), r);
    if e <= lead {
      ProductMonotone(e, lead, r);
    } else {
      assert e * r == (e - lead) * r + lead * r;
    }
  }

  /** What refills to `room` at rate r refills to `full'` at rate r' in the same time. */
  lemma StillFull(tokens: real, e: real, r: real, r': real, room: real, full': real)
    requires tokens >= 0.0 && e >= 0.0 && r >= 0.0 && r' > 0.0
    requires tokens + e * r >= room && full' <= room && full' * r <= room * r'
    ensures tokens + e * r' >= full'
  {
    if r <= r' {
      ProductMonotone(r, r', e);
    } else {
      // Scaled by r: tokens * r + e * r * r' >= tokens * r' + e * r * r' >= room * r' >= full' * r.
      ProductMonotone(r', r, tokens);
      ProductMonotone(room, tokens + e * r, r');
      ScaledComparison(tokens, e, r, r', room, full');
    }
  }

  lemma ScaledComparison(tokens: real, e: real, r: real, r': real, full: real, full': real)
    requires r > 0.0
    requires tokens * r >= tokens * r' && (tokens + e * r) * r' >= full * r' && full * r' >= full' * r
    ensures tokens + e * r' >= full'
  {
    assert (tokens + e * r') * r == tokens * r + (e * r) * r';
    assert (tokens + e * r) * r' == tokens * r' + (e * r) * r';
    CancelPositive(tokens + e * r', full', r);
  }

  lemma CancelPositive(x: real, y: real, r: real)
    requires r > 0.0
    ensures x * r >= y * r ==> x >= y
  {
    if x < y {
      assert (y - x) * r > 0.0;
    }
  }

  function AllSweeps(ops: seq<Op>): set<nat> {
    set i: nat | i < |ops| && ops[i].Sweep?
  }

  lemma {:induction false} SweepingShadows(initial: Limits, ops: seq<Op>, n: nat, skipped: set<nat>)
    requires SweptSafely(initial, ops) && n <= |ops|
    ensures Shadows(initial, ops, n, TableAt(initial, ops, n, AllSweeps(ops)), TableAt(initial, ops, n, skipped))
  {
    if n > 0 {
      SweepingShadows(initial, ops, n - 1, skipped);
      if ops[n - 1].Call? {
        CallKeepsShadow(initial, ops, n, skipped);
      } else {
        OtherKeepsShadow(initial, ops, n, skipped);
      }
    }
  }

  lemma OtherKeepsShadow(initial: Limits, ops: seq<Op>, n: nat, skipped: set<nat>)
    requires 0 < n <= |ops| && !ops[n - 1].Call?
    requires Shadows(initial, ops, n - 1, TableAt(initial, ops, n - 1, AllSweeps(ops)), TableAt(initial, ops, n - 1, skipped))
    ensures Shadows(initial, ops, n, TableAt(initial, ops, n, AllSweeps(ops)), TableAt(initial, ops, n, skipped))
  {
    var unswept, swept := TableAt(initial, ops, n - 1, AllSweeps(ops)), TableAt(initial, ops, n - 1, skipped);
    var swept' := TableAt(initial, ops, n, skipped);
    forall ip | ip in unswept && ip !in swept' ensures exists i: nat :: SweptAway(initial, ops, n, ip, unswept[ip], i) {
      if ip in swept {
        assert SweptAway(initial, ops, n, ip, unswept[ip], n - 1);
      } else {
        var i: nat :| SweptAway(initial, ops, n - 1, ip, unswept[ip], i);
        assert SweptAway(initial, ops, n, ip, unswept[ip], i);
      }
    }
  }

  /** Under the shadow relation the next call finds the same level in both tables. */
  lemma SameLevel(initial: Limits, ops: seq<Op>, n: nat, skipped: set<nat>)
    requires SweptSafely(initial, ops) && n < |ops| && ops[n].Call?
    requires Gated(ops[n].ip, LimitsAt(initial, ops, n))
    requires Shadows(initial, ops, n, TableAt(initial, ops, n, AllSweeps(ops)), TableAt(initial, ops, n, skipped))
    ensures Level(TableAt(initial, ops, n, AllSweeps(ops)), ops[n].ip, ops[n].now, LimitsAt(initial, ops, n))
         == Level(TableAt(initial, ops, n, skipped), ops[n].ip, ops[n].now, LimitsAt(initial, ops, n))
  {
    var unswept, swept := TableAt(initial, ops, n, AllSweeps(ops)), TableAt(initial, ops, n, skipped);
    var ip, now := ops[n].ip, ops[n].now;
    if ip in unswept && ip !in swept {
      var i: nat :| SweptAway(initial, ops, n, ip, unswept[ip], i);
      assert NextDecided(initial, ops, i, n);
      TableStaysNonNegative(initial, ops, n, AllSweeps(ops));
      FullStaysFull(unswept[ip], ops[i].now, now, LimitsAt(initial, ops, i), LimitsAt(initial, ops, n));
    }
  }

  lemma CallKeepsShadow(initial: Limits, ops: seq<Op>, n: nat, skipped: set<nat>)
    requires SweptSafely(initial, ops) && 0 < n <= |ops| && ops[n - 1].Call?
    requires Shadows(initial, ops, n - 1, TableAt(initial, ops, n - 1, AllSweeps(ops)), TableAt(initial, ops, n - 1, skipped))
    ensures Shadows(initial, ops, n, TableAt(initial, ops, n, AllSweeps(ops)), TableAt(initial, ops, n, skipped))
  {
    var unswept, swept := TableAt(initial, ops, n - 1, AllSweeps(ops)), TableAt(initial, ops, n - 1, skipped);
    var unswept', swept' := TableAt(initial, ops, n, AllSweeps(ops)), TableAt(initial, ops, n, skipped);
    var gated := Gated(ops[n - 1].ip, LimitsAt(initial, ops, n - 1));
    if gated {
      SameLevel(initial, ops, n - 1, skipped);
    }
    forall ip | ip in unswept' && ip !in swept' ensures exists i: nat :: SweptAway(initial, ops, n, ip, unswept'[ip], i) {
      assert !(gated && ip == ops[n - 1].ip) && ip in unswept && ip !in swept;
      var i: nat :| SweptAway(initial, ops, n - 1, ip, unswept[ip], i);
      assert SweptAway(initial, ops, n, ip, unswept'[ip], i);
    }
  }

  /**
   * Sweeping is unobservable: two runs of the same operations that sweep at different moments, or not
   * at all, give every call the same answer, whatever readings of the clock they use.
   */
  lemma SweepsUnobservable(initial: Limits, ops: seq<Op>, i: nat, skipped: set<nat>, skipped': set<nat>)
    requires SweptSafely(initial, ops) && i < |ops| && ops[i].Call?
    ensures Answer(initial, ops, i, skipped) <==> Answer(initial, ops, i, skipped')
  {
    if Gated(ops[i].ip, LimitsAt(initial, ops, i)) {
      SweepingShadows(initial, ops, i, skipped);
      SweepingShadows(initial, ops, i, skipped');
      SameLevel(initial, ops, i, skipped);
      SameLevel(initial, ops, i, skipped');
    }
  }

  /** In particular, at fixed limits no sweep, however stale its clock, is ever observable, unless it overtakes a call. */
  lemma SweepsUnobservableAtFixedLimits(initial: Limits, ops: seq<Op>, i: nat, skipped: set<nat>, skipped': set<nat>)
    requires NoCallOvertaken(ops) && RateExactness.FixedLimits(ops) && i < |ops| && ops[i].Call?
    ensures Answer(initial, ops, i, skipped) <==> Answer(initial, ops, i, skipped')
  {
    forall a, b | 0 <= a < b < |ops| && NextDecided(initial, ops, a, b)
      ensures NoMoreGenerous(LimitsAt(initial, ops, a), LimitsAt(initial, ops, b), Lead(ops, a, b))
    {
      RateExactness.LimitsNeverChange(initial, ops, a);
      RateExactness.LimitsNeverChange(initial, ops, b);
    }
    SweepsUnobservable(initial, ops, i, skipped, skipped');
  }
}
