/**
 * Runs of the per-IP limiter. Each acquire carries the limit it loaded before taking the lock, so a
 * run with arbitrary limits covers every placement of the reload's store, including ones that switch
 * the limit off and on again.
 */
module IpSlotRuns {
  import opened Common
  import opened IpSlots

  datatype Op = Acquire(ip: IpAddr, limit: nat) | Release(ip: IpAddr)

  /** The stored counters, and the address of every handle alive. */
  datatype State = State(counts: Counts, live: multiset<IpAddr>)

  const EMPTY := State(map[], multiset{})

  ghost predicate Inv(s: State) {
    Hygienic(s.counts) && CountsWithin(s.counts, s.live)
  }

  /** Only a live handle can be dropped. */
  predicate Enabled(s: State, op: Op) {
    op.Release? ==> op.ip in s.live
  }

  /** One critical section. */
  function Next(s: State, op: Op): State {
    match op
    case Acquire(ip, limit) =>
      State(AfterAcquire(s.counts, ip, limit), if Granted(s.counts, ip, limit) then s.live + multiset{ip} else s.live)
    case Release(ip) =>
      State(AfterRelease(s.counts, ip), s.live - multiset{ip})
  }

  predicate ValidRun(s: State, ops: seq<Op>)
    decreases ops
  {
    ops == [] || (Enabled(s, ops[0]) && ValidRun(Next(s, ops[0]), ops[1..]))
  }

  function After(s: State, ops: seq<Op>): State
    decreases ops
  {
    if ops == [] then s else After(Next(s, ops[0]), ops[1..])
  }

  lemma StepKeepsInv(s: State, op: Op)
    requires Inv(s) && Enabled(s, op)
    ensures Inv(Next(s, op))
  {
    match op {
      case Acquire(ip, limit) => AcquireKeepsCounts(s.counts, s.live, ip, limit);
      case Release(ip) => ReleaseKeepsCounts(s.counts, s.live, ip);
    }
  }

  /** Over every run no zero is stored, loopback never is, and no counter exceeds the live slots. */
  lemma {:induction false} RunKeepsInv(s: State, ops: seq<Op>)
    requires Inv(s) && ValidRun(s, ops)
    ensures Inv(After(s, ops))
    decreases ops
  {
    if ops != [] {
      StepKeepsInv(s, ops[0]);
      RunKeepsInv(Next(s, ops[0]), ops[1..]);
    }
  }

  /** Slots of `ip` that no counter accounts for. */
  function Drift(s: State, ip: IpAddr): int {
    s.live[ip] - CountOf(s.counts, ip)
  }

  /** Slots of `ip` the run grants without counting them. */
  function Untracked(ops: seq<Op>, ip: IpAddr): nat {
    if ops == [] then 0
    else (if ops[0].Acquire? && ops[0].ip == ip && !Tracked(ip, ops[0].limit) then 1 else 0) + Untracked(ops[1..], ip)
  }

  /** Drops of `ip`'s slots that find no counter. */
  function Missed(s: State, ops: seq<Op>, ip: IpAddr): nat
    decreases ops
  {
    if ops == [] then 0
    else (if ops[0] == Release(ip) && ip !in s.counts then 1 else 0) + Missed(Next(s, ops[0]), ops[1..], ip)
  }

  /** What an acquire does at every address. */
  lemma AcquireAt(s: State, from: IpAddr, limit: nat, ip: IpAddr)
    requires Inv(s)
    ensures var s', mine := Next(s, Acquire(from, limit)), from == ip && Granted(s.counts, ip, limit);
            && s'.live[ip] == s.live[ip] + (if mine then 1 else 0)
            && CountOf(s'.counts, ip) == CountOf(s.counts, ip) + (if mine && Tracked(ip, limit) then 1 else 0)
  {}

  /** What a drop does at every address. */
  lemma ReleaseAt(s: State, from: IpAddr, ip: IpAddr)
    requires Inv(s) && from in s.live
    ensures var s' := Next(s, Release(from));
            && s'.live[ip] == s.live[ip] - (if from == ip then 1 else 0)
            && CountOf(s'.counts, ip) == CountOf(s.counts, ip) - (if from == ip && ip in s.counts then 1 else 0)
  {}

  lemma DriftStep(s: State, op: Op, ip: IpAddr)
    requires Inv(s) && Enabled(s, op)
    ensures Drift(Next(s, op), ip) == Drift(s, ip)
              + (if op.Acquire? && op.ip == ip && !Tracked(ip, op.limit) then 1 else 0)
              - (if op == Release(ip) && ip !in s.counts then 1 else 0)
  {
    match op {
      case Acquire(from, limit) => AcquireAt(s, from, limit, ip);
      case Release(from) => ReleaseAt(s, from, ip);
    }
  }

  /** The drift law: live slots minus the counter is exactly untracked grants minus missed drops. */
  lemma {:induction false} DriftLaw(s: State, ops: seq<Op>, ip: IpAddr)
    requires Inv(s) && ValidRun(s, ops)
    ensures Drift(After(s, ops), ip) == Drift(s, ip) + Untracked(ops, ip) - Missed(s, ops, ip)
    decreases ops
  {
    if ops != [] {
      StepKeepsInv(s, ops[0]);
      DriftStep(s, ops[0], ip);
      DriftLaw(Next(s, ops[0]), ops[1..], ip);
    }
  }

  /** What the limit means once it has been off: a request is granted exactly below limit + drift live slots. */
  lemma GrantedUpToDrift(ops: seq<Op>, ip: IpAddr, limit: nat)
    requires ValidRun(EMPTY, ops) && Tracked(ip, limit)
    ensures Granted(After(EMPTY, ops).counts, ip, limit)
       <==> After(EMPTY, ops).live[ip] < limit + Untracked(ops, ip) - Missed(EMPTY, ops, ip)
    ensures 0 <= Untracked(ops, ip) - Missed(EMPTY, ops, ip)
  {
    DriftLaw(EMPTY, ops, ip);
    RunKeepsInv(EMPTY, ops);
  }

  /** Untracked grants since `ip` last held no slot; `sofar` counts those before the run. */
  function UntrackedSinceIdle(s: State, ops: seq<Op>, ip: IpAddr, sofar: nat): nat
    decreases ops
  {
    if ops == [] then sofar
    else
      var s' := Next(s, ops[0]);
      UntrackedSinceIdle(s', ops[1..], ip, Carry(s', ops[0], ip, sofar))
  }

  /** The running count after `op` led to `s`. */
  function Carry(s: State, op: Op, ip: IpAddr, sofar: nat): nat {
    if s.live[ip] == 0 then 0
    else if op.Acquire? && op.ip == ip && !Tracked(ip, op.limit) then sofar + 1
    else sofar
  }

  lemma {:induction false} DriftWithinIdlePeriod(s: State, ops: seq<Op>, ip: IpAddr, sofar: nat)
    requires Inv(s) && ValidRun(s, ops) && Drift(s, ip) <= sofar
    ensures Drift(After(s, ops), ip) <= UntrackedSinceIdle(s, ops, ip, sofar)
    decreases ops
  {
    if ops != [] {
      var s' := Next(s, ops[0]);
      StepKeepsInv(s, ops[0]);
      DriftStep(s, ops[0], ip);
      DriftWithinIdlePeriod(s', ops[1..], ip, Carry(s', ops[0], ip, sofar));
    }
  }

  /** After any tracked admission an address holds at most the limit plus what it got untracked since last idle. */
  lemma AdmissionWithinLimitAndUntracked(ops: seq<Op>, ip: IpAddr, limit: nat)
    requires ValidRun(EMPTY, ops)
    requires Tracked(ip, limit) && Granted(After(EMPTY, ops).counts, ip, limit)
    ensures Next(After(EMPTY, ops), Acquire(ip, limit)).live[ip] <= limit + UntrackedSinceIdle(EMPTY, ops, ip, 0)
  {
    DriftWithinIdlePeriod(EMPTY, ops, ip, 0);
    RunKeepsInv(EMPTY, ops);
    AcquireAt(After(EMPTY, ops), ip, limit, ip);
  }

  lemma FirstStep(s: State, op: Op, rest: seq<Op>, ip: IpAddr, sofar: nat)
    ensures ValidRun(s, [op] + rest) <==> Enabled(s, op) && ValidRun(Next(s, op), rest)
    ensures After(s, [op] + rest) == After(Next(s, op), rest)
    ensures UntrackedSinceIdle(s, [op] + rest, ip, sofar)
         == UntrackedSinceIdle(Next(s, op), rest, ip, Carry(Next(s, op), op, ip, sofar))
  {
    var ops := [op] + rest;
    assert ops != [] && ops[0] == op && ops[1..] == rest;
  }

  function Requests(ip: IpAddr, limit: nat, n: nat): seq<Op> {
    if n == 0 then [] else [Acquire(ip, limit)] + Requests(ip, limit, n - 1)
  }

  lemma {:induction false} RequestsAreGranted(s: State, ip: IpAddr, limit: nat, n: nat, sofar: nat)
    requires Inv(s) && (Tracked(ip, limit) ==> CountOf(s.counts, ip) + n <= limit)
    ensures ValidRun(s, Requests(ip, limit, n))
    ensures After(s, Requests(ip, limit, n)).live[ip] == s.live[ip] + n
    ensures CountOf(After(s, Requests(ip, limit, n)).counts, ip) == CountOf(s.counts, ip) + if Tracked(ip, limit) then n else 0
    ensures UntrackedSinceIdle(s, Requests(ip, limit, n), ip, sofar) == sofar + if Tracked(ip, limit) then 0 else n
    decreases n
  {
    if n > 0 {
      var op := Acquire(ip, limit);
      FirstStep(s, op, Requests(ip, limit, n - 1), ip, sofar);
      StepKeepsInv(s, op);
      AcquireAt(s, ip, limit, ip);
      RequestsAreGranted(Next(s, op), ip, limit, n - 1, Carry(Next(s, op), op, ip, sofar));
    }
  }

  lemma {:induction false} AfterComposes(s: State, first: seq<Op>, second: seq<Op>)
    ensures After(s, first + second) == After(After(s, first), second)
    decreases first
  {
    if first == [] {
      assert first + second == second;
    } else {
      var s', rest, ops := Next(s, first[0]), first[1..], first + second;
      assert ops[0] == first[0] && ops[1..] == rest + second;
      calc {
        After(s, ops);
        After(s', rest + second);
        { AfterComposes(s', rest, second); }
        After(After(s', rest), second);
        After(After(s, first), second);
      }
    }
  }

  lemma {:induction false} RunsCompose(s: State, first: seq<Op>, second: seq<Op>)
    ensures ValidRun(s, first + second) <==> ValidRun(s, first) && ValidRun(After(s, first), second)
    decreases first
  {
    if first == [] {
      assert first + second == second;
    } else {
      var s', rest, ops := Next(s, first[0]), first[1..], first + second;
      assert ops[0] == first[0] && ops[1..] == rest + second;
      calc {
        ValidRun(s, ops);
        Enabled(s, first[0]) && ValidRun(s', rest + second);
        { RunsCompose(s', rest, second); }
        Enabled(s, first[0]) && ValidRun(s', rest) && ValidRun(After(s', rest), second);
        ValidRun(s, first) && ValidRun(After(s, first), second);
      }
    }
  }

  lemma {:induction false} IdleCountsCompose(s: State, first: seq<Op>, second: seq<Op>, ip: IpAddr, sofar: nat)
    ensures UntrackedSinceIdle(s, first + second, ip, sofar)
         == UntrackedSinceIdle(After(s, first), second, ip, UntrackedSinceIdle(s, first, ip, sofar))
    decreases first
  {
    if first == [] {
      assert first + second == second;
    } else {
      var s', rest, ops := Next(s, first[0]), first[1..], first + second;
      var carried := Carry(s', first[0], ip, sofar);
      assert ops[0] == first[0] && ops[1..] == rest + second;
      calc {
        UntrackedSinceIdle(s, ops, ip, sofar);
        UntrackedSinceIdle(s', rest + second, ip, carried);
        { IdleCountsCompose(s', rest, second, ip, carried); }
        UntrackedSinceIdle(After(s', rest), second, ip, UntrackedSinceIdle(s', rest, ip, carried));
        UntrackedSinceIdle(After(s, first), second, ip, UntrackedSinceIdle(s, first, ip, sofar));
      }
    }
  }

  /** `off` slots taken while the limit is 0, then all but one of the tracked ones the limit allows. */
  function OffThenOn(ip: IpAddr, off: nat, limit: nat): seq<Op>
    requires limit > 0
  {
    Requests(ip, 0, off) + Requests(ip, limit, limit - 1)
  }

  lemma OneMoreIsGranted(s: State, ip: IpAddr, limit: nat, off: nat)
    requires Inv(s) && Tracked(ip, limit)
    requires CountOf(s.counts, ip) == limit - 1 && s.live[ip] == off + limit - 1
    ensures Granted(s.counts, ip, limit) && Next(s, Acquire(ip, limit)).live[ip] == limit + off
  {
    AcquireAt(s, ip, limit, ip);
  }

  /** Slots taken off the books stay beside those a later run counts. */
  lemma TwoPhases(off: seq<Op>, on: seq<Op>, ip: IpAddr, n: nat, limit: nat)
    requires Tracked(ip, limit) && ValidRun(EMPTY, off) && ValidRun(After(EMPTY, off), on)
    requires UntrackedSinceIdle(EMPTY, off, ip, 0) == n == UntrackedSinceIdle(After(EMPTY, off), on, ip, n)
    requires var s := After(After(EMPTY, off), on); CountOf(s.counts, ip) == limit - 1 && s.live[ip] == n + limit - 1
    ensures ValidRun(EMPTY, off + on) && UntrackedSinceIdle(EMPTY, off + on, ip, 0) == n
    ensures var s := After(EMPTY, off + on);
            Granted(s.counts, ip, limit) && Next(s, Acquire(ip, limit)).live[ip] == limit + n
  {
    RunKeepsInv(EMPTY, off);
    RunKeepsInv(After(EMPTY, off), on);
    RunsCompose(EMPTY, off, on);
    AfterComposes(EMPTY, off, on);
    IdleCountsCompose(EMPTY, off, on, ip, 0);
    OneMoreIsGranted(After(EMPTY, off + on), ip, limit, n);
  }

  /** The excess is reachable for every limit and every number of untracked slots: the bound is tight. */
  lemma ExcessIsReachable(ip: IpAddr, off: nat, limit: nat)
    requires Tracked(ip, limit)
    ensures ValidRun(EMPTY, OffThenOn(ip, off, limit))
    ensures UntrackedSinceIdle(EMPTY, OffThenOn(ip, off, limit), ip, 0) == off
    ensures var s := After(EMPTY, OffThenOn(ip, off, limit));
            Granted(s.counts, ip, limit) && Next(s, Acquire(ip, limit)).live[ip] == limit + off
  {
    RequestsAreGranted(EMPTY, ip, 0, off, 0);
    RunKeepsInv(EMPTY, Requests(ip, 0, off));
    RequestsAreGranted(After(EMPTY, Requests(ip, 0, off)), ip, limit, limit - 1, off);
    TwoPhases(Requests(ip, 0, off), Requests(ip, limit, limit - 1), ip, off, limit);
  }

  /** Every request from `ip` in the run carries a limit between 1 and `top`. */
  predicate LimitsWithin(ops: seq<Op>, ip: IpAddr, top: nat) {
    forall i :: 0 <= i < |ops| && ops[i].Acquire? && ops[i].ip == ip ==> 1 <= ops[i].limit <= top
  }

  /**
   * While the limit stays positive the counter is the number of live slots, and under limits up to
   * `top` that number never passes `top` nor, once above it, rises.
   */
  lemma {:induction false} PositiveLimitsCap(s: State, ops: seq<Op>, ip: IpAddr, top: nat)
    requires Inv(s) && ValidRun(s, ops) && LimitsWithin(ops, ip, top)
    requires !ip.IsLoopback() && Drift(s, ip) == 0
    ensures Drift(After(s, ops), ip) == 0
    ensures After(s, ops).live[ip] <= top || After(s, ops).live[ip] <= s.live[ip]
    decreases ops
  {
    if ops != [] {
      match ops[0] {
        case Acquire(from, limit) => AcquireAt(s, from, limit, ip);
        case Release(from) => ReleaseAt(s, from, ip);
      }
      StepKeepsInv(s, ops[0]);
      PositiveLimitsCap(Next(s, ops[0]), ops[1..], ip, top);
    }
  }

  /** With the counter exact, a request is granted exactly below the limit then in force, and never passes it. */
  lemma PositiveLimitIsExact(s: State, ip: IpAddr, limit: nat)
    requires Inv(s) && Tracked(ip, limit) && Drift(s, ip) == 0
    ensures Granted(s.counts, ip, limit) <==> s.live[ip] < limit
    ensures Granted(s.counts, ip, limit) ==> Next(s, Acquire(ip, limit)).live[ip] <= limit
    ensures !Granted(s.counts, ip, limit) ==> Next(s, Acquire(ip, limit)) == s
  {
    AcquireAt(s, ip, limit, ip);
  }

  function LiveAddresses(s: State): set<IpAddr> {
    set ip | ip in s.live
  }

  /** At most one map entry per address with a live slot, over every run. */
  lemma EntriesWithinLiveAddresses(ops: seq<Op>)
    requires ValidRun(EMPTY, ops)
    ensures |After(EMPTY, ops).counts| <= |LiveAddresses(After(EMPTY, ops))|
    ensures Hygienic(After(EMPTY, ops).counts)
  {
    RunKeepsInv(EMPTY, ops);
    var s := After(EMPTY, ops);
    forall ip | ip in s.counts ensures ip in s.live {
      assert CountOf(s.counts, ip) <= s.live[ip];
    }
    SubsetSize(s.counts.Keys, LiveAddresses(s));
  }

  lemma {:induction false} SubsetSize<T>(a: set<T>, b: set<T>)
    requires a <= b
    ensures |a| <= |b|
    decreases a
  {
    if a != {} {
      var x :| x in a;
      SubsetSize(a - {x}, b - {x});
    }
  }
}
