/** What each counter and the per-IP limit mean in terms of the events of a run, not of the tasks' own records. */
module AdmissionEvents {
  import opened Admission
  import opened AdmissionLedger
  import opened AdmissionSafety
  import IpSlots

  /** How many steps of the run satisfy `what`. */
  function Events(steps: seq<Step>, what: Step -> bool): nat {
    if steps == [] then 0 else (if what(steps[0]) then 1 else 0) + Events(steps[1..], what)
  }

  predicate IsAct(step: Step, act: TaskAct) {
    step.OfTask? && step.what == act
  }

  /** The meters that count one kind of event each. */
  predicate Outcome(m: Meter) {
    || m.Accepted? || m.ProbeIoError? || m.ProbeTimeout? || m.SniPresent? || m.SniAbsent? || m.ProxiedTotal? || m.FallbackTotal?
    || m.HandshakeSuccess? || m.HandshakeFailure? || m.AlpnH2? || m.AlpnHttp1? || m.AlpnNone?
  }

  /** The kind of event an outcome meter is for. */
  predicate IsEventOf(m: Meter, step: Step)
    requires Outcome(m)
  {
    match m
    case Accepted => step.Loop? && step.act.Accept?
    case ProbeIoError => IsAct(step, FailProbe)
    case ProbeTimeout => IsAct(step, TimeOutProbe)
    case SniPresent => IsAct(step, ReadSni(true))
    case SniAbsent => IsAct(step, ReadSni(false))
    case ProxiedTotal => IsAct(step, BeginRoute(Proxied))
    case FallbackTotal => IsAct(step, BeginRoute(Fallback))
    case HandshakeSuccess => IsAct(step, FinishHandshake(true))
    case HandshakeFailure => IsAct(step, FinishHandshake(false))
    case AlpnH2 => IsAct(step, ReadAlpn(H2))
    case AlpnHttp1 => IsAct(step, ReadAlpn(Http1))
    case AlpnNone => IsAct(step, ReadAlpn(Other))
  }

  lemma TaskActIsEvent(t: Task, i: nat, act: TaskAct, m: Meter)
    requires TaskEnabled(t, act) && Outcome(m)
    ensures Delta(Touch(t, act), m) == if IsEventOf(m, OfTask(i, act)) then 1 else 0
  {
    if Touch(t, act).None? || Touch(t, act).value.0 != m {
      assert !IsEventOf(m, OfTask(i, act));
    }
  }

  lemma LoopActIsEvent(p: LoopPoint, act: LoopAct, m: Meter)
    requires PointAllows(p, act) && Outcome(m)
    ensures Delta(LoopTouch(p, act), m) == if IsEventOf(m, Loop(act)) then 1 else 0
  {
    if !m.Accepted? {
      assert !IsEventOf(m, Loop(act));
    }
  }

  lemma StepCountsEvent(s: State, step: Step, m: Meter)
    requires Enabled(s, step) && Outcome(m)
    ensures Read(Next(s, step), m) == Read(s, m) + if IsEventOf(m, step) then 1 else 0
  {
    match step {
      case Loop(act) =>
        LoopActIsEvent(s.loop, act, m);
        TouchMovesOneMeter(s, Next(s, step), LoopTouch(s.loop, act), m);
      case OfTask(i, act) =>
        TaskActIsEvent(s.tasks[i], i, act, m);
        TouchMovesOneMeter(s, Next(s, step), Touch(s.tasks[i], act), m);
      case SetIpLimit(_) => assert !IsEventOf(m, step);
    }
  }

  lemma {:induction false} MeterCountsEvents(s: State, steps: seq<Step>, m: Meter)
    requires ValidRun(s, steps) && Outcome(m)
    ensures Read(After(s, steps), m) == Read(s, m) + Events(steps, step => IsEventOf(m, step))
    decreases steps
  {
    if steps != [] {
      StepCountsEvent(s, steps[0], m);
      MeterCountsEvents(Next(s, steps[0]), steps[1..], m);
    }
  }

  /** Over every run each outcome meter is the number of its own events. */
  lemma OutcomesCountEvents(max: nat, ipLimit: nat, steps: seq<Step>, m: Meter)
    requires ValidRun(Init(max, ipLimit), steps) && Outcome(m)
    ensures Read(After(Init(max, ipLimit), steps), m) == Events(steps, step => IsEventOf(m, step))
  {
    MeterCountsEvents(Init(max, ipLimit), steps, m);
  }

  predicate IsLoopAct(step: Step, act: LoopAct) {
    step.Loop? && step.act == act
  }

  /** The loop is giving a refused connection's slot back and has not counted the refusal yet. */
  predicate Refusing(p: LoopPoint, why: Reason) {
    (p.Uncounting? || p.Releasing? || p.Rejecting?) && p.why == why
  }

  /** The loop holds a connection that the per-IP check has decided and no counter or task shows yet. */
  predicate IpDecided(p: LoopPoint) {
    Refusing(p, IpFull) || p.HoldingBoth?
  }

  function Indicator(b: bool): int {
    if b then 1 else 0
  }

  lemma RefusalAct(p: LoopPoint, act: LoopAct, ipLimit: nat, granted: bool)
    requires PointAllows(p, act) && LoopConsistent(p)
    ensures var p' := LoopMoved(p, act, ipLimit, granted);
            && LoopConsistent(p')
            && Delta(LoopTouch(p, act), RejectedRate) + Indicator(Refusing(p', RateExceeded))
               == Indicator(Refusing(p, RateExceeded)) + Indicator(act == CheckRate(false))
            && Delta(LoopTouch(p, act), RejectedIp) + Indicator(act.Spawn?) + Indicator(IpDecided(p'))
               == Indicator(IpDecided(p)) + Indicator(act == CheckIp)
  {}

  lemma TaskRefusesNothing(s: State, i: nat, act: TaskAct)
    requires Enabled(s, OfTask(i, act))
    ensures var s' := Next(s, OfTask(i, act));
            && s'.loop == s.loop && |s'.tasks| == |s.tasks|
            && Read(s', RejectedRate) == Read(s, RejectedRate) && Read(s', RejectedIp) == Read(s, RejectedIp)
  {
    TouchMovesOneMeter(s, Next(s, OfTask(i, act)), Touch(s.tasks[i], act), RejectedRate);
    TouchMovesOneMeter(s, Next(s, OfTask(i, act)), Touch(s.tasks[i], act), RejectedIp);
  }

  lemma LoopRefuses(s: State, act: LoopAct)
    requires LoopEnabled(s, act)
    ensures var s' := LoopNext(s, act);
            && |s'.tasks| == |s.tasks| + Indicator(act.Spawn?)
            && Read(s', RejectedRate) == Read(s, RejectedRate) + Delta(LoopTouch(s.loop, act), RejectedRate)
            && Read(s', RejectedIp) == Read(s, RejectedIp) + Delta(LoopTouch(s.loop, act), RejectedIp)
  {
    TouchMovesOneMeter(s, LoopNext(s, act), LoopTouch(s.loop, act), RejectedRate);
    TouchMovesOneMeter(s, LoopNext(s, act), LoopTouch(s.loop, act), RejectedIp);
  }

  lemma RefusalStep(s: State, step: Step)
    requires Enabled(s, step) && LoopConsistent(s.loop)
    ensures var s' := Next(s, step);
            && LoopConsistent(s'.loop)
            && Read(s', RejectedRate) + Indicator(Refusing(s'.loop, RateExceeded))
               == Read(s, RejectedRate) + Indicator(Refusing(s.loop, RateExceeded)) + Indicator(IsLoopAct(step, CheckRate(false)))
            && Read(s', RejectedIp) + |s'.tasks| + Indicator(IpDecided(s'.loop))
               == Read(s, RejectedIp) + |s.tasks| + Indicator(IpDecided(s.loop)) + Indicator(IsLoopAct(step, CheckIp))
  {
    match step {
      case Loop(act) =>
        RefusalAct(s.loop, act, s.ipLimit, act.CheckIp? && IpSlots.Granted(s.ips.counts, s.loop.ip, s.loop.limit));
        LoopRefuses(s, act);
      case OfTask(i, act) => TaskRefusesNothing(s, i, act);
      case SetIpLimit(_) =>
    }
  }

  lemma {:induction false} RefusalsAlong(s: State, steps: seq<Step>)
    requires ValidRun(s, steps) && LoopConsistent(s.loop)
    ensures var s' := After(s, steps);
            && Read(s', RejectedRate) + Indicator(Refusing(s'.loop, RateExceeded))
               == Read(s, RejectedRate) + Indicator(Refusing(s.loop, RateExceeded))
                  + Events(steps, step => IsLoopAct(step, CheckRate(false)))
            && Read(s', RejectedIp) + |s'.tasks| + Indicator(IpDecided(s'.loop))
               == Read(s, RejectedIp) + |s.tasks| + Indicator(IpDecided(s.loop)) + Events(steps, step => IsLoopAct(step, CheckIp))
    decreases steps
  {
    if steps != [] {
      RefusalStep(s, steps[0]);
      RefusalsAlong(Next(s, steps[0]), steps[1..]);
    }
  }

  /**
   * Rate rejections are the refused rate checks, but for one in hand. Every per-IP check ends as a per-IP
   * rejection or a task, but for one in hand.
   */
  lemma RejectionsCountRefusals(max: nat, ipLimit: nat, steps: seq<Step>)
    requires ValidRun(Init(max, ipLimit), steps)
    ensures var s := After(Init(max, ipLimit), steps);
            && Events(steps, step => IsLoopAct(step, CheckRate(false)))
               == Read(s, RejectedRate) + Indicator(Refusing(s.loop, RateExceeded))
            && Events(steps, step => IsLoopAct(step, CheckIp))
               == Read(s, RejectedIp) + |s.tasks| + Indicator(IpDecided(s.loop))
  {
    RefusalsAlong(Init(max, ipLimit), steps);
  }

  /** The limit the run set last, or `stored` if it set none. */
  function LastSet(stored: nat, steps: seq<Step>): nat
    decreases steps
  {
    if steps == [] then stored
    else LastSet(if steps[0].SetIpLimit? then steps[0].limit else stored, steps[1..])
  }

  /** What the loop's latest load of the limit found; `loaded` if it made none. */
  function LastLoaded(stored: nat, loaded: nat, steps: seq<Step>): nat
    decreases steps
  {
    if steps == [] then loaded
    else LastLoaded(if steps[0].SetIpLimit? then steps[0].limit else stored,
                    if steps[0] == Loop(LoadIpLimit) then stored else loaded,
                    steps[1..])
  }

  lemma {:induction false} LimitsAlong(s: State, steps: seq<Step>, loaded: nat)
    requires ValidRun(s, steps) && (s.loop.LimitLoaded? ==> s.loop.limit == loaded)
    ensures After(s, steps).ipLimit == LastSet(s.ipLimit, steps)
    ensures After(s, steps).loop.LimitLoaded? ==> After(s, steps).loop.limit == LastLoaded(s.ipLimit, loaded, steps)
    decreases steps
  {
    if steps != [] {
      LimitsAlong(Next(s, steps[0]), steps[1..], if steps[0] == Loop(LoadIpLimit) then s.ipLimit else loaded);
    }
  }

  /** A reload's store takes effect: the limit is always the one set last. */
  lemma IpLimitIsTheLastSet(max: nat, ipLimit: nat, steps: seq<Step>)
    requires ValidRun(Init(max, ipLimit), steps)
    ensures After(Init(max, ipLimit), steps).ipLimit == LastSet(ipLimit, steps)
  {
    LimitsAlong(Init(max, ipLimit), steps, 0);
  }

  /** And each check of an address is decided by the limit that was stored when the loop loaded it. */
  lemma CheckIpUsesTheLoadedLimit(max: nat, ipLimit: nat, steps: seq<Step>)
    requires ValidRun(Init(max, ipLimit), steps) && After(Init(max, ipLimit), steps).loop.LimitLoaded?
    ensures var s := After(Init(max, ipLimit), steps);
            var limit, ip := LastLoaded(ipLimit, 0, steps), s.loop.ip;
            && Enabled(s, Loop(CheckIp))
            && (Next(s, Loop(CheckIp)).loop == HoldingBoth(ip)
                <==> limit == 0 || ip.IsLoopback() || ip !in s.ips.counts || s.ips.counts[ip] < limit)
            && (Next(s, Loop(CheckIp)).loop != HoldingBoth(ip) ==> Next(s, Loop(CheckIp)) == s.(loop := Uncounting(IpFull)))
  {
    LimitsAlong(Init(max, ipLimit), steps, 0);
    var s := After(Init(max, ipLimit), steps);
    IpSlots.GrantsAreExact(s.ips.counts, s.loop.ip, s.loop.limit);
  }
}
