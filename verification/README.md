# Verified model of the reprox admission and lifetime engine

reprox is a TLS front that accepts connections, limits them globally and per address, sniffs the server
name, and either passes a connection through to a hidden service or serves a fallback site. This
project models the part that decides who is let in, for how long resources are held, what a live
reload may change, and that nothing of a connection is lost on the way. It proves:

- the token bucket refines a rule over the whole request history, forgetting full buckets is
  unobservable under an exact condition on limits and clocks, and the admission rate stays bounded under
  every interleaving with reloads and sweeps (`TokenBucket`, `RateRuns`, `RateExactness`, `SweepUnobservable`,
  `SweepCondition`, `RateBound`, `RateRefinement`);
- the per-IP counter obeys an exact drift law when the limit is switched off and on, and is exact while
  the limit stays positive (`IpSlots`, `IpSlotRuns`);
- the accept loop, the connection slots, the guards and the connection tasks keep every counter in
  balance at every atomic step (`Admission`, `AdmissionLedger`, `AdmissionSafety`, `AdmissionOutcomes`,
  `AdmissionEvents`, `TaskProgram`, `LoopProgram`, `AcceptLoop`);
- reload generations reach each connection in a fixed order, and exactly when routes and certificate of
  different generations meet (`Reload`, `ReloadReach`, `Routing`);
- byte replay is invisible to the reader (`Replay`); backoff and retries have a closed form, exact
  counters and a time bound (`Backoff`, `Connect`); the ALPN check is exact for the wire format (`Alpn`);
  the route index is a linear scan of the list (`RouteConfig`, `Routing`).

Modelling assumptions. `f64` values are reals and `Instant`s are seconds on a real line, so rounding is
absent. Atomics are sequentially consistent although the source uses `Relaxed`. Counters are unbounded
integers, except that a stored per-IP count of 0 would wrap. Locks are never poisoned. What the network,
the clock, the file system, the TLS handshake and the upstream's own address check do are free inputs.
The accept loop is the only caller of `allow` and of `try_acquire_slot`, as in `accept_loop`; the rate
bound does not even need that its clock readings are in order.

Where the code and its own documentation differ, the model follows the code:

- src/rate_limiter.rs:98-100 and src/main.rs:301-303 say that forgetting a full bucket loses no state.
  That needs limits no more generous at the address's next decided call, and a sweep that does not overtake
  that call between its clock reading and its lock; `SweepCondition.SweepConditionIsExact` gives the exact
  condition on both, and `RateBound.OvertakenCallExceedsPlainBound` a run in which the rate is exceeded.
- A sweep that loads its capacity, is overtaken by a reload that raises it, and only then takes the lock
  lets more connections through than burst, rate and raise allow: `RateBound.OutdatedSweepExceedsPlainBound`;
  `RateBound.PlainBoundConditionIsExact` says exactly when the plain bound holds.
- README.md:365-369 says routes and certificate never mix. The certificate is read later and from its own
  cell: `Reload.CertificateAheadOfRoutes`, `Reload.RoutesAndCertificateCanMix`.
- src/main.rs:192-202 says `tls_min_version` is not reloaded. Each snapshot rebuilds the server
  configuration from the new file, so it is: `Routing.NewState`.
- src/ip_limiter.rs:70-73 says loopback gets no slot. The code grants an uncounted one.

`dafny verify dfyconfig.toml` checks the whole project.

## Model

| member | source | states |
|---|---|---|
| Common.LoopbackIsExact | src/rate_limiter.rs:67 | loopback is 127.0.0.0 to 127.255.255.255 and ::1 |
| TokenBucket.RateLimiter.Allow | src/rate_limiter.rs:63-96 | the answer and the new table are those of the bucket rule on the old table: a disabled limiter and loopback allow and touch nothing, a new address starts full, a refused call still refills |
| TokenBucket.RateLimiter.Sweep | src/rate_limiter.rs:101-120 | keeps exactly the buckets that have not refilled under the current limits, unchanged |
| TokenBucket.TokensStayNonNegative | src/rate_limiter.rs:84-95 | no call or sweep, under any limits and clock readings, drives a bucket below zero |
| RateRuns.TableStaysNonNegative | src/rate_limiter.rs:84-120 | the same over every run of calls, sweeps and limit changes |
| RateRuns.ExemptCallsPass | src/rate_limiter.rs:67-69 | in every run a call from loopback, or while the rate is not positive, is allowed and leaves the table as it is |
| RateRuns.LoopbackIsNeverTracked | src/rate_limiter.rs:58-69 | no run ever has a bucket for a loopback address |
| RateExactness.LevelTracksWindows | src/rate_limiter.rs:84-88 | at fixed limits the tokens before any call are the minimum, over all windows of the address's past calls, of capacity + rate * length - admissions, and at most the capacity |
| RateExactness.AnswerIsWindowRule | src/rate_limiter.rs:63-96 | a call is admitted iff no window ending at it would exceed capacity + rate * length |
| RateExactness.LimiterIsTheWindowRule | src/rate_limiter.rs:1-10 | for every timely history with any sweeps, a sequence of decisions obeys the history rule iff it is the limiter's own |
| SweepUnobservable.SweepsUnobservable | src/rate_limiter.rs:98-120 | for any limit changes and clock readings that are safe between a sweep and an address's next decided call, two runs that differ only in which sweeps happen answer every call alike |
| SweepUnobservable.SweepsUnobservableAtFixedLimits | src/main.rs:301-311 | at fixed limits no sweep, however stale its clock, changes any answer, if none overtakes a call |
| SweepCondition.SweepConditionIsExact | src/rate_limiter.rs:98-120 | sweeps under limits L before calls under L' that they overtake by up to a given time are unobservable in every run iff capacity' <= room and capacity' * rate <= room * rate', where room is what a full bucket was sure to hold that time before |
| SweepCondition.FixedLimitsAllowNoLead | src/rate_limiter.rs:79-88 | at fixed limits sweeps are unobservable iff they overtake no call at all |
| SweepCondition.BurstAdmittedIffCovered | src/rate_limiter.rs:84-95 | m calls at one instant are all admitted iff the level is at least m |
| SweepCondition.SurvivorsAreRecent | src/rate_limiter.rs:101-120 | whatever limits came before, a bucket that survives a sweep at time t belongs to an address whose last decided call is later than t - capacity / rate |
| RateBound.AdmissionsAreBounded | src/rate_limiter.rs:51-120 | from any reachable state, with every load and store a step of its own and any clock readings, one address's admissions are at most capacity + top rate * time + raises + what outdated sweeps give away + top rate * the time by which calls were overtaken |
| RateBound.UndisturbedAdmissionsAreBounded | src/main.rs:265-270 | without outdated sweeps and overtaken calls the last two terms are absent, for any interleaving of the two stores of `set_limit`, calls and sweeps |
| RateBound.PlainBoundConditionIsExact | src/rate_limiter.rs:51-120 | at every positive rate the bound without those terms holds of all runs whose sweeps lag by at most `lag` and whose calls are overtaken by at most `lead` iff both are 0 |
| RateBound.OutdatedSweepExceedsPlainBound | src/rate_limiter.rs:101-120 | at every rate a run with one sweep outdated by one admits three where capacity and raises allow two |
| RateBound.OvertakenCallExceedsPlainBound | src/rate_limiter.rs:71-88 | at every rate r, a run in which a sweep overtakes a call by d, however small, admits three where capacity and rate allow 3 - d * r |
| RateRefinement.HistoriesAreStagedRuns | src/rate_limiter.rs:51-120 | every history of whole operations, access by access, is a run of the staged system with the same table, limits and admissions |
| IpSlots.IpLimiter.TryAcquireSlot | src/ip_limiter.rs:74-98 | limit 0 and loopback are granted uncounted, anyone else exactly below the limit and counted; a refusal leaves no entry |
| IpSlots.IpLimiter.ReleaseSlot | src/ip_limiter.rs:49-59 | takes one off whatever counter the address has, removing it at zero, and never underflows |
| IpSlots.GrantsAreExact | src/ip_limiter.rs:74-98 | the same of the critical section that runs are made of |
| IpSlotRuns.RunKeepsInv | src/ip_limiter.rs:49-98 | over every run no zero is stored, loopback never is, and no count exceeds the live slots |
| IpSlotRuns.DriftLaw | src/ip_limiter.rs:49-98 | live slots minus counter = slots granted untracked - drops that found no counter, limits toggled through 0 included |
| IpSlotRuns.GrantedUpToDrift | src/ip_limiter.rs:74-98 | a tracked request is granted iff live slots < limit + untracked grants - missed drops |
| IpSlotRuns.AdmissionWithinLimitAndUntracked | src/ip_limiter.rs:74-98 | after a tracked admission an address holds at most limit + its untracked grants since it was last idle |
| IpSlotRuns.ExcessIsReachable | src/ip_limiter.rs:76-81 | that excess is reached for every limit and every number of untracked slots |
| IpSlotRuns.PositiveLimitsCap | src/ip_limiter.rs:74-102 | under limits within 1..top the counter stays exact, live slots end at most top, and above top they never rise |
| IpSlotRuns.PositiveLimitIsExact | src/ip_limiter.rs:84-92 | with an exact counter a request is granted iff live slots < limit, and a refused one changes nothing |
| IpSlotRuns.EntriesWithinLiveAddresses | src/ip_limiter.rs:32-59 | at most one map entry per address with a live slot |
| AdmissionLedger.StepKeepsInv | src/main.rs:333-394 | every atomic step of the loop and of any task keeps every counter equal to what tasks and loop have put into it |
| AdmissionLedger.TaskActIsWeighed | src/route/router.rs:168-296 | each shared access of a task moves exactly the counter it should |
| AdmissionSafety.ResourcesAreNested | src/limiter.rs:22-75 | at every step active_proxied + active_fallback <= connections <= permits out <= max_connections, and free plus held permits make the maximum |
| AdmissionSafety.AdmissionsAreConserved | src/main.rs:333-394 | accepted = rate rejections + per-IP rejections + tasks (+ one in hand); connections = tasks still counted + the loop's own |
| AdmissionSafety.LoopWaitsExactlyWhenFull | src/main.rs:318-334 | the loop is blocked before accept iff max_connections tasks hold a permit |
| AdmissionSafety.IpSlotsAreOwned | src/main.rs:384-393 | a finished route can always drop its slot; no per-IP count exceeds the tasks and the loop holding one |
| AdmissionSafety.TasksPerAddressAreCapped | src/main.rs:366-380 | while the reloaded limits lie in 1..top, no address but loopback has more than top live tasks |
| AdmissionSafety.EngineRunsTheIpLimiter | src/main.rs:366-393 | every run of the engine projects onto a run of the per-IP limiter |
| AdmissionOutcomes.ProbesAndRoutesAreConserved | src/route/router.rs:193-295 | at every step: tasks = probe errors + timeouts + names present + absent + tasks not yet probed; names = proxied + fallback + names not yet decided; proxied <= present |
| AdmissionOutcomes.GuardsAreConserved | src/metrics.rs:54-78 | at every step, on each route: total = active + completed + tasks between a counter and their gauge |
| AdmissionOutcomes.HandshakesAreConserved | src/route/serve.rs:45-86 | at every step: fallbacks = handshake successes + failures + fallbacks not yet tried; successes = h2 + http/1.1 + none + protocols not yet read |
| AdmissionOutcomes.FinishedOutcomesAreComplete | src/route/router.rs:168-296 | once all tasks finish: totals = completed even after panics, and all chains together are short by at most one per task that panicked |
| AdmissionEvents.OutcomesCountEvents | src/route/router.rs:193-295 | over every run each outcome counter is the number of its own events |
| AdmissionEvents.RejectionsCountRefusals | src/main.rs:357-380 | rate rejections are the refused rate checks, and per-IP checks end as per-IP rejections or tasks, but for one in hand |
| AdmissionEvents.IpLimitIsTheLastSet | src/ip_limiter.rs:100-102 | the per-IP limit is always the one set last, or else the initial one |
| AdmissionEvents.CheckIpUsesTheLoadedLimit | src/ip_limiter.rs:74-98 | each per-IP check is decided by the limit stored when the loop loaded it, and a refused one changes nothing else |
| TaskProgram.TaskFollowsItsProgram | src/route/router.rs:168-296 | the complete runs of a task, panics included, are exactly the sequences of shared accesses that the source's program makes |
| LoopProgram.LoopFollowsItsProgram | src/main.rs:333-394 | the complete passes of the accept loop, cancellations included, are exactly the sequences of shared accesses that the source's program makes |
| AdmissionSafety.DrainedMeansIdle | src/main.rs:281-299 | when the stopped loop's drain reads no active connection, every route is over, both gauges are 0 and no per-IP counter is left |
| AcceptLoop.Acceptor.Iterate | src/main.rs:333-394 | one loop iteration's whole effect on limiters and counters, case by case |
| AcceptLoop.Acceptor.Admit | src/main.rs:357-364 | an accepted connection is refused by rate, refused by address or handed over, and only a refusal gives the slot back |
| AcceptLoop.Acceptor.HandOver | src/main.rs:366-393 | a granted address keeps both slots with its task; a full one costs the loop its slot and counts one rejection |
| AcceptLoop.IterationIsARun | src/main.rs:333-394 | an undisturbed iteration is a run of the transition system |
| AcceptLoop.Stats.Begin | src/metrics.rs:186-208 | counts one route and brings one guard to life; the gauges are the guards alive, and totals = active + completed |
| AcceptLoop.Stats.DropGuard | src/metrics.rs:54-78 | ends one guard that is alive and counts its completion; the gauges stay the guards alive, so never below 0 |
| AcceptLoop.Stats.ConnectionsAvailable | src/metrics.rs:246-248 | reports the saturating difference of the maximum and the connections |
| AdmissionSafety.AvailabilityNeverSaturates | src/metrics.rs:246-248 | at every step of every run that difference is the plain one, and at least the free permits |
| Reload.GenerationsAreChained | src/main.rs:222-276 | for every served connection: burst, rate <= per-IP limit <= routes <= certificate, by generation read, and burst <= rate + 1 |
| ReloadReach.GenerationsSeenAreTheChained | src/main.rs:261-272 | the chain is exact: a connection can see a combination of generations iff it satisfies it |
| Reload.CellsStayTogether | src/main.rs:261-272 | globally rate <= burst <= per-IP limit <= routes <= certificate <= rate + 1, all equal unless a reload is storing |
| Reload.BadConfigsChangeNothing | src/main.rs:232-242 | reloads whose configuration does not load leave every cell alone and never get to the key |
| Reload.BadKeysChangeNothing | src/main.rs:245-259 | reloads whose key does not load leave every cell alone |
| Reload.GenerationsCountAppliedReloads | src/main.rs:222-272 | the certificate's generation is the number of reloads that loaded first a configuration, then a key, and made their first store |
| Reload.CertificateAheadOfRoutes | src/tls.rs:55-69 | the certificate a connection uses is ahead of its routes by exactly: one if a reload was between its first two stores at the snapshot, plus the certificate stores since |
| Reload.RoutesAndCertificateCanMix | src/route/router.rs:17-21 | a concrete run in which a connection sees generation 0 routes with the generation 1 certificate |
| Routing.NewState | src/route/router.rs:83-99 | the table finds, for every name, the route listed last; it has as many entries as routes iff no name is listed twice; only TLS 1.3 is allowed iff the minimum is "1.3" |
| Routing.IndexIsTheScan | src/route/router.rs:83-88 | for every validated list the table finds what a linear scan finds, for every name: the one listed route of that name, or none |
| Routing.ConfiguredHostIsFound | src/route/router.rs:230-234 | for every configuration that loads, the canonical form of a configured host finds that host's route |
| Routing.Router.Reload | src/route/router.rs:146-156 | swaps in a snapshot all of whose parts come from the new configuration |
| Routing.Router.Decide | src/route/router.rs:234-294 | from one snapshot: a listed passthrough route is passed through, any other listed route terminated with its own ALPN list or h2 then http/1.1, and the fallback served iff no listed route has the name |
| Routing.ApplyReload | src/main.rs:261-272 | certificate, routes, per-IP limit and rate limits are replaced in this order: what the cells hold after each call is the new in the first and the old in the rest |
| Routing.GenerationsAreMixtures | src/main.rs:261-272 | at every reachable point of the generation model the cells hold such a mixture of two successive loads |
| Routing.HotReload | src/main.rs:210-276 | after any sequence of signals every cell holds what the last reload that loaded both files brought, absent limits by their defaults 0, 0.0 and 10; buckets and slots stay |
| RouteConfig.NormalizeIsIdempotent | src/config.rs:207-209 | normalising twice is normalising once |
| RouteConfig.NormalizeIdentifiesHosts | src/config.rs:207-209 | two names normalise alike iff they differ only in ASCII case and trailing dots |
| RouteConfig.NormalFormIsCanonical | src/config.rs:207-209 | a normal form has no ASCII capital and no trailing dot, and a name without them is its own |
| RouteConfig.ValidateRoutes | src/config.rs:284-309 | accepts iff names are distinct and every entry is acceptable; a rejection names the first entry at fault and its first fault |
| RouteConfig.LoadRoutes | src/config.rs:207-212 | stores every name in canonical form, as the same host, and no two entries for the same host pass together |
| Alpn.ValidateAlpnProtocols | src/config.rs:463-511 | accepts a present list iff it is free of duplicates and encodable in the wire format; otherwise reports the first fault |
| Alpn.LengthsMeanEncodable | src/config.rs:457-468 | the length conditions hold iff some wire bytes decode to the list (section 3.1 of RFC 7301) |
| Alpn.ListRoundTrip | src/config.rs:463-511 | decoding the encoding gives the list back |
| Alpn.DecodedListEncodesBack | src/config.rs:463-511 | whatever decodes is the encoding of what it decodes to, and meets the check's conditions |
| Replay.ReadCapturingStream.PollRead | src/route/capturing_stream.rs:48-63 | records exactly the bytes this read added, whatever the buffer held before |
| Replay.ReadCapturingStream.TakeCaptured | src/route/capturing_stream.rs:35-37 | hands over the recording and leaves it empty, so a second take adds nothing |
| Replay.PrefixedStream.PollRead | src/route/prefixed_stream.rs:32-50 | moves a front piece of what is upcoming into the buffer and loses nothing; reports an end only at the true end |
| Replay.Passthrough | src/route/router.rs:247-253 | for any reads before and after, what is forwarded followed by what is to come is the client's stream from its first byte |
| Backoff.DelayClosedForm | src/route/proxy.rs:86-98 | delay(n) = 0 for n <= 1, else min(base * min(2^(n-2), 2^32-1), max), for all policies and attempts |
| Backoff.CheckedMulIsExact | src/route/proxy.rs:94-96 | multiplying by parts is multiplying the nanoseconds, failing exactly past the largest duration |
| Backoff.DelayIsMonotone | src/route/proxy.rs:83-98 | later attempts never wait less |
| Backoff.DelayDoublesUntilSaturation | src/route/proxy.rs:90-93 | each wait is twice the last up to the cap, for every policy, iff n <= 32 |
| Backoff.TotalDelayWithinDoubling | src/route/proxy.rs:83-98 | all waits of m attempts together are at most base * (2^(m-1) - 1) |
| Backoff.TotalDelayWithinCaps | src/route/proxy.rs:63-66 | and at most (m - 1) * max |
| Connect.ConnectWithBackoff | src/route/proxy.rs:112-175 | connects iff one of the max(1, max_attempts) attempts would in time, at the first that does; otherwise makes them all and reports the last one's error; counts each retried failure and takes exactly the delays and attempts it made |
| Connect.RelayToService | src/route/proxy.rs:177-199 | connects iff some attempt would; retries + failures = failed attempts over any sequence of connects; time is at most attempts * timeout + all delays, and under the production policy at most 13.4 s |
| Connect.TimeIsExact | src/route/proxy.rs:117-126 | attempts that answer in time cost what they take, those that do not the whole timeout, on top of all the delays |
| Connect.DefaultDelaysDouble | src/route/proxy.rs:76-81 | the production policy waits 200, 400, 800 and 1600 ms before attempts 2 to 5 |
| Connect.DefaultDelaysEnd | src/route/proxy.rs:76-81 | and 2 s before any later one |
| Connect.DefaultGivesUpIn13400Millis | src/route/proxy.rs:70-81 | the production policy gives up within 13.4 s |
| Connect.DefaultBoundIsReached | src/route/proxy.rs:70-81 | an upstream that never answers takes exactly that long |

## Left out

- TLS, certificate and key parsing: a certificate is an opaque value and a handshake a free outcome.
- Sockets, byte relaying after the connect, signals, files, environment overrides, TOML: free inputs or absent.
- The endless loops of `accept_loop`, `hot_reload` and the janitor: one iteration or any finite sequence of inputs is a method, all interleavings are runs of a transition system.
- HTTP responses, the static site, metrics rendering: no state worth proving.
- A whole metrics snapshot: its loads are separate, so only `connections_available` is claimed.
- Weak-memory effects, floating-point rounding, lock poisoning, counter wrap-around: see the assumptions.
- Cloning an `IpSlot`: nothing in the source does.
- Tasks aborted by the runtime at exit, and handshake counters of terminated proxy routes: not modelled.
- The upstream address check: any predicate, since it rests on the standard parsers.
- The remaining field checks of `validate` (timeouts, paths, rates): single comparisons.
- RateBound.AdmissionsAreBounded: carries terms for sweeps with an outdated capacity and for overtaken calls, because the plain bound is false as soon as there are any (`RateBound.PlainBoundConditionIsExact`).
- AcceptLoop.IterationIsARun: about an iteration that nothing interrupts, because a method body is sequential; iterations interleaved with tasks and reloads are the runs of `Admission`, for which the ledger and its consequences are proved.
- RateExactness.LimiterIsTheWindowRule: assumes that no sweep overtakes a call, because otherwise sweeps show; `SweepCondition.FixedLimitsAllowNoLead` proves that they do.
