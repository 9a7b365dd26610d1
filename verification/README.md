# Verified model of PDAG

PDAG is an authorizing reverse proxy in front of the PowerDNS HTTP API. This project models the
parts of it that keep state under concurrency or faults, and proves what they keep.

| part | files |
|---|---|
| audit log pipeline: bounded queue, slot semaphore, flusher, rotation, Close | `AuditLog.dfy`, `AuditLogTheorems.dfy`, `AuditLogger.dfy` |
| plugin manager: crash restart racing with Close | `PluginManager.dfy`, `PluginManagerTheorems.dfy`, `PluginManagerObject.dfy` |
| fan-out authorization, first allow wins | `Authorize.dfy` |
| circuit breaker, and the concurrent plugin calls that drive it | `CircuitBreaker.dfy`, `PluginCall.dfy` |
| token bucket rate limiter with eviction, and cleanup racing with calls | `TokenBucket.dfy`, `LimiterRace.dfy`, `LimiterRaceTheorems.dfy` |
| PostgreSQL array literals | `PgArray.dfy` |
| load balancer with bounded failover | `RoundRobin.dfy`, `Balancer.dfy` |
| API key administration, its audit trail, and authentication | `KeyAdmin.dfy`, `KeyAdminRuns.dfy`, `KeyAdminTheorems.dfy`, `KeyAdminResponses.dfy`, `KeyAdminServer.dfy`, `Authn.dfy`, `Hex.dfy` |
| route templates for metrics, client address | `Normalize.dfy`, `ClientIp.dfy`, `Text.dfy` |

How the model is built:

- A component with several goroutines is a step machine. `Enabled` and `Next` give its atomic steps,
  `Exec` says which lists of steps can happen. A theorem about "every run" quantifies over all lists.
  Timers, process exits, plugin replies, file errors and store faults are steps or parameters.
- An object whose methods update its fields is a class. Its methods are proved against the step
  machine (`AuditLogger.Logger`, `PluginManagerObject.Manager`, `PluginCall.PluginInstance`, through a
  ghost trace or view) or against a value-level function (the other classes).
- Times are integers or reals handed in by the caller. HMAC-SHA256, CIDR matching and address parsing
  are uninterpreted functions.
- Run `dafny verify dfyconfig.toml` to check everything.

## Where the code differs from what is written about it

- Fail-closed audit: the design notes promise that no audited action is forwarded without a durable
  record. A request that holds a slot when Close sets its flag can still be forwarded and its entry
  is then never written. `CloseLosesNothingIff` gives the exact condition.
- `AuditDroppedTotal` grows by two for each fail-closed rejection, once in the logger and once in the
  middleware (`ForwardedCommitsExactlyOnce`).
- A logger that is both published to and reserved from can block a commit (`MixedModesBlockCommit`);
  the middleware never mixes the two.
- The limiter's comment says a bucket refreshed between cleanup's staleness read and its delete is not
  clobbered. It is, in every run: the delete compares pointers and a refresh keeps the pointer
  (`DeleteNeverSpares`, `RacingRefreshIsClobbered`). A call that has looked the bucket up and not yet
  spent when it is deleted spends from the old bucket (`HeldCallIsForgotten`). `DeleteUnnoticedIff`
  and `RaceUnnoticedIff` say exactly when later calls can tell.
- A plugin whose half-open probe is cancelled because another role allowed first, or panics, denies
  every later request if no other call of it is out, while `Healthy` goes on reporting it as able to
  serve (`LostDeniesForever`, `CancelledProbeLosesPlugin`). With another call out it can recover
  (`WedgedRecoversIff`).
- `Normalize` is documented as giving a bounded label set. `/api/v1/servers/:server_id/x` passes any
  `x` through (`BoundedIff`, `PassThroughIsUnbounded`).
- `TextArray` does not survive a round trip for elements that are printed unquoted and are a case
  variant of NULL or have whitespace at an end that does not force quotes (`ValueRoundTripIff`).
- The balancer documents a retry on one other backend. It can be the same backend again, if the
  counter wraps inside the scan, the number of backends does not divide 2^64, and the health loop
  finds the failed backend up in between (`NeverTriesTwiceIff`, `WrapTriesTwice`,
  `RetryNeedsRecovery`).
- An unaudited purge is neither counted nor audited (`AccountedIff`).
- A mutation and its audit event are two calls to the store with no lock around them. Two updates of
  one key can be stored in one order and audited in the other: nothing fails, the inconsistency
  counter does not move, and the audit table says the opposite of what is stored
  (`CrossedUpdatesDisagree`). `RetellsIff` gives the exact condition for each key.
- The threat model says that a missing and a malformed key header get the same 401. The code sends
  different texts; `Authn.Reply` keeps them apart.

## Model

| member | source | states |
|---|---|---|
| `AuditLogTheorems.PermitAccounting` | internal/audit/file/logger.go:133-227 | in every fail-closed run, permits held are the outstanding reservations plus the queued entries plus the one being written, and at most the capacity |
| `AuditLogTheorems.CommitNeverBlocks` | internal/audit/file/logger.go:168-173 | in every fail-closed run the commit of a reservation finds room, also during and after Close |
| `AuditLogTheorems.ReleaseFindsPermit` | internal/audit/file/logger.go:218-227 | in every fail-closed run the release after a write finds a permit to give back |
| `AuditLogTheorems.MixedModesBlockCommit` | internal/audit/file/logger.go:92-227 | a run that publishes and reserves on one logger ends with a commit that blocks, so the previous two need their premise |
| `AuditLogTheorems.WrittenInAcceptanceOrder` | internal/audit/file/logger.go:177-251 | in every run, what the encoders were handed, then the entry in flight, then the queue are the accepted entries in acceptance order, across successful and failed reopens |
| `AuditLogTheorems.FailOpenLosesNothing` | internal/audit/file/logger.go:92-126 | fail-open, once Close has returned: every Publish call happened once and was accepted and written or counted as dropped, never both |
| `AuditLogTheorems.CountersTell` | internal/audit/file/logger.go:92-251 | in every run: each dropped Publish call and each failed write is one write error, each reopen that succeeded opened one file, no more reopens are served than were signalled |
| `AuditLogTheorems.ReopenCanBeServed` | internal/audit/file/logger.go:180-200 | in every run and while the flusher is not draining: a signalled reopen can be served by the flusher alone, which finishes its write first; the file is swapped if and only if the new one opens, nothing handed over is lost |
| `AuditLogTheorems.ForwardedCommitsExactlyOnce` | internal/audit/middleware.go:101-116 | fail-closed: no request goes upstream twice or after a rejection, each one that did is holding its slot or has committed exactly once, each rejection counts two drops |
| `AuditLogTheorems.QuietCloseIsLossFree` | internal/audit/file/logger.go:255-274 | a Close that sets its flag with nothing outstanding loses no accepted entry, however the run goes on |
| `AuditLogTheorems.OutstandingCommitIsLost` | internal/audit/file/logger.go:255-274 | from any state where Close sets its flag with a reservation outstanding, there is a continuation in which Close returns, the flusher is gone, and that request's entry is the one accepted entry left in the queue |
| `AuditLogTheorems.ExitedWritesNothing` | internal/audit/file/logger.go:201-213 | once the flusher is gone no run writes anything more, so that entry is never written |
| `AuditLogTheorems.CloseLosesNothingIff` | internal/audit/file/logger.go:255-274 | Close loses nothing in any continuation if and only if no reservation is outstanding when its flag is set |
| `AuditLogTheorems.EveryForwardedRequestIsAudited` | internal/audit/middleware.go:101-116 | under that condition every request sent upstream has its entry handed to an encoder |
| `AuditLogger.NewLogger` | internal/audit/file/logger.go:51-69 | no logger if the file does not open, else the initial state; a non-positive size gives 4096; a positive timeout makes the logger blocking |
| `AuditLogger.Logger.constructor` | internal/audit/file/logger.go:51-69 | the state of a logger whose file opened |
| `AuditLogger.Logger.EnterPublish` | internal/audit/file/logger.go:92-100 | the closed check is the machine's enter or refuse step |
| `AuditLogger.Logger.SendOrDrop` | internal/audit/file/logger.go:102-126 | sends if and only if there is room and the timer did not win; the trace grows by exactly that step |
| `AuditLogger.Logger.Publish` | internal/audit/file/logger.go:92-126 | returns nil if and only if open, with room and before the timer; appends exactly its steps to the run |
| `AuditLogger.Logger.EnterReserve` | internal/audit/file/logger.go:133-140 | the closed check is the machine's enter or refuse step |
| `AuditLogger.Logger.AcquireOrReject` | internal/audit/file/logger.go:142-166 | takes a permit if and only if one is free and neither the timer nor the request's end came first |
| `AuditLogger.Logger.Reserve` | internal/audit/file/logger.go:133-174 | succeeds if and only if open, with a free permit and before the timer; appends exactly its steps |
| `AuditLogger.Logger.CommitEntry` | internal/audit/file/logger.go:168-173 | enqueues the entry without blocking in any fail-closed run |
| `AuditLogger.Logger.ServeAndCommit` | internal/audit/middleware.go:111-115 | upstream, then exactly one commit |
| `AuditLogger.Logger.Take` | internal/audit/file/logger.go:180-206 | the flusher takes the oldest entry |
| `AuditLogger.Logger.WriteEntry` | internal/audit/file/logger.go:229-240 | the entry is appended to what the encoders were handed, errors are counted |
| `AuditLogger.Logger.WriteAndRelease` | internal/audit/file/logger.go:218-227 | one entry written, one permit given back if there is one |
| `AuditLogger.Logger.SignalReopen` | internal/audit/file/logger.go:242-251 | the reopen signal is the machine's step |
| `AuditLogger.Logger.ServeReopen` | internal/audit/file/logger.go:183-200 | the file is swapped only if the new one opened; nothing handed over is lost |
| `AuditLogger.Logger.Drain` | internal/audit/file/logger.go:201-211 | empties the queue into the files in order and ends the flusher |
| `AuditLogger.Logger.FinishWrite` | internal/audit/file/logger.go:218-227 | the flusher finishes the write it is in the middle of and is back in its select |
| `AuditLogger.Logger.Close` | internal/audit/file/logger.go:255-274 | from wherever the flusher is: closed, queue empty, the entry in flight and all that was queued written in order |
| `PluginManagerTheorems.EveryProcessHasOneOwner` | internal/authz/plugin/manager.go:319-400 | in every interleaving, each process ever started is exactly one of published, held by one restart goroutine, about to be killed by Close, or killed |
| `PluginManagerTheorems.NothingPublishedAfterClose` | internal/authz/plugin/manager.go:354-361 | once Close has emptied the map, it stays empty in every run |
| `PluginManagerTheorems.AllProcessesKilledInTheEnd` | internal/authz/plugin/manager.go:331-400 | when Close has returned and all restart goroutines have finished, every process ever started has been killed |
| `PluginManagerTheorems.NeverStuck` | internal/authz/plugin/manager.go:331-400 | no deadlock in any run: as long as Close or a restart goroutine is under way, one of them can take a step |
| `PluginManagerTheorems.RestartsAreBounded` | internal/authz/plugin/manager.go:331-383 | in every run each restart goroutine takes at most ten steps |
| `PluginManagerTheorems.CloseIsBounded` | internal/authz/plugin/manager.go:386-400 | in every run Close takes at most five steps and one per configured plugin |
| `PluginManagerTheorems.ConfiguredStayPublished` | internal/authz/plugin/manager.go:319-327 | until Close empties the map it holds exactly the configured plugins |
| `PluginManagerTheorems.StoppedMeansKilled` | internal/authz/plugin/manager.go:331-400 | once Close has been called and neither it nor any restart goroutine can go on, every process ever started has been killed |
| `PluginManagerTheorems.OneRestartLoopPerPlugin` | internal/authz/plugin/manager.go:286-291 | until Close empties the map: at most one restart loop per plugin, and the published instance is the one whose crash spawned it, even with callers on stale snapshots |
| `PluginManagerTheorems.SwapReplacesTheCrashed` | internal/authz/plugin/manager.go:319-327 | a swap replaces the crashed instance, changes no other entry, and what is killed after it is the crashed instance |
| `PluginManagerTheorems.FailureMarkLandsOnTheCrashed` | internal/authz/plugin/manager.go:374-382 | the permanent-failure mark lands on the instance whose crash spawned the loop, or nowhere once the map is empty |
| `PluginManagerTheorems.FailedOnlyAfterAllAttempts` | internal/authz/plugin/manager.go:331-382 | an instance is marked failed only after the goroutine its crash spawned failed all five starts |
| `PluginManagerTheorems.OnlyTheExitedAreRestarted` | internal/authz/plugin/manager.go:286-291 | in every run, an instance with a restart goroutine, or a caller about to start one, has exited |
| `PluginManagerTheorems.ExitedCanBeRestarted` | internal/authz/plugin/manager.go:286-291 | any instance callers have can exit, and unless it is given up a caller that sees it then starts the one restart goroutine for it |
| `PluginManagerObject.StartAll` | internal/authz/plugin/manager.go:61-84 | every plugin started and in the map, or exactly those started before the first failure are killed |
| `PluginManagerObject.Manager.constructor` | internal/authz/plugin/manager.go:82-83 | the started processes are published: an initial state of the machine |
| `PluginManagerObject.Manager.TryRestart` | internal/authz/plugin/manager.go:286-291 | spawns a restart if and only if the flag was unset, and the flag is set after |
| `PluginManagerObject.Manager.SwapPlugin` | internal/authz/plugin/manager.go:319-327 | exactly one entry replaced, the replaced instance returned |
| `PluginManagerObject.Manager.Install` | internal/authz/plugin/manager.go:352-371 | closed: the new process is killed and nothing published; open: it is published and the old one killed |
| `PluginManagerObject.Manager.GiveUp` | internal/authz/plugin/manager.go:374-382 | the published instance of that name is marked failed and nothing else changes |
| `PluginManagerObject.Manager.RestartPlugin` | internal/authz/plugin/manager.go:331-383 | cancelled: no change; a first successful start is published in place of the old instance, which is killed; five failures mark the instance |
| `PluginManagerObject.Manager.Close` | internal/authz/plugin/manager.go:386-400 | the map is empty, exactly the published instances are killed |
| `Authorize.AllowsExactlyIfSomeRoleAllows` | internal/authz/plugin/manager.go:183-245 | for every schedule and arrival order, the answer is allow if and only if some role's call allows, and the role it names is one that does |
| `Authorize.CancelledOnlyByAllow` | internal/authz/plugin/manager.go:230-242 | in every run, a call whose result is not collected yet is cancelled only by an allow that is |
| `Authorize.SendNeverBlocks` | internal/authz/plugin/manager.go:197-228 | no worker ever blocks on its send, also after an early return |
| `Authorize.OneResultPerRole` | internal/authz/plugin/manager.go:199-229 | each role has sent no result while its worker is at work and exactly one from then on, panics and missing plugins included |
| `Authorize.NeverStuck` | internal/authz/plugin/manager.go:231-244 | until it has its answer, some step is always possible |
| `Authorize.RunsAreBounded` | internal/authz/plugin/manager.go:183-245 | every run has at most four steps per role, so Authorize returns |
| `Authorize.ReturnsTheAnswer` | internal/authz/plugin/manager.go:231-244 | in every run the machine returns the first allow among the results it collected, or the last deny if there is none |
| `Authorize.CollectResults` | internal/authz/plugin/manager.go:231-244 | the collector loop returns that answer on the results in arrival order |
| `CircuitBreakers.OpensExactlyAtThreshold` | internal/authz/plugin/circuitbreaker.go:107-123 | from closed it opens exactly at max(1, failureThreshold) failures with no success between them since it closed |
| `CircuitBreakers.ClosedHasWindow` | internal/authz/plugin/circuitbreaker.go:90-123 | in every history a closed breaker has such a window, so the previous law always applies |
| `CircuitBreakers.OpenAdmitsOnlyAfterCooldown` | internal/authz/plugin/circuitbreaker.go:65-87 | an open breaker admits if and only if more than the cooldown has passed since the latest recorded failure |
| `CircuitBreakers.ClosedAdmits` | internal/authz/plugin/circuitbreaker.go:65-104 | after every history that leaves it closed, it admits every question, and neither a question nor a success opens it |
| `CircuitBreakers.OpenDeniesUntilCooldown` | internal/authz/plugin/circuitbreaker.go:65-123 | once a failure has left it open, every question is denied until more than the cooldown has passed, whatever is recorded meanwhile |
| `CircuitBreakers.FailedProbeReopens` | internal/authz/plugin/circuitbreaker.go:107-123 | after every history that leaves it half-open, a failure opens it again and a new cooldown begins |
| `CircuitBreakers.LateFailurePushesWindow` | internal/authz/plugin/circuitbreaker.go:107-123 | a failure recorded while open moves that window forward |
| `CircuitBreakers.EpochBudget` | internal/authz/plugin/circuitbreaker.go:65-104 | in every history, late records included, a half-open epoch admits at most max(1, successThreshold) calls, and admissions plus an unused token are at most one more than the successes recorded in it |
| `CircuitBreakers.HalfOpenHasEpoch` | internal/authz/plugin/circuitbreaker.go:65-87 | every half-open history is in an epoch that began with an admitted probe |
| `CircuitBreakers.HalfOpenExactly` | internal/authz/plugin/circuitbreaker.go:79-123 | what ends an epoch and whom it admits, by the history alone: a failure opens, the success that reaches the threshold closes, nothing else ends it; a call is admitted if and only if a success was recorded and nobody admitted since |
| `CircuitBreakers.OneProbeInFlight` | internal/authz/plugin/circuitbreaker.go:79-104 | if every success recorded in an epoch is of one of its own calls, at most one probe is in flight |
| `CircuitBreakers.LateSuccessDoublesProbes` | internal/authz/plugin/circuitbreaker.go:90-104 | a history with a late success and two probes in flight, so that premise is needed |
| `CircuitBreakers.ClosesAfterExactRounds` | internal/authz/plugin/circuitbreaker.go:65-104 | after an open breaker admits a probe and while no failure is recorded, whatever is asked and denied in between: half-open below max(1, successThreshold) successes, closed from that success on, and short of it whoever asks next after a success is admitted |
| `CircuitBreakers.CancelledProbeAdmitsNobody` | internal/authz/plugin/circuitbreaker.go:79-86 | with the probe spent and nothing recorded, every later Allow denies and the state stays |
| `CircuitBreakers.WedgedExactlyUntilRecord` | internal/authz/plugin/circuitbreaker.go:79-123 | such a breaker stays so throughout a history if and only if the history records nothing |
| `CircuitBreakers.CircuitBreaker.constructor` | internal/authz/plugin/circuitbreaker.go:51-61 | starts closed with zero counters |
| `CircuitBreakers.CircuitBreaker.Transition` | internal/authz/plugin/circuitbreaker.go:132-147 | resets both counters and gives out the probe token on half-open only |
| `CircuitBreakers.CircuitBreaker.Allow` | internal/authz/plugin/circuitbreaker.go:65-87 | its answer and new state are those of the history specification |
| `CircuitBreakers.CircuitBreaker.RecordSuccess` | internal/authz/plugin/circuitbreaker.go:90-104 | its new state is that of the history specification |
| `CircuitBreakers.CircuitBreaker.RecordFailure` | internal/authz/plugin/circuitbreaker.go:107-123 | its new state is that of the history specification |
| `PluginCall.EveryRunIsDisciplined` | internal/authz/plugin/manager.go:247-316 | in every run of concurrent calls: the breaker is where its history puts it, each record is the only one of a call admitted before, an allow comes only from a call that was admitted and came back, at most one restart loop is started |
| `PluginCall.AllowedExactly` | internal/authz/plugin/manager.go:308-315 | in every run, a call is decided as allow if and only if the plugin answered it with ALLOW |
| `PluginCall.RecordsAreReports` | internal/authz/plugin/manager.go:269-306 | in every run, the breaker's records are, in order: a success for any answer, a failure for no answer, a timeout or an error, nothing for a cancelled or panicked call |
| `PluginCall.RestartsExactlyOnExit` | internal/authz/plugin/manager.go:283-291 | in every run a restart loop has been started, exactly one, if and only if some call failed and found the process exited |
| `PluginCall.OutExactly` | internal/authz/plugin/manager.go:255-316 | in every run the calls that are out are those admitted that have not come back |
| `PluginCall.LabelTells` | internal/authz/plugin/manager.go:247-315 | the label tells an allow, a deny, a cancelled call, a timeout and an error apart |
| `PluginCall.HealthyIff` | internal/authz/plugin/manager.go:407-418 | an instance counts as healthy if and only if it is not given up and its breaker is half-open or would admit a call at any time |
| `PluginCall.OneProbeIff` | internal/authz/plugin/manager.go:255-306 | in every run, cancelled and panicked calls included: when an open breaker admits a probe, at most one of the epoch's calls is out however it goes on, if and only if nobody else is out at that moment or one success closes the breaker |
| `PluginCall.OneProbeAfterQuiescence` | internal/authz/plugin/manager.go:255-306 | if nobody is out when the epoch begins, at most one call is out throughout it |
| `PluginCall.LostDeniesForever` | internal/authz/plugin/manager.go:269-278 | with the probe spent and nobody out, no run ever admits a call, allows, or starts a restart, and the instance keeps counting as healthy |
| `PluginCall.WedgedRecoversIff` | internal/authz/plugin/manager.go:247-306 | with the probe spent, some run from any given time on admits a later call if and only if a call is still out and the instance is not given up |
| `PluginCall.CancelledProbeLosesPlugin` | internal/authz/plugin/manager.go:269-278 | a four-step run that ends in such a state |
| `PluginCall.PluginInstance.Ask` | internal/authz/plugin/manager.go:247-258 | a failed instance is refused first, then the breaker decides; the step is the machine's |
| `PluginCall.PluginInstance.Return` | internal/authz/plugin/manager.go:208-315 | label, record and restart for each way the call comes back: allowed if and only if the plugin answered ALLOW; a restart if and only if the call failed, the process has exited and neither flag is set; a cancelled or panicked call records nothing |
| `TokenBucket.TokensAreLeastEnvelope` | internal/ratelimit/token/limiter.go:58-88 | for any clock values in any order, what a call finds is the least of burst and, over all windows, burst plus what was earned minus what was allowed |
| `TokenBucket.DeniedExactlyOverEnvelope` | internal/ratelimit/token/limiter.go:81-83 | a call is denied if and only if allowing it would take some window over that envelope |
| `TokenBucket.WindowWithinEnvelope` | internal/ratelimit/token/limiter.go:58-88 | allowed calls in any window ending with an allowed call are at most burst plus what was earned in it |
| `TokenBucket.RateIsAdditive` | internal/ratelimit/token/limiter.go:74-79 | earning rate tokens per second meets the premises of the laws above |
| `TokenBucket.EvictionIsInvisible` | internal/ratelimit/token/limiter.go:111-122 | with monotone time and a bucket that is full by the stale threshold, a limiter that evicts answers every principal as one bucket that is never evicted, from that principal's own calls alone |
| `TokenBucket.EvictionAtRate` | internal/ratelimit/token/limiter.go:14-122 | the same whenever rate times 300 s is at least burst |
| `TokenBucket.EvictionUnnoticedIff` | internal/ratelimit/token/limiter.go:14-122 | evicting idle buckets can never be noticed if and only if rate times 300 s is at least burst, or burst is below one |
| `TokenBucket.DeletionUnnoticedIff` | internal/ratelimit/token/limiter.go:111-122 | deleting one bucket is unnoticed by every later call sequence if and only if it is full, or too small to grant |
| `TokenBucket.CleanupKeepsExactlyRecent` | internal/ratelimit/token/limiter.go:14-122 | with monotone time, right after a cleanup there is a bucket for exactly the principals that called within the last 300 s |
| `LimiterRace.DeleteNeverSpares` | internal/ratelimit/token/limiter.go:106-122 | in every run of calls and cleanup steps, the compare-and-delete succeeds, however often the bucket was refreshed since its staleness was read |
| `LimiterRace.ClobberingIsReachable` | internal/ratelimit/token/limiter.go:58-122 | a run from the empty limiter that ends where the two racing runs below can start |
| `LimiterRaceTheorems.DeleteUnnoticedIff` | internal/ratelimit/token/limiter.go:58-122 | in the machine of calls and cleanup steps, with burst at least one and no call later than the delete under way on the bucket: every run of calls that can follow under a clock that never goes back gets the same answers after the delete as without it if and only if the bucket is full at that time whichever of the calls holding it still spend from it |
| `LimiterRaceTheorems.RaceUnnoticedIff` | internal/ratelimit/token/limiter.go:58-122 | the same from cleanup's read on, for a bucket full again by the threshold, burst at least one, tokens not negative and lock-order times not before the read: unnoticed if and only if every call let through since the read, and every call holding the bucket at the delete, has been earned back by then |
| `LimiterRaceTheorems.RaceUnnoticedIfNoneHeld` | internal/ratelimit/token/limiter.go:58-122 | under those premises and with no call holding the bucket at the delete: unnoticed if and only if every call let through between the read and the delete has been earned back by then |
| `LimiterRaceTheorems.RacingRefreshIsClobbered` | internal/ratelimit/token/limiter.go:106-122 | the run read, lookup, spend, delete: the call is granted, the bucket is no longer stale, it is deleted all the same, and later calls can tell |
| `LimiterRaceTheorems.HeldCallIsForgotten` | internal/ratelimit/token/limiter.go:58-122 | the run read, lookup, delete: nothing was let through since the read, and later calls can tell |
| `TokenBucket.Limiter.constructor` | internal/ratelimit/token/limiter.go:41-49 | no buckets at the start |
| `TokenBucket.Limiter.Allow` | internal/ratelimit/token/limiter.go:58-88 | answer and buckets after a call are the specification's; other principals' buckets are untouched |
| `TokenBucket.Limiter.Cleanup` | internal/ratelimit/token/limiter.go:111-122 | exactly the stale buckets go |
| `PgArray.LiteralRoundTripIff` | internal/store/postgres/pgarray.go:14-109 | a literal with any choice of quoted elements, handed over as a string or as bytes, scans back to its elements if and only if each unquoted one is its own trim and no NULL |
| `PgArray.ValueRoundTripIff` | internal/store/postgres/pgarray.go:14-125 | Scan of Value, handed over as a string or as bytes, gives the array back, nil and empty kept apart, if and only if every element printed unquoted is its own trim and no case variant of NULL |
| `PgArray.ValueIsInjective` | internal/store/postgres/pgarray.go:49-58 | Value maps different arrays, nil included, to different literals |
| `PgArray.EdgeReturnIsLost` | internal/store/postgres/pgarray.go:111-125 | a carriage return does not survive the round trip |
| `PgArray.BareNullIsLost` | internal/store/postgres/pgarray.go:111-125 | the string null does not survive the round trip |
| `PgArray.ScanReadsServerOutput` | internal/store/postgres/pgarray.go:14-109 | Scan reads back every ASCII array in the form the PostgreSQL server prints it, as a string or as bytes |
| `PgArray.ParsedIsMeant` | internal/store/postgres/pgarray.go:60-109 | what the parser makes of any text: for each element the characters it spells, bare, escaped or quoted, trimmed unless it has quotes in it; refused if and only if one without quotes is NULL |
| `PgArray.EveryTextIsSpelled` | internal/store/postgres/pgarray.go:60-109 | every text spells some elements, unclosed quotes and a lone backslash at the end included, so the previous law covers every input |
| `PgArray.NullInAnyCase` | internal/store/postgres/pgarray.go:73-75 | NULL is recognised in any case |
| `PgArray.ScanAcceptsExactly` | internal/store/postgres/pgarray.go:14-46 | nil comes from SQL NULL and from nothing else, a source without text is refused, text that is not enclosed in braces is refused, and what is between braces is parsed, for strings and bytes alike |
| `PgArray.LeftAloneIff` | internal/store/postgres/pgarray.go:111-125 | an element is printed as it is if and only if it is not empty and has none of the special characters |
| `PgArray.ParseArrayElements` | internal/store/postgres/pgarray.go:60-109 | the byte loop computes the scanner specification, NULL elements refused |
| `PgArray.Scan` | internal/store/postgres/pgarray.go:14-46 | nil, text, bytes, other types, missing braces and the empty array |
| `PgArray.QuoteArrayElement` | internal/store/postgres/pgarray.go:111-125 | quotes exactly the elements that need it and escapes quote and backslash |
| `PgArray.WriteValue` | internal/store/postgres/pgarray.go:49-58 | the literal of an array, nothing for nil |
| `RoundRobin.VisitsEachOnceIff` | internal/proxy/balancer/balancer.go:152-165 | a scan visits every backend once if and only if the counter does not wrap inside it or the number of backends divides 2^64 |
| `RoundRobin.NextIsNeighbour` | internal/proxy/balancer/balancer.go:152-165 | each iteration looks at the next backend and each request starts one further, unless the counter wraps |
| `Balancer.NeverTriesTwiceIff` | internal/proxy/balancer/balancer.go:148-191 | whatever the health loop writes, requests with a given counter value never try a backend twice if and only if the counter does not wrap inside the scan or the number of backends divides 2^64 |
| `Balancer.WrapTriesTwice` | internal/proxy/balancer/balancer.go:148-191 | a scan over three backends that tries backend 0 twice |
| `Balancer.RetryNeedsRecovery` | internal/proxy/balancer/balancer.go:103-131 | whatever the counter does, a failed backend is tried again in the same request only if the health loop found it up in between |
| `Balancer.SentAtMostTwice` | internal/proxy/balancer/balancer.go:37-191 | GET, HEAD, PUT and DELETE go to at most two backends, and to one only if it answered, the client left or no other healthy one was seen; POST, PATCH and every other method go to at most one; the client gets what the last attempt came to |
| `Balancer.QuietScan` | internal/proxy/balancer/balancer.go:103-131 | with the health loop silent, a scan changes exactly the flags of the backends whose attempt failed |
| `Balancer.FirstBackendServes` | internal/proxy/balancer/balancer.go:152-191 | a healthy first backend that responds is the only one tried |
| `Balancer.RoundRobinIsFair` | internal/proxy/balancer/balancer.go:152-191 | of m consecutive requests with healthy backends and no failures, each of n backends answers m/n, rounded down or up, unless the counter wraps among them and n does not divide 2^64 |
| `Balancer.AlwaysFairIff` | internal/proxy/balancer/balancer.go:152-191 | that holds of every stretch of requests, wraps included, if and only if n divides 2^64 |
| `Balancer.Balancer.ServeHTTP` | internal/proxy/balancer/balancer.go:152-191 | with health flags written under the scan: exactly the healthy backends seen are tried, at most two and one for a non-idempotent method, another only after a transport error, one outcome decided by the last attempt; a failed backend is marked at once |
| `Balancer.New` | internal/proxy/balancer/balancer.go:83-146 | refuses an empty list and an unparsable URL, else all backends start healthy |
| `Balancer.Balancer.constructor` | internal/proxy/balancer/balancer.go:134-146 | the state of a balancer over n backends |
| `Balancer.Balancer.Visit` | internal/proxy/balancer/balancer.go:103-131 | one iteration reads the flag and marks the backend if and only if its attempt failed in transport |
| `Balancer.Balancer.Healthy` | internal/proxy/balancer/balancer.go:194-201 | true if and only if some flag is set |
| `KeyAdminRuns.HandleIsARun` | internal/admin/server.go:202-624 | a handler that nobody interrupts is its store, audit and compensating steps in a row |
| `KeyAdminRuns.KeysOfRun` | internal/admin/server.go:202-624 | however requests overlap, the keys are what the calls that reached the store made of them in their order |
| `KeyAdminTheorems.EveryChangeIsSomewhere` | internal/admin/server.go:202-624 | in every run of overlapping requests with any faults, each stored change is exactly one of audited, counted, an unaudited purge, taken back, or still on its way |
| `KeyAdminTheorems.TablesOfRun` | internal/admin/server.go:77-86 | the audit table is the events of the audited changes in the order they were audited, and the counter is the number of the counted ones |
| `KeyAdminTheorems.EveryMutationIsAccounted` | internal/admin/server.go:77-86 | in every such run, the changes that stayed are the audit events plus the inconsistency counter plus the unaudited purges plus the changes stored and not yet audited or taken back |
| `KeyAdminTheorems.AccountedIff` | internal/admin/server.go:202-222 | events and counter account for every change that stayed if and only if nothing is on its way and no purge got through with a failed audit write |
| `KeyAdminTheorems.StoreIsItsStory` | internal/store/memory/memory.go:47-253 | what is stored about a key is the replay of what the store calls did to it, in their order |
| `KeyAdminTheorems.ReplayIsLastWords` | internal/admin/server.go:237-624 | a replay tells that the key exists if and only if the last create or delete is a create, and then gives the last word on each setting |
| `KeyAdminTheorems.RetellsIff` | internal/admin/server.go:237-624 | in every run of overlapping requests with any faults and for every key: the audit table alone tells whether the key exists, its principal, roles, state and CIDRs if and only if, setting by setting, what was audited last is what was stored last |
| `KeyAdminTheorems.AuditRetellsStore` | internal/admin/server.go:237-624 | in every such run at most as many keys as the counter says have an uncompensated unaudited change; a key with all changes audited and none by a purge has each of them in the table exactly once, and the table tells what is stored if and only if for each setting the change audited last is the one stored last, in particular if they were audited in store order |
| `KeyAdminTheorems.ZeroCounterFaithfulIff` | internal/admin/server.go:72-86 | with a zero counter, nothing on its way, no purge and no create taken back: the changes audited are exactly those stored, and the table is a faithful account of a key if and only if for each setting the change audited last is the one stored last |
| `KeyAdminTheorems.CrossedUpdatesDisagree` | internal/admin/server.go:424-445 | from any state with the key, a disable and an enable stored in this order and audited in the other: the counter does not move, nothing is left over, the key is enabled and the audit table says disabled |
| `KeyAdminTheorems.CreatedIsReachable` | internal/admin/server.go:237-331 | any valid create reaches such a state from the empty store |
| `KeyAdmin.ValidateRoles` | internal/admin/server.go:48-70 | the loop accepts exactly 1 to 64 roles that are non-empty and at most 128 bytes after trimming, and returns them trimmed |
| `KeyAdminResponses.DoneIffAudited` | internal/admin/server.go:202-624 | the answer is Done if and only if the store call went through and its event is the one new entry of the audit table; any other answer adds none |
| `KeyAdminResponses.DoneMeansDone` | internal/admin/server.go:202-624 | a request answered Done changed exactly what it asks for, in its own key, and its event says what is stored |
| `KeyAdminResponses.DoneCreateIsStored` | internal/admin/server.go:297-318 | a create answered Done is stored; one that is not is stored only if its audit and its compensation failed, and then it is counted |
| `KeyAdminResponses.OtherAnswersTell` | internal/admin/server.go:77-624 | a 400, a 404 or a 500 of the store changes nothing; a failed audit says that the change stayed and is counted, except that a purge is not counted and a create is taken back |
| `KeyAdminResponses.AnswersExactly` | internal/admin/server.go:48-624 | which request gets which answer, by its fields with their limits, the faults and whether its key exists |
| `KeyAdminResponses.StoreIsWellFormed` | internal/admin/server.go:24-624 | at any point of any run of overlapping requests, every stored key has a principal of 1 to 256 bytes, 1 to 64 trimmed roles of 1 to 128 bytes and at most 256 CIDRs |
| `KeyAdminResponses.ExpirySetAhead` | internal/admin/server.go:285-489 | every stored expiry lay in the future when a request for that key set it |
| `KeyAdminResponses.HandleAnswersOnce` | internal/admin/server.go:202-624 | the run of an uninterrupted request sends one answer, the handler's |
| `KeyAdminResponses.AnswersMatchTables` | internal/admin/server.go:77-624 | however requests overlap, there are as many answers Done as audit events, and as many failed audits as changes counted, forgotten or taken back |
| `KeyAdminServer.KeyStore.Create` | internal/store/memory/memory.go:47-64 | refuses an existing id, else adds exactly that record |
| `KeyAdminServer.KeyStore.Update` | internal/store/memory/memory.go:164-240 | not found, or exactly that record replaced |
| `KeyAdminServer.KeyStore.Delete` | internal/store/memory/memory.go:215-223 | not found, or exactly that record removed |
| `KeyAdminServer.KeyStore.DeleteExpired` | internal/store/memory/memory.go:242-253 | the loop removes exactly the expired keys and counts them |
| `KeyAdminServer.Server.AuditMutation` | internal/admin/server.go:77-86 | one audit event, or one more inconsistency |
| `KeyAdminServer.Server.CreateKey` | internal/admin/server.go:237-331 | world and response are those of the request specification, compensation included |
| `KeyAdminServer.Server.DeleteKey` | internal/admin/server.go:405-422 | world and response are those of the request specification |
| `KeyAdminServer.Server.SetKeyEnabled` | internal/admin/server.go:424-445 | world and response are those of the request specification |
| `KeyAdminServer.ParseExpiry` | internal/admin/server.go:461-473 | an expiry is taken if it is absent or a time in the future |
| `KeyAdminServer.Server.SetKeyExpiry` | internal/admin/server.go:451-489 | world and response are those of the request specification |
| `KeyAdminServer.Server.RotateKey` | internal/admin/server.go:496-545 | world and response are those of the request specification |
| `KeyAdminServer.Server.UpdateRoles` | internal/admin/server.go:551-581 | world and response are those of the request specification |
| `KeyAdminServer.Server.UpdateAllowedCIDRs` | internal/admin/server.go:587-624 | world and response are those of the request specification |
| `KeyAdminServer.Server.PurgeKeys` | internal/admin/server.go:202-222 | world and response are those of the request specification |
| `Hex.DecodeEncode` | internal/admin/hmac/keygen.go:48-52 | decoding the hex text of a MAC gives the MAC back |
| `Hex.DecodesExactly` | internal/authn/hmac/hmac.go:48-51 | exactly the texts of pairs of hex digits decode |
| `Authn.StoreHoldsLastMinted` | internal/store/memory/memory.go:202-213 | after any store calls with any faults, every stored hash is that of the last secret minted for its key |
| `Authn.StoreHoldsLastTerms` | internal/store/memory/memory.go:164-253 | after any store calls with any faults, the store holds for each key what the calls that went through said last |
| `Authn.AcceptedExactly` | internal/authn/hmac/middleware.go:67-141 | at any point of any run of overlapping admin requests with any faults, a well-formed request is accepted if and only if its secret has the MAC of the last secret minted for the key and by the store calls so far the key exists, is enabled, has no expiry before now and no CIDRs or one that contains the address; every other one gets the same denial |
| `Authn.RefusedBeforeTheKey` | internal/authn/hmac/middleware.go:33-111 | which headers are missing or malformed, and that a well-formed one ends in an internal error if and only if the store fails or the stored key cannot be checked |
| `Authn.MintingSecretIsFound` | cmd/pdag/serve.go:94-99 | verification finds an entry's own secret if and only if the last configured entry with its id has the same secret |
| `Authn.PurgeIsInvisible` | internal/store/memory/memory.go:242-253 | purging at T changes no acceptance at or after T, whatever store calls follow, unless one edits the expiry of a purged key or creates its id anew |
| `Authn.ExpiryEditRevives` | internal/admin/server.go:451-489 | an expiry edit does tell a purged from an unpurged key, so the previous law needs its premise |
| `Authn.CutHeader` | internal/authn/hmac/middleware.go:33-47 | the header of an id without colon and any secret is cut back into the two |
| `Authn.AddressAllowed` | internal/authn/hmac/middleware.go:118-141 | the loop admits an address if and only if the list is empty or one of its ranges contains it |
| `Authn.Authenticate` | internal/authn/hmac/middleware.go:67-141 | the decision chain gives the specified reply for every header, record, fault, time and address |
| `Normalize.NormalizeIsIdempotent` | internal/httproute/normalize.go:24-95 | normalizing twice is normalizing once |
| `Normalize.TrailingSlashIgnored` | internal/httproute/normalize.go:24-35 | a trailing slash makes no difference |
| `Normalize.IdsAreMasked` | internal/httproute/normalize.go:36-95 | replacing the server id, zone id, cryptokey id or metadata kind by any other segment makes no difference |
| `Normalize.ImageIs` | internal/httproute/normalize.go:24-95 | the results are exactly 17 templates and the family /api/v1/servers/:server_id/x |
| `Normalize.BoundedIff` | internal/httproute/normalize.go:18-95 | a path gets one of the 17 templates if and only if it is not of the pass-through shape |
| `Normalize.TemplateIff` | internal/httproute/normalize.go:24-95 | a path gets a template other than /other if and only if it matches it segment by segment, a mask matching anything |
| `Normalize.OtherIff` | internal/httproute/normalize.go:24-95 | a path folds to /other if and only if it matches no template and is no pass-through |
| `Normalize.PassThroughIsUnbounded` | internal/httproute/normalize.go:18-95 | different pass-through segments give different results |
| `Normalize.NormalizePath` | internal/httproute/normalize.go:24-95 | the code that shrinks and overwrites the segment list computes the specification |
| `ClientIp.ClientIsRightmostUntrusted` | internal/clientip/clientip.go:46-73 | the client is the rightmost untrusted hop with every hop to its right well formed and trusted, else the peer |
| `ClientIp.HeaderBelievedOnlyFromTrusted` | internal/clientip/clientip.go:46-73 | for every peer and header, an address other than the peer's is taken only from a trusted peer, and it is that of the rightmost untrusted hop behind trusted ones |
| `ClientIp.LeftTextIgnoredIff` | internal/clientip/clientip.go:46-73 | no text put in front of the header changes the result if and only if the trusted chain does not reach its left end |
| `ClientIp.WalkIgnoresLeft` | internal/clientip/clientip.go:59-72 | a walk that stops before the left end does not depend on what is further left |
| `ClientIp.IsTrusted` | internal/clientip/clientip.go:75-82 | the loop finds whether some trusted range contains the address |
| `ClientIp.WalkBack` | internal/clientip/clientip.go:59-72 | the right-to-left loop stops at the first untrusted or malformed hop |
| `ClientIp.ClientIP` | internal/clientip/clientip.go:46-73 | peer rules, header and walk together |

## Left out

- HTTP, gRPC, process launch, SQL, metrics export, tracing, logging and signals: their results are parameters.
- float64 rounding in the limiter: tokens and times are reals.
- Invalid UTF-8: strings are sequences of code points; limits on their length count UTF-8 bytes.
- Entry fields other than request id, method, path and status, and the redaction of bodies: the pipeline never looks at them.
- AuditLogger.Logger.Close: the object starts when the write lock is free, and nobody else runs until it returns; waiting for the lock and every other interleaving are in the step machine.
- AuditLogger.Logger.Drain: the object drains while nobody else runs; commits that come in between are in the step machine.
- Close called twice on the logger or the manager: the models call it once.
- PluginManagerObject.Manager.Install: the object starts when writeMu is free; waiting for it is in the step machine.
- PluginManagerObject.Manager.GiveUp: the object starts when writeMu is free; waiting for it is in the step machine.
- PluginManagerObject.Manager.Close: the object starts when writeMu is free; waiting for it is in the step machine.
- PluginManagerObject.Manager.RestartPlugin: one goroutine running alone; interleavings are in the step machine.
- Plugin start with a failed handshake: a start that fails leaves no process.
- A parent context that ends during Authorize: the theorems are about requests whose client stays.
- TokenBucket.Limiter.Cleanup: runs atomically, and buckets are values; the race with calls is in `LimiterRace` and `LimiterRaceTheorems`.
- KeyAdminServer.KeyStore.Update: the setters are one method that takes the field change; CreatedAt and UpdatedAt are not kept.
- KeyAdminServer.Server.CreateKey: the object handles requests one after the other; overlapping requests are in `KeyAdminRuns`. A body that does not decode is one fault, whatever is wrong with it.
- KeyAdminTheorems.AuditRetellsStore: about keys with a non-empty id; the empty id stands for a purge in the audit table.
- Listing, filtering and paging of keys, bearer-token and rate-limit wrappers of the admin API: they would only add easy members.
- Authn.Authenticate: constant-time comparison and latency are not expressible.
- Several X-Forwarded-For header lines: the code reads the first.
- PgArray.ScanReadsServerOutput: ASCII only; the server's quoting rule is stated from PostgreSQL's array output format.
- Config loading, CLI, header rewriting, bundled plugins, body buffering and generated code: plumbing with easy properties.
