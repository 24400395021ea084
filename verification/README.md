# Smaug: wake, reload, sleep and retry

Smaug is a reverse proxy that wakes sleeping servers on demand and puts them back to sleep when they are idle. This project models the parts of it where several goroutines, partial failures or machine arithmetic meet, and proves what those parts are for.

Two styles are used side by side. Code that one thread runs between two points at which others can interfere is written as classes and methods, with the fields of the source, and proved against functions of the old state. What any number of threads do together is written as a transition system whose steps are the atomic actions of the source; the theorems hold in every reachable state, or over every run.

| file | contents |
|---|---|
| `WakeProtocol.dfy` | the wake protocol: requests, wakes, mutex, clock, health store, `done` channels, wait group |
| `WakeSafety.dfy`, `WakeTheorems.dfy` | its invariants, and single flight, wake rate, agreement, forwarding safety |
| `WakeAnswers.dfy` | what leads to which answer: health is acted on, a refusal has a reason, and when a wake starts |
| `WakeShutdown.dfy` | what the wait group says, what can still start after Close, and how a finished wake leaves |
| `WakeRefinement.dfy` | a join-or-start cell, and that every run of the protocol is a run of the cell |
| `WakeProgress.dfy` | the timed protocol: store reads of wakes and of requests, a decreasing rank, who serves a waiter |
| `WakeCoordinator.dfy` | `ensureWake`, the poll loop and `performWake` over the coordinator's fields |
| `Tables.dfy`, `Routes.dfy` | last-wins tables, route keys, and the diff |
| `ReloadSpec.dfy` | a reload as a relation between sequences, and what follows whatever stops fail |
| `Listeners.dfy` | listeners, their index and their sockets as values: what stops, cleanup, starts and launches do |
| `RouteManager.dfy` | the route manager with its listener list, its index and the sockets it holds |
| `HotReload.dfy`, `ConfigManager.dfy` | file events, overlapping reloads, the capacity-1 signal and the watcher |
| `Lifecycle.dfy` | Start and Stop of a background goroutine, called by any number of callers at once, whatever its work |
| `IdleTracker.dfy`, `IdleTiming.dfy` | the sweep, and its timing over whole runs |
| `IdleChecker.dfy` | the tracker's checker goroutines and activity callers, interleaved |
| `SleepPipeline.dfy`, `SleepCoordinator.dfy` | the trigger channel and its consumer |
| `SleepOrder.dfy` | exactly when Sleep is called in the order of emission |
| `Retry.dfy` | the retry loop and the capped exponential backoff on 64-bit durations |
| `Substitute.dfy` | environment substitution |
| `Prelude.dfy` | options, durations, and a little arithmetic |

Conventions. Instants and durations are integers in nanoseconds; where 64 bits matter (`time.Time.Sub`, the doubling of a delay) saturation or wrap-around is written out. What a network, a file, a clock or a random source does enters as an argument: an oracle function, a sequence of the choices a `select` makes, or an arbitrary step of the environment. The order in which Go yields the entries of a map is arbitrary in every method that ranges over one. The field `kept` of a diff is the list the source calls `Unchanged`.

## What turned out not to hold

Each of these is stated by a lemma, with the exact condition or a concrete run.

- *Close and requests under way.* The goroutine is added to the wait group after the mutex is released, so `Close` can return while a wake is still to be spawned (`WakeShutdown.CloseDoesNotWaitForSpawn`). With the wait group at zero, all wakes have exited exactly when no request is about to spawn (`WakeShutdown.QuietAfterClose`); and no wake goroutine can ever run again, short of a new request, exactly when no request has yet to read the store, waits for the mutex, holds it, or is about to spawn (`WakeShutdown.NothingStartsExactly`). A request that arrives after `Close` has returned can start a wake (`WakeShutdown.LateArrivalLaunches`): `Close` ends polls, not `ensureWake`.
- *The backoff schedule.* It is the documented one for all retries exactly when the base delay is below 2^62 ns (`Retry.BackoffScheduleExact`); above that the first doubling overflows and the delay is negative.
- *A response body that cannot be read.* The call reports success after a failed attempt exactly when that attempt was the last one allowed and had a 2xx status, although its comment promises an error (`Retry.SendWithRetry`, and `Retry.UnreadableBodyIsSent` for the input).
- *Order of sleeps.* As long as Sleep has been called in order so far, it stays in order whatever happens short of another Start exactly when at most one goroutine is still in its loop (`SleepOrder.OrderIsSafeExactly`; over an open channel, and the tracker never closes it). Callers that do not Start while a Stop is in progress get order (`SleepOrder.CarefulCallersGetOrder`); a Start during a Stop can lose it (`SleepOrder.OverlapBreaksOrder`), though never a trigger (`SleepPipeline.TriggersConserved`).
- *Ports across reloads.* Validation does not ask for different names or ports (`internal/config/validation.go:160-175`). If the configured routes listen on different ports, a reload meets no port of its own exactly when each needed port that is held is held by the listener its key leads to in the index, and the stop of that listener releases it (`Listeners.ReloadConflictsExactly`). Distinct keys are not needed, and stops may fail as long as they release their sockets, which is what closing the server after a failed shutdown is for. Start with two routes of one key breaks the condition: a reload to nothing and a reload that adds the port then conflict although every stop succeeds (`RouteManagement.DuplicateKeyConflict`).

## Model

| member | source | states |
|---|---|---|
| WakeTheorems.SingleFlight | internal/proxy/wake_coordinator.go:219-294 | in every reachable state at most one wake lies between installation and clearing, the field is nil exactly when there is none, the unconditional clear meets the goroutine's own wake, and a wake is installed only over nil |
| WakeTheorems.WakeRate | internal/proxy/wake_coordinator.go:229-275 | with a positive debounce a window of length L holds at most 1 + L/debounce wake starts of one coordinator, for any number of requests; `SendWoL` is called at most once per wake and at most as often as wakes start |
| WakeTheorems.ForwardingSafety | internal/proxy/wake_coordinator.go:194-324 | a request is answered at most once, and once when it has ended; a forward rests on a Healthy store read of the request itself or of the wake it joined, made while that wake was the one in flight |
| WakeAnswers.HealthIsActedOn | internal/proxy/wake_coordinator.go:194-321 | the converse: whoever reads Healthy acts on it, so a request whose own read was Healthy has been forwarded and a wake that read it ends Healthy; no refused request and no wake that timed out has a Healthy read of its own |
| WakeAnswers.RefusalHasReason | internal/proxy/wake_coordinator.go:205-324 | a request is refused only if its context has ended, the coordinator has been closed, or a full wake timeout has passed since the wake it joined called `SendWoL` or since its own poll began; and neither it nor that wake has read Healthy |
| WakeAnswers.NextTickSucceeds | internal/proxy/wake_coordinator.go:302-321 | a poll of a healthy server can read at the end of the current interval, and then ends Healthy or forwards |
| WakeAnswers.ChoiceIsExact | internal/proxy/wake_coordinator.go:219-239 | the request that holds the mutex joins if a wake is in flight; otherwise it starts one exactly if the debounce is not positive, there was no start yet, or the debounce has passed since |
| WakeTheorems.Agreement | internal/proxy/wake_coordinator.go:70-75 | each `done` is closed at most once and only after `err` is set; a request that returns through `done` gets the error the wake holds, so all joiners of one wake agree |
| WakeTheorems.ResultsAreFinal | internal/proxy/wake_coordinator.go:249-294 | over every continuation of every run, the result of a finished wake and the answer of a request do not change and no request is answered again |
| WakeShutdown.NothingRuns | internal/proxy/wake_coordinator.go:155-161 | the wait group is at zero exactly when no wake goroutine runs; a wake can then still be waiting to be spawned |
| WakeShutdown.QuietAfterClose | internal/proxy/wake_coordinator.go:155-161 | with the wait group at zero, every wake has exited if and only if no request is between its unlock and its spawn; then none is in flight, and the mutex is free once all requests are answered |
| WakeShutdown.NothingStartsExactly | internal/proxy/wake_coordinator.go:155-247 | with the wait group at zero, no continuation without a new request ever makes a wake goroutine run, if and only if no request has yet to read the store, waits for or holds the mutex, or is about to spawn |
| WakeShutdown.LateArrivalLaunches | internal/proxy/wake_coordinator.go:194-244 | from every such state, closed or not, a new request can start a wake |
| WakeShutdown.CloseDoesNotWaitForSpawn | internal/proxy/wake_coordinator.go:235-244 | for every configuration, a run after which `Close` can return while a wake goroutine is about to be spawned |
| WakeSafety.InvStep | internal/proxy/wake_coordinator.go:194-324 | every step of every request, wake, store, clock or Close keeps mutual exclusion, single flight, the installer relation, the records of wakes and requests, the spacing of stamps and the wait-group count |
| WakeRefinement.StepRefines | internal/proxy/wake_coordinator.go:219-294 | each step is an allowed action of the cell, or invisible to it, and leads to the corresponding cell, including who waits for which flight |
| WakeRefinement.RunRefines | internal/proxy/wake_coordinator.go:219-294 | the visible trace of any run is a run of the join-or-start cell: a caller starts only when there is no flight and joins only the current one, a result is published once, and only a caller that started or joined a flight takes its result, once |
| WakeProgress.ReadBound | internal/proxy/wake_coordinator.go:302-324 | when deadlines are acted on in time, a wake reads the health store at most wakeTimeout / pollInterval times |
| WakeProgress.SelfReadBound | internal/proxy/wake_coordinator.go:194-324 | a request reads it once on arrival and at most wakeTimeout / pollInterval times in the poll it makes inside the debounce window |
| WakeProgress.TurnIsPossible | internal/proxy/wake_coordinator.go:235-294 | while `done` is open the wake has a step that is possible, respects the deadline and lowers its rank |
| WakeProgress.NothingHinders | internal/proxy/wake_coordinator.go:194-324 | no step of anyone raises the rank of a wake |
| WakeProgress.EveryWakeFinishes | internal/proxy/wake_coordinator.go:258-289 | whatever else is interleaved, a wake takes at most 2 * (wakeTimeout / pollInterval) + 7 turns until `done` is closed, and after that many it is |
| WakeShutdown.EveryWakeLeaves | internal/proxy/wake_coordinator.go:258-294 | once `done` is closed, the field is cleared and the wait group left after four turns, each possible, and one more for each request that locks the mutex in between |
| WakeShutdown.LocksAreFew | internal/proxy/wake_coordinator.go:219-244 | each request locks the mutex at most once, so these are at most as many as there are requests |
| WakeProgress.WaiterIsServed | internal/proxy/wake_coordinator.go:235-256 | a waiting request whose wake is unfinished has a live goroutine for it or an installer about to spawn one; it can return exactly when `done` is closed |
| WakeProgress.MutexHolderCanMove | internal/proxy/wake_coordinator.go:220-293 | whoever holds the mutex can take its next step |
| WakeCoordination.WakeCoordinator.EnsureWake | internal/proxy/wake_coordinator.go:219-239 | the lock section joins exactly if a wake is in flight and starts exactly if none is and the debounce is not positive, unused or over; it leaves the fields alone unless it starts, then it installs a fresh wake, stamps the time and keeps stamps a debounce apart |
| WakeCoordination.WakeCoordinator.PollUntilHealthyWithContext | internal/proxy/wake_coordinator.go:302-324 | the first choice that is not an unhealthy tick decides: Healthy for a healthy tick, a timeout for the end of the context or of the coordinator; the number of store reads is exact |
| WakeCoordination.WakeCoordinator.PerformWake | internal/proxy/wake_coordinator.go:258-294 | one `SendWoL`, whose error does not matter, then the verdict of the poll in `err`, `done` closed and the field cleared, through calls that each demand the step before |
| WakeCoordination.InflightWake.CloseDone | internal/proxy/wake_coordinator.go:70-75 | `done` is closed once, and only when the result is in place |
| WakeCoordination.WakeCoordinator.ClearInFlight | internal/proxy/wake_coordinator.go:291-293 | the field is cleared only when the wake in it has closed `done` |
| Routes.DecimalInjective | internal/proxy/reload.go:17-20 | two integers print alike only if equal, and their digits hold no colon |
| Routes.RouteKeyInjective | internal/proxy/reload.go:17-20 | keys agree exactly when name and port agree, for names with any number of colons |
| Routes.DetectChanges | internal/proxy/reload.go:30-71 | the result is a diff of the two last-wins tables: each list holds, once each and in some order, exactly what it is named for |
| Routes.RemovedKeys | internal/proxy/reload.go:64-69 | exactly the keys of the old table that the new one lacks, once each |
| ReloadSpec.DiffPartitions | internal/proxy/reload.go:30-71 | Added, Modified and Unchanged split the new keys; Removed, Modified and Unchanged split the old keys; no key is in two lists |
| ReloadSpec.DiffPatches | internal/proxy/reload.go:30-71 | removing, adding and replacing as the diff says turns the old table into the new one |
| ReloadSpec.DiffEmpty | internal/proxy/reload.go:30-71 | the three change lists are empty exactly when the tables are equal, duplicates included |
| ReloadSpec.ReloadConverges | internal/proxy/route_manager.go:662-711 | whatever stops fail, the recorded table after a reload is the configured one plus exactly the removed routes whose stop failed |
| ReloadSpec.ReloadAgain | internal/proxy/route_manager.go:735-775 | a second reload of the same config adds and modifies nothing and removes exactly what the first failed to remove |
| ReloadSpec.ReloadLength | internal/proxy/route_manager.go:642-704 | from distinct keys the list has one entry per configured key and one more per failed stop |
| ReloadSpec.ReloadKeepsDistinct | internal/proxy/route_manager.go:642-704 | if all stops succeed, distinct keys stay distinct and the table is the configured one |
| RouteManagement.RouteManager.StopRoute | internal/proxy/route_manager.go:539-584 | an unknown key is the only "not found"; the listener ends stopped with its wake coordinator closed, or, if shutdown fails, stopping with it open; only its sockets are given up |
| RouteManagement.RouteManager.StopRoutes | internal/proxy/route_manager.go:673-685 | which keys stop, the errors in order, the sockets left; exactly the listeners of these keys are told to stop, ending stopped with their wake coordinator closed or, on failure, stopping with it as it was |
| RouteManagement.RouteManager.CleanupStoppedRoutes | internal/proxy/route_manager.go:642-660 | the given keys leave the index, and exactly the listeners with such a key leave the list, order kept |
| RouteManagement.RouteManager.StopAndCleanUp | internal/proxy/route_manager.go:673-688 | list and index agree again after any mixture of failed and successful stops, and no listener left is stopped |
| RouteManagement.RouteManager.StartRoute | internal/proxy/route_manager.go:586-640 | the filter drops no listener; the new one is registered last whether or not it comes up; the port is taken only if it was free |
| RouteManagement.RouteManager.StartRoutes | internal/proxy/route_manager.go:690-704 | every route is registered in order; ports, errors and port conflicts are those of starting one after the other; no socket changes hands, and holders stay in the index if none has a key to start |
| RouteManagement.RouteManager.ApplyRouteChanges | internal/proxy/route_manager.go:662-711 | all stops come before all starts; the list, the collected errors, the conflicts and the sockets that result, with the index in agreement |
| RouteManagement.RouteManager.Start | internal/proxy/route_manager.go:226-263 | refuses while running or without a config and then changes nothing; otherwise records exactly the configured routes in order in list and index, and holds the sockets that result when they come up in the given order, which is arbitrary |
| Listeners.LaunchesWithoutConflict | internal/proxy/route_manager.go:245-253 | on different ports, in any order: no listener meets a held port, every holder is the one its key leads to, and exactly the listeners that come up, or are late but bound, hold their port |
| RouteManagement.RouteManager.HandleReload | internal/proxy/route_manager.go:735-775 | one reload in the sense of `Reloads`, whatever fails: index agreement is kept, no key is ever "not found", exactly the failed stops are reported; exactly the listeners of the keys to stop change, as their stops decide; on different ports the number of conflicts is exactly that of the blocked ports, the failed starts reported are exactly those blocked or not coming up, and exactly the others that bind hold their port; holders stay in the index if stops release their sockets, and a holder outside it keeps its socket |
| RouteManagement.RouteManager.WatchConfigReloads | internal/proxy/route_manager.go:713-733 | over any sequence of configs and failures the index agrees, nothing is "not found" and each reload starts from what the last one recorded; with holders in the index, different ports and stops that release their sockets, failing or not, the run never meets a port of its own |
| RouteManagement.RouteManager.StartAndWatch | internal/proxy/route_manager.go:226-263 | the same from one Start on a fresh manager whose routes listen on different ports, in whatever order they come up |
| RouteManagement.RouteManager.FilterDropsNothing | internal/proxy/route_manager.go:594-605 | while no recorded listener is stopped the filter in startRoute is the identity |
| Listeners.CleanupRestores | internal/proxy/route_manager.go:642-660 | dropping the keys that stopped restores agreement, and what is left was recorded before and has no key that stopped |
| Listeners.LeftNotStopped | internal/proxy/route_manager.go:594-660 | no listener left after stops and cleanup is marked stopped, which is what startRoute's filter relies on |
| Listeners.SocketsAfterStops | internal/proxy/route_manager.go:539-584 | after a list of stops, exactly the sockets remain whose holder its key does not lead to, is not in the list, or was not released |
| Listeners.CleanupKeepsHolders | internal/proxy/route_manager.go:642-660 | whatever stops fail, stopping and cleaning up leaves every holder in the index if it was |
| Listeners.ReloadReports | internal/proxy/route_manager.go:673-711 | the errors of a reload name exactly the failed stops and never a missing key |
| Listeners.HeldExactly | internal/proxy/route_manager.go:690-704 | the ports that are needed and still held when the starts begin are exactly the blocked ones, renames and changed upstreams included |
| Listeners.ConflictCount | internal/proxy/route_manager.go:690-704 | starting routes on different ports meets as many conflicts as there are held ports among theirs, whatever each start comes to |
| Listeners.ReloadConflictsExactly | internal/proxy/route_manager.go:662-704 | on different configured ports, a reload meets no port conflict of its own making if and only if every needed port that is held is held by the listener its key leads to and is released by its stop; otherwise as many as ports fail this |
| Listeners.ToldInFields | internal/proxy/route_manager.go:553-576 | in fields: after a reload's stops, an indexed listener whose key was to stop is stopped, with its wake coordinator closed if it has one, or stopping with it as it was; all others are as before |
| Listeners.StopErrorsExact | internal/proxy/route_manager.go:674-685 | an error is collected for a key exactly when it is unknown or its shutdown fails |
| Listeners.StartErrorsExact | internal/proxy/route_manager.go:690-704 | on different ports, a start fails exactly if its port is held when the starts begin or it does not come up |
| Listeners.PortsTaken | internal/proxy/route_manager.go:612-640 | of the others, exactly those that come up, or are late but bound, hold their port in the end |
| Listeners.EmptyReload | internal/proxy/route_manager.go:764-767 | skipping an empty diff is the same as applying it |
| RouteManagement.DuplicateKeyLeak | internal/proxy/route_manager.go:226-263 | Start with two routes of one key, then a reload to none in which every stop succeeds: list and index are empty and the first one's socket is still held |
| RouteManagement.DuplicateKeyConflict | internal/proxy/route_manager.go:539-704 | a further reload that adds a route on that port meets exactly one conflict |
| HotReload.QuiescentConvergence | internal/config/manager.go:198-203 | for any interleaving of overlapping reloads with the watcher: once no reload is between store and send, the channel is empty and the watcher waits, the config last read is the current one and the recorded table is its table plus exactly the routes the last apply removed and failed to stop, none of which is configured; with no failed stop in the last apply it is the current table |
| HotReload.LastWriteIsLoaded | internal/config/manager.go:134-177 | once all events of the file are handled and no timer runs, some reload began at least one second after the latest write |
| HotReload.NoNeedlessReload | internal/config/manager.go:157-203 | over any run there are at most as many reloads as handled events of the file, and the watcher wakes up at most once per config stored after the first |
| ConfigManagement.ConfigManager.Reload | internal/config/manager.go:179-210 | a config that does not load, or a stopped manager, changes nothing; otherwise the config is stored and one signal is in the channel, whether or not one was there |
| ConfigManagement.ConfigManager.Watch | internal/config/manager.go:134-177 | a reload begins exactly at the moments a timer is due with a write or creation of the config file before it, no such event and no due timer in between, and the loop not ended; the timer left running is due one second after the last such event; only the manager's end or a closed channel end the loop, and leave no timer |
| ConfigManagement.ReloadIsThreeSteps | internal/config/manager.go:179-203 | an uninterrupted reload is load, store and send of the transition system |
| IdleTracking.IdleTracker.RegisterRoute | internal/proxy/idle_tracker.go:115-130 | sets the timeout and keeps the last-seen time; a new route has none |
| IdleTracking.IdleTracker.RecordActivity | internal/proxy/idle_tracker.go:132-148 | writes the stamp that was read before the lock; an unknown route is added with no timeout |
| IdleTracking.IdleTracker.CheckIdleRoutes | internal/proxy/idle_tracker.go:261-306 | visits every route once, in some order, does what `Sweep` says for that order, and so emits exactly min(E, f) of the routes idle for their timeout |
| IdleTracking.SweepIsExact | internal/proxy/idle_tracker.go:261-315 | with E the routes that have a positive timeout and were never seen or last seen at least that long ago, and f free slots of 64, a sweep emits exactly min(E, f) distinct members of E, restamps exactly these, changes nothing else and never overfills the channel, whatever the order |
| IdleTiming.TriggersAreSpaced | internal/proxy/idle_tracker.go:118-315 | with stamps stale by at most D, consecutive triggers of a route have stamps at least idleTimeout - D apart, and k triggers span at least (k - 1) times that |
| IdleChecker.CheckerSpacing | internal/proxy/idle_tracker.go:132-306 | the same for the whole tracker: over any run of checker goroutines of any cycles, overlapping ones included, and callers that record activity, each reading the clock before it locks |
| IdleChecker.TickSweeps | internal/proxy/idle_tracker.go:252-306 | a tick ends in an exact sweep for the moment at which the goroutine read the clock, however long the lock takes |
| IdleChecker.ActivityIsRecorded | internal/proxy/idle_tracker.go:132-148 | an activity is recorded for the moment at which its caller read the clock, and touches nothing else |
| IdleChecker.SectionsTakeEffect | internal/proxy/idle_tracker.go:115-130 | a registration sets the timeout and keeps the last-seen time, and the consumer takes the oldest triggers; nothing else changes |
| IdleChecker.CheckerStopIsNotStuck | internal/proxy/idle_tracker.go:212-259 | the goroutine a Stop waits for can finish its sweep, leave or close `done`, or has closed it |
| IdleTiming.RetriedUntilDelivered | internal/proxy/idle_tracker.go:263-315 | over ceil(N/64) drained sweeps within less than every timeout, a route that at the first was never seen or idle for its timeout, and sees no activity, is emitted exactly once, whatever the map orders |
| SleepPipeline.TriggersConserved | internal/proxy/sleep_coordinator.go:154-203 | for any Start and Stop calls, every emitted trigger is passed to Sleep once, in one goroutine's hand, or in the channel; the channel holds at most 64, the latest ones in order |
| SleepPipeline.LeavesForAReason | internal/proxy/sleep_coordinator.go:160-175 | a goroutine is out of its loop only if its Stop cancelled it, the context given to Start ended, or the channel was closed |
| SleepOrder.OrderIsSafeExactly | internal/proxy/sleep_coordinator.go:96-203 | in any reachable state in which Sleep has been called in order so far, over an open channel: it stays in order over every continuation without another Start if and only if at most one goroutine is in its loop |
| SleepOrder.TwoLoopsOvertake | internal/proxy/sleep_coordinator.go:154-203 | from any state with two goroutines in their loops and an open channel, sends and steps inside loops alone bring Sleep out of order |
| SleepOrder.SleepsInOrder | internal/proxy/sleep_coordinator.go:154-203 | over a run in which no two goroutines are in their loops at once, emitted triggers are exactly those passed to Sleep, then the one in hand, then the channel, in this order, and Sleep lags at most 65 behind |
| SleepOrder.CarefulCallersGetOrder | internal/proxy/sleep_coordinator.go:96-152 | so it is for callers that never Start while a Stop is in progress |
| SleepOrder.OverlapBreaksOrder | internal/proxy/sleep_coordinator.go:127-180 | a run in which a Start during a Stop brings a later trigger to Sleep first |
| Lifecycle.LifecycleSafety | internal/proxy/sleep_coordinator.go:101-180 | over any run of any callers, whatever the goroutine's work: a cycle is opened by exactly one Start; its `done` is closed once, by its own goroutine when it leaves; at most one Stop takes it and returns only when that goroutine is gone; a live goroutine is the running cycle's or has a Stop in progress; only its Stop or the context given to Start cancels it |
| SleepPipeline.StopIsNotStuck | internal/proxy/sleep_coordinator.go:144-180 | the goroutine a Stop waits for always has a step that leads out, or has closed `done` |
| Lifecycle.LifeStep | internal/proxy/idle_tracker.go:181-259 | every step of any callers and goroutines keeps the lifecycle invariant, for the checker's work as for any other |
| SleepCoordination.SleepCoordinator.Start | internal/proxy/sleep_coordinator.go:96-125 | refuses while running; otherwise opens a fresh, uncancelled cycle |
| SleepCoordination.SleepCoordinator.Stop | internal/proxy/sleep_coordinator.go:127-152 | takes and cancels the current cycle if running, leaves nothing for a second Stop to take, and returns only when that cycle's `done` is closed, after Sleep for what its goroutine still received |
| SleepCoordination.SleepCoordinator.RunLoop | internal/proxy/sleep_coordinator.go:154-203 | Sleep is called for exactly the triggers received before the loop ends, in order, and `done` of the loop's own cycle is closed exactly when it ends |
| Retry.Backoff | internal/client/gwaihir/types.go:67-89 | the loop computes the capped doubling with 64-bit wrap-around, plus jitter |
| Retry.BackoffScheduleExact | internal/client/gwaihir/types.go:67-89 | for a positive base delay the schedule is min(base * 2^(i-1), 60 s) at every retry if and only if base < 2^62 |
| Retry.JitterBound | internal/client/gwaihir/types.go:84-88 | jitter is between 0 and a tenth of the delay, and within a nanosecond of the part of that tenth that the draw selects, however its float64 operations round and although the constant 0.1 is rounded up; adding it does not overflow |
| Retry.SendWithRetry | internal/client/gwaihir/client.go:188-262 | a failed attempt and a status outside 200..299 and 400..499 are retried, and nothing else; barring cancellation the loop ends at the first other attempt or at MaxAttempts, and the result is that of the last attempt: success exactly for a 2xx status (after a failed attempt exactly when it was the last one allowed), its own error for 401, 404 and no status, the status for all others; cancellation ends it in the wait where it came; every wait is the backoff of its retry |
| Retry.UnreadableBodyIsSent | internal/client/gwaihir/client.go:337-404 | for every MaxAttempts and 2xx status, an input on which the call reports success although the body of its last response could not be read |
| Retry.TotalWait | internal/client/gwaihir/client.go:198-212 | the total wait lies between the sum of the scheduled delays and 1.1 times that sum |
| Retry.UncappedTotal | internal/client/gwaihir/types.go:67-89 | below the cap the scheduled delays of n retries sum to base * (2^n - 1) |
| Substitute.MatchSound | internal/config/substitute.go:19 | what the scanner matches at a position is the text of a reference |
| Substitute.MatchComplete | internal/config/substitute.go:19 | a text that starts with a reference is matched as that reference, to its end |
| Substitute.RematchIsSame | internal/config/substitute.go:21-40 | matching the matched text again finds the same groups, so a set variable wins over its default even when empty |
| Substitute.SetVariableWins | internal/config/substitute.go:10-40 | on texts: a set variable, even an empty one, gives its value with or without a default; an unset one gives the default or nothing; the rest is substituted on its own |
| Substitute.SubstitutionEvaluates | internal/config/substitute.go:8-42 | substituting a printed template evaluates it, for every environment; inserted values are not scanned again |
| Substitute.SubstitutionEvaluatesEveryText | internal/config/substitute.go:16-42 | on every text, substitution is the evaluation of the template the text stands for |
| Substitute.EveryTextIsATemplate | internal/config/substitute.go:16-42 | printing the template of a text gives the text back |
| Substitute.ParsePrint | internal/config/substitute.go:16-42 | reading a printed template without empty literals gives the template back |

## Left out

- HTTP serving and proxying, sockets, the internals of Shutdown, YAML, fsnotify, JSON, metrics and logging are not part of this model; their outcomes are oracles.
- The health store is one boolean that changes arbitrarily; health checks are not modelled.
- Validation of configurations and constructor arguments, and the management servers, would only add easy members.
- The goroutine that labels a listener running after 100 ms, and races between it and the listener: no claim is made about labels, except that only a successful stop writes Stopped.
- Route manager Stop, a Start after it, and Stop during a reload: the index is not cleared there, and agreement is claimed from one Start on a fresh manager.
- Config manager Stop in the transition system, and which contents of the file a reload sees: overlapping reloads may store in either order, so the theorems speak of the stored config and not of the file.
- Server settings that change while a route does not are not part of the diff, in the source as in the model.
- Claims across routes: debounce and idle tracking are per route, so nothing is said about wakes or sleeps per server.
- WakeAnswers.NextTickSucceeds: speaks of what is possible at a tick; that the goroutine runs then is up to the scheduler.
- WakeProgress.EveryWakeFinishes: assumes that `SendWoL` returns by the wake's deadline and that a due deadline is taken before time moves on; it bounds turns, not the scheduler.
- IdleTiming.TriggersAreSpaced: the route's timeout stays the same over the run; other routes may be registered freely.
- Retry.JitterBound: assumes of rounding only that its relative error is at most 2^-53, which holds for the normal numbers that occur.
- Retry.SendWithRetry: the error of a failed attempt is identified by the number of the attempt, not by its text.
- RouteManagement.RouteManager.HandleReload: the refusal of a missing config is left out, as the config manager holds one from its construction on.
- RouteManagement.RouteManager.StartRoute: the five-second wait is an oracle outcome.
- WakeShutdown.EveryWakeLeaves: counts turns and does not model the fairness of the mutex.
- IdleTracking.SweepIsExact: no receive from the channel falls inside a sweep.
- SleepOrder.OrderIsSafeExactly: says nothing about a channel that has been closed, as the tracker does not close it.
- HotReload.LastWriteIsLoaded: assumes that the watcher is told of every write; several writes may share an event.
