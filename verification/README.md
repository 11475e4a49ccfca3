# DrainCtl: verified models

DrainCtl is a Windows service that watches the drain state of remote-desktop hosts, together with a
dashboard for the fleet. This project models the parts of both whose correctness depends on
interleavings, crashes, clocks or the agreement of two representations, and proves what they promise.
Each file is one component:

| file | component |
|---|---|
| `SspiRegistry.dfy`, `SspiRequests.dfy` | the lock-free registry of pending SSPI contexts behind the Negotiate middleware; reaping and handshakes |
| `SseBroker.dfy`, `SseOverlap.dfy` | the server-sent-event broker; broadcasts that overlap |
| `ActionExecutor.dfy`, `ActionOutcomes.dfy` | the agent's session-action executor and its durable ledger; what a delivery comes to |
| `SessionPolicy.dfy`, `ActionDelivery.dfy`, `PolicyCrossings.dfy` | enqueue, delivery and settings changes around the dashboard's policy lock; what agents are handed; runs that cross a disable |
| `ForceUpdate.dfy`, `ForceUpdateRestarts.dfy` | the force-update queue and its durable outbox; what a restart forgets |
| `Notifications.dfy`, `NotifyThrottle.dfy`, `NotifyRouting.dfy`, `SpikeThrottle.dfy` | triggers and targets, repeat intervals, who is sent what, and the optimistic event-spike stamps |
| `RateLimiter.dfy` | the per-IP token bucket |
| `RdCollections.dfy`, `RdLookups.dfy` | the RD session collection index and the wake-up of its refresher; look-ups by name |
| `JsonInspector.dfy` | the duplicate-key inspection of JSON documents |
| `PerfSanitizer.dfy`, `PerfSamples.dfy` | the performance-snapshot sanitiser, and the samples taken from a check result |
| `ConfigNormaliser.dfy`, `ConfigSettings.dfy` | validation of notification and event-spike settings; each setting's range and default |
| `SessionStore.dfy` | the dashboard's login sessions |
| `Text.dfy`, `Wrappers.dfy` | string operations, `Option` |

Concurrent protocols are state machines: one step is one atomic operation of the program (a map
operation, a counter addition, a channel send, a locked section, a ledger write), and theorems
quantify over every schedule. The locked sections themselves, and everything sequential, are
classes and methods proved equal to the functions those machines are made of. Calls out of the
program (Windows, SQLite, the network, clocks) are parameters: their results come with the event,
clocks do not go back, and stores are the contracts their signatures and SQL statements state.

## What turned out not to hold

* Broadcasts that overlap can leave a gap in what a registered subscriber receives
  (`SseOverlap.OverlapLeavesGap`); no gap is possible exactly when there is at most one caller
  (`SseOverlap.GapFreeExactly`).
* A restart reorders force-update commands accepted in one millisecond by ID
  (`ForceUpdateRestarts.RestartReorders`), and drops one whose window ends within the millisecond;
  `ForceUpdate.RestartExact` is the exact condition. It also forgets acknowledged IDs
  (`ForceUpdateRestarts.AcknowledgedIdReturnsAfterRestart`); `ForceUpdateRestarts.IdempotencySurvivesExactly`
  says when a restart leaves the answer to an ID as it was. The comment on
  `Enqueue` says that a duplicate is a *pending* command; the code, which is followed here, also
  treats an acknowledged one as a duplicate.
* A report that completes a force-update command is answered with it again when deleting its row
  fails (`ForceUpdate.CompletionRepeatedExactly`).
* A session action can cross a disable when settings PUTs overlap or a rollback fails
  (`PolicyCrossings.OverlapDeliversAcrossADisable`, `PolicyCrossings.FailedRollbackDeliversAcrossADisable`);
  `SessionPolicy.CommitExact` and `SessionPolicy.AlwaysAllowedExactly` say exactly which commits allow it.
* A spike send that outlives the repeat interval can erase a later success
  (`SpikeThrottle.SlowFailureErasesASuccess`); the smallest repeat interval is the exact bound on
  the duration of sends (`SpikeThrottle.SmallestIntervalIsTheBound`). Intervals are whole minutes,
  and the 5-second HTTP and 40-second SMTP time-outs keep sends within one.
* `SanitizePerfSnapshot` is not idempotent (`PerfSanitizer.SecondPassDropsAMedian`), nor is `Validate`
  (`ConfigNormaliser.SecondValidationDiffers`); `PerfSanitizer.OnePassSettles` and
  `ConfigNormaliser.ValidateFixpoint` give the exact conditions.
* A toggle of a global exclusion does not flip it when several entries stand for the host, as
  hand-written lists allow (`ConfigNormaliser.ToggleFlips`).
* The pruning limiter differs from a plain token bucket exactly when five minutes do not refill the
  bucket (`RateLimiter.PruningExactCondition`).

## Model

| member | source | states |
|---|---|---|
| SspiRegistry.StepKeepsOwnership | internal/dashboard/sspi.go:144-258 | each atomic step of a handler, the reaper or the sweep moves a context from one owner to one other (which entries a reaper may take is SspiRequests.ReapersTakeOnlyStale) |
| SspiRegistry.ExactlyOneOwner | internal/dashboard/sspi.go:197-258 | under every interleaving every created context is held by exactly one map entry, one goroutine, or is released |
| SspiRegistry.ReleasedAtMostOnce | internal/dashboard/sspi.go:58-69 | no context is released twice, nor while the map or a goroutine still holds it |
| SspiRegistry.OnceOutStaysOut | internal/dashboard/sspi.go:235-245 | an entry that has left the map never returns, because every store is a new entry |
| SspiRegistry.StaleEntryIsHarmless | internal/dashboard/sspi.go:150-174 | a sweeper whose yielded entry has left the map releases and removes nothing, whatever was stored under the key since |
| SspiRegistry.CountersUpToInFlight | internal/dashboard/sspi.go:66-252 | in every reachable state Pending and Live are exact up to the additions still in flight |
| SspiRegistry.QuiescentCounters | internal/dashboard/sspi.go:66-69 | at quiescence Live = Pending = number of map entries |
| SspiRegistry.ShutdownDrains | internal/dashboard/sspi.go:149-162 | a shutdown sweep started in any reachable state, with handlers and reapers in flight that may race it for entries, leaves the map empty, both counters zero and every context released once all have finished, if nothing is stored meanwhile |
| SspiRequests.ReapersTakeOnlyStale | internal/dashboard/sspi.go:163-177 | in every reachable state a context that a reaper pass takes or releases was stored more than 60 seconds before the pass read the clock |
| SspiRequests.StaleEntriesGo | internal/dashboard/sspi.go:163-177 | whatever handlers and sweepers do meanwhile, every entry more than 60 seconds old when a reaper pass starts is out of the map when it ends |
| SspiRequests.TickReaps | internal/dashboard/sspi.go:163-177 | a tick of the reaper that nobody disturbs comes to its end and leaves exactly the entries at most 60 seconds old |
| SspiRequests.PassKeepsExactlyTheYoung | internal/dashboard/sspi.go:163-177 | so does every undisturbed run of the pass, in whatever order it visits |
| SspiRequests.ShutdownStarts | internal/dashboard/sspi.go:144-162 | a shutdown drains the registry from the moment its goroutine is told to |
| SspiRequests.FirstRequestAlone | internal/dashboard/sspi.go:197-257 | an undisturbed request without a pending context: refused it changes nothing; complete at once its context is released; unfinished its context is stored with the time and both counters rise |
| SspiRequests.SecondRequestAlone | internal/dashboard/sspi.go:197-257 | an undisturbed request with one continues it: over or failed it is released and both counters fall; unfinished it is stored again with the new time |
| SspiRequests.SecondLegContinuesTheFirst | internal/dashboard/sspi.go:197-245 | whatever other connections and the reaper do in between, the second leg of a handshake continues the very context its first leg stored, if no reaper reads a clock more than 60 seconds later, the connection sends nothing else and there is no shutdown |
| SspiRegistry.SharedServerCred.constructor | internal/dashboard/sspi.go:76-85 | starts with no handle out |
| SspiRegistry.SharedServerCred.Get | internal/dashboard/sspi.go:87-99 | a handle in use is reused, a failed acquisition is not remembered, at most one handle is out |
| SspiRegistry.SharedServerCred.Release | internal/dashboard/sspi.go:101-108 | gives back the one handle that is out, if any, and only once |
| SseBroker.MissedMeansEvicted | internal/dashboard/broker.go:110-142 | under every interleaving, once a Broadcast has returned, a subscriber present at its snapshot has the payload or is out of the map with done closed |
| SseBroker.CapAndFreshIds | internal/dashboard/broker.go:76-93 | at most 100 are registered, an identifier is never used again, and nothing received is lost |
| SseBroker.BufferAndCapExactly | internal/dashboard/broker.go:76-142 | a subscriber with 16 payloads unread is evicted by an undisturbed broadcast and every other gets it; the hundredth subscriber is let in and the next refused |
| SseBroker.GapFree | internal/dashboard/broker.go:110-142 | if Broadcasts do not overlap, read plus buffered is a gap-free segment from where the subscriber joined, and between broadcasts it reaches the last one |
| SseOverlap.OverlapLeavesGap | internal/dashboard/broker.go:110-142 | with two overlapping Broadcasts a registered subscriber can hold a later payload without an earlier one: a concrete schedule |
| SseOverlap.FewCallersLeaveNoGap | internal/dashboard/broker.go:110-142 | with at most one caller of Broadcast, every schedule leaves every subscriber a gap-free segment |
| SseOverlap.GapFreeExactly | internal/dashboard/broker.go:110-142 | for any number of callers: every schedule leaves every subscriber a gap-free segment if and only if there is at most one caller |
| SseBroker.PartsMakeDelivery | internal/dashboard/broker.go:110-142 | snapshot, sends and evictions together deliver to every subscriber with room and evict every other |
| SseBroker.UndisturbedBroadcast | internal/dashboard/broker.go:110-142 | the state machine, left alone, reaches exactly that delivery |
| SseBroker.Broker.Subscribe | internal/dashboard/broker.go:76-93 | registers under a new identifier or refuses at the cap |
| SseBroker.Broker.Unsubscribe | internal/dashboard/broker.go:96-105 | removes the subscriber and closes done once |
| SseBroker.Broker.TakeSnapshot | internal/dashboard/broker.go:111-117 | lists every registered subscriber once |
| SseBroker.Broker.SendToAll | internal/dashboard/broker.go:119-128 | sends in snapshot order and returns exactly the subscribers whose buffer was full |
| SseBroker.Broker.EvictSlow | internal/dashboard/broker.go:130-141 | removes the listed subscribers |
| SseBroker.Broker.Broadcast | internal/dashboard/broker.go:110-142 | ends in the state the delivery promise describes |
| SseBroker.Broker.PublishDetectorStatus | internal/dashboard/broker.go:158-195 | broadcasts exactly when the host is new or its status changed |
| ActionExecutor.InvokedAtMostOnce | sessions_actions_windows.go:74-142 | over all deliveries, redeliveries, interleavings and crashes WTS is invoked at most once for an action ID |
| ActionExecutor.CompletedMeansInvokedOnce | sessions_actions_windows.go:94-142 | a reported completion means exactly one invocation, and that it succeeded |
| ActionExecutor.InvokedOnTheRightTarget | sessions_actions_windows.go:98-134 | every invocation is of the action's kind, on its session, whose logon time matched |
| ActionExecutor.FirstDeliveryCompletes | sessions_actions_windows.go:78-135 | an undisturbed first delivery of a live, matching action invokes WTS once and records completion |
| ActionExecutor.EarlyForgettingRepeats | sessions_actions_windows.go:31-36 | a ledger that forgets an ID before its expiry lets a redelivery invoke WTS again |
| ActionExecutor.NextKeepsInv | sessions_actions_windows.go:78-142 | every step, crash, tick and ledger clean-up keeps claims exclusive and reports honest |
| ActionOutcomes.FirstDeliveryRefused | sessions_actions_windows.go:94-133 | a first delivery, for every answer of the environment: expired before the look-up, look-up failed or no session, logon changed, and unsupported in this order of precedence record and report that outcome and call nothing |
| ActionOutcomes.FirstDeliveryExpiresLate | sessions_actions_windows.go:106-130 | one that expires between the look-up and the call records expired and calls nothing |
| ActionOutcomes.FirstDeliveryCalls | sessions_actions_windows.go:106-135 | every other makes one call, on the action's session, and records completed or failed as the call answered |
| ActionOutcomes.FailedClaimIsSilent | sessions_actions_windows.go:79-83 | a claim that fails calls and reports nothing |
| ActionOutcomes.RedeliveryReportsAgain | sessions_actions_windows.go:84-92 | a redelivery changes nothing and reports the recorded outcome again, or a duplicate if none is recorded or it cannot be read |
| ActionOutcomes.FirstOutcomeStays | sessions_actions_windows.go:137-142 | over any run the outcome recorded first stays while the row is kept |
| ActionOutcomes.RecordedOutcomeIsReported | sessions_actions_windows.go:84-92 | so after any run a redelivery reports that outcome and calls nothing |
| ActionOutcomes.InterleavedRedeliveryReports | sessions_actions_windows.go:84-92 | the same when other executions interleave with the redelivery |
| ActionExecutor.SessionActionExecutor.Execute | sessions_actions_windows.go:78-135 | takes the steps of the protocol for one delivery, whose outcomes the rows of ActionOutcomes give, and reports at most one outcome |
| ActionExecutor.SessionActionExecutor.Perform | sessions_actions_windows.go:94-135 | the same from a granted claim on: expiry, look-up, second expiry check, effect |
| ActionExecutor.SessionActionExecutor.RecordTerminal | sessions_actions_windows.go:137-142 | reports an outcome only if the ledger recorded it |
| SessionPolicy.CommitExact | internal/dashboard/handlers_settings.go:597-634 | while all active actions are allowed, a settings commit leaves them all allowed if and only if nothing was saved, or none is active, or the change cancels and the cancelling succeeded, or the policy in force before and the one now stored differ in nothing that bars an action |
| SessionPolicy.AlwaysAllowedExactly | internal/dashboard/handlers_settings.go:592-634 | over any run of enqueues, deliveries and settings changes, every active action is allowed in every state if and only if every commit meets that condition |
| SessionPolicy.DeliveredRightly | internal/dashboard/handlers_servers.go:405-487 | when every commit meets it, every delivered action was enqueued under an enabling policy with no disable or visibility change committed since, and is delivered under one |
| SessionPolicy.DisciplineIsSafe | internal/dashboard/handlers_settings.go:592-634 | PUTs that do not overlap and rollbacks that succeed make every commit meet it |
| SessionPolicy.DeliveredUnderPolicy | internal/dashboard/handlers_servers.go:405-487 | so with PUTs that do not overlap and rollbacks that succeed no delivery crosses a disable or a visibility change |
| SessionPolicy.StepKeeps | internal/dashboard/handlers_settings.go:592-634 | each locked section, a commit only under that condition, keeps every active action allowed and every delivery so far right |
| SessionPolicy.FailedTransitionRestores | internal/dashboard/handlers_settings.go:502-514 | a PUT without overlap that fails at its sessions step, its rollback working, leaves the policy it found; it leaves the whole configuration it found if and only if it failed after the save or had written nothing else |
| SessionPolicy.UnsavedTransitionKeepsTheRest | internal/dashboard/handlers_settings.go:606-611 | after any run, a PUT whose sessions block cannot be saved undoes nothing: what it wrote before stays |
| PolicyCrossings.OverlapDeliversAcrossADisable | internal/dashboard/handlers_settings.go:597-620 | two overlapping PUTs can deliver an action across a disable: a concrete run, with a commit that misses the condition |
| PolicyCrossings.FailedRollbackDeliversAcrossADisable | internal/dashboard/handlers_settings.go:621-632 | a failed rollback can do so too: a concrete run, likewise |
| SessionPolicy.SessionActions.constructor | internal/dashboard/handlers_sessions.go:97-110 | starts with no action stored |
| SessionPolicy.SessionActions.Enqueue | internal/dashboard/handlers_sessions.go:418-449 | stores a queued action only when the persisted policy allows it and the target is valid; a repeated key is a replay or a conflict and stores nothing |
| SessionPolicy.SessionActions.Deliver | internal/dashboard/handlers_servers.go:408-487 | sends the selected actions that can be opened, only under an enabling policy; fails the others; logs one delivery for each action it returns |
| SessionPolicy.SessionActions.Prepare | internal/dashboard/handlers_servers.go:440-486 | an unreadable action is completed as failed; if that cannot be stored nothing is sent |
| SessionPolicy.SessionActions.Transition | internal/dashboard/handlers_settings.go:597-634 | persists, cancels or purges, trims, and rolls back on failure |
| SessionPolicy.BatchIsActive | internal/telemetry/session_action_store.go:135-155 | what the delivery query selects is active before and after it is marked |
| ActionDelivery.HandedIsLogged | internal/dashboard/handlers_servers.go:408-487 | the log grows by exactly one delivery for each action returned to the agent, in order |
| ActionDelivery.HandedExactly | internal/telemetry/session_action_store.go:138-155 | an agent is handed at most 20 actions, the oldest first, all of its host, active, unexpired and readable, and none unless the policy enables actions |
| ActionDelivery.NoneHeldBack | internal/telemetry/session_action_store.go:138-155 | such an action is handed over unless 20 older ones were selected |
| ActionDelivery.AfterDelivery | internal/dashboard/handlers_servers.go:425-486 | what a delivery makes of each action: expired if overdue, delivered if handed over, failed if unreadable, else unchanged |
| ActionDelivery.AfterCompletion | internal/telemetry/session_action_store.go:193-245 | a completion is taken exactly from the action's host, after delivery, once, before expiry, and not as a duplicate |
| ActionDelivery.AfterEnqueue | internal/dashboard/handlers_sessions.go:418-449 | a request with a new key is stored exactly if actions are enabled and the target is valid, for five minutes; any other changes nothing |
| ActionDelivery.AfterCommit | internal/dashboard/handlers_settings.go:592-620 | a committed PUT expires exactly the active actions, exactly if it disables actions or changes a visibility against what it read |
| ActionDelivery.TerminalIsFinal | internal/telemetry/session_action_store.go:187-192 | over any run a terminal action keeps its first outcome and no action's data is rewritten |
| ActionDelivery.RepeatedKeyIsReplayed | internal/telemetry/session_action_store.go:76-110 | once a request is stored, its key answers with that action for the same fingerprint and with a conflict for another, whatever happens and under any policy |
| ActionDelivery.HandedRightly | internal/dashboard/handlers_servers.go:408-487 | when every commit is safe, each action an agent is handed was enqueued for its host less than five minutes before, under an enabling policy, with no disable or visibility change since, and is handed over under one |
| ForceUpdate.AlwaysInSync | internal/dashboard/forceupdate.go:132-209 | after every call, failed inserts and deletes included, and every restart, memory and outbox agree ID by ID; each queue is in acceptance order with distinct IDs |
| ForceUpdate.PendingMirrorsOutbox | internal/dashboard/forceupdate.go:132-209 | the unexpired outbox rows are the unacknowledged unexpired commands in memory, one for one |
| ForceUpdate.RestartSyncs | internal/dashboard/forceupdate.go:78-96 | a new process starts in step with whatever outbox the last one left, even half way through a call |
| ForceUpdate.RestartKeepsPending | internal/telemetry/force_update_outbox.go:39-62 | a restart keeps every pending command, its time cut to the millisecond, except one whose 24 hours end within that millisecond, and adds none |
| ForceUpdate.RestartExact | internal/dashboard/forceupdate.go:78-96 | Pending after a restart is the one before, up to the millisecond, if and only if commands of one millisecond were accepted in ID order and none is in the last millisecond of its window |
| ForceUpdateRestarts.RestartReorders | internal/dashboard/forceupdate.go:78-96 | two commands accepted in one millisecond, "b" then "a", come back in the other order: a concrete run |
| ForceUpdateRestarts.RecognisedAfterRestart | internal/dashboard/forceupdate.go:27-31 | after a restart an ID is a duplicate if and only if it is pending and its time, cut to the millisecond, is still inside the window |
| ForceUpdateRestarts.IdempotencySurvivesExactly | internal/dashboard/forceupdate.go:50-54 | a restart leaves the answer to an ID as it was if and only if the command the process remembers for it, if any, is not acknowledged and not in the last millisecond of its window |
| ForceUpdateRestarts.AcknowledgedIdReturnsAfterRestart | internal/dashboard/forceupdate.go:50-54 | after a restart an acknowledged ID is accepted again inside the window: a concrete run |
| ForceUpdate.PendingIsOutstanding | internal/dashboard/forceupdate.go:161-190 | within a process, lazy per-host collection is unobservable: pending is the unexpired part of what was accepted and not acknowledged, in acceptance order |
| ForceUpdate.RetriedUntilAcknowledged | internal/dashboard/forceupdate.go:161-175 | Consume returns the same oldest command until it is acknowledged or 24 hours old |
| ForceUpdate.CompletionRepeatedExactly | internal/dashboard/handlers_servers.go:346-370 | a report that completes a command is answered with that command again if and only if deleting its row failed and it is still the oldest pending one |
| ForceUpdate.RepeatIsDuplicate | internal/dashboard/forceupdate.go:132-143 | a process accepts one ID at most once in any 24 hours, acknowledged in between or not |
| ForceUpdate.EnqueueExactly | internal/dashboard/forceupdate.go:132-159 | an ID is a duplicate exactly while a command of less than 24 hours is remembered under it; any other is accepted exactly if the storage works, fewer than 1024 rows are left after the purge and none has its key |
| ForceUpdate.AcceptedIsPending | internal/dashboard/forceupdate.go:132-190 | an accepted command is pending at once, last, with its own data |
| ForceUpdate.CompactInPlace | internal/dashboard/forceupdate.go:215-235 | the in-place collection keeps exactly the unexpired commands in order and clears the slots behind them |
| ForceUpdate.MoveUp | internal/dashboard/forceupdate.go:221-229 | the loop of it: the unexpired commands, in order, fill the front of the slice |
| ForceUpdate.ForceUpdateState.constructor | internal/dashboard/forceupdate.go:78-96 | builds each host's queue from the listing, in its order |
| ForceUpdate.ForceUpdateState.Collect | internal/dashboard/forceupdate.go:215-235 | drops the expired commands of one host and the host when none is left |
| ForceUpdate.ForceUpdateState.Enqueue | internal/dashboard/forceupdate.go:132-159 | duplicate, failed or accepted, with memory changed only after the row is committed |
| ForceUpdate.ForceUpdateState.Consume | internal/dashboard/forceupdate.go:164-175 | returns the oldest unacknowledged command and marks nothing |
| ForceUpdate.ForceUpdateState.Pending | internal/dashboard/forceupdate.go:178-190 | returns all of them in order |
| ForceUpdate.ForceUpdateState.Acknowledge | internal/dashboard/forceupdate.go:194-209 | marks the command only after its row is deleted; a failed delete changes nothing |
| NotifyThrottle.RepeatsAreSpaced | notify.go:138-216 | over any sequential run a target with interval R>0 is let through only R or more after every uncleared stamp of its URL and trigger, and with R=0 only if there is none |
| NotifyThrottle.CriticalSilencesWarning | notify.go:664-678 | a critical trigger holds back the matching warning on that URL for the warning's interval |
| NotifyThrottle.ThrottleIsExact | notify.go:138-216 | a target that wants a repeating trigger is let through if and only if every uncleared stamp is far enough back |
| NotifyThrottle.SendsAreLogged | notify.go:236-297 | the loop sends to exactly the targets the throttle let through, in order |
| NotifyRouting.RecipientsExactly | notify.go:49-297 | after any run a notification is sent, in the configured order, to exactly the targets that are enabled, of known kind, with a URL, subscribed, not excluding this host for the trigger, and whose live stamps at their turn are all an interval back; to none if the host is globally excluded |
| NotifyRouting.TargetIsSentToExactly | notify.go:126-216 | if every target has its own URL, the same in terms of the stamps live before the notification |
| NotifyRouting.SameServerExactly | config.go:184-204 | a server exclusion names a host exactly if the names are equal but for case, or one is bare and begins the other |
| NotifyRouting.GlobalExclusionExactly | config.go:206-228 | a global exclusion names a host exactly if the names are equal but for case |
| NotifyRouting.ExcludedChangesNothing | notify.go:49-75 | a globally excluded host's notification sends and stamps nothing |
| NotifyThrottle.LastAfterSet | notify.go:680-707 | the three stamp tables behave as one, keyed by URL and trigger |
| NotifyThrottle.PruneKeeps | internal/svc/check.go:791-817 | forgetting the URLs no longer configured keeps the throttle's memory exact |
| NotifyThrottle.ClearKeeps | notify.go:69-75 | returning to healthy forgets alerts and nothing else |
| NotifyThrottle.NotifyState.constructor | notify.go:22-33 | starts with no stamp |
| NotifyThrottle.NotifyState.GetLast | notify.go:680-692 | the stamp of a URL and trigger |
| NotifyThrottle.NotifyState.SetLast | notify.go:695-707 | sets that stamp and no other |
| NotifyThrottle.NotifyState.Admit | notify.go:198-216 | stamps trigger and subordinate exactly when due |
| NotifyThrottle.NotifyState.VisitTarget | notify.go:126-297 | one turn of the loop: skips, throttles, stamps, and sends to a known backend |
| NotifyThrottle.NotifyState.VisitEach | notify.go:126-297 | the loop over the targets, in order |
| NotifyThrottle.NotifyState.Send | notify.go:49-298 | exclusions first, then the reset of alerts, then the loop; whom it sends to is NotifyRouting.RecipientsExactly |
| SpikeThrottle.FailedSendsLeaveNoTrace | notify.go:144-197 | when every send ends before the smallest positive repeat interval is over, under every interleaving of visits, sends and rollbacks a stamp ends as that of the latest successful send, or as it was |
| SpikeThrottle.SmallestIntervalIsTheBound | notify.go:144-197 | for a bound on the duration of sends, every run under it ends so if and only if the bound is at most the smallest repeat interval |
| SpikeThrottle.OneFlightPerKey | notify.go:155-180 | while such a send for a key is under way no other visit to it is due |
| SpikeThrottle.LetThroughExactly | notify.go:155-180 | over such runs a visit starts a send exactly if none for its key is under way and either none has succeeded or, with an interval of R>0 minutes, the latest success is 60R seconds back |
| SpikeThrottle.SlowFailureErasesASuccess | notify.go:185-197 | for every interval, a send that lasts that long can erase the stamp of a later successful one: a concrete run |
| SpikeThrottle.SpikeStamps.constructor | notify.go:22-33 | starts with no stamp |
| SpikeThrottle.SpikeStamps.TryStamp | notify.go:149-180 | stamps exactly when due and returns what a rollback has to restore |
| SpikeThrottle.SpikeStamps.Rollback | notify.go:185-197 | restores the previous stamp or removes it |
| RateLimiter.PruningUnobservable | internal/dashboard/ratelimit.go:43-78 | if five minutes refill the bucket, the pruning limiter answers as one that never forgets |
| RateLimiter.PruningObservable | internal/dashboard/ratelimit.go:62-69 | otherwise some run tells them apart |
| RateLimiter.PruningExactCondition | internal/dashboard/ratelimit.go:43-78 | pruning is unobservable if and only if rate times 300 seconds is at least the capacity |
| RateLimiter.WindowBound | internal/dashboard/ratelimit.go:43-78 | a never-forgetting limiter allows one IP at most capacity plus rate times T in any window of T seconds |
| RateLimiter.LimiterWindowBound | internal/dashboard/ratelimit.go:43-78 | so does the pruning one, under that condition |
| RateLimiter.RetryAfterExact | internal/dashboard/ratelimit.go:71-75 | a denial's delay: refused polls do not postpone it, a request after it is allowed, one more than a second earlier is refused |
| RateLimiter.LimiterRetryAfterExact | internal/dashboard/ratelimit.go:54-78 | the same of the pruning limiter |
| RateLimiter.ConstructedLimitersRefill | internal/dashboard/server.go:362-370 | both limiters the server constructs meet the condition |
| RateLimiter.BurstIsAllowed | internal/dashboard/ratelimit.go:43-78 | an IP's first requests, as many as the capacity, are allowed however fast they come |
| RateLimiter.ServerLimits | internal/dashboard/server.go:362-370 | the limiters as constructed: 60 at once and at most 60 plus 10 a second; 3 at once and at most 3 plus 5 a minute |
| RateLimiter.IpRateLimiter.constructor | internal/dashboard/ratelimit.go:31-37 | starts with no bucket |
| RateLimiter.IpRateLimiter.Allow | internal/dashboard/ratelimit.go:43-78 | refill, prune, then consume or deny |
| RateLimiter.IpRateLimiter.Prune | internal/dashboard/ratelimit.go:62-69 | drops exactly the IPs not seen for five minutes |
| RdCollections.LookupIsScan | internal/dashboard/rd_collections_windows.go:175-192 | over any snapshot that indexes the records the look-up gives the answer of a plain scan of them |
| RdCollections.ScanAnswerUnique | internal/dashboard/rd_collections_windows.go:172-192 | a scan has one answer |
| RdCollections.AnswerIgnoresOrder | internal/dashboard/rd_collections_windows.go:245-288 | answers are the same for permuted or repeated records |
| RdCollections.BuildExact | internal/dashboard/rd_collections_windows.go:252-275 | the exact map and the hosts of each short name, after all records |
| RdCollections.BuildShort | internal/dashboard/rd_collections_windows.go:277-287 | keeps a short name when one host has it and that host's records agree |
| RdCollections.BuildSnapshot | internal/dashboard/rd_collections_windows.go:245-288 | builds an index of the records |
| RdCollections.NoLostWakeUp | internal/dashboard/rd_collections_windows.go:139-170 | in every reachable state a broker that differs from the one last read is signalled, about to be signalled, or about to be read |
| RdCollections.PublishedWhole | internal/dashboard/rd_collections_windows.go:194-220 | the published snapshot indexes the whole of the newest response that was valid, and look-ups in it answer as a scan of that response |
| RdCollections.RunStaysUpToDate | internal/dashboard/rd_collections_windows.go:194-220 | every event, failed refreshes and broker changes included, keeps it so |
| RdLookups.RefreshExactly | internal/dashboard/rd_collections_windows.go:194-236 | a discovery that failed or has a record without host or collection leaves what is published; any other is published whole |
| RdLookups.LookupIgnoresSpelling | internal/dashboard/rd_collections_windows.go:172-192 | letter case, surrounding blanks and the root dot of a query make no difference |
| RdLookups.RecordsIgnoreCase | internal/dashboard/rd_collections_windows.go:245-262 | nor does the letter case of the records |
| RdLookups.NameLookup | internal/dashboard/rd_collections_windows.go:172-192 | when one host has a bare name and its records agree, a query of that bare name finds its collection if it is the host's own name or either is bare, and nothing from another domain |
| RdLookups.AmbiguousName | internal/dashboard/rd_collections_windows.go:172-192 | a bare name of several hosts, or of none, or of one whose records disagree, finds nothing |
| RdCollections.RdCollectionResolver.constructor | internal/dashboard/rd_collections_windows.go:126-135 | starts with nothing published |
| RdCollections.RdCollectionResolver.UpdateBroker | internal/dashboard/rd_collections_windows.go:164-170 | stores the trimmed broker and leaves the trigger full |
| RdCollections.RdCollectionResolver.Refresh | internal/dashboard/rd_collections_windows.go:194-236 | publishes a response only when every record is well-formed |
| RdCollections.RdCollectionResolver.CollectionFor | internal/dashboard/rd_collections_windows.go:175-192 | answers as a scan of the published records, and empty before the first |
| JsonInspector.ValueExact | internal/dashboard/handlers_sessions.go:801-844 | on the tokens of any JSON value followed by any rest the inspection succeeds if and only if no object at any depth repeats a key, and leaves exactly the rest |
| JsonInspector.InspectsExactly | internal/dashboard/handlers_sessions.go:801-844 | on any tokens it succeeds if and only if they begin with such a value |
| JsonInspector.Decoder.constructor | internal/dashboard/handlers_sessions.go:788-790 | starts at the first token |
| JsonInspector.Decoder.Next | internal/dashboard/handlers_sessions.go:802-805 | the next token, or the end |
| JsonInspector.Decoder.InspectValue | internal/dashboard/handlers_sessions.go:801-844 | the recursive descent: succeeds and advances as specified, and terminates |
| JsonInspector.Decoder.InspectMembers | internal/dashboard/handlers_sessions.go:811-829 | the loop over an object's members and its key set |
| JsonInspector.Decoder.InspectItems | internal/dashboard/handlers_sessions.go:830-835 | the loop over an array's elements |
| JsonInspector.Decoder.CloseWith | internal/dashboard/handlers_sessions.go:839-851 | only the matching bracket closes |
| JsonInspector.RejectDuplicateKeys | internal/dashboard/handlers_sessions.go:788-799 | accepts if and only if the input is one JSON value without repeated keys (section 4 of RFC 8259) |
| PerfSanitizer.FixpointsAreClean | perf.go:111-223 | the snapshots a pass leaves alone are exactly the clean ones |
| PerfSanitizer.PassCleans | perf.go:111-223 | a pass reaches a clean snapshot unless it leaves a median beside an invalid FPS or quality |
| PerfSanitizer.TwoPassesSettle | perf.go:111-223 | three passes equal two, and two always reach a clean snapshot |
| PerfSanitizer.OnePassSettles | perf.go:190-221 | one pass suffices if and only if RemoteFX is absent or no in-bounds collected median stands beside an out-of-bounds FPS or quality |
| PerfSanitizer.SecondPassDropsAMedian | perf.go:190-221 | an FPS that is not a number beside a collected median of 30: the first pass keeps the median, the second drops it |
| PerfSanitizer.PassOrders | perf.go:128-163 | after one pass 0 <= ge20 <= ge5 <= observed, and each RemoteFX median is on the right side of its percentile |
| PerfSanitizer.LowerPassClean | perf.go:128-133 | the pair steps for metrics where lower is better: always clean, and identity exactly on clean pairs |
| PerfSanitizer.HigherPassClean | perf.go:134-139 | the pair steps where higher is better: clean unless the floor was invalid |
| PerfSanitizer.WhatAPassKeeps | perf.go:115-139 | a pass keeps a value or zeroes it, and drops a median only if it is out of bounds or contradicts its percentile |
| PerfSanitizer.HostFieldByField | perf.go:140-154 | each host value within its own bounds stays and any other is zeroed, whatever the others are |
| PerfSanitizer.RemoteFxFieldByField | perf.go:155-204 | so for each RemoteFX value; the activity counts stay exactly if collected, nested and at most 2^20 |
| PerfSanitizer.SanitizeSnapshot | perf.go:114-223 | the whole sequence of overwrites makes one pass |
| PerfSanitizer.SanitizeHost | perf.go:140-154 | the host part of it |
| PerfSanitizer.SanitizeRemoteFx | perf.go:190-222 | the RemoteFX part, in source order |
| PerfSamples.FilterRejectsNothing | internal/dashboard/samples.go:13-101 | on a sanitised snapshot the sample filter rejects nothing |
| PerfSamples.SamplesExactly | internal/dashboard/samples.go:13-101 | for every field: a sample is in the list exactly if its value is that field's own, within its bounds and, as the field asks, collected, available or above zero |
| PerfSamples.SamplesInOrder | internal/dashboard/samples.go:29-98 | no field occurs twice and the list follows the order of the fields |
| PerfSamples.CheckResultSamples | internal/dashboard/samples.go:13-101 | returns exactly those samples, each field at most once, in order |
| PerfSamples.SampleSink.Add | internal/dashboard/samples.go:18-27 | appends a sample if it is a session count or a known field within bounds |
| ConfigNormaliser.ValidateFixpoint | config.go:663-779 | for targets, global exclusions and event-spike settings, one pass is a fixpoint if and only if every kept target names a known trigger or none, every counting host is tidy, and the mean prior is not negative |
| ConfigNormaliser.SecondValidationDiffers | config.go:663-779 | settings that a second pass changes |
| ConfigNormaliser.SecondPassChangesTriggers | config.go:692-703 | a target whose only trigger is unknown loses it in one pass and gets the default triggers in the next |
| ConfigNormaliser.SecondPassChangesAHost | config.go:741-758 | the exclusion "a.." becomes "a." and then "a" |
| ConfigNormaliser.TargetsFixpoint | config.go:665-779 | the same for the notification targets |
| ConfigNormaliser.HostsFixpoint | config.go:741-758 | the same for the global exclusions |
| ConfigNormaliser.HostNameTwice | config.go:206-212 | trimming a host a second time changes it if and only if it ends in two dots or a blank before its dot |
| ConfigNormaliser.ExclusionsTwice | config.go:704-724 | normalising a target's exclusions again changes nothing if and only if the counting ones are tidy |
| ConfigNormaliser.SubscriptionsSettle | config.go:170-182 | in all cases a second pass keeps every target and what HasTrigger answers for it |
| ConfigNormaliser.RoutingKept | config.go:170-204 | for a settled target validation does not change what it subscribes to; it changes which servers it excludes exactly by dropping entries with a blank host, which cover only servers whose short name is blank |
| ConfigNormaliser.ExclusionKept | config.go:214-228 | for tidy hosts validation does not change who is globally excluded |
| ConfigNormaliser.ClampFixpoint | config.go:851-886 | clamping the event-spike settings twice changes something if and only if the mean prior was negative |
| ConfigNormaliser.SecondPassChangesThePrior | config.go:851-886 | a mean prior of -1 becomes 0 and then the default |
| ConfigNormaliser.ClampsToNearest | config.go:939-967 | zero becomes the default, any other value the nearest in range |
| ConfigNormaliser.CooldownsSettle | config.go:893-929 | normalising the channel cooldowns again never changes them |
| ConfigNormaliser.ClampingIsDetermined | config.go:893-929 | the map's iteration order leaves no trace: the result is determined |
| ConfigNormaliser.FirstKeyWins | config.go:888-892 | of several keys that trim to one channel, the first in byte order decides |
| ConfigNormaliser.AcceptedPatchIsStored | config.go:1473-1581 | a patch that is accepted is stored as sent, channel names trimmed, except that a zero mean prior becomes the default |
| ConfigNormaliser.CheckCooldowns | config.go:1507-1525 | accepts the overrides if and only if there are at most 256, none blank, none equal after trimming, all in range |
| ConfigNormaliser.NormaliseTarget | config.go:692-739 | one target: triggers, exclusions, repeat interval, severity |
| ConfigNormaliser.NormaliseHosts | config.go:744-758 | the canonical hosts, each once, in order |
| ConfigNormaliser.SortedKeys | config.go:899-903 | the keys in byte order, each once |
| ConfigNormaliser.NormaliseCooldowns | config.go:893-929 | collects the overrides in that order, up to 256 |
| ConfigNormaliser.Config.Validate | config.go:663-779 | clamps the event-spike settings, then makes the passes over targets, exclusions and email targets, in place |
| ConfigNormaliser.Config.StripTargets | config.go:665-688 | keeps exactly the targets of known kind and URL scheme, in order |
| ConfigNormaliser.Config.NormaliseEach | config.go:690-739 | normalises every target in place |
| ConfigNormaliser.Config.CheckEmails | config.go:760-779 | clears the URL of an email target that cannot send |
| ConfigNormaliser.Config.ClampEvtSpike | config.go:851-886 | clamps the event-spike settings in place |
| ConfigNormaliser.Config.ApplyEvtSpikePatch | config.go:1533-1581 | layers a patch and clamps |
| ConfigNormaliser.Config.ToggleExclusion | config.go:1400-1425 | adds the host or removes the first entry that stands for it, and says which |
| ConfigNormaliser.ToggleFlips | config.go:1400-1425 | on any list a toggle of a tidy host flips its exclusion if and only if at most one entry stands for it, and changes no other host's |
| ConfigNormaliser.ValidatedListFlips | config.go:1400-1425 | on a list that one validation of tidy hosts produced it always flips |
| ConfigSettings.SurvivorsExactly | config.go:663-688 | a target survives exactly if it is a webhook, ntfy or email target and its URL is empty or begins, in any case, with http, https, smtp or smtps and :// |
| ConfigSettings.TargetFieldByField | config.go:690-779 | what validation makes of each field of a target, with its limits |
| ConfigSettings.SpikeFieldByField | config.go:851-876 | the default and the range of each event-spike setting |
| ConfigSettings.PatchFieldByField | config.go:1533-1581 | what a patch makes of each setting: the given value, or what was there, clamped |
| ConfigSettings.AcceptedExactly | config.go:1473-1526 | a patch is accepted exactly if clamping would change none of its numbers and none stands for a default, but for a mean prior of zero, and its lists and overrides are admissible |
| ConfigSettings.OverridesExactly | config.go:893-929 | at most 256 overrides come out, each under a trimmed name with the clamped minutes of a key that trims to it |
| ConfigSettings.NoneLost | config.go:893-929 | fewer than 256 come out only if every name that is not blank is among them |
| SessionStore.ReapingUnobservable | internal/dashboard/session.go:50-60 | whenever the reaper runs, with however old a clock reading, every access is answered as if it never ran |
| SessionStore.SessionLastsExactly | internal/dashboard/session.go:95-112 | a session used at least every 8 hours answers exactly until it has been idle for more than 8 hours or is more than 24 hours old, whatever happens to others and whenever the reaper runs |
| SessionStore.StepAlike | internal/dashboard/session.go:73-119 | stores that differ only in expired sessions answer alike and stay so |
| SessionStore.Store.constructor | internal/dashboard/session.go:33-34 | starts empty |
| SessionStore.Store.CreateSession | internal/dashboard/session.go:73-91 | stores a session seen now |
| SessionStore.Store.GetSession | internal/dashboard/session.go:95-112 | answers and refreshes a live session, removes an expired one, changes no other |
| SessionStore.Store.DeleteSession | internal/dashboard/session.go:115-119 | removes the session |
| SessionStore.Store.Reap | internal/dashboard/session.go:50-60 | removes exactly the expired sessions |

## Left out

- Win32, WTS, DPAPI, registry, PowerShell and SSPI calls: only success, failure and the freshness of handles and tokens matter here.
- HTTP plumbing, TLS, routing, authentication group look-ups, audit trails and log output: no state of interest beyond the components above.
- SQLite itself: a statement or transaction is one atomic step that succeeds or fails; a rolled-back one changes nothing.
- ActionExecutor.NextKeepsInv: the ledger forgets a row after the action's expiry, or a terminal row the dashboard has accepted and will not deliver again while no execution works on it (internal/svc/check.go:530-548); a ledger that forgets earlier is the subject of ActionExecutor.EarlyForgettingRepeats.
- SspiRegistry.StepKeepsOwnership: a Range pass loads an entry when it visits it; the order of visits is arbitrary.
- SessionPolicy.DeliveredUnderPolicy: session snapshots and target validation are a yes-or-no answer of the store, retention of terminal rows is not modelled, and other writers of the settings file (the installer, the command line) are not part of this model.
- ActionDelivery.RepeatedKeyIsReplayed: retention in time removes terminal rows and with them their keys, which is not modelled.
- SessionPolicy.SessionActions.Deliver: the log of enqueues, policy changes and deliveries stands for the audit table, and the expiry and selection queries are functions of the table.
- ForceUpdate.ForceUpdateState.Enqueue: the registry without an outbox, which only tests construct, and the offline and unsupported answers given before the registry is called.
- ForceUpdate.ForceUpdateState.Collect: queues are values in the class; the in-place compaction of the slice is ForceUpdate.CompactInPlace.
- NotifyThrottle.NotifyState.Send: event spikes, which have their own stamps, locks and rollbacks in SpikeThrottle; payloads, titles, severities and the sends themselves.
- SpikeThrottle.FailedSendsLeaveNoTrace: a target of unknown type would be stamped without a send; validation removes such targets.
- SseBroker.Broker.Broadcast: a payload is the number of the call that carries it; its encoding, and PublishRecentSpike, which only encodes and broadcasts, are not modelled.
- RateLimiter.RetryAfterExact: rounding of floating-point token counts; tokens and times are real numbers.
- PerfSanitizer.SanitizeSnapshot: the presence mask is one mark per median, so the retired mask bits, which are carried along unread, do not appear; negative zero equals zero.
- ConfigNormaliser.Config.Validate: the scalar settings, whose clamps are independent of one another and of everything modelled, and secrets. Case folding and trimming cover ASCII.
- ConfigNormaliser.ClampFixpoint: not-a-number values.
- JsonInspector.InspectsExactly: the lexer; the decoder's tokens are the input, with unreadable input as one bad token.
- RdCollections.NoLostWakeUp: one Run per resolver, as the dashboard starts it; the five-minute ticker is an event that may come at any time the refresher waits.
- SessionStore.Store.GetSession: the session is returned by value, so sharing of the stored record with its caller is not captured.
- Tier selection, version comparison, export sorting, file names and the per-type target indexing: pure functions of a few lines each, with no state and no interplay with the components above.
