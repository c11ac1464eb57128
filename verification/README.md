# Picket: a Dafny model of the hub and the agent

Picket is a hub-and-agent monitor. This project models the parts whose correctness depends on state kept over whole
runs or on exact arithmetic, and proves properties of them:

- **Requests over one WebSocket** (`RequestProtocol`, `RequestManagers`): the pending map, one-slot response
  channels, watchers, cancellation, shutdown, and answers without an ID, as interleaved steps.
- **Status alerts** (`AlertsCacheSpec`, `AlertsHistorySpec`, `StatusAlerts`, `StatusNotices`, `StatusSchedules`, and
  the classes `AlertsCache`, `AlertsHistory`, `AlertManager`): system status, the alert table with its cache and
  history, pending timers and the log of notices.
- **System alerts** (`SystemAlertsSpec`, `SystemAlerts`): the window accumulation for CPU, memory and load.
- **Statistics roll-up** (`RecordAverages`, `RollupTree`, `RecordJobsSpec`, `RecordManagers`): averages and peaks
  through any number of levels, and the cadence of the creation and deletion jobs.
- **Counter deltas** (`Deltas`, `NetworkSpec`, `NetworkAgent`, `DockerNetwork`): rates from 64-bit counters, with
  wrap-around and reset detection.
- **GPU sampling** (`GpuSpec`, `GpuManagers`): running totals with one snapshot per polling key.
- **Docker log framing** (`DockerLogs`) and **SSH launches** (`SshProtocol`, `SshManagers`).

Each component has a specification on values, whose functions are single steps, and the lemmas say what every run of
steps keeps and, in plain numbers, what single steps amount to. Beside it stands a class with the fields and methods
of the program; each method is proved to make exactly the steps of the specification. The alert manager works on the
cache and history objects of their own models. Loops over Go maps take the order of iteration as a parameter or
choose an arbitrary element. Floats are reals; 64-bit, 32-bit and 8-bit integers wrap around where the program's do.
Clocks, I/O results and random tokens are parameters.

## Results that are not what one would expect

- From the 20m level up, peaks of rounded fields are exact if and only if rounding to two decimals does not raise
  the peak (`RollupTree.PeaksAreExactIff`): the second average can round up above an unrounded peak. Agents send
  hundredths, for which peaks are exact. Integer peaks are exact even when a sum wraps around.
- Integer averages lose less than one unit per level if and only if no 64-bit sum overflows
  (`RollupTree.CountDriftBound`).
- A counter that fell is detected for certain only within a bound on the fall; `NetworkSpec.FallAlwaysAboveLimit` is
  the exact condition and `NetworkSpec.LargeFallCanLookLikeTraffic` a fall that is not noticed.
- Published rates account for the traffic of an interface if and only if no difference overflows when multiplied by
  1000 (`NetworkSpec.RatesReconstructTraffic`); `NetworkSpec.HugeBurstIsLost` is a burst that nearly vanishes.
- An agent that knows no interface enumerates again at each poll and forgets the baselines of all polling keys
  (`NetworkSpec.OtherSlotKeptIff`).
- An update that moves an alert away from a system leaves the old system's cache entry stale
  (`AlertsCacheSpec.StepKeepsValidIff`); the user interface makes no such update. Without such updates the alert
  cache agrees with the table for every system but the one with the empty name, whose hooks return early
  (`AlertsCacheSpec.CacheAgreesIff`); no caller asks for the alerts of an empty system.
- A save of up for a system that has just left the manager bypasses the alerts, and leaves an alert pending or
  triggered exactly if one was armed (`StatusAlerts.UnmanagedUpKeepsIff`, with a run in
  `StatusAlerts.LateUpdateLeavesAlert`).
- Whether a windowed alert is judged at all can depend on the other alerts of the system
  (`SystemAlertsSpec.CompanyCanMatter`); a verdict that it is given alone does not change
  (`SystemAlertsSpec.OthersOnlyAdmit`). `SystemAlertsSpec.IndependentIff` says exactly when other alerts cannot
  matter.
- A revocation misses a token that is just being connected (`SshProtocol.RevokedIsGoneIff`).
- Answers without IDs reach the requests they answer if and only if each finds its request still pending and is not
  dropped (`RequestProtocol.AnswersAreRightIff`); after a cancellation an answer lands on another request
  (`RequestProtocol.LateAnswerIsMisrouted`).
- Removing an open history record, by trimming or by the user, is exactly what breaks "one open record if and only
  if triggered" (`AlertsHistorySpec.ExactlyOneKeptIff`).

## Model

| member | source | states |
|---|---|---|
| `RequestProtocol.StepKeepsValid` | internal/hub/ws/request_manager.go:47-204 | every step of every goroutine keeps the invariant: unique IDs, map entries under their own ID, at most one message per channel, routing by ID, a true log, a watcher for every pending request whose send returned |
| `RequestProtocol.EveryMessageHasOneFate` | internal/hub/ws/request_manager.go:108-168 | in every interleaving a message that is dealt with is closed and on no channel, or on the channel of exactly one request |
| `RequestProtocol.FateIsFinal` | internal/hub/ws/request_manager.go:108-168 | no later step changes the fate of a message or adds a second message to a channel that has one |
| `RequestProtocol.MessagesReachTheirRequest` | internal/hub/ws/request_manager.go:121-136 | a channel holds at most one message, and a message with ID n is only ever on the channel of the one request whose ID is n |
| `RequestProtocol.HandlerIsNeverStuck` | internal/hub/ws/request_manager.go:108-168 | in every reachable state the response handler can go on: it can look up any next message, the channel it looked up has room whatever the receiver does, or it can delete |
| `RequestProtocol.LeavesMap` | internal/hub/ws/request_manager.go:177-192 | a request only leaves the map cancelled, or when the handler deletes its own ID |
| `RequestProtocol.WatcherOnlyAffectsItsRequest` | internal/hub/ws/request_manager.go:171-185 | the late watcher of a completed request changes nothing but itself; that of a pending request removes just that one |
| `RequestProtocol.WatcherStep` | internal/hub/ws/request_manager.go:171-185 | once all contexts are done, a watcher takes its request out of the map if it is there: the map shrinks by exactly one |
| `RequestProtocol.WatchersDrain` | internal/hub/ws/request_manager.go:78-88 | once all contexts are done and all sends returned, running the watchers in any order empties the map |
| `RequestProtocol.LegacyRunIsInOrder` | internal/hub/ws/request_manager.go:144-168 | with answers in order, creation times in send order and no early cancellation, the answered requests are exactly the first ones sent |
| `RequestProtocol.LegacyAnswersReachTheirRequest` | internal/hub/ws/request_manager.go:144-168 | in such a run message number n reaches the n-th request sent |
| `RequestProtocol.LegacyRefinesQueue` | internal/hub/ws/request_manager.go:144-168 | in such a run routing to the oldest refines a FIFO queue: a successful write enqueues, a delivery takes the head, nothing else changes the queue |
| `RequestProtocol.AnswersAreRightIff` | internal/hub/ws/request_manager.go:144-168 | for an agent that answers in order without IDs, whatever contexts end, writes fail or Close comes: every answer so far reached the request that it answers if and only if each found its request still pending at its lookup and was not dropped |
| `RequestProtocol.AnswerReachesItsRequestIff` | internal/hub/ws/request_manager.go:144-168 | with all earlier answers right, the next one reaches the request that it answers exactly if that is still pending |
| `RequestProtocol.AllRightIff` | internal/hub/ws/request_manager.go:144-185 | one step: an answer that is right stays right, a wrong one stays wrong, and a new one is right exactly if it finds its request |
| `RequestProtocol.LegacyRouteIff` | internal/hub/ws/request_manager.go:144-168 | with distinct creation times a message without an ID is placed on request j exactly if j is pending and the oldest |
| `RequestProtocol.LateAnswerIsMisrouted` | internal/hub/ws/request_manager.go:144-168 | a concrete run in which the late answer to a cancelled request lands on the channel of the next request |
| `RequestProtocol.SendingAddsOne` | internal/hub/ws/request_manager.go:47-88 | an undisturbed SendRequest adds just its own request to the map under a new ID; a failed one leaves the map as it was and the context cancelled |
| `RequestProtocol.HandlingAnswers` | internal/hub/ws/request_manager.go:108-141 | an undisturbed response to a live pending ID is placed on its channel, takes it out of the map and changes nothing else |
| `RequestProtocol.CloseCancelsAll` | internal/hub/ws/request_manager.go:195-204 | Close leaves the map empty and the context of each request that was pending done, and changes nothing else |
| `RequestProtocol.NothingReachesAfterClose` | internal/hub/ws/request_manager.go:108-204 | over every run after Close a request that was pending then, and not already looked up, stays done with its channel as it was, and a message with its ID is closed |
| `RequestProtocol.UnknownIdIsClosed` | internal/hub/ws/request_manager.go:121-129 | a message whose ID is not in the map is closed and reaches no request |
| `RequestManagers.RequestManager.DrawID` | internal/hub/ws/request_manager.go:48 | nextID.Add(1) with 32-bit wrap-around makes the step Draw |
| `RequestManagers.RequestManager.Insert` | internal/hub/ws/request_manager.go:59-69 | a fresh request object goes into the map: the step Insert |
| `RequestManagers.RequestManager.StartWatcher` | internal/hub/ws/request_manager.go:84-87 | a successful write starts the watcher: the step WriteOk |
| `RequestManagers.RequestManager.FailWrite` | internal/hub/ws/request_manager.go:77-82 | a failed write cancels the request: the step WriteFail |
| `RequestManagers.RequestManager.SendRequest` | internal/hub/ws/request_manager.go:47-88 | the whole call, undisturbed, is the three steps in order; it returns a request exactly if the write succeeds |
| `RequestManagers.RequestManager.OldestPending` | internal/hub/ws/request_manager.go:147-153 | the loop over the map finds a pending request with the least creation time, or none exactly if the map is empty |
| `RequestManagers.RequestManager.LookUp` | internal/hub/ws/request_manager.go:110-129 | the lookup by ID or of the oldest request is the step Arrive |
| `RequestManagers.RequestManager.Offer` | internal/hub/ws/request_manager.go:131-140 | the select places the message or closes it; with room proved to be there it never blocks |
| `RequestManagers.RequestManager.DeleteRequest` | internal/hub/ws/request_manager.go:188-192 | the step Delete: the entry goes, the context is not cancelled |
| `RequestManagers.RequestManager.HandleResponse` | internal/hub/ws/request_manager.go:108-168 | the whole call, undisturbed, is lookup, select and delete |
| `RequestManagers.RequestManager.CancelRequest` | internal/hub/ws/request_manager.go:177-185 | if the ID is pending its context is cancelled and the entry removed, otherwise nothing happens |
| `RequestManagers.RequestManager.CleanupRequest` | internal/hub/ws/request_manager.go:171-174 | the watcher makes the step Watch |
| `RequestManagers.RequestManager.Close` | internal/hub/ws/request_manager.go:195-204 | the loop cancels exactly the pending requests and empties the map: the step Close |
| `AlertsCacheSpec.StepKeepsValid` | internal/alerts/alerts_cache.go:65-131 | each create, delete, lazy load and repopulation, and each update that takes the alert away from no system, keeps agreement of store and table, and that a system missing from the store has no alerts |
| `AlertsCacheSpec.StepKeepsValidIff` | internal/alerts/alerts_cache.go:48-52 | an event keeps that agreement exactly if it is not an update that moves an alert away from a named system |
| `AlertsCacheSpec.CacheAnswersLikeTable` | internal/alerts/alerts_cache.go:109-139 | after PopulateFromDB and any run of such events GetSystemAlerts and GetAlert equal a direct query, for the entries that CacheShowsRows reads off the rows |
| `AlertsCacheSpec.CacheShowsRows` | internal/alerts/alerts_cache.go:15-27 | so in every such state each entry of GetSystemAlerts and the answer of GetAlert carry the system, name, value, trigger state and 8-bit minutes of the row as it is, field by field |
| `AlertsCacheSpec.UpdatedShowsRow` | internal/alerts/alerts_cache.go:82-95 | after the hook of a save the entry of the alert shows the saved row field by field, and no other entry changed |
| `AlertsCacheSpec.CacheAgreesIff` | internal/alerts/alerts_cache.go:82-106 | over all runs of such events the cache agrees for a system exactly if its name is not empty |
| `AlertsCacheSpec.NoSystemGoesStale` | internal/alerts/alerts_cache.go:84-87 | a concrete run in which the entry for the empty system goes stale |
| `AlertsCaches.AlertsCache.Update` | internal/alerts/alerts_cache.go:82-95 | the nested store gets exactly the new snapshot, in a new store if the system had none; UpdatedShowsRow gives its fields |
| `AlertsCaches.AlertsCache.Delete` | internal/alerts/alerts_cache.go:98-106 | exactly the entry of the alert goes |
| `AlertsCaches.AlertsCache.PopulateFromDB` | internal/alerts/alerts_cache.go:65-79 | the loop over the rows in any order leaves exactly the alerts of every named system; without force only the first time |
| `AlertsCaches.AlertsCache.GetSystemAlerts` | internal/alerts/alerts_cache.go:109-131 | lazy load if needed, and all entries of the system in the order of the store |
| `AlertsCaches.AlertsCache.GetAlert` | internal/alerts/alerts_cache.go:134-139 | finds the entry or reports that there is none, without loading |
| `AlertsCaches.AlertsCache.Refresh` | internal/alerts/alerts_cache.go:170-175 | the current copy of a snapshot, none for an empty ID |
| `AlertsCaches.ByName` | internal/alerts/alerts_cache.go:142-151 | keeps exactly the alerts with the name, in order |
| `AlertsHistorySpec.ResolvedCount` | internal/alerts/alerts_history.go:44-55 | resolving closes exactly one open record of the alert if there is one, and touches no other |
| `AlertsHistorySpec.OpenRecordsAreUnique` | internal/alerts/alerts_history.go:11-73 | in every reachable state an alert has at most one open record, and none if it is untriggered or deleted |
| `AlertsHistorySpec.AtMostOneKept` | internal/records/records_deletion.go:37-49 | trimming to the newest 200, or removing any record, keeps that form |
| `AlertsHistorySpec.ExactlyOneKeptIff` | internal/alerts/alerts_history.go:20-41 | one open record if and only if triggered is kept by an event exactly if the event creates no triggered alert and removes no open record |
| `AlertsHistorySpec.OpenExactlyWhenTriggered` | internal/alerts/alerts_history.go:11-73 | over runs of such events there is exactly one open record if the alert is triggered and none otherwise |
| `AlertsHistorySpec.RecordTellsTheAlert` | internal/alerts/alerts_history.go:20-73 | in every reachable state each history row stems from an update that triggered its alert, and has the system, name and value that the alert had then |
| `AlertsHistorySpec.RowsLeft` | internal/records/records_deletion.go:37-49 | the rows that each event leaves: the newest 200 if there are more than 250, those of other systems when a system is deleted, and otherwise all of them, with one more for an alert that is triggered |
| `AlertsHistories.AlertsHistory.ResolveAlertHistoryRecord` | internal/alerts/alerts_history.go:44-55 | the first open record of the alert is resolved |
| `AlertsHistories.AlertsHistory.CreateAlertHistoryRecord` | internal/alerts/alerts_history.go:58-73 | one open record with the alert's system, name and value is appended |
| `AlertsHistories.AlertsHistory.UpdateHistoryOnAlertUpdate` | internal/alerts/alerts_history.go:20-41 | nothing if the trigger state is unchanged, a new open record on triggering, a resolution on the way back |
| `AlertsHistories.AlertsHistory.ResolveHistoryOnAlertDelete` | internal/alerts/alerts_history.go:11-17 | deleting a triggered alert resolves its record |
| `AlertsHistories.AlertsHistory.DeleteOldAlertsHistory` | internal/records/records_deletion.go:37-49 | above 250 rows the newest 200 stay |
| `StatusAlerts.StepKeepsValid` | internal/alerts/alerts_status.go:33-238 | every hook, timer, edit, deletion and restart keeps the invariant of status, table, cache, history and timers |
| `StatusAlerts.AlertsAreCovered` | internal/alerts/alerts_status.go:33-139 | in every reachable state an armed Status alert of a down system is pending or triggered, not both and not neither; every other Status alert, in particular of a system that is up, is neither |
| `StatusAlerts.GoingDownArms` | internal/hub/systems/system_manager.go:155-159 | all Status alerts there when a system goes from up to down are armed and pending |
| `StatusAlerts.ArmedStays` | internal/hub/systems/system_manager.go:111-162 | an armed alert stays armed, also over restarts, until it is deleted or its system is no longer down |
| `StatusAlerts.WholeDownPeriod` | internal/alerts/alerts_status.go:33-139 | from going down on, over any steps through which the alert exists and its system is down, restarts included, the alert is pending or triggered and never both |
| `StatusAlerts.WentDownFrame` | internal/alerts/alerts_status.go:53-79 | going down gives a timer to exactly the Status alerts of the system without one and changes no other timer and no alert |
| `StatusAlerts.WentUpFrame` | internal/alerts/alerts_status.go:83-96 | coming up leaves the Status alerts of the system without timers, resets the triggered ones and touches no other alert |
| `StatusAlerts.SavePausedKeeps` | internal/hub/systems/system_manager.go:126-132 | pausing leaves no Status alert of the system pending or triggered |
| `StatusAlerts.SavePendingKeeps` | internal/hub/systems/system_manager.go:133-140 | resuming keeps the invariant, connected or not |
| `StatusAlerts.SaveUpKeeps` | internal/hub/systems/system_manager.go:149-159 | a save of up keeps the invariant for a system in the manager, also one that was paused meanwhile, and for one outside it without armed alerts |
| `StatusAlerts.UnmanagedUpKeepsIff` | internal/hub/systems/system_manager.go:144-146 | a save of up for a system that has left the manager keeps the invariant exactly if none of its Status alerts is pending or triggered, which is exactly if none is armed |
| `StatusAlerts.LateUpdateLeavesAlert` | internal/hub/systems/system_manager.go:144-146 | a concrete run of up, alert and new token, after which such a save leaves the alert pending while its system is up |
| `StatusAlerts.NewTokenKeeps` | internal/hub/systems/system_manager.go:118-122 | a new token keeps the invariant, whatever the status and whether or not the system is in the manager |
| `StatusAlerts.NewTokenTakesDown` | internal/hub/systems/system_manager.go:118-122 | a new token for a system that is up in the manager leaves it down and out of the manager, with each of its Status alerts armed and pending |
| `StatusAlerts.NewTokenOtherwise` | internal/hub/systems/system_manager.go:111-147 | in all other cases no timer starts and no Status alert changes; only a system pending in the manager changes its status, to down |
| `StatusAlerts.FiredFrame` | internal/alerts/alerts_status.go:125-139 | a timer that fires leaves its alert, if it still exists, triggered and not pending, and changes no other |
| `StatusAlerts.RestartRepairs` | internal/alerts/alerts_status.go:173-238 | after a restart, whatever the table said, no Status alert of an up system is triggered and those of a down system are pending exactly if not triggered |
| `StatusAlerts.SetTriggeredTables` | internal/alerts/alerts.go:209-216 | a load-set-save of the trigger state keeps cache agreement and unique open records |
| `StatusNotices.NoticesAlternate` | internal/alerts/alerts_status.go:83-139 | between two down notices of an alert there is an up notice or a silent reset, between two up notices a down notice |
| `StatusNotices.LogTellsState` | internal/alerts/alerts_status.go:142-169 | each down notice is a change from untriggered to triggered, each up notice one back, and the last change in the log is the state of the table |
| `StatusNotices.DownNoticesAreNotEarly` | internal/alerts/alerts_status.go:62-79 | each down notice comes at least max(1, min) minutes after the entry that scheduled it, with the minutes of that entry, and with no restart and no change of the system away from down in between |
| `StatusSchedules.ScheduledFromRow` | internal/alerts/alerts_status.go:53-79 | over every run each scheduling was made by a step that found the row of the alert in the table, with the system and the minutes of that row, at the time of that step |
| `StatusSchedules.DownNoticeWaitsItsMinutes` | internal/alerts/alerts_status.go:53-79 | so a down notice comes at least as many minutes, and at least one, after such a step as the row of the alert had, modulo 256, without a restart and without another status of its system in between |
| `StatusSchedules.PendingAlertIsDue` | internal/alerts/alerts_status.go:62-79 | and a pending alert is due exactly so many minutes after it |
| `StatusSchedules.ComingUpNotifies` | internal/alerts/alerts_status.go:83-96 | a system that comes up from down sends exactly one up notice, at once, for each of its Status alerts that is triggered, and writes nothing else |
| `StatusSchedules.FiringNotifies` | internal/alerts/alerts_status.go:125-139 | a timer that fires sends exactly one down notice, at once, if its alert exists, and nothing otherwise |
| `StatusSchedules.PausingIsSilent` | internal/hub/systems/system_manager.go:126-132 | pausing sends no notice and leaves no alert of the system triggered, of whatever kind, and no timer of it |
| `StatusSchedules.ResumingDeactivates` | internal/hub/systems/system_manager.go:133-140 | resuming without a connection leaves no alert of the system triggered |
| `StatusSchedules.StepEffects` | internal/hub/systems/system_manager.go:111-250 | for every step: which systems have which status, which of them the manager has, and which rows there are with which fields; a save touches no alert and no timer of another system |
| `AlertManagers.AlertManager.SetAlertTriggered` | internal/alerts/alerts.go:209-216 | row, history object and cache object change together; false exactly if the alert is gone |
| `AlertManagers.AlertManager.CreateAlert` | internal/alerts/alerts_cache.go:57-60 | a new row and its cache entry |
| `AlertManagers.AlertManager.DeleteAlert` | internal/alerts/alerts_history.go:11-17 | the row goes, with the hooks of history and cache |
| `AlertManagers.AlertManager.SendStatusAlert` | internal/alerts/alerts_status.go:142-169 | trigger state first, then the notice; neither for an alert that is gone |
| `AlertManagers.AlertManager.SchedulePendingStatusAlert` | internal/alerts/alerts_status.go:62-79 | a timer is stored with its expiry unless there is one; true exactly if it was stored |
| `AlertManagers.AlertManager.HandleSystemDown` | internal/alerts/alerts_status.go:53-58 | the loop schedules every alert of the list |
| `AlertManagers.AlertManager.HandleSystemUp` | internal/alerts/alerts_status.go:83-96 | the loop cancels or resolves every alert of the list |
| `AlertManagers.AlertManager.CancelPendingAlert` | internal/alerts/alerts_status.go:99-110 | the entry goes; true exactly if there was one |
| `AlertManagers.AlertManager.CancelPendingStatusAlerts` | internal/alerts/alerts_status.go:114-122 | deleting while walking the map leaves exactly the timers of other systems |
| `AlertManagers.AlertManager.ProcessPendingAlert` | internal/alerts/alerts_status.go:125-139 | the body of the timer callback: one down notice unless the alert is gone or triggered, nothing if the entry is gone |
| `AlertManagers.AlertManager.TimerExpired` | internal/alerts/alerts_status.go:74-77 | the timer callback is the step Fire and keeps the run invariant |
| `AlertManagers.AlertManager.HandleStatusAlerts` | internal/alerts/alerts_status.go:33-50 | only up and down do anything, on the Status alerts of the system |
| `AlertManagers.AlertManager.StatusAlertsOf` | internal/alerts/alerts_cache.go:142-151 | the Status alerts of a system from the cache object, loaded if needed, in its order |
| `AlertManagers.AlertManager.DeactivateAlerts` | internal/hub/systems/system_manager.go:254-270 | the loop untriggers exactly the triggered alerts |
| `AlertManagers.AlertManager.SetDown` | internal/hub/systems/system.go:316-329 | nothing if the manager has the system as down or paused, otherwise a save of down |
| `AlertManagers.AlertManager.SaveStatus` | internal/hub/systems/system_manager.go:111-162 | the hook on a status save, branch by branch; as an enabled step it keeps the run invariant |
| `AlertManagers.AlertManager.SaveToken` | internal/hub/systems/system_manager.go:111-122 | the hook when the token changed; as an enabled step it keeps the run invariant |
| `AlertManagers.AlertManager.RemoveSystem` | internal/hub/systems/system_manager.go:196-210 | the system leaves the manager, the step Disconnect |
| `AlertManagers.AlertManager.AddWebSocketSystem` | internal/hub/systems/system_manager.go:238-250 | the manager takes the status from the table, the step Connect |
| `AlertManagers.AlertManager.Start` | internal/alerts/alerts.go:106-117 | the start of the hub: populate, resolve, restore; the step Restart, which keeps the run invariant |
| `AlertManagers.AlertManager.RestorePendingStatusAlerts` | internal/alerts/alerts_status.go:205-238 | the loop schedules the alerts found in the cache |
| `SystemAlertsSpec.FlipsIff` | internal/alerts/alerts_system.go:223-261 | with at most 255 records in the window an alert that is kept (some record found is older than its window) turns on exactly if current value and window mean exceed the threshold and 6 * count >= 5 * min, and off exactly if both are at most the threshold with the same condition; one that is not kept does neither |
| `SystemAlertsSpec.QueryKeepsWindows` | internal/alerts/alerts_system.go:112-131 | the records that the common query leaves out are in no window, so sum and count of each window are those over all records |
| `SystemAlertsSpec.OthersOnlyAdmit` | internal/alerts/alerts_system.go:103-143 | what is sent for an alert alone is sent for it in any company; other alerts can only let an alert be judged that would not be kept alone |
| `SystemAlertsSpec.CompanyMattersIff` | internal/alerts/alerts_system.go:103-143 | given other alerts leave the verdict on an alert as it is exactly if it is kept without them, or not even with them, or would not be sent if it were kept |
| `SystemAlertsSpec.IndependentIff` | internal/alerts/alerts_system.go:103-143 | no other alerts whatever can change the verdict exactly if the alert is kept alone, or no record before its window is within 255 minutes and 90 seconds, or it would not be sent if it were kept |
| `SystemAlertsSpec.CompanyCanMatter` | internal/alerts/alerts_system.go:134-143 | concrete records with a gap, on which a two-minute alert fires only beside an alert with a longer window |
| `SystemAlertsSpec.MinuteAlertIsSent` | internal/alerts/alerts_system.go:26-99 | an alert of at most one minute is sent exactly if the current value contradicts its state, once, with the opposite state and that value, whatever the other alerts and the records are |
| `SystemAlertsSpec.WindowedAlertIsSent` | internal/alerts/alerts_system.go:101-261 | an alert of more minutes is sent exactly if the current value contradicts its state, some record within 90 seconds before the window of an alert to be judged is older than its own window, 6 * count >= 5 * min for the 8-bit count of records at least 10 seconds into it, and their sum by that count contradicts its state; once, with the opposite state and that mean |
| `SystemAlertsSpec.OnlyAlertsAreSent` | internal/alerts/alerts_system.go:16-263 | nothing is sent for anything but the alerts given |
| `SystemAlerts.HandleSystemAlerts` | internal/alerts/alerts_system.go:16-263 | the method sends exactly the list that MinuteAlertIsSent, WindowedAlertIsSent and OnlyAlertsAreSent characterise alert by alert |
| `SystemAlerts.Select` | internal/alerts/alerts_system.go:26-109 | the first loop sends the one-minute alerts whose value contradicts their state at once and collects the others with the earliest start |
| `SystemAlerts.Filter` | internal/alerts/alerts_system.go:136-143 | keeps exactly the alerts whose window starts after the oldest record found |
| `SystemAlerts.Accumulate` | internal/alerts/alerts_system.go:152-221 | the nested loop over the array leaves each alert with exactly the sum of the records in its window, and with their number exactly if it is at most 255 |
| `SystemAlerts.Judge` | internal/alerts/alerts_system.go:223-261 | the last loop sends exactly the flips |
| `RecordAverages.AverageSystemStatsSlice` | internal/records/records.go:177-420 | the accumulation and division loops compute, for system, filesystems and interfaces, the rounded or 64-bit averages and the maxima defined record list by record list |
| `RecordAverages.AddRecord` | internal/records/records.go:194-291 | one record more in the totals |
| `RecordAverages.Accumulate` | internal/records/records.go:197-242 | the in-place sums and peaks of one block |
| `RecordAverages.AccumulateNics` | internal/records/records.go:246-256 | the loop over the interfaces of a record, which may be new |
| `RecordAverages.AccumulateFilesystems` | internal/records/records.go:259-291 | the loop over the extra filesystems of a record, which may be new |
| `RecordAverages.Divide` | internal/records/records.go:325-352 | gauges are divided and rounded, counters divided, peaks kept |
| `RecordAverages.SystemPeaks` | internal/records/records.go:230-242 | which peak belongs to which number of the system: each is the largest that the records show of just that peak and number |
| `RecordAverages.FilesystemPeaks` | internal/records/records.go:259-291 | the same for the extra filesystems, which are exactly those of the records |
| `RollupTree.GaugeTotalBelowPeak` | internal/records/records.go:230-242 | a sum never exceeds the number of records times the peak kept with it |
| `RollupTree.AveragedTop` | internal/records/records.go:177-420 | an average with its peak never exceeds the peak over the records but for the rounding of that peak |
| `RollupTree.PeakBounds` | internal/records/records.go:230-242 | after any tree of averages a stored peak lies between the peak over all leaves and its rounding |
| `RollupTree.PeaksAreExactIff` | internal/records/records.go:230-242 | at each level from 20m up, all roll-ups that the job can store from leaves with peak p show exactly p if and only if rounding to two decimals does not raise p |
| `RollupTree.RoundingCanRaisePeak` | internal/records/records.go:41-155 | the smallest roll-ups the job can store, of equal records: exact at 10m, the larger of peak and its rounding at every level above |
| `RollupTree.FirstLevelIsExact` | internal/records/records.go:230-242 | 10m records show every peak exactly |
| `RollupTree.PeaksOfAgentDataAreExact` | internal/records/records.go:230-242 | with hundredths at the leaves every stored peak is the maximum over all leaves, at any depth |
| `RollupTree.ReachedOfAverage` | internal/records/records.go:236-239 | a 64-bit average never exceeds its own peak, even when the sum wraps around |
| `RollupTree.MaximaAreExact` | internal/records/records.go:236-256 | integer peaks of system and filesystems, and interface totals, equal the maximum over all leaves |
| `RollupTree.CountDriftBound` | internal/records/records.go:338-373 | for a uniform tree of depth d and leaf mean M the stored integer average A satisfies A <= M always, and M - d < A exactly if no sum overflowed (unless leaves * d exceeds 2^64) |
| `RollupTree.OverflowLosesTraffic` | internal/records/records.go:338-373 | nine records with a counter of 2^63, which the job can store: the sum overflows and the average is a ninth of the mean |
| `RollupTree.SmallLeavesDoNotOverflow` | internal/records/records.go:215-218 | leaves below 2^64 divided by the widest fan-out never overflow |
| `RollupTree.GaugeDriftBound` | internal/records/records.go:325-352 | for a uniform tree of depth d a rounded average differs from the mean over the leaves by at most 0.005 * d |
| `RollupTree.LeafCountOfUniform` | internal/records/records.go:128-158 | the number of leaves of a uniform tree is the product of its fan-outs |
| `Rounding.TwoDecimalsIsNear` | internal/records/records.go:480-482 | rounding moves a value by at most half a hundredth |
| `Rounding.TwoDecimalsIs` | internal/records/records.go:480-482 | the rounded value is n hundredths exactly if n is the nearest, with halves away from zero |
| `Rounding.TwoDecimalsMonotone` | internal/records/records.go:480-482 | rounding is monotone |
| `Rounding.TwoDecimalsOnGrid` | agent/utils/utils.go:35-37 | rounding twice is rounding once |
| `RecordJobsSpec.StepKeepsValid` | internal/records/records.go:85-155 | samples, jobs and clean-ups keep spacing, complete windows, and that only rows older than their retention are gone |
| `RecordJobsSpec.GuardIsReliable` | internal/records/records.go:100-113 | retention never removed a record that the guard relies on: without a recent record in the table there never was one |
| `RecordJobsSpec.WindowIsComplete` | internal/records/records.go:115-131 | nor a shorter record that the window needs |
| `RecordJobsSpec.CreatesIff` | internal/records/records.go:97-146 | the plan of the jobs in numbers: a 10m, 20m, 120m or 480m record is saved exactly if the last 10, 20, 120 or 480 minutes ever saw at least 9, 2, 6 or 4 records of 1m, 10m, 20m or 120m and no record of its own level is younger than 0, 19, 119 or 479 minutes; it averages exactly those |
| `RecordJobsSpec.RecordsAreSpaced` | internal/records/records.go:87-147 | two 20m, 120m or 480m records of one system and collection are at least 19, 119 or 479 minutes apart over every run |
| `RecordJobsSpec.InputsAreTheWindow` | internal/records/records.go:115-146 | a longer record averages exactly the records of the next shorter level ever created in the last 10, 20, 120 or 480 minutes, and at least 9, 2, 6 or 4 |
| `RecordJobsSpec.FeedsAtMostTwo` | internal/records/records.go:87-147 | a record never feeds three records of the 20m, 120m and 480m levels |
| `RecordJobsSpec.CleanupBoundsRows` | internal/records/records_deletion.go:52-91 | after a clean-up at most 76 rows of 20m, 85 of 120m and 91 of 480m are left for a system and collection |
| `RecordJobsSpec.CleanupKeeps` | internal/records/records_deletion.go:52-91 | a clean-up leaves exactly the rows not older than 1 hour, 12 hours, 1 day, 7 days and 30 days |
| `RecordJobsSpec.SampleAdds` | internal/hub/systems/system.go:151-161 | a sample adds its 1m row, alive, and no other |
| `RecordManagers.RecordManager.AddSample` | internal/hub/systems/system.go:151-161 | a new 1m row with the time of the save: an enabled Sample step |
| `RecordManagers.RecordManager.CreateLongerRecord` | internal/records/records.go:97-146 | the body of the job loop makes the step Create, whose plan CreatesIff gives in numbers |
| `RecordManagers.RecordManager.CreateForLevel` | internal/records/records.go:88-147 | both collections with the same two readings of the clock |
| `RecordManagers.RecordManager.CreateLongerRecords` | internal/records/records.go:41-155 | the job visits every system, level and collection in order, each an enabled step |
| `RecordManagers.RecordManager.DeleteOldSystemStats` | internal/records/records_deletion.go:52-91 | both deletions together remove exactly the rows older than their level's retention |
| `RecordManagers.RecordManager.DeleteFrom` | internal/records/records_deletion.go:74-89 | one collection: the condition built in the loop matches exactly the old rows |
| `Deltas.DeltaTracker.Set` | agent/deltatracker/deltatracker.go:34-38 | the current value of one key is set, nothing else |
| `Deltas.DeltaTracker.Deltas` | agent/deltatracker/deltatracker.go:51-64 | for every current key the wrapped difference to the previous value, 0 without one |
| `Deltas.DeltaTracker.Previous` | agent/deltatracker/deltatracker.go:67-73 | the previous value, if any |
| `Deltas.DeltaTracker.Delta` | agent/deltatracker/deltatracker.go:77-92 | the wrapped difference of one key, 0 without a current or previous value |
| `Deltas.DeltaTracker.Cycle` | agent/deltatracker/deltatracker.go:95-100 | current becomes previous and current starts empty |
| `Deltas.DeltaAfterCycle` | agent/deltatracker/deltatracker.go:77-100 | a value set, cycled and set again gives the wrapped difference of the two values |
| `NetworkSpec.FallAlwaysAboveLimit` | agent/network.go:199-205 | a fall is above a limit for all elapsed times up to a maximum exactly if the residue of 1000 * d mod 2^64 leaves room below 2^64 |
| `NetworkSpec.FallLandsAboveHostLimit` | agent/network.go:199-218 | a fall d with 1000 * d <= 2^63 over at most 9.2e8 ms lands above the limit |
| `NetworkSpec.LargeFallCanLookLikeTraffic` | agent/network.go:199-205 | a concrete larger fall that would be shown as 1 GB/s |
| `NetworkSpec.BackwardsCounterIsNotTraffic` | agent/network.go:208-235 | a poll with such a fall publishes totals of 0 and forgets every baseline and tracker |
| `NetworkSpec.FirstPollShowsNoTraffic` | agent/network.go:140-150 | the first poll of a key, as after a reset, sees 0 elapsed time, publishes 0 and is no anomaly |
| `NetworkSpec.KeysNeverCollide` | agent/network.go:167-171 | up and down keys of different interfaces never collide |
| `NetworkSpec.SampleOfOneNic` | agent/network.go:153-196 | what the loop does for one interface does not depend on the others |
| `NetworkSpec.OtherKeysDoNotInterfere` | agent/network.go:79-196 | over polls that find their interfaces known and meet no anomaly, the slot of a cache key is that after its own polls alone |
| `NetworkSpec.OtherSlotKeptIff` | agent/network.go:122-130 | another key's poll leaves a slot alone exactly if it is such a poll, or the slot is empty: an agent that knows no interface forgets all keys at each poll |
| `NetworkSpec.NoInterfacesNoMemory` | agent/network.go:122-130 | a concrete run of two polls in which the second, under another key, drops what the first one kept |
| `NetworkSpec.OtherKeysDoNotChangeOutput` | agent/network.go:79-91 | and so is what its next poll publishes |
| `NetworkSpec.KeepsLastPoll` | agent/network.go:140-196 | what is kept under a key is exactly its last poll |
| `NetworkSpec.PublishedRate` | agent/network.go:174-190 | the published rate of an interface depends only on its two latest levels under the key and the milliseconds between them: 1000 times their difference, or the new level if it fell, modulo 2^64, by the milliseconds |
| `NetworkSpec.TotalsAreSums` | agent/network.go:153-163 | the totals of a sample are the exact sums over the counters of all known interfaces, modulo 2^64 |
| `NetworkSpec.HostBandwidth` | agent/network.go:199-235 | after any quiet run the published up is 1000 * (sent now - sent at the last poll of the key), modulo 2^64, by the milliseconds between, and down the same of what was received; if one of them is above 10^10 both are 0 and the agent starts over |
| `NetworkSpec.BandwidthIsExact` | agent/network.go:199-205 | that is the exact quotient, for a sum that did not fall, if and only if 1000 times the difference fits in 64 bits |
| `NetworkSpec.UnknownInterfaces` | agent/network.go:122-130 | an agent that knows no interface shows no traffic and remembers only this poll |
| `NetworkSpec.PerSecondIsExact` | agent/network.go:181-190 | the 64-bit rate is the exact quotient if and only if 1000 * bytes fits in 64 bits |
| `NetworkSpec.RatesReconstructTraffic` | agent/network.go:153-196 | for an interface in every sample of a key, over at most 2^64 ms, 0 <= 1000 * bytes - sum of rate * ms < sum of ms if and only if no single difference overflows when it is multiplied by 1000 |
| `NetworkSpec.RatesLose` | agent/network.go:153-196 | the rates never show more than was moved; without an overflow they lose less than one byte per second and interval, with one at least 2^64 thousandths of a byte |
| `NetworkSpec.HugeBurstIsLost` | agent/network.go:181-190 | a concrete quiet run in which 18446744073709552 bytes within a millisecond show as 384 bytes per second |
| `NetworkSpec.TrafficTelescopes` | agent/network.go:153-196 | without a counter reset those bytes are the last level minus the first |
| `NetworkAgent.Agent.InitializeNetIoStats` | agent/network.go:93-119 | all baselines and trackers are dropped and the detected interfaces remembered |
| `NetworkAgent.Agent.EnsureNetInterfacesInitialized` | agent/network.go:122-130 | only an agent without interfaces initialises |
| `NetworkAgent.Agent.LoadAndTickNetBaseline` | agent/network.go:140-150 | elapsed time since the baseline, 0 without one |
| `NetworkAgent.Agent.SumAndTrackPerNicDeltas` | agent/network.go:153-196 | the loop over the sample computes the 64-bit remainders of the exact sums over the known interfaces, the rates and the tracker of the key, and changes no other key |
| `NetworkAgent.Agent.ComputeBytesPerSecond` | agent/network.go:199-205 | the wrapped total rates, 0 without elapsed time |
| `NetworkAgent.Agent.ApplyNetworkTotals` | agent/network.go:208-235 | the anomaly branch and the normal branch |
| `NetworkAgent.Agent.UpdateNetworkStats` | agent/network.go:79-91 | a poll, with the enumeration of interfaces if none is known, makes the step Polled and publishes Shows, whose numbers HostBandwidth and PublishedRate give |
| `DockerNetwork.DockerManager.GetNetworkTracker` | agent/docker.go:280-293 | a tracker per interval and direction, created on demand |
| `DockerNetwork.DockerManager.CycleNetworkDeltasForCacheTime` | agent/docker.go:296-303 | both trackers of one interval cycle, the others do not |
| `DockerNetwork.DockerManager.CalculateNetworkStats` | agent/docker.go:306-349 | totals over the interfaces are recorded and the plausible rates returned; other intervals are untouched |
| `DockerNetwork.DockerManager.UpdateContainerNetwork` | agent/docker.go:563-570 | a reading takes the rates and then stores the read time |
| `DockerNetwork.BackwardsContainerCounterShowsZero` | agent/docker.go:321-345 | a container counter that fell, within the same bound, is shown as 0, in each direction |
| `DockerNetwork.MeasureOne` | agent/docker.go:306-349 | what a round of readings does for one container does not depend on the others |
| `DockerNetwork.RateUsesPreviousRound` | agent/docker.go:226 | a reading is compared with exactly the reading of the round before; a container that was not in it shows 0 |
| `DockerNetwork.TotalsAreSums` | agent/docker.go:307-311 | the totals of a container are the exact sums over its interfaces, modulo 2^64 |
| `DockerNetwork.ContainerBandwidth` | agent/docker.go:324-346 | what is shown for a container read in two rounds is the bandwidth between the readings in each direction, or 0 above 5 * 10^9 bytes per second |
| `GpuSpec.RunKeepsHistory` | agent/gpu.go:235-268 | after any run of samples and polls the totals are those of the sample history and every snapshot marks the history that its key has seen |
| `GpuSpec.PollAveragesNewSamples` | agent/gpu.go:351-402 | a poll with new samples returns the rounded means of exactly the samples since the previous poll of its key, whatever other keys poll |
| `GpuSpec.SegmentsPartitionHistory` | agent/gpu.go:305-440 | the segments of a key and what it has not polled yet are the sample history |
| `GpuSpec.DeltasAddUpToTotals` | agent/gpu.go:387-402 | delta counts and the delta sums of usage, power, package power and every engine of a key add up to the accumulators |
| `GpuSpec.PollShowsLatest` | agent/gpu.go:420-425 | temperature and memory of a poll are those of the latest line of the card, memory divided by 1.024, rounded to hundredths |
| `GpuSpec.NamesAreToldApart` | agent/gpu.go:318-322 | a card with new samples has the name of its first sample, followed by its ID exactly if another card has that name |
| `GpuSpec.PollWithoutNewSamples` | agent/gpu.go:356-364 | without new samples a card with neither temperature nor memory in use shows zeros, any other one what the last poll with new samples showed, under whatever key |
| `GpuManagers.GpuManager.ApplyCardSample` | agent/gpu.go:253-266 | one card sample accumulates into its card and no other |
| `GpuManagers.GpuManager.ParseNvidiaData` | agent/gpu.go:235-268 | the lines of one output are applied in order; valid exactly if some line was |
| `GpuManagers.LinesAreSamples` | agent/gpu.go:235-268 | one output continues the run of samples and polls by its lines with enough fields, in order |
| `GpuManagers.GpuManager.UpdateIntelFromStats` | agent/gpu_intel.go:26-50 | one sample with its engines accumulates into the Intel card |
| `GpuManagers.GpuManager.GetCurrentData` | agent/gpu.go:305-326 | the loop over the cards makes exactly the step Polled and returns its output; totals and engine maps are not changed |
| `GpuManagers.GpuManager.CalculateGpuAverage` | agent/gpu.go:351-384 | the fast form: differences to the snapshot over the delta count, or the stored average without new samples |
| `GpuManagers.GpuManager.AverageCard` | agent/gpu.go:367-381 | the averages of one card, with a map of its own for the engines |
| `GpuManagers.GpuManager.CalculateIntelGpuUsage` | agent/gpu.go:405-418 | rounded engine means into the new map, and the highest of them as usage |
| `GpuManagers.GpuManager.CountGpuNames` | agent/gpu.go:342-348 | how many cards share each name |
| `GpuManagers.GpuManager.InitializeSnapshots` | agent/gpu.go:329-339 | a snapshot map for the key |
| `GpuManagers.GpuManager.StoreSnapshot` | agent/gpu.go:428-440 | the snapshot of one card under one key |
| `DockerLogs.DetectDockerMultiplexedStream` | agent/docker.go:884-899 | peeks without consuming; true exactly for a header of a known stream within the frame limit |
| `DockerLogs.DecodeDockerLogStream` | agent/docker.go:901-945 | the loop writes exactly what the specification decodes and reports its error |
| `DockerLogs.GetLogs` | agent/docker.go:861-882 | content type or detection chooses framed decoding or a plain copy |
| `DockerLogs.DecodeIsBoundedPrefix` | agent/docker.go:901-945 | for any bytes the output is a prefix of the payloads and at most 5 MiB, and all of them exactly if every frame fits |
| `DockerLogs.DecodeOfEncode` | agent/docker.go:901-945 | the decoder undoes the encoder frame by frame up to the first frame over a limit |
| `DockerLogs.RoundTrip` | agent/docker.go:901-945 | frames of at most 1 MiB and 5 MiB in total come back whole |
| `DockerLogs.EncodedIsRecognised` | agent/docker.go:884-899 | an encoded stream is detected exactly if its first frame is of type 1 or 2 and within the limit |
| `DockerLogs.LogsRoundTrip` | agent/docker.go:861-882 | so with or without the content type such a stream is shown whole |
| `DockerLogs.PlainLogs` | agent/docker.go:861-905 | a stream that does not start with a header is shown as it is up to 5 MiB and fails only if it breaks off below that; one that does is decoded as if the content type said so |
| `DockerLogs.HeaderBytes` | agent/docker.go:906-918 | a header is the stream type, three zeros and the length, most significant byte first |
| `SshProtocol.StepKeepsValid` | internal/hub/ssh.go:64-109 | every step keeps single tokens, single takes and the close-once state of tunnels |
| `SshProtocol.TakenAtMostOnce` | internal/hub/ssh.go:76-86 | in every interleaving a token is taken at most once and not after it expired |
| `SshProtocol.TakenWasCreated` | internal/hub/ssh.go:64-86 | every take is of a token created for that system at most five minutes before |
| `SshProtocol.LaunchLasts` | internal/hub/ssh.go:64-86 | until it is taken or revoked a token can be taken for the system it was created for, exactly for five minutes |
| `SshProtocol.NeverInBothMaps` | internal/hub/ssh.go:64-109 | no token is both waiting to be taken and the token of a tunnel |
| `SshProtocol.DoneIsClosedOnce` | internal/hub/ssh.go:232-278 | a done channel is closed at most once and never while its tunnel is in the map; a tunnel out of the map is closed or exactly one revocation is about to close it and finds it open |
| `SshProtocol.TakeOnlyWorksOnce` | internal/hub/ssh.go:76-86 | take succeeds exactly for a token that is waiting and not expired, and a second take changes nothing |
| `SshProtocol.RevokedIsGone` | internal/hub/ssh.go:260-268 | right after a revocation the token cannot be taken, and a removal finds nothing |
| `SshProtocol.RevokedIsGoneIff` | internal/hub/ssh.go:88-109 | over every later run a revoked token is never offered again, and has no tunnel exactly if it was not between take and insertion when it was revoked |
| `SshProtocol.LateRevocationIsMissed` | internal/hub/ssh.go:88-109 | a concrete run of create, take, revoke and connect that ends with a tunnel |
| `SshManagers.SshManager.Create` | internal/hub/ssh.go:64-74 | a launch with its expiry under a new token |
| `SshManagers.SshManager.Take` | internal/hub/ssh.go:76-86 | the launch goes and is handed out; true exactly if it was there, unused and not expired |
| `SshManagers.SshManager.InsertTunnel` | internal/hub/ssh.go:97-105 | a fresh tunnel under the token |
| `SshManagers.SshManager.Remove` | internal/hub/ssh.go:232-239 | closes the channel, proved open, and deletes the entry |
| `SshManagers.SshManager.Revoke` | internal/hub/ssh.go:260-268 | both entries go and the tunnel, if any, is handed on |
| `SshManagers.SshManager.CheckChannel` | internal/hub/ssh.go:269-272 | the select finds the channel open in every interleaving |
| `SshManagers.SshManager.CloseRevoked` | internal/hub/ssh.go:273 | the close happens on an open channel |

## Left out

- Interface enumeration and the NIC filters: the set of interfaces is a parameter of the network model.
- Fine-grained timer races in the status alerts: a timer callback, a hook and a load-set-save are each one step, as
  are the saves, which always succeed; a stale callback of a timer that was replaced under the same alert ID is not
  modelled.
- StatusAlerts.StepKeepsValid: a save of up by an update that was still in flight when its system left the manager
  is among the steps only if no Status alert of the system is armed. StatusAlerts.UnmanagedUpKeepsIff says that
  exactly the others break the invariant, and StatusAlerts.LateUpdateLeavesAlert is a run to one of them.
- Alerts created in the triggered state, or whose system or name is changed by an update, in the status runs (the
  history model covers creation in any state).
- Bandwidth, GPU and Disk in the window loop, where one decoded value is reused across records, and records whose
  JSON cannot be decoded.
- Rounding of the 32-bit float quotient min / 1.2: the count condition is 6 * count >= 5 * min over the integers.
- The GPU, CPU-breakdown and per-core parts of AverageSystemStatsSlice, and AverageContainerStatsSlice: the same
  sums and divisions again, without peaks.
- Nil maps and slices in records: an absent map is an empty one.
- GpuManagers.GpuManager.CalculateGpuAverage: the value returned without new samples comes from averages that all
  keys share (GpuSpec.PollWithoutNewSamples); the aliasing of the returned engine map with that stored average is not
  modelled.
- The conversion of a sample count from float to uint32 beyond 2^32, which Go leaves open: modelled as the
  remainder.
- ANSI stripping of log lines, and the HTTP side of the Docker client.
- RequestProtocol.LegacyRefinesQueue: only for the runs that the legacy path is meant for; AnswersAreRightIff says
  what happens in all others.
- More than 2^32 - 1 requests on one connection, after which IDs repeat.
- Choosing among several SSH tunnels that share one agent, the idle timeout, and stream forwarding.
- The realtime worker, WebSocket, CBOR and JSON encoding, PocketBase queries and transactions beyond atomicity, and
  delivery of notifications (an attempt is a log entry).
- Ties of creation times when the history is trimmed: rows are kept in order of creation.
- The user interface, migrations, and collectors that read sysfs, nvidia-smi, NVML or systemd.
