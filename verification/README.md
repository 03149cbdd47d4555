# Verified model of the control-room backend

This project models the stateful protocols of the control-room backend in Dafny
and proves what they promise over whole runs. Each protocol has functions on
values that say what one committed transaction, or one stretch of code between
two awaits, does to the rows; methods and classes that do it step by step, with
loops where the source loops, and whose contracts equate their outcome with
those functions; laws that say, on the fields of rows and requests alone, when
each function answers what; and lemmas about all runs of those functions.

| file | what it models |
|---|---|
| `LivestreamClient`, `LivestreamSafety`, `LivestreamRuns`, `LivestreamLaws` | one client's livestream generations, leased command queue, viewer rows and explicit-stop latch |
| `LivestreamWorld`, `LivestreamPresence`, `LivestreamSweep`, `LivestreamSweeper`, `LivestreamService` | all clients with the in-memory presence, the shortcut sweep, the sleeping sweeper, and the code itself |
| `HttpRelay` | byte-counted relay queues under one global budget, and the relay registry |
| `Deployments`, `DeploymentLaws` | the deployment machine with its append-only event log |
| `UpdateCredentials`, `CredentialLaws`, `Replay` | update keys, provisioning codes, the replay table and the DPoP window |
| `Sessions`, `SessionLaws` | refresh-token families, user switching, session bindings |
| `Display`, `DisplayLaws` | desired display configuration and command supersession |
| `Region`, `PayloadArchive` | bounded reading, nested regions and hashing of a bundle file; payload inspection |
| `FreshInstallToken`, `Versions` | signed installation tokens; version order and the update baseline |
| `Options`, `IdOrder`, `Text`, `TextLaws` | shared helpers |

Conventions. Row ids are positions, so a fresh id is the next position. A claim
token is the number of claims granted before it, so tokens are never reused.
Times are microseconds and clocks may take any value unless a lemma says they do
not go back. Settings read from the environment are constants without a value,
typed by the range the source enforces. A refused transaction is rolled back.
Digests are stood for by what they digest, which makes them injective.

## What is proved

*Livestream.* One generation at most is active in every reachable state, final
ones stay final, and each has exactly one start-type command. `stopping` ends
only by an agent's stop report, its proof of quiescence, or an operator's
restart. An explicit stop holds through every interleaving until the operator
starts again. A watchdog resets at most three times in any closed ten-minute
window. Only the token of the latest claim, while its lease is not recoverable,
can renew, complete or fail a command, and every run makes only as many queue
moves as its commands pay for. The shortcut sweep gives exactly the rows,
commands, actions and wake-ups of reconciling every client in id order. While
the sweeper sleeps through its long interval with no wake-up pending, the
reconciler would act on no client, now or at any later time. With a wake-up
pending the sweeper is awake or free to wake, and the scan that follows has seen
it. A sweep is committed exactly when no client that needs a start is blocked and
every id with an open activity has a row: otherwise the whole sweep is rolled
back, for every client (`SweptIff`). The reconciler starts for whoever is there
and stops from the last departure plus the grace on, not before; once nobody
returns, a committed sweep leaves nothing live. An upload keeps the watchdog away
for its whole stale time, whatever else happens.

*Relay.* The budget equals the bytes queued over every relay ever created,
pruned ones included; for the relays themselves the clamps at zero never change
anything; in each direction what was accepted is what was delivered followed by
what is queued, until a prune throws queued messages away. The budget equals the
bytes of the registered relays exactly when no other relay has anything queued.
What the others hold grows exactly by what an unregistered relay accepts and
falls by what is taken from one; nothing done to a registered relay, no creation,
close or prune changes it. `StrandedBudget` ends with no relay registered and the
closing message of a pruned one still counted.

*Deployments.* A row's state is the fold of the transition table over its log;
its log is one of the lawful histories of that state; success means all steps in
order with the authorised release observed; nothing is both cancelled and
activated. A repeated event id whose first delivery is in the log changes
nothing. Keeping only the *first* delivery of every id is not the same: a first
delivery can be refused and a later one accepted. `KeepFirstIff` gives the exact
condition and `FirstDeliveryCanBeRefused` an input. An accepted event that comes
again unchanged is told that it is a replay, and another event under its id that
it is a conflict.

*Credentials, replay, sessions.* One live key and one open code for each client,
keys used once, codes spent once, and one root for each client in every run. While
the clock moves on between transactions, the credentials of a client form one
chain in which each was rotated from the one before. `ForkWhenClockGoesBack` and
`ForkAtEqualInstants` show forks otherwise: the recovery query orders by creation
time alone, and of rows created at the same instant the database may return any.
`AlwaysChainedIff` says which runs keep one chain for each client whatever it
returns: those that never spend a code for a client without a live key whose last
credential is not strictly the newest. A replayed key is refused up to its stored
expiry; `AcceptedAgainIff` says where that guarantee ends for a DPoP proof, whose
window is read in whole seconds while the cleanup compares the unrounded clock,
and `TokenAcceptsAgainIff` says it for the token request, which relies on the
cleanup made for its assertion. A session family keeps its login's expiry and has one live
refresh token at most; a binding is honoured exactly while a live session has
its context and expiry. A switch is granted exactly to a superadmin, or to an
administrator for an ordinary member of the own organisation, and every access
token that carries an actor was issued under that condition. A code can be spent
for ten minutes and no longer.

*Display, files, tokens, versions.* A revision names one configuration; a
mismatching report leaves exactly one active command for the wanted revision and
nothing older queued; the lockdown that is wanted has an active command unless the
report shows it, asks for nothing, or drifts within five minutes of its last
completion; sharing one list of active commands changes nothing. Short
reads never leave a region and join to its bytes; hashing terminates and hashes
the region. The inspection of a payload never reads the path length of its
limits: `PathLimitHoldsIff` says for which limits that makes no difference.
Decoding undoes encoding, and an issued token verifies exactly when
it is short enough, unexpired and presented for its own enrollment. Version
comparison is a total preorder, and an accepted in-place update never starts
below 1.3.11.

## Model

| member | source | states |
|---|---|---|
| LivestreamClient.Current | backend/service1/livestream_v2.py:282-291 | the newest starting, running or stopping generation, if there is one |
| LivestreamClient.FirstClaimable | backend/service1/livestream_v2.py:628-645 | the oldest queued command whose time has come, none before it being claimable |
| LivestreamClient.FindViewer | backend/service1/livestream_v2.py:367-398 | the viewer row of an id, the first and only one |
| LivestreamSafety.StepKeeps | backend/service1/livestream_v2.py:499-829 | every transaction keeps one active generation, the latch, the reset bound, one launch for each generation and the lease bounds; rows only move forward |
| LivestreamSafety.NewGenerationKeeps | backend/service1/livestream_v2.py:499-535 | a new generation keeps the invariant when it supersedes the active one or there is none |
| LivestreamSafety.WatchdogKeeps | backend/service1/livestream_v2.py:977-1013 | the stall watchdog keeps the invariant, the sliding-window bound included |
| LivestreamSafety.StatusSplits | backend/service1/livestream_v2.py:832-943 | a status report that settles a stop leaves nothing for the watchdog; any other report is the watchdog alone |
| LivestreamSafety.OnlyCurrentActive | backend/service1/livestream_v2.py:282-291 | when at most one generation is active, it is the current one |
| LivestreamRuns.AtMostOneActive | backend/service1/livestream_v2.py:499-599 | in every reachable state at most one generation is starting, running or stopping |
| LivestreamRuns.FinalStaysFinal | backend/service1/livestream_v2.py:711-829 | a stopped, failed or superseded generation is never active again |
| LivestreamRuns.ExactlyOneLaunch | backend/service1/livestream_v2.py:499-535 | each generation has exactly one start-type command, of the kind it was requested with |
| LivestreamRuns.StoppingEnds | backend/service1/livestream_v2.py:804-943 | `stopping` is left only by a stop report, by proved quiescence with no stop leased, or by an operator's restart |
| LivestreamRuns.ExplicitStopLatches | backend/service1/livestream_v2.py:564-599 | an explicit stop engages the latch and leaves nothing starting or running |
| LivestreamRuns.LatchHolds | backend/service1/livestream_v2.py:311-317 | once latched, no run without an operator start or restart creates or revives a generation or clears the latch |
| LivestreamRuns.OnlyStatusResets | backend/service1/livestream_v2.py:977-1013 | a reset generation comes only from a status report and carries its clock |
| LivestreamRuns.ResetRateBound | backend/service1/livestream_v2.py:977-1013 | no closed ten-minute window of any run holds more than three watchdog resets |
| LivestreamRuns.StallVerdict | backend/service1/livestream_v2.py:977-1013 | a stall of a watched stream fails it with a stop and no successor when the window is full, blocked or not; otherwise it is reset, or nothing happens while the client is blocked |
| LivestreamRuns.TokenIsLatest | backend/service1/livestream_v2.py:628-661 | a command's token is the one its latest claim handed out |
| LivestreamRuns.OnlyLatestClaimAccepted | backend/service1/livestream_v2.py:664-758 | renew, complete and fail accept exactly the latest claim's token, while the command is leased and not recoverable |
| LivestreamRuns.TerminalCommandsFrozen | backend/service1/livestream_v2.py:602-758 | a completed, failed or cancelled command never changes again |
| LivestreamRuns.BudgetBoundsRuns | backend/service1/livestream_v2.py:602-758 | every claim, recovery, requeue, finish or cancellation uses up a budget of twice the maximum attempts for each command |
| LivestreamRuns.ClaimsAreAttempts | backend/service1/livestream_v2.py:628-661 | claims granted equal attempts recorded, at most the maximum for each command, and a queued command has one left |
| LivestreamLaws.StartLaw | backend/service1/livestream_v2.py:538-553 | a start is refused while blocked or stopping, does nothing while live, and otherwise adds one starting generation with its one command |
| LivestreamLaws.StopLaw | backend/service1/livestream_v2.py:564-599 | a stop leaves the active generation stopping, queued launches cancelled and a stop open; explicit ones latch, others leave a latch alone |
| LivestreamLaws.ReconcileStarts | backend/service1/livestream_v2.py:1033-1044 | with a viewer row that is neither ended nor lapsed, or an activity, and nothing active, the reconciler starts a stream, unless latched; while blocked it is refused |
| LivestreamLaws.ReconcileWaits | backend/service1/livestream_v2.py:1033-1047 | with somebody there and a generation active, or with nobody there and nothing live, only lapsed viewer rows are ended |
| LivestreamLaws.ReconcileStops | backend/service1/livestream_v2.py:1045-1066 | with nobody there, a live stream is stopped from the last end of a viewer or activity plus the grace on, or from its creation if there never was one |
| LivestreamLaws.ReconcileWaitsOutGrace | backend/service1/livestream_v2.py:1045-1066 | and not before |
| LivestreamLaws.SomeAbsence | backend/service1/livestream_v2.py:1048-1063 | that instant always exists |
| LivestreamLaws.WatchdogLaw | backend/service1/livestream_v2.py:977-1013 | a report leaves a live stream alone while nobody attends, while its last upload, else start, else creation is recent, or while a start-type command waits; otherwise it fails after three resets in ten minutes and is reset before, if not blocked |
| LivestreamLaws.UploadHoldsWatchdogOff | backend/service1/livestream_v2.py:977-1013 | after an accepted upload, whatever else happens from then on, no report within the stale time resets or fails that generation |
| LivestreamLaws.SettleLaw | backend/service1/livestream_v2.py:832-943 | a report settles a stop exactly when producer and uploader are shown to be quiet and no stop of it is leased, and starts again for whoever is there unless latched or blocked |
| LivestreamLaws.HeartbeatLaw | backend/service1/livestream_v2.py:367-418 | a heartbeat is refused exactly while blocked or for the viewer id of another; which row it opens and when it starts a stream |
| LivestreamLaws.LeaveLaw | backend/service1/livestream_v2.py:421-447 | a leave is refused exactly for the viewer id of another; which rows it ends and when |
| LivestreamLaws.StoppedLaw | backend/service1/routers/livestream_v2.py:358-383 | what a stop report ends, and when it starts again |
| LivestreamLaws.StartedLaw | backend/service1/livestream_v2.py:761-801 | start and upload reports are accepted exactly from the live generation, and what they write |
| LivestreamLaws.ClaimLaw | backend/service1/livestream_v2.py:602-661 | a claim leases the oldest command that is due or whose lease ran out with attempts left, for the time asked, under a new token; other leases that ran out are requeued or fail |
| LivestreamLaws.RenewLaw | backend/service1/livestream_v2.py:664-708 | renewal and completion are accepted exactly under the running lease, and what they write |
| LivestreamLaws.FailLaw | backend/service1/livestream_v2.py:711-758 | a failure is accepted exactly under the running lease; it is retried after twice as long each time, a minute at most, or fails with the live generation it was for |
| LivestreamSweep.RequestKeepsWorld | backend/service1/livestream_v2.py:334-447 | every request keeps each live in-memory viewer backed by an open durable row |
| LivestreamSweep.HistoryKeepsWorld | backend/service1/livestream_presence.py:22-71 | that backing and the per-client invariants hold in every reachable process state |
| LivestreamSweep.SkippedNeedsNothing | backend/service1/livestream_v2.py:1130-1147 | a client the sweep skips is one the reconciler would leave alone |
| LivestreamSweep.SkippingIsSound | backend/service1/livestream_v2.py:1101-1150 | visiting a subset after one pass of expiry equals visiting everyone, if the rest need nothing |
| LivestreamSweep.ShortcutSweepIsPlainSweep | backend/service1/livestream_v2.py:1101-1150 | the shortcut sweep gives the rows, commands, actions, wake-ups and aborts of the plain per-client sweep |
| LivestreamSweep.SweptIff | backend/service1/livestream_v2.py:1101-1150 | the plain sweep is committed exactly when every id with an activity has a row and no client that needs a start is blocked |
| LivestreamSweep.CalmNeedsNothing | backend/service1/livestream_v2.py:1016-1066 | when nothing runs and nobody is present, no elapsed time makes the reconciler act |
| LivestreamSweep.QuietScanLeavesCalm | backend/service1/livestream_v2.py:1123-1127 | a sweep that asks for no fast scan acted on no client and leaves such a calm state |
| LivestreamPresence.LiveIffRecentBeat | backend/service1/livestream_presence.py:22-55 | in every history a viewer is live exactly if its last accepted heartbeat is within the lease and it has not left since |
| LivestreamPresence.ActivityIffOpen | backend/service1/client_activity.py:44-62 | an activity counts exactly from its opening to its closing, and the last close is remembered |
| LivestreamPresence.SweepIsReconcile | backend/service1/livestream_v2.py:1101-1150 | a committed sweep leaves every client as its own reconciliation would |
| LivestreamPresence.SweepStarts | backend/service1/livestream_v2.py:1033-1044 | with somebody there and nothing active, a committed sweep starts a stream unless latched |
| LivestreamPresence.SweepStops | backend/service1/livestream_v2.py:1045-1066 | once nobody has been there for the grace, a committed sweep leaves nothing live |
| LivestreamPresence.NobodyReturns | backend/service1/livestream_v2.py:1016-1066 | once everybody left and nobody comes back, whatever else happens, a sweep committed at or after the end of the grace leaves nothing live |
| LivestreamPresence.FastScanIff | backend/service1/livestream_v2.py:1113-1127 | the short interval is asked for exactly while a client without an awaited stop is live or visited, or an activity has no client row |
| LivestreamSweeper.CalmUntilNotified | backend/service1/livestream_sweep_signal.py:15-31 | from a calm state, whatever happens, the state stays calm until the revision moves |
| LivestreamSweeper.IdleSweeperMissesNothing | backend/service1/livestream_v2.py:1153-1176 | while the sweeper sleeps idle with no wake-up pending, the reconciler would act on no client, now or later |
| LivestreamSweeper.EveryNoticeIsScanned | backend/service1/livestream_sweep_signal.py:15-31 | if the last scan started before a notification, the wait is already over |
| LivestreamSweeper.PendingNoticeIsScanned | backend/service1/livestream_v2.py:1153-1176 | in every reachable state with a notification that no scan has seen, the sweeper is awake or its wait is over, and its next scan sees it; before the first scan too |
| LivestreamSweeper.ScanSeesEarlierNotices | backend/service1/livestream_v2.py:1153-1176 | whatever happens in between, once a scan has begun after a notification, the last scan has seen it |
| LivestreamSweeper.NextIsOneStep | backend/service1/livestream_v2.py:1101-1150 | whatever happens in the process, one client's rows stay or take one transaction of their own |
| LivestreamSweeper.LatchHoldsInProcess | backend/service1/livestream_v2.py:311-317 | the latch over whole histories of the process: only that client's operator start or restart releases it |
| LivestreamService.CancelQueuedGenerationCommands | backend/service1/livestream_v2.py:454-470 | the loop cancels exactly the queued start-type commands |
| LivestreamService.CancelQueuedStops | backend/service1/livestream_v2.py:899-916 | the loop cancels exactly the queued stops of one generation |
| LivestreamService.RecoverExpiredLeases | backend/service1/livestream_v2.py:602-625 | the loop requeues or fails exactly the leases that ran out |
| LivestreamService.ExpireStaleViewers | backend/service1/livestream_v2.py:334-349 | the loop ends exactly the open rows past their lease and without a live key, at the end of the lease |
| LivestreamService.LatestEnd | backend/service1/livestream_v2.py:1046-1055 | the latest end of any viewer row |
| LivestreamService.InsertGeneration | backend/service1/livestream_v2.py:499-535 | the new generation, its one command, and what it supersedes and cancels; refused exactly while blocked |
| LivestreamService.StartStream | backend/service1/livestream_v2.py:538-553 | a start request, refused while blocked or stopping, idempotent while live |
| LivestreamService.StopStream | backend/service1/livestream_v2.py:564-599 | a stop request: stopping generation, one outstanding stop, and the latch set exactly when the stop is explicit or it was set |
| LivestreamService.BeatViewer | backend/service1/livestream_v2.py:367-418 | a viewer's heartbeat on the durable rows, with the start it may trigger: the viewer has an open row |
| LivestreamService.EndViewer | backend/service1/livestream_v2.py:421-447 | a viewer's leave on the durable rows: that viewer has no open row left |
| LivestreamService.LeaseCommand | backend/service1/livestream_v2.py:628-661 | recovery, then a lease on the oldest claimable command with a fresh token |
| LivestreamService.FailCommand | backend/service1/livestream_v2.py:711-758 | retry with backoff, or failure of the command and of the live generation it started; nobody holds the lease afterwards |
| LivestreamService.RecordStop | backend/service1/livestream_v2.py:804-829 | a stop report, with the restart for a viewer who returned; the generation is not active afterwards |
| LivestreamService.SettleStop | backend/service1/livestream_v2.py:832-943 | a stop settled by proved quiescence, with the restart for whoever is present |
| LivestreamService.CountRecentResets | backend/service1/livestream_v2.py:977-1013 | the resets of the sliding window |
| LivestreamService.RecoverStaleMedia | backend/service1/livestream_v2.py:977-1013 | the watchdog's decision and its rows |
| LivestreamService.TakeStatus | backend/service1/routers/livestream_v2.py:317-342 | a status report: settle a stop, then the watchdog |
| LivestreamService.ReconcileViewerLifecycle | backend/service1/livestream_v2.py:1016-1066 | the per-client reconciler's rows and action |
| LivestreamService.SortIds | backend/service1/livestream_v2.py:1130-1131 | the ascending list of a set of client ids |
| LivestreamService.Service.Touch | backend/service1/livestream_presence.py:22-30 | a key's time is set, and only a new key notifies |
| LivestreamService.Service.Drop | backend/service1/livestream_presence.py:33-37 | a key is removed, and only a present key notifies |
| LivestreamService.Service.ActiveKeys | backend/service1/livestream_presence.py:40-55 | one client's live keys; every stale key of any client is dropped |
| LivestreamService.Service.ViewerHeartbeat | backend/service1/livestream_v2.py:367-418 | rows, presence and revision after a heartbeat are those of the modelled request |
| LivestreamService.Service.ViewerLeave | backend/service1/livestream_v2.py:421-447 | the same for a leave |
| LivestreamService.Service.BrowserCommand | backend/service1/routers/livestream_v2.py:523-556 | the same for the operator's start, restart and stop |
| LivestreamService.Service.ClaimCommand | backend/service1/livestream_v2.py:628-661 | the same for a claim; what it returns holds a running lease |
| LivestreamService.Service.RenewCommand | backend/service1/livestream_v2.py:682-686 | the same for a renewal |
| LivestreamService.Service.CompleteCommand | backend/service1/livestream_v2.py:689-708 | the same for a completion |
| LivestreamService.Service.ReportFailure | backend/service1/livestream_v2.py:711-758 | the same for a failure |
| LivestreamService.Service.ReportStarted | backend/service1/livestream_v2.py:781-801 | the same for a started generation |
| LivestreamService.Service.ReportStopped | backend/service1/routers/livestream_v2.py:358-383 | the same for a stopped generation |
| LivestreamService.Service.ReportStatus | backend/service1/routers/livestream_v2.py:317-342 | the same for a status report |
| LivestreamService.Service.PresenceAdd | backend/service1/client_activity.py:44-50 | an activity opens for any id, with or without a client row, and only a new one notifies |
| LivestreamService.Service.PresenceRemove | backend/service1/client_activity.py:53-62 | an activity closes with its end time, and only a present one notifies |
| LivestreamService.Service.ActiveViewerClientIds | backend/service1/livestream_v2.py:1069-1094 | every stale row of every client is expired, and the clients with a viewer are returned |
| LivestreamService.Service.ClientsToVisit | backend/service1/livestream_v2.py:1101-1147 | the ids to visit in order, and whether to scan again soon |
| LivestreamService.Service.ReconcileAll | backend/service1/livestream_v2.py:1101-1150 | the shortcut sweep's state, actions and abort are those of the plain sweep |
| LivestreamService.ReconcileInOrder | backend/service1/livestream_v2.py:1129-1150 | the loop is the fold of the per-client reconciler |
| HttpRelay.Enqueued | backend/service1/http_ws_relay.py:114-136 | an accepted message keeps counter, bounds and delivered-then-queued order |
| HttpRelay.Dequeued | backend/service1/http_ws_relay.py:138-157 | taking the oldest message keeps them, and its size never exceeds the counter |
| HttpRelay.DeliveredThenQueued | backend/service1/http_ws_relay.py:114-157 | until a discard, accepted messages are the delivered ones followed by the queued ones |
| HttpRelay.SumCovers | backend/service1/http_ws_relay.py:172-174 | no relay's counters exceed what the budget holds |
| HttpRelay.BooksUpdate | backend/service1/http_ws_relay.py:165-174 | matching changes of one relay and the budget keep the books |
| HttpRelay.AddKeepsRegistry | backend/service1/http_ws_relay.py:236-244 | registering within the limits keeps the limits |
| HttpRelay.StaleIff | backend/service1/http_ws_relay.py:203-210 | stale is more than thirty seconds after the close, or fifteen minutes after the last activity if open |
| HttpRelay.Hub.BudgetIsWhatIsQueued | backend/service1/http_ws_relay.py:165-193 | the global counter is the sum of queued message sizes over every relay ever created, within its bound |
| HttpRelay.Hub.BudgetIsOfTheRegisteredIff | backend/service1/http_ws_relay.py:165-216 | the budget is what the registered relays have queued plus what is stranded outside them, and the first alone exactly when no other relay has anything queued |
| HttpRelay.Hub.Reserve | backend/service1/http_ws_relay.py:165-169 | bytes are reserved exactly when they fit |
| HttpRelay.Hub.Release | backend/service1/http_ws_relay.py:172-174 | the counter falls by the bytes released, never below zero |
| HttpRelay.Hub.PutIncoming | backend/service1/http_ws_relay.py:114-124 | accepted exactly within both byte bounds and the depth, refused without a trace; the bytes held outside the registry change only if the relay is unregistered |
| HttpRelay.Hub.PutOutgoing | backend/service1/http_ws_relay.py:126-136 | the same for the other direction |
| HttpRelay.Hub.TakeIncoming | backend/service1/http_ws_relay.py:92-97 | the oldest message leaves, its bytes leave both counters, no clamp fires; the bytes held outside the registry change only for an unregistered relay |
| HttpRelay.Hub.TakeOutgoing | backend/service1/http_ws_relay.py:143-156 | the same for the other direction |
| HttpRelay.Hub.Close | backend/service1/http_ws_relay.py:64-79 | closed once with code, reason and time; the notice is queued exactly when the relay was open and it fits; queued messages stay |
| HttpRelay.Hub.SendText | backend/service1/http_ws_relay.py:81-85 | accepted exactly when the relay is open and the message fits both byte bounds and the depth; the bytes held outside the registry change only for an unregistered relay |
| HttpRelay.Hub.PushFromHttp | backend/service1/http_ws_relay.py:101-108 | the same for pushed messages |
| HttpRelay.Hub.ReceiveText | backend/service1/http_ws_relay.py:87-99 | the oldest message, a disconnect exactly when closed and drained, or wait; the bytes held outside the registry change only for an unregistered relay |
| HttpRelay.Hub.OpenPoll | backend/service1/http_ws_relay.py:138-140 | a poll counts as activity; the bytes held outside the registry change only for an unregistered relay |
| HttpRelay.Hub.PollToHttp | backend/service1/http_ws_relay.py:141-157 | up to 64 messages in order, recorded as delivered, their bytes returned; the bytes held outside the registry change only for an unregistered relay |
| HttpRelay.Hub.DiscardBuffers | backend/service1/http_ws_relay.py:184-193 | both queues empty, both counters zero, their bytes returned |
| HttpRelay.Hub.Prune | backend/service1/http_ws_relay.py:201-216 | exactly the stale registered relays are unregistered and drained, not closed; the budget falls by what they held; every other is untouched, and nothing is left behind |
| HttpRelay.PruneStrandsNothing | backend/service1/http_ws_relay.py:201-216 | pruning changes nothing in what the relays outside the registry hold |
| HttpRelay.Hub.RunnerEnds | backend/service1/http_ws_relay.py:246-256 | the end of a runner closes its relay; the closing message enters the budget exactly when the relay was open and it fits, and is held outside the registry if the relay is no longer registered |
| HttpRelay.StrandedBudget | backend/service1/http_ws_relay.py:246-256 | a run that ends with no relay registered and the closing message of a pruned one still in the budget |
| HttpRelay.Hub.CreateRelay | backend/service1/http_ws_relay.py:219-259 | a fresh registered relay, open, active now and with nothing queued, or a refusal at the process or owner limit, after the prune |
| HttpRelay.Hub.GetRelay | backend/service1/http_ws_relay.py:262-268 | found exactly when registered and not stale |
| HttpRelay.Hub.CloseRelay | backend/service1/http_ws_relay.py:271-279 | stale relays are pruned; a registered relay that is not stale and open ends up closed with its reason, its notice queued exactly when it fits what the prune left; no other is touched |
| Deployments.CreateKeeps | backend/service1/clientflow_deployments.py:83-145 | creation keeps log and rows consistent and one active deployment for each client |
| Deployments.CancelKeeps | backend/service1/clientflow_deployments.py:148-166 | cancellation keeps the invariant |
| Deployments.ActivateKeeps | backend/service1/clientflow_deployments.py:169-209 | the activation gate keeps the invariant |
| Deployments.ReportKeeps | backend/service1/clientflow_deployments.py:235-323 | an updater's report keeps the invariant |
| Deployments.StateIsFold | backend/service1/clientflow_deployments.py:257-311 | in every reachable store a state is the fold of the table over the log, and completion, terminal states and observed release agree |
| Deployments.AtMostOneActive | backend/service1/clientflow_deployments.py:99-100 | two active deployments of one client are the same |
| Deployments.AtMostSevenChanges | backend/service1/clientflow_update_models.py:17-43 | creation and at most seven changes of state |
| Deployments.ActivationIsFinal | backend/service1/clientflow_deployments.py:169-209 | activation is in the log exactly in the states past it, cancellation and early failure exactly in theirs |
| Deployments.HistoryIsLawful | backend/service1/clientflow_deployments.py:258-277 | a log is one of the lawful histories of its state |
| Deployments.SuccessIsEarned | backend/service1/clientflow_deployments.py:287-303 | success means all seven steps, once and in order, with the authorised release observed |
| Deployments.NeverBothCancelledAndActivated | backend/service1/clientflow_deployments.py:148-209 | no deployment is both cancelled and activated, nor fails early after activation |
| Deployments.FinishedIsFrozen | backend/service1/clientflow_update_models.py:31-43 | a finished deployment never changes, an authorised target never changes, states only advance, the log only grows |
| Deployments.ChangesIffAccepted | backend/service1/clientflow_deployments.py:212-232 | a transaction changes the store exactly when its guards pass, and then logs the id it carries |
| Deployments.RedeliveryIsIdle | backend/service1/clientflow_deployments.py:212-255 | a logged id delivered again, at any later point of any run, changes nothing and is never done |
| Deployments.RedeliveriesDoNotMatter | backend/service1/clientflow_deployments.py:212-255 | a run equals the run without its deliveries of logged ids |
| Deployments.KeepFirstIff | backend/service1/clientflow_deployments.py:212-286 | keeping only first deliveries gives the same store exactly when every dropped one would have been refused |
| Deployments.FirstDeliveryCanBeRefused | backend/service1/clientflow_deployments.py:281-286 | a run where it does not |
| DeploymentLaws.TransitionIsTable | backend/service1/clientflow_deployments.py:258-277 | the fifteen lines of the transition table |
| DeploymentLaws.CreateLaw | backend/service1/clientflow_deployments.py:83-145 | a deployment is created exactly for a client without an unfinished one, and what is written |
| DeploymentLaws.CancelLaw | backend/service1/clientflow_deployments.py:148-166 | cancellation is done exactly before activation, and what is written |
| DeploymentLaws.ActivateLaw | backend/service1/clientflow_deployments.py:169-209 | activation is a replay for the same logged event, a conflict for another one, done exactly when staged, and what is written |
| DeploymentLaws.KnownIdLaw | backend/service1/clientflow_deployments.py:212-255 | a report is a replay exactly when the log holds its id with the same deployment, credential and kind, and a conflict when it holds it with any other |
| DeploymentLaws.NewEventLaw | backend/service1/clientflow_deployments.py:256-323 | a new event is done exactly for an observation or a line of the table, a success only with the authorised release, and what is written |
| DeploymentLaws.ReportAgainIsReplay | backend/service1/clientflow_deployments.py:212-255 | a report that was done and comes again unchanged, whatever came between, is a replay |
| DeploymentLaws.ActivationAgainIsReplay | backend/service1/clientflow_deployments.py:186-195 | the same for an activation |
| Deployments.DeploymentStore.CreateAuthorized | backend/service1/clientflow_deployments.py:83-145 | the store and outcome of a creation |
| Deployments.DeploymentStore.CancelDeployment | backend/service1/clientflow_deployments.py:148-166 | the store and outcome of a cancellation |
| Deployments.DeploymentStore.AuthorizeActivation | backend/service1/clientflow_deployments.py:169-209 | the store and outcome of the activation gate |
| Deployments.DeploymentStore.ReportUpdaterEvent | backend/service1/clientflow_deployments.py:235-323 | the store and outcome of a report |
| UpdateCredentials.ActiveOf | backend/service1/clientflow_update_auth.py:110-122 | a live credential of the client, if there is one |
| UpdateCredentials.Newest | backend/service1/clientflow_update_auth.py:625-631 | a credential of the client created last |
| UpdateCredentials.Picked | backend/service1/clientflow_update_auth.py:625-631 | what the recovery query returns: a credential of the client created last, and of several any one the database picks |
| UpdateCredentials.EveryPickIsLastIff | backend/service1/clientflow_update_auth.py:625-631 | every pick of the recovery query is the credential inserted last exactly when that one is strictly the newest |
| UpdateCredentials.InsertKeeps | backend/service1/clientflow_update_auth.py:125-150 | a new credential keeps one live key for each client, distinct keys and the lineage, if it continues a credential of its client or is its first |
| UpdateCredentials.ApplyKeeps | backend/service1/clientflow_update_auth.py:552-679 | every transaction keeps them |
| UpdateCredentials.RotateKeeps | backend/service1/clientflow_update_auth.py:648-679 | a rotation succeeds exactly from a live credential to a key never used |
| UpdateCredentials.OneOfEach | backend/service1/clientflow_update_models.py:50-67 | at every moment: one live credential for each client, keys used once, one open code for each client |
| UpdateCredentials.RunGrows | backend/service1/clientflow_update_auth.py:552-679 | rows are only added; revoked credentials and closed codes never change |
| UpdateCredentials.OneRoot | backend/service1/clientflow_update_auth.py:619-642 | in every run a client has one root at most |
| UpdateCredentials.AncestryDescends | backend/service1/clientflow_update_auth.py:668-677 | following `rotated_from` ends at a root through ever earlier, revoked credentials of the same client |
| UpdateCredentials.OneChain | backend/service1/clientflow_update_auth.py:619-677 | in every run that never skips a last credential, following `rotated_from` meets every credential its client had before: one chain, no forks |
| UpdateCredentials.ChainedIff | backend/service1/clientflow_update_auth.py:621-642 | a transaction keeps the chains whatever the database picks exactly unless it spends a code for a client without a live key whose last credential is not strictly the newest |
| UpdateCredentials.AlwaysChainedIff | backend/service1/clientflow_update_auth.py:552-679 | a run keeps one chain for each client whatever the database picks exactly when no transaction of it can skip a last credential |
| UpdateCredentials.MovingClockNeverSkips | backend/service1/clientflow_update_auth.py:552-679 | no run does while the clock moves on from transaction to transaction |
| UpdateCredentials.ForkWhenClockGoesBack | backend/service1/clientflow_update_auth.py:625-631 | a run with the clock set back in which two credentials continue the same one |
| UpdateCredentials.ForkAtEqualInstants | backend/service1/clientflow_update_auth.py:625-631 | a run whose clock never goes back, with two credentials of one instant, that makes a fork |
| UpdateCredentials.PredecessorIff | backend/service1/clientflow_update_auth.py:619-632 | an open code is a bootstrap code exactly when its client never had a credential; otherwise it continues one |
| UpdateCredentials.ConsumeIff | backend/service1/clientflow_update_auth.py:598-645 | a code is accepted exactly if it is open, in time, for an approved client and with a new key; the guard against replacing a live credential by a bootstrap code never fires |
| UpdateCredentials.RootIffBootstrap | backend/service1/clientflow_update_auth.py:619-642 | a consumed code adds one live credential, a root exactly when the code is a bootstrap code, which is when the client never had one |
| UpdateCredentials.SpentAtMostOnce | backend/service1/clientflow_update_auth.py:598-645 | no run spends a code twice |
| CredentialLaws.EnrollLaw | backend/service1/routers/enrollment.py:1021-1078 | a new key enrols a new client, a known one is refused |
| CredentialLaws.IssueLaw | backend/service1/clientflow_update_auth.py:552-595 | a code is handed out exactly to an existing, approved client, for ten minutes, in place of the open ones, with the purpose of its history |
| CredentialLaws.ConsumeLaw | backend/service1/clientflow_update_auth.py:598-645 | a code is spent exactly while unused, unrevoked and in time, by an approved client with a new key; the live key is replaced, else a newest one continued |
| CredentialLaws.RotateLaw | backend/service1/clientflow_update_auth.py:648-679 | a rotation replaces exactly a live key by a new one |
| CredentialLaws.RevokeLaw | backend/service1/routers/clientflow_update.py:303-315 | revocation ends exactly the live key |
| CredentialLaws.CodeLastsTenMinutes | backend/service1/clientflow_update_auth.py:552-645 | a code that was neither replaced nor spent can be spent up to ten minutes after it was issued and not later, whatever else is done |
| UpdateCredentials.CredentialStore.CreateCredential | backend/service1/clientflow_update_auth.py:125-150 | a credential is added exactly when the client has no live one and the key is new |
| UpdateCredentials.CredentialStore.AdmitClient | backend/service1/routers/clients.py:2271-2275 | a client row without an update key |
| UpdateCredentials.CredentialStore.EnrollClient | backend/service1/routers/enrollment.py:1021-1078 | a client row and its first key, or neither; refused exactly for a key already in the table |
| UpdateCredentials.CredentialStore.CreateProvisioningToken | backend/service1/clientflow_update_auth.py:552-595 | for an existing, approved client: its open codes are revoked and one is added, its purpose set by the client's history; otherwise nothing |
| UpdateCredentials.CredentialStore.ConsumeProvisioningToken | backend/service1/clientflow_update_auth.py:598-645 | the tables after a code is presented; a refused key leaves no trace |
| UpdateCredentials.CredentialStore.RotateCredential | backend/service1/clientflow_update_auth.py:648-679 | the tables after a rotation |
| UpdateCredentials.CredentialStore.RevokeCredential | backend/service1/routers/clientflow_update.py:303-315 | the tables after an administrator's revocation |
| Replay.RowSurvives | backend/service1/clientflow_update_auth.py:185-187 | a row outlives every cleanup up to its expiry |
| Replay.WindowLaw | backend/service1/clientflow_update_auth.py:339-342 | the window of a proof in microseconds |
| Replay.UseLaw | backend/service1/clientflow_update_auth.py:176-200 | one use is accepted exactly for an identifier of 1 to 200 characters that is not in the table or is swept now, and what it leaves |
| Replay.ProofLaw | backend/service1/clientflow_update_auth.py:339-358 | a proof passes exactly inside its window with a free identifier, and is kept for two minutes |
| Replay.RowGoneIff | backend/service1/clientflow_update_auth.py:185-187 | up to its next acceptance a key is free again exactly when a committed cleanup ran after its expiry |
| Replay.AcceptedOnce | backend/service1/clientflow_update_auth.py:176-200 | a key accepted with an expiry is refused up to that expiry, whatever consumes and cleanups come between |
| Replay.ProofAcceptedOnce | backend/service1/clientflow_update_auth.py:338-358 | with a whole-second clock no proof is accepted twice in its whole window |
| Replay.AcceptedAgainIff | backend/service1/clientflow_update_auth.py:339-358 | after its last acceptance, whatever comes between, a proof passes again exactly inside the second that begins at its stored expiry and when it cleans up itself or a committed cleanup ran after that expiry |
| Replay.TokenAcceptsAgainIff | backend/service1/routers/clientflow_update.py:213-229 | a proof passes again at the token endpoint exactly in that second, with a new assertion, when the cleanup for the assertion or an earlier one ran after the stored expiry |
| Replay.ReplayTable.ConsumeReplay | backend/service1/clientflow_update_auth.py:176-200 | the table and outcome of one use |
| Replay.ReplayTable.VerifyDpopProof | backend/service1/clientflow_update_auth.py:338-358 | the window test, then the replay test |
| Replay.ReplayTable.IssueToken | backend/service1/routers/clientflow_update.py:213-229 | the table after a token request: both uses are recorded or neither |
| Sessions.LiveRow | backend/service1/auth.py:569-574 | a live row of a session id, if there is one |
| Sessions.ExpiryCarriesOver | backend/service1/auth.py:358-366 | a later row with the effective expiry stored keeps it exactly |
| Sessions.StepKeeps | backend/service1/auth.py:971-1052 | every step keeps families, session ids and issued access tokens consistent |
| Sessions.LoginKeeps | backend/service1/auth.py:861-889 | a login's row expires one session timeout after it |
| Sessions.FamilyExpiry | backend/service1/auth.py:1021-1031 | a row's effective expiry and user are those of the login it goes back to |
| Sessions.SessionEndsWithLogin | backend/service1/auth.py:358-366 | over any number of refreshes and switches the effective expiry stays the login's |
| Sessions.OneLiveTokenPerLogin | backend/service1/auth.py:1021-1031 | a login never has two live refresh tokens |
| Sessions.ResolveIff | backend/service1/auth.py:565-585 | an issued access token is honoured exactly while its session id has a live, unexpired row and the accounts agree |
| Sessions.EndedSessionStaysEnded | backend/service1/auth.py:565-585 | a session id without a live row never has one again |
| Sessions.SwitchEndsContext | backend/service1/auth.py:1469-1531 | after a switch the previous access token is refused in every later state |
| Sessions.StopEndsContext | backend/service1/auth.py:1548-1595 | the same after switching back |
| Sessions.ReuseRevokesAll | backend/service1/auth.py:993-996 | presenting a used refresh token ends every session of its user and touches no other |
| Sessions.BindingIff | backend/service1/auth.py:414-482 | a binding is honoured exactly while the accounts agree and a live session has its context and expiry |
| Sessions.EarlierBindingSurvives | backend/service1/auth.py:414-521 | the binding of any access token ever issued is honoured while its session goes on |
| SessionLaws.LoginLaw | backend/service1/auth.py:861-889 | an active account gets a session that lasts one session timeout, any other none |
| SessionLaws.ResolveLaw | backend/service1/auth.py:565-682 | an access token resolves exactly to the running row of its session with its expiry and people, unchanged accounts, and, if it carries an actor, accounts that allow it |
| SessionLaws.SwitchLaw | backend/service1/auth.py:1469-1536 | a switch is granted exactly with a running plain session, its own cookie, and two active accounts without a pending password, the actor a superadmin or an administrator of the organisation of a target that is neither superadmin nor viewer; and the session it opens |
| SessionLaws.SwitchRefusedLaw | backend/service1/auth.py:588-608 | which refusal it is otherwise |
| SessionLaws.SwitchBackLaw | backend/service1/auth.py:1548-1595 | switching back is granted exactly with a running switched session and its own cookie; and the session it opens |
| SessionLaws.RefreshLaw | backend/service1/auth.py:971-1052 | a refresh is granted exactly for a row not used up, in time, of an active user who may still act for the other; it keeps session, people and end |
| SessionLaws.RefreshRefusedLaw | backend/service1/auth.py:993-1019 | what a refused refresh revokes |
| SessionLaws.BindingLaw | backend/service1/auth.py:414-482 | a binding is honoured exactly for an active account of its version with a running row of the same people and end, who may still share it |
| SessionLaws.EverySwitchWasAllowed | backend/service1/auth.py:588-608 | in every run an access token that carries an actor was issued when the accounts allowed it |
| Sessions.SessionStore.CreateTokens | backend/service1/auth.py:330-355 | the row and the matching access token of a grant |
| Sessions.SessionStore.LoginForAccessToken | backend/service1/auth.py:861-889 | the tables after an accepted login |
| Sessions.SessionStore.RevokeAllFor | backend/service1/auth.py:369-380 | the loop revokes exactly the user's live rows |
| Sessions.SessionStore.RefreshAccessToken | backend/service1/auth.py:971-1052 | the tables and outcome of a refresh, reuse and inactive users included |
| Sessions.SessionStore.StartImpersonation | backend/service1/auth.py:1469-1536 | the tables and outcome of a switch |
| Sessions.SessionStore.StopImpersonation | backend/service1/auth.py:1548-1595 | the tables and outcome of switching back |
| Sessions.SessionStore.LogoutSession | backend/service1/auth.py:1057-1084 | the presented live token is revoked, nothing else changes |
| Sessions.SessionStore.ResolveToken | backend/service1/auth.py:565-680 | the row behind an access token, or none |
| Sessions.SessionStore.ValidateBinding | backend/service1/auth.py:414-482 | the loop finds a backing row exactly when there is one |
| Display.CancelListedDoes | backend/service1/display_control.py:309-318 | the loop cancels exactly the queued commands of its kind on the list |
| Display.SupersedeDoes | backend/service1/display_control.py:319-333 | the walk stops at the first wanted command and cancels exactly the queued ones of its kind before it |
| Display.StepKeeps | backend/service1/display_control.py:126-358 | every step keeps revisions, request order and one active command for each revision |
| Display.CommandsByRevision | backend/service1/display_control.py:335-358 | a command carries the configuration of its revision |
| Display.RevisionDeterminesConfiguration | backend/service1/display_control.py:126-183 | within a run a revision number determines the desired configuration |
| Display.MismatchLeavesOne | backend/service1/display_control.py:319-358 | after a mismatching report exactly one active command carries the desired revision, and others are older and claimed |
| Display.MatchLeavesNone | backend/service1/display_control.py:308-317 | after a matching report no configuration command is queued |
| Display.LockdownConverges | backend/service1/display_control.py:439-474 | the lockdown command returned is active and wanted; a contrary one still queued was requested after it |
| Display.SharedListIsFresh | backend/service1/display_control.py:210-221 | one shared list of active commands gives what two fresh reads give |
| DisplayLaws.WalkLaw | backend/service1/display_control.py:319-333 | the walk returns the first active wanted command and withdraws the queued active ones of its kind before it |
| DisplayLaws.ConfigurationLaw | backend/service1/display_control.py:279-358 | what one report does about the configuration: nothing, a withdrawal, the active command of the revision, or a new one for ten minutes |
| DisplayLaws.LockdownLaw | backend/service1/display_control.py:386-474 | what one report does about the lockdown: no command exactly if nothing was said or wanted, the wanted state is shown, or the agent drifted within five minutes of its last completion; else the active wanted command or a new one for ten minutes with the row pending |
| DisplayLaws.OneWanted | backend/service1/display_control.py:439-474 | exactly one wanted lockdown command is active afterwards, the one returned, if not more than one was before |
| DisplayLaws.ShownLeavesNone | backend/service1/display_control.py:428-437 | after a report that shows the wanted state no lockdown command is queued |
| DisplayLaws.ReportLaw | backend/service1/routers/shared_domain.py:119-135 | a status report does the one after the other |
| Display.DisplayClient.SetKioskUrl | backend/service1/display_control.py:126-153 | the desired row after a new address |
| Display.DisplayClient.SetRefreshInterval | backend/service1/display_control.py:156-183 | the desired row after a new interval |
| Display.DisplayClient.CancelQueued | backend/service1/display_control.py:309-317 | the loop as specified |
| Display.DisplayClient.FindWanted | backend/service1/display_control.py:319-333 | the loop as specified |
| Display.DisplayClient.QueueCommand | backend/service1/display_control.py:240-270 | one queued command with the lifetime asked for, at least thirty seconds |
| Display.DisplayClient.ReconcileDisplayConfiguration | backend/service1/display_control.py:279-358 | commands, result and list after the configuration reconciler |
| Display.DisplayClient.ReconcileKioskLockdown | backend/service1/display_control.py:386-474 | commands, lock row, result and list after the lockdown reconciler |
| Display.DisplayClient.ApplyStatusReport | backend/service1/routers/shared_domain.py:119-135 | the rows after a report, both reconcilers sharing one list |
| Region.ReadIsInPlace | backend/clientflow_release_format/archive.py:76-87 | one read returns the region's bytes at the position and moves past them |
| Region.ReadLengthLaw | backend/clientflow_release_format/archive.py:76-87 | how many bytes a read returns |
| Region.SeekLaw | backend/clientflow_release_format/archive.py:61-74 | where a seek goes, and when it is refused |
| Region.EveryReadIsInPlace | backend/clientflow_release_format/archive.py:36-92 | every read of every run of seeks and short reads does, and never leaves the region |
| Region.ReadsJoin | backend/clientflow_release_format/archive.py:76-87 | reads without seeks join to the bytes between the first and last position |
| Region.BoundedReader.SeekTo | backend/clientflow_release_format/archive.py:61-74 | the new position, clamped to the size, or an error |
| Region.BoundedReader.ReadBytes | backend/clientflow_release_format/archive.py:76-87 | the bytes and position of one read |
| Region.SubregionIsASlice | backend/clientflow_release_format/archive.py:155-158 | a subregion exists exactly for a range inside, and holds that range of the bytes |
| Region.NestedSubregions | backend/clientflow_release_format/archive.py:155-158 | nested subregions add offsets and stay contained |
| Region.Sha256 | backend/clientflow_release_format/archive.py:160-177 | for every positive chunk size and every short read the loop ends with the digest of the region, or an error |
| Region.ReadSmall | backend/clientflow_release_format/archive.py:179-187 | all of the region or an error, and exactly when |
| PayloadArchive.PrefixDecides | backend/clientflow_release_format/archive.py:226-232 | a beginning over a limit puts the whole archive over it |
| PayloadArchive.ComponentIff | backend/clientflow_release_format/archive.py:190-200 | a component is found exactly where it stands between slashes or ends |
| PayloadArchive.NameLaw | backend/clientflow_release_format/archive.py:190-200 | a name passes exactly with 1 to 240 characters, no control character, backslash or leading slash, no component of two dots, and the root as its first component |
| PayloadArchive.Inspect | backend/clientflow_release_format/archive.py:203-235 | the loop accepts exactly the archives that meet every limit it reads as a whole, names of at most 240 characters included |
| PayloadArchive.PathLimitIsNotRead | backend/clientflow_release_format/archive.py:203-235 | the verdict does not depend on the path length of the limits |
| PayloadArchive.PathLimitHoldsIff | backend/clientflow_release_format/archive.py:190-214 | every accepted archive is within the path length of the limits exactly when that is at least 240 or no file is allowed |
| PayloadArchive.PathLimitCanBeExceeded | backend/clientflow_release_format/archive.py:190-214 | an accepted archive with a name longer than the limits say |
| FreshInstallToken.EncodedShape | backend/service1/clientflow_fresh_install_auth.py:47-48 | an encoding holds no padding, dot or blank |
| FreshInstallToken.BytesOfSextets | backend/service1/clientflow_fresh_install_auth.py:47-55 | regrouping sextets gives back the bytes |
| FreshInstallToken.DecodeEncode | backend/service1/clientflow_fresh_install_auth.py:47-55 | decoding undoes encoding for every byte string |
| FreshInstallToken.NormalisationIsIdempotent | backend/service1/clientflow_fresh_install_auth.py:80-127 | normalising a normalised payload changes nothing |
| FreshInstallToken.ValidatedLaw | backend/service1/clientflow_fresh_install_auth.py:80-127 | a payload validates exactly to the authorization it stands for, field by field |
| FreshInstallToken.IssuedHasThreeParts | backend/service1/clientflow_fresh_install_auth.py:130-171 | an issued token splits into prefix, payload and signature |
| FreshInstallToken.VerifyIssued | backend/service1/clientflow_fresh_install_auth.py:174-205 | an issued token verifies to the normalised snapshot exactly when short enough, for its own id and unexpired |
| FreshInstallToken.VerifiedIsSigned | backend/service1/clientflow_fresh_install_auth.py:174-205 | whatever verifies is signed, for the id asked, unexpired and normalised |
| Versions.ListLessIsOlder | backend/service1/clientflow_releases.py:47-53 | list order is the order by the first component that differs |
| Versions.PaddingKeepsOrder | backend/service1/clientflow_releases.py:47-53 | zero padding changes no comparison |
| Versions.CompareDecides | backend/service1/clientflow_releases.py:47-53 | the result says older, newer, or the same up to trailing zeros |
| Versions.TotalPreorder | backend/service1/clientflow_releases.py:47-53 | comparison is a total preorder on versions of any length |
| Versions.CompareLists | backend/service1/clientflow_releases.py:47-53 | the padding loops compute that comparison |
| Versions.VersionOfLaw | backend/service1/clientflow_releases.py:36-44 | a text is a version exactly if all its parts between dots are numbers |
| Versions.CompatibleIff | backend/service1/clientflow_releases.py:214-238 | a known current version must be neither older than the minimum nor newer than the maximum |
| Versions.NeverFromBelowBaseline | backend/service1/clientflow_releases.py:214-238 | an accepted in-place update at or past the baseline sequence never starts below 1.3.11 |
| Versions.CheckCatalog | backend/service1/clientflow_releases.py:101-144 | the loop accepts exactly the catalogs of distinct versions in which every release is in order |
| Versions.CheckRelease | backend/service1/clientflow_releases.py:101-150 | one turn accepts exactly a new version with known status, matching release id, artifact type, install modes, baseline and platform policy |

## Left out

- Transactions are atomic and read the clock once, except that a session event reads it a second time when it writes; a wake-up sent before its commit is not seen before it.
- Livestream desired-state and status columns, error texts, marker files, HLS files, stop reasons' exact texts beyond whether they latch, and process restarts.
- Agent, browser and scope authorisation; requests for clients that do not exist change nothing.
- Durable activity leases, of which the model keeps only the time the last one ended.
- Purging of clients and cascading deletes.
- LivestreamService.Service.BrowserCommand: the reset action has no route and comes from the watchdog only.
- Relay: messages lost by a cancelled wait, headers and cookies, and the order of the registry. The text of the closing message is a parameter.
- HttpRelay.Hub.CreateRelay: the handler itself is not modelled; `RunnerEnds` is what its task does when it returns, fails or is cancelled.
- Deployments: bundle digest, size, approval and reason fields with their column checks; event times; trimming of reported texts.
- Deleted clients; whether a client is approved is a parameter of consuming a code.
- Signature checks, audiences and the leeway of client assertions; the token library is not part of this model.
- Replay: a request that fails after consuming a proof rolls the use back; the model records committed uses.
- Sessions.ReuseRevokesAll: holds while the row of the used token exists; retention (`backend/service1/main.py:190-215`) deletes rows that ended long ago, after which the token is unknown.
- Sessions: passwords, rate limits, usernames, cookies' attributes and the lifetime of access tokens. Status codes of refusals are grouped.
- Sessions.SessionStore.RefreshAccessToken: a used token's revocation of other rows is committed with the refusal, as in the source.
- Display: resolution and power commands beyond being other commands, the normalising of addresses and intervals, leases and attempts of shared commands. An agent's moves are any change of an active command's status.
- Display.MismatchLeavesOne: request times of configuration commands are taken to increase strictly.
- Files that change while they are open: the two identity checks are parameters of hashing and small reads.
- Parsing of the outer bundle, and member fields the inspection does not read.
- FreshInstallToken: JSON and the keyed digest are supplied by the caller; a payload with other fields than expected is one the reader refuses; digits are ASCII digits; a non-ASCII token is refused.
- Versions: conversion of a text to a number is a parameter, and so is the outcome of a client's platform check; a catalog's header, its default and latest pointers, and the reading of platform versions are left out.
- Schema migrations, transport, host probes, health texts and telemetry.
