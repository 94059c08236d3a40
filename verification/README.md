# Casambi MQTT bridge: a verified model

This project models the parts of the Casambi MQTT bridge, of its Home Assistant integration
and of its root recovery supervisor that keep state across time, retries, crashes and an
unreliable channel, and proves what they promise over every run. `dafny verify dfyconfig.toml`
checks all of it.

Each component has the same shape. Its state and steps are a value and functions on it; a run
is any sequence of events its surroundings can produce; the promises are lemmas about all
runs. The objects of the source that change in place are classes, and every method is proved
to do exactly one step of the value (or, for the supervisor, to extend a run of the machine
by the effects it has), so what is proved of runs holds of the code as it executes.

| files | what they model |
|---|---|
| `SupervisorState`, `SupervisorMachine`, `Supervisor` | `scripts/bridge_recovery.py`: observing and deciding; one pass as a machine over its effects with crashes and reboots between any two of them; the same pass as executed |
| `SupervisorRuns`, `SupervisorBudget`, `SupervisorLooks`, `SupervisorEvidence`, `SupervisorChoices` | what every run of the supervisor keeps, what its looks note, and what it chooses, exactly |
| `SupervisorShortWindow`, `SupervisorInterruptions`, `SupervisorLostNotes` | what some runs break, and the exact conditions under which all keep it |
| `SupervisorFile` | the supervisor's state file |
| `HealthProtocol`, `BridgeHealth`, `StatusTracker` | the status and reply messages, their sender, and their receiver across a channel that drops, duplicates, reorders and replays |
| `Probes`, `HealthObserver`, `ProbeVerdicts`, `ProbeSchedule` | probe correlation in Home Assistant, what each outcome proves, and which probe runs when |
| `EntryRecovery`, `EntryAnswers` | the entry reload budget, the two-proof rule and the latch |
| `UnitPublisher`, `Snapshot`, `Startup` | the coalescing publisher, the truthful snapshot, the bounded startup stage |
| `SwitchDecoder`, `SwitchPublisher`, `RecencyTable` | switch frames, the retransmit filter and the duplicate filter |
| `Basics`, `JsonValues` | values they share |

Time is real and its monotonic clocks never go back. The wall clock of the supervisor may be
set at will; that of the entry recovery does not go back. Asynchronous code is split at its
suspension points. The service manager, the broker, Home Assistant and the BLE stack answer
arbitrarily.

## Where the code does less than it says

- **Short reset window.** `Settings.from_env` does not compare the two windows. The short
  budget holds in every run exactly when the short window is no longer than the long one
  (`SupervisorShortWindow.ShortBudgetHoldsExactly`); `docs/pi-recovery.md:46` states it without
  that condition, which the defaults meet.
- **Interruptions before a save.** What a pass saw and did is saved with its state, so a crash
  or a reboot before the save loses it: what was noted is what happened exactly when no
  interruption came while something was unsaved (`SupervisorInterruptions.NotesAreCompleteExactly`).
  Three promises of `docs/pi-recovery.md` depend on it, each holding in all runs exactly for the
  interruptions that spare what it needs, with a run from the installation that breaks it
  otherwise: "observed healthy for an hour" (`:48`) needs every look to be saved
  (`SupervisorLostNotes.LatchPromiseHoldsExactly`), the limit of three plain restarts (`:49`)
  needs every restart to be saved (`SupervisorLostNotes.RestartLimitHoldsExactly`), and the
  startup streak (`:37`) needs everything to be saved (`SupervisorLostNotes.StreakPromiseHoldsExactly`).
- **Reload cooldown.** Older reloads are not consulted after 1800 s, so the cooldown separates
  all reloads of all runs exactly when it is at most 1800 s or recovery is off
  (`EntryRecovery.CooldownHonouredExactly`).
- **The last will.** It carries no sequence, so a heartbeat of the same process undoes it exactly
  when its number exceeds all accepted since the process took over
  (`StatusTracker.WillIsUndoneExactly`), which one built before the will and delivered after it does
  (`StatusTracker.UnseenHeartbeatUndoesWill`).
- **Queueing delay.** The publisher's duplicate filter loses no decoder event while the queue
  delays events by at most 0.25 s, and can lose one at any longer delay
  (`SwitchPublisher.PipelineLosesNothing`, `SwitchPublisher.LongerDelayCanLose`).
- **Counters.** A built status parses back exactly while its counters stay within the
  protocol's 53 bits (`BridgeHealth.BridgeHealth.BuildStatus`).

## Model

| member | source | states |
|---|---|---|
| `SupervisorRuns.ResetsAreBudgeted` | scripts/bridge_recovery.py:688-728 | After any run, with crashes and reboots anywhere, no half-open interval of the long window holds more than `max_resets_long` persisted charges of one boot, nor one of the short window more than `max_resets_short` if it is no longer than the long one; Bluetooth restarts never outnumber charges |
| `SupervisorShortWindow.ShortBudgetHoldsExactly` | scripts/bridge_recovery.py:153-195 | For every valid setting, the short budget holds in all runs if and only if the short window is no longer than the long one |
| `SupervisorShortWindow.OneTooMany` | scripts/bridge_recovery.py:642-644 | When it is longer, a run exists that makes one charge more than the short budget inside one short window |
| `SupervisorBudget.PrunedDecidesLikeHistory` | scripts/bridge_recovery.py:399-410 | A list pruned to one window answers every later question about an equal or shorter window as the unpruned list would |
| `SupervisorBudget.PrunedForgetsLongerWindows` | scripts/bridge_recovery.py:549-550 | For any longer window some history is answered differently once pruned |
| `SupervisorBudget.ChargeFits` | scripts/bridge_recovery.py:716-722 | One more charge, where fewer than the maximum lie in the window now, keeps every interval of the window within the budget |
| `SupervisorBudget.RoomInHistory` | scripts/bridge_recovery.py:549-550 | Room in the list a pass keeps is room in the history of all persisted charges |
| `SupervisorBudget.ChargingKeepsBudget` | scripts/bridge_recovery.py:858-860 | Charging and saving at once keeps file, memory and history in agreement and every interval within both budgets |
| `SupervisorBudget.RebootKeepsBudget` | scripts/bridge_recovery.py:399-410 | A new boot identifier starts with no recent charge of its own and leaves the counts of every other boot as they are |
| `SupervisorEvidence.ResetsAreJustified` | scripts/bridge_recovery.py:688-728 | Every charge belongs to a pass whose own saved look found the bridge neither ready nor failed with 78, with at least `failures_to_reset` failures inside the failure window, none counted twice; and each of them is an exit 76 that a saved look consumed, or an instance a saved look saw alive, discovering or connecting, more than 600 s after its last update and not counted before, with no ready look and no verified recovery since |
| `SupervisorLooks.StuckExactly` | scripts/bridge_recovery.py:675-685 | An observation adds evidence that is no exit 76 if and only if the record is alive and of the unit's process, discovering or connecting, more than 600 s older than the monotonic reading, and of an instance not counted; it then adds `failures_to_reset` stamps and counts the instance |
| `SupervisorLooks.NotesAreHonest` | scripts/bridge_recovery.py:625-685 | In every run each look is noted as what it saw: whether the record was alive, of the unit's process and ready, how many exits 76 and 79 it consumed, and which evidence that made; the file remembers the last 32 instances that the notes counted as stuck |
| `SupervisorChoices.FreshEvidenceIsHeld` | scripts/bridge_recovery.py:642-645 | A pass holds exactly the evidence of its boot inside the failure window that the looks since the last ready sighting or verified recovery saw |
| `SupervisorChoices.EveryChoiceExactly` | scripts/bridge_recovery.py:688-728 | In every reachable state what a pass does is told from what its look saw and what the notes add up to: exactly when it retries a stop, latches and for which reason, resets, restarts, or does nothing |
| `SupervisorChoices.EnoughEvidenceActs` | scripts/bridge_recovery.py:716-722 | With `failures_to_reset` pieces of fresh evidence from the looks of this boot, an unlatched pass that saw the bridge neither ready nor misconfigured resets or latches |
| `SupervisorChoices.LatchClearsExactly` | scripts/bridge_recovery.py:664-674 | A look clears the latch if and only if no stop is pending and every saved look has seen this one instance ready since one at least `healthy_reset_seconds` earlier |
| `SupervisorChoices.WaitsEndExactly` | scripts/bridge_recovery.py:831-926 | Every wait ends exactly on what it waits for: no process and inactive or failed, Bluetooth active, or a ready, trusted record of an instance other than the one the pass began with |
| `SupervisorEvidence.ObservedIsTraced` | scripts/bridge_recovery.py:634-645 | Observing keeps every failure traced to the evidence of the looks, pruning and adding included |
| `SupervisorEvidence.OnlyBleExitsCount` | scripts/bridge_recovery.py:640-641 | An exit is evidence for a reset exactly if it is a BLE startup exit; exit 79 never is |
| `SupervisorEvidence.RestartsAreJustified` | scripts/bridge_recovery.py:722-728 | A plain restart begins only for a bridge that failed, not on its configuration, that the pass saw not ready, without enough evidence for a reset |
| `SupervisorEvidence.PlainRestartsAreRationed` | scripts/bridge_recovery.py:646-648 | Between operator resets no interval of 1800 s of one boot holds two saved plain restarts |
| `SupervisorRuns.BluetoothRestartsInOrder` | scripts/bridge_recovery.py:839-887 | Whenever Bluetooth is about to be restarted the pass has done exactly this: persisted a charge, stopped the bridge successfully, and been shown the unit with MainPID 0, inactive or failed |
| `SupervisorRuns.StartsInOrder` | scripts/bridge_recovery.py:887-897 | A reset starts the bridge only after Bluetooth was seen active, and it cleared the start limit first exactly if the unit was shown to have hit it |
| `SupervisorRuns.TerminalStopIsDurable` | scripts/bridge_recovery.py:952-976 | In every reachable file a pending stop implies the latch; pending clears only by an operator reset, or by the save of a pass whose own stop succeeded and which then saw the bridge fully stopped |
| `SupervisorRuns.LatchedPassOnlyStops` | scripts/bridge_recovery.py:695-706 | A pass that began latched never commands anything but the stop of the bridge |
| `SupervisorRuns.PendingStopIsRetried` | scripts/bridge_recovery.py:695-706 | When a pass returns with the stop still pending and its look found the bridge neither ready nor failed with 78, its last command was the stop; and a pass that began latched commands the stop if and only if it was pending in the file and the look found the bridge neither ready nor failed with 78 |
| `SupervisorRuns.PassesEndInOrder` | scripts/bridge_recovery.py:979-1030 | When a pass returns: whatever its recovery stopped, a start was attempted afterwards; if it latched, its last command was the terminal stop; if it began latched, it only stopped; six startup exits are latched unless the bridge failed with exit 78 |
| `SupervisorRuns.LatchClearsByWatching` | scripts/bridge_recovery.py:664-674 | The latch clears only by an operator reset, or by saving a look at a ready instance that every saved look has seen ready since one at least `healthy_reset_seconds` earlier, with no stop pending |
| `SupervisorRuns.CountersAddUp` | scripts/bridge_recovery.py:634-668 | In every reachable file the startup streak is the number of 76/79 exits that saved passes consumed since the last ready sighting or verified recovery, the restart streak counts the saved plain restarts since the last ready sighting, and `ready_since` is the start of the maximal streak of sightings of one ready instance |
| `SupervisorRuns.SightingExplains` | scripts/bridge_recovery.py:625-685 | Observing moves the counters and the watch as one more sighting moves the streaks of the saved history |
| `SupervisorRuns.PlainRestartsAreBounded` | scripts/bridge_recovery.py:935-949 | Between ready sightings or operator resets at most three plain restarts are begun, besides those of passes that crashed before saving them |
| `SupervisorRuns.RecoveriesAreVerified` | scripts/bridge_recovery.py:907-932 | A recovery is recorded only after the pass was shown a record that is alive, ready and of the unit's process, from an instance other than the one its own look had trusted |
| `SupervisorInterruptions.NotesAreCompleteExactly` | scripts/bridge_recovery.py:1003-1030 | After any run, the notes saved and about to be saved are everything that happened if and only if, since the last operator reset, no crash or reboot came while a pass had something unsaved |
| `SupervisorInterruptions.LatchClearsAfterLooking` | scripts/bridge_recovery.py:664-674 | If no interruption lost a look, the latch clears only after every look of the run since one at least `healthy_reset_seconds` earlier saw the same instance ready |
| `SupervisorInterruptions.StreakCountsEveryExit` | scripts/bridge_recovery.py:634-641 | If no interruption lost anything, the streak between passes is every 76/79 exit consumed since the last ready look, verified recovery or reset |
| `SupervisorInterruptions.AtMostThreeRestarts` | scripts/bridge_recovery.py:722-728 | If no interruption lost a restart, at most three plain restarts are begun between ready looks or operator resets |
| `SupervisorLostNotes.LatchPromiseHoldsExactly` | scripts/bridge_recovery.py:664-674 | For every valid setting, in all runs the latch clears only after looks that long if and only if interruptions spare unsaved looks |
| `SupervisorLostNotes.LatchClearsInSpiteOfLook` | scripts/bridge_recovery.py:1003-1025 | A run from the installation in which the latch clears although a look one second earlier saw the bridge not ready |
| `SupervisorLostNotes.RestartLimitHoldsExactly` | scripts/bridge_recovery.py:935-949 | For every valid setting, at most three plain restarts are begun in all runs if and only if interruptions spare unsaved restarts |
| `SupervisorLostNotes.FourthRestart` | scripts/bridge_recovery.py:1016-1019 | A run from the installation that begins a fourth plain restart without a ready look |
| `SupervisorLostNotes.StreakPromiseHoldsExactly` | scripts/bridge_recovery.py:634-641 | For every valid setting, the streak counts every exit consumed in all runs if and only if interruptions spare everything unsaved |
| `SupervisorLostNotes.LostExit` | scripts/bridge_recovery.py:616-622 | A run in which a consumed startup exit is never counted |
| `SupervisorLostNotes.LostRecovery` | scripts/bridge_recovery.py:928-931 | A run in which a verified recovery leaves the streak standing |
| `SupervisorRuns.UnsavedPassIsForgotten` | scripts/bridge_recovery.py:1003-1025 | A crash between the look and the save leaves the file as it was and the consumed exits gone |
| `SupervisorRuns.RunKeepsInv` | scripts/bridge_recovery.py:979-1030 | Budget, latch, counters, clearing rule and command order hold after every step of every run |
| `SupervisorFile.ReachableStatesLoad` | scripts/bridge_recovery.py:434-483 | Every state a run can leave in the file is loaded by the next pass unchanged |
| `SupervisorFile.SavedStateLoads` | scripts/bridge_recovery.py:438-483 | A state within the limits of the loader survives a save and a load, and whatever is loaded from any document is such a state |
| `SupervisorFile.CorruptFilesFailClosed` | scripts/bridge_recovery.py:438-464 | A document that is not a state loads as latched, and no decision on it acts |
| `SupervisorState.State.Observe` | scripts/bridge_recovery.py:625-685 | Observing in place, with its loop over the exits, leaves the state the specification `Observed` says |
| `SupervisorState.State.CountExits` | scripts/bridge_recovery.py:634-641 | The loop adds exactly the startup exits to the streak and the stamps of the BLE ones to the evidence, in order |
| `SupervisorState.State.SeeReady` | scripts/bridge_recovery.py:656-674 | A ready sighting ends both streaks and the evidence, starts or continues the watch, and clears the latch only under the stated condition |
| `SupervisorState.State.SeeUnready` | scripts/bridge_recovery.py:675-685 | An unready sighting ends the watch and does in place what the specification says, which `SupervisorLooks.StuckExactly` pins: an instance stuck for ten minutes counts once, as enough evidence |
| `SupervisorState.State.Fail` | scripts/bridge_recovery.py:863-870 | Failing latches and asks for the terminal stop, and changes nothing else but the reported reason and result |
| `Supervisor.Supervisor.RunOnce` | scripts/bridge_recovery.py:979-1030 | One executed pass extends a run of the machine and returns with everything in order, a pending stop retried unless the look spoke against it; or does nothing when the unit cannot be read |
| `Supervisor.Supervisor.DecideAndAct` | scripts/bridge_recovery.py:1004-1030 | Whatever is decided, the pass runs to its end as the machine does, and returns in order: a stop still pending was retried, and a latched pass stopped exactly if it had to |
| `Supervisor.Supervisor.LookAt` | scripts/bridge_recovery.py:1000-1003 | Loading, consuming the exits and observing is one look of the machine |
| `Supervisor.Supervisor.Recover` | scripts/bridge_recovery.py:839-932 | Recovery returns in order or latched with the terminal stop due; success means the last thing it did was see a new instance ready |
| `Supervisor.Supervisor.ResetBluetooth` | scripts/bridge_recovery.py:872-901 | The guarded steps either reach verification or fail with their reason, and tell whether a start is owed |
| `Supervisor.Supervisor.StopForReset` | scripts/bridge_recovery.py:873-886 | Either the bridge was stopped, seen stopped and the exit log emptied, or the failure says whether it may be down, a timeout only after `stop_timeout` |
| `Supervisor.Supervisor.RestartStack` | scripts/bridge_recovery.py:887-897 | Bluetooth is restarted and seen active before the bridge is started, or a failure with its reason latches, a timeout only after `stop_timeout` |
| `Supervisor.Supervisor.StartAgain` | scripts/bridge_recovery.py:895-897 | The start limit is cleared only if it was hit, and the bridge is started, or a failure with its reason latches |
| `Supervisor.Supervisor.Abandon` | scripts/bridge_recovery.py:863-903 | The latch is saved before the start that the stopped bridge is owed |
| `Supervisor.Supervisor.AwaitReady` | scripts/bridge_recovery.py:907-926 | The wait for the recovered bridge fails only after `verify_seconds`, and its outcome says what is saved: a recovery, a failed verification, or the latch if the long budget is spent |
| `Supervisor.Supervisor.WaitUntil` | scripts/bridge_recovery.py:816-828 | Polling ends met, or unmet at or after the deadline; it terminates because every round sleeps for the interval |
| `Supervisor.Supervisor.RestartBridge` | scripts/bridge_recovery.py:935-949 | The restart is charged to the state before its two commands, the second of which follows only if the first succeeded |
| `Supervisor.Supervisor.StopTerminally` | scripts/bridge_recovery.py:952-976 | The terminal stop leaves the latch, and clears the pending flag only if its own stop succeeded and the bridge was then seen fully stopped |
| `Supervisor.Supervisor.Charge` | scripts/bridge_recovery.py:858-860 | The charge is in the file before the first command |
| `Supervisor.Supervisor.RecordExit` | scripts/bridge_recovery.py:595-613 | The hook appends the exit and keeps the last 64 |
| `Supervisor.Supervisor.Reset` | scripts/bridge_recovery.py:1052-1059 | The operator reset saves a state with every counter, list and flag cleared |
| `StatusTracker.RunIsConsistent` | custom_components/casambi_mqtt/health.py:158-192 | After any deliveries the tracker is exactly what everything it accepted makes it |
| `StatusTracker.AcceptedSequencesIncrease` | custom_components/casambi_mqtt/health.py:170-187 | While one instance is kept, its accepted sequences strictly increase, whatever the channel does |
| `StatusTracker.AcceptedExactly` | custom_components/casambi_mqtt/health.py:158-192 | A delivery is accepted if and only if it is live, a valid status, not of a retired instance, and above every sequence accepted in this tenure |
| `StatusTracker.RetiredList` | custom_components/casambi_mqtt/health.py:176-187 | The retired list holds no duplicate, at most eight, never the current instance, and is the last eight replaced |
| `StatusTracker.HealthyRestsOnLiveReady` | custom_components/casambi_mqtt/health.py:194-213 | HEALTHY implies that the last message accepted, a live one, was ready and is no older than `stale_seconds` |
| `StatusTracker.EveryVerdictExactly` | custom_components/casambi_mqtt/health.py:194-213 | Each bridge state if and only if: without an accepted status by the grace period and whether another protocol version was ever heard, otherwise by the phase and age of the last accepted status |
| `StatusTracker.AcceptedWasSent` | custom_components/casambi_mqtt/health.py:158-192 | Every accepted status is a last will or a status its own process built |
| `StatusTracker.AcceptedInBuildOrder` | custom_components/casambi_mqtt/health.py:170-187 | Of two numbered statuses accepted in one tenure, the later one was built later: no earlier heartbeat undoes a later status |
| `StatusTracker.WillIsUndoneExactly` | custom_components/casambi_mqtt/health.py:170-187 | After an accepted will, a live heartbeat its process built is accepted, and undoes it, if and only if its number exceeds every number accepted since that process took over |
| `StatusTracker.UnseenHeartbeatUndoesWill` | custom_components/casambi_mqtt/health.py:170-187 | For any process and any two heartbeats it built, the channel can deliver the later one after the will, and the bridge is healthy again |
| `StatusTracker.ReadsExactly` | custom_components/casambi_mqtt/health_protocol.py:266-306 | A payload reads as a status exactly when it is that valid status, printed |
| `StatusTracker.BridgeStatusTracker.OnMessage` | custom_components/casambi_mqtt/health.py:158-192 | The method does one step of the specified tracker |
| `HealthProtocol.SnapshotParsesExactly` | custom_components/casambi_mqtt/health_protocol.py:240-248 | A snapshot parses to a summary if and only if it is what that valid summary prints |
| `HealthProtocol.StatusParsesExactly` | custom_components/casambi_mqtt/health_protocol.py:266-301 | A status document parses to a status if and only if that status is valid and prints to that document |
| `HealthProtocol.ReplyParsesExactly` | custom_components/casambi_mqtt/health_protocol.py:309-356 | A reply document parses to a reply if and only if that reply is valid, with its counters exactly in snapshot replies, and prints to that document |
| `BridgeHealth.WillParsesBack` | server.py:516-534 | The last will parses back as an offline status without a sequence |
| `BridgeHealth.BridgeHealth.BuildStatus` | server.py:487-514 | Each status takes the next sequence number, reports how many snapshots were completed and the counters and age of the last, is degraded instead of ready while state publishes fail, and parses back to itself exactly while its counters fit |
| `BridgeHealth.BridgeHealth.BuildReply` | server.py:594-637 | The reply repeats the status built with it, and parses back together with it |
| `BridgeHealth.BridgeHealth.SetPhase` | server.py:438-447 | Phase and error change, and nothing a receiver orders by |
| `BridgeHealth.BridgeHealth.SessionStarted` | server.py:454-458 | A new session starts over until its snapshot lands, keeping the sequence |
| `BridgeHealth.BridgeHealth.RecordSnapshot` | server.py:460-477 | The snapshot joins those completed, numbered in order, and the bridge becomes ready exactly when it had no failed publish |
| `HealthObserver.OkIsSound` | custom_components/casambi_mqtt/health.py:322-428 | In any interleaving, an OK consumer result comes by the deadline, rests on its own ok reply with all known instances equal, at least as many distinct topics arrived as the reply confirmed units (more than zero), and every raw message since the start was handled by the same topic and identity in time |
| `HealthObserver.StaleIsSound` | custom_components/casambi_mqtt/health.py:402-428 | A stale verdict implies an accepted ok reply with at least one unit, that many distinct topics delivered by the deadline, and none of the delivered messages handled |
| `ProbeVerdicts.EveryOutcomeExactly` | custom_components/casambi_mqtt/health.py:322-428 | In every run, at every call and for each of the nine outcomes: the pending probe ends with it if and only if the calls since it started, this one included, say so by its first own reply, the distinct topics delivered by the deadline, and which delivered messages were handled by it; a consumer result counts exactly those |
| `ProbeVerdicts.PendingIsIncomplete` | custom_components/casambi_mqtt/health.py:402-416 | Complete evidence ends a consumer probe OK at once: no pending one has it |
| `ProbeVerdicts.LateOutcomeIsFixed` | custom_components/casambi_mqtt/health.py:402-428 | After the deadline a call leaves the probe as it is, ends it with the outcome that the calls before this one already implied, or supersedes it by a new instance |
| `ProbeSchedule.TickStartsExactly` | custom_components/casambi_mqtt/health.py:541-573 | A tick that finds no probe pending starts one if and only if one may start, of the two kinds the one due longer, which is due again after its interval |
| `ProbeSchedule.AskedForExactly` | custom_components/casambi_mqtt/health.py:559-573 | A probe asked for outside the ticks starts if and only if none is pending, and a schedule makes its kind due after the delay; the other kind is untouched |
| `ProbeSchedule.NoProbeInGrace` | custom_components/casambi_mqtt/health.py:487-557 | Unless one is asked for or scheduled, no tick of any run starts a probe before the startup grace is over |
| `ProbeSchedule.NeitherKindStarves` | custom_components/casambi_mqtt/health.py:548-557 | If a tick starts one kind while the other may start, the next tick that starts any probe while the other may start starts the other |
| `ProbeSchedule.NewestIsRemembered` | custom_components/casambi_mqtt/health.py:575-582 | After every run the observer remembers, of each kind, the newest result and the newest success |
| `ProbeSchedule.UnsupportedExactly` | custom_components/casambi_mqtt/health.py:496-509 | In every run a bridge counts as unsupported exactly if its tracker says so, or it is unknown, the newest status probe got no reply and none ever succeeded |
| `HealthObserver.EveryProbeEndsOnce` | custom_components/casambi_mqtt/health.py:433-445 | Started probes equal results plus the one still pending |
| `HealthObserver.EvidenceStartsWithTheProbe` | custom_components/casambi_mqtt/health.py:308-320 | The evidence of the pending probe is the run from just after the call that started it, under that call's token, deadline and live instance |
| `HealthObserver.ResultsComeFromThePendingProbe` | custom_components/casambi_mqtt/health.py:384-445 | Every result is that of the pending probe with the evidence of this call, judged once |
| `HealthObserver.RunKeepsInv` | custom_components/casambi_mqtt/health.py:456-582 | After every run the pending probe holds exactly the evidence delivered to it |
| `HealthObserver.HealthObserver.OnStatus` | custom_components/casambi_mqtt/health.py:511-514 | The method does the specified step, superseding a probe that spans two instances |
| `HealthObserver.HealthObserver.OnReply` | custom_components/casambi_mqtt/health.py:516-521 | The method does the specified step for a reply |
| `HealthObserver.HealthObserver.OnRawUnit` | custom_components/casambi_mqtt/health.py:523-531 | The method does the specified step for a raw unit message; other topics and empty payloads change nothing |
| `HealthObserver.HealthObserver.OnProcessedUnit` | custom_components/casambi_mqtt/health.py:533-539 | The method does the specified step for a handled unit message |
| `HealthObserver.HealthObserver.Tick` | custom_components/casambi_mqtt/health.py:541-557 | Expires the pending probe, then starts the most overdue eligible one: a consumer probe only with a healthy bridge and a ready consumer |
| `HealthObserver.HealthObserver.Schedule` | custom_components/casambi_mqtt/health.py:559-561 | Only the due time of that kind moves |
| `HealthObserver.HealthObserver.StartProbe` | custom_components/casambi_mqtt/health.py:563-573 | A probe starts only if none is pending, and sets its own next due time |
| `HealthObserver.HealthObserver.PublishResult` | custom_components/casambi_mqtt/health.py:575-582 | The newest result and the newest success of its kind are remembered |
| `Probes.ProbeTracker.Start` | custom_components/casambi_mqtt/health.py:308-320 | A start while one is pending changes nothing |
| `Probes.ProbeTracker.OnReply` | custom_components/casambi_mqtt/health.py:322-353 | A reply that is not this probe's own is counted as rejected and changes nothing else |
| `Probes.ProbeTracker.RecordRaw` | custom_components/casambi_mqtt/health.py:365-372 | A raw message is recorded only while collecting |
| `Probes.ProbeTracker.RecordProcessed` | custom_components/casambi_mqtt/health.py:374-382 | A handled message is recorded only while collecting |
| `Probes.ProbeTracker.Supersede` | custom_components/casambi_mqtt/health.py:384-400 | A probe is superseded exactly when it spans two known instances |
| `Probes.ProbeTracker.Check` | custom_components/casambi_mqtt/health.py:402-428 | A check does the specified step, whose outcomes `ProbeVerdicts.EveryOutcomeExactly` gives by the evidence of every run |
| `EntryRecovery.ReloadsAreBudgeted` | custom_components/casambi_mqtt/recovery.py:180-260 | Across failures, acknowledgements and restarts: no 1800 s interval holds three charges, consecutive charges are at least min(cooldown, 1800 s) apart, and the same holds of the reloads that ran, each charged in the store before it began |
| `EntryRecovery.RequestStartsExactly` | custom_components/casambi_mqtt/recovery.py:180-206 | A request starts a recovery if and only if none is in progress, the latch is off, and the budget and the cooldown over the recent reloads allow it |
| `EntryAnswers.RequestAnswersExactly` | custom_components/casambi_mqtt/recovery.py:180-206 | Each of the five answers to a request if and only if: in progress; latched; two charges of the last 1800 s over all charges ever made; one younger than the cooldown; none of these |
| `EntryAnswers.EveryResultExactly` | custom_components/casambi_mqtt/recovery.py:519-561 | In every run a consumer result asks for recovery if and only if it confirms the first proof that the events before it left standing; the answer is the one all charges give; recovery, latch and healthy mark are asked for exactly on theirs |
| `EntryAnswers.LatchIsSetExactly` | custom_components/casambi_mqtt/recovery.py:208-372 | In every run an event leaves the latch set if and only if it is one of the failures that latch, a failed verification only with two charges in the last 1800 s, or the latch was set and nothing cleared it |
| `EntryRecovery.OneReloadAtATime` | custom_components/casambi_mqtt/recovery.py:230-260 | While a recovery is under way no consumer result, whenever it comes, can start another |
| `EntryRecovery.ChargeNeedsTwoProofs` | custom_components/casambi_mqtt/recovery.py:152-171 | Every charge follows, since the previous one, two stale results with the bridge healthy, at least `confirm` and at most the maximum gap apart, with only busy or too-early stale results between them, provided a mark-healthy task runs its first segment before the next consumer result |
| `EntryRecovery.CooldownHonouredExactly` | custom_components/casambi_mqtt/recovery.py:188-197 | For every valid setting, any two charges of any run are at least the cooldown apart if and only if it is at most 1800 s or recovery is off |
| `EntryRecovery.ReloadsOneWindowApart` | custom_components/casambi_mqtt/recovery.py:188-197 | Whatever the cooldown, a run with two confirmed reloads exactly 1800 s apart |
| `EntryRecovery.RecentOfRecent` | custom_components/casambi_mqtt/recovery.py:142-150 | Once pruned, a list answers later questions as the whole history does |
| `EntryRecovery.ChargeKeepsBudget` | custom_components/casambi_mqtt/recovery.py:230-240 | A charge that a request allowed keeps every interval within the budget and the spacing |
| `EntryRecovery.RestartKeepsInv` | custom_components/casambi_mqtt/recovery.py:104-124 | A restart that loads what was last written keeps the budget of everything that ran |
| `EntryRecovery.RunKeepsInv` | custom_components/casambi_mqtt/recovery.py:104-372 | Budget, task and payment invariants hold after every run |
| `EntryRecovery.RecoveryManager.RecentReloads` | custom_components/casambi_mqtt/recovery.py:142-150 | The loop returns exactly the reloads inside the window |
| `EntryRecovery.RecoveryManager.RecordStale` | custom_components/casambi_mqtt/recovery.py:152-171 | True only for a second proof neither too early nor too late |
| `EntryRecovery.RecoveryManager.RequestRecovery` | custom_components/casambi_mqtt/recovery.py:180-206 | The method answers and changes state as specified |
| `EntryRecovery.RecoveryManager.ChargeBudget` | custom_components/casambi_mqtt/recovery.py:230-240 | The charge is added to the recent reloads and the streak ends |
| `EntryRecovery.HealthCoordinator.OnConsumerResult` | custom_components/casambi_mqtt/recovery.py:519-541 | Each outcome moves the streak and asks for recovery as specified; only a stale result on a healthy bridge asks for a confirming probe |
| `EntryRecovery.HealthCoordinator.OnConsumerStale` | custom_components/casambi_mqtt/recovery.py:543-561 | Disabled recovery does nothing, an unhealthy bridge clears the streak, a confirmed proof requests recovery |
| `UnitPublisher.NewestWinsWithoutLoss` | server.py:1019-1094 | After any run the payload of the last `Submit` event of each topic is pending, in flight or the last confirmed one; confirmed values of a topic are in the order of their events, and each is that of some event |
| `UnitPublisher.SubmissionsAreKept` | server.py:1019-1032 | After any run what was submitted is the `Submit` events of the run, each with its topic, payload and number |
| `UnitPublisher.PendingTopicKeepsItsTurn` | server.py:1034-1094 | A topic with k ahead of it keeps its turn over the next k pops, whatever is resubmitted or fails |
| `UnitPublisher.TopicIsPoppedInTurn` | server.py:1038-1046 | A topic with k ahead of it is taken by exactly the (k+1)-th pop from then on |
| `UnitPublisher.AttemptsAddUp` | server.py:1044-1092 | After any run attempted equals confirmed plus failed plus in flight |
| `UnitPublisher.PendingWorkIsNeverStranded` | server.py:1034-1094 | A waiting worker with pending work has its wakeup set |
| `UnitPublisher.IdleMeansDrained` | server.py:1096-1108 | Idle implies nothing pending or in flight, and the payload of every topic's last `Submit` event is its last confirmed one |
| `UnitPublisher.AssignInPlace` | server.py:1019-1032 | Resubmitting a pending topic keeps its place in the dictionary |
| `UnitPublisher.AssignAtEnd` | server.py:1060-1068 | A new topic goes to the back |
| `UnitPublisher.UnitStatePublisher.Submit` | server.py:1019-1032 | The update joins the submitted ones and its payload is the one that now waits for its topic, in the place the topic had |
| `UnitPublisher.UnitStatePublisher.TakeNext` | server.py:1040-1052 | Pops the oldest topic, or reports idle and waits |
| `UnitPublisher.UnitStatePublisher.PublishConfirmed` | server.py:1084-1092 | A confirmed publish ends the failure streak and the loop goes on |
| `UnitPublisher.UnitStatePublisher.Requeue` | server.py:1060-1068 | A failed value goes to the back unless a newer one of its topic is waiting |
| `UnitPublisher.UnitStatePublisher.PublishFailed` | server.py:1053-1083 | A failed publish is counted once, requeued, and the worker backs off |
| `UnitPublisher.UnitStatePublisher.BackoffElapsed` | server.py:1070-1094 | After the backoff the worker wakes itself |
| `Snapshot.QuoteIsInjective` | server.py:907-916 | Percent-encoding (section 2.1 of RFC 3986) never maps two texts to one |
| `Snapshot.AddresslessTopicsAreDistinct` | server.py:1154-1164 | No two addressless units of one snapshot are published on one topic |
| `Snapshot.PublishableExactly` | server.py:1218-1240 | A unit is published if and only if it has an address, or a nonempty UUID that no other addressless unit carries |
| `Snapshot.TopicsCollideExactly` | server.py:907-916 | Two units share a topic if and only if they share their address, or as addressless units their UUID, or the address of one spells the `uuid/` part of the other |
| `Snapshot.UnitTopicsAreHeard` | custom_components/casambi_mqtt/health.py:279-281 | Every unit topic is one the receiver takes for a unit, and the tombstone is not |
| `Snapshot.SceneTopicsAreDistinct` | server.py:1255-1270 | No two scenes share a topic |
| `Snapshot.CountUuids` | server.py:1218-1240 | The counting table agrees, for every UUID, with counting over all units |
| `Snapshot.PublishSnapshot` | server.py:1218-1279 | The tombstone, every publishable unit and every scene is attempted once, in order, and the counters are what the broker confirmed |
| `Snapshot.CountersConserve` | server.py:1218-1279 | Units plus scenes plus failed plus skipped plus a confirmed tombstone equals all units plus all scenes plus one |
| `Snapshot.OkExactlyWhenAllConfirmed` | server.py:1218-1279 | A snapshot is ok if and only if the tombstone, every publishable unit and every scene was confirmed |
| `Snapshot.HandleSnapshotRequest` | server.py:1304-1345 | An ok reply is sent if and only if everything of its snapshot was confirmed, and it carries that snapshot's counters and number |
| `Startup.Stage.Run` | server.py:1856-1905 | For any behaviour: at most six attempts, in order, never two pieces of work alive at once, each earlier attempt and its cleanup finished first, only transient failures retried, wedged, cancelled and failed stages told apart, and the total time bounded |
| `Startup.Stage.RunBounded` | server.py:1817-1843 | Whenever the operation would end or unwind, if ever, and whenever the caller is cancelled: it takes at most the limit plus the grace, ends as that operation must, and leaves nothing running unless it wedged or the caller was cancelled |
| `Startup.Stage.Wait` | server.py:1828-1838 | One wait ends when the operation is done, at its timeout, or when the caller is cancelled, whichever is first |
| `Startup.Stage.RunAttempt` | server.py:1876-1893 | One attempt and its bounded cleanup take at most one attempt limit, and end in a classified failure or in the end of the stage |
| `Startup.Stage.Pause` | server.py:1902-1904 | The pause lies between the backoff and 1.2 times the backoff unless it is cancelled |
| `Startup.SixAttempts` | server.py:1868-1905 | Six attempts take at most six times the deadline plus 30 s, plus 1.2 times 31 s |
| `Startup.ClassifiedExactly` | server.py:1782-1803 | Each category if and only if the marks of the error and the stage say so, and exactly busy or failing Bluetooth, timeouts and an absent network are retried |
| `Startup.BackoffIsBounded` | server.py:1806-1814 | The jittered backoff of each retry lies between its base and 1.2 times its base, which starts at one second and doubles |
| `SwitchDecoder.ParseInvocationStream` | switch_decoder.py:139-178 | For every byte string: the input is the serialisation of the parsed frames plus a remainder that begins no complete frame |
| `SwitchDecoder.ParseInvertsPrint` | switch_decoder.py:139-178 | Parsing serialised frames followed by an incomplete tail returns exactly those frames |
| `SwitchDecoder.SpellsIsUnique` | switch_decoder.py:139-178 | A byte string spells at most one list of frames |
| `SwitchDecoder.IncompleteExactly` | switch_decoder.py:148-170 | A tail begins a frame if and only if it has a header and the length its own flags announce |
| `SwitchDecoder.HeadFrame` | switch_decoder.py:148-176 | The frame read from the front is well formed and serialises to exactly those bytes |
| `SwitchDecoder.PressAndReleaseNeverCollide` | switch_decoder.py:228-265 | A press and a release never share a key, and both come from the button stream only |
| `SwitchDecoder.RecognisedIsPublishable` | switch_decoder.py:228-265 | Every recognised frame lies in the published ranges |
| `SwitchDecoder.SwitchEventDecoder.IsRetransmit` | switch_decoder.py:203-211 | The table answers as the unbounded history: suppressed exactly when the key was emitted less than 0.5 s before |
| `SwitchDecoder.SwitchEventDecoder.Expire` | switch_decoder.py:213-217 | Exactly the entries that can no longer suppress anything are dropped |
| `SwitchDecoder.SwitchEventDecoder.DecodeFrame` | switch_decoder.py:228-265 | A frame yields an event if and only if its fields signal it and its key was not emitted less than 0.5 s before: target type 0x06 with opcodes 29 to 36 a press or, with bit 0x02 of the origin, a release; 0x12 with 64 to 71 a hold for 0x09 and its end for 0x0C |
| `SwitchDecoder.MeaningOnTheWire` | switch_decoder.py:139-265 | The same on the bytes of the packet: which event, of which unit, button and key, they spell, and nothing else |
| `SwitchDecoder.PacketOfOneFrame` | switch_decoder.py:219-265 | A packet of one frame yields exactly the event its bytes spell, unless its key was emitted less than 0.5 s before |
| `SwitchDecoder.SwitchEventDecoder.Decode` | switch_decoder.py:219-226 | A packet yields exactly the events an observer that forgets nothing would return |
| `RecencyTable.LookupMatchesHistory` | switch_decoder.py:203-211 | A pruned table answers as the full history |
| `RecencyTable.PurgeKeepsAgreement` | server.py:729-741 | Purging expired entries changes no later answer |
| `RecencyTable.RecordKeepsAgreement` | switch_decoder.py:203-211 | Recording an acceptance keeps table and history in agreement |
| `RecencyTable.KeptIsSpaced` | switch_decoder.py:203-217 | Accepted entries of one key are at least one window apart |
| `RecencyTable.SpacedIsKept` | server.py:743-763 | Entries of each key at least one window apart are all accepted |
| `SwitchPublisher.SwitchEventPublisher.Publish` | server.py:743-763 | An event is sent exactly when it is well formed and no event of its key was sent within the window, by the full history |
| `SwitchPublisher.SwitchEventPublisher.PurgeExpired` | server.py:729-741 | The purge removes exactly the entries that can no longer suppress anything |
| `SwitchPublisher.SwitchEventPublisher.Enqueue` | server.py:765-779 | An event is dropped, and counted, only when 64 are waiting |
| `SwitchPublisher.KeysAgreeExactly` | server.py:672-690 | Two events share a key if and only if they share their decoder identity, or neither has one and all public fields agree |
| `SwitchPublisher.SwitchEventPublisher.WorkOnce` | server.py:781-792 | Events leave the queue in the order they entered it |
| `SwitchPublisher.PipelineLosesNothing` | server.py:672-690 | With a queueing delay of at most 0.25 s every event the decoder emitted that found room in the queue is published when it is taken |
| `SwitchPublisher.EnqueuedEventIsSent` | server.py:743-792 | Fed by the decoder and taking every event within 0.25 s, the publisher has published all it took, and its next turn publishes the next event |
| `SwitchPublisher.LongerDelayCanLose` | server.py:672-690 | For every longer delay some pair of genuine events loses one |
| `SwitchPublisher.DecoderEventsAreSanitized` | server.py:640-657 | No decoder event is rejected as malformed, and its identity is its key |

## Left out

- The real service manager, `/proc`, locks, symlinks and atomic replacement: the service manager answers arbitrarily, the state file is a value replaced at once, and two passes never overlap.
- State file removed or rewritten from outside during a run: runs start without a file, and only saves and the operator reset change it. What any document loads as is covered on its own.
- Cross-boot budgets: charges are counted within one boot; across boots only the wall clock is left, and the bound would rest on it.
- An unreadable boot identifier: it is readable or not for a whole boot; charges of a boot without one are not counted by the budget lemmas.
- Clock readings inside one call: `observe` and `decide` read the clock once each here, and a charge is stamped when it is saved. Time passes between the calls.
- Parsing of `systemctl show` output and of the health record: both arrive as validated values; a process identifier is compared as a number.
- The validity pattern of exit statuses, the command-line entry points `status` and `record-exit`, and settings parsing beyond its ranges.
- How many exits a supervisor pass may find: the exit log is trimmed to 64 as in the source, and what is trimmed is lost here too.
- Liveness of the supervisor: nothing says that a pass is ever run.
- A boot identifier is never used again: no later boot has the identifier of an earlier one, or of an exit recorded before the installation.
- Home Assistant entities, config flow, repairs, device triggers, notifications, entry removal and `_compute`: wrappers over an unseen framework, or single reads.
- `_async_verify`'s polling and its targets: verification returns true or false at any time.
- The asyncio scheduler, aiomqtt, CasambiBt and BlueZ: only success, failure, cancellation, time and their order remain. When an operation is done at the very moment of a deadline or a cancellation, it counts as done first; a caller is cancelled once.
- EntryRecovery.ChargeNeedsTwoProofs: assumes that a mark-healthy task runs its first segment before the next consumer result, because otherwise the streak it is about to clear can still be confirmed.
- Closing the publishers with a drain timeout, and their start.
- JSON text, UTF-8 encoding, floating-point rounding and the time string of a status: documents are values, bytes are given, arithmetic is exact.
- Logging, redaction, diagnostics fields that only count, and the health record file the bridge writes.
- Settings and command schema validation and exit-code mapping: valid settings are preconditions (a positive reload cooldown, the supervisor's ranges where a lemma needs them).
- The units of a network do not change during one snapshot, and a unit is its address and UUID; an error other than the broker's, which would end the snapshot, does not occur.
- The health phases `run_startup_stage` reports while it retries.
- Fields of a health reply that are all present or all absent in a valid reply are one optional group, so a reply value with only some counters cannot be built here.
- EntryRecovery.RunKeepsInv: assumes a wall clock that does not go back, because a reload stamped in the future counts as recent and the bound is stated on stamps.
