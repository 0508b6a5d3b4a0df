# Henk event core: a verified model

Henk is a home-lab agent. Alerts reach it on an ntfy topic, are debounced, held while a
maintenance window is open, screened by a cadence policy (cooldown, recurrence, cap), triaged by
an agent session and written to an audit log. A durable cursor says how far the topic has been
consumed, and a second task releases held windows through the same policy and queue. The process
may die at any point. This project models that pipeline, the local-time resolver, the text and
budget algorithms, the approval gate and the reminder scheduler, and proves what each is for.

`dafny verify dfyconfig.toml` checks everything.

## How it is organised

**The event protocol.** `Protocol` is a transition system over three durable stores (audit log,
hold rows, cursor) and the volatile rest (cooldowns, in-flight windows, queue, latch). A crash may
fall between any two durable writes, and `Run` is any legal sequence of steps with any number of
crashes and restarts. `ProtocolInvariant` states the inductive invariant: every cooldown in memory
is backed by a durable record, a queued turn the cursor has not passed, the latch, or a window in
flight. `ProtocolCore`, `ProtocolDispatch`, `ProtocolRelease`, `ProtocolExtend` and
`ProtocolEnvironment` prove that each step keeps it. `ProtocolTheorems`, `ProtocolFates` (what
becomes of a held alert), `ProtocolCap` and `CapRuns` (the cap from above and exactly) and
`ProtocolProgress` (the cursor keeps up) draw the promises; `ProtocolRepass` is the converse of
the one hypothesis `ProtocolFates` needs, and `ProtocolCounterexamples` exhibits the runs that
break the promises when a hypothesis is dropped.

**The objects.** The source's classes are Dafny classes with the same fields: `EventPipeline`
(`Cadence`), `HoldLedger` (`Holds`), `Debouncer` (`Debounce`), `AgentCore` (`Core`),
`EventCoordinator` (`Coordinator`), `MaintenanceWindows` (`Calendar`), `HoldReleaser`
(`Releaser`), `EventIntake` (`Intake`), `ApprovalGate` (`Gate`), `ReminderScheduler`
(`Reminders`). Their methods are proved against functions on values. The core, the coordinator and
the releaser are proved to perform exactly protocol steps (`Mirrors`, `Follows`, `Ready`), so the
theorems about the protocol are about them; the coordinator's loop is at the same time a run of
the `CatchUp` system. `Partition` is the hold partition, `HoldLaws` what holding and marking do to
the store, `Releasing` the verdicts of a release tick, `Verdicts` and `ReleaseTicks` what they
mean, `HoldBounds` how long holding can last.

**Local time.** `TimeZones` is a zone as a list of transitions, spaced wider than their jumps, with
the fold rules of PEP 495; `TimeParse` is classification, the bisection for refused readings, and
resolution of dated and bare HH:MM readings.

**Text and budgets.** `Markers` and `Composition` (marker neutraliser, pieces and joins), `MarkerLaws`
(what neutralising leaves alone), `Digest`, `DigestText`, `DigestPlain`, `DigestLaws`,
`EntryLaws` and `RefStates` (selection, two-pass fill, rendered text, order), `Recall` (remembered facts), `CalendarTitle` (a
title in the framing), `EventTurn` and `TurnShows` (the whole composed turn, and what it shows),
`Split` (UTF-8 splitter), `Styled` (prompt escaping).

**Gate and reminders.** `GateRuns` and `ReminderRuns` are transition systems around `Gate` and
`Reminders`; `GateLaws` and `ReminderWork` say what their decisions mean.

## Where the code and its documentation part

- The release promise needs every dispatch to pass on only events that are not held. The
  coordinator documents that an unreadable duplicate check drops nothing
  (henk/events/coordinator.py:196-204); but a held event passed on again arms a cooldown that a
  later release trusts. `ProtocolFates` proves the promise for every run in which no held event
  was passed on, and `ProtocolRepass.RepassedAlertCanBeLost` that at any step that passes one on,
  with the held row all that still covers the alert, the run can go on to lose it.
  `ProtocolCounterexamples.UnreadDuplicateCheckDropsAnAlert` is such a run from the first start.
- A release turn's framing shows the calendar title neutralised first and stripped of delimiters
  second (henk/agent/triage.py:305, henk/tools/calendar.py:131-146), so stripping can put a marker
  back together although the note is documented not to let a title forge one. A release turn has
  one untrusted block if and only if its title as shown holds no marker
  (`EventTurn.ReleaseTurnHasOneBlockIff`); a title without `<<<` and `>>>` shows none
  (`EventTurn.PlainTitleShowsNoMarker`), and `EventTurn.SplitMarkerIsShown` gives one that shows a
  marker.
- Intake documents exactly-once delivery. Without a stored offset that holds from the first
  delivery on only: `Intake.ColdStartMissesAnOutage`.
- A stored window end need not stay within the longest window of the *earliest* publish time it
  holds. No extension passes that bound (`HoldBounds.ExtensionWithinEarliest`); a later hold can,
  of an event published earlier, after the calendar moved the window earlier. It holds over a run
  if and only if every hold found the stored end within the longest window of its event
  (`HoldBounds.EarliestBoundIff`); `HoldBounds.MovedEarlierPassesTheBound` is a run that breaks it.
  The bound by the first row held, in holding order, always holds.
- The bisection for an imaginary reading truncates toward zero, so before 1970 a reading with a
  fraction of a second may land one second late; `TimeParse.FindTransition` says exactly when, and
  `TimeParse.HalfSecondLandsLate` is such a reading.
- A crash limit of one, which configuration accepts, lets a reminder exit unreported with no crash:
  `ReminderRuns.LimitOfOneExitsSilently`; from two on it cannot (`NoReminderExitsSilently`).
- An unstyled prompt value ending in `>` does not read back as itself; `Styled.UnstyledReadsBack`
  is the exact condition.
- A taint source approved after its turn ended taints nothing: `GateRuns.LateApprovalTaintsNothing`.

## Hypotheses

Topic ids are nonempty and distinct, so a position stands for an id; the topic keeps every message;
the server rejects a resume id it does not know, and serves from just after one it does;
the wall clock does not go back, and stands still inside one dispatch or one release tick, which
never suspend. An append to the audit log is all or nothing (henk/audit/logger.py:557-560), and
an audit log is always configured (henk/runtime.py:115). A rehydration reads the whole log.
Identity derivation is an uninterpreted function of title and message that never gives an empty
key. A session for an event turn opens without raising: without this an alert is lost
(`ProtocolCounterexamples.RaisingSessionLosesAnAlert`). `dispatch_batch` does not raise. An
outcome is a durable record, not a message the owner has seen: the send follows the write, and a
graceful shutdown in mid-triage writes a record too (henk/agent/core.py:903). Nothing but the modelled
policy arms a cooldown.

## Model

| member | source | states |
|---|---|---|
| ProtocolTheorems.NoAlertIsLost | henk/events/coordinator.py:147-183 | after any run with crashes and restarts anywhere, every message at or before the durable cursor has a held row, or a durable triage record of its identity no older than one cooldown before it was published |
| ProtocolFates.MarkingDropsNoAlert | henk/events/release.py:121-160 | the very step that marks a window released leaves each identity it forwards with a durable triage record recent for each of its rows, or with an unheld message after the cursor that a restart dispatches; no third case |
| ProtocolFates.ReleasingDropsNoAlert | henk/events/release.py:121-160 | at any later time each such identity is recorded recently, awaits replay, or was held again after every row of the window, where it waits in an unreleased window or recovered |
| ProtocolFates.EveryRowEnds | henk/events/holds.py:70-88 | every held row ends: recorded recently, awaiting replay, or at rest in that row or a later one; later rows follow the whole window, so the chain is finite |
| ProtocolFates.EveryAlertHasAFate | henk/events/coordinator.py:147-183 | from publication to that end: every message at or before the cursor is recorded recently or was held as a row that ends |
| ProtocolFates.ReadChecksRepassNothing | henk/events/coordinator.py:185-225 | when every duplicate check was read, no held event was passed on, so the promises above hold |
| ProtocolRepass.RepassedAlertCanBeLost | henk/events/coordinator.py:196-204 | the converse: after any dispatch that passes on an event whose held row is all that covers it, in a window that could be released, some continuation releases the window and leaves the alert none of those ends |
| ProtocolTheorems.OneReceiptPerWindow | henk/events/holds.py:238-281 | over all runs a window gets at most one hold-release record; it is a released window's, counts the rows the window holds for good, and held is recovered plus forwarded |
| ProtocolTheorems.ReceiptMatchesTurn | henk/events/holds.py:238-281 | for a release with a turn the record's counts are the ones that turn carried, however long triage took |
| ProtocolTheorems.RestartCooldownIsRecorded | henk/events/pipeline.py:112-180 | right after any restart an identity is in cooldown if and only if a durable triage record still within its cooldown names it |
| ProtocolTheorems.StepKeepsInv | henk/agent/core.py:577-627 | every step keeps the backing invariant: cooldowns backed, dispatched messages accounted for, releases settled |
| ProtocolTheorems.RunKeepsInv | henk/events/coordinator.py:147-183 | so does every run |
| ProtocolExtend.ExtendKeepsInv | henk/events/release.py:162-177 | moving a stored end changes no outcome of any message or release |
| ProtocolCap.CapHoldsAcrossRestarts | henk/events/pipeline.py:255-265 | over any number of restarts no window of the cap's length holds more than the cap of announceable decisions whose records were written |
| ProtocolCap.RehydrateCounts | henk/events/pipeline.py:173-180 | a restart counts from the records alone at least every recorded announceable decision still in a window |
| CapRuns.SilencedIffWindowFull | henk/events/pipeline.py:255-265 | at any point of any run a turn is silenced if and only if the cap of announcements was made in the window ending then, restarts and their records counted; an announced turn tells how many were silenced since the one before |
| CapRuns.RestartRemembers | henk/events/pipeline.py:155-180 | a restart reads back from the records exactly the announcements still in a window and the count of turns silenced since the last |
| ProtocolProgress.HealthyCursorCatchesUp | henk/agent/core.py:577-627 | the other half of losing nothing: from any restart on, while writes succeed, the cursor stands, once the queue is worked off, at all that was dispatched |
| ProtocolProgress.QueueWorksOff | henk/agent/core.py:344-358 | and the core alone can always work the queue off |
| ProtocolCounterexamples.UnreadDuplicateCheckDropsAnAlert | henk/events/coordinator.py:196-204 | a concrete run in which an unread duplicate check leaves a forwarded identity with no record, no replay and no other row |
| ProtocolCounterexamples.RaisingSessionLosesAnAlert | henk/agent/core.py:866-885 | a concrete run in which an exception while opening the session takes the cursor past two messages without outcome |
| ProtocolRuns.ReachesIsRun | henk/events/coordinator.py:147-183 | the form in which the objects state what they did, a chain of worlds, is the same as a legal run |
| Cadence.ScreenPartitions | henk/events/pipeline.py:182-246 | an identity of a batch is suppressed exactly when it is in cooldown and triaged exactly when it is not |
| Cadence.ScreenCountsIdentities | henk/events/pipeline.py:182-246 | items plus suppressions count each identity of the batch once |
| Cadence.ScreenKeepsEvents | henk/events/pipeline.py:182-246 | each triaged item is an event of the batch, framed from the state before the batch |
| Cadence.ScreenTakesFirsts | henk/events/pipeline.py:182-246 | triaged and suppressed are the first events of their identities, in batch order; a triaged one recurs if and only if its identity was triaged within the window, and then carries the reference kept |
| Cadence.AnnouncedIffRoom | henk/events/pipeline.py:182-246 | a turn comes of a batch if and only if some identity is out of cooldown; it is announceable if and only if fewer than the cap of announcements are in the window, and tells the count silenced before it |
| Cadence.EvaluateArms | henk/events/pipeline.py:182-246 | deciding on a turn starts the cooldown of exactly the identities it triages, and without a turn nothing changes |
| Cadence.FirstMatchDecides | henk/events/pipeline.py:248-253 | the first override that matches decides, the default only without one |
| Cadence.CooldownWithinWidest | henk/events/pipeline.py:248-253 | no override outlives the window rehydration filters by |
| Cadence.RehydrateArmsNewest | henk/events/pipeline.py:112-180 | a rehydrated process holds for each key the newest eligible triage, whatever the order of the log |
| Cadence.RehydrateRefersToNewest | henk/events/pipeline.py:112-180 | an identity's prior reference after a restart is the handoff of its newest triage in the recurrence window that left one |
| Cadence.RestartSimulatesCooldown | henk/events/pipeline.py:112-180 | whatever the old process would suppress because of a recorded triage, the new one suppresses too, at every later time and for every override |
| Cadence.RestartInventsNoCooldown | henk/events/pipeline.py:112-180 | and only what some record within its cooldown justifies |
| Cadence.EventPipeline.EvaluateBatch | henk/events/pipeline.py:182-246 | decision and new state are those of the policy function on the old state |
| Cadence.EventPipeline.CapGate | henk/events/pipeline.py:255-265 | announceable if and only if fewer than the cap of announcements are in the window; the suppressed count is surfaced and cleared, or raised by one |
| Cadence.EventPipeline.RehydrateFrom | henk/events/pipeline.py:112-180 | the loop over the records is the replay of the eligible ones in time order |
| Cadence.EventPipeline.CooldownSeconds | henk/events/pipeline.py:248-253 | the first matching override, else the default |
| Holds.GroupsBalance | henk/events/holds.py:70-88 | held identities are the recovered plus the forwarded ones |
| Holds.ForwardedIffLatestUnresolved | henk/events/holds.py:70-88 | a row is forwarded exactly when it is its identity's latest and not resolved |
| Holds.GroupHeld | henk/events/holds.py:70-88 | the last-wins map and the pass over it compute that grouping |
| Holds.RebuildKeepsIdentity | henk/events/holds.py:91-104 | a release derives from a stored row the key it was stored under, and its id and publish time |
| Holds.HoldEventOutcome | henk/events/holds.py:151-224 | held if and only if new, readable and some active window is open, then in the open window with the latest end; otherwise nothing changes |
| Holds.ClosedWindowTakesNoRows | henk/events/holds.py:151-224 | a released or in-flight window takes no rows |
| HoldLaws.LatestOpenIs | henk/events/holds.py:151-224 | an event goes to the open window that comes last by end, then start, then id |
| HoldLaws.HoldStores | henk/store/holds.py:195-255 | a held event is one more row, and its window is stored as the calendar has it when it is the first |
| HoldLaws.ExtendMeans | henk/store/holds.py:257-268 | extending moves the end of an unreleased window and nothing else |
| HoldLaws.MarkMeans | henk/events/holds.py:238-281 | marking releases an unreleased window once, with one record if the log takes it, and always ends its flight, unless the store fails |
| HoldLaws.RowsInOrder | henk/store/holds.py:183-193 | rows come back by publish time, those of one instant in the order held |
| Holds.HoldLedger.HoldOne | henk/events/holds.py:151-224 | the method does that to its fields |
| Holds.HoldLedger.BeginRelease | henk/events/holds.py:228-236 | exactly this window is in flight with these identities |
| Holds.HoldLedger.Mark | henk/events/holds.py:238-281 | marks once, writes one record with the window's counts, takes the window out of flight; a failing store changes nothing |
| Holds.HoldLedger.MoveEnd | henk/store/holds.py:257-268 | moves the end of an unreleased window only |
| Holds.HoldLedger.KnownIds | henk/store/holds.py:127-139 | the ids asked for that are held |
| Core.AgentCore.ProcessHead | henk/agent/core.py:344-358 | one queue item is exactly the protocol steps its durable writes name, in that order |
| Core.AgentCore.FlushEventTriage | henk/agent/core.py:577-620 | record, handoff noted under every item, then mark or cursor; a failed record latches and leaves window and cursor alone |
| Core.AgentCore.NoteHandoffs | henk/agent/core.py:591-593 | every item of the turn learns the handoff, or none when there is none |
| Core.AgentCore.AdvanceCheckpoint | henk/agent/core.py:622-627 | the cursor is frozen once any record failed |
| Core.AgentCore.Submit | henk/agent/core.py:317-331 | first in, first out |
| Debounce.FeedAllConserves | henk/events/pipeline.py:64-94 | the batches cut from a stream concatenate to the stream |
| Debounce.FeedAllSpaces | henk/events/pipeline.py:64-94 | and the cuts fall exactly where an event arrives more than one window after the first of its batch |
| Debounce.Debouncer.Add | henk/events/pipeline.py:72-85 | one event, as the fold over the stream takes it |
| Debounce.Debouncer.Flush | henk/events/pipeline.py:87-94 | gives up the open batch |
| CatchUp.EventsAreConserved | henk/events/coordinator.py:274-353 | over any run received events equal dispatched, in dispatch, ready, open batch and queue, in order |
| CatchUp.CaughtUpIsSound | henk/events/coordinator.py:98-143 | when it holds everything received was dispatched, and the current subscription's whole backlog with it |
| CatchUp.CaughtUpIff | henk/events/coordinator.py:98-143 | it holds if and only if a keepalive came on the current subscription, all ever received is dispatched, and the last dispatch returned |
| CatchUp.SubscribedIs | henk/events/coordinator.py:98-113 | a subscription is open exactly when the last such step was its beginning |
| CatchUp.FirstSubscribeIs | henk/events/coordinator.py:98-102 | the first subscribe attempt is kept, whatever came after |
| CatchUp.CanCatchUp | henk/events/coordinator.py:274-353 | once a subscription's backlog has come, a keepalive is all the loop needs from outside to be caught up |
| Partition.PartIsSound | henk/events/coordinator.py:185-225 | every dropped event is held, held ids grow only by dropped ones |
| Partition.PartApportions | henk/events/coordinator.py:185-225 | an event is passed on if and only if it is not known held and, with windows wired, no open window active for it could take it; each new one that can be taken is held, in a window with the latest end |
| Partition.SurvivorsUnheld | henk/events/coordinator.py:185-225 | with the duplicate check read no survivor is held |
| Partition.DispatchIsRun | henk/events/coordinator.py:147-183 | partition and dispatch of a batch are a legal run of the protocol |
| Coordinator.EventCoordinator.NoteSubscribe | henk/events/coordinator.py:98-102 | one step of the catch-up system |
| Coordinator.EventCoordinator.IsCaughtUp | henk/events/coordinator.py:129-143 | answers the catch-up system's question from the fields |
| Coordinator.EventCoordinator.TakeFirst | henk/events/coordinator.py:274-333 | one step of the catch-up system |
| Coordinator.EventCoordinator.TakeNext | henk/events/coordinator.py:274-333 | one step of the catch-up system |
| Coordinator.EventCoordinator.FlushReady | henk/events/coordinator.py:327-333 | the ready batches, then the open one, and nothing stays |
| Coordinator.EventCoordinator.PartitionHolds | henk/events/coordinator.py:185-225 | survivors in batch order, and the ledger the partition leaves |
| Coordinator.EventCoordinator.WriteSuppressions | henk/events/coordinator.py:227-241 | true if and only if every suppression was persisted |
| Coordinator.EventCoordinator.HoldAndSubmit | henk/events/coordinator.py:147-183 | holds, evaluates, submits one turn, or one marker if every suppression persisted, or nothing |
| Coordinator.EventCoordinator.DispatchBatch | henk/events/coordinator.py:147-183 | leaves the objects where one run of the protocol leaves its world |
| Coordinator.EventCoordinator.FlushAndDispatch | henk/events/coordinator.py:274-316 | all that was received before the flush is dispatched, batch by batch in order, as steps of both systems |
| Coordinator.EventCoordinator.SubmitRelease | henk/events/coordinator.py:243-270 | the window is in flight with the turn's identities if and only if a turn was queued |
| Calendar.MaintenanceWindows.Refresh | henk/calendar/windows.py:261-311 | a failed read keeps the old snapshot whole |
| Calendar.HoldingIs | henk/calendar/client.py:206-221 | with all three switches on, exactly the timed entries that do not end before they start and are no longer than the maximum hold alerts |
| Calendar.MaintenanceWindows.Active | henk/calendar/windows.py:141-150 | active windows are stored, admissible and cover the instant; a stale snapshot has none; a fresh snapshot misses none |
| Calendar.MaintenanceWindows.ActiveWindow | henk/calendar/windows.py:152-164 | the first active window with that id |
| Releasing.ExtensionMovesLater | henk/events/release.py:162-177 | an extension moves the stored end strictly later |
| Releasing.StoredEndIsBounded | henk/events/release.py:162-177 | over every run a stored end is at most the publish time of the window's first held row plus the longest window |
| HoldBounds.ExtensionWithinEarliest | henk/events/release.py:162-177 | no extension passes the earliest publish time plus the longest window when it is made |
| HoldBounds.EarliestBoundIff | henk/events/release.py:162-177 | over every run that bound holds if and only if every hold into the window found the stored end within the longest window of its event |
| HoldBounds.MovedEarlierPassesTheBound | henk/store/holds.py:195-255 | a run in which a calendar change between two holds breaks it |
| Releasing.PastBoundCannotDefer | henk/events/release.py:121-183 | past that bound, grace and fallback, a tick releases the window unless a shared identity is in flight |
| Verdicts.VerdictMeans | henk/events/release.py:121-183 | each of the six verdicts exactly when its reason holds: stored end and grace, rows, calendar, keepalive or fallback, identities in flight |
| ReleaseTicks.TickReleasesIff | henk/events/release.py:104-160 | a tick lets a window go if and only if it is past its end and grace, has rows, is no longer shown by the calendar, the stream was caught up or the fallback has passed, no identity of it is in flight at its turn, and a mark it needs is stored |
| ReleaseTicks.TickExtendsIff | henk/events/release.py:104-177 | a tick moves a stored end if and only if the window is due, has rows and is still shown, and then to the end shown |
| ReleaseTicks.ReleasesOnlyWhatWasRead | henk/events/release.py:121-183 | what a tick lets go had its subscription's whole backlog and all received dispatched, or the fallback had passed since both its grace and the first subscribe |
| Releaser.TickIsRun | henk/events/release.py:104-119 | a tick is a legal run of the protocol |
| Releaser.HoldReleaser.Judge | henk/events/release.py:121-160 | waits for the stream exactly while the loop is not caught up and the fallback not past, and goes exactly when ripe, read and unshared |
| Releaser.HoldReleaser.ConsiderWindow | henk/events/release.py:121-160 | leaves the objects where the verdict's one protocol step leaves the world |
| Releaser.HoldReleaser.Tick | henk/events/release.py:104-119 | every window in order, each judged where the last one left the ledger |
| Releaser.HoldReleaser.Extends | henk/events/release.py:162-177 | the new end, when the calendar still shows the window and it covers the first held event |
| Intake.DeliversExactlyOnceInOrder | henk/events/intake.py:191-318 | over any run whose failures are no 400, whatever else drops, trips or ends the stream, delivery is consecutive, without repeats, and complete from a known offset |
| Intake.UnrefusedDeliversInOrder | henk/events/intake.py:191-318 | the same of any run in which no real resume point is answered with a 400 |
| Intake.FailureMeans | henk/events/intake.py:266-318 | a 400 against a real resume point gives it up for a full replay, at once the first time; any other failure keeps it and waits |
| Intake.EndingMeans | henk/events/intake.py:266-318 | every ended connection leaves one wait, none only for the first refused resume point |
| Intake.ResumePointIsNewest | henk/events/intake.py:163-190 | over any run the resume point is the newest message delivered, or the offset before any, or given up to a refusal |
| Intake.PenaltyCountsFailures | henk/events/intake.py:329-346 | the wait is set by the failures and ends since the last proof of life, an immediate reconnect not counted |
| Intake.DelayDoubles | henk/events/intake.py:391-409 | the first wait is the base, each further one twice the last up to the maximum |
| Intake.ColdStartMissesAnOutage | henk/events/intake.py:163-190 | without an offset a subscription lost before its first delivery misses a message |
| Intake.NoRetainedMessageIsSkipped | henk/events/intake.py:191-318 | with rejections too, nothing after the process's offset is skipped before something later is delivered |
| Intake.ControlFramesKeepResumePoint | henk/events/intake.py:203-264 | a control frame never moves the resume id |
| Intake.RecoveryIsBounded | henk/events/intake.py:411-422 | one immediate reconnect per process, every other wait at least the base delay, and no second rejection without a delivery between |
| Intake.DelayGrows | henk/events/intake.py:391-409 | waits grow and stay within the maximum |
| Intake.EventIntake.OnFrame | henk/events/intake.py:203-264 | resume id, penalty and delivery as the system says |
| Intake.EventIntake.OnFailure | henk/events/intake.py:266-318 | a status other than 400 keeps resume id and recoveries and waits the delay; a 400 against a real one moves to the sentinel, without a wait the first time |
| Intake.EventIntake.Backoff | henk/events/intake.py:391-409 | the delay of this penalty, then one more |
| Watchdog.OpensDoNotExtend | henk/events/intake.py:203-264 | without proof of life the connection is over by the deadline, however many open frames arrive |
| Watchdog.LiveStreamsNeverTrip | henk/events/intake.py:329-346 | a stream whose proof-of-life gaps stay under the deadline never trips, however slow the consumer is |
| Watchdog.BudgetsStayPositive | henk/events/intake.py:203-264 | no frame is awaited on an expired budget |
| Watchdog.Consume | henk/events/intake.py:203-264 | the loop's fate is the recursion's, and a trip is never early |
| TimeZones.ClassifyIsExact | henk/reminders/timeparse.py:214-251 | normal, imaginary or ambiguous exactly when one, no or two instants show the reading; fold 0 is the earlier instant, or the later pseudo-instant in a gap (PEP 495) |
| TimeZones.WallsOrdered | henk/reminders/timeparse.py:214-251 | wall readings of well-spaced transitions come in order |
| TimeParse.FindTransition | henk/reminders/timeparse.py:254-283 | the bisection ends at the transition, or exactly one second late when truncation put its lower end past it |
| TimeParse.GapNeighbours | henk/reminders/timeparse.py:254-283 | for every imaginary reading both named neighbours exist: the end of the gap and a minute before its start, each moved by the second a late bisection adds |
| TimeParse.HalfSecondLandsLate | henk/reminders/timeparse.py:254-283 | a zone and a reading before 1970 with a fraction of a second for which the bisection lands late |
| TimeParse.LateNeedsFraction | henk/reminders/timeparse.py:254-283 | only such readings can |
| TimeParse.WholeGapIsImaginary | henk/reminders/timeparse.py:254-283 | every reading between them is imaginary |
| TimeParse.DatedIsFirstShowing | henk/reminders/timeparse.py:381-400 | refused as nonexistent exactly when no instant shows it, else the first that does, with the right disclosure |
| TimeParse.NextOccurrenceIsNext | henk/reminders/timeparse.py:402-449 | an accepted HH:MM is strictly after now, shows HH:MM, and is the least such instant today, or if today has none, tomorrow |
| TimeParse.NextOccurrenceRefusal | henk/reminders/timeparse.py:478-501 | refused as nonexistent exactly when no instant shows the reading selected |
| TimeParse.NextOccurrenceIsReachable | henk/reminders/timeparse.py:402-449 | the refusal for want of a candidate never happens |
| TimeParse.NextOccurrenceAnswers | henk/reminders/timeparse.py:402-449 | the whole answer to HH:MM: no clock time, nonexistent, beyond the horizon, or accepted at the least showing after now, saying whether it is the only, the first or the second |
| TimeParse.CandidateIsLeast | henk/reminders/timeparse.py:451-476 | selection is the least showing after now |
| TimeParse.LaterReadingHasCandidate | henk/reminders/timeparse.py:451-476 | a reading later than the clock shows has a fold instant after now |
| Markers.NeutralisedIsClear | henk/agent/markers.py:60-80 | no run of five equals signs and no marker phrase in any case or spacing |
| Markers.NeutraliseFixes | henk/agent/markers.py:60-80 | text is unchanged if and only if it had neither |
| Markers.NeutraliseIsIdempotent | henk/agent/markers.py:78-80 | neutralising twice is neutralising once |
| Markers.NoMarkerSurvives | henk/agent/markers.py:36-58 | no marker the application writes occurs in neutralised text |
| MarkerLaws.NothingElseChanges | henk/agent/markers.py:70-80 | in a run of five or more every second equals sign becomes a hyphen, in a phrase the words are joined by hyphens with letters and case kept, and nothing else changes |
| MarkerLaws.FoldIs | henk/agent/markers.py:61-67 | a phrase letter is matched by itself in either case, and s and i also by the letters outside ASCII that fold onto them |
| EventTurn.LiveTurnHasOneBlock | henk/agent/triage.py:326-370 | a live turn holds one begin and one end marker, at known places, with all payload and digest text between them, whatever alerts, memories, handoffs and references say |
| EventTurn.ReleaseTurnHasOneBlockIff | henk/agent/triage.py:294-323 | so does a release turn if and only if the calendar title, as shown, holds no marker |
| EventTurn.PlainTitleShowsNoMarker | henk/agent/triage.py:294-323 | a title without either delimiter shows none |
| EventTurn.SplitMarkerIsShown | henk/tools/calendar.py:131-146 | a title within the length cap and with the required prefix that shows the end marker |
| EventTurn.SplitMarkerBreaksTheTurn | henk/agent/triage.py:294-323 | with that title every release turn fails to be one block |
| EventTurn.LiveTurnPhrases | henk/agent/triage.py:326-370 | the sensor phrase, in any case or spacing, occurs in a live turn's two markers and nowhere else |
| EventTurn.ReleaseTurnPhrasesIff | henk/agent/triage.py:294-323 | and in a release turn's if and only if the title as shown is free of it |
| TurnShows.MiddleShowsAll | henk/agent/triage.py:173-185 | between the markers stand all incidents, in order, numbered, with every neutralised field, then the whole digest |
| TurnShows.EveryFactIsShown | henk/agent/recall.py:70-121 | every fact the bound kept is in the recall block on its own line |
| TurnShows.OmissionShown | henk/agent/recall.py:70-121 | when memories were left out the block says how many, out of how many |
| TurnShows.HoldNoteSays | henk/agent/triage.py:294-323 | the note after the title: planned start, end of grace, what is asked, and staleness |
| TurnShows.StaleIsSaid | henk/agent/triage.py:294-323 | staleness is said exactly when the hold ended more than a day ago, with the whole hours |
| TurnShows.RecurrenceNoteSays | henk/agent/triage.py:188-291 | the recurrence note names every reference in order with its state, and asks to build on them exactly when one is in the block |
| TurnShows.PlainTitleIsShown | henk/tools/calendar.py:131-146 | a short title with single spaces, no marker shape and no delimiter is shown as it is |
| CalendarTitle.FlatIsFree | henk/tools/calendar.py:131-146 | collapsing whitespace makes no phrase |
| CalendarTitle.NeutraliseAddsNoDelimiter | henk/agent/markers.py:70-80 | neutralising makes no delimiter |
| Composition.RenderIsFree | henk/agent/triage.py:173-185 | neutralised pieces joined by the application's separators never complete the phrase across a join |
| Recall.RecallIsPlain | henk/agent/recall.py:70-121 | a recall block with its groups, facts, omission line and hash never contains the phrase |
| Digest.SelectionCounts | henk/agent/digest.py:380-431 | what is tried plus what is left out beforehand counts each eligible handoff once |
| Digest.SelectionIsEligible | henk/agent/digest.py:380-431 | selected and left out together are the reference, the related and the recent window |
| Digest.PlacementSplits | henk/agent/digest.py:433-455 | placed and unplaced are the window, disjoint and without repeats |
| Digest.PlacedAreNewestAndOldest | henk/agent/digest.py:433-455 | of a long window the newest and the oldest are placed |
| DigestLaws.RankedInOrder | henk/agent/digest.py:163-185 | the ranked rest is all that is related and not excluded, better relation first, newest first within one |
| DigestLaws.WindowIs | henk/agent/digest.py:433-455 | the recent window: six hours back, that instant included, nothing later than now, never the reference |
| DigestLaws.BestRelation | henk/agent/digest.py:152-160 | identity before rule before node |
| DigestLaws.DigestIsGreedy | henk/agent/digest.py:251-329 | shows exactly the candidates that fit when tried in order, numbered in order; all of them and no marker when all fit; each one left out found four shown or too little room |
| RefStates.StateMeans | henk/agent/digest.py:412-425 | a prior handoff is called not retained, left out, shown or the reference exactly when it is; the reference, when shown, is the digest's first entry at its own bound |
| EntryLaws.EntryIs | henk/agent/digest.py:229-244 | an entry in full: number, relation, instant, age, nodes and identities, then the excerpt and, if cut, how much of how much is shown |
| EntryLaws.AgeMeans | henk/agent/digest.py:191-199 | whole minutes in the two largest units that apply, hours under a day and minutes under an hour |
| EntryLaws.DocumentIs | henk/agent/digest.py:229-244 | the document is the neutralised text without whitespace at either end |
| EntryLaws.DigitsRead | henk/agent/digest.py:191-199 | numbers read back as themselves, without leading zeros |
| DigestText.DigestIsBounded | henk/agent/digest.py:274-329 | within the character budget and four entries, each handoff once, and shown plus omitted is the number of eligible handoffs |
| DigestText.Fill | henk/agent/digest.py:251-271 | one pass under a reserve |
| DigestText.RenderDigest | henk/agent/digest.py:274-329 | the two passes |
| DigestText.WriterGrows | henk/agent/digest.py:247-248 | the omission marker grows with its count |
| DigestPlain.DigestTextIsPlain | henk/agent/digest.py:229-329 | whatever the handoffs say, the digest text never contains the sensor phrase and begins with its own header; nodes are of the closed set |
| DigestPlain.RenderingIsPlain | henk/agent/digest.py:191-206 | ages are digits and units, so of a stamp only its length is asked |
| Split.SplitMessage | henk/channel/base.py:253-298 | refused under four bytes; otherwise chunks join to the text, each is nonempty and fits in UTF-8 bytes, and each cut is the preferred one |
| Split.NaturalPieceIsUnique | henk/channel/base.py:253-298 | the cutting rules determine every piece |
| Split.CharsWithin | henk/channel/base.py:237-250 | the longest prefix that fits |
| Split.ChooseCut | henk/channel/base.py:276-293 | just after the last paragraph break, else line break, else space, else the whole window |
| Split.Utf8Concat | henk/channel/base.py:233-234 | the bytes of a join are the bytes of its parts (section 3 of RFC 3629) |
| Split.EncodeReads | henk/channel/base.py:233-234 | the shortest form of each code point, its bytes in range and its bits reading back (section 3 of RFC 3629) |
| Styled.StripDelimiters | henk/channel/signal.py:527-536 | a fixpoint without either delimiter, that removes nothing but angle brackets |
| Styled.Escape | henk/channel/signal.py:539-549 | the sequential replacements equal one map over the characters |
| Styled.EscapedIsLiteral | henk/channel/signal.py:539-549 | escaped content parses back as its own characters before anything |
| Styled.ValueIsOneSpan | henk/channel/signal.py:552-558 | a styled value is one literal span |
| Styled.UnstyledReadsBack | henk/channel/signal.py:552-558 | an unstyled value reads back if and only if it does not end in a closing bracket |
| Styled.PromptStylingIsFixed | henk/channel/signal.py:566-588 | nothing a prompt shows can change its styling |
| GateRuns.MutationsBeganClean | henk/gate/approval.py:255-384 | in every run a permitted mutation not scoped for events began with no event turn framed and no taint known; in a turn, an owner turn of a session that ran no event turn and let no source through |
| GateRuns.PromptedPermitsWereApproved | henk/gate/approval.py:386-454 | a prompted permit had a delivered prompt whose first answer was an explicit approval |
| GateRuns.OneReceiptPerDecision | henk/gate/approval.py:456-503 | one receipt per completed decision, and at most the one open prompt without |
| GateRuns.LateApprovalTaintsNothing | henk/gate/approval.py:335-348 | an approval after its turn ended taints nothing |
| GateLaws.VerdictMeans | henk/gate/approval.py:255-333 | each of the six verdicts on a mutating call exactly when its reason holds and none checked before it |
| GateLaws.VerdictLeaves | henk/gate/approval.py:255-333 | one numbered receipt with the outcome, or the one prompt opened; a tool that does not mutate is let through with neither |
| GateLaws.DemotedMeansAsked | henk/gate/approval.py:232-243 | with standing authorization demoted, every permitted mutation of any run had its prompt sent and first answered with an approval |
| GateLaws.UnaskedMeansStanding | henk/gate/approval.py:255-333 | otherwise a permit is unasked if and only if its tool's own tier is standing; in every case its turn is in scope, and none is asked for in a silenced event turn |
| GateLaws.SilencedTurnsAskNothing | henk/gate/approval.py:285-295 | no prompt is ever open for a silenced event turn |
| GateLaws.ApprovalsAreTheOwners | henk/gate/approval.py:516-573 | nothing is approved in a run in which the owner approves nothing |
| GateLaws.FirstAnswerDecides | henk/gate/approval.py:386-454 | a prompt is decided by its first answer, and without one it timed out |
| GateLaws.MessageMeans | henk/gate/approval.py:516-540 | a typed message is an approval, a denial or, being about something else, a cancellation that also goes back to the conversation |
| GateLaws.ReactionMeans | henk/gate/approval.py:542-573 | a reaction counts if and only if it is a yes or no put on the open, unanswered prompt's own message |
| GateLaws.AskingCanSucceed | henk/gate/approval.py:386-454 | a delivered prompt answered by a yes on that very message, or by a typed yes, is one permission with one receipt saying how |
| GateLaws.SettleMeans | henk/gate/approval.py:386-454 | the wait ends: slot free, receipt with outcome and how it was given, and the edit to come, or taint at once when there is none |
| GateLaws.EditsFinish | henk/gate/approval.py:325-333 | the edit returned: that decision is done with, and a permitted source is remembered by the session whose turn is framed |
| GateLaws.UndeliveredIsCancelled | henk/gate/approval.py:386-454 | a prompt that was not delivered is cancelled whatever was answered, and the slot is free |
| GateLaws.TaintMeans | henk/gate/approval.py:335-348 | a source taints the turn framed now under its own name, unless the turn that asked has ended; nothing else changes |
| GateLaws.ReceiptsAreThePermissions | henk/gate/approval.py:479-503 | the receipts that say permitted are the permissions granted, one for one and in order |
| GateLaws.TaintIsExact | henk/gate/approval.py:335-348 | a framed turn is tainted if and only if its session ran an event turn or let a taint source through in one of its turns |
| Gate.ApprovalGate.Begin | henk/gate/approval.py:255-333 | state and verdict are those of `Authorize`, which `GateLaws.VerdictMeans` and `VerdictLeaves` state in full |
| Gate.ApprovalGate.Taint | henk/gate/approval.py:335-348 | taint is raised on a turn framed now and at the start |
| Gate.ApprovalGate.DeliverMessage | henk/gate/approval.py:516-540 | the first answer decides; unrelated text is returned to the queue |
| Gate.ApprovalGate.React | henk/gate/approval.py:542-573 | a reaction counts only on the pending prompt |
| Gate.ApprovalGate.SettlePrompt | henk/gate/approval.py:386-454 | the outcome of the answer or of the timeout, one receipt, taint if approved |
| ReminderRuns.RemindersAreAccountedFor | henk/reminders/scheduler.py:173-253 | crashes included: reporting ends only after a summary named the reminder or at the counted limit, delivery is recorded only for a send not refused, and every other reminder is looked at again within one retry floor |
| ReminderRuns.NoReminderExitsSilently | henk/reminders/scheduler.py:336-397 | without crashes and with a limit of two or more, a reminder no longer reported was named in a summary |
| ReminderRuns.LimitOfOneExitsSilently | henk/config.py:1274-1280 | with a limit of one a reminder exits unnamed with no crash at all |
| ReminderRuns.UnreportedIsTakenUp | henk/reminders/scheduler.py:173-253 | an eligible reminder is in the next tick's report or given up there |
| ReminderRuns.PreWorkWF | henk/reminders/scheduler.py:173-253 | pre-work keeps every row accounted for |
| ReminderWork.PreWorkIs | henk/reminders/scheduler.py:173-253 | pre-work in full, row by row: who is missed, charged, sent, abandoned, reported, given up or left alone; what is sent is in order and without repeats |
| ReminderWork.SelectedAreChosen | henk/store/reminders.py:340-357 | taken are exactly the deliverable rows with fewer deliverable ones before them than the limit |
| ReminderWork.TickSendsWhatItTook | henk/reminders/scheduler.py:155-171 | a tick that gets through its deliveries without a crash has had each row chosen and still affordable at its turn, oldest first, and has sent exactly those still pending then |
| ReminderWork.WorkingTickTellsAll | henk/reminders/scheduler.py:155-171 | over a working channel a tick from any state delivers every row it took, names and settles every row it reports, leaves the rest as pre-work did, and ends |
| ReminderWork.ReinstateUndoesCancel | henk/store/reminders.py:242-264 | a cancelled reminder comes back as it was, to be tried from its due time |
| ReminderWork.CancelledIsNotSent | henk/reminders/scheduler.py:257-273 | what is cancelled before its turn is not sent |
| Reminders.SelectDueIs | henk/store/reminders.py:340-357 | as many rows as are due, up to the limit, each due, none twice |
| Reminders.SelectReportableIs | henk/store/reminders.py:359-374 | exactly the reportable rows |
| Reminders.OldestAreTaken | henk/store/reminders.py:340-357 | no due row left for later is older than one taken |
| Reminders.ReminderScheduler.DoPreWork | henk/reminders/scheduler.py:173-253 | the loops do what `PreWork` says, which `ReminderWork.PreWorkIs` states row by row |
| Reminders.ReminderScheduler.RecordSend | henk/reminders/scheduler.py:257-303 | status by send outcome |
| Reminders.ReminderScheduler.RecordSummary | henk/reminders/scheduler.py:336-397 | reported only when the summary was not refused |

## Left out

- ProtocolFates.ReleasingDropsNoAlert: holds for runs in which no dispatch passed on a held event, because the promise is false otherwise (`ProtocolRepass.RepassedAlertCanBeLost`).
- ProtocolTheorems.NoAlertIsLost: does not ask for a triage as new as the event; a suppressed event rests on its identity's record within the cooldown, as the policy intends, and an event suppressed in a mixed batch gets no record of its own.
- Releasing.StoredEndIsBounded: holds for runs in which holds and extensions read calendar windows no longer than the maximum, and the maximum does not change across restarts.
- Intake.DeliversExactlyOnceInOrder: holds while no resume point is refused (`Intake.UnrefusedDeliversInOrder` in general); the protocol model itself assumes none is, and rejections are covered in `Intake` alone.
- Watchdog.LiveStreamsNeverTrip: a frame that arrives only when its budget is used up counts as not alive.
- EventTurn.LiveTurnHasOneBlock: the fixed sentences of the framing's steps and of the recurrence note enter as pieces, each free of the phrase and beginning so that it cannot continue one; a stamp is at most 20 characters and a hash at most 20. Only marker phrases are excluded from the composed text: a separator next to a neutralised value may still show five equals signs.
- DigestPlain.DigestTextIsPlain: takes as given that an archived handoff's nodes are of the closed set they were derived from.
- GateRuns.MutationsBeganClean: a taint source counts from the moment it was let through while a turn was framed.
- Suppression records beyond what each says and whether it was persisted.
- Raw payload JSON, urgency, topology and other fields of an event that no decision above reads.
- The text grammar of reminder times (durations, dated forms) and every time-rendering string; a reading enters as a number.
- Which words and emoji mean yes or no: the gate takes the class of an answer.
- How the recall block's bound picks the memories it keeps; the block is modelled from what it kept.
- `render_outcome`, the bound on displayed arguments, and the text of prompt edits.
- Receipts of the gate are best effort in the source; a failing recorder is not modelled.
- Store faults of the reminder store, the text of deliveries and summaries, and the note of surfaced deliveries.
- The endless loops of intake, coordinator, releaser and scheduler are modelled one step at a time; waiting, cancellation and task start-up are not.
- ntfy, Signal, Google Calendar and the agent SDK: their answers are arguments. The order of an ntfy backlog before its first keepalive is assumed.
- SQLite and file atomics: stores are values, and a failing call changes nothing.
- Owner turns, commands, acknowledgement and typing indicators, configuration loading, audit record builders, `henk/replay` and `deploy`: wide and shallow.
