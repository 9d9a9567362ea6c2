# Verified model of the hard core of the repository

This project models six parts of the repository in Dafny and proves properties of them that hold for every
input, every run and every interleaving:

- the **delivery forecast** (`Forecast*.dfy`, `CriticalPath.dfy`): the depth-first ordering of the dependency
  graph, the two-lane greedy scheduler with its shared review pool, and the critical-path pass;
- the **operator-draft controller** (`Draft*.dfy`): an optimistic-concurrency client with restore, autosave,
  rebase, discard, cleanup after a send and flush before navigation, run against a compare-and-swap server, an
  unreliable network and any number of other controllers;
- the **SQL splitter** (`Sql*.dfy`): a one-pass scanner with quote, comment, word and BEGIN/CASE/END state;
- the **local snooze controller** (`Snooze*.dfy`): a state machine that announces each call in a marker file
  before it makes it, with crashes and restarts at any step;
- the **priority queue** (`Priority*.dfy`): the three-view comparator with drifting windows and
  the pause-aware clock;
- the **measurement pool** (`Measurement*.dfy`): workers that share a cursor, and nearest-rank percentiles.

`Numbers.dfy` and `Sequences.dfy` hold what these parts share.

Code that works step by step is imperative here as well: classes with the source's variables as fields
(`ForecastGraph.TopologicalSort`, `DraftSession.Session`, `SnoozeController.LocalSnoozeController`,
`MeasurementReport.Measurement`), arrays and loops. Their methods are proved against functions on values, and
the theorems are about these functions. Asynchronous code is cut at its awaits: one method, and one step of the
state machine, for each stretch that runs without interruption. Everything that the outside world decides (what
a reply says, whether it arrives, what the clock reads, when the process dies) is a parameter of a step.

Units: the forecast counts effort in half-hours. A node of effort E then needs 5E quarter-hours of
implementation (32 to a day) and E quarter-hours of review (16 to a day), and weighs 3E half-hours on the
critical path (16 to a day), so that every tolerance of the source becomes exact.

What the draft controller does not promise. Each has a run from the start that shows it. The theorems exclude
single steps of a run only; `DraftHazards` proves that each of them, wherever it happens, can go wrong:

- `DraftLimits.StopInMidSaveBreaksDiscard`: a controller is stopped while the save that creates its draft is under
  way, and started again. `start` resets `restoring` alone, so `saving` stays set and the draft is never read: the
  next discard reports 'cleared' though the draft was stored. By `DraftTheorems.DiscardSafety` this is the only kind
  of stop that harms discards; by `DraftHazards.DiscardHazardFails` every one of them can.
- `DraftLimits.DenialBreaksDiscardAndDisplay`: when a discard waits for a save and the reply to that save is a
  denial, the discard reports 'cleared' without having sent a DELETE, and an edit behind it is lost: the emptied
  screen is marked as that edit. `DraftTheorems.DiscardSafety` and `NoEditIsLost` exclude exactly these denials
  (`DraftHazards.DiscardHazardFails`, `EditHazardFails`), and `DraftTheorems.UninformedByDenial` says that the state
  of the draft is lost during a wait in no other way.
- `DraftLimits.DenialUnderRebaseBreaksDisplay`: the same happens when a DELETE is denied and a rebase that an edit
  has overtaken then succeeds. Every other denial leaves the guarantees in place.
- `DraftLimits.StrayCleanupMiscounts`: a cleanup that names the version which the save it waits for is about to get
  leaves the draft dirty with `savedEdit` level with the last edit. `DraftTheorems.CountersTellUnsaved` excludes
  exactly this (`DraftHazards.CounterHazardFails`).
- `DraftLimits.StrayCleanupOutdates`: a cleanup that names a version of another session leaves on screen what is
  stored no more. `DraftTheorems.ShowsReplyExactly` says that nothing else does.
- `DraftLimits.FailedRemovalStallsAutosave`: a removal that does not end 'cleared' cancels the save timer and
  does not arm it again, so unsaved work waits for the next edit. `DraftAutosave.StallsExactly` says which steps do
  this, and `DraftAutosave.StalledSinceRemoval` that nothing else ever does.
- `DraftLimits.StopInMidSaveStrands`: a controller that is stopped while it saves, rebases or removes and then
  started again never saves, restores or rebases again, because the flag of that lane stays set. By
  `DraftStranded.StrandedByBusyStop` these are exactly the stops that strand, and by
  `DraftStranded.StrandedForGood` it is for good.

And of the SQL splitter: by `SqlSplitter.PiecesEndAtBoundaries` an END too many takes the depth below 0, after
which no semicolon splits until a BEGIN or CASE makes up for it.

## Model

| member | source | states |
|---|---|---|
| ForecastGraph.TopologicalSort.Visit | docs/planning/post-beta-2026-09-10/schedule.py:14-19 | a visit keeps the order dependency-first and free of repetitions, terminates on every graph, and fails only with a real cycle or a dependency outside the graph |
| ForecastGraph.TopologicalSort.Sort | docs/planning/post-beta-2026-09-10/schedule.py:13-20 | the search ends with a topological order of all nodes, or names a node on a cycle, or a missing dependency |
| ForecastGraph.OrderExcludesObstacles | docs/planning/post-beta-2026-09-10/schedule.py:13-20 | an order is found if and only if the graph is closed under dependencies and has no cycle |
| ForecastSchedule.ImplementationDays | docs/planning/post-beta-2026-09-10/schedule.py:42-43 | the number of implementation days is the exact ceiling, and at least one |
| ForecastSchedule.Earliest | docs/planning/post-beta-2026-09-10/schedule.py:41-42 | the earliest start is the first day after every dependency, never before day 0 |
| ForecastSchedule.DependenciesFirst | docs/planning/post-beta-2026-09-10/schedule.py:38-47 | every node starts after all its dependencies end |
| ForecastSchedule.LanesDisjoint | docs/planning/post-beta-2026-09-10/schedule.py:42-47 | the intervals of one lane never overlap and are taken in order |
| ForecastSchedule.StartsNeverDecrease | docs/planning/post-beta-2026-09-10/schedule.py:38-47 | start days never decrease in scheduling order |
| ForecastSchedule.NeverIdlesNeedlessly | docs/planning/post-beta-2026-09-10/schedule.py:38-47 | if a lane is idle on a day, every node that starts later has a dependency that ends on or after that day |
| ForecastFeasibility.DrawsFit | docs/planning/post-beta-2026-09-10/schedule.py:44-46 | the review loop ends, takes exactly what is due, stays within each day's capacity and fills every day but its last |
| ForecastFeasibility.ReviewWithinCapacity | docs/planning/post-beta-2026-09-10/schedule.py:44-46 | no review day ever holds more than four hours |
| ForecastFeasibility.FullBeforeLastDay | docs/planning/post-beta-2026-09-10/schedule.py:44-47 | every review day of a node before its last one is full |
| ForecastFeasibility.AtMostTwoDraw | docs/planning/post-beta-2026-09-10/schedule.py:42-47 | a review day is drawn on by at most two nodes |
| ForecastFeasibility.ReviewEqualsEffort | docs/planning/post-beta-2026-09-10/schedule.py:42-46 | all review drawn together is half the total effort |
| ForecastFeasibility.EachNodeOnce | docs/planning/post-beta-2026-09-10/schedule.py:36-51 | a finished schedule holds each node that is not done exactly once, and no other |
| ForecastFeasibility.ReadyNodeExists | docs/planning/post-beta-2026-09-10/schedule.py:36-42 | without a cycle some node is ready as long as one remains |
| ForecastBounds.GrahamBound | docs/planning/post-beta-2026-09-10/schedule.py:36-51 | twice the days up to any forecast end are at most all lane-days plus the lane-days of one dependency chain that ends there, plus twice the days up to the last completed done node |
| Forecaster.PickNode | docs/planning/post-beta-2026-09-10/schedule.py:38-42 | the loop picks the ready node of least rank |
| Forecaster.DrawReview | docs/planning/post-beta-2026-09-10/schedule.py:44-46 | the loop updates the pool in place by exactly the draws due, or runs off a calendar that is too short |
| Forecaster.Decide | docs/planning/post-beta-2026-09-10/schedule.py:38-47 | one pass of the loop takes the decision that the schedule demands, or the calendar is too short for it |
| Forecaster.Schedule | docs/planning/post-beta-2026-09-10/schedule.py:36-51 | the loop ends with a complete schedule, or at the first decision that does not fit the calendar |
| CriticalPath.FinishPass | docs/planning/post-beta-2026-09-10/schedule.py:53-54 | each finish is the weight of the heaviest chain that ends in the node |
| CriticalPath.Successors | docs/planning/post-beta-2026-09-10/schedule.py:55-57 | the successor lists are exactly the inverse of the dependencies |
| CriticalPath.LatestPass | docs/planning/post-beta-2026-09-10/schedule.py:58-59 | each latest finish leaves room for exactly the heaviest chain out of the node |
| CriticalPath.Pass | docs/planning/post-beta-2026-09-10/schedule.py:53-61 | each float is the weight of the heaviest chain of the graph less that of the heaviest chain through the node |
| CriticalPath.CriticalIffOnHeaviestChain | docs/planning/post-beta-2026-09-10/schedule.py:60-61 | floats are never negative, and zero exactly for the nodes on some heaviest chain |
| CriticalPath.ThroughIsToPlusFrom | docs/planning/post-beta-2026-09-10/schedule.py:54-59 | the heaviest chain through a node is the heaviest one into it joined to the heaviest one out of it |
| CriticalPath.ChainFitsCalendar | docs/planning/post-beta-2026-09-10/schedule.py:42-47 | the work of every chain fits the calendar days up to the forecast end of its last node |
| CriticalPath.DependencyOnlyLowerBound | docs/planning/post-beta-2026-09-10/schedule.py:58-70 | the dependency-only hours are at most eight for each day up to the last forecast end |
| Forecast.Calculate | docs/planning/post-beta-2026-09-10/schedule.py:13-61 | from end to end: a refusal with a real obstacle, a calendar that is too short, or a complete schedule with exact floats |
| DraftServer.ServeConsistent | apps/dashboard/src/hooks/useOperatorDraft.ts:116-119 | the server these fields imply, compare-and-swap, keeps a single chain of commits in which no version comes twice and none comes back |
| DraftServer.ServeOnlyAdds | apps/dashboard/src/hooks/useOperatorDraft.ts:190-192 | on that server a committed version stays committed, a retired one stays retired, and a new one was never committed before |
| DraftSession.Session.constructor | apps/dashboard/src/hooks/useOperatorDraft.ts:42-56 | a new controller is in the initial state of the machine |
| DraftSession.Session.Arm | apps/dashboard/src/hooks/useOperatorDraft.ts:72-76 | the timer is armed exactly when a save could go out |
| DraftSession.Session.Restore | apps/dashboard/src/hooks/useOperatorDraft.ts:78-85 | restore up to its await is the machine's step |
| DraftSession.Session.RestoreReplied | apps/dashboard/src/hooks/useOperatorDraft.ts:86-101 | restore after its await is the machine's step |
| DraftSession.Session.SaveNow | apps/dashboard/src/hooks/useOperatorDraft.ts:104-119 | saveNow up to its await is the machine's step, and the PUT carries the state before it |
| DraftSession.Session.SaveReplied | apps/dashboard/src/hooks/useOperatorDraft.ts:120-138 | saveNow after its await is the machine's step |
| DraftSession.Session.Flush | apps/dashboard/src/hooks/useOperatorDraft.ts:145-166 | each stretch of a flush is the machine's step |
| DraftSession.Session.Update | apps/dashboard/src/hooks/useOperatorDraft.ts:168-180 | update is the machine's step |
| DraftSession.Session.Rebase | apps/dashboard/src/hooks/useOperatorDraft.ts:183-192 | rebase up to its await is the machine's step |
| DraftSession.Session.RebaseReplied | apps/dashboard/src/hooks/useOperatorDraft.ts:193-209 | rebase after its await is the machine's step |
| DraftSession.Session.Remove | apps/dashboard/src/hooks/useOperatorDraft.ts:212-221 | remove at the click is the machine's step |
| DraftSession.Session.RemoveResumes | apps/dashboard/src/hooks/useOperatorDraft.ts:222-236 | remove after the save it waited for is the machine's step |
| DraftSession.Session.RemoveReplied | apps/dashboard/src/hooks/useOperatorDraft.ts:228-245 | remove after the DELETE is the machine's step |
| DraftSession.Session.RemoveSettles | apps/dashboard/src/hooks/useOperatorDraft.ts:247-250 | the settling of a removal is the machine's step |
| DraftSession.Session.Start | apps/dashboard/src/hooks/useOperatorDraft.ts:258-262 | start is the machine's step, and resets restoring only |
| DraftSession.Session.Leave | apps/dashboard/src/hooks/useOperatorDraft.ts:263-263 | stop is the machine's step |
| DraftController.LateRepliesChangeNothing | apps/dashboard/src/hooks/useOperatorDraft.ts:59-63 | replies to requests of an earlier activation change nothing, which is why the protocol forgets its four lanes at a stop |
| DraftInvariants.StepKeepsLocal | apps/dashboard/src/hooks/useOperatorDraft.ts:72-252 | every step keeps the request lanes exclusive but for a removal, the timer tied to pending work, and each edit accounted for |
| DraftSafety.StepKeepsLedger | apps/dashboard/src/hooks/useOperatorDraft.ts:85-128 | every step keeps: each version held, sent or replaced by a PUT was received in a reply |
| DraftOverlaps.StepKeepsOverlaps | apps/dashboard/src/hooks/useOperatorDraft.ts:104-245 | every step keeps: a rebase and a removal of one version never both succeed, a discard covers every save before it, a rebase that can succeed is for the version held, and what a stop leaves behind blocks all but removals |
| DraftDiscard.StepKeepsGuarded | apps/dashboard/src/hooks/useOperatorDraft.ts:212-263 | every step, but a stop that finds a creating save under way, keeps: with no version held and no write in doubt nothing of this controller is stored, whatever requests a stop left behind |
| DraftCounters.StepKeepsCounted | apps/dashboard/src/hooks/useOperatorDraft.ts:116-250 | every step, but the success of a save that a cleanup waits for and names, keeps: dirty means savedEdit is behind, else it is level, whatever saves, rebases, removals and denials overlap |
| DraftUpdates.StepKeepsUpdated | apps/dashboard/src/hooks/useOperatorDraft.ts:104-245 | every step, but a denial under a success that is still to come, keeps: unsaved work on screen is the latest edit, what a reply may yet mark as unsaved included |
| DraftReplies.StepKeepsHeld | apps/dashboard/src/hooks/useOperatorDraft.ts:78-245 | every step keeps: a stored version that was received is the one held, without a version the latest reply was empty, and the removal of a received version succeeds only for what is on screen |
| DraftDisplay.ShowsLatestExactly | apps/dashboard/src/hooks/useOperatorDraft.ts:196-236 | a step makes something other than the latest edit unsaved work if and only if a success finds an edit it does not cover on a draft not marked dirty whose screen is not the latest edit |
| DraftMiscounts.MiscountsExactly | apps/dashboard/src/hooks/useOperatorDraft.ts:196-236 | a step puts the counters out of step with what is unsaved if and only if a success finds an edit it does not cover though all edits count as saved |
| DraftOutdated.ShowsReplyExactly | apps/dashboard/src/hooks/useOperatorDraft.ts:228-245 | a step leaves a screen with nothing unsaved behind the latest reply if and only if the removal of a version that is not on screen succeeds |
| DraftAutosave.StallsExactly | apps/dashboard/src/hooks/useOperatorDraft.ts:247-250 | a step leaves unsaved work with a clear way and no timer if and only if it settles a removal that did not end 'cleared' over such work |
| DraftAutosave.StalledSinceRemoval | apps/dashboard/src/hooks/useOperatorDraft.ts:72-76 | in every run, autosave is stalled if and only if such a removal has settled and it has been stalled ever since |
| DraftDiscard.WaitLosesStateByDenial | apps/dashboard/src/hooks/useOperatorDraft.ts:129-131 | while a removal waits, what it knows of the draft is lost if and only if the awaited save is denied |
| DraftTheorems.DiscardSafety | apps/dashboard/src/hooks/useOperatorDraft.ts:212-263 | in every run in which no stop finds a creating save under way, a removal that reports 'cleared' leaves no draft of this controller on the server, if it knows the draft or no awaited save was denied over a stored one; after lost acknowledgements, overlapping requests and other stops too |
| DraftHazards.DiscardHazardFails | apps/dashboard/src/hooks/useOperatorDraft.ts:222-263 | after each such stop or denial, in any run, some continuation reports 'cleared' with a draft of this controller stored |
| DraftTheorems.UninformedByDenial | apps/dashboard/src/hooks/useOperatorDraft.ts:222-226 | in every run, a removal that waits without the known state lost it at a step of that wait in which the awaited save was denied |
| DraftTheorems.NoEditIsLost | apps/dashboard/src/hooks/useOperatorDraft.ts:104-245 | in every run, dirty means the screen shows the latest edit, unless a denial emptied it under a discard or a rebase that then succeeds |
| DraftHazards.EditHazardFails | apps/dashboard/src/hooks/useOperatorDraft.ts:129-131 | after each such denial, in any run, some continuation shows the empty screen as the latest edit |
| DraftTheorems.ShowsReplyExactly | apps/dashboard/src/hooks/useOperatorDraft.ts:78-245 | a known draft that is not dirty shows the latest reply throughout a run if and only if no removal of a version not on screen succeeds in it |
| DraftTheorems.OutdatesUnreceived | apps/dashboard/src/hooks/useOperatorDraft.ts:240-243 | such a version is always one that this controller never received |
| DraftTheorems.CountersTellUnsaved | apps/dashboard/src/hooks/useOperatorDraft.ts:116-236 | in every run, known and not dirty means savedEdit is level; and dirty means it is behind, unless a cleanup named the version of the save it waited for |
| DraftHazards.CounterHazardFails | apps/dashboard/src/hooks/useOperatorDraft.ts:219-235 | after each such save, in any run, some continuation leaves a saved edit marked as unsaved |
| DraftTheorems.AutosaveNeverStalls | apps/dashboard/src/hooks/useOperatorDraft.ts:72-76 | in every run, unsaved work with a clear way has an armed timer while all removals ended 'cleared', and an armed timer always has work and a clear way |
| DraftTheorems.FlushLeavesNothingPending | apps/dashboard/src/hooks/useOperatorDraft.ts:143-166 | in every run, when a flush returns true each edit so far was acknowledged, removed or dropped by a denial |
| DraftTheorems.OneChainOfVersions | apps/dashboard/src/hooks/useOperatorDraft.ts:116-128 | in every run, each committed PUT of this controller replaced exactly a version, or an absence, it had received |
| DraftConflict.ConflictIsNeverOverwritten | apps/dashboard/src/hooks/useOperatorDraft.ts:174-178 | whatever is edited, retried, flushed or reopened in a conflict, until a removal nothing of this controller is committed and no flush lets the page go |
| DraftConflict.ClashIsNeverOverwritten | apps/dashboard/src/hooks/useOperatorDraft.ts:129-135 | in every run, the answer 409 to a save begins such a conflict, also when a removal waits for that save |
| DraftFleet.FleetCommitsOneChain | apps/dashboard/src/hooks/useOperatorDraft.ts:116-128 | any number of controllers commit one chain in which no version comes twice or is replaced twice, and each PUT replaced what its sender had received |
| DraftFleet.OwnRun | apps/dashboard/src/hooks/useOperatorDraft.ts:116-128 | what happens to one controller among many is a run of that controller alone, with the others as its environment |
| DraftFleet.FleetDiscardSafety | apps/dashboard/src/hooks/useOperatorDraft.ts:212-263 | discard safety holds for each of many controllers at the same time |
| DraftFleet.FleetShowsEdits | apps/dashboard/src/hooks/useOperatorDraft.ts:104-245 | so do the counters, the display of edits and replies and the flush guarantee |
| DraftLimits.DenialBreaksDiscardAndDisplay | apps/dashboard/src/hooks/useOperatorDraft.ts:222-234 | a run with a denied save in which a discard reports 'cleared' with the draft still stored and the emptied screen unsaved |
| DraftLimits.DenialUnderRebaseBreaksDisplay | apps/dashboard/src/hooks/useOperatorDraft.ts:196-239 | a run in which a DELETE is denied over a rebase that an edit has overtaken, and a continuation that shows the emptied screen as that edit |
| DraftLimits.FailedRemovalStallsAutosave | apps/dashboard/src/hooks/useOperatorDraft.ts:248-250 | a run in which a failed removal leaves unsaved work without a timer |
| DraftLimits.StopInMidSaveStrands | apps/dashboard/src/hooks/useOperatorDraft.ts:258-263 | a run that ends stranded with unsaved work, after which no run ever saves again |
| DraftLimits.StopInMidSaveBreaksDiscard | apps/dashboard/src/hooks/useOperatorDraft.ts:220-236 | a run in which a discard by such a controller reports 'cleared' with the draft stored |
| DraftLimits.StrayCleanupMiscounts | apps/dashboard/src/hooks/useOperatorDraft.ts:219-235 | a run without a denial after which the draft is dirty with savedEdit level |
| DraftLimits.StrayCleanupOutdates | apps/dashboard/src/hooks/useOperatorDraft.ts:228-236 | a run after which the screen shows a draft that was deleted |
| DraftStranded.StrandedByBusyStop | apps/dashboard/src/hooks/useOperatorDraft.ts:258-263 | in every run, as long as the session is the same, the controller is stranded if and only if some stop found a save, a rebase or a removal under way |
| DraftStranded.StrandedForGood | apps/dashboard/src/hooks/useOperatorDraft.ts:72-76 | a stranded controller stays stranded in every run, and never saves, restores or rebases again |
| SqlLexer.LexCovers | apps/server/scripts/split-sql.ts:11-40 | the tokens are consecutive slices of the text and cover it |
| SqlLexer.LineEndsFirst | apps/server/scripts/split-sql.ts:21-25 | a line comment ends with the first newline or the text |
| SqlLexer.BlockEndsFirst | apps/server/scripts/split-sql.ts:26-30 | a block comment ends with the first closing mark behind its opening, or with the text |
| SqlLexer.LexText | apps/server/scripts/split-sql.ts:11-40 | tokens kept apart, with doubled quotes and an unterminated last literal, lex back to themselves |
| SqlLexer.StripIsFinal | apps/server/scripts/split-sql.ts:21-30 | stripping leaves no comment and never creates one |
| SqlSplitter.PiecesConserveText | apps/server/scripts/split-sql.ts:11-41 | the untrimmed pieces joined by semicolons are the text with each line comment as a newline and each block comment as a space |
| SqlSplitter.PiecesEndAtBoundaries | apps/server/scripts/split-sql.ts:34-39 | a piece ends exactly at the semicolons outside quotes and comments where BEGIN and CASE less END of the words so far is 0 |
| SqlSplitter.AfterReads | apps/server/scripts/split-sql.ts:5-10 | the registers hold the word at hand and the balance of the complete words before it |
| SqlRoundTrip.SplitJoinSplit | apps/server/scripts/split-sql.ts:2-43 | for every text, its statements joined by a semicolon and a newline split into exactly the same statements |
| SqlRoundTrip.StatementsStandAlone | apps/server/scripts/split-sql.ts:2-43 | each statement is one statement by itself, and each but the last ends outside quotes, without comments, at depth 0 |
| SqlScanner.SplitSql | apps/server/scripts/split-sql.ts:2-43 | the one-pass loop computes the statements of lexing, cutting and trimming |
| SqlScanner.SkipLine | apps/server/scripts/split-sql.ts:21-25 | the inner loop ends past exactly the comment and its newline |
| SqlScanner.SkipBlock | apps/server/scripts/split-sql.ts:26-30 | the inner loop ends past exactly the comment and its closing mark |
| SnoozeController.LocalSnoozeController.constructor | apps/server/scripts/local-snooze-controller.ts:17-36 | loading is the machine's: fresh only without a marker, restart only with a matching one, else shut |
| SnoozeController.LocalSnoozeController.Create | apps/server/scripts/local-snooze-controller.ts:15-16 | a catalogue that is empty, repeated or malformed is refused |
| SnoozeController.LocalSnoozeController.Continue | apps/server/scripts/local-snooze-controller.ts:49-53 | the loop goes on to the next row that is not paused, or lands |
| SnoozeController.LocalSnoozeController.TimerOrTick | apps/server/scripts/local-snooze-controller.ts:44-70 | tick is the machine's step |
| SnoozeController.LocalSnoozeController.Begin | apps/server/scripts/local-snooze-controller.ts:72-72 | start is the machine's step |
| SnoozeController.LocalSnoozeController.ResumeTenant | apps/server/scripts/local-snooze-controller.ts:76-83 | resume is the machine's step, refused in flight, after disposal, without a marker and for strangers |
| SnoozeController.LocalSnoozeController.WriteReturned | apps/server/scripts/local-snooze-controller.ts:53-68 | the stretch after each marker write is the machine's step |
| SnoozeController.LocalSnoozeController.CallReturned | apps/server/scripts/local-snooze-controller.ts:56-65 | the stretch after each call is the machine's step, ill-formed answers counted as exceptions |
| SnoozeController.LocalSnoozeController.DisposeNow | apps/server/scripts/local-snooze-controller.ts:84-84 | dispose is the machine's step |
| SnoozeSafety.StepSafe | apps/server/scripts/local-snooze-controller.ts:17-84 | every step, crashes and restarts included, keeps memory and marker from allowing a call too many |
| SnoozeSafety.NewWorkFollowsCompletion | apps/server/scripts/local-snooze-controller.ts:49-65 | over all runs, whenever a tenant is called with new work each earlier call to it was followed by a completion |
| SnoozeSafety.RecoveryIsTriedOnce | apps/server/scripts/local-snooze-controller.ts:29-65 | over all runs, between two recovery calls to a tenant there is a completed call or a resume |
| SnoozeSafety.SilentNeverCalls | apps/server/scripts/local-snooze-controller.ts:43-50 | a disposed controller, or one whose marker failed, calls nobody until the process is started again |
| PriorityQueue.ComparePriorityTickets | packages/shared/priority-matrix.ts:249-265 | the comparator refuses exactly the invalid inputs and else returns the first comparison that is not zero |
| PriorityQueue.DifferenceIsOrder | packages/shared/priority-matrix.ts:198-265 | its sign is the lexicographic order of a rank per ticket with the id last, and it is zero exactly for equal id and rank |
| PriorityQueue.StrictTotalOrder | packages/shared/priority-matrix.ts:249-265 | in each view the order is irreflexive, asymmetric, transitive, and total on distinct ids |
| PriorityQueue.DriftIsMonotone | packages/shared/priority-matrix.ts:167-224 | with less time left a ticket never counts with a larger window |
| PriorityQueue.LessTimeNeverMovesBack | packages/shared/priority-matrix.ts:167-265 | lowering a ticket's remaining time never moves it behind a ticket it preceded |
| PriorityQueue.SortedOnce | packages/shared/priority-matrix.ts:248-265 | a snapshot of the queue has exactly one sorted order |
| PriorityClock.PriorityTimeRemainingFromPauses | packages/shared/priority-matrix.ts:130-158 | the loop accepts exactly the histories in order and within bounds, and returns the window less the milliseconds outside every pause |
| PriorityClock.ClockRunsOneWay | packages/shared/priority-matrix.ts:125-158 | the remaining time never exceeds the window, never rises as evaluation moves later, and stands still while the last pause is open |
| MeasurementPool.NeverTooMany | apps/server/scripts/operational-performance.ts:20-34 | under every interleaving at most `concurrency` operations are under way and at most `samples` are begun |
| MeasurementPool.SettledIsComplete | apps/server/scripts/operational-performance.ts:20-36 | when all workers have settled every operation has returned, and with a good clock exactly `samples` were run and recorded |
| MeasurementPool.StoppedBeginsNothing | apps/server/scripts/operational-performance.ts:22-33 | after a bad clock reading no operation is begun |
| MeasurementPool.SettledExactly | apps/server/scripts/operational-performance.ts:20-34 | no step is possible if and only if all workers have settled |
| MeasurementPool.RunsEnd | apps/server/scripts/operational-performance.ts:22-34 | every run ends after at most two steps per sample and one per worker |
| MeasurementPool.RunsSettle | apps/server/scripts/operational-performance.ts:20-36 | every run goes on to one in which all workers have settled |
| MeasurementReport.CeilingIsLeast | apps/server/scripts/operational-performance.ts:40-40 | the nearest rank is the least number of samples that is at least the fraction of them |
| MeasurementReport.NearestRank | apps/server/scripts/operational-performance.ts:39-40 | a reported percentile has at least ceil(p n) latencies at or below it and n - ceil(p n) + 1 at or above it |
| MeasurementReport.ReportIsSound | apps/server/scripts/operational-performance.ts:35-48 | a report is given exactly when every clock reading was good, and its counts, extremes and percentiles are right |
| MeasurementReport.Measurement.Create | apps/server/scripts/operational-performance.ts:6-19 | bad bounds or a bad first clock reading are refused before any operation |
| MeasurementReport.Measurement.Advance | apps/server/scripts/operational-performance.ts:22-24 | a worker from the head of its loop is the pool's step |
| MeasurementReport.Measurement.Record | apps/server/scripts/operational-performance.ts:25-33 | a worker after its operation is the pool's step |

## Left out

- schedule.py: reading and writing JSON, calendar dates, labels, baselines, the variance helper, and the priority classes of named issue numbers, for which any number per node stands; the summary of an input in which all nodes are done.
- schedule.py: rounding of the floating-point hours; the model computes in quarter-hours, where the tolerances are exact.
- Forecaster.Schedule: the calendar has any fixed length; what the source leaves half-written when it runs off the end is not described beyond the decisions taken before.
- useOperatorDraft.ts: React, listeners, the length of the debounce, error texts, and the session store, of which only "still the same identity" is kept.
- useOperatorDraft.ts: a malformed reply counts as a failed one; a draft that expires on the server counts as deleted by another session.
- useOperatorDraft.ts: `start` is called only on a stopped controller, as the layout effect does; the order of microtasks between the result of a removal and its settling is left open.
- The server side of drafts is not part of this model beyond what the requests and the handling of status 409 imply: compare-and-swap on generation and revision, a fresh generation on creation, revision plus one on update, the stored content echoed.
- DraftTheorems.DiscardSafety: says nothing once a stop has found a creating save under way, nor of a removal whose awaited save was denied over a stored draft; DraftHazards proves that each of these can fail.
- DraftTheorems.NoEditIsLost: says nothing once a denial has emptied the screen under a discard or a rebase that may still succeed; DraftHazards proves that each of these can fail.
- DraftTheorems.CountersTellUnsaved: says nothing of a dirty draft once a cleanup has named the version of the save it waited for; DraftHazards proves that each of these can fail.
- DraftStranded.StrandedByBusyStop: once the session has changed identity only one direction holds; such a controller makes no request anyway.
- split-sql.ts: texts are sequences of Unicode scalar values; lone surrogates, which no decoded file contains, are not modelled.
- local-snooze-controller.ts: the JSON of the marker and its size bound; a marker deleted by hand; two processes on one marker; writing to the marker is atomic, and may fail before or after it takes effect.
- priority-matrix.ts: the base score, its modifiers and the percentage form of the remaining time; real arithmetic stands for floating point.
- operational-performance.ts: percentile fractions are exact; the rounding of their floating-point product with the sample count is not modelled.
- Everything else in the repository: budget, SLA-clock and ticket services, user interface, HTTP, file and process plumbing.
