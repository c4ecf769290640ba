# Hermeschain agent: verified models

Dafny models of the state machines that run the Hermeschain agent and its two front ends, with the
properties they exist for proved over all inputs and all runs.

| modules | what they model |
|---|---|
| `GitHistory`, `PublishQueue`, `PacedPusher`, `QueueDrain`, `TickOutcome`, `Pacing`, `PacerProtocol` | the paced publisher: queue commits are judged (duplicate tree, low quality, good) and replayed one at a time onto the publish branch. One pacer as a class over a shared remote and an in-memory store; any number of pacers, with crashes, lost histories and foreign pushes, as a protocol |
| `TaskStore`, `TaskLifecycle`, `LeftOverRun`, `TaskSelection`, `BacklogOrder`, `Sorting` | the task store, the worker loop over it with re-enqueues, recoveries and exceptions interleaved, and the choice of the next task |
| `LiveAgentFeed` | the resumable ambient feed |
| `Approvals`, `ProviderProtocol`, `Transfers` | the extension's approval slots, its handlers interleaved at their awaits, and what becomes of approved transfers |
| `AgentTerminal`, `SeenEvents` | the terminal's bounded seen-event index, its repeat filter, and the splitting of a paragraph into chips |
| `CommitQuality`, `Numstat` | the commit quality gate and the numstat parser |
| `AgentGoals` | goals and the progress that verified runs earn them |
| `TaskBacklog`, `TaskGenerator` | backlog generation and order; the shuffled demo task pool |

Where the source changes objects in place the model has a class whose methods are proved equal to
a function on the object's value; the lemmas are about those functions. A git commit is a value
that stands for its own hash, so equal commits are byte-identical ones, and a push without force is
accepted exactly when the remote tip is in the pushed commit's history.

Findings, each an exact condition:

- Pacing holds while status refreshes succeed: a failed refresh reports no next publish time and the
  gate lets the tick through. Exactly which ticks break the pace, and two that do:
  `Pacing.TickBreaksPaceExactly`, `Pacing.FailedRefreshBreaksPace`.
- A crash and a recovery can leave an active run behind a task that then succeeds; exceptions in the
  loop end that run and reopen the task. A finished task is safe if and only if no run of it is
  active (`TaskLifecycle.FinishedIsSafeExactly`, `LeftOverRun.SucceededTaskIsReopened`).
- A goal of n subgoals needs all n credited runs if and only if n is below 200; from there rounding
  completes it earlier (`AgentGoals.EarlyFrom200`).
- Of two approved connects both stay listed if and only if one's write comes before the other's read
  (`ProviderProtocol.ConcurrentConnectsLoseAWrite`), and overlaps are reached
  (`ProviderProtocol.OverlapIsReached`); what the list holds was approved all the same.
- A terminal restored from its cache keeps its index sound if and only if no event id is shown twice,
  and a terminal can come to show one twice (`SeenEvents.RestoreIsSoundExactly`,
  `AgentTerminal.ShownIdsCanRepeat`).

Stale recovery may come at any step in the model; the code itself recovers once, before the loop
starts (backend/src/agent/AgentWorker.ts:158-176). What a recovery in the middle of a run would do is
stated exactly (`TaskLifecycle.ExclusiveExactly`), and the loop's theorems cover every recovery that
does not hit the run at work.

Two places where the code differs from what its names and comments suggest are kept as the code
has them: a recovery does not raise a task's recovery count, because the upsert keeps the stored
one; and a status update without an error or reason keeps the old one.

Check everything with `dafny verify dfyconfig.toml`.

## Model

| member | source | states |
|---|---|---|
| GitHistory.FindByTreeIsExact | backend/src/agent/PublishQueue.ts:384-403 | the walk over the publish branch finds a commit exactly when some commit of the branch has that tree, and what it finds is on the branch and has it |
| PublishQueue.MarkRecords | backend/src/agent/PublishQueue.ts:597-642 | marking keeps all earlier rows, leaves the source processed, and keeps one row a source |
| PublishQueue.FirstPending | backend/src/agent/PublishQueue.ts:415-430 | the first unprocessed commit is not on the branch, no row names it or its tree, and every queue commit before it is decided |
| PublishQueue.NothingPending | backend/src/agent/PublishQueue.ts:415-430 | an empty unprocessed list means every queue commit is decided |
| PublishQueue.UnprocessedShrinks | backend/src/agent/PublishQueue.ts:415-430 | more history and a branch moved forward never make a decided commit pending again; deciding one strictly shrinks the list |
| PublishQueue.Store.MarkQueuedCommitProcessed | backend/src/agent/PublishQueue.ts:597-642 | the in-memory update: one row unless the source has one, the cursor always, its next time advanced only for real pushes; rows stay one a source and of their source's tree |
| PacedPusher.DecideMakesProgress | backend/src/agent/PacedPusher.ts:162-306 | every pass of the drain loop leaves strictly fewer unprocessed commits, so the loop ends |
| PacedPusher.PacedPusher.TickNow | backend/src/agent/PacedPusher.ts:107-310 | a tick in flight refuses another; else gates, drain loop, skip budget and result are those of `Tick`, and the flag is cleared on every way out, also when the push is rejected and the tick throws |
| PacedPusher.PacedPusher.DrainQueue | backend/src/agent/PacedPusher.ts:158-306 | the loop changes store and branch and answers as `Drain` says, verdict by verdict |
| QueueDrain.FirstGoodIsExact | backend/src/agent/PacedPusher.ts:181-233 | the one-pass result holds exactly the good commits whose tree is unseen and whose tree no earlier queue commit had, rejected ones included |
| QueueDrain.FirstGoodIsDistinct | backend/src/agent/PacedPusher.ts:181-200 | it holds no seen tree and no tree twice |
| QueueDrain.DecideFollowsOnePass | backend/src/agent/PacedPusher.ts:181-276 | judging, publishing and marking the front commit takes exactly the next step of the one pass |
| QueueDrain.DrainFollowsOnePass | backend/src/agent/PacedPusher.ts:162-306 | one drain publishes at most one commit, and it is the next one of the one pass, whatever was skipped first |
| QueueDrain.DrainMakesProgress | backend/src/agent/PacedPusher.ts:162-306 | unless a push is rejected, a drain shrinks a non-empty list and names no source only when nothing is left |
| QueueDrain.TicksFollowOnePass | backend/src/agent/PacedPusher.ts:107-310 | conservation over any ticks, gates, clocks, budgets and rejected pushes: published so far, then the one pass over the rest, is the one pass over everything; the branch grew by exactly the published part, in order |
| QueueDrain.DrainedIsOnePass | backend/src/agent/PacedPusher.ts:162-306 | once nothing is pending the branch has gained exactly the one-pass result, in queue order |
| QueueDrain.OnTimeTicksDrain | backend/src/agent/PacedPusher.ts:115-206 | as many ticks of an enabled leader with accepted pushes as pending commits, each at or after the due time or with a failed refresh, drain the queue under any skip budget |
| QueueDrain.ScheduledTicksPublishAll | backend/src/agent/PacedPusher.ts:107-310 | ticks on a schedule of the clock alone, each gate an interval after the tick before, put exactly the one pass over the queue on the branch, whatever the refreshes report |
| QueueDrain.DrainReports | backend/src/agent/PacedPusher.ts:158-306 | the result names the last commit decided, says whether a push went through or threw, and without one whether any duplicate was skipped; skips stay within the budget |
| QueueDrain.DrainMatchesBranch | backend/src/agent/PacedPusher.ts:181-305 | after a drain the cursor names the source the result reports, and as its published commit what the branch walk finds for that source's tree, or nothing when it finds none; a pushed commit carries the recorded time in seconds |
| QueueDrain.TicksMatchBranch | backend/src/agent/PublishQueue.ts:609-621 | so it stays over any number of ticks, after duplicate and low-quality skips and after pushes |
| Pacing.MarkKeepsPace | backend/src/agent/PublishQueue.ts:609-621 | skips leave the schedule alone; a push keeps the pace if and only if it was due |
| Pacing.RefreshedTicksArePaced | backend/src/agent/PacedPusher.ts:115-148 | with successful refreshes and clocks that run forward in each tick, pushes stay an interval apart and the next time never moves back |
| Pacing.PushesSpanIntervals | backend/src/agent/PublishQueue.ts:432-434 | k pushes of a paced history span at least k - 1 intervals |
| TickOutcome.TickPushesExactly | backend/src/agent/PacedPusher.ts:107-310 | a tick pushes if and only if publishing is enabled, the worker leads, the next time has come or the refresh failed, a commit to publish comes within the skip budget, and the remote accepts it; without the last alone it throws |
| TickOutcome.ShutGateDoesNothing | backend/src/agent/PacedPusher.ts:124-156 | behind a shut gate a tick changes nothing and answers so |
| Pacing.TickBreaksPaceExactly | backend/src/agent/PacedPusher.ts:107-310 | any tick, whatever its clock, breaks the pace if and only if an enabled leader's gate is open, a commit to publish comes within the skip budget, the remote accepts it, and the clock then reads a time before the next push is due |
| Pacing.EarlyTickBreaksPace | backend/src/agent/PublishQueue.ts:795-807 | of a tick all before the due time: if and only if the refresh failed on an enabled leader, a commit to publish comes within the skip budget, and the remote accepts it |
| Pacing.FailedRefreshBreaksPace | backend/src/agent/PublishQueue.ts:795-807 | two ticks from an empty store with good commits waiting: the second breaks the pace exactly when its refresh fails |
| PacerProtocol.MovingPushIsFresh | backend/src/agent/PacedPusher.ts:312-369 | a push that moves the branch was built on the tip it moves and brings a tree no commit of the branch has, however stale the pacer's view |
| PacerProtocol.StepKeepsInv | backend/src/agent/PacedPusher.ts:162-369 | every step of every pacer, crash, lost history and foreign push keeps the protocol's invariant and only moves the branch forward |
| PacerProtocol.RunKeepsInv | backend/src/agent/PacedPusher.ts:162-369 | so does every run; the log of landed pushes only grows |
| PacerProtocol.NeverRepublished | backend/src/agent/PacedPusher.ts:181-198 | once a tree is on the branch no pacer push of that tree moves it again |
| PacerProtocol.CrashAfterPushIsSafe | backend/src/agent/PacedPusher.ts:266-274 | a pacer that dies between push and mark: its source's tree stays on the branch and lands no second time in any later run |
| PacerProtocol.EveryTreeLandsOnce | backend/src/agent/PacedPusher.ts:181-198 | from a fresh start landed pushes carry pairwise different trees, none of them on the branch before |
| PacerProtocol.BranchIsStackOfLanded | backend/src/agent/PacedPusher.ts:320-369 | with no foreign pushes the branch is the old one with the landed commits on top, one parent each |
| PacerProtocol.GoodSourceLands | backend/src/agent/PacedPusher.ts:266-369 | an idle pacer with a good source of a new tree in front and nobody in between lands it: one commit on the tip with the source's tree, author and cleaned message, the agent as committer and the time of the push, and a row that says so |
| PacerProtocol.BadSourceIsSkipped | backend/src/agent/PacedPusher.ts:208-233 | a bad source of a new tree is recorded as skipped and nothing is pushed |
| PacerProtocol.TroubleIsAlwaysPossible | backend/src/agent/PacedPusher.ts:107-310 | the protocol rules out no death, lost history, new pacer, new commit or foreign push |
| PacerProtocol.DuplicateIsRecorded | backend/src/agent/PacedPusher.ts:181-206 | over any interleaving: a pacer that picked a source whose tree its view has never pushes it; when it marks, the source is recorded, as a duplicate of a branch commit with its tree unless somebody recorded it before, and any commit a row of the source names is such a commit |
| PacerProtocol.FetchHoldsDuplicate | backend/src/agent/PacedPusher.ts:163-165 | once the tree is on the branch, as after a push whose pacer died, a fetch is enough to bring a pacer there |
| TaskStore.UpdateStatusEffect | backend/src/agent/AgentTaskStore.ts:272-289 | a status update changes one task's status, reasons and time only |
| TaskStore.StartRunEffect | backend/src/agent/AgentTaskStore.ts:291-328 | the new run is the newest of at most 200, older ones keep their order, its task is selected and its count rises by one |
| TaskStore.EnqueueEffect | backend/src/agent/TaskSources.ts:514-548 | re-enqueueing keeps every other task and this one's status, run count and age; a new task is queued with no runs |
| TaskStore.EnqueueMeans | backend/src/agent/TaskSources.ts:514-548 | it takes over what describes the task, keeps its error, counts and place, and gives a task without scopes a reason if it has none |
| TaskStore.FinishRunEffect | backend/src/agent/AgentTaskStore.ts:408-452 | ending a run stores, outcome by outcome, its status, reasons and completion, and gives its task the matching status, error and reason, discarded when a failure used up its attempts; nothing else changes |
| TaskStore.RecoverEffect | backend/src/agent/AgentTaskStore.ts:454-496 | a recovery recovers every task and run and touches no order |
| TaskStore.RecoveredMeans | backend/src/agent/AgentTaskStore.ts:454-496 | a stale selected or running task is queued again with the error noted, a stale active run failed and completed; others stay as they are |
| TaskStore.CurrentRunIsNewest | backend/src/agent/AgentTaskStore.ts:553-563 | the current run is the newest active one |
| TaskStore.AgentTaskStore.UpsertSourceTask | backend/src/agent/AgentTaskStore.ts:166-178 | a known task keeps its run count, recovery count and age whatever the input says, and its place; a new one goes last, with counts of zero unless given; everything else is the input's; no other task and no run changes |
| TaskStore.AgentTaskStore.UpdateSourceTaskStatus | backend/src/agent/AgentTaskStore.ts:272-289 | the in-place form of the status update |
| TaskStore.AgentTaskStore.BeginRun | backend/src/agent/AgentTaskStore.ts:291-328 | the in-place form of starting a run, with the cap and the count raised on the stored record |
| TaskStore.PatchRunEffect | backend/src/agent/AgentTaskStore.ts:377-406 | an update changes the run with that id and its time: a field it names takes the value given, every other field stays; an unknown id changes nothing |
| TaskStore.AgentTaskStore.UpdateRun | backend/src/agent/AgentTaskStore.ts:377-406 | the in-place update of status, reasons and completion: left-out fields stay, cleared fields are cleared |
| TaskStore.AgentTaskStore.EndRun | backend/src/agent/AgentTaskStore.ts:408-452 | the in-place form of finishing a run, dead-lettering included |
| TaskStore.AgentTaskStore.GetCurrentRun | backend/src/agent/AgentTaskStore.ts:553-563 | the loop returns the newest active run |
| TaskStore.AgentTaskStore.RecoverStuckTasks | backend/src/agent/AgentTaskStore.ts:454-496 | the two loops recover exactly the stale tasks and runs and return exactly the stale tasks' ids |
| TaskLifecycle.AnythingCanHappen | backend/src/agent/AgentWorker.ts:1029-1119 | the loop is never stuck and no result, exception, re-enqueue, recovery or death is ruled out |
| TaskLifecycle.RetryDelayTable | backend/src/agent/TaskSources.ts:373-380 | thirty seconds doubled per failure, a quarter of an hour at most |
| TaskLifecycle.EligibleExactly | backend/src/agent/TaskSources.ts:778-784 | a task can run if and only if it is queued, or has failed and waited out the delay for its run count |
| TaskLifecycle.RetryDelayIsMonotone | backend/src/agent/TaskSources.ts:373-380 | more runs never mean a shorter delay |
| TaskLifecycle.StepKeepsInv | backend/src/agent/AgentWorker.ts:1029-1119 | every step keeps: failed tasks have attempts left, and counts are within attempts plus recoveries |
| TaskLifecycle.TraceKeepsInv | backend/src/agent/AgentWorker.ts:1029-1119 | and so does every run of the loop |
| TaskLifecycle.RunsPerTaskAreBounded | backend/src/agent/AgentTaskStore.ts:499-529 | every task is run at most `maxFailures` times plus its stale recoveries, whatever re-enqueues, exceptions and crashes come between; `failed` implies attempts left |
| TaskLifecycle.TotalRunsAreBounded | backend/src/agent/AgentTaskStore.ts:499-529 | in all, at most `maxFailures` runs a known task plus one a recovery |
| TaskLifecycle.TerminalTasksAreFinal | backend/src/agent/AgentTaskStore.ts:408-496 | without worker deaths, succeeded and discarded tasks keep their status and are never run again, and only the worker's run is ever active |
| TaskLifecycle.ExclusiveExactly | backend/src/agent/AgentWorker.ts:1029-1119 | a step breaks the one run at a time if and only if it is the worker's death, or a recovery that finds its run or task stale, in the middle of a run |
| TaskLifecycle.LoopIsExclusive | backend/src/agent/AgentWorker.ts:1029-1119 | at every loop point the worker's run is the one active run, the newest and the current one, and its task the only one selected or in progress: if and only if no step disturbs the worker so |
| TaskLifecycle.RunsEndOnce | backend/src/agent/AgentTaskStore.ts:314-452 | in such runs every begun run is the unfinished one or ended exactly once, by result or by exception, and shows the outcome it was ended with; the ended runs stand in the order begun, keep their contents under newer ones, and are missing only from the old end of a list at its cap of 200 |
| TaskLifecycle.RecoveryMidRunIsUndone | backend/src/agent/AgentTaskStore.ts:377-496 | a recovery in the middle of a run and the worker's next update end that run and make it active again, if and only if the run was stale |
| TaskLifecycle.FinishedChangesExactly | backend/src/agent/AgentTaskStore.ts:408-452 | whatever crashed before, a step gives a finished task another status if and only if it ends a left-over run of that task with another outcome |
| TaskLifecycle.FinishedIsSafeExactly | backend/src/agent/AgentTaskStore.ts:408-452 | from the store at hand, a succeeded task, or a discarded one with attempts left, keeps its status under all further steps, crashes and recoveries included, if and only if no run of it is active |
| TaskLifecycle.SettledStays | backend/src/agent/AgentTaskStore.ts:408-452 | a finished task without an active run keeps its status and is never started again, whatever is done |
| TaskLifecycle.ExceptionsReachIt | backend/src/agent/AgentWorker.ts:1105-1119 | with an active run of it left, exceptions one after the other give it another status |
| LeftOverRun.LeftOverIsReached | backend/src/agent/AgentTaskStore.ts:454-496 | from the empty store, a crash and a recovery whose cutoff lies between the task's and the run's last update: the task succeeds in its second run while its first is still active |
| LeftOverRun.SucceededTaskIsReopened | backend/src/agent/AgentWorker.ts:1105-1119 | from there steps exist that give the succeeded task another status |
| TaskLifecycle.ExceptionReopensExactly | backend/src/agent/AgentWorker.ts:1105-1119 | an exception reopens a finished task if and only if the current run belongs to it and it has attempts left |
| TaskLifecycle.NextRunWaits | backend/src/agent/TaskSources.ts:778-784 | a task that failed is started again no sooner than its retry delay, whatever re-enqueues, recoveries and worker deaths come between |
| TaskLifecycle.FailedRunBacksOff | backend/src/agent/TaskSources.ts:373-380 | after any failed run with count k the next start comes at least the delay for k later; with the attempts used up there is none, unless an active run of the task is left over |
| TaskSelection.CandidatesAreReady | backend/src/agent/TaskSources.ts:765-790 | the candidates are exactly the ready tasks inside the 300-task window |
| TaskSelection.ListIsOrdered | backend/src/agent/AgentTaskStore.ts:241-264 | the listing is ordered by status (queued, selected, in progress, failed, blocked, succeeded, discarded), then highest priority, then newest update |
| TaskSelection.WindowIsFirst | backend/src/agent/AgentTaskStore.ts:241-264 | nothing outside a full window is listed before anything inside |
| TaskSelection.PickIsFirstScoped | backend/src/agent/TaskSources.ts:790-819 | the pick is the first candidate with edit scopes and exactly the candidates before it are blocked |
| TaskSelection.BlockAllEffect | backend/src/agent/TaskSources.ts:790-819 | blocking changes the listed tasks' status, reason and time and no other task |
| TaskSelection.ChosenHasTopPriority | backend/src/agent/TaskSources.ts:765-819 | despite the window, the choice has at least the priority of every queued task with scopes in the whole store |
| TaskSelection.ChosenIsBest | backend/src/agent/TaskSources.ts:765-819 | up to 300 tasks: no ready scoped task has a higher priority than the choice, nor at equal priority a smaller backlog sequence, nor at equal sequence an earlier creation; exactly scope-less tasks ordered before it turn blocked; no choice only when no ready task has scopes |
| TaskSelection.SelectionIsSteps | backend/src/agent/TaskSources.ts:765-819 | a selection is a run of the worker loop's block and choose steps, so the loop's theorems cover it |
| TaskSelection.TaskSources.GetNextTask | backend/src/agent/TaskSources.ts:765-819 | the loop over the candidates changes the store and answers as `NextTask`, which ChosenIsBest describes on the fields |
| BacklogOrder.BacklogIsWorkedInOrder | backend/src/agent/TaskSources.ts:765-819 | repeated selection and success over backlog tasks of one priority works them in sequence order, each once: the first k after k rounds |
| Sorting.SortIsSortedPermutation | backend/src/agent/AgentTaskStore.ts:241-250 | the sort orders by any consistent comparator and keeps the elements |
| Sorting.SortIsStable | backend/src/agent/AgentTaskStore.ts:241-250 | elements the comparator does not tell apart keep their order |
| LiveAgentFeed.AdvanceSkipsNothing | frontend/src/liveAgentFeed.ts:731-738 | moving on from the end of a workstream skips no step |
| LiveAgentFeed.PlayWorkstreamPlays | frontend/src/liveAgentFeed.ts:804-878 | a workstream stopped anywhere has played exactly the steps between its two cursors |
| LiveAgentFeed.SessionPlays | frontend/src/liveAgentFeed.ts:880-907 | so has a feed from any cursor, its workstream inside the list or not, stopped anywhere, in strictly increasing (cycle, workstream, step) order |
| LiveAgentFeed.SessionsPlay | frontend/src/liveAgentFeed.ts:644-650 | and any number of feeds, each resumed from the last published cursor |
| LiveAgentFeed.ResumedIsPrefix | frontend/src/liveAgentFeed.ts:804-907 | from any cursor, what stopped and resumed feeds played is a prefix of what one uninterrupted feed plays: nothing repeated, nothing skipped |
| LiveAgentFeed.EveryStepIsPlayed | frontend/src/liveAgentFeed.ts:880-907 | from any cursor, every step at or after the start is played once nobody stops the feed for long enough, and from then on |
| LiveAgentFeed.UnstoppedFeedGoesOn | frontend/src/liveAgentFeed.ts:880-907 | a feed with any step to play, left alone for long enough, plays as many as one likes |
| LiveAgentFeed.Feed.RunWorkstream | frontend/src/liveAgentFeed.ts:781-878 | the step loop plays as specified and has published its cursor whenever it returns |
| LiveAgentFeed.Feed.Loop | frontend/src/liveAgentFeed.ts:880-907 | so does the main loop |
| Approvals.SettledOnce | extension/src/background.ts:98-105 | a settled slot stays settled the same way under later decisions and closed windows |
| Approvals.CloseWindowProgresses | extension/src/background.ts:118-122 | closing a window settles slots without losing or changing any outcome |
| Approvals.CloseWindowExactly | extension/src/background.ts:118-122 | a closed window rejects the pending slots shown in it and touches no other |
| Approvals.PendingApprovals.SettleSlot | extension/src/background.ts:98-105 | settling removes the slot and records the outcome, or does nothing |
| Approvals.PendingApprovals.OnWindowRemoved | extension/src/background.ts:118-122 | the loop rejects exactly the slots of that window, while the map shrinks under it |
| ProviderProtocol.StepKeepsInv | extension/src/background.ts:54-155 | every step between awaits keeps: each handler past its prompt has an approval of its own, each listed origin was approved |
| ProviderProtocol.RunKeepsInv | extension/src/background.ts:54-155 | so does every interleaving, and no call, slot or outcome is taken back |
| ProviderProtocol.TransfersWereApproved | extension/src/background.ts:140-151 | for every origin and payload, submitted transfers never outnumber approved sign-and-send slots with that origin and payload |
| Transfers.ApprovedIsSubmittedExactly | extension/src/background.ts:140-151 | over any run, an approved sign-and-send call whose handler is over was submitted if and only if the handler neither failed nor was evicted after the approval |
| Transfers.TransferIsReached | extension/src/background.ts:126-151 | from every fresh state, for any site, recipient and amount, a run connects the site and submits the approved transfer |
| Transfers.SubmittedWereTrusted | extension/src/background.ts:140-145 | every submitted transfer has a recipient and comes from a site connected before or by an approval |
| Transfers.ContinueMeans | extension/src/background.ts:128-146 | a prompt opens exactly for a connect of an unconnected site, or a complete transfer of a connected one on an unlocked wallet, with the call's own origin and payload |
| Transfers.NoPromptWhileLocked | extension/src/background.ts:142 | while the wallet is locked no prompt for a transfer opens, in any run |
| Transfers.TroubleIsAlwaysPossible | extension/src/background.ts:118-155 | the protocol rules out no closed window, eviction or handler error |
| Transfers.DisconnectUnlists | extension/src/background.ts:67-69 | in any run, a disconnect's write leaves its site unlisted and, of the sites it read, every other |
| ProviderProtocol.SubmitsOnce | extension/src/background.ts:140-151 | no handler submits twice |
| ProviderProtocol.ConnectionsWereApproved | extension/src/background.ts:60-69 | every origin ever in the connection list was there before or had an approved connect, even when list writes are lost |
| ProviderProtocol.SlotsSettleOnce | extension/src/background.ts:98-122 | an outcome never changes in any later run |
| ProviderProtocol.WriteLosesExactly | extension/src/background.ts:60-66 | in any run, the write of a connect loses exactly the origins listed since its own read |
| ProviderProtocol.UninterruptedConnectLosesNothing | extension/src/background.ts:60-66 | a connect with no other write between its read and its write loses nothing and lists its origin |
| ProviderProtocol.ConcurrentConnectsLoseAWrite | extension/src/background.ts:60-66 | of two approved connects, among any steps that do not write, both origins end up listed if and only if one's write comes before the other's read |
| ProviderProtocol.OverlapIsReached | extension/src/background.ts:126-137 | from every fresh state a run exists in which two connects are approved and only one origin is listed |
| AgentTerminal.FingerprintTellsApart | frontend/src/AgentTerminal.tsx:388-392 | blocks of different kinds never look alike; of one kind, text, code, path or message decide |
| AgentTerminal.ShownExactly | frontend/src/AgentTerminal.tsx:394-397 | a block that looks like one of the last six is dropped, any other is shown last among at most 120 |
| AgentTerminal.NoEventNoMemory | frontend/src/AgentTerminal.tsx:563-583 | a block without an event id, or with an empty one, is remembered by none |
| AgentTerminal.ShownKeepsNoNearRepeats | frontend/src/AgentTerminal.tsx:394-397 | blocks within six of each other look different, through trimming to 120 |
| SeenEvents.DistinctIdsAgree | frontend/src/AgentTerminal.tsx:576-582 | an index without repeated ids holds the last 1500 accepted ids, in set and queue alike |
| SeenEvents.RepeatedIdBreaksExactly | frontend/src/AgentTerminal.tsx:479-484 | an index restored with a repeated id parts set and queue exactly when the first such place is dropped from the queue |
| SeenEvents.RestoreIsSoundExactly | frontend/src/AgentTerminal.tsx:479-484 | a restored index stays sound under all later events if and only if the restored ids are distinct |
| AgentTerminal.ShownIdsCanRepeat | frontend/src/AgentTerminal.tsx:563-583 | a run from an empty terminal after which the blocks shown carry one event id twice |
| AgentTerminal.Terminal.constructor | frontend/src/AgentTerminal.tsx:479-484 | any cached blocks are cut to 120 and their event ids are what is seen; the result is valid if and only if the ids are distinct and no near blocks look alike |
| AgentTerminal.Terminal.Reload | frontend/src/AgentTerminal.tsx:325-334 | saving and restoring a terminal is sound if and only if no id is shown twice, so always while at most 1500 ids have been accepted |
| AgentTerminal.Terminal.AppendBlock | frontend/src/AgentTerminal.tsx:563-583 | on a valid terminal an event is refused exactly when it is among the last 1500 accepted ids, and the terminal stays valid; on any terminal the change is that of `Append` |
| AgentTerminal.Terminal.RememberEvent | frontend/src/AgentTerminal.tsx:576-582 | the trimming loop is `Remember`, whose effect the lemmas on the index state |
| AgentTerminal.PartsAreExact | frontend/src/AgentTerminal.tsx:425-444 | from any cursor: chips apart give back the rest of the text, any overlap gives strictly more |
| AgentTerminal.RenderIsExact | frontend/src/AgentTerminal.tsx:421-444 | the parts spell the text if and only if, in start order and within the text, no chip begins before the previous one ends |
| AgentTerminal.DisjointChipsRenderExactly | frontend/src/AgentTerminal.tsx:421-444 | non-overlapping chips of positive length, in any order and past the end of the text, give back exactly the text |
| AgentTerminal.ChipsAreMarked | frontend/src/AgentTerminal.tsx:427-439 | the marked parts are the chips' own stretches of the text, one a chip, in start order |
| AgentTerminal.RenderSorted | frontend/src/AgentTerminal.tsx:426-444 | the cursor loop emits the specified parts |
| Strings.SplitOfJoin | backend/src/agent/CommitQuality.ts:227-243 | splitting what was joined gives the parts back when none holds the separator |
| Strings.JoinOfSplit | backend/src/agent/CommitQuality.ts:227-243 | joining what was split gives any text back |
| Strings.TrimTakesSpaces | backend/src/agent/CommitQuality.ts:227-243 | trimming takes spaces off both ends and nothing else |
| Numstat.CountsAreLenient | backend/src/agent/CommitQuality.ts:227-243 | a dash is a binary file's count, leading digits count, anything else is zero |
| Numstat.LineReadsBack | backend/src/agent/CommitQuality.ts:227-243 | a printed line reads back as its entry, binary counts and tabs in paths included |
| Numstat.ParseInvertsPrint | backend/src/agent/CommitQuality.ts:227-243 | every list of printable entries reads back from its printed text, as it is and trimmed |
| Numstat.SkippedExactly | backend/src/agent/CommitQuality.ts:227-243 | a line is skipped if and only if, trimmed, it has fewer than two tabs |
| Numstat.ParseNumstat | backend/src/agent/CommitQuality.ts:227-243 | the line loop yields what the line-wise specification does |
| CommitQuality.OrderIsIrrelevant | backend/src/agent/CommitQuality.ts:150-190 | reordering files changes no total, no maximum and no category's multiset |
| CommitQuality.VerdictIgnoresOrderAndDist | backend/src/agent/CommitQuality.ts:120-215 | in both modes verdict and reason depend only on the multiset of files outside dist, when there is one |
| CommitQuality.AcceptsExactly | backend/src/agent/CommitQuality.ts:120-215 | what each mode accepts, as a condition on the files themselves that does not depend on the order of the code's tests |
| CommitQuality.ReasonsAreOrdered | backend/src/agent/CommitQuality.ts:120-215 | which reason is given when, with its figures, in the order of the code's tests |
| CommitQuality.TotalIsSum | backend/src/agent/CommitQuality.ts:96-98 | insertions add up file by file, a binary file's as none |
| CommitQuality.MessageIsSubjectAndBody | backend/src/agent/CommitQuality.ts:120-140 | a message is its first line followed by its body |
| CommitQuality.StrictImpliesAuthorship | backend/src/agent/CommitQuality.ts:120-215 | what the publish boundary accepts, the authorship boundary accepts |
| AgentGoals.PercentIsNearest | backend/src/agent/AgentGoals.ts:514-516 | the percentage is the nearest whole number, the upper one of a half but for the four halves that doubles fall short of |
| AgentGoals.PercentReaches | backend/src/agent/AgentGoals.ts:514-516 | the share, rounded as doubles round it, is 100 exactly from 199/200 of the subgoals on |
| AgentGoals.UpdateProgressMeans | backend/src/agent/AgentGoals.ts:310-323 | progress is kept between 0 and 100; a goal completes at 100 and sets out at the first progress |
| AgentGoals.CreditEffect | backend/src/agent/AgentGoals.ts:503-513 | of any subgoals, the first active or else the first pending is done and the first pending one left becomes active |
| AgentGoals.CreditAdvances | backend/src/agent/AgentGoals.ts:497-519 | one verified run moves a goal from k done, one active, the rest pending, to k + 1 done |
| AgentGoals.GoalAfterRuns | backend/src/agent/AgentGoals.ts:497-519 | a goal of n string subgoals after k credited runs: that shape, the share as doubles round it, open until there is progress, completed exactly from `RunsToComplete(n)` on |
| AgentGoals.ProgressIsMonotone | backend/src/agent/AgentGoals.ts:310-323 | progress never falls on the way |
| AgentGoals.EarlyFrom200 | backend/src/agent/AgentGoals.ts:514-516 | all n runs are needed if and only if n is below 200 |
| AgentGoals.GoalWithoutSubgoals | backend/src/agent/AgentGoals.ts:517-519 | a goal without subgoals gains ten a run and completes at the tenth |
| AgentGoals.OverlapCounts | backend/src/agent/AgentGoals.ts:386-405 | the overlap counts the goal's tags among the given ones |
| AgentGoals.AgentGoalsSystem.GetGoalForObjectiveTags | backend/src/agent/AgentGoals.ts:386-405 | the open goal sharing most tags, the first of equals, none when none shares any |
| AgentGoals.AgentGoalsSystem.RecordVerifiedProgressByTags | backend/src/agent/AgentGoals.ts:497-519 | exactly that goal is credited, every other one is as it was |
| TaskBacklog.CreateBacklog | backend/src/agent/TaskBacklog.ts:1917-1964 | the three nested loops, one method each, yield the backlog: every step of every workstream of every phase, in order and numbered through |
| TaskBacklog.BacklogIsNumbered | backend/src/agent/TaskBacklog.ts:1924-1979 | sequences are exactly 1 to n and n is the sum of the phases' commit counts |
| TaskBacklog.BacklogHasEveryStep | backend/src/agent/TaskBacklog.ts:1917-1964 | every step of every workstream of every phase has its task, with its id and title and its phase's priority plus the step's offset, cut to 1 to 10 |
| TaskBacklog.BacklogTaskAt | backend/src/agent/TaskBacklog.ts:1917-1964 | and it stands after exactly the tasks of earlier phases, earlier workstreams and earlier steps |
| TaskBacklog.IdsReadBack | backend/src/agent/TaskBacklog.ts:1930 | an id determines its phase, workstream and step when ids hold no colon |
| TaskBacklog.BacklogHasDistinctIds | backend/src/agent/TaskBacklog.ts:1917-1964 | unique colon-free phase and workstream ids make all task ids distinct |
| TaskBacklog.ByPriorityIsStrictlyOrdered | backend/src/agent/TaskBacklog.ts:1999-2001 | the priority list is a permutation of the backlog, most urgent first, ties in sequence |
| TaskBacklog.WorkIsHandedInOrder | backend/src/agent/TaskBacklog.ts:2032-2038 | taking and completing tasks hands out exactly the open ones, in sequence, each once |
| TaskBacklog.FreshWorkIsTheBacklog | backend/src/agent/TaskBacklog.ts:2032-2038 | k rounds on a generated backlog hand out its first k tasks |
| TaskBacklog.Progress.GetNextBacklogTask | backend/src/agent/TaskBacklog.ts:2032-2034 | the first task in sequence that is not completed |
| TaskGenerator.ShuffleKeepsMultiset | backend/src/agent/TaskGenerator.ts:490-496 | any random draws keep the pool's entries |
| TaskGenerator.EveryArrangementIsDrawn | backend/src/agent/TaskGenerator.ts:490-496 | every arrangement of the pool comes from some draws |
| TaskGenerator.DrawsAreUnique | backend/src/agent/TaskGenerator.ts:490-496 | and, without repeats, from only one: the shuffle is unbiased |
| TaskGenerator.TaskGenerator.ShuffleTasks | backend/src/agent/TaskGenerator.ts:490-496 | the in-place loop is the shuffle |
| TaskGenerator.TaskGenerator.GetNextTask | backend/src/agent/TaskGenerator.ts:498-514 | each round of N draws hands out each of the N entries exactly once before the next shuffle |

## Left out

- Git subprocesses, fetching, unshallowing and branch set-up: a tick's view of the branches is an input, and a push is one step.
- The SQL branches of the history, cursor, task and goal stores, and reloading them at a restart with its limits of 500 tasks and 200 runs; the in-memory branches are modelled.
- Leader election and the environment switches: they are flags in a tick's input. A non-numeric failure limit in the environment is not modelled.
- The rewriting of published commit messages: an arbitrary function.
- The walk of the publish branch in `git log` order when it has merge commits: only that some commit with the tree is found, not which.
- In the protocol of many pacers the duplicate check, the quality gate and the parent lookup are one step over one local view.
- PacedPusher.PacedPusher.TickNow: of the exceptions only a publish that fails in git is modelled, not a failing history store; a death between push and mark is a step of the many-pacer protocol.
- TaskLifecycle.TerminalTasksAreFinal: without worker deaths only; with them FinishedIsSafeExactly has the exact condition.
- TaskLifecycle.FinishedIsSafeExactly: of a discarded task with its attempts used up only one half is proved, that without an active run it is safe (SettledStays); an exception then discards it again.
- TaskStore.AgentTaskStore.UpdateRun: leaves out the descriptive fields of a run, which nothing in the store reads: verification status, changed files, failure class, output and context summary.
- Descriptive fields of tasks, evidence, verification plans, and the administrator's requeue and discard calls; a store operation reads the clock once; an empty error text is taken as an error text.
- The scanners that find tasks, their cool-downs, and the verification a run goes through: a run's outcome is an input.
- The library sort is a stable insertion sort.
- The feed's texts, pauses, yielding to other feeds and callback errors; its workstream list is fixed while it plays and given by step counts.
- The extension's wallet, its account listing, the transfer's signature and the page it shows while it waits; a handler error after approval is a step that ends the handler.
- Block sanitizing, typing effects, styling and the commit playback of the terminal.
- The patterns that classify paths, find stub markers and DDL and count prose lines: arbitrary functions in a `Reader`. Counts beyond 2^53.
- Goal texts, logs, the lower-casing of tags and subgoals given as objects. Percentages are rounded halves up but for the four halves that doubles fall short of (14.5, 28.5, 56.5, 57.5), which is what doubles give for goals of fewer than 10^12 subgoals.
- Backlog descriptions, tags, scopes and the minutes and percent summaries.
- Task prompts and the fresh display id of a drawn pool task.
