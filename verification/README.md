# Render farm model

A Dafny 4.11 model of a distributed Blender render farm, with proofs about it: the render scheduler and the driver that
executes its chunks, the parser that reads frame ranges out of `.blend` files, and four smaller protocols around them.

`dafny verify dfyconfig.toml` checks the project.

## What is modelled

**Splitting a render** (`Grid`, `FrameDistribution`, `Tiling`, `Fairness`). A stepped frame range is shared over scored
machines and shared again over parallel serverless workers. Scores and the rounding are arbitrary; fairness is proved over
exact rationals for every rounding to the nearest integer.

**Keeping it going** (`RenderJobs`, `Fleet`, `Scanner`, `ScanEffects`, `Retries`, `Reports`, `Conservation`, `RetryBound`,
`RowGrowth`, `GroupStatus`, `GroupRuns`, `GroupTruth`, `StaleDecisions`, `SmallRuns`, `FleetManagement`, `FailoverScanning`).
The job table of one render group with every way the scheduler changes it. Provider calls succeed or fail as an oracle says,
and every decision and every report may rest on rows as some earlier query returned them. The one assumption about workers is
what their reports say of the row at the moment they are stored, and it is exact (`ProgressKeepsIff`, `FinishKeepsIff`,
`FailureKeepsIff`, `RegisterKeepsIff`); `OutlivedWorkerLosesFrames` shows what happens otherwise. The invariant is that a
row's total is at least the length of its range, not equal to it, since a retry moves the start and leaves the total.
`FleetManagement` and `FailoverScanning` are the two objects of the source; every method of theirs is an event of the
conservation theorem.

**Rendering a chunk** (`RenderDriver`, `CameraChoice`, `ChunkedRender`, `OutputNames`, `Decimals`). Camera ranges, forced
camera and timeline markers; the assignments of frames to cameras; the file name of every frame. Paths are POSIX paths.

**Reading a .blend file** (`Bytes`, `BlendFile`, `SdnaTable`, `FieldLayout`, `BlendParser`, `BlendScenes`, `BlendSample`).
From raw bytes to the frame range of the active scene: header variants, three block layouts, both byte orders, the file's own
struct table, field declarators, and the exceptions that escape. `BlendScenes` writes files from scenes and proves that
parsing gives back what was written; `BlendSample` pins the format down on bytes written out by hand.

**Uploading a scene** (`MultipartUpload`, `UploadSafety`, `UploadAttempts`, `UploadBatches`, `UploadOutcome`, `Uploader`). Up
to four workers that interleave at every `await`. `MultipartUpload` gives each section between two awaits as a function on the
shared state, the next four modules prove what every interleaving keeps, and `Uploader` is the object whose methods are those
sections: it carries the run that led to its state, and its last method ends in what the theorems promise of every run.

**Smaller machines** (`Preflight`, `EglWatchdog`, `Backoff`). The dependency-gated preflight runner, the watchdog that kills
wedged renders, and the two deadline-bounded retry loops.

Loops and objects of the source are methods and classes here, each proved equal to a function of its inputs or old state;
the lemmas are about those functions.

## Properties that turned out false

- "Every kept machine gets a frame": false (`AKeptMachineCanGetNothing`); exactly when it holds is `NoEmptyChunkIff`.
- "Output names never collide": false with a `#` in the directory (`HashInDirectoryHidesNumber`); `NamesNeverCollideIff`.
- "Retries are bounded": false for the scanner when a failed row rendered something, since the cap counts failures of a job's own
  range and not of the tail it hands over (`ScansAreUnbounded`); `TickStaysIff` says exactly when a tick can leave more rows on a range
  than a given limit. True for a range whose failed rows rendered nothing and that nothing else runs into (`RetriesEnd`,
  `PlannedChunksEnd`). False for failures that workers report (`ReportedFailuresAreUnbounded`).
- "A done job stays done": false; over whole runs it holds if and only if no step undoes the row (`RowStaysIff`), and whether a step
  does is decided by what it read (`EventUndoesIff`, `TickUndoesIff`, `TerminalPassUndoesIff`, and a cancel). `StaleTickHappens` and
  `StaleReportHappens` are runs. When every step reads what is there, two kinds of step remain (`FreshUndoesIff`): a row given up without
  being read, as by a dispatch that throws late, and a failure handled while the row has frames left.
- "A done group stays done": false; over whole runs it holds if and only if there is no cancel, no accepted confirmation and no status
  request that read a pending group with a running row, or a group neither failed nor cancelled with only failed rows
  (`GroupStaysIff`). `ThrownDispatchUndoesGroup` and `StaleStatusUndoesGroup` are runs.
- "Registered outputs are counted right": false after a retry (`RegistrationLosesFrames`); `RegisterKeepsIff` says exactly when.
- "A done group has all its frames": true when all rows are done, false when it was stored as done by the counts of its rows
  (`CountedTwice`); `RowsGuaranteeIff` says exactly when the rows guarantee it. "A finished group is done": false too (`NeverCounted`);
  `FinishedIsDoneIff` says exactly when, and `CountsReachTotalIff` when no chunk is repeated.
- "Chunks render the whole": false below frame 1, where the driver raises the start of each chunk on its own (`PlannedBelowOne`,
  `StartsBelowOneDiffer`); `ChunksRenderTheWholeIff` says exactly when it holds.
- "Uploaded bytes stay within the file": false when the progress of an attempt goes back and the attempt is stored all the same
  (`RestartedProgressOvercounts`); `FinalBytesIff`, and `BytesAreExact` for the exact amount.
- The preflight documentation says non-required steps never block the result; a skipped one does, through the required step
  behind it, or because its dependency is unknown (`UnknownDependencyBlocks`). `AboutRequiredIff` says for which lists of steps the
  documentation is right, and `TrueIffRequiredSucceeded` what the result is for every list.

## Model

| member | source | states |
|---|---|---|
| `Grid.FramesLength` | render_scripts/render_driver.py:502-508 | the closed form `(end - start) // step + 1` (0 for an empty range) is the number of frames of the stepped range |
| `Grid.SplitAt` | server/scheduling/frame_distribution.py:108-131 | cutting a stepped range after k frames, and never past its end, gives two ranges whose frames, one after the other, are those of the whole |
| `Grid.CutCount` | server/scheduling/frame_distribution.py:108-131 | the piece cut off has min(k, frames) frames and the rest has what is left |
| `FrameDistribution.RankedIsStableSort` | server/scheduling/frame_distribution.py:66-70 | the machines are ranked by a stable descending sort: same machines, higher scores first, equal scores in their old order |
| `FrameDistribution.LimitMachines` | server/scheduling/frame_distribution.py:62-77 | the greedy loop over the ranked machines, with its single-machine fallback, computes `Limited` |
| `FrameDistribution.LimiterFitsAndIsMaximal` | server/scheduling/frame_distribution.py:62-77 | the kept machines are some of the given ones, strongest first; their minimum demands fit the budget and no left-out machine would still fit, or none fits and only the strongest is kept; nothing is kept only if nothing was given |
| `FrameDistribution.StrongerComeFirst` | server/scheduling/frame_distribution.py:62-77 | weaker machines never take the frames of a stronger one: after the kept machines of at least its score too few frames are left for a machine left out, unless a single machine is kept that nothing was enough for |
| `FrameDistribution.DemandInFrames` | server/scheduling/frame_distribution.py:57-76 | the minimum demands, in numbers: 5 frames for a Modal machine, 10 for a Vast machine, 2 for a desktop |
| `FrameDistribution.DistributeFrames` | server/scheduling/frame_distribution.py:84-133 | the loop over kept machines, with its round-up to 1, its clamp at the end and last-takes-rest, computes `Distributed` |
| `FrameDistribution.ExpandServerless` | server/scheduling/frame_distribution.py:140-196 | the loop over assignments computes `Expanded` |
| `FrameDistribution.ExpandOne` | server/scheduling/frame_distribution.py:149-168 | one assignment is left whole (desktop, one worker, one frame) or split over the computed number of workers |
| `FrameDistribution.SplitOverWorkers` | server/scheduling/frame_distribution.py:170-194 | the worker loop with its two early exits computes the sub-chunks |
| `FrameDistribution.Plan` | server/scheduling/orchestrator.py:31-59 | both splits and the numbering of chunks compute `Planned` |
| `Tiling.SpreadTiles` | server/scheduling/frame_distribution.py:84-133 | for any weights, quotas and rounding the chunks of the machines, in order, are exactly the stepped range, one chunk a machine, and every recorded total is the chunk's frame count |
| `Tiling.SubChunksTile` | server/scheduling/frame_distribution.py:170-194 | the sub-chunks of one assignment, in order, are exactly its frames, with exact totals |
| `Tiling.ExpandedTiles` | server/scheduling/frame_distribution.py:140-196 | serverless expansion keeps the covered frames, their order, the step, and exactness of totals |
| `Tiling.PlanTiles` | server/scheduling/orchestrator.py:31-59 | with any machine at all, any scores and any rounding, the planned chunks read in order are exactly the range; totals are exact; chunks are numbered 0, 1, ... |
| `Tiling.PlanPartitions` | server/scheduling/orchestrator.py:31-59 | every frame of the range lies in exactly one chunk, no chunk holds any other frame, and lower-numbered chunks hold only smaller frames |
| `Tiling.ExpansionSizes` | server/scheduling/frame_distribution.py:45-54 | when a share is split and how: a Modal or Vast share of which two configured workers can have 5 or 10 frames each goes to as many workers as can, each with at least that, all but the last with the same number, the last with fewer than workers more; every other share stays whole |
| `Fairness.HalfEvenIsNearest` | server/scheduling/frame_distribution.py:116-117 | Python's half-to-even `round` never moves a number by more than a half |
| `Fairness.QuotasAddUp` | server/scheduling/frame_distribution.py:96-117 | the proportional shares are nonnegative and add up to all frames, also when scores add up to nothing and all count as 1 |
| `Fairness.SpreadFair` | server/scheduling/frame_distribution.py:96-131 | by induction along the loop: while the frames left stay near the sum of the remaining quotas, machine i ends within max(1, i) frames of its own quota |
| `Fairness.SharesAreFair` | server/scheduling/frame_distribution.py:84-133 | stated on the scores, for any nearest rounding: machine i of those kept gets chunk i, and its frames are within max(1, i) of t * score / sum of scores, or of t / machines if the scores add up to nothing; a single machine gets everything |
| `Fairness.NoEmptyChunkIff` | server/scheduling/frame_distribution.py:108-131 | no machine is left without a frame exactly when the rounded quotas of all machines but the last add up to less than the range |
| `Fairness.AKeptMachineCanGetNothing` | server/scheduling/frame_distribution.py:108-131 | a concrete split in which rounding uses the range up and a kept machine gets a zero-frame chunk |
| `Fleet.FailoverPreference` | server/scheduling/fleet.py:332-360 | the chosen machine is available and not the failed one; Vast wins if there is one; a failed serverless job never goes to Modal; a desktop is chosen for a desktop only when nothing else is left; there is a choice exactly when an admissible machine is available |
| `FleetManagement.FleetManager.DispatchAll` | server/scheduling/fleet.py:145-190 | one pending row for every planned task, and one dispatch handed to its machine's provider strategy, in order, after whatever rows an earlier confirmation left; on an empty table the object then keeps its promise for this plan. A disabled provider ignores what it is handed (fleet.py:383-384), and a serverless dispatch that throws fails its row in a later step of its own thread (fleet.py:408-420, 434-441), which is `GiveUp` |
| `FleetManagement.PlanAndExecute` | server/scheduling/orchestrator.py:31-82 | plan and execute add the rows of the plan; on an empty table the object is then in exactly the world the conservation theorem starts from |
| `FleetManagement.FleetManager.NothingLost` | server/scheduling/orchestrator.py:86-123 | whatever sequence of its methods has been called, every frame of the range is rendered or owed by every row of its chunk |
| `FleetManagement.FleetManager.GiveUp` | server/scheduling/fleet.py:287-294 | failing or cancelling a row outright keeps the promise |
| `FleetManagement.FleetManager.MarkComplete` | server/scheduling/failover_scanner.py:79-117 | a row that an earlier read showed complete by its counts becomes done with all frames rendered, which keeps the promise |
| `FleetManagement.StoreProgress` | server/api/routers/jobs.py:571-606 | the progress route, for any report: it stores over the row as it is what it computed from the row as it was read (max, cap and auto-start), and keeps the promise whenever the event may happen |
| `FleetManagement.StoreDone` | server/api/routers/jobs.py:629-690 | the done callback, likewise; a row read as terminal is recovered only on evidence of its counts and files |
| `FleetManagement.StoreFailed` | server/api/routers/jobs.py:629-700 | the failed callback, likewise: it stores status and the count it read, then handles the failure on the row it read unless the group takes no new jobs |
| `FleetManagement.StoreOutputs` | server/api/routers/jobs.py:732-762 | the registration of outputs, likewise: it stores the larger of the count read and the capped number of files, or recovers the row |
| `FleetManagement.Recover` | server/api/routers/jobs.py:219-317 | a recovered row is done with all its frames, and active rows within the range it was read with are cancelled, no others |
| `FleetManagement.FleetManager.Retry` | server/scheduling/fleet.py:196-223 | the same row starts again at its first unrendered frame, with one more attempt, zero rendered and its old total, and is dispatched for exactly that tail |
| `FleetManagement.FleetManager.DispatchFailover` | server/scheduling/fleet.py:229-281 | the old row is failed and a new row with fresh retries and an exact total is dispatched for the tail; it is failed at once if the dispatch throws |
| `FleetManagement.FleetManager.SetJobStatus` | server/scheduling/fleet.py:287-294 | only the status of that row changes |
| `FleetManagement.FleetManager.HandleFailure` | server/scheduling/orchestrator.py:86-123 | nothing left means done; else retry, else fail over, else give up, decided on any version of the row read earlier; the result is the row now responsible, and the promise is kept |
| `FailoverScanning.FailoverScanner.ScanOrphans` | server/scheduling/failover_scanner.py:79-117 | the pass over running-but-complete and stuck pending serverless rows computes `OrphansScanned` on the snapshot |
| `FailoverScanning.FailoverScanner.ScanStaleDesktop` | server/scheduling/failover_scanner.py:123-153 | the pass over running rows of offline desktops computes `DesktopsScanned` |
| `FailoverScanning.FailoverScanner.CountRanges` | server/scheduling/failover_scanner.py:162-171 | the covered set and the failure counts are what the snapshot says |
| `FailoverScanning.FailoverScanner.RetryRow` | server/scheduling/failover_scanner.py:173-209 | one row of the retry pass with all its early exits computes `RetryScanned` |
| `FailoverScanning.FailoverScanner.ScanServerlessRetries` | server/scheduling/failover_scanner.py:159-209 | the pass computes `RetriesScanned`, extending the covered set as it goes |
| `FailoverScanning.FailoverScanner.ScanTerminalGroupOrphans` | server/scheduling/failover_scanner.py:215-239 | active rows of a failed or cancelled group are completed if their counts say so and otherwise take the group's status |
| `FailoverScanning.FailoverScanner.Tick` | server/scheduling/failover_scanner.py:50-73 | a tick is the three passes in order over one snapshot of the rows, and after it every frame of the range is still rendered or owed |
| `ScanEffects.OrphansAreSettled` | server/scheduling/failover_scanner.py:79-117 | after the pass, on a current snapshot, exactly: running serverless rows complete by their counts are done with all their frames, stuck pending serverless rows are failed, every other row is as it was, and no provider was called |
| `ScanEffects.TerminalGroupsHaveNoActiveRow` | server/scheduling/failover_scanner.py:215-239 | after the pass over a failed or cancelled group, exactly: active rows complete by their counts are done with all their frames, the other active ones took the group's status, the rest is unchanged |
| `ScanEffects.FailureMovesOn` | server/scheduling/orchestrator.py:86-123 | after handling a failure the row is pending with one attempt more, or failed; the row now responsible has exactly the unrendered tail; no other row changed |
| `ScanEffects.OfflineDesktopsAreReleased` | server/scheduling/failover_scanner.py:123-153 | after the pass no row that was running on an offline desktop is still running, and every other row is as it was |
| `Retries.RetriesComeFirst` | server/scheduling/orchestrator.py:86-123 | n failures of a row with at least n attempts left, whose retries do not throw, leave it pending from its first unrendered frame with n attempts more, and add n dispatches of exactly that tail and no row |
| `Retries.ThenItMovesOn` | server/scheduling/fleet.py:196-281 | with no attempts left a failure fails the row and dispatches one new row with the whole tail, fresh attempts and an exact total, if there is another machine it may go to; otherwise the row is failed and that is all |
| `Retries.EveryRetryIsUsed` | server/scheduling/orchestrator.py:86-123 | both together, from the first attempt: failures 1 to m are retries of the same row, failure m + 1 moves the job on or ends it |
| `Retries.FirstIsTaken` | server/scheduling/fleet.py:332-360 | of the candidates of the kind chosen the first one listed is taken |
| `Retries.EveryTailIsTaken` | server/scheduling/failover_scanner.py:159-209 | if retries and failovers work, the retry pass leaves a live row on the tail of every failed serverless row with frames left whose range failed fewer than five times, and leaves all other rows as they were |
| `Retries.EveryAbandonedTailIsTaken` | server/scheduling/failover_scanner.py:123-153 | likewise the pass over desktops, for every row that a desktop gone offline left running; one with nothing left is failed |
| `Reports.ReportsKeepTheLargest` | server/api/routers/jobs.py:571-606 | progress reports in any number and order: the row is running, the total is the largest named, the count never goes down and never passes the total, and while the total stays it is the largest count reported, capped; nothing else changes |
| `Reports.RegistrationCompletesOrCounts` | server/api/routers/jobs.py:219-317 | a registration after which the files or the count reach the total makes the row done with its total and cancels, of the other rows, exactly the active ones within its range; any other only raises the count to the files, as far as the total goes |
| `Reports.DoneCountsAll` | server/api/routers/jobs.py:629-678 | a done report on a pending or running row leaves it done, complete by its counts if it has a total, and changes nothing else |
| `Conservation.FailureHandledKeeps` | server/scheduling/orchestrator.py:86-123 | handling a failure keeps the invariant even when decided on any earlier version of the row |
| `Conservation.ProgressKeepsIff` | server/api/routers/jobs.py:571-606 | a progress report, computed from any earlier version of the row and stored later, keeps the invariant exactly if the chunk is rendered up to the capped count, counted from where the row starts when it is stored |
| `Conservation.FinishKeepsIff` | server/api/routers/jobs.py:629-690 | a done callback, stored at whatever later moment, keeps it exactly if the row's range at that moment is rendered |
| `Conservation.FailureKeepsIff` | server/api/routers/jobs.py:629-680 | a failed callback stores the count it read, which keeps it exactly if the chunk is rendered up to that count from where the row starts by then |
| `Conservation.RecoveredKeepsIff` | server/api/routers/jobs.py:272-317 | recovering a row from its counts and files keeps the invariant exactly if the row's range is rendered |
| `Conservation.RegisterKeepsIff` | server/api/routers/jobs.py:732-762 | a registration of outputs keeps it exactly if, with all files there, the row's range is rendered, and otherwise the chunk is rendered up to the number of files counted from where the row starts when it is stored |
| `Conservation.TickKeeps` | server/scheduling/failover_scanner.py:50-73 | a whole tick keeps it although its snapshot of the rows may be out of date |
| `Conservation.TerminalsKeep` | server/scheduling/failover_scanner.py:215-239 | so does the pass over a failed or cancelled group |
| `Conservation.CompleteMeansRendered` | server/models/render_job.py:73-84 | a row that says it is complete, by its counts or by an empty tail, really has all frames of its chunk rendered; this needs only total >= length of the range, which retries preserve |
| `Conservation.RunKeeps` | server/scheduling/fleet.py:145-294 | the invariant holds after any run of events whose decisions rest on any row versions ever read |
| `Conservation.NothingIsLost` | server/scheduling/fleet.py:145-294 | plan any range on any machines, dispatch it, let any run of renders, claims, reports, registrations, failures, retries, failovers, completions, recoveries and give-ups follow: every frame is rendered or lies in the unrendered tail of every row of its chunk, none of which is done; and providers are only ever asked for frames of the range |
| `Conservation.OutlivedWorkerLosesFrames` | server/api/routers/jobs.py:595-597 | a report that is not about the row's current range, from a worker that outlived a retry, marks a row done whose last frames nobody rendered: what reports must say cannot be dropped |
| `SmallRuns.RegistrationLosesFrames` | server/api/routers/jobs.py:732-762 | a run after which registering the files of the very frames that are rendered leaves a frame neither rendered nor owed: a retry clears the count of a row and keeps its files |
| `RetryBound.FailureSums` | server/scheduling/orchestrator.py:86-123 | how many rows one handled failure adds to any range, and that a range it neither enters nor leaves pays for its dispatches |
| `RetryBound.TickBounded` | server/scheduling/failover_scanner.py:50-73 | one whole tick, any answers: a range whose failed rows rendered nothing, which no other failed row has as its tail, and which no row abandoned on a desktop touches, keeps at most five rows, and the tick's dispatches on it are recorded attempts; other ranges may do anything |
| `RetryBound.RetriesEnd` | server/scheduling/failover_scanner.py:50-73 | from at most one row, over any run of claims, progress and done reports, status changes and whole ticks in which every tick finds the range like that: at most 5 rows, dispatches equal recorded attempts and never exceed 5 * (max_retries + 1) |
| `RetryBound.PlannedChunksEnd` | server/scheduling/failover_scanner.py:50-73 | for every chunk with a frame of every plan, as long as the chunk's own failed rows rendered nothing and none of its rows is abandoned on a desktop; that no other row runs into the chunk is proved |
| `RowGrowth.TickStaysIff` | server/scheduling/failover_scanner.py:123-209 | exactly: whatever the outside world answers during a tick, the range has at most `limit` rows afterwards if and only if its rows, plus what offline desktops can add, plus one new row and one for every retry that moves in if any failed row feeds it uncovered, minus the retries that must move out, are at most `limit` |
| `RowGrowth.ScansAreUnbounded` | server/scheduling/failover_scanner.py:173-209 | a failed row with progress feeds its tail again and again: n ticks, each followed by the failure of the row it added, leave n rows on one range, because the cap counts failures of the feeding row's range |
| `RowGrowth.ReportedFailuresAreUnbounded` | server/scheduling/orchestrator.py:86-123 | failures reported by workers have no bound either: n reports leave n + 1 rows on one range |
| `GroupStatus.FailureTouchesOnly` | server/scheduling/orchestrator.py:86-123 | handling one row's failure changes no other row |
| `GroupStatus.StaleDecisionRevives` | server/scheduling/orchestrator.py:86-123 | handling one failure on an out-of-date snapshot takes a done row out of done exactly when the snapshot had frames left |
| `StaleDecisions.EventUndoesIff` | server/api/routers/jobs.py:571-762 | one event takes a done row out of done exactly if it is a progress report that read the row as pending, a failed callback that read it as active (and, when handled, with frames left), a handled failure that read frames left, or a row given up without being read; no claim, done callback, completion or registration does, however old what it read |
| `StaleDecisions.TickUndoesIff` | server/scheduling/failover_scanner.py:50-73 | a whole tick, on a snapshot however old, does so exactly when the snapshot shows that row pending and stuck on a serverless machine, or running on an offline desktop (with frames left or not), or failed and about to be retried given what is covered when its turn comes |
| `StaleDecisions.TerminalPassUndoesIff` | server/scheduling/failover_scanner.py:215-239 | the pass over a failed or cancelled group does so exactly when the snapshot shows the row active and not complete by its counts |
| `StaleDecisions.StaleTickHappens` | server/scheduling/failover_scanner.py:123-153 | a run from a dispatched plan in which a tick does it: the row is claimed, rendered and reported done between the query and the write |
| `StaleDecisions.StaleReportHappens` | server/api/routers/jobs.py:579-583 | and one in which a progress report does it: read before the claim, stored after the row is done, it sets the row running |
| `GroupRuns.RowLeavesIff` | server/services/render_groups/service.py:154-379 | any step on a group, acting on rows read at any earlier moment: a done row stops being done exactly if the step undoes it, which is decided by what the step read; a cancel does it to rows it read as active |
| `GroupRuns.RowStaysIff` | server/services/render_groups/service.py:154-379 | over whole runs: a done row is done at every later moment if and only if no step undoes it |
| `GroupRuns.GroupLeavesIff` | server/services/render_groups/service.py:545-589 | a done group stops being done exactly by a cancel, a confirmation that is not refused, or a status request that read a pending group with a running row, or a group neither failed nor cancelled whose rows had all failed |
| `GroupRuns.GroupStaysIff` | server/services/render_groups/service.py:545-589 | over whole runs: a done group is done at every later moment if and only if there is no such step |
| `GroupRuns.ThrownDispatchUndoesGroup` | server/scheduling/fleet.py:403-441 | a run in which every step reads what is there and a finished group fails: the dispatch of its row throws after the row is done, and the next request stores failed |
| `GroupRuns.StaleStatusUndoesGroup` | server/services/render_groups/service.py:545-589 | a run with two requests at once, in which the older one stores running over done |
| `GroupRuns.FreshUndoesIff` | server/scheduling/failover_scanner.py:50-73 | when a step reads what is there, only giving a row up without reading it, or handling a failure of it while it has frames left, undoes a done row |
| `GroupRuns.StepKeepsRow` | server/scheduling/failover_scanner.py:50-73 | every other such step, whole ticks included, leaves a done row as it is, but for a count it registers |
| `GroupStatus.ActiveRowsKeepTheGroupOpen` | server/scheduling/fleet.py:74-102 | while a row is active nothing is stored but running, and that exactly when the group is pending and a row is running |
| `GroupStatus.FailsIffEveryRowFailed` | server/scheduling/fleet.py:74-102 | a group is stored as failed exactly when every row failed and it is not failed or cancelled already |
| `GroupRuns.StepIsSafe` | server/services/render_groups/service.py:154-379 | for such steps: a done group leaves done exactly by a cancel or a confirmation that is not refused; a failed or cancelled group changes only by these or to done, and then with a done row, no active row and counts that reach the total |
| `GroupRuns.DoneIsForever` | server/scheduling/fleet.py:74-102 | over whole runs of such steps: rows done at any moment are the same at every later one but for counts, and a done group stays done without a cancel and without another accepted confirmation |
| `GroupTruth.DoneGroupsAreRendered` | server/scheduling/fleet.py:74-102 | after any run from a dispatched plan: rows that are all done mean that every planned frame is rendered; counts that reach the number of frames mean it if no chunk is counted twice; and the rows guarantee it exactly if every chunk with a frame has a row that is done or has nothing left |
| `GroupTruth.RowsGuaranteeIff` | server/scheduling/fleet.py:74-102 | the same for any table of the invariant: every set of rendered frames the rows allow contains the plan if and only if every chunk is settled |
| `GroupTruth.CountsReachTotalIff` | server/services/render_groups/service.py:566-588 | when no chunk has two rows that have not failed and no row counts more than its chunk has, the counts reach the total exactly if every chunk with a frame has a row that has not failed and counts all its frames |
| `GroupTruth.FinishedIsDoneIff` | server/services/render_groups/service.py:566-588 | any group without active rows, chunks repeated or not, is stored as done exactly if all its rows are done and it has not failed or been cancelled, or some row is done and the frames counted too often are at least as many as the frames missed |
| `GroupTruth.CountedTwice` | server/services/render_groups/service.py:566-588 | a run after which the group is stored as done although no frame of its second chunk was ever rendered: one failure taken over twice |
| `GroupTruth.NeverCounted` | server/services/render_groups/service.py:566-588 | a run after which every frame is rendered and no row is active, and still the group never becomes done: the counts of a failed row are left out |
| `RenderDriver.FindMarkerCamera` | render_scripts/render_driver.py:650-664 | the marker loop computes `MarkerCamera` |
| `RenderDriver.BestMarkerIsLatest` | render_scripts/render_driver.py:650-664 | the binding marker is the latest one at or before the frame with a camera, the first listed of several; there is none exactly when none qualifies |
| `RenderDriver.NormalizeCameraRanges` | render_scripts/render_driver.py:532-570 | the loop over override entries gives the usable ranges sorted by start and end, or the first refusal |
| `RenderDriver.CameraForFrame` | render_scripts/render_driver.py:573-580 | the search loop gives the first matching range's camera, else the fallback |
| `RenderDriver.EarliestRangeWins` | render_scripts/render_driver.py:532-580 | sorting and first match together: of the given ranges containing the frame on their step, the one that starts earliest, then ends earliest, then comes first decides it; none exactly when no range contains it |
| `RenderDriver.BuildCameraAssignments` | render_scripts/render_driver.py:667-699 | the loop gives a camera to every frame in order in all three modes, or the first error |
| `RenderDriver.AssignedLength` | render_scripts/render_driver.py:667-699 | a successful run assigns exactly the listed frames in order, each to a real camera, the one the mode resolves |
| `RenderDriver.TotalIsAssignments` | render_scripts/render_driver.py:502-508 | the total the driver reports is the number of assignments it goes through |
| `CameraChoice.MarkersDecide` | render_scripts/render_driver.py:650-664 | the camera is that of the marker that can decide the frame when every other one that can is earlier, or on the same frame and listed later; the scene camera when none can |
| `CameraChoice.StripTrims` | render_scripts/render_driver.py:542-544 | names lose white space at both ends, all of it and nothing else |
| `CameraChoice.EntriesBecomeRanges` | render_scripts/render_driver.py:532-570 | the ranges are those of the entries not switched off, in their order, each with its own camera, its bounds raised to 1 and its step or 1; an error is that of the first entry refused, all before it being ranges or off |
| `CameraChoice.EntriesDecide` | render_scripts/render_driver.py:532-580 | the entry that decides a frame, on the entries as given: of those whose range contains it, the one that starts earliest, then ends earliest, then is listed first; the scene camera when none contains it |
| `CameraChoice.EveryFrameGetsItsCamera` | render_scripts/render_driver.py:667-699 | in all three modes every listed frame gets exactly the camera its mode calls for (markers; the named camera, else the scene's; entries), or the run is refused for the right reason: no frame, no entry switched on, the first bad entry, the first frame whose camera is missing or not a camera |
| `ChunkedRender.ChunksRenderTheWholeIff` | render_scripts/render_driver.py:116-137 | for every plan and range: the driver's runs on the chunks that have frames join to exactly its run on the whole range, or give the same first error, for all scenes, if and only if there is such a chunk and the range starts at 1 or later, or the first chunk ends at 1 or later and frame 1 lies on the grid, or a single chunk holds as many frames from 1 on as the range |
| `ChunkedRender.ChunksRenderTheWhole` | server/scheduling/orchestrator.py:31-59 | so for any machines, scores, rounding and camera mode they do on any range from frame 1 on |
| `ChunkedRender.PlannedBelowOne` | server/scheduling/frame_distribution.py:84-133 | frames 0, 2, 4, 6 on two equal desktops are planned as 0..2 and 4..6 |
| `ChunkedRender.StartsBelowOneDiffer` | render_scripts/render_driver.py:116-137 | and on that plan the runs differ from the run on the whole |
| `OutputNames.PaddedReadsBack` | render_scripts/render_driver.py:583-595 | a padded frame number reads back whatever the width, sign included, and has only digits and signs |
| `OutputNames.PaddedToWidth` | render_scripts/render_driver.py:583-595 | a number from 0 on is written with digits only, padded with zeros to the width, and without leading zeros if it is wider |
| `OutputNames.SanitizedIsSafe` | render_scripts/render_driver.py:628-635 | a sanitised camera name is the name without outer white space, character by character, with safe characters kept and underscores for the others, and `camera` if nothing is left |
| `OutputNames.SafeCharacters` | render_scripts/render_driver.py:634 | the safe characters are letters, digits, dot, underscore and minus |
| `OutputNames.FirstRun` | render_scripts/render_driver.py:586-594 | the token replaced is the first run of # |
| `OutputNames.RunOfHashes` | render_scripts/render_driver.py:586-594 | and all of it |
| `OutputNames.NameShape` | render_scripts/render_driver.py:583-647 | with no # in the directory a frame's name is camera, underscore, the file part with the padded number in the place of its token, or at the end without one |
| `OutputNames.FramesHaveOwnNames` | render_scripts/render_driver.py:583-647 | different frames never share a name, whatever the cameras are called and however wide the numbers |
| `OutputNames.HashInDirectoryHidesNumber` | render_scripts/render_driver.py:583-647 | with a # in the directory all frames of a camera share one base name |
| `OutputNames.NamesNeverCollideIff` | render_scripts/render_driver.py:583-647 | names of different frames never collide exactly when the directory part has no # |
| `OutputNames.SampleNames` | render_scripts/render_driver.py:583-647 | two names worked out by hand: frames 7 and 123 of camera ` Cam 1` in `/out/f_##x` |
| `OutputNames.PrimaryBasenames` | render_scripts/render_driver.py:714-725 | the loop collects the names of all assignments |
| `OutputNames.OneNamePerAssignment` | render_scripts/render_driver.py:714-725 | the set has exactly one entry per assignment when frames differ and the directory has no # |
| `OutputNames.OneNamePerFrame` | render_scripts/render_driver.py:714-725 | every successful run records exactly as many names as it has frames |
| `Bytes.DecodeEncoded` | server/services/blend_parser.py:136-162 | unsigned integers of any width round-trip in both byte orders |
| `Bytes.DecodeSigned` | server/services/blend_parser.py:136-139 | so do two's-complement integers |
| `BlendFile.HeaderRoundTrip` | server/services/blend_parser.py:35-107 | every header variant reads back: pointer size, byte order, version, start of the blocks and layout |
| `BlendSample.ByteOrders` | server/services/blend_parser.py:63-68 | a little-endian number starts with the digit in base 256 that counts least, a big-endian number ends with it |
| `BlendSample.OneAndNothing` | server/services/blend_parser.py:63-68 | bytes 1, 0 are 1 in little-endian and 256 in big-endian order; a byte of 255 is -1 as a signed number |
| `BlendSample.HeadersAreRead` | server/services/blend_parser.py:30-107 | on literal bytes: `BLENDER-v300` has 8-byte pointers and is little-endian, `BLENDER_V279` has 4-byte pointers and is big-endian, `BLENDER17-01v0500` is the newer header with large blocks, whatever follows |
| `BlendSample.BlocksAreRead` | server/services/blend_parser.py:110-171 | block headers with their fields put in order by hand, in the legacy and the large layout: code, size, pointer, struct index and count are read from their places and the data follows |
| `BlendFile.IterBlocks` | server/services/blend_parser.py:110-171 | the loop yields exactly the blocks of `Blocks`, reads only in bounds and ends on any bytes |
| `BlendFile.HeadReads` | server/services/blend_parser.py:120-162 | the numbers of a block header, in the order of each layout, decode to the block's size, pointer, struct index and count |
| `BlendFile.BlocksRead` | server/services/blend_parser.py:110-171 | written blocks are read one after the other, in the legacy 4-byte, legacy 8-byte and large layouts and both byte orders, and reading stops at ENDB |
| `BlendFile.FileRoundTrip` | server/services/blend_parser.py:35-171 | any header, any storable blocks and any bytes after ENDB: reading the written file gives back the header and exactly the blocks |
| `SdnaTable.ReadMany` | server/services/blend_parser.py:206-256 | the loops that fill a list of n elements stop at the first error and otherwise return the elements and the next position |
| `SdnaTable.ReadSdna` | server/services/blend_parser.py:178-260 | the section loops compute `ParseSdna`, errors included |
| `SdnaTable.NulReads` | server/services/blend_parser.py:207-211 | the search for the terminating zero ends right after a written name |
| `SdnaTable.ManyReadBack` | server/services/blend_parser.py:204-260 | lists of elements that read back read back, wherever they stand |
| `SdnaTable.SdnaRoundTrip` | server/services/blend_parser.py:178-260 | any names, types, lengths and structs within field widths are read back from the written table, in either byte order, with the padding after every section and any trailing bytes |
| `FieldLayout.FieldByteSize` | server/services/blend_parser.py:263-286 | the dimension loop computes `FieldSize`, errors included |
| `FieldLayout.FindFieldOffset` | server/services/blend_parser.py:289-313 | the field loop computes `Locate` |
| `FieldLayout.DeclaratorSize` | server/services/blend_parser.py:263-286 | for every declarator written from stars, identifier and dimensions, or in function-pointer form, the size is base or pointer times the product of the dimensions, or one pointer |
| `FieldLayout.DeclaratorName` | server/services/blend_parser.py:299-307 | cleaning such a name gives its identifier |
| `FieldLayout.FieldsAreLaidOut` | server/services/blend_parser.py:289-313 | the offset found is the sum of the sizes before the first field with that identifier; None exactly when there is none |
| `FieldLayout.FieldsAreDisjoint` | server/services/blend_parser.py:289-313 | fields fill consecutive disjoint intervals and the last ends the struct |
| `BlendParser.ParsedIsUsable` | server/services/blend_parser.py:243-260 | every struct and type index the table holds is one of its own |
| `BlendParser.FindDna` | server/services/blend_parser.py:360-370 | the first pass finds the first DNA1 block or reports an error |
| `BlendParser.FindFrameFields` | server/services/blend_parser.py:374-424 | Scene, its render settings and the three numbers are located through the table, with the error of each missing piece |
| `BlendParser.FindPointer` | server/services/blend_parser.py:436-456 | the pointer is read from the first FileGlobal block that is long enough |
| `BlendParser.FindActivePointer` | server/services/blend_parser.py:426-456 | a file without FileGlobal, without the field or without such a block has no active scene |
| `BlendParser.PickScene` | server/services/blend_parser.py:458-510 | the scene loop returns the active scene's range, else the first one read, else an error |
| `BlendParser.ParseBlendFrameRange` | server/services/blend_parser.py:320-510 | the three passes over the block stream compute `FrameRangeOf`, every error included |
| `BlendParser.AnyRangeIsAGrid` | server/services/blend_parser.py:458-510 | on any bytes at all: a range that is returned was read from one scene block of this file, its total is the number of frames of its grid and its version the header's |
| `BlendScenes.ValueAt` | server/services/blend_parser.py:471-485 | in a struct written field by field, each value stands where the sizes before it add up to |
| `BlendScenes.SettingReads` | server/services/blend_parser.py:471-485 | an integer of the render settings, two levels down in a scene, is in bounds and read back |
| `BlendScenes.FieldsFound` | server/services/blend_parser.py:374-424 | in a sound table the parser finds scene, render settings and the three numbers where the declarators put them |
| `BlendScenes.SceneReads` | server/services/blend_parser.py:463-497 | a scene's block is read as that scene's start, end, clamped step and frame count |
| `BlendScenes.NotAScene` | server/services/blend_parser.py:463-476 | no other block, and no scene cut short, is taken for a scene |
| `BlendScenes.BestIsRead` | server/services/blend_parser.py:458-510 | the one-pass loop with its fallback returns what two searches would: the first current scene, else the first scene |
| `BlendScenes.CurrentFound` | server/services/blend_parser.py:426-456 | the pointer found is that of the first global block, or none |
| `BlendScenes.FrameRangeRoundTrip` | server/services/blend_parser.py:320-510 | end to end: for any header variant, byte order, sound struct table and blocks, scene blocks that end anywhere after their start and end frame included, the parser returns the range of the scene FileGlobal.curscene points at, or of the first scene if none matches, with its step raised to 1 (1 if the block ends before it) and the number of frames of that grid; without a scene it reports an error |
| `BlendSample.TableIsRead` | server/services/blend_parser.py:178-260 | a struct table written out byte by byte is read as its names, types, lengths and structs |
| `BlendSample.SampleIsRead` | server/services/blend_parser.py:320-510 | a whole file written out byte by byte, with two scenes and a global block that points at the second, is read as frames 1 to 250 by 2, 125 of them, version 300 |
| `BlendScenes.SmallTableIsSound` | server/services/blend_parser.py:374-424 | a table with scenes, all three frame numbers and the current-scene pointer meets the hypotheses of that theorem |
| `BlendScenes.SmallItemsFit` | server/services/blend_parser.py:426-497 | and so do a global block, a scene it points at, and a global block too short for the pointer |
| `MultipartUpload.PartsMakeTheFileIff` | frontend/src/api.js:251-253 | the slices of all parts put together are the file exactly when parts times part size reaches the file's size |
| `UploadAttempts.SliceOfPart` | frontend/src/api.js:251-253 | part n is the bytes from (n - 1) * part size on: part size of them, the rest of the file if that is less, none past its end |
| `UploadAttempts.BatchIsSixteen` | frontend/src/api.js:206-219 | a part's batch is the sixteen parts, or as many as there are, from one more than a multiple of sixteen |
| `UploadAttempts.FourWorkers` | frontend/src/api.js:296-299 | in every interleaving there are as many workers as parts, but at most four |
| `UploadAttempts.ThreeAttempts` | frontend/src/api.js:255-276 | in every interleaving a part is tried again after its first and second failed attempt and given up after the third |
| `Uploader.Upload.constructor` | frontend/src/api.js:190-209 | part size and count have their floors, four workers at most, nothing uploaded |
| `Uploader.Upload.ClaimNextPart` | frontend/src/api.js:278-283 | the next part number is handed out once, and none after an error or the last part |
| `Uploader.Upload.EnsurePartUrl` | frontend/src/api.js:211-237 | a cached URL is used, a request in flight is joined, else one request for the batch is made |
| `Uploader.Upload.GoRound` | frontend/src/api.js:285-290 | from the top of its loop a worker stops or claims the next part and asks for its URL |
| `Uploader.Upload.RunWorker` | frontend/src/api.js:285-290 | one round of the loop of a worker that is ready |
| `Uploader.Upload.ReceiveUrls` | frontend/src/api.js:222-235 | a response puts its URLs into the cache and settles the request |
| `Uploader.Upload.RefuseUrls` | frontend/src/api.js:222-235 | a failed request is settled as rejected |
| `Uploader.Upload.ResumeWithUrl` | frontend/src/api.js:238-247 | after the wait the request is forgotten if it is still the one in flight, and the URL is used up or missing |
| `Uploader.Upload.SendFirstAttempt` | frontend/src/api.js:249-260 | the first attempt of a part starts with nothing counted |
| `Uploader.Upload.SendNextAttempt` | frontend/src/api.js:270-273 | after the pause the next attempt goes to the same URL |
| `Uploader.Upload.OnError` | frontend/src/api.js:172-175 | a network error fails the attempt with what it has counted |
| `Uploader.Upload.OnProgress` | frontend/src/api.js:144-149 | only growth since the last report is counted |
| `Uploader.Upload.OnLoad` | frontend/src/api.js:151-166 | what progress reports left out is counted; only a success status with an etag is a success |
| `Uploader.Upload.CatchAttempt` | frontend/src/api.js:265-275 | a failed attempt's bytes are taken back; there are three attempts |
| `Uploader.Upload.StoreEtag` | frontend/src/api.js:286-290 | the etag is stored under its part and the worker goes round its loop |
| `Uploader.Upload.CatchPart` | frontend/src/api.js:291-294 | the first error is kept and the worker returns |
| `Uploader.Upload.SendParts` | frontend/src/api.js:302-320 | the list of parts is sent in order unless an etag is missing |
| `Uploader.Upload.Finish` | frontend/src/api.js:302-320 | the list of parts is sent, unless there was an error; whatever calls led here, what was sent is what `CompleteIsRight` and `FinalBytesIff` promise |
| `UploadSafety.ClaimsKept` | frontend/src/api.js:278-296 | every atomic section of every worker keeps: no part held twice, none held when stored, none claimed and forgotten unless the upload failed |
| `UploadSafety.BackedKept` | frontend/src/api.js:249-290 | every section keeps: each etag comes from an accepted body, the part's own slice, sent to a URL issued for that part |
| `UploadSafety.AccountedKept` | frontend/src/api.js:249-276 | every section keeps the account of bytes: the counter is the finished parts, plus the running attempts, plus what stored attempts counted beyond their parts |
| `UploadBatches.NeverRequested` | frontend/src/api.js:211-237 | with full responses, a part that is neither cached nor in flight belongs to a batch never requested before |
| `UploadBatches.BatchedKept` | frontend/src/api.js:211-247 | every section keeps the bookkeeping of batches that this rests on |
| `UploadOutcome.CompleteIsRight` | frontend/src/api.js:190-330 | in every interleaving, `complete` lists parts 1 to totalParts in order, each with the etag the storage gave for that part's own slice; the slices are the file exactly when the parts cover it |
| `UploadOutcome.NoCompleteAfterFailure` | frontend/src/api.js:255-304 | once a part has failed all three attempts, `complete` is never sent however the workers go on |
| `UploadOutcome.BytesAreExact` | frontend/src/api.js:193-276 | in every run whatsoever: the counter is exactly the finished parts plus the running attempts plus the excess of stored parts; there is no excess exactly if every stored attempt's progress never went back |
| `UploadOutcome.BytesAreRight` | frontend/src/api.js:193-276 | if the progress of stored and running attempts never went back, the counter stays within 0 and the file's size, across failed attempts |
| `UploadOutcome.FinalBytesIff` | frontend/src/api.js:193-330 | when `complete` is sent the counter is the covered file plus the excess; it is within the file exactly if no stored attempt's progress went back |
| `UploadOutcome.ClaimsAreRight` | frontend/src/api.js:278-310 | no part is worked on twice; when all workers return without an error every etag is there |
| `UploadOutcome.BatchesAreRight` | frontend/src/api.js:211-247 | if every response is full no batch of URLs is requested twice, and a completed upload requested each |
| `UploadOutcome.RestartedProgressOvercounts` | frontend/src/api.js:144-149 | a run of an upload of eight bytes in one part of 5 MiB that completes with sixteen bytes counted |
| `Preflight.PreflightRunner.constructor` | agent/preflight_steps.py:54-57 | the dictionary finds the last step of every id |
| `Preflight.PreflightRunner.DepsPassed` | agent/preflight_steps.py:141-146 | true exactly when every dependency is known and passed or warning |
| `Preflight.PreflightRunner.RunStep` | agent/preflight_steps.py:76-132 | one pass of the loop: skip, settle by check, or settle by action, and the calls it makes |
| `Preflight.PreflightRunner.RunAll` | agent/preflight_steps.py:61-137 | the run ends with the statuses and the calls of `Run`, and returns whether every step is passed or warning |
| `Preflight.AllSettle` | agent/preflight_steps.py:76-132 | every step ends passed, skipped, failed if required or warning if not |
| `Preflight.PassedIff` | agent/preflight_steps.py:85-132 | a step ends passed exactly when it is not skipped and its check passed, or it has an action and that passed |
| `Preflight.TrueIffRequiredSucceeded` | agent/preflight_steps.py:61-137 | for every list of steps and all outcomes, on these alone: True exactly when every dependency is the id of an earlier step and of no later one, and every required step's check or action passed |
| `Preflight.AboutRequiredIff` | agent/preflight_steps.py:61-137 | for every list of steps: the result is True exactly when all required steps passed, for all outcomes, if and only if in the run where everything passes either nothing is skipped or a required step is |
| `Preflight.TrueIffRequiredPassedNoneSkipped` | agent/preflight_steps.py:61-137 | for any list of steps: True exactly when every required step passed and none was skipped |
| `Preflight.TrueIffRequiredPassed` | agent/preflight_steps.py:61-137 | with unique ids and dependencies on earlier steps: True exactly when every required step passed, for all outcomes |
| `Preflight.SkippedMeansRequiredFailed` | agent/preflight_steps.py:76-83 | behind every skipped step there is a required step that did not pass |
| `Preflight.UnknownDependencyBlocks` | agent/preflight_steps.py:141-146 | without that order an optional step with an unknown dependency makes the run fail |
| `Preflight.EveryCallFollowsDeps` | agent/preflight_steps.py:76-125 | no check and no action runs unless all dependencies of its step are passed or warning at that moment |
| `Preflight.SkippedStepsDoNothing` | agent/preflight_steps.py:76-125 | a step's check runs exactly when it is not skipped, its action exactly when the check fails and there is one |
| `EglWatchdog.Watchdog.NoteWedgePattern` | modal_worker/egl_watchdog.py:66-76 | the first wedge arms the timer and later ones change nothing |
| `EglWatchdog.Watchdog.NoteProgress` | modal_worker/egl_watchdog.py:78-84 | progress disarms it |
| `EglWatchdog.Watchdog.PollOnce` | modal_worker/egl_watchdog.py:86-103 | a poll fires when the timer is armed and the window has passed, and a fired watchdog polls no more |
| `EglWatchdog.Watchdog.StopPolling` | modal_worker/egl_watchdog.py:61-62 | a stopped watchdog polls no more |
| `EglWatchdog.ArmedByFirstOpen` | modal_worker/egl_watchdog.py:66-84 | the single timestamp stands for the first wedge since the last progress, for any history; no timestamp exactly when there is none |
| `EglWatchdog.FiresIff` | modal_worker/egl_watchdog.py:86-103 | on a clock that never goes back a live watchdog fires at a poll exactly when some wedge since the last progress is at least a window old |
| `EglWatchdog.FiredIff` | modal_worker/egl_watchdog.py:66-103 | over whole histories: it has fired exactly when some poll before the stop found such a wedge |
| `EglWatchdog.FiresAtMostOnce` | modal_worker/egl_watchdog.py:86-103 | it fires at most once |
| `Backoff.DelaysInClosedForm` | worker_core/backend_client.py:136-182 | the delays 5, 10, 20, 30, 30, ... add up to 35 + 30 * (n - 3) after n >= 3 failures |
| `Backoff.PutStatus` | worker_core/backend_client.py:135-184 | the loop ends for any replies on such a clock; it returns only after a delivered update (or a refusal of a terminal one) and otherwise gives up exactly when the next sleep would reach the deadline |
| `Backoff.DeliversIff` | worker_core/backend_client.py:146-172 | an answer delivers an update unless it refuses one that is not done, failed or cancelled |
| `Backoff.PostWithRetry` | worker_core/backend_client.py:283-308 | the same for requests, which return only on a response without error |
| `Backoff.SleepFits` | worker_core/backend_client.py:174-182 | total sleep stays below the deadline |
| `Backoff.EndIsUnique` | worker_core/backend_client.py:135-184 | the attempt at which a loop ends is determined by the replies and the clock |
| `Backoff.AttemptsAreBounded` | worker_core/backend_client.py:135-184 | however requests fail: at most 22 attempts in 600 seconds and 8 in 180, and 35 + 30 * (n - 4) below the deadline for n attempts in general |
| `Backoff.BoundIsReached` | worker_core/backend_client.py:174-182 | for every deadline the bound is reached when requests fail at once and sleeps are exact |
| `Backoff.TwentyTwoAndEight` | worker_core/backend_client.py:174-182 | 22 and 8 attempts do happen |

## Left out

- The power-score formula and the rounding of stored scores: scores are arbitrary reals, rounding an arbitrary function.
- Provider plumbing: the grouping and order of provider calls, URLs, tokens and payloads; a call is a job and a frame range.
- The database and HTTP layer: every read and every store is one atomic step; output files, timestamps and error texts are not kept.
- Which groups block new jobs: a failed callback may be handled or only stored, whatever the status of the group.
- The names of output files: a registration has the number of files the row then has.
- The provider monitors, whose steps on rows are the model's events (a handled failure, a completion by counts, a claim, a row given
  up); not modelled is the one of them that marks a job done because the provider says so (server/services/modal/monitor.py:178-186).
- Coercion of override values: the driver's model starts from integers, names and flags.
- The driver's refusal of a chunk without frames: the joined result is over the chunks that have frames.
- Blender's own file naming on its native animation path, render passes, view layers, GPU selection and the compositor.
- gzip, zstd and zip containers and non-ASCII text in .blend files; integer fields of other widths than 2, 4 and 8 bytes are in
  the parser but not in the round trip.
- Function pointers that are themselves arrays, which Blender's struct tables do not contain.
- FieldLayout.DeclaratorSize: says nothing about names that no declarator prints, for which the parser is modelled but no meaning
  is claimed.
- Conservation.NothingIsLost: is about the plan of one confirmation, since another one cancels its rows and dispatches a new plan;
  and it does not claim that live jobs have disjoint frames, because coverage in the retry pass is equality of ranges.
- Conversion of a confirmation's payload into a frame range: a confirmation is refused, lacks frames or dispatches a plan.
- RetryBound.RetriesEnd: is about ranges whose failed jobs rendered nothing and that no other failed job hands its tail to, because
  otherwise there is no bound; its ticks read the rows they decide on.
- FleetManagement.FleetManager.DispatchAll: promises nothing about frames when the table has rows of an earlier confirmation, since rows
  of two plans share chunk numbers; and does not say which providers are enabled or which dispatches throw; a call in the model
  is a dispatch handed to a provider, and a thrown serverless dispatch is a later event.
- Aborting an upload by a signal, the progress percentage, the length of pauses between attempts, and the abort request after an
  error.
- The text of preflight steps, their progress callbacks and the emitted snapshots.
- Exceptions thrown by preflight checks and actions.
- The watchdog's thread: each locked section, and each round of its loop, is one step.
- `mark_failed`, which swallows the last exception after the retry loop has ended.
- The second server generation (`serverV2`), the desktop agent's interface, telemetry, log shipping and configuration.
