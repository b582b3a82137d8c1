# Verified model of the Scenara portrait tracker, runtime and stores

This project models in Dafny the parts of the system whose correctness is hard to see from
the code, and proves what they promise for every input, every interleaving or every history:

- **Tracking** (`Matchings`, `Hungarian`, `ExactAssignment`, `UnionFind`, `Tracks`, `Fragments`,
  `FragmentLaw`, `FragmentGroups`, `FragmentMerge`, `TrackerFrame`, `FrameOutcome`, `TrackerHistory`,
  `Tracker`): the two assignment solvers, the frame-by-frame association of persons with tracks, and
  the greedy merging of track fragments with union-find. `FrameOutcome` says what a frame must do from
  scores, thresholds and ids alone, and `FragmentLaw` which pairs of fragments are joined.
- **Inference scheduling** (`FairScopes`, `FairTurns`, `FairRuns`, `FairBatch`, `FairRotation`, `Dispatch`,
  `SchedulerRuns`, `SchedulerDispatch`, `SchedulerClock`, `Scheduler`): weighted round-robin batches and
  their rotation, batched execution with fallback, the queue protocol, a dispatch as steps of that
  protocol, and what the clock does to requests.
- **Model runtime** (`Eviction`, `Runtime`, `RuntimeSafety`, `RuntimeShape`, `RuntimeUse`,
  `RuntimeProgress`): bundles, semaphores, load locks, eviction, replacement and draining as a protocol,
  and last uses, registry entries and releases told from its events.
- **Contract compatibility** (`Schemas`, `Compatibility`, `CompatibilityPlaces`, `CompatibilitySound`,
  `CompatibilityGaps`): the schema compatibility check against a meaning of JSON Schema.
- **Stores** (`AlertStore`, `AlertHistories`, `StateStore`, `StateHistories`): the in-memory alert and
  state repositories and their histories.
- **Detection** (`Nms`): greedy non-maximum suppression.

`Options`, `Sums`, `Orders`, `Numerals`, `Keys` and `Sorting` hold shared definitions. `dafny verify dfyconfig.toml` checks
everything.

Conventions. Scores and similarities are whole millionths, because the code rounds them to six
decimals; the tolerance in the comparison of plans is then an exact comparison. Times, boxes and
confidences are reals. A concurrent component is a set of steps, one for each stretch of code
between two awaits. Clocks, random ids, executors, association scores, fragment similarities
and pattern matching are parameters.

## Where the code falls short of its promise

- A run that is cancelled while its worker thread is inside the session gives back its use count
  and permits at once, so the session can be released under the thread
  (`RuntimeProgress.ReleasedUnderThread`). Over every run, a released session has a thread in it
  exactly when some event cancelled a run on it in execution and its thread has not ended since
  (`ReleasedUnderThreadIff`).
- A batch is not always what its requests would get one by one: a session of a fixed batch size
  runs a full batch and fails every part of it. The two agree exactly when the batch does not run
  combined or every waiting request runs alone (`Dispatch.DispatchBatch`, `FixedBatchDiffers`,
  `RunModelBundleBatch`, `FixedBatchRunsAtOnce`).
- A verdict on an alert sends back the copy the service read, but compares the stored revision
  with the one the client expects. Repeats are lost exactly when the two differ
  (`AlertHistories.CarelessVerdict`, `TriageLoses`, `CountIsRepeats`).
- The schema check reports nothing for several changes that break documents: a null `const`, `true`
  in place of `1` in `enum` or `const`, a property added to an open object, an added `items`,
  `allOf`, a schema in `additionalProperties`, a property or items schema that is or becomes a boolean,
  a boolean `anyOf` variant that is dropped, keywords beside a reference, a reference to a reference,
  to nothing or to a boolean, and a widened `oneOf` (`CompatibilityGaps`). `CompatibilitySound.Sound`
  states conditions on the two schemas that shut these out.
- The schema check is not transitive through a middle schema that drops a const before a null one,
  has no items or has a boolean property or items schema (`MiddleHidesConst`, `MiddleLacksItems`,
  `MiddleBooleanProperty`, `MiddleBooleanItems`); on the schemas it is sound for it is (`TransitiveOnFragment`).
- The two solvers maximise different sums and can disagree (`ExactAssignment.SolversDisagree`).

## Model

| member | source | states |
|---|---|---|
| `Hungarian.ScanColumns` | app/tracking_association.py:407-422 | One scan relaxes every unused column against the current row, keeps the predecessor where the bound improves, and returns a nearest unused column with its distance |
| `Hungarian.ShiftPotentials` | app/tracking_association.py:423-428 | Rows of used columns gain the shift, used columns lose it, unused columns come nearer by it, everything else stays |
| `Hungarian.ReachNearest` | app/tracking_association.py:404-431 | One round of the search keeps potentials feasible and tight and extends the trail by the nearest column, which it has not used |
| `Hungarian.GrowTree` | app/tracking_association.py:400-431 | The search ends at a free column on an alternating path of tight cells; potentials stay feasible and matched cells tight; the loop ends because each round uses a new column |
| `Hungarian.Augment` | app/tracking_association.py:432-437 | Flipping along the predecessors gives a matching of one row more, with the same feasible and tight potentials |
| `Hungarian.InsertRow` | app/tracking_association.py:399-437 | From an optimal partial assignment of the first rows to one with the next row added |
| `Hungarian.SolveRows` | app/tracking_association.py:394-437 | A complete assignment of the square cost table with feasible potentials that are tight on every assigned cell |
| `Hungarian.WeakDuality` | app/tracking_association.py:388-392 | No matching of the table weighs more than any pair of charge lists that covers its cells |
| `Hungarian.PotentialsCover` | app/tracking_association.py:388-397 | Feasible potentials of the cost table give non-negative charges that cover every matching of the score table |
| `Hungarian.AssignmentPairs` | app/tracking_association.py:380-445 | The result is a matching inside the table, sorted by track, and no matching of the table has a larger sum of score plus one |
| `ExactAssignment.BestIsBest` | app/tracking_association.py:304-346 | Over all matchings of the remaining tracks into unused detections the recursion returns one that none beats by score, then pair count, then least pair list |
| `ExactAssignment.BestIsUnique` | app/tracking_association.py:304-319 | At most one plan is best in that order |
| `ExactAssignment.BestIsCanonical` | app/tracking_association.py:304-346 | A best plan from the first track on is the canonical best matching of the whole table |
| `ExactAssignment.CanonicalMeans` | app/tracking_association.py:304-319 | Any other matching scores less than the canonical best, or as much with fewer pairs, or as much with as many pairs and a list that is later at the first difference |
| `ExactAssignment.ExactSolver.Solve` | app/tracking_association.py:320-346 | The memoised search returns what the plain recursion returns, and the cache always agrees with it |
| `ExactAssignment.GlobalAssignment` | app/tracking_association.py:273-354 | A matching that is the canonical best up to the exact size and maximises score plus one beyond it |
| `ExactAssignment.SolversCompared` | app/tracking_association.py:293-354 | The Hungarian result has at least as many pairs, the exact one at least the score, the loss is at most the number of extra pairs, and the scores are equal exactly when the pair counts are |
| `ExactAssignment.SolversDisagree` | app/tracking_association.py:388-392 | A table on which every exact result is one pair and every Hungarian result is two |
| `UnionFind.TrackUnionFind.constructor` | app/tracking_association.py:95-97 | Every id is its own class |
| `UnionFind.TrackUnionFind.Find` | app/tracking_association.py:99-103 | Returns the representative, compresses the path and keeps the partition; ends because ranks rise strictly; a class of rank k has at least 2^k members |
| `UnionFind.TrackUnionFind.Union` | app/tracking_association.py:105-115 | Joins exactly the two classes, under the representative of one of them, and says whether they differed |
| `UnionFind.JoinedClasses` | app/tracking_association.py:105-115 | The joined class is the union of both and its size the sum |
| `Tracks.TrackNameInjective` | app/tracking_association.py:520-532 | Different track numbers give different track ids, also beyond four digits |
| `Tracks.SightedPerson` | app/tracking_state.py:125-131 | Every sighting of an id is a person that carries it, with that person's frame, box, score, quality and embedding |
| `Tracks.SightingsCounted` | app/tracking_state.py:62-85 | An id has exactly as many sightings as persons that carry it |
| `Tracks.RewriteReceives` | app/tracking_association.py:82-91 | When one id was last seen before the other was first seen, rewriting gives the receiving id the sightings of both in time order |
| `Tracks.RewriteOthers` | app/tracking_association.py:82-91 | The rewritten id disappears and every other id keeps its sightings |
| `Fragments.CollectRow` | app/tracking_association.py:137-147 | The early break yields the same candidates as testing every later fragment |
| `Fragments.CollectCandidates` | app/tracking_association.py:130-155 | The candidates are those of all ordered pairs |
| `Fragments.NoPairMissed` | app/tracking_association.py:133-147 | Any two fragments that can be merged, in whatever positions, are among the candidates |
| `FragmentLaw.MergesIff` | app/tracking_association.py:27-57 | A pair can be merged exactly when the second fragment starts after the first has ended, within the gap limit, looks alike to 0.86, and moves alike to 0.05 or looks alike to 0.92; the candidate names both and carries gap and scores |
| `FragmentLaw.RankOrder` | app/tracking_association.py:146-154 | The ranking by gap, appearance, motion and ids is a strict total order |
| `FragmentLaw.AcceptedIsUnique` | app/tracking_association.py:146-173 | Greedy law: a mergeable pair is accepted exactly when the accepted pairs ranking before it neither join its ends nor make groups that overlap in time; one ranked list of pairs only obeys it |
| `FragmentGroups.JoinChains` | app/tracking_association.py:122-127 | Two chains that pass the time test, with an accepted pair between them, form one chain within the gap limit |
| `FragmentGroups.RankedByKey` | app/tracking_association.py:146-154 | After the sort no candidate ranks before one that stands earlier |
| `FragmentGroups.ClashIff` | app/tracking_association.py:160-165 | The test on representatives and group spans finds exactly the pairs whose ends are joined by accepted pairs or whose groups made by them overlap in time |
| `FragmentGroups.JoinReflects` | app/tracking_association.py:166-170 | After the union two ids have one representative exactly when the accepted pairs, the new one among them, join them |
| `FragmentGroups.ConsiderCandidate` | app/tracking_association.py:156-173 | A candidate is accepted and its groups joined, or its ends are already together or not compatible; the keys of the group map stay exactly the representatives, each list exactly a class, each class exactly what accepted pairs join, and the greedy law holds for the candidates considered |
| `FragmentGroups.MergeLoop` | app/tracking_association.py:156-173 | For candidates in rank order: at the end every group is a chain, every candidate is settled and judged by the greedy law, two ids share a group exactly when accepted pairs join them, and accepted edges plus groups make the number of tracks |
| `FragmentGroups.GroupFragments` | app/tracking_association.py:130-173 | The accepted pairs are the greedy ones in the order of their ranks; two ids share a group exactly when accepted pairs join them; groups are time-ordered chains of disjoint fragments within the gap limit, and no two groups with a mergeable pair are compatible in time |
| `FragmentMerge.MergeKeepsRecord` | app/tracking_association.py:60-91 | Merging two tracks and rewriting the id leaves a track that records exactly the persons carrying its id |
| `FragmentMerge.MergeGroup` | app/tracking_association.py:179-193 | A whole chain becomes its first track, which records all sightings of the group |
| `FragmentMerge.CollapseGroups` | app/tracking_association.py:175-196 | All groups collapse; each person's id becomes the id of the first track of its group; one track per group is left |
| `FragmentMerge.MergeFragments` | app/tracking_association.py:130-204 | The accepted pairs are the greedy ones and make the groups; records stay exact; consecutive sightings of a final track differ by at most the larger of max age and gap plus one; tracks left, sorted by id, plus accepted edges make the tracks before |
| `FragmentMerge.NoSharedIds` | app/tracking_association.py:60-91 | Exact records imply that no two persons of a frame share an id |
| `TrackerFrame.ScoreTable` | app/tracking_association.py:282-291 | The table holds exactly the pairs that reach the minimum score, with their scores |
| `TrackerFrame.GlobalMatch` | app/tracking_association.py:273-377 | The pairs solve that table: canonical best when small, largest sum of score plus one otherwise; nothing when there are no tracks, detections or candidate pairs |
| `TrackerFrame.AssignStep` | app/tracking_state.py:55-76 | Updating a track with a person it has not seen in this frame, within max age, keeps all records exact |
| `TrackerFrame.OpenStep` | app/tracking_association.py:514-537 | Opening a track under a new id keeps all records exact |
| `TrackerFrame.AgeOut` | app/tracking_association.py:544-550 | Tracks unseen for more than max age move to the finished ones in order, the others stay in order, none is lost |
| `TrackerFrame.GiveAllMeans` | app/tracking_association.py:480-492 | Applying the pairs of a matching one by one gives each pair's track its person as both were at the start, and changes nothing else |
| `Tracker.PersonTracker.Assign` | app/tracking_association.py:487-492 | The matched person gets the track's id and the track the observation; other tracks stay free |
| `Tracker.PersonTracker.MatchHigh` | app/tracking_association.py:477-492 | Confident persons are matched with the recent tracks by a solution of their score table, and the new scene is exactly the pairs given in order |
| `Tracker.PersonTracker.MatchLow` | app/tracking_association.py:494-512 | Unmatched less confident persons are matched with the recent tracks that no person mentions, at the lowered threshold, and the new scene is exactly the pairs given in order |
| `Tracker.PersonTracker.OpenTracks` | app/tracking_association.py:514-537 | Exactly the confident persons not yet named open tracks, in order and under the next numbers |
| `Tracker.PersonTracker.ProcessFrame` | app/tracking_association.py:463-550 | One frame keeps the records of all tracks exact and has the outcome that scores and ids demand: confident persons are matched with all recent tracks or open new ones in order, doubtful ones are matched at the laxer threshold with the recent tracks no entry mentions, all others end without an id, tracks record what they took, and those unseen for too long are finished |
| `FrameOutcome.PhasesOutcome` | app/tracking_association.py:463-542 | The three phases bring about the outcome: a confident person is taken by a recent track that reaches the minimum score or opens a track; a person between the thresholds has an id only if a recent track took it with the larger of 0.18 and the minimum less 0.08; any other person has none; both matchings solve the assignment of exactly these tracks and persons |
| `TrackerHistory.SolvedIsMaximal` | app/tracking_association.py:293-354 | Neither solver leaves a track and a person free that could be paired |
| `TrackerHistory.NewOnlyWithoutMatch` | app/tracking_association.py:477-518 | A confident person opens a track only if no recent track left over reaches the minimum score with it |
| `TrackerHistory.UnnamedOnlyWithoutMatch` | app/tracking_association.py:494-512 | A person between the thresholds stays without an id only if no recent, unmentioned track left over reaches the laxer threshold with it |
| `TrackerHistory.HistoryBegins` | app/tracking_association.py:514-537 | Over every run every track's first observation is of a confident person |
| `TrackerHistory.FaintStayUnnamed` | app/tracking_association.py:539-542 | Over every run a person below both thresholds ends every frame without an id, before merging and after |
| `Tracker.PersonTracker.Run` | app/tracking_association.py:448-554 | For frames with rising indexes: every frame has its outcome, one after another; before and after merging every track records exactly the persons carrying its id; each track before merging begins with a confident person; accepted pairs are the greedy ones, groups are maximal chains, ids are renamed group by group; every confident person has an id and no person below both thresholds has one; persons are otherwise unchanged |
| `FairTurns.TakeTurn` | app/inference_scheduler.py:196-209 | A scope's turn takes a prefix of its requests: up to its weight, to the size limit or to the first request that does not fit |
| `FairScopes.RotatedTurns` | app/inference_scheduler.py:186-188 | The rotated list has the scopes first seen after the one served last before the others, each by first appearance |
| `FairRuns.TurnOnTheWay` | app/inference_scheduler.py:193-216 | Each turn of a round goes to the next scope, going round, that can still give: none passed by could have given |
| `FairRuns.SelectionIsUnique` | app/inference_scheduler.py:178-216 | With positive sizes one batch only is a run of such turns from the scope after the one served last up to a full batch or no request that fits |
| `FairBatch.Round` | app/inference_scheduler.py:193-216 | A round gives every scope with requests its turn in order until the batch is full, skips no scope that could give, and lists the scopes that still have requests in the same order |
| `FairBatch.SelectBatch` | app/inference_scheduler.py:178-216 | The batch is the run of turns that begins with the scope following, by first appearance, the one served last; scopes enter it in that order; it stops only when full, exhausted or when no scope's next request fits; shares follow the weights |
| `FairBatch.WeightedFairness` | app/inference_scheduler.py:190-216 | For unit requests and fixed weights, two scopes still waiting have shares whose cross products with the weights differ by at most the product of the weights |
| `FairBatch.TakeFairBatch` | app/inference_scheduler.py:178-222 | The batch is non-empty, of one priority and group, begins with the scope whose turn it is, is the run of turns in rotation, takes a prefix of each scope, fits the limit unless it is a single request; the rest of the queue keeps its order; the last scope served is remembered |
| `FairBatch.NothingLost` | app/inference_scheduler.py:218-222 | Batch and remaining queue together are the old queue |
| `FairRotation.LimitOfOne` | app/inference_scheduler.py:200-209 | With a limit of one and positive sizes a take is a single request |
| `FairRotation.NextScope` | app/inference_scheduler.py:186-188 | A take of one scope serves the scope that follows the last one cyclically by first appearance |
| `FairRotation.EachOnce` | app/inference_scheduler.py:186-188 | Over successive takes of one scope each, with the same scopes backlogged in the same order, every scope is served once before any is served twice |
| `Dispatch.SplitOutputs` | app/inference_scheduler.py:267-279 | Consecutive slices of the given sizes, or a refusal when an output has lost the batch dimension |
| `Dispatch.SplitInvertsStack` | app/inference_scheduler.py:267-279 | Splitting inverts concatenation for every list of sizes |
| `Dispatch.BatchIsAlone` | app/inference_scheduler.py:240-242 | The split outputs of a row-by-row executor are what each request would get alone |
| `Dispatch.ExecuteOne` | app/inference_scheduler.py:254-265 | Only a pending future is settled, a cancellation that arrives first wins, an error is stored |
| `Dispatch.OneByOneAt` | app/inference_scheduler.py:224-265 | Running one by one settles each request by itself and touches no other future |
| `Dispatch.DispatchBatch` | app/inference_scheduler.py:224-252 | For every executor whose split outputs are computed row by row: a batch that runs combined gives each waiting request the rows of the row map, any other batch what running alone gives; this is one-by-one execution if and only if the batch does not run combined or every waiting request runs alone |
| `Dispatch.BatchingIsExact` | app/inference_scheduler.py:224-265 | The row map and the executor settle a batch alike exactly when every waiting request runs alone |
| `Dispatch.FixedBatchDiffers` | app/inference_scheduler.py:239-252 | A session for two rows runs a batch of two requests each of which fails alone |
| `Dispatch.RunModelBundleBatch` | app/runtime_execution.py:327-417 | All inputs at once give the row map of all rows; the result is that of running one by one, with the first error if one fails, if and only if the inputs do not run at once or each runs alone |
| `Dispatch.FixedBatchRunsAtOnce` | app/runtime_execution.py:360-384 | Two one-row inputs of a session of fixed batch size two pass the size test and run at once, though each alone fails |
| `SchedulerRuns.DiscardSafe` | app/inference_scheduler.py:126-143 | Discarding settles pending futures only, so no future is set twice, and leaves only pending requests in the queue |
| `SchedulerRuns.StepSafe` | app/inference_scheduler.py:72-265 | Every step keeps: queue within its bound, queued futures pending or cancelled, a worker whenever the queue is not empty, every pending request queued or in a batch, and a dispatch that has answered all it has not left |
| `SchedulerRuns.RunSafe` | app/inference_scheduler.py:72-265 | Every state of every interleaving of submit, cancel, wake, work, settle and finish is safe |
| `SchedulerRuns.RunSettlesOnce` | app/inference_scheduler.py:224-265 | A future that has left pending never changes again |
| `SchedulerRuns.NeverStuck` | app/inference_scheduler.py:158-176 | As long as a request is pending the scheduler has a step of its own to take, whatever the clock says |
| `SchedulerRuns.PromptRunEnds` | app/inference_scheduler.py:151-172 | With the clock past every wait and no new requests, a run of the worker is bounded by the requests queued and in the batch |
| `SchedulerRuns.IdleHasAnswered` | app/inference_scheduler.py:158-176 | A scheduler that can take no step of its own has answered every request |
| `SchedulerDispatch.DispatchIsPath` | app/inference_scheduler.py:224-265 | A dispatch is a path of answers and cancellations of its batch; it ends in the futures of the batched execution with nothing of the batch pending, so that finishing is possible |
| `SchedulerClock.SweepsAreExact` | app/inference_scheduler.py:126-143 | Over every run: a submission or a pass of the worker drops a queued request exactly when it is cancelled or its deadline is no later than the clock; nothing overdue stays queued or is taken; a future changes only from pending to settled, and only for a queued request whose deadline has come |
| `SchedulerClock.NoDeadlineNoTimeout` | app/inference_scheduler.py:133-141 | Over every run a request without a deadline is never settled by a sweep |
| `SchedulerClock.SubmitsAreExact` | app/inference_scheduler.py:81-107 | Over every run a request joins the end of the swept queue, pending, exactly when there is room |
| `SchedulerClock.WaitsAreExact` | app/inference_scheduler.py:145-172 | Over every run the worker looks at the most urgent, oldest request left; it waits exactly while that request's wait for its priority and its deadline lie ahead and its kind does not fill a batch, and takes a batch of its kind otherwise; the queue keeps its order |
| `Scheduler.InferenceScheduler.constructor` | app/inference_scheduler.py:45-60 | An empty queue, no worker |
| `Scheduler.InferenceScheduler.DiscardFinished` | app/inference_scheduler.py:126-143 | The sweep drops exactly the cancelled and expired requests, keeps order, and sets an exception only on pending futures |
| `Scheduler.InferenceScheduler.Submit` | app/inference_scheduler.py:72-113 | One step of the protocol; refused exactly when the swept queue is full, otherwise the request is queued and a worker runs |
| `Scheduler.InferenceScheduler.Cancel` | app/inference_scheduler.py:107-113 | A cancelled caller cancels its future if that is pending and changes nothing otherwise |
| `Scheduler.InferenceScheduler.Seed` | app/inference_scheduler.py:164-164 | A request of the least priority number, none of which was enqueued earlier |
| `Scheduler.InferenceScheduler.Handle` | app/inference_scheduler.py:145-172 | The worker waits exactly when the seed has time left and the batch is not full, and takes a fair batch otherwise |
| `Scheduler.InferenceScheduler.Work` | app/inference_scheduler.py:158-176 | One pass of the worker is one step of the protocol |
| `Scheduler.InferenceScheduler.RunBatch` | app/inference_scheduler.py:224-265 | The dispatch of the taken batch: its outcomes, the steps of the protocol it consists of, and the worker back in its loop |
| `Eviction.ModelRegistry.EvictLruIfNeeded` | app/runtime_registry.py:193-212 | Victims go one by one, each an idle bundle with the earliest time in a registry over its limit, until it fits or none is idle |
| `Eviction.EvictionOutcome` | app/runtime_registry.py:193-212 | Afterwards the registry fits its limit or every other bundle is busy; no idle survivor has an earlier time than a victim; no more went than needed; the excepted key stays; a limit of zero or less turns eviction off |
| `Eviction.CanEvict` | app/runtime_registry.py:197-212 | An eviction can always be carried out |
| `RuntimeSafety.ClampNeverBites` | app/runtime_execution.py:261-261 | In every reachable state the use count of a run's bundle drops by exactly one |
| `RuntimeSafety.StepConserves` | app/runtime_execution.py:197-261 | Every step keeps use counts, model permits, device permits and load locks equal to the number of tasks that hold them |
| `RuntimeShape.EvictShaped` | app/runtime_registry.py:193-212 | Eviction releases registered idle bundles only and keeps the protocol's invariant |
| `RuntimeShape.StepKeepsInv` | app/runtime_registry.py:172-238 | Every step of load, run, evict, unload, replace, retire, drain, timeout and cancellation keeps the invariant |
| `RuntimeShape.RunKeepsInv` | app/runtime_registry.py:362-481 | So does every run |
| `RuntimeShape.SessionSafety` | app/runtime_execution.py:197-264 | Over every run the use count of a bundle is the number of its runs in flight, and a released bundle has none |
| `RuntimeShape.PermitsReturned` | app/runtime_execution.py:171-261 | Whatever way all tasks ended, every permit, use count and load lock is back |
| `RuntimeShape.PermitsBounded` | app/runtime_state.py:53-56 | Runs never hold more permits of a bundle or a device than it has |
| `RuntimeUse.PrefixRuns` | app/runtime_registry.py:362-481 | Every beginning of a run is a run, so that each event has a state before it |
| `RuntimeUse.LastUseDates` | app/runtime_execution.py:261-264 | Over every run a bundle's time is the clock of the last event that loaded it, hit it in the registry or ended a run on it |
| `RuntimeUse.VictimsUsedLongestAgo` | app/runtime_registry.py:193-212 | Over every run whose clocks do not fall: each victim of an eviction is idle, and every idle bundle that stays has its last such event later, or at the same clock |
| `RuntimeUse.RegistryIsLastInstalled` | app/runtime_registry.py:362-481 | Over every run a key leads to the bundle last loaded or swapped in for it, unless an unload or an eviction of the key came after |
| `RuntimeUse.ReleasedIffFreed` | app/runtime_registry.py:172-238 | Over every run a session is released exactly when it was drained or evicted, or its prewarm run failed |
| `RuntimeUse.TasksStem` | app/runtime_registry.py:362-481 | Over every run a task in flight works on the bundle or key it was begun for |
| `RuntimeProgress.NoDeadlock` | app/runtime_registry.py:362-481 | Waits follow the order load lock, model semaphore, GPU semaphore: every unfinished task heads a chain of at most four waits whose last task can move without timeout or cancellation |
| `RuntimeProgress.InternalRunEnds` | app/runtime_execution.py:197-261 | Without new callers a run is no longer than the steps left to its tasks |
| `RuntimeProgress.StuckIsDone` | app/runtime_registry.py:215-238 | A state in which no task can move has finished all tasks |
| `RuntimeProgress.OrphansByCancelOnly` | app/runtime_execution.py:251-261 | Threads are left behind by cancelling a run in execution, always and only |
| `RuntimeProgress.OrphansAreAbandoned` | app/runtime_execution.py:251-261 | After any run a thread is left behind exactly when some event cancelled its run in execution and the thread has not ended since |
| `RuntimeProgress.ReleasedUnderThreadIff` | app/runtime_registry.py:215-238 | Over every run: a released session has a thread in it exactly when a run on it was so abandoned |
| `RuntimeProgress.ReleasedUnderThread` | app/runtime_registry.py:215-238 | A run of the protocol in which a session is released under a thread |
| `RuntimeProgress.OneLoadPerKey` | app/runtime_registry.py:184-190 | As long as nothing is unloaded or evicted a key is loaded by one task at a time |
| `Compatibility.CompatibilityErrors` | scripts/repository_contracts.py:276-381 | The recursive check reports exactly the problems of the two schemas, path by path, rule by rule and variant by variant, and nothing exactly when there are none |
| `CompatibilityPlaces.MessagesAreExact` | scripts/repository_contracts.py:276-381 | The messages are exactly the rules broken at places that steps into properties and items lead to, each under the path that spells the steps |
| `CompatibilitySound.Sound` | scripts/repository_contracts.py:276-381 | On comparable schemas an empty list means that every document valid under the previous schema is valid under the next one |
| `CompatibilitySound.Reflexive` | scripts/repository_contracts.py:276-381 | Every schema is compatible with itself |
| `CompatibilitySound.Transitive` | scripts/repository_contracts.py:276-381 | Compatibility carries over a middle schema that has items and object subschemas where the outer two have them and drops no const before a null one |
| `CompatibilitySound.TransitiveOnFragment` | scripts/repository_contracts.py:276-381 | On the schemas the check is sound for, compatibility is transitive |
| `CompatibilityGaps.NullConstUnnoticed` | scripts/repository_contracts.py:330-332 | A null const added to a schema without one goes unnoticed and breaks a document |
| `CompatibilityGaps.BooleanTakenForNumber` | scripts/repository_contracts.py:313-320 | Python's equality takes true for 1, so an enum change goes unnoticed |
| `CompatibilityGaps.ConstTrueTakenForOne` | scripts/repository_contracts.py:330-332 | The same for const |
| `CompatibilityGaps.PropertyAddedToOpenObject` | scripts/repository_contracts.py:294-312 | A new property schema on an open object goes unnoticed |
| `CompatibilityGaps.ItemsAdded` | scripts/repository_contracts.py:347-358 | An added items schema goes unnoticed |
| `CompatibilityGaps.AllOfIgnored` | scripts/repository_contracts.py:359-380 | An added allOf goes unnoticed |
| `CompatibilityGaps.ShapedAdditionalIgnored` | scripts/repository_contracts.py:343-344 | A schema in additionalProperties goes unnoticed |
| `CompatibilityGaps.ForbiddenPropertyUnnoticed` | scripts/repository_contracts.py:300-312 | A property schema that becomes false goes unnoticed |
| `CompatibilityGaps.BooleanPropertyIgnored` | scripts/repository_contracts.py:300-312 | Any property schema that is or becomes a boolean goes unnoticed, whatever it stops accepting |
| `CompatibilityGaps.BooleanItemsIgnored` | scripts/repository_contracts.py:347-358 | So does any items schema |
| `CompatibilityGaps.BooleanVariantIgnored` | scripts/repository_contracts.py:364-367 | An anyOf variant of true may be dropped unnoticed |
| `CompatibilityGaps.SiblingsOfReferenceIgnored` | scripts/repository_contracts.py:264-273 | Keywords beside a reference go unnoticed |
| `CompatibilityGaps.ReferenceToReferenceIgnored` | scripts/repository_contracts.py:264-273 | A change behind a second reference goes unnoticed |
| `CompatibilityGaps.DanglingReferenceIgnored` | scripts/repository_contracts.py:264-273 | A new reference that leads nowhere or to a boolean goes unnoticed |
| `CompatibilityGaps.WidenedOneOf` | scripts/repository_contracts.py:359-380 | Widening a oneOf variant goes unnoticed and breaks a document |
| `CompatibilityGaps.MiddleHidesConst` | scripts/repository_contracts.py:330-332 | Compatibility does not carry over a middle schema that hides a null const |
| `CompatibilityGaps.MiddleLacksItems` | scripts/repository_contracts.py:347-358 | Compatibility does not carry over a middle schema without items |
| `CompatibilityGaps.MiddleBooleanProperty` | scripts/repository_contracts.py:300-312 | Nor over one with a boolean property schema |
| `CompatibilityGaps.MiddleBooleanItems` | scripts/repository_contracts.py:347-358 | Nor over one with a boolean items schema |
| `AlertStore.AlertRepository.RecordAlert` | scenara/infrastructure/memory_surveillance.py:207-251 | A candidate counts as a repeat, returns a duplicate or is emitted with the next cursor; the new store in full |
| `AlertStore.AlertRepository.TriageAlert` | scenara/infrastructure/memory_surveillance.py:290-305 | Stored exactly when the alert exists, has the expected revision and is pending |
| `AlertStore.AlertRepository.EventsAfter` | scenara/infrastructure/memory_surveillance.py:307-309 | The events past the cursor in order, at most the limit |
| `AlertStore.RecordSound` | scenara/infrastructure/memory_surveillance.py:207-251 | Recording keeps debounce and idempotency entries leading to alerts, alerts to their entries, and logs numbered from one |
| `AlertStore.IdempotencyKeysDiffer` | scenara/infrastructure/memory_surveillance.py:238-246 | No two alerts of a sound store share an idempotency key |
| `AlertHistories.HistorySound` | scenara/infrastructure/memory_surveillance.py:207-305 | Every state of every history is sound and alerts never disappear |
| `AlertHistories.EmittedOnce` | scenara/infrastructure/memory_surveillance.py:238-246 | Two emitted alerts of one project have different idempotency keys |
| `AlertHistories.EmissionsSpaced` | scenara/infrastructure/memory_surveillance.py:210-236 | The next alert of a debounce key comes no earlier than the cooldown of the one before; a candidate during the cooldown is a repeat of exactly that alert |
| `AlertHistories.TriageLoses` | scenara/infrastructure/memory_surveillance.py:290-305 | A verdict loses as many repeats as lie between the revision of its copy and the expected one |
| `AlertHistories.CountIsRepeats` | scenara/infrastructure/memory_surveillance.py:217-226 | A count grows by at most its repeats, and by exactly its repeats if and only if every verdict expected the revision of its copy |
| `AlertHistories.PendingPeaks` | scenara/infrastructure/memory_surveillance.py:217-226 | While an alert is pending, its best score and last sighting are the peaks over itself and its repeats |
| `AlertHistories.CarelessVerdict` | scenara/domains/portrait/surveillance.py:809-843 | A history in which a verdict wipes out a repeat |
| `AlertHistories.VerdictsAreExact` | scenara/infrastructure/memory_surveillance.py:290-305 | Over every history a verdict is taken exactly when the alert is pending under the expected revision; it is stored under the next revision and logged once, and otherwise nothing changes |
| `AlertHistories.VerdictsStand` | scenara/infrastructure/memory_surveillance.py:290-305 | Once an alert has a verdict its status never changes |
| `AlertHistories.PollingReplays` | scenara/infrastructure/memory_surveillance.py:307-309 | Polling by the last cursor replays the log from the start cursor, every event once and in order, and each poll brings as many events as its limit allows |
| `StateStore.MemoryStateStore.CreateRunIdempotent` | scenara/infrastructure/memory_state.py:453-475 | The outcome and the new store: replay, conflict, or a new run with its entry |
| `StateStore.MemoryStateStore.DeleteRun` | scenara/infrastructure/memory_state.py:560-573 | The run, its events and exactly its idempotency entries go |
| `StateStore.MemoryStateStore.SaveRun` | scenara/infrastructure/memory_state.py:575-585 | Saved with the next revision exactly when the expected one is stored |
| `StateStore.MemoryStateStore.AppendEvent` | scenara/infrastructure/memory_state.py:587-603 | The event gets the next number of its run, or is refused without a run |
| `StateStore.MemoryStateStore.SaveWebhookDelivery` | scenara/infrastructure/memory_state.py:181-186 | Replaces a known delivery and refuses an unknown one |
| `StateStore.MemoryStateStore.ClaimWebhookDeliveries` | scenara/infrastructure/memory_state.py:160-179 | The most urgent due deliveries up to the limit, in order, are put under the lease; no due delivery left out is sooner than a claimed one |
| `StateHistories.HistorySound` | scenara/infrastructure/memory_state.py:453-603 | In every state idempotency entries lead to runs, events of a run are numbered from one, and each run has its event list |
| `StateHistories.ReplayReturnsRun` | scenara/infrastructure/memory_state.py:461-468 | Until the run is deleted the same request returns it and changes nothing, and another request under the key is refused |
| `StateHistories.DeletionFrees` | scenara/infrastructure/memory_state.py:560-573 | After the deletion a creation under the key makes a new run |
| `StateHistories.NoLostUpdate` | scenara/infrastructure/memory_state.py:575-585 | Of two saves that expect the same revision the later one is refused |
| `StateHistories.NotClaimedTwice` | scenara/infrastructure/memory_state.py:160-186 | A delivery not saved in between is claimed again only by a claim whose clock has reached the end of the lease |
| `StateHistories.ClaimsAreDue` | scenara/infrastructure/memory_state.py:160-179 | Over every history a claim takes only deliveries that are pending or being delivered and whose time has come, puts them under the lease in the order of time, creation and id, and leaves such a delivery only when its limit is used up by none later |
| `StateHistories.SavesAreStored` | scenara/infrastructure/memory_state.py:575-585 | Over every history a save at the current revision stores the given body under the next revision, any other save changes nothing, and no save touches anything else |
| `Nms.IouIsShare` | app/geometry.py:50-59 | The overlap lies between 0 and 1, is 0 for boxes apart, and the share of the areas for a box inside another |
| `Nms.NonMaximumSuppression` | app/geometry.py:31-62 | The kept indexes are distinct, by falling score, pairwise within the threshold; every dropped box clashes with a kept one that scores no less; a box is kept exactly when no earlier kept box clashes with it |
| `Nms.GreedyIsUnique` | app/geometry.py:43-60 | Only one set of boxes has that property |
| `Nms.SecondPassChangesNothing` | app/geometry.py:31-62 | Running again on the kept boxes in the order they were kept keeps them all |

## Left out

- ONNX sessions, image processing, embeddings, association scores and fragment similarities: scores and similarities are parameters; box overlap is modelled for suppression only.
- `postprocess_tracklets`, track smoothing, confidence and quality sums, and the public form of tracks: arithmetic over floats after the association is settled.
- Tracks: an observation carries the embedding sampled with it, which the code keeps in a list of its own beside the observations.
- Tracks are values in the tracker's lists, not shared objects: that updating a track through one list shows in another is not captured. Frames whose persons are not a list, and the recorded match details, are left out.
- The order in which groups are collapsed is any order of the group map, and the list of merge details is left out beyond the accepted edges.
- `greedy_match`: not used by the association.
- FairBatch: requests are values with an id; the scheduler's futures are statuses under that id. A submission brings its request ready made: that the code clamps the weight, derives the deadline from the timeout and the group from shape, type, contract and device is not modelled.
- FairRuns.SelectionIsUnique: for positive sizes, since a round that takes requests of size zero only ends the selection early.
- SchedulerRuns.RunSafe: the worker task itself is not cancelled. Starvation freedom under continuing arrivals is not claimed, since rotation and the size test do not give it.
- Dispatch.DispatchBatch: timings in the results are left out, and the gathered fallback runs are taken in order; `RunModelBundleBatch` is stated for executors whose outputs keep the batch dimension.
- `run_yolo_frames`, shadow inference and metrics: callers of the modelled runs.
- Runtime: bundles, semaphores, locks and tasks are values in a protocol state; only the eviction loop is modelled on a registry that changes in place, so aliasing between dictionaries is not captured.
- Runtime: the registry lock is held within single steps only, as no code awaits while holding it; asyncio's first-come order of waiters, load cooldowns, the wait-or-background choice of a drain and the order among equally old bundles are left out; a bundle passed to `retire_model_bundle` is one that a replacement took out of the registry; model concurrency and device queue limits are at least one, as the settings make them. The run's fallback to a plain lock, for bundles without a semaphore, is a semaphore of one permit.
- RuntimeProgress.OneLoadPerKey: only for runs without unload and eviction, because those drop the load lock while others may hold or await it.
- CompatibilitySound.Sound: the condition on the schemas is sufficient; that it is also necessary would mean deciding whether one schema implies another. Each clause of it is backed by a counterexample in `CompatibilityGaps`. References lead to named definitions that refer to earlier ones only; patterns and formats are parameters; keywords that the check does not read, the wording of messages beyond rule and variant, and their order are left out.
- CompatibilitySound.Transitive: the condition on the middle schema is sufficient; each clause of it is backed by a counterexample in `CompatibilityGaps`.
- AlertHistories.CountIsRepeats: alert ids are new, as generated ids are.
- AlertStore: watchlists, members, tasks and listings; a negative limit in `events_after`.
- StateStore.MemoryStateStore.AppendEvent: does not enqueue webhook deliveries; deliveries enter the histories by a step of their own with new ids.
- StateStore: assets, sources, datasets, searches, results, pipelines and listings; a negative limit in claims.
- Nms.NonMaximumSuppression: scores and boxes are reals; the order that sorting by score returns is any order by falling score.
- PostgreSQL, Redis, object storage, routes, settings, scripts and frontend.
