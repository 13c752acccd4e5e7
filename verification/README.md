# currentflow, verified

A model in Dafny of the exact algorithms and state machines of the currentflow trading-research
system, with proofs of what they promise. Prices, volumes and money are reals; dates are proleptic
day numbers, timestamps integers. `dafny verify dfyconfig.toml` checks the whole project.

The modules follow the program:

- **Volume profile** (`Allocation`, `ValueArea`, `Profile`): bar volume spread over price buckets in
  place, the greedy value area, and the merge into nodes.
- **Store, ingest and replay** (`Tables`, `Store`, `Ingest`, `Recovery`, `Restamp`, `Replay`): an
  insert-or-ignore table read as of a moment, the crash-safe ingest protocol under fixed and moving
  stamps, and replay frames as clients of the reads.
- **Tuning** (`WalkForward`, `Weights`, `Optimizer`, `WeightStore`): purged walk-forward folds, the
  hill climb on the locked weight simplex, and the guarded live weights.
- **Scheduling** (`Calendar`, `Scheduler`): next-fire arithmetic and the durable tick.
- **Orders** (`Ticks`, `Fill`, `Sizing`): banded tick rounding, the paper fill, and position sizing.
- **Patterns** (`Scan`, `Outcome`, `Accrual`, `Estimate`): the scan's overlap collapse, first-hit
  resolution, the run that reopens and settles instances, and the Wilson interval.
- **Research** (`Premise`, `BrokerFlow`): equal-count buckets, broker netting and concentration.
- **Signals** (`Bars`, `Vpa`, `Phase`, `PhaseScale`, `ProfileScale`, `Trigger`, `Snapshots`, `Sms`,
  `Veto`, `Engine`, `Margin`): bar characters, the phase gate, the entry trigger, the score, the vetoes
  and the decision.

`Models`, `Sequences` and `Ordering` hold the shared records, sums, filters, the stable sort and
ordered sets.

Seven promises turn out not to hold of the code as they are worded; the model keeps the code, gives
inputs at which each fails, and states exactly when it does hold.

- The scheduler's "without ever double-firing" (`currentflow/scheduler/calendar.py:11`) is true per
  scheduled instant (`Scheduler.AnswersDiffer`), not per date: a daily feed at 09:05 fires at Monday
  09:00 for Saturday and again at 09:05, and weekly and monthly feeds can do the same
  (`Scheduler.DailyDoubleFire`, `Scheduler.WeeklyDoubleFire`, `Scheduler.MonthlyDoubleFire`, each
  the record of a run by `Scheduler.ChainIsARun`; `Scheduler.OncePerDateIff` over all runs and every
  calendar cadence).
- Rounding "up" to a tick rounds down a price that misses a tick from below by less than 1e-9 of a
  tick (`Ticks.UpCanRoundDown`, `Ticks.UpRoundsUpIff`, `Ticks.UpIsMonotoneIff`); on the 1e-6 grid
  there is none.
- The optimizer's last validation can fail, for a negative step only, and then exactly from an
  incumbent with an unlocked component too small to be lowered in every pass
  (`Optimizer.LoweringRaises`, `Optimizer.FinalValidationDeadIff`).
- A terminal outcome is decided again on every run: it ends when the name prints again
  (`Outcome.TerminalReopens`; `Outcome.FinalIff` says which outcomes are final).
- ARMED asks for a score of 70, but of the stored `internal_score`, which is rounded to two places: of
  the score before rounding, 69.995 is enough (`Margin.ArmedBelowSeventy`, `Engine.ArmedIff`).
- `currentflow/ml/cv.py:63` says fold indices are positions in the t0-sorted list; the code returns
  positions in the caller's list (`currentflow/ml/cv.py:75`), and so does the model. The two agree
  exactly when the caller's list is already sorted (`WalkForward.IndexIsNotPosition`,
  `WalkForward.FoldsArePositionsIff`).
- A retried ingest re-writes broker rows as "exact-key no-ops"
  (`currentflow/ingest/pipeline.py:104-105`) exactly when each row's key, its stamp included, is stored
  already (`Tables.ReinsertIsNoOp`). The stamp is the feed's `data_last_updated` where it sends one
  (`currentflow/dal/timing.py:21-37`), and a row under a new stamp is a new row
  (`Restamp.RetryRewrites`, `Restamp.MovedStampIsStoredTwice`). Recovery survives it: `Recovery.RetryEqualsCleanRun` is about stamps
  that repeat, `Restamp.RetryReadsAlike` about stamps that move.

What the code takes from outside is a parameter: the feed's answers and the point of failure of an
ingest run, the outcome of a scheduled action, the clock, the evaluation the optimizer climbs, the
universe and the hit predicate of a scan, the bars a resolving pass reads, the square root in the
Wilson interval (known by what makes it one), the volume-move correlation in the divergence score,
the average traded value, the broker and foreign snapshots, and in a replay frame broker netting.

## Model

| member | source | states |
|---|---|---|
| Allocation.Allocate | currentflow/signals/volume_profile.py:179-206 | the bucket array is exactly the per-bar uniform shares added up; locked prints land whole in the one bucket that holds their price |
| Allocation.IndexBrackets | currentflow/signals/volume_profile.py:188-190 | the index found for an in-range price is a bucket whose edges bracket that price, the clamped top bucket included |
| Allocation.OverlapTelescopes | currentflow/signals/volume_profile.py:200-205 | summed from the bottom, a bar's overlaps cover exactly the part of its range below the edge reached |
| Allocation.RowConserves | currentflow/signals/volume_profile.py:191-206 | what one bar allots to all buckets is its whole positive volume |
| Allocation.VolumesConserve | currentflow/signals/volume_profile.py:179-206 | the bucket volumes of a window sum to the positive volumes of its bars |
| Allocation.OutsideNoOverlap | currentflow/signals/volume_profile.py:198-205 | a bucket outside the index range the loop visits has no overlap with the bar, so visiting fewer buckets loses nothing |
| ValueArea.Compute | currentflow/signals/volume_profile.py:209-228 | the lo/hi/acc loop ends, stays inside the array, and returns the greedy band with its exact sum |
| ValueArea.GrowReaches | currentflow/signals/volume_profile.py:217-228 | the band holds at least the target whenever the whole window does |
| ValueArea.GrowIsTight | currentflow/signals/volume_profile.py:217-228 | a band larger than the start falls below the target without an end bucket it took: nothing is taken beyond need |
| ValueArea.DominatingBandIsBest | currentflow/signals/volume_profile.py:217-228 | a band no outside bucket outweighs holds at least as much as any choice of as many buckets |
| ValueArea.GrowIsOptimal | currentflow/signals/volume_profile.py:217-228 | with volumes falling away from the peak, no choice of fewer buckets, contiguous or not, reaches the target |
| ValueArea.ValueAreaIsSmallest | currentflow/signals/volume_profile.py:209-228 | with volumes falling away from the peak, whenever any choice of buckets reaches the target the value area reaches it too, and with no more buckets |
| Profile.KindsFollowVolume | currentflow/signals/volume_profile.py:231-246 | a heavier bucket never has a lower kind, and the heaviest bucket is not LVN |
| Profile.SomeBucketIsNotHvn | currentflow/signals/volume_profile.py:231-246 | in every window some bucket is not HVN |
| Profile.PointOfControl | currentflow/signals/volume_profile.py:314 | the heaviest bucket, the lowest priced of equals |
| Profile.Merge | currentflow/signals/volume_profile.py:249-266 | the nodes tile the buckets in order by same-kind runs with their summed volumes and shares |
| Profile.CutsAreChanges | currentflow/signals/volume_profile.py:249-266 | two buckets are in one node exactly when nothing between them changes kind: the runs are maximal |
| Profile.MergeConserves | currentflow/signals/volume_profile.py:249-266 | node volumes sum to the bucket volumes, and node shares to 1 when the total is positive |
| Profile.Build | currentflow/signals/volume_profile.py:269-332 | a profile is available exactly when the window is readable, and then its buckets, levels and nodes read as promised of those bars: volume conserved from bars to nodes, value area at least seventy percent, val < poc < vah |
| Tables.ReinsertIsNoOp | currentflow/store/db.py:556-566 | rows all stored already change nothing, and rows that add no key were all stored already |
| Tables.BelowOfInsert | currentflow/store/db.py:556-566 | what a write shows below a moment is what its rows stamped below that moment would have written on their own |
| Tables.FutureRowsInvisible | currentflow/store/db.py:556-566 | rows stamped at or after a moment change nothing visible below it |
| Store.InsertRows | currentflow/store/db.py:556-566 | insert-or-ignore, row by row: the new table and the count of rows that were new |
| Store.Store.WriteDailyBars | currentflow/store/db.py:219-229 | the bar table after a write, cut anywhere; the broker table untouched |
| Store.Store.WriteBrokerNet | currentflow/store/db.py:231-239 | the broker table after a write, cut anywhere; the bar table untouched |
| Store.Store.IngestedDates | currentflow/store/db.py:573-580 | exactly the dates with a stored bar of the symbol |
| Store.ReadBars | currentflow/store/db.py:582-614 | dates strictly ascend, so one row a date |
| Store.ReadIsPointInTime | currentflow/store/db.py:932-957 | a date is in the read iff something of it is visible, and its row is the newest visible one |
| Store.ReadBrokerIsPointInTime | currentflow/store/db.py:616-643 | a date, broker and side is in the broker read iff a row of it is visible, and its row is the newest visible one |
| Store.ReadUsesBelow | currentflow/store/db.py:932-957 | a bar read uses nothing stamped at or after the decision |
| Store.ReadBrokerUsesBelow | currentflow/store/db.py:616-643 | a broker read uses nothing stamped at or after the decision |
| Store.HistoryBelow | currentflow/store/db.py:556-566 | over any write history, what is visible at a moment is what the rows stamped before it would have stored alone |
| Store.FutureCannotInfluenceReads | currentflow/store/db.py:932-957 | two histories with the same rows below a moment give the same reads at it |
| Store.AgreeingStoresReadAlike | currentflow/store/db.py:932-957 | stores that agree below a moment answer every read at it alike |
| Ingest.Weekdays | currentflow/ingest/pipeline.py:49-56 | exactly the weekdays of the range, ascending |
| Ingest.FetchBroker | currentflow/ingest/pipeline.py:109-113 | the answers of all missing days in order, or the failure of the first call that fails |
| Ingest.IngestSymbol | currentflow/ingest/pipeline.py:75-117 | the store left behind for every point of failure, the counts returned, and no failure without a crash |
| Recovery.RunKeepsCommitted | currentflow/ingest/pipeline.py:84-117 | whichever way a run ends, a stored weekday bar still implies all of that day's broker rows are stored |
| Recovery.ReachableIsCommitted | currentflow/ingest/pipeline.py:84-117 | so in every store reachable by runs over any symbols and ranges, failing anywhere |
| Recovery.StaysOnTheWay | currentflow/ingest/pipeline.py:84-117 | a run inside a range, failing or not, never writes what a clean run over the range would not |
| Recovery.CleanRunArrives | currentflow/ingest/pipeline.py:84-117 | from any store on the way, one clean run arrives at the clean store |
| Recovery.RetryEqualsCleanRun | currentflow/ingest/pipeline.py:84-117 | any runs inside the range, failing anywhere, and then a clean one leave exactly the store of the one clean run, for a feed that answers a day alike each time it is asked |
| Restamp.EraseRun | currentflow/ingest/pipeline.py:84-117 | when the feed stamps the same broker rows differently each time, a run does to the rows, stamps aside, what it does on an unstamped feed |
| Restamp.SameContentReadsAlike | currentflow/store/db.py:616-643 | broker tables with the same rows up to stamps answer every read alike once all their stamps are past |
| Restamp.RetryReadsAlike | currentflow/dal/timing.py:21-37 | failing runs each stamped in its own way and then a clean one leave the bars of one clean run, and every broker read made once all stamps are past answers as after that one run |
| Restamp.NewStampIsNewRow | currentflow/store/db.py:556-566 | a row fetched again under a new stamp is stored beside the old one, so the re-write is not a no-op |
| Restamp.RetryRewrites | currentflow/ingest/pipeline.py:98-113 | a run that dies at the bars call leaves every missing day's broker rows and no bar, and the retry's rewrite of them changes nothing exactly when every key it brings, stamp included, is stored |
| Restamp.MovedStampIsStoredTwice | currentflow/ingest/pipeline.py:103-105 | on an empty store such a run and its retry leave one row, and a second beside it exactly when the stamp moved |
| Replay.BuildReplay | currentflow/signals/replay.py:133-152 | one frame a weekday of the range, in order, each read and classified at that day's own decision moment |
| Replay.FrameUsesItsPast | currentflow/signals/replay.py:70-130 | stores that agree below a frame's own decision moment build the same frame |
| Replay.ReplayUsesItsPast | currentflow/signals/replay.py:133-152 | stores that agree below the last frame's moment replay identically |
| Replay.ReplayIsStable | currentflow/signals/replay.py:133-152 | whatever is written afterwards with later stamps, the frames stay what they were |
| Replay.LongerReplayExtends | currentflow/signals/replay.py:133-152 | a later end only appends frames |
| WalkForward.ContiguousSegments | currentflow/ml/cv.py:90-99 | the cursor loop cuts the order into exactly the near-equal consecutive segments |
| WalkForward.PurgedWalkForward | currentflow/ml/cv.py:50-87 | both errors exactly when they apply; else one fold for each of the asked-for folds, purged and embargoed |
| WalkForward.NoLeakage | currentflow/ml/cv.py:102-114 | every training label ends strictly before every test sample of the fold starts |
| WalkForward.TrainPrecedesTest | currentflow/ml/cv.py:67-87 | training samples come before the test block in the t0 order and are never in it |
| WalkForward.TestSizes | currentflow/ml/cv.py:90-99 | test blocks are not empty and differ in size by at most one |
| WalkForward.TestsPartition | currentflow/ml/cv.py:67-87 | each sample is in the warm-up and no test block, or in exactly one test block |
| WalkForward.EmbargoKeeps | currentflow/ml/cv.py:110-114 | a purge survivor is kept by the embargo exactly when enough survivors follow it |
| WalkForward.TrainingIsNested | currentflow/ml/cv.py:67-114 | training sets only grow from fold to fold, even after the embargo |
| WalkForward.PositionsAreIndicesIff | currentflow/ml/cv.py:63-75 | the sorted order holds each position as its own index exactly when the caller's list is already in order |
| WalkForward.FoldsArePositionsIff | currentflow/ml/cv.py:63-86 | for every number of folds, the warm-up and all test blocks are consecutive positions in the sorted list exactly when the caller's list is already in order |
| WalkForward.IndexIsNotPosition | currentflow/ml/cv.py:63-75 | two samples given latest first: the test block is index 0 where the documented position is 1 |
| Weights.ComputeNeighbours | currentflow/ml/optimizer.py:117-133 | the nested loop lists exactly the single moves, in the order searched |
| Weights.NeighboursAreMoves | currentflow/ml/optimizer.py:117-133 | a vector is a neighbour iff it moves one step between two distinct unlocked components, the giver able to pay |
| Weights.NeighbourIsValid | currentflow/ml/optimizer.py:54-64 | every neighbour of valid weights passes validation, for any non-negative step, and stays within one step per component |
| Weights.ShippedWeightsAreValid | currentflow/config.py:239-254 | both configured weight tables pass the validation |
| Optimizer.OptimizeWeights | currentflow/ml/optimizer.py:136-182 | the nested hill-climb loop, with both errors, is the climb the other members speak of |
| Optimizer.RunSweep | currentflow/ml/optimizer.py:160-164 | one pass over the neighbours, and whether it moved |
| Optimizer.SweepPicks | currentflow/ml/optimizer.py:160-164 | a pass ends on a candidate no other beats, or stays when none beats the start |
| Optimizer.ObjectiveRises | currentflow/ml/optimizer.py:156-166 | along the search the objective strictly rises |
| Optimizer.NoVectorRepeats | currentflow/ml/optimizer.py:156-166 | so no weight vector is visited twice |
| Optimizer.EarlyStopIsLocalMaximum | currentflow/ml/optimizer.py:159-166 | stopping before the iteration cap means no neighbour beats the result |
| Optimizer.PathStaysValid | currentflow/ml/optimizer.py:117-168 | the search stays valid and congruent to the incumbent modulo the step in every component |
| Optimizer.ProposalIsSound | currentflow/ml/optimizer.py:136-182 | for a non-negative step the search raises nothing, and its proposal is valid and strictly better unless unchanged |
| Optimizer.ImprovedNeverDegrades | currentflow/ml/optimizer.py:172-177 | a proposal marked improved has a positive out-of-sample figure no lower than the incumbent's |
| Optimizer.FinalValidationDeadIff | currentflow/ml/optimizer.py:168 | from any valid incumbent of either track, the validation after the search passes for every evaluation exactly when the step is not negative or every unlocked component holds at least the cap on passes times the step's size |
| Optimizer.LoweringRaises | currentflow/ml/optimizer.py:156-168 | with a negative step and an unlocked component below that bound, paying for lowering it makes the call raise |
| Optimizer.ShippedFinalValidationDeadIff | currentflow/ml/optimizer.py:168 | from either configured table and any positive cap, the validation is dead exactly when the step is not negative |
| WeightStore.WeightStore.ApplyProposal | currentflow/ml/weights_store.py:39-51 | the new live weights and history, the answer or error, and no change unless the answer is yes |
| WeightStore.EveryRunIsAudited | currentflow/ml/weights_store.py:27-55 | over any run of calls from a valid start the live weights are valid and equal the replay of the history |
| WeightStore.TuningNeverDegrades | currentflow/ml/weights_store.py:39-51 | over any rounds of optimize-then-apply on the same evaluations no track's out-of-sample figure falls |
| Calendar.PreviousTradingDay | currentflow/scheduler/calendar.py:46-53 | the last weekday strictly before the day |
| Calendar.ComputeWeeklyNext | currentflow/scheduler/calendar.py:73-80 | the roll-forward loop ends at the week's or the next week's instant |
| Calendar.ComputeMonthlyNext | currentflow/scheduler/calendar.py:99-105 | the roll-forward loop ends at the month's or the next month's clamped instant |
| Calendar.NextMonthRollsOver | currentflow/scheduler/calendar.py:95-96 | year and month roll over to the following month, December included |
| Calendar.NextFireIsLeast | currentflow/scheduler/calendar.py:56-119 | daily, weekly and day-clamped monthly next fires are the least scheduled instant strictly after the last run |
| Calendar.NextFireIsLater | currentflow/scheduler/calendar.py:108-124 | the next fire of every cadence is strictly after the last run |
| Scheduler.RunLog.RunTick | currentflow/scheduler/runner.py:236-265 | the run table, the fires and the halt of one tick; a feed whose action fails authentication records nothing |
| Scheduler.LawfulFireIsNew | currentflow/scheduler/runner.py:248-263 | a due fire is new to the table, so its row is never dropped as a duplicate |
| Scheduler.EveryRunIsLawful | currentflow/scheduler/runner.py:236-265 | over any run, whatever the clock reads and however actions end, each recorded fire was due after the one before and applicable |
| Scheduler.ChainIsARun | currentflow/scheduler/runner.py:236-265 | and every lawful history is what some run of the tick records: a daemon that wakes at its fires and whose actions finish |
| Scheduler.EveryFireAnswers | currentflow/scheduler/calendar.py:8-11 | every fire answers a scheduled instant after the fire before it, the first fire the one anchored on its own day, week or month |
| Scheduler.AnswersDiffer | currentflow/scheduler/calendar.py:8-11 | no scheduled instant is answered by two fires, the first fire included: answered instants strictly ascend |
| Scheduler.UnansweredInstantIsDue | currentflow/scheduler/calendar.py:122-124 | a scheduled instant with no fire at or after it is still due |
| Scheduler.OncePerDateIff | currentflow/scheduler/calendar.py:8-11 | no run of the tick, over any table that schedules it, fires a daily, weekly or monthly feed twice on a date unless, and only unless, its time is after the trading window opens and no later than it closes, for a weekly feed on a weekday |
| Scheduler.AuthFailureLeavesFeedDue | currentflow/scheduler/runner.py:219-225 | a halted tick leaves the run state of the failing feed and of every feed after it as it was, so the feed is still due |
| Scheduler.TickIsQuiescent | currentflow/scheduler/runner.py:236-265 | after a tick that did not halt, nothing it visited can fire again at the same instant |
| Ticks.ComputeTickSize | currentflow/paper/fill.py:72-80 | the tick of the last band whose lower bound the price meets |
| Ticks.RoundingIsOnTick | currentflow/paper/fill.py:83-93 | every mode returns a multiple of the tick of the result's own band |
| Ticks.RoundingFixesOnTick | currentflow/paper/fill.py:83-93 | rounding fixes exactly the on-tick prices and is idempotent |
| Ticks.RoundsNotBelow | currentflow/paper/fill.py:83-93 | no mode rounds a price below an on-tick price it is at or above, across bands |
| Ticks.RoundsNotAbove | currentflow/paper/fill.py:83-93 | no mode rounds a price above an on-tick price it is at or below, across bands |
| Ticks.RoundingIsMonotone | currentflow/paper/fill.py:83-93 | down and nearest are monotone, across band edges |
| Ticks.UpRoundsUpIff | currentflow/paper/fill.py:87-88 | up rounds to no less than the price exactly when the price is not within the tolerance of a whole tick |
| Ticks.UpIsMonotoneIff | currentflow/paper/fill.py:87-88 | up is monotone exactly at prices that do not miss a tick from below by less than the tolerance |
| Ticks.UpCanRoundDown | currentflow/paper/fill.py:87-88 | 199.9999999999 is sent down to 199 |
| Ticks.GridHasNoNearMiss | currentflow/paper/fill.py:83-93 | on the 1e-6 grid there is no such price, so there up rounds up and is monotone |
| Fill.FeesAreLinear | currentflow/paper/fill.py:113-123 | fees total a fixed rate of the gross per side |
| Fill.SettlementDate | currentflow/paper/fill.py:126-138 | the one weekday with exactly the asked-for number of weekdays after the trade date: every earlier date has fewer, every later weekday more |
| Fill.FillOrder | currentflow/paper/fill.py:171-236 | lot, auto-reject and limit refusals exactly when each applies, in that order, and else the fill at the fill price |
| Fill.FillIsOnTick | currentflow/paper/fill.py:213-226 | a fill price is always a valid tick |
| Fill.BuyBracket | currentflow/paper/fill.py:213-220 | a filled buy pays at most its limit and at least a tick-aligned open |
| Fill.SellBracket | currentflow/paper/fill.py:221-226 | a filled sell gets at most a tick-aligned open |
| Fill.SellLimitIff | currentflow/paper/fill.py:221-226 | a sell is priced at its limit or better exactly when the limit is no near miss or the slipped price reaches it anyway |
| Fill.SellOnGrid | currentflow/paper/fill.py:221-226 | on the 1e-6 grid a sell filled after a tick-aligned open gets at least its limit and at most the open |
| Fill.RoundTripGainIff | currentflow/paper/fill.py:113-123 | buying and selling the same shares gains exactly when the sale covers both fee stacks, never at an unchanged price |
| Sizing.LotsIsLargest | currentflow/execution/order.py:67-69 | the lot count is the largest multiple of 100 not above the shares |
| Sizing.ClampIsExact | currentflow/execution/order.py:110-118 | a clamp keeps exactly the lot counts that fit under it |
| Sizing.GenerateOrder | currentflow/execution/order.py:72-132 | each refusal exactly when it applies, the division by a zero entry included, and else the order with its quantity and risk; for a positive entry accepted iff one lot meets all three limits |
| Sizing.SizingIsMaximal | currentflow/execution/order.py:100-132 | the quantity is the largest whole number of lots within the risk budget, the name cap and the sector room together |
| Sizing.RiskSurvivesTheFill | currentflow/execution/order.py:100-132 | an accepted order is never refused for its lots, and at whatever price it fills it risks no more than budgeted and stays in both caps |
| Scan.ScanPattern | currentflow/patterns/scan.py:38-81 | refused exactly when some day's universe is not point-in-time; else one row per flag and horizon, in order |
| Scan.GreedyIsSelection | currentflow/patterns/scan.py:51-69 | flags are hits at least the longest horizon apart |
| Scan.SuppressedHitIsCovered | currentflow/patterns/scan.py:63-65 | every hit is flagged or lies within the horizon after a flag |
| Scan.GreedyIsOptimal | currentflow/patterns/scan.py:51-69 | no other selection of hits that far apart is larger |
| Scan.ScanIsGreedy | currentflow/patterns/scan.py:51-78 | what the day-by-symbol loop flags for a symbol is the collapse of that symbol's hits, however often the universe lists it |
| Scan.ScanIsOptimal | currentflow/patterns/scan.py:51-78 | so per symbol the scan's flags are separated, cover every hit and are as many as can be |
| Scan.LongerScanExtends | currentflow/patterns/scan.py:51-78 | scanning more days keeps every flag and adds none on the earlier days |
| Outcome.ResolveInstance | currentflow/patterns/outcome.py:22-52 | the search loop answers as the resolution the lemmas speak of, on every input |
| Outcome.HitIsEarliest | currentflow/patterns/outcome.py:32-43 | HIT exactly when a bar of the window reaches the target, and dated by the earliest such bar |
| Outcome.LongerHorizonKeepsHit | currentflow/patterns/outcome.py:32-46 | a hit is the same hit at every longer horizon, a miss is a miss at every shorter one |
| Outcome.SettledIsStable | currentflow/patterns/outcome.py:32-52 | HIT and MISS are unchanged by later bars and by a later market date |
| Outcome.FinalIff | currentflow/patterns/outcome.py:45-52 | an outcome survives all continuations iff it is HIT or MISS, or no close precedes the flag and a bar on or after it is already there |
| Outcome.TerminalReopens | currentflow/patterns/outcome.py:48-51 | a terminal outcome ends with any bar printed on or after the market's latest date, whatever its close, and one such bar takes it back to OPEN |
| Accrual.InstanceTable.WriteInstances | currentflow/store/db.py:387-408 | upsert row by row, and the number of keys added |
| Accrual.InstanceTable.ReadOpen | currentflow/store/db.py:410-438 | every OPEN row once and no other |
| Accrual.InstanceTable.ResolveOpen | currentflow/patterns/outcome.py:55-82 | every OPEN row is settled from its bars, all others untouched, no key added |
| Accrual.InstanceTable.RunEstimation | currentflow/patterns/accrual.py:55-66 | scan, upsert to OPEN and resolve; nothing changes without bars or when the scan is refused |
| Accrual.RunIsFromScratch | currentflow/patterns/accrual.py:64-66 | a run over a table of flags of its own days leaves what a run on an empty table leaves |
| Accrual.HistoryIsLastRun | currentflow/patterns/accrual.py:55-84 | after any history of runs over growing day lists the table is the one the last run alone would have built |
| Accrual.SettledForever | currentflow/patterns/accrual.py:55-84 | over any such history an instance once HIT or MISS keeps its outcome and date, although each run reopens it |
| Estimate.WilsonIsScoreTest | currentflow/patterns/estimate.py:28-37 | the interval is exactly the rates the score test accepts, contains the observed rate, and neither clamp ever acts |
| Estimate.DecayIff | currentflow/patterns/estimate.py:146-160 | the decay flag is raised exactly when both windows have a rate, the out-of-sample one is lower, and the score test rejects it |
| Premise.BucketIsSlice | currentflow/research/premise.py:157-159 | a rank is in bucket k exactly between two consecutive boundaries, so buckets are consecutive ranks |
| Premise.RankBelow | currentflow/research/premise.py:157-159 | the cap in the bucket formula never acts |
| Premise.Bucketize | currentflow/research/premise.py:162-182 | refused exactly below two names a bucket (the empty-bucket guard never acts), else every bucket's sum and count |
| Premise.BucketsAreEqual | currentflow/research/premise.py:157-182 | bucket sizes are the floor or the ceiling of n / buckets |
| Premise.BucketHasTwo | currentflow/research/premise.py:166-171 | an accepted cross-section gives every bucket at least two names |
| Premise.BucketsAreQuantiles | currentflow/research/premise.py:173-180 | no name in a lower bucket has a larger feature than one in a higher bucket |
| Premise.BucketsConserve | currentflow/research/premise.py:173-182 | bucket sums add up to the total return and bucket counts to the number of names |
| Premise.MonotonePremiseShows | currentflow/research/premise.py:249-253 | when returns never fall as the feature rises, neither do the bucket means |
| Premise.MonotonePremiseSpreads | currentflow/research/premise.py:245-253 | and the day's spread, top bucket over bottom, is then not negative |
| Premise.ReturnIgnoresThePast | currentflow/research/premise.py:129-151 | the forward return depends only on bars dated on or after the decision day |
| BrokerFlow.DailyBrokerNet | currentflow/signals/broker_flow.py:73-88 | the nested dictionary of nets and the number of rows dropped for an unknown value |
| BrokerFlow.BrokerNetIsGross | currentflow/signals/broker_flow.py:73-88 | a broker's net is what it bought less what it sold, and it has one iff it has a known row that day |
| BrokerFlow.DayNetsConserve | currentflow/signals/broker_flow.py:73-88 | a day's nets sum to gross buying less gross selling |
| BrokerFlow.BrokerMarketClears | currentflow/store/integrity.py:136-168 | both gross sums and the dropped count, of one day's rows or of a range's |
| BrokerFlow.ClearsIffNetsBalance | currentflow/store/integrity.py:126-133 | a day's rows, as magnitudes, clear exactly when the day's nets sum to at most one percent of the larger side |
| BrokerFlow.SyndicateNets | currentflow/signals/broker_flow.py:132-145 | each group gets the sum of its members, every broker counts once, and the total is preserved |
| BrokerFlow.ConcentrationBounds | currentflow/signals/broker_flow.py:94-108 | for k net buyers 1/k <= HHI <= top-1 share <= 1 and top-1 squared <= HHI |
| BrokerFlow.TopShareMonotone | currentflow/signals/broker_flow.py:94-99 | the top-n share grows with n and is 1 once every buyer is counted |
| BrokerFlow.Persistence | currentflow/signals/broker_flow.py:114-129 | the longest run of net-buy days that ends at the latest day |
| Bars.CompleteBars | currentflow/signals/vpa.py:165-176 | the complete TRADED bars in date order and the number dropped |
| Bars.CompleteFrom | currentflow/signals/vpa.py:165-176 | a bar is kept iff it is some complete bar of the list |
| Vpa.CharacterMeans | currentflow/signals/vpa.py:257-321 | the volume, spread and close each named character implies, STOPPING_VOLUME in both directions, and which characters carry the effort flag |
| Vpa.BuildReading | currentflow/signals/vpa.py:324-341 | the ribbon of the last bars, available iff some bar of it is readable |
| Vpa.RibbonIsStable | currentflow/signals/vpa.py:195-200 | the bar a prefix ends in reads the same in every ribbon that holds it, however many bars came after |
| Vpa.EvidenceScaled | currentflow/signals/vpa.py:204-249 | every ratio, comparison and guard of a bar is unchanged by scaling prices and volumes |
| Vpa.ReadingIsScaleInvariant | currentflow/signals/vpa.py:18-22 | prices times k and volumes times m leave the whole reading unchanged, from raw bars through hygiene to the ribbon |
| Phase.DetectSellingClimax | currentflow/signals/phase.py:130-152 | the search loop finds the selling climax the range is anchored on |
| Phase.Heaviest | currentflow/signals/phase.py:137-152 | of the marked bars the heaviest, and of equals the earliest; none only when nothing is marked |
| Phase.DecideTradeable | currentflow/signals/phase.py:331-367 | exactly which structures give C and D, and by whose bars the events are dated |
| Phase.SpringBehindC | currentflow/signals/phase.py:349-352 | a C verdict has a spring among the last bars, dated by its bar, against an established range with positive support |
| Phase.SupportBehindD | currentflow/signals/phase.py:354-361 | a D verdict has a sign of strength and, strictly later in the window, a last point of support |
| Phase.NotesMoveNothing | currentflow/signals/phase.py:273-293 | whatever readings annotate them, phase, tradeability, range and dated events are the same |
| PhaseScale.GateIsScaleInvariant | currentflow/signals/phase.py:296-367 | prices times k and volumes times m leave phase, tradeability and dated events unchanged and scale the range, whatever the readings |
| ProfileScale.ProfileIsScaled | currentflow/signals/volume_profile.py:269-332 | the profile built from scaled bars is there exactly when the other is, its bars, its point of control and its value area scaled with the prices |
| ProfileScale.ConfluenceScaled | currentflow/signals/volume_profile.py:377-409 | so an event's volume-profile note is the same against either profile |
| ProfileScale.AnalysisIsScaleInvariant | currentflow/signals/phase.py:370-389 | the whole analysis, with ribbon and profile built from the scaled bars themselves, changes in nothing but the scaled range, notes included |
| PhaseScale.TriggerIsScaleInvariant | currentflow/execution/trigger.py:72-123 | and leave the trigger's refusal, validity and reward-to-risk unchanged, its levels scaled |
| Trigger.GeometryIs | currentflow/execution/trigger.py:107-123 | levels are refused exactly when the close is not below the target, and valid exactly when the reward is at least twice the risk |
| Trigger.SpringGivesTrigger | currentflow/execution/trigger.py:90-98 | on the bars a C verdict was made from, the spring bar is always found and the stop is below the entry, sane bars or not |
| Trigger.SupportGivesTrigger | currentflow/execution/trigger.py:99-107 | on sane bars a D verdict's support bar is always found, dated strictly after the sign of strength, with the stop below the entry |
| Trigger.VerdictGivesTrigger | currentflow/execution/trigger.py:72-123 | a tradeable verdict, on sane bars where it is D, is never answered with not locatable, and an answer keeps stop < entry < target, valid iff reward is at least twice risk |
| Trigger.FastEntryIff | currentflow/execution/trigger.py:140-194 | on a tradeable verdict the fast entry always has its range and close, and is given exactly when the premium close is above the buffered support |
| Sms.CorrFactor | currentflow/signals/sms.py:90-104 | the factor is between one half and one |
| Sms.CountHighVolume | currentflow/signals/sms.py:122-133 | the counting loop's high-volume and flat bars |
| Sms.DivergenceClampIsDead | currentflow/signals/sms.py:139-142 | the sub-score is in the unit interval before its clamp |
| Sms.ScoreOnScale | currentflow/signals/sms.py:301-347 | with valid weights and a multiplier of at most 1 the score is between 0 and 100 |
| Sms.CompositeIgnores | currentflow/signals/sms.py:222-282 | with the three candidates unfunded, neither their readings nor event notes change the composite |
| Sms.InertIffUnfunded | currentflow/signals/sms.py:222-253 | ownership and bar-character readings are inert if and only if neither component has weight |
| Veto.BrokerRotation | currentflow/signals/veto.py:153-169 | concentrated on each of the latest days, in different hands each day |
| Veto.OwnershipFiresNothing | currentflow/signals/veto.py:78-118 | ownership and event notes change no veto's reason |
| Veto.PassesIff | currentflow/signals/veto.py:184-214 | no veto exactly when the phase is C or D, there is no news and no flow or price filter's evidence holds |
| Engine.AnnotationsDecideNothing | currentflow/signals/engine.py:97-131 | under the configured weights phase, tradeability, score, veto reasons and state are the same whatever ownership, bar character and volume profile read |
| Engine.UnfundedDecideNothing | currentflow/signals/engine.py:97-131 | and under any weights that leave the candidates unfunded |
| Engine.ArmedIff | currentflow/signals/engine.py:123-131 | ARMED iff phase C or D, nothing vetoed, and the score before rounding is at least 69.995 |
| Margin.ArmedBelowSeventy | currentflow/signals/engine.py:123-131 | a track B name on weekday bars and a broker snapshot such as the program builds, at multiplier 1, ARMED with a score of 69.995 stored as 70, whatever the correlation and the readings |
| Engine.ArmedHasTrigger | currentflow/signals/engine.py:123-131 | an armed name on bars read from the store, sane where the phase is D, always has its trigger bar, and its levels keep stop < entry < target |

## Left out

- IEEE floating point: arithmetic is over the reals, so rounding error, infinities and NaN are not modelled; `round_to_tick`'s final `round(.., 6)` is the identity on whole ticks.
- Display rounding of ratios and observations, detail strings, `reason` texts and log lines.
- The user interface, the command lines, the network client, authentication, parsing and the screeners.
- DuckDB: SQL text, DDL and migrations; a table is a keyed map. A batch write is modelled as possibly stopping after any row, which allows more failures than an atomic one.
- The enum-corruption branches of the readers, which skip rows a CHECK constraint now forbids.
- Statistics (`statistics.pstdev`, Sharpe, correlation, the premise t-statistic): only their comparison and clamps matter and they are parameters.
- `classify_coverage`, `ksei`, index-roster and screener reads, the listing and survivorship reports: one-branch classifications.
- `net_foreign` and `smart_money_net` of a replay frame: the first is a copied field, the second depends on a row order the query leaves open.
- The coverage and clearing reports that ingest logs; the clearing report itself is `BrokerFlow.ClearsIffNetsBalance`.
- `resolve_scope`, the feed actions and the daemon loop of the scheduler: an action is its outcome.
- The unconditional rates and confound strata of `estimate`, which reuse `resolve_instance` and count.
- `run_premise`'s pooling over days and its report; one day's cross-section is modelled.
- `build_snapshot`, `classify_dna` and the buyer-seller matrix of `broker_flow.py`: snapshots are inputs of the score and the vetoes.
- Positions, trades, fast and haste modes and the ledger; `bands.check_pinned` is modelled for listed boards only, not for the first days after an IPO.
- Negative horizons and an empty horizon list: a `Horizon` is a positive count and a pattern has at least one.
- `BrokerFlow.SyndicateNets`: visits brokers in no particular order, since exact sums do not depend on it.
- `Accrual.InstanceTable.ReadOpen`: returns the OPEN rows in no particular order, since settling a row does not depend on another.
- `Optimizer.ObjectiveRises`: the objective is an abstract deterministic evaluation, not the Sharpe arithmetic.
- `Premise.MonotonePremiseShows`: about one day's bucket means (and `Premise.MonotonePremiseSpreads` about its spread), not the spread averaged over days.
- `Sms.InertIffUnfunded`: the two readings that need no event; the volume-profile candidate is covered in one direction by `Sms.CompositeIgnores`.
- `PhaseScale.GateIsScaleInvariant`: with any annotations, the same on both sides; those built from the scaled bars are in `ProfileScale.AnalysisIsScaleInvariant`.
- `ProfileScale.AnalysisIsScaleInvariant`: builds both readings, as `analyze` does by default; without them it is `PhaseScale.GateIsScaleInvariant`.
- `Replay.BuildReplay`: broker netting is any function of the broker rows read, and `net_foreign` and `smart_money_net` are not in a frame.
- `Recovery.RetryEqualsCleanRun`: one feed answers all runs, stamps included; runs whose broker stamps differ are in `Restamp.RetryReadsAlike`.
- `Restamp.RetryReadsAlike`: agrees on the reads once every stamp is past, since before that the stores may show different rows.
- `Sizing.GenerateOrder`: says that acceptance is one lot within all three limits for a positive entry; at an entry of zero or less the caps bound nothing.
- `BrokerFlow.ClearsIffNetsBalance`: about one day's rows, which is how ingest calls the report.
- `Margin.ArmedBelowSeventy`: its snapshot has the lines, streaks and top-2 share `build_snapshot` makes of daily nets; the registry that tells retail brokers apart is not modelled.
- `Engine.ArmedHasTrigger`: where the phase is D, asks for bars whose close is between low and high.
- `Trigger.VerdictGivesTrigger`: where the phase is D, asks the same.
- `Trigger.SupportGivesTrigger`: asks for bars whose close is between low and high, which the exchange guarantees and the code does not check.
