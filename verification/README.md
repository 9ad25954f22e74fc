# Verified model of the evaluation harness

The harness runs coding agents on benchmark instances, grades them, has a judge model read the
trajectories, and lets an operator pause the fleet. This project models the parts of it whose
guarantees span a loop or a whole run, and proves them for every input, run or interleaving.

- **The judge pass.** `JudgePass.PassRun` is the scheduler: a queue index, at most `workers`
  candidates in flight, a budget gate before each submission, a breaker on consecutive call
  failures, a stop request that abandons what is in flight. `JudgeCascade` is the cascade of up to
  four paid sub-calls that one candidate runs. `JudgePassTrace` cuts a run into single acts,
  `JudgePassLaws` proves what every run keeps, `JudgePassEnds` how it ends, and `JudgeSpend` what the
  ceiling does and does not bound. Which calls come back, when and how, and when the stop request arrives, are arbitrary.
- **Passes over one results table.** `Stratify` and `PassPlan` choose a pass's queue;
  `PassProtocol` interleaves launched, refused, ended, crashed and cleaned-up passes, re-judging and
  retrying ones among them.
- **The pause protocol.** `ControlHash.Valkey` is the cached hash and its writers and reader;
  `PauseProtocol` runs it against the database row with reconciles and launches as one step each and
  any read failing; `PauseRaces` splits reconcile and the launch-time publish into their reads and
  writes; `AbortedRuns` adds the aborted runs and their set in the cache.
- **The sharded build.** `RepoMap` groups the mirror by repository, `LptSharding` packs the
  repositories, `ListScheduling` holds Graham's bounds, `TagPromotion` is the backup-before-overwrite
  protocol over image tags.
- **Scanners.** `JsonScan` (the brace scan against RFC 8259 texts), `LeakSearch` (the whole-word
  search that skips ahead), `GradeStream` (the incremental line splitter).
- **Search, shrinking, arithmetic.** `CeilingSearch` (bisection), `Assembly` (fitting a trajectory
  into a limit), `Compaction` (stubbing old tool outputs), `LeastSquares` (the closed-form line).

A class method is proved equal to a specification function of the old state; the theorems are about
those functions and about runs of them. `Options`, `Text`, `Lines`, `Sorting`, `Multiples` and
`JudgeTypes` are shared vocabulary.

## Where the code does not do what it says

Each of these is kept as the code has it. Where a promise fails, lemmas give the exact condition and a
concrete input or run that shows it.

- Reconcile's documentation says that the aborted set is refreshed unconditionally; the branch that
  skips the flag write returns before it (`swebench_eval/control/state.py:305-308`), and skipping is
  the normal case. An abort that Aurora has and whose own write to the cache failed is not published
  until a launch or an operator's next action (`AbortedRuns.RefreshedExactlyWhen`,
  `AbortedRuns.AbortShownExactlyWhen`, `AbortedRuns.AbortNotPublished`). A write whose read of the aborted runs failed deletes the set
  (`AbortedRuns.ForgetsExactlyWhen`, `AbortedRuns.AbortForgotten`).
- A failed read of Aurora undoes no pause, as promised, but it can undo a resume and pause pools that
  nobody paused: it leaves the row's stamp in the hash beside all-paused flags, so every later
  reconcile that reads the stamps skips (`PauseProtocol.FailedReadLosesExactlyWhen`,
  `PauseProtocol.FailedReadSticks`, `PauseProtocol.FailedFlagsPauseMore`), and the operator's resume of
  one pool leaves the others paused (`PauseProtocol.ResumeLeavesOthersPaused`).
- An operator's merge that cannot read the hash starts from all running and so resumes every pool it
  does not name (`PauseProtocol.MergeCoversExactlyWhen`, `PauseRaces.FailedMergeLosesPause`).
- The publish at launch reads the flags before the stamp, the reverse of reconcile, and can make a
  pause vanish for good (`PauseRaces.PublishLosesExactlyWhen`, `PauseRaces.LaunchPublishLosesPause`,
  `PauseRaces.LostIsForever`); so can an operator's merge over a hash that is behind
  (`PauseRaces.MergeExactlyWhen`, `PauseRaces.StaleMergeLosesPause`).
- The comment at `swebench_eval/analysis/judge.py:1346-1347` bounds the overshoot by one call per
  worker. With a call read as one sub-call that is so for one worker only
  (`JudgeSpend.OneCallEachExactlyWhen`): the overshoot stays below one sub-call and a worst cascade for
  every further worker (`JudgeSpend.SpendBounded`), which is four sub-calls, or the ceiling and one
  where the ceiling is below three, and comes as close to that as one likes at every positive ceiling
  (`JudgeSpend.LimitApproached`). It is the recorded spend that is bounded: a cascade can pay without
  bringing back a judgment, and then its cost is not recorded (`JudgeCascade.CascadeLosesExactlyWhen`,
  `JudgeSpend.RecordedIsChargedExactlyWhen`, `JudgeSpend.ChargesUnbounded`).
- After an operator's stop the candidates left on the queue are reported as over budget, however
  little was spent (`JudgeSpend.SkippedBelowCeilingExactlyWhen`, `JudgeSpend.StoppedAtOnce`).
- The cleanup of a pass is described as safe on a pass that finalised itself, which it is; on a live
  pass it admits a second one (`PassProtocol.CleanupSafeExactlyWhen`,
  `PassProtocol.LiveCleanupDuplicates`).
- The leak search misses whole words for names that overlap themselves behind a character that is no
  identifier character (`LeakSearch.SearchExactExactlyWhen`, `LeakSearch.DoubledMissed`,
  `LeakSearch.HyphenatedNameMissed`).
- `_compute_repo_map` says that its keys are sorted; they come in the order of their first instance
  (`RepoMap.KeysSortedExactlyWhen`, `RepoMap.KeysUnsortedExample`), which `RepoMap.WorkersAgree` shows
  to be harmless.
- The brace scan settles on the object exactly when no opening brace stands before it
  (`JsonScan.SpanExactlyWhen`, `JsonScan.StrayBraceHides`).
- With no tail to keep, a compaction pass repeats the first two messages
  and never prunes (`Compaction.NoTailRepeatsHead`, `Compaction.NoTailNeverPrunes`,
  `Compaction.NoTailExample`); with no head and tail lines to keep, the elision marker announces
  lines that are all still there (`Assembly.MarkerHonestExactlyWhen`).
- With a tolerance below one the concurrency search need not end (`CeilingSearch.EndsExactlyWhen`,
  `CeilingSearch.StandsStill`).
- A promotion can overwrite a backup made in the same second, and lose the digest in it
  (`TagPromotion.PromotionMovesBackupExactlyWhen`, `TagPromotion.PromotionLosesDigestExactlyWhen`,
  `TagPromotion.SameSecondLosesDigest`).
- Output that arrives after a grade was finished can be counted one line too high or one too low
  (`GradeStream.LateOutputMiscounts`, `GradeStream.LateTooLow`, `GradeStream.LateTooHigh`).

## Model

| member | source | states |
|---|---|---|
| JudgeCascade.JudgeWithCascade | swebench_eval/analysis/judge.py:834-945 | The straight-line cascade ends as the one-rule-per-stage specification does: same method, attempts, cost and parse failure, or the same exception after the same spending |
| JudgeCascade.CascadeCost | swebench_eval/analysis/judge.py:863-866 | A cascade started with headroom makes at most four sub-calls, costs at most four of them, and passes the headroom by less than one sub-call |
| JudgeCascade.CascadeHonest | swebench_eval/analysis/judge.py:903-945 | A verdict is reported only under the name of a call that scored something; a parse failure only after the primary call answered and scored nothing |
| JudgeCascade.CascadeInOrder | swebench_eval/analysis/judge.py:903-945 | Calls come in order; the transcription is skipped only when no call exposed reasoning; a parse failure means every call was tried or the headroom is spent; attempts and cost are exactly those of the calls made |
| JudgeCascade.CascadeFallsAs | swebench_eval/analysis/judge.py:903-945 | A cascade is cut short, timed out or raises exactly as the first failure does among the calls that are made, told as a list of decisions on the script and the headroom |
| JudgeCascade.CascadeLosesExactlyWhen | swebench_eval/analysis/judge.py:855-945 | Read off the script and the headroom: a cascade pays without bringing back a judgment exactly when a call that the gates let start yields none, after calls that answered and scored nothing, and it or one of them cost something |
| JudgePass.PassRun.constructor | swebench_eval/analysis/judge.py:1355-1360 | A pass starts with nothing taken off the queue, nothing in flight and an empty ledger |
| JudgePass.PassRun.StopRequested | swebench_eval/analysis/judge.py:1362-1363 | A stop is seen from some check on and at every later one; checking changes nothing else |
| JudgePass.PassRun.SubmitCandidate | swebench_eval/analysis/judge.py:1373-1387 | One candidate leaves the queue: counted as skipped when the recorded spend has reached the ceiling, else put in flight with the headroom left |
| JudgePass.PassRun.Submit | swebench_eval/analysis/judge.py:1365-1387 | The submission loop does the whole of the recursive submission rule: until the queue, the slots, a failure or a stop ends it |
| JudgePass.PassRun.DropInFlight | swebench_eval/analysis/judge.py:1389-1395 | Every entry of the live list with that key, and no other, is removed, in order |
| JudgePass.PassRun.RecordResult | swebench_eval/analysis/judge.py:1419-1498 | The row written, the counters, the breaker and the failure flag for each way a candidate can end |
| JudgePass.PassRun.CompleteOne | swebench_eval/analysis/judge.py:1417-1498 | A returned future leaves the pending set and the live list, its cascade ran with the headroom it was given, and missing artifacts reset the breaker only |
| JudgePass.PassRun.CompleteRound | swebench_eval/analysis/judge.py:1416-1498 | A round of completions is processed one by one in its order |
| JudgePass.PassRun.DriveRound | swebench_eval/analysis/judge.py:1402-1500 | A stop abandons what is in flight without recording any of it; otherwise completions are recorded and the slots refilled |
| JudgePass.PassRun.Drive | swebench_eval/analysis/judge.py:1399-1500 | The loop over rounds is the run the theorems speak of |
| JudgePass.PassRun.End | swebench_eval/analysis/judge.py:1501-1525 | A stop that lands late is still a stop; a failed pass ends there; otherwise what was never submitted is counted as skipped |
| JudgePassTrace.RunTrace | swebench_eval/analysis/judge.py:1365-1500 | Every run is a trace of legal single acts from its start, all of whose completions the rounds supplied |
| JudgePassTrace.EveryPrefixIsATrace | swebench_eval/analysis/judge.py:1365-1500 | Cut such a trace between any two acts, inside a round too: what it has reached is itself the end of a trace, so the theorems about traces hold there |
| JudgePassLaws.EveryPointKeeps | swebench_eval/analysis/judge.py:1355-1500 | Between any two acts of every run, what was taken off the queue is settled once, in flight or abandoned, at most `workers` in flight, and counters and rows are exactly those of the settled fates |
| JudgePassLaws.EveryCandidateCounted | swebench_eval/analysis/judge.py:1501-1525 | In a finished pass that did not fail, judged, timed out, call failed, artifacts missing, skipped and abandoned add up to the selection; only a stop abandons anything, and at most `workers` |
| JudgePassEnds.NeverStoppedUnasked | swebench_eval/analysis/judge.py:1501-1504 | Without a stop request no pass ends as stopped |
| JudgePassEnds.StoppedExactlyWhen | swebench_eval/analysis/judge.py:1501-1504 | A finished pass that did not fail ends as stopped exactly when a stop abandoned what was in flight, or candidates were left on the queue |
| JudgePassEnds.StopRecordsNothingMore | swebench_eval/analysis/judge.py:1402-1414 | Once a stop is seen with calls in flight they are abandoned, and no row, counter or launch follows, whatever comes back |
| JudgePassEnds.CountersCount | swebench_eval/analysis/judge.py:1421-1498 | Between any two acts every counter is the number of settled candidates with its fate, a parse failure counting as judged as well |
| JudgePassEnds.ReturnWrites | swebench_eval/analysis/judge.py:1421-1491 | The row written for a returned candidate is the verdict, parse failure or timeout that its script and headroom make it; anything else writes none |
| JudgePassEnds.ReturnCounts | swebench_eval/analysis/judge.py:1421-1498 | And its counter is the one of what became of it |
| JudgePassEnds.ReturnedKeyOpenExactlyWhen | swebench_eval/analysis/judge.py:753-770 | After a first judging, a launch that is no re-judge takes the key up again exactly after a failed call, an error or missing artifacts, and with retrying on also after a timeout or a parse failure |
| JudgePassLaws.FailsExactlyWhen | swebench_eval/analysis/judge.py:1452-1489 | Between any two acts, the pass has failed exactly when at some point an error came back, or the eighth call failure with no answer and no missing artifacts in between |
| JudgePassLaws.NothingStartsAfterFailure | swebench_eval/analysis/judge.py:1365-1372 | Once a failure is set no later act, the submission that closes the round included, takes a candidate off the queue, and the failure stays |
| JudgePassLaws.RunRowsDistinct | swebench_eval/analysis/judge.py:1426-1491 | Over distinct keys, by any act of any run, at most one row per key was written and only for keys taken off the queue |
| JudgePassLaws.LiveViewIsPending | swebench_eval/analysis/judge.py:1382-1395 | Between any two acts of every run the operators' live list is the pending set key by key, at most `workers` long |
| JudgeSpend.SpendBounded | swebench_eval/analysis/judge.py:1373-1381 | With sub-calls of at most c, between any two acts of every run the recorded spend is less than one c, and a worst cascade for every worker but one, past the ceiling; a worst cascade is four c, or the ceiling and one c where that is less |
| JudgeSpend.OneWorkerSpendBounded | swebench_eval/analysis/judge.py:863-866 | With one worker it stays below the ceiling plus one c: the submission gate and the cascade's gate compose |
| JudgeSpend.LimitApproached | swebench_eval/analysis/judge.py:1345-1348 | For every number of workers, every positive ceiling and c and every bit more than nothing, a run whose recorded spend ends no more than that bit short of the bound |
| JudgeSpend.OneCallEachExactlyWhen | swebench_eval/analysis/judge.py:1346-1347 | For given workers, ceiling and c: that no run overshoots by more than one sub-call per worker holds exactly with at most one worker, or when c or the ceiling is nothing |
| JudgeSpend.NoSkipBelowCeiling | swebench_eval/analysis/judge.py:1373-1378 | Between any two acts of every run nobody has been skipped for the budget while the recorded spend is below the ceiling |
| JudgeSpend.SkippedBelowCeilingExactlyWhen | swebench_eval/analysis/judge.py:1501-1525 | The final report shows skips below the ceiling exactly when the pass did not fail and left candidates on its queue, and then it was stopped and they are those candidates |
| JudgeSpend.StoppedAtOnce | swebench_eval/analysis/judge.py:1501-1525 | A concrete pass that spends nothing and reports its one candidate as over budget |
| JudgeSpend.RecordedIsChargedExactlyWhen | swebench_eval/analysis/judge.py:1421-1493 | Between any two acts, recorded spend is at most what was charged for the settled candidates, and equal exactly when no cascade came back whose script and headroom make it pay without a judgment |
| JudgeSpend.ChargesUnbounded | swebench_eval/analysis/judge.py:1421-1452 | For every queue there is a run that neither fails nor stops, records nothing, and is charged one sub-call per candidate under a ceiling of two |
| Stratify.Group | swebench_eval/analysis/judge.py:783-786 | The strata in order of first appearance, each with exactly its members |
| Stratify.Pick | swebench_eval/analysis/judge.py:801-810 | From one stratum, whatever the shuffle, the first of the shuffled others, exactly as many as bring it to its quota, none twice |
| Stratify.Turn | swebench_eval/analysis/judge.py:800-818 | One stratum's turn meets its own quota, appends to the selection and writes its label's line, and leaves every other stratum's quota as it was |
| Stratify.Select | swebench_eval/analysis/judge.py:773-820 | For distinct keys and any shuffle: no key twice, the always-judge candidates all and first, then stratum by stratum in order of first appearance a prefix of its shuffle, exactly the quota from every stratum, and a line for every label |
| Stratify.SampleMeans | swebench_eval/analysis/judge.py:805-810 | For every harness and outcome, by counting: all that must be judged, at least the floor and the rate unless that is everybody, and no more than one of the three asks for |
| Stratify.StrataGrow | swebench_eval/analysis/judge.py:784-786 | The strata keep the order in which they are first seen |
| Stratify.ReportFullExactlyWhen | swebench_eval/analysis/judge.py:815-818 | The report has a line for every stratum, and the right one, exactly when no two strata share a label |
| Stratify.OneRunReportsFully | swebench_eval/analysis/judge.py:653-655 | For candidates of one harness, which a run's are, the report has a line for every stratum with its eligible and its sampled members |
| Stratify.LabelsCollide | swebench_eval/analysis/judge.py:815 | Two strata that share a label, in a list that mixes harnesses as no run does |
| Stratify.FullRateSelectsAll | swebench_eval/analysis/judge.py:805-808 | At a rate of one the quotas select every candidate |
| PassPlan.LatestByKey | swebench_eval/analysis/judge.py:727-750 | The table scan maps every key to how its latest row ended, and keys without a row to nothing |
| PassPlan.DropAlreadyJudged | swebench_eval/analysis/judge.py:753-770 | Keeps, in order, exactly the candidates without a row, and with retrying on also those whose latest row has no verdict |
| PassPlan.Eligible | swebench_eval/analysis/judge.py:1238-1253 | A report-only launch considers nobody, a re-judge everybody, any other launch the open candidates; the number already judged is exact |
| PassPlan.Plan | swebench_eval/analysis/judge.py:1238-1256 | The queue is a sample of the open candidates with its quotas, order and report; no key twice, only open candidates, every open always-judge one, and all open ones at a rate of one |
| PassProtocol.PassLock.Claim | swebench_eval/analysis/judge_keys.py:44-60 | Succeeds exactly when no row is there; a refusal changes nothing |
| PassProtocol.PassLock.Release | swebench_eval/analysis/judge_keys.py:63-72 | Frees the lock only when it is this pass's, so a repeat is harmless |
| PassProtocol.PassLock.Cleanup | swebench_eval/analysis/judge_keys.py:153-166 | Reports whether the pass held the lock and releases it |
| PassProtocol.OnePassAtATime | swebench_eval/analysis/judge_keys.py:44-72 | Over every interleaving of launches, refusals, ends, crashes and cleanups of passes not past their claim, at most one pass is past its claim |
| PassProtocol.RefusedOnlyByHolder | swebench_eval/analysis/judge.py:1579-1581 | Over every interleaving a claim is refused only because of a pass past its own or a dead one not cleaned up |
| PassProtocol.EndFreesLock | swebench_eval/analysis/judge.py:1579-1581 | The end or the cleanup of the pass that holds the lock frees it, and the next claim succeeds |
| PassProtocol.CleanupSafeExactlyWhen | swebench_eval/analysis/judge_keys.py:153-166 | A cleanup keeps that the lock names whoever is past its claim exactly when the cleaned pass is not past it |
| PassProtocol.LiveCleanupDuplicates | swebench_eval/analysis/judge_keys.py:153-166 | A concrete interleaving in which the cleanup of a live pass lets one attempt get two verdicts |
| PassProtocol.OpenExactlyWhenDue | swebench_eval/analysis/judge.py:753-770 | The resume rule takes up exactly the keys without a row and, with retrying on, those whose last row is no verdict |
| PassProtocol.WritesAreDue | swebench_eval/analysis/judge.py:753-770 | Over every interleaving, re-judges included, a pass that is no re-judge only ever writes a key that has no row, or, with retrying on, whose last row has no verdict |
| PassProtocol.PlainPassesWriteOnce | swebench_eval/analysis/judge.py:1229-1256 | Over every interleaving with whatever other passes, all the passes that neither re-judge nor retry write together at most one row per key, and none for a key that had one |
| PassProtocol.ClosedIsFinal | swebench_eval/analysis/judge.py:753-770 | Once a key is closed its rows never change again, over every interleaving in which no re-judge writes that key |
| PassProtocol.AtMostOneVerdictPerKey | swebench_eval/analysis/judge.py:1229-1256 | For a key without a row, over every interleaving in which no re-judge writes it: at most one row with retrying off; with it on, nothing after a verdict |
| PassProtocol.SchedulerRunIsWrites | swebench_eval/analysis/judge.py:1426-1491 | What any scheduler run has written by any act is a legal run of the protocol's writes |
| ControlHash.Valkey.constructor | swebench_eval/control/state.py:124-128 | A fresh cache holds no field and no aborted run |
| ControlHash.Valkey.Read | swebench_eval/control/state.py:131-189 | A pool reads as running only from a reachable hash not older than 90 seconds whose field does not say paused; anything else reads all-paused; an aborted set that cannot be read is empty; the audit is that of the last operator action |
| ControlHash.ReadMeans | swebench_eval/control/state.py:131-189 | A reader of a fresh hash sees each pool paused exactly when its field says so, the set of aborted runs, the audit and the publish time; of any other hash, all three pools paused and nothing else |
| ControlHash.Valkey.WriteFlags | swebench_eval/control/state.py:216-228 | Pool fields and publish time are set, the stamp only when given, every other field kept |
| ControlHash.Valkey.Heartbeat | swebench_eval/control/state.py:231-241 | Only the publish time changes |
| ControlHash.Valkey.SetPause | swebench_eval/control/state.py:365-421 | The named pools are merged over the hash's own flags, or over all running when the hash cannot be read, with stamp and audit; or nothing at all is written when any name is unknown |
| ControlHash.Valkey.RequestAbort | swebench_eval/control/state.py:424-440 | The run joins the aborted set; flags and stamp are untouched |
| ControlHash.Valkey.WriteAborted | swebench_eval/control/state.py:314-319 | A non-empty read is added to the set, an empty one deletes it |
| ControlHash.Valkey.ReconcileFromDb | swebench_eval/control/state.py:272-311 | The guard's two branches, with failed reads of the row, of the hash's stamp and of the aborted runs: a heartbeat and no refreshed aborted set when the hash's stamp is not older, else a full write, all-paused when the flags could not be read |
| ControlHash.Valkey.PublishFromDb | swebench_eval/control/state.py:443-454 | A full write whatever the hash held |
| PauseProtocol.RunningOnlyIfAuroraSaysSo | swebench_eval/control/state.py:286-311 | Over every run from boot with reconciles and launches whose reads may fail, as long as operators' merges could read the hash: with no action in flight a pool reads as running only if Aurora has it running and the hash was published within 90 seconds |
| PauseProtocol.MergeCoversExactlyWhen | swebench_eval/control/state.py:373-421 | A merge keeps every pause of Aurora's exactly when it could read the hash or names every pool that Aurora has paused |
| PauseProtocol.HashEqualsAurora | swebench_eval/control/state.py:304-310 | Over every run in which no read but that of the hash's stamp fails, a settled hash carries Aurora's flags and stamp |
| PauseProtocol.SettledReadIsAurora | swebench_eval/control/state.py:131-189 | Over every run from boot in which no read but that of the hash's stamp fails, a reader of the settled hash within 90 seconds of its last write sees exactly Aurora's paused pools |
| PauseProtocol.AuditIsLast | swebench_eval/control/state.py:418-421 | The audit in the hash is that of the last operator action; heartbeats, reconciles and launches leave it |
| PauseProtocol.DeadPublisherPauses | swebench_eval/control/state.py:157-166 | When nothing has written the hash for more than 90 seconds every pool reads paused |
| PauseProtocol.EveryWriteFreshens | swebench_eval/control/state.py:231-241 | For 90 seconds after any write of the hash, a heartbeat included, it is read for what it says, whatever else happens |
| PauseProtocol.FailedReadLosesExactlyWhen | swebench_eval/control/state.py:304-310 | Action in flight or not, a reconcile or a launch breaks the agreement exactly when it writes without having read the flags and Aurora has a pool running that no action in flight is about to set |
| PauseProtocol.FailedFlagsOutliveAction | swebench_eval/control/state.py:304-310 | With an action in flight that write outlives it: after the action's merge every pool but its own is paused, under the row's current stamp |
| PauseProtocol.FailedFlagsPauseMore | swebench_eval/control/state.py:304-310 | A concrete run in which a pause of one pool leaves another paused too |
| PauseProtocol.StuckEndsExactlyWhen | swebench_eval/control/state.py:304-310 | From all paused under the row's stamp, a step leaves that state exactly when an operator commits, or a launch, or a reconcile that misses a stamp, reads the flags while Aurora has a pool running |
| PauseProtocol.FailedReadSticks | swebench_eval/control/state.py:304-310 | After one reconcile with failed reads all pools stay paused, whatever Aurora holds and however many reconciles read the stamps, until an operator acts or a run launch publishes |
| PauseProtocol.ResumeLeavesOthersPaused | swebench_eval/control/state.py:365-383 | From there a resume frees exactly the pools it names |
| PauseRaces.ReconcileWriteIsHonest | swebench_eval/control/state.py:304-310 | With its reads and write interleaved with anything, a reconcile's write never leaves the row's current stamp beside older flags |
| PauseRaces.NextReconcileRestores | swebench_eval/control/state.py:304-310 | So the next undisturbed reconcile, with no operator action and no launch in between, leaves Aurora's flags in the hash |
| PauseRaces.FreshWritesAgree | swebench_eval/control/state.py:304-311 | Over every interleaving of reconciles' and launches' reads and writes with operator actions in which no write is of something old and merges read the hash, a settled hash carries Aurora's flags and stamp |
| PauseRaces.StaleWriteBreaksExactlyWhen | swebench_eval/control/state.py:309-310 | A reconcile's write of an old stamp breaks the agreement exactly when no action is in flight, or Aurora has since changed a pool that the one in flight does not name |
| PauseRaces.LostIsForever | swebench_eval/control/state.py:305-308 | A hash with the current stamp and other flags is never repaired by heartbeats, aborts or reconciles that can read its stamp |
| PauseRaces.PublishLosesExactlyWhen | swebench_eval/control/state.py:452-453 | A publish interleaved with anything but another publish leaves the current stamp beside other flags exactly when nothing commits after its stamp read and the commits between its reads changed the flags |
| PauseRaces.MergeExactlyWhen | swebench_eval/control/state.py:373-421 | An operator's merge ends with Aurora's flags exactly when what it merges over, the hash or, unread, all running, agreed with Aurora on the pools not named |
| PauseRaces.LaunchPublishLosesPause | swebench_eval/control/state.py:443-454 | A concrete interleaving from a settled hash that loses a pause to a launch's publish |
| PauseRaces.FailedMergeLosesPause | swebench_eval/control/state.py:373-421 | A concrete interleaving that resumes a paused pool for good because a merge could not read the hash |
| PauseRaces.StaleMergeLosesPause | swebench_eval/control/state.py:386-421 | A concrete interleaving that loses a pause to a delayed reconcile and a merge over it |
| AbortedRuns.RefreshedExactlyWhen | swebench_eval/control/state.py:304-311 | A reconcile leaves the aborted set as a write of what it read exactly when it does not skip the flag write, or the set was that already |
| AbortedRuns.ShownIsWritten | swebench_eval/control/state.py:304-311 | With no operator action and no launch, over any ticks, heartbeats, aborts and reconciles that read the stamps, the set changes by the aborts' own writes only |
| AbortedRuns.AbortShownExactlyWhen | swebench_eval/control/state.py:286-311 | So from a settled hash, reached from boot by reads that succeed, an abort that Aurora has is shown exactly when its own write to the cache came through |
| AbortedRuns.ReaderSeesAbortExactlyWhen | swebench_eval/control/state.py:168-184 | So does a reader of a fresh hash and a readable set |
| AbortedRuns.AbortNotPublished | swebench_eval/control/state.py:305-308 | A concrete run: an abort whose cache write fails stays out of the set over a reconcile that reads everything |
| AbortedRuns.WriteAddsOrDeletes | swebench_eval/control/state.py:314-319 | A write adds what it read to the set, and takes a run out only by deleting the whole set |
| AbortedRuns.ForgetsExactlyWhen | swebench_eval/control/state.py:314-319 | A write of the set drops a run that Aurora has exactly when its read of the aborted runs failed |
| AbortedRuns.AbortForgotten | swebench_eval/control/state.py:345-359 | A concrete launch that deletes a published abort |
| RepoMap.ComputeRepoMap | scripts/build_phase0_instances_v2.py:267-280 | The grouping loop over the sorted ids, first-seen repositories first |
| RepoMap.RepoMeans | scripts/build_phase0_instances_v2.py:278 | The repository is the row's, or else what stands before the double underscore |
| RepoMap.GroupedIsRepoMap | scripts/build_phase0_instances_v2.py:276-280 | Every repository that occurs, once, with exactly its instances in order |
| RepoMap.KeysSortedExactlyWhen | scripts/build_phase0_instances_v2.py:270-280 | The keys come out sorted exactly when, down the sorted ids, every new repository sorts after those already seen |
| RepoMap.KeysUnsortedExample | scripts/build_phase0_instances_v2.py:272-273 | Two instances for which they do not |
| RepoMap.BuildCoversMirror | scripts/build_phase0_instances_v2.py:359-407 | The workers' shards together are the mirror's instances as a multiset: none missing, none built twice |
| RepoMap.WorkersAgree | scripts/build_phase0_instances_v2.py:267-280 | Workers that iterate the mirror and the map in different orders agree on every shard |
| LptSharding.Pack | scripts/build_phase0_instances_v2.py:394-400 | The packing loop puts every repository where greedy scheduling by weight puts it |
| LptSharding.LptShard | scripts/build_phase0_instances_v2.py:359-407 | Bad shard numbers are refused in the source's order; otherwise the worker's own shard of the common partition, in name order |
| LptSharding.ShardInNameOrder | scripts/build_phase0_instances_v2.py:406-407 | A shard comes back repository by repository in the order of their names |
| LptSharding.PlacedHeaviestFirst | scripts/build_phase0_instances_v2.py:393-394 | Repositories are placed heaviest first, equally heavy ones in the order of their names |
| LptSharding.WeighMeans | scripts/build_phase0_instances_v2.py:388-391 | A repository weighs the sum of its instances' weights |
| Sorting.StrLeMeans | scripts/build_phase0_instances_v2.py:394 | The order of names is that of dictionaries |
| LptSharding.ShardsPartitionInstances | scripts/build_phase0_instances_v2.py:371-372 | The independently computed shards together hold the map's instances exactly, as multisets |
| LptSharding.ShardsDisjoint | scripts/build_phase0_instances_v2.py:371-372 | An instance listed once is in at most one shard |
| LptSharding.ShardIgnoresOrder | scripts/build_phase0_instances_v2.py:368-370 | Two iteration orders of the same map give the same shard |
| LptSharding.ShardsBalanced | scripts/build_phase0_instances_v2.py:394-400 | No shard weighs more than 4/3 - 1/(3m) times the heaviest shard of any other assignment of the same repositories |
| ListScheduling.AnyOrderBound | scripts/build_phase0_instances_v2.py:397-400 | In any order greedy scheduling is within 2 - 1/m of every assignment |
| ListScheduling.DescendingBound | scripts/build_phase0_instances_v2.py:394-400 | In descending order it is within 4/3 - 1/(3m) |
| ListScheduling.DescendingBoundAttained | scripts/build_phase0_instances_v2.py:394-400 | The bound is met exactly by five jobs on two machines, so no smaller factor holds there |
| TagPromotion.Registry.constructor | scripts/build_phase0_instances_v2.py:735-743 | The store starts with the tags it is given |
| TagPromotion.Registry.Put | scripts/build_phase0_instances_v2.py:708-719 | One tag is pointed at one digest, all others stay |
| TagPromotion.Registry.PromoteInst | scripts/build_phase0_instances_v2.py:722-759 | The tags after each possible death, and each outcome's exact condition |
| TagPromotion.PromotionDone | scripts/build_phase0_instances_v2.py:743-757 | A promotion that gets through points the task tag at the last push with the former digest under the undated backup tag, or the dated one if that is taken; one that dies after its first write has made the backup |
| TagPromotion.PromotionMovesBackupExactlyWhen | scripts/build_phase0_instances_v2.py:750-753 | A promotion, died or not, moves a backup exactly when its clock reads the date of one that holds another digest |
| TagPromotion.PromotionLosesDigestExactlyWhen | scripts/build_phase0_instances_v2.py:750-757 | A promotion, died or not, loses a digest exactly when its clock reads the date of the only backup that holds it, and neither the replaced nor the promoted digest is that one |
| TagPromotion.NoDigestLost | scripts/build_phase0_instances_v2.py:722-759 | Over any pushes and promotions with distinct clock values and any deaths, every digest the task tag ever named is still named by a tag that pushes do not touch, and no backup is ever moved |
| TagPromotion.SameSecondLosesDigest | scripts/build_phase0_instances_v2.py:750-753 | Two promotions in one second leave a digest that no tag names |
| JsonScan.FindOpen | swebench_eval/analysis/judge_llm.py:312-314 | The first opening brace, or the end |
| JsonScan.FindClose | swebench_eval/analysis/judge_llm.py:315-341 | The loop stops where the string-aware scanner automaton first brings the depth back to zero |
| JsonScan.ScanObject | swebench_eval/analysis/judge_llm.py:312-341 | The span from the first opening brace to its balance, or nothing |
| JsonScan.ExtractJsonObject | swebench_eval/analysis/judge_llm.py:297-341 | The strict parse first, and the scan only for a malformed text |
| JsonScan.ValuePasses | swebench_eval/analysis/judge_llm.py:318-334 | Every JSON value inside an object leaves the scanner at the depth it found it, whatever its strings contain |
| JsonScan.ScanFindsObject | swebench_eval/analysis/judge_llm.py:312-341 | In prefix + printed object + suffix with no opening brace in the prefix the span is the object, exactly |
| JsonScan.SpanExactlyWhen | swebench_eval/analysis/judge_llm.py:312-341 | In prefix + printed object + suffix the span is the object exactly when the prefix holds no opening brace |
| JsonScan.StrayBraceHides | swebench_eval/analysis/judge_llm.py:312-341 | A stray opening brace in front, with nothing but the object closing one after it: the scan finds nothing at all |
| JsonScan.RecoversWrappedObject | swebench_eval/analysis/judge_llm.py:297-341 | After the strip and a failed strict parse, what is returned is what the parser makes of the object alone |
| JsonScan.ExtractsOnlyObjects | swebench_eval/analysis/judge_llm.py:305-341 | Whatever the text, only an object that the parser made of it or of its first balanced span comes back |
| LeakSearch.Hits | swebench_eval/evaluation/leak_detection.py:97-112 | The skipping loop decides the recursive skipping search |
| LeakSearch.OccursMeans | swebench_eval/evaluation/leak_detection.py:102-109 | A whole-word occurrence is the name with no identifier character on either side |
| LeakSearch.Report | swebench_eval/evaluation/leak_detection.py:94-112 | A name shorter than three characters is never searched for |
| LeakSearch.DetectLeakedNodeIds | swebench_eval/evaluation/leak_detection.py:82-113 | Sorted and without repeats, exactly the given ids whose normalised name is long enough and found |
| LeakSearch.NothingSkipped | swebench_eval/evaluation/leak_detection.py:112 | No whole word starts inside a match of a name that overlaps itself only behind identifier characters |
| LeakSearch.IdentifierSearchExact | swebench_eval/evaluation/leak_detection.py:97-112 | For names of identifier characters the search hits exactly when a whole-word occurrence exists |
| LeakSearch.ReportedExactlyWhen | swebench_eval/evaluation/leak_detection.py:93-112 | For names of identifier characters an id is reported exactly when its name has three characters or more and occurs as a whole word |
| LeakSearch.SearchExactExactlyWhen | swebench_eval/evaluation/leak_detection.py:97-112 | The search is right about all texts exactly for those names |
| LeakSearch.DoubledMissed | swebench_eval/evaluation/leak_detection.py:112 | For every other name, a text whose whole-word occurrence is jumped over |
| LeakSearch.HyphenatedNameMissed | swebench_eval/evaluation/leak_detection.py:97-112 | A concrete test id and text with a whole-word occurrence that is not reported |
| LeakSearch.NormalizePytest | swebench_eval/evaluation/leak_detection.py:63-79 | A pytest id, with or without parameters, reduces to its bare name |
| LeakSearch.NormalizeUnittest | swebench_eval/evaluation/leak_detection.py:76-79 | A unittest id reduces to its bare name, whatever its class |
| LeakSearch.NormalizeLeavesOthers | swebench_eval/evaluation/leak_detection.py:76-79 | An id with a class behind it that is no test_ name is left whole |
| Text.StripMeans | swebench_eval/analysis/judge_llm.py:305 | Stripping takes white space off both ends and all there is |
| GradeStream.FindLastShown | swebench_eval/evaluation/grade_progress.py:106-110 | The last complete line that is not blank, clipped, or what was shown before |
| GradeStream.LastShownMeans | swebench_eval/evaluation/grade_progress.py:104-110 | The line shown is the last complete one that is not blank, without carriage returns at its end, cut to 200 characters, or what was shown before |
| GradeStream.GradeProgress.constructor | swebench_eval/evaluation/grade_progress.py:49-60 | Nothing seen yet |
| GradeStream.GradeProgress.Feed | swebench_eval/evaluation/grade_progress.py:92-110 | Bytes, lines, last line and unfinished tail after one chunk |
| GradeStream.GradeProgress.Finish | swebench_eval/evaluation/grade_progress.py:128-134 | The unfinished line is taken in exactly when it is not blank |
| GradeStream.ChunkingInvariant | swebench_eval/evaluation/grade_progress.py:92-110 | However a stream is cut, the summary is that of the whole stream looked at once |
| GradeStream.FinishCounts | swebench_eval/evaluation/grade_progress.py:128-134 | The final line count is the newlines plus one for an unfinished line that is not blank; finishing twice changes nothing |
| GradeStream.LateCount | swebench_eval/evaluation/grade_progress.py:128-134 | With output after the finish the count is the newlines of it all, plus one for an unfinished line that the finish took in |
| GradeStream.LateOutputMiscounts | swebench_eval/evaluation/grade_progress.py:128-134 | It differs from the whole stream's final count exactly when just one of the two unfinished lines, at the finish and at the end, is blank: too high when that is the last one, too low when it is the first |
| GradeStream.LateTooLow | swebench_eval/evaluation/grade_progress.py:92-134 | A stream counted one line too low |
| GradeStream.LateTooHigh | swebench_eval/evaluation/grade_progress.py:92-134 | A stream counted one line too high |
| GradeStream.LateJustRight | swebench_eval/evaluation/grade_progress.py:92-134 | A stream finished half-way through a line and counted right |
| CeilingSearch.Tally | swebench_eval/gateway/ceiling_discovery.py:378-410 | Successes, overloads, errors and in-window tokens of a batch; every call in exactly one of the three counts |
| CeilingSearch.Probe | swebench_eval/gateway/ceiling_discovery.py:374-410 | A probe at a level above zero that is neither overloaded nor inconclusive had a success |
| CeilingSearch.ProbeMeans | swebench_eval/gateway/ceiling_discovery.py:173-175 | On the calls: a probe is overloaded exactly when some call was refused as overload, had a success exactly when some call did, and its rate is that of the tokens reported by successes in time |
| CeilingSearch.InconclusiveMeans | swebench_eval/gateway/ceiling_discovery.py:225-236 | A probe is inconclusive exactly when it had calls and each failed for another reason than overload |
| CeilingSearch.EveryCallCounted | swebench_eval/gateway/ceiling_discovery.py:384-397 | The three classes of calls partition the batch |
| CeilingSearch.Bisect | swebench_eval/gateway/ceiling_discovery.py:459-471 | The ends are those of as many turns of halving as it fired probes, the first close enough, upper end overloaded, lower end probed safe or still the floor; or it refuses at its first inconclusive probe; for a tolerance of at least one never more probes than halvings |
| CeilingSearch.FindCeiling | swebench_eval/gateway/ceiling_discovery.py:430-482 | Whenever the search ends at all: every probe fired in order at its level, for a tolerance of at least one at most two more than halvings; a refusal's last probe had calls and each failed for another reason than overload; at a positive answer the trail has a probe none of whose calls was refused as overload and one of which succeeded, the rate being that of its tokens; an answer other than the target has a refused call no more than the tolerance above it or at the floor |
| CeilingSearch.HalvingsLogarithmic | swebench_eval/gateway/ceiling_discovery.py:462-471 | The number of halvings is logarithmic in width over tolerance |
| CeilingSearch.HalvingsSuffice | swebench_eval/gateway/ceiling_discovery.py:462-471 | For a tolerance of at least one the loop ends within the halvings of its width, whatever the provider |
| CeilingSearch.CeilingTight | swebench_eval/gateway/ceiling_discovery.py:430-482 | Where overload is monotone: the target holds, or the answer does and overload sets in within the tolerance above it, or the floor itself is overloaded and the answer is zero |
| CeilingSearch.EndsExactlyWhen | swebench_eval/gateway/ceiling_discovery.py:448-482 | From an overloaded target, for a monotone provider whose probes all say something, the search ends exactly for a tolerance of at least one, or of zero with an overloaded floor |
| CeilingSearch.StandsStill | swebench_eval/gateway/ceiling_discovery.py:462-471 | A concrete provider and a tolerance of zero for which it never ends |
| LeastSquares.ExcessIsGaps | scripts/fit_growth_curves.py:58-68 | Any other line is worse by exactly the sum of its squared gaps to the fitted one |
| LeastSquares.FitIsBest | scripts/fit_growth_curves.py:58-68 | No line has a smaller sum of squared residuals, the empty, one-point and all-equal cases included |
| LeastSquares.FitUniqueExactlyWhen | scripts/fit_growth_curves.py:64-66 | The fitted line is the only best one exactly when two abscissas differ |
| LeastSquares.FitFlat | scripts/fit_growth_curves.py:61-66 | Where no two abscissas differ the fit is the flat line through the mean |
| Compaction.MeasuredPromptTokens | scripts/mini_pruning_agent.py:57-63 | The last prompt size any message reports |
| Compaction.EstimateSince | scripts/mini_pruning_agent.py:65-79 | A quarter of the text after that message, and nothing when none reports |
| Compaction.AppliedMeans | scripts/mini_pruning_agent.py:57-85 | The size compared with the threshold is the last one reported plus a quarter of the text since, zero before any report |
| Compaction.AppliedGrows | scripts/mini_pruning_agent.py:65-85 | Once a size was reported, appended text never lowers it |
| Compaction.FiresExactlyWhen | scripts/mini_pruning_agent.py:81-91 | A pass fires exactly when there is a threshold, the last reported prompt and a quarter of the text since reach it, there is more than head and tail, and none has latched; never before a report |
| Compaction.PruneMiddle | scripts/mini_pruning_agent.py:95-125 | Message by message, a stub exactly for long raw tool or user outputs |
| Compaction.PruningAgent.constructor | scripts/mini_pruning_agent.py:44-47 | No pass yet and not latched |
| Compaction.PruningAgent.CompactIfNeeded | scripts/mini_pruning_agent.py:81-138 | When a pass fires, what it leaves, and when it latches |
| Compaction.PassKeeps | scripts/mini_pruning_agent.py:92-126 | A pass keeps count, order, roles, tool call ids, the first two messages and the tail, and changes texts only into stubs |
| Compaction.PassStubsExactlyWhen | scripts/mini_pruning_agent.py:96-125 | A pass changes a message exactly when it is between head and tail, a raw tool or user output, and more than 200 characters longer than what is kept |
| Compaction.StubShows | scripts/mini_pruning_agent.py:111-122 | A stub keeps the head of the text, says its length and return code, and is no raw output any more |
| Compaction.LatchesExactlyWhen | scripts/mini_pruning_agent.py:128-133 | A pass latches exactly when it had text to prune and reclaimed less than a tenth of it |
| Compaction.NoTailRepeatsHead | scripts/mini_pruning_agent.py:93-94 | With a tail of zero a pass puts the first two messages in front once more and never latches |
| Compaction.NoTailNeverPrunes | scripts/mini_pruning_agent.py:92-138 | So over any run with a tail of zero, what was appended stays in full behind two more messages for every pass, and no pass is the last |
| Compaction.NoTailExample | scripts/mini_pruning_agent.py:92-126 | A concrete conversation at which such a pass fires |
| Compaction.StubSavesExactlyWhen | scripts/mini_pruning_agent.py:104-120 | A stub is shorter exactly when its 118 fixed characters, the digits of the length and the return code are together shorter than what it leaves out; with at most 82 for the two it always is |
| Compaction.PassShrinks | scripts/mini_pruning_agent.py:104-129 | While stubs fit the margin no pass makes the conversation longer |
| Compaction.NoStubStubbedTwice | scripts/mini_pruning_agent.py:81-126 | Over any run each message is the one appended there, verbatim or stubbed once from the original |
| Compaction.TextPassesBounded | scripts/mini_pruning_agent.py:128-138 | Over any run the passes with text to prune number at most the tool outputs ever appended, plus one |
| Assembly.PrunedLines | swebench_eval/analysis/trajectory_assembly.py:137-152 | Line by line, a pruned output is its head, one marker line and its tail |
| Assembly.PrunedRecord | swebench_eval/analysis/trajectory_assembly.py:137-152 | A tool record keeps everything but its four text fields, each pruned by itself line by line; any other record stays |
| Assembly.SerializeMeans | swebench_eval/analysis/trajectory_assembly.py:155-160 | The patch first, then one printed record to a line |
| Assembly.MarkerHonestExactlyWhen | swebench_eval/analysis/trajectory_assembly.py:146-150 | The marker counts what is missing exactly when at least one line is kept at each end |
| Assembly.ShrinkLoop | swebench_eval/analysis/trajectory_assembly.py:179-197 | The shrinking loop ends with the text, tokens and elided count of the recursive rule |
| Assembly.ShrinkKeeps | swebench_eval/analysis/trajectory_assembly.py:179-197 | From any window on, what is shown is a prefix and a suffix around an exact marker, fitting or down to four events |
| Assembly.ShrinksOnlySoFar | swebench_eval/analysis/trajectory_assembly.py:186-197 | Shrinking stops at the first of the halved windows whose text fits, or at the first of four |
| Assembly.AssembleHonest | swebench_eval/analysis/trajectory_assembly.py:200-258 | For every trajectory, limit and mode: it fits, or the mode is full, or four events are left; prefix and suffix in order, marker exact, truncation flag set exactly when events are missing |
| Assembly.AssembleMinimal | swebench_eval/analysis/trajectory_assembly.py:213-258 | Nothing is dropped or pruned that did not have to be, the pruning flag says exactly whether pruning changed the text, and a text with neither flag set is the whole trajectory |

## Left out

- Floating point: weights, costs, clock values and sample points are reals, so rounding, overflow and
  `-0.0` are not modelled; `_lstsq`'s test for a zero denominator is exact.
- SQL, Redis, ECR and HTTP: tables are sequences of rows in write order (which stands for `judged_at`),
  the hash, the lock row and the tag store are values, and a read that can fail arrives as an option.
- Minting, rotating and revoking keys, artifact fetching, prompts, the synthesis call, live-state
  publishing, and logging.
- A failed write of a result inside the completion loop, which aborts the pass from the middle of a
  round.
- The clamp of `workers` to its maximum: `workers` is any number, and at least one where an idle pass
  must be over.
- `_create_with_transport_retry`: a bounded retry around one sub-call; its outcomes (an answer, a
  timeout, no answer, another exception) are the model's sub-call outcomes.
- What a sub-call's answer scores, whether a refusal is an overload, JSON parsing and printing, byte
  decoding, white space and identifier characters are parameters.
- JSON numbers are any non-empty text over their alphabet, which admits every number of RFC 8259 and
  some texts that are not; object keys may repeat.
- Operator actions are serialised and complete, Aurora before the hash, with growing timestamps; boot
  publishes undisturbed; the hash is not flushed afterwards and no write to it fails. The
  code does not cover the other cases.
- Candidates of one selection have distinct keys, which the results schema's primary key provides.
- `_parse_jsonl` and the filter for a benign codex warning, which run before the trajectory is shrunk.
- `_apply_env_filter`, the environment limit, and the per-repository weight table: the weight is any
  function (the constant one is the instance count the source uses when none is given), non-negative
  where balance is claimed.
- GradeProgress's clock, log throttling, silence lines and snapshot, and its lock: one call at a time.
- Batch latencies, cache shares, offered rate and the error histogram; pacing between calls.
- CeilingSearch.FindCeiling: requires that the source's loop ends on the input, which
  CeilingSearch.HalvingsSuffice and CeilingSearch.EndsExactlyWhen say when it does.
- The shape of a trajectory record: it is a role, the four fields that pruning looks at, and the rest as
  one text.
- `database/state_machine.py`, score parsing, the rubric, calibration, resource sampling, grade limits
  and efficiency reports: case tables, running maxima and rendering.
