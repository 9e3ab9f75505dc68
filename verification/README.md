# DevManager core, modelled and proved in Dafny

This project models the stateful core of the DevManager back end: the deterministic scoring engine,
the analysis pipeline that commits a run phase by phase, the mirror of an external project-management
(PM) platform, the regeneration of code maps, the text chunker, the review agent's tool loop, and the
readers for git diffs and CODEOWNERS files. It proves what these promise for every input, every run
and every interleaving.

Code that changes things step by step is imperative Dafny: methods and classes with loops, each proved
equal to a specification function or to steps of a protocol. The laws are lemmas about those
functions and protocols. `dafny verify dfyconfig.toml` checks everything.

| file | what it holds |
|---|---|
| `Scoring.dfy`, `ScoringLaws.dfy`, `ScoringFacts.dfy` | the scoring loops, the closed form they compute, its laws, and its keys, tables and limits in the findings' own fields |
| `Pipeline.dfy`, `PipelineWorker.dfy`, `PipelineFacts.dfy` | the run as a protocol of committed transactions; the worker's code as steps of it; what each step writes |
| `Tables.dfy`, `Mirror.dfy`, `MirrorLaws.dfy`, `MirrorFacts.dfy` | upsert tables, the three PM upserts and batches, what batches amount to, and what is stored or refused field by field |
| `IncrementalSync.dfy`, `SyncFacts.dfy` | incremental and full syncs, cursors, and the replication protocol over a changing remote; answers, cursors and counts of one run |
| `UpToDate.dfy`, `LostRows.dfy`, `Recovery.dfy` | which rows of the mirror show the remote's present version; what incremental syncs never make good; what a full sync and the one after it do |
| `PmClient.dfy`, `PmClientFacts.dfy` | pagination against any server, retry with back-off; replies, repeats, reports and waits case by case |
| `CodeMap.dfy`, `CodeMapFacts.dfy` | store, files and regeneration of one scope; which attempt decides and what it leaves |
| `GraphDiff.dfy`, `GraphDiffFacts.dfy` | the graph diff as a patch; what its lists hold and when sorting fails |
| `RegenJobs.dfy`, `RegenRunner.dfy`, `RegenFacts.dfy` | the job table under interleaving; the background functions as steps of it; the final entry by what went wrong |
| `Chunker.dfy`, `ChunkerFacts.dfy` | the cutting loop, when it ends, and the hybrid chunker; sections and paragraphs as tiles of the text |
| `AgentLoop.dfy` | the tool loop and the shape of its transcript |
| `Codeowners.dfy`, `Differ.dfy`, `GitFacts.dfy` | glob matching and rule lists; numstat and name-status against a printer; lines, numbers and fields |
| `Options.dfy`, `Rounding.dfy`, `Sums.dfy`, `Ordering.dfy`, `Text.dfy` | helpers |

Numbers are exact: scores and weights are `real`, and `round` is half-even rounding with a proved error
and monotonicity. Timestamps are integers, identifiers are natural numbers given out in order, and
everything the outside contributes (a PM server, a language model, a disk fault, jitter, a regular
expression's match positions) is a parameter that the theorems quantify over.

## What the code does not do, although its text says so

Each of these is a theorem about the code as it is, with the exact condition where there is one.

- **Cutting with an overlap may loop for ever.** The loop of `_split_by_tokens` moves its start back
  into the same window when that window's last space lies within the overlap of its start. For an
  overlap below the budget the loop ends if and only if there is no such window from the second start
  on (`Chunker.TerminationExactly`); `Chunker.RepeatedState` shows an eighteen-character text on
  which it stands still. For every budget and overlap it is decided within as many turns as the text
  has characters (`Chunker.DecidedWithinTheLength`), and an overlap of at least the budget never gets
  through a text longer than both (`Chunker.OverlapTooLarge`). The chunker's `fallback` field is never
  read.
- **Retrying a run does not help once it has been scored.** The worker raises its exception again so
  that the queue retries, but the guards refuse a second score, so a run that failed between score and
  completion can never be completed (`Pipeline.RetryAfterScoringIsFutile`). Which runs can still
  complete is decided exactly by `Pipeline.CompletableExactly`; a score or report requested over HTTP
  beforehand also rules completion out. A failure reason, once set, is never removed
  (`Pipeline.HistoryOnlyGrows`), but it is overwritten: after a review timeout the recorded text gives
  way to the empty text of the exception (`Pipeline.RecordedReasonIsOverwritten`).
- **Completed is not final.** One more delivery of a completed run's job can turn it to failed
  (`Pipeline.RedeliveryUndoesCompletion`); `Pipeline.CompletedKeptExactly` says which steps do so.
- **Missing fields are never recorded.** The docstring of `upsert_iteration` says they go to the result;
  validation rejects such a payload first, so the list only ever holds `issue_not_synced`
  (`MirrorLaws.MissingFieldsNeverReported`).
- **A link to an unsynced iteration is not filled in later.** The comment in `upsert_issue` leaves it to
  the next iteration sync, which leaves issue rows alone: an issue is linked if and only if its
  iteration was stored when the issue was upserted (`UpToDate.LinkedExactly`), and incremental syncs
  leave it so until its item changes (`LostRows.UnlinkedIssueStaysUnlinked`, with an input in
  `LostRows.UnlinkedIssueExample`).
- **An assignment whose issue is late is lost.** It is skipped, the cursor passes it, and no incremental
  sync fetches it again until it changes (`LostRows.SkippedAssignmentStaysMissing`);
  `LostRows.SkippedAssignmentExample` is a run in which the issue arrives and the row does not. A batch
  shows an assignment if and only if its issue was stored (`UpToDate.BatchShowsExactly`). A full sync
  resets the cursors (`Recovery.FullSyncResets`), and the next undisturbed incremental sync hands over
  every item (`Recovery.AllHandedOver`): after it an assignment has its row if and only if its issue is
  stored, and an issue its link if and only if its iteration is (`Recovery.StuckNoLonger`).
- **One bad row can block a batch.** The comment says a single failure does not; a row that the database
  rejects leaves the session unusable, and everything after it fails. A batch is lost if and only if
  the tables refuse some payload as its predecessors left them (`MirrorLaws.BatchIsWrites`);
  `MirrorLaws.BadRowExample` is an iteration that ends before it starts.
- **Replaying a committed batch may fail.** It does if and only if the batch names one issue with a key
  and then, for the first time, another issue that ends up with that key (`MirrorLaws.ReplayExactly`;
  `MirrorLaws.ReplayMayBeRefused` is such a batch).
- **A succeeded regeneration job may leave every scope stale.** `regen_one_scope` swallows its failures,
  so a scope whose regeneration failed counts as processed (`RegenRunner.SucceedsExactly`). After a
  succeeded job over distinct scopes a scope is fresh if and only if its own regeneration succeeded
  (`RegenRunner.SucceededJobFreshExactly`).
- **A late regeneration failure is already on disk.** The store keeps the old graph as stale while the
  file holds the new one, which the next load shows as fresh. A failing call leaves the file ahead if
  and only if it was ahead before or one of its attempts, retried or not, failed after the write
  (`CodeMap.LateFailureIsOnDisk`, over whole runs `CodeMap.DiskAheadExactly`); the next process starts
  from it while the index still shows the old version (`CodeMap.LateFailureSurfaces`). Two modules
  whose ids end in the same segment share one card file (`CodeMap.CardSurvivesExactly`).
- **A server that claims too many items is asked for ever** (`PmClient.OffsetEndsExactly`).
- **A leading slash anchors no CODEOWNERS pattern.** It is dropped (`Codeowners.LeadingSlashIsIgnored`),
  so a directory pattern such as `/docs/` also owns `lib/docs/` (`Codeowners.DirectoryAtAnyDepth`), and
  one without another slash, such as `/Makefile`, matches the last component at any depth. A pattern
  with an inner slash that is not a directory is one glob over the whole path with or without it
  (`Codeowners.MatchesMeaning`).
- **Renames lose their line counts.** The comment in `parse_diff` mentions the `old => new` form, but a row
  under that key is found under neither name (`Differ.ArrowRowIsLost`). A unit's figures are those of
  the last row under its path or else under its previous path, and nothing if there is no such row
  (`Differ.FiguresExactly`).

## Assumptions

- Scoring: none beyond exact arithmetic.
- Pipeline: rows are not deleted; a run's score and report have unique run ids; the check for an existing
  row and the insert are separate steps, and the unique column decides between two that passed.
- Sync: the server honours `updated_after`, later changes get later timestamps, timestamps can be read,
  and all pages of one fetch show the remote at one moment.
  That failed syncs and a successful one equal one successful sync needs no more than their success;
  `MirrorLaws.FeedAccepted` (the constraints hold of the valid payloads, each issue key belongs to one
  PM id) is a condition under which they do succeed. Where rows are compared with remote items, the
  payload of an iteration or issue carries the item's id.
- Regeneration laws: calls for one scope follow one another, each reading the store's graph first, from
  a store that agrees with the graph files. Filling a new store from the files establishes that
  (`CodeMap.LoadAgrees`).

## Model

| member | source | states |
|---|---|---|
| Rounding.HalfEven | packages/scoring/devmanager_scoring/engine.py:122 | rounding to the nearest, ties to even, is off by at most half a unit |
| Rounding.HalfEvenExactly | packages/scoring/devmanager_scoring/engine.py:122 | which integer that is: the nearest, and of two the even one |
| Rounding.HalfEvenMonotone | packages/scoring/devmanager_scoring/engine.py:158 | rounding never reverses an order |
| Rounding.HalfAway | migrations/postgres/009_team_ops_mirror.sql:40 | the database's rounding of a number column is off by at most half a unit |
| Rounding.HalfAwayExactly | migrations/postgres/009_team_ops_mirror.sql:40 | which integer that is: the nearest, and of two the one away from zero |
| Scoring.Deduplicate | packages/scoring/devmanager_scoring/engine.py:100-110 | the loop keeps exactly the first finding per key, in order, and counts the others |
| Scoring.GroupByCategory | packages/scoring/devmanager_scoring/engine.py:112-136 | the loop's dictionary and two running sums are those of the specification fold |
| Scoring.GroupsMeaning | packages/scoring/devmanager_scoring/engine.py:112-136 | the fold's dictionary has the categories that occur, each with its findings in order, and the sums are the sums of weights over all findings |
| Scoring.CapCategory | packages/scoring/devmanager_scoring/engine.py:144-153 | raw total, rows with their capped values written in place, and the amount charged: the lesser of 35 and the total |
| Scoring.ApplyCaps | packages/scoring/devmanager_scoring/engine.py:138-155 | total deduction, row list and cap list over the categories in the order given |
| Scoring.CappedSumSplit | packages/scoring/devmanager_scoring/engine.py:138-155 | the capped sum over a set of categories does not depend on which is taken first |
| Scoring.ChargedInOrder | packages/scoring/devmanager_scoring/engine.py:143-155 | charging the categories in any order gives the same capped sum |
| Scoring.ComputeScore | packages/scoring/devmanager_scoring/engine.py:78-179 | the whole engine refines the closed form: score, grade, confidence, rows, caps and limitations |
| ScoringLaws.ScoreIgnoresOrder | packages/scoring/devmanager_scoring/engine.py:90-165 | lists whose surviving findings agree as multisets have the same score, grade and confidence |
| ScoringLaws.ReorderingDistinctFindings | packages/scoring/devmanager_scoring/engine.py:90-165 | any reordering of findings with distinct keys changes neither score, grade nor confidence |
| ScoringLaws.DuplicatesChangeNothing | packages/scoring/devmanager_scoring/engine.py:100-110 | adding findings whose keys are all known changes nothing; scoring a list twice over is one case |
| ScoringLaws.AppendNeverRaises | packages/scoring/devmanager_scoring/engine.py:78-179 | one more finding, new or duplicate, never raises the score or improves the grade |
| ScoringLaws.RemovingACategoryRaisesByAtMostTheCap | packages/scoring/devmanager_scoring/engine.py:138-158 | dropping all findings of a category raises the final score by at most 35, rounding included |
| ScoringLaws.ScoreInRange | packages/scoring/devmanager_scoring/engine.py:157-165 | the score lies in 0 to 100 and the confidence in 0 to 1 |
| ScoringLaws.CapIsConserved | packages/scoring/devmanager_scoring/engine.py:143-155 | a category's rows add up to what it is charged within 0.00005 per row, and no capped value exceeds its actual one |
| ScoringLaws.TotalDeductionLe | packages/scoring/devmanager_scoring/engine.py:138-155 | a list that is larger in every category never deducts less |
| ScoringLaws.TotalDeductionButOne | packages/scoring/devmanager_scoring/engine.py:138-155 | one category makes up for at most its cap, whatever the others do |
| ScoringLaws.WithoutUncovers | packages/scoring/devmanager_scoring/engine.py:100-110 | dropping a category can uncover findings of other categories that it had shadowed by key, never lose any |
| ScoringFacts.SameKeyExactly | packages/scoring/devmanager_scoring/engine.py:105 | two findings have one key if and only if they have the same identifying text (the dedupe key if non-empty, else the finding id if non-empty) or, with neither, are the same object |
| ScoringFacts.DroppedExactly | packages/scoring/devmanager_scoring/engine.py:100-110 | one more finding is dropped if and only if an earlier one is the same in that sense |
| ScoringFacts.SharedDedupeKeyChangesNothing | packages/scoring/devmanager_scoring/engine.py:105-108 | a finding whose non-empty dedupe key some earlier one has changes neither score nor confidence, whatever the finding ids |
| ScoringFacts.TwoCritical | packages/scoring/devmanager_scoring/engine.py:78-179 | two fully critical findings of one category: 75.0 and B if they are the same finding, 65.0 and C at the cap if not |
| ScoringFacts.WorseNeverHelps | packages/scoring/devmanager_scoring/engine.py:78-179 | making findings more severe or more certain, keys and categories kept, never raises the score or improves the grade |
| ScoringFacts.LimitationsExactly | packages/scoring/devmanager_scoring/engine.py:167-170 | the one limitation is that of the empty list or the number of findings dropped |
| ScoringFacts.PointsBySeverity | packages/scoring/devmanager_scoring/engine.py:11-17 | which severity texts are worth 25, 10, 5, 2 and 0.5 points, in any letter case; absent or unknown ones count as informational |
| ScoringFacts.DefaultsOfOne | packages/scoring/devmanager_scoring/engine.py:117-128 | absent confidence is 0.7, others are brought between 0 and 1; absent category and finding id have their defaults |
| ScoringFacts.TermsOfOne | packages/scoring/devmanager_scoring/engine.py:118-121 | a detail row shows the points and the confidence the charge is made of |
| ScoringFacts.LowerIsAscii | packages/scoring/devmanager_scoring/engine.py:118 | lower-casing on A, M, Z and the characters around them |
| ScoringFacts.ChargeOfOne | packages/scoring/devmanager_scoring/engine.py:122 | a finding weighs its points times its confidence and is charged that to the nearest 0.0001, ties to the even one |
| ScoringFacts.FinalScoreNear | packages/scoring/devmanager_scoring/engine.py:158 | the score is what is left of 100 to the nearest 0.01, ties to the even one, and 0 from 100 points on |
| ScoringFacts.AverageNear | packages/scoring/devmanager_scoring/engine.py:160-165 | the confidence is the weighted mean to the nearest 0.001, ties to the even one, and 1 without weight |
| ScoringFacts.GradeBands | packages/scoring/devmanager_scoring/engine.py:21-26 | which scores get which grade, both directions |
| ScoringFacts.CappedExactly | packages/scoring/devmanager_scoring/engine.py:143-150 | a category is reported as capped, with its raw total, if and only if its charges exceed 35 |
| ScoringFacts.RowsAreTheCharges | packages/scoring/devmanager_scoring/engine.py:143-155 | the deduction rows are, as a multiset, one per surviving finding |
| Pipeline.StepKeepsInv | apps/worker/worker/tasks.py:101-162 | every transaction of every execution keeps the pipeline invariant |
| Pipeline.RunKeepsInv | apps/worker/worker/tasks.py:101-162 | so does every interleaving of deliveries and transactions |
| Pipeline.ExecStepExtends | packages/scoring/devmanager_scoring/service.py:30-81 | what one transaction may do to the tables: at most one row inserted, of its own run and only if there was none, other runs untouched, completed only from the last step |
| Pipeline.PipelineSafety | apps/worker/worker/tasks.py:101-162 | over every interleaving with failures anywhere: at most one score and one report per run, at most one worker returns completed, and completed means both rows exist |
| Pipeline.HistoryOnlyGrows | packages/db/devmanager_db/daos/analysis_run.py:60-75 | rows are never taken back; a failure reason or completion time, once set, stays set |
| Pipeline.CompletableExactly | apps/worker/worker/tasks.py:101-162 | some continuation completes a run if and only if a check of the tables and the live workers holds |
| Pipeline.CompletionNeedsLive | packages/scoring/devmanager_scoring/service.py:44-47 | no sequence of events revives a run that fails the check |
| Pipeline.FromStart | apps/worker/worker/tasks.py:101-148 | a worker on a run without score and report gets through when nothing fails |
| Pipeline.StoppedScorerIsFinal | apps/worker/worker/tasks.py:149-162 | once the worker that scored a run has stopped, nothing completes the run |
| Pipeline.RetryAfterScoringIsFutile | apps/worker/worker/tasks.py:136-162 | after an exception before or after the commit of the report or of the final status no retry, request or interleaving completes the run |
| Pipeline.CompletedKeptExactly | packages/db/devmanager_db/daos/analysis_run.py:60-75 | a step takes the status completed away if and only if it is one that writes the status of ingestion, review or failure |
| Pipeline.RedeliveryUndoesCompletion | apps/worker/worker/tasks.py:149-162 | every completed run can be turned to failed by one more delivery of its job |
| Pipeline.WorkerFailsScoredRun | packages/scoring/devmanager_scoring/service.py:44-47 | a worker on a scored run can always end in the score guard and mark the run failed |
| Pipeline.RecordedReasonIsOverwritten | apps/worker/worker/tasks.py:122-158 | the reason recorded with a failing review is replaced by the raised text, cut to 500 characters |
| PipelineFacts.StepCompletes | apps/worker/worker/tasks.py:146-150 | an event by which some worker returns completed leaves its run completed, closed, scored and reported |
| PipelineFacts.CompletedWhenReturned | apps/worker/worker/tasks.py:146-150 | over every list of events, a worker that has returned completed did so at some event, after which its run was completed, closed, scored and reported |
| PipelineFacts.DoneMeansCompleted | apps/worker/worker/tasks.py:146-150 | a step that takes a worker to its end from elsewhere writes completed and the completion time |
| PipelineFacts.StatusUpdate | packages/db/devmanager_db/daos/analysis_run.py:60-75 | an update sets the status, keeps the reason unless one is given, closes the run exactly for final statuses, and changes nothing else |
| PipelineFacts.AnalysisPasses | apps/worker/worker/tasks.py:106-136 | the statuses through which ingestion and review go, with and without a provider |
| PipelineFacts.PublicationPasses | apps/worker/worker/tasks.py:138-149 | scoring, report and end of a run without rows: what each step adds |
| PipelineFacts.RequestPasses | packages/scoring/devmanager_scoring/service.py:30-81 | what each of the four requests over HTTP adds to the tables |
| PipelineFacts.RaiseChangesNothing | apps/worker/worker/tasks.py:152-162 | an exception leaves the tables; a worker goes on to mark its run, a request is over |
| PipelineFacts.UnknownRun | apps/worker/worker/tasks.py:106-162 | so does a run that is not found at the start of a phase |
| PipelineFacts.SecondRowRefused | packages/scoring/devmanager_scoring/service.py:44-47 | a second score or report is refused at the check and at the insert |
| PipelineFacts.FailureIsRecorded | apps/worker/worker/tasks.py:123-131 | a recorded failure closes the run as failed with the recorded text, and raises |
| PipelineFacts.MarkOfFailure | apps/worker/worker/tasks.py:152-162 | the final mark closes the run as failed with the cut reason, or changes nothing if it raises |
| PipelineFacts.LostCommits | apps/worker/worker/tasks.py:146-162 | a commit whose answer is lost leaves the tables of the step that got through, and stops the execution |
| PipelineFacts.EndedStaysEnded | apps/worker/worker/tasks.py:150-162 | what has returned or raised writes nothing more |
| PipelineFacts.CutFacts | apps/worker/worker/tasks.py:157 | a cut reason is a prefix of at most 500 characters, and of exactly 500 if anything is cut |
| PipelineFacts.DeliveryBegins | apps/worker/worker/tasks.py:84-108 | a delivery adds one execution at the first step of its kind |
| PipelineWorker.World.AloneIsARun | apps/worker/worker/tasks.py:101-162 | steps taken by one execution alone are a run of the protocol, so the safety results apply to the code |
| PipelineWorker.Backend.UpdateStatus | packages/db/devmanager_db/daos/analysis_run.py:60-75 | status, failure reason and completion time after an update; nothing if the run is unknown |
| PipelineWorker.Backend.Ingest | packages/git/devmanager_git/service.py:56-187 | the ingestion phase takes exactly the protocol's steps, on success and on each failure |
| PipelineWorker.Backend.Review | packages/agents/devmanager_agents/service.py:66-190 | the review phase takes exactly the protocol's steps, also when there is no provider |
| PipelineWorker.Backend.ScoreRun | packages/scoring/devmanager_scoring/service.py:30-81 | the guarded insert of the score takes exactly the protocol's steps |
| PipelineWorker.Backend.GenerateReport | packages/reporting/devmanager_reporting/service.py:34-109 | the guarded insert of the report takes exactly the protocol's steps |
| PipelineWorker.Backend.Complete | apps/worker/worker/tasks.py:146-148 | the final status takes exactly the protocol's step; when it returns the run is completed and closed |
| PipelineWorker.Backend.MarkFailed | apps/worker/worker/tasks.py:149-162 | the best-effort failure mark, its reason cut to 500 characters, is one step, whether or not it gets through |
| PipelineWorker.Backend.FullPipeline | apps/worker/worker/tasks.py:84-162 | the whole worker leads from the first step to done when it returns and to raised when it raises; if it returns, the run is completed, closed, scored and reported, and if it raises and its mark gets through, the run is failed and closed with at most 500 characters of reason |
| Tables.PutAllKeepsIds | packages/db/devmanager_db/daos/team_ops/issue.py:17-68 | any list of upserts keeps every internal id and keeps ids distinct |
| Tables.PutAllMeaning | packages/db/devmanager_db/daos/team_ops/issue.py:17-68 | after a list of upserts a row holds its last write, or what it held before |
| Tables.PutAllIdempotent | packages/db/devmanager_db/daos/team_ops/iteration.py:17-60 | doing the same upserts again changes nothing |
| Tables.ReplayChangesNothing | packages/db/devmanager_db/daos/team_ops/issue_assignment.py:17-62 | upserts on a table that already shows their last writes change nothing |
| Mirror.Session.UpsertIteration | services/pm-integration/devmanager_pm_integration/sync/upsert.py:50-63 | new session state and outcome of one iteration: validated, written, rejected by validation or by the database |
| Mirror.Session.UpsertIssue | services/pm-integration/devmanager_pm_integration/sync/upsert.py:69-90 | the same for an issue, its iteration id resolved against the stored iterations |
| Mirror.Session.UpsertAssignment | services/pm-integration/devmanager_pm_integration/sync/upsert.py:96-133 | the same for an assignment: skipped if its issue is unknown, person resolved if an identity is active, role and weight checked |
| Mirror.Session.UpsertBatch | services/pm-integration/devmanager_pm_integration/sync/upsert.py:159-213 | the three batch loops: session, success count and missing fields after all payloads, failures swallowed |
| MirrorFacts.OutcomeExactly | services/pm-integration/devmanager_pm_integration/sync/upsert.py:50-133 | when an upsert fails, when it loses the session, when it is skipped and when it counts |
| MirrorFacts.OnlyOneRow | packages/db/devmanager_db/daos/team_ops/issue.py:17-68 | an upsert that counts changes one row of its own table |
| MirrorFacts.IterationStored | services/pm-integration/devmanager_pm_integration/sync/upsert.py:50-63 | the stored fields of an iteration are those of its payload |
| MirrorFacts.IssueStored | services/pm-integration/devmanager_pm_integration/sync/upsert.py:69-90 | the stored fields of an issue are those of its payload |
| MirrorFacts.EstimateStored | migrations/postgres/009_team_ops_mirror.sql:40 | an estimate is stored if and only if one is given, as the nearest hundredth, below 10000 |
| MirrorFacts.LinkStored | services/pm-integration/devmanager_pm_integration/sync/upsert.py:82-87 | an issue has a link if and only if its iteration is stored, and then the internal id of that iteration |
| MirrorFacts.AssignmentStored | services/pm-integration/devmanager_pm_integration/sync/upsert.py:115-132 | an assignment is stored under its issue, user and role; its person is that of the active identity of its user, and there is one if and only if there is such an identity |
| MirrorFacts.WeightStored | services/pm-integration/devmanager_pm_integration/sync/upsert.py:108-132 | the weight is the nearest thousandth of the one given, or 1 |
| MirrorFacts.RefusedExactly | migrations/postgres/009_team_ops_mirror.sql:10-75 | which valid payloads the tables refuse, field by field |
| MirrorFacts.MissingExactly | services/pm-integration/devmanager_pm_integration/sync/upsert.py:43-44 | a required field is missing if and only if it is absent or null |
| MirrorFacts.IterationKinds | services/pm-integration/devmanager_pm_integration/models/dto.py:34-41 | which iteration payloads pass validation, field by field |
| MirrorFacts.IssueKinds | services/pm-integration/devmanager_pm_integration/models/dto.py:47-57 | the same for issues |
| MirrorFacts.AssignmentKinds | services/pm-integration/devmanager_pm_integration/models/dto.py:63-68 | the same for assignments |
| MirrorLaws.BatchIsWrites | services/pm-integration/devmanager_pm_integration/sync/upsert.py:159-213 | a batch aborts if and only if the tables refuse some payload as its predecessors left them; otherwise it is the list of writes of its valid payloads |
| MirrorLaws.StepOnWritten | services/pm-integration/devmanager_pm_integration/sync/upsert.py:50-133 | one payload on such tables is refused or written, and which |
| MirrorLaws.BadRowBlocksTheRest | services/pm-integration/devmanager_pm_integration/sync/upsert.py:164-173 | after a refused payload nothing counts any more, whatever follows |
| MirrorLaws.BadRowExample | services/pm-integration/devmanager_pm_integration/sync/upsert.py:164-173 | an iteration that ends before it starts takes a good one after it down |
| MirrorLaws.AcceptedStaysOpen | services/pm-integration/devmanager_pm_integration/sync/upsert.py:159-213 | if constraints hold and every issue key has one owner, a batch is exactly its writes |
| MirrorLaws.FailedThenSuccessful | services/pm-integration/devmanager_pm_integration/sync/upsert.py:159-213 | any number of batches, then all three over the same feed, leave the mirror of one sync, ids included, whenever both syncs commit |
| MirrorLaws.AcceptedFeedReplays | services/pm-integration/devmanager_pm_integration/sync/upsert.py:159-213 | for a feed that meets the constraints with one owner per issue key both do commit |
| MirrorLaws.ReplayExactly | services/pm-integration/devmanager_pm_integration/sync/upsert.py:159-213 | a committed batch of iterations or assignments can always be replayed; one of issues is refused if and only if one payload's key goes to a different issue first named later, whose last payload has it |
| MirrorLaws.KeySeen | services/pm-integration/devmanager_pm_integration/sync/upsert.py:176-190 | before its k-th payload a replay sees an issue's key as the first time, or as the batch left it if no earlier payload names the issue |
| MirrorLaws.ReplayMayBeRefused | services/pm-integration/devmanager_pm_integration/sync/upsert.py:176-190 | a batch in which an issue key changes hands is accepted once and refused on replay |
| MirrorLaws.BatchKeepsReferences | services/pm-integration/devmanager_pm_integration/sync/upsert.py:69-133 | every batch keeps internal ids and the existence of every assignment's issue and every linked iteration |
| MirrorLaws.StepKeepsReferences | services/pm-integration/devmanager_pm_integration/sync/upsert.py:50-133 | so does every single upsert |
| MirrorLaws.MissingFieldsNeverReported | services/pm-integration/devmanager_pm_integration/sync/upsert.py:43-63 | no batch reports a missing field other than an unsynced issue |
| MirrorLaws.LinkIsDecidedAtUpsert | services/pm-integration/devmanager_pm_integration/sync/upsert.py:81-90 | an issue's link is fixed when it is upserted; later iterations leave the row as it is |
| IncrementalSync.MaxUpdated | services/pm-integration/devmanager_pm_integration/sync/incremental.py:140-156 | the new cursor is a timestamp of the batch and none is later |
| IncrementalSync.Replica.PullSource | services/pm-integration/devmanager_pm_integration/sync/incremental.py:65-102 | one source: cursor read, fetch, batch, count, new cursor noted only for a non-empty answer |
| IncrementalSync.Replica.RunIncrementalSync | services/pm-integration/devmanager_pm_integration/sync/incremental.py:42-137 | committed mirror and cursors, success, counts and new cursors after a run, with failures at any source, at the cursor write or at the commit, and when it raises instead |
| IncrementalSync.Replica.RunFullSync | services/pm-integration/devmanager_pm_integration/sync/full.py:32-120 | the same for a full sync, with the number of users; the cursors of the three mirrored sources are reset at the end |
| SyncFacts.RunExactly | services/pm-integration/devmanager_pm_integration/sync/incremental.py:65-112 | a run whose sources all answer is the three batches over the answers, with their counts; it fails exactly by a session lost on the way or by its cursors, and then all its work is lost |
| SyncFacts.RunNeedsAnswers | services/pm-integration/devmanager_pm_integration/sync/incremental.py:65-112 | a run of which some source does not answer fails |
| SyncFacts.CursorsAfterRun | services/pm-integration/devmanager_pm_integration/sync/incremental.py:65-129 | after a committed run each cursor is the latest time of its source's answer, or as it was if that is empty |
| SyncFacts.FailedRunKeepsCursors | services/pm-integration/devmanager_pm_integration/sync/incremental.py:103-129 | a failed run writes no cursor, whether or not its rows are committed |
| SyncFacts.CommittedExactly | services/pm-integration/devmanager_pm_integration/sync/incremental.py:114-129 | a run that raises commits nothing; any other commits rows and cursors together |
| SyncFacts.FetchMovesOn | services/pm-integration/devmanager_pm_integration/sync/incremental.py:65-108 | in the protocol a fetch, failed or not, is of the next source and writes no table by itself |
| Recovery.FullRunIsSync | services/pm-integration/devmanager_pm_integration/sync/full.py:59-91 | a full sync is the three batches in order; it fails exactly by an answer, an abort, the users or its cursors |
| Recovery.FullRunNeedsAnswers | services/pm-integration/devmanager_pm_integration/sync/full.py:59-91 | a full sync of which some source does not answer fails and writes no cursor |
| Recovery.FullSyncResets | services/pm-integration/devmanager_pm_integration/sync/full.py:86-88 | after a committed full sync every cursor is null and the next incremental run asks each source without one |
| Recovery.FullCommitResets | services/pm-integration/devmanager_pm_integration/sync/full.py:86-112 | in the protocol the commit of a full sync leaves no cursor |
| Recovery.FullRunCounts | services/pm-integration/devmanager_pm_integration/sync/full.py:55-84 | the counts of a full sync are those of its three batches |
| IncrementalSync.FetchCatchesUp | services/pm-integration/devmanager_pm_integration/sync/incremental.py:65-102 | after an honest answer the whole source has been handed over, and the noted cursor covers it |
| IncrementalSync.StepKeepsInv | services/pm-integration/devmanager_pm_integration/sync/incremental.py:65-129 | every event of syncs and remote changes keeps the replication invariant |
| IncrementalSync.NothingBelowTheCursorIsMissed | services/pm-integration/devmanager_pm_integration/sync/incremental.py:65-129 | in every state of every sequence of failing and succeeding syncs, everything at or below a committed cursor has been handed to its upsert, and references hold |
| IncrementalSync.RunIsSync | services/pm-integration/devmanager_pm_integration/sync/incremental.py:42-137 | a run whose client fails after some sources has done that many batches, and fails exactly by that, by an abort or at the cursors |
| IncrementalSync.RetryEqualsOneRun | services/pm-integration/devmanager_pm_integration/sync/incremental.py:42-137 | any number of runs that fail at any source, at the cursors or at the commit, their work committed or lost, then a successful one, leave mirror, ids and cursors of one successful run |
| IncrementalSync.AcceptedRetrySucceeds | services/pm-integration/devmanager_pm_integration/sync/incremental.py:42-137 | for a feed that meets the constraints with one owner per issue key the run after any number of failed ones does succeed |
| UpToDate.BatchShowsExactly | services/pm-integration/devmanager_pm_integration/sync/upsert.py:159-213 | a committed batch shows a valid payload if and only if its upsert gets to the table: always, but for an assignment whose issue is not stored |
| UpToDate.LinkedExactly | services/pm-integration/devmanager_pm_integration/sync/upsert.py:81-90 | an issue is linked if and only if its iteration was stored at its upsert, whatever iterations come later |
| UpToDate.StepKeepsFresh | services/pm-integration/devmanager_pm_integration/sync/incremental.py:65-129 | every event keeps that handed-over present versions of iterations and issues are what the mirror shows |
| UpToDate.CurrentUpToTheCursor | services/pm-integration/devmanager_pm_integration/sync/incremental.py:65-129 | in every state of every sequence of syncs each valid remote iteration and issue at or below the committed cursor is shown in its present version |
| LostRows.SkippedAssignmentStaysMissing | services/pm-integration/devmanager_pm_integration/sync/upsert.py:114-120 | an assignment passed by the cursor without a row stays without one through all incremental syncs until it changes |
| LostRows.UnlinkedIssueStaysUnlinked | services/pm-integration/devmanager_pm_integration/sync/upsert.py:81-90 | an issue passed by the cursor without its link stays unlinked through all incremental syncs until it changes |
| LostRows.SkippedAssignmentExample | services/pm-integration/devmanager_pm_integration/sync/upsert.py:114-120 | a run from an empty mirror: an assignment is synced before its issue exists, the issue is synced, the row is missing |
| LostRows.UnlinkedIssueExample | services/pm-integration/devmanager_pm_integration/sync/upsert.py:81-90 | a run from an empty mirror: an issue is synced before its iteration exists, the iteration is synced, the link is missing |
| LostRows.WholeSync | services/pm-integration/devmanager_pm_integration/sync/incremental.py:42-137 | an undisturbed sync over honest answers is a trace of the protocol |
| LostRows.BatchMendsNothing | services/pm-integration/devmanager_pm_integration/sync/upsert.py:159-213 | only a payload about the row itself brings an assignment's row or an issue's link; what arrives later does not |
| Recovery.WholeFullSync | services/pm-integration/devmanager_pm_integration/sync/full.py:32-120 | an undisturbed full sync is a trace of the protocol that ends with what the code commits |
| Recovery.WholeSyncIsRun | services/pm-integration/devmanager_pm_integration/sync/incremental.py:42-137 | the undisturbed incremental sync of the protocol commits what the code does with the same answers |
| Recovery.AllHandedOver | services/pm-integration/devmanager_pm_integration/sync/incremental.py:42-137 | without cursors an undisturbed sync that commits has handed over every remote item |
| Recovery.StuckNoLonger | services/pm-integration/devmanager_pm_integration/sync/upsert.py:81-120 | after it a valid assignment has its row if and only if its issue is stored, and a valid issue its link if and only if its iteration is: the exact end of what incremental syncs leave stuck |
| PmClient.GetPaginated | services/pm-integration/devmanager_pm_integration/client.py:109-156 | result and number of requests of a run that ends are those of the turn-by-turn specification |
| PmClient.OffsetEndsExactly | services/pm-integration/devmanager_pm_integration/client.py:123-156 | against an offset server the loop ends if and only if the claimed total is not above the list's length |
| PmClient.HonestOffset | services/pm-integration/devmanager_pm_integration/client.py:123-156 | an honest offset server's list is returned once, in order, in the counted number of requests |
| PmClient.PagesForIsCeiling | services/pm-integration/devmanager_pm_integration/client.py:151-154 | that number is the least positive one whose pages hold the total |
| PmClient.CursorChain | services/pm-integration/devmanager_pm_integration/client.py:123-156 | an acyclic cursor chain with total absent or right gives the pages concatenated, one request each |
| PmClient.Client.constructor | services/pm-integration/devmanager_pm_integration/client.py:74-86 | negative settings count as zero |
| PmClient.Client.Request | services/pm-integration/devmanager_pm_integration/client.py:160-256 | the outcome is the verdict on the first attempt that is not retried, and the waits are those between attempts |
| PmClient.Decisive | services/pm-integration/devmanager_pm_integration/client.py:174-225 | all attempts before the deciding one are retryable; it is the last allowed or not retryable |
| PmClient.SucceedsExactly | services/pm-integration/devmanager_pm_integration/client.py:174-225 | a request succeeds if and only if a 2xx comes within the limit after retryable attempts only |
| PmClient.TotalWait | services/pm-integration/devmanager_pm_integration/client.py:250-256 | without Retry-After and with jitter up to the base, r retries wait between base(2^r - 1) and base(2^r - 1 + r) in all |
| PmClientFacts.BadReplyThrows | services/pm-integration/devmanager_pm_integration/client.py:137-143 | a turn raises if and only if the request fails or the items are no list |
| PmClientFacts.GoodReply | services/pm-integration/devmanager_pm_integration/client.py:144-154 | after a good reply: a non-empty cursor is followed, else a total not reached asks for the next page, else the loop ends |
| PmClientFacts.WhatIsAsked | services/pm-integration/devmanager_pm_integration/client.py:123-135 | the first request is for page 1; a cursor, an empty one included, takes the place of the page |
| PmClientFacts.RequestsAreTurns | services/pm-integration/devmanager_pm_integration/client.py:129-156 | against every server the number of requests of a run that ends is the least number of turns in which it ends |
| PmClientFacts.RepeatedExactly | services/pm-integration/devmanager_pm_integration/client.py:182-223 | an attempt is repeated if and only if it is a time-out, a transport failure, a 429 or in the 500s |
| PmClientFacts.ReportOf | services/pm-integration/devmanager_pm_integration/client.py:184-225 | which class the deciding attempt is reported as, both directions |
| PmClientFacts.WaitFacts | services/pm-integration/devmanager_pm_integration/client.py:240-256 | a positive Retry-After of a 429 is obeyed; otherwise the wait doubles |
| PmClientFacts.DecidesExactly | services/pm-integration/devmanager_pm_integration/client.py:174-225 | the first attempt that is not repeated decides, or the last allowed |
| CodeMap.CodeMapStore.Put | apps/api-gateway/api_gateway/routers/code_map/store.py:27-49 | store after a put: graph marked fresh or stale, streak reset or grown, pull time set |
| CodeMap.CodeMapStore.Status | apps/api-gateway/api_gateway/routers/code_map/store.py:60-79 | one entry per stored scope with its version, staleness and streak, the last pull, and the reason of a stale scope or none |
| CodeMap.MapsDir.TryOnce | apps/api-gateway/api_gateway/routers/code_map/regen.py:146-210 | files after one attempt, for every stage at which it may fail |
| CodeMap.RegenOneScope | apps/api-gateway/api_gateway/routers/code_map/regen.py:120-247 | store and files after the retry loop: those of the attempts up to the deciding one, then success, stale old graph or placeholder |
| CodeMap.LoadDiskIntoStore | apps/api-gateway/api_gateway/routers/code_map/regen.py:395-403 | every graph file becomes a fresh entry with streak 0; other entries stay |
| CodeMap.LoadAgrees | apps/api-gateway/api_gateway/routers/code_map/regen.py:349-403 | a new store filled from the files agrees with them, whatever is on disk |
| CodeMap.MapsDir.WriteFallbackIndex | apps/api-gateway/api_gateway/routers/code_map/regen.py:407-423 | without a provider the index holds the given scopes at version 0 and nothing else; graphs and cards stay |
| CodeMap.RegenStep | apps/api-gateway/api_gateway/routers/code_map/regen.py:144-247 | one call as seen from any scope, whatever the index shows: version, streak and disk after success and failure, new graph in store and file after success, old modules and edges with the reason after failure, other scopes untouched |
| CodeMap.VersionLaw | apps/api-gateway/api_gateway/routers/code_map/regen.py:144-247 | for every sequence of calls from a store that agrees with the graph files: version counts successes, streak counts failures since the last one, stale means a positive streak, the disk is at most one ahead and never goes back |
| CodeMap.IndexLaw | apps/api-gateway/api_gateway/routers/code_map/regen.py:206-265 | from any state: the index entry is as it was until the first success and then shows the store version |
| CodeMap.LateFailureIsOnDisk | apps/api-gateway/api_gateway/routers/code_map/regen.py:144-247 | a failing call leaves the disk ahead if and only if it was ahead or some attempt failed after the write; the file then holds the last such graph |
| CodeMap.DiskAheadExactly | apps/api-gateway/api_gateway/routers/code_map/regen.py:144-247 | over every sequence of calls: exactly when the disk is one version ahead of the store |
| CodeMap.LateFailureSurfaces | apps/api-gateway/api_gateway/routers/code_map/regen.py:176-403 | after a late failure the next process starts from the new graph, fresh and one version on, with the index behind |
| CodeMap.CardSurvivesExactly | apps/api-gateway/api_gateway/routers/code_map/regen.py:183-203 | a module finds its own card if and only if no later module's id ends in the same segment |
| CodeMap.CardsBelongToOwners | apps/api-gateway/api_gateway/routers/code_map/regen.py:183-203 | a card file holds the card of the last module that uses its name, or what it held before |
| CodeMapFacts.SucceedsExactly | apps/api-gateway/api_gateway/routers/code_map/regen.py:146-227 | a call succeeds if and only if some allowed attempt does and every earlier one failed transiently |
| CodeMapFacts.DecidesOnce | apps/api-gateway/api_gateway/routers/code_map/regen.py:212-227 | otherwise the first attempt that did not fail transiently decides, or the last allowed |
| CodeMapFacts.RegenOutcome | apps/api-gateway/api_gateway/routers/code_map/regen.py:144-247 | the stored graph by the deciding attempt: its content one version on and fresh, or the old one or a placeholder, stale with that attempt's reason |
| CodeMapFacts.AttemptFiles | apps/api-gateway/api_gateway/routers/code_map/regen.py:166-206 | graph and index files after one attempt, by where it ends |
| CodeMapFacts.AttemptCards | apps/api-gateway/api_gateway/routers/code_map/regen.py:183-203 | card files after one attempt: of the modules it got to, the last that uses a name has it |
| CodeMapFacts.PutFacts | apps/api-gateway/api_gateway/routers/code_map/store.py:27-49 | a put changes one scope, its mark, its streak and the pull time |
| CodeMapFacts.StatusFacts | apps/api-gateway/api_gateway/routers/code_map/store.py:60-71 | a status entry shows its graph's version, head, staleness and module count, and the streak or 0 |
| CodeMapFacts.SegmentIsLast | apps/api-gateway/api_gateway/routers/code_map/regen.py:201 | the card file name is what follows the last slash of the id |
| GraphDiff.ModuleFieldsChanged | apps/api-gateway/api_gateway/routers/code_map/diff.py:20-25 | the loop's list of changed fields is the specification's |
| GraphDiff.FieldsChangedMembers | apps/api-gateway/api_gateway/routers/code_map/diff.py:13-25 | that list names exactly the compared fields that differ, and is the same both ways |
| GraphDiff.FieldsChangedEmptyExactly | apps/api-gateway/api_gateway/routers/code_map/diff.py:13-25 | for modules with the same id it is empty if and only if they agree but for their path |
| GraphDiff.DiffScopeGraphs | apps/api-gateway/api_gateway/routers/code_map/diff.py:28-65 | the diff, or the type error of sorting edges with and without `via` |
| GraphDiff.PatchLaw | apps/api-gateway/api_gateway/routers/code_map/diff.py:28-65 | applied to the first graph the diff gives the second: modules up to their path, edges exactly |
| GraphDiff.EmptyExactly | apps/api-gateway/api_gateway/routers/code_map/diff.py:28-65 | the diff is empty if and only if edges agree and modules agree but for their path |
| GraphDiff.ReverseLaw | apps/api-gateway/api_gateway/routers/code_map/diff.py:28-65 | the other way round, added and removed, before and after, and the versions change places |
| GraphDiffFacts.FieldNames | apps/api-gateway/api_gateway/routers/code_map/diff.py:13-25 | each name on the changed list stands for its own field |
| GraphDiffFacts.FailsExactly | apps/api-gateway/api_gateway/routers/code_map/diff.py:53-54 | the diff fails if and only if among the added or among the removed edges two agree in both ends and only one has a `via` |
| GraphDiffFacts.ModulesListed | apps/api-gateway/api_gateway/routers/code_map/diff.py:29-37 | added and removed modules are exactly those whose id the other graph does not have |
| GraphDiffFacts.ModulesInOrder | apps/api-gateway/api_gateway/routers/code_map/diff.py:36-37 | both lists ascend by id |
| GraphDiffFacts.ChangedListed | apps/api-gateway/api_gateway/routers/code_map/diff.py:38-49 | changed modules are exactly the common ids with a changed field, old before new |
| GraphDiffFacts.EdgesListed | apps/api-gateway/api_gateway/routers/code_map/diff.py:51-54 | edge lists are exactly the edges of one graph only, ascending |
| GraphDiffFacts.EdgeOrder | apps/api-gateway/api_gateway/routers/code_map/diff.py:16-17 | edges ascend by source, then target, then `via` |
| GraphDiffFacts.HeadOfDiff | apps/api-gateway/api_gateway/routers/code_map/diff.py:56-59 | the diff carries the scope of the second graph and leads from the first version to the second |
| GraphDiffFacts.LastModule | apps/api-gateway/api_gateway/routers/code_map/diff.py:29-30 | of several modules with one id the last counts |
| RegenJobs.SectionOk | apps/api-gateway/api_gateway/routers/code_map/router.py:323-519 | one lock section keeps the job invariant and moves the status at most one step on |
| RegenJobs.StepKeepsInv | apps/api-gateway/api_gateway/routers/code_map/router.py:323-519 | every event keeps the invariant of all entries and writes only its own |
| RegenJobs.JobSafety | apps/api-gateway/api_gateway/routers/code_map/router.py:323-519 | over every interleaving: queued exactly until started, pull result for repull jobs only and before regenerating, terminal status and finish time when done, terminal status final, nothing touched after a failed pull, whose failure is the job's, and the plan split in order into processed and failed |
| RegenJobs.SplitCounts | apps/api-gateway/api_gateway/routers/code_map/router.py:501-519 | in a split every planned scope is on exactly one list, as often as planned |
| RegenRunner.JobTable.Post | apps/api-gateway/api_gateway/routers/code_map/router.py:239-271 | a request adds one queued entry and changes no other |
| RegenRunner.JobTable.OneScope | apps/api-gateway/api_gateway/routers/code_map/router.py:501-515 | one scope: its entry on the right list, the map regenerated unless its files could not be read |
| RegenRunner.JobTable.DoRegenPhase | apps/api-gateway/api_gateway/routers/code_map/router.py:447-519 | the shared core: provider failure before any scope, otherwise all scopes, as sections of the protocol |
| RegenRunner.JobTable.RunJob | apps/api-gateway/api_gateway/routers/code_map/router.py:323-444 | both background functions reach the finished state by sections of the protocol; final entry, store and files in closed form |
| RegenRunner.World.SectionsAreARun | apps/api-gateway/api_gateway/routers/code_map/router.py:323-519 | sections of one job in a row are a run of the protocol on its entry of any table |
| RegenRunner.World.LeadsIsSafe | apps/api-gateway/api_gateway/routers/code_map/router.py:323-519 | what the background functions lead to keeps the invariant of all entries and what a polling client may rely on |
| RegenRunner.SucceedsExactly | apps/api-gateway/api_gateway/routers/code_map/router.py:447-519 | a job succeeds if and only if pull, provider and the reading of every scope succeed |
| RegenRunner.FreshExactly | apps/api-gateway/api_gateway/routers/code_map/regen.py:212-247 | a scope is fresh after a job if and only if its last regeneration succeeded |
| RegenRunner.SucceededJobFreshExactly | apps/api-gateway/api_gateway/routers/code_map/router.py:501-519 | after a succeeded job over distinct scopes each scope is fresh if and only if its own regeneration succeeded |
| RegenRunner.SuccessfulJobMayLeaveAllStale | apps/api-gateway/api_gateway/routers/code_map/router.py:501-519 | an example: the only scope of a succeeded job is stale |
| RegenFacts.PlanExactly | apps/api-gateway/api_gateway/routers/code_map/router.py:463-487 | a named scope is planned alone; none, or an empty one, means the whole listing |
| RegenFacts.ReportOf | apps/api-gateway/api_gateway/routers/code_map/router.py:323-519 | the final entry by what went wrong: pull result, error, status and which scopes are on which list, in the order of the plan |
| RegenFacts.PullTexts | apps/api-gateway/api_gateway/routers/code_map/router.py:400-414 | what a failed pull leaves of git's output: at most 500 characters in the pull result and at most the first 200 of those in the job |
| RegenFacts.OtherPullTexts | apps/api-gateway/api_gateway/routers/code_map/router.py:371-398 | the two texts of a pull that times out or raises |
| RegenFacts.JobVersions | apps/api-gateway/api_gateway/routers/code_map/router.py:501-519 | whatever the plan, a scope's version grows by the number of its successful regenerations |
| Chunker.SplitByTokens | packages/agents/devmanager_agents/chunker.py:81-107 | whenever the cutting ends, the result is that of the window specification, blank and short texts included |
| Chunker.CutWindow | packages/agents/devmanager_agents/chunker.py:93-106 | one turn of the loop: the window's end, what is kept, and where the next one starts |
| Chunker.EveryIndexIsCovered | packages/agents/devmanager_agents/chunker.py:92-106 | for every budget and overlap for which the loop ends, every index lies in some window |
| Chunker.SlicesLinked | packages/agents/devmanager_agents/chunker.py:92-106 | the windows run from the start to the end, each within the budget and each starting where the last one's overlap begins |
| Chunker.PartitionWithoutOverlap | packages/agents/devmanager_agents/chunker.py:81-107 | with no overlap the loop ends and the windows are an exact ordered partition of the text |
| Chunker.TerminationExactly | packages/agents/devmanager_agents/chunker.py:92-106 | for an overlap below the budget the loop ends if and only if no full window from the second start on has its last space within the overlap |
| Chunker.ShortRunsShareTheOverlap | packages/agents/devmanager_agents/chunker.py:92-106 | if all runs without a space are short, the loop ends, advances at every turn, and consecutive windows share exactly the overlap |
| Chunker.HazardTraps | packages/agents/devmanager_agents/chunker.py:92-106 | from a start at or before such a window, with an end past the overlap, no number of turns ends the loop |
| Chunker.OverlapTooLarge | packages/agents/devmanager_agents/chunker.py:92-106 | an overlap of at least the budget never gets through a text longer than both together |
| Chunker.DecidedWithinTheLength | packages/agents/devmanager_agents/chunker.py:92-106 | for every budget and overlap the loop ends if and only if it ends within as many turns as the text has characters |
| Chunker.StartsDiffer | packages/agents/devmanager_agents/chunker.py:92-106 | a loop that ends is never twice at the same start |
| Chunker.NoBudgetNeverEnds | packages/agents/devmanager_agents/chunker.py:92-106 | with a budget of zero the loop never ends |
| Chunker.SlicesAreTheCuts | packages/agents/devmanager_agents/chunker.py:92-106 | the windows are those of any run that is long enough to end |
| Chunker.RepeatedState | packages/agents/devmanager_agents/chunker.py:104 | a text on which the loop stays at position 1 |
| Chunker.SplitBounded | packages/agents/devmanager_agents/chunker.py:81-107 | no piece is over the budget and every piece is a contiguous part of the text |
| Chunker.SplitBySections | packages/agents/devmanager_agents/chunker.py:37-68 | sections from each match to the next, stripped, empty ones dropped; paragraphs if there is no match |
| Chunker.HybridChunker.FitPieces | packages/agents/devmanager_agents/chunker.py:130-136 | pieces over the limit are replaced by their cuts, in order |
| Chunker.HybridChunker.ChunkText | packages/agents/devmanager_agents/chunker.py:117-141 | the chunks of a text for every strategy, in order |
| Chunker.HybridChunker.EveryChunkFits | packages/agents/devmanager_agents/chunker.py:117-141 | whenever chunking ends, for every strategy every chunk is a non-blank part of the text and counts at most the limit |
| ChunkerFacts.SectionsAreTiles | packages/agents/devmanager_agents/chunker.py:41-48 | the sections are the stripped non-blank tiles that begin at the matches, each ending where the next begins, the last at the end |
| ChunkerFacts.SectionsCoverTheRest | packages/agents/devmanager_agents/chunker.py:41-48 | unstripped they are, in order, the text from the first match on |
| ChunkerFacts.NoSectionSpansAMatch | packages/agents/devmanager_agents/chunker.py:43-45 | no section reaches past a later match |
| ChunkerFacts.ParagraphsAreBetween | packages/agents/devmanager_agents/chunker.py:29-31 | paragraphs are the stripped non-blank parts between the breaks |
| ChunkerFacts.PrimaryPieces | packages/agents/devmanager_agents/chunker.py:120-128 | which of these every strategy gives; without a match, paragraphs |
| ChunkerFacts.StrategyTable | packages/agents/devmanager_agents/chunker.py:71-78 | the strategy by file type, unless one is set |
| ChunkerFacts.EndExactly | packages/agents/devmanager_agents/chunker.py:93-98 | a full window ends at the last space after its start, or at the budget without one |
| ChunkerFacts.SplitFacts | packages/agents/devmanager_agents/chunker.py:81-107 | blank texts give nothing, short ones themselves, others their windows that are not blank, unchanged and in order |
| ChunkerFacts.FittedSnoc | packages/agents/devmanager_agents/chunker.py:131-136 | each piece is fitted on its own, after those before it |
| ChunkerFacts.ChunkOfOne | packages/agents/devmanager_agents/chunker.py:137-141 | a piece that is not blank becomes one chunk with its own content, marked with the strategy |
| AgentLoop.ResultFor | packages/agents/devmanager_agents/agent_reviewer.py:107-137 | the result carries the id of its use, is an error if and only if the tool is unnamed or raises, and is otherwise the output cut to its limit |
| AgentLoop.RunTools | packages/agents/devmanager_agents/agent_reviewer.py:107-137 | one result per requested tool use, in order; a use without an id ends the loop |
| AgentLoop.Loop | packages/agents/devmanager_agents/agent_reviewer.py:71-138 | ending, transcript and number of calls are those of the specification |
| AgentLoop.ReviewAll | packages/agents/devmanager_agents/agent_reviewer.py:37-69 | findings only from an answer that parses; every other ending gives none |
| AgentLoop.TranscriptShape | packages/agents/devmanager_agents/agent_reviewer.py:88-138 | for every provider and tool behaviour: at most max calls, alternating roles, 1 + 2k messages after k rounds, one result per use with its id in order, and a run that ends before max does so by its last call: answered with that response's text, or cut off |
| AgentLoop.ShapeGrows | packages/agents/devmanager_agents/agent_reviewer.py:88-138 | a tool round keeps that shape |
| AgentLoop.LastCall | packages/agents/devmanager_agents/agent_reviewer.py:88-138 | how a run ends at its last call: with the text of the last response, by a failing provider or by a use without an id |
| AgentLoop.ResultFacts | packages/agents/devmanager_agents/agent_reviewer.py:107-137 | tool output is passed on whole up to 8000 characters; an error names its cause |
| Codeowners.MatchSplits | packages/git/devmanager_git/codeowners.py:87 | a concatenated pattern matches if and only if some split of the string matches part by part |
| Codeowners.MatchOne | packages/git/devmanager_git/codeowners.py:87 | a star matches everything, a question mark any one character, any other character itself |
| Codeowners.LiteralMatch | packages/git/devmanager_git/codeowners.py:81 | a pattern without wild cards matches itself only |
| Codeowners.SqueezePreservesMatch | packages/git/devmanager_git/codeowners.py:86 | rewriting two stars to one keeps the set of strings matched |
| Codeowners.MatchesMeaning | packages/git/devmanager_git/codeowners.py:71-87 | a directory pattern matches if and only if it occurs at the start of a component, any other if and only if one glob matches the path or its last component; rewriting and second disjunct drop out |
| Codeowners.Basename | packages/git/devmanager_git/codeowners.py:80 | the last component: no slash in it, at the end of the path, with a slash before it or nothing |
| Codeowners.LeadingSlashIsIgnored | packages/git/devmanager_git/codeowners.py:73-74 | a leading slash never changes what a pattern matches |
| Codeowners.DirectoryAtAnyDepth | packages/git/devmanager_git/codeowners.py:76-78 | a directory pattern matches below every directory of that name |
| Codeowners.FindOwner | packages/git/devmanager_git/codeowners.py:61-69 | the forward scan finds what the documented search from the last rule to the first finds |
| Codeowners.LastMatchDecides | packages/git/devmanager_git/codeowners.py:8-11 | the rule that matches and after which none does decides the owner |
| Codeowners.OwnedExactly | packages/git/devmanager_git/codeowners.py:61-69 | a path has an owner if and only if some rule matches |
| Codeowners.LaterRulesWin | packages/git/devmanager_git/codeowners.py:8-11 | appended rules override the earlier ones where they match |
| Codeowners.FromText | packages/git/devmanager_git/codeowners.py:17-30 | the rules of a text, in order; blank, comment and short lines skipped |
| Codeowners.PrintThenRead | packages/git/devmanager_git/codeowners.py:17-30 | reading what was printed gives back the rules |
| Codeowners.ReadPrintRead | packages/git/devmanager_git/codeowners.py:17-30 | for every text, printing its rules and reading them again changes nothing |
| GitFacts.OwnerOf | packages/git/devmanager_git/codeowners.py:61-69 | the rule that matches the path and after which none does names the owner |
| GitFacts.DirectoryExactly | packages/git/devmanager_git/codeowners.py:76 | directory patterns are those that end with a slash |
| Differ.ParseNumstat | packages/git/devmanager_git/differ.py:14-32 | the dictionary is the specification's, malformed lines skipped |
| Differ.StoreMeaning | packages/git/devmanager_git/differ.py:16-31 | a path is in the dictionary if and only if a row names it, with the figures of its last row |
| Differ.NumstatRoundTrip | packages/git/devmanager_git/differ.py:14-32 | parsing printed rows gives them back, for paths without line breaks or white space at the end |
| Differ.ParseNameStatus | packages/git/devmanager_git/differ.py:35-52 | the entries are the specification's, malformed lines skipped |
| Differ.NameStatusRoundTrip | packages/git/devmanager_git/differ.py:35-52 | parsing printed entries gives them back in order, similarity scores dropped |
| Differ.ParseDiff | packages/git/devmanager_git/differ.py:66-110 | one unit per entry, in order, with its paths, change type and the figures under its path or, failing that, its previous path |
| Differ.TotalsAgree | packages/git/devmanager_git/differ.py:66-110 | if both outputs name the same paths once each, the units' totals of any figure equal numstat's |
| Differ.FiguresExactly | packages/git/devmanager_git/differ.py:79-82 | for every list of rows a unit has the figures of the last row under its path, else under its non-empty previous path, else none |
| Differ.ArrowRowIsLost | packages/git/devmanager_git/differ.py:80-82 | a renamed file whose paths no row names alone shows no changed lines, whatever other rows there are |
| Differ.ArrowKeyNamesNeither | packages/git/devmanager_git/differ.py:80-82 | a row under `old => new` names neither path |
| GitFacts.PrintedDiffReads | packages/git/devmanager_git/differ.py:66-110 | from printed rows and entries each unit has its entry's two paths and the figures of the only row under its path |
| GitFacts.RowReads | packages/git/devmanager_git/differ.py:19-31 | two dashes make a binary file; otherwise both figures are numbers or the line is skipped |
| GitFacts.EntryReads | packages/git/devmanager_git/differ.py:42-51 | renames and copies have two paths, the old one first; every other code has one |
| GitFacts.StatusLetters | packages/git/devmanager_git/differ.py:55-63 | which letter means which change |
| GitFacts.NumeralExactly | packages/git/devmanager_git/differ.py:28-31 | which texts are unsigned numbers: digits with single underscores between them |
| GitFacts.OneDigit | packages/git/devmanager_git/differ.py:28-31 | the value of one digit |
| GitFacts.OneMoreDigit | packages/git/devmanager_git/differ.py:28-31 | a digit more means ten times the number and the digit |
| GitFacts.UnderscoreIsSkipped | packages/git/devmanager_git/differ.py:28-31 | an underscore before the last digit changes nothing |
| GitFacts.SignedNumbers | packages/git/devmanager_git/differ.py:28-31 | a sign in front negates or does nothing |
| GitFacts.LineByLine | packages/git/devmanager_git/differ.py:17 | every boundary ends one line, a carriage return and line feed together as well |
| GitFacts.BreaksByCode | packages/git/devmanager_git/differ.py:17 | which characters end a line |

## Left out

- IEEE floating point: scores, confidences, waits and weights are exact numbers, so no rounding error of binary floats is modelled.
- Scoring.ComputeScore: the texts of caps and limitations are kept as data, and lower-casing covers the letters A to Z only.
- Pipeline.PipelineSafety: runs, scores and reports are never deleted, which cascades in the database would do; diff units, agent findings, report files and their cleanup are not part of the protocol.
- Pipeline.WorkerFailsScoredRun: the texts of exceptions raised for unknown, scored or reported runs are shortened, without identifiers.
- Mirror.Session.UpsertBatch: the field `last_synced_at` is not modelled.
- Mirror.Session.UpsertIteration: validation is by field kind, without the validation library's coercions, such as stripping texts or reading numbers as dates.
- Mirror.Session.UpsertIssue: likewise without coercions.
- Mirror.Session.UpsertAssignment: likewise without coercions.
- IncrementalSync.NothingBelowTheCursorIsMissed: assumes timestamps that can be read; the fallback to the current time for others, and changes between the pages of one fetch, are not modelled.
- SyncFacts.RunExactly: a run may be told to fail at its cursors also when it has none to write, which the code cannot.
- IncrementalSync.Replica.RunFullSync: the users source writes no table, so only its count or failure is modelled, and the users cursor, which nothing reads, is not.
- PmClient.Client.Request: Retry-After is given as a number or none; the HTTP date form is read as none by the code.
- CodeMap.VersionLaw: sequential calls only; two regenerations of one scope at the same time read the same old graph and are not covered.
- CodeMap.RegenOneScope: error classification, prompts and JSON parsing are part of the given attempts; at least one attempt is allowed, as the code's own assertion demands.
- RegenRunner.JobTable.RunJob: one job at a time over the table; interleaving is covered by the protocol in `RegenJobs`, and only its lock sections are atomic.
- Chunker.TerminationExactly: stated for overlaps below the budget; for larger ones `Chunker.DecidedWithinTheLength` gives a bounded test, not a condition on single windows.
- CodeMap.CodeMapStore.Status: which stale scope's reason is the last error depends on insertion order, which the store's map does not keep.
- Chunker.HybridChunker.ChunkText: the positions at which headings, definitions and paragraph breaks match are given; text before the first match is dropped, as in the code, and its coverage is not claimed.
- Codeowners.MatchesMeaning: character classes in brackets are taken literally; the path is given as already normalised.
- Differ.ParseNumstat: numbers are ASCII digits, with sign and single underscores; the digits of other scripts that Python's `int` also reads are not.
- Differ.ParseDiff: language, generated, vendor and test flags, risk tags and identifiers of a unit are left out.
- White space is that of Latin-1 and the two Unicode line separators; the other Unicode spaces are not modelled.
- Web user interface, authentication, webhooks, publication decisions, vector search, encryption, migrations, git subprocesses: input and output, or single-branch facts.
- Plain reads and one-row updates of teams, persons, settings, suggestions and audit: they would only add easy members.
