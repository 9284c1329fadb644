# Pipeline analytics, verified

A Dafny model of the parts of pipeline-analytics where being right is hard, with proofs.

**Ingestion.** The store's run, job and step tables are changed by `workflow_run` deliveries,
`workflow_job` deliveries and reconciliation polls. A poll skips work twice: a conditional request for
the run list answered 304, and no jobs request for a run already stored as completed with the same
conclusion. `RunStore` is the SQLite adapter as a class over tables with internal ids; its ghost fields
hold the value those tables stand for and the log of writes made. `Tables` gives that value, the effect of
one write and of a list of writes under a script of storage faults; `GithubClient`, `ForgejoClient`,
`Reconcile` and `Webhook` are the clients' polls, the reconciler's loops and the deliveries, proved against
it; `Columns` says what they leave, column by column. On top of them: `Replay` (what a history of writes leaves), `PollCache`, `PollTraces` and `PollLimits` (when the two
caches are invisible, and what breaks them), `PollFaults` (polls that storage errors cut short),
`Interleaving` (polls and deliveries running at once, with stale reads and aborts), `Isolation`
(repositories do not disturb each other).

**Metrics.** `Recovery`, `Insights`, `InsightViews`, `FlakyRatio`, `Flaky`, `StepMetrics` and
`FailureInsights` compute overlapping views of a window's runs and steps; `Percentiles`, `Trends` and
`Health` a pipeline's figures; `Paging` the two ways a list is cut; `QuarantineStore` the marks on flaky
steps; `PipelineId` the opaque ids. `Readings` and `StepReadings` say what those views hold in the fields of
the runs and steps they are about. A `range` over a Go map is a loop that picks keys in any order, and an
unstable sort one that breaks ties in any way, so a contract that fixes the result is a proof that neither
matters. Floats are exact reals. `Ordering`, `Sums` and `Tally` are the tools.

**Three loops.** `Ansi` (styled log lines) and `Sgr` (what its styles are, in numbers and units), `JobLog` (the streamed tail of a log, over a buffered reader of
any size) and `Readyz` (the probe cache, for one request and for requests side by side).

Where the code and what is written about it differ, the model follows the code:

- `docs/adr/0003-webhook-primary-poll-fallback-ingestion.md:26-27` and the comment at
  `internal/ingestion/reconcile.go:12-13` promise that polling catches a missed webhook. A poll answered in full does
  so for run rows, and for jobs exactly at the runs it does not skip (`PollLimits.CatchesUp`, over whole runs of polls
  `PollLimits.JobsCaughtUp`); a run whose completion arrived but whose jobs did not stays
  without them for good (`PollLimits.LostJobDeliveriesStick`, `PollLimits.MidPollErrorSticks`).
- The comment at `internal/ingestion/webhook.go:155-157` calls the row a `workflow_job` delivery writes a stub
  for a run not yet seen, which a later event or reconciliation fills in. It also overwrites a run already seen,
  finished or not (`PollLimits.JobDeliveryReopens`), and polling fills that in exactly when the forge comes to answer
  with another ETag than the one stored (`PollLimits.ReopenedUntilAnswered`); until then the finished run stays in
  progress, whatever is polled (`PollLimits.StubSticks`).
- A 304 stands for the run list alone. The skip of finished runs is right as long as those do not change
  (`PollTraces.SkippingStaysSafe`), but a running run's new job under an unchanged list goes unseen
  (`PollLimits.RunningJobsGoUnseen`).
- The comment at `internal/ingestion/github/joblog.go:17-19` says a log past the byte cap is marked truncated, and
  `internal/ingestion/joblog.go:36` that truncated means the log had more lines. The flag counts lines read before the
  cap; `JobLog.FlagWithinCap` and `JobLog.FlagPastCap` say exactly when it tells the truth, and
  `JobLog.LongLineVanishes` gives a log it is wrong about.
- A drain is meant to fail readiness at once. It has taken hold exactly when no request from before it waits for the
  lock, holds it, or, past the lock or with no probe configured, has a 200 yet to write; otherwise a 200 can still
  follow, and a probe exactly when one waits (`Readyz.DrainTakesHold`, `Readyz.DrainFindsOneLeaving`).
- With no limit, the store's page ignores the offset while `paginate` honours it (`Paging.PagingCommutes`); with a
  run count of zero or less the run and step queries pick different windows (`Trends.WindowsTile`).

`dafny verify dfyconfig.toml` checks the whole project.

## Model

| member | source | states |
|---|---|---|
| `RunStore.Store.UpsertRun` | internal/ingestion/sqlite/runs.go:65-101 | the run write takes effect on the store's value in full or not at all, is logged if it does, and the id answered is the run's own; forge keys and ids stay one to one, and no id ever given changes |
| `RunStore.Store.UpsertJob` | internal/ingestion/sqlite/runs.go:104-135 | likewise for a job of an existing run; a job of no run is refused and changes nothing |
| `RunStore.Store.ReplaceSteps` | internal/ingestion/sqlite/runs.go:138-164 | likewise for a job's whole step list, other jobs' steps untouched; a rollback leaves the old list |
| `RunStore.InsertSteps` | internal/ingestion/sqlite/runs.go:149-157 | the inserts go through exactly when the step numbers are distinct and the job exists, and then add the list in order |
| `RunStore.TaggedClash` | internal/db/migrations/00001_init.sql:47-57 | the unique index refuses a row exactly when an earlier row of the job has its number |
| `RunStore.Store.FindRun` | internal/ingestion/sqlite/runs.go:168-181 | finds a row of the key, or proves there is none |
| `RunStore.Store.FindJob` | internal/ingestion/sqlite/runs.go:168-181 | finds a row of the run and forge job id, or proves there is none |
| `RunStore.Store.RunStates` | internal/ingestion/sqlite/runs.go:33-62 | status and conclusion of exactly the repository's stored runs, whatever order the rows come in |
| `RunStore.Store.SetReconcileETag` | internal/ingestion/sqlite/store.go:229-245 | the ETag write takes effect in full, or fails on a repository that is not there |
| `RunStore.Store.ListRepos` | internal/ingestion/sqlite/store.go:117-165 | every tracked repository once, with the ETag it had at that moment |
| `RunStore.ReplacedStepsTied` | internal/ingestion/sqlite/runs.go:138-164 | deleting and reinserting one job's rows keeps the tables tied to the value with only that job's steps replaced |
| `Tables.ExecPrefix` | internal/ingestion/reconcile.go:101-113 | an aborted poll has made a prefix of its writes, and the store is what that prefix alone makes of it |
| `GithubClient.ListRecentRuns` | internal/ingestion/github/client.go:193-290 | 304 exactly for the non-empty ETag the server has now, failure exactly if the listing or a jobs request that is made fails, else one snapshot for each listed run: its columns the entry's own, a completion time exactly when completed, and its jobs unless stored and listed as completed with one conclusion |
| `GithubClient.SnapshotsAt` | internal/ingestion/github/client.go:249-290 | a listing can be answered exactly when every run is up to date or its jobs can be had, and then snapshot i is run i's |
| `ForgejoClient.ListRecentRuns` | internal/ingestion/forgejo/client.go:169-233 | every listed run with its columns, its own completion time and its jobs, whatever is stored; failure exactly if the listing or a jobs request fails |
| `Reconcile.Reconciler.StoreJobSnapshot` | internal/ingestion/reconcile.go:148-181 | two store calls, the second only if the first succeeded |
| `Reconcile.Reconciler.StoreRunSnapshot` | internal/ingestion/reconcile.go:118-146 | the run's row, then its jobs in order, stopping at the first error with what was written kept |
| `Reconcile.Reconciler.ReconcileRepo` | internal/ingestion/reconcile.go:66-116 | one poll under any storage faults: token, known runs, the repository's own client, snapshots in order, and the ETag only after all of them |
| `Reconcile.Reconciler.ReconcileAll` | internal/ingestion/reconcile.go:45-60 | the polls of all repositories in turn, one's failure not stopping the next |
| `Reconcile.PollAllSnoc` | internal/ingestion/reconcile.go:55-59 | polling one repository more is one more poll from the state the earlier ones left |
| `Columns.ForgejoFetchesAll` | internal/ingestion/reconcile.go:66-116 | a poll of a Forgejo repository leaves every listed run's row and all its jobs, a run stored as completed with the same conclusion included, whatever ETag is stored; the repositories and all other runs' rows stay |
| `Columns.GitHubFetchesNews` | internal/ingestion/reconcile.go:66-116 | a GitHub one not answered 304 leaves every listed run's row, and the jobs of each but those stored as completed with the conclusion listed; all else stays but the ETag, which is the answer's if it has one |
| `Columns.UnregisteredIsLeft` | internal/ingestion/reconcile.go:67-71 | a repository without a client is no error and writes nothing |
| `Columns.RunWritten` | internal/ingestion/sqlite/runs.go:65-101 | what a run write does to every column, and that it is refused exactly for an unknown repository |
| `Columns.JobWritten` | internal/ingestion/sqlite/runs.go:104-164 | likewise a job write, refused exactly without its run, and a step list, refused exactly without its job or with a number twice |
| `Columns.KnownReads` | internal/ingestion/sqlite/runs.go:33-62 | what a poll takes as known of a run is its stored status and conclusion |
| `Webhook.ProcessGitHubEvent` | internal/ingestion/webhook.go:41-50 | each delivery makes exactly its writes; a malformed one none and an error, another event none and no error |
| `Webhook.ProcessWorkflowRun` | internal/ingestion/webhook.go:93-122 | one run write, that of the delivery |
| `Webhook.ProcessWorkflowJob` | internal/ingestion/webhook.go:149-202 | a stub run, then the job, then its steps, each only after the one before |
| `Columns.RunDeliveryShows` | internal/ingestion/webhook.go:93-122 | a `workflow_run` delivery leaves a row with the event's own name, status, conclusion, start and page, the update time as completion time exactly when completed, and commit columns it lacks as they were; nothing else changes, and an unknown repository is an error |
| `Columns.JobDeliveryShows` | internal/ingestion/webhook.go:149-202 | a `workflow_job` delivery leaves a run in progress under the workflow's name with its commit columns as they were, and the job's own row and steps; nothing else changes |
| `Replay.RunReplayed` | internal/ingestion/sqlite/runs.go:65-101 | after any history a run row exists iff it was ever written; it holds the last write's status, conclusion and times and, of branch, SHA, message and actor, each one's last non-empty value |
| `Replay.JobReplayed` | internal/ingestion/sqlite/runs.go:104-164 | job rows and step lists are last-writer-wins, each on its own |
| `Replay.RepoReplayed` | internal/ingestion/sqlite/store.go:229-245 | repositories are neither added nor lost, and each holds the last ETag written for it |
| `Replay.StillAccepted` | internal/ingestion/reconcile.go:101-113 | writes accepted by a store are accepted by any store with more rows |
| `Replay.Idempotent` | internal/ingestion/reconcile.go:101-181 | storing any accepted list of writes a second time changes nothing |
| `PollCache.ExecListing` | internal/ingestion/reconcile.go:93-113 | a poll's writes go through exactly when every step list has distinct numbers, and then leave all snapshots absorbed and the ETag set |
| `PollCache.StoreJobsAt` | internal/ingestion/reconcile.go:139-143 | what storing a job list leaves at each key: the last snapshot of that id, or what was there |
| `PollCache.AbsorbAllAt` | internal/ingestion/reconcile.go:101-105 | storing a listing leaves at each job key what its own run's jobs leave, and other runs' jobs alone |
| `PollCache.MatchIsNoChange` | internal/ingestion/reconcile.go:148-181 | storing a run's jobs again changes nothing if and only if the stored ones already match |
| `PollCache.SkippingIsSafe` | internal/ingestion/github/client.go:249-290 | a poll answered in full leaves the store a poll without caches leaves, if and only if each skipped run's stored jobs match the forge's |
| `PollTraces.FrozenStep` | internal/ingestion/github/client.go:249-290 | if only the forge's finished runs stay as they are, a poll not answered 304 leaves what a cacheless poll leaves, and any poll keeps each stored completed run with the jobs it finished with |
| `PollTraces.SkippingStaysSafe` | internal/ingestion/reconcile.go:66-181 | so at every poll of every sequence of undisturbed polls of such a forge, whatever its ETags and its running runs do |
| `PollTraces.CachedStep` | internal/ingestion/reconcile.go:66-116 | one undisturbed poll of a forge whose ETag also stands for its whole answer equals the cacheless one, 304 or not, and keeps both caches sound |
| `PollTraces.CachesAreInvisible` | internal/ingestion/reconcile.go:66-181 | over every run of such polls, polling with both caches and with neither leave the same store |
| `PollTraces.NewlyTrackedIsSound` | internal/ingestion/reconcile.go:66-80 | a repository just tracked meets the invariant |
| `PollTraces.AbsorbedIsNoChange` | internal/ingestion/github/client.go:205-212 | storing an answer the store already holds, with its ETag, changes nothing |
| `PollLimits.NotModifiedIsSafe` | internal/ingestion/github/client.go:205-212 | a 304 changes nothing, and that is right if and only if the store has absorbed the whole answer |
| `PollLimits.CatchesUp` | internal/ingestion/github/client.go:284-290 | a poll answered in full stores every listed run's row, and brings a run's jobs up to the forge's if and only if it does not skip the run or they already matched |
| `PollLimits.JobsCaughtUp` | internal/ingestion/reconcile.go:66-116 | over any run of undisturbed polls that list a run as finished so, its jobs come to match the forge's if and only if they did already, or it was not stored as finished so and some poll is not a 304 |
| `PollLimits.SkippedForever` | internal/ingestion/github/client.go:288-290 | once stored as completed, a run's jobs are not touched by any number of polls, with any faults, while the forge lists it so |
| `PollFaults.FaultyPoll` | internal/ingestion/reconcile.go:101-105 | a poll under any fault script leaves each stored finished run with the jobs it finished with if and only if the one run it stopped in the middle of is unfinished or, by what was stored and how far it came, has them |
| `PollFaults.CutPoll` | internal/ingestion/reconcile.go:101-113 | the number of writes a poll makes under a fault script, and the rows and jobs these leave |
| `PollFaults.ExecTorn` | internal/ingestion/reconcile.go:139-181 | what the first n writes of a run's jobs leave, a job's row without its steps included |
| `PollLimits.MidPollErrorSticks` | internal/ingestion/reconcile.go:118-146 | a fault between a finished run's row and its first job loses the jobs for all later polls |
| `PollLimits.LostJobDeliveriesStick` | internal/ingestion/webhook.go:93-122 | a completion delivered after its job deliveries were lost leaves the run without jobs for all later polls |
| `PollLimits.JobDeliveryReopens` | internal/ingestion/webhook.go:155-166 | a job delivery resets an existing run's status, conclusion, times and page but not its commit columns or the stored ETag; a listing fetched afterwards does not count the run as up to date |
| `PollLimits.FinishNoticed` | internal/ingestion/github/client.go:205-225 | a poll that finds a run listed as completed stores it as completed unless it is answered 304, and then changes nothing |
| `PollLimits.ReopenedUntilAnswered` | internal/ingestion/webhook.go:155-166 | over any run of undisturbed polls that list the run as completed, a run reset by a job delivery is stored as completed again if and only if some answer's ETag is not the stored one |
| `PollLimits.StubSticks` | internal/ingestion/webhook.go:155-166 | while the forge's ETag is the stored one the run stays in progress over any number of polls with any faults |
| `PollLimits.SecondUnseen` | internal/ingestion/github/client.go:205-212 | two polls, the second a 304, leave what two cacheless polls leave if and only if the first left the second answer absorbed |
| `PollLimits.UnnamedAnswerLingers` | internal/ingestion/reconcile.go:107-109 | after an answer without an ETag, the 304 for the older answer is right if and only if the newer one left the older absorbed |
| `PollLimits.UnnamedStatusLingers` | internal/ingestion/reconcile.go:107-109 | it is wrong whenever a run has another status in the two |
| `PollLimits.RunningJobsGoUnseen` | internal/ingestion/github/client.go:205-212 | with finished runs kept, and the same list and ETag, a job a running run has gained is missed |
| `Interleaving.InvNext` | internal/ingestion/reconcile.go:66-181 | under every interleaving of store calls, faults and new tasks, the store is a replay of the log and each task has made exactly its first calls, in order |
| `Interleaving.EtagAfterSnapshots` | internal/ingestion/reconcile.go:101-113 | in every such run, an ETag is written only by a GitHub poll whose own earlier calls stored every snapshot of the listing it names |
| `Interleaving.StoredEtagIsEarned` | internal/ingestion/reconcile.go:82-113 | so a stored ETag that changed names a listing whose every run, and every job the poll fetched, had been stored before it |
| `Interleaving.RowsUnderInterleaving` | internal/ingestion/sqlite/runs.go:65-101 | a run row reads as its last writes say under every interleaving |
| `Interleaving.OlderPollOverwrites` | internal/ingestion/reconcile.go:101-113 | an earned ETag may sit on a row that a slower, older poll wrote over it, and then its answer is not absorbed |
| `Interleaving.PollIsATask` | internal/ingestion/reconcile.go:66-116 | a whole poll, as the reconciler makes it under any faults, continues any such run by one task with the same writes and the same store |
| `Interleaving.DeliveryIsATask` | internal/ingestion/webhook.go:41-50 | and so does a whole delivery |
| `Isolation.PolledAsIfAlone` | internal/ingestion/reconcile.go:45-60 | after `ReconcileAll` a repository's rows are what its own poll on the store before all polls, meeting the faults its turn met, would leave |
| `Isolation.UnlistedUntouched` | internal/ingestion/reconcile.go:45-60 | polls of other repositories leave a repository's rows alone |
| `Isolation.PollHere` | internal/ingestion/reconcile.go:66-116 | two stores that agree on a repository agree on it after its poll, and make the same writes |
| `Isolation.SnapshotsCommute` | internal/ingestion/reconcile.go:101-181 | snapshots of different runs can be stored in either order |
| `Recovery.MeanTimeToRecovery` | internal/metrics/insights.go:315-357 | the truncated mean length of all outages of all pipelines, each pipeline's successes and failures taken in some finishing order; none without an outage |
| `Recovery.Scan` | internal/metrics/insights.go:334-347 | the total is the sum of finish(j) - finish(i) over exactly the pairs i < j with all runs from i on failed until j, which succeeded, and none failed right before i; the count is the number of those pairs |
| `Recovery.MeanOfOutages` | internal/metrics/insights.go:315-357 | every value the mean can take is that one, for the finishing order it was taken in |
| `Recovery.DowntimeFits` | internal/metrics/insights.go:311-357 | no recovery time is negative, and a pipeline's recovery times fit between its first finish and its last, or the start of an outage still open |
| `Recovery.RecoveriesAreFew` | internal/metrics/insights.go:311-357 | recoveries are at most the successes, and at most the failures less one still open |
| `Recovery.MeanIsTruncated` | internal/metrics/insights.go:350-356 | the mean is the exact one rounded down and not negative |
| `Recovery.MeanIsWellDefined` | internal/metrics/insights.go:311-357 | it is the same for every order of the input, of the map and of ties, when no pipeline has opposite results at one finish time |
| `Recovery.OneReadingExactly` | internal/metrics/insights.go:329-347 | every order of finishing reads the same to the scan in every pipeline if and only if no pipeline has opposite results at one finish time |
| `Recovery.ClashMatters` | internal/metrics/insights.go:329-347 | in a window of just a failure and a success at one finish time the mean is zero or undefined, by the order |
| `Insights.StageDistribution` | internal/metrics/insights.go:379-403 | one entry for each step that failed, with its count and exact share, strictly ranked |
| `Insights.MostCommon` | internal/metrics/insights.go:462-475 | the most frequent key, the least of several, "" when there is none |
| `Insights.MostCommonUnique` | internal/metrics/insights.go:462-475 | it does not depend on the order of the map |
| `Insights.FailureGroups` | internal/metrics/insights.go:405-458 | one group for each step that failed: its count, most common conclusion, category and sorted pipelines, strictly ranked |
| `Insights.CollectFailures` | internal/metrics/insights.go:412-428 | the loop's accumulators hold each failed step's count, conclusions and pipelines |
| `InsightViews.CategoryBreakdown` | internal/metrics/insights.go:509-529 | each category's occurrences and exact share, strictly ranked |
| `InsightViews.TopFailingPipelines` | internal/metrics/insights.go:275-309 | exactly the pipelines with a failed run, with their runs and failed runs, strictly ranked |
| `InsightViews.PassRate` | internal/metrics/insights.go:252-273 | the rate times the concluded runs is the successes, in [0, 1]; undefined exactly when none concluded |
| `InsightViews.DistributionUnique` | internal/metrics/insights.go:379-403 | the distribution does not depend on the order of its map |
| `InsightViews.GroupsUnique` | internal/metrics/insights.go:405-458 | nor do the groups |
| `InsightViews.BreakdownUnique` | internal/metrics/insights.go:509-529 | nor the breakdown |
| `InsightViews.TopFailingUnique` | internal/metrics/insights.go:275-309 | nor the failing pipelines |
| `InsightViews.ViewsAgree` | internal/metrics/insights.go:379-458 | distribution and groups list the same steps with the same counts in the same order |
| `InsightViews.StageTotal` | internal/metrics/insights.go:379-403 | the distribution's counts sum to the failed step occurrences |
| `InsightViews.CategoryTotal` | internal/metrics/insights.go:509-529 | so do the categories' |
| `InsightViews.SharesSumToOne` | internal/metrics/insights.go:379-529 | both views' shares sum to exactly 1 unless nothing failed, and then both are empty |
| `InsightViews.FailedRunsTotal` | internal/metrics/insights.go:252-309 | the failed-run count is the sum over the failing pipelines |
| `Readings.DistributionReads` | internal/metrics/insights.go:379-403 | an entry counts the completed executions of its step that failed or timed out, its share times all of those is its count, every such step has one, and they come most failures first, then by name |
| `Readings.GroupReads` | internal/metrics/insights.go:405-475 | a group counts its step's failures, has their most frequent conclusion, the first in the alphabet of several, and lists exactly the pipelines they happened in, sorted |
| `Readings.GroupsListed` | internal/metrics/insights.go:405-458 | every step that failed has its group; most failures first, then by name |
| `Readings.CategoryReads` | internal/metrics/insights.go:509-529 | a category's occurrences are the sum over its groups, its share times all occurrences is that sum |
| `Readings.CategoriesListed` | internal/metrics/insights.go:509-529 | every group has its category; most occurrences first, then by name |
| `Readings.TopFailingReads` | internal/metrics/insights.go:275-309 | an entry counts its pipeline's runs and failed runs; every pipeline with a failed run has one; most failed runs first, then by repository and name |
| `Ordering.LessMeans` | internal/metrics/insights.go:399-401 | by name is by the first character that differs, a prefix before what it is a prefix of |
| `FailureInsights.SplitRuns` | internal/metrics/insights.go:196-208 | each run is in `current` if it started at the boundary or later and in `prior` if it started before, as often as it was given |
| `FailureInsights.WindowsAre` | internal/metrics/insights.go:196-208 | the current window is exactly the runs that started at the boundary or later, each as often as given and in the order given; the prior window those that started before it |
| `FailureInsights.OverviewReads` | internal/metrics/insights.go:210-242 | total, failed and passed runs are counts of the runs started in the window, and the change of the pass rate is against those started before it, in percentage points |
| `FailureInsights.WindowsPartition` | internal/metrics/insights.go:196-208 | the two hold every dated run exactly once |
| `FailureInsights.GetFailureInsights` | internal/metrics/insights.go:182-242 | total and failed runs count the runs that started at now - duration or later, and every other field means what its view means over the right window |
| `FailureInsights.ViewsAgreeThroughout` | internal/metrics/insights.go:223-234 | the overview's runs, steps, groups, categories and shares agree with each other |
| `FailureInsights.OverviewUnique` | internal/metrics/insights.go:182-242 | the whole overview is the same for every map order and tie break, when no pipeline has opposite results at one finish time |
| `StepMetrics.AggregateSteps` | internal/metrics/metrics.go:874-914 | one summary for each step name, longest first: average durations, failures over completed runs, flaky iff it both passed and failed among completed runs, and its first page |
| `StepMetrics.AccumulatesMore` | internal/metrics/metrics.go:844-869 | one more occurrence keeps an accumulator the sums, counts and flags of its occurrences |
| `StepReadings.FiguresRead` | internal/metrics/metrics.go:844-914 | a summary's failure count and rate, its flaky flag and its page, in the fields of its step's occurrences |
| `StepReadings.TimesRead` | internal/metrics/metrics.go:844-935 | its mean execution and queue time, times the occurrences that have both of the times, are the sum of those times; 0 without any |
| `StepReadings.SummariesListed` | internal/metrics/metrics.go:874-914 | each step that occurs has one summary, and the longest mean execution comes first |
| `StepMetrics.WithQuarantines` | internal/metrics/quarantine.go:39-47 | the mark on exactly the steps that have one, nothing else changed |
| `Flaky.MakeEntry` | internal/metrics/flaky.go:97-134 | an entry exactly for a step that passed and failed, with its rate, runs and last outcomes |
| `Flaky.RankFlakySteps` | internal/metrics/flaky.go:41-93 | the unpaged list: exactly the steps that passed and failed, each with its mark, strictly ranked |
| `Flaky.MatrixShowsLatest` | internal/metrics/flaky.go:98-125 | the matrix shows the last 40 outcomes, and everything left out started no later |
| `StepReadings.EntryReads` | internal/metrics/flaky.go:97-134 | an entry counts the completed runs of its step, and its rate times those is the runs that failed |
| `StepReadings.StepsListed` | internal/metrics/flaky.go:41-93 | a step is listed if and only if a completed run of it succeeded and another failed |
| `StepReadings.FlakyOrder` | internal/metrics/flaky.go:79-88 | highest rate first, then most runs, then by repository, pipeline and step name |
| `StepReadings.MatrixReads` | internal/metrics/outcome.go:25-47 | the matrix shows the last 40 of the step's runs by start, those without a start first, each by its conclusion or, without one, by its status |
| `Flaky.FlakyListUnique` | internal/metrics/flaky.go:80-88 | the ranking does not depend on the order of the map |
| `FlakyRatio.FlakyViewsAgree` | internal/metrics/metrics.go:874-914 | a step is in the flaky list exactly when its pipeline's summary marks it flaky, with the same rate and number of completed runs |
| `FlakyRatio.FlakyStepRatio` | internal/metrics/insights.go:481-502 | the steps that passed and failed and are not quarantined over the distinct (pipeline, step) pairs |
| `FlakyRatio.RatioAgrees` | internal/metrics/insights.go:481-502 | its numerator is the unquarantined entries of the flaky list |
| `StepReadings.RatioReads` | internal/metrics/insights.go:481-502 | the ratio times the distinct steps is those that passed and failed and have no mark |
| `Percentiles.PercentileIsLeast` | internal/metrics/metrics.go:947-957 | for 0 < p <= 1 the least element with at least ceil(p n) elements at or below it |
| `Percentiles.PercentileMonotone` | internal/metrics/metrics.go:947-957 | monotone in p, for every p |
| `Percentiles.PercentileOfAnyOrder` | internal/metrics/metrics.go:757-786 | it does not depend on the order of the unsorted durations |
| `Trends.WindowsTile` | internal/metrics/metrics.go:658-674 | for run count n, or 20 where it is not positive, the current window is the newest n runs, the prior one the n before, and nothing more was fetched; the steps query draws from exactly the current ones if and only if the run count is positive (or there is nothing to tell them apart) |
| `Trends.BucketRuns` | internal/metrics/metrics.go:822-831 | full buckets and one remainder that concatenate to the input |
| `Trends.DurationTrend` | internal/metrics/metrics.go:757-786 | parallel arrays of equal length, one point for each bucket with a duration |
| `Trends.FailureRateTrend` | internal/metrics/metrics.go:788-820 | parallel arrays of equal length, one point for each bucket with a completed run |
| `Trends.OverallFailureRate` | internal/metrics/metrics.go:707-723 | the rate times the completed runs is the completed runs that failed; 0 without any |
| `Trends.DurationTrendReads` | internal/metrics/metrics.go:757-786 | for runs as the store orders them, a duration trend's arrays have equal lengths, its times do not go back, and every P50 <= P90 |
| `Trends.RateTrendReads` | internal/metrics/metrics.go:788-820 | nor do a failure-rate trend's times |
| `Trends.MedianBelowNinetieth` | internal/metrics/metrics.go:757-786 | every bucket's point has P50 <= P90 |
| `Trends.TrendAccountsForAll` | internal/metrics/metrics.go:707-820 | the points' failed and completed counts sum to the overall rate's numerator and denominator |
| `Trends.DurationPercentile` | internal/metrics/metrics.go:736-755 | the p-th percentile of runs' durations is the shortest duration of a run with both its times that at least p of those runs do not exceed |
| `Trends.DurationPointReads` | internal/metrics/metrics.go:757-786 | a bucket has a point if and only if a run of it has both its times: its median, its ninetieth percentile and its last start |
| `Trends.RatePointReads` | internal/metrics/metrics.go:788-820 | and on the failure rate if and only if one is completed: the completed runs, the failed ones among them, and their last start |
| `Health.ComputeHealth` | internal/metrics/metrics.go:685-734 | a fifth of the completed runs failed; both windows have a ninetieth percentile other than 0 and the current one is at least half as long again; a flaky step: each gives its signal if and only if it holds, in this order, and healthy is having none |
| `Health.UnhealthyOf` | internal/metrics/metrics.go:639-653 | in order and as often as given, exactly the flaky steps without a mark and the steps that are not flaky with a failure rate above 0 |
| `Health.MoreMarksShowLess` | internal/metrics/metrics.go:639-653 | more marks show a subsequence of what fewer marks show, figures unchanged |
| `Health.MarksOnlyMute` | internal/metrics/quarantine.go:34-47 | more marks change no figure and can only take the flaky-step signal away |
| `QuarantineStore.Store.QuarantineStep` | internal/metrics/sqlite/quarantine.go:47-61 | a mark renews or replaces the step's mark and no other, for 30 days from now; an unknown repository fails |
| `QuarantineStore.Store.UnquarantineStep` | internal/metrics/sqlite/quarantine.go:64-73 | a clear removes the step's mark and no other |
| `QuarantineStore.Store.ActiveQuarantines` | internal/metrics/sqlite/quarantine.go:13-44 | after any marks and clears, a step is in force at now iff its last operation was a mark at t with now < t + 30 days |
| `QuarantineStore.LastOpMeans` | internal/metrics/sqlite/quarantine.go:47-73 | a step's last operation is the one on it that no other follows, if there is any |
| `Paging.ListPipelines` | internal/metrics/sqlite/store.go:70-100 | up to limit of the matches from the offset on, and whether another exists; without a limit all of them |
| `Paging.PagingCommutes` | internal/metrics/metrics.go:330-354 | paging in the store, then summarising, is summarising everything, then `paginate`, with the same hasMore, if and only if there is a limit or nothing to skip |
| `Paging.WalkReadsAll` | internal/metrics/pipelinelist.go:113-123 | pages turned until hasMore is false read the whole list, each element once, in order |
| `Paging.UnhealthyStepsPage` | internal/metrics/metrics.go:539-547 | the slicing written out there is `paginate` for offsets that are not negative |
| `Paging.ListAcrossPipelines` | internal/metrics/pipelinelist.go:59-94 | the page of the filtered, possibly sorted, whole list |
| `Paging.TiesKeepStoreOrder` | internal/metrics/pipelinelist.go:83-89 | sorted by last run, and pipelines that last ran at one instant keep the store's order |
| `Paging.ArrangedReads` | internal/metrics/pipelinelist.go:62-111 | the list before paging is exactly the pipelines with the health asked for; by last run, the latest comes first and those without a run last |
| `Paging.StoreOrderKept` | internal/metrics/pipelinelist.go:62-81 | unsorted it keeps the store's order |
| `Paging.PageReads` | internal/metrics/pipelinelist.go:113-123 | a page is the list from the offset on, up to the limit if there is one, and more follow if and only if that is not its end |
| `PipelineId.DecodeEncode` | internal/metrics/metrics.go:62-67 | unpadded base64url decoding undoes encoding, for all bytes (sections 3.2 and 5 of RFC 4648) |
| `PipelineId.WholeGroups` | internal/metrics/metrics.go:62-67 | each three bytes are one number of 24 bits, spelt in four digits of the URL-safe alphabet |
| `PipelineId.LastGroup` | internal/metrics/metrics.go:62-67 | one or two bytes left over are spelt in two or three digits, without padding |
| `PipelineId.DecodeFails` | internal/metrics/metrics.go:74-79 | an id fails to decode if and only if it holds a foreign character or, line ends apart, one character more than whole groups |
| `PipelineId.ParseID` | internal/metrics/metrics.go:62-86 | an id always parses, and to its own reference if and only if the repository id holds no NUL |
| `PipelineId.ParseReads` | internal/metrics/metrics.go:74-86 | an id that decodes parses if and only if it holds a NUL, and the repository id is what comes before the first |
| `PipelineId.IDsDistinct` | internal/metrics/metrics.go:62-67 | such references have distinct ids |
| `PipelineId.ManySpellings` | internal/metrics/metrics.go:74-86 | every reference's id has another spelling that parses to the same |
| `JobLog.FinishLine` | internal/ingestion/github/joblog.go:126-134 | the trimming loop removes a trailing CR, or at most one byte at the bound |
| `JobLog.ShownBounds` | internal/ingestion/github/joblog.go:105-134 | a shown line is a prefix of its line of at most 4096 bytes, at most one byte short of the cut, and says why it is short |
| `JobLog.CutKeepsRunes` | internal/ingestion/github/joblog.go:126-134 | a well-formed line is cut on a rune boundary if and only if at most one byte of a broken rune is left at the bound (sections 3 and 4 of RFC 3629) |
| `JobLog.EncodedIsRune` | internal/ingestion/github/joblog.go:126-134 | the bytes of every Unicode scalar value are one rune, whatever follows them (section 3 of RFC 3629) |
| `JobLog.RuneIsEncoded` | internal/ingestion/github/joblog.go:126-134 | and every rune is the bytes of a scalar value |
| `JobLog.ShownReads` | internal/ingestion/github/joblog.go:105-134 | a shown line is its line up to 4096 bytes, less a CR at the end of that, or less one byte if those are 4096 and not UTF-8 |
| `JobLog.ReadLogLine` | internal/ingestion/github/joblog.go:107-124 | the next line's fragments joined, cut and trimmed; end or error with a half-read line discarded |
| `JobLog.KeepTail` | internal/ingestion/github/joblog.go:73-103 | the last n lines in order, truncated iff there were more; an error other than the end fails it |
| `JobLog.TailLines` | internal/ingestion/github/joblog.go:73-103 | the last n lines, at least one, of the first 64 MiB of the log; truncated iff there were more; an error before that fails it, an error past it is unseen |
| `JobLog.LinesAreRecords` | internal/ingestion/github/joblog.go:105-124 | for every buffer size the lines are the text split at line feeds, short of an unended last line exactly when the stream ends on a full buffer of it |
| `JobLog.RecordsRead` | internal/ingestion/github/joblog.go:105-124 | that split: a line ends at a line feed and loses one CR before it, and what follows the last line feed is a line if there is any of it |
| `JobLog.EndedLogInFull` | internal/ingestion/github/joblog.go:73-103 | a log within the cap that ends in a line feed is read in full |
| `JobLog.DroppedLines` | internal/ingestion/github/joblog.go:110-123 | an unended last line is dropped if and only if the stream's end takes a read of its own and the line fills each of its buffers to the brim, a buffer's trailing CR left to the next |
| `JobLog.DroppedLengths` | internal/ingestion/github/joblog.go:110-123 | without CRs these are exactly the lines a whole number of buffers long |
| `JobLog.FlagWithinCap` | internal/ingestion/joblog.go:33-38 | within the cap, truncated means that the log has more lines than returned if and only if no last line was dropped or the log has at least two more lines than wanted |
| `JobLog.FlagPastCap` | internal/ingestion/github/joblog.go:17-20 | past the cap the flag is set if and only if more lines than wanted begin before it, a dropped last one apart, and is right if and only if that is so or only the rest of a line read in part lies past the cap |
| `JobLog.LongLineVanishes` | internal/ingestion/github/joblog.go:17-20 | a log past the cap whose first 64 MiB hold neither a line feed nor a CR is answered with no lines and not marked truncated |
| `Ansi.ControlSequences` | web/src/lib/ansi.ts:51-53 | the pattern takes a control sequence exactly where one stands, with no other length possible (section 5.4 of ECMA-48) |
| `Ansi.Commands` | web/src/lib/ansi.ts:51-53 | and an operating system command exactly where one stands, the longest there, its terminator if it has one |
| `Ansi.ApplySgr` | web/src/lib/ansi.ts:59-87 | the index loop is the fold of its codes, operands of extended colours skipped; what a code does to the style is stated in `Sgr` |
| `Ansi.OperandsSkipped` | web/src/lib/ansi.ts:79-83 | an extended colour and its operands, whatever they are, leave the style alone (section 8.3.117 of ECMA-48) |
| `Ansi.OperandsMissing` | web/src/lib/ansi.ts:79-83 | with too few operands it still leaves the style alone, and what does not start operands is read as a code |
| `Sgr.NumberReads` | web/src/lib/ansi.ts:61 | a parameter is the number it writes in decimal, with any zeros in front; an empty one is 0 |
| `Sgr.NumbersAreDigits` | web/src/lib/ansi.ts:61 | and it is no number if and only if it holds anything but digits |
| `Sgr.CodesOfPieces` | web/src/lib/ansi.ts:61 | the codes are the numbers of the pieces between semicolons and colons, one for each |
| `Sgr.TextHasPieces` | web/src/lib/ansi.ts:61 | and every parameter text is made of such pieces |
| `Sgr.WeightApplied` | web/src/lib/ansi.ts:66-72 | without extended colours, what follows a sequence is bold if the last of its parameters 0, 1 and 22 is 1, not bold if it is 0 or 22, and as before if there is none |
| `Sgr.ColourApplied` | web/src/lib/ansi.ts:66-78 | its colour is that of the last of the parameters 0, 30 to 37, 39 and 90 to 97, each of the sixteen by its own number, none for 0 and 39 |
| `Sgr.ColourKept` | web/src/lib/ansi.ts:66-78 | and as before if there is none of them |
| `Sgr.CodesAppend` | web/src/lib/ansi.ts:64-84 | codes before an extended colour act as if nothing followed them |
| `Ansi.ParseLine` | web/src/lib/ansi.ts:89-113 | the segments show each visible unit in the style of all SGR sequences before it, and `Sgr` says unit by unit what that is; none is empty; the style returned is the fold of them all |
| `Ansi.ParseAnsiLines` | web/src/lib/ansi.ts:117-126 | so for every line, started in the fold of all SGR sequences of all earlier lines |
| `Sgr.TextShown` | web/src/lib/ansi.ts:97-108 | text without an escape shows its visible units in the style it starts in |
| `Sgr.VisibleAppends` | web/src/lib/ansi.ts:55-57 | all of a text is visible but units below 0x20 other than tab, and 0x7f |
| `Sgr.ControlShown` | web/src/lib/ansi.ts:51-110 | a control sequence shows nothing, and what follows is in the style its parameters give if it ends in m with nothing in between, else in the style before |
| `Sgr.CommandShown` | web/src/lib/ansi.ts:51-53 | an operating system command, ended by BEL, ESC and a backslash, another escape or the line's end, shows and changes nothing |
| `Sgr.PairShown` | web/src/lib/ansi.ts:51-53 | any other escape takes one unit along and changes nothing; a last one alone is dropped |
| `Sgr.SegmentsShow` | web/src/lib/ansi.ts:94-103 | segments show their texts one after the other, each in its own colour and weight |
| `Sgr.StylesCarried` | web/src/lib/ansi.ts:117-126 | the first line starts plain, every other in the style the one before it ends in |
| `Sgr.RenditionsFold` | web/src/lib/ansi.ts:104-112 | that style being the line's SGR sequences applied one after the other |
| `Ansi.TextsJoinUp` | web/src/lib/ansi.ts:94-110 | segment texts join up to the line minus every escape sequence and control character |
| `Ansi.CleanIsPrintable` | web/src/lib/ansi.ts:55-57 | nothing shown is a control character other than tab |
| `Ansi.LinesAppend` | web/src/lib/ansi.ts:115-126 | parsing a then b is parsing a, then b from a's final style |
| `Readyz.Handler.Probe` | internal/httpserver/server.go:204-218 | a verdict less than a ttl old is answered as it is; otherwise the probe's verdict and its end are kept |
| `Readyz.Handler.Serve` | internal/httpserver/server.go:220-244 | 503 when draining, 200 without a probe, else by the verdict; a request that does not probe leaves the cache as it is |
| `Readyz.AloneAsServed` | internal/httpserver/server.go:204-244 | with no other request about, the side-by-side system serves a request as the handler does |
| `Readyz.InvKept` | internal/httpserver/server.go:198-218 | every step of every interleaving keeps starts a ttl apart, answers justified and late requests out |
| `Readyz.ProbeRate` | internal/httpserver/server.go:204-218 | in any span T at most floor(T / ttl) + 1 probes start, whatever the requests do |
| `Readyz.AnswersAreJustified` | internal/httpserver/server.go:210-244 | every shared verdict answered is one a probe gave less than a ttl before it was looked up, however long the answer then took to write |
| `Readyz.DrainedAnswers` | internal/httpserver/server.go:221-225 | once the flag is up, every request that comes is for a 503 at once, which is what it is answered, and never starts a probe |
| `Readyz.DrainTakesHold` | internal/httpserver/server.go:204-244 | from a state with the flag up, every later answer is 503 in every continuation if and only if no request waits for the lock, holds it, or is past both with a 200 to write; no probe starts any more if and only if none waits |
| `Readyz.RunsGoOn` | internal/httpserver/server.go:198-244 | the continuations of a state of a run are the rests of runs through it |
| `Readyz.DrainFindsOneWaiting` | internal/httpserver/server.go:220-234 | a run can come to the flag being up while a request waits |
| `Readyz.DrainFindsOneLeaving` | internal/httpserver/server.go:220-243 | and to it being up while nobody waits or holds the lock and a 200 is still to be written, with a probe as without one |

## Left out

- Interleaving inside one store call: finding a row and writing it is one step, as is a transaction.
- Row ids of steps, and the text of the others: an id is a number never given before, where the program draws a UUID.
- Decoding of payloads (JSON, times, first lines, repository identifiers): the forge's answers and the deliveries arrive decoded; a jobs request that fails is a run with no entry. A run's jobs are those its one jobs request lists; the client asks for no further page.
- The server's side of a conditional request: it answers 304 exactly when sent the non-empty ETag it has now. HTTP statuses other than 200 and 304 are one failed answer.
- The Forgejo client's requests: a 404 for a listing is an empty listing here, as it is for the client, and an entry's name and actor arrive decoded.
- A Forgejo delivery: a push has its repository polled, as any poll does it, and any other event does nothing.
- Deleting a repository, and adding one while a poll runs: the set of repositories is fixed.
- PollTraces.CachesAreInvisible: takes the forge's finished runs as frozen, and its ETags as standing for the jobs of running runs too, which a run list's ETag need not; `PollTraces.SkippingStaysSafe` does without the second, and `PollLimits.RunningJobsGoUnseen` shows that equality over a 304 cannot.
- PollLimits.UnnamedAnswerLingers: compares two polls, the first of which skipped only runs whose jobs match.
- Interleaving.StoredEtagIsEarned: jobs of runs the poll skipped are not among those stored before the ETag, and what was stored may have been overwritten since; `PollLimits.NotModifiedIsSafe` says exactly when a 304 is harmless.
- Isolation.SnapshotsCommute: up to internal ids, which the value of the store does not mention.
- Floating point: rates, shares, averages and percentile positions are exact reals, so a rank that rounding would move is not modelled. Integers and durations are unbounded.
- `CategorizeFailure`: any function of step and conclusion.
- SQL text, and the filters by repository, forge and branch: queries are modelled by the rows they select, in order; `Paging.ListPipelines` takes the ordered matches as given.
- Accumulators shared through pointers (`stepAcc`, the failure groups): maps hold their values and are updated in the loop.
- StepMetrics.AggregateSteps: steps of equal duration may come in any order, as in the program, whose sort is not stable.
- Paging.UnhealthyStepsPage: negative offsets are excluded; the slicing written out there would be out of range.
- JobLog.TailLines: a read error reported along with the very byte that reaches the cap is not modelled; past the cap the stream just ends.
- The buffered reader in `JobLog`: the standard library's documented behaviour, for any buffer of at least 16 bytes.
- Readyz.ProbeRate: the clock does not go back; the probe's own timeout and the log line are not modelled.
- `GetRepoUsage`, `ListFlakyRuns`, `GetRunSteps` and the other per-run views: loops of the kinds proved here, adding easier members.
- HTTP and MCP handlers, authentication, token storage, settings and the user interface.
