# Stuck-job watchdog

This project models the watchdog in `convex/monitoring.ts` of the BrightData scraping app. It has two parts.

- **Timeout policy.** `TIMEOUTS` gives each non-terminal job state a time limit: `pending` 10 minutes, `running` 30 minutes, `analyzing` 45 minutes.
- **Sweep.** The `checkStuckJobs` mutation runs one pass over the `scrapingJobs` table:
  - It reads the clock once, then visits the policy entries in insertion order.
  - For each state it queries the jobs in that state created strictly before `now - timeout`.
  - It patches each such job to `failed`, with `completedAt = now` and an error message. The message names the job's age in whole minutes (`Math.round`) and the state it was stuck in.
  - It returns `failedJobs`, the number of jobs patched, and `checkedStatuses`, one `state:count` string for each state that had matches.

The model has five modules.

- `Options` holds the optional-value datatype.
- `Text` renders natural numbers in decimal, as template literals do, and parses them back.
- `Monitoring` describes everything as values:
  - the policy table, the stuck-job test, the age rounding, the message text and its parser;
  - the summary entries and their parser;
  - `Sweep`, a reference definition of what one pass does to the table, independent of visiting order;
  - the functions that describe a pass part-way through the table (`StuckBefore`, `RemediateAll`, `EntriesBefore`).
- `Store` holds the table as a class `JobTable` with a `map<JobId, Job>` field that its methods update in place. `CheckStuckJobs` mirrors the handler's two nested loops and is proved to:
  - leave the table equal to `Sweep`;
  - return the number of stuck jobs;
  - return the `checkedStatuses` list that `CheckedStatuses` describes.

`Scenarios` works through small example tables.

The clock read `Date.now()` is a parameter of `CheckStuckJobs`. Times are integer epoch milliseconds. `Math.round((now - createdAt) / 1000 / 60)` becomes `(now - createdAt + 30000) / 60000`: the nearest minute, with halves rounded up, as `Math.round` does.

## Model

| member | source | states |
|---|---|---|
| Monitoring.TimeoutOf | convex/monitoring.ts:12-16 | `TIMEOUTS[s]`: the timeout of the entry for s in `Timeouts`, the table's entries as a sequence in insertion order; absent exactly for completed and failed |
| Monitoring.PolicyTable | convex/monitoring.ts:12-16 | pending, running and analyzing time out after exactly 600000, 1800000 and 2700000 ms; completed and failed have no timeout |
| Monitoring.Rank | convex/monitoring.ts:12-16 | the position of a state in the table is the first entry naming it, or past the end when no entry does |
| Monitoring.PolicyEntry | convex/monitoring.ts:34 | walking the table in insertion order visits each entry's state at its own position, with its own timeout, and never a terminal state |
| Monitoring.StatusNamed | convex/monitoring.ts:44-46 | a name is read as a state only if it spells that state |
| Monitoring.StatusNamedName | convex/monitoring.ts:44-46 | every state's name reads back as that state and contains no `:` |
| Monitoring.IsStuck | convex/monitoring.ts:34-48 | a job is stuck at `now` when its state has a timeout and its `createdAt` is strictly below `now - timeout` |
| Monitoring.StuckOnlyWhenTimed | convex/monitoring.ts:34-49 | only states that are keys of the table are ever selected; completed and failed jobs never are, whatever their age |
| Monitoring.CutoffIsStrict | convex/monitoring.ts:35-49 | a job created 1 ms before `now - timeout` is selected; a job created at or after the cutoff is not |
| Monitoring.Matching | convex/monitoring.ts:40-49 | the query result: every record of the table in the given state whose `createdAt` is strictly below the cutoff, keyed by its id and unchanged |
| Monitoring.StuckAtIsStuckIn | convex/monitoring.ts:40-49 | the query for a table entry returns exactly the stuck jobs in that entry's state, unchanged |
| Monitoring.AgeMinutes | convex/monitoring.ts:59 | `ageMinutes` is the age rounded to the nearest minute, halves up: within half a minute of the age in ms |
| Monitoring.AgeAtLeastTimeout | convex/monitoring.ts:48-59 | a selected job's `ageMinutes` is at least its state's timeout in whole minutes |
| Monitoring.TimeoutMessage | convex/monitoring.ts:62 | the error text `Job timed out after <ageMinutes> minutes in "<state>" status.` followed by the fixed explanation sentence |
| Monitoring.TimeoutMessageRoundTrip | convex/monitoring.ts:62 | the error text can be read back to the age in minutes and the state it names |
| Monitoring.Remediate | convex/monitoring.ts:59-64 | the record a patch leaves: status failed, error the timeout message for the rounded age and the former state, `completedAt = now`, every other field kept |
| Monitoring.RemediationRecord | convex/monitoring.ts:58-64 | a patched job is failed, keeps its `createdAt`, has `completedAt = now`, and its error reads back as its rounded age and former state |
| Monitoring.Sweep | convex/monitoring.ts:34-71 | the table after a pass, independent of visiting order: every stuck job replaced by its patched record, every other job as it was |
| Monitoring.SweepTransitions | convex/monitoring.ts:34-64 | a pass keeps the same set of job ids; a job changes if and only if it is stuck; a stuck job becomes its remediated record; every other job keeps all its fields |
| Monitoring.RemediatedStayFailed | convex/monitoring.ts:61-63 | a job a pass patched has `completedAt` equal to that pass's `now`, and no later pass at any time selects or changes it again |
| Monitoring.SweepIdempotent | convex/monitoring.ts:34-64 | after a pass no job is stuck at the same `now`, and a second pass changes nothing |
| Monitoring.StuckBeforeStep | convex/monitoring.ts:34-49 | the entries visited so far select the earlier matches plus this entry's matches, and the two sets are disjoint |
| Monitoring.QueryAfterEarlierEntries | convex/monitoring.ts:34-64 | patching the earlier entries' jobs does not change what the query for a later entry returns |
| Monitoring.PatchOne | convex/monitoring.ts:58-64 | patching one more job of a snapshot, with the message built from its age and state, extends the remediated set by that job |
| Monitoring.RemediateEntry | convex/monitoring.ts:58-69 | patching an entry's matches on top of the earlier entries' gives the table after that entry |
| Monitoring.PassStep | convex/monitoring.ts:34-70 | one turn of the outer loop moves the table, the number of stuck jobs visited and the entries list from their values before entry i to their values after it |
| Monitoring.SweepInTableOrder | convex/monitoring.ts:34-71 | visiting all entries in table order selects exactly the stuck jobs and leaves the table equal to the reference sweep |
| Monitoring.StuckBeforeSize | convex/monitoring.ts:65 | each entry adds its own number of matches to the running failed count |
| Monitoring.Entry | convex/monitoring.ts:52 | one `checkedStatuses` string: the state's name, a `:`, and the decimal count |
| Monitoring.EntryRoundTrip | convex/monitoring.ts:52 | a `state:count` entry reads back as its state and count |
| Monitoring.LastEntry | convex/monitoring.ts:51-52 | the entry written for a table entry names that state and its number of stuck jobs, and parses |
| Monitoring.EntriesSum | convex/monitoring.ts:51-65 | the counts written so far add up to the number of stuck jobs in the states visited so far |
| Monitoring.EntriesParse | convex/monitoring.ts:51-52 | every entry written so far parses, names a visited state, and carries that state's positive number of stuck jobs |
| Monitoring.ListedStep | convex/monitoring.ts:51-52 | a table entry adds its state to the states named so far exactly when its query matched at least one job |
| Monitoring.EntriesListed | convex/monitoring.ts:34-52 | a state is named so far if and only if it was visited and had at least one match |
| Monitoring.EntriesOrdered | convex/monitoring.ts:34-52 | the entries follow the table's order, each state at most once |
| Monitoring.CheckedStatuses | convex/monitoring.ts:31-71 | the `checkedStatuses` of a pass: for each table entry in order whose query matched, one entry with its state and number of matches |
| Monitoring.FailedJobsIsSumOfEntries | convex/monitoring.ts:51-80 | the sum of the counts in `checkedStatuses` equals the number of stuck jobs, which is `failedJobs` |
| Monitoring.CheckedStatusesDescribeMatches | convex/monitoring.ts:31-52 | `checkedStatuses` has one parsable entry for each state with matches and none for a state without, each with that state's count, in policy order |
| Monitoring.QuietEntries | convex/monitoring.ts:51-52 | with no stuck job, no entry is written |
| Monitoring.SecondPassReportsNothing | convex/monitoring.ts:28-83 | a second pass at the same `now` finds no stuck job and reports an empty `checkedStatuses` |
| Text.Show | convex/monitoring.ts:62 | the decimal numeral of a number is a non-empty string of digits with no leading zero |
| Text.ParseShow | convex/monitoring.ts:52 | a numeral parses back to its number |
| Store.JobTable.Patch | convex/monitoring.ts:60-64 | `ctx.db.patch` sets status, error and completedAt of one existing record and leaves every other field and record as it was |
| Store.JobTable.FailJob | convex/monitoring.ts:59-64 | one turn of the inner loop patches the next job of the snapshot, so that one more job is remediated |
| Store.JobTable.FailStuckJobs | convex/monitoring.ts:58-69 | the inner loop patches every job of the snapshot and adds one to the failed count per job |
| Store.JobTable.CheckStatus | convex/monitoring.ts:35-70 | the query for one state returns its stuck jobs; all of them are patched; the count grows by their number |
| Store.JobTable.CheckStuckJobs | convex/monitoring.ts:28-83 | after a pass the table equals the reference sweep; `failedJobs` is the number of stuck jobs; `checkedStatuses` is the summary list described above |
| Scenarios.PendingJobTimesOut | convex/monitoring.ts:28-83 | a pending job swept 11 minutes after creation is failed at that time with an "11 minutes in \"pending\"" message, and a pass 5 minutes later finds nothing |
| Scenarios.RunningJobBelowTimeout | convex/monitoring.ts:35-49 | a running job 25 minutes old is left untouched |
| Scenarios.RunningJobPastTimeout | convex/monitoring.ts:35-64 | the same job 31 minutes old is failed, completed at that pass's time |
| Scenarios.LateTableMatches | convex/monitoring.ts:35-49 | in a table of three running jobs aged 31, 35 and 40 minutes and one analyzing job aged 50 minutes, all four are stuck: none pending, three running, one analyzing |
| Scenarios.RunningAndAnalyzingPass | convex/monitoring.ts:28-83 | a pass over that table fails four jobs and reports `["running:3", "analyzing:1"]` |

## Left out

- The cron registration (`cronJobs`, `cron.interval` every 5 minutes, convex/monitoring.ts:86-95) is scheduler infrastructure.
- `Date.now()` is a parameter of `CheckStuckJobs` rather than a clock read.
- The `console.log` lines are observability output only and carry no state.
- The Convex framework is replaced by an in-memory table and the pure query function `Matching`. This covers the `internalMutation` wrapper, the return validator, `async`/`await`, and the `ctx.db` query, index, filter, collect and patch API. The `by_status` index changes only the order of the query's results.
- Store.JobTable.FailStuckJobs: visits the snapshot's jobs in an unspecified order rather than the index order. The final table does not depend on the order: every order yields the reference sweep.
- Concurrency, overlapping passes, store atomicity and transient store failures are not modelled. The model is a single sequential pass.
- Job fields other than status, createdAt, completedAt and error are not modelled. The table schema is not part of this model; the fields left out are neither read nor written by the pass.
- Times are exact integers, not JavaScript doubles. This is exact for integer millisecond timestamps below 2^53, where `/ 1000 / 60` followed by `Math.round` gives the same minute as the integer formula.
- next.config.ts is build configuration and is not part of this model.
