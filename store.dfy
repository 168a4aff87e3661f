/**
 * The `checkStuckJobs` mutation of convex/monitoring.ts over an in-memory
 * `scrapingJobs` table, proved against the reference sweep of the Monitoring module.
 */
module Store {
  import opened Options
  import opened Monitoring

  /** Taking one element out of a set leaves one fewer. */
  lemma RemoveOne<T>(s: set<T>, x: T)
    requires x in s
    ensures |s - {x}| == |s| - 1
  {
  }

  /** What one pass reports. */
  datatype SweepSummary = SweepSummary(failedJobs: nat, checkedStatuses: seq<string>)

  /** The `scrapingJobs` table: job records keyed by their store-assigned id. */
  class JobTable {
    var jobs: map<JobId, Job>

    constructor (initial: map<JobId, Job>)
      ensures jobs == initial
    {
      jobs := initial;
    }

    /** `ctx.db.patch`: overwrites the given fields of one existing record, keeping the others. */
    method Patch(id: JobId, status: Status, error: string, completedAt: int)
      requires id in jobs
      modifies this
      ensures jobs == old(jobs)[id := old(jobs)[id].(status := status, error := Some(error), completedAt := Some(completedAt))]
    {
      jobs := jobs[id := jobs[id].(status := status, error := Some(error), completedAt := Some(completedAt))];
    }

    /**
     * One round of the inner loop: marks job id of the snapshot failed, with
     * the age in minutes and the state it was found in, at time now. Ghost
     * start and done are the table before the loop and the ids marked so far.
     */
    method FailJob(ghost start: map<JobId, Job>, stuckJobs: map<JobId, Job>, status: Status, now: int,
                   ghost done: set<JobId>, id: JobId)
      requires IsSnapshot(start, stuckJobs, status, now)
      requires id in stuckJobs && id !in done
      requires jobs == RemediateAll(start, now, done)
      modifies this
      ensures jobs == RemediateAll(start, now, done + {id})
    {
      var job := stuckJobs[id];
      var ageMinutes := AgeMinutes(now, job.createdAt);
      PatchOne(start, stuckJobs, status, now, done, id);
      Patch(id, Failed, TimeoutMessage(ageMinutes, status), now);
    }

    /**
     * Marks every job of a query snapshot as failed, as the inner loop of a
     * pass does, adding one to the pass's failed count for each.
     */
    method FailStuckJobs(stuckJobs: map<JobId, Job>, status: Status, now: int, failedBefore: nat)
      returns (failedJobsCount: nat)
      requires IsSnapshot(jobs, stuckJobs, status, now)
      modifies this
      ensures failedJobsCount == failedBefore + |stuckJobs|
      ensures jobs == RemediateAll(old(jobs), now, stuckJobs.Keys)
    {
      ghost var start := jobs;
      failedJobsCount := failedBefore;
      var remaining := stuckJobs.Keys;
      ghost var done: set<JobId> := {};
      while remaining != {}
        invariant remaining <= stuckJobs.Keys
        invariant done == stuckJobs.Keys - remaining
        invariant failedJobsCount + |remaining| == failedBefore + |stuckJobs|
        invariant jobs == RemediateAll(start, now, done)
        decreases remaining
      {
        var id :| id in remaining;
        FailJob(start, stuckJobs, status, now, done, id);
        failedJobsCount := failedJobsCount + 1;
        RemoveOne(remaining, id);
        remaining := remaining - {id};
        done := done + {id};
      }
      assert done == stuckJobs.Keys;
    }

    /**
     * The body of a pass for one table entry: query the jobs left in status
     * since before the cutoff, mark each failed, and report how many there
     * were together with the pass's failed count after them.
     */
    method CheckStatus(status: Status, timeoutMs: nat, now: int, failedBefore: nat)
      returns (stuckCount: nat, failedJobsCount: nat)
      requires TimeoutOf(status) == Some(timeoutMs)
      modifies this
      ensures stuckCount == |Matching(old(jobs), status, now - timeoutMs)|
      ensures failedJobsCount == failedBefore + stuckCount
      ensures jobs == RemediateAll(old(jobs), now, Matching(old(jobs), status, now - timeoutMs).Keys)
    {
      var cutoffTime := now - timeoutMs;
      var stuckJobs := Matching(jobs, status, cutoffTime);
      stuckCount := |stuckJobs|;
      failedJobsCount := failedBefore;
      if stuckCount > 0 {
        failedJobsCount := FailStuckJobs(stuckJobs, status, now, failedBefore);
      } else {
        assert RemediateAll(jobs, now, {}) == jobs;
      }
    }

    /**
     * One pass of the watchdog at clock value now: every stuck job is marked
     * failed, nothing else changes, and the summary counts the jobs marked and
     * lists `state:count` for each state that had any, in table order.
     */
    method CheckStuckJobs(now: int) returns (summary: SweepSummary)
      modifies this
      ensures jobs == Sweep(old(jobs), now)
      ensures summary.failedJobs == |StuckIds(old(jobs), now)|
      ensures summary.checkedStatuses == CheckedStatuses(old(jobs), now)
    {
      ghost var start := jobs;
      var failedJobsCount: nat := 0;
      var checkedStatuses: seq<string> := [];
      for i := 0 to |Timeouts|
        invariant jobs == RemediateAll(start, now, StuckBefore(start, now, i))
        invariant failedJobsCount == |StuckBefore(start, now, i)|
        invariant checkedStatuses == EntriesBefore(start, now, i)
      {
        var status := Timeouts[i].0;
        var timeoutMs := Timeouts[i].1;
        PolicyEntry(i);
        ghost var current := jobs;
        var stuckCount;
        stuckCount, failedJobsCount := CheckStatus(status, timeoutMs, now, failedJobsCount);
        PassStep(start, now, i, current, jobs, stuckCount);
        if stuckCount > 0 {
          checkedStatuses := checkedStatuses + [Entry(status, stuckCount)];
        }
      }
      SweepInTableOrder(start, now);
      summary := SweepSummary(failedJobsCount, checkedStatuses);
    }
  }
}
