/**
 * Worked passes of the watchdog on small tables, stated against the
 * reference sweep and the summary functions of the Monitoring module.
 */
module Scenarios {
  import opened Options
  import opened Monitoring

  /**
   * A pending job created at t0 and swept 11 minutes later is failed at that
   * time with an 11-minute timeout message; a pass 5 minutes after that finds
   * nothing to do.
   */
  lemma PendingJobTimesOut(t0: int)
    ensures var jobs := map[7 := Job(Pending, t0, None, None)];
      var after := Sweep(jobs, t0 + 11 * MinuteMs);
      && after == map[7 := Job(Failed, t0, Some(t0 + 11 * MinuteMs), Some(TimeoutMessage(11, Pending)))]
      && StuckIds(after, t0 + 16 * MinuteMs) == {}
    ensures TimeoutMessage(11, Pending) == MessageHead + "11" + MessageMiddle + "pending" + MessageTail
  {
    var jobs := map[7 := Job(Pending, t0, None, None)];
    var now := t0 + 11 * MinuteMs;
    PolicyTable();
    assert AgeMinutes(now, t0) == 11;
    assert Text.Show(11) == "11" by {
      assert Text.Show(1) == "1";
    }
    SweepTransitions(jobs, now, 7);
    var after := Sweep(jobs, now);
    StuckOnlyWhenTimed(after[7], t0 + 16 * MinuteMs);
  }

  /** A running job 25 minutes old is left alone by a pass. */
  lemma RunningJobBelowTimeout(t0: int)
    ensures var jobs := map[3 := Job(Running, t0, None, None)];
      Sweep(jobs, t0 + 25 * MinuteMs) == jobs
  {
  }

  /** The same job 31 minutes old is failed by a pass, and completed at that pass's time. */
  lemma RunningJobPastTimeout(t0: int)
    ensures var jobs := map[3 := Job(Running, t0, None, None)];
      var after := Sweep(jobs, t0 + 31 * MinuteMs);
      after.Keys == {3} && after[3].status == Failed && after[3].completedAt == Some(t0 + 31 * MinuteMs)
  {
  }

  /** Three running jobs aged 31, 35 and 40 minutes and one analyzing job aged 50 minutes at now. */
  function LateTable(now: int): map<JobId, Job> {
    map[1 := Job(Running, now - 31 * MinuteMs, None, None),
        2 := Job(Running, now - 35 * MinuteMs, None, None),
        3 := Job(Running, now - 40 * MinuteMs, None, None),
        4 := Job(Analyzing, now - 50 * MinuteMs, None, None)]
  }

  /** In that table all four jobs are stuck: none pending, three running, one analyzing. */
  lemma LateTableMatches(now: int)
    ensures StuckIds(LateTable(now), now) == {1, 2, 3, 4}
    ensures |StuckAt(LateTable(now), now, 0)| == 0
    ensures |StuckAt(LateTable(now), now, 1)| == 3
    ensures |StuckAt(LateTable(now), now, 2)| == 1
  {
    var jobs := LateTable(now);
    PolicyTable();
    assert StuckAt(jobs, now, 0).Keys == {};
    assert StuckAt(jobs, now, 1).Keys == {1, 2, 3};
    assert StuckAt(jobs, now, 2).Keys == {4};
  }

  /** A pass over that table fails all four jobs and reports `running:3, analyzing:1`. */
  lemma RunningAndAnalyzingPass(now: int)
    ensures |StuckIds(LateTable(now), now)| == 4
    ensures CheckedStatuses(LateTable(now), now) == ["running:3", "analyzing:1"]
  {
    var jobs := LateTable(now);
    LateTableMatches(now);
    assert EntriesBefore(jobs, now, 1) == [];
    assert Entry(Running, 3) == "running:3" by {
      assert Text.Show(3) == "3";
    }
    assert EntriesBefore(jobs, now, 2) == ["running:3"];
    assert Entry(Analyzing, 1) == "analyzing:1" by {
      assert Text.Show(1) == "1";
    }
  }
}
