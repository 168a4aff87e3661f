/**
 * The stuck-job watchdog of convex/monitoring.ts, as values: the timeout
 * policy, the staleness test, the remediation of one job, the message and
 * summary texts, and the reference description of one whole sweep.
 * The JobTable class of the Store module performs the sweep step by step
 * and is proved against the functions here.
 */
module Monitoring {
  import opened Options
  import Text

  /** Lifecycle states of a scraping job; Pending, Running and Analyzing are non-terminal. */
  datatype Status = Pending | Running | Analyzing | Completed | Failed

  /** The status as the store and the messages spell it. */
  function Name(s: Status): string {
    match s
    case Pending => "pending"
    case Running => "running"
    case Analyzing => "analyzing"
    case Completed => "completed"
    case Failed => "failed"
  }

  /** The status a spelled name stands for. */
  function StatusNamed(name: string): (r: Option<Status>)
    ensures r.Some? ==> Name(r.value) == name
  {
    if name == "pending" then Some(Pending)
    else if name == "running" then Some(Running)
    else if name == "analyzing" then Some(Analyzing)
    else if name == "completed" then Some(Completed)
    else if name == "failed" then Some(Failed)
    else None
  }

  /** Every status name reads back as that status, and no name contains the `:` of a summary entry. */
  lemma StatusNamedName(s: Status)
    ensures StatusNamed(Name(s)) == Some(s)
    ensures forall i :: 0 <= i < |Name(s)| ==> Name(s)[i] != ':'
  {
  }

  /** Store-assigned job identifiers; only their equality matters. */
  type JobId = nat

  /** A scraping-job record: the fields the watchdog reads or writes. Times are epoch milliseconds. */
  datatype Job = Job(status: Status, createdAt: int, completedAt: Option<int>, error: Option<string>)

  const MinuteMs: nat := 60 * 1000

  /** The TIMEOUTS table, its entries in insertion order: the order of the sweep. */
  const Timeouts: seq<(Status, nat)> :=
    [(Pending, 10 * MinuteMs), (Running, 30 * MinuteMs), (Analyzing, 45 * MinuteMs)]

  /** The first position at or after i whose entry names s, or the table's length. */
  function FirstFrom(s: Status, i: nat): (k: nat)
    requires i <= |Timeouts|
    ensures i <= k <= |Timeouts|
    ensures k < |Timeouts| ==> Timeouts[k].0 == s
    ensures forall j :: i <= j < k ==> Timeouts[j].0 != s
    decreases |Timeouts| - i
  {
    if i == |Timeouts| || Timeouts[i].0 == s then i else FirstFrom(s, i + 1)
  }

  /** Position of s among the table's keys; |Timeouts| when s is not a key. */
  function Rank(s: Status): (k: nat)
    ensures k <= |Timeouts|
    ensures k < |Timeouts| ==> Timeouts[k].0 == s
    ensures forall j :: 0 <= j < k ==> Timeouts[j].0 != s
  {
    FirstFrom(s, 0)
  }

  /** The table lookup TIMEOUTS[s], absent for a state with no timeout. */
  function TimeoutOf(s: Status): (r: Option<nat>)
    ensures r.None? <==> s == Completed || s == Failed
  {
    var k := Rank(s);
    if k < |Timeouts| then Some(Timeouts[k].1) else None
  }

  /** The policy's constants: 10, 30 and 45 minutes, and no timeout for a terminal state. */
  lemma PolicyTable()
    ensures TimeoutOf(Pending) == Some(600000)
    ensures TimeoutOf(Running) == Some(1800000)
    ensures TimeoutOf(Analyzing) == Some(2700000)
    ensures TimeoutOf(Completed) == None && TimeoutOf(Failed) == None
  {
  }

  /** Walking the table visits every timed state once, with its own timeout. */
  lemma PolicyEntry(i: nat)
    requires i < |Timeouts|
    ensures Rank(Timeouts[i].0) == i
    ensures TimeoutOf(Timeouts[i].0) == Some(Timeouts[i].1)
    ensures Timeouts[i].0 != Failed && Timeouts[i].0 != Completed
  {
  }

  /** A job is stuck at time now when its state has a timeout and it was created strictly before now minus that timeout. */
  predicate IsStuck(j: Job, now: int) {
    match TimeoutOf(j.status)
    case None => false
    case Some(t) => j.createdAt < now - t
  }

  /** Only the three non-terminal states are ever stuck, and the cutoff itself is not stale. */
  lemma StuckOnlyWhenTimed(j: Job, now: int)
    ensures IsStuck(j, now) ==> Rank(j.status) < |Timeouts|
    ensures j.status == Completed || j.status == Failed ==> !IsStuck(j, now)
  {
  }

  /** One millisecond past the cutoff is stuck; exactly at the cutoff is not. */
  lemma CutoffIsStrict(s: Status, now: int, t: nat, j: Job)
    requires TimeoutOf(s) == Some(t) && j.status == s
    ensures j.createdAt == now - t - 1 ==> IsStuck(j, now)
    ensures j.createdAt >= now - t ==> !IsStuck(j, now)
  {
  }

  /** Math.round of the age in minutes: the nearest whole minute, halves rounded up. */
  function AgeMinutes(now: int, createdAt: int): (m: int)
    ensures m * MinuteMs - MinuteMs / 2 <= now - createdAt < m * MinuteMs + MinuteMs / 2
  {
    (now - createdAt + MinuteMs / 2) / MinuteMs
  }

  /** A stuck job's rounded age is at least its state's timeout in whole minutes. */
  lemma AgeAtLeastTimeout(j: Job, now: int)
    requires IsStuck(j, now)
    ensures TimeoutOf(j.status).Some?
    ensures AgeMinutes(now, j.createdAt) >= TimeoutOf(j.status).value / MinuteMs >= 0
  {
  }

  const MessageHead := "Job timed out after "
  const MessageMiddle := " minutes in \""
  const MessageTail := "\" status. The webhook may not have been received or the process may have failed silently."

  /** The error text written on a timed-out job. */
  function TimeoutMessage(ageMinutes: nat, s: Status): string {
    MessageHead + Text.Show(ageMinutes) + MessageMiddle + Name(s) + MessageTail
  }

  /** Reads the age and the state back out of a timeout message. */
  function ParseTimeoutMessage(m: string): Option<(nat, Status)> {
    if MessageHead <= m then
      var r := m[|MessageHead|..];
      var k := Text.DigitRun(r);
      var rest := r[k..];
      if 0 < k && MessageMiddle <= rest && |MessageMiddle| + |MessageTail| <= |rest|
         && rest[|rest| - |MessageTail|..] == MessageTail
      then
        match StatusNamed(rest[|MessageMiddle|..|rest| - |MessageTail|])
        case Some(s) => Some((Text.ValueOf(r[..k]), s))
        case None => None
      else None
    else None
  }

  /** Slicing a message back into its parts, for any parts. */
  lemma MessageSlices(head: string, digits: string, middle: string, name: string, tail: string)
    ensures var r := (head + digits + middle + name + tail)[|head|..];
      && head <= head + digits + middle + name + tail
      && r == digits + (middle + name + tail)
      && r[..|digits|] == digits
      && r[|digits|..] == middle + name + tail
      && middle <= middle + name + tail
      && (middle + name + tail)[|middle|..|middle + name + tail| - |tail|] == name
      && (middle + name + tail)[|middle + name + tail| - |tail|..] == tail
  {
  }

  /** The message names the age and the state it was written for. */
  lemma TimeoutMessageRoundTrip(ageMinutes: nat, s: Status)
    ensures ParseTimeoutMessage(TimeoutMessage(ageMinutes, s)) == Some((ageMinutes, s))
  {
    var digits := Text.Show(ageMinutes);
    MessageSlices(MessageHead, digits, MessageMiddle, Name(s), MessageTail);
    Text.DigitRunOfNumeral(digits, MessageMiddle + Name(s) + MessageTail);
    Text.ValueOfShow(ageMinutes);
    StatusNamedName(s);
  }

  /** The job a remediation leaves behind: failed, completed at now, with the timeout message. */
  function Remediate(j: Job, now: int): Job
    requires IsStuck(j, now)
  {
    AgeAtLeastTimeout(j, now);
    j.(status := Failed, completedAt := Some(now),
       error := Some(TimeoutMessage(AgeMinutes(now, j.createdAt), j.status)))
  }

  /**
   * A remediated job is failed, completed at the pass's clock value, keeps its
   * creation time, and its error names its former state and its rounded age,
   * which is at least that state's timeout in minutes.
   */
  lemma RemediationRecord(j: Job, now: int)
    requires IsStuck(j, now)
    ensures var r := Remediate(j, now);
      && r.status == Failed && r.createdAt == j.createdAt && r.completedAt == Some(now)
      && r.error.Some?
      && ParseTimeoutMessage(r.error.value) == Some((AgeMinutes(now, j.createdAt), j.status))
      && AgeMinutes(now, j.createdAt) >= TimeoutOf(j.status).value / MinuteMs
  {
    AgeAtLeastTimeout(j, now);
    TimeoutMessageRoundTrip(AgeMinutes(now, j.createdAt), j.status);
  }

  /** The store query for one state: the jobs in that state created before the cutoff. */
  function Matching(jobs: map<JobId, Job>, s: Status, cutoff: int): map<JobId, Job> {
    map id | id in jobs && jobs[id].status == s && jobs[id].createdAt < cutoff :: jobs[id]
  }

  /** The ids of all stuck jobs. */
  function StuckIds(jobs: map<JobId, Job>, now: int): set<JobId> {
    set id | id in jobs && IsStuck(jobs[id], now)
  }

  /** The ids of the stuck jobs in state s. */
  function StuckIn(jobs: map<JobId, Job>, now: int, s: Status): set<JobId> {
    set id | id in jobs && jobs[id].status == s && IsStuck(jobs[id], now)
  }

  /** Reference result of a sweep: every stuck job remediated, every other job as it was. */
  function Sweep(jobs: map<JobId, Job>, now: int): map<JobId, Job> {
    map id | id in jobs :: if IsStuck(jobs[id], now) then Remediate(jobs[id], now) else jobs[id]
  }

  /** Which jobs change, and how: exactly the stuck ones; no job appears or disappears. */
  lemma SweepTransitions(jobs: map<JobId, Job>, now: int, id: JobId)
    requires id in jobs
    ensures Sweep(jobs, now).Keys == jobs.Keys
    ensures Sweep(jobs, now)[id] != jobs[id] <==> IsStuck(jobs[id], now)
    ensures !IsStuck(jobs[id], now) ==> Sweep(jobs, now)[id] == jobs[id]
    ensures IsStuck(jobs[id], now) ==> Sweep(jobs, now)[id] == Remediate(jobs[id], now)
  {
  }

  /** A job a sweep failed is in a terminal state: no later sweep touches it again. */
  lemma RemediatedStayFailed(jobs: map<JobId, Job>, now: int, later: int)
    ensures forall id :: id in StuckIds(jobs, now) ==>
      && Sweep(jobs, now)[id].completedAt == Some(now)
      && !IsStuck(Sweep(jobs, now)[id], later)
      && Sweep(Sweep(jobs, now), later)[id] == Sweep(jobs, now)[id]
  {
  }

  /** A second sweep at the same time finds nothing and changes nothing. */
  lemma SweepIdempotent(jobs: map<JobId, Job>, now: int)
    ensures StuckIds(Sweep(jobs, now), now) == {}
    ensures Sweep(Sweep(jobs, now), now) == Sweep(jobs, now)
  {
  }

  // The pass in the table's order: after the first k entries, the stuck jobs
  // whose state is among them have been remediated and the rest are untouched.

  /** The query the sweep issues for the i-th table entry. */
  function StuckAt(jobs: map<JobId, Job>, now: int, i: nat): map<JobId, Job>
    requires i < |Timeouts|
  {
    Matching(jobs, Timeouts[i].0, now - Timeouts[i].1)
  }

  /** Stuck jobs whose state is among the first k table entries. */
  function StuckBefore(jobs: map<JobId, Job>, now: int, k: nat): set<JobId> {
    set id | id in jobs && IsStuck(jobs[id], now) && Rank(jobs[id].status) < k
  }

  /** The table with the stuck jobs among ids remediated. */
  function RemediateAll(jobs: map<JobId, Job>, now: int, ids: set<JobId>): map<JobId, Job> {
    map id | id in jobs :: if id in ids && IsStuck(jobs[id], now) then Remediate(jobs[id], now) else jobs[id]
  }

  /** The query for entry i finds exactly the stuck jobs of that entry's state. */
  lemma StuckAtIsStuckIn(jobs: map<JobId, Job>, now: int, i: nat)
    requires i < |Timeouts|
    ensures StuckAt(jobs, now, i).Keys == StuckIn(jobs, now, Timeouts[i].0)
    ensures forall id :: id in StuckAt(jobs, now, i) ==>
      StuckAt(jobs, now, i)[id] == jobs[id] && Rank(jobs[id].status) == i && IsStuck(jobs[id], now)
  {
  }

  /** Adding entry i to the pass adds exactly that entry's matches, disjoint from the earlier ones. */
  lemma StuckBeforeStep(jobs: map<JobId, Job>, now: int, i: nat)
    requires i < |Timeouts|
    ensures StuckBefore(jobs, now, i + 1) == StuckBefore(jobs, now, i) + StuckAt(jobs, now, i).Keys
    ensures StuckBefore(jobs, now, i) !! StuckAt(jobs, now, i).Keys
  {
  }

  /** Remediating the earlier entries' jobs does not change what the query for entry i returns. */
  lemma QueryAfterEarlierEntries(jobs: map<JobId, Job>, now: int, i: nat)
    requires i < |Timeouts|
    ensures StuckAt(RemediateAll(jobs, now, StuckBefore(jobs, now, i)), now, i) == StuckAt(jobs, now, i)
  {
  }

  /** The snapshot a query for status returns: records of the table, in status, all stuck. */
  predicate IsSnapshot(jobs: map<JobId, Job>, snapshot: map<JobId, Job>, status: Status, now: int) {
    forall id :: id in snapshot ==>
      id in jobs && jobs[id] == snapshot[id] && snapshot[id].status == status && IsStuck(snapshot[id], now)
  }

  /** Patching one more job of a snapshot extends the remediated set by that job. */
  lemma PatchOne(jobs: map<JobId, Job>, snapshot: map<JobId, Job>, status: Status, now: int, done: set<JobId>, id: JobId)
    requires IsSnapshot(jobs, snapshot, status, now)
    requires id in snapshot && id !in done
    ensures AgeMinutes(now, snapshot[id].createdAt) >= 0
    ensures var before := RemediateAll(jobs, now, done);
      && id in before
      && before[id := before[id].(status := Failed,
                                  error := Some(TimeoutMessage(AgeMinutes(now, snapshot[id].createdAt), status)),
                                  completedAt := Some(now))]
         == RemediateAll(jobs, now, done + {id})
  {
    var j := snapshot[id];
    assert jobs[id] == j && IsStuck(j, now);
    assert RemediateAll(jobs, now, done)[id] == j;
  }

  /** Remediating entry i's matches on top of the earlier entries' gives the state after entry i. */
  lemma RemediateEntry(jobs: map<JobId, Job>, now: int, i: nat)
    requires i < |Timeouts|
    ensures RemediateAll(RemediateAll(jobs, now, StuckBefore(jobs, now, i)), now, StuckAt(jobs, now, i).Keys)
         == RemediateAll(jobs, now, StuckBefore(jobs, now, i + 1))
  {
    StuckAtIsStuckIn(jobs, now, i);
    StuckBeforeStep(jobs, now, i);
    var mid := RemediateAll(jobs, now, StuckBefore(jobs, now, i));
    var lhs := RemediateAll(mid, now, StuckAt(jobs, now, i).Keys);
    var rhs := RemediateAll(jobs, now, StuckBefore(jobs, now, i + 1));
    forall id | id in jobs
      ensures lhs[id] == rhs[id]
    {
      if id in StuckAt(jobs, now, i) {
        assert mid[id] == jobs[id];
      }
    }
    assert lhs == rhs;
  }

  /**
   * One step of the pass: with the earlier entries' jobs remediated, the query
   * for entry i returns the original matches, each still as it was, and
   * remediating them gives the state, count and entries after entry i.
   */
  lemma PassStep(jobs: map<JobId, Job>, now: int, i: nat, current: map<JobId, Job>,
                 after: map<JobId, Job>, found: nat)
    requires i < |Timeouts|
    requires current == RemediateAll(jobs, now, StuckBefore(jobs, now, i))
    requires found == |Matching(current, Timeouts[i].0, now - Timeouts[i].1)|
    requires after == RemediateAll(current, now, Matching(current, Timeouts[i].0, now - Timeouts[i].1).Keys)
    ensures after == RemediateAll(jobs, now, StuckBefore(jobs, now, i + 1))
    ensures |StuckBefore(jobs, now, i + 1)| == |StuckBefore(jobs, now, i)| + found
    ensures EntriesBefore(jobs, now, i + 1)
         == EntriesBefore(jobs, now, i) + (if found > 0 then [Entry(Timeouts[i].0, found)] else [])
  {
    QueryAfterEarlierEntries(jobs, now, i);
    RemediateEntry(jobs, now, i);
    StuckBeforeSize(jobs, now, i);
  }

  /** Visiting all the entries in table order is the reference sweep. */
  lemma SweepInTableOrder(jobs: map<JobId, Job>, now: int)
    ensures StuckBefore(jobs, now, |Timeouts|) == StuckIds(jobs, now)
    ensures RemediateAll(jobs, now, StuckBefore(jobs, now, |Timeouts|)) == Sweep(jobs, now)
  {
  }

  /** One entry of checkedStatuses. */
  function Entry(s: Status, count: nat): string {
    Name(s) + ":" + Text.Show(count)
  }

  /** Reads a `state:count` entry back. */
  function ParseEntry(e: string): Option<(Status, nat)> {
    var k := Text.IndexOf(e, ':');
    if k < |e| then
      match (StatusNamed(e[..k]), Text.ParseNat(e[k + 1..]))
      case (Some(s), Some(n)) => Some((s, n))
      case _ => None
    else None
  }

  /** An entry reads back as the state and count it was written for. */
  lemma EntryRoundTrip(s: Status, count: nat)
    ensures ParseEntry(Entry(s, count)) == Some((s, count))
  {
    StatusNamedName(s);
    Text.IndexOfSeparator(Name(s), ':', Text.Show(count));
    var e := Entry(s, count);
    assert e[..|Name(s)|] == Name(s);
    assert e[|Name(s)| + 1..] == Text.Show(count);
    Text.ParseShow(count);
  }

  /** The count an entry carries; an entry that does not parse adds nothing to a sum. */
  function CountOf(e: string): nat {
    match ParseEntry(e)
    case Some(p) => p.1
    case None => 0
  }

  /** Sum of the counts written in a list of entries. */
  function SumOfCounts(entries: seq<string>): nat {
    if entries == [] then 0 else SumOfCounts(entries[..|entries| - 1]) + CountOf(entries[|entries| - 1])
  }

  /** The states a list of entries names. */
  function Listed(entries: seq<string>): set<Status> {
    if entries == [] then {}
    else
      Listed(entries[..|entries| - 1]) +
      match ParseEntry(entries[|entries| - 1])
      case Some((s, _)) => {s}
      case None => {}
  }

  /** checkedStatuses after the first k entries of the table. */
  function EntriesBefore(jobs: map<JobId, Job>, now: int, k: nat): seq<string>
    requires k <= |Timeouts|
  {
    if k == 0 then []
    else
      var n := |StuckAt(jobs, now, k - 1)|;
      EntriesBefore(jobs, now, k - 1) + (if n > 0 then [Entry(Timeouts[k - 1].0, n)] else [])
  }

  /** The checkedStatuses of a whole pass. */
  function CheckedStatuses(jobs: map<JobId, Job>, now: int): seq<string> {
    EntriesBefore(jobs, now, |Timeouts|)
  }

  /** Two disjoint sets together have as many elements as each has. */
  lemma DisjointUnionSize<T>(a: set<T>, b: set<T>)
    requires a !! b
    ensures |a + b| == |a| + |b|
  {
  }

  /** Each table entry adds its own matches to the number of stuck jobs visited. */
  lemma StuckBeforeSize(jobs: map<JobId, Job>, now: int, i: nat)
    requires i < |Timeouts|
    ensures |StuckBefore(jobs, now, i + 1)| == |StuckBefore(jobs, now, i)| + |StuckAt(jobs, now, i)|
  {
    StuckBeforeStep(jobs, now, i);
    DisjointUnionSize(StuckBefore(jobs, now, i), StuckAt(jobs, now, i).Keys);
  }

  /** The entry written for table entry i, when its query matched anything. */
  lemma LastEntry(jobs: map<JobId, Job>, now: int, i: nat)
    requires i < |Timeouts|
    ensures var n := |StuckAt(jobs, now, i)|;
      && n == |StuckIn(jobs, now, Timeouts[i].0)|
      && Rank(Timeouts[i].0) == i
      && (n > 0 ==> ParseEntry(Entry(Timeouts[i].0, n)) == Some((Timeouts[i].0, n)))
  {
    PolicyEntry(i);
    StuckAtIsStuckIn(jobs, now, i);
    EntryRoundTrip(Timeouts[i].0, |StuckAt(jobs, now, i)|);
  }

  /** The counts written so far add up to the number of stuck jobs visited so far. */
  lemma {:induction false} EntriesSum(jobs: map<JobId, Job>, now: int, k: nat)
    requires k <= |Timeouts|
    ensures SumOfCounts(EntriesBefore(jobs, now, k)) == |StuckBefore(jobs, now, k)|
  {
    if k == 0 {
      assert StuckBefore(jobs, now, 0) == {};
    } else {
      EntriesSum(jobs, now, k - 1);
      LastEntry(jobs, now, k - 1);
      StuckBeforeSize(jobs, now, k - 1);
      var prev := EntriesBefore(jobs, now, k - 1);
      var cur := EntriesBefore(jobs, now, k);
      if cur != prev {
        assert cur[..|cur| - 1] == prev;
      }
    }
  }

  /** Each entry so far parses and names a state among the first k with that state's match count. */
  lemma {:induction false} EntriesParse(jobs: map<JobId, Job>, now: int, k: nat)
    requires k <= |Timeouts|
    ensures forall e :: e in EntriesBefore(jobs, now, k) ==>
      && ParseEntry(e).Some?
      && var (s, n) := ParseEntry(e).value;
      && Rank(s) < k
      && 0 < n == |StuckIn(jobs, now, s)|
  {
    if k > 0 {
      EntriesParse(jobs, now, k - 1);
      LastEntry(jobs, now, k - 1);
    }
  }

  /** Appending an entry that parses adds the state it names. */
  lemma ListedAppend(entries: seq<string>, e: string, s: Status, n: nat)
    requires ParseEntry(e) == Some((s, n))
    ensures Listed(entries + [e]) == Listed(entries) + {s}
  {
    assert (entries + [e])[..|entries|] == entries;
  }

  /** Entry i adds its state to the states named so far exactly when that state has stuck jobs. */
  lemma ListedStep(jobs: map<JobId, Job>, now: int, i: nat)
    requires i < |Timeouts|
    ensures var st := Timeouts[i].0;
      Listed(EntriesBefore(jobs, now, i + 1)) ==
      Listed(EntriesBefore(jobs, now, i)) + (if |StuckAt(jobs, now, i)| > 0 then {st} else {})
  {
    var st := Timeouts[i].0;
    var n := |StuckAt(jobs, now, i)|;
    var prev := EntriesBefore(jobs, now, i);
    if n > 0 {
      assert EntriesBefore(jobs, now, i + 1) == prev + [Entry(st, n)];
      EntryRoundTrip(st, n);
      ListedAppend(prev, Entry(st, n), st, n);
    } else {
      assert EntriesBefore(jobs, now, i + 1) == prev;
    }
  }

  /** The states named so far are exactly those among the first k with a match. */
  lemma {:induction false} EntriesListed(jobs: map<JobId, Job>, now: int, k: nat)
    requires k <= |Timeouts|
    ensures forall s :: s in Listed(EntriesBefore(jobs, now, k)) <==>
      Rank(s) < k && |StuckIn(jobs, now, s)| > 0
  {
    if k == 0 {
      assert EntriesBefore(jobs, now, 0) == [];
    } else {
      EntriesListed(jobs, now, k - 1);
      ListedStep(jobs, now, k - 1);
      StuckAtIsStuckIn(jobs, now, k - 1);
      var named := Listed(EntriesBefore(jobs, now, k));
      forall s
        ensures s in named <==> Rank(s) < k && |StuckIn(jobs, now, s)| > 0
      {
        if Rank(s) == k - 1 {
          assert s == Timeouts[k - 1].0;
        }
      }
    }
  }

  /** Both entries parse, and the state e names comes before the one f names in the table. */
  predicate InTableOrder(e: string, f: string) {
    match (ParseEntry(e), ParseEntry(f))
    case (Some((s, _)), Some((t, _))) => Rank(s) < Rank(t)
    case _ => false
  }

  /** The entries so far follow the table's order. */
  lemma {:induction false} EntriesOrdered(jobs: map<JobId, Job>, now: int, k: nat)
    requires k <= |Timeouts|
    ensures forall a, b :: 0 <= a < b < |EntriesBefore(jobs, now, k)| ==>
      InTableOrder(EntriesBefore(jobs, now, k)[a], EntriesBefore(jobs, now, k)[b])
  {
    if k > 0 {
      EntriesOrdered(jobs, now, k - 1);
      EntriesParse(jobs, now, k - 1);
      LastEntry(jobs, now, k - 1);
      var prev := EntriesBefore(jobs, now, k - 1);
      var st := Timeouts[k - 1].0;
      var n := |StuckAt(jobs, now, k - 1)|;
      if n > 0 {
        var cur := prev + [Entry(st, n)];
        assert EntriesBefore(jobs, now, k) == cur;
        forall a, b | 0 <= a < b < |cur|
          ensures InTableOrder(cur[a], cur[b])
        {
          assert cur[a] == prev[a];
          if b < |prev| {
            assert cur[b] == prev[b];
          } else {
            assert prev[a] in prev;
            var (s, _) := ParseEntry(prev[a]).value;
            assert Rank(s) < k - 1;
            assert ParseEntry(cur[b]) == Some((st, n));
          }
        }
      } else {
        assert EntriesBefore(jobs, now, k) == prev;
      }
    }
  }

  /** failedJobs equals the sum of the counts written in checkedStatuses. */
  lemma FailedJobsIsSumOfEntries(jobs: map<JobId, Job>, now: int)
    ensures SumOfCounts(CheckedStatuses(jobs, now)) == |StuckIds(jobs, now)|
  {
    EntriesSum(jobs, now, |Timeouts|);
    SweepInTableOrder(jobs, now);
  }

  /** checkedStatuses: one `state:count` entry per state with matches, with its count, in table order. */
  lemma CheckedStatusesDescribeMatches(jobs: map<JobId, Job>, now: int)
    ensures forall e :: e in CheckedStatuses(jobs, now) ==>
      && ParseEntry(e).Some?
      && var (s, n) := ParseEntry(e).value;
      && 0 < n == |StuckIn(jobs, now, s)|
    ensures forall s :: s in Listed(CheckedStatuses(jobs, now)) <==> |StuckIn(jobs, now, s)| > 0
    ensures forall a, b :: 0 <= a < b < |CheckedStatuses(jobs, now)| ==>
      InTableOrder(CheckedStatuses(jobs, now)[a], CheckedStatuses(jobs, now)[b])
  {
    EntriesParse(jobs, now, |Timeouts|);
    EntriesListed(jobs, now, |Timeouts|);
    EntriesOrdered(jobs, now, |Timeouts|);
    forall s | |StuckIn(jobs, now, s)| > 0
      ensures Rank(s) < |Timeouts|
    {
      var id :| id in StuckIn(jobs, now, s);
      StuckOnlyWhenTimed(jobs[id], now);
    }
  }

  /** With no stuck job, no table entry writes a summary entry. */
  lemma {:induction false} QuietEntries(jobs: map<JobId, Job>, now: int, k: nat)
    requires k <= |Timeouts|
    requires StuckIds(jobs, now) == {}
    ensures EntriesBefore(jobs, now, k) == []
  {
    if k > 0 {
      QuietEntries(jobs, now, k - 1);
      StuckAtIsStuckIn(jobs, now, k - 1);
      assert StuckIn(jobs, now, Timeouts[k - 1].0) <= StuckIds(jobs, now);
    }
  }

  /** A second pass at the same time reports failedJobs = 0 and an empty checkedStatuses. */
  lemma SecondPassReportsNothing(jobs: map<JobId, Job>, now: int)
    ensures |StuckIds(Sweep(jobs, now), now)| == 0
    ensures CheckedStatuses(Sweep(jobs, now), now) == []
  {
    SweepIdempotent(jobs, now);
    QuietEntries(Sweep(jobs, now), now, |Timeouts|);
  }
}
