/**
 * rq_dashboard/scheduler.py: the dashboard of rq-scheduler's scheduled jobs.
 * The scheduler's contents are a sequence of (job, scheduled time) pairs;
 * the handlers filter it by origin queue, page it, count it per queue and
 * cancel from it.
 */
module Scheduler {
  import opened Wrappers
  import opened Json
  import opened Store
  import Utils
  import Navigation
  import Slicing
  import Tally

  /** `per_page = 5` */
  const PerPage: int := 5
  /** The default `window_size` of `pagination_window`. */
  const WindowSize: int := 10

  /** One entry of `scheduler.get_jobs(with_times=True)`: a job and when it is scheduled for. */
  datatype ScheduledJob = ScheduledJob(job: Job, at: int)

  /** `filter(lambda (job, _): job.origin == origin, jobs)`: the entries of one queue, in order. */
  function WithOrigin(jobs: seq<ScheduledJob>, origin: QueueName): (r: seq<ScheduledJob>)
    ensures |r| <= |jobs|
    ensures forall s :: s in r ==> s.job.origin == origin
    ensures forall s :: multiset(r)[s] == if s.job.origin == origin then multiset(jobs)[s] else 0
  {
    if jobs == [] then []
    else
      var init := jobs[..|jobs| - 1];
      var last := jobs[|jobs| - 1];
      assert jobs == init + [last];
      WithOrigin(init, origin) + (if last.job.origin == origin then [last] else [])
  }

  /** The entries `list_jobs` pages through: all of them for an empty queue name, else that queue's. */
  function Selected(queueName: QueueName, jobs: seq<ScheduledJob>): seq<ScheduledJob>
  {
    if queueName != "" then WithOrigin(jobs, queueName) else jobs
  }

  /** `jobs[offset:offset+per_page]` with `offset = (page-1)*per_page`. */
  function PageOf<T>(s: seq<T>, page: int, perPage: nat): (r: seq<T>)
    ensures |r| <= perPage
    ensures forall x :: x in r ==> x in s
  {
    var offset := (page - 1) * perPage;
    Slicing.PySliceWidth(s, offset, offset + perPage);
    Slicing.PySliceMembers(s, offset, offset + perPage);
    Slicing.PySlice(s, offset, offset + perPage)
  }

  /** The dict `list_jobs` returns. */
  datatype ScheduledPage = ScheduledPage(name: QueueName, jobs: seq<ScheduledJob>, pagination: Dict)

  /** `list_jobs(queue_name, page)` over the scheduler's entries `scheduled`. */
  function ListJobs(queueName: QueueName, scheduled: seq<ScheduledJob>, page: int, urlFor: Navigation.UrlFor): (r: ScheduledPage)
    ensures queueName != "" ==> forall s :: s in r.jobs ==> s.job.origin == queueName
    ensures r.jobs == PageOf(Selected(queueName, scheduled), page, PerPage)
    ensures |r.jobs| <= PerPage
    ensures "prev_page" in r.pagination <==> page > 1
    ensures "next_page" in r.pagination <==> page < Utils.NumPages(|Selected(queueName, scheduled)|, PerPage)
    ensures "pages_in_window" in r.pagination
    ensures r.pagination["pages_in_window"] == Arr(Navigation.PageLinks(
      Utils.Window(|Selected(queueName, scheduled)|, page, PerPage, WindowSize), queueName, urlFor))
  {
    var jobs := Selected(queueName, scheduled);
    var pagination := Navigation.Paginate(|jobs|, page, PerPage, WindowSize, queueName, urlFor);
    var jobPage := PageOf(jobs, page, PerPage);
    ScheduledPage(queueName, jobPage, pagination)
  }

  /** Pages 1..k of `s`, concatenated. */
  function PagesUpTo<T>(s: seq<T>, perPage: nat, k: nat): seq<T>
  {
    if k == 0 then [] else PagesUpTo(s, perPage, k - 1) + PageOf(s, k, perPage)
  }

  /** The first k pages are exactly the first `k*per_page` entries. */
  lemma {:induction false} PagesUpToIsPrefix<T>(s: seq<T>, perPage: nat, k: nat)
    requires perPage > 0
    ensures PagesUpTo(s, perPage, k) == s[..Utils.Min(k * perPage, |s|)]
  {
    if k > 0 {
      var offset := (k - 1) * perPage;
      var end := offset + perPage;
      NextPageStart(k, perPage);
      PagesUpToIsPrefix(s, perPage, k - 1);
      assert PageOf(s, k, perPage) == Slicing.PySlice(s, offset, end);
      Slicing.PySliceNonNegative(s, offset, end);
      if offset <= |s| {
        var m := if end <= |s| then end else |s|;
        assert s[..offset] + s[offset..m] == s[..m];
      }
    }
  }

  /** Page `k` starts where page `k-1` ends. */
  lemma NextPageStart(k: nat, perPage: nat)
    requires k > 0
    ensures 0 <= (k - 1) * perPage && k * perPage == (k - 1) * perPage + perPage
  {
  }

  /**
   * Concatenating pages 1..last_page of a static list gives back the list
   * exactly: every entry is on exactly one page, in order.
   */
  lemma PagesReconstruct<T>(s: seq<T>, perPage: nat)
    requires perPage > 0
    ensures PagesUpTo(s, perPage, Utils.NumPages(|s|, perPage)) == s
  {
    var n := Utils.NumPages(|s|, perPage);
    PagesUpToIsPrefix(s, perPage, n);
    assert n * perPage >= |s|;
  }

  /** The pages `list_jobs` serves for a queue reconstruct that queue's scheduled entries. */
  lemma ListJobsPagesReconstruct(queueName: QueueName, scheduled: seq<ScheduledJob>)
    ensures var jobs := Selected(queueName, scheduled);
      PagesUpTo(jobs, PerPage, Utils.NumPages(|jobs|, PerPage)) == jobs
  {
    PagesReconstruct(Selected(queueName, scheduled), PerPage);
  }

  /** One entry of `list_queues`: a queue name and how many scheduled jobs it has. */
  datatype QueueCount = QueueCount(name: QueueName, count: nat)

  function Origins(jobs: seq<Job>): (r: seq<QueueName>)
    ensures |r| == |jobs| && forall i :: 0 <= i < |jobs| ==> r[i] == jobs[i].origin
  {
    seq(|jobs|, i requires 0 <= i < |jobs| => jobs[i].origin)
  }

  /** `Counter(...).items()` for the given keys: each key with its count in `origins`. */
  function Entries(keys: seq<QueueName>, origins: seq<QueueName>): (r: seq<QueueCount>)
    ensures |r| == |keys| && forall i :: 0 <= i < |keys| ==> r[i] == QueueCount(keys[i], Tally.Count(origins, keys[i]))
  {
    seq(|keys|, i requires 0 <= i < |keys| => QueueCount(keys[i], Tally.Count(origins, keys[i])))
  }

  /**
   * `list_queues()`: `Counter(job.origin for job in scheduler.get_jobs())`,
   * one entry per distinct origin (the dict order of Python 2 is unspecified;
   * first occurrence is taken).
   */
  function ListQueues(jobs: seq<Job>): (r: seq<QueueCount>)
    ensures Tally.NoDuplicates(seq(|r|, i requires 0 <= i < |r| => r[i].name))
    ensures forall i :: 0 <= i < |jobs| ==> exists k :: 0 <= k < |r| && r[k].name == jobs[i].origin
    ensures forall k :: 0 <= k < |r| ==> r[k].count == Tally.Count(Origins(jobs), r[k].name) && r[k].count >= 1
  {
    var keys := Tally.Distinct(Origins(jobs));
    var r := Entries(keys, Origins(jobs));
    assert seq(|r|, i requires 0 <= i < |r| => r[i].name) == keys;
    assert forall i :: 0 <= i < |jobs| ==> Origins(jobs)[i] in keys;
    r
  }

  function TotalCount(entries: seq<QueueCount>): nat
  {
    if entries == [] then 0 else TotalCount(entries[..|entries| - 1]) + entries[|entries| - 1].count
  }

  lemma {:induction false} TotalCountOfEntries(keys: seq<QueueName>, origins: seq<QueueName>)
    ensures TotalCount(Entries(keys, origins)) == Tally.SumCounts(keys, origins)
  {
    if keys != [] {
      var ks := keys[..|keys| - 1];
      TotalCountOfEntries(ks, origins);
      assert Entries(keys, origins)[..|keys| - 1] == Entries(ks, origins);
    }
  }

  /** The per-queue counts of `list_queues` add up to the number of scheduled jobs. */
  lemma ListQueuesCountsSum(jobs: seq<Job>)
    ensures TotalCount(ListQueues(jobs)) == |jobs|
  {
    TotalCountOfEntries(Tally.Distinct(Origins(jobs)), Origins(jobs));
    Tally.CountsSumToLength(Origins(jobs));
  }

  /** `scheduler_status()`: running iff the scheduler's key exists and has no `death` field. */
  function SchedulerStatus(schedulerKey: Option<map<string, string>>): (running: bool)
    ensures running ==> schedulerKey.Some?
    ensures schedulerKey.Some? ==> (running <==> "death" !in schedulerKey.value)
  {
    schedulerKey.Some? && "death" !in schedulerKey.value
  }

  /** The ids of the jobs whose origin is `origin`, in order. */
  function IdsWithOrigin(jobs: seq<Job>, origin: QueueName): (r: seq<JobId>)
    ensures |r| <= |jobs|
    ensures forall id :: id in r <==> exists k :: 0 <= k < |jobs| && jobs[k].origin == origin && jobs[k].id == id
  {
    if jobs == [] then []
    else
      var init, last := jobs[..|jobs| - 1], jobs[|jobs| - 1];
      assert forall k :: 0 <= k < |init| ==> init[k] == jobs[k];
      IdsWithOrigin(init, origin) + (if last.origin == origin then [last.id] else [])
  }

  /**
   * `cancel_all(queue_name)`: walks the scheduled jobs and cancels every
   * one whose origin is `queue_name` (no special case for an empty name).
   */
  method CancelAll(queueName: QueueName, jobs: seq<Job>) returns (cancelled: seq<Command>)
    ensures |cancelled| == |IdsWithOrigin(jobs, queueName)|
    ensures forall k :: 0 <= k < |cancelled| ==> cancelled[k] == Unschedule(IdsWithOrigin(jobs, queueName)[k])
  {
    cancelled := [];
    var i := 0;
    while i < |jobs|
      invariant 0 <= i <= |jobs|
      invariant |cancelled| == |IdsWithOrigin(jobs[..i], queueName)|
      invariant forall k :: 0 <= k < |cancelled| ==> cancelled[k] == Unschedule(IdsWithOrigin(jobs[..i], queueName)[k])
    {
      assert jobs[..i + 1][..i] == jobs[..i];
      if jobs[i].origin == queueName {
        cancelled := cancelled + [Unschedule(jobs[i].id)];
      }
      i := i + 1;
    }
    assert jobs[..i] == jobs;
  }
}
