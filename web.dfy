/**
 * rq_dashboard/web.py: the job listing of one queue and the bulk requeue of
 * the failed queue. The pagination window and `remove_none_values` of this
 * file are the same text as utils.py's and are modelled by `Utils`.
 */
module Web {
  import opened Wrappers
  import opened Json
  import opened Store
  import Utils
  import Navigation
  import Slicing

  /** `per_page = 5` */
  const PerPage: int := 5
  /** The default `window_size` of `pagination_window`. */
  const WindowSize: int := 10

  /** The dict `list_jobs` returns: the queue's name, one page of its jobs and the pagination links. */
  datatype JobsPage = JobsPage(name: QueueName, jobs: seq<Job>, pagination: Dict)

  /** The ids on page `page` (from 1) of a queue: `LRANGE offset offset+4` for `offset = (page-1)*5`. */
  function PageIds(queueIds: seq<JobId>, page: int): (r: seq<JobId>)
    requires page >= 1
    ensures |r| <= PerPage
  {
    var offset := (page - 1) * PerPage;
    queueIds[(if offset <= |queueIds| then offset else |queueIds|)..(if offset + PerPage <= |queueIds| then offset + PerPage else |queueIds|)]
  }

  /**
   * `list_jobs(queue_name, page)` over a queue whose list holds `queueIds`
   * and whose surviving job records are `records`.
   */
  function ListJobs(queueName: QueueName, queueIds: seq<JobId>, records: map<JobId, Job>, page: int,
                    urlFor: Navigation.UrlFor): (r: JobsPage)
    ensures r.name == queueName
    ensures "prev_page" in r.pagination <==> page > 1
    ensures "next_page" in r.pagination <==> page < Utils.NumPages(|queueIds|, PerPage)
    ensures "pages_in_window" in r.pagination
    ensures r.pagination["pages_in_window"]
      == Arr(Navigation.PageLinks(Utils.Window(|queueIds|, page, PerPage, WindowSize), queueName, urlFor))
    ensures forall k :: k in r.pagination ==> r.pagination[k] != Null
    ensures r.jobs == GetJobs(queueIds, records, (page - 1) * PerPage, PerPage)
  {
    var pagination := Navigation.Paginate(|queueIds|, page, PerPage, WindowSize, queueName, urlFor);
    var offset := (page - 1) * PerPage;
    JobsPage(queueName, GetJobs(queueIds, records, offset, PerPage), pagination)
  }

  /**
   * A page from 1 on lists the jobs of the slice `[offset, offset+5)` of the
   * queue, minus those whose record vanished between reading the ids and
   * fetching them.
   */
  lemma ListJobsPage(queueName: QueueName, queueIds: seq<JobId>, records: map<JobId, Job>, page: int,
                     urlFor: Navigation.UrlFor)
    requires page >= 1
    ensures var jobs := ListJobs(queueName, queueIds, records, page, urlFor).jobs;
      && jobs == FetchAll(PageIds(queueIds, page), records)
      && |jobs| + Missing(PageIds(queueIds, page), records) == |PageIds(queueIds, page)|
      && |jobs| <= PerPage
  {
    var offset := (page - 1) * PerPage;
    var ids := PageIds(queueIds, page);
    var jobs := ListJobs(queueName, queueIds, records, page, urlFor).jobs;
    assert jobs == FetchAll(ids, records) by {
      assert offset >= 0;
      assert jobs == GetJobs(queueIds, records, offset, PerPage);
      GetJobsWindow(queueIds, records, offset, PerPage);
    }
  }

  /** The commands `requeue_job(id)` for each id, in order. */
  function Requeues(ids: seq<JobId>): (r: seq<Command>)
    ensures |r| == |ids|
    ensures forall k :: 0 <= k < |ids| ==> r[k] == RequeueJob(ids[k])
  {
    seq(|ids|, k requires 0 <= k < |ids| => RequeueJob(ids[k]))
  }

  /**
   * `requeue_all()`: snapshots the failed queue's ids, counts them, then
   * requeues each in order; `requeue(id)` is the store's answer. The first
   * failing requeue aborts the loop (the exception reaches `jsonify`).
   */
  method RequeueAll(failedIds: seq<JobId>, requeue: JobId -> Outcome) returns (result: Result<nat, Outcome>, issued: seq<Command>)
    ensures |issued| <= |failedIds| && issued == Requeues(failedIds[..|issued|])
    ensures result.Ok? <==> forall k :: 0 <= k < |failedIds| ==> requeue(failedIds[k]) == Done
    ensures result.Ok? ==> result.value == |failedIds| && issued == Requeues(failedIds)
    ensures result.Err? ==>
      && 0 < |issued| <= |failedIds|
      && result.error == requeue(failedIds[|issued| - 1]) != Done
      && forall k :: 0 <= k < |issued| - 1 ==> requeue(failedIds[k]) == Done
  {
    var count := |failedIds|;
    issued := [];
    for i := 0 to |failedIds|
      invariant |issued| == i
      invariant issued == Requeues(failedIds[..i])
      invariant forall k :: 0 <= k < i ==> requeue(failedIds[k]) == Done
    {
      issued := issued + [RequeueJob(failedIds[i])];
      var outcome := requeue(failedIds[i]);
      if outcome != Done {
        result := Err(outcome);
        return;
      }
    }
    result := Ok(count);
  }
}
