/**
 * rq_dashboard/dashboard.py: the older rq 0.x dashboard blueprint. Its own
 * variant of the pagination window, the description parser `parse_job`,
 * the configurable-page-size job listing, and the bulk requeue/cancel/empty
 * handlers that walk a snapshot of ids issuing one store command per id.
 */
module Dashboard {
  import opened Wrappers
  import opened Json
  import opened Store
  import Utils
  import Navigation
  import Slicing
  import Web

  /** The Python exceptions these handlers can raise on their own. */
  datatype PyError = UnboundLocalError | ZeroDivisionError

  /**
   * This file's `pagination_window`: the same arithmetic as utils.py, except
   * that for `window_size < 1` it returns the never-assigned name `result`
   * (the assignment above it binds `results`), which raises.
   */
  function PaginationWindow(totalItems: nat, curPage: int, perPage: int, windowSize: int): (r: Result<seq<int>, PyError>)
    ensures perPage == 0 ==> r == Err(ZeroDivisionError)
    ensures perPage != 0 && windowSize >= 1 ==> r == Ok(Utils.Window(totalItems, curPage, perPage, windowSize))
    ensures perPage != 0 && windowSize < 1 ==> r == Err(UnboundLocalError)
  {
    if perPage == 0 then Err(ZeroDivisionError)
    else
      var allPages := Utils.Pages(1, Utils.NumPages(totalItems, perPage));
      if windowSize >= 1 then
        var pagesWindowStart := Utils.Max(0, Utils.Min(|allPages| - windowSize, (curPage - 1) - Utils.CeilDiv(windowSize, 2)));
        var pagesWindowEnd := pagesWindowStart + windowSize;
        Ok(Slicing.PySlice(allPages, pagesWindowStart, pagesWindowEnd))
      else
        Err(UnboundLocalError)
  }

  /**
   * The discrepancy on a concrete call: 7 jobs, 5 per page, window size 0.
   * The utils.py version lists both pages; this one raises instead.
   */
  lemma PaginationWindowUnbound()
    ensures PaginationWindow(7, 1, 5, 0) == Err(UnboundLocalError)
    ensures Utils.Window(7, 1, 5, 0) == [1, 2]
  {
    Utils.WindowAllPages(7, 1, 5, 0);
    assert Utils.NumPages(7, 5) == 2;
  }

  /** `[a-zA-Z_\.]` */
  predicate IsNameChar(c: char)
  {
    'a' <= c <= 'z' || 'A' <= c <= 'Z' || c == '_' || c == '.'
  }

  /** The length of the longest prefix of `s` made of name characters (what `[a-zA-Z_\.]+` consumes). */
  function NameRunLength(s: string): (k: nat)
    ensures k <= |s|
    ensures forall i :: 0 <= i < k ==> IsNameChar(s[i])
    ensures k < |s| ==> !IsNameChar(s[k])
  {
    if s == [] || !IsNameChar(s[0]) then 0 else 1 + NameRunLength(s[1..])
  }

  /** The length of the longest prefix of `s` without a newline (what `.*` consumes). */
  function LineLength(s: string): (k: nat)
    ensures k <= |s|
    ensures '\n' !in s[..k]
    ensures k < |s| ==> s[k] == '\n'
  {
    if s == [] || s[0] == '\n' then 0
    else
      var k := LineLength(s[1..]);
      assert s[..1 + k] == [s[0]] + s[1..][..k];
      1 + k
  }

  /** What a successful `re.match(r"start\(u?'([a-zA-Z_\.]+)', (.*)", d)` has seen. */
  datatype RegexMatch = RegexMatch(withU: bool, name: string, args: string, tail: string)

  /** The quoted part of a match: `'`, the name, `', `, the arguments, the rest. */
  function Quoted(m: RegexMatch): string
  {
    "'" + (m.name + ("', " + (m.args + m.tail)))
  }

  /** The text a match is read from: `start(`, an optional `u`, then the quoted part. */
  function Render(m: RegexMatch): string
  {
    "start(" + ((if m.withU then "u" else "") + Quoted(m))
  }

  /** The groups respect the character classes: a non-empty name of `[a-zA-Z_\.]`, one line of arguments. */
  predicate WellFormed(m: RegexMatch)
  {
    && |m.name| > 0 && (forall i :: 0 <= i < |m.name| ==> IsNameChar(m.name[i]))
    && '\n' !in m.args
    && (m.tail == [] || m.tail[0] == '\n')
  }

  /** `d` is `start(`, an optional `u`, a quoted name, `', `, a one-line argument text, then anything from a newline on. */
  predicate Decomposes(d: string, m: RegexMatch)
  {
    d == Render(m) && WellFormed(m)
  }

  lemma SplitAt(s: string, k: nat)
    requires k <= |s|
    ensures s == s[..k] + s[k..]
  {
  }

  lemma JoinSplit(s: string, a: string, b: string)
    requires s == a + b
    ensures s[..|a|] == a && s[|a|..] == b
  {
  }

  /** The regular-expression match, written out: `None` when the pattern does not match at the start. */
  function MatchDescription(d: string): (r: Option<RegexMatch>)
    ensures r.Some? ==> Decomposes(d, r.value)
  {
    if |d| < 6 || d[..6] != "start(" then None
    else
      SplitAt(d, 6);
      MatchCall(d[6..])
  }

  /** The match of `u?'([a-zA-Z_\.]+)', (.*)` at the start of `p`: the optional `u` is taken when it is there. */
  function MatchCall(p: string): (r: Option<RegexMatch>)
    ensures r.Some? ==> p == (if r.value.withU then "u" else "") + Quoted(r.value) && WellFormed(r.value)
  {
    if |p| > 0 && p[0] == 'u' then
      SplitAt(p, 1);
      assert p[..1] == "u";
      MatchQuoted(true, p[1..])
    else
      MatchQuoted(false, p)
  }

  /** The match of `'([a-zA-Z_\.]+)', (.*)` at the start of `q`. */
  function MatchQuoted(withU: bool, q: string): (r: Option<RegexMatch>)
    ensures r.Some? ==> r.value.withU == withU && q == Quoted(r.value) && WellFormed(r.value)
  {
    if |q| == 0 || q[0] != '\'' then None
    else
      var body := q[1..];
      var k := NameRunLength(body);
      if k == 0 then None
      else
        SplitAt(q, 1);
        assert q[..1] == "'";
        SplitAt(body, k);
        assert forall i :: 0 <= i < k ==> body[..k][i] == body[i];
        MatchArguments(withU, body[..k], body[k..])
  }

  /** The match of `', (.*)` at the start of `after`, the name already read. */
  function MatchArguments(withU: bool, name: string, after: string): (r: Option<RegexMatch>)
    ensures r.Some? ==> r.value == RegexMatch(withU, name, r.value.args, r.value.tail)
    ensures r.Some? ==> after == "', " + (r.value.args + r.value.tail)
    ensures r.Some? ==> '\n' !in r.value.args && (r.value.tail == [] || r.value.tail[0] == '\n')
  {
    if |after| < 3 || after[..3] != "', " then None
    else
      var rest := after[3..];
      var a := LineLength(rest);
      SplitAt(after, 3);
      SplitAt(rest, a);
      Some(RegexMatch(withU, name, rest[..a], rest[a..]))
  }

  lemma NameRunLengthOf(n: string, rest: string)
    requires forall i :: 0 <= i < |n| ==> IsNameChar(n[i])
    requires rest == [] || !IsNameChar(rest[0])
    ensures NameRunLength(n + rest) == |n|
  {
    if n != [] {
      assert (n + rest)[1..] == n[1..] + rest;
      NameRunLengthOf(n[1..], rest);
    }
  }

  lemma {:induction false} LineLengthOf(a: string, tail: string)
    requires '\n' !in a
    requires tail == [] || tail[0] == '\n'
    ensures LineLength(a + tail) == |a|
  {
    if a != [] {
      assert a[0] != '\n' by {
        assert a[0] in a;
      }
      assert '\n' !in a[1..] by {
        assert forall c :: c in a[1..] ==> c in a;
      }
      assert (a + tail)[1..] == a[1..] + tail;
      LineLengthOf(a[1..], tail);
    }
  }

  /** `', (.*)` finds exactly the one-line arguments and the tail from the newline on. */
  lemma MatchArgumentsComplete(withU: bool, name: string, args: string, tail: string)
    requires '\n' !in args && (tail == [] || tail[0] == '\n')
    ensures MatchArguments(withU, name, "', " + (args + tail)) == Some(RegexMatch(withU, name, args, tail))
  {
    var tailPart := args + tail;
    JoinSplit("', " + tailPart, "', ", tailPart);
    LineLengthOf(args, tail);
    JoinSplit(tailPart, args, tail);
  }

  /** The quoted part of a well-formed match is read back to that match. */
  lemma MatchQuotedComplete(m: RegexMatch)
    requires WellFormed(m)
    ensures MatchQuoted(m.withU, Quoted(m)) == Some(m)
  {
    var after := "', " + (m.args + m.tail);
    var body := m.name + after;
    JoinSplit(Quoted(m), "'", body);
    NameRunLengthOf(m.name, after);
    JoinSplit(body, m.name, after);
    MatchArgumentsComplete(m.withU, m.name, m.args, m.tail);
  }

  /** The optional `u` is taken exactly when the match has it. */
  lemma MatchCallComplete(m: RegexMatch)
    requires WellFormed(m)
    ensures MatchCall((if m.withU then "u" else "") + Quoted(m)) == Some(m)
  {
    var u := if m.withU then "u" else "";
    var q := Quoted(m);
    var p := u + q;
    JoinSplit(p, u, q);
    assert q[0] == '\'';
    MatchQuotedComplete(m);
  }

  /** The match is unique: every decomposition of `d` is the one the regular expression finds. */
  lemma MatchDescriptionComplete(d: string, m: RegexMatch)
    requires Decomposes(d, m)
    ensures MatchDescription(d) == Some(m)
  {
    var p := (if m.withU then "u" else "") + Quoted(m);
    JoinSplit(d, "start(", p);
    MatchCallComplete(m);
  }

  /** The name and arguments `parse_job` extracts from a job's description. */
  datatype JobName = JobName(name: string, args: string)

  /** `parse_job(job)`: the regex groups, or the whole description with empty arguments. */
  function ParseJob(description: string): (r: JobName)
    ensures MatchDescription(description).None? ==> r == JobName(description, "")
    ensures MatchDescription(description).Some? ==>
      var m := MatchDescription(description).value;
      Decomposes(description, m) && r == JobName(m.name, m.args)
  {
    match MatchDescription(description)
    case Some(m) => JobName(m.name, m.args)
    case None => JobName(description, "")
  }

  /** Round trip: a description built from a name and a one-line argument text parses back to them. */
  lemma ParseJobRoundTrip(withU: bool, name: string, args: string)
    requires |name| > 0 && forall i :: 0 <= i < |name| ==> IsNameChar(name[i])
    requires '\n' !in args
    ensures ParseJob("start(" + (if withU then "u" else "") + "'" + name + "', " + args) == JobName(name, args)
  {
    var d := "start(" + (if withU then "u" else "") + "'" + name + "', " + args;
    var m := RegexMatch(withU, name, args, "");
    assert d == "start(" + (if withU then "u" else "") + "'" + name + "', " + args + "";
    MatchDescriptionComplete(d, m);
  }

  /** A description the pattern does not fit is reported whole, with no arguments. */
  lemma ParseJobNoMatch(description: string)
    requires forall m :: !Decomposes(description, m)
    ensures ParseJob(description) == JobName(description, "")
  {
  }

  /** `RQ_DASHBOARD_JOBS_PER_PAGE`'s default. */
  const DefaultPerPage: int := 5
  /** The default `window_size` of `pagination_window`. */
  const WindowSize: int := 10

  /**
   * `list_jobs(queue_name, page)` with the page size read from the
   * configuration (`configuredPerPage`, 5 when absent). A page size of 0
   * raises ZeroDivisionError.
   */
  function ListJobs(queueName: QueueName, queueIds: seq<JobId>, records: map<JobId, Job>, page: int,
                    configuredPerPage: Option<int>, urlFor: Navigation.UrlFor): (r: Result<Web.JobsPage, PyError>)
    ensures configuredPerPage.GetOr(DefaultPerPage) == 0 <==> r.Err?
    ensures r.Err? ==> r.error == ZeroDivisionError
    ensures r.Ok? ==>
      var perPage := configuredPerPage.GetOr(DefaultPerPage);
      var pagination := r.value.pagination;
      && r.value.name == queueName
      && ("prev_page" in pagination <==> page > 1)
      && ("next_page" in pagination <==> page < Utils.CeilDiv(|queueIds|, perPage))
      && "pages_in_window" in pagination
      && pagination["pages_in_window"]
         == Arr(Navigation.PageLinks(Utils.Window(|queueIds|, page, perPage, WindowSize), queueName, urlFor))
      && r.value.jobs == GetJobs(queueIds, records, (page - 1) * perPage, perPage)
  {
    var perPage := configuredPerPage.GetOr(DefaultPerPage);
    match PaginationWindow(|queueIds|, page, perPage, WindowSize)
    case Err(e) => Err(e)
    case Ok(window) => Ok(PageFor(queueName, queueIds, records, page, perPage, window, urlFor))
  }

  /** The response once the window is known: the navigation links and the jobs from offset `(page-1)*per_page`. */
  function PageFor(queueName: QueueName, queueIds: seq<JobId>, records: map<JobId, Job>, page: int, perPage: int,
                   window: seq<int>, urlFor: Navigation.UrlFor): (r: Web.JobsPage)
    requires perPage != 0
    ensures r.name == queueName
    ensures "prev_page" in r.pagination <==> page > 1
    ensures "next_page" in r.pagination <==> page < Utils.CeilDiv(|queueIds|, perPage)
    ensures "pages_in_window" in r.pagination
    ensures r.pagination["pages_in_window"] == Arr(Navigation.PageLinks(window, queueName, urlFor))
    ensures r.jobs == GetJobs(queueIds, records, (page - 1) * perPage, perPage)
  {
    var lastPage := Utils.CeilDiv(|queueIds|, perPage);
    var pagination := Navigation.PaginationDict(window, page, lastPage, queueName, urlFor);
    var offset := (page - 1) * perPage;
    Web.JobsPage(queueName, GetJobs(queueIds, records, offset, perPage), pagination)
  }

  /** With a positive page size, page `p >= 1` lists the surviving jobs of the slice `[(p-1)*per_page, p*per_page)`. */
  lemma ListJobsPage(queueName: QueueName, queueIds: seq<JobId>, records: map<JobId, Job>, page: int,
                     perPage: int, urlFor: Navigation.UrlFor)
    requires page >= 1 && perPage >= 1
    ensures (page - 1) * perPage >= 0
    ensures ListJobs(queueName, queueIds, records, page, Some(perPage), urlFor).Ok?
    ensures var jobs := ListJobs(queueName, queueIds, records, page, Some(perPage), urlFor).value.jobs;
      && jobs == FetchAll(PageSlice(queueIds, (page - 1) * perPage, perPage), records)
      && |jobs| <= perPage
  {
    var offset := (page - 1) * perPage;
    MulNonNegative(page - 1, perPage);
    var window := Utils.Window(|queueIds|, page, perPage, WindowSize);
    var r := ListJobs(queueName, queueIds, records, page, Some(perPage), urlFor);
    var p := PageFor(queueName, queueIds, records, page, perPage, window, urlFor);
    assert r == Ok(p);
    PageJobs(queueIds, records, offset, perPage, p.jobs);
  }

  /** Jobs read from a whole offset with a positive length are the surviving jobs of that slice. */
  lemma PageJobs(queueIds: seq<JobId>, records: map<JobId, Job>, offset: nat, perPage: int, jobs: seq<Job>)
    requires perPage >= 1 && jobs == GetJobs(queueIds, records, offset, perPage)
    ensures jobs == FetchAll(PageSlice(queueIds, offset, perPage), records)
  {
    GetJobsWindow(queueIds, records, offset, perPage);
  }

  /**
   * A configured page size of -1 is passed on to `get_jobs` unchecked: page 1
   * then reads `LRANGE 0 -1` and lists every surviving job of the queue.
   */
  lemma ListJobsWholeQueue(queueName: QueueName, queueIds: seq<JobId>, records: map<JobId, Job>, urlFor: Navigation.UrlFor)
    ensures ListJobs(queueName, queueIds, records, 1, Some(-1), urlFor).Ok?
    ensures ListJobs(queueName, queueIds, records, 1, Some(-1), urlFor).value.jobs == FetchAll(queueIds, records)
  {
    GetJobsToEnd(queueIds, records, 0);
    assert queueIds[0..] == queueIds;
  }

  /** The ids `[offset, offset+length)` of the list, clamped to its end. */
  function PageSlice(ids: seq<JobId>, offset: nat, length: nat): (r: seq<JobId>)
    ensures |r| <= length
  {
    ids[(if offset <= |ids| then offset else |ids|)..(if offset + length <= |ids| then offset + length else |ids|)]
  }

  lemma MulNonNegative(a: int, b: int)
    requires a >= 0 && b >= 0
    ensures a * b >= 0
  {
  }

  const FailedQueueName: QueueName := "failed"
  const TimeoutQueueName: QueueName := "timeout"

  /**
   * `requeue_job_view(job_id)`: asks both the failed and the timeout queue
   * to requeue the job, swallowing whatever either answers, and reports OK.
   */
  method RequeueJobView(jobId: JobId, requeue: (QueueName, JobId) -> Outcome) returns (status: string, issued: seq<Command>)
    ensures status == "OK"
    ensures issued == [RequeueFrom(FailedQueueName, jobId), RequeueFrom(TimeoutQueueName, jobId)]
  {
    issued := [RequeueFrom(FailedQueueName, jobId)];
    var ignoredFailed := requeue(FailedQueueName, jobId);
    issued := issued + [RequeueFrom(TimeoutQueueName, jobId)];
    var ignoredTimeout := requeue(TimeoutQueueName, jobId);
    status := "OK";
  }

  /** `RequeueFrom(source, id)` for each id, in order. */
  function RequeuesFrom(source: QueueName, ids: seq<JobId>): (r: seq<Command>)
    ensures |r| == |ids|
    ensures forall k :: 0 <= k < |ids| ==> r[k] == RequeueFrom(source, ids[k])
  {
    seq(|ids|, k requires 0 <= k < |ids| => RequeueFrom(source, ids[k]))
  }

  /**
   * `requeue_queue(queue_name)`: takes the timeout queue for "timeout" and
   * the failed queue otherwise, snapshots its ids, and requeues each; an
   * InvalidJobOperationError is skipped, any other failure aborts.
   */
  method RequeueQueue(queueName: QueueName, failedIds: seq<JobId>, timeoutIds: seq<JobId>,
                      requeue: (QueueName, JobId) -> Outcome)
    returns (result: Result<nat, Outcome>, issued: seq<Command>)
    ensures var source := if queueName == TimeoutQueueName then TimeoutQueueName else FailedQueueName;
      var ids := if queueName == TimeoutQueueName then timeoutIds else failedIds;
      && |issued| <= |ids| && issued == RequeuesFrom(source, ids[..|issued|])
      && (result.Ok? <==> forall k :: 0 <= k < |ids| ==> !requeue(source, ids[k]).Failure?)
      && (result.Ok? ==> result.value == |ids| && |issued| == |ids|)
      && (result.Err? ==>
          && |issued| > 0
          && result.error == requeue(source, ids[|issued| - 1])
          && result.error.Failure?
          && forall k :: 0 <= k < |issued| - 1 ==> !requeue(source, ids[k]).Failure?)
  {
    var source := if queueName == TimeoutQueueName then TimeoutQueueName else FailedQueueName;
    var jobIds := if queueName == TimeoutQueueName then timeoutIds else failedIds;
    var count := |jobIds|;
    issued := [];
    for i := 0 to |jobIds|
      invariant issued == RequeuesFrom(source, jobIds[..i])
      invariant forall k :: 0 <= k < i ==> !requeue(source, jobIds[k]).Failure?
    {
      issued := issued + [RequeueFrom(source, jobIds[i])];
      var outcome := requeue(source, jobIds[i]);
      if outcome.Failure? {
        result := Err(outcome);
        return;
      }
    }
    result := Ok(count);
  }

  /** The ids, in order, whose job still exists. */
  function Existing(ids: seq<JobId>, live: set<JobId>): (r: seq<JobId>)
    ensures |r| <= |ids|
    ensures forall id :: id in r <==> id in ids && id in live
  {
    if ids == [] then []
    else
      var init := ids[..|ids| - 1];
      assert ids == init + [ids[|ids| - 1]];
      Existing(init, live) + (if ids[|ids| - 1] in live then [ids[|ids| - 1]] else [])
  }

  /** `cancel_job(id)` for each id, in order. */
  function Cancels(ids: seq<JobId>): (r: seq<Command>)
    ensures |r| == |ids|
    ensures forall k :: 0 <= k < |ids| ==> r[k] == CancelJob(ids[k])
  {
    seq(|ids|, k requires 0 <= k < |ids| => CancelJob(ids[k]))
  }

  /**
   * `cancel_all(queue_name)`: cancels, in queue order, every id whose job
   * exists when checked (`live` is the store's answer), counting them.
   */
  method CancelAll(queueIds: seq<JobId>, live: set<JobId>) returns (count: nat, cancelled: seq<Command>)
    ensures cancelled == Cancels(Existing(queueIds, live))
    ensures count == |cancelled|
    ensures forall c: Command :: c in cancelled <==> c.CancelJob? && c.id in queueIds && c.id in live
  {
    count := 0;
    cancelled := [];
    for i := 0 to |queueIds|
      invariant cancelled == Cancels(Existing(queueIds[..i], live))
      invariant count == |cancelled|
    {
      assert queueIds[..i + 1][..i] == queueIds[..i];
      if queueIds[i] in live {
        CancelsAppend(Existing(queueIds[..i], live), queueIds[i]);
        cancelled := cancelled + [CancelJob(queueIds[i])];
        count := count + 1;
      }
    }
    assert queueIds[..|queueIds|] == queueIds;
    CancelsMembers(Existing(queueIds, live));
  }

  /** Cancelling one more id appends one command. */
  lemma CancelsAppend(ids: seq<JobId>, id: JobId)
    ensures Cancels(ids + [id]) == Cancels(ids) + [CancelJob(id)]
  {
  }

  /** The commands cancel exactly the given ids. */
  lemma CancelsMembers(ids: seq<JobId>)
    ensures forall c: Command :: c in Cancels(ids) <==> c.CancelJob? && c.id in ids
  {
    var r := Cancels(ids);
    forall c: Command | c in r ensures c.CancelJob? && c.id in ids {
      var k :| 0 <= k < |r| && r[k] == c;
      assert ids[k] in ids;
    }
    forall c: Command | c.CancelJob? && c.id in ids ensures c in r {
      var k :| 0 <= k < |ids| && ids[k] == c.id;
      assert r[k] == c;
    }
  }

  /** `empty_all_queues()`: empties every queue, in `Queue.all()` order. */
  method EmptyAllQueues(queues: seq<QueueName>) returns (issued: seq<Command>)
    ensures |issued| == |queues|
    ensures forall k :: 0 <= k < |queues| ==> issued[k] == EmptyQueue(queues[k])
  {
    issued := [];
    for i := 0 to |queues|
      invariant |issued| == i
      invariant forall k :: 0 <= k < i ==> issued[k] == EmptyQueue(queues[k])
    {
      issued := issued + [EmptyQueue(queues[i])];
    }
  }
}
