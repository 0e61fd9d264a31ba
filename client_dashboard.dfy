/**
 * The browser side of the dashboard page: how the queue list is split over
 * the queues table and the job-names table, and how the workers table is
 * filled, either one row per group of workers serving the same queues or one
 * row per worker with its state rewritten to an icon name.
 *
 * The tables are sequences of rows, appended to in the order the script
 * appends them; the HTML templates are left out.
 */
module ClientDashboard {
  import opened Wrappers
  import Text
  import Tally

  // ---------------------------------------------------------------- queues

  /** One queue as the queues endpoint reports it. */
  datatype QueueInfo = QueueInfo(name: string, count: int)

  /** A row of either queue table, or the placeholder row of an empty list. */
  datatype Row =
    | QueueRow(queue: QueueInfo, failedMark: bool)
    | JobNameRow(queue: QueueInfo)
    | NoQueuesRow
    | NoJobNamesRow

  /** `queue.name.match(/^tasks/)`. */
  predicate IsTasks(name: string)
  {
    Text.StartsWith(name, "tasks")
  }

  /** The failed queue gets its special markup only while it holds jobs. */
  predicate IsSpecialFailed(q: QueueInfo)
  {
    q.name == "failed" && q.count > 0
  }

  /** The special failed queue never matches `/^tasks/`. */
  lemma SpecialIsNotTasks(q: QueueInfo)
    requires IsSpecialFailed(q)
    ensures !IsTasks(q.name)
  {
    assert q.name[0] == 'f';
  }

  /** The rows the loop appends to the job-names table: the `tasks*` queues, in order. */
  function JobNameRows(qs: seq<QueueInfo>): (rows: seq<Row>)
    ensures forall r :: r in rows ==> r.JobNameRow? && r.queue in qs && IsTasks(r.queue.name)
    ensures forall q :: q in qs && IsTasks(q.name) ==> JobNameRow(q) in rows
  {
    if qs == [] then []
    else
      var init, q := qs[..|qs| - 1], qs[|qs| - 1];
      assert qs == init + [q];
      if IsSpecialFailed(q) then
        SpecialIsNotTasks(q);
        JobNameRows(init)
      else if IsTasks(q.name) then JobNameRows(init) + [JobNameRow(q)]
      else JobNameRows(init)
  }

  /** The rows the loop appends to the queues table as it goes: every other queue except the special failed one. */
  function PlainRows(qs: seq<QueueInfo>): (rows: seq<Row>)
    ensures forall r :: r in rows ==>
      (r.QueueRow? && !r.failedMark && r.queue in qs && !IsTasks(r.queue.name) && !IsSpecialFailed(r.queue))
    ensures forall q :: q in qs && !IsTasks(q.name) && !IsSpecialFailed(q) ==> QueueRow(q, false) in rows
  {
    if qs == [] then []
    else
      var init, q := qs[..|qs| - 1], qs[|qs| - 1];
      assert qs == init + [q];
      if IsSpecialFailed(q) || IsTasks(q.name) then PlainRows(init)
      else PlainRows(init) + [QueueRow(q, false)]
  }

  /** The queue held in `$fq` after the loop: the last special failed queue, if any. */
  function LastFailed(qs: seq<QueueInfo>): (f: Option<QueueInfo>)
    ensures f.Some? ==> f.value in qs && IsSpecialFailed(f.value)
    ensures f.None? <==> forall q :: q in qs ==> !IsSpecialFailed(q)
  {
    if qs == [] then None
    else
      var init, q := qs[..|qs| - 1], qs[|qs| - 1];
      assert qs == init + [q];
      if IsSpecialFailed(q) then Some(q) else LastFailed(init)
  }

  /**
   * The queues table once the script is done: a placeholder for an empty list, and
   * otherwise a row for every queue not matching `/^tasks/` and for no other; of the
   * special failed queues only the last one, held in `$fq`, gets its marked row.
   */
  function QueuesTable(qs: seq<QueueInfo>): (rows: seq<Row>)
    ensures qs == [] ==> rows == [NoQueuesRow]
    ensures qs != [] ==> forall r :: r in rows ==> r.QueueRow? && r.queue in qs && !IsTasks(r.queue.name)
    ensures forall q :: q in qs && !IsTasks(q.name) && !IsSpecialFailed(q) ==> QueueRow(q, false) in rows
    ensures LastFailed(qs).Some? ==> QueueRow(LastFailed(qs).value, true) in rows
    ensures forall r :: r in rows && r.QueueRow? && IsSpecialFailed(r.queue) ==> r == QueueRow(LastFailed(qs).value, true)
  {
    if |qs| == 0 then [NoQueuesRow]
    else
      var plain := PlainRows(qs);
      match LastFailed(qs)
      case Some(f) =>
        SpecialIsNotTasks(f);
        plain + [QueueRow(f, true)]
      case None => plain
  }

  /**
   * The job-names table once the script is done: a placeholder for an empty list, and
   * otherwise a row for every queue matching `/^tasks/` and for no other.
   */
  function JobNamesTable(qs: seq<QueueInfo>): (rows: seq<Row>)
    ensures qs == [] ==> rows == [NoJobNamesRow]
    ensures qs != [] ==> forall r :: r in rows ==> r.JobNameRow? && r.queue in qs && IsTasks(r.queue.name)
    ensures forall q :: q in qs && IsTasks(q.name) ==> JobNameRow(q) in rows
  {
    if |qs| == 0 then [NoJobNamesRow] else JobNameRows(qs)
  }

  /**
   * The queue-list callback: route each queue to its table, hold back the
   * failed queue while it has jobs and append it last; an empty list gets a
   * placeholder row in each table.
   */
  method RouteQueues(queues: seq<QueueInfo>) returns (queueRows: seq<Row>, jobNameRows: seq<Row>)
    ensures queueRows == QueuesTable(queues)
    ensures jobNameRows == JobNamesTable(queues)
  {
    queueRows, jobNameRows := [], [];
    if |queues| > 0 {
      var fq: Option<QueueInfo> := None;
      for i := 0 to |queues|
        invariant queueRows == PlainRows(queues[..i])
        invariant jobNameRows == JobNameRows(queues[..i])
        invariant fq == LastFailed(queues[..i])
      {
        var queue := queues[i];
        RouteStep(queues, i);
        if IsSpecialFailed(queue) {
          fq := Some(queue);
        } else if IsTasks(queue.name) {
          jobNameRows := jobNameRows + [JobNameRow(queue)];
        } else {
          queueRows := queueRows + [QueueRow(queue, false)];
        }
      }
      assert queues[..|queues|] == queues;
      if fq.Some? {
        queueRows := queueRows + [QueueRow(fq.value, true)];
      }
    } else {
      queueRows := queueRows + [NoQueuesRow];
      jobNameRows := jobNameRows + [NoJobNamesRow];
    }
  }

  /** What the routing loop's state becomes after one more queue. */
  lemma RouteStep(qs: seq<QueueInfo>, i: nat)
    requires i < |qs|
    ensures var q := qs[i];
      && PlainRows(qs[..i + 1]) == PlainRows(qs[..i]) + (if IsSpecialFailed(q) || IsTasks(q.name) then [] else [QueueRow(q, false)])
      && JobNameRows(qs[..i + 1]) == JobNameRows(qs[..i]) + (if !IsSpecialFailed(q) && IsTasks(q.name) then [JobNameRow(q)] else [])
      && LastFailed(qs[..i + 1]) == if IsSpecialFailed(q) then Some(q) else LastFailed(qs[..i])
  {
    assert qs[..i + 1][..i] == qs[..i];
  }

  /** The job-names rows of a concatenation are those of each part, one after the other. */
  lemma {:induction false} JobNameRowsAppend(a: seq<QueueInfo>, b: seq<QueueInfo>)
    ensures JobNameRows(a + b) == JobNameRows(a) + JobNameRows(b)
  {
    if b != [] {
      var init := b[..|b| - 1];
      assert (a + b)[..|a + b| - 1] == a + init;
      JobNameRowsAppend(a, init);
    } else {
      assert a + b == a;
    }
  }

  /** The plain queue rows of a concatenation are those of each part, one after the other. */
  lemma {:induction false} PlainRowsAppend(a: seq<QueueInfo>, b: seq<QueueInfo>)
    ensures PlainRows(a + b) == PlainRows(a) + PlainRows(b)
  {
    if b != [] {
      var init := b[..|b| - 1];
      assert (a + b)[..|a + b| - 1] == a + init;
      PlainRowsAppend(a, init);
    } else {
      assert a + b == a;
    }
  }

  /** Routing keeps order: the rows of a concatenation are the rows of each part, one after the other. */
  lemma RoutingKeepsOrder(a: seq<QueueInfo>, b: seq<QueueInfo>)
    ensures JobNameRows(a + b) == JobNameRows(a) + JobNameRows(b)
    ensures PlainRows(a + b) == PlainRows(a) + PlainRows(b)
  {
    JobNameRowsAppend(a, b);
    PlainRowsAppend(a, b);
  }

  /** The number of queues that get the failed markup. */
  function SpecialCount(qs: seq<QueueInfo>): nat
  {
    if qs == [] then 0
    else SpecialCount(qs[..|qs| - 1]) + (if IsSpecialFailed(qs[|qs| - 1]) then 1 else 0)
  }

  /** Every queue lands in exactly one of the job-names rows, the plain rows and the held-back failed queues. */
  lemma {:induction false} RoutingPartitions(qs: seq<QueueInfo>)
    ensures |JobNameRows(qs)| + |PlainRows(qs)| + SpecialCount(qs) == |qs|
  {
    if qs != [] {
      var q := qs[|qs| - 1];
      RoutingPartitions(qs[..|qs| - 1]);
      if IsSpecialFailed(q) {
        SpecialIsNotTasks(q);
      }
    }
  }

  /**
   * With at most one failed queue holding jobs, a non-empty list yields
   * exactly one row per queue across the two tables.
   */
  lemma OneRowPerQueue(qs: seq<QueueInfo>)
    requires |qs| > 0 && SpecialCount(qs) <= 1
    ensures |QueuesTable(qs)| + |JobNamesTable(qs)| == |qs|
  {
    RoutingPartitions(qs);
    SpecialCountMatches(qs);
  }

  /**
   * The failed markup appears on one row at most: the last row of the queues
   * table, present exactly when some failed queue holds jobs.
   */
  lemma FailedRowLast(qs: seq<QueueInfo>)
    requires |qs| > 0
    ensures forall k :: 0 <= k < |QueuesTable(qs)| && QueuesTable(qs)[k].QueueRow? && QueuesTable(qs)[k].failedMark ==>
      (k == |QueuesTable(qs)| - 1 && LastFailed(qs).Some?)
    ensures LastFailed(qs).Some? ==>
      |QueuesTable(qs)| > 0 && QueuesTable(qs)[|QueuesTable(qs)| - 1] == QueueRow(LastFailed(qs).value, true)
  {
    var plain := PlainRows(qs);
    var t := QueuesTable(qs);
    forall k | 0 <= k < |t| && t[k].QueueRow? && t[k].failedMark
      ensures k == |t| - 1 && LastFailed(qs).Some?
    {
    }
  }

  /** There is a failed queue with jobs exactly when the count is positive. */
  lemma {:induction false} SpecialCountMatches(qs: seq<QueueInfo>)
    ensures SpecialCount(qs) == 0 <==> LastFailed(qs).None?
  {
    if qs != [] {
      SpecialCountMatches(qs[..|qs| - 1]);
    }
  }

  // ---------------------------------------------------------------- workers

  /** One worker as the workers endpoint reports it. */
  datatype Worker = Worker(queues: seq<string>, state: string)

  /** One row of the grouped workers table; `href` is `false` in the script when absent. */
  datatype Group = Group(busyCount: nat, idleCount: nat, queues: seq<string>, href: Option<string>)

  /** One entry of `HEROKU_WORKERS`: a Heroku app and the queue list (space-separated) its workers serve. */
  datatype HerokuEntry = HerokuEntry(app: string, queues: string)

  const HerokuAppsUrl: string := "https://dashboard.heroku.com/apps/"

  /** `xs.join(sep)`. */
  function JoinWith(xs: seq<string>, sep: string): string
  {
    if |xs| == 0 then ""
    else if |xs| == 1 then xs[0]
    else xs[0] + sep + JoinWith(xs[1..], sep)
  }

  /** The key a worker is grouped under: its queue names joined with ", ". */
  function GroupKey(w: Worker): string
  {
    JoinWith(w.queues, ", ")
  }

  /** The link for a worker's queues: built from the last entry whose queue list matches, if any. */
  function HerokuHref(apps: seq<HerokuEntry>, queues: seq<string>): (href: Option<string>)
    ensures href.None? <==> forall e :: e in apps ==> e.queues != JoinWith(queues, " ")
  {
    if apps == [] then None
    else
      var init, e := apps[..|apps| - 1], apps[|apps| - 1];
      assert apps == init + [e];
      if e.queues == JoinWith(queues, " ") then Some(HerokuAppsUrl + e.app) else HerokuHref(init, queues)
  }

  /** The link comes from the last matching entry, whatever earlier entries say. */
  lemma {:induction false} HerokuHrefLast(apps: seq<HerokuEntry>, queues: seq<string>, i: nat)
    requires i < |apps| && apps[i].queues == JoinWith(queues, " ")
    requires forall j :: i < j < |apps| ==> apps[j].queues != JoinWith(queues, " ")
    ensures HerokuHref(apps, queues) == Some(HerokuAppsUrl + apps[i].app)
  {
    if i < |apps| - 1 {
      HerokuHrefLast(apps[..|apps| - 1], queues, i);
    }
  }

  /** The group keys of the workers, one per worker, in order. */
  function Keys(ws: seq<Worker>): (keys: seq<string>)
    ensures |keys| == |ws|
    ensures forall i :: 0 <= i < |ws| ==> keys[i] == GroupKey(ws[i])
  {
    if ws == [] then [] else Keys(ws[..|ws| - 1]) + [GroupKey(ws[|ws| - 1])]
  }

  /** The group keys of the busy workers, in order. */
  function BusyKeys(ws: seq<Worker>): (keys: seq<string>)
    ensures forall k :: k in keys ==> k in Keys(ws)
  {
    if ws == [] then []
    else
      var w := ws[|ws| - 1];
      BusyKeys(ws[..|ws| - 1]) + (if w.state == "busy" then [GroupKey(w)] else [])
  }

  /** The group keys of all other workers, in order. */
  function IdleKeys(ws: seq<Worker>): (keys: seq<string>)
    ensures forall k :: k in keys ==> k in Keys(ws)
  {
    if ws == [] then []
    else
      var w := ws[|ws| - 1];
      IdleKeys(ws[..|ws| - 1]) + (if w.state == "busy" then [] else [GroupKey(w)])
  }

  /** A group after counting one more worker: `busy` goes to the busy count, any other state to the idle count. */
  function Counted(g: Group, w: Worker): Group
  {
    if w.state == "busy" then g.(busyCount := g.busyCount + 1) else g.(idleCount := g.idleCount + 1)
  }

  /** `worker_groups` after the callback has handled one more worker. */
  function AddTo(groups: map<string, Group>, w: Worker, apps: seq<HerokuEntry>): (updated: map<string, Group>)
    ensures updated.Keys == groups.Keys + {GroupKey(w)}
  {
    var k := GroupKey(w);
    var base := if k in groups then groups[k] else Group(0, 0, w.queues, None);
    groups[k := Counted(base, w).(href := HerokuHref(apps, w.queues))]
  }

  /** `worker_groups` after the grouping loop has seen the workers `ws`. */
  function Groups(ws: seq<Worker>, apps: seq<HerokuEntry>): (groups: map<string, Group>)
    ensures forall k :: k in groups <==> k in Keys(ws)
  {
    if ws == [] then map[] else AddTo(Groups(ws[..|ws| - 1], apps), ws[|ws| - 1], apps)
  }

  /** The grouped table: one row per group, in the order the groups were first created. */
  function GroupRows(ws: seq<Worker>, apps: seq<HerokuEntry>): seq<Group>
  {
    RowsFor(Groups(ws, apps), Tally.Distinct(Keys(ws)))
  }

  /** The groups named by `order`, in that order. */
  function RowsFor(groups: map<string, Group>, order: seq<string>): (rows: seq<Group>)
    requires forall x :: x in order ==> x in groups
    ensures |rows| == |order| && forall i :: 0 <= i < |order| ==> rows[i] == groups[order[i]]
  {
    seq(|order|, i requires 0 <= i < |order| => groups[order[i]])
  }

  /** The inner `_.each` over `HEROKU_WORKERS`: the link is reset, then overwritten by every matching entry. */
  method HrefFor(apps: seq<HerokuEntry>, queues: seq<string>) returns (href: Option<string>)
    ensures href == HerokuHref(apps, queues)
  {
    href := None;
    for j := 0 to |apps|
      invariant href == HerokuHref(apps[..j], queues)
    {
      assert apps[..j + 1][..j] == apps[..j];
      if apps[j].queues == JoinWith(queues, " ") {
        href := Some(HerokuAppsUrl + apps[j].app);
      }
    }
    assert apps[..|apps|] == apps;
  }

  /** The per-worker callback of the grouping loop: create the group if needed, count the worker, set the link. */
  method AddWorker(groups: map<string, Group>, worker: Worker, apps: seq<HerokuEntry>) returns (updated: map<string, Group>)
    ensures updated == AddTo(groups, worker, apps)
  {
    updated := groups;
    var q := JoinWith(worker.queues, ", ");
    if q !in updated {
      updated := updated[q := Group(0, 0, worker.queues, None)];
    }
    if worker.state == "busy" {
      updated := updated[q := updated[q].(busyCount := updated[q].busyCount + 1)];
    } else {
      updated := updated[q := updated[q].(idleCount := updated[q].idleCount + 1)];
    }
    var href := HrefFor(apps, worker.queues);
    updated := updated[q := updated[q].(href := href)];
  }

  /** The grouped branch of the workers callback. */
  method GroupWorkers(workers: seq<Worker>, apps: seq<HerokuEntry>) returns (rows: seq<Group>)
    ensures rows == GroupRows(workers, apps)
  {
    var groups: map<string, Group> := map[];
    var order: seq<string> := [];
    for i := 0 to |workers|
      invariant groups == Groups(workers[..i], apps)
      invariant order == Tally.Distinct(Keys(workers[..i]))
    {
      DistinctStep(workers, apps, i);
      if GroupKey(workers[i]) !in groups {
        order := order + [GroupKey(workers[i])];
      }
      groups := AddWorker(groups, workers[i], apps);
    }
    assert workers[..|workers|] == workers;
    rows := EmitGroups(groups, order);
  }

  /** The `$.each` over `worker_groups`: one row per group, in key order. */
  method EmitGroups(groups: map<string, Group>, order: seq<string>) returns (rows: seq<Group>)
    requires forall x :: x in order ==> x in groups
    ensures rows == RowsFor(groups, order)
  {
    rows := [];
    for k := 0 to |order|
      invariant rows == RowsFor(groups, order[..k])
    {
      assert order[..k + 1] == order[..k] + [order[k]];
      rows := rows + [groups[order[k]]];
    }
  }

  /** The first-occurrence order of the keys grows by the new key exactly when it is new. */
  lemma DistinctStep(ws: seq<Worker>, apps: seq<HerokuEntry>, i: nat)
    requires i < |ws|
    ensures Keys(ws[..i + 1]) == Keys(ws[..i]) + [GroupKey(ws[i])]
    ensures Groups(ws[..i + 1], apps) == AddTo(Groups(ws[..i], apps), ws[i], apps)
    ensures Tally.Distinct(Keys(ws[..i + 1]))
      == var d := Tally.Distinct(Keys(ws[..i])); if GroupKey(ws[i]) in d then d else d + [GroupKey(ws[i])]
  {
    assert ws[..i + 1][..i] == ws[..i];
    var ks := Keys(ws[..i + 1]);
    assert ks[..|ks| - 1] == Keys(ws[..i]);
  }

  /** The key sequences after one more worker. */
  lemma KeysStep(ws: seq<Worker>)
    requires |ws| > 0
    ensures var init, w := ws[..|ws| - 1], ws[|ws| - 1];
      && Keys(ws) == Keys(init) + [GroupKey(w)]
      && BusyKeys(ws) == BusyKeys(init) + (if w.state == "busy" then [GroupKey(w)] else [])
      && IdleKeys(ws) == IdleKeys(init) + (if w.state == "busy" then [] else [GroupKey(w)])
  {
  }

  /** One more worker adds one to the busy count of its own group when it is busy, and changes no other busy count. */
  lemma GroupStepBusy(ws: seq<Worker>, apps: seq<HerokuEntry>, k: string)
    requires |ws| > 0 && k in Keys(ws)
    ensures var init, w := ws[..|ws| - 1], ws[|ws| - 1];
      var prev := Groups(init, apps);
      Groups(ws, apps)[k].busyCount
        == (if k in prev then prev[k].busyCount else 0) + (if k == GroupKey(w) && w.state == "busy" then 1 else 0)
  {
    var init, w := ws[..|ws| - 1], ws[|ws| - 1];
    var prev := Groups(init, apps);
    if k == GroupKey(w) && k !in prev {
      assert Groups(ws, apps)[k] == Counted(Group(0, 0, w.queues, None), w).(href := HerokuHref(apps, w.queues));
    }
  }

  /** One more worker adds one to the idle count of its own group when it is not busy, and changes no other idle count. */
  lemma GroupStepIdle(ws: seq<Worker>, apps: seq<HerokuEntry>, k: string)
    requires |ws| > 0 && k in Keys(ws)
    ensures var init, w := ws[..|ws| - 1], ws[|ws| - 1];
      var prev := Groups(init, apps);
      Groups(ws, apps)[k].idleCount
        == (if k in prev then prev[k].idleCount else 0) + (if k == GroupKey(w) && w.state != "busy" then 1 else 0)
  {
    var init, w := ws[..|ws| - 1], ws[|ws| - 1];
    var prev := Groups(init, apps);
    if k == GroupKey(w) && k !in prev {
      assert Groups(ws, apps)[k] == Counted(Group(0, 0, w.queues, None), w).(href := HerokuHref(apps, w.queues));
    }
  }

  /** A group's busy count is the number of its busy workers. */
  lemma {:induction false} GroupBusyCount(ws: seq<Worker>, apps: seq<HerokuEntry>, k: string)
    requires k in Keys(ws)
    ensures Groups(ws, apps)[k].busyCount == Tally.Count(BusyKeys(ws), k)
  {
    var init, w := ws[..|ws| - 1], ws[|ws| - 1];
    KeysStep(ws);
    GroupStepBusy(ws, apps, k);
    if w.state == "busy" {
      CountAppend(BusyKeys(init), GroupKey(w), k);
    } else {
      assert BusyKeys(ws) == BusyKeys(init);
    }
    if k in Keys(init) {
      GroupBusyCount(init, apps, k);
    } else {
      assert k !in BusyKeys(init);
    }
  }

  /** A group's idle count is the number of its other workers. */
  lemma {:induction false} GroupIdleCount(ws: seq<Worker>, apps: seq<HerokuEntry>, k: string)
    requires k in Keys(ws)
    ensures Groups(ws, apps)[k].idleCount == Tally.Count(IdleKeys(ws), k)
  {
    var init, w := ws[..|ws| - 1], ws[|ws| - 1];
    KeysStep(ws);
    GroupStepIdle(ws, apps, k);
    if w.state == "busy" {
      assert IdleKeys(ws) == IdleKeys(init);
    } else {
      CountAppend(IdleKeys(init), GroupKey(w), k);
    }
    if k in Keys(init) {
      GroupIdleCount(init, apps, k);
    } else {
      assert k !in IdleKeys(init);
    }
  }

  /** Every worker is either busy or not: the two key sequences share out the occurrences of each key. */
  lemma {:induction false} KeysCountSplit(ws: seq<Worker>, k: string)
    ensures Tally.Count(Keys(ws), k) == Tally.Count(BusyKeys(ws), k) + Tally.Count(IdleKeys(ws), k)
  {
    if ws != [] {
      var init, w := ws[..|ws| - 1], ws[|ws| - 1];
      KeysStep(ws);
      KeysCountSplit(init, k);
      CountAppend(Keys(init), GroupKey(w), k);
      if w.state == "busy" {
        CountAppend(BusyKeys(init), GroupKey(w), k);
        assert IdleKeys(ws) == IdleKeys(init);
      } else {
        CountAppend(IdleKeys(init), GroupKey(w), k);
        assert BusyKeys(ws) == BusyKeys(init);
      }
    }
  }

  /** A group's counts are the numbers of its busy and other workers, and they add up to its size. */
  lemma GroupCounts(ws: seq<Worker>, apps: seq<HerokuEntry>, k: string)
    requires k in Keys(ws)
    ensures Groups(ws, apps)[k].busyCount == Tally.Count(BusyKeys(ws), k)
    ensures Groups(ws, apps)[k].idleCount == Tally.Count(IdleKeys(ws), k)
    ensures Groups(ws, apps)[k].busyCount + Groups(ws, apps)[k].idleCount == Tally.Count(Keys(ws), k)
  {
    GroupBusyCount(ws, apps, k);
    GroupIdleCount(ws, apps, k);
    KeysCountSplit(ws, k);
  }

  /** Counting in a sequence extended by one element. */
  lemma CountAppend(xs: seq<string>, y: string, k: string)
    ensures Tally.Count(xs + [y], k) == Tally.Count(xs, k) + (if y == k then 1 else 0)
  {
    assert (xs + [y])[..|xs + [y]| - 1] == xs;
  }

  /** A group shows the queue list of the first worker that created it. */
  lemma {:induction false} GroupQueuesFirst(ws: seq<Worker>, apps: seq<HerokuEntry>, i: nat)
    requires i < |ws|
    requires forall j :: 0 <= j < i ==> GroupKey(ws[j]) != GroupKey(ws[i])
    ensures GroupKey(ws[i]) in Groups(ws, apps)
    ensures Groups(ws, apps)[GroupKey(ws[i])].queues == ws[i].queues
  {
    var init := ws[..|ws| - 1];
    if i < |ws| - 1 {
      GroupQueuesFirst(init, apps, i);
    } else {
      assert GroupKey(ws[i]) !in Keys(init);
    }
  }

  /** A group's link is the one computed for the last worker that joined it. */
  lemma {:induction false} GroupHrefLast(ws: seq<Worker>, apps: seq<HerokuEntry>, i: nat)
    requires i < |ws|
    requires forall j :: i < j < |ws| ==> GroupKey(ws[j]) != GroupKey(ws[i])
    ensures GroupKey(ws[i]) in Groups(ws, apps)
    ensures Groups(ws, apps)[GroupKey(ws[i])].href == HerokuHref(apps, ws[i].queues)
  {
    if i < |ws| - 1 {
      GroupHrefLast(ws[..|ws| - 1], apps, i);
    }
  }

  /** The total number of workers the rows account for. */
  function TotalWorkers(rows: seq<Group>): nat
  {
    if rows == [] then 0 else TotalWorkers(rows[..|rows| - 1]) + rows[|rows| - 1].busyCount + rows[|rows| - 1].idleCount
  }

  /** Summing the sizes of groups whose sizes are the key counts gives the sum of the counts. */
  lemma {:induction false} TotalOverKeys(groups: map<string, Group>, order: seq<string>, keys: seq<string>)
    requires forall x :: x in order ==> x in groups && groups[x].busyCount + groups[x].idleCount == Tally.Count(keys, x)
    ensures TotalWorkers(RowsFor(groups, order)) == Tally.SumCounts(order, keys)
  {
    if order != [] {
      var init := order[..|order| - 1];
      var rows := RowsFor(groups, order);
      assert forall x :: x in init ==> x in order;
      TotalOverKeys(groups, init, keys);
      assert rows[..|rows| - 1] == RowsFor(groups, init);
    }
  }

  /** Every worker is counted exactly once: the rows of the grouped table account for all workers. */
  lemma GroupsCoverAllWorkers(ws: seq<Worker>, apps: seq<HerokuEntry>)
    ensures TotalWorkers(GroupRows(ws, apps)) == |ws|
  {
    var groups, order := Groups(ws, apps), Tally.Distinct(Keys(ws));
    forall x | x in order
      ensures x in groups && groups[x].busyCount + groups[x].idleCount == Tally.Count(Keys(ws), x)
    {
      GroupCounts(ws, apps, x);
    }
    TotalOverKeys(groups, order, Keys(ws));
    Tally.CountsSumToLength(Keys(ws));
  }

  /** The icon the ungrouped table shows for a state. */
  function StateIcon(state: string): (icon: string)
    ensures icon == "play" <==> state == "busy"
    ensures icon == "play" || icon == "pause"
  {
    if state == "busy" then "play" else "pause"
  }

  /** The ungrouped branch: rewrite every worker's state in place to its icon name. */
  method MarkStates(workers: array<Worker>)
    modifies workers
    ensures forall i :: 0 <= i < workers.Length ==>
      workers[i] == old(workers[i]).(state := StateIcon(old(workers[i]).state))
  {
    for i := 0 to workers.Length
      invariant forall k :: 0 <= k < i ==> workers[k] == old(workers[k]).(state := StateIcon(old(workers[k]).state))
      invariant forall k :: i <= k < workers.Length ==> workers[k] == old(workers[k])
    {
      var worker := workers[i];
      if worker.state == "busy" {
        workers[i] := worker.(state := "play");
      } else {
        workers[i] := worker.(state := "pause");
      }
    }
  }

  /** A row of the workers table. */
  datatype WorkerRow = GroupRow(group: Group) | SingleRow(worker: Worker) | NoWorkersRow

  /** The grouped rows as rows of the workers table. */
  function AsGroupRows(groups: seq<Group>): (rows: seq<WorkerRow>)
    ensures |rows| == |groups| && forall i :: 0 <= i < |groups| ==> rows[i] == GroupRow(groups[i])
  {
    seq(|groups|, i requires 0 <= i < |groups| => GroupRow(groups[i]))
  }

  /** The marked workers as rows of the workers table. */
  function AsSingleRows(workers: seq<Worker>): (rows: seq<WorkerRow>)
    ensures |rows| == |workers| && forall i :: 0 <= i < |workers| ==> rows[i] == SingleRow(workers[i])
  {
    seq(|workers|, i requires 0 <= i < |workers| => SingleRow(workers[i]))
  }

  /** The workers callback: a placeholder row, the grouped rows, or one row per worker after marking its state. */
  method ReloadWorkers(workers: array<Worker>, groupWorkers: bool, apps: seq<HerokuEntry>) returns (rows: seq<WorkerRow>)
    modifies workers
    ensures workers.Length == 0 ==> rows == [NoWorkersRow]
    ensures workers.Length > 0 && groupWorkers ==>
      workers[..] == old(workers[..]) && rows == AsGroupRows(GroupRows(workers[..], apps))
    ensures workers.Length > 0 && !groupWorkers ==>
      (forall i :: 0 <= i < workers.Length ==> workers[i] == old(workers[i]).(state := StateIcon(old(workers[i]).state)))
      && rows == AsSingleRows(workers[..])
  {
    if workers.Length > 0 {
      if groupWorkers {
        var groups := GroupWorkers(workers[..], apps);
        rows := AsGroupRows(groups);
      } else {
        MarkStates(workers);
        rows := AsSingleRows(workers[..]);
      }
    } else {
      rows := [NoWorkersRow];
    }
  }
}
