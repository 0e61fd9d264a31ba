/**
 * rq_dashboard/compat.py: the rq 1.0 stand-in for the old single "failed"
 * queue. A `FailedQueue` holds a one-shot generator over the failed-job
 * registries of the queues that existed when it was built, and a cache of
 * their concatenated ids filled on first use.
 */
module Compat {
  import opened Wrappers
  import opened Store
  import Slicing

  /** The name every `FailedQueue` reports. */
  const FailedQueueName: QueueName := "failed"
  /** The name the base `Queue` is constructed with (`NotImplemented`); its list is what `remove` touches. */
  const BaseQueueName: QueueName := "NotImplemented"

  /** The ids of each queue's failed registry, concatenated in queue order. */
  function Flatten(queues: seq<QueueName>, failedIds: QueueName -> seq<JobId>): (r: seq<JobId>)
    ensures queues == [] ==> r == []
  {
    if queues == [] then [] else failedIds(queues[0]) + Flatten(queues[1..], failedIds)
  }

  /** Flattening one more queue appends its registry's ids. */
  lemma {:induction false} FlattenSnoc(queues: seq<QueueName>, j: nat, failedIds: QueueName -> seq<JobId>)
    requires j < |queues|
    ensures Flatten(queues[..j + 1], failedIds) == Flatten(queues[..j], failedIds) + failedIds(queues[j])
  {
    if j > 0 {
      FlattenSnoc(queues[1..], j - 1, failedIds);
      assert queues[..j + 1][1..] == queues[1..][..j];
      assert queues[..j][1..] == queues[1..][..j - 1];
    } else {
      assert queues[..1][1..] == [];
    }
  }

  /** Flattening splits over a cut of the queue list. */
  lemma {:induction false} FlattenSplit(queues: seq<QueueName>, k: nat, failedIds: QueueName -> seq<JobId>)
    requires k <= |queues|
    ensures Flatten(queues, failedIds) == Flatten(queues[..k], failedIds) + Flatten(queues[k..], failedIds)
  {
    if k > 0 {
      FlattenSplit(queues[1..], k - 1, failedIds);
      assert queues[..k][1..] == queues[1..][..k - 1];
      assert queues[1..][k - 1..] == queues[k..];
    } else {
      assert queues[..0] == [] && queues[0..] == queues;
    }
  }

  /** `get_job_ids(offset, length)` over the cached list: `[offset:]` for length -1, `[offset:offset+length]` for length >= 0, `[offset:length]` otherwise. */
  function IdRange(ids: seq<JobId>, offset: int, length: int): (r: seq<JobId>)
    ensures |r| <= |ids|
  {
    var start := offset;
    var end := if length >= 0 then offset + length else length;
    if length == -1 then Slicing.PySuffix(ids, start) else Slicing.PySlice(ids, start, end)
  }

  /** The defaults `(0, -1)` give the whole list. */
  lemma IdRangeDefault(ids: seq<JobId>)
    ensures IdRange(ids, 0, -1) == ids
  {
  }

  /** A non-negative length takes the clamped slice `[offset, offset+length)`. */
  lemma IdRangeWindow(ids: seq<JobId>, offset: nat, length: nat)
    ensures offset <= |ids| ==>
      IdRange(ids, offset, length) == ids[offset..if offset + length <= |ids| then offset + length else |ids|]
    ensures offset > |ids| ==> IdRange(ids, offset, length) == []
  {
    Slicing.PySliceNonNegative(ids, offset, offset + length);
  }

  /** Length -1 takes the suffix from `offset`. */
  lemma IdRangeSuffix(ids: seq<JobId>, offset: nat)
    ensures offset <= |ids| ==> IdRange(ids, offset, -1) == ids[offset..]
    ensures offset > |ids| ==> IdRange(ids, offset, -1) == []
  {
  }

  /**
   * The shim reproduces rq's own `get_job_ids` for the lengths callers use:
   * a positive length reads `LRANGE offset offset+length-1`, and -1 reads
   * `LRANGE offset -1`, so `Queue.get_jobs` pages work unchanged over it.
   */
  lemma IdRangeAgreesWithLRange(ids: seq<JobId>, offset: nat, length: int)
    requires length >= 1 || length == -1
    ensures IdRange(ids, offset, length) == Slicing.LRange(ids, offset, RangeEnd(offset, length))
  {
    if length >= 1 {
      Slicing.PySliceNonNegative(ids, offset, offset + length);
    }
  }

  /** What deleting a run of ids comes to: the deletions issued, and the id whose fetch failed, if any. */
  datatype Purge = Purge(deleted: seq<Command>, missing: Option<JobId>)

  /**
   * `empty()`'s inner work over the flattened ids: fetch each job and delete
   * it, in order; a fetch of a job that is gone (never there, or deleted
   * earlier in the same run) raises and stops the run.
   */
  function PurgeIds(ids: seq<JobId>, live: set<JobId>): (r: Purge)
    ensures |r.deleted| <= |ids|
    ensures r.missing.None? ==> |r.deleted| == |ids|
    ensures r.missing.Some? ==> |r.deleted| < |ids| && r.missing.value == ids[|r.deleted|]
  {
    if ids == [] then Purge([], None)
    else if ids[0] !in live then Purge([], Some(ids[0]))
    else
      var rest := PurgeIds(ids[1..], live - {ids[0]});
      Purge([DeleteJob(ids[0])] + rest.deleted, rest.missing)
  }

  /** The run deletes a prefix of the ids, in order, each a live job not seen earlier in the run. */
  lemma {:induction false} PurgeDeletesInOrder(ids: seq<JobId>, live: set<JobId>)
    ensures var r := PurgeIds(ids, live);
      forall k :: 0 <= k < |r.deleted| ==> r.deleted[k] == DeleteJob(ids[k]) && ids[k] in live && ids[k] !in ids[..k]
  {
    if ids != [] && ids[0] in live {
      var tail := ids[1..];
      var liveTail := live - {ids[0]};
      PurgeDeletesInOrder(tail, liveTail);
      var rest := PurgeIds(tail, liveTail);
      var r := PurgeIds(ids, live);
      assert r.deleted == [DeleteJob(ids[0])] + rest.deleted;
      forall k | 0 <= k < |r.deleted|
        ensures r.deleted[k] == DeleteJob(ids[k]) && ids[k] in live && ids[k] !in ids[..k]
      {
        if k > 0 {
          assert ids[..k] == [ids[0]] + tail[..k - 1];
        }
      }
    }
  }

  /** The id a run stops at is either not a live job or a repeat of an id it already deleted. */
  lemma {:induction false} PurgeStopsAtFirstUnfetchable(ids: seq<JobId>, live: set<JobId>)
    ensures var r := PurgeIds(ids, live);
      r.missing.Some? ==> ids[|r.deleted|] !in live || ids[|r.deleted|] in ids[..|r.deleted|]
  {
    if ids != [] && ids[0] in live {
      var tail := ids[1..];
      var liveTail := live - {ids[0]};
      PurgeStopsAtFirstUnfetchable(tail, liveTail);
      var rest := PurgeIds(tail, liveTail);
      if rest.missing.Some? {
        var d := |rest.deleted|;
        assert ids[..d + 1] == [ids[0]] + tail[..d];
        assert ids[d + 1] == tail[d];
      }
    }
  }

  /**
   * A run over `a + b` that stops inside `a` is the run over `a` alone; one that
   * gets past `a` deleted every id of `a` without stopping.
   */
  lemma {:induction false} PurgePrefix(a: seq<JobId>, b: seq<JobId>, live: set<JobId>)
    ensures var r := PurgeIds(a + b, live);
      r.missing.Some? && |r.deleted| < |a| ==> PurgeIds(a, live) == r
    ensures |a| <= |PurgeIds(a + b, live).deleted| ==> PurgeIds(a, live).missing.None?
  {
    if a != [] {
      assert (a + b)[0] == a[0];
      if a[0] in live {
        var live' := live - {a[0]};
        assert (a + b)[1..] == a[1..] + b;
        PurgePrefix(a[1..], b, live');
      }
    }
  }

  /**
   * A run over the registries of `queues` that stops in the `k`-th of them is the run over
   * the first `k` registries, and the run over the first `k - 1` does not stop.
   */
  lemma StoppedInRegistry(queues: seq<QueueName>, failedIds: QueueName -> seq<JobId>, live: set<JobId>, k: nat,
                          deleted: seq<Command>, missing: Option<JobId>)
    requires 0 < k <= |queues|
    requires missing.Some? && PurgeIds(Flatten(queues, failedIds), live) == Purge(deleted, missing)
    requires |Flatten(queues[..k - 1], failedIds)| <= |deleted| < |Flatten(queues[..k], failedIds)|
    ensures PurgeIds(Flatten(queues[..k], failedIds), live) == Purge(deleted, missing)
    ensures PurgeIds(Flatten(queues[..k - 1], failedIds), live).missing.None?
  {
    FlattenSplit(queues, k, failedIds);
    PurgePrefix(Flatten(queues[..k], failedIds), Flatten(queues[k..], failedIds), live);
    FlattenSplit(queues, k - 1, failedIds);
    PurgePrefix(Flatten(queues[..k - 1], failedIds), Flatten(queues[k - 1..], failedIds), live);
  }

  /** Distinct ids that all name live jobs are all deleted and nothing is reported. */
  lemma {:induction false} PurgeDistinctLive(ids: seq<JobId>, live: set<JobId>)
    requires forall k :: 0 <= k < |ids| ==> ids[k] in live && ids[k] !in ids[..k]
    ensures PurgeIds(ids, live).missing.None?
  {
    if ids != [] {
      var tail := ids[1..];
      forall k | 0 <= k < |tail|
        ensures tail[k] in live - {ids[0]} && tail[k] !in tail[..k]
      {
        assert ids[..k + 1] == [ids[0]] + tail[..k];
      }
      PurgeDistinctLive(tail, live - {ids[0]});
    }
  }

  /** The failed-queue shim: the registries not yet yielded by its generator, and the id cache. */
  class FailedQueue {
    /** Queues whose failed registry the `_registries` generator has still to yield. */
    var pending: seq<QueueName>
    /** `_job_ids`: `None` until the first `get_job_ids`. */
    var jobIds: Option<seq<JobId>>

    /** `FailedQueue()`: the generator is created over `Queue.all()` as it is now; nothing is cached. */
    constructor(queues: seq<QueueName>)
      ensures pending == queues && jobIds == None
    {
      pending := queues;
      jobIds := None;
    }

    /** The `name` property: always "failed". */
    function Name(): (r: QueueName)
      ensures |r| > 0
    {
      FailedQueueName
    }

    /** The `name` setter: the assigned value is discarded. */
    method SetName(value: QueueName)
      modifies this
      ensures unchanged(this)
      ensures Name() == FailedQueueName
    {
    }

    /** `compact()`: deliberately does nothing for the failed queue. */
    method Compact()
      modifies this
      ensures unchanged(this)
    {
    }

    /**
     * `get_job_ids(offset, length)`: on first use drains the generator,
     * reading each yielded queue's failed registry (`failedIds`) into the
     * cache; afterwards the cache is reused as it is.
     */
    method GetJobIds(failedIds: QueueName -> seq<JobId>, offset: int, length: int) returns (ids: seq<JobId>)
      modifies this
      ensures old(jobIds).Some? ==> jobIds == old(jobIds) && pending == old(pending)
      ensures old(jobIds).None? ==> jobIds == Some(Flatten(old(pending), failedIds)) && pending == []
      ensures jobIds.Some? && ids == IdRange(jobIds.value, offset, length)
    {
      if jobIds.None? {
        var collected: seq<JobId> := [];
        while pending != []
          invariant collected + Flatten(pending, failedIds) == Flatten(old(pending), failedIds)
          decreases |pending|
        {
          collected := collected + failedIds(pending[0]);
          pending := pending[1..];
        }
        assert collected + Flatten(pending, failedIds) == collected;
        jobIds := Some(collected);
      }
      var start := offset;
      var end := if length >= 0 then offset + length else length;
      if length == -1 {
        ids := Slicing.PySuffix(jobIds.value, start);
        return;
      }
      ids := Slicing.PySlice(jobIds.value, start, end);
    }

    /** The `count` property: the length of the whole (cached) id list. */
    method Count(failedIds: QueueName -> seq<JobId>) returns (n: nat)
      modifies this
      ensures old(jobIds).Some? ==> jobIds == old(jobIds) && pending == old(pending)
      ensures old(jobIds).None? ==> jobIds == Some(Flatten(old(pending), failedIds)) && pending == []
      ensures jobIds.Some? && n == |jobIds.value|
    {
      var all := GetJobIds(failedIds, 0, -1);
      IdRangeDefault(jobIds.value);
      n := |all|;
    }

    /** `is_empty()`: whether `count` is 0. */
    method IsEmpty(failedIds: QueueName -> seq<JobId>) returns (empty: bool)
      modifies this
      ensures old(jobIds).Some? ==> jobIds == old(jobIds) && pending == old(pending)
      ensures old(jobIds).None? ==> jobIds == Some(Flatten(old(pending), failedIds)) && pending == []
      ensures jobIds.Some? && (empty <==> jobIds.value == [])
    {
      var n := Count(failedIds);
      empty := n == 0;
    }

    /**
     * `fetch_job(job_id)`: the job when its record exists; otherwise the id
     * is removed from the base queue's list and `None` is returned.
     */
    method FetchJob(jobId: JobId, records: map<JobId, Job>) returns (job: Option<Job>, issued: seq<Command>)
      ensures jobId in records ==> job == Some(records[jobId]) && issued == []
      ensures jobId !in records ==> job == None && issued == [RemoveFromQueue(BaseQueueName, jobId)]
    {
      if jobId in records {
        job := Some(records[jobId]);
        issued := [];
      } else {
        issued := [RemoveFromQueue(BaseQueueName, jobId)];
        job := None;
      }
    }

    /**
     * `empty()`: drains whatever the generator still yields, fetching and
     * deleting each registry's jobs in order (`live` is the set of existing
     * jobs). A failed fetch raises, leaving the generator part-consumed.
     * The cache is not touched.
     */
    method Empty(failedIds: QueueName -> seq<JobId>, live: set<JobId>) returns (missing: Option<JobId>, deleted: seq<Command>)
      modifies this
      ensures jobIds == old(jobIds)
      ensures Drain(old(pending), failedIds, live, missing, deleted, pending)
    {
      missing, deleted, pending := DrainRegistries(pending, failedIds, live);
    }
  }

  /**
   * What `empty()` does with the registries `queues` still to be yielded: the
   * commands issued and the id reported are the run over all their ids, and
   * `rest` are the registries the generator has not yet yielded. A complete
   * run leaves none; a run that stops leaves exactly those after the registry
   * holding the missing id (the run over the registries before that one does
   * not stop, the run up to and including it does).
   */
  ghost predicate Drain(queues: seq<QueueName>, failedIds: QueueName -> seq<JobId>, live: set<JobId>,
                        missing: Option<JobId>, deleted: seq<Command>, rest: seq<QueueName>)
  {
    && PurgeIds(Flatten(queues, failedIds), live) == Purge(deleted, missing)
    && |rest| <= |queues| && rest == queues[|queues| - |rest|..]
    && (missing.None? ==> rest == [])
    && (missing.Some? ==>
      var k := |queues| - |rest|;
      && 0 < k
      && PurgeIds(Flatten(queues[..k], failedIds), live) == Purge(deleted, missing)
      && PurgeIds(Flatten(queues[..k - 1], failedIds), live).missing.None?)
  }

  /** A run that stops inside `a` is not changed by ids yielded after `a`. */
  lemma {:induction false} PurgeStopsEarly(a: seq<JobId>, b: seq<JobId>, live: set<JobId>)
    requires PurgeIds(a, live).missing.Some?
    ensures PurgeIds(a + b, live) == PurgeIds(a, live)
  {
    assert (a + b)[0] == a[0];
    if a[0] in live {
      assert (a + b)[1..] == a[1..] + b;
      PurgeStopsEarly(a[1..], b, live - {a[0]});
    }
  }

  /**
   * `Drain` leaves nothing open: the commands, the reported id and the
   * registries still to be yielded are all determined by the inputs.
   */
  lemma DrainDetermined(queues: seq<QueueName>, failedIds: QueueName -> seq<JobId>, live: set<JobId>,
                        missing1: Option<JobId>, deleted1: seq<Command>, rest1: seq<QueueName>,
                        missing2: Option<JobId>, deleted2: seq<Command>, rest2: seq<QueueName>)
    requires Drain(queues, failedIds, live, missing1, deleted1, rest1)
    requires Drain(queues, failedIds, live, missing2, deleted2, rest2)
    ensures missing1 == missing2 && deleted1 == deleted2 && rest1 == rest2
  {
    if missing1.Some? {
      var k1, k2 := |queues| - |rest1|, |queues| - |rest2|;
      if k1 < k2 {
        StopIsKept(queues, failedIds, live, k1, k2 - 1);
      } else if k2 < k1 {
        StopIsKept(queues, failedIds, live, k2, k1 - 1);
      }
    }
  }

  /** A run that stops within the first `i` registries also stops within the first `j >= i`. */
  lemma StopIsKept(queues: seq<QueueName>, failedIds: QueueName -> seq<JobId>, live: set<JobId>, i: nat, j: nat)
    requires i <= j <= |queues|
    requires PurgeIds(Flatten(queues[..i], failedIds), live).missing.Some?
    ensures PurgeIds(Flatten(queues[..j], failedIds), live).missing.Some?
  {
    FlattenSplit(queues[..j], i, failedIds);
    assert queues[..j][..i] == queues[..i];
    PurgeStopsEarly(Flatten(queues[..i], failedIds), Flatten(queues[..j][i..], failedIds), live);
  }

  /**
   * The loops of `empty()` over the registries the generator still yields:
   * each registry's jobs are fetched and deleted in order, stopping at the
   * first job that is gone; `rest` are the registries not yet reached.
   */
  method DrainRegistries(queues: seq<QueueName>, failedIds: QueueName -> seq<JobId>, live: set<JobId>)
    returns (missing: Option<JobId>, deleted: seq<Command>, rest: seq<QueueName>)
    ensures Drain(queues, failedIds, live, missing, deleted, rest)
  {
    ghost var taken := 0;
    rest := queues;
    var remaining := live;
    deleted := [];
    while rest != []
      invariant taken <= |queues| && rest == queues[taken..]
      invariant Drained(queues, failedIds, live, taken, deleted, remaining)
      decreases |rest|
    {
      var registryIds := failedIds(rest[0]);
      var found, registryDeleted, left := DeleteRegistry(registryIds, Flatten(rest[1..], failedIds), remaining);
      DrainStep(queues, failedIds, live, taken, deleted, remaining, found, registryDeleted, left);
      rest := rest[1..];
      taken := taken + 1;
      deleted := deleted + registryDeleted;
      if found.Some? {
        missing := found;
        return;
      }
      remaining := left;
    }
    assert queues[taken..] == [];
    missing := None;
  }

  /**
   * After draining the first `taken` registries without a stop: every id they
   * yielded was deleted, and the whole run is `deleted` followed by the run over
   * the remaining registries with `remaining` still live.
   */
  ghost predicate Drained(queues: seq<QueueName>, failedIds: QueueName -> seq<JobId>, live: set<JobId>,
                          taken: nat, deleted: seq<Command>, remaining: set<JobId>)
    requires taken <= |queues|
  {
    && PurgeIds(Flatten(queues, failedIds), live) == Extend(deleted, PurgeIds(Flatten(queues[taken..], failedIds), remaining))
    && |deleted| == |Flatten(queues[..taken], failedIds)|
  }

  /** One registry of `DrainRegistries`: the run either stops inside it or keeps `Drained`. */
  lemma DrainStep(queues: seq<QueueName>, failedIds: QueueName -> seq<JobId>, live: set<JobId>, taken: nat,
                  deleted: seq<Command>, remaining: set<JobId>,
                  found: Option<JobId>, registryDeleted: seq<Command>, left: set<JobId>)
    requires taken < |queues| && Drained(queues, failedIds, live, taken, deleted, remaining)
    requires
      var ids := failedIds(queues[taken]);
      var later := Flatten(queues[taken + 1..], failedIds);
      && (found.Some? ==> PurgeIds(ids + later, remaining) == Extend(registryDeleted, Purge([], found)) && |registryDeleted| < |ids|)
      && (found.None? ==> PurgeIds(ids + later, remaining) == Extend(registryDeleted, PurgeIds(later, left)) && |registryDeleted| == |ids|)
    ensures found.Some? ==>
      && PurgeIds(Flatten(queues, failedIds), live) == Purge(deleted + registryDeleted, found)
      && PurgeIds(Flatten(queues[..taken + 1], failedIds), live) == Purge(deleted + registryDeleted, found)
      && PurgeIds(Flatten(queues[..taken], failedIds), live).missing.None?
    ensures found.None? ==> Drained(queues, failedIds, live, taken + 1, deleted + registryDeleted, left)
  {
    var ids := failedIds(queues[taken]);
    assert Flatten(queues[taken..], failedIds) == ids + Flatten(queues[taken + 1..], failedIds) by {
      assert queues[taken..][1..] == queues[taken + 1..];
    }
    FlattenSnoc(queues, taken, failedIds);
    if found.Some? {
      ExtendExtend(deleted, registryDeleted, Purge([], found));
      assert deleted + registryDeleted + [] == deleted + registryDeleted;
      StoppedInRegistry(queues, failedIds, live, taken + 1, deleted + registryDeleted, found);
    } else {
      ExtendExtend(deleted, registryDeleted, PurgeIds(Flatten(queues[taken + 1..], failedIds), left));
    }
  }

  /**
   * The inner loop of `empty()` over one registry's ids, `later` being the
   * ids the generator yields after them: each is fetched and deleted in
   * turn, stopping at the first that is gone; `left` is what is still live.
   */
  method DeleteRegistry(ids: seq<JobId>, ghost later: seq<JobId>, remaining: set<JobId>)
    returns (missing: Option<JobId>, deleted: seq<Command>, left: set<JobId>)
    ensures missing.Some? ==> PurgeIds(ids + later, remaining) == Extend(deleted, Purge([], missing))
    ensures missing.None? ==> PurgeIds(ids + later, remaining) == Extend(deleted, PurgeIds(later, left))
    ensures missing.Some? ==> |deleted| < |ids|
    ensures missing.None? ==> |deleted| == |ids|
  {
    left := remaining;
    deleted := [];
    for i := 0 to |ids|
      invariant PurgeIds(ids + later, remaining) == Extend(deleted, PurgeIds(ids[i..] + later, left))
      invariant |deleted| == i
    {
      var jobId := ids[i];
      assert ids[i..] + later == [jobId] + (ids[i + 1..] + later);
      PurgeCons(jobId, ids[i + 1..] + later, left);
      if jobId !in left {
        return Some(jobId), deleted, left;
      }
      ExtendAppend(deleted, DeleteJob(jobId), PurgeIds(ids[i + 1..] + later, left - {jobId}));
      deleted := deleted + [DeleteJob(jobId)];
      left := left - {jobId};
    }
    assert ids[|ids|..] + later == later;
    missing := None;
  }

  /** `deleted` issued so far, followed by the outcome of the rest of the run. */
  function Extend(deleted: seq<Command>, rest: Purge): (r: Purge)
    ensures r.missing == rest.missing && |r.deleted| == |deleted| + |rest.deleted|
  {
    Purge(deleted + rest.deleted, rest.missing)
  }

  /** One step of a run: the first id is either reported or deleted before the rest. */
  lemma PurgeCons(id: JobId, rest: seq<JobId>, live: set<JobId>)
    ensures id !in live ==> PurgeIds([id] + rest, live) == Purge([], Some(id))
    ensures id in live ==> PurgeIds([id] + rest, live) == Extend([DeleteJob(id)], PurgeIds(rest, live - {id}))
  {
    assert ([id] + rest)[1..] == rest;
  }

  lemma ExtendExtend(deleted: seq<Command>, more: seq<Command>, rest: Purge)
    ensures Extend(deleted, Extend(more, rest)) == Extend(deleted + more, rest)
  {
    assert deleted + (more + rest.deleted) == (deleted + more) + rest.deleted;
  }

  lemma ExtendAppend(deleted: seq<Command>, c: Command, rest: Purge)
    ensures Extend(deleted, Extend([c], rest)) == Extend(deleted + [c], rest)
  {
    assert deleted + ([c] + rest.deleted) == (deleted + [c]) + rest.deleted;
  }

  /** `get_failed_queue()`: a fresh shim over the current queues. */
  method GetFailedQueue(queues: seq<QueueName>) returns (q: FailedQueue)
    ensures fresh(q) && q.pending == queues && q.jobIds == None
  {
    q := new FailedQueue(queues);
  }

  /**
   * `get_all_queues()`: the real queues, then one failed pseudo-queue built
   * over those same queues. The names listed are the queues' names.
   */
  method GetAllQueues(queues: seq<QueueName>) returns (names: seq<QueueName>, failed: FailedQueue)
    ensures fresh(failed) && failed.pending == queues && failed.jobIds == None
    ensures names == AllQueueNames(queues)
  {
    failed := new FailedQueue(queues);
    names := queues + [failed.Name()];
  }

  /** With no queues in the store the listing is just the failed pseudo-queue. */
  lemma AllQueuesOfEmptyStore()
    ensures AllQueueNames([]) == [FailedQueueName]
  {
  }

  /** The names `get_all_queues` lists: every real queue, in order, then "failed". */
  function AllQueueNames(queues: seq<QueueName>): (r: seq<QueueName>)
    ensures |r| == |queues| + 1 && r[|queues|] == FailedQueueName
    ensures forall q :: q in r <==> q in queues || q == FailedQueueName
  {
    queues + [FailedQueueName]
  }
}
