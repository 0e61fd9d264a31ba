/**
 * The Redis-backed job store as the dashboard sees it: an ordered list of job
 * ids per queue, a record per job that may have vanished, and the commands
 * the handlers issue against it. The store itself is not modelled; its
 * answers are inputs of the handlers.
 */
module Store {
  import opened Wrappers
  import Slicing

  type JobId = string
  type QueueName = string

  /** The fields of a job record that the modelled code reads. */
  datatype Job = Job(id: JobId, origin: QueueName, description: string)

  /** What the store answers to a command: success, rq's InvalidJobOperationError, or any other exception. */
  datatype Outcome = Done | InvalidOperation | Failure(reason: string)

  /** A mutation the dashboard asks the store to perform. */
  datatype Command =
    | CancelJob(id: JobId)
    | RequeueJob(id: JobId)
    | RequeueFrom(queue: QueueName, id: JobId)
    | EmptyQueue(queue: QueueName)
    | DeleteJob(id: JobId)
    | Unschedule(id: JobId)
    | RemoveFromQueue(queue: QueueName, id: JobId)

  /** How many of `ids` have no record any more. */
  function Missing(ids: seq<JobId>, records: map<JobId, Job>): (n: nat)
    ensures n <= |ids|
  {
    if ids == [] then 0 else (if ids[0] in records then 0 else 1) + Missing(ids[1..], records)
  }

  /**
   * Fetches the record of every id, in order, silently dropping the ids
   * whose record has vanished since the ids were read.
   */
  function FetchAll(ids: seq<JobId>, records: map<JobId, Job>): (r: seq<Job>)
    ensures |r| + Missing(ids, records) == |ids|
    ensures forall j :: j in r ==> j in records.Values
    ensures (forall i :: i in ids ==> i in records) ==>
      |r| == |ids| && forall k :: 0 <= k < |r| ==> r[k] == records[ids[k]]
  {
    if ids == [] then []
    else
      var rest := FetchAll(ids[1..], records);
      assert forall i :: i in ids[1..] ==> i in ids;
      if ids[0] in records then [records[ids[0]]] + rest else rest
  }

  /**
   * The last index rq's `get_job_ids(offset, length)` asks `LRANGE` for:
   * `offset+length-1` for a length from 0 on, the length itself otherwise.
   */
  function RangeEnd(offset: int, length: int): int
  {
    if length >= 0 then offset + length - 1 else length
  }

  /** rq's `Queue.get_jobs(offset, length)`: the ids `LRANGE offset RangeEnd(offset, length)`, fetched. */
  function GetJobs(ids: seq<JobId>, records: map<JobId, Job>, offset: int, length: int): (r: seq<Job>)
    ensures |r| <= |ids|
    ensures 0 <= offset && 0 < length ==> |r| <= length
  {
    FetchAll(Slicing.LRange(ids, offset, RangeEnd(offset, length)), records)
  }

  /** Length -1 reads `LRANGE offset -1`: every surviving job from `offset` to the end of the list. */
  lemma GetJobsToEnd(ids: seq<JobId>, records: map<JobId, Job>, offset: nat)
    ensures GetJobs(ids, records, offset, -1) == FetchAll(if offset <= |ids| then ids[offset..] else [], records)
  {
    assert RangeEnd(offset, -1) == -1;
    var r := Slicing.LRange(ids, offset, -1);
    if offset < |ids| {
      assert r == ids[offset..|ids| - 1 + 1] == ids[offset..];
      assert GetJobs(ids, records, offset, -1) == FetchAll(r, records);
    } else {
      assert r == [];
    }
  }

  /** A page of `length >= 1` ids from `offset` on is the clamped slice of the list, fetched. */
  lemma GetJobsWindow(ids: seq<JobId>, records: map<JobId, Job>, offset: nat, length: nat)
    requires length >= 1
    ensures GetJobs(ids, records, offset, length)
      == FetchAll(ids[(if offset <= |ids| then offset else |ids|)..(if offset + length <= |ids| then offset + length else |ids|)], records)
  {
    var stop := RangeEnd(offset, length);
    assert stop + 1 == offset + length && offset <= stop;
    var window := Slicing.LRange(ids, offset, stop);
    assert window == ids[(if offset <= |ids| then offset else |ids|)..(if offset + length <= |ids| then offset + length else |ids|)];
    assert GetJobs(ids, records, offset, length) == FetchAll(window, records);
  }
}
