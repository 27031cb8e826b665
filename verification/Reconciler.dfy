/** The anchoring queue: one keyed job a row, delayed repeats, and the timer that brings rows back. */
module Reconciler {
  import opened Store
  import AnchorWorker

  const PAUSE_DELAY := 300000
  const RETRY_DELAY := 30000

  /** Only keyed jobs are recognised as the same; the queue keeps one of them a row. */
  datatype Job = Job(id: RowId, keyed: bool, delay: nat)

  function KeyedJob(id: RowId): Job { Job(id, true, 0) }

  ghost predicate KeyedOnce(jobs: seq<Job>) {
    forall j, k :: 0 <= j < k < |jobs| && jobs[j].keyed && jobs[k].keyed ==> jobs[j].id != jobs[k].id
  }

  class AnchorQueue {
    var jobs: seq<Job>

    method EnqueueAnchorV2(id: RowId)
      modifies this
      ensures jobs == if KeyedJob(id) in old(jobs) then old(jobs) else old(jobs) + [KeyedJob(id)]
    {
      if KeyedJob(id) !in jobs {
        jobs := jobs + [KeyedJob(id)];
      }
    }

    /**
     * One tick of the reconciler: it leaves the waiting jobs alone, adds jobs only for rows that a
     * claim would take now, never two for one row, and unless there are as many such rows as it lists
     * at a time, none of them is without a job afterwards.
     */
    method Tick(db: Table, limit: nat, now: int) returns (all: bool)
      requires KeyedOnce(jobs) && forall j :: j in jobs && j.keyed ==> j.delay == 0
      modifies this
      ensures KeyedOnce(jobs) && old(jobs) <= jobs && |jobs| <= |old(jobs)| + limit
      ensures forall k :: |old(jobs)| <= k < |jobs| ==>
        jobs[k].keyed && jobs[k].id in db.rows && Claimable(db.rows[jobs[k].id], now)
      ensures all ==> forall i :: i in db.rows && Claimable(db.rows[i], now) ==> KeyedJob(i) in jobs
      ensures !all ==> exists ids: seq<RowId> :: |ids| == limit && Listed(ids, db.rows, jobs, now)
    {
      var ids := db.ListToReconcile(limit, now);
      for k := 0 to |ids|
        invariant KeyedOnce(jobs) && old(jobs) <= jobs && |jobs| <= |old(jobs)| + k
        invariant forall j :: j in jobs && j.keyed ==> j.delay == 0
        invariant forall j :: 0 <= j < k ==> KeyedJob(ids[j]) in jobs
        invariant forall j :: |old(jobs)| <= j < |jobs| ==>
          jobs[j].keyed && jobs[j].id in db.rows && Claimable(db.rows[jobs[j].id], now)
      {
        EnqueueAnchorV2(ids[k]);
      }
      assert Listed(ids, db.rows, jobs, now);
      return |ids| < limit;
    }

    /**
     * What the worker does with the answer of an anchoring call, whatever became of the row meanwhile;
     * when the answer is true of the row, the row is queued again exactly if it is unfinished.
     */
    method AfterCall(id: RowId, out: AnchorWorker.Answered, ghost before: Row, ghost after: Row, ghost maxAttempts: int)
      modifies this
      ensures jobs == if out.Paused? then old(jobs) + [Job(id, false, PAUSE_DELAY)]
                      else if out.Retry? then old(jobs) + [Job(id, false, RETRY_DELAY)] else old(jobs)
      ensures !out.Skipped? && AnchorWorker.AnswerIsTrue(out, before, after, maxAttempts) ==>
        (jobs == old(jobs) <==> Terminal(after))
    {
      if out.Paused? {
        jobs := jobs + [Job(id, false, PAUSE_DELAY)];
      } else if out.Retry? {
        jobs := jobs + [Job(id, false, RETRY_DELAY)];
      }
    }
  }

  /** Different claimable rows, all with a job. */
  ghost predicate Listed(ids: seq<RowId>, rows: map<RowId, Row>, jobs: seq<Job>, now: int) {
    && (forall k :: 0 <= k < |ids| ==> ids[k] in rows && Claimable(rows[ids[k]], now) && KeyedJob(ids[k]) in jobs)
    && (forall j, k :: 0 <= j < k < |ids| ==> ids[j] != ids[k])
  }
}
