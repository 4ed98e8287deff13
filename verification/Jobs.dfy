/** The job table and the worker that drains it.

    A row's identifier is its position in the table (the primary key is a
    BIGSERIAL), and time is a single clock in milliseconds shared by all workers. */
module Jobs {
  import opened Wrappers

  type Time = int
  type JobId = nat

  /** Lease a worker asks for, and the delay before a failed attempt is retried. */
  const LEASE: Time := 30 * 60_000
  const RETRY_DELAY: Time := 5_000

  datatype JobKind = Ingest | Remove | Lint | Reembed | Sync

  datatype JobState = Queued | Running | Done | Failed | Dead

  /** `target` is the source an ingest payload names, when the payload decodes. */
  datatype Row = Row(
    kind: JobKind,
    target: Option<string>,
    state: JobState,
    attempt: nat,
    maxAttempts: nat,
    nextRunAt: Time,
    lockedBy: Option<string>,
    lockedUntil: Option<Time>,
    lastError: Option<string>)

  /** A row as the job builders hand it to `Enqueue`. */
  predicate Fresh(r: Row) {
    r.state == Queued && r.attempt == 0 < r.maxAttempts && r.lockedBy.None? && r.lockedUntil.None?
  }

  /** The WHERE clause of the claiming query. A NULL lease compares as false. */
  predicate Claimable(r: Row, now: Time) {
    || (r.state == Queued && r.nextRunAt <= now)
    || (r.state == Running && r.lockedUntil.Some? && r.lockedUntil.value < now)
  }

  /** Row `id` is one the query may pick: due, and no other due row comes earlier. */
  predicate IsNext(jobs: seq<Row>, now: Time, id: JobId) {
    && id < |jobs|
    && Claimable(jobs[id], now)
    && forall j | 0 <= j < |jobs| && Claimable(jobs[j], now) :: jobs[id].nextRunAt <= jobs[j].nextRunAt
  }

  function ClaimedRow(r: Row, worker: string, until: Time): Row {
    r.(state := Running, lockedBy := Some(worker), lockedUntil := Some(until), attempt := r.attempt + 1)
  }

  function CompletedRow(r: Row): Row {
    r.(state := Done)
  }

  function RetriedRow(r: Row, err: string, next: Time): Row {
    r.(state := if r.attempt >= r.maxAttempts then Dead else Queued,
       lastError := Some(err), nextRunAt := next, lockedBy := None, lockedUntil := None)
  }

  /** A table holding any due row has a next one: the query comes back empty only
      when nothing is due. */
  lemma NextExists(jobs: seq<Row>, now: Time, witnessId: JobId) returns (id: JobId)
    requires witnessId < |jobs| && Claimable(jobs[witnessId], now)
    ensures IsNext(jobs, now, id)
  {
    id := witnessId;
    var n := 0;
    while n < |jobs|
      invariant 0 <= n <= |jobs| && id < |jobs| && Claimable(jobs[id], now)
      invariant forall j | 0 <= j < n && Claimable(jobs[j], now) :: jobs[id].nextRunAt <= jobs[j].nextRunAt
    {
      if Claimable(jobs[n], now) && jobs[n].nextRunAt < jobs[id].nextRunAt {
        id := n;
      }
      n := n + 1;
    }
  }

  /** The queue's four statements, each atomic. */
  class JobStore {
    var jobs: seq<Row>

    constructor ()
      ensures jobs == []
    {
      jobs := [];
    }

    /** INSERT leaves the lock columns NULL. */
    method Enqueue(job: Row) returns (id: JobId)
      requires job.lockedBy.None? && job.lockedUntil.None?
      modifies this
      ensures id == |old(jobs)| && jobs == old(jobs) + [job]
    {
      id := |jobs|;
      jobs := jobs + [job];
    }

    method ClaimNextJob(worker: string, leaseMs: Time, now: Time) returns (r: Option<JobId>)
      modifies this
      ensures r.None? ==> jobs == old(jobs) && forall i | 0 <= i < |jobs| :: !Claimable(jobs[i], now)
      ensures r.Some? ==>
                && IsNext(old(jobs), now, r.value)
                && (forall j | 0 <= j < |old(jobs)| && Claimable(old(jobs)[j], now) ::
                      old(jobs)[r.value].nextRunAt <= old(jobs)[j].nextRunAt)
                && jobs == old(jobs)[r.value := ClaimedRow(old(jobs)[r.value], worker, now + leaseMs)]
    {
      if id: nat :| id < |jobs| && IsNext(jobs, now, id) {
        jobs := jobs[id := ClaimedRow(jobs[id], worker, now + leaseMs)];
        r := Some(id);
      } else {
        forall i | 0 <= i < |jobs|
          ensures !Claimable(jobs[i], now)
        {
          if Claimable(jobs[i], now) {
            var id := NextExists(jobs, now, i);
            assert false;
          }
        }
        r := None;
      }
    }

    /** The update carries no owner test: any caller holding the id completes the row. */
    method CompleteJob(id: JobId)
      modifies this
      ensures jobs == if id < |old(jobs)| then old(jobs)[id := CompletedRow(old(jobs)[id])] else old(jobs)
    {
      if id < |jobs| {
        jobs := jobs[id := CompletedRow(jobs[id])];
      }
    }

    /** With a retry delay the row is re-queued, or dies once its attempts are spent;
        without one it dies at once, keeping its lock columns. Answers whether it died. */
    method FailJob(id: JobId, err: string, retryInMs: Option<Time>, now: Time) returns (r: Result<bool, string>)
      modifies this
      ensures id >= |old(jobs)| ==> jobs == old(jobs) && r == if retryInMs.Some? then Err("row not found") else Ok(true)
      ensures id < |old(jobs)| && retryInMs.Some? ==>
                && jobs == old(jobs)[id := RetriedRow(old(jobs)[id], err, now + retryInMs.value)]
                && r == Ok(jobs[id].state == Dead)
      ensures id < |old(jobs)| && retryInMs.None? ==>
                && jobs == old(jobs)[id := old(jobs)[id].(state := Dead, lastError := Some(err))]
                && r == Ok(true)
    {
      if retryInMs.Some? {
        if id >= |jobs| {
          return Err("row not found");
        }
        jobs := jobs[id := RetriedRow(jobs[id], err, now + retryInMs.value)];
        return Ok(jobs[id].state == Dead);
      }
      if id < |jobs| {
        jobs := jobs[id := jobs[id].(state := Dead, lastError := Some(err))];
      }
      return Ok(true);
    }
  }

  /** The sources whose status the runner may overwrite with `failed`. */
  class SourceTable {
    var failed: set<string>

    constructor ()
      ensures failed == {}
    {
      failed := {};
    }

    method MarkFailed(source: string)
      modifies this
      ensures failed == old(failed) + {source}
    {
      failed := failed + {source};
    }
  }

  /** What the table holds after one undisturbed turn of the loop on row `id`. */
  function TurnRow(r: Row, worker: string, claimedAt: Time, error: Option<string>, endedAt: Time): Row {
    var c := ClaimedRow(r, worker, claimedAt + LEASE);
    match error
    case None => CompletedRow(c)
    case Some(e) => RetriedRow(c, e, endedAt + RETRY_DELAY)
  }

  /** When a row can be claimed next. While its handler runs, only once the lease of half an hour has
      lapsed; after the turn, only if it failed with attempts left, and then from five seconds later on.
      The turn counts one attempt, and what the job is about never changes. */
  lemma TurnDecidesNextClaim(r: Row, worker: string, claimedAt: Time, error: Option<string>, endedAt: Time, t: Time)
    ensures Claimable(ClaimedRow(r, worker, claimedAt + LEASE), t) <==> claimedAt + 30 * 60 * 1000 < t
    ensures var after := TurnRow(r, worker, claimedAt, error, endedAt);
            && (Claimable(after, t) <==> error.Some? && r.attempt + 1 < r.maxAttempts && endedAt + 5 * 1000 <= t)
            && (after.state == Done <==> error.None?)
            && (after.state == Dead <==> error.Some? && r.attempt + 1 >= r.maxAttempts)
            && after.attempt == r.attempt + 1 && after.lastError == (if error.Some? then error else r.lastError)
            && after.kind == r.kind && after.target == r.target && after.maxAttempts == r.maxAttempts
  {
  }

  class JobRunner {
    const workerId: string
    const store: JobStore
    const sources: SourceTable

    constructor (workerId: string, store: JobStore, sources: SourceTable)
      ensures this.workerId == workerId && this.store == store && this.sources == sources
    {
      this.workerId := workerId;
      this.store := store;
      this.sources := sources;
    }

    /** One turn of the worker loop: claim, run the handler (whose outcome is `error`),
        then complete or fail. The ingest target is read off the job as claimed. */
    method Turn(claimedAt: Time, error: Option<string>, endedAt: Time) returns (worked: Option<JobId>)
      modifies store, sources
      ensures worked.None? <==> forall i | 0 <= i < |old(store.jobs)| :: !Claimable(old(store.jobs)[i], claimedAt)
      ensures worked.None? ==> store.jobs == old(store.jobs) && sources.failed == old(sources.failed)
      ensures worked.Some? ==>
                var id := worked.value;
                && IsNext(old(store.jobs), claimedAt, id)
                && store.jobs == old(store.jobs)[id := TurnRow(old(store.jobs)[id], workerId, claimedAt, error, endedAt)]
                && sources.failed == old(sources.failed) +
                                     (if error.Some? && store.jobs[id].state == Dead
                                         && old(store.jobs)[id].kind == Ingest && old(store.jobs)[id].target.Some?
                                      then {old(store.jobs)[id].target.value} else {})
    {
      worked := store.ClaimNextJob(workerId, LEASE, claimedAt);
      if worked.None? {
        return;
      }
      var id := worked.value;
      var job := store.jobs[id];
      var ingestTarget := if job.kind == Ingest then job.target else None;
      match error {
        case None =>
          store.CompleteJob(id);
        case Some(msg) =>
          var dead := store.FailJob(id, msg, Some(RETRY_DELAY), endedAt);
          if dead == Ok(true) && ingestTarget.Some? {
            sources.MarkFailed(ingestTarget.value);
          }
      }
    }
  }
}
