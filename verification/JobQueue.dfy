/** The `ingestion_jobs` table and the statements the worker runs against it. */
module JobQueue {
  import opened Wrappers

  type JobId = nat
  type RunId = nat
  type Time = nat

  datatype RunStatus = RunRunning | RunSucceeded | RunPartial | RunFailed

  datatype Status = Queued | Running | Succeeded | Failed

  datatype Job = Job(
    enqueuedAt: Time,
    status: Status,
    attempts: nat,
    startedAt: Option<Time>,
    finishedAt: Option<Time>,
    lastError: Option<string>,
    resultRun: Option<RunId>)

  type Jobs = map<JobId, Job>
  type Runs = map<RunId, RunStatus>

  // ---- Row updates -------------------------------------------------------

  function NewJob(now: Time): Job {
    Job(now, Queued, 0, None, None, None, None)
  }

  function Claim(job: Job, now: Time): Job {
    job.(status := Running, startedAt := Some(now), attempts := job.attempts + 1)
  }

  function Finish(job: Job, run: Option<RunId>, now: Time): Job {
    job.(status := Succeeded, finishedAt := Some(now), resultRun := run)
  }

  function Fail(job: Job, error: string, now: Time): Job {
    job.(status := Failed, finishedAt := Some(now), lastError := Some(error))
  }

  function Requeue(job: Job): Job {
    job.(status := Queued, startedAt := None, finishedAt := None, lastError := None)
  }

  // ---- The startup sweep -------------------------------------------------

  /** What the sweep selects: the running rows, each with the run it names at that moment. */
  type Stale = map<JobId, Option<RunId>>

  function RunningRows(jobs: Jobs): Stale {
    map id | id in jobs && jobs[id].status.Running? :: jobs[id].resultRun
  }

  /** The run to mark the row succeeded with; none, if the row is to be requeued. */
  function Verdict(result: Option<RunId>, runs: Runs): Option<RunId> {
    if result.Some? && result.value in runs && (runs[result.value].RunSucceeded? || runs[result.value].RunPartial?)
    then result else None
  }

  /** A row after its verdict was written. The statements do not look at the row's status again. */
  function Settle(job: Job, verdict: Option<RunId>, now: Time): Job {
    if verdict.Some? then Finish(job, verdict, now) else Requeue(job)
  }

  /** The table after the verdicts were written, whatever has become of the rows since they were selected. */
  function Settled(jobs: Jobs, verdicts: Stale, now: Time): Jobs {
    map id | id in jobs :: if id in verdicts then Settle(jobs[id], verdicts[id], now) else jobs[id]
  }

  function Verdicts(stale: Stale, runs: Runs): Stale {
    map id | id in stale :: Verdict(stale[id], runs)
  }

  // ---- The table ---------------------------------------------------------

  /** The queued rows that no other open transaction has locked. */
  function Claimable(jobs: Jobs, locked: set<JobId>): set<JobId> {
    set id | id in jobs && jobs[id].status.Queued? && id !in locked
  }

  lemma {:induction false} OldestExists(jobs: Jobs, ids: set<JobId>) returns (oldest: JobId)
    requires ids != {} && ids <= jobs.Keys
    ensures oldest in ids && forall id | id in ids :: jobs[oldest].enqueuedAt <= jobs[id].enqueuedAt
    decreases ids
  {
    oldest :| oldest in ids;
    if ids != {oldest} {
      var rest := ids - {oldest};
      var other := OldestExists(jobs, rest);
      assert forall id | id in ids :: id == oldest || id in rest;
      if jobs[other].enqueuedAt <= jobs[oldest].enqueuedAt {
        oldest := other;
      }
    }
  }

  class JobTable {
    var rows: Jobs

    constructor ()
      ensures rows == map[]
    {
      rows := map[];
    }

    method Create(id: JobId, now: Time)
      requires id !in rows
      modifies this
      ensures rows == old(rows)[id := NewJob(now)]
      ensures var job := rows[id];
              && job.enqueuedAt == now && job.status == Queued && job.attempts == 0
              && job.startedAt == None && job.finishedAt == None && job.lastError == None && job.resultRun == None
    {
      rows := rows[id := NewJob(now)];
    }

    /** Claims the oldest queued row that is not locked, or nothing when there is none. */
    method ClaimOne(locked: set<JobId>, now: Time) returns (claimed: Option<JobId>)
      modifies this
      ensures claimed.None? <==> forall id | id in old(rows) && id !in locked :: old(rows)[id].status != Queued
      ensures claimed.None? ==> rows == old(rows)
      ensures claimed.Some? ==>
        && claimed.value in old(rows) && claimed.value !in locked && old(rows)[claimed.value].status == Queued
        && (forall id | id in old(rows) && id !in locked && old(rows)[id].status == Queued ::
              old(rows)[claimed.value].enqueuedAt <= old(rows)[id].enqueuedAt)
        && rows == old(rows)[claimed.value := Claim(old(rows)[claimed.value], now)]
      ensures claimed.Some? ==>
        var before, after := old(rows)[claimed.value], rows[claimed.value];
        && after.status == Running && after.attempts == before.attempts + 1 && after.startedAt == Some(now)
        && after.enqueuedAt == before.enqueuedAt && after.finishedAt == before.finishedAt
        && after.lastError == before.lastError && after.resultRun == before.resultRun
    {
      var candidates := Claimable(rows, locked);
      if candidates == {} {
        assert forall id | id in rows && id !in locked && rows[id].status == Queued :: id in candidates;
        return None;
      }
      ghost var oldest := OldestExists(rows, candidates);
      var id :| id in candidates && forall other | other in candidates :: rows[id].enqueuedAt <= rows[other].enqueuedAt;
      rows := rows[id := Claim(rows[id], now)];
      claimed := Some(id);
    }

    method MarkDone(id: JobId, run: Option<RunId>, now: Time)
      modifies this
      ensures rows == if id in old(rows) then old(rows)[id := Finish(old(rows)[id], run, now)] else old(rows)
      ensures id in old(rows) ==>
        var before, after := old(rows)[id], rows[id];
        && after.status == Succeeded && after.finishedAt == Some(now) && after.resultRun == run
        && after.enqueuedAt == before.enqueuedAt && after.attempts == before.attempts
        && after.startedAt == before.startedAt && after.lastError == before.lastError
    {
      if id in rows {
        rows := rows[id := Finish(rows[id], run, now)];
      }
    }

    method MarkFailed(id: JobId, error: string, now: Time)
      modifies this
      ensures rows == if id in old(rows) then old(rows)[id := Fail(old(rows)[id], error, now)] else old(rows)
      ensures id in old(rows) ==>
        var before, after := old(rows)[id], rows[id];
        && after.status == Failed && after.finishedAt == Some(now) && after.lastError == Some(error)
        && after.enqueuedAt == before.enqueuedAt && after.attempts == before.attempts
        && after.startedAt == before.startedAt && after.resultRun == before.resultRun
    {
      if id in rows {
        rows := rows[id := Fail(rows[id], error, now)];
      }
    }

    method RequeueRow(id: JobId)
      modifies this
      ensures rows == if id in old(rows) then old(rows)[id := Requeue(old(rows)[id])] else old(rows)
      ensures id in old(rows) ==>
        var before, after := old(rows)[id], rows[id];
        && after.status == Queued && after.startedAt == None && after.finishedAt == None && after.lastError == None
        && after.enqueuedAt == before.enqueuedAt && after.attempts == before.attempts
        && after.resultRun == before.resultRun
    {
      if id in rows {
        rows := rows[id := Requeue(rows[id])];
      }
    }

    method ListRunning() returns (stale: Stale)
      ensures stale == RunningRows(rows)
      ensures forall id :: id in stale <==> id in rows && rows[id].status == Running
      ensures forall id | id in stale :: stale[id] == rows[id].resultRun
    {
      stale := RunningRows(rows);
    }

    /** Writes the verdicts on rows that were selected earlier, one row at a time, in any order: the table
        may have changed since, and a row may be gone. */
    method Reconcile(stale: Stale, runs: Runs, now: Time)
      modifies this
      ensures rows == Settled(old(rows), Verdicts(stale, runs), now)
      ensures rows.Keys == old(rows).Keys && forall id | id in rows && id !in stale :: rows[id] == old(rows)[id]
      ensures forall id | id in rows && id in stale ::
                var persisted := stale[id].Some? && stale[id].value in runs &&
                                 (runs[stale[id].value] == RunSucceeded || runs[stale[id].value] == RunPartial);
                rows[id].status == (if persisted then Succeeded else Queued) &&
                rows[id].resultRun == (if persisted then stale[id] else old(rows)[id].resultRun)
    {
      ghost var settled := Settled(rows, Verdicts(stale, runs), now);
      var left := stale.Keys;
      while left != {}
        invariant left <= stale.Keys && rows.Keys == settled.Keys == old(rows).Keys
        invariant forall id | id in rows :: rows[id] == if id in left then old(rows)[id] else settled[id]
        decreases left
      {
        var id :| id in left;
        left := left - {id};
        var run := stale[id];
        if run.Some? && run.value in runs && (runs[run.value].RunSucceeded? || runs[run.value].RunPartial?) {
          MarkDone(id, run, now);
        } else {
          RequeueRow(id);
        }
      }
    }

    /** The startup sweep, when nothing comes between its statements. */
    method RecoverStaleRunning(runs: Runs, now: Time)
      modifies this
      ensures rows == Settled(old(rows), Verdicts(RunningRows(old(rows)), runs), now)
      ensures forall id | id in rows :: !rows[id].status.Running?
    {
      var stale := ListRunning();
      Reconcile(stale, runs, now);
    }
  }
}
