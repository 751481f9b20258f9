/** Ingestion workers as a transition system: every committed transaction is one step, the startup sweep
    is a read and a later commit, and a worker may crash between any two steps. */
module WorkerProtocol {
  import opened Wrappers
  import opened JobQueue

  type WorkerId = nat

  /** Where a worker stands between its transactions. */
  datatype Phase =
    | Down
    | Starting                                // before the startup sweep
    | Sweeping(todo: Stale, verdicts: Stale)  // the stale rows are selected, some of them decided
    | Idle
    | Claimed(job: JobId)                     // the claim is committed
    | Ingesting(job: JobId, run: RunId)       // the run row is committed as running
    | Persisted(job: JobId, run: RunId)       // the run row has its final status
    | Failing(job: JobId)                     // an exception was caught, the job is still to be marked
  {
    predicate Holds() {
      Claimed? || Ingesting? || Persisted? || Failing?
    }
  }

  datatype State = State(jobs: Jobs, runs: Runs, workers: map<WorkerId, Phase>) {
    function PhaseOf(w: WorkerId): Phase {
      if w in workers then workers[w] else Down
    }
  }

  datatype Action =
    | Enqueue(id: JobId, now: Time)
    | Start(w: WorkerId)
    | ListStale(w: WorkerId)
    | Decide(w: WorkerId, id: JobId)
    | CommitSweep(w: WorkerId, now: Time)
    | ClaimOne(w: WorkerId, id: JobId, now: Time)
    | OpenRun(w: WorkerId, run: RunId)
    | CloseRun(w: WorkerId, status: RunStatus)
    | MarkDone(w: WorkerId, now: Time)
    | Raise(w: WorkerId)
    | MarkFailed(w: WorkerId, error: string, now: Time, exits: bool)
    | Stop(w: WorkerId)
    | Crash(w: WorkerId)

  /** Another worker's open sweep has written the row and not yet committed. */
  predicate Locked(s: State, w: WorkerId, id: JobId) {
    exists v :: v in s.workers && v != w && s.workers[v].Sweeping? && id in s.workers[v].verdicts
  }

  /** A sweep locks each row as it decides on it; what it wrote shows when it commits. */
  predicate Enabled(s: State, a: Action) {
    match a
    case Enqueue(id, _) => id !in s.jobs
    case Start(w) => s.PhaseOf(w).Down?
    case ListStale(w) => s.PhaseOf(w).Starting?
    case Decide(w, id) => s.PhaseOf(w).Sweeping? && id in s.PhaseOf(w).todo && !Locked(s, w, id)
    case CommitSweep(w, _) => s.PhaseOf(w).Sweeping? && s.PhaseOf(w).todo == map[]
    case ClaimOne(w, id, _) => s.PhaseOf(w).Idle? && id in s.jobs && s.jobs[id].status.Queued? && !Locked(s, w, id)
    case OpenRun(w, run) => s.PhaseOf(w).Claimed? && run !in s.runs
    case CloseRun(w, status) => s.PhaseOf(w).Ingesting? && !status.RunRunning?
    case MarkDone(w, _) => s.PhaseOf(w).Persisted? && s.PhaseOf(w).job in s.jobs && !Locked(s, w, s.PhaseOf(w).job)
    case Raise(w) => s.PhaseOf(w).Claimed? || s.PhaseOf(w).Ingesting? || s.PhaseOf(w).Persisted?
    case MarkFailed(w, _, _, _) =>
      s.PhaseOf(w).Failing? && s.PhaseOf(w).job in s.jobs && !Locked(s, w, s.PhaseOf(w).job)
    case Stop(w) => s.PhaseOf(w).Idle?
    case Crash(w) => !s.PhaseOf(w).Down?
  }

  function Apply(s: State, a: Action): State
    requires Enabled(s, a)
  {
    match a
    case Enqueue(id, now) => s.(jobs := s.jobs[id := NewJob(now)])
    case Start(w) => s.(workers := s.workers[w := Starting])
    case ListStale(w) => s.(workers := s.workers[w := Sweeping(RunningRows(s.jobs), map[])])
    case Decide(w, id) =>
      var p := s.PhaseOf(w);
      s.(workers := s.workers[w := Sweeping(p.todo - {id}, p.verdicts[id := Verdict(p.todo[id], s.runs)])])
    case CommitSweep(w, now) =>
      s.(jobs := Settled(s.jobs, s.PhaseOf(w).verdicts, now), workers := s.workers[w := Idle])
    case ClaimOne(w, id, now) =>
      s.(jobs := s.jobs[id := Claim(s.jobs[id], now)], workers := s.workers[w := Claimed(id)])
    case OpenRun(w, run) =>
      s.(runs := s.runs[run := RunRunning], workers := s.workers[w := Ingesting(s.PhaseOf(w).job, run)])
    case CloseRun(w, status) =>
      var p := s.PhaseOf(w);
      s.(runs := s.runs[p.run := status], workers := s.workers[w := Persisted(p.job, p.run)])
    case MarkDone(w, now) =>
      var p := s.PhaseOf(w);
      s.(jobs := s.jobs[p.job := Finish(s.jobs[p.job], Some(p.run), now)], workers := s.workers[w := Idle])
    case Raise(w) => s.(workers := s.workers[w := Failing(s.PhaseOf(w).job)])
    case MarkFailed(w, error, now, exits) =>
      var p := s.PhaseOf(w);
      s.(jobs := s.jobs[p.job := Fail(s.jobs[p.job], error, now)],
         workers := s.workers[w := if exits then Down else Idle])
    case Stop(w) => s.(workers := s.workers[w := Down])
    case Crash(w) => s.(workers := s.workers[w := Down])
  }

  const INITIAL: State := State(map[], map[], map[])

  // ---- Runs of the system ------------------------------------------------

  /** Every action of the trace is enabled when it is taken. */
  predicate Valid(s: State, trace: seq<Action>)
    decreases |trace|
  {
    trace == [] || (Enabled(s, trace[0]) && Valid(Apply(s, trace[0]), trace[1..]))
  }

  function After(s: State, trace: seq<Action>): State
    requires Valid(s, trace)
    decreases |trace|
  {
    if trace == [] then s else After(Apply(s, trace[0]), trace[1..])
  }

  // ---- What every run keeps ----------------------------------------------

  predicate Finished(runs: Runs, result: Option<RunId>) {
    result.Some? && result.value in runs && !runs[result.value].RunRunning?
  }

  /** A result always names a run that has its final status. */
  predicate JobSound(job: Job, runs: Runs) {
    && (job.resultRun.Some? ==> Finished(runs, job.resultRun))
    && (job.status.Queued? ==> job.startedAt.None? && job.finishedAt.None? && job.lastError.None?)
    && (job.status.Running? ==> job.startedAt.Some? && job.attempts > 0)
    && (job.status.Succeeded? ==> job.resultRun.Some?)
  }

  ghost predicate StaleSound(stale: Stale, jobs: Jobs, runs: Runs) {
    forall id | id in stale :: id in jobs && (stale[id].Some? ==> Finished(runs, stale[id]))
  }

  ghost predicate PhaseSound(p: Phase, jobs: Jobs, runs: Runs) {
    && (p.Holds() ==> p.job in jobs)
    && (p.Ingesting? ==> p.run in runs && runs[p.run].RunRunning?)
    && (p.Persisted? ==> Finished(runs, Some(p.run)))
    && (p.Sweeping? ==> StaleSound(p.todo, jobs, runs) && StaleSound(p.verdicts, jobs, runs))
  }

  ghost predicate JobsSound(s: State) {
    forall id | id in s.jobs :: JobSound(s.jobs[id], s.runs)
  }

  ghost predicate PhasesSound(s: State) {
    forall w | w in s.workers :: PhaseSound(s.workers[w], s.jobs, s.runs)
  }

  ghost predicate RunsApart(s: State) {
    forall v, w | v in s.workers && w in s.workers && v != w && s.workers[v].Ingesting? && s.workers[w].Ingesting? ::
      s.workers[v].run != s.workers[w].run
  }

  /** Holds in every reachable state, however sweeps and claims interleave. */
  ghost predicate Sound(s: State) {
    JobsSound(s) && PhasesSound(s) && RunsApart(s)
  }

  /** Jobs stay, and a finished run stays finished. */
  lemma {:induction false} StepKeepsFinished(s: State, a: Action)
    requires PhasesSound(s) && Enabled(s, a)
    ensures s.jobs.Keys <= Apply(s, a).jobs.Keys
    ensures forall run | Finished(s.runs, run) :: Finished(Apply(s, a).runs, run)
  {
  }

  lemma {:induction false} StepKeepsJob(s: State, a: Action, id: JobId)
    requires Sound(s) && Enabled(s, a) && id in Apply(s, a).jobs
    ensures JobSound(Apply(s, a).jobs[id], Apply(s, a).runs)
  {
    StepKeepsFinished(s, a);
    if id in s.jobs {
      assert JobSound(s.jobs[id], s.runs);
    }
    if a.CommitSweep? || a.MarkDone? {
      assert PhaseSound(s.workers[a.w], s.jobs, s.runs);
    }
  }

  lemma {:induction false} StaleStaysSound(stale: Stale, s: State, a: Action)
    requires PhasesSound(s) && Enabled(s, a) && StaleSound(stale, s.jobs, s.runs)
    ensures StaleSound(stale, Apply(s, a).jobs, Apply(s, a).runs)
  {
    StepKeepsFinished(s, a);
    forall id | id in stale
      ensures id in Apply(s, a).jobs && (stale[id].Some? ==> Finished(Apply(s, a).runs, stale[id]))
    {
      assert id in s.jobs.Keys;
    }
  }

  lemma {:induction false} StepKeepsOtherPhase(s: State, a: Action, w: WorkerId)
    requires Sound(s) && Enabled(s, a) && w in s.workers && Apply(s, a).PhaseOf(w) == s.PhaseOf(w)
    requires a.CloseRun? ==> a.w != w
    ensures PhaseSound(s.workers[w], Apply(s, a).jobs, Apply(s, a).runs)
  {
    var p := s.workers[w];
    assert PhaseSound(p, s.jobs, s.runs);
    StepKeepsFinished(s, a);
    assert p.Holds() ==> p.job in s.jobs.Keys;
    if p.Sweeping? {
      StaleStaysSound(p.todo, s, a);
      StaleStaysSound(p.verdicts, s, a);
    }
  }

  lemma {:induction false} DecideKeepsPhase(s: State, a: Action)
    requires Sound(s) && Enabled(s, a) && (a.ListStale? || a.Decide?)
    ensures PhaseSound(Apply(s, a).workers[a.w], s.jobs, s.runs)
  {
    if a.ListStale? {
      forall id | id in RunningRows(s.jobs)
        ensures id in s.jobs && (s.jobs[id].resultRun.Some? ==> Finished(s.runs, s.jobs[id].resultRun))
      {
        assert JobSound(s.jobs[id], s.runs);
      }
    } else {
      assert PhaseSound(s.workers[a.w], s.jobs, s.runs);
    }
  }

  lemma {:induction false} StepKeepsOwnPhase(s: State, a: Action)
    requires Sound(s) && Enabled(s, a) && !a.Enqueue?
    ensures PhaseSound(Apply(s, a).workers[a.w], Apply(s, a).jobs, Apply(s, a).runs)
  {
    if a.ListStale? || a.Decide? {
      DecideKeepsPhase(s, a);
    } else if a.w in s.workers {
      assert PhaseSound(s.workers[a.w], s.jobs, s.runs);
    }
  }

  lemma {:induction false} StepKeepsApart(s: State, a: Action)
    requires Sound(s) && Enabled(s, a)
    ensures RunsApart(Apply(s, a))
  {
    var next := Apply(s, a);
    forall v, w | v in next.workers && w in next.workers && v != w &&
                  next.workers[v].Ingesting? && next.workers[w].Ingesting?
      ensures next.workers[v].run != next.workers[w].run
    {
      assert v in s.workers ==> PhaseSound(s.workers[v], s.jobs, s.runs);
      assert w in s.workers ==> PhaseSound(s.workers[w], s.jobs, s.runs);
    }
  }

  lemma {:induction false} StepKeepsSound(s: State, a: Action)
    requires Sound(s) && Enabled(s, a)
    ensures Sound(Apply(s, a))
  {
    var next := Apply(s, a);
    forall id | id in next.jobs
      ensures JobSound(next.jobs[id], next.runs)
    {
      StepKeepsJob(s, a, id);
    }
    forall w | w in next.workers
      ensures PhaseSound(next.workers[w], next.jobs, next.runs)
    {
      if !a.Enqueue? && w == a.w {
        StepKeepsOwnPhase(s, a);
      } else {
        StepKeepsOtherPhase(s, a, w);
      }
    }
    StepKeepsApart(s, a);
  }

  lemma {:induction false} RunKeepsSound(s: State, trace: seq<Action>)
    requires Sound(s) && Valid(s, trace)
    ensures Sound(After(s, trace))
    decreases |trace|
  {
    if trace != [] {
      StepKeepsSound(s, trace[0]);
      RunKeepsSound(Apply(s, trace[0]), trace[1..]);
    }
  }

  /** In every run a succeeded job names a run that has reached its final status. */
  lemma {:induction false} SucceededNamesFinishedRun(trace: seq<Action>, id: JobId)
    requires Valid(INITIAL, trace)
    requires id in After(INITIAL, trace).jobs && After(INITIAL, trace).jobs[id].status.Succeeded?
    ensures var s := After(INITIAL, trace);
            s.jobs[id].resultRun.Some? && s.jobs[id].resultRun.value in s.runs &&
            !s.runs[s.jobs[id].resultRun.value].RunRunning?
  {
    RunKeepsSound(INITIAL, trace);
    var s := After(INITIAL, trace);
    assert JobSound(s.jobs[id], s.runs);
  }

  /** A run whose worker crashed or raised before closing it stays `running` for ever. */
  lemma {:induction false} OrphanedRunStaysRunning(s: State, trace: seq<Action>, run: RunId)
    requires Valid(s, trace) && run in s.runs && s.runs[run].RunRunning?
    requires forall w | w in s.workers :: !(s.workers[w].Ingesting? && s.workers[w].run == run)
    ensures run in After(s, trace).runs && After(s, trace).runs[run].RunRunning?
    decreases |trace|
  {
    if trace != [] {
      var next := Apply(s, trace[0]);
      forall w | w in next.workers ensures !(next.workers[w].Ingesting? && next.workers[w].run == run) {
        assert w in s.workers ==> !(s.workers[w].Ingesting? && s.workers[w].run == run);
      }
      OrphanedRunStaysRunning(next, trace[1..], run);
    }
  }

  function AttemptsOf(s: State, id: JobId): nat {
    if id in s.jobs then s.jobs[id].attempts else 0
  }

  function Claims(trace: seq<Action>, id: JobId): nat {
    if trace == [] then 0
    else (if trace[0].ClaimOne? && trace[0].id == id then 1 else 0) + Claims(trace[1..], id)
  }

  /** `attempts` counts the claims, and no row ever disappears. */
  lemma {:induction false} AttemptsCountClaims(s: State, trace: seq<Action>, id: JobId)
    requires Valid(s, trace)
    ensures AttemptsOf(After(s, trace), id) == AttemptsOf(s, id) + Claims(trace, id)
    ensures id in s.jobs ==> id in After(s, trace).jobs
    decreases |trace|
  {
    if trace != [] {
      AttemptsCountClaims(Apply(s, trace[0]), trace[1..], id);
      AttemptsStep(s, trace[0], id);
    }
  }

  lemma {:induction false} AttemptsStep(s: State, a: Action, id: JobId)
    requires Enabled(s, a)
    ensures AttemptsOf(Apply(s, a), id) == AttemptsOf(s, id) + if a.ClaimOne? && a.id == id then 1 else 0
    ensures id in s.jobs ==> id in Apply(s, a).jobs
  {
  }

  // ---- First in, first out -----------------------------------------------

  /** A job's place in the queue is the time at which it was created, whatever has been done with it since. */
  lemma {:induction false} EnqueuedAtStays(s: State, trace: seq<Action>, id: JobId)
    requires Valid(s, trace) && id in s.jobs
    ensures id in After(s, trace).jobs && After(s, trace).jobs[id].enqueuedAt == s.jobs[id].enqueuedAt
    decreases |trace|
  {
    if trace != [] {
      EnqueuedAtStays(Apply(s, trace[0]), trace[1..], id);
    }
  }

  lemma {:induction false} EnqueuedWhenCreated(s: State, trace: seq<Action>, i: nat)
    requires Valid(s, trace) && i < |trace| && trace[i].Enqueue?
    ensures trace[i].id in After(s, trace).jobs && After(s, trace).jobs[trace[i].id].enqueuedAt == trace[i].now
    decreases |trace|
  {
    var next := Apply(s, trace[0]);
    if i == 0 {
      EnqueuedAtStays(next, trace[1..], trace[0].id);
    } else {
      EnqueuedWhenCreated(next, trace[1..], i - 1);
    }
  }

  /** Jobs are created at ever later times. */
  predicate CreatedInOrder(trace: seq<Action>) {
    forall i, j | 0 <= i < j < |trace| && trace[i].Enqueue? && trace[j].Enqueue? :: trace[i].now < trace[j].now
  }

  /** First in, first out: with no row locked, the job that a claim takes was created before every other job
      that is still queued. */
  lemma {:induction false} ClaimTakesFirstCreated(trace: seq<Action>, i: nat, j: nat)
    requires Valid(INITIAL, trace) && CreatedInOrder(trace)
    requires i < |trace| && j < |trace| && trace[i].Enqueue? && trace[j].Enqueue?
    requires var jobs := After(INITIAL, trace).jobs;
             && trace[j].id in jobs && jobs[trace[j].id].status.Queued? && trace[i].id in jobs
             && forall other | other in jobs && jobs[other].status.Queued? ::
                  jobs[trace[i].id].enqueuedAt <= jobs[other].enqueuedAt
    ensures i <= j
  {
    EnqueuedWhenCreated(INITIAL, trace, i);
    EnqueuedWhenCreated(INITIAL, trace, j);
  }

  // ---- Sweeps and workers that finish meanwhile --------------------------

  /** No job that is queued or running has a result. */
  ghost predicate Unresulted(s: State) {
    forall id | id in s.jobs && (s.jobs[id].status.Queued? || s.jobs[id].status.Running?) :: s.jobs[id].resultRun.None?
  }

  /** No row that the sweep is about to requeue has got a result since it was selected. */
  predicate NoneFinished(s: State, verdicts: Stale) {
    forall id | id in verdicts && id in s.jobs && verdicts[id].None? :: s.jobs[id].resultRun.None?
  }

  predicate RaceFreeStep(s: State, a: Action)
    requires Enabled(s, a)
  {
    a.CommitSweep? ==> NoneFinished(s, s.PhaseOf(a.w).verdicts)
  }

  /** No sweep of the trace commits a requeue of a job that was finished under its hands. */
  predicate RaceFree(s: State, trace: seq<Action>)
    requires Valid(s, trace)
    decreases |trace|
  {
    trace == [] || (RaceFreeStep(s, trace[0]) && RaceFree(Apply(s, trace[0]), trace[1..]))
  }

  ghost predicate UnresultedThroughout(s: State, trace: seq<Action>)
    requires Valid(s, trace)
    decreases |trace|
  {
    Unresulted(s) && (trace == [] || UnresultedThroughout(Apply(s, trace[0]), trace[1..]))
  }

  lemma {:induction false} StepKeepsUnresulted(s: State, a: Action)
    requires Sound(s) && Unresulted(s) && Enabled(s, a)
    ensures Unresulted(Apply(s, a)) <==> RaceFreeStep(s, a)
  {
    if a.CommitSweep? {
      var verdicts, next := s.PhaseOf(a.w).verdicts, Apply(s, a);
      if NoneFinished(s, verdicts) {
        forall id | id in next.jobs && (next.jobs[id].status.Queued? || next.jobs[id].status.Running?)
          ensures next.jobs[id].resultRun.None?
        {
          assert id in s.jobs;
        }
      } else {
        var id :| id in verdicts && id in s.jobs && verdicts[id].None? && s.jobs[id].resultRun.Some?;
        assert next.jobs[id] == Requeue(s.jobs[id]);
      }
    }
  }

  /** Queued and running jobs are without a result throughout a run if and only if no sweep of the run
      requeues a job that was finished between the sweep's selection and its write. */
  lemma {:induction false} UnresultedIffRaceFree(s: State, trace: seq<Action>)
    requires Sound(s) && Unresulted(s) && Valid(s, trace)
    ensures UnresultedThroughout(s, trace) <==> RaceFree(s, trace)
    decreases |trace|
  {
    if trace != [] {
      StepKeepsUnresulted(s, trace[0]);
      StepKeepsSound(s, trace[0]);
      if Unresulted(Apply(s, trace[0])) {
        UnresultedIffRaceFree(Apply(s, trace[0]), trace[1..]);
      }
    }
  }

  predicate AllNone(stale: Stale) {
    forall id | id in stale :: stale[id].None?
  }

  /** No open sweep has selected or decided anything but a requeue. */
  ghost predicate OnlyRequeues(s: State) {
    forall w | w in s.workers && s.workers[w].Sweeping? :: AllNone(s.workers[w].todo) && AllNone(s.workers[w].verdicts)
  }

  lemma {:induction false} StepKeepsOnlyRequeues(s: State, a: Action)
    requires Unresulted(s) && OnlyRequeues(s) && Enabled(s, a)
    ensures OnlyRequeues(Apply(s, a))
  {
    var next := Apply(s, a);
    forall w | w in next.workers && next.workers[w].Sweeping?
      ensures AllNone(next.workers[w].todo) && AllNone(next.workers[w].verdicts)
    {
      assert w in s.workers && s.workers[w].Sweeping? ==> AllNone(s.workers[w].todo) && AllNone(s.workers[w].verdicts);
    }
  }

  lemma {:induction false} RunKeepsOnlyRequeues(s: State, trace: seq<Action>)
    requires Sound(s) && Unresulted(s) && OnlyRequeues(s) && Valid(s, trace) && RaceFree(s, trace)
    ensures Unresulted(After(s, trace)) && OnlyRequeues(After(s, trace))
    decreases |trace|
  {
    if trace != [] {
      StepKeepsSound(s, trace[0]);
      StepKeepsUnresulted(s, trace[0]);
      StepKeepsOnlyRequeues(s, trace[0]);
      RunKeepsOnlyRequeues(Apply(s, trace[0]), trace[1..]);
    }
  }

  /** After a race-free history a sweep requeues every job it selected and marks none succeeded. */
  lemma {:induction false} SweepOnlyRequeues(trace: seq<Action>, a: Action)
    requires Valid(INITIAL, trace) && RaceFree(INITIAL, trace) && Enabled(After(INITIAL, trace), a) && a.CommitSweep?
    ensures var s := After(INITIAL, trace);
            var s', verdicts := Apply(s, a), s.PhaseOf(a.w).verdicts;
            s'.jobs.Keys == s.jobs.Keys &&
            forall id | id in s.jobs :: s'.jobs[id] == if id in verdicts then Requeue(s.jobs[id]) else s.jobs[id]
  {
    RunKeepsOnlyRequeues(INITIAL, trace);
    var s := After(INITIAL, trace);
    assert AllNone(s.workers[a.w].verdicts);
  }

  /** The rows a sweep has selected. */
  function Selected(p: Phase): set<JobId>
    requires p.Sweeping?
  {
    p.todo.Keys + p.verdicts.Keys
  }

  /** In the trace the worker does nothing but decide. */
  predicate OnlyDecides(trace: seq<Action>, w: WorkerId) {
    trace == [] || ((!trace[0].Enqueue? && trace[0].w == w ==> trace[0].Decide?) && OnlyDecides(trace[1..], w))
  }

  lemma {:induction false} RunningOutsideSweepWasClaimed(s: State, trace: seq<Action>, w: WorkerId, id: JobId)
    requires Valid(s, trace) && s.PhaseOf(w).Sweeping? && OnlyDecides(trace, w)
    requires id in After(s, trace).jobs && After(s, trace).jobs[id].status.Running?
    ensures After(s, trace).PhaseOf(w).Sweeping? && Selected(After(s, trace).PhaseOf(w)) == Selected(s.PhaseOf(w))
    ensures Claims(trace, id) > 0 || (id in s.jobs && s.jobs[id].status.Running?)
    decreases |trace|
  {
    if trace != [] {
      RunningOutsideSweepWasClaimed(Apply(s, trace[0]), trace[1..], w, id);
    }
  }

  /** Right after a sweep the only running jobs are those claimed between its selection and its commit. */
  lemma {:induction false} RunningAfterSweepWasClaimed(s: State, trace: seq<Action>, w: WorkerId, now: Time, id: JobId)
    requires Valid(s, trace) && OnlyDecides(trace, w) && s.PhaseOf(w) == Sweeping(RunningRows(s.jobs), map[])
    requires Enabled(After(s, trace), CommitSweep(w, now))
    requires var s' := Apply(After(s, trace), CommitSweep(w, now)); id in s'.jobs && s'.jobs[id].status.Running?
    ensures Claims(trace, id) > 0
  {
    RunningOutsideSweepWasClaimed(s, trace, w, id);
  }

  // ---- Exclusive processing ----------------------------------------------

  /** Every held job is running, and no two workers hold the same job. */
  ghost predicate Exclusive(s: State) {
    && (forall w | w in s.workers && s.workers[w].Holds() ::
          s.workers[w].job in s.jobs && s.jobs[s.workers[w].job].status.Running?)
    && (forall v, w | v in s.workers && w in s.workers && v != w && s.workers[v].Holds() && s.workers[w].Holds() ::
          s.workers[v].job != s.workers[w].job)
  }

  predicate NoneHeld(s: State, verdicts: Stale) {
    forall w | w in s.workers && s.workers[w].Holds() :: s.workers[w].job !in verdicts
  }

  predicate UnheldStep(s: State, a: Action)
    requires Enabled(s, a)
  {
    a.CommitSweep? ==> NoneHeld(s, s.PhaseOf(a.w).verdicts)
  }

  lemma {:induction false} OtherStepsKeepExclusive(s: State, a: Action)
    requires Exclusive(s) && Enabled(s, a) && !a.CommitSweep?
    ensures Exclusive(Apply(s, a))
  {
    var next := Apply(s, a);
    forall w | w in next.workers && next.workers[w].Holds()
      ensures next.workers[w].job in next.jobs && next.jobs[next.workers[w].job].status.Running?
    {
      assert w in s.workers && s.workers[w].Holds() ==> s.jobs[s.workers[w].job].status.Running?;
    }
    forall v, w | v in next.workers && w in next.workers && v != w && next.workers[v].Holds() && next.workers[w].Holds()
      ensures next.workers[v].job != next.workers[w].job
    {
      HoldersStayApart(s, a, v, w);
    }
  }

  lemma {:induction false} HoldersStayApart(s: State, a: Action, v: WorkerId, w: WorkerId)
    requires Exclusive(s) && Enabled(s, a) && v != w
    requires Apply(s, a).PhaseOf(v).Holds() && Apply(s, a).PhaseOf(w).Holds()
    ensures Apply(s, a).PhaseOf(v).job != Apply(s, a).PhaseOf(w).job
  {
    if a.ClaimOne? {
      assert a.w != v ==> v in s.workers && s.workers[v].Holds();
      assert a.w != w ==> w in s.workers && s.workers[w].Holds();
    } else {
      assert s.PhaseOf(v).Holds() && s.PhaseOf(w).Holds();
    }
  }

  /** A sweep's commit keeps processing exclusive if and only if no worker holds a job that it selected. */
  lemma {:induction false} StepKeepsExclusive(s: State, a: Action)
    requires Exclusive(s) && Enabled(s, a)
    ensures Exclusive(Apply(s, a)) <==> UnheldStep(s, a)
  {
    if !a.CommitSweep? {
      OtherStepsKeepExclusive(s, a);
    } else if !UnheldStep(s, a) {
      var w :| w in s.workers && s.workers[w].Holds() && s.workers[w].job in s.PhaseOf(a.w).verdicts;
      assert Apply(s, a).workers[w] == s.workers[w];
      assert !Apply(s, a).jobs[s.workers[w].job].status.Running?;
    }
  }

  predicate UnheldSweeps(s: State, trace: seq<Action>)
    requires Valid(s, trace)
    decreases |trace|
  {
    trace == [] || (UnheldStep(s, trace[0]) && UnheldSweeps(Apply(s, trace[0]), trace[1..]))
  }

  ghost predicate ExclusiveThroughout(s: State, trace: seq<Action>)
    requires Valid(s, trace)
    decreases |trace|
  {
    Exclusive(s) && (trace == [] || ExclusiveThroughout(Apply(s, trace[0]), trace[1..]))
  }

  /** With crashes anywhere, processing is exclusive throughout a run if and only if every sweep of the run
      commits while nobody holds a job that it selected. */
  lemma {:induction false} ExclusiveIffUnheldSweeps(s: State, trace: seq<Action>)
    requires Exclusive(s) && Valid(s, trace)
    ensures ExclusiveThroughout(s, trace) <==> UnheldSweeps(s, trace)
    decreases |trace|
  {
    if trace != [] {
      StepKeepsExclusive(s, trace[0]);
      if Exclusive(Apply(s, trace[0])) {
        ExclusiveIffUnheldSweeps(Apply(s, trace[0]), trace[1..]);
      }
    }
  }

  lemma {:induction false} ExclusiveAtTheEnd(s: State, trace: seq<Action>)
    requires Valid(s, trace) && ExclusiveThroughout(s, trace)
    ensures Exclusive(After(s, trace))
    decreases |trace|
  {
    if trace != [] {
      ExclusiveAtTheEnd(Apply(s, trace[0]), trace[1..]);
    }
  }

  /** Two live workers that hold a job hold different jobs, and what they hold is running. */
  lemma {:induction false} AtMostOneHolder(trace: seq<Action>, v: WorkerId, w: WorkerId)
    requires Valid(INITIAL, trace) && UnheldSweeps(INITIAL, trace)
    requires After(INITIAL, trace).PhaseOf(v).Holds() && After(INITIAL, trace).PhaseOf(w).Holds()
    ensures var s := After(INITIAL, trace);
            s.PhaseOf(v).job in s.jobs && s.jobs[s.PhaseOf(v).job].status.Running? &&
            (v != w ==> s.PhaseOf(v).job != s.PhaseOf(w).job)
  {
    ExclusiveIffUnheldSweeps(INITIAL, trace);
    ExclusiveAtTheEnd(INITIAL, trace);
    var s := After(INITIAL, trace);
    assert v in s.workers && w in s.workers;
  }

  predicate IsFinal(job: Job) {
    job.status.Succeeded? || job.status.Failed?
  }

  /** The sweep commits while nobody holds a job that it selected and none of these has been finished. */
  predicate CarefulStep(s: State, a: Action)
    requires Enabled(s, a)
  {
    UnheldStep(s, a) &&
    (a.CommitSweep? ==> forall id | id in s.PhaseOf(a.w).verdicts && id in s.jobs :: !IsFinal(s.jobs[id]))
  }

  predicate Careful(s: State, trace: seq<Action>)
    requires Valid(s, trace)
    decreases |trace|
  {
    trace == [] || (CarefulStep(s, trace[0]) && Careful(Apply(s, trace[0]), trace[1..]))
  }

  /** What careful runs keep. */
  ghost predicate Orderly(s: State) {
    Sound(s) && Exclusive(s) && Unresulted(s) && OnlyRequeues(s)
  }

  lemma {:induction false} StepKeepsOrderly(s: State, a: Action)
    requires Orderly(s) && Enabled(s, a) && CarefulStep(s, a)
    ensures Orderly(Apply(s, a))
  {
    if a.CommitSweep? {
      var verdicts := s.PhaseOf(a.w).verdicts;
      forall id | id in verdicts && id in s.jobs && verdicts[id].None?
        ensures s.jobs[id].resultRun.None?
      {
        assert !IsFinal(s.jobs[id]);
      }
      assert RaceFreeStep(s, a);
    }
    StepKeepsSound(s, a);
    StepKeepsExclusive(s, a);
    StepKeepsUnresulted(s, a);
    StepKeepsOnlyRequeues(s, a);
  }

  lemma {:induction false} FinalStep(s: State, a: Action, id: JobId)
    requires Orderly(s) && Enabled(s, a) && CarefulStep(s, a) && id in s.jobs && IsFinal(s.jobs[id])
    ensures id in Apply(s, a).jobs && Apply(s, a).jobs[id] == s.jobs[id]
  {
    if a.MarkDone? || a.MarkFailed? {
      assert a.w in s.workers && s.workers[a.w].Holds();
    }
  }

  /** In careful runs a job that succeeded or failed never changes again. */
  lemma {:induction false} FinalJobsNeverChange(s: State, trace: seq<Action>, id: JobId)
    requires Orderly(s) && Valid(s, trace) && Careful(s, trace)
    requires id in s.jobs && IsFinal(s.jobs[id])
    ensures id in After(s, trace).jobs && After(s, trace).jobs[id] == s.jobs[id]
    decreases |trace|
  {
    if trace != [] {
      StepKeepsOrderly(s, trace[0]);
      FinalStep(s, trace[0], id);
      FinalJobsNeverChange(Apply(s, trace[0]), trace[1..], id);
    }
  }

  predicate RunsIn(s: State, id: JobId) {
    id in s.jobs && s.jobs[id].status.Running?
  }

  /** How often a sweep of the trace took this job back while it was running. */
  function Requeues(s: State, trace: seq<Action>, id: JobId): nat
    requires Valid(s, trace)
    decreases |trace|
  {
    if trace == [] then 0
    else
      (if trace[0].CommitSweep? && RunsIn(s, id) && !RunsIn(Apply(s, trace[0]), id) then 1 else 0) +
      Requeues(Apply(s, trace[0]), trace[1..], id)
  }

  /** 1 once the latest attempt has begun, 0 while the job waits for its next one. */
  function Begun(s: State, id: JobId): nat {
    if id in s.jobs && !s.jobs[id].status.Queued? then 1 else 0
  }

  /** In careful runs every attempt but the latest was taken back by a sweep. */
  lemma {:induction false} AttemptsAreRequeuesPlusOne(s: State, trace: seq<Action>, id: JobId)
    requires Orderly(s) && Valid(s, trace) && Careful(s, trace)
    ensures AttemptsOf(After(s, trace), id) - Begun(After(s, trace), id) ==
            AttemptsOf(s, id) - Begun(s, id) + Requeues(s, trace, id)
    decreases |trace|
  {
    if trace != [] {
      StepKeepsOrderly(s, trace[0]);
      AttemptsAreRequeuesPlusOne(Apply(s, trace[0]), trace[1..], id);
      RequeueStep(s, trace[0], id);
    }
  }

  lemma {:induction false} RequeueStep(s: State, a: Action, id: JobId)
    requires Orderly(s) && Enabled(s, a) && CarefulStep(s, a)
    ensures AttemptsOf(Apply(s, a), id) - Begun(Apply(s, a), id) ==
            AttemptsOf(s, id) - Begun(s, id) +
            if a.CommitSweep? && RunsIn(s, id) && !RunsIn(Apply(s, a), id) then 1 else 0
  {
    if a.CommitSweep? {
      assert a.w in s.workers && AllNone(s.workers[a.w].verdicts);
    } else if a.MarkDone? || a.MarkFailed? {
      assert a.w in s.workers && s.workers[a.w].Holds();
    }
  }

  // ---- One sweep at a time -----------------------------------------------

  /** While a worker sweeps, every other one is down. */
  predicate Alone(s: State) {
    forall v, w | v in s.workers && w in s.workers && v != w && s.workers[w].Sweeping? :: s.workers[v].Down?
  }

  predicate AloneThroughout(s: State, trace: seq<Action>)
    requires Valid(s, trace)
    decreases |trace|
  {
    Alone(s) && (trace == [] || AloneThroughout(Apply(s, trace[0]), trace[1..]))
  }

  /** What an open sweep has selected is still running. */
  ghost predicate StillRunning(s: State) {
    forall w, id | w in s.workers && s.workers[w].Sweeping? && id in Selected(s.workers[w]) :: RunsIn(s, id)
  }

  lemma {:induction false} ActorIsUp(s: State, a: Action)
    requires Enabled(s, a) && !a.Enqueue?
    ensures a.w in Apply(s, a).workers
    ensures (a.w in s.workers && !s.workers[a.w].Down?) || Apply(s, a).workers[a.w].Starting?
  {
  }

  lemma {:induction false} OnlySweeperMoves(s: State, a: Action, w: WorkerId)
    requires Alone(s) && Enabled(s, a) && Alone(Apply(s, a))
    requires w in s.workers && s.workers[w].Sweeping? && Apply(s, a).PhaseOf(w).Sweeping?
    ensures a.Enqueue? || a.w == w
  {
    if !a.Enqueue? {
      ActorIsUp(s, a);
    }
  }

  lemma {:induction false} StepKeepsStillRunning(s: State, a: Action)
    requires Alone(s) && StillRunning(s) && Enabled(s, a) && Alone(Apply(s, a))
    ensures StillRunning(Apply(s, a))
  {
    var next := Apply(s, a);
    forall w, id | w in next.workers && next.workers[w].Sweeping? && id in Selected(next.workers[w])
      ensures RunsIn(next, id)
    {
      if w in s.workers && s.workers[w].Sweeping? {
        assert id in Selected(s.workers[w]) && RunsIn(s, id);
        OnlySweeperMoves(s, a, w);
      }
    }
  }

  lemma {:induction false} AloneIsCareful(s: State, a: Action)
    requires Alone(s) && StillRunning(s) && Enabled(s, a)
    ensures CarefulStep(s, a)
  {
    if a.CommitSweep? {
      forall id | id in s.workers[a.w].verdicts && id in s.jobs
        ensures !IsFinal(s.jobs[id])
      {
        assert id in Selected(s.workers[a.w]) && RunsIn(s, id);
      }
    }
  }

  /** If no other worker is up from a sweep's selection to its commit, every sweep is careful. */
  lemma {:induction false} LoneSweepsAreCareful(s: State, trace: seq<Action>)
    requires Valid(s, trace) && AloneThroughout(s, trace) && StillRunning(s)
    ensures Careful(s, trace)
    decreases |trace|
  {
    if trace != [] {
      AloneIsCareful(s, trace[0]);
      StepKeepsStillRunning(s, trace[0]);
      LoneSweepsAreCareful(Apply(s, trace[0]), trace[1..]);
    }
  }

  // ---- What a worker can always do ---------------------------------------

  /** The trace leads from one state to the other. */
  predicate Leads(s: State, trace: seq<Action>, t: State) {
    Valid(s, trace) && After(s, trace) == t
  }

  predicate OwnSteps(trace: seq<Action>, w: WorkerId) {
    trace == [] || (!trace[0].Enqueue? && trace[0].w == w && OwnSteps(trace[1..], w))
  }

  lemma {:induction false} FirstStep(s: State, a: Action, rest: seq<Action>, t: State, w: WorkerId)
    returns (trace: seq<Action>)
    requires Enabled(s, a) && !a.Enqueue? && a.w == w && Leads(Apply(s, a), rest, t) && OwnSteps(rest, w)
    ensures trace == [a] + rest && Leads(s, trace, t) && OwnSteps(trace, w)
  {
    trace := [a] + rest;
    assert trace[1..] == rest;
  }

  /** An idle worker can take any queued job that is not locked to success, by its own steps, whatever the final
      status of its run: one attempt, one run, and no other job or run touched. */
  lemma {:induction false} QueuedJobCanSucceed(s: State, w: WorkerId, id: JobId, run: RunId, final: RunStatus,
                                               now: Time)
    returns (trace: seq<Action>)
    requires s.PhaseOf(w).Idle? && id in s.jobs && s.jobs[id].status.Queued? && !Locked(s, w, id) && run !in s.runs
    requires !final.RunRunning?
    ensures OwnSteps(trace, w) && Valid(s, trace) && After(s, trace).PhaseOf(w).Idle?
    ensures var done := After(s, trace).jobs;
            && done.Keys == s.jobs.Keys && (forall other | other in done && other != id :: done[other] == s.jobs[other])
            && done[id].status.Succeeded? && done[id].resultRun == Some(run)
            && done[id].attempts == s.jobs[id].attempts + 1
    ensures After(s, trace).runs == s.runs[run := final]
  {
    var claimed := Apply(s, ClaimOne(w, id, now));
    var open := Apply(claimed, OpenRun(w, run));
    var closed := Apply(open, CloseRun(w, final));
    assert !Locked(closed, w, id);
    var done := Apply(closed, MarkDone(w, now));
    trace := FirstStep(closed, MarkDone(w, now), [], done, w);
    trace := FirstStep(open, CloseRun(w, final), trace, done, w);
    trace := FirstStep(claimed, OpenRun(w, run), trace, done, w);
    trace := FirstStep(s, ClaimOne(w, id, now), trace, done, w);
  }

  /** An exception at any point of an attempt can be recorded: the job has failed with that error, its attempts
      stand, no run changes, and the worker goes on, or exits if it was cancelled. */
  lemma {:induction false} FailureCanBeRecorded(s: State, w: WorkerId, error: string, now: Time, exits: bool)
    returns (trace: seq<Action>)
    requires var p := s.PhaseOf(w);
             (p.Claimed? || p.Ingesting? || p.Persisted?) && p.job in s.jobs && !Locked(s, w, p.job)
    ensures OwnSteps(trace, w) && Valid(s, trace)
    ensures After(s, trace).PhaseOf(w) == (if exits then Down else Idle) && After(s, trace).runs == s.runs
    ensures var id, jobs := s.PhaseOf(w).job, After(s, trace).jobs;
            && jobs.Keys == s.jobs.Keys && (forall other | other in jobs && other != id :: jobs[other] == s.jobs[other])
            && jobs[id].status.Failed? && jobs[id].lastError == Some(error) && jobs[id].attempts == s.jobs[id].attempts
            && jobs[id].resultRun == s.jobs[id].resultRun
  {
    var raised := Apply(s, Raise(w));
    assert !Locked(raised, w, s.PhaseOf(w).job);
    var failed := Apply(raised, MarkFailed(w, error, now, exits));
    trace := FirstStep(raised, MarkFailed(w, error, now, exits), [], failed, w);
    trace := FirstStep(s, Raise(w), trace, failed, w);
  }

  /** The sweep with everything decided that it had selected. */
  function AllDecided(s: State, w: WorkerId): State
    requires s.PhaseOf(w).Sweeping?
  {
    var p := s.PhaseOf(w);
    s.(workers := s.workers[w := Sweeping(map[], p.verdicts + Verdicts(p.todo, s.runs))])
  }

  lemma {:induction false} DecideOne(s: State, w: WorkerId, id: JobId)
    requires s.PhaseOf(w).Sweeping? && id in s.PhaseOf(w).todo && forall other :: !Locked(s, w, other)
    ensures Enabled(s, Decide(w, id)) && forall other :: !Locked(Apply(s, Decide(w, id)), w, other)
    ensures Apply(s, Decide(w, id)).PhaseOf(w).Sweeping?
    ensures Apply(s, Decide(w, id)).PhaseOf(w).todo.Keys == s.PhaseOf(w).todo.Keys - {id}
    ensures AllDecided(Apply(s, Decide(w, id)), w) == AllDecided(s, w)
  {
    var next, p := Apply(s, Decide(w, id)), s.PhaseOf(w);
    forall other ensures !Locked(next, w, other) {
      assert !Locked(s, w, other);
    }
    var q := next.PhaseOf(w);
    assert q.verdicts + Verdicts(q.todo, s.runs) == p.verdicts + Verdicts(p.todo, s.runs);
  }

  /** A sweep that no other one locks out can decide on everything it selected. */
  lemma {:induction false} CanDecideAll(s: State, w: WorkerId) returns (trace: seq<Action>)
    requires s.PhaseOf(w).Sweeping? && forall id :: !Locked(s, w, id)
    ensures Leads(s, trace, AllDecided(s, w)) && OwnSteps(trace, w)
    decreases s.PhaseOf(w).todo.Keys
  {
    var p := s.PhaseOf(w);
    if p.todo == map[] {
      trace := [];
      assert p.verdicts + Verdicts(p.todo, s.runs) == p.verdicts;
      assert s.workers[w := p] == s.workers;
    } else {
      var id :| id in p.todo;
      DecideOne(s, w, id);
      var rest := CanDecideAll(Apply(s, Decide(w, id)), w);
      trace := FirstStep(s, Decide(w, id), rest, AllDecided(s, w), w);
    }
  }

  /** Restarting recovers: if no sweep is open, a worker that is down can start and sweep, by its own steps, and
      then every job that was running is queued again, or succeeded if it named a run that had succeeded, be it
      in part; no other job has changed. */
  lemma {:induction false} RestartRecovers(s: State, w: WorkerId, now: Time) returns (trace: seq<Action>)
    requires s.PhaseOf(w).Down? && forall v | v in s.workers :: !s.workers[v].Sweeping?
    ensures OwnSteps(trace, w) && Valid(s, trace) && After(s, trace).PhaseOf(w).Idle?
    ensures var recovered := After(s, trace).jobs;
            && recovered.Keys == s.jobs.Keys
            && forall id | id in s.jobs ::
                 if s.jobs[id].status.Running? then
                   var run := s.jobs[id].resultRun;
                   var persisted := run.Some? && run.value in s.runs &&
                                    (s.runs[run.value].RunSucceeded? || s.runs[run.value].RunPartial?);
                   recovered[id].status == (if persisted then Succeeded else Queued) && recovered[id].resultRun == run
                 else recovered[id] == s.jobs[id]
  {
    var starting := Apply(s, Start(w));
    var listed := Apply(starting, ListStale(w));
    var decides := CanDecideAll(listed, w);
    var decided := After(listed, decides);
    var end := Apply(decided, CommitSweep(w, now));
    trace := OneMoreOwn(listed, decides, CommitSweep(w, now), w);
    trace := FirstStep(starting, ListStale(w), trace, end, w);
    trace := FirstStep(s, Start(w), trace, end, w);
  }

  lemma {:induction false} OneMoreOwn(s: State, trace: seq<Action>, a: Action, w: WorkerId)
    returns (longer: seq<Action>)
    requires Valid(s, trace) && OwnSteps(trace, w) && Enabled(After(s, trace), a) && !a.Enqueue? && a.w == w
    ensures Leads(s, longer, Apply(After(s, trace), a)) && OwnSteps(longer, w)
    decreases |trace|
  {
    if trace == [] {
      longer := FirstStep(s, a, [], Apply(s, a), w);
    } else {
      var rest := OneMoreOwn(Apply(s, trace[0]), trace[1..], a, w);
      longer := FirstStep(s, trace[0], rest, Apply(After(s, trace), a), w);
    }
  }

  // ---- Two runs that go wrong --------------------------------------------

  predicate Reaches(trace: seq<Action>, s: State) {
    Leads(INITIAL, trace, s)
  }

  lemma {:induction false} Then(trace: seq<Action>, s: State, a: Action, t: State) returns (longer: seq<Action>)
    requires Reaches(trace, s) && Enabled(s, a) && Apply(s, a) == t
    ensures longer == trace + [a] && Reaches(longer, t)
  {
    longer := trace + [a];
    OneMore(INITIAL, trace, a);
  }

  lemma {:induction false} OneMore(s: State, trace: seq<Action>, a: Action)
    requires Valid(s, trace) && Enabled(After(s, trace), a)
    ensures Valid(s, trace + [a]) && After(s, trace + [a]) == Apply(After(s, trace), a)
    decreases |trace|
  {
    if trace == [] {
      assert trace + [a] == [a] && [a][1..] == [];
    } else {
      OneMore(Apply(s, trace[0]), trace[1..], a);
      assert (trace + [a])[1..] == trace[1..] + [a];
    }
  }

  const BUSY: Job := Claim(NewJob(0), 0)

  /** A first worker that has swept an empty table and claimed job 7. */
  lemma {:induction false} OneBusyWorker() returns (trace: seq<Action>)
    ensures Reaches(trace, State(map[7 := BUSY], map[], map[1 := Claimed(7)]))
  {
    var idle := State(map[], map[], map[1 := Idle]);
    trace := Then([], INITIAL, Start(1), State(map[], map[], map[1 := Starting]));
    trace := Then(trace, State(map[], map[], map[1 := Starting]), ListStale(1),
                  State(map[], map[], map[1 := Sweeping(map[], map[])]));
    trace := Then(trace, State(map[], map[], map[1 := Sweeping(map[], map[])]), CommitSweep(1, 0), idle);
    var queued := State(map[7 := NewJob(0)], map[], map[1 := Idle]);
    trace := Then(trace, idle, Enqueue(7, 0), queued);
    trace := Then(trace, queued, ClaimOne(1, 7, 0), State(map[7 := BUSY], map[], map[1 := Claimed(7)]));
  }

  /** A second worker starts; its sweep selects job 7, whatever the first one has made of it. */
  lemma {:induction false} SecondWorkerSelects(trace: seq<Action>, job: Job, runs: Runs, first: Phase)
    returns (longer: seq<Action>)
    requires job.status.Running? && !first.Sweeping? && Reaches(trace, State(map[7 := job], runs, map[1 := first]))
    ensures Reaches(longer, State(map[7 := job], runs, map[1 := first, 2 := Sweeping(map[7 := job.resultRun], map[])]))
  {
    var started := State(map[7 := job], runs, map[1 := first, 2 := Starting]);
    longer := Then(trace, State(map[7 := job], runs, map[1 := first]), Start(2), started);
    assert RunningRows(started.jobs) == map[7 := job.resultRun];
    longer := Then(longer, started, ListStale(2),
                   State(map[7 := job], runs, map[1 := first, 2 := Sweeping(map[7 := job.resultRun], map[])]));
  }

  /** It decides on the row as it was selected, and commits on the row as it is. */
  lemma {:induction false} SecondWorkerCommits(trace: seq<Action>, job: Job, run: Option<RunId>, runs: Runs,
                                               first: Phase)
    returns (longer: seq<Action>)
    requires !first.Sweeping?
    requires Reaches(trace, State(map[7 := job], runs, map[1 := first, 2 := Sweeping(map[7 := run], map[])]))
    ensures Reaches(longer, State(map[7 := Settle(job, Verdict(run, runs), 0)], runs, map[1 := first, 2 := Idle]))
  {
    var verdicts := map[7 := Verdict(run, runs)];
    var decided := State(map[7 := job], runs, map[1 := first, 2 := Sweeping(map[], verdicts)]);
    assert map[7 := run] - {7} == map[];
    longer := Then(trace, State(map[7 := job], runs, map[1 := first, 2 := Sweeping(map[7 := run], map[])]),
                   Decide(2, 7), decided);
    assert Settled(decided.jobs, verdicts, 0) == map[7 := Settle(job, verdicts[7], 0)];
    longer := Then(longer, decided, CommitSweep(2, 0),
                   State(map[7 := Settle(job, Verdict(run, runs), 0)], runs, map[1 := first, 2 := Idle]));
  }

  /** A second worker that starts while the first is busy takes the first one's job: both hold it. */
  lemma {:induction false} RollingStartDoubleProcesses() returns (trace: seq<Action>)
    ensures Valid(INITIAL, trace)
    ensures After(INITIAL, trace).PhaseOf(1) == Claimed(7) && After(INITIAL, trace).PhaseOf(2) == Claimed(7)
  {
    trace := OneBusyWorker();
    trace := SecondWorkerSelects(trace, BUSY, map[], Claimed(7));
    trace := SecondWorkerCommits(trace, BUSY, None, map[], Claimed(7));
    var taken := State(map[7 := Requeue(BUSY)], map[], map[1 := Claimed(7), 2 := Idle]);
    trace := Then(trace, taken, ClaimOne(2, 7, 0), Apply(taken, ClaimOne(2, 7, 0)));
  }

  const DONE: Runs := map[3 := RunSucceeded]

  lemma {:induction false} FirstWorkerPersists() returns (trace: seq<Action>)
    ensures Reaches(trace, State(map[7 := BUSY], DONE, map[1 := Persisted(7, 3)]))
  {
    trace := OneBusyWorker();
    var open := State(map[7 := BUSY], map[3 := RunRunning], map[1 := Ingesting(7, 3)]);
    trace := Then(trace, State(map[7 := BUSY], map[], map[1 := Claimed(7)]), OpenRun(1, 3), open);
    trace := Then(trace, open, CloseRun(1, RunSucceeded), State(map[7 := BUSY], DONE, map[1 := Persisted(7, 3)]));
  }

  /** The first worker finishes its job under the second one's sweep, which requeues it with its result. */
  lemma {:induction false} RacingSweepRequeuesFinishedJob() returns (trace: seq<Action>)
    ensures var finished := Finish(BUSY, Some(3), 0);
            Reaches(trace, State(map[7 := Requeue(finished)], DONE, map[1 := Idle, 2 := Idle]))
  {
    trace := FirstWorkerPersists();
    trace := SecondWorkerSelects(trace, BUSY, DONE, Persisted(7, 3));
    var sweeping := Sweeping(map[7 := None], map[]);
    var selected := State(map[7 := BUSY], DONE, map[1 := Persisted(7, 3), 2 := sweeping]);
    trace := Then(trace, selected, MarkDone(1, 0),
                  State(map[7 := Finish(BUSY, Some(3), 0)], DONE, map[1 := Idle, 2 := sweeping]));
    trace := SecondWorkerCommits(trace, Finish(BUSY, Some(3), 0), None, DONE, Idle);
  }

  /** The second worker claims the job, crashes and is started again; its sweep selects the job. */
  lemma {:induction false} SecondWorkerRestarts(trace: seq<Action>, job: Job)
    returns (longer: seq<Action>, running: Job)
    requires job.status.Queued? && Reaches(trace, State(map[7 := job], DONE, map[1 := Idle, 2 := Idle]))
    ensures running == Claim(job, 0)
    ensures Reaches(longer, State(map[7 := running], DONE, map[1 := Idle, 2 := Starting]))
  {
    running := Claim(job, 0);
    var claimed := State(map[7 := running], DONE, map[1 := Idle, 2 := Claimed(7)]);
    var crashed := State(map[7 := running], DONE, map[1 := Idle, 2 := Down]);
    longer := Then(trace, State(map[7 := job], DONE, map[1 := Idle, 2 := Idle]), ClaimOne(2, 7, 0), claimed);
    longer := Then(longer, claimed, Crash(2), crashed);
    longer := Then(longer, crashed, Start(2), State(map[7 := running], DONE, map[1 := Idle, 2 := Starting]));
  }

  /** From there, a crash during the second attempt leads the next sweep to mark the job succeeded. */
  lemma {:induction false} RacingSweepLeadsToMarkedJob() returns (trace: seq<Action>, running: Job)
    ensures running.status.Running? && running.resultRun == Some(3)
    ensures Reaches(trace, State(map[7 := Finish(running, Some(3), 0)], DONE, map[1 := Idle, 2 := Idle]))
  {
    trace := RacingSweepRequeuesFinishedJob();
    trace, running := SecondWorkerRestarts(trace, Requeue(Finish(BUSY, Some(3), 0)));
    assert RunningRows(map[7 := running]) == map[7 := Some(3)];
    trace := Then(trace, State(map[7 := running], DONE, map[1 := Idle, 2 := Starting]), ListStale(2),
                  State(map[7 := running], DONE, map[1 := Idle, 2 := Sweeping(map[7 := Some(3)], map[])]));
    trace := SecondWorkerCommits(trace, running, Some(3), DONE, Idle);
  }
}
