/** Concurrent requests against the replay cache, as a transition system. Each request checks,
    executes its handler, inserts in its own transaction and then commits or rolls back, while the
    clock advances and a sweeper deletes expired rows. */
module IdempotencyProtocol {
  import opened Wrappers
  import opened IdempotencyTable

  /** A handler run: what it was asked and what it answered. */
  datatype Execution = Execution(slot: Option<Slot>, hash: string, response: Response)

  datatype Phase =
    | Missed(slot: Option<Slot>, hash: string)
    | Executed(execution: Execution)
    | Inserted(at: Slot, row: Row)  // not yet committed; its key is locked
    | Unstored                      // nothing was inserted
    | Done

  /** A replay: the request's slot, hash and time, and the row it was served from. */
  datatype Replay = Replay(slot: Slot, hash: string, at: Time, response: Response, row: Row)

  datatype Commit = Commit(slot: Slot, row: Row)

  /** The committed table and clock, the open requests, and three histories: handler runs, committed
      rows and replays. */
  datatype State = State(
    rows: Rows,
    now: Time,
    requests: map<RequestId, Phase>,
    executions: map<RequestId, Execution>,
    commits: set<Commit>,
    replays: set<Replay>)

  datatype Action =
    | Arrive(r: RequestId, slot: Option<Slot>, hash: string)
    | Execute(r: RequestId, response: Response)
    | Store(r: RequestId)
    | StoreFails(r: RequestId)
    | Skip(r: RequestId)
    | CommitTx(r: RequestId)
    | Rollback(r: RequestId)
    | Tick(seconds: nat)
    | Sweep

  /** An uncommitted insert of the slot blocks every other insert of it. */
  predicate Locked(s: State, slot: Slot) {
    exists r | r in s.requests :: s.requests[r].Inserted? && s.requests[r].at == slot
  }

  predicate In(s: State, r: RequestId) {
    r in s.requests
  }

  predicate Enabled(s: State, a: Action) {
    match a
    case Arrive(r, _, _) => r !in s.requests
    case Execute(r, _) => In(s, r) && s.requests[r].Missed?
    case Store(r) =>
      In(s, r) && s.requests[r].Executed? && s.requests[r].execution.slot.Some? &&
      ShouldCache(s.requests[r].execution.response.status) && !Locked(s, s.requests[r].execution.slot.value)
    case StoreFails(r) => In(s, r) && s.requests[r].Executed?
    case Skip(r) =>
      In(s, r) && s.requests[r].Executed? &&
      (s.requests[r].execution.slot.None? || !ShouldCache(s.requests[r].execution.response.status))
    case CommitTx(r) => In(s, r) && (s.requests[r].Inserted? || s.requests[r].Unstored?)
    case Rollback(r) => In(s, r) && !s.requests[r].Done?
    case Tick(_) => true
    case Sweep => true
  }

  function Apply(s: State, a: Action): State
    requires Enabled(s, a)
  {
    match a
    case Arrive(r, slot, hash) =>
      (match Check(s.rows, slot, hash, s.now)
       case Miss => s.(requests := s.requests[r := Missed(slot, hash)])
       case Conflict => s.(requests := s.requests[r := Done])
       case Hit(response) =>
         s.(requests := s.requests[r := Done],
            replays := s.replays + {Replay(slot.value, hash, s.now, response, s.rows[slot.value])}))
    case Execute(r, response) =>
      var e := Execution(s.requests[r].slot, s.requests[r].hash, response);
      s.(requests := s.requests[r := Executed(e)], executions := s.executions[r := e])
    case Store(r) =>
      var e := s.requests[r].execution;
      if e.slot.value in s.rows then s.(requests := s.requests[r := Unstored])
      else s.(requests := s.requests[r := Inserted(e.slot.value, Row(e.hash, e.response, r, s.now, s.now + TTL))])
    case StoreFails(r) => s.(requests := s.requests[r := Unstored])
    case Skip(r) => s.(requests := s.requests[r := Unstored])
    case CommitTx(r) =>
      var p := s.requests[r];
      if p.Unstored? then s.(requests := s.requests[r := Done])
      else s.(requests := s.requests[r := Done], rows := s.rows[p.at := p.row],
              commits := s.commits + {Commit(p.at, p.row)})
    case Rollback(r) => s.(requests := s.requests[r := Done])
    case Tick(seconds) => s.(now := s.now + seconds)
    case Sweep => s.(rows := Swept(s.rows, s.now))
  }

  const INITIAL: State := State(map[], 0, map[], map[], {}, {})

  predicate Valid(s: State, trace: seq<Action>)
    decreases |trace|
  {
    trace == [] || (Enabled(s, trace[0]) && Valid(Apply(s, trace[0]), trace[1..]))
  }

  function After(s: State, trace: seq<Action>): State
    requires Valid(s, trace)
    decreases |trace|
  {
    if trace == [] then s else After(Apply(s, trace[0]), trace[1..])
  }

  // ---- The invariant -----------------------------------------------------

  /** The row holds the answer of a handler run for this slot, may be cached, and lives for the TTL. */
  predicate RowSound(s: State, slot: Slot, row: Row) {
    && row.author in s.executions && s.executions[row.author] == Execution(Some(slot), row.hash, row.response)
    && ShouldCache(row.response.status)
    && row.createdAt <= s.now && row.expiresAt == row.createdAt + TTL
  }

  /** Every row committed for the slot so far had expired before `t`. */
  predicate ExpiredBefore(commits: set<Commit>, slot: Slot, t: Time) {
    forall c | c in commits :: c.slot == slot ==> c.row.expiresAt < t
  }

  /** A request that executed is on record; one that inserted holds a sound row for a slot whose rows
      are all gone, and is the only one to have inserted there. */
  predicate PhaseSound(s: State, r: RequestId)
    requires r in s.requests
  {
    match s.requests[r]
    case Missed(_, _) => r !in s.executions
    case Executed(e) => r in s.executions && s.executions[r] == e
    case Inserted(at, row) =>
      RowSound(s, at, row) && at !in s.rows && ExpiredBefore(s.commits, at, row.createdAt)
    case _ => true
  }

  ghost predicate RequestsSound(s: State) {
    && (forall r | r in s.requests :: PhaseSound(s, r))
    && (forall q, r | q in s.requests && r in s.requests && q != r &&
                      s.requests[q].Inserted? && s.requests[r].Inserted? ::
          s.requests[q].at != s.requests[r].at)
    && s.executions.Keys <= s.requests.Keys
  }

  /** A committed row is the current one, or it expired before the current one was stored; where there
      is no current one it has expired by now. */
  predicate CommitSound(s: State, c: Commit) {
    && RowSound(s, c.slot, c.row)
    && if c.slot in s.rows then c.row == s.rows[c.slot] || c.row.expiresAt < s.rows[c.slot].createdAt
       else c.row.expiresAt < s.now
  }

  predicate Apart(c: Commit, d: Commit) {
    c.slot == d.slot && c.row != d.row ==> c.row.expiresAt < d.row.createdAt || d.row.expiresAt < c.row.createdAt
  }

  ghost predicate CommitsSound(s: State) {
    && (forall c | c in s.commits :: CommitSound(s, c))
    && (forall c, d | c in s.commits && d in s.commits :: Apart(c, d))
    && (forall slot | slot in s.rows :: Commit(slot, s.rows[slot]) in s.commits)
  }

  predicate ReplaySound(s: State, h: Replay) {
    && Commit(h.slot, h.row) in s.commits
    && h.hash == h.row.hash && h.response == h.row.response
    && h.row.createdAt <= h.at < h.row.expiresAt && h.at <= s.now
  }

  ghost predicate ReplaysSound(s: State) {
    forall h | h in s.replays :: ReplaySound(s, h)
  }

  ghost predicate Sound(s: State) {
    RequestsSound(s) && CommitsSound(s) && ReplaysSound(s)
  }

  // ---- Each step keeps it ------------------------------------------------

  /** Handler runs on record never change, so a sound row stays sound. */
  lemma {:induction false} StepKeepsRow(s: State, a: Action, slot: Slot, row: Row)
    requires RequestsSound(s) && Enabled(s, a) && RowSound(s, slot, row)
    ensures RowSound(Apply(s, a), slot, row)
  {
    assert a.Execute? ==> PhaseSound(s, a.r);
  }

  lemma {:induction false} InsertStays(s: State, a: Action, r: RequestId)
    requires Sound(s) && Enabled(s, a) && r in s.requests && s.requests[r].Inserted?
    requires a.CommitTx? ==> a.r != r
    ensures var s', at, row := Apply(s, a), s.requests[r].at, s.requests[r].row;
            RowSound(s', at, row) && at !in s'.rows && ExpiredBefore(s'.commits, at, row.createdAt)
  {
    assert PhaseSound(s, r);
    StepKeepsRow(s, a, s.requests[r].at, s.requests[r].row);
  }

  lemma {:induction false} StepKeepsOtherPhase(s: State, a: Action, r: RequestId)
    requires Sound(s) && Enabled(s, a)
    requires r in s.requests && Apply(s, a).requests[r] == s.requests[r]
    requires (a.Execute? || a.CommitTx?) ==> a.r != r
    ensures PhaseSound(Apply(s, a), r)
  {
    if s.requests[r].Inserted? {
      InsertStays(s, a, r);
    } else {
      assert PhaseSound(s, r);
    }
  }

  lemma {:induction false} StepKeepsOwnPhase(s: State, a: Action)
    requires Sound(s) && Enabled(s, a) && !a.Tick? && !a.Sweep?
    ensures PhaseSound(Apply(s, a), a.r)
  {
    if a.Store? {
      assert PhaseSound(s, a.r);
      var slot := s.requests[a.r].execution.slot.value;
      assert forall c | c in s.commits && c.slot == slot :: CommitSound(s, c);
    }
  }

  lemma {:induction false} StepKeepsPhase(s: State, a: Action, r: RequestId)
    requires Sound(s) && Enabled(s, a) && r in Apply(s, a).requests
    ensures PhaseSound(Apply(s, a), r)
  {
    if !a.Tick? && !a.Sweep? && a.r == r {
      StepKeepsOwnPhase(s, a);
    } else {
      StepKeepsOtherPhase(s, a, r);
    }
  }

  lemma {:induction false} StoreStaysApart(s: State, r: RequestId, other: RequestId)
    requires Enabled(s, Store(r)) && other in s.requests && other != r && s.requests[other].Inserted?
    ensures Apply(s, Store(r)).requests[r].Inserted? ==>
              Apply(s, Store(r)).requests[r].at != s.requests[other].at
  {
    assert !Locked(s, s.requests[r].execution.slot.value);
  }

  lemma {:induction false} InsertsStayApart(s: State, a: Action, q: RequestId, r: RequestId)
    requires Sound(s) && Enabled(s, a) && q in Apply(s, a).requests && r in Apply(s, a).requests && q != r
    requires Apply(s, a).requests[q].Inserted? && Apply(s, a).requests[r].Inserted?
    ensures Apply(s, a).requests[q].at != Apply(s, a).requests[r].at
  {
    if a.Store? && a.r == q {
      StoreStaysApart(s, q, r);
    } else if a.Store? && a.r == r {
      StoreStaysApart(s, r, q);
    } else {
      assert s.requests[q].Inserted? && s.requests[r].Inserted?;
    }
  }

  lemma {:induction false} StepKeepsRequests(s: State, a: Action)
    requires Sound(s) && Enabled(s, a)
    ensures RequestsSound(Apply(s, a))
  {
    var s' := Apply(s, a);
    forall r | r in s'.requests ensures PhaseSound(s', r) {
      StepKeepsPhase(s, a, r);
    }
    forall q, r | q in s'.requests && r in s'.requests && q != r && s'.requests[q].Inserted? && s'.requests[r].Inserted?
      ensures s'.requests[q].at != s'.requests[r].at
    {
      InsertsStayApart(s, a, q, r);
    }
  }

  lemma {:induction false} CommitTxKeepsCommit(s: State, r: RequestId, c: Commit)
    requires Sound(s) && Enabled(s, CommitTx(r)) && s.requests[r].Inserted?
    requires c in s.commits || c == Commit(s.requests[r].at, s.requests[r].row)
    ensures CommitSound(Apply(s, CommitTx(r)), c)
  {
    assert PhaseSound(s, r);
    if c in s.commits {
      assert CommitSound(s, c);
    }
  }

  lemma {:induction false} SweepKeepsCommit(s: State, c: Commit)
    requires Sound(s) && c in s.commits
    ensures CommitSound(Apply(s, Sweep), c)
  {
    assert CommitSound(s, c);
    if c.slot in s.rows {
      assert CommitSound(s, Commit(c.slot, s.rows[c.slot]));
    }
  }

  lemma {:induction false} OtherStepsLeaveRows(s: State, a: Action)
    requires Enabled(s, a) && !a.Sweep? && !(a.CommitTx? && s.requests[a.r].Inserted?)
    ensures Apply(s, a).rows == s.rows && Apply(s, a).commits == s.commits && s.now <= Apply(s, a).now
  {
  }

  lemma {:induction false} SameRowsKeepCommit(s: State, s': State, c: Commit)
    requires CommitSound(s, c) && RowSound(s', c.slot, c.row)
    requires s'.rows == s.rows && s.now <= s'.now
    ensures CommitSound(s', c)
  {
  }

  lemma {:induction false} StepKeepsCommit(s: State, a: Action, c: Commit)
    requires Sound(s) && Enabled(s, a) && c in Apply(s, a).commits
    ensures CommitSound(Apply(s, a), c)
  {
    if a.CommitTx? && s.requests[a.r].Inserted? {
      CommitTxKeepsCommit(s, a.r, c);
    } else if a.Sweep? {
      SweepKeepsCommit(s, c);
    } else {
      OtherStepsLeaveRows(s, a);
      StepKeepsRow(s, a, c.slot, c.row);
      SameRowsKeepCommit(s, Apply(s, a), c);
    }
  }

  lemma {:induction false} CommitsStayApart(s: State, a: Action, c: Commit, d: Commit)
    requires Sound(s) && Enabled(s, a) && c in Apply(s, a).commits && d in Apply(s, a).commits
    ensures Apart(c, d)
  {
    if c in s.commits && d in s.commits {
      assert Apart(c, d);
    } else {
      assert PhaseSound(s, a.r);
      var at, row := s.requests[a.r].at, s.requests[a.r].row;
      assert ExpiredBefore(s.commits, at, row.createdAt);
      assert c in s.commits || c == Commit(at, row);
      assert d in s.commits || d == Commit(at, row);
    }
  }

  lemma {:induction false} StepKeepsCommits(s: State, a: Action)
    requires Sound(s) && Enabled(s, a)
    ensures CommitsSound(Apply(s, a))
  {
    var s' := Apply(s, a);
    forall c | c in s'.commits ensures CommitSound(s', c) {
      StepKeepsCommit(s, a, c);
    }
    forall c, d | c in s'.commits && d in s'.commits ensures Apart(c, d) {
      CommitsStayApart(s, a, c, d);
    }
    forall slot | slot in s'.rows ensures Commit(slot, s'.rows[slot]) in s'.commits {
      assert slot in s.rows ==> Commit(slot, s.rows[slot]) in s.commits;
    }
  }

  lemma {:induction false} StepKeepsReplays(s: State, a: Action)
    requires Sound(s) && Enabled(s, a)
    ensures ReplaysSound(Apply(s, a))
  {
    var s' := Apply(s, a);
    forall h | h in s'.replays ensures ReplaySound(s', h) {
      if h in s.replays {
        assert ReplaySound(s, h);
      } else {
        assert CommitSound(s, Commit(h.slot, s.rows[h.slot]));
      }
    }
  }

  lemma {:induction false} StepKeepsSound(s: State, a: Action)
    requires Sound(s) && Enabled(s, a)
    ensures Sound(Apply(s, a))
  {
    StepKeepsRequests(s, a);
    StepKeepsCommits(s, a);
    StepKeepsReplays(s, a);
  }

  lemma {:induction false} RunKeepsSound(s: State, trace: seq<Action>)
    requires Sound(s) && Valid(s, trace)
    ensures Sound(After(s, trace))
    decreases |trace|
  {
    if trace != [] {
      StepKeepsSound(s, trace[0]);
      RunKeepsSound(Apply(s, trace[0]), trace[1..]);
    }
  }

  // ---- What clients can rely on ------------------------------------------

  /** Every replay serves what some handler run answered to a request with the same key, route and
      body hash, and serves it before the stored answer is 24 hours old. */
  lemma {:induction false} ReplaysAreEarlierAnswers(trace: seq<Action>, h: Replay)
    requires Valid(INITIAL, trace) && h in After(INITIAL, trace).replays
    ensures var executions := After(INITIAL, trace).executions;
            h.row.author in executions && executions[h.row.author] == Execution(Some(h.slot), h.hash, h.response)
    ensures 200 <= h.response.status <= 499 && h.row.createdAt <= h.at < h.row.createdAt + 24 * 60 * 60
  {
    RunKeepsSound(INITIAL, trace);
    var s := After(INITIAL, trace);
    assert ReplaySound(s, h) && CommitSound(s, Commit(h.slot, h.row));
  }

  /** Two replays for one slot give the same response unless the row behind the earlier one had
      expired by the time of the later one. */
  lemma {:induction false} ReplaysAgreeUntilExpiry(trace: seq<Action>, h: Replay, k: Replay)
    requires Valid(INITIAL, trace)
    requires h in After(INITIAL, trace).replays && k in After(INITIAL, trace).replays
    requires h.slot == k.slot && h.at <= k.at
    ensures (h.row == k.row && h.response == k.response) || h.row.expiresAt < k.at
  {
    RunKeepsSound(INITIAL, trace);
    var s := After(INITIAL, trace);
    assert ReplaySound(s, h) && ReplaySound(s, k);
    assert Apart(Commit(h.slot, h.row), Commit(k.slot, k.row));
  }

  /** The lifetimes of two rows of one slot never overlap, though any number of requests run at once. */
  lemma {:induction false} RowsOfOneSlotNeverOverlap(trace: seq<Action>, c: Commit, d: Commit)
    requires Valid(INITIAL, trace) && c in After(INITIAL, trace).commits && d in After(INITIAL, trace).commits
    requires c.slot == d.slot && c.row != d.row
    ensures c.row.createdAt + TTL < d.row.createdAt || d.row.createdAt + TTL < c.row.createdAt
  {
    RunKeepsSound(INITIAL, trace);
    var s := After(INITIAL, trace);
    assert CommitSound(s, c) && CommitSound(s, d) && Apart(c, d);
  }

  predicate NoSweep(trace: seq<Action>) {
    trace == [] || (!trace[0].Sweep? && NoSweep(trace[1..]))
  }

  lemma {:induction false} StepKeepsStoredRow(s: State, a: Action, slot: Slot)
    requires Sound(s) && Enabled(s, a) && !a.Sweep? && slot in s.rows
    ensures slot in Apply(s, a).rows && Apply(s, a).rows[slot] == s.rows[slot] && s.now <= Apply(s, a).now
  {
    assert a.CommitTx? ==> PhaseSound(s, a.r);
  }

  /** A committed row is never changed, and only a sweep removes it. */
  lemma {:induction false} RowsStayUntilSwept(s: State, trace: seq<Action>, slot: Slot)
    requires Sound(s) && Valid(s, trace) && NoSweep(trace) && slot in s.rows
    ensures slot in After(s, trace).rows && After(s, trace).rows[slot] == s.rows[slot]
    ensures s.now <= After(s, trace).now
    decreases |trace|
  {
    if trace != [] {
      StepKeepsSound(s, trace[0]);
      StepKeepsStoredRow(s, trace[0], slot);
      RowsStayUntilSwept(Apply(s, trace[0]), trace[1..], slot);
    }
  }

  /** Between a row's expiry and the next sweep its slot caches nothing: every request misses and runs
      its handler again, and every store leaves the table as it is. */
  lemma {:induction false} ExpiredRowBlocksCaching(s: State, trace: seq<Action>, slot: Slot, hash: string)
    requires Sound(s) && Valid(s, trace) && NoSweep(trace)
    requires slot in s.rows && s.rows[slot].expiresAt <= s.now
    ensures var s' := After(s, trace);
            Check(s'.rows, Some(slot), hash, s'.now) == Miss &&
            forall r | Enabled(s', Store(r)) && s'.requests[r].execution.slot == Some(slot) ::
              Apply(s', Store(r)).requests[r].Unstored? && Apply(s', Store(r)).rows == s'.rows
  {
    RowsStayUntilSwept(s, trace, slot);
  }

  /** A live row outlasts everything, sweeps included: until it is 24 hours old, every request with its key,
      route and body hash is answered from it, and one with another hash is refused. */
  lemma {:induction false} LiveRowsAnswer(s: State, trace: seq<Action>, slot: Slot, hash: string)
    requires Sound(s) && Valid(s, trace) && slot in s.rows
    requires After(s, trace).now < s.rows[slot].createdAt + 24 * 60 * 60
    ensures var s', row := After(s, trace), s.rows[slot];
            && slot in s'.rows && s'.rows[slot] == row
            && Check(s'.rows, Some(slot), hash, s'.now) == if hash == row.hash then Hit(row.response) else Conflict
    decreases |trace|
  {
    assert CommitSound(s, Commit(slot, s.rows[slot]));
    if trace != [] {
      StepKeepsSound(s, trace[0]);
      TimeNeverFalls(Apply(s, trace[0]), trace[1..]);
      if !trace[0].Sweep? {
        StepKeepsStoredRow(s, trace[0], slot);
      }
      LiveRowsAnswer(Apply(s, trace[0]), trace[1..], slot, hash);
    }
  }

  lemma {:induction false} TimeNeverFalls(s: State, trace: seq<Action>)
    requires Valid(s, trace)
    ensures s.now <= After(s, trace).now
    decreases |trace|
  {
    if trace != [] {
      TimeNeverFalls(Apply(s, trace[0]), trace[1..]);
    }
  }

  /** A handler's answer is offered to the table if and only if its status is from 200 to 499. */
  lemma {:induction false} StoreIffCacheable(s: State, r: RequestId)
    requires In(s, r) && s.requests[r].Executed? && s.requests[r].execution.slot.Some?
    requires !Locked(s, s.requests[r].execution.slot.value)
    ensures var status := s.requests[r].execution.response.status;
            (Enabled(s, Store(r)) <==> 200 <= status <= 499) && (Enabled(s, Skip(r)) <==> status < 200 || status > 499)
  {
  }

  /** A sweep frees exactly the slots whose rows had expired, and a store there inserts again. */
  lemma {:induction false} SweepFreesExpiredSlots(s: State, slot: Slot, r: RequestId)
    requires slot in s.rows && s.rows[slot].expiresAt < s.now
    requires Enabled(Apply(s, Sweep), Store(r)) && s.requests[r].execution.slot == Some(slot)
    ensures forall other :: other in Apply(s, Sweep).rows <==> other in s.rows && s.rows[other].expiresAt >= s.now
    ensures var p := Apply(Apply(s, Sweep), Store(r)).requests[r];
            && p.Inserted? && p.at == slot && p.row.response == s.requests[r].execution.response
            && p.row.hash == s.requests[r].execution.hash
            && p.row.createdAt == s.now && p.row.expiresAt == s.now + 24 * 60 * 60
  {
  }

  /** Once a request's insert is committed, every equal request of the next 24 hours gets its answer. */
  lemma {:induction false} CommittedAnswerServes(s: State, r: RequestId, trace: seq<Action>)
    requires Sound(s) && Enabled(s, CommitTx(r)) && s.requests[r].Inserted?
    requires Valid(Apply(s, CommitTx(r)), trace)
    requires After(Apply(s, CommitTx(r)), trace).now < s.requests[r].row.createdAt + 24 * 60 * 60
    ensures var s', p := After(Apply(s, CommitTx(r)), trace), s.requests[r];
            Check(s'.rows, Some(p.at), p.row.hash, s'.now) == Hit(p.row.response)
  {
    StepKeepsSound(s, CommitTx(r));
    LiveRowsAnswer(Apply(s, CommitTx(r)), trace, s.requests[r].at, s.requests[r].row.hash);
  }

  /** A request that finds no row and no insert of its slot under way can run, store and commit, and its answer
      is then the slot's row. */
  lemma {:induction false} FirstAnswerIsStored(s: State, r: RequestId, slot: Slot, hash: string, response: Response)
    returns (trace: seq<Action>)
    requires r !in s.requests && slot !in s.rows && !Locked(s, slot) && 200 <= response.status <= 499
    ensures Valid(s, trace)
    ensures After(s, trace).rows == s.rows[slot := Row(hash, response, r, s.now, s.now + 24 * 60 * 60)]
    ensures After(s, trace).executions == s.executions[r := Execution(Some(slot), hash, response)]
  {
    var missed := Apply(s, Arrive(r, Some(slot), hash));
    var executed := Apply(missed, Execute(r, response));
    assert !Locked(executed, slot);
    var inserted := Apply(executed, Store(r));
    var stored := Apply(inserted, CommitTx(r));
    var last := [CommitTx(r)];
    assert last[1..] == [] && Valid(inserted, last) && After(inserted, last) == stored;
    trace := Before(executed, Store(r), last);
    trace := Before(missed, Execute(r, response), trace);
    trace := Before(s, Arrive(r, Some(slot), hash), trace);
  }

  lemma {:induction false} Before(s: State, a: Action, rest: seq<Action>) returns (trace: seq<Action>)
    requires Enabled(s, a) && Valid(Apply(s, a), rest)
    ensures trace == [a] + rest && Valid(s, trace) && After(s, trace) == After(Apply(s, a), rest)
  {
    trace := [a] + rest;
    assert trace[1..] == rest;
  }

  /** A request that meets a live row runs no handler: with the row's body hash it is replayed, with another it
      is refused, and the table stays as it is. */
  lemma {:induction false} LiveRowRunsNoHandler(s: State, r: RequestId, slot: Slot, hash: string)
    requires r !in s.requests && slot in s.rows && s.now < s.rows[slot].expiresAt
    ensures var s', row := Apply(s, Arrive(r, Some(slot), hash)), s.rows[slot];
            && s'.rows == s.rows && s'.executions == s.executions && s'.requests[r].Done?
            && (forall response :: !Enabled(s', Execute(r, response)))
            && s'.replays == s.replays + if hash == row.hash then {Replay(slot, hash, s.now, row.response, row)} else {}
  {
    if s.rows[slot].hash != hash {
      assert s.replays + {} == s.replays;
    }
  }

  /** A store that fails, or is skipped, costs only the caching: the request commits and is done, its run is on
      record, and nothing else has changed. */
  lemma {:induction false} UnstoredAnswerStillCommits(s: State, r: RequestId, a: Action) returns (trace: seq<Action>)
    requires Enabled(s, a) && (a == StoreFails(r) || a == Skip(r))
    ensures trace == [a, CommitTx(r)] && Valid(s, trace)
    ensures After(s, trace) == s.(requests := s.requests[r := Done])
  {
    var unstored, last := Apply(s, a), [CommitTx(r)];
    assert last[1..] == [] && Valid(unstored, last);
    trace := Before(s, a, last);
    assert s.requests[r := Unstored][r := Done] == s.requests[r := Done];
  }

  /** A request may be rolled back until it is done; an insert that is rolled back leaves no row and gives up
      its slot. */
  lemma {:induction false} RollbackFreesSlot(s: State, r: RequestId)
    requires RequestsSound(s) && In(s, r) && !s.requests[r].Done?
    ensures Enabled(s, Rollback(r))
    ensures var s' := Apply(s, Rollback(r)); s' == s.(requests := s.requests[r := Done])
    ensures s.requests[r].Inserted? ==> !Locked(Apply(s, Rollback(r)), s.requests[r].at)
  {
  }
}
