/** Every run of schedulers, workers and operators over the job table. */
module JobRuns {
  import opened Wrappers
  import opened JobQueue

  /** What a worker was handed: the job, its claim's numbers, and when it was claimed. */
  datatype Claim = Claim(id: nat, attempts: int, maxAttempts: int, at: int)

  datatype State = State(rows: Rows, claims: set<Claim>, used: set<nat>, now: int)

  datatype Step =
    | Tick(to: int)
    | Enqueue(id: nat, scheduledAt: int, maxAttempts: int)
    | ClaimDue(picked: seq<nat>, limit: nat)
    | ReportSuccess(c: Claim)
    | ReportFailure(c: Claim, error: string)
    | Abandon(c: Claim)
    | Requeue
    | Retry(id: nat)
    | Delete(id: nat)

  /** The worker still holds its lease. */
  predicate Timely(s: State, c: Claim) { s.now <= c.at + STUCK_LEASE }

  /** What the program lets happen: workers may report late, and an operator may retry any job. */
  ghost predicate Can(s: State, st: Step) {
    match st
    case Tick(to) => s.now <= to
    case Enqueue(id, _, max) => id !in s.used && max >= 1
    case ClaimDue(picked, limit) => EarliestDue(s.rows, picked, s.now, limit)
    case ReportSuccess(c) => c in s.claims
    case ReportFailure(c, _) => c in s.claims && c.attempts >= 0
    case Abandon(c) => c in s.claims
    case Requeue => true
    case Retry(id) => id in s.rows
    case Delete(id) => id in s.rows
  }

  /** Another worker than `c` holds a lease on the job. */
  predicate Contested(s: State, id: nat, c: Option<Claim>) {
    exists d :: d in s.claims && d.id == id && Some(d) != c && Timely(s, d)
  }

  /**
   The steps that keep the table's rules: a report while no other worker has the job, and a failure report
   moreover only if it ends the job, the row has an attempt left, or the worker is in time; a retry while no
   worker has the job.
   */
  predicate Harmless(s: State, st: Step) {
    match st
    case ReportSuccess(c) => c.id in s.rows ==> !Contested(s, c.id, Some(c))
    case ReportFailure(c, _) =>
      c.id in s.rows ==>
        && !Contested(s, c.id, Some(c))
        && (c.attempts >= c.maxAttempts || s.rows[c.id].attempts < s.rows[c.id].maxAttempts || Timely(s, c))
    case Retry(id) => !Contested(s, id, None)
    case _ => true
  }

  function ClaimsOf(rows: Rows, picked: seq<nat>, now: int): set<Claim>
    requires forall id :: id in picked ==> id in rows
  {
    set id | id in picked :: Claim(id, rows[id].attempts + 1, rows[id].maxAttempts, now)
  }

  ghost function Do(s: State, st: Step): State
    requires Can(s, st)
  {
    match st
    case Tick(to) => s.(now := to)
    case Enqueue(id, at, max) => s.(rows := s.rows[id := Row(Pending, at, None, None, 0, max, "")], used := s.used + {id})
    case ClaimDue(picked, _) =>
      s.(rows := ClaimAll(s.rows, picked, s.now), claims := s.claims + ClaimsOf(s.rows, picked, s.now))
    case ReportSuccess(c) =>
      s.(rows := if c.id in s.rows then s.rows[c.id := SucceededAt(s.rows[c.id], s.now)] else s.rows,
         claims := s.claims - {c})
    case ReportFailure(c, error) =>
      s.(rows := if c.id in s.rows then s.rows[c.id := FailedAt(s.rows[c.id], s.now, error, c.attempts, c.maxAttempts)]
                 else s.rows,
         claims := s.claims - {c})
    case Abandon(c) => s.(claims := s.claims - {c})
    case Requeue => s.(rows := RecoverAll(s.rows, s.now))
    case Retry(id) => s.(rows := s.rows[id := RetriedAt(s.rows[id], s.now)])
    case Delete(id) => s.(rows := s.rows - {id})
  }

  /** Runs of harmless steps. */
  ghost predicate Runs(s: State, steps: seq<Step>, s': State)
    decreases |steps|
  {
    if steps == [] then s == s'
    else
      var n := |steps| - 1;
      exists mid :: Runs(s, steps[..n], mid) && Can(mid, steps[n]) && Harmless(mid, steps[n]) && s' == Do(mid, steps[n])
  }

  /** What has to be assumed for that: workers report within their lease, and only jobs that do not run are retried. */
  predicate Assumed(s: State, st: Step)
    requires Can(s, st)
  {
    match st
    case ReportSuccess(c) => Timely(s, c)
    case ReportFailure(c, _) => Timely(s, c)
    case Retry(id) => !s.rows[id].status.Running?
    case _ => true
  }

  /** Runs in which the assumptions are met. */
  ghost predicate RunsAsAssumed(s: State, steps: seq<Step>, s': State)
    decreases |steps|
  {
    if steps == [] then s == s'
    else
      var n := |steps| - 1;
      exists mid ::
        RunsAsAssumed(s, steps[..n], mid) && Can(mid, steps[n]) && Assumed(mid, steps[n]) && s' == Do(mid, steps[n])
  }

  predicate Init(s: State) { s.rows == map[] && s.claims == {} }

  ghost predicate Reachable(s: State) { exists s0, steps :: Init(s0) && Runs(s0, steps, s) }

  ghost predicate ReachableAsAssumed(s: State) { exists s0, steps :: Init(s0) && RunsAsAssumed(s0, steps, s) }

  // ---------------------------------------------------------------- what every step keeps

  /** A waiting job has an attempt left, and a running one is within its attempts. */
  predicate Bounded(r: Row) {
    && 0 <= r.attempts && 1 <= r.maxAttempts
    && (r.status.Pending? ==> r.attempts < r.maxAttempts)
    && (r.status.Running? ==> 1 <= r.attempts <= r.maxAttempts)
  }

  predicate AllBounded(rows: Rows) { forall id :: id in rows ==> Bounded(rows[id]) }

  /** The row is still the one the worker claimed. */
  predicate Holds(rows: Rows, c: Claim) {
    c.id in rows ==>
      var r := rows[c.id];
      r.status.Running? && r.attempts == c.attempts && r.maxAttempts == c.maxAttempts && r.startedAt == Some(c.at)
  }

  predicate ClaimsHold(s: State) {
    forall c :: c in s.claims ==> c.id in s.used && 1 <= c.attempts && (Timely(s, c) ==> Holds(s.rows, c))
  }

  /** No two workers hold leases on one job. */
  predicate OneWorker(s: State) {
    forall c, d :: c in s.claims && d in s.claims && c.id == d.id && Timely(s, c) && Timely(s, d) ==>
      c == d || c.id !in s.rows
  }

  predicate Inv(s: State) {
    AllBounded(s.rows) && s.rows.Keys <= s.used && ClaimsHold(s) && OneWorker(s)
  }

  lemma ClaimKeepsInv(s: State, picked: seq<nat>, limit: nat)
    requires Can(s, ClaimDue(picked, limit)) && Inv(s)
    ensures Inv(Do(s, ClaimDue(picked, limit)))
  {
    var t := Do(s, ClaimDue(picked, limit));
    forall c | c in t.claims ensures c.id in t.used && 1 <= c.attempts && (Timely(t, c) ==> Holds(t.rows, c)) {
      if c in s.claims && Timely(s, c) {
        assert Holds(s.rows, c);
      }
    }
    forall c, d | c in t.claims && d in t.claims && c.id == d.id && Timely(t, c) && Timely(t, d) && c.id in t.rows
      ensures c == d
    {
      assert Holds(t.rows, c) && Holds(t.rows, d);
    }
  }

  /** The row a report or a retry is about, and what becomes of it. */
  function Target(s: State, st: Step): Option<(nat, Row)>
    requires st.ReportSuccess? || st.ReportFailure? || st.Retry?
    requires st.ReportFailure? ==> st.c.attempts >= 0
  {
    match st
    case ReportSuccess(c) => if c.id in s.rows then Some((c.id, SucceededAt(s.rows[c.id], s.now))) else None
    case ReportFailure(c, error) =>
      if c.id in s.rows then Some((c.id, FailedAt(s.rows[c.id], s.now, error, c.attempts, c.maxAttempts))) else None
    case Retry(id) => if id in s.rows then Some((id, RetriedAt(s.rows[id], s.now))) else None
  }

  /** A report or a retry takes the row out of the hands of whoever holds it. */
  lemma NotRunningAfter(s: State, st: Step)
    requires Can(s, st) && (st.ReportSuccess? || st.ReportFailure? || st.Retry?) && Target(s, st).Some?
    ensures var id, r := Target(s, st).value.0, Target(s, st).value.1;
            id in s.rows && Do(s, st).rows == s.rows[id := r] && !r.status.Running?
  {
  }

  lemma ClaimsHoldIff(s: State, st: Step)
    requires Can(s, st) && Inv(s) && (st.ReportSuccess? || st.ReportFailure? || st.Retry?) && Target(s, st).Some?
    ensures ClaimsHold(Do(s, st)) <==> !Contested(s, Target(s, st).value.0, if st.Retry? then None else Some(st.c))
  {
    var t, id := Do(s, st), Target(s, st).value.0;
    NotRunningAfter(s, st);
    if d :| d in s.claims && d.id == id && (st.Retry? || d != st.c) && Timely(s, d) {
      assert d in t.claims && Timely(t, d) && !Holds(t.rows, d);
    } else {
      forall d | d in t.claims && Timely(t, d) ensures Holds(t.rows, d) {
        assert d in s.claims && Timely(s, d) && Holds(s.rows, d);
      }
    }
  }

  lemma BoundedIff(s: State, st: Step)
    requires Can(s, st) && Inv(s) && (st.ReportSuccess? || st.ReportFailure? || st.Retry?) && Target(s, st).Some?
    ensures AllBounded(Do(s, st).rows) <==>
            st.ReportFailure? ==> st.c.attempts >= st.c.maxAttempts || Timely(s, st.c)
                                  || s.rows[st.c.id].attempts < s.rows[st.c.id].maxAttempts
  {
    var id, r := Target(s, st).value.0, Target(s, st).value.1;
    NotRunningAfter(s, st);
    assert Bounded(s.rows[id]);
    assert AllBounded(Do(s, st).rows) <==> Bounded(r) by {
      assert Do(s, st).rows[id] == r;
    }
    if st.ReportFailure? && Timely(s, st.c) {
      assert Holds(s.rows, st.c);
    }
  }

  /** A report or a retry keeps the rules exactly if it is harmless. */
  lemma TargetedIsSafeIff(s: State, st: Step)
    requires Can(s, st) && Inv(s) && (st.ReportSuccess? || st.ReportFailure? || st.Retry?)
    ensures Inv(Do(s, st)) <==> Harmless(s, st)
  {
    var t := Do(s, st);
    assert OneWorker(t) by {
      forall c, d | c in t.claims && d in t.claims && c.id == d.id && Timely(t, c) && Timely(t, d) && c.id in t.rows
        ensures c == d
      {
        assert Timely(s, c) && Timely(s, d) && c in s.claims && d in s.claims;
      }
    }
    if Target(s, st).Some? {
      ClaimsHoldIff(s, st);
      BoundedIff(s, st);
      NotRunningAfter(s, st);
    } else {
      forall c | c in t.claims && Timely(t, c) ensures Holds(t.rows, c) {
        assert c in s.claims && Timely(s, c) && Holds(s.rows, c);
      }
    }
  }

  lemma OthersKeepInv(s: State, st: Step)
    requires Can(s, st) && Inv(s) && !st.ClaimDue? && !st.ReportSuccess? && !st.ReportFailure? && !st.Retry?
    ensures Inv(Do(s, st))
  {
    var t := Do(s, st);
    forall c | c in t.claims && Timely(t, c) ensures Holds(t.rows, c) {
      assert c in s.claims && Timely(s, c);
      assert Holds(s.rows, c);
    }
  }

  /** Of every step the program allows, exactly the harmless ones keep the rules. */
  lemma StepIsSafeIff(s: State, st: Step)
    requires Reachable(s) && Can(s, st)
    ensures Inv(Do(s, st)) <==> Harmless(s, st)
  {
    ReachableKeepsInv(s);
    InvKeptIff(s, st);
  }

  lemma InvKeptIff(s: State, st: Step)
    requires Can(s, st) && Inv(s)
    ensures Inv(Do(s, st)) <==> Harmless(s, st)
  {
    match st
    case ClaimDue(picked, limit) => ClaimKeepsInv(s, picked, limit);
    case ReportSuccess(_) => TargetedIsSafeIff(s, st);
    case ReportFailure(_, _) => TargetedIsSafeIff(s, st);
    case Retry(_) => TargetedIsSafeIff(s, st);
    case _ => OthersKeepInv(s, st);
  }

  lemma {:induction false} RunsKeepInv(s: State, steps: seq<Step>, s': State)
    requires Inv(s) && Runs(s, steps, s')
    ensures Inv(s')
    decreases |steps|
  {
    if steps != [] {
      var n := |steps| - 1;
      var mid :| Runs(s, steps[..n], mid) && Can(mid, steps[n]) && Harmless(mid, steps[n]) && s' == Do(mid, steps[n]);
      RunsKeepInv(s, steps[..n], mid);
      InvKeptIff(mid, steps[n]);
    }
  }

  lemma ReachableKeepsInv(s: State)
    requires Reachable(s)
    ensures Inv(s)
  {
    var s0, steps :| Init(s0) && Runs(s0, steps, s);
    RunsKeepInv(s0, steps, s);
  }

  // ---------------------------------------------------------------- the promises

  /** A worker that reports within its lease, and a retry of a job that does not run, are harmless. */
  lemma TimelyIsHarmless(s: State, st: Step)
    requires Inv(s) && Can(s, st) && Assumed(s, st)
    ensures Harmless(s, st)
  {
    assert forall d :: d in s.claims && Timely(s, d) ==> Holds(s.rows, d);
  }

  lemma {:induction false} AssumedRunsAreHarmless(s: State, steps: seq<Step>, s': State)
    requires Inv(s) && RunsAsAssumed(s, steps, s')
    ensures Runs(s, steps, s') && Inv(s')
    decreases |steps|
  {
    if steps != [] {
      var n := |steps| - 1;
      var mid :|
        RunsAsAssumed(s, steps[..n], mid) && Can(mid, steps[n]) && Assumed(mid, steps[n]) && s' == Do(mid, steps[n]);
      AssumedRunsAreHarmless(s, steps[..n], mid);
      TimelyIsHarmless(mid, steps[n]);
      InvKeptIff(mid, steps[n]);
    }
  }

  lemma AssumedIsReachable(s: State)
    requires ReachableAsAssumed(s)
    ensures Reachable(s) && Inv(s)
  {
    var s0, steps :| Init(s0) && RunsAsAssumed(s0, steps, s);
    AssumedRunsAreHarmless(s0, steps, s);
  }

  /** In every run as assumed a pending job has an attempt left and a running one is at most at its last. */
  lemma AttemptsStayBounded(s: State, id: nat)
    requires ReachableAsAssumed(s) && id in s.rows
    ensures s.rows[id].status.Pending? ==> 0 <= s.rows[id].attempts < s.rows[id].maxAttempts
    ensures s.rows[id].status.Running? ==> 1 <= s.rows[id].attempts <= s.rows[id].maxAttempts
  {
    AssumedIsReachable(s);
    HarmlessRunsBoundAttempts(s, id);
  }

  lemma HarmlessRunsBoundAttempts(s: State, id: nat)
    requires Reachable(s) && id in s.rows
    ensures s.rows[id].status.Pending? ==> 0 <= s.rows[id].attempts < s.rows[id].maxAttempts
    ensures s.rows[id].status.Running? ==> 1 <= s.rows[id].attempts <= s.rows[id].maxAttempts
  {
    ReachableKeepsInv(s);
  }

  /** And no job is in the hands of two workers that still hold their leases. */
  lemma NoTwoWorkers(s: State, c: Claim, d: Claim)
    requires ReachableAsAssumed(s) && c in s.claims && d in s.claims && Timely(s, c) && Timely(s, d)
    requires c.id == d.id && c.id in s.rows
    ensures c == d && s.rows[c.id].status.Running?
  {
    AssumedIsReachable(s);
    HarmlessRunsKeepOneWorker(s, c, d);
  }

  lemma HarmlessRunsKeepOneWorker(s: State, c: Claim, d: Claim)
    requires Reachable(s) && c in s.claims && d in s.claims && Timely(s, c) && Timely(s, d)
    requires c.id == d.id && c.id in s.rows
    ensures c == d && s.rows[c.id].status.Running?
  {
    ReachableKeepsInv(s);
    assert Holds(s.rows, c);
  }

  /** Racing claims take different jobs: what one claim took is not due for the next. */
  lemma RacingClaimsDisjoint(s: State, first: seq<nat>, m: nat, second: seq<nat>, n: nat, id: nat)
    requires Can(s, ClaimDue(first, m)) && Can(Do(s, ClaimDue(first, m)), ClaimDue(second, n))
    ensures !(id in first && id in second)
  {
  }

  /** A failed job comes back only after its backoff, and fails for good exactly at its last attempt. */
  lemma FailureOutcome(s: State, c: Claim, error: string)
    requires Reachable(s) && Can(s, ReportFailure(c, error)) && Timely(s, c) && c.id in s.rows
    ensures var r := Do(s, ReportFailure(c, error)).rows[c.id];
            && (r.status.Failed? <==> s.rows[c.id].attempts == s.rows[c.id].maxAttempts)
            && (!r.status.Failed? ==> r.status.Pending? && s.now + 2 <= r.scheduledAt <= s.now + 3600)
  {
    ReachableKeepsInv(s);
    assert Holds(s.rows, c);
    BackoffIsCappedDoubling(c.attempts, c.attempts);
  }

  // ---------------------------------------------------------------- a finished job stays finished

  predicate Finished(r: Row) { r.status.Succeeded? || r.status.Failed? }

  predicate IsReport(st: Step, id: nat) {
    match st case ReportSuccess(c) => c.id == id case ReportFailure(c, _) => c.id == id case _ => false
  }

  /** Claims, requeueing and other jobs' business leave a finished row alone. */
  lemma FinishedIsLeftAlone(s: State, st: Step, id: nat)
    requires Can(s, st) && id in s.rows && Finished(s.rows[id]) && s.rows.Keys <= s.used
    requires st != Retry(id) && st != Delete(id) && !IsReport(st, id)
    ensures id in Do(s, st).rows && Do(s, st).rows[id] == s.rows[id]
  {
  }

  /** A worker in time still has its job running, so it does not report on a finished one. */
  lemma NoReportOnFinished(s: State, st: Step, id: nat)
    requires Inv(s) && Can(s, st) && Assumed(s, st) && id in s.rows && Finished(s.rows[id])
    ensures !IsReport(st, id)
  {
    assert forall c :: c in s.claims && Timely(s, c) ==> Holds(s.rows, c);
  }

  /** In every run as assumed a job that has succeeded or failed stays as it is until it is retried or deleted. */
  lemma {:induction false} FinishedStays(s: State, steps: seq<Step>, s': State, id: nat)
    requires Inv(s) && RunsAsAssumed(s, steps, s') && Retry(id) !in steps && Delete(id) !in steps
    requires id in s.rows && (s.rows[id].status.Succeeded? || s.rows[id].status.Failed?)
    ensures id in s'.rows && s'.rows[id] == s.rows[id]
    decreases |steps|
  {
    if steps != [] {
      var n := |steps| - 1;
      var mid :|
        RunsAsAssumed(s, steps[..n], mid) && Can(mid, steps[n]) && Assumed(mid, steps[n]) && s' == Do(mid, steps[n]);
      AssumedRunsAreHarmless(s, steps[..n], mid);
      FinishedStays(s, steps[..n], mid, id);
      NoReportOnFinished(mid, steps[n], id);
      assert steps[n] in steps;
      FinishedIsLeftAlone(mid, steps[n], id);
    }
  }

  /** A success that a worker reports in time stays: the attempts counted, no error, finished when it was reported. */
  lemma SuccessIsKept(s: State, c: Claim, steps: seq<Step>, s': State)
    requires ReachableAsAssumed(s) && Can(s, ReportSuccess(c)) && Timely(s, c) && c.id in s.rows
    requires RunsAsAssumed(Do(s, ReportSuccess(c)), steps, s') && Retry(c.id) !in steps && Delete(c.id) !in steps
    ensures c.id in s'.rows
    ensures s'.rows[c.id] == Row(Succeeded, s.rows[c.id].scheduledAt, Some(c.at), Some(s.now), c.attempts, c.maxAttempts, "")
  {
    AssumedIsReachable(s);
    assert Holds(s.rows, c);
    TimelyIsHarmless(s, ReportSuccess(c));
    InvKeptIff(s, ReportSuccess(c));
    FinishedStays(Do(s, ReportSuccess(c)), steps, s', c.id);
  }

  // ---------------------------------------------------------------- nothing runs early

  /** A job starts to run only by a claim, when it waits and its time has come, and the claim counts an attempt. */
  lemma NothingRunsEarly(s: State, st: Step, id: nat)
    requires Can(s, st) && id in s.rows && id in Do(s, st).rows && s.rows.Keys <= s.used
    requires Do(s, st).rows[id].status.Running? && !s.rows[id].status.Running?
    ensures st.ClaimDue? && s.rows[id].status.Pending? && s.rows[id].scheduledAt <= s.now
    ensures Do(s, st).rows[id]
            == s.rows[id].(status := Running, startedAt := Some(s.now), attempts := s.rows[id].attempts + 1)
  {
  }

  /** While its time has not come, only a retry or a deletion changes a job that waits. */
  lemma WaitingIsLeftAlone(s: State, st: Step, id: nat)
    requires Inv(s) && Can(s, st) && Assumed(s, st) && id in s.rows && s.rows[id].status.Pending?
    requires st != Retry(id) && st != Delete(id) && s.now < s.rows[id].scheduledAt
    ensures id in Do(s, st).rows && Do(s, st).rows[id] == s.rows[id]
  {
    assert forall c :: c in s.claims && Timely(s, c) ==> Holds(s.rows, c);
  }

  lemma TimeGoesOn(s: State, st: Step)
    requires Can(s, st)
    ensures s.now <= Do(s, st).now
  {
  }

  lemma {:induction false} WaitsForItsTime(s: State, steps: seq<Step>, s': State, id: nat)
    requires Inv(s) && RunsAsAssumed(s, steps, s') && Retry(id) !in steps && Delete(id) !in steps
    requires id in s.rows && s.rows[id].status.Pending?
    ensures s'.now < s.rows[id].scheduledAt ==> id in s'.rows && s'.rows[id] == s.rows[id]
    decreases |steps|
  {
    if steps != [] {
      var n := |steps| - 1;
      var mid :|
        RunsAsAssumed(s, steps[..n], mid) && Can(mid, steps[n]) && Assumed(mid, steps[n]) && s' == Do(mid, steps[n]);
      AssumedRunsAreHarmless(s, steps[..n], mid);
      WaitsForItsTime(s, steps[..n], mid, id);
      TimeGoesOn(mid, steps[n]);
      assert steps[n] in steps;
      if s'.now < s.rows[id].scheduledAt {
        WaitingIsLeftAlone(mid, steps[n], id);
      }
    }
  }

  /** A job whose attempt failed is not touched before its backoff is over: at least two seconds, at most an hour. */
  lemma FailedJobWaits(s: State, c: Claim, error: string, steps: seq<Step>, s': State)
    requires ReachableAsAssumed(s) && Can(s, ReportFailure(c, error)) && Timely(s, c) && c.id in s.rows
    requires c.attempts < c.maxAttempts && RunsAsAssumed(Do(s, ReportFailure(c, error)), steps, s')
    requires Retry(c.id) !in steps && Delete(c.id) !in steps && s'.now < s.now + Backoff(c.attempts)
    ensures c.id in s'.rows && 2 <= Backoff(c.attempts) <= 3600
    ensures s'.rows[c.id]
            == Row(Pending, s.now + Backoff(c.attempts), None, s.rows[c.id].finishedAt, c.attempts, c.maxAttempts, error)
  {
    AssumedIsReachable(s);
    assert Holds(s.rows, c);
    TimelyIsHarmless(s, ReportFailure(c, error));
    InvKeptIff(s, ReportFailure(c, error));
    WaitsForItsTime(Do(s, ReportFailure(c, error)), steps, s', c.id);
    BackoffIsCappedDoubling(c.attempts, c.attempts);
  }

  /** Recovery changes exactly the rows that run for more than half an hour, or since no known time. */
  lemma RequeueOutcome(s: State, id: nat)
    requires id in s.rows
    ensures var r, after := s.rows[id], Do(s, Requeue).rows[id];
            && (after != r <==> r.status.Running? && (r.startedAt == None || r.startedAt.value + 1800 < s.now))
            && (after != r ==>
                  if r.attempts < r.maxAttempts then after == r.(status := Pending, startedAt := None)
                  else after.status.Failed? && after.finishedAt == Some(s.now) && after.lastError != ""
                       && (r.lastError != "" ==> after.lastError == r.lastError))
  {
    assert |"abandoned: worker did not report a result"| > 0;
  }

  // ---------------------------------------------------------------- every job gets its turn

  lemma {:induction false} Listed(ids: set<nat>) returns (list: seq<nat>)
    ensures NoRepeats(list) && forall id :: id in list <==> id in ids
  {
    if ids == {} {
      list := [];
    } else {
      var id :| id in ids;
      var rest := Listed(ids - {id});
      list := [id] + rest;
    }
  }

  /** Once a waiting job's time has come, a scheduler that takes enough jobs takes it. */
  lemma DueIsClaimed(s: State, id: nat) returns (picked: seq<nat>)
    requires id in s.rows && s.rows[id].status.Pending? && s.rows[id].scheduledAt <= s.now
    ensures Can(s, ClaimDue(picked, |picked|)) && id in picked
  {
    picked := Listed(set other | other in s.rows && Due(s.rows[other], s.now));
  }

  lemma ClaimedRow(s: State, picked: seq<nat>, id: nat) returns (c: Claim)
    requires Can(s, ClaimDue(picked, |picked|)) && id in picked
    ensures var t := Do(s, ClaimDue(picked, |picked|));
            && c in t.claims && c.id == id && c.attempts == s.rows[id].attempts + 1 && c.at == t.now == s.now
            && t.rows[id] == Row(Running, s.rows[id].scheduledAt, Some(s.now), s.rows[id].finishedAt, c.attempts,
                                 c.maxAttempts, s.rows[id].lastError)
  {
    c := Claim(id, s.rows[id].attempts + 1, s.rows[id].maxAttempts, s.now);
    assert c in ClaimsOf(s.rows, picked, s.now);
  }

  lemma AssumedStep(s: State, steps: seq<Step>, t: State, st: Step)
    requires RunsAsAssumed(s, steps, t) && Can(t, st) && Assumed(t, st)
    ensures RunsAsAssumed(s, steps + [st], Do(t, st))
  {
    assert (steps + [st])[..|steps|] == steps;
  }

  /** From every state a job that waits can be claimed at its time and succeed, and a claim counts as its attempt. */
  lemma WaitingCanSucceed(s: State, id: nat, to: int) returns (steps: seq<Step>, t: State)
    requires id in s.rows && s.rows[id].status.Pending? && s.now <= to && s.rows[id].scheduledAt <= to
    ensures RunsAsAssumed(s, steps, t) && id in t.rows && t.rows[id].status.Succeeded?
    ensures t.rows[id].startedAt == t.rows[id].finishedAt == Some(to) && t.rows[id].attempts == s.rows[id].attempts + 1
  {
    assert RunsAsAssumed(s, [], s);
    AssumedStep(s, [], s, Tick(to));
    var due := Do(s, Tick(to));
    var picked := DueIsClaimed(due, id);
    AssumedStep(s, [] + [Tick(to)], due, ClaimDue(picked, |picked|));
    var claimed := Do(due, ClaimDue(picked, |picked|));
    var c := ClaimedRow(due, picked, id);
    AssumedStep(s, [] + [Tick(to)] + [ClaimDue(picked, |picked|)], claimed, ReportSuccess(c));
    steps := [] + [Tick(to)] + [ClaimDue(picked, |picked|)] + [ReportSuccess(c)];
    t := Do(claimed, ReportSuccess(c));
  }

  // ---------------------------------------------------------------- what harmful steps lead to

  lemma Extend(s: State, st: Step)
    requires Reachable(s) && Can(s, st) && Harmless(s, st)
    ensures Reachable(Do(s, st))
  {
    var s0, steps :| Init(s0) && Runs(s0, steps, s);
    assert (steps + [st])[..|steps|] == steps;
    assert Runs(s0, steps + [st], Do(s, st));
  }

  /** One job, due at `at`, at the given point of its life. */
  function OneJob(status: Status, at: int, startedAt: Option<int>, attempts: int, max: int): Rows {
    map[0 := Row(status, at, startedAt, None, attempts, max, "")]
  }

  /** Claiming a table's only job. */
  lemma ClaimOnly(s: State, at: int, attempts: int, max: int)
    requires s.rows == OneJob(Pending, at, None, attempts, max) && at <= s.now
    ensures Can(s, ClaimDue([0], 1))
    ensures Do(s, ClaimDue([0], 1))
            == s.(rows := OneJob(Running, at, Some(s.now), attempts + 1, max),
                  claims := s.claims + {Claim(0, attempts + 1, max, s.now)})
  {
    assert ClaimAll(s.rows, [0], s.now) == OneJob(Running, at, Some(s.now), attempts + 1, max);
    var c := Claim(0, attempts + 1, max, s.now);
    assert 0 in [0] && s.rows[0].attempts + 1 == c.attempts;
    assert ClaimsOf(s.rows, [0], s.now) == {c} by {
      assert forall d :: d in ClaimsOf(s.rows, [0], s.now) ==> d == c;
      assert c in ClaimsOf(s.rows, [0], s.now);
    }
  }

  lemma ClaimedOnce(max: int)
    requires max >= 1
    ensures Reachable(State(OneJob(Running, 0, Some(0), 1, max), {Claim(0, 1, max, 0)}, {0}, 0))
  {
    var s := State(map[], {}, {}, 0);
    assert Runs(s, [], s);
    Extend(s, Enqueue(0, 0, max));
    assert Do(s, Enqueue(0, 0, max)) == State(OneJob(Pending, 0, None, 0, max), {}, {0}, 0);
    s := State(OneJob(Pending, 0, None, 0, max), {}, {0}, 0);
    ClaimOnly(s, 0, 0, max);
    Extend(s, ClaimDue([0], 1));
    assert {} + {Claim(0, 1, max, 0)} == {Claim(0, 1, max, 0)};
  }

  /** A worker's lease ran out, the job was put back and claimed by another worker. */
  function ClaimedTwice(max: int): State {
    State(OneJob(Running, 0, Some(1801), 2, max), {Claim(0, 1, max, 0), Claim(0, 2, max, 1801)}, {0}, 1801)
  }

  lemma ClaimedAgain(max: int)
    requires max >= 2
    ensures Reachable(ClaimedTwice(max))
  {
    ClaimedOnce(max);
    var late := Claim(0, 1, max, 0);
    var s := State(OneJob(Running, 0, Some(0), 1, max), {late}, {0}, 0);
    Extend(s, Tick(1801));
    s := s.(now := 1801);
    Extend(s, Requeue);
    assert RecoverAll(s.rows, 1801) == OneJob(Pending, 0, None, 1, max);
    s := State(OneJob(Pending, 0, None, 1, max), {late}, {0}, 1801);
    ClaimOnly(s, 0, 1, max);
    Extend(s, ClaimDue([0], 1));
    assert {late} + {Claim(0, 2, max, 1801)} == ClaimedTwice(max).claims;
  }

  /**
   A worker that reports a failure after its lease ran out and the job was claimed again sends the job
   back to pending with no attempt left, while the second worker still runs it.
   */
  lemma LateReportOverruns(s: State, c: Claim)
    requires s == ClaimedTwice(2) && c == Claim(0, 1, 2, 0)
    ensures Reachable(s) && Can(s, ReportFailure(c, "")) && !Timely(s, c)
    ensures var r := Do(s, ReportFailure(c, "")).rows[0];
            r.status.Pending? && r.attempts == r.maxAttempts
  {
    ClaimedAgain(2);
  }

  /** With an attempt left in the row, such a report lets a third worker claim the job beside the second. */
  lemma LateReportDoublesWorkers(s: State, c: Claim) returns (t: State)
    requires s == ClaimedTwice(3) && c == Claim(0, 1, 3, 0)
    ensures Reachable(s) && Can(s, ReportFailure(c, "")) && !Timely(s, c)
    ensures var late := Do(s, ReportFailure(c, ""));
            && Can(late, Tick(1803)) && Can(Do(late, Tick(1803)), ClaimDue([0], 1))
            && t == Do(Do(late, Tick(1803)), ClaimDue([0], 1))
    ensures exists d, e :: d in t.claims && e in t.claims && d != e && d.id == e.id == 0 && Timely(t, d) && Timely(t, e)
  {
    ClaimedAgain(3);
    assert Pow2(1) == 2;
    var late := Do(s, ReportFailure(c, ""));
    assert late.rows == OneJob(Pending, 1803, None, 2, 3);
    var due := Do(late, Tick(1803));
    ClaimOnly(due, 1803, 2, 3);
    t := Do(due, ClaimDue([0], 1));
    var d, e := Claim(0, 2, 3, 1801), Claim(0, 3, 3, 1803);
    assert d in t.claims && e in t.claims;
  }

  /** And after the second worker has succeeded, such a report makes the job run again. */
  lemma LateFailureRerunsSuccess(s: State, c: Claim, d: Claim)
    requires s == ClaimedTwice(3) && c == Claim(0, 1, 3, 0) && d == Claim(0, 2, 3, 1801)
    ensures Reachable(s) && Can(s, ReportSuccess(d)) && Timely(s, d)
    ensures var done := Do(s, ReportSuccess(d));
            && done.rows[0].status.Succeeded? && Can(done, ReportFailure(c, "")) && !Timely(done, c)
            && Do(done, ReportFailure(c, "")).rows[0].status.Pending?
  {
    ClaimedAgain(3);
    assert Pow2(1) == 2;
  }

  /** Retrying a job that runs lets a second worker claim it beside the first. */
  lemma RetryOfRunningDoublesWorkers(max: int) returns (s: State, t: State)
    requires max >= 1
    ensures Reachable(s) && Can(s, Retry(0)) && s.rows[0].status.Running?
    ensures Can(Do(s, Retry(0)), ClaimDue([0], 1)) && t == Do(Do(s, Retry(0)), ClaimDue([0], 1))
    ensures exists d, e :: d in t.claims && e in t.claims && d != e && d.id == e.id == 0 && Timely(t, d) && Timely(t, e)
  {
    ClaimedOnce(max);
    s := State(OneJob(Running, 0, Some(0), 1, max), {Claim(0, 1, max, 0)}, {0}, 0);
    Extend(s, Tick(1));
    s := s.(now := 1);
    var again := Do(s, Retry(0));
    assert again.rows == OneJob(Pending, 1, None, 0, max);
    ClaimOnly(again, 1, 0, max);
    t := Do(again, ClaimDue([0], 1));
    var d, e := Claim(0, 1, max, 0), Claim(0, 1, max, 1);
    assert d in t.claims && e in t.claims;
  }
}
