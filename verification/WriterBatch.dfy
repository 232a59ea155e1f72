/**
 The values the asynchronous writer moves: jobs, the rows their statements write, and the
 outcome of a commit pass as functions of the batch and of what the database answered.
 */
module WriterBatch {
  import opened Counting
  import opened Wrappers

  /** The tables a queued job can write to and that a function deletion reaches. */
  datatype Table = Executions | ExecutionLogs | ExecutionRequests | UserSpans | LogEntries

  /** A queued write. `lease` is the completion slot a critical job holds. */
  datatype Job = Job(id: nat, table: Table, executionId: string, functionId: string,
                     lease: Option<nat>, bytes: nat, attempts: nat)

  /** A row in the database; `functionId` is a column of every table but execution_logs. */
  datatype Row = Row(job: nat, table: Table, executionId: string, functionId: string)

  /** What the database answered to one job's statement. */
  datatype Verdict = Accepted | Permanent | Transient

  const MAX_JOB_ATTEMPTS: nat := 3

  function RowOf(j: Job): Row {
    Row(j.id, j.table, j.executionId, j.functionId)
  }

  function RowsOf(jobs: seq<Job>): (rows: seq<Row>)
    ensures |rows| == |jobs|
  {
    seq(|jobs|, i requires 0 <= i < |jobs| => RowOf(jobs[i]))
  }

  function Ids(jobs: seq<Job>): (ids: seq<nat>)
    ensures |ids| == |jobs|
  {
    seq(|jobs|, i requires 0 <= i < |jobs| => jobs[i].id)
  }

  function JobSize(j: Job): int { j.bytes }

  function BatchBytes(jobs: seq<Job>): int {
    Sum(jobs, JobSize)
  }

  /** A job without an owner is always written; an owned one only while its function exists. */
  predicate Alive(j: Job, functions: set<string>) {
    j.functionId == "" || j.functionId in functions
  }

  function Keep(batch: seq<Job>, functions: set<string>): seq<Job> {
    if batch == [] then [] else
    var init, j := Keep(batch[..|batch| - 1], functions), batch[|batch| - 1];
    if Alive(j, functions) then init + [j] else init
  }

  function Gone(batch: seq<Job>, functions: set<string>): seq<Job> {
    if batch == [] then [] else
    var init, j := Gone(batch[..|batch| - 1], functions), batch[|batch| - 1];
    if Alive(j, functions) then init else init + [j]
  }

  /** A failed statement is given up when it cannot ever succeed or has used its last attempt. */
  predicate GivenUp(j: Job, v: Verdict) {
    v == Permanent || (v == Transient && j.attempts + 1 >= MAX_JOB_ATTEMPTS)
  }

  predicate Settled(j: Job, v: Verdict) {
    v == Accepted || GivenUp(j, v)
  }

  /** The job after one more completed pass that did not settle it. */
  function Tried(j: Job): Job {
    j.(attempts := j.attempts + 1)
  }

  function Written(work: seq<Job>, verdicts: seq<Verdict>): seq<Job>
    requires |verdicts| == |work|
  {
    if work == [] then [] else
    var n := |work| - 1;
    var init := Written(work[..n], verdicts[..n]);
    if verdicts[n] == Accepted then init + [work[n]] else init
  }

  function Shed(work: seq<Job>, verdicts: seq<Verdict>): seq<Job>
    requires |verdicts| == |work|
  {
    if work == [] then [] else
    var n := |work| - 1;
    var init := Shed(work[..n], verdicts[..n]);
    if GivenUp(work[n], verdicts[n]) then init + [work[n]] else init
  }

  function Retry(work: seq<Job>, verdicts: seq<Verdict>): seq<Job>
    requires |verdicts| == |work|
  {
    if work == [] then [] else
    var n := |work| - 1;
    var init := Retry(work[..n], verdicts[..n]);
    if Settled(work[n], verdicts[n]) then init else init + [Tried(work[n])]
  }

  /** `Written` and `Shed` jobs in batch order: the ones whose completion slot is returned. */
  function Resolved(work: seq<Job>, verdicts: seq<Verdict>): seq<Job>
    requires |verdicts| == |work|
  {
    if work == [] then [] else
    var n := |work| - 1;
    var init := Resolved(work[..n], verdicts[..n]);
    if Settled(work[n], verdicts[n]) then init + [work[n]] else init
  }

  /** A weight that an attempt count does not change: an id, a size, a lease. */
  ghost predicate Stable(w: Job -> int) {
    forall j: Job :: w(Tried(j)) == w(j)
  }

  lemma {:induction false} FilterPartitions(batch: seq<Job>, functions: set<string>, w: Job -> int)
    ensures Sum(batch, w) == Sum(Keep(batch, functions), w) + Sum(Gone(batch, functions), w)
  {
    if batch != [] {
      var n := |batch| - 1;
      FilterPartitions(batch[..n], functions, w);
      SumAppend(Keep(batch[..n], functions), batch[n], w);
      SumAppend(Gone(batch[..n], functions), batch[n], w);
    }
  }

  lemma {:induction false} FilterKeepsAlive(batch: seq<Job>, functions: set<string>)
    ensures forall j :: j in Keep(batch, functions) <==> j in batch && Alive(j, functions)
    ensures forall j :: j in Gone(batch, functions) <==> j in batch && !Alive(j, functions)
    ensures |Keep(batch, functions)| + |Gone(batch, functions)| == |batch|
  {
    if batch != [] {
      var n := |batch| - 1;
      FilterKeepsAlive(batch[..n], functions);
      assert batch == batch[..n] + [batch[n]];
    }
  }

  /** An isolated pass loses no job and duplicates none, whatever the database answers. */
  lemma {:induction false} PassPartitions(work: seq<Job>, verdicts: seq<Verdict>, w: Job -> int)
    requires |verdicts| == |work| && Stable(w)
    ensures Sum(work, w) == Sum(Resolved(work, verdicts), w) + Sum(Retry(work, verdicts), w)
  {
    if work != [] {
      var n := |work| - 1;
      PassPartitions(work[..n], verdicts[..n], w);
      assert w(Tried(work[n])) == w(work[n]);
      SumAppend(Retry(work[..n], verdicts[..n]), Tried(work[n]), w);
      SumAppend(Resolved(work[..n], verdicts[..n]), work[n], w);
    }
  }

  /** What a pass resolves it either wrote or gave up, never both. */
  lemma {:induction false} ResolvedPartitions(work: seq<Job>, verdicts: seq<Verdict>, w: Job -> int)
    requires |verdicts| == |work|
    ensures Sum(Resolved(work, verdicts), w)
         == Sum(Written(work, verdicts), w) + Sum(Shed(work, verdicts), w)
  {
    if work != [] {
      var n := |work| - 1;
      ResolvedPartitions(work[..n], verdicts[..n], w);
      SumAppend(Written(work[..n], verdicts[..n]), work[n], w);
      SumAppend(Shed(work[..n], verdicts[..n]), work[n], w);
      SumAppend(Resolved(work[..n], verdicts[..n]), work[n], w);
    }
  }

  /** Every retried job is a batch job one attempt further on, and still has an attempt left. */
  lemma {:induction false} RetryAdvances(work: seq<Job>, verdicts: seq<Verdict>)
    requires |verdicts| == |work|
    ensures |Retry(work, verdicts)| + |Resolved(work, verdicts)| == |work|
    ensures |Resolved(work, verdicts)| == |Written(work, verdicts)| + |Shed(work, verdicts)|
    ensures forall r :: r in Retry(work, verdicts) ==>
              exists i :: 0 <= i < |work| && !Settled(work[i], verdicts[i]) && r == Tried(work[i])
    ensures forall r :: r in Resolved(work, verdicts) ==> r in work
    ensures forall r :: r in Written(work, verdicts) ==> r in work
  {
    if work != [] {
      var n := |work| - 1;
      RetryAdvances(work[..n], verdicts[..n]);
      forall r | r in Retry(work, verdicts)
        ensures exists i :: 0 <= i < |work| && !Settled(work[i], verdicts[i]) && r == Tried(work[i])
      {
        if r in Retry(work[..n], verdicts[..n]) {
          var i :| 0 <= i < n && !Settled(work[..n][i], verdicts[..n][i]) && r == Tried(work[..n][i]);
          assert !Settled(work[i], verdicts[i]) && r == Tried(work[i]);
        }
      }
      assert work == work[..n] + [work[n]];
    }
  }

  /** The batch after a series of completed isolated passes, one list of verdicts per pass. */
  ghost function Remaining(work: seq<Job>, passes: seq<seq<Verdict>>): seq<Job>
    requires Answered(work, passes)
    decreases |passes|
  {
    if passes == [] then work else Remaining(Retry(work, passes[0]), passes[1..])
  }

  ghost predicate Answered(work: seq<Job>, passes: seq<seq<Verdict>>)
    decreases |passes|
  {
    passes != [] ==> |passes[0]| == |work| && Answered(Retry(work, passes[0]), passes[1..])
  }

  /**
   No job survives three completed isolated passes: after `k` of them every job left has
   used at least `k` attempts and fewer than three.
   */
  lemma {:induction false} ThreePassesResolveEveryJob(work: seq<Job>, passes: seq<seq<Verdict>>)
    requires Answered(work, passes)
    ensures forall j :: j in Remaining(work, passes) && passes != [] ==>
              |passes| <= j.attempts < MAX_JOB_ATTEMPTS
    ensures |passes| >= MAX_JOB_ATTEMPTS ==> Remaining(work, passes) == []
    decreases |passes|
  {
    AttemptsGrow(work, passes, 0);
    if passes != [] && Remaining(work, passes) != [] {
      assert Remaining(work, passes)[0] in Remaining(work, passes);
    }
  }

  lemma {:induction false} AttemptsGrow(work: seq<Job>, passes: seq<seq<Verdict>>, used: nat)
    requires Answered(work, passes) && forall j :: j in work ==> used <= j.attempts
    ensures forall j :: j in Remaining(work, passes) ==> used + |passes| <= j.attempts
    ensures passes != [] ==> forall j :: j in Remaining(work, passes) ==> j.attempts < MAX_JOB_ATTEMPTS
    decreases |passes|
  {
    if passes != [] {
      var next := Retry(work, passes[0]);
      RetryAdvances(work, passes[0]);
      forall j | j in next ensures used + 1 <= j.attempts < MAX_JOB_ATTEMPTS {
        var i :| 0 <= i < |work| && !Settled(work[i], passes[0][i]) && j == Tried(work[i]);
        assert work[i] in work;
      }
      AttemptsGrow(next, passes[1..], used + 1);
    }
  }
}
