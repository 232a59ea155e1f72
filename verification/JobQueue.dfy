/** The background job table: enqueueing, claiming, reporting, retrying and recovering abandoned rows. */
module JobQueue {
  import opened Wrappers
  import opened JobKeys

  datatype Status = Pending | Running | Succeeded | Failed

  datatype Row = Row(status: Status, scheduledAt: int, startedAt: Option<int>, finishedAt: Option<int>,
                     attempts: int, maxAttempts: int, lastError: string)

  type Rows = map<nat, Row>

  const DEFAULT_ATTEMPTS: int := 3
  const DEFAULT_CLAIMS: nat := 10

  /** Thirty minutes, in seconds. */
  const STUCK_LEASE: int := 1800

  // ---------------------------------------------------------------- backoff

  function Pow2(n: nat): nat { if n == 0 then 1 else 2 * Pow2(n - 1) }

  /** Seconds until the next attempt: the shift is clamped before shifting and the delay to an hour. */
  function Backoff(attempts: nat): nat {
    var delay := Pow2(if attempts > 12 then 12 else attempts);
    if delay > 3600 then 3600 else delay
  }

  lemma {:induction false} Pow2Grows(a: nat, b: nat)
    requires a <= b
    ensures 1 <= Pow2(a) <= Pow2(b)
    decreases b
  {
    if a < b {
      Pow2Grows(a, b - 1);
    } else if b > 0 {
      Pow2Grows(b - 1, b - 1);
    }
  }

  lemma Pow2Of12()
    ensures Pow2(12) == 4096
  {
    assert Pow2(4) == 16;
    assert Pow2(8) == 256;
  }

  /** The delay is twice per attempt up to an hour, never shrinks, and clamping the shift loses nothing. */
  lemma BackoffIsCappedDoubling(attempts: nat, later: nat)
    requires 1 <= attempts <= later
    ensures 2 <= Backoff(attempts) <= Backoff(later) <= 3600
    ensures Backoff(attempts) == if Pow2(attempts) <= 3600 then Pow2(attempts) else 3600
  {
    Pow2Of12();
    Pow2Grows(1, if attempts > 12 then 12 else attempts);
    Pow2Grows(if attempts > 12 then 12 else attempts, if later > 12 then 12 else later);
    if attempts > 12 {
      Pow2Grows(12, attempts);
    }
  }

  // ---------------------------------------------------------------- what one statement does to a row

  predicate Due(r: Row, now: int) { r.status.Pending? && r.scheduledAt <= now }

  function Claimed(r: Row, now: int): Row {
    r.(status := Running, startedAt := Some(now), attempts := r.attempts + 1)
  }

  function SucceededAt(r: Row, now: int): Row {
    r.(status := Succeeded, finishedAt := Some(now), lastError := "")
  }

  /** A failure is final when the numbers the worker was given say so, whatever the row says. */
  function FailedAt(r: Row, now: int, error: string, attempts: nat, maxAttempts: int): Row {
    if attempts >= maxAttempts then r.(status := Failed, finishedAt := Some(now), lastError := error)
    else r.(status := Pending, startedAt := None, lastError := error, scheduledAt := now + Backoff(attempts))
  }

  function RetriedAt(r: Row, now: int): Row {
    r.(status := Pending, scheduledAt := now, attempts := 0, startedAt := None, finishedAt := None, lastError := "")
  }

  predicate Stuck(r: Row, now: int) {
    r.status.Running? && (r.startedAt.None? || r.startedAt.value < now - STUCK_LEASE)
  }

  function Recovered(r: Row, now: int): Row {
    if !Stuck(r, now) then r
    else if r.attempts < r.maxAttempts then r.(status := Pending, startedAt := None)
    else r.(status := Failed, finishedAt := Some(now),
            lastError := if r.lastError == "" then "abandoned: worker did not report a result" else r.lastError)
  }

  function ClaimAll(rows: Rows, picked: seq<nat>, now: int): Rows {
    map id | id in rows :: if id in picked then Claimed(rows[id], now) else rows[id]
  }

  function RecoverAll(rows: Rows, now: int): Rows {
    map id | id in rows :: Recovered(rows[id], now)
  }

  predicate NoRepeats(ids: seq<nat>) { forall i, j :: 0 <= i < j < |ids| ==> ids[i] != ids[j] }

  /** A claim takes due jobs, the earliest first, as many as asked for if there are that many. */
  ghost predicate EarliestDue(rows: Rows, picked: seq<nat>, now: int, limit: nat) {
    && NoRepeats(picked) && |picked| <= limit
    && (forall id :: id in picked ==> id in rows && Due(rows[id], now))
    && (forall id, other :: id in picked && other in rows && Due(rows[other], now) && other !in picked ==>
          rows[id].scheduledAt <= rows[other].scheduledAt)
    && (|picked| < limit ==> forall id :: id in rows && Due(rows[id], now) ==> id in picked)
  }

  /** What the caller sets of a new row; the rest is defaulted. */
  datatype NewJob = NewJob(status: Option<Status>, scheduledAt: Option<int>, attempts: int, maxAttempts: int,
                           lastError: string)

  predicate Defaulted(r: Row, j: NewJob, now: int) {
    && r.status == (if j.status.Some? then j.status.value else Pending)
    && r.scheduledAt == (if j.scheduledAt.Some? then j.scheduledAt.value else now)
    && r.maxAttempts == (if j.maxAttempts <= 0 then 3 else j.maxAttempts)
    && r.attempts == j.attempts && r.lastError == j.lastError && r.startedAt == r.finishedAt == None
  }

  /** A new job can be claimed from the time asked for, or at once, as often as asked for, or three times. */
  lemma NewJobIsDue(r: Row, j: NewJob, now: int, later: int)
    requires Defaulted(r, j, now) && j.status in {None, Some(Pending)} && now <= later
    ensures Due(r, later) <==> j.scheduledAt.None? || j.scheduledAt.value <= later
    ensures r.maxAttempts >= 1 && (j.maxAttempts > 0 ==> r.maxAttempts == j.maxAttempts)
  {
  }

  /** All rows, and the idempotency keys of those that have one. */
  datatype Table = Table(rows: Rows, keys: Keys)

  class JobTable {
    var rows: Rows
    var keys: Keys

    /** A new row is pending and due now unless its caller says otherwise. */
    method WithDefaults(j: NewJob, now: int) returns (row: Row)
      ensures Defaulted(row, j, now)
    {
      var status, maxAttempts, scheduledAt := Pending, j.maxAttempts, now;
      if j.status.Some? {
        status := j.status.value;
      }
      if maxAttempts <= 0 {
        maxAttempts := DEFAULT_ATTEMPTS;
      }
      if j.scheduledAt.Some? {
        scheduledAt := j.scheduledAt.value;
      }
      row := Row(status, scheduledAt, None, None, j.attempts, maxAttempts, j.lastError);
    }

    /** The row with the key created at the cutoff or later, if there is one: the newest. */
    method GetJobByIdempotency(q: Request, cutoff: int) returns (hit: Option<nat>)
      requires Unique(keys)
      ensures hit == Lookup(keys, q, cutoff)
    {
      hit := None;
      var rest := keys.Keys;
      while rest != {}
        invariant rest <= keys.Keys
        invariant hit.Some? ==> Holds(keys, hit.value, q) && keys[hit.value].createdAt >= cutoff
        invariant forall id :: Holds(keys, id, q) && keys[id].createdAt >= cutoff ==> id in rest || hit.Some?
      {
        var id :| id in rest;
        if Holds(keys, id, q) && keys[id].createdAt >= cutoff
           && (hit.None? || keys[id].createdAt > keys[hit.value].createdAt) {
          hit := Some(id);
        }
        rest := rest - {id};
      }
      if hit.Some? {
        LookupFinds(keys, q, cutoff, hit.value);
      }
    }

    /** The INSERT, which the primary key or the unique index on function and key may refuse. */
    method InsertJob(q: Request, row: Row) returns (ok: bool)
      modifies this
      ensures ok == !Refused(old(keys), q.(insertFails := q.insertFails || q.id in old(rows)))
      ensures ok ==> rows == old(rows)[q.id := row] && keys == WithRow(old(keys), q)
      ensures !ok ==> rows == old(rows) && keys == old(keys)
    {
      if q.insertFails || q.id in rows || q.id in keys {
        return false;
      }
      if q.key != "" && exists id :: id in keys && Holds(keys, id, q) {
        return false;
      }
      rows := rows[q.id := row];
      if q.key != "" {
        keys := keys[q.id := Keyed(q.functionId, q.key, q.now)];
      }
      return true;
    }

    /** The INSERT, and the second lookup when it is refused: another caller may have inserted the key first. */
    method InsertOrReplay(q: Request, row: Row, atReread: Table) returns (o: Outcome)
      requires Unique(keys) && Unique(atReread.keys)
      modifies this
      ensures o == ToldAtInsert(old(keys), atReread.keys, q.(insertFails := q.insertFails || q.id in old(rows)))
      ensures o.Inserted? ==> q.id !in old(rows) && rows == old(rows)[q.id := row] && keys == WithRow(old(keys), q)
      ensures !o.Inserted? ==> Table(rows, keys) in {Table(old(rows), old(keys)), atReread}
    {
      var ok := InsertJob(q, row);
      if ok {
        return Inserted;
      }
      if q.key != "" {
        rows, keys := atReread.rows, atReread.keys;
        if !q.rereadFails {
          var hit := GetJobByIdempotency(q, q.now - DAY);
          SameLookup(keys, q, q.(insertFails := q.insertFails || q.id in old(rows)), q.now - DAY);
          if hit.Some? {
            return Replayed(hit.value);
          }
        }
      }
      return Rejected;
    }

    /**
     Looks up the key, inserts the job with its defaults, and after a refusal looks the key up again. Other callers
     may run in between: the INSERT meets the table `atInsert` and the second lookup the table `atReread`.
     */
    method EnqueueJob(q: Request, j: NewJob, atInsert: Table, atReread: Table) returns (o: Outcome)
      requires Unique(keys) && Unique(atInsert.keys) && Unique(atReread.keys)
      modifies this
      ensures o == Told(old(keys), atInsert.keys, atReread.keys, q.(insertFails := q.insertFails || q.id in atInsert.rows))
      ensures o.Inserted? ==> q.id !in atInsert.rows && keys == WithRow(atInsert.keys, q)
      ensures o.Inserted? ==> q.id in rows && Defaulted(rows[q.id], j, q.now) && rows == atInsert.rows[q.id := rows[q.id]]
      ensures !o.Inserted? ==> Table(rows, keys) in {Table(old(rows), old(keys)), atInsert, atReread}
    {
      var row := WithDefaults(j, q.now);
      if q.key != "" {
        if q.lookupFails {
          return Rejected;
        }
        var window := q.window;
        if window <= 0 {
          window := DAY;
        }
        var hit := GetJobByIdempotency(q, q.now - window);
        SameLookup(keys, q, q.(insertFails := q.insertFails || q.id in atInsert.rows), q.now - window);
        if hit.Some? {
          return Replayed(hit.value);
        }
      }
      rows, keys := atInsert.rows, atInsert.keys;
      o := InsertOrReplay(q, row, atReread);
    }

    /** An earliest due job that is not picked yet, if there is one. */
    method EarliestUnpicked(ids: seq<nat>, picked: seq<nat>, now: int) returns (best: Option<nat>)
      requires forall id :: id in ids <==> id in rows
      ensures best.Some? ==> best.value in rows && best.value !in picked && Due(rows[best.value], now)
      ensures forall id :: id in rows && id !in picked && Due(rows[id], now) ==>
                best.Some? && rows[best.value].scheduledAt <= rows[id].scheduledAt
    {
      best := None;
      var i := 0;
      while i < |ids|
        invariant 0 <= i <= |ids|
        invariant best.Some? ==> best.value in rows && best.value !in picked && Due(rows[best.value], now)
        invariant forall id :: id in ids[..i] && id !in picked && Due(rows[id], now) ==>
                    best.Some? && rows[best.value].scheduledAt <= rows[id].scheduledAt
      {
        var id := ids[i];
        assert ids[..i + 1] == ids[..i] + [id];
        if id !in picked && Due(rows[id], now)
           && (best.None? || rows[id].scheduledAt < rows[best.value].scheduledAt) {
          best := Some(id);
        }
        i := i + 1;
      }
      assert ids[..i] == ids;
    }

    /** Marks the earliest due jobs running, in one statement, and counts the attempt. */
    method ClaimDueJobs(ids: seq<nat>, now: int, limit: int) returns (picked: seq<nat>)
      requires forall id :: id in ids <==> id in rows
      modifies this`rows
      ensures EarliestDue(old(rows), picked, now, if limit <= 0 then 10 else limit)
      ensures rows == ClaimAll(old(rows), picked, now)
    {
      var n: nat := if limit <= 0 then DEFAULT_CLAIMS else limit;
      picked := [];
      while |picked| < n
        invariant rows == old(rows) && |picked| <= n && NoRepeats(picked)
        invariant forall id :: id in picked ==> id in rows && Due(rows[id], now)
        invariant forall id, other :: id in picked && other in rows && Due(rows[other], now) && other !in picked ==>
                    rows[id].scheduledAt <= rows[other].scheduledAt
      {
        var best := EarliestUnpicked(ids, picked, now);
        if best.None? {
          break;
        }
        picked := picked + [best.value];
      }
      assert EarliestDue(rows, picked, now, n);
      rows := ClaimAll(rows, picked, now);
    }

    method MarkJobSuccess(id: nat, now: int)
      modifies this`rows
      ensures rows == if id in old(rows) then old(rows)[id := SucceededAt(old(rows)[id], now)] else old(rows)
    {
      if id in rows {
        rows := rows[id := rows[id].(status := Succeeded, finishedAt := Some(now), lastError := "")];
      }
    }

    method MarkJobFailure(id: nat, error: string, attempts: nat, maxAttempts: int, now: int)
      modifies this`rows
      ensures rows == if id in old(rows) then old(rows)[id := FailedAt(old(rows)[id], now, error, attempts, maxAttempts)]
                      else old(rows)
    {
      if attempts >= maxAttempts {
        if id in rows {
          rows := rows[id := rows[id].(status := Failed, finishedAt := Some(now), lastError := error)];
        }
        return;
      }
      var shift := attempts;
      if shift > 12 {
        shift := 12;
      }
      var delaySec := Pow2(shift);
      if delaySec > 3600 {
        delaySec := 3600;
      }
      if id in rows {
        rows := rows[id := rows[id].(status := Pending, startedAt := None, lastError := error, scheduledAt := now + delaySec)];
      }
    }

    method RetryJob(id: nat, now: int)
      modifies this`rows
      ensures rows == if id in old(rows) then old(rows)[id := RetriedAt(old(rows)[id], now)] else old(rows)
    {
      if id in rows {
        rows := rows[id := rows[id].(status := Pending, scheduledAt := now, attempts := 0, startedAt := None,
                                     finishedAt := None, lastError := "")];
      }
    }

    /** Two statements: rows with attempts left go back to pending, then the exhausted ones fail. */
    method RequeueStuck(now: int)
      modifies this`rows
      ensures rows == RecoverAll(old(rows), now)
    {
      rows := map id | id in rows ::
        if Stuck(rows[id], now) && rows[id].attempts < rows[id].maxAttempts then rows[id].(status := Pending, startedAt := None)
        else rows[id];
      rows := map id | id in rows ::
        if Stuck(rows[id], now) && rows[id].attempts >= rows[id].maxAttempts then
          rows[id].(status := Failed, finishedAt := Some(now),
                    lastError := if rows[id].lastError == "" then "abandoned: worker did not report a result"
                                 else rows[id].lastError)
        else rows[id];
    }
  }
}
