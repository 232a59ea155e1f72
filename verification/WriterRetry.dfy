/** How the writer waits between attempts and how it keeps the jobs it has to try again. */
module WriterRetry {
  import opened Wrappers
  import opened WriterBatch

  /** In milliseconds. */
  const FLUSH_INTERVAL: nat := 100
  const MAX_COMMIT_BACKOFF: nat := 5000

  function NextBackoff(current: nat): nat {
    if current == 0 then FLUSH_INTERVAL
    else if current * 2 > MAX_COMMIT_BACKOFF then MAX_COMMIT_BACKOFF
    else current * 2
  }

  /** The wait after so many failures in a row. */
  function BackoffAfter(failures: nat): nat {
    if failures == 0 then 0 else NextBackoff(BackoffAfter(failures - 1))
  }

  /** A hundred milliseconds, doubled so many times. */
  function Doubled(times: nat): nat {
    if times == 0 then 100 else 2 * Doubled(times - 1)
  }

  lemma {:induction false} DoubledIsPositive(times: nat)
    ensures Doubled(times) >= 100
  {
    if times > 0 {
      DoubledIsPositive(times - 1);
    }
  }

  /** The wait is the flush interval doubled per further failure, up to the cap, and never shrinks. */
  lemma {:induction false} BackoffDoublesToCap(failures: nat)
    requires failures > 0
    ensures BackoffAfter(failures) == if Doubled(failures - 1) <= 5000 then Doubled(failures - 1) else 5000
    ensures BackoffAfter(failures - 1) <= BackoffAfter(failures)
  {
    if failures > 1 {
      BackoffDoublesToCap(failures - 1);
      DoubledIsPositive(failures - 2);
    }
  }

  /** A slice of an array of jobs; a cleared element is `None`. */
  datatype Slice = Slice(jobs: array<Option<Job>>, from: nat, upTo: nat) {
    predicate Valid() { from <= upTo <= jobs.Length }

    function Contents(): (s: seq<Option<Job>>)
      requires Valid()
      reads jobs
    {
      jobs[from..upTo]
    }
  }

  /** Copies the jobs to retry before clearing the batch they may be a part of. */
  method RetainRetryBatch(batch: Slice, retry: Slice) returns (next: array<Option<Job>>)
    requires batch.Valid() && retry.Valid()
    modifies batch.jobs
    ensures fresh(next) && next[..] == old(retry.Contents())
    ensures forall i :: batch.from <= i < batch.upTo ==> batch.jobs[i] == None
    ensures forall i :: 0 <= i < batch.jobs.Length && !(batch.from <= i < batch.upTo) ==> batch.jobs[i] == old(batch.jobs[i])
  {
    next := new Option<Job>[retry.upTo - retry.from](i => None);
    var k := 0;
    while k < next.Length
      invariant 0 <= k <= next.Length
      invariant next[..k] == retry.jobs[retry.from..retry.from + k]
      invariant batch.jobs[..] == old(batch.jobs[..]) && retry.jobs[..] == old(retry.jobs[..])
    {
      next[k] := retry.jobs[retry.from + k];
      k := k + 1;
    }
    assert next[..] == old(retry.Contents());
    var i := batch.from;
    while i < batch.upTo
      invariant batch.from <= i <= batch.upTo
      invariant forall j :: batch.from <= j < i ==> batch.jobs[j] == None
      invariant forall j :: 0 <= j < batch.jobs.Length && !(batch.from <= j < i) ==> batch.jobs[j] == old(batch.jobs[j])
      invariant next[..] == old(retry.Contents())
    {
      batch.jobs[i] := None;
      i := i + 1;
    }
  }
}
