/** The byte counters, the shutdown fence and the batch bounds of the asynchronous writer. */
module WriterBytes {
  import opened Counting
  import opened Wrappers
  import opened WriterBatch
  import opened WriterProtocol
  import opened WriterInvariants

  // ---------------------------------------------------------------- the shutdown fence

  /** Between the first stop check and the release of the reservation: the phases that can publish. */
  predicate Publishing(p: Phase) {
    p.Admitted? || p.Loaded? || p.Budgeted? || p.Sending? || p.Refunding?
  }

  predicate Closed(stop: Stop) { stop == Exclusive || stop == QuitClosed || stop == Fenced }

  function Rank(k: Kind): nat { match k case Critical => 0 case Activity => 1 case Telemetry => 2 }

  /** Whether the consumer has emptied the channels for the last time. */
  predicate AfterDrain(c: Consumer) {
    match c
    case Looping => false
    case Draining => false
    case Finishing(_) => true
    case Failing(_, _) => true
    case Zeroing => true
    case Done => true
    case _ => c.final
  }

  /** How many lanes have had their last commit. */
  function LanesDone(c: Consumer): nat {
    match c
    case Looping => 0
    case Draining => 0
    case Finishing(k) => Rank(k)
    case Failing(k, _) => Rank(k) + 1
    case Zeroing => 3
    case Done => 3
    case _ => if c.final then Rank(c.kind) else 0
  }

  ghost predicate FenceHolds(s: State) {
    && (Closed(s.stop) ==> forall i :: 0 <= i < |s.producers| ==> !Publishing(s.producers[i]))
    && (s.consumer.Draining? || AfterDrain(s.consumer) ==> s.stop == QuitClosed || s.stop == Fenced)
    && (AfterDrain(s.consumer) ==> forall k :: s.lanes.At(k).queue == [])
    && (forall k :: Rank(k) < LanesDone(s.consumer) ==> s.lanes.At(k).batch == [])
  }

  lemma FenceKept(s: State, st: Step)
    requires Can(s, st) && FenceHolds(s)
    ensures FenceHolds(Do(s, st))
  {
    match st
    case Producer(p, a) => ProducerKeepsFence(s, p, a);
    case Consume(a) => ConsumerKeepsFence(s, a);
    case _ =>
  }

  lemma ProducerKeepsFence(s: State, p: nat, a: ProducerAct)
    requires ProducerCan(s, p, a) && FenceHolds(s)
    ensures FenceHolds(ProducerDo(s, p, a))
  {
    if Closed(s.stop) {
      assert !Publishing(s.producers[p]);
      assert !Publishing(ProducerPhase(s, p, a));
      assert ProducerLanes(s, p, a) == s.lanes;
    }
  }

  lemma ConsumerKeepsFence(s: State, a: ConsumerAct)
    requires ConsumerCan(s, a) && FenceHolds(s)
    ensures FenceHolds(ConsumerDo(s, a))
  {
    var c := s.consumer;
    forall k | AfterDrain(ConsumerPhase(s, a))
      ensures ConsumerLanes(s, a).At(k).queue == []
    {
      assert a == DrainEmpty || AfterDrain(c);
      assert s.lanes.At(k).queue == [];
    }
    forall k | Rank(k) < LanesDone(ConsumerPhase(s, a))
      ensures ConsumerLanes(s, a).At(k).batch == []
    {
      if Rank(k) < LanesDone(c) {
        assert s.lanes.At(k).batch == [] && s.lanes.At(k).queue == [];
      }
    }
  }

  // ---------------------------------------------------------------- byte accounting

  function Reserved(k: Kind): Phase -> int {
    (p: Phase) => if Reserving(p) && KindOf(p) == k then p.job.bytes else 0
  }

  /** Bytes of jobs the running commit has resolved but not yet subtracted from the counter. */
  function Unpaid(c: Consumer, k: Kind, batch: seq<Job>): int {
    if (c.Discarding? || c.Transacting? || c.Settling? || c.Returned?) && c.kind == k
    then c.owed - BatchBytes(batch) else 0
  }

  /** What the consumer's side of lane `k` holds. */
  function Stored(c: Consumer, k: Kind, lane: Lane): int {
    InLane(lane, JobSize) + Unpaid(c, k, lane.batch)
  }

  /** Everything the counter of lane `k` has to cover. */
  function Held(s: State, k: Kind): int {
    Sum(s.producers, Reserved(k)) + Stored(s.consumer, k, s.lanes.At(k))
  }

  /** Exact until a lane's last commit and again once the counters have been reset. */
  ghost predicate Accounted(s: State, k: Kind) {
    && s.lanes.At(k).bytes <= ByteLimit(k)
    && 0 <= Unpaid(s.consumer, k, s.lanes.At(k).batch)
    && (s.consumer.Done? || LanesDone(s.consumer) <= Rank(k) ==> s.lanes.At(k).bytes == Held(s, k))
  }

  lemma BatchBytesHaveSign(jobs: seq<Job>)
    ensures 0 <= BatchBytes(jobs)
  {
    SumHasSign(jobs, JobSize);
  }

  /** The loaded value and the limit check make the compare-and-swap safe under any interleaving. */
  lemma CounterFollowsReservations(s: State, p: nat, a: ProducerAct, k: Kind)
    requires ProducerCan(s, p, a) && PhaseFits(s.producers[p], |s.slots.leases|)
    requires s.lanes.At(k).bytes <= ByteLimit(k)
    ensures var lane, lane' := s.lanes.At(k), ProducerLanes(s, p, a).At(k);
            && lane'.bytes <= ByteLimit(k) && lane'.batch == lane.batch
            && (a != Send ==> lane'.queue == lane.queue)
            && Reserved(k)(ProducerPhase(s, p, a)) - Reserved(k)(s.producers[p])
               == lane'.bytes - lane.bytes
                  - if a == Send && s.producers[p].kind == k then s.producers[p].job.bytes else 0
  {
  }

  lemma ProducerKeepsBytes(s: State, p: nat, a: ProducerAct, k: Kind)
    requires ProducerCan(s, p, a) && Shaped(s) && FenceHolds(s) && Accounted(s, k)
    ensures Accounted(ProducerDo(s, p, a), k)
  {
    SumUpdate(s.producers, p, ProducerPhase(s, p, a), Reserved(k));
    assert PhaseFits(s.producers[p], |s.slots.leases|);
    CounterFollowsReservations(s, p, a, k);
    if a == Send {
      SumAppend(s.lanes.At(k).queue, s.producers[p].job.(id := s.ledger.published), JobSize);
    }
  }

  /** Moving, filtering and resolving jobs leaves the sum of what is held and what is owed alone. */
  ghost predicate StoredKept(s: State, a: ConsumerAct, k: Kind)
    requires ConsumerCan(s, a)
  {
    var lane' := ConsumerLanes(s, a).At(k);
    && lane'.bytes == s.lanes.At(k).bytes
    && 0 <= Unpaid(ConsumerPhase(s, a), k, lane'.batch)
    && Stored(ConsumerPhase(s, a), k, lane') == Stored(s.consumer, k, s.lanes.At(k))
  }

  lemma TakeOneStores(lane: Lane, w: Job -> int)
    requires lane.queue != []
    ensures InLane(TakeOne(lane), w) == InLane(lane, w)
  {
    SumHead(lane.queue, w);
    SumAppend(lane.batch, lane.queue[0], w);
  }

  lemma TakingKeepsStored(s: State, a: ConsumerAct, from: Kind, k: Kind)
    requires ConsumerCan(s, a) && (a == Receive(from) || a == DrainOne(from))
    ensures StoredKept(s, a, k)
  {
    TakeOneStores(s.lanes.At(from), JobSize);
    assert !Busy(ConsumerPhase(s, a), k) || ConsumerPhase(s, a).Flushing?;
    assert ConsumerLanes(s, a) == s.lanes.With(from, TakeOne(s.lanes.At(from)));
  }

  lemma FilteringKeepsStored(s: State, k: Kind)
    requires ConsumerCan(s, Filter)
    ensures StoredKept(s, Filter, k)
  {
    var batch := s.lanes.At(k).batch;
    FilterPartitions(batch, s.db.functions, JobSize);
    BatchBytesHaveSign(Gone(batch, s.db.functions));
  }

  lemma TransactingKeepsStored(s: State, o: Outcome, k: Kind)
    requires ConsumerCan(s, Transact(o)) && 0 <= Unpaid(s.consumer, k, s.lanes.At(k).batch)
    ensures StoredKept(s, Transact(o), k)
  {
    var batch := s.lanes.At(k).batch;
    BatchBytesHaveSign(batch);
    if o.Isolated? && s.consumer.kind == k {
      PassPartitions(batch, o.verdicts, JobSize);
      BatchBytesHaveSign(Resolved(batch, o.verdicts));
    }
  }

  lemma OtherActsKeepStored(s: State, a: ConsumerAct, k: Kind)
    requires ConsumerCan(s, a) && 0 <= Unpaid(s.consumer, k, s.lanes.At(k).batch)
    requires !a.Receive? && !a.DrainOne? && a != Filter && !a.Transact? && a != ZeroCounters
    requires a == Finish ==> !s.consumer.Returned? || s.consumer.kind != k
    ensures StoredKept(s, a, k)
  {
  }

  /** A commit ends by taking what it resolved off the counter, except in the last round. */
  lemma FinishingPays(s: State, k: Kind)
    requires ConsumerCan(s, Finish) && s.consumer.Returned? && s.consumer.kind == k && Accounted(s, k)
    ensures Accounted(ConsumerDo(s, Finish), k)
  {
  }

  lemma NothingReserved(s: State, k: Kind)
    requires FenceHolds(s) && Closed(s.stop)
    ensures Sum(s.producers, Reserved(k)) == 0
  {
    forall x | x in s.producers ensures Reserved(k)(x) == 0 {
      var i :| 0 <= i < |s.producers| && s.producers[i] == x;
      assert !Publishing(s.producers[i]);
    }
    SumOfZeros(s.producers, Reserved(k));
  }

  lemma ZeroingAgrees(s: State, k: Kind)
    requires ConsumerCan(s, ZeroCounters) && FenceHolds(s)
    ensures Accounted(ConsumerDo(s, ZeroCounters), k)
  {
    NothingReserved(s, k);
    assert s.lanes.At(k).queue == [] && s.lanes.At(k).batch == [];
  }

  lemma ConsumerKeepsBytes(s: State, a: ConsumerAct, k: Kind)
    requires ConsumerCan(s, a) && FenceHolds(s) && Accounted(s, k)
    ensures Accounted(ConsumerDo(s, a), k)
  {
    if a == ZeroCounters {
      ZeroingAgrees(s, k);
    } else if a == Finish && s.consumer.Returned? && s.consumer.kind == k {
      FinishingPays(s, k);
    } else {
      if a.Receive? || a.DrainOne? {
        TakingKeepsStored(s, a, a.kind, k);
      } else if a == Filter {
        FilteringKeepsStored(s, k);
      } else if a.Transact? {
        TransactingKeepsStored(s, a.outcome, k);
      } else {
        OtherActsKeepStored(s, a, k);
      }
      assert StoredKept(s, a, k);
      LanesDoneGrows(s, a);
    }
  }

  lemma LanesDoneGrows(s: State, a: ConsumerAct)
    requires ConsumerCan(s, a)
    ensures LanesDone(s.consumer) <= LanesDone(ConsumerPhase(s, a))
    ensures ConsumerPhase(s, a).Done? ==> a == ZeroCounters
  {
  }

  lemma AccountedKept(s: State, st: Step, k: Kind)
    requires Can(s, st) && Shaped(s) && FenceHolds(s) && Accounted(s, k)
    ensures Accounted(Do(s, st), k)
  {
    match st
    case Producer(p, a) => ProducerKeepsBytes(s, p, a, k);
    case Consume(a) => ConsumerKeepsBytes(s, a, k);
    case _ =>
  }

  /** An exact counter is never negative. */
  lemma HeldHasSign(s: State, k: Kind)
    requires 0 <= Unpaid(s.consumer, k, s.lanes.At(k).batch)
    ensures 0 <= Held(s, k)
  {
    SumHasSign(s.producers, Reserved(k));
    BatchBytesHaveSign(s.lanes.At(k).queue);
    BatchBytesHaveSign(s.lanes.At(k).batch);
  }

  // ---------------------------------------------------------------- batch bounds

  /** Whether the consumer is between starting to flush lane `k` and returning to its loop. */
  predicate Busy(c: Consumer, k: Kind) {
    (c.Flushing? || c.Discarding? || c.Transacting? || c.Settling? || c.Returned?) && c.kind == k
  }

  predicate BeforeDrain(c: Consumer) { !c.Draining? && !AfterDrain(c) }

  /** A batch is at most 200 jobs, and below that unless it is being flushed or held for a retry. */
  ghost predicate Bounded(s: State) {
    BeforeDrain(s.consumer) ==> forall k ::
      && |s.lanes.At(k).batch| <= BATCH_MAX
      && (!s.lanes.At(k).stalled && !Busy(s.consumer, k) ==> |s.lanes.At(k).batch| < BATCH_MAX)
  }

  lemma BoundedKept(s: State, st: Step)
    requires Can(s, st) && Bounded(s)
    ensures Bounded(Do(s, st))
  {
    match st
    case Producer(p, a) => ProducerKeepsBatches(s, p, a);
    case Consume(a) => ConsumerKeepsBatches(s, a);
    case _ =>
  }

  lemma ProducerKeepsBatches(s: State, p: nat, a: ProducerAct)
    requires ProducerCan(s, p, a)
    ensures forall k :: && ProducerLanes(s, p, a).At(k).batch == s.lanes.At(k).batch
                        && ProducerLanes(s, p, a).At(k).stalled == s.lanes.At(k).stalled
  {
  }

  lemma ConsumerKeepsBatches(s: State, a: ConsumerAct)
    requires ConsumerCan(s, a) && Bounded(s)
    ensures Bounded(ConsumerDo(s, a))
  {
    var c := s.consumer;
    if a.Filter? {
      FilterKeepsAlive(s.lanes.At(c.kind).batch, s.db.functions);
    } else if a.Transact? && a.outcome.Isolated? {
      RetryAdvances(s.lanes.At(c.kind).batch, a.outcome.verdicts);
    }
  }

  /** While a lane waits to retry, no step before the drain adds a job to its retained batch. */
  lemma RetainedBatchNotExtended(s: State, st: Step, k: Kind)
    requires Can(s, st) && s.lanes.At(k).stalled && BeforeDrain(s.consumer)
    ensures |Do(s, st).lanes.At(k).batch| <= |s.lanes.At(k).batch|
    ensures s.consumer.Looping? ==> Do(s, st).lanes.At(k).batch == s.lanes.At(k).batch
  {
    match st
    case Producer(p, a) => ProducerKeepsBatches(s, p, a);
    case Consume(a) =>
      var c := s.consumer;
      if a.Filter? {
        FilterKeepsAlive(s.lanes.At(c.kind).batch, s.db.functions);
      } else if a.Transact? && a.outcome.Isolated? {
        RetryAdvances(s.lanes.At(c.kind).batch, a.outcome.verdicts);
      }
    case _ =>
  }
}
