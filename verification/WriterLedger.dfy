/** What becomes of every published job, and which rows its statement leaves behind. */
module WriterLedger {
  import opened Counting
  import opened Wrappers
  import opened WriterBatch
  import opened WriterProtocol
  import opened WriterInvariants

  function HasId(u: nat): Job -> int {
    (j: Job) => if j.id == u then 1 else 0
  }

  function IsId(u: nat): nat -> int {
    (i: nat) => if i == u then 1 else 0
  }

  function OfJob(u: nat): Row -> int {
    (r: Row) => if r.job == u then 1 else 0
  }

  function Resolutions(g: Ledger, u: nat): int {
    Sum(g.committed, IsId(u)) + Sum(g.discarded, IsId(u)) + Sum(g.shed, IsId(u)) + Sum(g.lost, IsId(u))
  }

  /** In how many places job `u` is: queued, in a batch, committed, discarded, shed or lost. */
  function Places(s: State, u: nat): int {
    InLanes(s.lanes, HasId(u)) + Resolutions(s.ledger, u)
  }

  /** Every published job is in exactly one place, and no other job is anywhere. */
  ghost predicate InOnePlace(s: State) {
    forall u: nat :: Places(s, u) == if u < s.ledger.published then 1 else 0
  }

  lemma {:induction false} IdsCount(jobs: seq<Job>, u: nat)
    ensures Sum(Ids(jobs), IsId(u)) == Sum(jobs, HasId(u))
  {
    if jobs != [] {
      var n := |jobs| - 1;
      IdsCount(jobs[..n], u);
      assert Ids(jobs)[..n] == Ids(jobs[..n]);
    }
  }

  lemma {:induction false} RowsCount(jobs: seq<Job>, u: nat)
    ensures Sum(RowsOf(jobs), OfJob(u)) == Sum(jobs, HasId(u))
  {
    if jobs != [] {
      var n := |jobs| - 1;
      RowsCount(jobs[..n], u);
      assert RowsOf(jobs)[..n] == RowsOf(jobs[..n]);
    }
  }

  /** The ledger records exactly the jobs an act takes out of the lanes. */
  lemma LedgerRecordsTaken(s: State, a: ConsumerAct, u: nat)
    requires ConsumerCan(s, a)
    ensures Resolutions(ConsumerLedger(s, a), u) == Resolutions(s.ledger, u) + Sum(Taken(s, a), HasId(u))
    ensures ConsumerLedger(s, a).published == s.ledger.published
  {
    var c, g := s.consumer, s.ledger;
    match a
    case Filter =>
      IdsCount(Taken(s, a), u);
      SumConcat(g.discarded, Ids(Taken(s, a)), IsId(u));
    case Transact(o) =>
      var work := s.lanes.At(c.kind).batch;
      IdsCount(WrittenBy(work, o), u);
      SumConcat(g.committed, Ids(WrittenBy(work, o)), IsId(u));
      if o.Isolated? {
        IdsCount(Shed(work, o.verdicts), u);
        SumConcat(g.shed, Ids(Shed(work, o.verdicts)), IsId(u));
        ResolvedPartitions(work, o.verdicts, HasId(u));
      } else {
        assert g.shed + [] == g.shed;
      }
    case Finish =>
      IdsCount(Taken(s, a), u);
      SumConcat(g.lost, Ids(Taken(s, a)), IsId(u));
    case _ =>
  }

  lemma InOnePlaceKept(s: State, st: Step)
    requires Can(s, st) && InOnePlace(s)
    ensures InOnePlace(Do(s, st))
  {
    forall u: nat ensures Places(Do(s, st), u) == if u < Do(s, st).ledger.published then 1 else 0 {
      assert Places(s, u) == if u < s.ledger.published then 1 else 0;
      match st
      case Producer(p, a) => ProducerMovesJobs(s, p, a, HasId(u));
      case Consume(a) =>
        assert Stable(HasId(u));
        ConsumerMovesJobs(s, a, HasId(u));
        LedgerRecordsTaken(s, a, u);
      case _ =>
    }
  }

  // ---------------------------------------------------------------- rows

  /** A committed job has had its statement take effect once, and no other job ever has. */
  ghost predicate EffectOnce(db: Db, g: Ledger) {
    forall u: nat :: Sum(db.rows, OfJob(u)) + Sum(db.erased, OfJob(u)) == Sum(g.committed, IsId(u))
  }

  lemma {:induction false} DeletionPartitions(from: seq<Row>, rows: seq<Row>, id: string, w: Row -> int)
    ensures Sum(from, w) == Sum(Surviving(from, rows, id), w) + Sum(Deleted(from, rows, id), w)
  {
    if from != [] {
      var n := |from| - 1;
      DeletionPartitions(from[..n], rows, id, w);
      SumAppend(Surviving(from[..n], rows, id), from[n], w);
      SumAppend(Deleted(from[..n], rows, id), from[n], w);
    }
  }

  lemma {:induction false} DeletionRemoves(from: seq<Row>, rows: seq<Row>, id: string)
    ensures forall r :: r in Surviving(from, rows, id) <==> r in from && !Doomed(r, rows, id)
  {
    if from != [] {
      var n := |from| - 1;
      DeletionRemoves(from[..n], rows, id);
      assert from == from[..n] + [from[n]];
    }
  }

  lemma EffectOnceKept(s: State, st: Step)
    requires Can(s, st) && EffectOnce(s.db, s.ledger)
    ensures EffectOnce(Do(s, st).db, Do(s, st).ledger)
  {
    var db, g := Do(s, st).db, Do(s, st).ledger;
    forall u: nat ensures Sum(db.rows, OfJob(u)) + Sum(db.erased, OfJob(u)) == Sum(g.committed, IsId(u)) {
      match st
      case Consume(a) =>
        if a.Transact? {
          var written := WrittenBy(s.lanes.At(s.consumer.kind).batch, a.outcome);
          RowsCount(written, u);
          IdsCount(written, u);
          SumConcat(s.db.rows, RowsOf(written), OfJob(u));
          SumConcat(s.ledger.committed, Ids(written), IsId(u));
        }
      case DeleteFunction(id) =>
        DeletionPartitions(s.db.rows, s.db.rows, id, OfJob(u));
        SumConcat(s.db.erased, Deleted(s.db.rows, s.db.rows, id), OfJob(u));
      case _ =>
    }
  }

  /** A row that names a function, in a table that has the column, names one that exists. */
  predicate RowOwned(r: Row, functions: set<string>) {
    r.table == ExecutionLogs || r.functionId == "" || r.functionId in functions
  }

  /**
   The cache never outlives the table, rows never outlive their function, and while a commit
   holds the lifecycle lock every job it may still write belongs to a function that exists.
   */
  ghost predicate Guarded(s: State) {
    && s.db.live <= s.db.functions
    && (forall r :: r in s.db.rows ==> RowOwned(r, s.db.functions))
    && (s.consumer.Discarding? || s.consumer.Transacting? ==>
          forall j :: j in s.lanes.At(s.consumer.kind).batch ==> Alive(j, s.db.functions))
  }

  lemma WrittenAreAlive(work: seq<Job>, o: Outcome, functions: set<string>)
    requires o.Isolated? ==> |o.verdicts| == |work|
    requires forall j :: j in work ==> Alive(j, functions)
    ensures forall r :: r in RowsOf(WrittenBy(work, o)) ==> r.functionId == "" || r.functionId in functions
  {
    if o.Isolated? {
      RetryAdvances(work, o.verdicts);
    }
    var jobs := WrittenBy(work, o);
    forall r | r in RowsOf(jobs) ensures r.functionId == "" || r.functionId in functions {
      var i :| 0 <= i < |jobs| && RowsOf(jobs)[i] == r;
      assert jobs[i] in work;
    }
  }

  lemma GuardedKept(s: State, st: Step)
    requires Can(s, st) && Guarded(s)
    ensures Guarded(Do(s, st))
  {
    match st
    case Consume(a) => ConsumerKeepsGuard(s, a);
    case DeleteFunction(id) => DeletionRemoves(s.db.rows, s.db.rows, id);
    case _ =>
  }

  lemma ConsumerKeepsGuard(s: State, a: ConsumerAct)
    requires ConsumerCan(s, a) && Guarded(s)
    ensures Guarded(ConsumerDo(s, a))
  {
    var c := s.consumer;
    if a == Filter {
      FilterKeepsAlive(s.lanes.At(c.kind).batch, s.db.functions);
    } else if a.Transact? {
      WrittenAreAlive(s.lanes.At(c.kind).batch, a.outcome, s.db.functions);
    }
  }

  /** No step but an insertion lets a function exist again, and none adds rows for a missing one. */
  lemma MissingFunctionGainsNothing(s: State, st: Step, id: string)
    requires Can(s, st) && Guarded(s) && id != "" && id !in s.db.functions && st != InsertFunction(id)
    ensures id !in Do(s, st).db.functions
    ensures forall r :: r in Do(s, st).db.rows && r.functionId == id ==> r in s.db.rows
  {
    match st
    case Consume(a) =>
      if a.Transact? {
        WrittenAreAlive(s.lanes.At(s.consumer.kind).batch, a.outcome, s.db.functions);
      }
    case DeleteFunction(other) => DeletionRemoves(s.db.rows, s.db.rows, other);
    case _ =>
  }

  // ---------------------------------------------------------------- publish order

  predicate Ascending(jobs: seq<Job>) {
    forall i, j :: 0 <= i < j < |jobs| ==> jobs[i].id < jobs[j].id
  }

  predicate Below(jobs: seq<Job>, n: nat) {
    forall j :: j in jobs ==> j.id < n
  }

  /** Each lane holds its jobs in publish order, the batch before the queue. */
  ghost predicate InOrder(s: State) {
    forall k :: Ascending(s.lanes.At(k).batch + s.lanes.At(k).queue)
                && Below(s.lanes.At(k).batch + s.lanes.At(k).queue, s.ledger.published)
  }

  lemma {:induction false} KeepInOrder(batch: seq<Job>, functions: set<string>)
    requires Ascending(batch)
    ensures Ascending(Keep(batch, functions))
  {
    if batch != [] {
      var n := |batch| - 1;
      KeepInOrder(batch[..n], functions);
      FilterKeepsAlive(batch[..n], functions);
      forall j | j in batch[..n] ensures j.id < batch[n].id {
      }
    }
  }

  lemma {:induction false} RetryInOrder(work: seq<Job>, verdicts: seq<Verdict>)
    requires |verdicts| == |work| && Ascending(work)
    ensures Ascending(Retry(work, verdicts))
    ensures forall r :: r in Retry(work, verdicts) ==> exists j :: j in work && j.id == r.id
  {
    if work != [] {
      var n := |work| - 1;
      RetryInOrder(work[..n], verdicts[..n]);
      assert work == work[..n] + [work[n]];
    }
  }

  /** Replacing a batch by jobs of the same ids keeps the lane in order. */
  lemma ShrinkInOrder(batch: seq<Job>, batch': seq<Job>, queue: seq<Job>, n: nat)
    requires Ascending(batch + queue) && Below(batch + queue, n) && Ascending(batch')
    requires forall r :: r in batch' ==> exists j :: j in batch && j.id == r.id
    ensures Ascending(batch' + queue) && Below(batch' + queue, n)
  {
    forall r, q | r in batch' && q in queue ensures r.id < q.id {
      var j :| j in batch && j.id == r.id;
      var i :| 0 <= i < |batch| && batch[i] == j;
      var m :| 0 <= m < |queue| && queue[m] == q;
      assert (batch + queue)[i] == j && (batch + queue)[|batch| + m] == q;
    }
    forall i, j | 0 <= i < j < |queue| ensures queue[i].id < queue[j].id {
      assert (batch + queue)[|batch| + i] == queue[i] && (batch + queue)[|batch| + j] == queue[j];
    }
    forall r | r in batch' ensures r.id < n {
      var j :| j in batch && j.id == r.id;
      assert j in batch + queue;
    }
  }

  lemma InOrderKept(s: State, st: Step)
    requires Can(s, st) && InOrder(s)
    ensures InOrder(Do(s, st))
  {
    match st
    case Producer(p, a) => ProducerKeepsOrder(s, p, a);
    case Consume(a) => ConsumerKeepsOrder(s, a);
    case _ =>
  }

  lemma ProducerKeepsOrder(s: State, p: nat, a: ProducerAct)
    requires ProducerCan(s, p, a) && InOrder(s)
    ensures InOrder(ProducerDo(s, p, a))
  {
    forall k ensures Ascending(ProducerLanes(s, p, a).At(k).batch + ProducerLanes(s, p, a).At(k).queue)
                     && Below(ProducerLanes(s, p, a).At(k).batch + ProducerLanes(s, p, a).At(k).queue,
                              ProducerDo(s, p, a).ledger.published)
    {
      var l := s.lanes.At(k);
      assert Ascending(l.batch + l.queue) && Below(l.batch + l.queue, s.ledger.published);
      if a == Send && s.producers[p].kind == k {
        var j := s.producers[p].job.(id := s.ledger.published);
        assert l.batch + (l.queue + [j]) == (l.batch + l.queue) + [j];
      }
    }
  }

  lemma ConsumerKeepsOrder(s: State, a: ConsumerAct)
    requires ConsumerCan(s, a) && InOrder(s)
    ensures InOrder(ConsumerDo(s, a))
  {
    forall k ensures Ascending(ConsumerLanes(s, a).At(k).batch + ConsumerLanes(s, a).At(k).queue)
                     && Below(ConsumerLanes(s, a).At(k).batch + ConsumerLanes(s, a).At(k).queue,
                              s.ledger.published)
    {
      var l := s.lanes.At(k);
      assert Ascending(l.batch + l.queue) && Below(l.batch + l.queue, s.ledger.published);
      LaneStaysInOrder(s, a, k);
    }
  }

  /** Taking the next job into the batch leaves the order in which the lane is worked off. */
  lemma ReceivedInOrder(s: State, a: ConsumerAct, k: Kind)
    requires ConsumerCan(s, a) && (a == Receive(k) || a == DrainOne(k))
    ensures ConsumerLanes(s, a).At(k).batch + ConsumerLanes(s, a).At(k).queue
            == s.lanes.At(k).batch + s.lanes.At(k).queue
  {
    var l := s.lanes.At(k);
    assert l.batch + [l.queue[0]] + l.queue[1..] == l.batch + l.queue;
  }

  lemma LaneStaysInOrder(s: State, a: ConsumerAct, k: Kind)
    requires ConsumerCan(s, a)
    requires Ascending(s.lanes.At(k).batch + s.lanes.At(k).queue)
    requires Below(s.lanes.At(k).batch + s.lanes.At(k).queue, s.ledger.published)
    ensures Ascending(ConsumerLanes(s, a).At(k).batch + ConsumerLanes(s, a).At(k).queue)
    ensures Below(ConsumerLanes(s, a).At(k).batch + ConsumerLanes(s, a).At(k).queue, s.ledger.published)
  {
    var l, l' := s.lanes.At(k), ConsumerLanes(s, a).At(k);
    if a == Receive(k) || a == DrainOne(k) {
      ReceivedInOrder(s, a, k);
    } else if l'.batch != l.batch {
      PrefixInOrder(l.batch, l.queue);
      BatchShrinks(s, a, k);
      ShrinkInOrder(l.batch, l'.batch, l.queue, s.ledger.published);
    }
  }

  lemma PrefixInOrder(a: seq<Job>, b: seq<Job>)
    requires Ascending(a + b)
    ensures Ascending(a)
  {
    forall i, j | 0 <= i < j < |a| ensures a[i].id < a[j].id {
      assert a[i] == (a + b)[i] && a[j] == (a + b)[j];
    }
  }

  lemma BatchShrinks(s: State, a: ConsumerAct, k: Kind)
    requires ConsumerCan(s, a) && a != Receive(k) && a != DrainOne(k) && Ascending(s.lanes.At(k).batch)
    ensures var l, l' := s.lanes.At(k), ConsumerLanes(s, a).At(k);
            && l'.queue == l.queue && Ascending(l'.batch)
            && forall r :: r in l'.batch ==> exists j :: j in l.batch && j.id == r.id
  {
    var batch := s.lanes.At(k).batch;
    if a == Filter {
      KeepInOrder(batch, s.db.functions);
      FilterKeepsAlive(batch, s.db.functions);
    } else if a.Transact? && a.outcome.Isolated? && s.consumer.kind == k {
      RetryInOrder(batch, a.outcome.verdicts);
    }
  }
}
