/** What becomes of each job over a whole run, by the database's answers, and that its row is what was sent. */
module WriterFates {
  import opened Counting
  import opened Wrappers
  import opened WriterBatch
  import opened WriterProtocol
  import opened WriterInvariants
  import opened WriterLedger
  import opened WriterTheorems
  import opened WriterPasses

  /** The step completes an isolation pass in which the database gave this answer to the job's statement. */
  ghost predicate Answers(s: State, st: Step, u: nat, v: Verdict) {
    && st.Consume? && st.cact.Transact? && st.cact.outcome.Isolated? && ConsumerCan(s, st.cact)
    && var batch := s.lanes.At(s.consumer.kind).batch;
       exists i :: 0 <= i < |batch| && batch[i].id == u && st.cact.outcome.verdicts[i] == v
  }

  /** The step commits a whole batch that holds the job, in one transaction. */
  ghost predicate CommitsWhole(s: State, st: Step, u: nat) {
    && st.Consume? && st.cact.Transact? && st.cact.outcome.Grouped? && s.consumer.Transacting?
    && exists j :: j in s.lanes.At(s.consumer.kind).batch && j.id == u
  }

  // ---------------------------------------------------------------- one pass

  /** A batch in which only the `i`-th job has this id. */
  predicate Only(work: seq<Job>, i: nat, u: nat) {
    i < |work| && forall j :: 0 <= j < |work| ==> (work[j].id == u <==> j == i)
  }

  lemma AbsentCountsNothing(work: seq<Job>, u: nat)
    requires forall j :: 0 <= j < |work| ==> work[j].id != u
    ensures Sum(work, HasId(u)) == 0
  {
    SumOfZeros(work, HasId(u));
  }

  lemma {:induction false} ShedComesFrom(work: seq<Job>, verdicts: seq<Verdict>)
    requires |verdicts| == |work|
    ensures forall r :: r in Shed(work, verdicts) ==> r in work
  {
    if work != [] {
      var n := |work| - 1;
      ShedComesFrom(work[..n], verdicts[..n]);
      assert work == work[..n] + [work[n]];
    }
  }

  lemma {:induction false} WrittenComesFrom(work: seq<Job>, verdicts: seq<Verdict>)
    requires |verdicts| == |work|
    ensures forall r :: r in Written(work, verdicts) ==> r in work
  {
    if work != [] {
      var n := |work| - 1;
      WrittenComesFrom(work[..n], verdicts[..n]);
      assert work == work[..n] + [work[n]];
    }
  }

  lemma AbsentIsNotWritten(work: seq<Job>, verdicts: seq<Verdict>, u: nat)
    requires |verdicts| == |work| && forall j :: j in work ==> j.id != u
    ensures Sum(Written(work, verdicts), HasId(u)) == 0
  {
    WrittenComesFrom(work, verdicts);
    SumOfZeros(Written(work, verdicts), HasId(u));
  }

  lemma AbsentIsNotShed(work: seq<Job>, verdicts: seq<Verdict>, u: nat)
    requires |verdicts| == |work| && forall j :: j in work ==> j.id != u
    ensures Sum(Shed(work, verdicts), HasId(u)) == 0
  {
    ShedComesFrom(work, verdicts);
    SumOfZeros(Shed(work, verdicts), HasId(u));
  }

  /** Where one job of a pass goes: written if its statement was accepted, ... */
  lemma {:induction false} WrittenFate(work: seq<Job>, verdicts: seq<Verdict>, i: nat, u: nat)
    requires |verdicts| == |work| && Only(work, i, u)
    ensures Sum(Written(work, verdicts), HasId(u)) == if verdicts[i] == Accepted then 1 else 0
  {
    var n := |work| - 1;
    if i < n {
      WrittenFate(work[..n], verdicts[..n], i, u);
    } else {
      AbsentIsNotWritten(work[..n], verdicts[..n], u);
    }
    SumAppend(Written(work[..n], verdicts[..n]), work[n], HasId(u));
  }

  /** ... shed for good if it failed permanently or on its third attempt, ... */
  lemma {:induction false} ShedFate(work: seq<Job>, verdicts: seq<Verdict>, i: nat, u: nat)
    requires |verdicts| == |work| && Only(work, i, u) && work[i].attempts < 3
    ensures Sum(Shed(work, verdicts), HasId(u))
            == if verdicts[i] == Permanent || (verdicts[i] == Transient && work[i].attempts == 2) then 1 else 0
  {
    var n := |work| - 1;
    if i < n {
      ShedFate(work[..n], verdicts[..n], i, u);
    } else {
      AbsentIsNotShed(work[..n], verdicts[..n], u);
    }
    SumAppend(Shed(work[..n], verdicts[..n]), work[n], HasId(u));
  }

  /** ... and otherwise back into the batch with one more attempt. */
  lemma {:induction false} RetryFate(work: seq<Job>, verdicts: seq<Verdict>, i: nat)
    requires |verdicts| == |work| && i < |work| && verdicts[i] == Transient && work[i].attempts < 2
    ensures work[i].(attempts := work[i].attempts + 1) in Retry(work, verdicts)
  {
    var n := |work| - 1;
    if i < n {
      RetryFate(work[..n], verdicts[..n], i);
    }
  }

  lemma OnlyOnce(s: State, k: Kind, i: nat)
    requires InOrder(s) && i < |s.lanes.At(k).batch|
    ensures Only(s.lanes.At(k).batch, i, s.lanes.At(k).batch[i].id)
  {
    var batch := s.lanes.At(k).batch;
    PrefixInOrder(batch, s.lanes.At(k).queue);
    forall j | 0 <= j < |batch| ensures batch[j].id == batch[i].id <==> j == i {
      if j < i {
        assert batch[j].id < batch[i].id;
      } else if i < j {
        assert batch[i].id < batch[j].id;
      }
    }
  }

  /** The place of a job in the batch of a pass. */
  lemma PlaceInPass(s: State, o: Outcome, u: nat) returns (i: int)
    requires ConsumerCan(s, Transact(o)) && o.Isolated? && InOrder(s)
    ensures var batch := s.lanes.At(s.consumer.kind).batch;
            if 0 <= i < |batch| then
              && Only(batch, i, u) && IsPass(s, Consume(Transact(o)), u)
              && forall v :: Answers(s, Consume(Transact(o)), u, v) <==> v == o.verdicts[i]
            else
              && (forall j :: 0 <= j < |batch| ==> batch[j].id != u) && !IsPass(s, Consume(Transact(o)), u)
              && forall v :: !Answers(s, Consume(Transact(o)), u, v)
  {
    var batch := s.lanes.At(s.consumer.kind).batch;
    i := -1;
    if j :| 0 <= j < |batch| && batch[j].id == u {
      i := j;
      OnlyOnce(s, s.consumer.kind, j);
      assert batch[j] in batch;
      assert Answers(s, Consume(Transact(o)), u, o.verdicts[i]);
    }
  }

  // ---------------------------------------------------------------- over runs

  lemma LedgerOfPass(s: State, o: Outcome, u: nat)
    requires ConsumerCan(s, Transact(o))
    ensures var batch, t := s.lanes.At(s.consumer.kind).batch, Do(s, Consume(Transact(o)));
            && Sum(t.ledger.committed, IsId(u)) == Sum(s.ledger.committed, IsId(u)) + Sum(WrittenBy(batch, o), HasId(u))
            && Sum(t.ledger.shed, IsId(u))
               == Sum(s.ledger.shed, IsId(u)) + if o.Isolated? then Sum(Shed(batch, o.verdicts), HasId(u)) else 0
  {
    var batch := s.lanes.At(s.consumer.kind).batch;
    SumConcat(s.ledger.committed, Ids(WrittenBy(batch, o)), IsId(u));
    IdsCount(WrittenBy(batch, o), u);
    if o.Isolated? {
      SumConcat(s.ledger.shed, Ids(Shed(batch, o.verdicts)), IsId(u));
      IdsCount(Shed(batch, o.verdicts), u);
    } else {
      SumConcat(s.ledger.shed, [], IsId(u));
    }
  }

  lemma WholeBatchCounts(s: State, u: nat)
    requires InOrder(s) && ConsumerCan(s, Transact(Grouped))
    ensures Sum(s.lanes.At(s.consumer.kind).batch, HasId(u))
            == if CommitsWhole(s, Consume(Transact(Grouped)), u) then 1 else 0
  {
    var batch := s.lanes.At(s.consumer.kind).batch;
    if j :| 0 <= j < |batch| && batch[j].id == u {
      OnlyOnce(s, s.consumer.kind, j);
      assert batch[j] in batch;
      OnlyCountsOne(batch, j, u);
    } else {
      AbsentCountsNothing(batch, u);
    }
  }

  lemma {:induction false} OnlyCountsOne(work: seq<Job>, i: nat, u: nat)
    requires Only(work, i, u)
    ensures Sum(work, HasId(u)) == 1
  {
    var n := |work| - 1;
    if i < n {
      OnlyCountsOne(work[..n], i, u);
    } else {
      AbsentCountsNothing(work[..n], u);
    }
  }

  /** The attempts of a job in a pass are the passes it was in before. */
  lemma AttemptsInPass(states: seq<State>, steps: seq<Step>, i: nat, u: nat)
    requires Trace(states, steps) && steps != []
    requires var s := states[|steps| - 1];
             && s.consumer.Transacting? && i < |s.lanes.At(s.consumer.kind).batch|
             && s.lanes.At(s.consumer.kind).batch[i].id == u && IsPass(s, steps[|steps| - 1], u)
    ensures var s := states[|steps| - 1];
            s.lanes.At(s.consumer.kind).batch[i].attempts + 1 == Passes(states, steps, u) <= 3
  {
    var n := |steps| - 1;
    TracePrefix(states, steps);
    var j := states[n].lanes.At(states[n].consumer.kind).batch[i];
    assert j in states[n].lanes.At(states[n].consumer.kind).batch;
    assert Waiting(states[n].lanes, j);
    AttemptsArePasses(states[..n + 1], steps[..n], j);
  }

  /**
   At every step of every run a job is shed exactly if a pass met a permanent failure of its statement, or a
   transient one for the third time.
   */
  lemma ShedIff(states: seq<State>, steps: seq<Step>, u: nat)
    requires Trace(states, steps) && steps != []
    ensures var n := |steps| - 1;
            Sum(states[n + 1].ledger.shed, IsId(u)) == Sum(states[n].ledger.shed, IsId(u))
            + if || Answers(states[n], steps[n], u, Permanent)
                 || (Answers(states[n], steps[n], u, Transient) && Passes(states, steps, u) == 3) then 1 else 0
  {
    var n := |steps| - 1;
    var s, st := states[n], steps[n];
    if st.Consume? && st.cact.Transact? {
      LedgerOfPass(s, st.cact.outcome, u);
      if st.cact.outcome.Isolated? {
        PassSheds(states, steps, u);
      }
    }
  }

  lemma PassSheds(states: seq<State>, steps: seq<Step>, u: nat)
    requires Trace(states, steps) && steps != []
    requires var st := steps[|steps| - 1]; st.Consume? && st.cact.Transact? && st.cact.outcome.Isolated?
    ensures var n := |steps| - 1;
            Sum(Shed(states[n].lanes.At(states[n].consumer.kind).batch, steps[n].cact.outcome.verdicts), HasId(u))
            == if || Answers(states[n], steps[n], u, Permanent)
                  || (Answers(states[n], steps[n], u, Transient) && Passes(states, steps, u) == 3) then 1 else 0
  {
    var n := |steps| - 1;
    var s, o := states[n], steps[n].cact.outcome;
    var batch := s.lanes.At(s.consumer.kind).batch;
    TracePrefix(states, steps);
    TraceKeepsInv(states[..n + 1], steps[..n]);
    var i := PlaceInPass(s, o, u);
    if 0 <= i < |batch| {
      AttemptsInPass(states, steps, i, u);
      ShedFate(batch, o.verdicts, i, u);
    } else {
      AbsentIsNotShed(batch, o.verdicts, u);
    }
  }

  /** And committed exactly if a pass accepted its statement, or a transaction committed its whole batch. */
  lemma CommittedIff(states: seq<State>, steps: seq<Step>, u: nat)
    requires Trace(states, steps) && steps != []
    ensures var n := |steps| - 1;
            Sum(states[n + 1].ledger.committed, IsId(u)) == Sum(states[n].ledger.committed, IsId(u))
            + if Answers(states[n], steps[n], u, Accepted) || CommitsWhole(states[n], steps[n], u) then 1 else 0
  {
    var n := |steps| - 1;
    var s, st := states[n], steps[n];
    if st.Consume? && st.cact.Transact? {
      LedgerOfPass(s, st.cact.outcome, u);
      TracePrefix(states, steps);
      TraceKeepsInv(states[..n + 1], steps[..n]);
      if st.cact.outcome.Isolated? {
        PassWrites(states, steps, u);
      } else if st.cact.outcome.Grouped? {
        WholeBatchCounts(s, u);
      }
    }
  }

  lemma PassWrites(states: seq<State>, steps: seq<Step>, u: nat)
    requires Trace(states, steps) && steps != []
    requires var st := steps[|steps| - 1]; st.Consume? && st.cact.Transact? && st.cact.outcome.Isolated?
    ensures var n := |steps| - 1;
            Sum(Written(states[n].lanes.At(states[n].consumer.kind).batch, steps[n].cact.outcome.verdicts), HasId(u))
            == if Answers(states[n], steps[n], u, Accepted) then 1 else 0
  {
    var n := |steps| - 1;
    var s, o := states[n], steps[n].cact.outcome;
    var batch := s.lanes.At(s.consumer.kind).batch;
    TracePrefix(states, steps);
    TraceKeepsInv(states[..n + 1], steps[..n]);
    var i := PlaceInPass(s, o, u);
    if 0 <= i < |batch| {
      WrittenFate(batch, o.verdicts, i, u);
    } else {
      AbsentIsNotWritten(batch, o.verdicts, u);
    }
  }

  lemma RetriedWaits(s: State, o: Outcome, j: Job)
    requires ConsumerCan(s, Transact(o)) && o.Isolated? && j in Retry(s.lanes.At(s.consumer.kind).batch, o.verdicts)
    ensures Waiting(Do(s, Consume(Transact(o))).lanes, j)
  {
    assert j in Do(s, Consume(Transact(o))).lanes.At(s.consumer.kind).batch;
  }

  lemma TransientIsRetried(states: seq<State>, steps: seq<Step>, u: nat) returns (j: Job)
    requires Trace(states, steps) && steps != [] && Passes(states, steps, u) < 3
    requires Answers(states[|steps| - 1], steps[|steps| - 1], u, Transient)
    ensures var s := states[|steps| - 1];
            j in Retry(s.lanes.At(s.consumer.kind).batch, steps[|steps| - 1].cact.outcome.verdicts) && j.id == u
  {
    var n := |steps| - 1;
    var s, o := states[n], steps[n].cact.outcome;
    var batch := s.lanes.At(s.consumer.kind).batch;
    TracePrefix(states, steps);
    TraceKeepsInv(states[..n + 1], steps[..n]);
    var i := PlaceInPass(s, o, u);
    AttemptsInPass(states, steps, i, u);
    RetryFate(batch, o.verdicts, i);
    j := batch[i].(attempts := batch[i].attempts + 1);
  }

  /** Before its third pass a job whose statement fails transiently waits on. */
  lemma TransientWaitsOn(states: seq<State>, steps: seq<Step>, u: nat)
    requires Trace(states, steps) && steps != [] && Passes(states, steps, u) < 3
    requires Answers(states[|steps| - 1], steps[|steps| - 1], u, Transient)
    ensures exists j :: Waiting(states[|steps|].lanes, j) && j.id == u
  {
    var n := |steps| - 1;
    var j := TransientIsRetried(states, steps, u);
    RetriedWaits(states[n], steps[n].cact.outcome, j);
  }

  // ---------------------------------------------------------------- what is written is what was sent

  /** Some earlier step sent this job, apart from the attempts it has used since. */
  ghost predicate WasSent(states: seq<State>, steps: seq<Step>, j: Job)
    requires |states| == |steps| + 1
  {
    exists m :: 0 <= m < |steps| && IsSend(states[m], steps[m], j.(attempts := 0))
  }

  lemma SentEarlier(states: seq<State>, steps: seq<Step>, j: Job)
    requires |states| == |steps| + 1 && steps != []
    requires WasSent(states[..|steps|], steps[..|steps| - 1], j)
    ensures WasSent(states, steps, j)
  {
    var m :| 0 <= m < |steps| - 1 && IsSend(states[..|steps|][m], steps[..|steps| - 1][m], j.(attempts := 0));
    assert IsSend(states[m], steps[m], j.(attempts := 0));
  }

  lemma {:induction false} WaitingWasSent(states: seq<State>, steps: seq<Step>, j: Job)
    requires Trace(states, steps) && Waiting(states[|steps|].lanes, j)
    ensures WasSent(states, steps, j)
    decreases |steps|
  {
    NobodyWaitsAtFirst(states[0], j);
    if steps != [] {
      var n := |steps| - 1;
      var sent, before := Origin(states, steps, j);
      if sent {
        assert j == j.(attempts := 0) && IsSend(states[n], steps[n], j.(attempts := 0));
      } else {
        TracePrefix(states, steps);
        WaitingWasSent(states[..n + 1], steps[..n], before);
        SentEarlier(states, steps, before);
        assert before.(attempts := 0) == j.(attempts := 0);
      }
    }
  }

  /** The row a job's statement writes: its table, execution and function. */
  predicate RowFor(r: Row, j: Job) {
    r.job == j.id && r.table == j.table && r.executionId == j.executionId && r.functionId == j.functionId
  }

  lemma NewRows(s: State, st: Step, r: Row) returns (j: Job)
    requires Can(s, st) && r in Do(s, st).db.rows && r !in s.db.rows
    ensures Waiting(s.lanes, j) && RowFor(r, j)
  {
    if st.DeleteFunction? {
      DeletionRemoves(s.db.rows, s.db.rows, st.id);
      assert false;
    }
    var batch := s.lanes.At(s.consumer.kind).batch;
    var written := WrittenBy(batch, st.cact.outcome);
    var i :| 0 <= i < |RowsOf(written)| && RowsOf(written)[i] == r;
    j := written[i];
    if st.cact.outcome.Isolated? {
      RetryAdvances(batch, st.cact.outcome.verdicts);
    }
    assert j in written;
    assert j in batch;
  }

  /** In every run each row is that of a job that was sent: the same table, execution and function. */
  lemma {:induction false} RowsWereSent(states: seq<State>, steps: seq<Step>, r: Row)
    requires Trace(states, steps) && r in states[|steps|].db.rows
    ensures exists j :: RowFor(r, j) && WasSent(states, steps, j)
    decreases |steps|
  {
    if steps != [] {
      var n := |steps| - 1;
      TracePrefix(states, steps);
      if r in states[n].db.rows {
        RowsWereSent(states[..n + 1], steps[..n], r);
        var j :| RowFor(r, j) && WasSent(states[..n + 1], steps[..n], j);
        SentEarlier(states, steps, j);
      } else {
        var j := NewRows(states[n], steps[n], r);
        WaitingWasSent(states[..n + 1], steps[..n], j);
        SentEarlier(states, steps, j);
      }
    }
  }
}
