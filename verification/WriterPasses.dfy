/** Over whole runs of the writer: no job takes part in more than three completed isolation passes. */
module WriterPasses {
  import opened Counting
  import opened Wrappers
  import opened WriterBatch
  import opened WriterProtocol
  import opened WriterInvariants
  import opened WriterLedger
  import opened WriterTheorems

  /** A run with the states in between. */
  ghost predicate Trace(states: seq<State>, steps: seq<Step>) {
    && |states| == |steps| + 1 && Init(states[0])
    && (forall i :: 0 <= i < |steps| ==> Can(states[i], steps[i]) && states[i + 1] == Do(states[i], steps[i]))
  }

  /** The job waits in a channel or is held in a batch. */
  ghost predicate Waiting(ls: Lanes, j: Job) {
    exists k :: j in ls.At(k).batch || j in ls.At(k).queue
  }

  /** The step completes an isolation pass over a batch that holds the job with this id. */
  ghost predicate IsPass(s: State, st: Step, u: nat) {
    && st.Consume? && st.cact.Transact? && st.cact.outcome.Isolated? && s.consumer.Transacting?
    && exists j :: j in s.lanes.At(s.consumer.kind).batch && j.id == u
  }

  ghost function Passes(states: seq<State>, steps: seq<Step>, u: nat): nat
    requires |states| == |steps| + 1
    decreases |steps|
  {
    if steps == [] then 0
    else
      var n := |steps| - 1;
      Passes(states[..n + 1], steps[..n], u) + if IsPass(states[n], steps[n], u) then 1 else 0
  }

  lemma MemberCounts(jobs: seq<Job>, j: Job)
    requires j in jobs
    ensures Sum(jobs, HasId(j.id)) >= 1
  {
    var i :| 0 <= i < |jobs| && jobs[i] == j;
    SumBoundsMember(jobs, i, HasId(j.id));
  }

  /** Every container's share of an id is counted in the lanes' total. */
  lemma LanesAdd(ls: Lanes, u: nat)
    ensures forall k :: 0 <= Sum(ls.At(k).batch, HasId(u)) && 0 <= Sum(ls.At(k).queue, HasId(u))
    ensures InLanes(ls, HasId(u))
            == Sum(ls.At(Critical).batch, HasId(u)) + Sum(ls.At(Critical).queue, HasId(u))
               + Sum(ls.At(Activity).batch, HasId(u)) + Sum(ls.At(Activity).queue, HasId(u))
               + Sum(ls.At(Telemetry).batch, HasId(u)) + Sum(ls.At(Telemetry).queue, HasId(u))
  {
    forall k ensures 0 <= Sum(ls.At(k).batch, HasId(u)) && 0 <= Sum(ls.At(k).queue, HasId(u)) {
      SumHasSign(ls.At(k).batch, HasId(u));
      SumHasSign(ls.At(k).queue, HasId(u));
    }
  }

  /** A waiting job was published. */
  lemma WaitingIsPublished(s: State, j: Job)
    requires InOnePlace(s) && Waiting(s.lanes, j)
    ensures j.id < s.ledger.published
  {
    var k :| j in s.lanes.At(k).batch || j in s.lanes.At(k).queue;
    LanesAdd(s.lanes, j.id);
    assert k == Critical || k == Activity || k == Telemetry;
    if j in s.lanes.At(k).batch {
      MemberCounts(s.lanes.At(k).batch, j);
    } else {
      MemberCounts(s.lanes.At(k).queue, j);
    }
    ResolutionsHaveSign(s.ledger, j.id);
    assert Places(s, j.id) >= 1;
  }

  lemma ResolutionsHaveSign(g: Ledger, u: nat)
    ensures 0 <= Resolutions(g, u)
  {
    SumHasSign(g.committed, IsId(u));
    SumHasSign(g.discarded, IsId(u));
    SumHasSign(g.shed, IsId(u));
    SumHasSign(g.lost, IsId(u));
  }

  /** A job outside a batch does not share its id with one inside. */
  lemma NoTwin(s: State, k: Kind, inside: Job, l: Kind, outside: Job)
    requires InOnePlace(s) && inside in s.lanes.At(k).batch
    requires outside in s.lanes.At(l).queue || (l != k && outside in s.lanes.At(l).batch)
    ensures inside.id != outside.id
  {
    var u := inside.id;
    if outside.id == u {
      MemberCounts(s.lanes.At(k).batch, inside);
      if outside in s.lanes.At(l).queue {
        MemberCounts(s.lanes.At(l).queue, outside);
      } else {
        MemberCounts(s.lanes.At(l).batch, outside);
      }
      TwoPlaces(s, k, l, u);
    }
  }

  lemma TwoPlaces(s: State, k: Kind, l: Kind, u: nat)
    requires InOnePlace(s) && Sum(s.lanes.At(k).batch, HasId(u)) >= 1
    ensures Sum(s.lanes.At(l).queue, HasId(u)) < 1 && (l != k ==> Sum(s.lanes.At(l).batch, HasId(u)) < 1)
  {
    LanesAdd(s.lanes, u);
    ResolutionsHaveSign(s.ledger, u);
    assert Places(s, u) <= 1;
    assert (k == Critical || k == Activity || k == Telemetry) && (l == Critical || l == Activity || l == Telemetry);
  }

  // ---------------------------------------------------------------- one step

  /** The step sends the job, which gets the next id. */
  ghost predicate IsSend(s: State, st: Step, j: Job) {
    && st.Producer? && st.act == Send && st.p < |s.producers| && s.producers[st.p].Sending?
    && s.producers[st.p].job.attempts == 0 && j == s.producers[st.p].job.(id := s.ledger.published)
  }

  /** What a step that keeps a job makes of it. */
  ghost function Later(s: State, st: Step, j: Job): Job {
    if IsPass(s, st, j.id) then j.(attempts := j.attempts + 1) else j
  }

  /** Where a waiting job comes from: it waited before, an attempt earlier if the step was a pass over it, or was just sent. */
  ghost predicate ComesFrom(s: State, st: Step, j': Job) {
    || (exists j :: Waiting(s.lanes, j) && j' == Later(s, st, j))
    || IsSend(s, st, j')
  }

  lemma ProducerTracks(s: State, p: nat, a: ProducerAct, j': Job)
    requires ProducerCan(s, p, a) && Shaped(s) && Waiting(ProducerLanes(s, p, a), j')
    ensures ComesFrom(s, Producer(p, a), j')
  {
    var k :| j' in ProducerLanes(s, p, a).At(k).batch || j' in ProducerLanes(s, p, a).At(k).queue;
    if a == Send && k == s.producers[p].kind && j' !in s.lanes.At(k).batch && j' !in s.lanes.At(k).queue {
      assert PhaseFits(s.producers[p], |s.slots.leases|);
      assert j' == s.producers[p].job.(id := s.ledger.published);
    } else {
      assert Waiting(s.lanes, j');
    }
  }

  lemma PassTracks(s: State, o: Outcome, j': Job)
    requires ConsumerCan(s, Transact(o)) && o.Isolated? && InOnePlace(s) && Waiting(ConsumerLanes(s, Transact(o)), j')
    ensures ComesFrom(s, Consume(Transact(o)), j')
  {
    var c := s.consumer.kind;
    var batch := s.lanes.At(c).batch;
    var k :| j' in ConsumerLanes(s, Transact(o)).At(k).batch || j' in s.lanes.At(k).queue;
    if k == c && j' !in s.lanes.At(k).queue {
      RetryAdvances(batch, o.verdicts);
      var i :| 0 <= i < |batch| && !Settled(batch[i], o.verdicts[i]) && j' == Tried(batch[i]);
      assert batch[i] in batch && Waiting(s.lanes, batch[i]);
    } else {
      assert Waiting(s.lanes, j');
      forall j | j in batch ensures j.id != j'.id {
        NoTwin(s, c, j, k, j');
      }
    }
  }

  lemma TakenStays(lane: Lane, j: Job)
    requires lane.queue != [] && (j in TakeOne(lane).batch || j in TakeOne(lane).queue)
    ensures j in lane.batch || j in lane.queue
  {
    assert lane.queue == [lane.queue[0]] + lane.queue[1..];
  }

  /** No other act of the consumer brings a job into a lane. */
  lemma OtherActsBringNothing(s: State, a: ConsumerAct, k: Kind, j': Job)
    requires ConsumerCan(s, a) && !(a.Transact? && a.outcome.Isolated?)
    requires j' in ConsumerLanes(s, a).At(k).batch || j' in ConsumerLanes(s, a).At(k).queue
    ensures j' in s.lanes.At(k).batch || j' in s.lanes.At(k).queue
  {
    match a
    case Receive(l) =>
      if k == l {
        TakenStays(s.lanes.At(l), j');
      }
    case DrainOne(l) =>
      if k == l {
        TakenStays(s.lanes.At(l), j');
      }
    case Filter => FilterKeepsAlive(s.lanes.At(s.consumer.kind).batch, s.db.functions);
    case ZeroCounters => assert k == Critical || k == Activity || k == Telemetry;
    case _ =>
  }

  lemma ConsumerTracks(s: State, a: ConsumerAct, j': Job)
    requires ConsumerCan(s, a) && InOnePlace(s) && Waiting(ConsumerLanes(s, a), j')
    ensures ComesFrom(s, Consume(a), j')
  {
    if a.Transact? && a.outcome.Isolated? {
      PassTracks(s, a.outcome, j');
    } else {
      var k :| j' in ConsumerLanes(s, a).At(k).batch || j' in ConsumerLanes(s, a).At(k).queue;
      OtherActsBringNothing(s, a, k, j');
      assert Waiting(s.lanes, j');
    }
  }

  lemma StepTracks(s: State, st: Step, j': Job)
    requires Can(s, st) && Inv(s) && Waiting(Do(s, st).lanes, j')
    ensures ComesFrom(s, st, j')
  {
    match st
    case Producer(p, a) => ProducerTracks(s, p, a, j');
    case Consume(a) => ConsumerTracks(s, a, j');
    case _ => assert Waiting(s.lanes, j');
  }

  // ---------------------------------------------------------------- whole runs

  lemma {:induction false} TraceIsReachable(states: seq<State>, steps: seq<Step>)
    requires Trace(states, steps)
    ensures Runs(states[0], steps, states[|steps|])
    decreases |steps|
  {
    if steps != [] {
      var n := |steps| - 1;
      TracePrefix(states, steps);
      TraceIsReachable(states[..n + 1], steps[..n]);
    }
  }

  lemma TracePrefix(states: seq<State>, steps: seq<Step>)
    requires Trace(states, steps) && steps != []
    ensures var n := |steps| - 1; Trace(states[..n + 1], steps[..n])
  {
  }

  /** An id that is not published yet has been in no pass. */
  lemma {:induction false} UnpublishedNeverPassed(states: seq<State>, steps: seq<Step>, u: nat)
    requires Trace(states, steps) && u >= states[|steps|].ledger.published
    ensures Passes(states, steps, u) == 0
    decreases |steps|
  {
    if steps != [] {
      var n := |steps| - 1;
      TracePrefix(states, steps);
      TraceKeepsInv(states[..n + 1], steps[..n]);
      PublishedGrows(states[n], steps[n]);
      UnpublishedNeverPassed(states[..n + 1], steps[..n], u);
      if IsPass(states[n], steps[n], u) {
        var j :| j in states[n].lanes.At(states[n].consumer.kind).batch && j.id == u;
        WaitingIsPublished(states[n], j);
      }
    }
  }

  lemma PublishedGrows(s: State, st: Step)
    requires Can(s, st)
    ensures s.ledger.published <= Do(s, st).ledger.published
  {
    if st.Consume? {
      LedgerRecordsTaken(s, st.cact, 0);
    }
  }

  lemma TraceKeepsInv(states: seq<State>, steps: seq<Step>)
    requires Trace(states, steps)
    ensures Inv(states[|steps|])
  {
    TraceIsReachable(states, steps);
    ReachableKeepsInv(states[|steps|]);
  }

  /** Where a job waiting at the end of a run was before its last step: just sent and in no pass yet, or waiting. */
  lemma Origin(states: seq<State>, steps: seq<Step>, j: Job) returns (sent: bool, before: Job)
    requires Trace(states, steps) && steps != [] && Waiting(states[|steps|].lanes, j)
    ensures var n := |steps| - 1;
            if sent then IsSend(states[n], steps[n], j) && Passes(states[..n + 1], steps[..n], j.id) == 0
            else Waiting(states[n].lanes, before) && j == Later(states[n], steps[n], before)
  {
    var n := |steps| - 1;
    TracePrefix(states, steps);
    TraceKeepsInv(states[..n + 1], steps[..n]);
    StepTracks(states[n], steps[n], j);
    before := j;
    sent := !exists w :: Waiting(states[n].lanes, w) && j == Later(states[n], steps[n], w);
    if sent {
      UnpublishedNeverPassed(states[..n + 1], steps[..n], j.id);
    } else {
      before :| Waiting(states[n].lanes, before) && j == Later(states[n], steps[n], before);
    }
  }

  lemma WaitingBelowLimit(states: seq<State>, steps: seq<Step>, j: Job)
    requires Trace(states, steps) && Waiting(states[|steps|].lanes, j)
    ensures j.attempts < MAX_JOB_ATTEMPTS
  {
    TraceKeepsInv(states, steps);
    BelowLimit(states[|steps|], j);
  }

  /** A waiting job's attempts are the isolation passes it has been in. */
  lemma {:induction false} AttemptsArePasses(states: seq<State>, steps: seq<Step>, j: Job)
    requires Trace(states, steps) && Waiting(states[|steps|].lanes, j)
    ensures j.attempts == Passes(states, steps, j.id) < MAX_JOB_ATTEMPTS
    decreases |steps|
  {
    WaitingBelowLimit(states, steps, j);
    NobodyWaitsAtFirst(states[0], j);
    if steps != [] {
      var n := |steps| - 1;
      var sent, before := Origin(states, steps, j);
      if !sent {
        TracePrefix(states, steps);
        AttemptsArePasses(states[..n + 1], steps[..n], before);
      }
    }
  }

  lemma NobodyWaitsAtFirst(s: State, j: Job)
    requires Init(s)
    ensures !Waiting(s.lanes, j)
  {
    forall k ensures s.lanes.At(k) == EMPTY_LANE {
    }
  }

  lemma NewIdsDoNotPass(s: State, st: Step, u: nat)
    requires Inv(s) && u >= s.ledger.published
    ensures !IsPass(s, st, u)
  {
    if IsPass(s, st, u) {
      var j :| j in s.lanes.At(s.consumer.kind).batch && j.id == u;
      WaitingIsPublished(s, j);
    }
  }

  lemma BelowLimit(s: State, j: Job)
    requires Shaped(s) && Waiting(s.lanes, j)
    ensures j.attempts < MAX_JOB_ATTEMPTS
  {
    var k :| j in s.lanes.At(k).batch || j in s.lanes.At(k).queue;
    assert LaneFits(k, s.lanes.At(k), |s.slots.leases|);
  }

  /**
   In every run, whatever the database answers and whatever filters, failed commits and drains come in between,
   a job takes part in at most three completed isolation passes, and after the third it is resolved.
   */
  lemma {:induction false} AtMostThreePasses(states: seq<State>, steps: seq<Step>, u: nat)
    requires Trace(states, steps)
    ensures Passes(states, steps, u) <= MAX_JOB_ATTEMPTS
    ensures Passes(states, steps, u) == MAX_JOB_ATTEMPTS ==> Resolutions(states[|steps|].ledger, u) == 1
    decreases |steps|
  {
    if steps != [] {
      var n := |steps| - 1;
      TracePrefix(states, steps);
      AtMostThreePasses(states[..n + 1], steps[..n], u);
      if IsPass(states[n], steps[n], u) {
        var j :| j in states[n].lanes.At(states[n].consumer.kind).batch && j.id == u;
        assert Waiting(states[n].lanes, j);
        AttemptsArePasses(states[..n + 1], steps[..n], j);
      }
    }
    if Passes(states, steps, u) == MAX_JOB_ATTEMPTS {
      PassedOutIsResolved(states, steps, u);
    }
  }

  lemma PassedOutIsResolved(states: seq<State>, steps: seq<Step>, u: nat)
    requires Trace(states, steps) && Passes(states, steps, u) == MAX_JOB_ATTEMPTS
    ensures Resolutions(states[|steps|].ledger, u) == 1
  {
    var s := states[|steps|];
    TraceKeepsInv(states, steps);
    if u >= s.ledger.published {
      UnpublishedNeverPassed(states, steps, u);
    }
    assert Places(s, u) == 1;
    forall j | Waiting(s.lanes, j) ensures j.id != u {
      AttemptsArePasses(states, steps, j);
    }
    NobodyWaits(s.lanes, u);
  }

  lemma NobodyWaits(ls: Lanes, u: nat)
    requires forall j :: Waiting(ls, j) ==> j.id != u
    ensures InLanes(ls, HasId(u)) == 0
  {
    forall k ensures Sum(ls.At(k).batch, HasId(u)) == 0 && Sum(ls.At(k).queue, HasId(u)) == 0 {
      forall j | j in ls.At(k).batch || j in ls.At(k).queue ensures j.id != u {
        assert Waiting(ls, j);
      }
      SumOfZeros(ls.At(k).batch, HasId(u));
      SumOfZeros(ls.At(k).queue, HasId(u));
    }
    LanesAdd(ls, u);
  }
}
