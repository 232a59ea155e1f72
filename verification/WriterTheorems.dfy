/** The asynchronous writer's promises, for every reachable state and every run. */
module WriterTheorems {
  import opened Counting
  import opened Wrappers
  import opened WriterBatch
  import opened WriterProtocol
  import opened WriterInvariants
  import opened WriterOwnership
  import opened WriterBytes
  import opened WriterLedger

  ghost predicate Inv(s: State) {
    && SlotsConserved(s.slots, s.producers) && ReturnedOnce(s.slots)
    && Shaped(s) && OneHolder(s) && HoldersCounted(s)
    && FenceHolds(s) && (forall k :: Accounted(s, k)) && Bounded(s)
    && InOnePlace(s) && EffectOnce(s.db, s.ledger) && Guarded(s) && InOrder(s)
  }

  ghost predicate Reachable(s: State) {
    exists s0, steps :: Init(s0) && Runs(s0, steps, s)
  }

  lemma InitHolds(s: State)
    requires Init(s)
    ensures Inv(s)
  {
    forall p | p in s.producers ensures p == Idle {
    }
    SumOfZeros(s.producers, SlotHeld);
    SumOfZeros(s.producers, Owned);
    forall k: Kind ensures Sum(s.producers, Reserved(k)) == 0 {
      SumOfZeros(s.producers, Reserved(k));
    }
    forall k ensures s.lanes.At(k) == EMPTY_LANE {
    }
  }

  lemma InvKept(s: State, st: Step)
    requires Can(s, st) && Inv(s)
    ensures Inv(Do(s, st))
  {
    SlotsKept(s, st);
    ShapedKept(s, st);
    OneHolderKept(s, st);
    CountKept(s, st);
    FenceKept(s, st);
    forall k ensures Accounted(Do(s, st), k) {
      AccountedKept(s, st, k);
    }
    BoundedKept(s, st);
    InOnePlaceKept(s, st);
    EffectOnceKept(s, st);
    GuardedKept(s, st);
    InOrderKept(s, st);
  }

  lemma {:induction false} EveryRunKeepsInv(s0: State, steps: seq<Step>, s: State)
    requires Inv(s0) && Runs(s0, steps, s)
    ensures Inv(s)
    decreases |steps|
  {
    if steps != [] {
      var n := |steps| - 1;
      var mid :| Runs(s0, steps[..n], mid) && Can(mid, steps[n]) && s == Do(mid, steps[n]);
      EveryRunKeepsInv(s0, steps[..n], mid);
      InvKept(mid, steps[n]);
    }
  }

  lemma ReachableKeepsInv(s: State)
    requires Reachable(s)
    ensures Inv(s)
  {
    var s0, steps :| Init(s0) && Runs(s0, steps, s);
    InitHolds(s0);
    EveryRunKeepsInv(s0, steps, s);
  }

  /**
   Slot conservation: returning a token never blocks, a lease has handed back one token if it is
   released and none before, and a transferred job always finds room in the critical channel.
   */
  lemma SlotsNeverBlock(s: State, p: nat)
    requires Reachable(s)
    ensures s.slots.returning > 0 ==> Can(s, PutBack)
    ensures forall l :: 0 <= l < |s.slots.leases| ==>
              s.slots.leases[l].handedBack == if s.slots.leases[l].state == Released then 1 else 0
    ensures p < |s.producers| && s.producers[p].Sending? && s.producers[p].kind == Critical ==>
              Can(s, Producer(p, Send))
  {
    ReachableKeepsInv(s);
    SumHasSign(s.producers, SlotHeld);
    SumHasSign(s.slots.leases, Outstanding);
    if p < |s.producers| && s.producers[p].Sending? && s.producers[p].kind == Critical {
      SendHasRoom(s, p);
    }
  }

  /**
   The ledger: a published job is in exactly one place, any other id in none; and its statement
   has taken effect exactly once if it is recorded as committed, and not at all otherwise.
   */
  lemma ExactlyOnce(s: State, u: nat)
    requires Reachable(s)
    ensures Places(s, u) == if u < s.ledger.published then 1 else 0
    ensures Sum(s.db.rows, OfJob(u)) + Sum(s.db.erased, OfJob(u)) == Sum(s.ledger.committed, IsId(u)) <= 1
  {
    ReachableKeepsInv(s);
    PlacesHaveSign(s, u);
  }

  lemma PlacesHaveSign(s: State, u: nat)
    ensures 0 <= InLanes(s.lanes, HasId(u)) && Sum(s.ledger.committed, IsId(u)) <= Resolutions(s.ledger, u)
  {
    SumHasSign(s.lanes.critical.queue, HasId(u));
    SumHasSign(s.lanes.critical.batch, HasId(u));
    SumHasSign(s.lanes.activity.queue, HasId(u));
    SumHasSign(s.lanes.activity.batch, HasId(u));
    SumHasSign(s.lanes.telemetry.queue, HasId(u));
    SumHasSign(s.lanes.telemetry.batch, HasId(u));
    SumHasSign(s.ledger.discarded, IsId(u));
    SumHasSign(s.ledger.shed, IsId(u));
    SumHasSign(s.ledger.lost, IsId(u));
  }

  /** Every counter is within its limit, and covers exactly what is held until its last commit. */
  lemma BytesAccounted(s: State, k: Kind)
    requires Reachable(s)
    ensures s.lanes.At(k).bytes <= ByteLimit(k)
    ensures LanesDone(s.consumer) <= Rank(k) ==> 0 <= s.lanes.At(k).bytes == Held(s, k)
    ensures s.consumer.Looping? ==>
              s.lanes.At(k).bytes == Sum(s.producers, Reserved(k))
                + BatchBytes(s.lanes.At(k).queue) + BatchBytes(s.lanes.At(k).batch)
  {
    ReachableKeepsInv(s);
    assert Accounted(s, k);
    HeldHasSign(s, k);
  }

  /** Once `quit` is closed no step publishes a job. */
  lemma FenceStopsPublishing(s: State, st: Step)
    requires Reachable(s) && Closed(s.stop) && Can(s, st)
    ensures Do(s, st).ledger.published == s.ledger.published && Closed(Do(s, st).stop)
  {
    ReachableKeepsInv(s);
    if st.Producer? {
      NoneIsPublishing(s, st.p);
    }
  }

  lemma NoneIsPublishing(s: State, p: nat)
    requires FenceHolds(s) && Closed(s.stop) && p < |s.producers|
    ensures !Publishing(s.producers[p])
  {
  }

  lemma DoneIsEmpty(s: State, k: Kind)
    requires FenceHolds(s) && Accounted(s, k) && s.consumer.Done?
    ensures s.lanes.At(k) == Lane([], [], 0, s.lanes.At(k).stalled)
  {
    NothingReserved(s, k);
    assert Rank(k) < LanesDone(s.consumer);
    assert s.lanes.At(k).queue == [] && s.lanes.At(k).batch == [];
  }

  /** When the drain is over nothing is held, every counter is zero and every job is accounted for. */
  lemma DrainedCompletely(s: State, u: nat)
    requires Reachable(s) && s.consumer.Done?
    ensures forall k :: s.lanes.At(k).queue == s.lanes.At(k).batch == [] && s.lanes.At(k).bytes == 0
    ensures Resolutions(s.ledger, u) == if u < s.ledger.published then 1 else 0
  {
    ReachableKeepsInv(s);
    forall k ensures s.lanes.At(k) == Lane([], [], 0, s.lanes.At(k).stalled) {
      assert Accounted(s, k);
      DoneIsEmpty(s, k);
    }
    EmptyLanesHoldNothing(s, u);
    assert Places(s, u) == if u < s.ledger.published then 1 else 0;
  }

  lemma EmptyLanesHoldNothing(s: State, u: nat)
    requires forall k :: s.lanes.At(k).queue == s.lanes.At(k).batch == []
    ensures InLanes(s.lanes, HasId(u)) == 0
  {
    assert s.lanes.At(Critical).queue == s.lanes.At(Activity).queue == s.lanes.At(Telemetry).queue == [];
  }

  /**
   Deleted-function safety: from the moment a deletion commits, along any run without a new
   insertion of that id, no row carrying it appears and none remains in a table that names it.
   */
  lemma {:induction false} DeletedStaysDeleted(s: State, id: string, steps: seq<Step>, s': State)
    requires Reachable(s) && id != "" && Can(s, DeleteFunction(id))
    requires Runs(Do(s, DeleteFunction(id)), steps, s')
    requires forall i :: 0 <= i < |steps| ==> steps[i] != InsertFunction(id)
    ensures Inv(s') && id !in s'.db.functions && id !in s'.db.live
    ensures forall r :: r in s'.db.rows && r.functionId == id ==> r in Do(s, DeleteFunction(id)).db.rows
    ensures forall r :: r in s'.db.rows && r.table != ExecutionLogs ==> r.functionId != id
    decreases |steps|
  {
    var start := Do(s, DeleteFunction(id));
    ReachableKeepsInv(s);
    if steps == [] {
      InvKept(s, DeleteFunction(id));
      DeletionRemoves(s.db.rows, s.db.rows, id);
    } else {
      var n := |steps| - 1;
      var mid :| Runs(start, steps[..n], mid) && Can(mid, steps[n]) && s' == Do(mid, steps[n]);
      DeletedStaysDeleted(s, id, steps[..n], mid);
      InvKept(mid, steps[n]);
      MissingFunctionGainsNothing(mid, steps[n], id);
    }
    assert Guarded(s');
  }

  /** The deletion itself leaves no row of the function, nor any child row of its executions. */
  lemma DeletionLeavesNothing(s: State, id: string)
    requires Can(s, DeleteFunction(id))
    ensures forall r :: r in Do(s, DeleteFunction(id)).db.rows && r.table != ExecutionLogs ==> r.functionId != id
    ensures forall r, e :: r in Do(s, DeleteFunction(id)).db.rows && r.table != Executions
                           && e in s.db.rows && e.table == Executions && e.functionId == id
                           ==> r.executionId != e.executionId
  {
    DeletionRemoves(s.db.rows, s.db.rows, id);
  }

  /** Outside the drain no batch exceeds 200 jobs, and a commit always sees them in publish order. */
  lemma BatchesBounded(s: State, k: Kind)
    requires Reachable(s)
    ensures BeforeDrain(s.consumer) ==> |s.lanes.At(k).batch| <= BATCH_MAX
    ensures Ascending(s.lanes.At(k).batch + s.lanes.At(k).queue)
  {
    ReachableKeepsInv(s);
    assert InOrder(s);
  }
}
