/** Every lease the writer owns belongs to exactly one job, so queued work never exceeds the slots. */
module WriterOwnership {
  import opened Counting
  import opened Wrappers
  import opened WriterBatch
  import opened WriterProtocol
  import opened WriterInvariants

  /** The phases of a producer whose lease is transferred but whose job is not queued. */
  predicate Owning(p: Phase) {
    || (p.Sending? && p.kind == Critical)
    || ((p.Refunding? || p.Leaving? || p.Left?) && p.exit == FinishIt)
  }

  function Owned(p: Phase): int { if Owning(p) then 1 else 0 }

  function Leased(j: Job): int { if j.lease.Some? then 1 else 0 }

  function OwnsLease(l: nat): Phase -> int {
    (p: Phase) => if Owning(p) && p.job.lease == Some(l) then 1 else 0
  }

  function HasLease(l: nat): Job -> int {
    (j: Job) => if j.lease == Some(l) then 1 else 0
  }

  /** How many producers, lanes and pending releases hold lease `l` as the writer's. */
  function Holders(s: State, l: nat): int {
    Sum(s.producers, OwnsLease(l)) + InLanes(s.lanes, HasLease(l)) + Sum(Pending(s.consumer), HasLease(l))
  }

  ghost predicate OneHolder(s: State) {
    forall l :: 0 <= l < |s.slots.leases| ==> Holders(s, l) == InWriter(s.slots.leases[l])
  }

  /** The writer owns as many leases as there are unresolved critical jobs. */
  ghost predicate HoldersCounted(s: State) {
    Sum(s.producers, Owned) + InLanes(s.lanes, Leased) + Sum(Pending(s.consumer), Leased)
    == Sum(s.slots.leases, InWriter)
  }

  lemma LeaseWeightsAreStable(l: nat)
    ensures Stable(HasLease(l)) && Stable(Leased)
  {
  }

  lemma HoldersHaveSign(s: State, l: nat)
    ensures 0 <= Sum(s.producers, OwnsLease(l)) && 0 <= InLanes(s.lanes, HasLease(l))
    ensures 0 <= Sum(Pending(s.consumer), HasLease(l))
  {
    SumHasSign(s.producers, OwnsLease(l));
    SumHasSign(s.lanes.critical.queue, HasLease(l));
    SumHasSign(s.lanes.critical.batch, HasLease(l));
    SumHasSign(s.lanes.activity.queue, HasLease(l));
    SumHasSign(s.lanes.activity.batch, HasLease(l));
    SumHasSign(s.lanes.telemetry.queue, HasLease(l));
    SumHasSign(s.lanes.telemetry.batch, HasLease(l));
    SumHasSign(Pending(s.consumer), HasLease(l));
  }

  /** A lease that does not exist yet has no holder. */
  lemma FreshLeaseUnheld(s: State)
    requires Shaped(s)
    ensures Holders(s, |s.slots.leases|) == 0
  {
    var n := |s.slots.leases|;
    forall p | p in s.producers ensures OwnsLease(n)(p) == 0 {
      var i :| 0 <= i < |s.producers| && s.producers[i] == p;
      assert PhaseFits(s.producers[i], n);
    }
    SumOfZeros(s.producers, OwnsLease(n));
    forall k ensures InLane(s.lanes.At(k), HasLease(n)) == 0 {
      assert LaneFits(k, s.lanes.At(k), n);
      SumOfZeros(s.lanes.At(k).queue, HasLease(n));
      SumOfZeros(s.lanes.At(k).batch, HasLease(n));
    }
    assert InLane(s.lanes.At(Critical), HasLease(n)) == 0;
    assert InLane(s.lanes.At(Activity), HasLease(n)) == 0;
    assert InLane(s.lanes.At(Telemetry), HasLease(n)) == 0;
    SumOfZeros(Pending(s.consumer), HasLease(n));
  }

  /** A producer about to finish or release a transferred lease really owns it. */
  lemma ProducerOwns(s: State, p: nat)
    requires p < |s.producers| && Owning(s.producers[p]) && Shaped(s) && OneHolder(s)
    ensures s.producers[p].job.lease.Some? && s.producers[p].job.lease.value < |s.slots.leases|
    ensures s.slots.leases[s.producers[p].job.lease.value].state == WriterOwned
  {
    assert PhaseFits(s.producers[p], |s.slots.leases|);
    var l := s.producers[p].job.lease.value;
    SumBoundsMember(s.producers, p, OwnsLease(l));
    HoldersHaveSign(s, l);
    assert Holders(s, l) == InWriter(s.slots.leases[l]);
  }

  /** So does the consumer for the next job whose lease it returns. */
  lemma PendingOwns(s: State)
    requires Pending(s.consumer) != [] && Shaped(s) && OneHolder(s)
    requires Pending(s.consumer)[0].lease.Some?
    ensures Pending(s.consumer)[0].lease.value < |s.slots.leases|
    ensures s.slots.leases[Pending(s.consumer)[0].lease.value].state == WriterOwned
  {
    var l := Pending(s.consumer)[0].lease.value;
    assert Fits(s.consumer.kind, Pending(s.consumer)[0], |s.slots.leases|);
    SumBoundsMember(Pending(s.consumer), 0, HasLease(l));
    HoldersHaveSign(s, l);
    assert Holders(s, l) == InWriter(s.slots.leases[l]);
  }

  predicate LeaseAct(a: ProducerAct) { a == Transfer || a == Send || a == FinishLease }

  /** Only a transfer, a send and a release change whether a producer owns its lease. */
  lemma OwningKept(s: State, p: nat, a: ProducerAct)
    requires ProducerCan(s, p, a) && PhaseFits(s.producers[p], |s.slots.leases|) && !LeaseAct(a)
    ensures Owning(ProducerPhase(s, p, a)) <==> Owning(s.producers[p])
    ensures Owning(s.producers[p]) ==> ProducerPhase(s, p, a).job == s.producers[p].job
    ensures forall l :: 0 <= l < |s.slots.leases| ==> ProducerSlots(s, p, a).leases[l] == s.slots.leases[l]
    ensures |s.slots.leases| <= |ProducerSlots(s, p, a).leases|
    ensures forall l :: |s.slots.leases| <= l < |ProducerSlots(s, p, a).leases| ==>
              ProducerSlots(s, p, a).leases[l] == Lease(CallerOwned, 0)
  {
  }

  /** What one producer step does to the holders of one lease and to its state. */
  lemma ProducerKeepsHolder(s: State, p: nat, a: ProducerAct, l: nat)
    requires ProducerCan(s, p, a) && Shaped(s) && OneHolder(s)
    requires l < |ProducerSlots(s, p, a).leases|
    ensures Holders(ProducerDo(s, p, a), l) == InWriter(ProducerSlots(s, p, a).leases[l])
  {
    SumUpdate(s.producers, p, ProducerPhase(s, p, a), OwnsLease(l));
    ProducerMovesJobs(s, p, a, HasLease(l));
    assert PhaseFits(s.producers[p], |s.slots.leases|);
    if LeaseAct(a) {
      LeaseActKeepsHolder(s, p, a, l);
    } else {
      OwningKept(s, p, a);
      if l < |s.slots.leases| {
        assert Holders(s, l) == InWriter(s.slots.leases[l]);
      } else {
        FreshLeaseUnheld(s);
      }
    }
  }

  /** The lease of a job that a producer owns is in the writer's hands. */
  predicate LeaseIsOwned(s: State, p: nat)
    requires p < |s.producers|
  {
    Owning(s.producers[p]) ==>
      var lease := s.producers[p].job.lease;
      lease.Some? && lease.value < |s.slots.leases| && s.slots.leases[lease.value].state == WriterOwned
  }

  /** The acting producer's share of lease `l` moves with the state of that lease. */
  lemma LeaseActKeepsHolder(s: State, p: nat, a: ProducerAct, l: nat)
    requires ProducerCan(s, p, a) && Shaped(s) && OneHolder(s) && LeaseAct(a) && l < |s.slots.leases|
    ensures |ProducerSlots(s, p, a).leases| == |s.slots.leases|
    ensures OwnsLease(l)(ProducerPhase(s, p, a)) - OwnsLease(l)(s.producers[p])
         == InWriter(ProducerSlots(s, p, a).leases[l]) - InWriter(s.slots.leases[l])
            - if a == Send then HasLease(l)(s.producers[p].job) else 0
    ensures Holders(s, l) == InWriter(s.slots.leases[l])
  {
    assert PhaseFits(s.producers[p], |s.slots.leases|);
    assert Holders(s, l) == InWriter(s.slots.leases[l]);
    if Owning(s.producers[p]) {
      ProducerOwns(s, p);
    }
    LeaseActMovesOwner(s, p, a, l);
  }

  lemma LeaseActMovesOwner(s: State, p: nat, a: ProducerAct, l: nat)
    requires ProducerCan(s, p, a) && PhaseFits(s.producers[p], |s.slots.leases|) && LeaseAct(a) && l < |s.slots.leases|
    requires LeaseIsOwned(s, p)
    ensures |ProducerSlots(s, p, a).leases| == |s.slots.leases|
    ensures OwnsLease(l)(ProducerPhase(s, p, a)) - OwnsLease(l)(s.producers[p])
         == InWriter(ProducerSlots(s, p, a).leases[l]) - InWriter(s.slots.leases[l])
            - if a == Send then HasLease(l)(s.producers[p].job) else 0
  {
  }

  lemma ConsumerKeepsHolder(s: State, a: ConsumerAct, l: nat)
    requires ConsumerCan(s, a) && Shaped(s) && OneHolder(s)
    requires l < |s.slots.leases|
    ensures Holders(ConsumerDo(s, a), l) == InWriter(ConsumerSlots(s, a).leases[l])
  {
    LeaseWeightsAreStable(l);
    ConsumerConserves(s, a, HasLease(l));
    assert Holders(s, l) == InWriter(s.slots.leases[l]);
    if a == ReleaseNext && s.consumer.pending[0].lease.Some? {
      PendingOwns(s);
    }
  }

  lemma OneHolderKept(s: State, st: Step)
    requires Can(s, st) && Shaped(s) && OneHolder(s)
    ensures OneHolder(Do(s, st))
  {
    forall l | 0 <= l < |Do(s, st).slots.leases|
      ensures Holders(Do(s, st), l) == InWriter(Do(s, st).slots.leases[l])
    {
      match st
      case Producer(p, a) => ProducerKeepsHolder(s, p, a, l);
      case Consume(a) => ConsumerKeepsHolder(s, a, l);
      case _ => assert Holders(s, l) == InWriter(s.slots.leases[l]);
    }
  }

  lemma SwapCounts(sl: Slots, lease: Option<nat>, from: LeaseState, to: LeaseState)
    ensures var hit := lease.Some? && lease.value < |sl.leases| && sl.leases[lease.value].state == from;
            Sum(SwapLease(sl, lease, from, to).leases, InWriter) == Sum(sl.leases, InWriter)
            + if hit then (if to == WriterOwned then 1 else 0) - (if from == WriterOwned then 1 else 0) else 0
  {
    if lease.Some? && lease.value < |sl.leases| {
      SumUpdate(sl.leases, lease.value, SwapLease(sl, lease, from, to).leases[lease.value], InWriter);
    }
  }

  /** The acting producer's share of the count moves with the leases in the writer's hands. */
  ghost predicate CountShifts(s: State, p: nat, a: ProducerAct)
    requires ProducerCan(s, p, a)
  {
    Owned(ProducerPhase(s, p, a)) - Owned(s.producers[p])
    == Sum(ProducerSlots(s, p, a).leases, InWriter) - Sum(s.slots.leases, InWriter)
       - if a == Send then Leased(s.producers[p].job) else 0
  }

  lemma TransferShiftsCount(s: State, p: nat)
    requires ProducerCan(s, p, Transfer) && PhaseFits(s.producers[p], |s.slots.leases|)
    ensures CountShifts(s, p, Transfer)
  {
    SwapCounts(s.slots, s.producers[p].job.lease, CallerOwned, WriterOwned);
  }

  lemma ReleaseShiftsCount(s: State, p: nat)
    requires ProducerCan(s, p, FinishLease) && PhaseFits(s.producers[p], |s.slots.leases|)
    requires LeaseIsOwned(s, p)
    ensures CountShifts(s, p, FinishLease)
  {
    var at := s.producers[p];
    if at.exit == FinishIt {
      SwapCounts(s.slots, at.job.lease, WriterOwned, Released);
    } else if at.exit == CancelIt {
      SwapCounts(s.slots, at.job.lease, CallerOwned, Released);
    }
  }

  lemma FinishShiftsCount(s: State, p: nat)
    requires ProducerCan(s, p, FinishLease) && Shaped(s) && OneHolder(s)
    ensures CountShifts(s, p, FinishLease)
  {
    assert PhaseFits(s.producers[p], |s.slots.leases|);
    if Owning(s.producers[p]) {
      ProducerOwns(s, p);
    }
    ReleaseShiftsCount(s, p);
  }

  lemma OtherwiseCountStays(s: State, p: nat, a: ProducerAct)
    requires ProducerCan(s, p, a) && PhaseFits(s.producers[p], |s.slots.leases|)
    requires a != Transfer && a != FinishLease && a != Send
    ensures CountShifts(s, p, a)
  {
    OwningKept(s, p, a);
    var was, now := s.slots.leases, ProducerSlots(s, p, a).leases;
    assert now == was + now[|was|..];
    SumConcat(was, now[|was|..], InWriter);
    SumOfZeros(now[|was|..], InWriter);
  }

  lemma SendShiftsCount(s: State, p: nat)
    requires ProducerCan(s, p, Send) && PhaseFits(s.producers[p], |s.slots.leases|)
    ensures CountShifts(s, p, Send)
  {
  }

  lemma CountAlwaysShifts(s: State, p: nat, a: ProducerAct)
    requires ProducerCan(s, p, a) && Shaped(s) && OneHolder(s)
    ensures CountShifts(s, p, a)
  {
    assert PhaseFits(s.producers[p], |s.slots.leases|);
    if a == Transfer {
      TransferShiftsCount(s, p);
    } else if a == FinishLease {
      FinishShiftsCount(s, p);
    } else if a == Send {
      SendShiftsCount(s, p);
    } else {
      OtherwiseCountStays(s, p, a);
    }
  }

  lemma ProducerKeepsCount(s: State, p: nat, a: ProducerAct)
    requires ProducerCan(s, p, a) && Shaped(s) && OneHolder(s) && HoldersCounted(s)
    ensures HoldersCounted(ProducerDo(s, p, a))
  {
    SumUpdate(s.producers, p, ProducerPhase(s, p, a), Owned);
    ProducerMovesJobs(s, p, a, Leased);
    CountAlwaysShifts(s, p, a);
  }

  lemma ConsumerKeepsCount(s: State, a: ConsumerAct)
    requires ConsumerCan(s, a) && Shaped(s) && OneHolder(s) && HoldersCounted(s)
    ensures HoldersCounted(ConsumerDo(s, a))
  {
    LeaseWeightsAreStable(0);
    ConsumerConserves(s, a, Leased);
    if a == ReleaseNext {
      SwapCounts(s.slots, s.consumer.pending[0].lease, WriterOwned, Released);
      if s.consumer.pending[0].lease.Some? {
        PendingOwns(s);
      }
    }
  }

  lemma CountKept(s: State, st: Step)
    requires Can(s, st) && Shaped(s) && OneHolder(s) && HoldersCounted(s)
    ensures HoldersCounted(Do(s, st))
  {
    match st
    case Producer(p, a) => ProducerKeepsCount(s, p, a);
    case Consume(a) => ConsumerKeepsCount(s, a);
    case Cancel(l) => SwapCounts(s.slots, Some(l), CallerOwned, Released);
    case _ =>
  }

  /** Queued critical jobs are counted by their leases. */
  lemma {:induction false} LeasedCountsJobs(jobs: seq<Job>)
    requires forall j :: j in jobs ==> j.lease.Some?
    ensures Sum(jobs, Leased) == |jobs|
  {
    if jobs != [] {
      LeasedCountsJobs(jobs[..|jobs| - 1]);
    }
  }

  /**
   A producer holding a transferred lease finds room in the critical channel: its own lease and
   those of the queued jobs are all outstanding, and there are no more slots than channel places.
   */
  lemma SendHasRoom(s: State, p: nat)
    requires Shaped(s) && HoldersCounted(s) && SlotsConserved(s.slots, s.producers)
    requires p < |s.producers| && s.producers[p].Sending? && s.producers[p].kind == Critical
    ensures |s.lanes.critical.queue| < SLOTS
  {
    assert LaneFits(Critical, s.lanes.At(Critical), |s.slots.leases|);
    LeasedCountsJobs(s.lanes.critical.queue);
    SumBoundsMember(s.producers, p, Owned);
    SumHasSign(s.lanes.critical.batch, Leased);
    SumHasSign(s.lanes.activity.queue, Leased);
    SumHasSign(s.lanes.activity.batch, Leased);
    SumHasSign(s.lanes.telemetry.queue, Leased);
    SumHasSign(s.lanes.telemetry.batch, Leased);
    SumHasSign(Pending(s.consumer), Leased);
    SumCompare(s.slots.leases, InWriter, Outstanding);
    SumHasSign(s.producers, SlotHeld);
  }
}
