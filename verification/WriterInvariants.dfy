/** What every step of the writer keeps, and what that says about every run. */
module WriterInvariants {
  import opened Counting
  import opened Wrappers
  import opened WriterBatch
  import opened WriterProtocol

  // ---------------------------------------------------------------- completion slots

  function SlotHeld(p: Phase): int { if p.Slotted? then 1 else 0 }

  function Outstanding(l: Lease): int { if l.state == Released then 0 else 1 }

  function InWriter(l: Lease): int { if l.state == WriterOwned then 1 else 0 }

  /** Every token is in the channel, on its way back, just taken, or behind an unreleased lease. */
  ghost predicate SlotsConserved(sl: Slots, producers: seq<Phase>) {
    sl.tokens + sl.returning + Sum(producers, SlotHeld) + Sum(sl.leases, Outstanding) == SLOTS
  }

  /** A lease has handed its token back exactly once if it is released and never otherwise. */
  ghost predicate ReturnedOnce(sl: Slots) {
    forall l :: 0 <= l < |sl.leases| ==> sl.leases[l].handedBack == (if sl.leases[l].state == Released then 1 else 0)
  }

  lemma SwapKeepsSlots(sl: Slots, lease: Option<nat>, from: LeaseState, to: LeaseState)
    requires from != Released && ReturnedOnce(sl)
    ensures var sl' := SwapLease(sl, lease, from, to);
            && sl'.tokens == sl.tokens && |sl'.leases| == |sl.leases| && ReturnedOnce(sl')
            && sl'.returning + Sum(sl'.leases, Outstanding) == sl.returning + Sum(sl.leases, Outstanding)
  {
    if lease.Some? && lease.value < |sl.leases| {
      SumUpdate(sl.leases, lease.value, SwapLease(sl, lease, from, to).leases[lease.value], Outstanding);
    }
  }

  lemma SwappingKeepsSlots(s: State, p: nat, a: ProducerAct)
    requires ProducerCan(s, p, a) && SlotsConserved(s.slots, s.producers) && ReturnedOnce(s.slots)
    requires a == Transfer || a == FinishLease
    ensures SlotsConserved(ProducerSlots(s, p, a), s.producers[p := ProducerPhase(s, p, a)])
    ensures ReturnedOnce(ProducerSlots(s, p, a))
  {
    var at := s.producers[p];
    SumUpdate(s.producers, p, ProducerPhase(s, p, a), SlotHeld);
    SwapKeepsSlots(s.slots, at.job.lease, CallerOwned, WriterOwned);
    SwapKeepsSlots(s.slots, at.job.lease, CallerOwned, Released);
    SwapKeepsSlots(s.slots, at.job.lease, WriterOwned, Released);
  }

  lemma ProducerKeepsSlots(s: State, p: nat, a: ProducerAct)
    requires ProducerCan(s, p, a) && SlotsConserved(s.slots, s.producers) && ReturnedOnce(s.slots)
    ensures SlotsConserved(ProducerSlots(s, p, a), s.producers[p := ProducerPhase(s, p, a)])
    ensures ReturnedOnce(ProducerSlots(s, p, a))
  {
    if a == Transfer || a == FinishLease {
      SwappingKeepsSlots(s, p, a);
    } else {
      SumUpdate(s.producers, p, ProducerPhase(s, p, a), SlotHeld);
      SumAppend(s.slots.leases, Lease(CallerOwned, 0), Outstanding);
    }
  }

  lemma SlotsKept(s: State, st: Step)
    requires Can(s, st) && SlotsConserved(s.slots, s.producers) && ReturnedOnce(s.slots)
    ensures var s' := Do(s, st); SlotsConserved(s'.slots, s'.producers) && ReturnedOnce(s'.slots)
  {
    match st
    case Producer(p, a) => ProducerKeepsSlots(s, p, a);
    case Consume(a) =>
      if a == ReleaseNext {
        SwapKeepsSlots(s.slots, s.consumer.pending[0].lease, WriterOwned, Released);
      }
    case Cancel(l) => SwapKeepsSlots(s.slots, Some(l), CallerOwned, Released);
    case _ =>
  }

  // ---------------------------------------------------------------- the shape of jobs in flight

  predicate PhaseFits(p: Phase, leases: nat) {
    match p
    case Idle => true
    case Slotted => true
    case Budgeted(j) => Fits(Critical, j, leases) && j.attempts == 0
    case Loaded(k, j, seen) =>
      Fits(k, j, leases) && j.attempts == 0 && 0 <= seen <= ByteLimit(k) - j.bytes
    case _ =>
      && Fits(p.kind, p.job, leases) && p.job.attempts == 0
      && ((p.Refunding? || p.Leaving? || p.Left?) ==> p.exit == LeaveIt || p.kind == Critical)
      && (p.Refunding? ==> p.exit != CancelIt)
  }

  function Pending(c: Consumer): seq<Job> {
    if c.Discarding? || c.Settling? || c.Failing? then c.pending else []
  }

  predicate JobsFit(k: Kind, jobs: seq<Job>, leases: nat, attempts: nat) {
    forall j :: j in jobs ==> Fits(k, j, leases) && j.attempts < attempts
  }

  predicate LaneFits(k: Kind, l: Lane, leases: nat) {
    JobsFit(k, l.queue, leases, 1) && JobsFit(k, l.batch, leases, MAX_JOB_ATTEMPTS)
  }

  ghost predicate ProducersFit(producers: seq<Phase>, leases: nat) {
    forall i :: 0 <= i < |producers| ==> PhaseFits(producers[i], leases)
  }

  ghost predicate LanesFit(ls: Lanes, leases: nat) {
    forall k :: LaneFits(k, ls.At(k), leases)
  }

  ghost predicate PendingFits(c: Consumer, leases: nat) {
    Pending(c) != [] ==> JobsFit(c.kind, Pending(c), leases, MAX_JOB_ATTEMPTS)
  }

  ghost predicate Shaped(s: State) {
    var n := |s.slots.leases|;
    ProducersFit(s.producers, n) && LanesFit(s.lanes, n) && PendingFits(s.consumer, n)
  }

  lemma ProducerKeepsShape(s: State, p: nat, a: ProducerAct)
    requires ProducerCan(s, p, a) && Shaped(s)
    ensures Shaped(ProducerDo(s, p, a))
  {
    var n := |ProducerSlots(s, p, a).leases|;
    assert |s.slots.leases| <= n;
    assert PhaseFits(s.producers[p], |s.slots.leases|);
    assert PhaseFits(ProducerPhase(s, p, a), n);
    forall k ensures LaneFits(k, ProducerLanes(s, p, a).At(k), n) {
      assert LaneFits(k, s.lanes.At(k), |s.slots.leases|);
    }
  }

  lemma PassFits(k: Kind, work: seq<Job>, verdicts: seq<Verdict>, leases: nat)
    requires |verdicts| == |work| && JobsFit(k, work, leases, MAX_JOB_ATTEMPTS)
    ensures JobsFit(k, Retry(work, verdicts), leases, MAX_JOB_ATTEMPTS)
    ensures JobsFit(k, Resolved(work, verdicts), leases, MAX_JOB_ATTEMPTS)
  {
    RetryAdvances(work, verdicts);
    forall r | r in Retry(work, verdicts) ensures Fits(k, r, leases) && r.attempts < MAX_JOB_ATTEMPTS {
      var i :| 0 <= i < |work| && !Settled(work[i], verdicts[i]) && r == Tried(work[i]);
      assert work[i] in work;
    }
  }

  lemma ConsumerKeepsLanes(s: State, a: ConsumerAct, n: nat)
    requires ConsumerCan(s, a) && LanesFit(s.lanes, n)
    ensures LanesFit(ConsumerLanes(s, a), n)
  {
    var c := s.consumer;
    if a.Filter? {
      assert LaneFits(c.kind, s.lanes.At(c.kind), n);
      FilterKeepsAlive(s.lanes.At(c.kind).batch, s.db.functions);
    } else if a.Transact? && a.outcome.Isolated? {
      assert LaneFits(c.kind, s.lanes.At(c.kind), n);
      PassFits(c.kind, s.lanes.At(c.kind).batch, a.outcome.verdicts, n);
    }
    forall k ensures LaneFits(k, ConsumerLanes(s, a).At(k), n) {
      assert LaneFits(k, s.lanes.At(k), n);
    }
  }

  lemma ConsumerKeepsPending(s: State, a: ConsumerAct, n: nat)
    requires ConsumerCan(s, a) && LanesFit(s.lanes, n) && PendingFits(s.consumer, n)
    ensures PendingFits(ConsumerPhase(s, a), n)
  {
    var c := s.consumer;
    if a.Filter? || a.Transact? || a.Finish? {
      assert LaneFits(c.kind, s.lanes.At(c.kind), n);
    }
    if a.Filter? {
      FilterKeepsAlive(s.lanes.At(c.kind).batch, s.db.functions);
    } else if a.Transact? && a.outcome.Isolated? {
      PassFits(c.kind, s.lanes.At(c.kind).batch, a.outcome.verdicts, n);
    }
  }

  lemma ShapedKept(s: State, st: Step)
    requires Can(s, st) && Shaped(s)
    ensures Shaped(Do(s, st))
  {
    match st
    case Producer(p, a) => ProducerKeepsShape(s, p, a);
    case Consume(a) =>
      ConsumerKeepsLanes(s, a, |s.slots.leases|);
      ConsumerKeepsPending(s, a, |s.slots.leases|);
    case _ =>
  }

  // ---------------------------------------------------------------- jobs moving between places

  function InLane(l: Lane, w: Job -> int): int { Sum(l.queue, w) + Sum(l.batch, w) }

  function InLanes(ls: Lanes, w: Job -> int): int {
    InLane(ls.critical, w) + InLane(ls.activity, w) + InLane(ls.telemetry, w)
  }

  /** The jobs a consumer's act takes out of the lanes for good. */
  function Taken(s: State, a: ConsumerAct): seq<Job>
    requires ConsumerCan(s, a)
  {
    var c := s.consumer;
    match a
    case Filter => Gone(s.lanes.At(c.kind).batch, s.db.functions)
    case Transact(o) => ResolvedOf(s.lanes.At(c.kind).batch, o)
    case Finish => if c.Returned? && c.final then s.lanes.At(c.kind).batch else []
    case _ => []
  }

  lemma WithWeighs(ls: Lanes, k: Kind, l: Lane, w: Job -> int)
    ensures InLanes(ls.With(k, l), w) == InLanes(ls, w) - InLane(ls.At(k), w) + InLane(l, w)
  {
  }

  lemma TakeOneKeeps(ls: Lanes, k: Kind, w: Job -> int)
    requires ls.At(k).queue != []
    ensures InLanes(ls.With(k, TakeOne(ls.At(k))), w) == InLanes(ls, w)
  {
    WithWeighs(ls, k, TakeOne(ls.At(k)), w);
    SumHead(ls.At(k).queue, w);
    SumAppend(ls.At(k).batch, ls.At(k).queue[0], w);
  }

  /** Between a send and its resolution a job stays in the lanes, whatever a stable weight measures. */
  lemma ConsumerMovesJobs(s: State, a: ConsumerAct, w: Job -> int)
    requires ConsumerCan(s, a) && Stable(w)
    ensures InLanes(ConsumerLanes(s, a), w) + Sum(Taken(s, a), w) == InLanes(s.lanes, w)
  {
    var c := s.consumer;
    match a
    case Receive(k) => TakeOneKeeps(s.lanes, k, w);
    case DrainOne(k) => TakeOneKeeps(s.lanes, k, w);
    case Filter =>
      WithWeighs(s.lanes, c.kind, ConsumerLanes(s, a).At(c.kind), w);
      FilterPartitions(s.lanes.At(c.kind).batch, s.db.functions, w);
    case Transact(o) =>
      WithWeighs(s.lanes, c.kind, ConsumerLanes(s, a).At(c.kind), w);
      if o.Isolated? {
        PassPartitions(s.lanes.At(c.kind).batch, o.verdicts, w);
      }
    case Finish =>
      if c.Returned? {
        WithWeighs(s.lanes, c.kind, ConsumerLanes(s, a).At(c.kind), w);
      }
    case _ =>
  }

  /** A job taken out of the lanes waits for its lease to be returned, and only then is let go. */
  lemma ConsumerConserves(s: State, a: ConsumerAct, w: Job -> int)
    requires ConsumerCan(s, a) && Stable(w)
    ensures InLanes(ConsumerLanes(s, a), w) + Sum(Pending(ConsumerPhase(s, a)), w)
         == InLanes(s.lanes, w) + Sum(Pending(s.consumer), w)
            - if a == ReleaseNext then w(s.consumer.pending[0]) else 0
  {
    ConsumerMovesJobs(s, a, w);
    if a == ReleaseNext {
      SumHead(s.consumer.pending, w);
    } else {
      PendingGains(s, a);
      SumConcat(Pending(s.consumer), Taken(s, a), w);
    }
  }

  lemma PendingGains(s: State, a: ConsumerAct)
    requires ConsumerCan(s, a) && a != ReleaseNext
    ensures Pending(ConsumerPhase(s, a)) == Pending(s.consumer) + Taken(s, a)
  {
  }

  lemma ProducerMovesJobs(s: State, p: nat, a: ProducerAct, w: Job -> int)
    requires ProducerCan(s, p, a)
    ensures InLanes(ProducerLanes(s, p, a), w) == InLanes(s.lanes, w)
            + if a == Send then w(s.producers[p].job.(id := s.ledger.published)) else 0
  {
    if a == Send {
      SumAppend(s.lanes.At(s.producers[p].kind).queue, s.producers[p].job.(id := s.ledger.published), w);
    }
  }
}
