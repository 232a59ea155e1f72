/** That the writer does its work: what fits is admitted, published, and can be committed. */
module WriterProgress {
  import opened Counting
  import opened Wrappers
  import opened WriterBatch
  import opened WriterProtocol
  import opened WriterInvariants
  import opened WriterBytes
  import opened WriterTheorems
  import opened WriterFates

  // ---------------------------------------------------------------- runs

  lemma OneStep(s: State, st: Step)
    requires Can(s, st)
    ensures Runs(s, [st], Do(s, st))
  {
    assert [st][..0] == [];
    assert Runs(s, [st][..0], s);
  }

  /** One more step at the end of a run. */
  lemma Then(s: State, steps: seq<Step>, t: State, st: Step)
    requires Runs(s, steps, t) && Can(t, st)
    ensures Runs(s, steps + [st], Do(t, st))
  {
    assert (steps + [st])[..|steps|] == steps;
  }

  /** Where the last step of the second run starts, and that both runs up to there make up the joined one. */
  lemma LastStep(s: State, a: seq<Step>, t: State, b: seq<Step>, u: State) returns (mid: State)
    requires Runs(t, b, u) && b != []
    ensures Runs(t, b[..|b| - 1], mid)
    ensures Runs(s, a + b[..|b| - 1], mid) ==> Runs(s, a + b, u)
  {
    var n := |b| - 1;
    mid :| Runs(t, b[..n], mid) && Can(mid, b[n]) && u == Do(mid, b[n]);
    assert (a + b)[..|a + b| - 1] == a + b[..n];
  }

  /** One run after another. */
  lemma {:induction false} Follow(s: State, a: seq<Step>, t: State, b: seq<Step>, u: State)
    requires Runs(s, a, t) && Runs(t, b, u)
    ensures Runs(s, a + b, u)
    decreases |b|
  {
    if b == [] {
      assert a + b == a;
    } else {
      var mid := LastStep(s, a, t, b, u);
      Follow(s, a, t, b[..|b| - 1], mid);
    }
  }

  lemma StillReachable(s: State, steps: seq<Step>, t: State)
    requires Reachable(s) && Runs(s, steps, t)
    ensures Reachable(t)
  {
    var s0, before :| Init(s0) && Runs(s0, before, s);
    Follow(s0, before, s, steps, t);
  }

  // ---------------------------------------------------------------- admission

  /** The budgets: 64, 8 and 32 MiB. */
  function Budget(k: Kind): nat { (match k case Critical => 64 case Activity => 8 case Telemetry => 32) * 1024 * 1024 }

  /**
   In every reachable state a producer that loads its lane's counter goes on exactly if the bytes held for the lane,
   with its own, are within the budget.
   */
  lemma AdmittedIff(s: State, p: nat)
    requires Reachable(s) && Can(s, Producer(p, LoadBytes))
    ensures var at := s.producers[p];
            Do(s, Producer(p, LoadBytes)).producers[p].Loaded? <==> Held(s, at.kind) + at.job.bytes <= Budget(at.kind)
  {
    var k := s.producers[p].kind;
    ReachableKeepsInv(s);
    assert Publishing(s.producers[p]);
    assert Accounted(s, k);
    HeldHasSign(s, k);
  }

  /** A write that may begin: its producer is free, there is room for it, and a critical one holds its lease. */
  ghost predicate MayBegin(s: State, p: nat, k: Kind, j: Job) {
    && s.stop == Open && p < |s.producers| && s.producers[p] == Idle
    && j.attempts == 0 && Fits(k, j, |s.slots.leases|) && (k == Critical ==> CallerHolds(s.slots, j.lease))
    && |s.lanes.At(k).queue| < 1024 && Held(s, k) + j.bytes <= Budget(k)
  }

  /** The producer is where its reservation leaves it, and nothing but the counter has changed. */
  ghost predicate HasReserved(s: State, t: State, p: nat, k: Kind, j: Job) {
    && p < |s.producers|
    && t == s.(producers := s.producers[p := if k == Critical then Budgeted(j) else Sending(k, j)],
               lanes := s.lanes.With(k, s.lanes.At(k).(bytes := s.lanes.At(k).bytes + j.bytes)))
  }

  lemma Enters(s: State, p: nat, k: Kind, j: Job) returns (steps: seq<Step>, t: State)
    requires Reachable(s) && MayBegin(s, p, k, j)
    ensures Runs(s, steps, t) && t == s.(producers := s.producers[p := Admitted(k, j)])
    ensures forall st :: st in steps ==> st.Producer? && st.p == p
  {
    OneStep(s, Producer(p, Enter(k, j)));
    var entered := s.(producers := s.producers[p := Entered(k, j)]);
    assert Do(s, Producer(p, Enter(k, j))) == entered;
    Then(s, [Producer(p, Enter(k, j))], entered, Producer(p, CheckStop));
    steps := [Producer(p, Enter(k, j))] + [Producer(p, CheckStop)];
    t := s.(producers := s.producers[p := Admitted(k, j)]);
    assert Do(entered, Producer(p, CheckStop)) == t;
  }

  lemma HeldIsCounted(s: State, k: Kind)
    requires Reachable(s) && s.stop == Open
    ensures 0 <= s.lanes.At(k).bytes == Held(s, k)
  {
    ReachableKeepsInv(s);
    assert Accounted(s, k);
    HeldHasSign(s, k);
  }

  lemma Reserves(s: State, p: nat, k: Kind, j: Job) returns (steps: seq<Step>, t: State)
    requires p < |s.producers| && s.producers[p] == Admitted(k, j)
    requires 0 <= s.lanes.At(k).bytes && s.lanes.At(k).bytes + j.bytes <= Budget(k)
    ensures Runs(s, steps, t) && HasReserved(s, t, p, k, j)
    ensures forall st :: st in steps ==> st.Producer? && st.p == p
  {
    OneStep(s, Producer(p, LoadBytes));
    var loaded := s.(producers := s.producers[p := Loaded(k, j, s.lanes.At(k).bytes)]);
    assert Do(s, Producer(p, LoadBytes)) == loaded;
    Then(s, [Producer(p, LoadBytes)], loaded, Producer(p, SwapBytes));
    steps := [Producer(p, LoadBytes)] + [Producer(p, SwapBytes)];
    t := Do(loaded, Producer(p, SwapBytes));
    assert loaded.producers[p := t.producers[p]] == s.producers[p := t.producers[p]];
  }

  /** The lease of a critical job becomes the writer's. */
  lemma Transfers(s: State, p: nat, j: Job) returns (steps: seq<Step>, t: State)
    requires p < |s.producers| && s.producers[p] == Budgeted(j) && CallerHolds(s.slots, j.lease)
    ensures Runs(s, steps, t) && t.producers == s.producers[p := Sending(Critical, j)]
    ensures t == s.(producers := t.producers, slots := t.slots)
    ensures forall st :: st in steps ==> st.Producer? && st.p == p
  {
    OneStep(s, Producer(p, Transfer));
    steps := [Producer(p, Transfer)];
    t := Do(s, Producer(p, Transfer));
  }

  /** A job that was sent is the last of its queue, under the next id. */
  ghost predicate Published(s: State, t: State, k: Kind, j: Job) {
    && t.ledger == s.ledger.(published := s.ledger.published + 1) && t.stop == s.stop
    && t.consumer == s.consumer && t.db == s.db && t.lanes.At(k).batch == s.lanes.At(k).batch
    && t.lanes.At(k).queue == s.lanes.At(k).queue + [j.(id := s.ledger.published)]
    && forall other :: other != k ==> t.lanes.At(other) == s.lanes.At(other)
  }

  lemma Sends(s: State, p: nat, k: Kind, j: Job) returns (steps: seq<Step>, t: State)
    requires p < |s.producers| && s.producers[p] == Sending(k, j) && |s.lanes.At(k).queue| < 1024
    ensures Runs(s, steps, t) && Published(s, t, k, j)
    ensures forall st :: st in steps ==> st.Producer? && st.p == p
  {
    OneStep(s, Producer(p, Send));
    steps := [Producer(p, Send)];
    t := Do(s, Producer(p, Send));
  }

  /** The producer is about to send, and its reservation is all that has changed for the others. */
  ghost predicate ReadyToSend(s: State, t: State, p: nat, k: Kind, j: Job) {
    && p < |t.producers| && t.producers[p] == Sending(k, j)
    && t.ledger == s.ledger && t.stop == s.stop && t.consumer == s.consumer && t.db == s.db
    && t.lanes.At(k).batch == s.lanes.At(k).batch && t.lanes.At(k).queue == s.lanes.At(k).queue
    && forall other :: other != k ==> t.lanes.At(other) == s.lanes.At(other)
  }

  lemma GetsReady(s: State, p: nat, k: Kind, j: Job) returns (steps: seq<Step>, t: State)
    requires Reachable(s) && MayBegin(s, p, k, j)
    ensures Runs(s, steps, t) && ReadyToSend(s, t, p, k, j)
    ensures forall st :: st in steps ==> st.Producer? && st.p == p
  {
    HeldIsCounted(s, k);
    var entering, admitted := Enters(s, p, k, j);
    var reserving, reserved := Reserves(admitted, p, k, j);
    Follow(s, entering, admitted, reserving, reserved);
    steps, t := entering + reserving, reserved;
    if k == Critical {
      var transferring, transferred := Transfers(t, p, j);
      Follow(s, steps, t, transferring, transferred);
      steps, t := steps + transferring, transferred;
    }
  }

  /**
   From every reachable state a write that may begin has a run of its producer's acts alone that publishes it: it is
   the last of its queue, under the next id.
   */
  lemma FittingWriteIsPublished(s: State, p: nat, k: Kind, j: Job) returns (steps: seq<Step>, t: State)
    requires Reachable(s) && MayBegin(s, p, k, j)
    ensures Runs(s, steps, t) && Published(s, t, k, j)
    ensures forall st :: st in steps ==> st.Producer? && st.p == p
  {
    var preparing, ready := GetsReady(s, p, k, j);
    var sending, sent := Sends(ready, p, k, j);
    Follow(s, preparing, ready, sending, sent);
    steps, t := preparing + sending, sent;
  }

  /** While the writer is open and a completion slot is free, a caller can get a lease. */
  lemma LeaseIsGranted(s: State, p: nat) returns (steps: seq<Step>, t: State)
    requires s.stop == Open && s.slots.tokens > 0 && p < |s.producers| && s.producers[p] == Idle
    ensures Runs(s, steps, t) && |t.slots.leases| == |s.slots.leases| + 1
    ensures CallerHolds(t.slots, Some(|s.slots.leases|)) && t.producers == s.producers && t.lanes == s.lanes
    ensures t.slots.tokens == s.slots.tokens - 1 && t.slots.returning == s.slots.returning
  {
    OneStep(s, Producer(p, TakeSlot));
    var slotted := Do(s, Producer(p, TakeSlot));
    Then(s, [Producer(p, TakeSlot)], slotted, Producer(p, ConfirmSlot));
    steps := [Producer(p, TakeSlot)] + [Producer(p, ConfirmSlot)];
    t := Do(slotted, Producer(p, ConfirmSlot));
    assert t.producers == s.producers;
  }

  // ---------------------------------------------------------------- leases of refused writes

  lemma StopStays(s: State, st: Step)
    requires Can(s, st) && s.stop != Open
    ensures Do(s, st).stop != Open && |Do(s, st).slots.leases| == |s.slots.leases|
  {
  }

  /** Once the stop is requested no caller gets a lease. */
  lemma {:induction false} NoLeaseAfterStop(s: State, steps: seq<Step>, t: State)
    requires s.stop != Open && Runs(s, steps, t)
    ensures t.stop != Open && |t.slots.leases| == |s.slots.leases|
    decreases |steps|
  {
    if steps != [] {
      var n := |steps| - 1;
      var mid :| Runs(s, steps[..n], mid) && Can(mid, steps[n]) && t == Do(mid, steps[n]);
      NoLeaseAfterStop(s, steps[..n], mid);
      StopStays(mid, steps[n]);
    }
  }

  predicate LeftCaller(sl: Slots, lease: Option<nat>) {
    lease.Some? && lease.value < |sl.leases| && sl.leases[lease.value].state != CallerOwned
  }

  /** A critical write that will not cancel its lease is past the point at which the caller owned it. */
  predicate CancelsOrPast(sl: Slots, p: Phase) {
    match p
    case Sending(k, j) => k == Critical ==> LeftCaller(sl, j.lease)
    case Refunding(k, j, exit) => k == Critical && exit != CancelIt ==> LeftCaller(sl, j.lease)
    case Leaving(k, j, exit) => k == Critical && exit != CancelIt ==> LeftCaller(sl, j.lease)
    case Left(k, j, exit) => k == Critical && exit != CancelIt ==> LeftCaller(sl, j.lease)
    case _ => true
  }

  predicate LeasesGoOn(s: State) {
    forall i :: 0 <= i < |s.producers| ==> CancelsOrPast(s.slots, s.producers[i])
  }

  /** No step gives a lease back to its caller. */
  lemma LeftCallerStays(s: State, st: Step, lease: Option<nat>)
    requires Can(s, st) && LeftCaller(s.slots, lease)
    ensures LeftCaller(Do(s, st).slots, lease)
  {
  }

  lemma OthersKeepLeases(s: State, st: Step)
    requires Can(s, st) && LeasesGoOn(s) && !st.Producer?
    ensures LeasesGoOn(Do(s, st))
  {
    forall i | 0 <= i < |s.producers| ensures CancelsOrPast(Do(s, st).slots, s.producers[i]) {
      PhaseStaysPast(s, st, s.producers[i]);
    }
  }

  lemma PhaseStaysPast(s: State, st: Step, p: Phase)
    requires Can(s, st) && CancelsOrPast(s.slots, p)
    ensures CancelsOrPast(Do(s, st).slots, p)
  {
    if (p.Sending? || p.Refunding? || p.Leaving? || p.Left?) && LeftCaller(s.slots, p.job.lease) {
      LeftCallerStays(s, st, p.job.lease);
    }
  }

  lemma ActKeepsLeases(s: State, p: nat, a: ProducerAct)
    requires ProducerCan(s, p, a) && LeasesGoOn(s) && Shaped(s)
    ensures LeasesGoOn(ProducerDo(s, p, a))
  {
    forall i | 0 <= i < |s.producers| ensures CancelsOrPast(ProducerSlots(s, p, a), ProducerDo(s, p, a).producers[i]) {
      PhaseStaysPast(s, Producer(p, a), s.producers[i]);
      if i == p {
        assert PhaseFits(s.producers[p], |s.slots.leases|);
      }
    }
  }

  lemma {:induction false} RunsKeepLeases(s0: State, steps: seq<Step>, s: State)
    requires Init(s0) && Runs(s0, steps, s)
    ensures LeasesGoOn(s)
    decreases |steps|
  {
    if steps != [] {
      var n := |steps| - 1;
      var mid :| Runs(s0, steps[..n], mid) && Can(mid, steps[n]) && s == Do(mid, steps[n]);
      RunsKeepLeases(s0, steps[..n], mid);
      assert Reachable(mid);
      ReachableKeepsInv(mid);
      match steps[n]
      case Producer(p, a) => ActKeepsLeases(mid, p, a);
      case _ => OthersKeepLeases(mid, steps[n]);
    }
  }

  lemma FinishingLeavesCaller(s: State, p: nat)
    requires ProducerCan(s, p, FinishLease) && s.producers[p].kind == Critical
    requires CancelsOrPast(s.slots, s.producers[p]) && PhaseFits(s.producers[p], |s.slots.leases|)
    ensures LeftCaller(ProducerSlots(s, p, FinishLease), s.producers[p].job.lease)
  {
  }

  lemma ReachableLeases(s: State)
    requires Reachable(s)
    ensures LeasesGoOn(s) && Shaped(s)
  {
    var s0, steps :| Init(s0) && Runs(s0, steps, s);
    RunsKeepLeases(s0, steps, s);
    ReachableKeepsInv(s);
  }

  /** Whether it was sent or turned away, a critical write that is done leaves no lease in its caller's hands. */
  lemma NoLeaseIsLeftBehind(s: State, p: nat)
    requires Reachable(s) && Can(s, Producer(p, FinishLease)) && s.producers[p].kind == Critical
    ensures var lease := s.producers[p].job.lease;
            lease.Some? && !CallerHolds(Do(s, Producer(p, FinishLease)).slots, lease)
  {
    ReachableLeases(s);
    assert PhaseFits(s.producers[p], |s.slots.leases|);
    FinishingLeavesCaller(s, p);
  }

  // ---------------------------------------------------------------- back to the loop

  function WithoutPending(c: Consumer): Consumer {
    match c
    case Discarding(k, final, owed, _) => Discarding(k, final, owed, [])
    case Settling(k, final, owed, _) => Settling(k, final, owed, [])
    case _ => c
  }

  /** The consumer hands back the completion slots of all it has resolved. */
  lemma {:induction false} ReleasesAll(s: State) returns (steps: seq<Step>, t: State)
    requires s.consumer.Discarding? || s.consumer.Settling?
    ensures Runs(s, steps, t) && t == s.(slots := t.slots, consumer := WithoutPending(s.consumer))
    decreases |Pending(s.consumer)|
  {
    if Pending(s.consumer) == [] {
      steps, t := [], s;
    } else {
      OneStep(s, Consume(ReleaseNext));
      var next := Do(s, Consume(ReleaseNext));
      var rest, last := ReleasesAll(next);
      Follow(s, [Consume(ReleaseNext)], next, rest, last);
      steps, t := [Consume(ReleaseNext)] + rest, last;
    }
  }

  /** Everything but the completion slots and the byte counters is as it was. */
  ghost predicate SameWork(s: State, t: State) {
    && t.stop == s.stop && t.db == s.db && t.ledger == s.ledger && t.producers == s.producers
    && forall k :: t.lanes.At(k).batch == s.lanes.At(k).batch && t.lanes.At(k).queue == s.lanes.At(k).queue
  }

  /** After a commit that is not the last, the consumer is back in its loop. */
  lemma Returns(s: State) returns (steps: seq<Step>, t: State)
    requires s.consumer.Returned? && !s.consumer.final
    ensures Runs(s, steps, t) && t.consumer == Looping && SameWork(s, t)
    ensures t.lanes.At(s.consumer.kind).stalled <==> s.lanes.At(s.consumer.kind).batch != []
  {
    OneStep(s, Consume(Finish));
    steps := [Consume(Finish)];
    t := Do(s, Consume(Finish));
  }

  lemma Settles(s: State) returns (steps: seq<Step>, t: State)
    requires s.consumer.Settling? && !s.consumer.final
    ensures Runs(s, steps, t) && t.consumer == Looping && SameWork(s, t)
    ensures t.lanes.At(s.consumer.kind).stalled <==> s.lanes.At(s.consumer.kind).batch != []
  {
    var releasing, released := ReleasesAll(s);
    Then(s, releasing, released, Consume(Finish));
    var returned := Do(released, Consume(Finish));
    var returning, back := Returns(returned);
    Follow(s, releasing + [Consume(Finish)], returned, returning, back);
    steps, t := releasing + [Consume(Finish)] + returning, back;
  }

  /** A transaction that is not applied leaves the batch for later. */
  lemma HandsBack(s: State) returns (steps: seq<Step>, t: State)
    requires s.consumer.Transacting? && !s.consumer.final
    ensures Runs(s, steps, t) && t.consumer == Looping && SameWork(s, t)
  {
    OneStep(s, Consume(Transact(NotApplied)));
    var returned := Do(s, Consume(Transact(NotApplied)));
    assert returned.db == s.db && returned.ledger == s.ledger;
    var returning, back := Returns(returned);
    Follow(s, [Consume(Transact(NotApplied))], returned, returning, back);
    steps, t := [Consume(Transact(NotApplied))] + returning, back;
  }

  /** And so does a look-up of the owners that fails. */
  lemma LooksUpInVain(s: State) returns (steps: seq<Step>, t: State)
    requires s.consumer.Flushing? && !s.consumer.final
    ensures Runs(s, steps, t) && t.consumer == Looping && SameWork(s, t)
  {
    OneStep(s, Consume(FilterFails({})));
    var returned := Do(s, Consume(FilterFails({})));
    assert returned.db == s.db;
    var returning, back := Returns(returned);
    Follow(s, [Consume(FilterFails({}))], returned, returning, back);
    steps, t := [Consume(FilterFails({}))] + returning, back;
  }

  /** Once the slots of what it discarded are back, a commit goes on to its transaction if anything is left. */
  lemma Begins(s: State) returns (steps: seq<Step>, t: State)
    requires s.consumer.Discarding?
    ensures Runs(s, steps, t) && SameWork(s, t) && t.lanes == s.lanes
    ensures var k := s.consumer.kind;
            t.consumer == if s.lanes.At(k).batch == [] then Returned(k, s.consumer.final, s.consumer.owed)
                          else Transacting(k, s.consumer.final, s.consumer.owed)
  {
    var releasing, released := ReleasesAll(s);
    Then(s, releasing, released, Consume(Begin));
    steps, t := releasing + [Consume(Begin)], Do(released, Consume(Begin));
  }

  lemma GivesUp(s: State) returns (steps: seq<Step>, t: State)
    requires s.consumer.Discarding? && !s.consumer.final
    ensures Runs(s, steps, t) && t.consumer == Looping && SameWork(s, t)
  {
    var beginning, begun := Begins(s);
    var rest, back;
    if begun.consumer.Returned? {
      rest, back := Returns(begun);
    } else {
      rest, back := HandsBack(begun);
    }
    Follow(s, beginning, begun, rest, back);
    steps, t := beginning + rest, back;
  }

  /** While the writer is open the consumer can always get back to its loop, keeping what waits. */
  lemma ComesBack(s: State) returns (steps: seq<Step>, t: State)
    requires Reachable(s) && s.stop == Open
    ensures Runs(s, steps, t) && t.consumer == Looping && SameWork(s, t)
  {
    BeforeTheDrain(s);
    match s.consumer
    case Flushing(_, _) => steps, t := LooksUpInVain(s);
    case Discarding(_, _, _, _) => steps, t := GivesUp(s);
    case Transacting(_, _, _) => steps, t := HandsBack(s);
    case Settling(_, _, _, _) => steps, t := Settles(s);
    case Returned(_, _, _) => steps, t := Returns(s);
    case _ => steps, t := [], s;
  }

  lemma BeforeTheDrain(s: State)
    requires Reachable(s) && s.stop == Open
    ensures BeforeDrain(s.consumer)
  {
    ReachableKeepsInv(s);
  }

  // ---------------------------------------------------------------- no lane is stuck

  /** Only a lane that holds a batch stops receiving. */
  ghost predicate Unstuck(s: State) {
    BeforeDrain(s.consumer) ==>
      forall k :: s.lanes.At(k).stalled && !Busy(s.consumer, k) ==> s.lanes.At(k).batch != []
  }

  lemma UnstuckKept(s: State, st: Step)
    requires Can(s, st) && Unstuck(s)
    ensures Unstuck(Do(s, st))
  {
    match st
    case Producer(p, a) => ProducerKeepsBatches(s, p, a);
    case Consume(a) => ConsumerKeepsUnstuck(s, a);
    case _ =>
  }

  lemma ConsumerKeepsUnstuck(s: State, a: ConsumerAct)
    requires ConsumerCan(s, a) && Unstuck(s)
    ensures Unstuck(ConsumerDo(s, a))
  {
  }

  lemma {:induction false} RunsKeepUnstuck(s0: State, steps: seq<Step>, s: State)
    requires Init(s0) && Runs(s0, steps, s)
    ensures Unstuck(s)
    decreases |steps|
  {
    if steps == [] {
      forall k ensures s0.lanes.At(k) == EMPTY_LANE {
      }
    } else {
      var n := |steps| - 1;
      var mid :| Runs(s0, steps[..n], mid) && Can(mid, steps[n]) && s == Do(mid, steps[n]);
      RunsKeepUnstuck(s0, steps[..n], mid);
      UnstuckKept(mid, steps[n]);
    }
  }

  /** In every reachable state in which the consumer loops, a lane receives unless it holds a batch to retry. */
  lemma EmptyLaneReceives(s: State, k: Kind)
    requires Reachable(s) && s.consumer.Looping?
    ensures s.lanes.At(k).batch == [] && s.lanes.At(k).queue != [] ==> Can(s, Consume(Receive(k)))
  {
    var s0, steps :| Init(s0) && Runs(s0, steps, s);
    RunsKeepUnstuck(s0, steps, s);
  }

  // ---------------------------------------------------------------- a flush

  /** A job that is in the ledger's committed part and has its row. */
  ghost predicate Landed(s: State, j: Job) {
    j.id in s.ledger.committed && exists r :: r in s.db.rows && RowFor(r, j)
  }

  /** What is committed stays so, and the functions, the stop flag and the queue of lane `k` do not change. */
  ghost predicate Onward(s: State, t: State, k: Kind) {
    && t.stop == s.stop && t.db.functions == s.db.functions && t.lanes.At(k).queue == s.lanes.At(k).queue
    && s.ledger.committed <= t.ledger.committed && s.db.rows <= t.db.rows
  }

  lemma StaysLanded(s: State, t: State, k: Kind, j: Job)
    requires Onward(s, t, k) && Landed(s, j)
    ensures Landed(t, j)
  {
    var r :| r in s.db.rows && RowFor(r, j);
    assert r in t.db.rows;
  }

  /** A commit leaves out the jobs whose owner is gone, and no others. */
  lemma Weeds(s: State) returns (steps: seq<Step>, t: State)
    requires s.consumer.Flushing?
    ensures var k := s.consumer.kind;
            && Runs(s, steps, t) && Onward(s, t, k)
            && (forall j :: j in s.lanes.At(k).batch && Alive(j, s.db.functions) ==> j in t.lanes.At(k).batch)
            && Busy(t.consumer, k) && t.consumer.final == s.consumer.final && t.ledger.lost == s.ledger.lost
            && if t.lanes.At(k).batch == [] then t.consumer.Returned? else t.consumer.Transacting?
  {
    var k := s.consumer.kind;
    OneStep(s, Consume(Filter));
    var filtered := Do(s, Consume(Filter));
    FilterKeepsAlive(s.lanes.At(k).batch, s.db.functions);
    var beginning, begun := Begins(filtered);
    Follow(s, [Consume(Filter)], filtered, beginning, begun);
    steps, t := [Consume(Filter)] + beginning, begun;
  }

  /** And it remembers the owners it found: the cache forgets none, and learns only functions that exist. */
  lemma FilterLearns(s: State, id: string)
    requires Can(s, Consume(Filter))
    ensures var batch, before, after := s.lanes.At(s.consumer.kind).batch, s.db.live, Do(s, Consume(Filter)).db.live;
            id in after <==> id in before || (id != "" && id in s.db.functions && exists j :: j in batch && j.functionId == id)
  {
  }

  lemma WholeBatchLands(s: State)
    requires s.consumer.Transacting?
    ensures var k, t := s.consumer.kind, Do(s, Consume(Transact(Grouped)));
            && Onward(s, t, k) && t.lanes.At(k).batch == []
            && forall j :: j in s.lanes.At(k).batch ==> Landed(t, j)
  {
    var k, t := s.consumer.kind, Do(s, Consume(Transact(Grouped)));
    var batch := s.lanes.At(k).batch;
    forall j | j in batch ensures Landed(t, j) {
      var i :| 0 <= i < |batch| && batch[i] == j;
      assert Ids(batch)[i] == j.id && j.id in Ids(batch);
      assert RowsOf(batch)[i] == RowOf(j) && RowOf(j) in RowsOf(batch);
      assert RowFor(RowOf(j), j);
    }
  }

  /** A transaction the database applies lands the whole batch, and the lane receives again. */
  lemma Commits(s: State) returns (steps: seq<Step>, t: State)
    requires s.consumer.Transacting? && !s.consumer.final
    ensures var k := s.consumer.kind;
            && Runs(s, steps, t) && Onward(s, t, k) && t.consumer == Looping && t.lanes.At(k).batch == []
            && !t.lanes.At(k).stalled && forall j :: j in s.lanes.At(k).batch ==> Landed(t, j)
  {
    OneStep(s, Consume(Transact(Grouped)));
    var applied := Do(s, Consume(Transact(Grouped)));
    WholeBatchLands(s);
    var settling, back := Settles(applied);
    Follow(s, [Consume(Transact(Grouped))], applied, settling, back);
    steps, t := [Consume(Transact(Grouped))] + settling, back;
  }

  /** What a lane holds can be committed: all of it but the jobs whose function is gone. */
  lemma Flushes(s: State, k: Kind) returns (steps: seq<Step>, t: State)
    requires s.consumer == Looping && s.lanes.At(k).batch != []
    ensures Runs(s, steps, t) && Onward(s, t, k) && t.consumer == Looping && t.lanes.At(k).batch == []
    ensures !t.lanes.At(k).stalled
    ensures forall j :: j in s.lanes.At(k).batch && Alive(j, s.db.functions) ==> Landed(t, j)
  {
    OneStep(s, Consume(Tick(k)));
    var ticked := Do(s, Consume(Tick(k)));
    var weeding, weeded := Weeds(ticked);
    Follow(s, [Consume(Tick(k))], ticked, weeding, weeded);
    var rest;
    if weeded.consumer.Returned? {
      rest, t := Returns(weeded);
    } else {
      rest, t := Commits(weeded);
    }
    Follow(s, [Consume(Tick(k))] + weeding, weeded, rest, t);
    steps := [Consume(Tick(k))] + weeding + rest;
  }

  lemma Receives(s: State, k: Kind) returns (steps: seq<Step>, t: State)
    requires s.consumer == Looping && s.lanes.At(k).batch == [] && !s.lanes.At(k).stalled && s.lanes.At(k).queue != []
    ensures Runs(s, steps, t) && t.consumer == Looping && t.stop == s.stop && t.db == s.db && t.ledger == s.ledger
    ensures t.lanes.At(k).batch == [s.lanes.At(k).queue[0]] && t.lanes.At(k).queue == s.lanes.At(k).queue[1..]
  {
    OneStep(s, Consume(Receive(k)));
    steps, t := [Consume(Receive(k))], Do(s, Consume(Receive(k)));
  }

  /** The next queued job can be committed, and the lane is ready for the one behind it. */
  lemma LandsNext(s: State, k: Kind) returns (steps: seq<Step>, t: State)
    requires s.consumer == Looping && s.lanes.At(k).batch == [] && !s.lanes.At(k).stalled && s.lanes.At(k).queue != []
    ensures Runs(s, steps, t) && t.consumer == Looping && t.lanes.At(k).batch == [] && !t.lanes.At(k).stalled
    ensures t.lanes.At(k).queue == s.lanes.At(k).queue[1..] && t.db.functions == s.db.functions
    ensures Alive(s.lanes.At(k).queue[0], s.db.functions) ==> Landed(t, s.lanes.At(k).queue[0])
  {
    var receiving, received := Receives(s, k);
    var flushing, flushed := Flushes(received, k);
    Follow(s, receiving, received, flushing, flushed);
    steps, t := receiving + flushing, flushed;
    assert s.lanes.At(k).queue[0] in received.lanes.At(k).batch;
  }

  /** And so can what is queued behind it. */
  lemma {:induction false} Empties(s: State, k: Kind, j: Job) returns (steps: seq<Step>, t: State)
    requires s.consumer == Looping && s.lanes.At(k).batch == [] && !s.lanes.At(k).stalled
    requires j in s.lanes.At(k).queue && Alive(j, s.db.functions)
    ensures Runs(s, steps, t) && Landed(t, j)
    decreases |s.lanes.At(k).queue|
  {
    var queue := s.lanes.At(k).queue;
    steps, t := LandsNext(s, k);
    if j != queue[0] {
      assert queue == [queue[0]] + queue[1..];
      var rest, last := Empties(t, k, j);
      Follow(s, steps, t, rest, last);
      steps, t := steps + rest, last;
    }
  }

  /**
   From every reachable state of an open writer, each job that waits and whose function exists can be committed, and
   then has its row.
   */
  lemma WaitingCanLand(s: State, k: Kind, j: Job) returns (steps: seq<Step>, t: State)
    requires Reachable(s) && s.stop == Open && (j in s.lanes.At(k).batch || j in s.lanes.At(k).queue)
    requires j.functionId == "" || j.functionId in s.db.functions
    ensures Runs(s, steps, t) && j.id in t.ledger.committed && exists r :: r in t.db.rows && RowFor(r, j)
  {
    steps, t := ComesBack(s);
    StillReachable(s, steps, t);
    if t.lanes.At(k).batch != [] {
      var flushing, flushed := Flushes(t, k);
      Follow(s, steps, t, flushing, flushed);
      steps, t := steps + flushing, flushed;
    } else {
      EmptyLaneReceives(t, k);
    }
    if j in s.lanes.At(k).queue {
      var rest, last := Empties(t, k, j);
      Follow(s, steps, t, rest, last);
      steps, t := steps + rest, last;
    }
  }

  /** From every reachable state a write that may begin, of a function that exists, has a run that commits it. */
  lemma FittingWriteCanLand(s: State, p: nat, k: Kind, j: Job) returns (steps: seq<Step>, t: State)
    requires Reachable(s) && MayBegin(s, p, k, j) && (j.functionId == "" || j.functionId in s.db.functions)
    ensures Runs(s, steps, t) && s.ledger.published in t.ledger.committed
    ensures exists r :: r in t.db.rows && RowFor(r, j.(id := s.ledger.published))
  {
    var publishing, published := FittingWriteIsPublished(s, p, k, j);
    StillReachable(s, publishing, published);
    var sent := j.(id := s.ledger.published);
    assert sent in published.lanes.At(k).queue;
    var rest, last := WaitingCanLand(published, k, sent);
    Follow(s, publishing, published, rest, last);
    steps, t := publishing + rest, last;
  }
}
