/** That a shutdown can end, from every state the writer may be in, without losing a job; and that tokens come home. */
module WriterShutdown {
  import opened Counting
  import opened Wrappers
  import opened WriterBatch
  import opened WriterProtocol
  import opened WriterInvariants
  import opened WriterBytes
  import opened WriterTheorems
  import opened WriterProgress

  // ---------------------------------------------------------------- producers leave

  /** Producer `p` is past the read lock; consumer, stop flag, lost jobs and the other producers are as they were. */
  ghost predicate LetOut(s: State, t: State, p: nat) {
    && t.stop == s.stop && t.consumer == s.consumer && t.ledger.lost == s.ledger.lost
    && |t.producers| == |s.producers| && p < |t.producers| && !Holding(t.producers[p])
    && forall i :: 0 <= i < |s.producers| && i != p ==> t.producers[i] == s.producers[i]
  }

  /** Whatever a producer does first, it can go on from there. */
  lemma ActThen(s: State, p: nat, a: ProducerAct, rest: seq<Step>, t: State)
    requires ProducerCan(s, p, a) && Runs(ProducerDo(s, p, a), rest, t) && LetOut(ProducerDo(s, p, a), t, p)
    ensures Runs(s, [Producer(p, a)] + rest, t) && LetOut(s, t, p)
  {
    OneStep(s, Producer(p, a));
    Follow(s, [Producer(p, a)], ProducerDo(s, p, a), rest, t);
  }

  lemma FromLeaving(s: State, p: nat) returns (steps: seq<Step>, t: State)
    requires p < |s.producers| && s.producers[p].Leaving?
    ensures Runs(s, steps, t) && LetOut(s, t, p)
  {
    OneStep(s, Producer(p, Leave));
    steps, t := [Producer(p, Leave)], Do(s, Producer(p, Leave));
  }

  lemma FromRefunding(s: State, p: nat) returns (steps: seq<Step>, t: State)
    requires p < |s.producers| && s.producers[p].Refunding?
    ensures Runs(s, steps, t) && LetOut(s, t, p)
  {
    var rest;
    rest, t := FromLeaving(ProducerDo(s, p, Refund), p);
    ActThen(s, p, Refund, rest, t);
    steps := [Producer(p, Refund)] + rest;
  }

  lemma FromSending(s: State, p: nat) returns (steps: seq<Step>, t: State)
    requires p < |s.producers| && s.producers[p].Sending? && s.stop != Open
    ensures Runs(s, steps, t) && LetOut(s, t, p)
  {
    var rest;
    rest, t := FromRefunding(ProducerDo(s, p, Abort), p);
    ActThen(s, p, Abort, rest, t);
    steps := [Producer(p, Abort)] + rest;
  }

  lemma FromBudgeted(s: State, p: nat) returns (steps: seq<Step>, t: State)
    requires p < |s.producers| && s.producers[p].Budgeted? && s.stop != Open
    ensures Runs(s, steps, t) && LetOut(s, t, p)
  {
    var next, rest := ProducerDo(s, p, Transfer), [];
    if next.producers[p].Sending? {
      rest, t := FromSending(next, p);
    } else {
      rest, t := FromRefunding(next, p);
    }
    ActThen(s, p, Transfer, rest, t);
    steps := [Producer(p, Transfer)] + rest;
  }

  lemma FromReserved(s: State, p: nat) returns (steps: seq<Step>, t: State)
    requires p < |s.producers| && s.producers[p].Loaded? && s.stop != Open
    requires s.producers[p].seen == s.lanes.At(s.producers[p].kind).bytes
    ensures Runs(s, steps, t) && LetOut(s, t, p)
  {
    var next, rest := ProducerDo(s, p, SwapBytes), [];
    if next.producers[p].Budgeted? {
      rest, t := FromBudgeted(next, p);
    } else {
      rest, t := FromSending(next, p);
    }
    ActThen(s, p, SwapBytes, rest, t);
    steps := [Producer(p, SwapBytes)] + rest;
  }

  lemma FromAdmitted(s: State, p: nat) returns (steps: seq<Step>, t: State)
    requires p < |s.producers| && s.producers[p].Admitted? && s.stop != Open
    ensures Runs(s, steps, t) && LetOut(s, t, p)
  {
    var next, rest := ProducerDo(s, p, LoadBytes), [];
    if next.producers[p].Leaving? {
      rest, t := FromLeaving(next, p);
    } else {
      rest, t := FromReserved(next, p);
    }
    ActThen(s, p, LoadBytes, rest, t);
    steps := [Producer(p, LoadBytes)] + rest;
  }

  /** A producer whose counter has moved on loads it again. */
  lemma FromLoaded(s: State, p: nat) returns (steps: seq<Step>, t: State)
    requires p < |s.producers| && s.producers[p].Loaded? && s.stop != Open
    ensures Runs(s, steps, t) && LetOut(s, t, p)
  {
    if s.producers[p].seen == s.lanes.At(s.producers[p].kind).bytes {
      steps, t := FromReserved(s, p);
    } else {
      var rest;
      rest, t := FromAdmitted(ProducerDo(s, p, SwapBytes), p);
      ActThen(s, p, SwapBytes, rest, t);
      steps := [Producer(p, SwapBytes)] + rest;
    }
  }

  lemma FromEntered(s: State, p: nat) returns (steps: seq<Step>, t: State)
    requires p < |s.producers| && s.producers[p].Entered? && s.stop != Open
    ensures Runs(s, steps, t) && LetOut(s, t, p)
  {
    var rest;
    rest, t := FromLeaving(ProducerDo(s, p, CheckStop), p);
    ActThen(s, p, CheckStop, rest, t);
    steps := [Producer(p, CheckStop)] + rest;
  }

  /** Once the stop is requested every producer can get past the read lock by acts of its own. */
  lemma CanLeave(s: State, p: nat) returns (steps: seq<Step>, t: State)
    requires p < |s.producers| && s.stop != Open
    ensures Runs(s, steps, t) && LetOut(s, t, p)
  {
    match s.producers[p]
    case Entered(_, _) => steps, t := FromEntered(s, p);
    case Admitted(_, _) => steps, t := FromAdmitted(s, p);
    case Loaded(_, _, _) => steps, t := FromLoaded(s, p);
    case Budgeted(_) => steps, t := FromBudgeted(s, p);
    case Sending(_, _) => steps, t := FromSending(s, p);
    case Refunding(_, _, _) => steps, t := FromRefunding(s, p);
    case Leaving(_, _, _) => steps, t := FromLeaving(s, p);
    case _ => steps, t := [], s;
  }

  lemma {:induction false} AllCanLeave(s: State, n: nat) returns (steps: seq<Step>, t: State)
    requires n <= |s.producers| && s.stop != Open
    ensures Runs(s, steps, t) && t.stop == s.stop && t.consumer == s.consumer && t.ledger.lost == s.ledger.lost
    ensures |t.producers| == |s.producers| && forall i :: 0 <= i < n ==> !Holding(t.producers[i])
  {
    if n == 0 {
      steps, t := [], s;
    } else {
      steps, t := AllCanLeave(s, n - 1);
      var leaving, left := CanLeave(t, n - 1);
      Follow(s, steps, t, leaving, left);
      steps, t := steps + leaving, left;
    }
  }

  // ---------------------------------------------------------------- the fence

  /** With nobody behind the lock the fence closes. */
  lemma FenceCloses(s: State) returns (steps: seq<Step>, t: State)
    requires s.stop == Requested && forall i :: 0 <= i < |s.producers| ==> !Holding(s.producers[i])
    ensures Runs(s, steps, t) && t == s.(stop := Fenced)
  {
    OneStep(s, LockFence);
    Then(s, [LockFence], s.(stop := Exclusive), CloseQuit);
    Then(s, [LockFence] + [CloseQuit], s.(stop := QuitClosed), UnlockFence);
    steps, t := [LockFence] + [CloseQuit] + [UnlockFence], s.(stop := Fenced);
  }

  // ---------------------------------------------------------------- the drain

  function Queued(s: State): nat { |s.lanes.critical.queue| + |s.lanes.activity.queue| + |s.lanes.telemetry.queue| }

  /** What the drain takes, one job after the other, until the queues are empty. */
  lemma {:induction false} DrainEnds(s: State) returns (steps: seq<Step>, t: State)
    requires s.consumer.Draining?
    ensures Runs(s, steps, t) && t.consumer == Finishing(Critical) && t.stop == s.stop && t.ledger.lost == s.ledger.lost
    decreases Queued(s)
  {
    if k :| s.lanes.At(k).queue != [] {
      OneStep(s, Consume(DrainOne(k)));
      var next := Do(s, Consume(DrainOne(k)));
      assert Queued(next) < Queued(s);
      var rest;
      rest, t := DrainEnds(next);
      Follow(s, [Consume(DrainOne(k))], next, rest, t);
      steps := [Consume(DrainOne(k))] + rest;
    } else {
      OneStep(s, Consume(DrainEmpty));
      steps, t := [Consume(DrainEmpty)], Do(s, Consume(DrainEmpty));
    }
  }

  // ---------------------------------------------------------------- the last commits

  /** After its last commit a lane with nothing left is done, and nothing of it is lost. */
  lemma LastReturns(s: State) returns (steps: seq<Step>, t: State)
    requires s.consumer.Returned? && s.consumer.final && s.lanes.At(s.consumer.kind).batch == []
    ensures Runs(s, steps, t) && t.consumer == NextLane(s.consumer.kind)
    ensures t.stop == s.stop && t.ledger.lost == s.ledger.lost
  {
    OneStep(s, Consume(Finish));
    var failing := Do(s, Consume(Finish));
    assert failing.ledger.lost == s.ledger.lost;
    Then(s, [Consume(Finish)], failing, Consume(Finish));
    steps, t := [Consume(Finish)] + [Consume(Finish)], Do(failing, Consume(Finish));
  }

  lemma LastSettles(s: State) returns (steps: seq<Step>, t: State)
    requires s.consumer.Settling? && s.consumer.final && s.lanes.At(s.consumer.kind).batch == []
    ensures Runs(s, steps, t) && t.consumer == NextLane(s.consumer.kind)
    ensures t.stop == s.stop && t.ledger.lost == s.ledger.lost
  {
    var releasing, released := ReleasesAll(s);
    Then(s, releasing, released, Consume(Finish));
    var returned := Do(released, Consume(Finish));
    var returning;
    returning, t := LastReturns(returned);
    Follow(s, releasing + [Consume(Finish)], returned, returning, t);
    steps := releasing + [Consume(Finish)] + returning;
  }

  lemma LastCommits(s: State) returns (steps: seq<Step>, t: State)
    requires s.consumer.Transacting? && s.consumer.final
    ensures Runs(s, steps, t) && t.consumer == NextLane(s.consumer.kind)
    ensures t.stop == s.stop && t.ledger.lost == s.ledger.lost
  {
    OneStep(s, Consume(Transact(Grouped)));
    var applied := Do(s, Consume(Transact(Grouped)));
    var settling;
    settling, t := LastSettles(applied);
    Follow(s, [Consume(Transact(Grouped))], applied, settling, t);
    steps := [Consume(Transact(Grouped))] + settling;
  }

  lemma LastFlush(s: State) returns (steps: seq<Step>, t: State)
    requires s.consumer.Flushing? && s.consumer.final
    ensures Runs(s, steps, t) && t.consumer == NextLane(s.consumer.kind)
    ensures t.stop == s.stop && t.ledger.lost == s.ledger.lost
  {
    var weeded, rest;
    steps, weeded := Weeds(s);
    if weeded.consumer.Returned? {
      rest, t := LastReturns(weeded);
    } else {
      rest, t := LastCommits(weeded);
    }
    Follow(s, steps, weeded, rest, t);
    steps := steps + rest;
  }

  lemma LaneFinishes(s: State) returns (steps: seq<Step>, t: State)
    requires s.consumer.Finishing?
    ensures Runs(s, steps, t) && t.consumer == NextLane(s.consumer.kind)
    ensures t.stop == s.stop && t.ledger.lost == s.ledger.lost
  {
    OneStep(s, Consume(FinishLane));
    steps, t := [Consume(FinishLane)], Do(s, Consume(FinishLane));
    if t.consumer.Flushing? {
      var flushing, done := LastFlush(t);
      Follow(s, steps, t, flushing, done);
      steps, t := steps + flushing, done;
    }
  }

  lemma DrainFinishes(s: State) returns (steps: seq<Step>, t: State)
    requires s.consumer == Finishing(Critical)
    ensures Runs(s, steps, t) && t.consumer.Done? && t.stop == s.stop && t.ledger.lost == s.ledger.lost
  {
    var more, next;
    steps, t := LaneFinishes(s);
    more, next := LaneFinishes(t);
    Follow(s, steps, t, more, next);
    steps, t := steps + more, next;
    more, next := LaneFinishes(t);
    Follow(s, steps, t, more, next);
    steps, t := steps + more, next;
    Then(s, steps, t, Consume(ZeroCounters));
    steps, t := steps + [Consume(ZeroCounters)], Do(t, Consume(ZeroCounters));
  }

  // ---------------------------------------------------------------- the whole shutdown

  /** From the request of the stop to the closed fence. */
  lemma StopsAccepting(s: State) returns (steps: seq<Step>, t: State)
    requires s.stop == Open && s.consumer == Looping
    ensures Runs(s, steps, t) && t.stop == Fenced && t.consumer == Looping && t.ledger.lost == s.ledger.lost
  {
    OneStep(s, RequestStop);
    var requested := s.(stop := Requested);
    var leaving, left := AllCanLeave(requested, |s.producers|);
    Follow(s, [RequestStop], requested, leaving, left);
    var closing;
    closing, t := FenceCloses(left);
    Follow(s, [RequestStop] + leaving, left, closing, t);
    steps := [RequestStop] + leaving + closing;
  }

  lemma Drains(s: State) returns (steps: seq<Step>, t: State)
    requires s.stop == Fenced && s.consumer == Looping
    ensures Runs(s, steps, t) && t.consumer.Done? && t.stop == Fenced && t.ledger.lost == s.ledger.lost
  {
    OneStep(s, Consume(StartDrain));
    var draining := Do(s, Consume(StartDrain));
    var more, drained := DrainEnds(draining);
    Follow(s, [Consume(StartDrain)], draining, more, drained);
    var last;
    last, t := DrainFinishes(drained);
    Follow(s, [Consume(StartDrain)] + more, drained, last, t);
    steps := [Consume(StartDrain)] + more + last;
  }

  /**
   From every reachable state of an open writer, wherever producers and consumer are, a shutdown can end: everything is
   drained, and no job is lost that was not lost before.
   */
  lemma ShutdownCanFinish(s: State) returns (steps: seq<Step>, t: State)
    requires Reachable(s) && s.stop == Open
    ensures Runs(s, steps, t) && Reachable(t) && t.consumer.Done? && t.ledger.lost == s.ledger.lost
  {
    var back, looping := ComesBack(s);
    var stopping, fenced := StopsAccepting(looping);
    Follow(s, back, looping, stopping, fenced);
    var draining;
    draining, t := Drains(fenced);
    Follow(s, back + stopping, fenced, draining, t);
    steps := back + stopping + draining;
    StillReachable(s, steps, t);
  }

  // ---------------------------------------------------------------- tokens

  lemma RoomForToken(s: State)
    requires Reachable(s) && s.slots.returning > 0
    ensures s.slots.tokens < SLOTS
  {
    SlotsNeverBlock(s, 0);
  }

  /** Every token on its way back can arrive, and nothing else changes. */
  lemma {:induction false} TokensComeHome(s: State) returns (steps: seq<Step>, t: State)
    requires Reachable(s)
    ensures Runs(s, steps, t) && t == s.(slots := t.slots) && t.slots.leases == s.slots.leases
    ensures t.slots.returning == 0 && t.slots.tokens == s.slots.tokens + s.slots.returning
    decreases s.slots.returning
  {
    if s.slots.returning == 0 {
      steps, t := [], s;
    } else {
      RoomForToken(s);
      OneStep(s, PutBack);
      var next := Do(s, PutBack);
      StillReachable(s, [PutBack], next);
      var rest;
      rest, t := TokensComeHome(next);
      Follow(s, [PutBack], next, rest, t);
      steps := [PutBack] + rest;
    }
  }
}
