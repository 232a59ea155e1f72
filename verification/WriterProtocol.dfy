/**
 The asynchronous writer as a system of interleaved steps: producers that reserve completion
 slots, reserve bytes and publish jobs; the consumer that batches, commits, retries and drains;
 the shutdown fence; and function insertion and deletion under the lifecycle lock.
 */
module WriterProtocol {
  import opened Counting
  import opened Wrappers
  import opened WriterBatch

  /** Capacity of the completion slot pool and of each job channel. */
  const SLOTS: nat := 1024
  const BATCH_MAX: nat := 200

  datatype Kind = Critical | Activity | Telemetry

  function ByteLimit(k: Kind): nat {
    match k
    case Critical => 67108864
    case Activity => 8388608
    case Telemetry => 33554432
  }

  // ---------------------------------------------------------------- state

  datatype LeaseState = CallerOwned | WriterOwned | Released

  /** `handedBack` counts the tokens this lease has handed back. */
  datatype Lease = Lease(state: LeaseState, handedBack: nat)

  /** What a producer still has to do with its lease once it has left the read lock. */
  datatype Exit = LeaveIt | CancelIt | FinishIt

  /** Where one producer is. Every phase from `Entered` to `Leaving` holds the enqueue read lock. */
  datatype Phase =
    | Idle
    | Slotted                                      // took a token; the stop re-check is pending
    | Entered(kind: Kind, job: Job)                // read lock taken; the stop check is pending
    | Admitted(kind: Kind, job: Job)               // about to load the byte counter
    | Loaded(kind: Kind, job: Job, seen: int)      // loaded `seen`; the compare-and-swap is pending
    | Budgeted(job: Job)                           // critical bytes reserved; lease not transferred
    | Sending(kind: Kind, job: Job)                // ready for the channel send
    | Refunding(kind: Kind, job: Job, exit: Exit)  // will not send; the bytes are still reserved
    | Leaving(kind: Kind, job: Job, exit: Exit)    // about to release the read lock
    | Left(kind: Kind, job: Job, exit: Exit)       // read lock released; the lease is pending

  datatype Stop = Open | Requested | Exclusive | QuitClosed | Fenced

  /** Where the consumer is. `owed` is the size of the batch the running commit was given. */
  datatype Consumer =
    | Looping
    | Flushing(kind: Kind, final: bool)
    | Discarding(kind: Kind, final: bool, owed: int, pending: seq<Job>)
    | Transacting(kind: Kind, final: bool, owed: int)
    | Settling(kind: Kind, final: bool, owed: int, pending: seq<Job>)
    | Returned(kind: Kind, final: bool, owed: int)
    | Draining
    | Finishing(kind: Kind)
    | Failing(kind: Kind, pending: seq<Job>)
    | Zeroing
    | Done

  datatype Lane = Lane(queue: seq<Job>, batch: seq<Job>, bytes: int, stalled: bool)

  datatype Lanes = Lanes(critical: Lane, activity: Lane, telemetry: Lane) {
    function At(k: Kind): Lane {
      match k case Critical => critical case Activity => activity case Telemetry => telemetry
    }

    function With(k: Kind, l: Lane): (r: Lanes)
      ensures r.At(k) == l && forall k' :: k' != k ==> r.At(k') == At(k')
    {
      match k
      case Critical => this.(critical := l)
      case Activity => this.(activity := l)
      case Telemetry => this.(telemetry := l)
    }
  }

  /** `tokens` are in the slot channel; `returning` goroutines are about to send one back. */
  datatype Slots = Slots(tokens: nat, returning: nat, leases: seq<Lease>)

  /** `rows` are the writer's rows still present, `erased` those a function deletion removed. */
  datatype Db = Db(functions: set<string>, live: set<string>, rows: seq<Row>, erased: seq<Row>)

  /** Job ids by what became of the job; `published` is also the next id. */
  datatype Ledger = Ledger(published: nat, committed: seq<nat>, discarded: seq<nat>,
                           shed: seq<nat>, lost: seq<nat>)

  datatype State = State(slots: Slots, lanes: Lanes, producers: seq<Phase>, stop: Stop,
                         consumer: Consumer, db: Db, ledger: Ledger)

  /** A fresh writer with any number of producers, over any database. */
  ghost predicate Init(s: State) {
    && s.slots == Slots(SLOTS, 0, [])
    && s.lanes == Lanes(EMPTY_LANE, EMPTY_LANE, EMPTY_LANE)
    && (forall i :: 0 <= i < |s.producers| ==> s.producers[i] == Idle)
    && s.stop == Open && s.consumer == Looping
    && s.db.live <= s.db.functions && s.db.rows == [] && s.db.erased == []
    && s.ledger == Ledger(0, [], [], [], [])
  }

  const EMPTY_LANE := Lane([], [], 0, false)

  // ---------------------------------------------------------------- steps

  datatype ProducerAct =
    | TakeSlot | ConfirmSlot | Enter(kind: Kind, job: Job) | CheckStop | LoadBytes | SwapBytes
    | Transfer | Abort | Refund | Send | Leave | FinishLease

  /** What the database made of a commit pass. */
  datatype Outcome = NotApplied | Grouped | Isolated(verdicts: seq<Verdict>)

  datatype ConsumerAct =
    | Receive(kind: Kind) | Tick(kind: Kind) | FilterFails(learned: set<string>) | Filter
    | ReleaseNext | Begin | Transact(outcome: Outcome) | Finish
    | StartDrain | DrainOne(kind: Kind) | DrainEmpty | FinishLane | ZeroCounters

  datatype Step =
    | Producer(p: nat, act: ProducerAct)
    | Consume(cact: ConsumerAct)
    | Cancel(l: nat)          // the caller of a lease cancels it, at any time
    | PutBack                 // a pending token send completes
    | RequestStop | LockFence | CloseQuit | UnlockFence
    | InsertFunction(id: string)
    | DeleteFunction(id: string)

  /** The weight-carrying job of a phase that has reserved bytes. */
  predicate Reserving(p: Phase) { p.Budgeted? || p.Sending? || p.Refunding? }

  predicate Holding(p: Phase) { !p.Idle? && !p.Slotted? && !p.Left? }

  function KindOf(p: Phase): Kind
    requires !p.Idle? && !p.Slotted?
  {
    if p.Budgeted? then Critical else p.kind
  }

  /** `CompareAndSwap(from, to)` on a lease; reaching `Released` hands its token back. */
  function SwapLease(sl: Slots, lease: Option<nat>, from: LeaseState, to: LeaseState): Slots {
    if lease.None? || lease.value >= |sl.leases| || sl.leases[lease.value].state != from then sl
    else
      var l := lease.value;
      if to == Released then
        Slots(sl.tokens, sl.returning + 1, sl.leases[l := Lease(Released, sl.leases[l].handedBack + 1)])
      else Slots(sl.tokens, sl.returning, sl.leases[l := Lease(to, sl.leases[l].handedBack)])
  }

  predicate CallerHolds(sl: Slots, lease: Option<nat>) {
    lease.Some? && lease.value < |sl.leases| && sl.leases[lease.value].state == CallerOwned
  }

  function GiveUp(k: Kind): Exit { if k == Critical then CancelIt else LeaveIt }

  predicate ProducerCan(s: State, p: nat, a: ProducerAct) {
    p < |s.producers| && var at := s.producers[p];
    match a
    case TakeSlot => at.Idle? && s.slots.tokens > 0
    case ConfirmSlot => at.Slotted?
    case Enter(k, j) =>
      && at.Idle? && s.stop != Exclusive && s.stop != QuitClosed
      && j.attempts == 0 && Fits(k, j, |s.slots.leases|)
    case CheckStop => at.Entered?
    case LoadBytes => at.Admitted?
    case SwapBytes => at.Loaded?
    case Transfer => at.Budgeted?
    case Abort => at.Sending? &&
      (at.kind == Critical || s.stop != Open || |s.lanes.At(at.kind).queue| >= SLOTS)
    case Refund => at.Refunding?
    case Send => at.Sending? && |s.lanes.At(at.kind).queue| < SLOTS
    case Leave => at.Leaving?
    case FinishLease => at.Left?
  }

  /** Critical jobs, and only those, carry a lease. */
  predicate Fits(k: Kind, j: Job, leases: nat) {
    && (k == Critical <==> j.lease.Some?)
    && (j.lease.Some? ==> j.lease.value < leases)
  }

  /** What a producer's act does to the slot pool and the leases ... */
  function ProducerSlots(s: State, p: nat, a: ProducerAct): Slots
    requires ProducerCan(s, p, a)
  {
    var at, sl := s.producers[p], s.slots;
    match a
    case TakeSlot => sl.(tokens := sl.tokens - 1)
    case ConfirmSlot =>
      if s.stop != Open then sl.(returning := sl.returning + 1)
      else sl.(leases := sl.leases + [Lease(CallerOwned, 0)])
    case Transfer => SwapLease(sl, at.job.lease, CallerOwned, WriterOwned)
    case FinishLease =>
      (match at.exit
       case LeaveIt => sl
       case CancelIt => SwapLease(sl, at.job.lease, CallerOwned, Released)
       case FinishIt => SwapLease(sl, at.job.lease, WriterOwned, Released))
    case _ => sl
  }

  /** ... to the lanes ... */
  function ProducerLanes(s: State, p: nat, a: ProducerAct): Lanes
    requires ProducerCan(s, p, a)
  {
    var at, ls := s.producers[p], s.lanes;
    match a
    case SwapBytes =>
      var lane := ls.At(at.kind);
      if lane.bytes != at.seen then ls
      else ls.With(at.kind, lane.(bytes := at.seen + at.job.bytes))
    case Refund =>
      var lane := ls.At(at.kind);
      ls.With(at.kind, lane.(bytes := lane.bytes - at.job.bytes))
    case Send =>
      var lane := ls.At(at.kind);
      ls.With(at.kind, lane.(queue := lane.queue + [at.job.(id := s.ledger.published)]))
    case _ => ls
  }

  /** ... and where it leaves the producer. */
  function ProducerPhase(s: State, p: nat, a: ProducerAct): Phase
    requires ProducerCan(s, p, a)
  {
    var at := s.producers[p];
    match a
    case TakeSlot => Slotted
    case ConfirmSlot => Idle
    case Enter(k, j) => Entered(k, j)
    case CheckStop =>
      if s.stop != Open then Leaving(at.kind, at.job, GiveUp(at.kind)) else Admitted(at.kind, at.job)
    case LoadBytes =>
      var seen, limit := s.lanes.At(at.kind).bytes, ByteLimit(at.kind);
      if at.job.bytes > limit || seen < 0 || seen > limit - at.job.bytes
      then Leaving(at.kind, at.job, GiveUp(at.kind)) else Loaded(at.kind, at.job, seen)
    case SwapBytes =>
      if s.lanes.At(at.kind).bytes != at.seen then Admitted(at.kind, at.job)
      else if at.kind == Critical then Budgeted(at.job) else Sending(at.kind, at.job)
    case Transfer =>
      if CallerHolds(s.slots, at.job.lease) then Sending(Critical, at.job)
      else Refunding(Critical, at.job, LeaveIt)
    case Abort => Refunding(at.kind, at.job, if at.kind == Critical then FinishIt else LeaveIt)
    case Refund => Leaving(at.kind, at.job, at.exit)
    case Send => Leaving(at.kind, at.job, LeaveIt)
    case Leave => Left(at.kind, at.job, at.exit)
    case FinishLease => Idle
  }

  function ProducerDo(s: State, p: nat, a: ProducerAct): State
    requires ProducerCan(s, p, a)
  {
    s.(slots := ProducerSlots(s, p, a), lanes := ProducerLanes(s, p, a),
       producers := s.producers[p := ProducerPhase(s, p, a)],
       ledger := if a == Send then s.ledger.(published := s.ledger.published + 1) else s.ledger)
  }

  /** The consumer phases during which the commit holds the lifecycle read lock. */
  predicate InCommit(c: Consumer) { c.Discarding? || c.Transacting? || c.Settling? }

  predicate ConsumerCan(s: State, a: ConsumerAct) {
    var c := s.consumer;
    match a
    case Receive(k) => c.Looping? && !s.lanes.At(k).stalled && s.lanes.At(k).queue != []
    case Tick(k) => c.Looping? && s.lanes.At(k).batch != []
    case FilterFails(learned) => c.Flushing? && learned <= s.db.functions
    case Filter => c.Flushing?
    case ReleaseNext => (c.Discarding? || c.Settling? || c.Failing?) && c.pending != []
    case Begin => c.Discarding? && c.pending == []
    case Transact(o) =>
      c.Transacting? && (o.Isolated? ==> |o.verdicts| == |s.lanes.At(c.kind).batch|)
    case Finish => ((c.Settling? || c.Failing?) && c.pending == []) || c.Returned?
    case StartDrain => c.Looping? && (s.stop == QuitClosed || s.stop == Fenced)
    case DrainOne(k) => c.Draining? && s.lanes.At(k).queue != []
    case DrainEmpty => c.Draining? && forall k :: s.lanes.At(k).queue == []
    case FinishLane => c.Finishing?
    case ZeroCounters => c.Zeroing?
  }

  /** What a consumer's act does to the slot pool and the leases ... */
  function ConsumerSlots(s: State, a: ConsumerAct): Slots
    requires ConsumerCan(s, a)
  {
    if a == ReleaseNext
    then SwapLease(s.slots, s.consumer.pending[0].lease, WriterOwned, Released) else s.slots
  }

  /** ... to the lanes ... */
  function ConsumerLanes(s: State, a: ConsumerAct): Lanes
    requires ConsumerCan(s, a)
  {
    var c, ls := s.consumer, s.lanes;
    match a
    case Receive(k) => ls.With(k, TakeOne(ls.At(k)))
    case DrainOne(k) => ls.With(k, TakeOne(ls.At(k)))
    case Filter =>
      ls.With(c.kind, ls.At(c.kind).(batch := Keep(ls.At(c.kind).batch, s.db.functions)))
    case Transact(o) => ls.With(c.kind, ls.At(c.kind).(batch := RetryOf(ls.At(c.kind).batch, o)))
    case Finish =>
      if !c.Returned? then ls
      else if c.final then ls.With(c.kind, ls.At(c.kind).(batch := []))
      else
        var lane := ls.At(c.kind);
        ls.With(c.kind, lane.(bytes := lane.bytes + BatchBytes(lane.batch) - c.owed,
                              stalled := lane.batch != []))
    case ZeroCounters =>
      Lanes(ls.critical.(bytes := 0), ls.activity.(bytes := 0), ls.telemetry.(bytes := 0))
    case _ => ls
  }

  function TakeOne(lane: Lane): Lane
    requires lane.queue != []
  {
    lane.(queue := lane.queue[1..], batch := lane.batch + [lane.queue[0]])
  }

  /** ... to the functions table, its cache and the rows ... */
  function ConsumerDb(s: State, a: ConsumerAct): Db
    requires ConsumerCan(s, a)
  {
    var db := s.db;
    match a
    case FilterFails(learned) => db.(live := db.live + learned)
    case Filter => db.(live := db.live + Owners(s.lanes.At(s.consumer.kind).batch) * db.functions)
    case Transact(o) => db.(rows := db.rows + RowsOf(WrittenBy(s.lanes.At(s.consumer.kind).batch, o)))
    case _ => db
  }

  function Owners(batch: seq<Job>): set<string> {
    set j | j in batch && j.functionId != "" :: j.functionId
  }

  /** What a pass with outcome `o` hands back for a retry, and what it resolves. */
  function RetryOf(work: seq<Job>, o: Outcome): seq<Job>
    requires o.Isolated? ==> |o.verdicts| == |work|
  {
    match o case NotApplied => work case Grouped => [] case Isolated(v) => Retry(work, v)
  }

  function ResolvedOf(work: seq<Job>, o: Outcome): seq<Job>
    requires o.Isolated? ==> |o.verdicts| == |work|
  {
    match o case NotApplied => [] case Grouped => work case Isolated(v) => Resolved(work, v)
  }

  /** The jobs whose statements the transaction kept. */
  function WrittenBy(work: seq<Job>, o: Outcome): seq<Job>
    requires o.Isolated? ==> |o.verdicts| == |work|
  {
    match o
    case NotApplied => []
    case Grouped => work
    case Isolated(v) => Written(work, v)
  }

  /** ... to the ledger ... */
  function ConsumerLedger(s: State, a: ConsumerAct): Ledger
    requires ConsumerCan(s, a)
  {
    var c, g := s.consumer, s.ledger;
    match a
    case Filter => g.(discarded := g.discarded + Ids(Gone(s.lanes.At(c.kind).batch, s.db.functions)))
    case Transact(o) =>
      var work := s.lanes.At(c.kind).batch;
      g.(committed := g.committed + Ids(WrittenBy(work, o)),
         shed := g.shed + if o.Isolated? then Ids(Shed(work, o.verdicts)) else [])
    case Finish =>
      if c.Returned? && c.final then g.(lost := g.lost + Ids(s.lanes.At(c.kind).batch)) else g
    case _ => g
  }

  /** The order of the last three commits. */
  function NextLane(k: Kind): Consumer {
    match k case Critical => Finishing(Activity) case Activity => Finishing(Telemetry) case Telemetry => Zeroing
  }

  function DropPending(c: Consumer): Consumer
    requires (c.Discarding? || c.Settling? || c.Failing?) && c.pending != []
  {
    c.(pending := c.pending[1..])
  }

  /** ... and where it leaves the consumer. */
  function ConsumerPhase(s: State, a: ConsumerAct): Consumer
    requires ConsumerCan(s, a)
  {
    var c := s.consumer;
    match a
    case Receive(k) => if |s.lanes.At(k).batch| + 1 >= BATCH_MAX then Flushing(k, false) else Looping
    case Tick(k) => Flushing(k, false)
    case FilterFails(_) => Returned(c.kind, c.final, BatchBytes(s.lanes.At(c.kind).batch))
    case Filter =>
      var batch := s.lanes.At(c.kind).batch;
      Discarding(c.kind, c.final, BatchBytes(batch), Gone(batch, s.db.functions))
    case ReleaseNext => DropPending(c)
    case Begin =>
      if s.lanes.At(c.kind).batch == [] then Returned(c.kind, c.final, c.owed)
      else Transacting(c.kind, c.final, c.owed)
    case Transact(o) =>
      var work := s.lanes.At(c.kind).batch;
      if o.NotApplied? then Returned(c.kind, c.final, c.owed)
      else Settling(c.kind, c.final, c.owed, ResolvedOf(work, o))
    case Finish =>
      if c.Settling? then Returned(c.kind, c.final, c.owed)
      else if c.Failing? then NextLane(c.kind)
      else if c.final then Failing(c.kind, s.lanes.At(c.kind).batch)
      else Looping
    case StartDrain => Draining
    case DrainOne(_) => Draining
    case DrainEmpty => Finishing(Critical)
    case FinishLane =>
      if s.lanes.At(c.kind).batch == [] then NextLane(c.kind) else Flushing(c.kind, true)
    case ZeroCounters => Done
  }

  function ConsumerDo(s: State, a: ConsumerAct): State
    requires ConsumerCan(s, a)
  {
    State(ConsumerSlots(s, a), ConsumerLanes(s, a), s.producers, s.stop,
          ConsumerPhase(s, a), ConsumerDb(s, a), ConsumerLedger(s, a))
  }

  /** Whether deleting function `id` removes row `r`, given all the rows. */
  predicate Doomed(r: Row, rows: seq<Row>, id: string) {
    || (r.table != ExecutionLogs && r.functionId == id)
    || (r.table != Executions
        && exists e :: e in rows && e.table == Executions && e.functionId == id && e.executionId == r.executionId)
  }

  function Surviving(from: seq<Row>, rows: seq<Row>, id: string): seq<Row> {
    if from == [] then [] else
    var init, r := Surviving(from[..|from| - 1], rows, id), from[|from| - 1];
    if Doomed(r, rows, id) then init else init + [r]
  }

  function Deleted(from: seq<Row>, rows: seq<Row>, id: string): seq<Row> {
    if from == [] then [] else
    var init, r := Deleted(from[..|from| - 1], rows, id), from[|from| - 1];
    if Doomed(r, rows, id) then init + [r] else init
  }

  predicate Can(s: State, st: Step) {
    match st
    case Producer(p, a) => ProducerCan(s, p, a)
    case Consume(a) => ConsumerCan(s, a)
    case Cancel(l) => l < |s.slots.leases|
    case PutBack => s.slots.returning > 0 && s.slots.tokens < SLOTS
    case RequestStop => s.stop == Open
    case LockFence => s.stop == Requested && forall i :: 0 <= i < |s.producers| ==> !Holding(s.producers[i])
    case CloseQuit => s.stop == Exclusive
    case UnlockFence => s.stop == QuitClosed
    case InsertFunction(id) => !InCommit(s.consumer)
    case DeleteFunction(id) => !InCommit(s.consumer)
  }

  function Do(s: State, st: Step): State
    requires Can(s, st)
  {
    match st
    case Producer(p, a) => ProducerDo(s, p, a)
    case Consume(a) => ConsumerDo(s, a)
    case Cancel(l) => s.(slots := SwapLease(s.slots, Some(l), CallerOwned, Released))
    case PutBack => s.(slots := Slots(s.slots.tokens + 1, s.slots.returning - 1, s.slots.leases))
    case RequestStop => s.(stop := Requested)
    case LockFence => s.(stop := Exclusive)
    case CloseQuit => s.(stop := QuitClosed)
    case UnlockFence => s.(stop := Fenced)
    case InsertFunction(id) =>
      s.(db := s.db.(functions := s.db.functions + {id}, live := s.db.live + {id}))
    case DeleteFunction(id) =>
      s.(db := Db(s.db.functions - {id}, s.db.live - {id}, Surviving(s.db.rows, s.db.rows, id),
                  s.db.erased + Deleted(s.db.rows, s.db.rows, id)))
  }

  /** The state after a run of steps, if every step was possible. */
  ghost predicate Runs(s: State, steps: seq<Step>, s': State)
    decreases |steps|
  {
    if steps == [] then s == s'
    else
      var n := |steps| - 1;
      exists mid :: Runs(s, steps[..n], mid) && Can(mid, steps[n]) && s' == Do(mid, steps[n])
  }
}
