/**
 Function code on disk through migration, directory renames, crashes, builds, deletions and garbage
 collection, as a system of steps.
 */
module DirProtocol {
  import opened Wrappers
  import opened UuidRewrite
  import opened DirRenames

  /** What a deploy put on disk. */
  type Code = nat

  /** A function directory: the codes of its versions, and the newest write time of it and of its versions directory. */
  datatype Tree = Tree(codes: set<Code>, wrote: int)

  /** A row some caller has in hand: it was read earlier, or names a version the caller found or built. */
  datatype Held = Held(fn: Id, row: Option<Code>)

  datatype Phase = Down | Booted | Reconciling(next: nat) | Serving

  /** The collector between ticks, with the row count, with count and page of a listing, or past its guards. */
  datatype Gc = Idle | Counted(total: nat) | Listed(live: set<Id>, total: nat, since: int) | Sweeping(live: set<Id>,
                               since: int)

  /**
   `functions` holds the code each row of the table names, if any; it, `disk`, `pending` and `migrated` survive a
   crash. A build holds its function's lock while the function is in `building`, and a deletion over HTTP while it is
   in `deleting`; updates and rollbacks write the rows they hold without it.
   */
  datatype State = State(
    functions: map<Id, Option<Code>>,
    disk: map<Id, Tree>,
    pending: seq<IdPair>,
    migrated: bool,
    phase: Phase,
    gc: Gc,
    building: set<Id>,
    deleting: set<Id>,
    held: set<Held>,
    now: int)

  datatype Step =
    | Tick(to: int)
    | Boot
    | Migrate(pairs: seq<IdPair>)
    | ReconcileOne
    | ReconcileDone
    | Crash
    | Insert(fn: Id)
    | Read(fn: Id, row: Option<Code>)
    | Write(fn: Id, row: Option<Code>)
    | Activate(fn: Id)
    | BuildBegin(fn: Id)
    | BuildPublish(fn: Id, code: Code)
    | BuildEnd(fn: Id)
    | DeleteRow(fn: Id)
    | DeleteLocked(fn: Id)
    | Purge(fn: Id)
    | GcCount
    | GcSelect(live: set<Id>)
    | GcGuard(read: Option<seq<IdPair>>)
    | GcRemove(fn: Id)
    | GcEnd

  /** Fifteen minutes, in seconds. */
  const GRACE: int := 900

  /** No listing returns more rows than this, whatever page size is asked for. */
  const MAX_PAGE: nat := 1000

  predicate Up(s: State) { s.phase.Reconciling? || s.phase.Serving? }

  predicate Unlocked(s: State, fn: Id) { fn !in s.building && fn !in s.deleting }

  /** A new id: in no table, directory, record, lock or hand. */
  predicate Fresh(s: State, fn: Id) {
    && fn.Uuid? && fn !in s.functions && fn !in s.disk && !IsNew(s.pending, fn) && Unlocked(s, fn)
    && forall h :: h in s.held ==> h.fn != fn
  }

  function Codes(disk: map<Id, Tree>, fn: Id): set<Code> { if fn in disk then disk[fn].codes else {} }

  predicate HasCode(disk: map<Id, Tree>, fn: Id, code: Code) { code in Codes(disk, fn) }

  /** The guards between listing the functions and sweeping; an unreadable record reads as `None`. */
  predicate MaySweep(listed: nat, total: nat, read: Option<seq<IdPair>>) {
    total <= listed && listed > 0 && read == Some([])
  }

  predicate Collectable(s: State, fn: Id) {
    fn in s.disk && s.disk[fn].wrote <= s.now - GRACE && Unlocked(s, fn)
  }

  /**
   What the program lets happen. A row in hand may be written at any later time, whether the table still has it or
   not; a deletion over HTTP purges the directory without looking at the table again.
   */
  predicate Can(s: State, st: Step) {
    match st
    case Tick(to) => s.now <= to
    case Boot => s.phase.Down?
    case Migrate(pairs) =>
      && s.phase.Booted?
      && if s.migrated then pairs == []
         else Renames(pairs, s.functions.Keys) && forall k :: 0 <= k < |pairs| ==> pairs[k].new_ !in s.disk
    case ReconcileOne => s.phase.Reconciling? && s.phase.next < |s.pending|
    case ReconcileDone => s.phase.Reconciling? && s.phase.next >= |s.pending|
    case Crash => true
    case Insert(fn) => s.phase.Serving? && Fresh(s, fn)
    case Read(fn, row) =>
      && s.phase.Serving? && fn in s.functions
      && (row == s.functions[fn] || (row.Some? && HasCode(s.disk, fn, row.value)))
    case Write(fn, row) => s.phase.Serving? && Held(fn, row) in s.held
    case Activate(fn) => s.phase.Serving? && fn in s.disk
    case BuildBegin(fn) => s.phase.Serving? && fn in s.functions && Unlocked(s, fn)
    case BuildPublish(fn, _) => s.phase.Serving? && fn in s.building
    case BuildEnd(fn) => fn in s.building
    case DeleteRow(fn) => s.phase.Serving? && fn in s.functions
    case DeleteLocked(fn) => s.phase.Serving? && fn in s.functions && Unlocked(s, fn)
    case Purge(fn) => s.phase.Serving? && fn in s.deleting
    case GcCount => Up(s) && s.gc.Idle?
    case GcSelect(live) =>
      && s.gc.Counted? && live <= s.functions.Keys
      && |live| == if |s.functions| <= MAX_PAGE then |s.functions| else MAX_PAGE
    case GcGuard(read) => s.gc.Listed? && (read.Some? ==> read.value == s.pending)
    case GcRemove(fn) => s.gc.Sweeping? && fn !in s.gc.live && Collectable(s, fn)
    case GcEnd => !s.gc.Idle?
  }

  /** A listing at hand that passes for complete. */
  predicate LooksComplete(gc: Gc) { gc.Sweeping? || (gc.Listed? && gc.total <= |gc.live|) }

  /** The steps that take no code from a row: removals and purges of no live code, and writes of code on disk. */
  predicate KeepsCode(s: State, st: Step)
    requires Can(s, st)
  {
    match st
    case GcRemove(fn) => fn in s.functions ==> s.functions[fn].None?
    case Purge(fn) => fn in s.functions ==> s.functions[fn].None?
    case Write(fn, row) => row.Some? ==> HasCode(s.disk, fn, row.value)
    case _ => true
  }

  /**
   The steps that deceive no sweep: a page that misses no function with an older directory unless it is seen to be
   incomplete, and a write unless it brings back a deleted function behind a listing older than its directory.
   */
  predicate KeepsListing(s: State, st: Step)
    requires Can(s, st)
  {
    match st
    case GcSelect(live) => s.gc.total <= |live| ==> Witnessed(s, live, s.now)
    case Write(fn, _) =>
      fn in s.functions || !LooksComplete(s.gc) || fn in s.gc.live || fn !in s.disk || s.disk[fn].wrote >= s.gc.since
    case _ => true
  }

  predicate Harmless(s: State, st: Step)
    requires Can(s, st)
  {
    KeepsCode(s, st) && KeepsListing(s, st)
  }

  /** What has to be assumed for that: short ticks, no page cut off after a smaller count, no write of a deleted row. */
  predicate Assumed(s: State, st: Step)
    requires Can(s, st)
  {
    match st
    case GcRemove(fn) => s.now - s.gc.since < GRACE
    case GcSelect(live) => |s.functions| <= MAX_PAGE || s.gc.total > MAX_PAGE
    case Write(fn, _) => fn in s.functions
    case _ => true
  }

  function Do(s: State, st: Step): State
    requires Can(s, st)
  {
    match st
    case Tick(to) => s.(now := to)
    case Boot => s.(phase := Booted)
    case Migrate(pairs) =>
      if s.migrated then s.(phase := Reconciling(0))
      else s.(functions := RenameAll(s.functions, pairs), pending := pairs, migrated := true, phase := Reconciling(0))
    case ReconcileOne =>
      s.(disk := RenameOne(s.disk, s.pending[s.phase.next]), phase := Reconciling(s.phase.next + 1))
    case ReconcileDone => s.(pending := [], phase := Serving)
    case Crash => s.(phase := Down, gc := Idle, building := {}, deleting := {}, held := {})
    case Insert(fn) => s.(functions := s.functions[fn := None])
    case Read(fn, row) => s.(held := s.held + {Held(fn, row)})
    case Write(fn, row) => s.(functions := s.functions[fn := row])
    case Activate(fn) => s.(disk := s.disk[fn := s.disk[fn].(wrote := s.now)])
    case BuildBegin(fn) => s.(building := s.building + {fn})
    case BuildPublish(fn, code) =>
      s.(disk := s.disk[fn := Tree(Codes(s.disk, fn) + {code}, s.now)],
         held := s.held + {Held(fn, Some(code))})
    case BuildEnd(fn) => s.(building := s.building - {fn})
    case DeleteRow(fn) => s.(functions := s.functions - {fn})
    case DeleteLocked(fn) => s.(functions := s.functions - {fn}, deleting := s.deleting + {fn})
    case Purge(fn) => s.(disk := s.disk - {fn}, deleting := s.deleting - {fn})
    case GcCount => s.(gc := Counted(|s.functions|))
    case GcSelect(live) => s.(gc := Listed(live, s.gc.total, s.now))
    case GcGuard(read) =>
      s.(gc := if MaySweep(|s.gc.live|, s.gc.total, read) then Sweeping(s.gc.live, s.gc.since) else Idle)
    case GcRemove(fn) => s.(disk := s.disk - {fn})
    case GcEnd => s.(gc := Idle)
  }

  /** Runs of harmless steps. */
  ghost predicate Runs(s: State, steps: seq<Step>, s': State)
    decreases |steps|
  {
    if steps == [] then s == s'
    else
      var n := |steps| - 1;
      exists mid :: Runs(s, steps[..n], mid) && Can(mid, steps[n]) && Harmless(mid, steps[n]) && s' == Do(mid, steps[n])
  }

  /** Runs in which the assumptions are met. */
  ghost predicate RunsAsAssumed(s: State, steps: seq<Step>, s': State)
    decreases |steps|
  {
    if steps == [] then s == s'
    else
      var n := |steps| - 1;
      exists mid ::
        RunsAsAssumed(s, steps[..n], mid) && Can(mid, steps[n]) && Assumed(mid, steps[n]) && s' == Do(mid, steps[n])
  }

  /** A stopped, unmigrated installation with any functions and directories, all code in place. */
  predicate Init(s: State) {
    && s.phase.Down? && s.gc.Idle? && s.pending == [] && !s.migrated
    && s.building == {} && s.deleting == {} && s.held == {}
    && forall f :: f in s.functions && s.functions[f].Some? ==> InPlace(s, f)
  }

  ghost predicate Reachable(s: State) {
    exists s0, steps :: Init(s0) && Runs(s0, steps, s)
  }

  ghost predicate ReachableAsAssumed(s: State) {
    exists s0, steps :: Init(s0) && RunsAsAssumed(s0, steps, s)
  }

  // ---------------------------------------------------------------- what every step keeps

  /** The function's code is in the directory of its id. */
  predicate InPlace(s: State, f: Id)
    requires f in s.functions && s.functions[f].Some?
  {
    HasCode(s.disk, f, s.functions[f].value)
  }

  /** The function's code still waits under the old name of a recorded pair. */
  predicate Waits(s: State, f: Id, k: int)
    requires f in s.functions && s.functions[f].Some?
  {
    && 0 <= k < |s.pending| && s.pending[k].new_ == f && f !in s.disk
    && HasCode(s.disk, s.pending[k].old_, s.functions[f].value)
  }

  /** The first pair a run of renames has not handled. */
  function From(s: State): nat { if s.phase.Reconciling? then s.phase.next else 0 }

  predicate Housed(s: State, f: Id)
    requires f in s.functions && s.functions[f].Some?
  {
    InPlace(s, f) || exists k :: From(s) <= k < |s.pending| && Waits(s, f, k)
  }

  predicate Safe(s: State) {
    forall f :: f in s.functions && s.functions[f].Some? ==> Housed(s, f)
  }

  predicate Recorded(s: State) {
    && WellPaired(s.pending)
    && (!s.migrated ==> s.pending == [])
    && (Up(s) ==> s.migrated)
    && (forall k :: 0 <= k < |s.pending| ==> s.pending[k].old_ !in s.functions)
    && (s.phase.Serving? ==> s.pending == [])
  }

  /** A complete listing misses only functions inserted since, whose directories are younger. */
  predicate Witnessed(s: State, live: set<Id>, since: int) {
    && (s.phase.Reconciling? ==> s.functions.Keys <= live)
    && (forall f :: f in s.functions && f !in live && f in s.disk ==> s.disk[f].wrote >= since)
  }

  predicate Listing(s: State) {
    match s.gc
    case Idle => true
    case Counted(_) => Up(s)
    case Listed(live, total, since) => Up(s) && since <= s.now && (total <= |live| ==> Witnessed(s, live, since))
    case Sweeping(live, since) => Up(s) && since <= s.now && s.pending == [] && Witnessed(s, live, since)
  }

  predicate Inv(s: State) { Safe(s) && Recorded(s) && Listing(s) }

  /** The migrated table: a row is either an untouched one or the renamed row of a pair. */
  lemma MigratedRow(functions: map<Id, Option<Code>>, pairs: seq<IdPair>, f: Id) returns (k: int)
    requires Renames(pairs, functions.Keys) && f in RenameAll(functions, pairs)
    ensures !IsOld(pairs, f)
    ensures 0 <= k < |pairs| ==>
              pairs[k].new_ == f && pairs[k].old_ in functions && RenameAll(functions, pairs)[f] == functions[pairs[k].old_]
    ensures !(0 <= k < |pairs|) ==> f in functions && RenameAll(functions, pairs)[f] == functions[f]
  {
    if IsOld(pairs, f) {
      var i :| 0 <= i < |pairs| && pairs[i].old_ == f;
      EveryPairMoves(functions, pairs, i);
      assert false;
    }
    if IsNew(pairs, f) {
      k :| 0 <= k < |pairs| && pairs[k].new_ == f;
      EveryPairMoves(functions, pairs, k);
    } else {
      k := -1;
      OthersStay(functions, pairs, f);
    }
  }

  lemma MigrateKeepsSafe(s: State, pairs: seq<IdPair>)
    requires Can(s, Migrate(pairs)) && Inv(s) && !s.migrated
    ensures Safe(Do(s, Migrate(pairs)))
  {
    var t := Do(s, Migrate(pairs));
    forall f | f in t.functions && t.functions[f].Some? ensures Housed(t, f) {
      var k := MigratedRow(s.functions, pairs, f);
      if 0 <= k < |pairs| {
        assert InPlace(s, pairs[k].old_);
        assert Waits(t, f, k);
      } else {
        assert InPlace(s, f);
      }
    }
  }

  lemma MigrateKeepsRecorded(s: State, pairs: seq<IdPair>)
    requires Can(s, Migrate(pairs)) && Inv(s)
    ensures Recorded(Do(s, Migrate(pairs)))
  {
    if !s.migrated {
      forall k | 0 <= k < |pairs| ensures pairs[k].old_ !in RenameAll(s.functions, pairs) {
        EveryPairMoves(s.functions, pairs, k);
      }
    }
  }

  lemma RenameKeepsSafe(s: State)
    requires Can(s, ReconcileOne) && Inv(s)
    ensures Safe(Do(s, ReconcileOne))
  {
    var t := Do(s, ReconcileOne);
    var i := s.phase.next;
    forall f | f in t.functions && t.functions[f].Some? ensures Housed(t, f) {
      assert Housed(s, f);
      if InPlace(s, f) {
        assert f != s.pending[i].old_;
        assert InPlace(t, f);
      } else {
        var k :| From(s) <= k < |s.pending| && Waits(s, f, k);
        if k == i {
          assert InPlace(t, f);
        } else {
          assert s.pending[k].old_ != s.pending[i].old_ && s.pending[k].new_ != s.pending[i].new_;
          assert s.pending[k].old_.Text? && s.pending[i].new_.Uuid?;
          assert Waits(t, f, k);
        }
      }
    }
  }

  lemma OthersKeepSafe(s: State, st: Step)
    requires Can(s, st) && Inv(s) && !st.ReconcileOne? && (st.Migrate? ==> s.migrated) && KeepsCode(s, st)
    ensures Safe(Do(s, st))
  {
    var t := Do(s, st);
    forall f | f in t.functions && t.functions[f].Some? ensures Housed(t, f) {
      if st.Write? && st.fn == f {
        assert InPlace(t, f);
      } else {
        assert Housed(s, f);
        if InPlace(s, f) {
          assert InPlace(t, f);
        } else {
          var k :| From(s) <= k < |s.pending| && Waits(s, f, k);
          assert Waits(t, f, k);
        }
      }
    }
  }

  /** Every step the program allows keeps all code housed exactly if it takes no code from a row. */
  lemma SafeKeptIff(s: State, st: Step)
    requires Can(s, st) && Inv(s)
    ensures Safe(Do(s, st)) <==> KeepsCode(s, st)
  {
    if st.Migrate? && !s.migrated {
      MigrateKeepsSafe(s, st.pairs);
    } else if st.ReconcileOne? {
      RenameKeepsSafe(s);
    } else if KeepsCode(s, st) {
      OthersKeepSafe(s, st);
    } else {
      assert s.pending == [];
      assert !Housed(Do(s, st), st.fn);
    }
  }

  lemma RecordedKept(s: State, st: Step)
    requires Can(s, st) && Inv(s)
    ensures Recorded(Do(s, st))
  {
    if st.Migrate? {
      MigrateKeepsRecorded(s, st.pairs);
    }
  }

  lemma {:induction false} SubsetOfSameSize<T>(a: set<T>, b: set<T>)
    requires a <= b && |b| <= |a|
    ensures a == b
  {
    if b != {} {
      var x :| x in b;
      if x in a {
        SubsetOfSameSize(a - {x}, b - {x});
      } else {
        SubsetIsNoLarger(a, b - {x});
      }
    }
  }

  lemma {:induction false} SubsetIsNoLarger<T>(a: set<T>, b: set<T>)
    requires a <= b
    ensures |a| <= |b|
  {
    if a != {} {
      var x :| x in a;
      SubsetIsNoLarger(a - {x}, b - {x});
    }
  }

  lemma OthersKeepListing(s: State, st: Step)
    requires Can(s, st) && Inv(s) && !st.GcSelect? && !st.Write?
    ensures Listing(Do(s, st))
  {
  }

  lemma SelectKeepsListingIff(s: State, live: set<Id>)
    requires Can(s, GcSelect(live)) && Inv(s)
    ensures Listing(Do(s, GcSelect(live))) <==> KeepsListing(s, GcSelect(live))
  {
  }

  lemma WriteKeepsListingIff(s: State, fn: Id, row: Option<Code>)
    requires Can(s, Write(fn, row)) && Inv(s)
    ensures Listing(Do(s, Write(fn, row))) <==> KeepsListing(s, Write(fn, row))
  {
  }

  /** And keeps the listing sound exactly if it deceives no sweep. */
  lemma ListingKeptIff(s: State, st: Step)
    requires Can(s, st) && Inv(s)
    ensures Listing(Do(s, st)) <==> KeepsListing(s, st)
  {
    match st
    case GcSelect(live) => SelectKeepsListingIff(s, live);
    case Write(fn, row) => WriteKeepsListingIff(s, fn, row);
    case _ => OthersKeepListing(s, st);
  }

  lemma InvKeptIff(s: State, st: Step)
    requires Can(s, st) && Inv(s)
    ensures Inv(Do(s, st)) <==> Harmless(s, st)
  {
    SafeKeptIff(s, st);
    RecordedKept(s, st);
    ListingKeptIff(s, st);
  }

  /** From every reachable state, of every step the program allows, exactly the harmless ones keep the invariant. */
  lemma StepIsSafeIff(s: State, st: Step)
    requires Reachable(s) && Can(s, st)
    ensures Inv(Do(s, st)) <==> Harmless(s, st)
  {
    ReachableKeepsInv(s);
    InvKeptIff(s, st);
  }

  lemma {:induction false} RunsKeepInv(s: State, steps: seq<Step>, s': State)
    requires Inv(s) && Runs(s, steps, s')
    ensures Inv(s')
    decreases |steps|
  {
    if steps != [] {
      var n := |steps| - 1;
      var mid :| Runs(s, steps[..n], mid) && Can(mid, steps[n]) && Harmless(mid, steps[n]) && s' == Do(mid, steps[n]);
      RunsKeepInv(s, steps[..n], mid);
      InvKeptIff(mid, steps[n]);
    }
  }

  lemma ReachableKeepsInv(s: State)
    requires Reachable(s)
    ensures Inv(s)
  {
    var s0, steps :| Init(s0) && Runs(s0, steps, s);
    RunsKeepInv(s0, steps, s);
  }

  // ---------------------------------------------------------------- runs as assumed

  /** A held row of a function that was not deleted names code on disk, and a function being deleted has no row. */
  predicate RowsSound(s: State) {
    && (forall h :: h in s.held && h.row.Some? && h.fn in s.functions ==> HasCode(s.disk, h.fn, h.row.value))
    && (forall f :: f in s.deleting ==> f !in s.functions)
    && (!s.phase.Serving? ==> s.held == {} && s.deleting == {})
  }

  /** A removal within a short tick is of no function's directory. */
  lemma ShortTickRemovesOrphans(s: State, fn: Id)
    requires Inv(s) && Can(s, GcRemove(fn)) && s.now - s.gc.since < GRACE
    ensures fn !in s.functions && Harmless(s, GcRemove(fn))
  {
  }

  lemma FullPageIsSound(s: State, live: set<Id>)
    requires Inv(s) && Can(s, GcSelect(live)) && Assumed(s, GcSelect(live))
    ensures Harmless(s, GcSelect(live))
  {
    if |s.functions| <= |live| {
      assert |s.functions| == |s.functions.Keys|;
      SubsetOfSameSize(live, s.functions.Keys);
    }
  }

  /** The assumptions suffice for one step, and last. */
  lemma AssumedKept(s: State, st: Step)
    requires Inv(s) && RowsSound(s) && Can(s, st) && Assumed(s, st)
    ensures Harmless(s, st) && RowsSound(Do(s, st))
  {
    if st.GcRemove? {
      ShortTickRemovesOrphans(s, st.fn);
    } else if st.GcSelect? {
      FullPageIsSound(s, st.live);
    } else if st.Read? && s.functions[st.fn].Some? {
      assert Housed(s, st.fn);
    }
  }

  lemma {:induction false} AssumedRunsAreHarmless(s: State, steps: seq<Step>, s': State)
    requires Inv(s) && RowsSound(s) && RunsAsAssumed(s, steps, s')
    ensures Runs(s, steps, s') && Inv(s') && RowsSound(s')
    decreases |steps|
  {
    if steps != [] {
      var n := |steps| - 1;
      var mid :|
        RunsAsAssumed(s, steps[..n], mid) && Can(mid, steps[n]) && Assumed(mid, steps[n]) && s' == Do(mid, steps[n]);
      AssumedRunsAreHarmless(s, steps[..n], mid);
      AssumedKept(mid, steps[n]);
      InvKeptIff(mid, steps[n]);
    }
  }

  lemma AssumedIsReachable(s: State)
    requires ReachableAsAssumed(s)
    ensures Reachable(s) && Inv(s) && RowsSound(s)
  {
    var s0, steps :| Init(s0) && RunsAsAssumed(s0, steps, s);
    AssumedRunsAreHarmless(s0, steps, s);
  }

  /** The assumptions suffice throughout: where they were met so far, they make the next step harmless. */
  lemma AssumedIsHarmless(s: State, st: Step)
    requires ReachableAsAssumed(s) && Can(s, st) && Assumed(s, st)
    ensures Harmless(s, st)
  {
    AssumedIsReachable(s);
    AssumedKept(s, st);
  }

  // ---------------------------------------------------------------- the promises

  lemma CodeIsHoused(s: State, f: Id)
    requires Reachable(s) && f in s.functions && s.functions[f].Some?
    ensures InPlace(s, f) || exists k :: Waits(s, f, k)
    ensures s.phase.Serving? ==> s.pending == [] && InPlace(s, f)
  {
    ReachableKeepsInv(s);
    assert Housed(s, f);
    if !InPlace(s, f) {
      var k :| From(s) <= k < |s.pending| && Waits(s, f, k);
    }
  }

  /**
   In every run that meets the assumptions each function's code is on disk: under its id, or under the old name of the
   recorded pair that renames it.
   */
  lemma CodeSurvives(s: State, f: Id)
    requires ReachableAsAssumed(s) && f in s.functions && s.functions[f].Some?
    ensures InPlace(s, f) || exists k :: Waits(s, f, k)
  {
    AssumedIsReachable(s);
    CodeIsHoused(s, f);
  }

  /** Once the renames are reconciled, all code is under the ids and stays there while serving. */
  lemma ReconciledCodeIsInPlace(s: State, f: Id)
    requires ReachableAsAssumed(s) && s.phase.Serving? && f in s.functions && s.functions[f].Some?
    ensures s.pending == [] && InPlace(s, f)
  {
    AssumedIsReachable(s);
    CodeIsHoused(s, f);
  }

  /** Within a short tick the sweep only ever removes old, unlocked directories of no function. */
  lemma SweepRemovesOnlyOrphans(s: State, f: Id)
    requires Reachable(s) && Can(s, GcRemove(f)) && s.now - s.gc.since < 900
    ensures f !in s.functions && s.pending == [] && f !in s.building && f !in s.deleting
    ensures f in s.disk && s.disk[f].wrote + 900 <= s.now
  {
    ReachableKeepsInv(s);
    ShortTickRemovesOrphans(s, f);
  }

  /** Directory names and ids may disagree only while the record says so, and then no sweep runs. */
  lemma NoSweepWhileNamesDisagree(s: State, f: Id)
    requires Reachable(s) && f in s.functions && s.functions[f].Some? && !InPlace(s, f)
    ensures !s.gc.Sweeping? && !s.phase.Serving?
  {
    ReachableKeepsInv(s);
    assert Housed(s, f);
  }

  /** The boot's renaming loop is this protocol's rename steps, so its directories are those of `RenameAll`. */
  lemma {:induction false} ReconcileIsProtocolSteps(s: State, n: nat) returns (steps: seq<Step>)
    requires s.phase == Reconciling(0) && n <= |s.pending|
    ensures Runs(s, steps, s.(disk := RenameAll(s.disk, s.pending[..n]), phase := Reconciling(n)))
  {
    if n == 0 {
      steps := [];
    } else {
      steps := ReconcileIsProtocolSteps(s, n - 1);
      assert s.pending[..n][..n - 1] == s.pending[..n - 1];
      OneMoreStep(s, steps, s.(disk := RenameAll(s.disk, s.pending[..n - 1]), phase := Reconciling(n - 1)), ReconcileOne);
      steps := steps + [ReconcileOne];
    }
  }

  /** The sweeps of a tick run exactly for a table of one to a thousand rows with no rename outstanding. */
  lemma SweepsRunIff(s: State, live: set<Id>)
    requires Can(s, GcCount) && Can(Do(s, GcCount), GcSelect(live))
    ensures var listed := Do(Do(s, GcCount), GcSelect(live));
            && Can(listed, GcGuard(Some(s.pending)))
            && (Do(listed, GcGuard(Some(s.pending))).gc.Sweeping?
                <==> 1 <= |s.functions| <= 1000 && s.pending == [])
  {
  }

  // ---------------------------------------------------------------- what each safeguard is for

  lemma OneMoreStep(s0: State, steps: seq<Step>, s: State, st: Step)
    requires Runs(s0, steps, s) && Can(s, st) && Harmless(s, st)
    ensures Runs(s0, steps + [st], Do(s, st))
  {
    assert (steps + [st])[..|steps|] == steps;
  }

  lemma ReachableStep(s: State, st: Step)
    requires Reachable(s) && Can(s, st) && Harmless(s, st)
    ensures Reachable(Do(s, st))
  {
    var s0, steps :| Init(s0) && Runs(s0, steps, s);
    OneMoreStep(s0, steps, s, st);
  }

  lemma ReachableStart(s: State)
    requires Init(s)
    ensures Reachable(s)
  {
    assert Runs(s, [], s);
  }

  function Serves(functions: map<Id, Option<Code>>, disk: map<Id, Tree>): State {
    State(functions, disk, [], true, Serving, Idle, {}, {}, {}, 0)
  }

  /** A migrated installation that serves the given functions, with any code in place. */
  lemma ServingReachable(functions: map<Id, Option<Code>>, disk: map<Id, Tree>)
    requires forall f :: f in functions ==> f.Uuid?
    requires forall f :: f in functions && functions[f].Some? ==> HasCode(disk, f, functions[f].value)
    ensures Reachable(Serves(functions, disk))
  {
    var s := Serves(functions, disk).(migrated := false, phase := Down);
    ReachableStart(s);
    ReachableStep(s, Boot);
    s := s.(phase := Booted);
    assert RenameAll(s.functions, []) == s.functions;
    ReachableStep(s, Migrate([]));
    s := s.(migrated := true, phase := Reconciling(0));
    ReachableStep(s, ReconcileDone);
  }

  /** A tick lists a small table as it is and starts to sweep. */
  lemma SweepStarts(s: State)
    requires Reachable(s) && s.phase.Serving? && s.gc.Idle? && s.pending == [] && 0 < |s.functions| <= MAX_PAGE
    ensures Reachable(s.(gc := Sweeping(s.functions.Keys, s.now)))
  {
    var live := s.functions.Keys;
    assert |live| == |s.functions|;
    ReachableStep(s, GcCount);
    var counted := s.(gc := Counted(|live|));
    ReachableStep(counted, GcSelect(live));
    ReachableStep(s.(gc := Listed(live, |live|, s.now)), GcGuard(Some([])));
  }

  lemma SweepingOneFunction(a: Id)
    requires a.Uuid?
    ensures Reachable(Serves(map[a := None], map[]).(gc := Sweeping({a}, 0)))
  {
    ServingReachable(map[a := None], map[]);
    var s := Serves(map[a := None], map[]);
    assert s.functions.Keys == {a} && |s.functions.Keys| == |s.functions|;
    SweepStarts(s);
  }

  /** A new function whose build has begun. */
  lemma BuildStarts(s: State, f: Id)
    requires Reachable(s) && s.phase.Serving? && Fresh(s, f)
    ensures Reachable(s.(functions := s.functions[f := None], building := s.building + {f}))
  {
    ReachableStep(s, Insert(f));
    ReachableStep(s.(functions := s.functions[f := None]), BuildBegin(f));
  }

  /** What is left by a build that publishes its code and writes the row. */
  function Built(s: State, f: Id, code: Code): State {
    s.(functions := s.functions[f := Some(code)], building := s.building - {f},
       disk := s.disk[f := Tree(Codes(s.disk, f) + {code}, s.now)], held := s.held + {Held(f, Some(code))})
  }

  lemma BuildFinishes(s: State, f: Id, code: Code)
    requires Reachable(s) && s.phase.Serving? && f in s.building && f in s.functions
    ensures Reachable(Built(s, f, code))
  {
    ReachableStep(s, BuildPublish(f, code));
    var published := s.(disk := s.disk[f := Tree(Codes(s.disk, f) + {code}, s.now)],
                        held := s.held + {Held(f, Some(code))});
    ReachableStep(published, Write(f, Some(code)));
    ReachableStep(published.(functions := s.functions[f := Some(code)]), BuildEnd(f));
  }

  /** A tick that outlasts the grace period may remove the code of a function created meanwhile. */
  lemma SlowTickRemovesLiveCode(a: Id, f: Id) returns (s: State)
    requires a.Uuid? && f.Uuid? && a != f
    ensures Reachable(s) && Can(s, GcRemove(f)) && s.now - s.gc.since == 900
    ensures f in s.functions && s.functions[f].Some? && InPlace(s, f)
  {
    SweepingOneFunction(a);
    s := Serves(map[a := None], map[]).(gc := Sweeping({a}, 0));
    BuildStarts(s, f);
    s := s.(functions := s.functions[f := None], building := s.building + {f});
    BuildFinishes(s, f, 0);
    s := Built(s, f, 0);
    ReachableStep(s, Tick(GRACE));
    s := s.(now := GRACE);
  }

  /**
   Counting a thousand rows and reading the page after one more was inserted leaves out an older function, and
   its code may be removed at once: the listing looks complete.
   */
  lemma TruncatedListingLooksComplete(functions: map<Id, Option<Code>>, f: Id, g: Id, code: Code)
    returns (s: State, live: set<Id>)
    requires |functions| == MAX_PAGE && (forall h :: h in functions ==> h.Uuid? && (h != f ==> functions[h].None?))
    requires f in functions && functions[f] == Some(code) && g.Uuid? && g !in functions
    ensures Reachable(s) && Can(s, GcSelect(live)) && !Harmless(s, GcSelect(live))
    ensures var listed := Do(s, GcSelect(live));
            && Can(listed, GcGuard(Some([]))) && Can(Do(listed, GcGuard(Some([]))), GcRemove(f))
            && f in listed.functions && listed.functions[f] == Some(code) && InPlace(listed, f)
            && s.gc.total == MAX_PAGE && |s.functions| == MAX_PAGE + 1
  {
    var disk := map[f := Tree({code}, 0)];
    ServingReachable(functions, disk);
    CountedThenInserted(functions, disk, g);
    s := Serves(functions[g := None], disk).(gc := Counted(MAX_PAGE), now := GRACE);
    live := functions.Keys - {f} + {g};
    assert |functions.Keys| == |functions| && |s.functions.Keys| == |s.functions|;
    assert s.functions.Keys == functions.Keys + {g};
    assert |functions.Keys - {f}| == MAX_PAGE - 1;
  }

  /** A thousand rows are counted, one more is inserted, and the grace period passes. */
  lemma CountedThenInserted(functions: map<Id, Option<Code>>, disk: map<Id, Tree>, g: Id)
    requires |functions| == MAX_PAGE && g.Uuid? && g !in functions && g !in disk && Reachable(Serves(functions, disk))
    ensures Reachable(Serves(functions[g := None], disk).(gc := Counted(MAX_PAGE), now := GRACE))
  {
    var s := Serves(functions, disk);
    ReachableStep(s, GcCount);
    s := s.(gc := Counted(MAX_PAGE));
    ReachableStep(s, Insert(g));
    ReachableStep(s.(functions := functions[g := None]), Tick(GRACE));
  }

  /** Two functions, one with code whose row a caller has just read. */
  lemma RowInHand(a: Id, f: Id)
    requires a.Uuid? && f.Uuid? && a != f
    ensures Reachable(Serves(map[a := None, f := Some(0)], map[f := Tree({0}, 0)]).(held := {Held(f, Some(0))}))
  {
    var s := Serves(map[a := None, f := Some(0)], map[f := Tree({0}, 0)]);
    ServingReachable(s.functions, s.disk);
    ReachableStep(s, Read(f, Some(0)));
    assert {} + {Held(f, Some(0))} == {Held(f, Some(0))};
  }

  lemma RowOfDeleted(a: Id, f: Id)
    requires a.Uuid? && f.Uuid? && a != f
    ensures Reachable(Serves(map[a := None], map[f := Tree({0}, 0)]).(held := {Held(f, Some(0))}, now := 1))
  {
    RowInHand(a, f);
    var s := Serves(map[a := None, f := Some(0)], map[f := Tree({0}, 0)]).(held := {Held(f, Some(0))});
    ReachableStep(s, DeleteRow(f));
    assert s.functions - {f} == map[a := None];
    ReachableStep(s.(functions := map[a := None]), Tick(1));
  }

  /**
   A function deleted and listed as gone comes back when an update that read its row before writes it; its code, written
   before the listing, may then be removed within a short tick. No build takes part.
   */
  lemma UpdateBehindTheListing(a: Id, f: Id) returns (s: State)
    requires a.Uuid? && f.Uuid? && a != f
    ensures Reachable(s) && s.building == {} && Can(s, Write(f, Some(0))) && !Harmless(s, Write(f, Some(0)))
    ensures var back := Do(s, Write(f, Some(0)));
            && f in back.functions && back.functions[f].Some? && InPlace(back, f)
            && Can(back, Tick(GRACE)) && Can(Do(back, Tick(GRACE)), GcRemove(f)) && GRACE - s.gc.since < GRACE
  {
    RowOfDeleted(a, f);
    s := Serves(map[a := None], map[f := Tree({0}, 0)]).(held := {Held(f, Some(0))}, now := 1);
    assert s.functions.Keys == {a} && |s.functions.Keys| == |s.functions|;
    SweepStarts(s);
    s := s.(gc := Sweeping({a}, 1));
  }

  lemma DeletedAndRewritten(a: Id, f: Id)
    requires a.Uuid? && f.Uuid? && a != f
    ensures Reachable(Serves(map[a := None, f := Some(0)], map[f := Tree({0}, 0)])
                      .(held := {Held(f, Some(0))}, deleting := {f}))
  {
    RowInHand(a, f);
    var both := map[a := None, f := Some(0)];
    var s := Serves(both, map[f := Tree({0}, 0)]).(held := {Held(f, Some(0))});
    ReachableStep(s, DeleteLocked(f));
    assert both - {f} == map[a := None] && map[a := None][f := Some(0)] == both && {} + {f} == {f};
    ReachableStep(s.(functions := map[a := None], deleting := {f}), Write(f, Some(0)));
  }

  /**
   A deletion purges without looking again. If an update that read the row before writes it in between, which the lock
   does not prevent, the purge removes the code of a live row. Neither a build nor the collector takes part.
   */
  lemma PurgeTakesRewrittenCode(a: Id, f: Id) returns (s: State)
    requires a.Uuid? && f.Uuid? && a != f
    ensures Reachable(s) && s.building == {} && s.gc.Idle? && f in s.functions && s.functions[f].Some? && InPlace(s, f)
    ensures Can(s, Purge(f)) && !Safe(Do(s, Purge(f)))
  {
    DeletedAndRewritten(a, f);
    s := Serves(map[a := None, f := Some(0)], map[f := Tree({0}, 0)]).(held := {Held(f, Some(0))}, deleting := {f});
    LostWithItsDirectory(Do(s, Purge(f)), f);
  }

  lemma LostWithItsDirectory(s: State, f: Id)
    requires f in s.functions && s.functions[f].Some? && s.pending == [] && f !in s.disk
    ensures !Safe(s)
  {
    assert !Housed(s, f);
  }

  /** An update that read its row before a deploy puts the old version back into it: the deploy is lost, no code is. */
  lemma UpdateUndoesDeploy(a: Id, f: Id) returns (s: State)
    requires a.Uuid? && f.Uuid? && a != f
    ensures Reachable(s) && f in s.functions && s.functions[f] == Some(1) && InPlace(s, f)
    ensures Can(s, Write(f, Some(0))) && Harmless(s, Write(f, Some(0)))
    ensures Do(s, Write(f, Some(0))).functions[f] == Some(0)
  {
    RowInHand(a, f);
    s := Serves(map[a := None, f := Some(0)], map[f := Tree({0}, 0)]).(held := {Held(f, Some(0))});
    ReachableStep(s, BuildBegin(f));
    s := s.(building := s.building + {f});
    BuildFinishes(s, f, 1);
    s := Built(s, f, 1);
  }

  lemma JustMigrated(old_: Id, f: Id)
    requires Legacy(Some(old_)) && f.Uuid?
    ensures Reachable(Serves(map[f := Some(0)], map[old_ := Tree({0}, 0)])
                      .(pending := [IdPair(old_, f)], phase := Reconciling(0)))
  {
    var pairs := [IdPair(old_, f)];
    var s := Serves(map[old_ := Some(0)], map[old_ := Tree({0}, 0)]).(migrated := false, phase := Down);
    ReachableStart(s);
    ReachableStep(s, Boot);
    s := s.(phase := Booted);
    OnePairRenames(old_, f);
    ReachableStep(s, Migrate(pairs));
  }

  lemma OnePairRenames(old_: Id, f: Id)
    requires Legacy(Some(old_)) && f.Uuid?
    ensures var pairs, functions: map<Id, Option<Code>> := [IdPair(old_, f)], map[old_ := Some(0)];
            Renames(pairs, functions.Keys) && RenameAll(functions, pairs) == map[f := Some(0)]
  {
    var pairs, functions: map<Id, Option<Code>> := [IdPair(old_, f)], map[old_ := Some(0)];
    assert pairs[0].old_ == old_;
    assert pairs[..0] == [] && RenameAll(functions, []) == functions;
  }

  /** Without the check of the record, a complete listing would let the only copy of a function's code go. */
  lemma RecordCheckIsNeeded(old_: Id, f: Id) returns (s: State)
    requires Legacy(Some(old_)) && f.Uuid?
    ensures Reachable(s) && s.gc.Listed? && s.gc.total <= |s.gc.live| && s.gc.live != {}
    ensures old_ !in s.gc.live && Collectable(s, old_) && s.now - s.gc.since < GRACE
    ensures f in s.functions && s.functions[f].Some? && Waits(s, f, 0) && !InPlace(s, f)
  {
    JustMigrated(old_, f);
    s := Serves(map[f := Some(0)], map[old_ := Tree({0}, 0)]).(pending := [IdPair(old_, f)], phase := Reconciling(0));
    ReachableStep(s, Tick(GRACE));
    s := s.(now := GRACE);
    assert s.functions.Keys == {f};
    assert |s.functions.Keys| == |s.functions|;
    ReachableStep(s, GcCount);
    s := s.(gc := Counted(1));
    ReachableStep(s, GcSelect({f}));
    s := s.(gc := Listed({f}, 1, GRACE));
  }
}
