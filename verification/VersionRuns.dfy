/** Every run of builds, activations, rollbacks, crashes and prunes over one function's versions. */
module VersionRuns {
  import opened Wrappers
  import opened VersionLifecycle

  /** How far a scratch directory is: files installed, marker written, or the hook behind the marker done. */
  datatype Progress = Extracting | Marked | Hooked

  /** The build that holds the function's lock: installing into scratch, about to publish it, or to activate. */
  datatype Job =
    | NoJob
    | Installing(hash: string, scratch: string, done: Progress)
    | Publishing(hash: string, scratch: string)
    | Activating(hash: string)

  /**
   `rollbacks` are the versions that rollbacks have found on disk and are about to activate; one over the tool
   interface takes no lock, so there may be any number of them at any time.
   */
  datatype State = State(dirs: Dirs, current: Option<string>, job: Job, rollbacks: set<string>)

  datatype Step =
    | BuildStart(hash: string, suffix: string, mtime: int)
    | BuildMark(mtime: int)
    | BuildHook(mtime: int)
    | BuildClear
    | BuildPublish
    | BuildFail
    | Activate
    | ActivateFail
    | RollbackStart(hash: string)
    | RollbackActivate(hash: string)
    | RollbackEnd(hash: string)
    | Crash
    | Prune(order: seq<string>, keep: nat, stuck: set<string>)

  predicate Published(dirs: Dirs, hash: string) { hash in dirs && dirs[hash].ready }

  /** Builds of a function are serialised by its lock; a prune takes no lock, so `Quiet` is an assumption. */
  predicate Can(s: State, st: Step) { CanAnyTime(s, st) && (st.Prune? ==> Quiet(s)) }

  /** No version waits to be activated. */
  predicate Quiet(s: State) { !s.job.Activating? && s.rollbacks == {} }

  predicate CanAnyTime(s: State, st: Step) {
    match st
    case BuildStart(hash, suffix, _) => s.job.NoJob? && BareHash(hash) && ScratchName(hash, suffix) !in s.dirs
    case BuildMark(_) => s.job.Installing? && s.job.done.Extracting? && s.job.scratch in s.dirs
    case BuildHook(_) => s.job.Installing? && s.job.done.Marked? && s.job.scratch in s.dirs
    case BuildClear => s.job.Installing? && s.job.done.Hooked?
    case BuildPublish => s.job.Publishing? && s.job.scratch in s.dirs
    case BuildFail => s.job.Installing? || s.job.Publishing?
    case Activate => s.job.Activating?
    case ActivateFail => s.job.Activating?
    case RollbackStart(hash) => BareHash(hash) && Published(s.dirs, hash)
    case RollbackActivate(hash) => hash in s.rollbacks
    case RollbackEnd(hash) => hash in s.rollbacks
    case Crash => true
    case Prune(order, keep, _) => PruneOrder(s.dirs, order) && keep >= 1
  }

  function Do(s: State, st: Step): State
    requires CanAnyTime(s, st)
  {
    match st
    case BuildStart(hash, suffix, mtime) =>
      if Published(s.dirs, hash) then s.(job := Activating(hash))
      else
        var scratch := ScratchName(hash, suffix);
        s.(dirs := s.dirs[scratch := Version(false, false, mtime)], job := Installing(hash, scratch, Extracting))
    case BuildMark(mtime) =>
      s.(dirs := s.dirs[s.job.scratch := s.dirs[s.job.scratch].(ready := true, mtime := mtime)], job := s.job.(done := Marked))
    case BuildHook(mtime) =>
      s.(dirs := s.dirs[s.job.scratch := s.dirs[s.job.scratch].(whole := true, mtime := mtime)], job := s.job.(done := Hooked))
    case BuildClear => s.(dirs := s.dirs - {s.job.hash}, job := Publishing(s.job.hash, s.job.scratch))
    case BuildPublish =>
      s.(dirs := (s.dirs - {s.job.scratch})[s.job.hash := s.dirs[s.job.scratch]], job := Activating(s.job.hash))
    case BuildFail => s.(dirs := s.dirs - {s.job.scratch}, job := NoJob)
    case Activate => s.(current := Some(s.job.hash), job := NoJob)
    case ActivateFail => s.(job := NoJob)
    case RollbackStart(hash) => s.(rollbacks := s.rollbacks + {hash})
    case RollbackActivate(hash) => s.(current := Some(hash))
    case RollbackEnd(hash) => s.(rollbacks := s.rollbacks - {hash})
    case Crash => s.(job := NoJob, rollbacks := {})
    case Prune(order, keep, stuck) => s.(dirs := Pruned(s.dirs, order, keep, s.current, stuck))
  }

  ghost predicate Runs(s: State, steps: seq<Step>, s': State)
    decreases |steps|
  {
    if steps == [] then s == s'
    else
      var n := |steps| - 1;
      exists mid :: Runs(s, steps[..n], mid) && Can(mid, steps[n]) && s' == Do(mid, steps[n])
  }

  /** The tree of a new function. */
  const EMPTY: State := State(map[], None, NoJob, {})

  ghost predicate Reachable(s: State) { exists steps :: Runs(EMPTY, steps, s) }

  // ---------------------------------------------------------------- what every step keeps

  /** Every directory that bears a digest is complete and marked ready. */
  predicate AllComplete(dirs: Dirs) {
    forall n :: n in dirs && BareHash(n) ==> dirs[n].ready && dirs[n].whole
  }

  /** `current`, if set, names a complete version. */
  predicate ServesComplete(s: State) {
    s.current.Some? ==> BareHash(s.current.value) && s.current.value in s.dirs
  }

  predicate JobFits(s: State) {
    match s.job
    case NoJob => true
    case Installing(hash, scratch, done) =>
      && BareHash(hash) && IsScratch(scratch) && hash !in s.dirs && scratch in s.dirs
      && (!done.Extracting? ==> s.dirs[scratch].ready) && (done.Hooked? ==> s.dirs[scratch].whole)
    case Publishing(hash, scratch) =>
      && BareHash(hash) && IsScratch(scratch) && hash !in s.dirs
      && scratch in s.dirs && s.dirs[scratch].ready && s.dirs[scratch].whole
    case Activating(hash) => BareHash(hash) && hash in s.dirs
  }

  predicate RollbacksFit(s: State) { forall hash :: hash in s.rollbacks ==> BareHash(hash) && hash in s.dirs }

  predicate Inv(s: State) { AllComplete(s.dirs) && ServesComplete(s) && JobFits(s) && RollbacksFit(s) }

  lemma HashIsNoScratch(name: string)
    requires BareHash(name)
    ensures !IsScratch(name)
  {
    ScratchIsApart(name, "");
  }

  lemma PruneKeepsInv(s: State, order: seq<string>, keep: nat, stuck: set<string>)
    requires Can(s, Prune(order, keep, stuck)) && Inv(s)
    ensures Inv(Do(s, Prune(order, keep, stuck)))
  {
    PruneKeepsNewest(s.dirs, order, keep, s.current, stuck);
    if s.job.Installing? || s.job.Publishing? {
      assert !Candidate(s.dirs, s.job.scratch);
    }
  }

  lemma BuildKeepsInv(s: State, st: Step)
    requires Can(s, st) && Inv(s) && (st.BuildStart? || st.BuildMark? || st.BuildHook? || st.BuildClear? || st.BuildPublish? || st.BuildFail?)
    ensures Inv(Do(s, st))
  {
    match st
    case BuildStart(hash, suffix, _) =>
      ScratchIsApart(hash, suffix);
      NotCurrent(s, ScratchName(hash, suffix));
    case BuildMark(_) => NotCurrent(s, s.job.scratch);
    case BuildHook(_) => NotCurrent(s, s.job.scratch);
    case BuildClear => NotCurrent(s, s.job.scratch);
    case BuildPublish => NotCurrent(s, s.job.scratch);
    case BuildFail => NotCurrent(s, s.job.scratch);
  }

  /** A scratch directory is not a version, so nothing serves from it. */
  lemma NotCurrent(s: State, scratch: string)
    requires IsScratch(scratch) && Inv(s)
    ensures !BareHash(scratch) && s.current != Some(scratch)
  {
    if BareHash(scratch) {
      HashIsNoScratch(scratch);
    }
  }

  lemma InvKept(s: State, st: Step)
    requires Can(s, st) && Inv(s)
    ensures Inv(Do(s, st))
  {
    if st.Prune? {
      PruneKeepsInv(s, st.order, st.keep, st.stuck);
    } else if st.BuildStart? || st.BuildMark? || st.BuildHook? || st.BuildClear? || st.BuildPublish? || st.BuildFail? {
      BuildKeepsInv(s, st);
    }
  }

  lemma {:induction false} RunsKeepInv(steps: seq<Step>, s: State)
    requires Runs(EMPTY, steps, s)
    ensures Inv(s)
    decreases |steps|
  {
    if steps != [] {
      var n := |steps| - 1;
      var mid :| Runs(EMPTY, steps[..n], mid) && Can(mid, steps[n]) && s == Do(mid, steps[n]);
      RunsKeepInv(steps[..n], mid);
      InvKept(mid, steps[n]);
    }
  }

  // ---------------------------------------------------------------- the promises

  /** In every run each published version is complete and the function serves from a complete version. */
  lemma VersionsStayComplete(s: State, hash: string)
    requires Reachable(s)
    ensures BareHash(hash) && hash in s.dirs ==> s.dirs[hash].ready && s.dirs[hash].whole
    ensures s.current.Some? ==> BareHash(s.current.value) && Published(s.dirs, s.current.value)
  {
    var steps :| Runs(EMPTY, steps, s);
    RunsKeepInv(steps, s);
  }

  /** The activation of a build or of a rollback. */
  predicate Activates(s: State, st: Step, hash: string) {
    (st.Activate? && s.job == Activating(hash)) || (st == RollbackActivate(hash) && hash in s.rollbacks)
  }

  /**
   A prune between a build or rollback and its activation: the function serves a complete version
   afterwards exactly if that version is among the newest `keep`, is the active one, or could not be removed.
   */
  lemma PruneBeforeActivation(s: State, st: Step, hash: string, order: seq<string>, keep: nat, stuck: set<string>)
    requires Reachable(s) && Activates(s, st, hash) && CanAnyTime(s, Prune(order, keep, stuck))
    ensures var after := Do(Do(s, Prune(order, keep, stuck)), st);
            && after.current == Some(hash)
            && (Published(after.dirs, hash)
                <==> hash in order[..if keep < |order| then keep else |order|] || Spared(hash, s.current, stuck))
  {
    var steps :| Runs(EMPTY, steps, s);
    RunsKeepInv(steps, s);
    HashIsNoScratch(hash);
    assert Candidate(s.dirs, hash);
    PrunedKeeps(s.dirs, order, keep, s.current, stuck, hash);
  }

  /** A candidate survives a prune exactly among the newest `keep` or if it is spared. */
  lemma PrunedKeeps(dirs: Dirs, order: seq<string>, keep: nat, active: Option<string>, stuck: set<string>, name: string)
    requires PruneOrder(dirs, order) && name in order
    ensures name in Pruned(dirs, order, keep, active, stuck)
            <==> name in order[..if keep < |order| then keep else |order|] || Spared(name, active, stuck)
    ensures name in Pruned(dirs, order, keep, active, stuck) ==> Pruned(dirs, order, keep, active, stuck)[name] == dirs[name]
  {
    var m := if keep < |order| then keep else |order|;
    var i :| 0 <= i < |order| && order[i] == name;
    if i < m {
      assert order[..m][i] == name;
      forall j | m <= j < |order| ensures order[j] != name {
      }
    } else {
      assert order[m..][i - m] == name;
      forall j | 0 <= j < m ensures order[j] != name {
      }
    }
  }

  lemma OneMoreStep(steps: seq<Step>, s: State, st: Step)
    requires Runs(EMPTY, steps, s) && Can(s, st)
    ensures Runs(EMPTY, steps + [st], Do(s, st))
  {
    assert (steps + [st])[..|steps|] == steps;
  }

  lemma Extend(s: State, st: Step)
    requires Reachable(s) && Can(s, st)
    ensures Reachable(Do(s, st))
  {
    var steps :| Runs(EMPTY, steps, s);
    OneMoreStep(steps, s, st);
  }

  // ---------------------------------------------------------------- what can be done from every state

  /** One run after another. */
  lemma {:induction false} Follow(s: State, a: seq<Step>, t: State, b: seq<Step>, u: State)
    requires Runs(s, a, t) && Runs(t, b, u)
    ensures Runs(s, a + b, u)
    decreases |b|
  {
    if b == [] {
      assert a + b == a;
    } else {
      var n := |b| - 1;
      var mid :| Runs(t, b[..n], mid) && Can(mid, b[n]) && u == Do(mid, b[n]);
      Follow(s, a, t, b[..n], mid);
      assert (a + b)[..|a + b| - 1] == a + b[..n];
    }
  }

  lemma Then(s: State, steps: seq<Step>, t: State, st: Step)
    requires Runs(s, steps, t) && Can(t, st)
    ensures Runs(s, steps + [st], Do(t, st))
  {
    assert (steps + [st])[..|steps|] == steps;
  }

  lemma OneStep(s: State, st: Step)
    requires Can(s, st)
    ensures Runs(s, [st], Do(s, st))
  {
    assert [st][..0] == [];
    assert Runs(s, [st][..0], s);
  }

  /** Files, marker and hook: the scratch directory of a version that is not published yet. */
  lemma Installs(s: State, hash: string, suffix: string, mtime: int) returns (steps: seq<Step>, t: State)
    requires s.job.NoJob? && BareHash(hash) && !Published(s.dirs, hash) && ScratchName(hash, suffix) !in s.dirs
    ensures var scratch := ScratchName(hash, suffix);
            && Runs(s, steps, t) && scratch !in s.dirs && t.job == Installing(hash, scratch, Hooked)
            && t == s.(dirs := s.dirs[scratch := Version(true, true, mtime)], job := t.job)
  {
    var scratch := ScratchName(hash, suffix);
    OneStep(s, BuildStart(hash, suffix, mtime));
    var started := Do(s, BuildStart(hash, suffix, mtime));
    Then(s, [BuildStart(hash, suffix, mtime)], started, BuildMark(mtime));
    var marked := Do(started, BuildMark(mtime));
    steps := [BuildStart(hash, suffix, mtime)] + [BuildMark(mtime)];
    Then(s, steps, marked, BuildHook(mtime));
    steps, t := steps + [BuildHook(mtime)], Do(marked, BuildHook(mtime));
    assert t.dirs == s.dirs[scratch := Version(true, true, mtime)];
  }

  /** And its publication. */
  lemma Publishes(s: State, hash: string, suffix: string, mtime: int) returns (steps: seq<Step>, t: State)
    requires s.job.NoJob? && BareHash(hash) && !Published(s.dirs, hash) && ScratchName(hash, suffix) !in s.dirs
    ensures Runs(s, steps, t) && t == s.(dirs := s.dirs[hash := Version(true, true, mtime)], job := Activating(hash))
  {
    var scratch := ScratchName(hash, suffix);
    ScratchIsApart(hash, suffix);
    var installed;
    steps, installed := Installs(s, hash, suffix, mtime);
    Then(s, steps, installed, BuildClear);
    var cleared := Do(installed, BuildClear);
    steps := steps + [BuildClear];
    assert scratch != hash && scratch in cleared.dirs;
    Then(s, steps, cleared, BuildPublish);
    steps, t := steps + [BuildPublish], Do(cleared, BuildPublish);
    assert t.dirs == s.dirs[hash := Version(true, true, mtime)];
  }

  /**
   Whatever crashes and failures left behind, while no other build of the function runs a build can publish a version,
   or find it published, and serve it; every other directory stays as it was.
   */
  lemma BuildCanServe(s: State, hash: string, suffix: string, mtime: int) returns (steps: seq<Step>, t: State)
    requires Reachable(s) && s.job.NoJob? && BareHash(hash) && ScratchName(hash, suffix) !in s.dirs
    ensures Runs(s, steps, t) && t == s.(dirs := t.dirs, current := Some(hash))
    ensures hash in t.dirs && t.dirs[hash].ready && t.dirs[hash].whole && (hash !in s.dirs ==> t.dirs[hash].mtime == mtime)
    ensures t.dirs == s.dirs[hash := t.dirs[hash]] && (hash in s.dirs ==> t.dirs == s.dirs)
  {
    VersionsStayComplete(s, hash);
    var ready;
    if hash in s.dirs {
      OneStep(s, BuildStart(hash, suffix, mtime));
      steps, ready := [BuildStart(hash, suffix, mtime)], s.(job := Activating(hash));
    } else {
      steps, ready := Publishes(s, hash, suffix, mtime);
    }
    Then(s, steps, ready, Activate);
    steps, t := steps + [Activate], Do(ready, Activate);
  }

  /** A build that fails gives up the lock and its scratch directory, and takes nothing else with it. */
  lemma FailedBuildLeavesNothing(s: State)
    requires Reachable(s) && Can(s, BuildFail)
    ensures var t := Do(s, BuildFail);
            && t.job.NoJob? && t.current == s.current && t.rollbacks == s.rollbacks && s.job.scratch !in t.dirs
            && (forall n :: n in s.dirs && n != s.job.scratch ==> n in t.dirs && t.dirs[n] == s.dirs[n])
            && (s.current.Some? ==> s.current.value in t.dirs)
  {
    var steps :| Runs(EMPTY, steps, s);
    RunsKeepInv(steps, s);
    NotCurrent(s, s.job.scratch);
  }

  /** And a rollback can serve any published version, changing no directory. */
  lemma RollbackCanServe(s: State, hash: string) returns (steps: seq<Step>, t: State)
    requires Reachable(s) && BareHash(hash) && hash in s.dirs
    ensures Runs(s, steps, t) && t.current == Some(hash) && t.dirs == s.dirs && t.job == s.job
  {
    VersionsStayComplete(s, hash);
    OneStep(s, RollbackStart(hash));
    var found := Do(s, RollbackStart(hash));
    Then(s, [RollbackStart(hash)], found, RollbackActivate(hash));
    steps, t := [RollbackStart(hash)] + [RollbackActivate(hash)], Do(found, RollbackActivate(hash));
  }

  /** A crash behind the marker leaves a scratch directory that is marked ready and is not whole. */
  lemma CrashLeavesMarkedScratch(hash: string, suffix: string) returns (s: State)
    requires BareHash(hash)
    ensures Reachable(s) && s.job.NoJob?
    ensures var scratch := ScratchName(hash, suffix);
            scratch in s.dirs && s.dirs[scratch].ready && !s.dirs[scratch].whole && !Candidate(s.dirs, scratch)
  {
    var scratch := ScratchName(hash, suffix);
    ScratchIsApart(hash, suffix);
    assert Runs(EMPTY, [], EMPTY);
    Extend(EMPTY, BuildStart(hash, suffix, 0));
    s := EMPTY.(dirs := EMPTY.dirs[scratch := Version(false, false, 0)], job := Installing(hash, scratch, Extracting));
    Extend(s, BuildMark(0));
    s := s.(dirs := s.dirs[scratch := Version(true, false, 0)], job := Installing(hash, scratch, Marked));
    Extend(s, Crash);
    s := s.(job := NoJob);
  }

  /**
   Redeploying an old version's code is a cache hit that leaves its directory the oldest, so a prune at
   that moment takes it, and activation leaves `current` naming a version that is gone.
   */
  lemma RacingPruneLeavesDanglingLink(a: string, b: string) returns (s: State, order: seq<string>)
    requires BareHash(a) && BareHash(b) && a != b
    ensures Reachable(s) && s.job == Activating(a) && CanAnyTime(s, Prune(order, 1, {}))
    ensures var after := Do(Do(s, Prune(order, 1, {})), Activate);
            after.current == Some(a) && a !in after.dirs
  {
    OldVersionRedeployed(a, b);
    s := State(map[a := Version(true, true, 0), b := Version(true, true, 1)], Some(b), Activating(a), {});
    order := [b, a];
    HashIsNoScratch(a);
    HashIsNoScratch(b);
    assert order[1..] == [a];
  }

  lemma Deployed(s: State, hash: string, mtime: int)
    requires Reachable(s) && s.job.NoJob? && BareHash(hash) && hash !in s.dirs && ScratchName(hash, "") !in s.dirs
    ensures Reachable(s.(dirs := s.dirs[hash := Version(true, true, mtime)], current := Some(hash)))
  {
    var steps, t := BuildCanServe(s, hash, "", mtime);
    var before :| Runs(EMPTY, before, s);
    Follow(EMPTY, before, s, steps, t);
  }

  lemma OldVersionRedeployed(a: string, b: string)
    requires BareHash(a) && BareHash(b) && a != b
    ensures Reachable(State(map[a := Version(true, true, 0), b := Version(true, true, 1)], Some(b), Activating(a), {}))
  {
    assert Runs(EMPTY, [], EMPTY);
    Deployed(EMPTY, a, 0);
    var s := State(map[a := Version(true, true, 0)], Some(a), NoJob, {});
    assert EMPTY.dirs[a := Version(true, true, 0)] == s.dirs;
    ScratchIsApart(b, "");
    Deployed(s, b, 1);
    s := State(map[a := Version(true, true, 0), b := Version(true, true, 1)], Some(b), NoJob, {});
    ScratchIsApart(a, "");
    Extend(s, BuildStart(a, "", 2));
  }
}
