/** That the installation does its work: it serves again after any crash, and what no function owns can be removed. */
module DirProgress {
  import opened Wrappers
  import opened UuidRewrite
  import opened DirRenames
  import opened DirProtocol

  /** Where the last step of the second run starts, and that both runs up to there make up the joined one. */
  lemma LastStep(s: State, a: seq<Step>, t: State, b: seq<Step>, u: State) returns (mid: State)
    requires Runs(t, b, u) && b != []
    ensures Runs(t, b[..|b| - 1], mid)
    ensures Runs(s, a + b[..|b| - 1], mid) ==> Runs(s, a + b, u)
  {
    var n := |b| - 1;
    mid :| Runs(t, b[..n], mid) && Can(mid, b[n]) && Harmless(mid, b[n]) && u == Do(mid, b[n]);
    assert (a + b)[..|a + b| - 1] == a + b[..n];
  }

  /** One run after another. */
  lemma {:induction false} Follow(s: State, a: seq<Step>, t: State, b: seq<Step>, u: State)
    requires Runs(s, a, t) && Runs(t, b, u)
    ensures Runs(s, a + b, u)
    decreases |b|
  {
    if b == [] {
      assert a + b == a;
    } else {
      var mid := LastStep(s, a, t, b, u);
      Follow(s, a, t, b[..|b| - 1], mid);
    }
  }

  lemma OneStep(s: State, st: Step)
    requires Can(s, st) && Harmless(s, st)
    ensures Runs(s, [st], Do(s, st))
  {
    assert Runs(s, [], s);
    OneMoreStep(s, [], s, st);
    assert [] + [st] == [st];
  }

  /** The installation as it is once it has stopped and booted again, before the ids and names are looked at. */
  function Restarted(s: State): State {
    s.(phase := Booted, gc := Idle, building := {}, deleting := {}, held := {})
  }

  lemma Restarts(s: State)
    ensures Runs(s, [Crash] + [Boot], Restarted(s))
  {
    OneStep(s, Crash);
    OneMoreStep(s, [Crash], Do(s, Crash), Boot);
  }

  /** A boot that finds pending renames finishes them, and serves. */
  lemma BootFinishes(s: State) returns (steps: seq<Step>)
    requires s.phase == Reconciling(0)
    ensures Runs(s, steps, s.(disk := RenameAll(s.disk, s.pending), pending := [], phase := Serving))
  {
    var n := |s.pending|;
    steps := ReconcileIsProtocolSteps(s, n);
    assert s.pending[..n] == s.pending;
    var renamed := s.(disk := RenameAll(s.disk, s.pending), phase := Reconciling(n));
    OneMoreStep(s, steps, renamed, ReconcileDone);
    steps := steps + [ReconcileDone];
  }

  /**
   Wherever it stopped after the migration, the installation can serve again with every row as it was, and then each
   function's code is in the directory of its id.
   */
  lemma CanServeAgain(s: State) returns (steps: seq<Step>, t: State)
    requires Reachable(s) && s.migrated
    ensures Runs(s, steps, t) && t.phase.Serving? && t.functions == s.functions && t.pending == []
    ensures forall f :: f in t.functions && t.functions[f].Some? ==> HasCode(t.disk, f, t.functions[f].value)
  {
    Restarts(s);
    var booted := Restarted(s);
    OneMoreStep(s, [Crash] + [Boot], booted, Migrate([]));
    var ready := Do(booted, Migrate([]));
    var finishing := BootFinishes(ready);
    t := ready.(disk := RenameAll(ready.disk, ready.pending), pending := [], phase := Serving);
    steps := [Crash] + [Boot] + [Migrate([])];
    Follow(s, steps, ready, finishing, t);
    steps := steps + finishing;
    StillSafe(s, steps, t);
    forall f | f in t.functions && t.functions[f].Some? ensures HasCode(t.disk, f, t.functions[f].value) {
      assert Housed(t, f);
    }
  }

  lemma StillSafe(s: State, steps: seq<Step>, t: State)
    requires Reachable(s) && Runs(s, steps, t)
    ensures Inv(t)
  {
    ReachableKeepsInv(s);
    RunsKeepInv(s, steps, t);
  }

  lemma Selects(s: State)
    requires s.gc == Counted(|s.functions|) && 0 < |s.functions| <= 1000
    ensures Runs(s, [GcSelect(s.functions.Keys)], s.(gc := Listed(s.functions.Keys, |s.functions|, s.now)))
  {
    assert |s.functions.Keys| == |s.functions|;
    OneStep(s, GcSelect(s.functions.Keys));
  }

  lemma Guards(s: State)
    requires s.gc.Listed? && s.gc.total == |s.gc.live| > 0 && s.pending == []
    ensures Runs(s, [GcGuard(Some([]))], s.(gc := Sweeping(s.gc.live, s.gc.since)))
  {
    OneStep(s, GcGuard(Some([])));
  }

  lemma TickLists(s: State)
    requires s.phase.Serving? && s.gc.Idle? && s.pending == [] && 0 < |s.functions| <= 1000
    ensures Runs(s, [GcCount] + [GcSelect(s.functions.Keys)] + [GcGuard(Some([]))],
                 s.(gc := Sweeping(s.functions.Keys, s.now)))
  {
    var live, counted := s.functions.Keys, s.(gc := Counted(|s.functions|));
    var listed := s.(gc := Listed(live, |s.functions|, s.now));
    assert |live| == |s.functions|;
    OneStep(s, GcCount);
    Selects(counted);
    Guards(listed);
    Follow(s, [GcCount], counted, [GcSelect(live)], listed);
    Follow(s, [GcCount] + [GcSelect(live)], listed, [GcGuard(Some([]))], s.(gc := Sweeping(live, s.now)));
  }

  lemma SweepRemoves(s: State, f: Id)
    requires s.gc.Sweeping? && f !in s.gc.live && f !in s.functions && Collectable(s, f)
    ensures Runs(s, [GcRemove(f)] + [GcEnd], s.(disk := s.disk - {f}, gc := Idle))
  {
    var removed := s.(disk := s.disk - {f});
    OneStep(s, GcRemove(f));
    OneStep(removed, GcEnd);
    Follow(s, [GcRemove(f)], removed, [GcEnd], removed.(gc := Idle));
  }

  /**
   While a table of one to a thousand functions is served, one tick can remove a directory that no function owns, once
   it is fifteen minutes old and neither build nor deletion has its lock; nothing else changes.
   */
  lemma OrphanCanGo(s: State, f: Id) returns (steps: seq<Step>, t: State)
    requires Reachable(s) && s.phase.Serving? && s.gc.Idle? && 0 < |s.functions| <= 1000
    requires f in s.disk && f !in s.functions && s.disk[f].wrote + 900 <= s.now && f !in s.building && f !in s.deleting
    ensures Runs(s, steps, t) && f !in t.disk && t == s.(disk := t.disk)
    ensures forall other :: other != f ==>
              (other in t.disk <==> other in s.disk) && (other in s.disk ==> t.disk[other] == s.disk[other])
  {
    ReachableKeepsInv(s);
    TickLists(s);
    var sweeping := s.(gc := Sweeping(s.functions.Keys, s.now));
    SweepRemoves(sweeping, f);
    t := s.(disk := s.disk - {f});
    var listing := [GcCount] + [GcSelect(s.functions.Keys)] + [GcGuard(Some([]))];
    Follow(s, listing, sweeping, [GcRemove(f)] + [GcEnd], t);
    steps := listing + ([GcRemove(f)] + [GcEnd]);
  }
}
