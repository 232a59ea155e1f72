/** The garbage collector's loop over the function directories. */
module OrphanSweep {
  import opened Wrappers
  import opened UuidRewrite
  import opened DirRenames
  import opened DirProtocol

  /** What a sweep goes by: the listing, the age limit, the locks that are held, and the removals that fail. */
  datatype Rules = Rules(live: set<Id>, cutoff: int, locked: set<Id>, stuck: set<Id>) {

    predicate Removes(disk: map<Id, Tree>, f: Id) {
      f in disk && f !in live && disk[f].wrote <= cutoff && f !in locked && f !in stuck
    }

    /** The directories left once the first `n` entries were visited. */
    function Left(disk: map<Id, Tree>, entries: seq<Id>, n: nat): map<Id, Tree>
      requires n <= |entries|
    {
      map f | f in disk && !(f in entries[..n] && Removes(disk, f)) :: disk[f]
    }
  }

  function Visited(entries: seq<Id>, stopAt: nat): nat {
    if stopAt < |entries| then stopAt else |entries|
  }

  class FunctionsRoot {
    var disk: map<Id, Tree>

    /** Visits the entries until cancelled and removes exactly those the rules allow. */
    method SweepOrphanFunctionDirs(entries: seq<Id>, rules: Rules, stopAt: nat) returns (removed: nat)
      requires forall i :: 0 <= i < |entries| ==> entries[i] in disk
      requires forall i, j :: 0 <= i < j < |entries| ==> entries[i] != entries[j]
      modifies this
      ensures rules.live == {} ==> disk == old(disk) && removed == 0
      ensures rules.live != {} ==> disk == rules.Left(old(disk), entries, Visited(entries, stopAt))
      ensures rules.live != {} && |entries| <= stopAt ==>
                forall f :: f in entries ==>
                  (f !in disk <==> f !in rules.live && old(disk)[f].wrote <= rules.cutoff && f !in rules.locked + rules.stuck)
      ensures |disk| + removed == |old(disk)|
    {
      removed := 0;
      if |rules.live| == 0 {
        return;
      }
      var i := 0;
      while i < |entries| && i < stopAt
        invariant 0 <= i <= Visited(entries, stopAt)
        invariant disk == rules.Left(old(disk), entries, i)
        invariant |disk| + removed == |old(disk)|
      {
        var f := entries[i];
        assert entries[..i + 1] == entries[..i] + [f];
        assert f in disk;
        if f !in rules.live && disk[f].wrote <= rules.cutoff && f !in rules.locked && f !in rules.stuck {
          assert disk.Keys == (disk - {f}).Keys + {f};
          assert |disk.Keys| == |disk| && |(disk - {f}).Keys| == |disk - {f}|;
          disk := disk - {f};
          removed := removed + 1;
        }
        i := i + 1;
      }
      assert |entries| <= stopAt ==> entries[..i] == entries;
    }
  }

  /** Visiting one more entry removes it or changes nothing. */
  lemma OneMoreEntry(disk: map<Id, Tree>, entries: seq<Id>, rules: Rules, n: nat)
    requires n < |entries| && forall i, j :: 0 <= i < j < |entries| ==> entries[i] != entries[j]
    ensures var before, f := rules.Left(disk, entries, n), entries[n];
            && (rules.Removes(disk, f) <==> rules.Removes(before, f))
            && (rules.Left(disk, entries, n + 1) == if rules.Removes(disk, f) then before - {f} else before)
  {
    var before, f := rules.Left(disk, entries, n), entries[n];
    assert entries[..n + 1] == entries[..n] + [f];
    assert f in disk ==> f in before && before[f] == disk[f];
  }

  /** What the sweep removes, the protocol's steps remove one by one. */
  lemma {:induction false} SweepIsProtocolSteps(s: State, entries: seq<Id>, rules: Rules, n: nat)
    returns (steps: seq<Step>)
    requires Reachable(s) && s.gc.Sweeping? && rules.live == s.gc.live && s.building + s.deleting <= rules.locked
    requires rules.cutoff <= s.now - GRACE && s.now - s.gc.since < GRACE
    requires n <= |entries| && forall i, j :: 0 <= i < j < |entries| ==> entries[i] != entries[j]
    ensures Runs(s, steps, s.(disk := rules.Left(s.disk, entries, n)))
  {
    if n == 0 {
      steps := [];
      assert rules.Left(s.disk, entries, 0) == s.disk;
    } else {
      steps := SweepIsProtocolSteps(s, entries, rules, n - 1);
      OneMoreEntry(s.disk, entries, rules, n - 1);
      var f := entries[n - 1];
      if rules.Removes(s.disk, f) {
        ReachableKeepsInv(s);
        ShortTickRemovesOrphans(s, f);
        OneMoreStep(s, steps, s.(disk := rules.Left(s.disk, entries, n - 1)), GcRemove(f));
        steps := steps + [GcRemove(f)];
      }
    }
  }
}
