/** Renaming the function directories after the id migration, one pair at a time and resumably. */
module DirRenames {
  import opened Wrappers
  import opened UuidRewrite

  /** Moves one entry, unless the new name exists already or the old one never did. */
  function RenameOne<V>(m: map<Id, V>, p: IdPair): map<Id, V> {
    if p.new_ in m || p.old_ !in m then m else (m - {p.old_})[p.new_ := m[p.old_]]
  }

  function RenameAll<V>(m: map<Id, V>, pairs: seq<IdPair>): map<Id, V> {
    if pairs == [] then m else RenameOne(RenameAll(m, pairs[..|pairs| - 1]), pairs[|pairs| - 1])
  }

  /** Old names are legacy ids, new ones UUIDs, and neither side repeats a name. */
  predicate WellPaired(pairs: seq<IdPair>) {
    && Separated(pairs)
    && (forall i, j :: 0 <= i < j < |pairs| ==> pairs[i].old_ != pairs[j].old_ && pairs[i].new_ != pairs[j].new_)
  }

  predicate IsOld(pairs: seq<IdPair>, f: Id) { exists k :: 0 <= k < |pairs| && pairs[k].old_ == f }

  predicate IsNew(pairs: seq<IdPair>, f: Id) { exists k :: 0 <= k < |pairs| && pairs[k].new_ == f }

  /** Names outside the pairs keep their entries. */
  lemma {:induction false} OthersStay<V>(m: map<Id, V>, pairs: seq<IdPair>, f: Id)
    requires !IsOld(pairs, f) && !IsNew(pairs, f)
    ensures f in RenameAll(m, pairs) <==> f in m
    ensures f in m ==> RenameAll(m, pairs)[f] == m[f]
  {
    if pairs != [] {
      var n := |pairs| - 1;
      forall k | 0 <= k < n ensures pairs[..n][k].old_ != f && pairs[..n][k].new_ != f {
        assert pairs[k].old_ != f && pairs[k].new_ != f;
      }
      OthersStay(m, pairs[..n], f);
      assert pairs[n].old_ != f && pairs[n].new_ != f;
    }
  }

  /** When the new names are free, every entry moves from its old name to its new one. */
  lemma {:induction false} EveryPairMoves<V>(m: map<Id, V>, pairs: seq<IdPair>, k: nat)
    requires WellPaired(pairs) && k < |pairs| && forall i :: 0 <= i < |pairs| ==> pairs[i].new_ !in m
    ensures pairs[k].old_ !in RenameAll(m, pairs)
    ensures pairs[k].new_ in RenameAll(m, pairs) <==> pairs[k].old_ in m
    ensures pairs[k].old_ in m ==> RenameAll(m, pairs)[pairs[k].new_] == m[pairs[k].old_]
  {
    var n := |pairs| - 1;
    if k < n {
      EveryPairMoves(m, pairs[..n], k);
    } else {
      OthersStay(m, pairs[..n], pairs[n].old_);
      OthersStay(m, pairs[..n], pairs[n].new_);
    }
  }

  /** Nothing is left to do for a pair. */
  predicate Settled<V>(m: map<Id, V>, p: IdPair) { p.new_ in m || p.old_ !in m }

  lemma {:induction false} EarlierPairsAreSettled<V>(m: map<Id, V>, pairs: seq<IdPair>, k: nat)
    requires WellPaired(pairs) && k < |pairs|
    ensures Settled(RenameAll(m, pairs), pairs[k])
  {
    var n := |pairs| - 1;
    if k < n {
      EarlierPairsAreSettled(m, pairs[..n], k);
    }
  }

  /** A pass that stops after any number of pairs is completed by the next pass: the result is that of one pass. */
  lemma {:induction false} ResumedPassFinishes<V>(m: map<Id, V>, pairs: seq<IdPair>, done: nat, upTo: nat)
    requires WellPaired(pairs) && done <= upTo <= |pairs|
    ensures RenameAll(RenameAll(m, pairs[..done]), pairs[..upTo]) == RenameAll(m, pairs[..upTo])
    decreases upTo
  {
    var partial := RenameAll(m, pairs[..done]);
    if done == upTo {
      NothingLeft(partial, pairs[..done], m);
    } else {
      ResumedPassFinishes(m, pairs, done, upTo - 1);
      assert pairs[..upTo][..upTo - 1] == pairs[..upTo - 1];
    }
  }

  lemma {:induction false} NothingLeft<V>(m: map<Id, V>, pairs: seq<IdPair>, was: map<Id, V>)
    requires WellPaired(pairs) && m == RenameAll(was, pairs)
    ensures RenameAll(m, pairs) == m
  {
    forall k | 0 <= k < |pairs| ensures Settled(m, pairs[k]) {
      EarlierPairsAreSettled(was, pairs, k);
    }
    SettledStays(m, pairs);
  }

  lemma {:induction false} SettledStays<V>(m: map<Id, V>, pairs: seq<IdPair>)
    requires forall k :: 0 <= k < |pairs| ==> Settled(m, pairs[k])
    ensures RenameAll(m, pairs) == m
  {
    if pairs != [] {
      var n := |pairs| - 1;
      forall k | 0 <= k < n ensures Settled(m, pairs[..n][k]) {
        assert Settled(m, pairs[k]);
      }
      SettledStays(m, pairs[..n]);
      assert Settled(m, pairs[n]);
    }
  }

  // ---------------------------------------------------------------- the pairs the migration records

  /** What the migration records for a table of ids: a pair for each legacy id and for nothing else. */
  predicate Renames(pairs: seq<IdPair>, ids: set<Id>) {
    && WellPaired(pairs)
    && (forall f :: f in ids ==> (IsOld(pairs, f) <==> Legacy(Some(f))))
    && (forall k :: 0 <= k < |pairs| ==> pairs[k].old_ in ids && pairs[k].new_ !in ids)
  }

  predicate NoRepeats(col: Column) {
    forall i, j :: 0 <= i < j < |col| ==> col[i] != col[j]
  }

  lemma {:induction false} PairsAreDistinct(col: Column, n: nat)
    requires NoRepeats(col)
    ensures WellPaired(Pairs(col, n))
  {
    PairsShape(col, n);
    if col != [] {
      var m := |col| - 1;
      PairsAreDistinct(col[..m], n);
      PairsShape(col[..m], n);
    }
  }

  lemma {:induction false} EveryLegacyIdIsPaired(col: Column, n: nat, f: Id)
    requires Some(f) in col && Legacy(Some(f))
    ensures IsOld(Pairs(col, n), f)
  {
    var m := |col| - 1;
    var pairs := Pairs(col, n);
    if col[m] == Some(f) {
      assert pairs[|pairs| - 1].old_ == f;
    } else {
      EveryLegacyIdIsPaired(col[..m], n, f);
      var before := Pairs(col[..m], n);
      var k :| 0 <= k < |before| && before[k].old_ == f;
      assert pairs[k].old_ == f;
    }
  }

  /** The pairs read from the functions table are a renaming of its ids. */
  lemma RecordedPairsRename(col: Column, n: nat, ids: set<Id>)
    requires NoRepeats(col) && OlderThan(col, n)
    requires forall f :: f in ids <==> Some(f) in col
    ensures Renames(Pairs(col, n), ids)
  {
    PairsAreDistinct(col, n);
    PairsShape(col, n);
    forall f | f in ids ensures IsOld(Pairs(col, n), f) <==> Legacy(Some(f)) {
      if Legacy(Some(f)) {
        EveryLegacyIdIsPaired(col, n, f);
      }
    }
  }

  // ---------------------------------------------------------------- the boot step

  /** What may go wrong while reconciling. */
  datatype Faults = Faults(recordUnreadable: bool, noDataDir: bool, renameFails: Id -> bool, clearFails: bool)

  /** The rename of this pair is still needed when its turn comes, and fails. */
  predicate Blocked<V>(disk: map<Id, V>, pairs: seq<IdPair>, faults: Faults, n: nat)
    requires n < |pairs|
  {
    !Settled(RenameAll(disk, pairs[..n]), pairs[n]) && faults.renameFails(pairs[n].old_)
  }

  /** Every rename that is still needed succeeds, and so does clearing the record. */
  predicate Completes<V>(disk: map<Id, V>, pairs: seq<IdPair>, faults: Faults) {
    && !faults.noDataDir && !faults.clearFails
    && (forall n :: 0 <= n < |pairs| ==> !Blocked(disk, pairs, faults, n))
  }

  /** The recorded pairs and the directories they are about. */
  class Installation<Tree> {
    var pending: seq<IdPair>
    var disk: map<Id, Tree>

    /** Handles the pairs in order up to the first whose rename fails. */
    method RenamePending(faults: Faults) returns (done: nat)
      modifies this`disk
      ensures done <= |pending| && disk == RenameAll(old(disk), pending[..done])
      ensures forall n :: 0 <= n < done ==> !Blocked(old(disk), pending, faults, n)
      ensures done < |pending| ==> Blocked(old(disk), pending, faults, done)
    {
      ghost var was := disk;
      done := 0;
      while done < |pending|
        invariant 0 <= done <= |pending| && disk == RenameAll(was, pending[..done])
        invariant forall n :: 0 <= n < done ==> !Blocked(was, pending, faults, n)
      {
        var p := pending[done];
        assert pending[..done + 1][..done] == pending[..done];
        if p.new_ !in disk && p.old_ in disk {
          if faults.renameFails(p.old_) {
            return;
          }
          disk := (disk - {p.old_})[p.new_ := disk[p.old_]];
        }
        assert disk == RenameOne(RenameAll(was, pending[..done]), p);
        done := done + 1;
      }
    }

    /**
     Renames the directory of every recorded pair and then clears the record. On an error the record
     stays and the directories are as after some of the pairs, in order, so the next boot resumes.
     */
    method ReconcileFunctionDirs(faults: Faults) returns (done: Result<bool>)
      modifies this
      ensures done.Ok? ==> pending == [] && disk == RenameAll(old(disk), old(pending))
      ensures done.Err? ==> pending == old(pending) && (faults.recordUnreadable || pending != [])
      ensures done.Err? ==> exists n :: 0 <= n <= |old(pending)| && disk == RenameAll(old(disk), old(pending)[..n])
      ensures old(pending) != [] && (faults.noDataDir || faults.clearFails) ==> done.Err?
      ensures !faults.recordUnreadable && !faults.noDataDir && !faults.clearFails && (forall f :: !faults.renameFails(f)) ==>
                done.Ok?
      ensures !faults.recordUnreadable ==>
                (done.Ok? <==> old(pending) == [] || Completes(old(disk), old(pending), faults))
    {
      assert RenameAll(disk, pending[..0]) == disk;
      if faults.recordUnreadable {
        return Err("read pending renames");
      }
      if |pending| == 0 {
        return Ok(false);
      }
      if faults.noDataDir {
        return Err("no data dir");
      }
      var handled := RenamePending(faults);
      if handled < |pending| {
        return Err("rename");
      }
      assert pending[..handled] == pending;
      if faults.clearFails {
        return Err("clear pending renames");
      }
      pending := [];
      return Ok(true);
    }
  }
}
