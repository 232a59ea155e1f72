/** The second half of a restore: moving the staged database, keys and functions over the live ones. */
module BackupInstall {
  import opened Wrappers
  import opened BackupArchive
  import opened BackupRestore

  /** The live functions tree; `current` holds the code hash each function's link names. */
  datatype Tree = Tree(files: map<Path, Content>, dirs: set<Path>, current: map<string, string>)

  /**
   The live data directory; `aside` holds the databases moved away, by the second of the restore that did it, and
   `sidecars` stands for the -wal and -shm files.
   */
  datatype Live = Live(db: Option<Content>, aside: map<int, Content>, sidecars: bool,
                       masterKey: Option<Content>, adminKey: Option<Content>, tree: Tree)

  // ---------------------------------------------------------------- moving the functions in

  predicate Under(name: string, p: Path) { |p| >= 2 && p[0] == "functions" && p[1] == name }

  function FnDir(id: string): Path { ROOT + [id] }

  function LinkPath(id: string): Path { ROOT + [id, "current"] }

  /** The live tree of a function is removed before the staged one moves in, and its link goes with it. */
  function Removed(tree: Tree, name: string): Tree {
    Tree((map p | p in tree.files && !Under(name, p) :: tree.files[p]), (set p | p in tree.dirs && !Under(name, p)),
         tree.current - {name})
  }

  function InstallOne(tree: Tree, stage: Stage, name: string): Tree {
    var left := Removed(tree, name);
    Tree(left.files + (map p | p in stage.files && Under(name, p) :: stage.files[p]),
         left.dirs + (set p | p in stage.dirs && Under(name, p)), left.current)
  }

  /** The functions in order, up to the first whose move fails: that one's live tree is gone by then. */
  function MoveAll(tree: Tree, stage: Stage, names: seq<string>, stuck: set<string>): (bool, Tree) {
    if names == [] then (true, tree)
    else
      var (ok, moved), name := MoveAll(tree, stage, names[..|names| - 1], stuck), names[|names| - 1];
      if !ok then (false, moved)
      else if name in stuck then (false, Removed(moved, name))
      else (true, InstallOne(moved, stage, name))
  }

  lemma {:induction false} MoveStops(tree: Tree, stage: Stage, names: seq<string>, stuck: set<string>, i: nat, j: nat)
    requires i <= j <= |names| && !MoveAll(tree, stage, names[..i], stuck).0
    ensures MoveAll(tree, stage, names[..j], stuck) == MoveAll(tree, stage, names[..i], stuck)
    decreases j
  {
    if i < j {
      MoveStops(tree, stage, names, stuck, i, j - 1);
      assert names[..j][..j - 1] == names[..j - 1];
    }
  }

  lemma {:induction false} MovesIff(tree: Tree, stage: Stage, names: seq<string>, stuck: set<string>)
    ensures MoveAll(tree, stage, names, stuck).0 <==> forall name :: name in names ==> name !in stuck
  {
    if names != [] {
      MovesIff(tree, stage, names[..|names| - 1], stuck);
      assert names == names[..|names| - 1] + [names[|names| - 1]];
    }
  }

  /** After all moves each function is either the staged one as a whole or left as it was. */
  lemma {:induction false} InstalledIs(tree: Tree, stage: Stage, names: seq<string>, stuck: set<string>,
                                       name: string, p: Path)
    requires Under(name, p) && MoveAll(tree, stage, names, stuck).0
    ensures var r := MoveAll(tree, stage, names, stuck).1;
            && (p in r.files <==> if name in names then p in stage.files else p in tree.files)
            && (p in r.files ==> r.files[p] == if name in names then stage.files[p] else tree.files[p])
            && (p in r.dirs <==> if name in names then p in stage.dirs else p in tree.dirs)
            && (name in r.current <==> name !in names && name in tree.current)
            && (name in r.current ==> r.current[name] == tree.current[name])
  {
    if names != [] {
      InstalledIs(tree, stage, names[..|names| - 1], stuck, name, p);
      assert names == names[..|names| - 1] + [names[|names| - 1]];
    }
  }

  /** A function that is not shipped survives whatever happens to the others. */
  lemma {:induction false} UnshippedStay(tree: Tree, stage: Stage, names: seq<string>, stuck: set<string>,
                                         name: string, p: Path)
    requires Under(name, p) && name !in names
    ensures var r := MoveAll(tree, stage, names, stuck).1;
            && (p in r.files <==> p in tree.files) && (p in r.files ==> r.files[p] == tree.files[p])
            && (p in r.dirs <==> p in tree.dirs)
  {
    if names != [] {
      UnshippedStay(tree, stage, names[..|names| - 1], stuck, name, p);
      assert names == names[..|names| - 1] + [names[|names| - 1]];
    }
  }

  predicate HasNothing(tree: Tree, name: string) {
    && name !in tree.current
    && (forall p :: p in tree.files ==> !Under(name, p)) && (forall p :: p in tree.dirs ==> !Under(name, p))
  }

  /** When a move fails, the function it was about has nothing left. */
  lemma {:induction false} FailedMoveDestroys(tree: Tree, stage: Stage, names: seq<string>, stuck: set<string>)
    returns (name: string)
    requires !MoveAll(tree, stage, names, stuck).0
    ensures name in names && name in stuck && HasNothing(MoveAll(tree, stage, names, stuck).1, name)
  {
    var init, last := names[..|names| - 1], names[|names| - 1];
    if MoveAll(tree, stage, init, stuck).0 {
      name := last;
    } else {
      name := FailedMoveDestroys(tree, stage, init, stuck);
    }
  }

  /** Making the functions directory may fail before anything moves. */
  predicate RootFails(tree: Tree, stage: Stage, faults: Faults) {
    Holds(stage, ROOT) && (ROOT in tree.files || ROOT in stage.files || faults.functionsDir)
  }

  function WithRoot(tree: Tree, stage: Stage): Tree {
    tree.(dirs := tree.dirs + if Holds(stage, ROOT) then {ROOT} else {})
  }

  // ---------------------------------------------------------------- links

  /** `current` can be made a link unless the function is a plain file or `current` a directory with content. */
  predicate Linkable(tree: Tree, id: string) {
    && ROOT !in tree.files && FnDir(id) !in tree.files
    && !(LinkPath(id) in tree.dirs && NonEmpty(Stage(tree.files, tree.dirs), LinkPath(id)))
  }

  /** What is in the place of the link is removed first. */
  function Cleared(tree: Tree, id: string): Tree {
    Tree(tree.files - {LinkPath(id)}, (tree.dirs - {LinkPath(id)}) + {ROOT, FnDir(id)}, tree.current - {id})
  }

  function LinkOne(tree: Tree, id: string, hash: string): Tree {
    var cleared := Cleared(tree, id);
    cleared.(current := cleared.current[id := hash])
  }

  /** The rows with a code hash, linked one after the other, up to the first that fails. */
  function LinkAll(tree: Tree, rows: map<string, string>, ids: seq<string>, stuck: set<string>): (bool, Tree)
    requires forall id :: id in ids ==> id in rows
  {
    if ids == [] then (true, tree)
    else
      var (ok, linked), id := LinkAll(tree, rows, ids[..|ids| - 1], stuck), ids[|ids| - 1];
      if !ok || rows[id] == "" then (ok, linked)
      else if !Linkable(linked, id) then (false, linked)
      else if id in stuck then (false, Cleared(linked, id))
      else (true, LinkOne(linked, id, rows[id]))
  }

  lemma {:induction false} LinkStops(tree: Tree, rows: map<string, string>, ids: seq<string>, stuck: set<string>,
                                     i: nat, j: nat)
    requires i <= j <= |ids| && (forall id :: id in ids ==> id in rows) && !LinkAll(tree, rows, ids[..i], stuck).0
    ensures LinkAll(tree, rows, ids[..j], stuck) == LinkAll(tree, rows, ids[..i], stuck)
    decreases j
  {
    if i < j {
      LinkStops(tree, rows, ids, stuck, i, j - 1);
      assert ids[..j][..j - 1] == ids[..j - 1];
    }
  }

  /** Links replace a plain file of their name and leave every other file alone. */
  lemma {:induction false} LinkedIs(tree: Tree, rows: map<string, string>, ids: seq<string>, stuck: set<string>,
                                    p: Path)
    requires (forall id :: id in ids ==> id in rows) && LinkAll(tree, rows, ids, stuck).0
    ensures var r := LinkAll(tree, rows, ids, stuck).1;
            && (p in r.files <==> p in tree.files && !(exists id :: id in ids && rows[id] != "" && p == LinkPath(id)))
            && (p in r.files ==> r.files[p] == tree.files[p])
  {
    if ids != [] {
      var n := |ids| - 1;
      LinkedIs(tree, rows, ids[..n], stuck, p);
      assert ids == ids[..n] + [ids[n]];
    }
  }

  lemma {:induction false} LinksAre(tree: Tree, rows: map<string, string>, ids: seq<string>, stuck: set<string>,
                                    id: string)
    requires (forall i :: i in ids ==> i in rows) && LinkAll(tree, rows, ids, stuck).0
    ensures var r := LinkAll(tree, rows, ids, stuck).1;
            if id in ids && rows[id] != "" then id in r.current && r.current[id] == rows[id]
            else (id in r.current <==> id in tree.current) && (id in r.current ==> r.current[id] == tree.current[id])
  {
    if ids != [] {
      var n := |ids| - 1;
      LinksAre(tree, rows, ids[..n], stuck, id);
      assert ids == ids[..n] + [ids[n]];
    }
  }

  /** And its directories: each linked function has one, and none is left in the place of a link. */
  lemma {:induction false} LinkedDirsAre(tree: Tree, rows: map<string, string>, ids: seq<string>, stuck: set<string>,
                                         p: Path)
    requires (forall id :: id in ids ==> id in rows) && LinkAll(tree, rows, ids, stuck).0
    ensures p in LinkAll(tree, rows, ids, stuck).1.dirs
            <==> || (exists id :: id in ids && rows[id] != "" && (p == ROOT || p == FnDir(id)))
                 || (p in tree.dirs && !exists id :: id in ids && rows[id] != "" && p == LinkPath(id))
  {
    if ids != [] {
      var n := |ids| - 1;
      LinkedDirsAre(tree, rows, ids[..n], stuck, p);
      assert ids == ids[..n] + [ids[n]];
      assert |FnDir(ids[n])| == 2 && |ROOT| == 1 && forall id :: |LinkPath(id)| == 3;
    }
  }

  /** A plain file where a directory has to be, or content below the place of the link. */
  ghost predicate Obstructed(tree: Tree, id: string) {
    || ["functions"] in tree.files || ["functions", id] in tree.files
    || (["functions", id, "current"] in tree.dirs
        && exists p :: ["functions", id, "current"] < p && (p in tree.files || p in tree.dirs))
  }

  lemma LinkableIff(tree: Tree, id: string)
    ensures Linkable(tree, id) <==> !Obstructed(tree, id)
  {
    assert ROOT == ["functions"] && FnDir(id) == ["functions", id] && LinkPath(id) == ["functions", id, "current"];
  }

  lemma LinkObstructsNone(tree: Tree, id: string, hash: string, other: string)
    requires Linkable(tree, id)
    ensures Linkable(LinkOne(tree, id, hash), other) <==> Linkable(tree, other)
  {
    var linked := LinkOne(tree, id, hash);
    assert |FnDir(id)| == 2 && |FnDir(other)| == 2 && |LinkPath(id)| == 3 && |LinkPath(other)| == 3;
    assert LinkPath(id) == LinkPath(other) ==> id == other by {
      assert LinkPath(id)[1] == id && LinkPath(other)[1] == other;
    }
    forall p | LinkPath(other) < p
      ensures (p in linked.files <==> p in tree.files) && (p in linked.dirs <==> p in tree.dirs)
    {
    }
  }

  /** The links are all made exactly if nothing obstructs one and none fails, whatever the order. */
  lemma {:induction false} LinksIff(tree: Tree, rows: map<string, string>, ids: seq<string>, stuck: set<string>)
    requires forall id :: id in ids ==> id in rows
    ensures LinkAll(tree, rows, ids, stuck).0
            <==> forall id :: id in ids && rows[id] != "" ==> !Obstructed(tree, id) && id !in stuck
    ensures LinkAll(tree, rows, ids, stuck).0 ==>
              forall other :: Linkable(LinkAll(tree, rows, ids, stuck).1, other) <==> Linkable(tree, other)
  {
    if ids != [] {
      var n := |ids| - 1;
      var before := LinkAll(tree, rows, ids[..n], stuck);
      LinksIff(tree, rows, ids[..n], stuck);
      assert ids == ids[..n] + [ids[n]];
      LinkableIff(tree, ids[n]);
      if before.0 && Linkable(before.1, ids[n]) {
        forall other ensures Linkable(LinkOne(before.1, ids[n], rows[ids[n]]), other) <==> Linkable(before.1, other) {
          LinkObstructsNone(before.1, ids[n], rows[ids[n]], other);
        }
      }
    }
  }

  // ---------------------------------------------------------------- the whole restore

  datatype Outcome = Restored | Rejected | RolledBack | RollbackFailed | LinksBroken

  /** The second of the restore, the steps after the checks that may fail, and the functions whose move or link fails. */
  datatype Faults = Faults(prepare: StageFaults, second: int, aside: bool, install: bool, rollback: bool, masterKey: bool,
                           adminKey: bool, functionsDir: bool, stuck: set<string>, links: set<string>)

  const NO_FAULTS: Faults := Faults(StageFaults(false, false, false), 0, false, false, false, false, false, false, {}, {})

  function FunctionNames(stage: Stage): set<string> {
    (set p | p in stage.files && |p| >= 2 && p[0] == "functions" :: p[1])
    + (set p | p in stage.dirs && |p| >= 2 && p[0] == "functions" :: p[1])
  }

  /** A stage that passed the checks. */
  predicate Checked(stage: Stage) { DB_PATH in stage.files && stage.files[DB_PATH].Database? }

  function RowsOf(stage: Stage): map<string, string>
    requires Checked(stage)
  {
    stage.files[DB_PATH].functions
  }

  /** An order in which the directory lists the staged functions, and the database its rows. */
  predicate Orders(stage: Stage, names: seq<string>, ids: seq<string>) {
    Checked(stage) && Enumerates(names, FunctionNames(stage)) && Enumerates(ids, RowsOf(stage).Keys)
  }

  function SetAside(aside: map<int, Content>, second: int): Option<Content> {
    if second in aside then Some(aside[second]) else None
  }

  /** Puts the live database back; it has no say over keys and functions already replaced. */
  function RollBack(live: Live, hadLive: bool, faults: Faults): (Outcome, Live) {
    if !hadLive then (RolledBack, live)
    else if faults.rollback then (RollbackFailed, live)
    else (RolledBack, live.(db := SetAside(live.aside, faults.second), aside := live.aside - {faults.second}))
  }

  function Shipped(stage: Stage, p: Path, live: Option<Content>): Option<Content> {
    if p in stage.files then Some(stage.files[p]) else live
  }

  /** The first step that fails once the live database is aside. */
  datatype Failure = NoFailure | AtDatabase | AtMasterKey | AtAdminKey | AtRoot | AtFunction

  function FirstFailure(tree: Tree, stage: Stage, faults: Faults): Failure {
    if faults.install then AtDatabase
    else if MASTER_PATH in stage.files && faults.masterKey then AtMasterKey
    else if ADMIN_PATH in stage.files && faults.adminKey then AtAdminKey
    else if RootFails(tree, stage, faults) then AtRoot
    else if FunctionNames(stage) * faults.stuck != {} then AtFunction
    else NoFailure
  }

  /** The restore once the keys are in place: functions, then links. */
  function AfterKeys(live: Live, hadLive: bool, stage: Stage, faults: Faults, names: seq<string>,
                     ids: seq<string>): (Outcome, Live)
    requires Orders(stage, names, ids)
  {
    if RootFails(live.tree, stage, faults) then RollBack(live, hadLive, faults)
    else
      var (moved, tree) := MoveAll(WithRoot(live.tree, stage), stage, names, faults.stuck);
      if !moved then RollBack(live.(tree := tree), hadLive, faults)
      else
        var (linked, last) := LinkAll(tree, RowsOf(stage), ids, faults.links);
        (if linked then Restored else LinksBroken, live.(tree := last))
  }

  /** The restore once the database is in place. */
  function AfterDatabase(live: Live, hadLive: bool, stage: Stage, faults: Faults, names: seq<string>,
                         ids: seq<string>): (Outcome, Live)
    requires Orders(stage, names, ids)
  {
    var withMaster := live.(masterKey := Shipped(stage, MASTER_PATH, live.masterKey));
    var withKeys := withMaster.(adminKey := Shipped(stage, ADMIN_PATH, live.adminKey));
    if MASTER_PATH in stage.files && faults.masterKey then RollBack(live, hadLive, faults)
    else if ADMIN_PATH in stage.files && faults.adminKey then RollBack(withMaster, hadLive, faults)
    else AfterKeys(withKeys, hadLive, stage, faults, names, ids)
  }

  /** The restore from the moment its checks have passed. */
  function AfterChecks(live: Live, stage: Stage, faults: Faults, names: seq<string>, ids: seq<string>): (Outcome, Live)
    requires Orders(stage, names, ids)
  {
    var aside := if live.db.Some? then live.aside[faults.second := live.db.value] else live.aside;
    var cleared := live.(db := None, aside := aside, sidecars := false);
    if faults.install then RollBack(cleared, live.db.Some?, faults)
    else AfterDatabase(cleared.(db := Some(stage.files[DB_PATH])), live.db.Some?, stage, faults, names, ids)
  }

  class DataDir {
    var db: Option<Content>
    var aside: map<int, Content>
    var sidecars: bool
    var masterKey: Option<Content>
    var adminKey: Option<Content>
    var tree: Tree

    ghost function Now(): Live
      reads this
    {
      Live(db, aside, sidecars, masterKey, adminKey, tree)
    }

    method Rollback(hadLive: bool, faults: Faults) returns (outcome: Outcome)
      modifies this`db, this`aside
      ensures (outcome, Now()) == RollBack(old(Now()), hadLive, faults)
    {
      if hadLive {
        if faults.rollback {
          return RollbackFailed;
        }
        db, aside := SetAside(aside, faults.second), aside - {faults.second};
      }
      return RolledBack;
    }

    /** Removes each live function and moves the staged one in its place. */
    method InstallFunctions(stage: Stage, listing: seq<string>, faults: Faults) returns (ok: bool)
      requires RootStaged(stage) && Enumerates(listing, FunctionNames(stage)) && |listing| == |FunctionNames(stage)|
      modifies this`tree
      ensures (ok, tree) == if RootFails(old(tree), stage, faults) then (false, old(tree))
                            else MoveAll(WithRoot(old(tree), stage), stage, listing, faults.stuck)
    {
      if !Holds(stage, ROOT) {
        assert FunctionNames(stage) == {};
        assert |listing| == 0;
        return true;
      }
      if ROOT in tree.files || ROOT in stage.files || faults.functionsDir {
        return false;
      }
      tree := tree.(dirs := tree.dirs + {ROOT});
      ghost var base := tree;
      var i := 0;
      while i < |listing|
        invariant 0 <= i <= |listing| && MoveAll(base, stage, listing[..i], faults.stuck) == (true, tree)
      {
        assert listing[..i + 1][..i] == listing[..i];
        if listing[i] in faults.stuck {
          tree := Removed(tree, listing[i]);
          MoveStops(base, stage, listing, faults.stuck, i + 1, |listing|);
          assert listing[..|listing|] == listing;
          return false;
        }
        tree := InstallOne(tree, stage, listing[i]);
        i := i + 1;
      }
      assert listing[..i] == listing;
      return true;
    }

    /** Points each function's link at the code hash of its row; a function that was never deployed has none. */
    method RebuildCurrentSymlinks(rows: map<string, string>, listing: seq<string>, stuck: set<string>)
      returns (ok: bool)
      requires Enumerates(listing, rows.Keys)
      modifies this`tree
      ensures (ok, tree) == LinkAll(old(tree), rows, listing, stuck)
    {
      ghost var was := tree;
      var i := 0;
      while i < |listing|
        invariant 0 <= i <= |listing| && LinkAll(was, rows, listing[..i], stuck) == (true, tree)
      {
        var id := listing[i];
        assert id in listing && listing[..i + 1][..i] == listing[..i];
        if rows[id] != "" {
          ok := LinkRow(id, rows[id], stuck);
          if !ok {
            LinkStops(was, rows, listing, stuck, i + 1, |listing|);
            assert listing[..|listing|] == listing;
            return;
          }
        }
        i := i + 1;
      }
      assert listing[..i] == listing;
      return true;
    }

    method LinkRow(id: string, hash: string, stuck: set<string>) returns (ok: bool)
      modifies this`tree
      ensures ok <==> Linkable(old(tree), id) && id !in stuck
      ensures tree == if ok then LinkOne(old(tree), id, hash)
                      else if Linkable(old(tree), id) then Cleared(old(tree), id) else old(tree)
    {
      if !Linkable(tree, id) {
        return false;
      }
      tree := Cleared(tree, id);
      if id in stuck {
        return false;
      }
      tree := tree.(current := tree.current[id := hash]);
      return true;
    }

    /** Verifies the archive in a staging directory and only then replaces the live state, step by step. */
    method RestoreFrom(items: seq<Item>, faults: Faults)
      returns (outcome: Outcome, ghost names: seq<string>, ghost ids: seq<string>)
      modifies this
      ensures outcome.Rejected? <==> PrepareFails(items, faults.prepare) || (old(db).Some? && faults.aside)
      ensures outcome.Rejected? ==> Now() == old(Now())
      ensures !outcome.Rejected? ==>
                var stage := Prepared(items).value;
                Orders(stage, names, ids) && (outcome, Now()) == AfterChecks(old(Now()), stage, faults, names, ids)
    {
      names, ids := [], [];
      var prepared := Prepare(items, faults.prepare);
      if prepared.Err? || (db.Some? && faults.aside) {
        return Rejected, [], [];
      }
      PreparedStagesRoot(items);
      outcome, names, ids := Replace(prepared.value, faults);
    }

    /** From moving the live database aside to the links. */
    method Replace(stage: Stage, faults: Faults)
      returns (outcome: Outcome, ghost names: seq<string>, ghost ids: seq<string>)
      requires Checked(stage) && RootStaged(stage)
      modifies this
      ensures Orders(stage, names, ids) && (outcome, Now()) == AfterChecks(old(Now()), stage, faults, names, ids)
    {
      var listing := Enumerate(FunctionNames(stage));
      var rows := Enumerate(RowsOf(stage).Keys);
      names, ids := listing, rows;
      var hadLive := db.Some?;
      if hadLive {
        db, aside := None, aside[faults.second := db.value];
      }
      sidecars := false;
      if faults.install {
        outcome := Rollback(hadLive, faults);
        return;
      }
      db := Some(stage.files[DB_PATH]);
      outcome := ReplaceKeys(hadLive, stage, faults, listing, rows);
    }

    method ReplaceKeys(hadLive: bool, stage: Stage, faults: Faults, listing: seq<string>, rows: seq<string>)
      returns (outcome: Outcome)
      requires Orders(stage, listing, rows) && RootStaged(stage) && |listing| == |FunctionNames(stage)|
      modifies this
      ensures (outcome, Now()) == AfterDatabase(old(Now()), hadLive, stage, faults, listing, rows)
    {
      if MASTER_PATH in stage.files {
        if faults.masterKey {
          outcome := Rollback(hadLive, faults);
          return;
        }
        masterKey := Some(stage.files[MASTER_PATH]);
      }
      if ADMIN_PATH in stage.files {
        if faults.adminKey {
          outcome := Rollback(hadLive, faults);
          return;
        }
        adminKey := Some(stage.files[ADMIN_PATH]);
      }
      outcome := ReplaceFunctions(hadLive, stage, faults, listing, rows);
    }

    method ReplaceFunctions(hadLive: bool, stage: Stage, faults: Faults, listing: seq<string>, rows: seq<string>)
      returns (outcome: Outcome)
      requires Orders(stage, listing, rows) && RootStaged(stage) && |listing| == |FunctionNames(stage)|
      modifies this
      ensures (outcome, Now()) == AfterKeys(old(Now()), hadLive, stage, faults, listing, rows)
    {
      var moved := InstallFunctions(stage, listing, faults);
      if !moved {
        outcome := Rollback(hadLive, faults);
        return;
      }
      var linked := RebuildCurrentSymlinks(RowsOf(stage), rows, faults.links);
      outcome := if linked then Restored else LinksBroken;
    }
  }

  /** Whatever is staged below `functions` makes that a staged directory. */
  predicate RootStaged(stage: Stage) {
    && (forall p :: p in stage.files && |p| >= 2 && p[0] == "functions" ==> ROOT in stage.dirs)
    && (forall p :: p in stage.dirs && |p| >= 2 && p[0] == "functions" ==> ROOT in stage.dirs)
  }

  lemma {:induction false} ExtractStagesRoot(items: seq<Item>)
    ensures Extract(items).Ok? ==> RootStaged(Extract(items).value)
  {
    if items != [] && Extract(items).Ok? {
      ExtractStagesRoot(items[..|items| - 1]);
      var p := items[|items| - 1].path;
      if |p| >= 2 && p[0] == "functions" {
        assert p[..1] == ROOT;
        assert p[..1] in Parents(p);
      }
    }
  }

  lemma PreparedStagesRoot(items: seq<Item>)
    ensures Prepared(items).Ok? ==> RootStaged(Prepared(items).value)
  {
    ExtractStagesRoot(items);
    if Prepared(items).Ok? {
      var stage := Extract(items).value;
      forall p | p in LostMarkers(stage) ensures ROOT in stage.dirs {
        var d :| d in stage.dirs && LostMarker(stage, d) && p == MarkerOf(d);
      }
    }
  }

  // ---------------------------------------------------------------- what a rollback brings back

  /** Database, keys and functions are those of before; the write-ahead sidecars are gone either way. */
  predicate Untouched(before: Live, after: Live) {
    after.db == before.db && after.masterKey == before.masterKey && after.adminKey == before.adminKey && after.tree == before.tree
  }

  /** The archive brings other keys than the live ones, and the functions whose move fails exist. */
  predicate Replaces(live: Live, stage: Stage, faults: Faults) {
    && (MASTER_PATH in stage.files ==> live.masterKey != Some(stage.files[MASTER_PATH]))
    && (ADMIN_PATH in stage.files ==> live.adminKey != Some(stage.files[ADMIN_PATH]))
    && (forall name :: name in FunctionNames(stage) && name in faults.stuck ==> !HasNothing(live.tree, name))
  }

  /** The failing step comes before the first change a rollback cannot undo: a shipped key, or a function. */
  predicate FailsEarly(stage: Stage, at: Failure) {
    && (MASTER_PATH in stage.files ==> at.AtDatabase? || at.AtMasterKey?)
    && (ADMIN_PATH in stage.files ==> at.AtDatabase? || at.AtMasterKey? || at.AtAdminKey?)
    && !at.AtFunction?
  }

  lemma MoveFailsIff(tree: Tree, stage: Stage, faults: Faults, names: seq<string>)
    requires Enumerates(names, FunctionNames(stage))
    ensures MoveAll(tree, stage, names, faults.stuck).0 <==> FunctionNames(stage) * faults.stuck == {}
  {
    MovesIff(tree, stage, names, faults.stuck);
    if name :| name in FunctionNames(stage) * faults.stuck {
      assert name in names;
    }
    if !MoveAll(tree, stage, names, faults.stuck).0 {
      var name :| name in names && name in faults.stuck;
      assert name in FunctionNames(stage) * faults.stuck;
    }
  }

  /** A restore is rolled back, or fails to be, exactly if a step up to the functions fails. */
  lemma EndsBackIff(live: Live, stage: Stage, faults: Faults, names: seq<string>, ids: seq<string>)
    requires Orders(stage, names, ids)
    ensures var outcome, at := AfterChecks(live, stage, faults, names, ids).0, FirstFailure(live.tree, stage, faults);
            && (outcome.RolledBack? <==> !at.NoFailure? && !(live.db.Some? && faults.rollback))
            && (outcome.RollbackFailed? <==> !at.NoFailure? && live.db.Some? && faults.rollback)
            && !outcome.Rejected?
  {
    MoveFailsIff(WithRoot(live.tree, stage), stage, faults, names);
  }

  /** If none does, the data is in place, and the links are exactly if nothing obstructs or fails one. */
  lemma EndsForwardIff(live: Live, stage: Stage, faults: Faults, names: seq<string>, ids: seq<string>)
    requires Orders(stage, names, ids) && FirstFailure(live.tree, stage, faults).NoFailure?
    ensures var outcome, rows := AfterChecks(live, stage, faults, names, ids).0, RowsOf(stage);
            && (outcome.Restored? || outcome.LinksBroken?)
            && (outcome.Restored? <==>
                forall id :: id in rows && rows[id] != "" ==>
                  id !in faults.links && !Obstructed(MovedTree(live, stage, faults, names), id))
  {
    MoveFailsIff(WithRoot(live.tree, stage), stage, faults, names);
    LinksIff(MovedTree(live, stage, faults, names), RowsOf(stage), ids, faults.links);
  }

  /** The functions tree once the staged functions are in it. */
  function MovedTree(live: Live, stage: Stage, faults: Faults, names: seq<string>): Tree {
    MoveAll(WithRoot(live.tree, stage), stage, names, faults.stuck).1
  }

  /** The archive holds something of the function. */
  ghost predicate Ships(stage: Stage, name: string) {
    exists p :: ["functions", name] <= p && (p in stage.files || p in stage.dirs)
  }

  lemma ShipsIff(stage: Stage, name: string)
    ensures Ships(stage, name) <==> name in FunctionNames(stage)
  {
    if p :| ["functions", name] <= p && (p in stage.files || p in stage.dirs) {
      assert p[0] == "functions" && p[1] == name;
    }
    if name in FunctionNames(stage) {
      var p :| (p in stage.files || p in stage.dirs) && |p| >= 2 && p[0] == "functions" && p[1] == name;
      assert ["functions", name] <= p;
    }
  }

  lemma {:induction false} MovesKeepRoot(tree: Tree, stage: Stage, names: seq<string>, stuck: set<string>)
    requires ROOT in tree.dirs
    ensures ROOT in MoveAll(tree, stage, names, stuck).1.dirs
  {
    if names != [] {
      MovesKeepRoot(tree, stage, names[..|names| - 1], stuck);
    }
  }

  /**
   A restore over any live directory that succeeds leaves the staged database, the live one set aside, the shipped keys
   or the live ones, every shipped function as staged and every other as it was, and a link for each row with code.
   */
  lemma RestoredIs(live: Live, stage: Stage, faults: Faults, names: seq<string>, ids: seq<string>, name: string, p: Path)
    requires Orders(stage, names, ids) && AfterChecks(live, stage, faults, names, ids).0.Restored?
    requires Under(name, p) && p != ["functions", name, "current"]
    ensures var after, rows := AfterChecks(live, stage, faults, names, ids).1, RowsOf(stage);
            && after.db == Some(stage.files[["orva.db"]])
            && after.aside == (if live.db.Some? then live.aside[faults.second := live.db.value] else live.aside)
            && after.masterKey == Shipped(stage, ["keys", "master.key"], live.masterKey)
            && after.adminKey == Shipped(stage, ["keys", "admin.key"], live.adminKey)
            && (p in after.tree.files <==> p in if Ships(stage, name) then stage.files else live.tree.files)
            && (p in after.tree.files ==>
                  after.tree.files[p] == if Ships(stage, name) then stage.files[p] else live.tree.files[p])
            && (name in after.tree.current <==>
                  (name in rows && rows[name] != "") || (name in live.tree.current && !Ships(stage, name)))
            && (name in rows && rows[name] != "" ==> after.tree.current[name] == rows[name])
            && (["functions"] in stage.dirs ==> ["functions"] in after.tree.dirs)
  {
    var base, moved := WithRoot(live.tree, stage), MovedTree(live, stage, faults, names);
    EndsBackIff(live, stage, faults, names, ids);
    MoveFailsIff(base, stage, faults, names);
    InstalledIs(base, stage, names, faults.stuck, name, p);
    LinkedIs(moved, RowsOf(stage), ids, faults.links, p);
    LinksAre(moved, RowsOf(stage), ids, faults.links, name);
    ShipsIff(stage, name);
    if ROOT in stage.dirs {
      MovesKeepRoot(base, stage, names, faults.stuck);
    }
    LinkedDirsAre(moved, RowsOf(stage), ids, faults.links, ROOT);
    assert |ROOT| == 1 && forall id :: |LinkPath(id)| == 3;
    forall id | p == LinkPath(id) ensures id == name {
      assert p[1] == id;
    }
  }

  /** What a restore that ended back leaves, by the step that failed. */
  lemma RolledBackLeaves(live: Live, stage: Stage, faults: Faults, names: seq<string>, ids: seq<string>)
    requires Orders(stage, names, ids) && !FirstFailure(live.tree, stage, faults).NoFailure?
    ensures var (outcome, after), at := AfterChecks(live, stage, faults, names, ids), FirstFailure(live.tree, stage, faults);
            && after.db == (if outcome.RolledBack? && live.db.Some? then live.db
                            else if at.AtDatabase? then None else Some(stage.files[DB_PATH]))
            && after.aside == (if live.db.None? then live.aside
                               else if outcome.RolledBack? then live.aside - {faults.second}
                               else live.aside[faults.second := live.db.value])
            && !after.sidecars
            && after.masterKey == (if at.AtDatabase? || at.AtMasterKey? then live.masterKey
                                   else Shipped(stage, MASTER_PATH, live.masterKey))
            && after.adminKey == (if at.AtDatabase? || at.AtMasterKey? || at.AtAdminKey? then live.adminKey
                                  else Shipped(stage, ADMIN_PATH, live.adminKey))
            && after.tree == (if at.AtFunction? then MoveAll(WithRoot(live.tree, stage), stage, names, faults.stuck).1 else live.tree)
  {
    MoveFailsIff(WithRoot(live.tree, stage), stage, faults, names);
  }

  /** A rollback that met a function has lost that function's live tree. */
  lemma RollbackLosesFunction(live: Live, stage: Stage, faults: Faults, names: seq<string>, ids: seq<string>)
    returns (name: string)
    requires Orders(stage, names, ids) && FirstFailure(live.tree, stage, faults).AtFunction?
    ensures name in FunctionNames(stage) && name in faults.stuck
    ensures HasNothing(AfterChecks(live, stage, faults, names, ids).1.tree, name)
  {
    RolledBackLeaves(live, stage, faults, names, ids);
    MoveFailsIff(WithRoot(live.tree, stage), stage, faults, names);
    name := FailedMoveDestroys(WithRoot(live.tree, stage), stage, names, faults.stuck);
  }

  /**
   A rollback leaves everything as it was exactly if the failing step precedes the first shipped key and the
   functions, and there was a live database to put back or the new one never got in its place.
   */
  lemma RollbackIsCompleteIff(live: Live, stage: Stage, faults: Faults, names: seq<string>, ids: seq<string>)
    requires Orders(stage, names, ids) && AfterChecks(live, stage, faults, names, ids).0.RolledBack?
    requires Replaces(live, stage, faults)
    ensures var at := FirstFailure(live.tree, stage, faults);
            Untouched(live, AfterChecks(live, stage, faults, names, ids).1)
            <==> (live.db.Some? || at.AtDatabase?) && FailsEarly(stage, at)
  {
    EndsBackIff(live, stage, faults, names, ids);
    RolledBackLeaves(live, stage, faults, names, ids);
    if FirstFailure(live.tree, stage, faults).AtFunction? {
      var name := RollbackLosesFunction(live, stage, faults, names, ids);
      assert !HasNothing(live.tree, name);
    }
  }

  /** Functions the archive does not ship keep every file, whatever fails, up to the links of the new rows. */
  lemma UnshippedSurviveRollback(live: Live, stage: Stage, faults: Faults, names: seq<string>, ids: seq<string>,
                                 name: string, p: Path)
    requires Orders(stage, names, ids) && !FirstFailure(live.tree, stage, faults).NoFailure?
    requires Under(name, p) && name !in FunctionNames(stage)
    ensures var after := AfterChecks(live, stage, faults, names, ids).1;
            (p in after.tree.files <==> p in live.tree.files) && (p in after.tree.files ==> after.tree.files[p] == live.tree.files[p])
  {
    RolledBackLeaves(live, stage, faults, names, ids);
    UnshippedStay(WithRoot(live.tree, stage), stage, names, faults.stuck, name, p);
  }
}
