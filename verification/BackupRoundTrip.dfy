/** A backup restored into an empty data directory gives back what was backed up. */
module BackupRoundTrip {
  import opened Wrappers
  import opened BackupArchive
  import opened BackupInstall
  import opened BackupRestore
  import VersionLifecycle

  predicate Readable(src: Source) {
    src.snapshot.Database? && (src.functions.Some? ==> src.functions.value.Dir? && WellFormed(src.functions.value))
  }

  /** What the walk finds of the functions tree at a path: no link, and nothing that is skipped. */
  function Planned(src: Source, p: Path): Option<Node>
    requires Readable(src)
  {
    if src.functions.Some? then Found(ROOT, src.functions.value, src.snapshot.functions.Keys, p) else None
  }

  /** The node an archive of `src` stands for at a path. */
  function Expected(src: Source, p: Path): Option<Node>
    requires Readable(src)
  {
    if p == MANIFEST_PATH then Some(File(ManifestText(ManifestOf(src))))
    else if p == DB_PATH then Some(File(src.snapshot))
    else if p == MASTER_PATH then (if src.masterKey.Some? then Some(File(src.masterKey.value)) else None)
    else if p == ADMIN_PATH then (if src.adminKey.Some? then Some(File(src.adminKey.value)) else None)
    else if ROOT <= p then Planned(src, p)
    else None
  }

  lemma ArchiveDescribes(src: Source, it: Item)
    requires Readable(src)
    ensures it in ArchiveOf(src) <==> Describes(it, Expected(src, it.path))
  {
    assert DB_PATH[0] == "orva.db" && MANIFEST_PATH[0] == "manifest.json" && MASTER_PATH[0] == "keys" && ADMIN_PATH[0] == "keys";
    assert MASTER_PATH[1] == "master.key" && ADMIN_PATH[1] == "admin.key";
    if ROOT <= it.path {
      assert it.path[0] == "functions";
    }
    if src.functions.Some? {
      WalkIs(ROOT, src.functions.value, src.snapshot.functions.Keys, it);
    }
  }

  // ---------------------------------------------------------------- extraction gives every item back

  lemma {:induction false} NothingBelowFile(n: Node, p: Path, q: Path)
    requires At(n, p).Some? && At(n, p).value.File? && p < q
    ensures At(n, q) == None
    decreases |p|
  {
    if p != [] {
      assert p[0] == q[0] && p[1..] < q[1..];
      NothingBelowFile(Child(n.entries, p[0]).value, p[1..], q[1..]);
    }
  }

  /** No path of the archive runs through a file of the archive. */
  lemma PrefixFree(src: Source, p: Path, q: Path)
    requires Readable(src) && Expected(src, p).Some? && Expected(src, p).value.File? && p < q
    ensures Expected(src, q) == None
  {
    assert p[0] == q[0];
    if p[0] == "functions" {
      assert ROOT <= p;
      assert p[1..] < q[1..];
      NothingBelowFile(src.functions.value, p[1..], q[1..]);
    }
  }

  /** A stage that holds only what the archive stands for. */
  ghost predicate Fits(src: Source, stage: Stage)
    requires Readable(src)
  {
    && (forall p :: p in stage.files ==> Expected(src, p) == Some(File(stage.files[p])))
    && (forall p :: p in stage.dirs ==> p != [] && (ADir(src, p) || Above(src, p)))
  }

  predicate ADir(src: Source, p: Path)
    requires Readable(src)
  {
    Expected(src, p).Some? && Expected(src, p).value.Dir?
  }

  /** An archived path lies below. */
  ghost predicate Above(src: Source, p: Path)
    requires Readable(src)
  {
    exists q :: p < q && Expected(src, q).Some?
  }

  lemma ExtractOneFits(src: Source, stage: Stage, it: Item)
    requires Readable(src) && Fits(src, stage) && Describes(it, Expected(src, it.path))
    ensures ExtractOne(stage, it).Ok?
    ensures Fits(src, ExtractOne(stage, it).value)
  {
    var p := it.path;
    assert Expected(src, p).Some?;
    assert p != [] && Contained(p);
    if BelowFile(stage.files, p) {
      var k :| 0 < k < |p| && p[..k] in stage.files;
      assert p[..k] < p;
      PrefixFree(src, p[..k], p);
      assert false;
    }
    if it.FileItem? && p in stage.dirs && Above(src, p) {
      var q :| p < q && Expected(src, q).Some?;
      PrefixFree(src, p, q);
      assert false;
    }
    var next := ExtractOne(stage, it).value;
    forall d | d in next.dirs ensures d != [] && (ADir(src, d) || Above(src, d)) {
      if d in Parents(p) {
        assert d < p && Expected(src, p).Some?;
      }
    }
  }

  lemma {:induction false} ExtractFits(src: Source, items: seq<Item>)
    requires Readable(src) && forall it :: it in items ==> Describes(it, Expected(src, it.path))
    ensures Extract(items).Ok?
    ensures Fits(src, Extract(items).value)
  {
    if items != [] {
      var n := |items| - 1;
      ExtractFits(src, items[..n]);
      ExtractOneFits(src, Extract(items[..n]).value, items[n]);
    }
  }

  predicate IsStaged(stage: Stage, it: Item) {
    if it.FileItem? then it.path in stage.files else it.path in stage.dirs
  }

  lemma ExtractOneStages(stage: Stage, it: Item, other: Item)
    requires ExtractOne(stage, it).Ok? && (IsStaged(stage, other) || (other == it && !it.OtherItem? && it.path != []))
    ensures IsStaged(ExtractOne(stage, it).value, other)
  {
  }

  /** Extraction leaves every file and directory of the archive in the stage. */
  lemma {:induction false} ItemIsStaged(items: seq<Item>, it: Item)
    requires Extract(items).Ok? && it in items && !it.OtherItem? && it.path != []
    ensures IsStaged(Extract(items).value, it)
  {
    var init, last := items[..|items| - 1], items[|items| - 1];
    assert items == init + [last];
    if it != last {
      ItemIsStaged(init, it);
    }
    ExtractOneStages(Extract(init).value, last, it);
  }

  function Staged(src: Source): Result<Stage>
    requires Readable(src)
  {
    Extract(ArchiveOf(src))
  }

  /** The extracted archive holds exactly the files it stands for, and its directories. */
  lemma StagedIs(src: Source, p: Path)
    requires Readable(src)
    ensures Staged(src).Ok? && Fits(src, Staged(src).value)
    ensures var stage := Staged(src).value;
            && (p in stage.files <==> Expected(src, p).Some? && Expected(src, p).value.File?)
            && (p in stage.files ==> Expected(src, p) == Some(File(stage.files[p])))
            && (ADir(src, p) ==> p in stage.dirs)
  {
    var items := ArchiveOf(src);
    forall it | it in items ensures Describes(it, Expected(src, it.path)) {
      ArchiveDescribes(src, it);
    }
    ExtractFits(src, items);
    if Expected(src, p).Some? && Expected(src, p).value.File? {
      var it := FileItem(p, Expected(src, p).value.content);
      ArchiveDescribes(src, it);
      ItemIsStaged(items, it);
    }
    if ADir(src, p) {
      ArchiveDescribes(src, DirItem(p));
      ItemIsStaged(items, DirItem(p));
    }
  }

  // ---------------------------------------------------------------- verification accepts it

  lemma {:induction false} DigestIsOfAnItem(items: seq<Item>, p: Path) returns (it: Item)
    requires p in DigestsOf(items)
    ensures it in items && it.FileItem? && it.path == p && DigestsOf(items)[p] == Sha256(it.content)
  {
    var n := |items| - 1;
    if items[n].FileItem? && items[n].path == p {
      it := items[n];
    } else {
      it := DigestIsOfAnItem(items[..n], p);
      assert items == items[..n] + [items[n]];
    }
  }

  lemma StagedVerifies(src: Source)
    requires Readable(src)
    ensures Staged(src).Ok? && Verified(Staged(src).value) == Ok(ManifestOf(src))
  {
    StagedIs(src, MANIFEST_PATH);
    var stage, m := Staged(src).value, ManifestOf(src);
    forall p | p in m.files ensures Matches(stage, m, p) {
      var it := DigestIsOfAnItem(PlannedItems(src), p);
      assert it in ArchiveOf(src);
      ArchiveDescribes(src, it);
      StagedIs(src, p);
    }
    NotADir(src, MANIFEST_PATH);
  }

  /** The manifest and the database lie at the top and nothing lies below them. */
  lemma NotADir(src: Source, p: Path)
    requires Readable(src) && (p == MANIFEST_PATH || p == DB_PATH)
    ensures Staged(src).Ok? && p !in Staged(src).value.dirs
  {
    StagedIs(src, p);
    if Above(src, p) {
      var q :| p < q && Expected(src, q).Some?;
      PrefixFree(src, p, q);
      assert false;
    }
  }

  lemma RootIsNoFile(src: Source)
    requires Readable(src)
    ensures Staged(src).Ok? && ROOT !in Staged(src).value.files
  {
    StagedIs(src, ROOT);
    assert ROOT[0] == "functions";
    if src.functions.Some? {
      assert ROOT[1..] == [];
    }
  }

  /** An archive as written always passes the checks that precede the first live change. */
  lemma ArchivePasses(src: Source)
    requires Readable(src)
    ensures Staged(src).Ok? && Prepared(ArchiveOf(src)) == Ok(Healed(Staged(src).value))
  {
    StagedVerifies(src);
    StagedIs(src, DB_PATH);
    RootIsNoFile(src);
    LostMarkersAre(Staged(src).value, DB_PATH);
  }

  /** Every file that the manifest lists is there with the content it was taken of. */
  predicate Intact(stage: Stage, m: Manifest) {
    forall p :: p in m.files ==> p in stage.files && stage.files[p] == m.files[p].of
  }

  /** A manifest is accepted exactly if it can be read, is of version 1 or older, and all it lists is intact. */
  lemma VerifiedIff(stage: Stage)
    requires MANIFEST_PATH in stage.files || MANIFEST_PATH in stage.dirs
    ensures Verified(stage).Ok? <==>
              && MANIFEST_PATH !in stage.dirs && stage.files[MANIFEST_PATH].ManifestText?
              && stage.files[MANIFEST_PATH].manifest.formatVersion <= 1
              && Intact(stage, stage.files[MANIFEST_PATH].manifest)
  {
    if MANIFEST_PATH !in stage.dirs && stage.files[MANIFEST_PATH].ManifestText? {
      ListedMatch(stage, stage.files[MANIFEST_PATH].manifest);
    }
  }

  lemma ListedMatch(stage: Stage, m: Manifest)
    ensures (forall p :: p in m.files ==> Matches(stage, m, p)) <==> Intact(stage, m)
  {
    if forall p :: p in m.files ==> p in stage.files && stage.files[p] == m.files[p].of {
      forall p | p in m.files ensures Matches(stage, m, p) {
      }
    }
    if forall p :: p in m.files ==> Matches(stage, m, p) {
      forall p | p in m.files ensures p in stage.files && stage.files[p] == m.files[p].of {
        assert Matches(stage, m, p);
      }
    }
  }

  // ---------------------------------------------------------------- what the manifest is for

  lemma {:induction false} EveryItemHasDigest(items: seq<Item>, it: Item)
    requires it in items && it.FileItem?
    ensures it.path in DigestsOf(items)
  {
    var n := |items| - 1;
    if it in items[..n] {
      EveryItemHasDigest(items[..n], it);
    } else {
      assert items == items[..n] + [items[n]];
    }
  }

  lemma ManifestIsNotPlanned(src: Source)
    requires Readable(src)
    ensures forall it :: it in PlannedItems(src) ==> it.path != MANIFEST_PATH
  {
    forall it | it in PlannedItems(src) ensures it.path != MANIFEST_PATH {
      assert DB_PATH[0] == "orva.db" && MANIFEST_PATH[0] == "manifest.json" && |MASTER_PATH| == |ADMIN_PATH| == 2;
      if src.functions.Some? {
        WalkIs(ROOT, src.functions.value, src.snapshot.functions.Keys, it);
      }
    }
  }

  /** The manifest of a backup lists exactly the files it took, each by what it held. */
  lemma ManifestIs(src: Source, p: Path)
    requires Readable(src)
    ensures p in ManifestOf(src).files <==> p != MANIFEST_PATH && Expected(src, p).Some? && Expected(src, p).value.File?
    ensures p in ManifestOf(src).files ==> Expected(src, p) == Some(File(ManifestOf(src).files[p].of))
  {
    ManifestIsNotPlanned(src);
    var planned := PlannedItems(src);
    if p in ManifestOf(src).files {
      var it := DigestIsOfAnItem(planned, p);
      assert it in ArchiveOf(src);
      ArchiveDescribes(src, it);
    }
    if p != MANIFEST_PATH && Expected(src, p).Some? && Expected(src, p).value.File? {
      var it := FileItem(p, Expected(src, p).value.content);
      ArchiveDescribes(src, it);
      assert it in planned;
      EveryItemHasDigest(planned, it);
    }
  }

  /**
   Whatever else happened to an archive, with the manifest of its backup it is accepted exactly if every file that the
   backup took is there unchanged.
   */
  lemma TamperingIsNoticed(src: Source, stage: Stage)
    requires Readable(src) && MANIFEST_PATH in stage.files && MANIFEST_PATH !in stage.dirs
    requires stage.files[MANIFEST_PATH] == ManifestText(ManifestOf(src))
    ensures Verified(stage).Ok? <==>
              forall p :: p != MANIFEST_PATH && Expected(src, p).Some? && Expected(src, p).value.File? ==>
                p in stage.files && Expected(src, p) == Some(File(stage.files[p]))
  {
    VerifiedIff(stage);
    forall p ensures p in ManifestOf(src).files
                     <==> p != MANIFEST_PATH && Expected(src, p).Some? && Expected(src, p).value.File?
    {
      ManifestIs(src, p);
    }
    forall p | p in ManifestOf(src).files ensures Expected(src, p) == Some(File(ManifestOf(src).files[p].of)) {
      ManifestIs(src, p);
    }
  }

  // ---------------------------------------------------------------- what is there after the restore

  const EMPTY_TREE: Tree := Tree(map[], {}, map[])

  /** A regular file of the functions tree that the backup takes. */
  predicate PlannedFile(src: Source, p: Path)
    requires Readable(src)
  {
    Planned(src, p).Some? && Planned(src, p).value.File?
  }

  predicate PlannedDir(src: Source, p: Path)
    requires Readable(src)
  {
    Planned(src, p).Some? && Planned(src, p).value.Dir?
  }

  /** A published version directory of the backup that has content but no readiness marker. */
  ghost predicate Unmarked(src: Source, dir: Path)
    requires Readable(src)
  {
    && IsVersionDir(dir) && PlannedDir(src, dir)
    && !PlannedFile(src, MarkerOf(dir)) && !PlannedDir(src, MarkerOf(dir))
    && exists q :: dir < q && (PlannedFile(src, q) || PlannedDir(src, q))
  }

  ghost predicate AddedMarker(src: Source, p: Path)
    requires Readable(src)
  {
    p != [] && p == MarkerOf(p[..|p| - 1]) && Unmarked(src, p[..|p| - 1])
  }

  lemma {:induction false} DirsAbove(n: Node, p: Path, q: Path)
    requires At(n, q).Some? && p < q
    ensures At(n, p).Some? && At(n, p).value.Dir?
    decreases |p|
  {
    if p != [] {
      assert p[0] == q[0] && p[1..] < q[1..];
      DirsAbove(Child(n.entries, p[0]).value, p[1..], q[1..]);
    }
  }

  /** Whatever is found lies in directories that are found. */
  lemma FoundAbove(src: Source, p: Path, q: Path)
    requires Readable(src) && ROOT <= p < q && Planned(src, q).Some?
    ensures PlannedDir(src, p)
  {
    assert p[1..] < q[1..];
    DirsAbove(src.functions.value, p[1..], q[1..]);
    forall k | 1 <= k <= |p| ensures p[..k] == q[..k] {
    }
  }

  lemma StagedBelowRoot(src: Source, p: Path)
    requires Readable(src) && ROOT <= p
    ensures Staged(src).Ok?
    ensures p in Staged(src).value.files <==> PlannedFile(src, p)
    ensures p in Staged(src).value.files ==> Planned(src, p) == Some(File(Staged(src).value.files[p]))
    ensures p in Staged(src).value.dirs <==> PlannedDir(src, p)
  {
    StagedIs(src, p);
    assert p[0] == "functions";
    assert Expected(src, p) == Planned(src, p);
    if p in Staged(src).value.dirs && Above(src, p) {
      var q :| p < q && Expected(src, q).Some?;
      assert q[0] == "functions" && ROOT <= q;
      FoundAbove(src, p, q);
    }
  }

  lemma LostMarkerIs(src: Source, dir: Path)
    requires Readable(src) && IsVersionDir(dir)
    ensures Staged(src).Ok?
    ensures dir in Staged(src).value.dirs && LostMarker(Staged(src).value, dir) <==> Unmarked(src, dir)
  {
    assert ROOT <= dir && ROOT <= MarkerOf(dir);
    StagedBelowRoot(src, dir);
    StagedBelowRoot(src, MarkerOf(dir));
    var stage := Staged(src).value;
    if NonEmpty(stage, dir) {
      var q :| (q in stage.files || q in stage.dirs) && dir < q;
      assert q[0] == "functions" && ROOT <= q;
      StagedBelowRoot(src, q);
    }
    if q :| dir < q && (PlannedFile(src, q) || PlannedDir(src, q)) {
      assert q[0] == "functions" && ROOT <= q;
      StagedBelowRoot(src, q);
    }
  }

  /** Healing adds exactly the missing markers. */
  lemma AddedMarkerIs(src: Source, p: Path)
    requires Readable(src) && ROOT <= p
    ensures Staged(src).Ok?
    ensures p in LostMarkers(Staged(src).value) <==> AddedMarker(src, p)
    ensures AddedMarker(src, p) ==> |p| >= 2
  {
    StagedBelowRoot(src, p);
    LostMarkersAre(Staged(src).value, p);
    var dir := p[..|p| - 1];
    if IsVersionDir(dir) {
      LostMarkerIs(src, dir);
    }
  }

  /** The files of the prepared stage: those planned, and the markers of the versions that lost theirs. */
  lemma PreparedIs(src: Source, p: Path)
    requires Readable(src) && ROOT <= p
    ensures Prepared(ArchiveOf(src)).Ok?
    ensures var stage := Prepared(ArchiveOf(src)).value;
            && (p in stage.files <==> PlannedFile(src, p) || AddedMarker(src, p))
            && (PlannedFile(src, p) ==> Planned(src, p) == Some(File(stage.files[p])))
            && (!PlannedFile(src, p) && AddedMarker(src, p) ==> stage.files[p] == Blob(p[|p| - 2]))
            && (p in stage.dirs <==> PlannedDir(src, p))
  {
    ArchivePasses(src);
    StagedBelowRoot(src, p);
    AddedMarkerIs(src, p);
  }

  /** `current` of a function with a code hash, which the restore makes a link. */
  predicate BecomesLink(src: Source, p: Path)
    requires Readable(src)
  {
    exists id :: id in src.snapshot.functions && src.snapshot.functions[id] != "" && p == LinkPath(id)
  }

  /** The stage a restore of the backup works from, and the functions tree it leaves in an empty directory. */
  function StageOf(src: Source): Stage
    requires Readable(src)
  {
    if Prepared(ArchiveOf(src)).Ok? then Prepared(ArchiveOf(src)).value else Stage(map[], {})
  }

  function Moved(src: Source, names: seq<string>): Tree
    requires Readable(src)
  {
    MoveAll(WithRoot(EMPTY_TREE, StageOf(src)), StageOf(src), names, {}).1
  }

  function Linked(src: Source, names: seq<string>, ids: seq<string>): (bool, Tree)
    requires Readable(src) && Enumerates(ids, src.snapshot.functions.Keys)
  {
    LinkAll(Moved(src, names), src.snapshot.functions, ids, {})
  }

  /** The restored files are exactly the planned ones with their contents, and the missing readiness markers. */
  lemma RestoredTreeIs(src: Source, names: seq<string>, ids: seq<string>, id: string, p: Path)
    requires Readable(src) && Under(id, p) && Enumerates(names, FunctionNames(StageOf(src)))
    requires Enumerates(ids, src.snapshot.functions.Keys) && Linked(src, names, ids).0
    ensures var after := Linked(src, names, ids).1;
            && (p in after.files <==> (PlannedFile(src, p) || AddedMarker(src, p)) && !BecomesLink(src, p))
            && (p in after.files && PlannedFile(src, p) ==> Planned(src, p) == Some(File(after.files[p])))
            && (p in after.files && !PlannedFile(src, p) ==> after.files[p] == Blob(p[|p| - 2]))
  {
    assert ROOT <= p;
    PreparedIs(src, p);
    MovedIs(src, names, id, p);
    LinkedIs(Moved(src, names), src.snapshot.functions, ids, {}, p);
  }

  lemma MovedIs(src: Source, names: seq<string>, id: string, p: Path)
    requires Readable(src) && Under(id, p) && Enumerates(names, FunctionNames(StageOf(src)))
    ensures var tree, stage := Moved(src, names), StageOf(src);
            && (p in tree.files <==> p in stage.files)
            && (p in tree.files ==> tree.files[p] == stage.files[p])
            && (p in tree.dirs <==> p in stage.dirs)
            && id !in tree.current
  {
    var stage := StageOf(src);
    MovesIff(WithRoot(EMPTY_TREE, stage), stage, names, {});
    InstalledIs(WithRoot(EMPTY_TREE, stage), stage, names, {}, id, p);
    if p in stage.files || p in stage.dirs {
      assert p[1] in FunctionNames(stage);
    }
  }

  /** Every function with a code hash serves it, and no other function has a link. */
  lemma RestoredLinksAre(src: Source, names: seq<string>, ids: seq<string>, id: string)
    requires Readable(src) && Enumerates(names, FunctionNames(StageOf(src)))
    requires Enumerates(ids, src.snapshot.functions.Keys) && Linked(src, names, ids).0
    ensures var current := Linked(src, names, ids).1.current;
            && (id in current <==> id in src.snapshot.functions && src.snapshot.functions[id] != "")
            && (id in current ==> current[id] == src.snapshot.functions[id])
  {
    LinksAre(Moved(src, names), src.snapshot.functions, ids, {}, id);
    assert Under(id, FnDir(id));
    MovedIs(src, names, id, FnDir(id));
  }

  /** The database and the keys are staged as they were. */
  lemma StagedKeysAre(src: Source)
    requires Readable(src)
    ensures Prepared(ArchiveOf(src)).Ok?
    ensures var stage := StageOf(src);
            && Checked(stage) && stage.files[DB_PATH] == src.snapshot
            && Shipped(stage, MASTER_PATH, None) == src.masterKey && Shipped(stage, ADMIN_PATH, None) == src.adminKey
  {
    ArchivePasses(src);
    KeyStaged(src, DB_PATH);
    KeyStaged(src, MASTER_PATH);
    KeyStaged(src, ADMIN_PATH);
    assert MASTER_PATH[1] == "master.key" && ADMIN_PATH[1] == "admin.key";
  }

  lemma KeyStaged(src: Source, p: Path)
    requires Readable(src) && (p == DB_PATH || p == MASTER_PATH || p == ADMIN_PATH)
    ensures Prepared(ArchiveOf(src)).Ok?
    ensures p in StageOf(src).files <==> Expected(src, p).Some?
    ensures p in StageOf(src).files ==> Expected(src, p) == Some(File(StageOf(src).files[p]))
  {
    ArchivePasses(src);
    StagedIs(src, p);
    LostMarkersAre(Staged(src).value, p);
  }

  // ---------------------------------------------------------------- the restore does not fail

  /** No function is a plain file, and `current` is no real directory: builds and activations keep it so. */
  predicate Deployed(src: Source)
    requires Readable(src)
  {
    forall id :: id in src.snapshot.functions && src.snapshot.functions[id] != "" ==>
      !PlannedFile(src, FnDir(id)) && !PlannedDir(src, LinkPath(id))
  }

  predicate Unobstructed(tree: Tree, rows: map<string, string>) {
    && ROOT !in tree.files
    && (forall id :: id in rows && rows[id] != "" ==> FnDir(id) !in tree.files && LinkPath(id) !in tree.dirs)
  }

  lemma LinksSucceed(tree: Tree, rows: map<string, string>, ids: seq<string>)
    requires (forall id :: id in ids ==> id in rows) && Unobstructed(tree, rows)
    ensures LinkAll(tree, rows, ids, {}).0
  {
    forall id | id in rows && rows[id] != "" ensures !Obstructed(tree, id) {
      LinkableIff(tree, id);
    }
    LinksIff(tree, rows, ids, {});
  }

  /** Nothing obstructs the links of a backup's functions. */
  lemma NothingObstructs(src: Source, names: seq<string>)
    requires Readable(src) && Deployed(src) && Enumerates(names, FunctionNames(StageOf(src)))
    ensures Unobstructed(Moved(src, names), src.snapshot.functions)
  {
    var rows, tree := src.snapshot.functions, Moved(src, names);
    forall id | id in rows && rows[id] != "" ensures FnDir(id) !in tree.files && LinkPath(id) !in tree.dirs {
      PreparedIs(src, FnDir(id));
      PreparedIs(src, LinkPath(id));
      MovedIs(src, names, id, FnDir(id));
      MovedIs(src, names, id, LinkPath(id));
    }
    RootStaysOut(StageOf(src), names);
  }

  lemma {:induction false} RootStaysOut(stage: Stage, names: seq<string>)
    ensures ROOT !in MoveAll(WithRoot(EMPTY_TREE, stage), stage, names, {}).1.files
  {
    if names != [] {
      RootStaysOut(stage, names[..|names| - 1]);
    }
  }

  const EMPTY_LIVE: Live := Live(None, map[], false, None, None, EMPTY_TREE)

  /**
   Restoring a backup into an empty data directory, without a fault, gives back the database, the keys, the
   planned files of every function and its link, in whatever order functions and rows are listed.
   */
  lemma RestoreGivesBack(src: Source, names: seq<string>, ids: seq<string>)
    requires Readable(src) && Deployed(src)
    requires Enumerates(names, FunctionNames(StageOf(src))) && Enumerates(ids, src.snapshot.functions.Keys)
    ensures !PrepareFails(ArchiveOf(src), NO_FAULTS.prepare) && Orders(StageOf(src), names, ids)
    ensures Linked(src, names, ids).0
    ensures AfterChecks(EMPTY_LIVE, StageOf(src), NO_FAULTS, names, ids)
            == (Restored, Live(Some(src.snapshot), map[], false, src.masterKey, src.adminKey, Linked(src, names, ids).1))
  {
    StagedKeysAre(src);
    NothingObstructs(src, names);
    LinksSucceed(Moved(src, names), src.snapshot.functions, ids);
    NothingStops(src, names);
  }

  lemma NothingStops(src: Source, names: seq<string>)
    requires Readable(src)
    ensures !PrepareFails(ArchiveOf(src), NO_FAULTS.prepare) && !RootFails(EMPTY_TREE, StageOf(src), NO_FAULTS)
    ensures MoveAll(WithRoot(EMPTY_TREE, StageOf(src)), StageOf(src), names, {}).0
  {
    ArchivePasses(src);
    RootIsNoFile(src);
    LostMarkersAre(Staged(src).value, ROOT);
    MovesIff(WithRoot(EMPTY_TREE, StageOf(src)), StageOf(src), names, {});
  }

  /**
   The same backup restored over a live directory whose function `f` cannot be replaced is rolled back to the live
   database without a trace of that function; where there was no database, the restored one stays.
   */
  lemma RollbackIsPartial(src: Source, live: Live, f: string, names: seq<string>, ids: seq<string>)
    requires Readable(src) && f in FunctionNames(StageOf(src)) && ROOT !in live.tree.files
    requires Enumerates(names, FunctionNames(StageOf(src))) && Enumerates(ids, src.snapshot.functions.Keys)
    ensures Prepared(ArchiveOf(src)).Ok? && Orders(StageOf(src), names, ids)
    ensures var (outcome, after) := AfterChecks(live, StageOf(src), NO_FAULTS.(stuck := {f}), names, ids);
            && outcome.RolledBack? && HasNothing(after.tree, f)
            && after.db == if live.db.Some? then live.db else Some(src.snapshot)
  {
    var stage, faults := StageOf(src), NO_FAULTS.(stuck := {f});
    StagedKeysAre(src);
    NothingStops(src, names);
    assert FirstFailure(live.tree, stage, faults).AtFunction? by {
      assert f in FunctionNames(stage) * faults.stuck;
    }
    EndsBackIff(live, stage, faults, names, ids);
    RolledBackLeaves(live, stage, faults, names, ids);
    var name := RollbackLosesFunction(live, stage, faults, names, ids);
  }

  // ---------------------------------------------------------------- what a backup takes

  /** A hidden name outside the versions of a function. */
  predicate HiddenAt(p: Path, k: int) {
    1 <= k < |p| && p[k] != "" && p[k][0] == '.' && !(k >= 4 && p[0] == "functions" && p[2] == "versions")
  }

  /**
   The backup takes what is found at a path exactly if the function it is of is in the database and no name on it is
   hidden outside a version directory.
   */
  lemma PlannedIff(src: Source, p: Path)
    requires Readable(src) && src.functions.Some? && ROOT <= p
    ensures var taken := (|p| >= 2 && p[1] != "" ==> p[1] in src.snapshot.functions) && forall k :: !HiddenAt(p, k);
            Planned(src, p) == if taken then At(src.functions.value, p[1..]) else None
  {
    var live := src.snapshot.functions.Keys;
    forall k | 0 <= k < |p| ensures Skipped(p[..k + 1], live) <==> HiddenAt(p, k) || (k >= 1 && p[1] != "" && p[1] !in live) {
      assert p[..k + 1][k] == p[k];
    }
    if k :| HiddenAt(p, k) {
      assert Skipped(p[..k + 1], live);
    } else if |p| >= 2 && p[1] != "" && p[1] !in live {
      assert Skipped(p[..2], live);
    } else {
      forall k | 1 <= k <= |p| ensures !Skipped(p[..k], live) {
        assert !HiddenAt(p, k - 1);
      }
    }
  }

  /** Orphaned trees stay behind. */
  lemma OrphansAreNotPlanned(src: Source, id: string, p: Path)
    requires Readable(src) && Under(id, p) && id != "" && id !in src.snapshot.functions
    ensures Planned(src, p) == None
  {
    assert p[..2][1] == id;
    assert Skipped(p[..2], src.snapshot.functions.Keys);
  }

  /** Every regular file below a version directory of a live function is taken, dotfiles included. */
  lemma VersionContentIsPlanned(src: Source, id: string, hash: string, rest: Path, content: Content)
    requires Readable(src) && src.functions.Some? && id in src.snapshot.functions && !Dotted(id) && !Dotted(hash)
    requires rest != [] && At(src.functions.value, [id, "versions", hash] + rest) == Some(File(content))
    ensures Planned(src, ROOT + ([id, "versions", hash] + rest)) == Some(File(content))
  {
    var live := src.snapshot.functions.Keys;
    var p := ROOT + ([id, "versions", hash] + rest);
    assert p[1..] == [id, "versions", hash] + rest;
    forall k | 1 <= k <= |p| ensures !Skipped(p[..k], live) {
      assert p[0] == "functions" && p[1] == id && p[2] == "versions" && p[3] == hash;
      assert k > 1 ==> p[..k][1] == id;
    }
    assert ROOT <= p;
  }
}
