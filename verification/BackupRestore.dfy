/** The first half of a restore: extract to a staging directory, verify and heal, touching nothing live. */
module BackupRestore {
  import opened Wrappers
  import opened BackupArchive
  import VersionLifecycle

  /** The staging directory. */
  datatype Stage = Stage(files: map<Path, Content>, dirs: set<Path>)

  const READY_MARKER: string := ".orva-ready"

  function Parents(p: Path): set<Path> { set k | 0 < k < |p| :: p[..k] }

  // ---------------------------------------------------------------- extraction

  /** Neither absolute nor above the staging directory. */
  predicate Contained(p: Path) { p == [] || (p[0] != ".." && p[0] != "") }

  predicate BelowFile(files: map<Path, Content>, p: Path) { exists k :: 0 < k < |p| && p[..k] in files }

  /** Extracts one entry; what is neither a file nor a directory is skipped. */
  function ExtractOne(stage: Stage, it: Item): Result<Stage> {
    if !Contained(it.path) then Err("unsafe path in archive")
    else
      match it
      case OtherItem(_) => Ok(stage)
      case DirItem(p) =>
        if p in stage.files || BelowFile(stage.files, p) then Err("mkdir")
        else Ok(stage.(dirs := stage.dirs + Parents(p) + if p == [] then {} else {p}))
      case FileItem(p, content) =>
        if p == [] || p in stage.dirs || BelowFile(stage.files, p) then Err("open")
        else Ok(Stage(stage.files[p := content], stage.dirs + Parents(p)))
  }

  function Extract(items: seq<Item>): Result<Stage> {
    if items == [] then Ok(Stage(map[], {}))
    else
      var before := Extract(items[..|items| - 1]);
      if before.Err? then before else ExtractOne(before.value, items[|items| - 1])
  }

  lemma {:induction false} ExtractStopsAtError(items: seq<Item>, i: nat, j: nat)
    requires i <= j <= |items| && Extract(items[..i]).Err?
    ensures Extract(items[..j]) == Extract(items[..i])
    decreases j
  {
    if i < j {
      ExtractStopsAtError(items, i, j - 1);
      assert items[..j][..j - 1] == items[..j - 1];
    }
  }

  method ExtractTarGz(items: seq<Item>) returns (stage: Result<Stage>)
    ensures stage == Extract(items)
  {
    var s := Stage(map[], {});
    var i := 0;
    while i < |items|
      invariant 0 <= i <= |items| && Extract(items[..i]) == Ok(s)
    {
      assert items[..i + 1][..i] == items[..i];
      var next := ExtractOne(s, items[i]);
      if next.Err? {
        ExtractStopsAtError(items, i + 1, |items|);
        assert items[..|items|] == items;
        return next;
      }
      s := next.value;
      i := i + 1;
    }
    assert items[..i] == items;
    return Ok(s);
  }

  // ---------------------------------------------------------------- where an archive can write

  /** A path as it is after cleaning: no empty or "." component, and ".." only in front. A leading "" is the root. */
  predicate Clean(p: Path) {
    && (p != [] ==> p[0] != ".")
    && forall i, j :: 0 <= i < j < |p| ==> p[j] != "" && p[j] != "." && (p[j] == ".." ==> p[i] == "..")
  }

  /** Every component is the name of an entry of the directory before it. */
  predicate Inside(p: Path) { forall i :: 0 <= i < |p| ==> p[i] != "" && p[i] != "." && p[i] != ".." }

  lemma ContainedIsInside(p: Path)
    requires Clean(p)
    ensures Contained(p) <==> Inside(p)
  {
    if Contained(p) {
      forall j | 0 <= j < |p| ensures p[j] != "" && p[j] != "." && p[j] != ".." {
        assert p[0] != "..";
      }
    }
  }

  predicate StageInside(stage: Stage) {
    (forall p :: p in stage.files ==> Inside(p)) && forall p :: p in stage.dirs ==> Inside(p)
  }

  lemma ParentsInside(p: Path)
    requires Inside(p)
    ensures forall q :: q in Parents(p) ==> Inside(q)
  {
  }

  /** Whatever the archive names, nothing is written outside the staging directory. */
  lemma {:induction false} ExtractedStaysInside(items: seq<Item>)
    requires forall i :: 0 <= i < |items| ==> Clean(items[i].path)
    ensures Extract(items).Ok? ==> StageInside(Extract(items).value)
    ensures Extract(items).Ok? ==> forall i :: 0 <= i < |items| ==> Inside(items[i].path)
  {
    if items != [] {
      var n := |items| - 1;
      ExtractedStaysInside(items[..n]);
      ContainedIsInside(items[n].path);
      if Inside(items[n].path) {
        ParentsInside(items[n].path);
      }
    }
  }

  lemma OneUnsafeIff(stage: Stage, it: Item)
    requires Clean(it.path)
    ensures ExtractOne(stage, it) == Err("unsafe path in archive") <==> !Inside(it.path)
  {
    ContainedIsInside(it.path);
    assert "unsafe path in archive"[0] == 'u' && "mkdir"[0] == 'm' && "open"[0] == 'o';
  }

  predicate LeavesAt(items: seq<Item>, i: nat) {
    i < |items| && Extract(items[..i]).Ok? && !Inside(items[i].path)
  }

  lemma LeavesEarlier(items: seq<Item>, init: seq<Item>)
    requires items != [] && init == items[..|items| - 1]
    ensures (exists i: nat :: i < |items| - 1 && LeavesAt(items, i)) <==> exists i :: LeavesAt(init, i)
  {
    forall i: nat | i < |items| - 1 ensures LeavesAt(items, i) <==> LeavesAt(init, i) {
      assert init[..i] == items[..i];
    }
    if i :| LeavesAt(init, i) {
      assert LeavesAt(items, i);
    }
  }

  /** An archive is refused as unsafe exactly if it names a path outside before anything else stops it. */
  lemma {:induction false} UnsafeIff(items: seq<Item>)
    requires forall i :: 0 <= i < |items| ==> Clean(items[i].path)
    ensures Extract(items) == Err("unsafe path in archive") <==> exists i :: LeavesAt(items, i)
  {
    if items != [] {
      var n := |items| - 1;
      UnsafeIff(items[..n]);
      LeavesEarlier(items, items[..n]);
      if Extract(items[..n]).Ok? {
        OneUnsafeIff(Extract(items[..n]).value, items[n]);
        assert LeavesAt(items, n) <==> !Inside(items[n].path);
        NoneLeavesBefore(items, n);
      } else {
        assert !LeavesAt(items, n);
      }
    }
  }

  lemma NoneLeavesBefore(items: seq<Item>, n: nat)
    requires n <= |items| && Extract(items[..n]).Ok? && forall i :: 0 <= i < |items| ==> Clean(items[i].path)
    ensures forall i :: 0 <= i < n ==> !LeavesAt(items, i)
  {
    ExtractedStaysInside(items[..n]);
    forall i | 0 <= i < n ensures Inside(items[i].path) {
      assert items[..n][i] == items[i];
    }
  }

  /** Whatever is staged lies in staged directories, and nothing is both a file and a directory. */
  ghost predicate TreeShaped(stage: Stage) {
    && (forall p :: p in stage.files ==> p != [] && p !in stage.dirs && forall q :: q in Parents(p) ==> q in stage.dirs)
    && (forall p :: p in stage.dirs ==> p != [] && forall q :: q in Parents(p) ==> q in stage.dirs)
  }

  lemma {:induction false} ExtractedIsTree(items: seq<Item>)
    requires Extract(items).Ok?
    ensures TreeShaped(Extract(items).value)
  {
    if items != [] {
      ExtractedIsTree(items[..|items| - 1]);
      OneKeepsTree(Extract(items[..|items| - 1]).value, items[|items| - 1]);
    }
  }

  lemma ParentsOfParents(p: Path, q: Path)
    requires q in Parents(p)
    ensures q != [] && Parents(q) <= Parents(p)
  {
    var k :| 0 < k < |p| && q == p[..k];
    forall r | r in Parents(q) ensures r in Parents(p) {
      var j :| 0 < j < k && r == q[..j];
      assert r == p[..j];
    }
  }

  lemma OneKeepsTree(stage: Stage, it: Item)
    requires TreeShaped(stage) && ExtractOne(stage, it).Ok?
    ensures TreeShaped(ExtractOne(stage, it).value)
  {
    if !it.OtherItem? {
      var p := it.path;
      forall q | q in Parents(p) ensures q != [] && q !in stage.files && Parents(q) <= Parents(p) {
        ParentsOfParents(p, q);
        assert !BelowFile(stage.files, p);
      }
    }
  }

  predicate FileOf(it: Item, p: Path) { it.FileItem? && it.path == p }

  lemma OneMoreFile(stage: Stage, it: Item, p: Path)
    requires ExtractOne(stage, it).Ok?
    ensures var after := ExtractOne(stage, it).value;
            && (p in after.files <==> p in stage.files || FileOf(it, p))
            && (p in after.files ==> after.files[p] == if FileOf(it, p) then it.content else stage.files[p])
  {
  }

  /** No file comes from anywhere but a file item, ... */
  lemma {:induction false} FilesAreItems(items: seq<Item>, p: Path)
    requires Extract(items).Ok? && p in Extract(items).value.files
    ensures exists i :: 0 <= i < |items| && FileOf(items[i], p)
  {
    if items != [] {
      var init, n := items[..|items| - 1], |items| - 1;
      OneMoreFile(Extract(init).value, items[n], p);
      if !FileOf(items[n], p) {
        FilesAreItems(init, p);
        var i :| 0 <= i < n && FileOf(init[i], p);
        assert FileOf(items[i], p);
      }
    }
  }

  /** ... and of a path's file items the last is the one that stays. */
  lemma {:induction false} LastItemStays(items: seq<Item>, p: Path, i: nat)
    requires Extract(items).Ok? && i < |items| && FileOf(items[i], p)
    requires forall j :: i < j < |items| ==> !FileOf(items[j], p)
    ensures p in Extract(items).value.files && Extract(items).value.files[p] == items[i].content
  {
    var init, n := items[..|items| - 1], |items| - 1;
    OneMoreFile(Extract(init).value, items[n], p);
    if i < n {
      LastItemStays(init, p, i);
    }
  }

  // ---------------------------------------------------------------- the manifest

  predicate Matches(stage: Stage, m: Manifest, p: Path)
    requires p in m.files
  {
    p in stage.files && Sha256(stage.files[p]) == m.files[p]
  }

  /** An archive without a manifest is from before manifests and is not verified. */
  function Verified(stage: Stage): Result<Manifest> {
    if MANIFEST_PATH in stage.dirs then Err("read manifest")
    else if MANIFEST_PATH !in stage.files then Ok(Manifest(0, 0, false, map[]))
    else if !stage.files[MANIFEST_PATH].ManifestText? then Err("parse manifest")
    else
      var m := stage.files[MANIFEST_PATH].manifest;
      if m.formatVersion > FORMAT_VERSION then Err("archive format newer than this binary supports")
      else if forall p :: p in m.files ==> Matches(stage, m, p) then Ok(m)
      else Err("checksum")
  }

  method ReadAndVerifyManifest(stage: Stage) returns (r: Result<Manifest>)
    ensures r.Ok? <==> Verified(stage).Ok?
    ensures r.Ok? ==> r == Verified(stage)
  {
    if MANIFEST_PATH in stage.dirs {
      return Err("read manifest");
    }
    if MANIFEST_PATH !in stage.files {
      return Ok(Manifest(0, 0, false, map[]));
    }
    if !stage.files[MANIFEST_PATH].ManifestText? {
      return Err("parse manifest");
    }
    var m := stage.files[MANIFEST_PATH].manifest;
    if m.formatVersion > FORMAT_VERSION {
      return Err("archive format newer than this binary supports");
    }
    var left := m.files.Keys;
    while left != {}
      invariant left <= m.files.Keys
      invariant forall p :: p in m.files && p !in left ==> Matches(stage, m, p)
      decreases |left|
    {
      var p :| p in left;
      if p !in stage.files {
        assert !Matches(stage, m, p);
        return Err("manifest lists a missing file");
      }
      if Sha256(stage.files[p]) != m.files[p] {
        assert !Matches(stage, m, p);
        return Err("sha256 mismatch");
      }
      left := left - {p};
    }
    return Ok(m);
  }

  // ---------------------------------------------------------------- readiness markers

  function MarkerOf(dir: Path): Path { dir + [READY_MARKER] }

  predicate IsVersionDir(p: Path) {
    |p| == 4 && p[0] == "functions" && p[2] == "versions" && VersionLifecycle.BareHash(p[3])
  }

  predicate Holds(stage: Stage, p: Path) { p in stage.files || p in stage.dirs }

  predicate NonEmpty(stage: Stage, dir: Path) {
    (exists p :: p in stage.files && dir < p) || (exists p :: p in stage.dirs && dir < p)
  }

  /** A published version directory with content but no marker. */
  predicate LostMarker(stage: Stage, dir: Path) {
    dir in stage.dirs && IsVersionDir(dir) && !Holds(stage, MarkerOf(dir)) && NonEmpty(stage, dir)
  }

  function Marked(stage: Stage, dir: Path): Stage
    requires dir != []
  {
    stage.(files := stage.files[MarkerOf(dir) := Blob(dir[|dir| - 1])])
  }

  function HealFirst(stage: Stage, dirs: seq<Path>): Stage {
    if dirs == [] then stage
    else
      var before, d := HealFirst(stage, dirs[..|dirs| - 1]), dirs[|dirs| - 1];
      if LostMarker(stage, d) then Marked(before, d) else before
  }

  /** Writing one marker decides nothing about another directory. */
  lemma {:induction false} MarkersAreSeparate(stage: Stage, dirs: seq<Path>, d: Path)
    requires d !in dirs && IsVersionDir(d)
    ensures LostMarker(HealFirst(stage, dirs), d) <==> LostMarker(stage, d)
    ensures HealFirst(stage, dirs).dirs == stage.dirs
  {
    if dirs != [] {
      var n := |dirs| - 1;
      MarkersAreSeparate(stage, dirs[..n], d);
      if LostMarker(stage, dirs[n]) {
        OneMarkerIsSeparate(HealFirst(stage, dirs[..n]), dirs[n], d);
      }
    }
  }

  lemma OneMarkerIsSeparate(stage: Stage, other: Path, d: Path)
    requires IsVersionDir(d) && IsVersionDir(other) && d != other
    ensures LostMarker(Marked(stage, other), d) <==> LostMarker(stage, d)
  {
    var marked := Marked(stage, other);
    assert MarkerOf(d)[..4] == d && MarkerOf(other)[..4] == other;
    assert !(d < MarkerOf(other));
    if p :| p in stage.files && d < p {
      assert p in marked.files;
    }
  }

  /** The markers to recreate, and the stage with them: each names its own directory. */
  function LostMarkers(stage: Stage): set<Path> { set d | d in stage.dirs && LostMarker(stage, d) :: MarkerOf(d) }

  function Healed(stage: Stage): Stage {
    stage.(files := stage.files + map p | p in LostMarkers(stage) && |p| >= 2 :: Blob(p[|p| - 2]))
  }

  /** Healing adds exactly the markers that were lost and touches nothing else. */
  lemma {:induction false} HealedIs(stage: Stage, dirs: seq<Path>, p: Path)
    requires forall i :: 0 <= i < |dirs| ==> IsVersionDir(dirs[i])
    ensures var healed := HealFirst(stage, dirs);
            var added := p != [] && p == MarkerOf(p[..|p| - 1]) && p[..|p| - 1] in dirs && LostMarker(stage, p[..|p| - 1]);
            && healed.dirs == stage.dirs
            && (p in healed.files <==> p in stage.files || added)
            && (p in stage.files ==> healed.files[p] == stage.files[p])
            && (added ==> healed.files[p] == Blob(p[|p| - 2]))
  {
    if dirs != [] {
      var n := |dirs| - 1;
      HealedIs(stage, dirs[..n], p);
      assert dirs == dirs[..n] + [dirs[n]];
      assert MarkerOf(dirs[n])[..4] == dirs[n];
    }
  }

  lemma LostMarkersAre(stage: Stage, p: Path)
    ensures p in LostMarkers(stage) <==>
            p != [] && p == MarkerOf(p[..|p| - 1]) && p[..|p| - 1] in stage.dirs && LostMarker(stage, p[..|p| - 1])
  {
    if p in LostMarkers(stage) {
      var d :| d in stage.dirs && LostMarker(stage, d) && p == MarkerOf(d);
      assert p[..|p| - 1] == d;
    }
  }

  lemma HealedIsAll(stage: Stage, dirs: seq<Path>)
    requires forall i :: 0 <= i < |dirs| ==> IsVersionDir(dirs[i])
    requires forall d :: d in stage.dirs && IsVersionDir(d) ==> d in dirs
    ensures HealFirst(stage, dirs) == Healed(stage)
  {
    var first, all := HealFirst(stage, dirs), Healed(stage);
    forall p ensures (p in first.files <==> p in all.files) && (p in first.files ==> first.files[p] == all.files[p]) {
      HealedIs(stage, dirs, p);
      LostMarkersAre(stage, p);
    }
    HealedIs(stage, dirs, []);
    assert first.files == all.files;
  }

  /** The version directories of a stage, each once. */
  predicate ListsVersionDirs(listing: seq<Path>, stage: Stage) {
    && (forall i, j :: 0 <= i < j < |listing| ==> listing[i] != listing[j])
    && (forall i :: 0 <= i < |listing| ==> listing[i] in stage.dirs && IsVersionDir(listing[i]))
    && (forall d :: d in stage.dirs && IsVersionDir(d) ==> d in listing)
  }

  /** Healing fails on a plain file in the place of the functions tree, on reading it, and on writing a marker. */
  predicate HealFails(stage: Stage, readFails: bool, writeFails: bool) {
    ROOT in stage.files || readFails || (writeFails && LostMarkers(stage) != {})
  }

  method HealReadyMarkers(stage: Stage, listing: seq<Path>, readFails: bool, writeFails: bool)
    returns (healed: Result<Stage>)
    requires ListsVersionDirs(listing, stage)
    ensures healed.Err? <==> HealFails(stage, readFails, writeFails)
    ensures healed.Ok? ==> healed.value == Healed(stage)
  {
    if ROOT in stage.files || readFails {
      return Err("read functions");
    }
    var s := stage;
    var i := 0;
    while i < |listing|
      invariant 0 <= i <= |listing| && s == HealFirst(stage, listing[..i])
      invariant writeFails ==> forall k :: 0 <= k < i ==> !LostMarker(stage, listing[k])
    {
      assert listing[..i + 1][..i] == listing[..i];
      assert listing[i] !in listing[..i];
      MarkersAreSeparate(stage, listing[..i], listing[i]);
      if LostMarker(s, listing[i]) {
        if writeFails {
          assert MarkerOf(listing[i]) in LostMarkers(stage);
          return Err("heal readiness markers");
        }
        s := Marked(s, listing[i]);
      }
      i := i + 1;
    }
    assert listing[..i] == listing;
    HealedIsAll(stage, listing);
    if writeFails {
      NothingLost(stage, listing);
    }
    return Ok(s);
  }

  lemma NothingLost(stage: Stage, listing: seq<Path>)
    requires ListsVersionDirs(listing, stage)
    requires forall k :: 0 <= k < |listing| ==> !LostMarker(stage, listing[k])
    ensures LostMarkers(stage) == {}
  {
    forall d | d in stage.dirs && IsVersionDir(d) ensures !LostMarker(stage, d) {
      assert d in listing;
    }
  }

  // ---------------------------------------------------------------- everything before the first live change

  function Prepared(items: seq<Item>): Result<Stage> {
    var stage := Extract(items);
    if stage.Err? then stage
    else if Verified(stage.value).Err? then Err("manifest")
    else if ROOT in stage.value.files then Err("read functions")
    else
      var healed := Healed(stage.value);
      if DB_PATH !in healed.files then Err("archive missing orva.db")
      else if !healed.files[DB_PATH].Database? then Err("validate staged db")
      else Ok(healed)
  }

  datatype StageFaults = StageFaults(stageDir: bool, healRead: bool, healWrite: bool)

  /** Why a restore ends before it changes anything. */
  predicate PrepareFails(items: seq<Item>, faults: StageFaults) {
    faults.stageDir || Prepared(items).Err? || HealFails(Extract(items).value, faults.healRead, faults.healWrite)
  }

  method Enumerate<T(==)>(s: set<T>) returns (xs: seq<T>)
    ensures Enumerates(xs, s) && |xs| == |s|
    ensures forall i, j :: 0 <= i < j < |xs| ==> xs[i] != xs[j]
  {
    xs := [];
    var left := s;
    while left != {}
      invariant left <= s && |xs| + |left| == |s|
      invariant forall x :: x in s ==> x in xs || x in left
      invariant forall x :: x in xs ==> x in s && x !in left
      invariant forall i, j :: 0 <= i < j < |xs| ==> xs[i] != xs[j]
      decreases |left|
    {
      var x :| x in left;
      xs, left := xs + [x], left - {x};
    }
  }

  predicate Enumerates<T(==)>(xs: seq<T>, s: set<T>) {
    (forall x :: x in xs ==> x in s) && (forall x :: x in s ==> x in xs)
  }

  method Prepare(items: seq<Item>, faults: StageFaults) returns (prepared: Result<Stage>)
    ensures prepared.Err? <==> PrepareFails(items, faults)
    ensures prepared.Ok? ==> prepared == Prepared(items)
  {
    if faults.stageDir {
      return Err("stage dir");
    }
    var stage := ExtractTarGz(items);
    if stage.Err? {
      return stage;
    }
    var manifest := ReadAndVerifyManifest(stage.value);
    if manifest.Err? {
      return Err("manifest");
    }
    var versionDirs := Enumerate(set d | d in stage.value.dirs && IsVersionDir(d));
    forall i | 0 <= i < |versionDirs| ensures versionDirs[i] in stage.value.dirs && IsVersionDir(versionDirs[i]) {
      assert versionDirs[i] in versionDirs;
    }
    var healed := HealReadyMarkers(stage.value, versionDirs, faults.healRead, faults.healWrite);
    if healed.Err? {
      return healed;
    }
    if DB_PATH !in healed.value.files {
      return Err("archive missing orva.db");
    }
    if !healed.value.files[DB_PATH].Database? {
      return Err("validate staged db");
    }
    return healed;
  }
}
