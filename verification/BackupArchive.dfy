/** What goes into a backup: the plan made by walking the data directory, and its manifest. */
module BackupArchive {
  import opened Wrappers

  /** Path components from the root of the data directory, or of the archive. */
  type Path = seq<string>

  /** File contents: the database with its functions' code hashes, a manifest, or any other bytes. */
  datatype Content =
    | Blob(bytes: string)
    | Database(functions: map<string, string>, other: string)
    | ManifestText(manifest: Manifest)

  /** The digest is collision free: it stands for the content it was computed from. */
  datatype FileDigest = Sha256(of: Content)

  datatype Manifest = Manifest(formatVersion: nat, functionCount: nat, containsKeys: bool, files: map<Path, FileDigest>)

  datatype Item = FileItem(path: Path, content: Content) | DirItem(path: Path) | OtherItem(path: Path)

  datatype Node = File(content: Content) | Link(target: string) | Special | Dir(entries: seq<Entry>)

  datatype Entry = Entry(name: string, node: Node)

  /** What a backup reads: a snapshot of the database, the keys, and the functions tree. */
  datatype Source = Source(snapshot: Content, masterKey: Option<Content>, adminKey: Option<Content>,
                           functions: Option<Node>)

  const FORMAT_VERSION: nat := 1

  const DB_PATH: Path := ["orva.db"]
  const MANIFEST_PATH: Path := ["manifest.json"]
  const MASTER_PATH: Path := ["keys", "master.key"]
  const ADMIN_PATH: Path := ["keys", "admin.key"]
  const ROOT: Path := ["functions"]

  // ---------------------------------------------------------------- the tree

  function Child(es: seq<Entry>, name: string): Option<Node> {
    if es == [] then None
    else if es[|es| - 1].name == name then Some(es[|es| - 1].node)
    else Child(es[..|es| - 1], name)
  }

  /** The node at a path below `n`, following no links. */
  function At(n: Node, p: Path): Option<Node>
    decreases |p|
  {
    if p == [] then Some(n)
    else if !n.Dir? then None
    else
      match Child(n.entries, p[0])
      case None => None
      case Some(c) => At(c, p[1..])
  }

  /** No directory lists a name twice. */
  predicate WellFormed(n: Node)
    decreases n
  {
    n.Dir? ==>
      && (forall i, j :: 0 <= i < j < |n.entries| ==> n.entries[i].name != n.entries[j].name)
      && (forall i :: 0 <= i < |n.entries| ==> WellFormed(n.entries[i].node))
  }

  lemma {:induction false} ChildIs(es: seq<Entry>, i: nat)
    requires i < |es| && forall j, k :: 0 <= j < k < |es| ==> es[j].name != es[k].name
    ensures Child(es, es[i].name) == Some(es[i].node)
  {
    if i < |es| - 1 {
      ChildIs(es[..|es| - 1], i);
    }
  }

  lemma {:induction false} ChildListed(es: seq<Entry>, name: string) returns (i: nat)
    requires Child(es, name).Some?
    ensures i < |es| && es[i].name == name && Child(es, name) == Some(es[i].node)
  {
    if es[|es| - 1].name == name {
      i := |es| - 1;
    } else {
      i := ChildListed(es[..|es| - 1], name);
    }
  }

  // ---------------------------------------------------------------- what is skipped

  predicate Dotted(name: string) { name != "" && name[0] == '.' }

  /** Below a published version directory every file belongs to the deployed code, dotfiles too. */
  predicate InsideVersionDir(p: Path) { |p| > 4 && p[0] == "functions" && p[2] == "versions" }

  /** The walk does not enter, and does not archive, what this holds of. */
  predicate Skipped(p: Path, live: set<string>) {
    || (|p| > 1 && Dotted(p[|p| - 1]) && !InsideVersionDir(p))
    || (|p| >= 2 && p[1] != "" && p[1] !in live)
  }

  /** Nothing from the depth `from` down to the path itself is skipped. */
  predicate Reached(p: Path, from: nat, live: set<string>) {
    forall k :: from <= k <= |p| ==> !Skipped(p[..k], live)
  }

  // ---------------------------------------------------------------- the walk

  function WalkItems(path: Path, n: Node, live: set<string>): seq<Item>
    decreases n, 1 + if n.Dir? then |n.entries| else 0
  {
    if n.Link? || Skipped(path, live) then []
    else
      match n
      case File(content) => [FileItem(path, content)]
      case Dir(entries) => [DirItem(path)] + WalkEntries(path, n, |entries|, live)
      case _ => []
  }

  /** The items of a directory's first `k` entries. */
  function WalkEntries(path: Path, dir: Node, k: nat, live: set<string>): seq<Item>
    requires dir.Dir? && k <= |dir.entries|
    decreases dir, k
  {
    if k == 0 then []
    else
      var e := dir.entries[k - 1];
      WalkEntries(path, dir, k - 1, live) + WalkItems(path + [e.name], e.node, live)
  }

  /** The manifest's digests: one for each archived file. */
  function DigestsOf(items: seq<Item>): map<Path, FileDigest> {
    if items == [] then map[]
    else
      var before, it := DigestsOf(items[..|items| - 1]), items[|items| - 1];
      if it.FileItem? then before[it.path := Sha256(it.content)] else before
  }

  function Optional(path: Path, content: Option<Content>): seq<Item> {
    if content.Some? then [FileItem(path, content.value)] else []
  }

  /** The files in archive order: database, keys, functions tree. */
  function PlannedItems(src: Source): seq<Item>
    requires src.snapshot.Database?
  {
    [FileItem(DB_PATH, src.snapshot)] + Optional(MASTER_PATH, src.masterKey) + Optional(ADMIN_PATH, src.adminKey)
    + if src.functions.Some? then WalkItems(ROOT, src.functions.value, src.snapshot.functions.Keys) else []
  }

  function ManifestOf(src: Source): Manifest
    requires src.snapshot.Database?
  {
    Manifest(FORMAT_VERSION, |src.snapshot.functions.Keys|, src.masterKey.Some?, DigestsOf(PlannedItems(src)))
  }

  /** The archive: the manifest first, then every planned item. */
  function ArchiveOf(src: Source): seq<Item>
    requires src.snapshot.Database?
  {
    [FileItem(MANIFEST_PATH, ManifestText(ManifestOf(src)))] + PlannedItems(src)
  }

  class ArchivePlan {
    var items: seq<Item>
    var files: map<Path, FileDigest>

    constructor ()
      ensures items == [] && files == map[]
    {
      items, files := [], map[];
    }

    ghost predicate Valid()
      reads this
    {
      files == DigestsOf(items)
    }

    /** Adds a regular file to the list and to the manifest. */
    method PlanFile(path: Path, content: Content)
      requires Valid()
      modifies this
      ensures Valid() && items == old(items) + [FileItem(path, content)]
    {
      assert (items + [FileItem(path, content)])[..|items|] == items;
      items := items + [FileItem(path, content)];
      files := files[path := Sha256(content)];
    }

    method PlanDir(path: Path)
      requires Valid()
      modifies this
      ensures Valid() && items == old(items) + [DirItem(path)]
    {
      assert (items + [DirItem(path)])[..|items|] == items;
      items := items + [DirItem(path)];
    }

    /** Adds a key file if it exists. */
    method PlanOptional(path: Path, content: Option<Content>)
      requires Valid()
      modifies this
      ensures Valid() && items == old(items) + Optional(path, content)
    {
      if content.Some? {
        PlanFile(path, content.value);
      }
    }

    /** Walks a subtree, entering neither links nor what is skipped. */
    method Walk(path: Path, n: Node, live: set<string>)
      requires Valid()
      modifies this
      ensures Valid() && items == old(items) + WalkItems(path, n, live)
      decreases n, 1
    {
      if n.Link? {
        return;
      }
      if Skipped(path, live) {
        return;
      }
      match n
      case File(content) => PlanFile(path, content);
      case Dir(entries) =>
        PlanDir(path);
        WalkAll(path, n, live);
      case _ =>
    }

    method WalkAll(path: Path, dir: Node, live: set<string>)
      requires Valid() && dir.Dir?
      modifies this
      ensures Valid() && items == old(items) + WalkEntries(path, dir, |dir.entries|, live)
      decreases dir, 0
    {
      var i := 0;
      while i < |dir.entries|
        invariant 0 <= i <= |dir.entries| && Valid()
        invariant items == old(items) + WalkEntries(path, dir, i, live)
      {
        Walk(path + [dir.entries[i].name], dir.entries[i].node, live);
        i := i + 1;
      }
    }

    /** Plans the whole archive; a snapshot that cannot be read as a database is an error. */
    method PlanArchive(src: Source) returns (manifest: Result<Manifest>)
      requires items == [] && files == map[]
      modifies this
      ensures manifest.Ok? <==> src.snapshot.Database?
      ensures manifest.Ok? ==> items == PlannedItems(src) && manifest.value == ManifestOf(src)
    {
      PlanFile(DB_PATH, src.snapshot);
      PlanOptional(MASTER_PATH, src.masterKey);
      var containsKeys := src.masterKey.Some?;
      PlanOptional(ADMIN_PATH, src.adminKey);
      if !src.snapshot.Database? {
        return Err("load live fn ids");
      }
      var live := src.snapshot.functions.Keys;
      if src.functions.Some? {
        Walk(ROOT, src.functions.value, live);
      }
      return Ok(Manifest(FORMAT_VERSION, |live|, containsKeys, files));
    }
  }

  // ---------------------------------------------------------------- what the walk amounts to

  /** What a walk from `path` finds at `p`: the node there, if no link and nothing skipped is on the way. */
  function Found(path: Path, n: Node, live: set<string>, p: Path): Option<Node> {
    if path <= p && Reached(p, |path|, live) then At(n, p[|path|..]) else None
  }

  /** An item describes a node: a file with its content, or a directory. */
  predicate Describes(it: Item, found: Option<Node>) {
    match it
    case FileItem(_, content) => found == Some(File(content))
    case DirItem(_) => found.Some? && found.value.Dir?
    case OtherItem(_) => false
  }

  lemma FoundHere(path: Path, n: Node, live: set<string>, p: Path)
    ensures Skipped(path, live) ==> Found(path, n, live, p) == None
    ensures !Skipped(path, live) && p == path ==> Found(path, n, live, p) == Some(n)
    ensures !n.Dir? && p != path ==> Found(path, n, live, p) == None
  {
    if path <= p {
      assert p[..|path|] == path;
      if p[|path|..] == [] {
        assert p == path;
      }
    }
    if p == path {
      assert p[|path|..] == [];
    }
  }

  lemma FoundBelow(path: Path, n: Node, live: set<string>, p: Path, i: nat)
    requires n.Dir? && WellFormed(n) && !Skipped(path, live) && i < |n.entries|
    ensures Found(path + [n.entries[i].name], n.entries[i].node, live, p).Some? ==>
              Found(path, n, live, p) == Found(path + [n.entries[i].name], n.entries[i].node, live, p)
  {
    var q := path + [n.entries[i].name];
    if Found(q, n.entries[i].node, live, p).Some? {
      assert p[..|path|] == q[..|path|] == path && p[|path|] == n.entries[i].name;
      ChildIs(n.entries, i);
      assert p[|path|..][0] == p[|path|] && p[|path|..][1..] == p[|q|..];
    }
  }

  lemma FoundInEntry(path: Path, n: Node, live: set<string>, p: Path) returns (i: nat)
    requires n.Dir? && p != path && Found(path, n, live, p).Some?
    ensures i < |n.entries|
    ensures Found(path + [n.entries[i].name], n.entries[i].node, live, p) == Found(path, n, live, p)
  {
    var rest := p[|path|..];
    i := ChildListed(n.entries, rest[0]);
    var q := path + [n.entries[i].name];
    assert p[..|q|] == q && rest[1..] == p[|q|..];
  }

  /** SkipDir as an ancestor condition: an item is planned exactly if the walk finds its node. */
  lemma {:induction false} WalkIs(path: Path, n: Node, live: set<string>, it: Item)
    requires WellFormed(n)
    ensures it in WalkItems(path, n, live) <==> Describes(it, Found(path, n, live, it.path))
    decreases n
  {
    FoundHere(path, n, live, it.path);
    if n.Dir? && !Skipped(path, live) {
      WalkEntriesIs(path, n, |n.entries|, live, it);
      forall i | 0 <= i < |n.entries|
        ensures it in WalkItems(path + [n.entries[i].name], n.entries[i].node, live)
                <==> Describes(it, Found(path + [n.entries[i].name], n.entries[i].node, live, it.path))
      {
        WalkIs(path + [n.entries[i].name], n.entries[i].node, live, it);
        FoundBelow(path, n, live, it.path, i);
      }
      DescribedOnce(path, n, live, it);
    }
  }

  lemma DescribedOnce(path: Path, n: Node, live: set<string>, it: Item)
    requires n.Dir? && WellFormed(n) && !Skipped(path, live)
    ensures Describes(it, Found(path, n, live, it.path)) <==>
            it == DirItem(path)
            || exists i :: 0 <= i < |n.entries|
                 && Describes(it, Found(path + [n.entries[i].name], n.entries[i].node, live, it.path))
  {
    FoundHere(path, n, live, it.path);
    forall i | 0 <= i < |n.entries|
      && Describes(it, Found(path + [n.entries[i].name], n.entries[i].node, live, it.path))
      ensures Describes(it, Found(path, n, live, it.path))
    {
      FoundBelow(path, n, live, it.path, i);
    }
    if Describes(it, Found(path, n, live, it.path)) && it.path != path {
      var i := FoundInEntry(path, n, live, it.path);
    }
  }

  lemma {:induction false} WalkEntriesIs(path: Path, dir: Node, k: nat, live: set<string>, it: Item)
    requires dir.Dir? && k <= |dir.entries|
    ensures it in WalkEntries(path, dir, k, live) <==>
            exists i :: 0 <= i < k && it in WalkItems(path + [dir.entries[i].name], dir.entries[i].node, live)
    decreases k
  {
    if k > 0 {
      WalkEntriesIs(path, dir, k - 1, live, it);
    }
  }
}
