/** The release manifest generator: which files of a bundle are listed, in which order, with which size and digest. */
module ReleaseManifest {
  import opened Prelude
  import opened ReleasePaths

  type Content = seq<nat>

  /** The regular files and the symbolic links below a directory; a link is true if it leads to a file. */
  datatype Tree = Tree(files: map<Path, Content>, links: map<Path, bool>)

  predicate IsFileAt(tree: Tree, path: Path) {
    path in tree.files || (path in tree.links && tree.links[path])
  }

  /** Names are those of a file system, and nothing lies below a file or, as a walk sees it, below a link. */
  ghost predicate ValidTree(tree: Tree) {
    && tree.files.Keys !! tree.links.Keys
    && (forall path | path in tree.files.Keys + tree.links.Keys :: GoodPath(path))
    && (forall path | path in tree.files.Keys + tree.links.Keys ::
          forall k | 1 <= k < |path| :: path[..k] !in tree.files && path[..k] !in tree.links)
  }

  /** What `rglob` yields, in any order: every file and every link once, and possibly directories. */
  ghost predicate IsWalk(tree: Tree, walk: seq<Path>) {
    && (forall i, j | 0 <= i < j < |walk| :: walk[i] != walk[j])
    && (forall path | path in tree.files.Keys + tree.links.Keys :: path in walk)
  }

  /** Names that neither side lists, and the names of the files the installer adds. */
  datatype Exempt = Exempt(selfAuthenticating: string -> bool, generated: set<string>)

  const RELEASE: Exempt := Exempt(name => name == "release-manifest.json" || name == "release-manifest.sig",
                                  {"unins000.dat", "unins000.exe"})

  datatype Entry = Entry(filePath: string, fileSize: int, sha256: string)

  datatype GenerateError = SymlinkInBundle | UnsafeEntry | EmptyOrUnsorted | Repeated

  predicate IsSha256(text: string) {
    |text| == 64 && forall i | 0 <= i < |text| :: '0' <= text[i] <= '9' || 'a' <= text[i] <= 'f'
  }

  ghost predicate IsDigest(digest: Content -> string) {
    forall content :: IsSha256(digest(content))
  }

  /** `ReleaseManifestFileV1.__post_init__`. */
  predicate EntryAllowed(entry: Entry) {
    && entry.filePath != [] && !IsAbsolute(entry.filePath) && AsPosix(entry.filePath) == entry.filePath
    && ['.', '.'] !in Parts(entry.filePath)
    && entry.fileSize >= 0
    && IsSha256(entry.sha256)
  }

  ghost function Listed(tree: Tree, exempt: Exempt): set<Path> {
    set path | path in tree.files && !exempt.selfAuthenticating(Join(path))
  }

  function EntryOf(tree: Tree, path: Path, digest: Content -> string): Entry
    requires path in tree.files
  {
    Entry(Join(path), |tree.files[path]|, digest(tree.files[path]))
  }

  function PathsOf(entries: seq<Entry>): (paths: seq<string>)
    ensures |paths| == |entries|
    ensures forall i | 0 <= i < |entries| :: paths[i] == entries[i].filePath
  {
    if entries == [] then [] else [entries[0].filePath] + PathsOf(entries[1..])
  }

  ghost predicate StrictlyAscending(paths: seq<string>) {
    forall i, j | 0 <= i < j < |paths| :: Before(paths[i], paths[j])
  }

  /** The manifest of a bundle: every listed file once, in the order of their paths, truly described. */
  ghost predicate IsManifest(tree: Tree, entries: seq<Entry>, digest: Content -> string, exempt: Exempt) {
    && StrictlyAscending(PathsOf(entries))
    && (forall i | 0 <= i < |entries| :: DescribesListed(tree, entries[i], digest, exempt))
    && (forall path | path in Listed(tree, exempt) :: Join(path) in PathsOf(entries))
  }

  ghost predicate DescribesListed(tree: Tree, entry: Entry, digest: Content -> string, exempt: Exempt) {
    var path := Parts(entry.filePath);
    path in Listed(tree, exempt) && entry == EntryOf(tree, path, digest)
  }

  /** `_iter_release_files`. */
  method IterReleaseFiles(tree: Tree, walk: seq<Path>, exempt: Exempt) returns (r: Result<seq<Path>, GenerateError>)
    requires ValidTree(tree) && IsWalk(tree, walk)
    ensures r.Err? <==> tree.links != map[]
    ensures r.Err? ==> r.error == SymlinkInBundle
    ensures r.Ok? ==>
              && Ascending(r.value, Join)
              && (forall path :: multiset(r.value)[path] == if path in Listed(tree, exempt) then 1 else 0)
  {
    var files: seq<Path> := [];
    for i := 0 to |walk|
      invariant forall k | 0 <= k < i :: walk[k] !in tree.links
      invariant forall path ::
                  multiset(files)[path] == if path in walk[..i] && path in Listed(tree, exempt) then 1 else 0
    {
      var path := walk[i];
      assert walk[..i + 1] == walk[..i] + [path];
      assert path !in walk[..i];
      if path in tree.links {
        return Err(SymlinkInBundle);
      }
      if path in tree.files && !exempt.selfAuthenticating(Join(path)) {
        files := files + [path];
      }
    }
    assert walk[..|walk|] == walk;
    assert forall link | link in tree.links :: link in walk;
    SortAscends(files, Join);
    return Ok(Sort(files, Join));
  }

  const CHUNK: nat := 1024 * 1024

  /** `_manifest_entry`: the file is hashed chunk by chunk, which hashes its whole content. */
  method ManifestEntry(tree: Tree, path: Path, digest: Content -> string) returns (entry: Entry)
    requires path in tree.files
    ensures entry == EntryOf(tree, path, digest)
  {
    var content := tree.files[path];
    var hashed: Content := [];
    var position := 0;
    while position < |content|
      invariant position <= |content| && hashed == content[..position]
    {
      var end := if position + CHUNK <= |content| then position + CHUNK else |content|;
      var chunk := content[position..end];
      hashed := hashed + chunk;
      position := end;
    }
    assert hashed == content;
    entry := Entry(Join(path), |content|, digest(hashed));
  }

  /** The manifest's own checks on its list of files. */
  function Checked(entries: seq<Entry>): Result<seq<Entry>, GenerateError> {
    var paths := PathsOf(entries);
    if paths == [] || paths != Sort(paths, Itself) then Err(EmptyOrUnsorted)
    else if exists i, j :: 0 <= i < j < |paths| && paths[i] == paths[j] then Err(Repeated)
    else Ok(entries)
  }

  predicate IsEntryOf(tree: Tree, path: Path, digest: Content -> string, entry: Entry) {
    path in tree.files && entry == EntryOf(tree, path, digest)
  }

  /** The entries of the walked files, each with its own checks. */
  method ManifestEntries(tree: Tree, files: seq<Path>, digest: Content -> string, allowed: Entry -> bool)
      returns (r: Result<seq<Entry>, GenerateError>)
    requires forall k | 0 <= k < |files| :: files[k] in tree.files
    ensures r.Err? <==> exists k | 0 <= k < |files| :: !allowed(EntryOf(tree, files[k], digest))
    ensures r.Err? ==> r == Err(UnsafeEntry)
    ensures r.Ok? ==> |r.value| == |files|
    ensures r.Ok? ==> forall k | 0 <= k < |files| :: IsEntryOf(tree, files[k], digest, r.value[k])
  {
    var entries: seq<Entry> := [];
    for i := 0 to |files|
      invariant |entries| == i
      invariant forall k | 0 <= k < i :: IsEntryOf(tree, files[k], digest, entries[k])
      invariant forall k | 0 <= k < i :: allowed(EntryOf(tree, files[k], digest))
    {
      var entry := ManifestEntry(tree, files[i], digest);
      if !allowed(entry) {
        return Err(UnsafeEntry);
      }
      entries := entries + [entry];
    }
    return Ok(entries);
  }

  /** The part of `generate_release_manifest` that turns a bundle into its list of files. */
  method GenerateReleaseManifest(tree: Tree, walk: seq<Path>, digest: Content -> string, exempt: Exempt)
    returns (r: Result<seq<Entry>, GenerateError>)
    requires ValidTree(tree) && IsWalk(tree, walk) && IsDigest(digest)
    ensures tree.links != map[] ==> r == Err(SymlinkInBundle)
    ensures tree.links == map[] && Listed(tree, exempt) == {} ==> r == Err(EmptyOrUnsorted)
    ensures tree.links == map[] && Listed(tree, exempt) != {} ==> r.Ok? && IsManifest(tree, r.value, digest, exempt)
  {
    var walked := IterReleaseFiles(tree, walk, exempt);
    if walked.Err? {
      return Err(walked.error);
    }
    var files := walked.value;
    forall k | 0 <= k < |files|
      ensures files[k] in Listed(tree, exempt) && EntryAllowed(EntryOf(tree, files[k], digest))
    {
      assert files[k] in multiset(files);
      GoodEntry(tree, files[k], digest);
    }
    var entries := ManifestEntries(tree, files, digest, EntryAllowed);
    EntriesAreManifest(tree, files, entries.value, digest, exempt);
    return Checked(entries.value);
  }

  lemma GoodEntry(tree: Tree, path: Path, digest: Content -> string)
    requires ValidTree(tree) && path in tree.files && IsDigest(digest)
    ensures EntryAllowed(EntryOf(tree, path, digest))
  {
    assert GoodPath(path);
    PartsOfJoin(path);
    assert forall i | 0 <= i < |path| :: GoodName(path[i]);
  }

  /** Paths that occur once each and do not descend, ascend strictly as texts. */
  lemma TextsAscendStrictly(tree: Tree, files: seq<Path>)
    requires ValidTree(tree) && Ascending(files, Join)
    requires forall i | 0 <= i < |files| :: files[i] in tree.files
    requires forall path :: multiset(files)[path] <= 1
    ensures forall i, j | 0 <= i < j < |files| :: Before(Join(files[i]), Join(files[j]))
  {
    forall i, j | 0 <= i < j < |files|
      ensures Before(Join(files[i]), Join(files[j]))
    {
      OccursOnce(files, i, j);
      PartsOfJoin(files[i]);
      PartsOfJoin(files[j]);
      BeforeIsLinear(Join(files[i]), Join(files[j]));
    }
  }

  lemma OccursOnce<T>(items: seq<T>, i: nat, j: nat)
    requires i < j < |items| && multiset(items)[items[i]] <= 1
    ensures items[i] != items[j]
  {
    assert items == items[..j] + [items[j]] + items[j + 1..];
    assert items[i] == items[..j][i];
    assert items[i] in multiset(items[..j]);
  }

  lemma EntriesAreManifest(tree: Tree, files: seq<Path>, entries: seq<Entry>, digest: Content -> string, exempt: Exempt)
    requires ValidTree(tree) && Ascending(files, Join) && |entries| == |files|
    requires forall path :: multiset(files)[path] == if path in Listed(tree, exempt) then 1 else 0
    requires forall k | 0 <= k < |files| ::
               files[k] in Listed(tree, exempt) && IsEntryOf(tree, files[k], digest, entries[k])
    ensures IsManifest(tree, entries, digest, exempt)
    ensures Listed(tree, exempt) != {} ==> Checked(entries) == Ok(entries)
    ensures Listed(tree, exempt) == {} ==> Checked(entries) == Err(EmptyOrUnsorted)
  {
    TextsAscendStrictly(tree, files);
    var paths := PathsOf(entries);
    forall i | 0 <= i < |entries|
      ensures DescribesListed(tree, entries[i], digest, exempt)
    {
      PartsOfJoin(files[i]);
    }
    forall path | path in Listed(tree, exempt)
      ensures Join(path) in paths
    {
      assert path in multiset(files);
      var i :| 0 <= i < |files| && files[i] == path;
      assert paths[i] == Join(path);
    }
    StrictIsSorted(paths);
  }

  lemma StrictIsSorted(paths: seq<string>)
    requires StrictlyAscending(paths)
    ensures paths == Sort(paths, Itself)
    ensures forall i, j | 0 <= i < j < |paths| :: paths[i] != paths[j]
  {
    forall i, j | 0 <= i < j < |paths|
      ensures !Before(paths[j], paths[i]) && paths[i] != paths[j]
    {
      BeforeIsLinear(paths[i], paths[j]);
    }
    SortedExactlyIfAscending(paths, Itself);
  }

  // The manifest does not depend on the walk

  lemma {:induction false} SameTexts(a: seq<string>, b: seq<string>)
    requires StrictlyAscending(a) && StrictlyAscending(b)
    requires forall text :: text in a <==> text in b
    ensures a == b
    decreases |a|
  {
    NoTexts(a);
    NoTexts(b);
    if a != [] {
      assert a[0] in b && b != [] && b[0] in a;
      SameFirst(a, b);
      forall text
        ensures text in a[1..] <==> text in b[1..]
      {
        RestHasOthers(a, text);
        RestHasOthers(b, text);
      }
      SameTexts(a[1..], b[1..]);
      assert a == [a[0]] + a[1..] && b == [b[0]] + b[1..];
    }
  }

  lemma NoTexts(a: seq<string>)
    ensures a == [] <==> forall text :: text !in a
  {
    if a != [] {
      assert a[0] in a;
    }
  }

  lemma SameFirst(a: seq<string>, b: seq<string>)
    requires StrictlyAscending(a) && StrictlyAscending(b) && a != [] && b != []
    requires a[0] in b && b[0] in a
    ensures a[0] == b[0]
  {
    BeforeIsLinear(a[0], b[0]);
    var i :| 0 <= i < |b| && b[i] == a[0];
    var j :| 0 <= j < |a| && a[j] == b[0];
  }

  lemma RestHasOthers(a: seq<string>, text: string)
    requires StrictlyAscending(a) && a != []
    ensures text in a[1..] <==> text in a && text != a[0]
  {
    if text in a[1..] {
      var i :| 0 <= i < |a[1..]| && a[1..][i] == text;
      assert a[i + 1] == text;
      BeforeIsLinear(a[0], text);
    }
    if text in a && text != a[0] {
      var i :| 0 <= i < |a| && a[i] == text;
      assert a[1..][i - 1] == text;
    }
  }

  /** A bundle has one manifest, in whatever order the file system yields its files. */
  lemma ManifestIsUnique(tree: Tree, first: seq<Entry>, second: seq<Entry>, digest: Content -> string, exempt: Exempt)
    requires ValidTree(tree)
    requires IsManifest(tree, first, digest, exempt) && IsManifest(tree, second, digest, exempt)
    ensures first == second
  {
    var a, b := PathsOf(first), PathsOf(second);
    forall text
      ensures text in a <==> text in b
    {
      ListedText(tree, first, digest, exempt, text);
      ListedText(tree, second, digest, exempt, text);
    }
    SameTexts(a, b);
    forall i | 0 <= i < |first|
      ensures first[i] == second[i]
    {
      assert a[i] == b[i];
      assert DescribesListed(tree, first[i], digest, exempt) && DescribesListed(tree, second[i], digest, exempt);
    }
  }

  lemma ListedText(tree: Tree, entries: seq<Entry>, digest: Content -> string, exempt: Exempt, text: string)
    requires ValidTree(tree) && IsManifest(tree, entries, digest, exempt)
    ensures text in PathsOf(entries) <==> exists path :: path in Listed(tree, exempt) && Join(path) == text
  {
    if text in PathsOf(entries) {
      var i :| 0 <= i < |entries| && PathsOf(entries)[i] == text;
      assert DescribesListed(tree, entries[i], digest, exempt);
      assert Join(Parts(text)) == text;
    }
  }
}
