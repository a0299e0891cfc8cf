/** The installation verifier's checks on files, and what they accept of a manifest made by the generator. */
module InstallationVerifier {
  import opened Prelude
  import opened ReleasePaths
  import opened ReleaseManifest

  datatype Code = ManifestInvalid | FileMissing | FileTampered | ArtifactSetMismatch

  /** An item of the manifest's list: the three expected fields with their types, or anything else. */
  datatype RawEntry = Fields(entry: Entry) | Malformed

  const MAX_FILES: nat := 10_000
  const MAX_PATH: nat := 512

  function LowerChar(c: char): char {
    if 'A' <= c <= 'Z' then (c as int + 32) as char else c
  }

  /**
   * `str.lower`, for comparison with names of ASCII letters other than k: no character outside ASCII becomes one of
   * those in lower case.
   */
  function Lower(text: string): string {
    if text == [] then [] else [LowerChar(text[0])] + Lower(text[1..])
  }

  /** `_resolve_manifest_child`. */
  function Resolved(tree: Tree, relative: string): Result<Path, Code> {
    var parts := Parts(relative);
    if relative == [] || '\\' in relative || IsAbsolute(relative)
       || ['.', '.'] in parts || AsPosix(relative) != relative
    then Err(ManifestInvalid)
    else if exists k :: 1 <= k <= |parts| && parts[..k] in tree.links then Err(FileTampered)
    else Ok(parts)
  }

  method ResolveManifestChild(tree: Tree, relative: string) returns (r: Result<Path, Code>)
    ensures r == Resolved(tree, relative)
  {
    var parts := Parts(relative);
    if relative == [] || '\\' in relative || IsAbsolute(relative)
       || ['.', '.'] in parts || AsPosix(relative) != relative {
      return Err(ManifestInvalid);
    }
    var current := parts;
    while current != []
      invariant |current| <= |parts| && current == parts[..|current|]
      invariant forall k | |current| < k <= |parts| :: parts[..k] !in tree.links
      decreases |current|
    {
      if current in tree.links {
        assert parts[..|current|] in tree.links;
        return Err(FileTampered);
      }
      current := current[..|current| - 1];
    }
    return Ok(parts);
  }

  /** The first reason to refuse one entry; `seen` are the paths of the entries before it. */
  function EntryError(tree: Tree, raw: RawEntry, seen: set<string>, digest: Content -> string): Option<Code> {
    if raw.Malformed? || |raw.entry.filePath| > MAX_PATH || raw.entry.fileSize < 0 || !IsSha256(raw.entry.sha256)
    then Some(ManifestInvalid)
    else match Resolved(tree, raw.entry.filePath)
      case Err(code) => Some(code)
      case Ok(path) =>
        if raw.entry.filePath in seen then Some(ManifestInvalid)
        else if path !in tree.files then Some(FileMissing)
        else if |tree.files[path]| != raw.entry.fileSize || digest(tree.files[path]) != raw.entry.sha256 then
            Some(FileTampered)
        else None
  }

  function RawPath(raw: RawEntry): string {
    if raw.Fields? then raw.entry.filePath else []
  }

  function RawPaths(raws: seq<RawEntry>): (paths: seq<string>)
    ensures |paths| == |raws|
    ensures forall i | 0 <= i < |raws| :: paths[i] == RawPath(raws[i])
  {
    if raws == [] then [] else [RawPath(raws[0])] + RawPaths(raws[1..])
  }

  ghost function Seen(raws: seq<RawEntry>, i: nat): set<string>
    requires i <= |raws|
  {
    set k | 0 <= k < i :: RawPath(raws[k])
  }

  ghost predicate EntryAccepted(tree: Tree, raws: seq<RawEntry>, i: nat, digest: Content -> string)
    requires i < |raws|
  {
    EntryError(tree, raws[i], Seen(raws, i), digest).None?
  }

  /** The first `i` entries have been accepted. */
  ghost predicate AcceptedUpTo(tree: Tree, raws: seq<RawEntry>, i: nat, digest: Content -> string)
    requires i <= |raws|
  {
    forall k | 0 <= k < i :: EntryAccepted(tree, raws, k, digest)
  }

  ghost predicate EntriesAccepted(tree: Tree, raws: seq<RawEntry>, digest: Content -> string) {
    AcceptedUpTo(tree, raws, |raws|, digest)
  }

  /** `code` is what the entries are refused with: the error of the first bad one, or else their order. */
  ghost predicate RefusedWith(tree: Tree, raws: seq<RawEntry>, digest: Content -> string, code: Code) {
    if EntriesAccepted(tree, raws, digest)
    then !Ascending(RawPaths(raws), Itself) && code == ManifestInvalid
    else exists i | 0 <= i < |raws| ::
           && EntryError(tree, raws[i], Seen(raws, i), digest) == Some(code)
           && AcceptedUpTo(tree, raws, i, digest)
  }

  lemma FirstBadEntryRefuses(tree: Tree, raws: seq<RawEntry>, digest: Content -> string, i: nat, code: Code)
    requires i < |raws| && AcceptedUpTo(tree, raws, i, digest)
    requires EntryError(tree, raws[i], Seen(raws, i), digest) == Some(code)
    ensures RefusedWith(tree, raws, digest, code)
  {
    assert !EntryAccepted(tree, raws, i, digest);
  }

  /** One round of the loop over the entries. */
  method CheckEntry(tree: Tree, raw: RawEntry, seen: set<string>, digest: Content -> string)
      returns (r: Result<Path, Code>)
    ensures r.Err? ==> EntryError(tree, raw, seen, digest) == Some(r.error)
    ensures r.Ok? ==> EntryError(tree, raw, seen, digest) == None
    ensures r.Ok? ==> r.value == Parts(RawPath(raw)) && r.value in tree.files
  {
    if raw.Malformed? {
      return Err(ManifestInvalid);
    }
    var relative, size, sha := raw.entry.filePath, raw.entry.fileSize, raw.entry.sha256;
    if |relative| > MAX_PATH || size < 0 || !IsSha256(sha) {
      return Err(ManifestInvalid);
    }
    var candidate := ResolveManifestChild(tree, relative);
    if candidate.Err? {
      return Err(candidate.error);
    }
    if relative in seen {
      return Err(ManifestInvalid);
    }
    if candidate.value !in tree.files {
      return Err(FileMissing);
    }
    var content := tree.files[candidate.value];
    if |content| != size || digest(content) != sha {
      return Err(FileTampered);
    }
    return candidate;
  }

  /** `ordered_paths == sorted(ordered_paths)`. */
  method IsSorted(paths: seq<string>) returns (r: bool)
    ensures r <==> Ascending(paths, Itself)
  {
    SortedExactlyIfAscending(paths, Itself);
    r := paths == Sort(paths, Itself);
  }

  /** `path` is where the entry's file lies. */
  predicate IsFileOf(tree: Tree, raw: RawEntry, path: Path) {
    path == Parts(RawPath(raw)) && path in tree.files
  }

  lemma AcceptedOneMore(tree: Tree, raws: seq<RawEntry>, i: nat, digest: Content -> string)
    requires i < |raws| && AcceptedUpTo(tree, raws, i, digest)
    requires EntryError(tree, raws[i], Seen(raws, i), digest).None?
    ensures AcceptedUpTo(tree, raws, i + 1, digest)
  {
    assert EntryAccepted(tree, raws, i, digest);
  }

  lemma SeenOneMore(raws: seq<RawEntry>, i: nat)
    requires i < |raws|
    ensures Seen(raws, i + 1) == Seen(raws, i) + {RawPath(raws[i])}
  {
  }

  /** `_verify_files`. */
  method VerifyFiles(tree: Tree, raws: seq<RawEntry>, digest: Content -> string) returns (r: Result<seq<Path>, Code>)
    ensures r.Ok? ==>
              && |r.value| == |raws| && Ascending(RawPaths(raws), Itself)
              && EntriesAccepted(tree, raws, digest)
              && (forall i | 0 <= i < |raws| :: IsFileOf(tree, raws[i], r.value[i]))
    ensures r.Err? ==> RefusedWith(tree, raws, digest, r.error)
  {
    var seen: set<string> := {};
    var orderedPaths: seq<string> := [];
    var verified: seq<Path> := [];
    for i := 0 to |raws|
      invariant seen == Seen(raws, i) && |orderedPaths| == |verified| == i
      invariant AcceptedUpTo(tree, raws, i, digest)
      invariant forall k | 0 <= k < i :: orderedPaths[k] == RawPath(raws[k])
      invariant forall k | 0 <= k < i :: IsFileOf(tree, raws[k], verified[k])
    {
      var checkedEntry := CheckEntry(tree, raws[i], seen, digest);
      if checkedEntry.Err? {
        FirstBadEntryRefuses(tree, raws, digest, i, checkedEntry.error);
        return Err(checkedEntry.error);
      }
      AcceptedOneMore(tree, raws, i, digest);
      SeenOneMore(raws, i);
      seen := seen + {RawPath(raws[i])};
      orderedPaths := orderedPaths + [RawPath(raws[i])];
      verified := verified + [checkedEntry.value];
    }
    assert orderedPaths == RawPaths(raws);
    var inOrder := IsSorted(orderedPaths);
    if !inOrder {
      return Err(ManifestInvalid);
    }
    return Ok(verified);
  }

  // Files that the manifest does not list

  /** A file that counts as part of the product. */
  predicate Counts(tree: Tree, path: Path, exempt: Exempt) {
    IsFileAt(tree, path) && !exempt.selfAuthenticating(Join(path)) && Lower(Join(path)) !in exempt.generated
  }

  /** A file that only the installer may have added. */
  predicate AddedByInstaller(tree: Tree, path: Path, exempt: Exempt) {
    IsFileAt(tree, path) && !exempt.selfAuthenticating(Join(path)) && Lower(Join(path)) in exempt.generated
  }

  ghost predicate IsListed(raws: seq<RawEntry>, text: string) {
    exists i :: 0 <= i < |raws| && raws[i].Fields? && raws[i].entry.filePath == text
  }

  /** `text` names a file of the tree that counts. */
  ghost predicate NamesCounting(tree: Tree, exempt: Exempt, text: string) {
    exists path :: Counts(tree, path, exempt) && Join(path) == text
  }

  ghost predicate NamesInstallerFile(tree: Tree, exempt: Exempt, text: string) {
    exists path :: AddedByInstaller(tree, path, exempt) && Join(path) == text
  }

  /** The manifest lists exactly the files that count. */
  ghost predicate ListsWhatCounts(tree: Tree, raws: seq<RawEntry>, exempt: Exempt) {
    forall text :: IsListed(raws, text) <==> NamesCounting(tree, exempt, text)
  }

  /** Either none of the installer's files is there or, up to case, all of them are. */
  ghost predicate InstallerFilesComplete(tree: Tree, exempt: Exempt) {
    || (forall text :: !NamesInstallerFile(tree, exempt, text))
    || (forall name | name in exempt.generated ::
          exists text :: NamesInstallerFile(tree, exempt, text) && Lower(text) == name)
  }

  /** `_reject_unlisted_installed_files`. */
  method RejectUnlistedInstalledFiles(tree: Tree, walk: seq<Path>, raws: seq<RawEntry>, exempt: Exempt)
    returns (r: Result<seq<string>, Code>)
    requires ValidTree(tree) && IsWalk(tree, walk)
    ensures r.Ok? <==> ListsWhatCounts(tree, raws, exempt) && InstallerFilesComplete(tree, exempt)
    ensures r.Err? ==> r.error == ArtifactSetMismatch
    ensures r.Ok? ==> Ascending(r.value, Itself)
    ensures r.Ok? ==> forall text :: text in r.value <==> NamesInstallerFile(tree, exempt, text)
  {
    var listed := ListedTexts(raws);
    var actual, installerGenerated := CollectInstalled(tree, walk, exempt);
    assert listed == actual <==> ListsWhatCounts(tree, raws, exempt) by {
      if ListsWhatCounts(tree, raws, exempt) {
        assert forall text :: text in listed <==> text in actual;
      }
    }
    if listed != actual {
      return Err(ArtifactSetMismatch);
    }
    var lowered := set text | text in installerGenerated :: Lower(text);
    LoweredIsComplete(tree, installerGenerated, lowered, exempt);
    if installerGenerated != [] && lowered != exempt.generated {
      return Err(ArtifactSetMismatch);
    }
    SortAscends(installerGenerated, Itself);
    SameMembers(installerGenerated, Sort(installerGenerated, Itself));
    return Ok(Sort(installerGenerated, Itself));
  }

  lemma SameMembers(a: seq<string>, b: seq<string>)
    requires multiset(a) == multiset(b)
    ensures forall text :: text in a <==> text in b
  {
    forall text
      ensures text in a <==> text in b
    {
      assert text in a <==> text in multiset(a);
      assert text in b <==> text in multiset(b);
    }
  }

  /** The paths that the manifest lists. */
  method ListedTexts(raws: seq<RawEntry>) returns (listed: set<string>)
    ensures forall text :: text in listed <==> IsListed(raws, text)
  {
    listed := {};
    for i := 0 to |raws|
      invariant forall text :: text in listed <==> IsListed(raws[..i], text)
    {
      forall text
        ensures IsListed(raws[..i + 1], text) <==>
                  IsListed(raws[..i], text) || (raws[i].Fields? && raws[i].entry.filePath == text)
      {
        ListedOneMore(raws, i, text);
      }
      if raws[i].Fields? {
        listed := listed + {raws[i].entry.filePath};
      }
    }
    assert raws[..|raws|] == raws;
  }

  lemma ListedOneMore(raws: seq<RawEntry>, i: nat, text: string)
    requires i < |raws|
    ensures IsListed(raws[..i + 1], text) <==>
            IsListed(raws[..i], text) || (raws[i].Fields? && raws[i].entry.filePath == text)
  {
    var before, after := raws[..i], raws[..i + 1];
    assert after == before + [raws[i]];
    if IsListed(before, text) {
      var k :| 0 <= k < |before| && before[k].Fields? && before[k].entry.filePath == text;
      assert after[k] == before[k];
    }
    if raws[i].Fields? && raws[i].entry.filePath == text {
      assert after[i] == raws[i];
    }
  }

  /** Among the first `i` steps of the walk there is a file of a kind with this text. */
  ghost predicate Walked(walk: seq<Path>, i: nat, kind: Path -> bool, text: string)
    requires i <= |walk|
  {
    exists k :: 0 <= k < i && kind(walk[k]) && Join(walk[k]) == text
  }

  lemma WalkedOneMore(walk: seq<Path>, i: nat, kind: Path -> bool, text: string)
    requires i < |walk|
    ensures Walked(walk, i + 1, kind, text) <==> Walked(walk, i, kind, text) || (kind(walk[i]) && Join(walk[i]) == text)
  {
  }

  lemma WalkedAll(tree: Tree, walk: seq<Path>, kind: Path -> bool, text: string)
    requires IsWalk(tree, walk) && forall path | kind(path) :: IsFileAt(tree, path)
    ensures Walked(walk, |walk|, kind, text) <==> exists path :: kind(path) && Join(path) == text
  {
    if exists path :: kind(path) && Join(path) == text {
      var path :| kind(path) && Join(path) == text;
      assert path in walk;
    }
  }

  /** The loop over the installed tree: the texts that count, and those of the installer. */
  method CollectInstalled(tree: Tree, walk: seq<Path>, exempt: Exempt)
    returns (actual: set<string>, installerGenerated: seq<string>)
    requires ValidTree(tree) && IsWalk(tree, walk)
    ensures forall text :: text in actual <==> NamesCounting(tree, exempt, text)
    ensures forall text :: text in installerGenerated <==> NamesInstallerFile(tree, exempt, text)
  {
    actual, installerGenerated := {}, [];
    ghost var counting := path => Counts(tree, path, exempt);
    ghost var added := path => AddedByInstaller(tree, path, exempt);
    for i := 0 to |walk|
      invariant forall text :: text in actual <==> Walked(walk, i, counting, text)
      invariant forall text :: text in installerGenerated <==> Walked(walk, i, added, text)
    {
      var path := walk[i];
      forall text
        ensures Walked(walk, i + 1, counting, text) <==>
                Walked(walk, i, counting, text) || (counting(path) && Join(path) == text)
        ensures Walked(walk, i + 1, added, text) <==>
                Walked(walk, i, added, text) || (added(path) && Join(path) == text)
      {
        WalkedOneMore(walk, i, counting, text);
        WalkedOneMore(walk, i, added, text);
      }
      if IsFileAt(tree, path) && !exempt.selfAuthenticating(Join(path)) {
        if Lower(Join(path)) in exempt.generated {
          installerGenerated := installerGenerated + [Join(path)];
        } else {
          actual := actual + {Join(path)};
        }
      }
    }
    forall text
      ensures Walked(walk, |walk|, counting, text) <==> NamesCounting(tree, exempt, text)
      ensures Walked(walk, |walk|, added, text) <==> NamesInstallerFile(tree, exempt, text)
    {
      WalkedAll(tree, walk, counting, text);
      WalkedAll(tree, walk, added, text);
    }
  }

  lemma LoweredIsComplete(tree: Tree, installerGenerated: seq<string>, lowered: set<string>, exempt: Exempt)
    requires forall text :: text in installerGenerated <==> NamesInstallerFile(tree, exempt, text)
    requires lowered == set text | text in installerGenerated :: Lower(text)
    ensures InstallerFilesComplete(tree, exempt) <==> (installerGenerated == [] || lowered == exempt.generated)
  {
    assert lowered <= exempt.generated;
    if installerGenerated != [] {
      assert NamesInstallerFile(tree, exempt, installerGenerated[0]);
    }
    if forall name | name in exempt.generated :: exists text ::
        NamesInstallerFile(tree, exempt, text) && Lower(text) == name {
      forall name | name in exempt.generated
        ensures name in lowered
      {
        var text :| NamesInstallerFile(tree, exempt, text) && Lower(text) == name;
        assert text in installerGenerated;
      }
    }
  }

  // The whole of the file checks

  ghost predicate Accepts(tree: Tree, raws: seq<RawEntry>, digest: Content -> string, exempt: Exempt) {
    && 1 <= |raws| <= MAX_FILES
    && EntriesAccepted(tree, raws, digest)
    && Ascending(RawPaths(raws), Itself)
    && ListsWhatCounts(tree, raws, exempt)
    && InstallerFilesComplete(tree, exempt)
  }

  /** The file part of `verify_installation`. */
  method VerifyInstalledFiles(tree: Tree, walk: seq<Path>, raws: seq<RawEntry>, digest: Content -> string,
      exempt: Exempt)
    returns (r: Result<seq<Path>, Code>)
    requires ValidTree(tree) && IsWalk(tree, walk)
    ensures r.Ok? <==> Accepts(tree, raws, digest, exempt)
    ensures r.Err? ==>
              if raws == [] || |raws| > MAX_FILES then r.error == ManifestInvalid
              else if EntriesAccepted(tree, raws, digest) && Ascending(RawPaths(raws), Itself) then
                  r.error == ArtifactSetMismatch
              else RefusedWith(tree, raws, digest, r.error)
    ensures r.Ok? ==> |r.value| == |raws| && forall i | 0 <= i < |raws| :: IsFileOf(tree, raws[i], r.value[i])
  {
    if raws == [] || |raws| > MAX_FILES {
      return Err(ManifestInvalid);
    }
    var verified := VerifyFiles(tree, raws, digest);
    if verified.Err? {
      return Err(verified.error);
    }
    var generated := RejectUnlistedInstalledFiles(tree, walk, raws, exempt);
    if generated.Err? {
      return Err(generated.error);
    }
    return verified;
  }
}
