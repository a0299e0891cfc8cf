/** The generator and the verifier together: which trees pass the file checks against the manifest of a bundle. */
module ReleaseRoundTrip {
  import opened Prelude
  import opened ReleasePaths
  import opened ReleaseManifest
  import opened InstallationVerifier

  /** The list of files as the verifier reads it back from the manifest. */
  function Published(entries: seq<Entry>): (raws: seq<RawEntry>)
    ensures |raws| == |entries|
    ensures forall i | 0 <= i < |entries| :: raws[i] == Fields(entries[i])
  {
    seq(|entries|, i requires 0 <= i < |entries| => Fields(entries[i]))
  }

  /** No two different contents among the files of the two trees have the same digest. */
  ghost predicate CollisionFree(digest: Content -> string, a: Tree, b: Tree) {
    forall p, q | p in a.files && q in b.files && digest(a.files[p]) == digest(b.files[q]) :: a.files[p] == b.files[q]
  }

  /** What the verifier asks of a manifest beyond what the generator does. */
  ghost predicate WithinLimits(entries: seq<Entry>) {
    && 1 <= |entries| <= MAX_FILES
    && AllPathsAllowed(entries)
  }

  ghost predicate AllPathsAllowed(entries: seq<Entry>) {
    forall i | 0 <= i < |entries| :: PathAllowed(entries[i].filePath)
  }

  predicate PathAllowed(text: string) {
    |text| <= MAX_PATH && '\\' !in text
  }

  /** The installed tree has the listed files of the bundle with their contents, and no other file that counts. */
  ghost predicate SameProduct(bundle: Tree, installed: Tree, exempt: Exempt) {
    CountsWhatIsListed(bundle, installed, exempt) && HoldsWhatIsListed(bundle, installed, exempt)
  }

  ghost predicate CountsWhatIsListed(bundle: Tree, installed: Tree, exempt: Exempt) {
    forall path :: Counts(installed, path, exempt) <==> path in Listed(bundle, exempt)
  }

  ghost predicate HoldsWhatIsListed(bundle: Tree, installed: Tree, exempt: Exempt) {
    forall path | path in Listed(bundle, exempt) :: HoldsFile(bundle, installed, path)
  }

  ghost predicate HoldsFile(bundle: Tree, installed: Tree, path: Path)
    requires path in bundle.files
  {
    path in installed.files && installed.files[path] == bundle.files[path]
  }

  lemma NoLinkAbove(tree: Tree, path: Path, k: nat)
    requires ValidTree(tree) && path in tree.files && 1 <= k <= |path|
    ensures path[..k] !in tree.links
  {
    if k == |path| {
      assert path[..k] == path;
    }
  }

  lemma ResolvesListed(installed: Tree, path: Path)
    requires ValidTree(installed) && GoodPath(path)
    ensures '\\' in Join(path) ==> Resolved(installed, Join(path)) == Err(ManifestInvalid)
    ensures '\\' !in Join(path) && path in installed.files ==> Resolved(installed, Join(path)) == Ok(path)
    ensures Resolved(installed, Join(path)).Ok? ==> Resolved(installed, Join(path)).value == path
  {
    PartsOfJoin(path);
    assert forall i | 0 <= i < |path| :: GoodName(path[i]);
    if path in installed.files {
      forall k | 1 <= k <= |path|
        ensures path[..k] !in installed.links
      {
        NoLinkAbove(installed, path, k);
      }
    }
  }

  lemma {:induction false} NotSeenBefore(entries: seq<Entry>, i: nat)
    requires i < |entries| && StrictlyAscending(PathsOf(entries))
    ensures entries[i].filePath !in Seen(Published(entries), i)
  {
    var paths := PathsOf(entries);
    forall k | 0 <= k < i
      ensures RawPath(Published(entries)[k]) != paths[i]
    {
      BeforeIsLinear(paths[k], paths[i]);
    }
  }

  /** An entry of the manifest is accepted exactly if its path is allowed and its file is there with its content. */
  lemma EntryAcceptedExactly(bundle: Tree, installed: Tree, entries: seq<Entry>, i: nat, digest: Content -> string,
                             exempt: Exempt)
    requires ValidTree(bundle) && ValidTree(installed) && IsManifest(bundle, entries, digest, exempt)
    requires IsDigest(digest) && CollisionFree(digest, bundle, installed) && i < |entries|
    ensures Parts(entries[i].filePath) in Listed(bundle, exempt)
    ensures EntryAccepted(installed, Published(entries), i, digest) <==>
              PathAllowed(entries[i].filePath) && HoldsFile(bundle, installed, Parts(entries[i].filePath))
  {
    assert DescribesListed(bundle, entries[i], digest, exempt);
    var path := Parts(entries[i].filePath);
    assert GoodPath(path);
    ResolvesListed(installed, path);
    NotSeenBefore(entries, i);
    assert IsSha256(digest(bundle.files[path]));
  }

  lemma SameTextSamePath(p: Path, q: Path)
    requires GoodPath(p) && GoodPath(q) && Join(p) == Join(q)
    ensures p == q
  {
    PartsOfJoin(p);
    PartsOfJoin(q);
  }

  lemma PublishedListsExactly(bundle: Tree, entries: seq<Entry>, digest: Content -> string, exempt: Exempt,
      text: string)
    requires ValidTree(bundle) && IsManifest(bundle, entries, digest, exempt)
    ensures IsListed(Published(entries), text) <==> exists path :: path in Listed(bundle, exempt) && Join(path) == text
  {
    ListedText(bundle, entries, digest, exempt, text);
    var raws, paths := Published(entries), PathsOf(entries);
    if text in paths {
      var i :| 0 <= i < |paths| && paths[i] == text;
      assert raws[i].Fields? && raws[i].entry.filePath == text;
    }
    if IsListed(raws, text) {
      var i :| 0 <= i < |raws| && raws[i].Fields? && raws[i].entry.filePath == text;
      assert paths[i] == text;
    }
  }

  /** The set comparison on texts is a comparison of the files themselves. */
  lemma ListsExactly(bundle: Tree, installed: Tree, entries: seq<Entry>, digest: Content -> string, exempt: Exempt)
    requires ValidTree(bundle) && ValidTree(installed) && IsManifest(bundle, entries, digest, exempt)
    ensures ListsWhatCounts(installed, Published(entries), exempt) <==> CountsWhatIsListed(bundle, installed, exempt)
  {
    forall text
      ensures IsListed(Published(entries), text) <==>
              exists path :: path in Listed(bundle, exempt) && Join(path) == text
    {
      PublishedListsExactly(bundle, entries, digest, exempt, text);
    }
    if ListsWhatCounts(installed, Published(entries), exempt) {
      forall path
        ensures Counts(installed, path, exempt) <==> path in Listed(bundle, exempt)
      {
        SameFileForText(bundle, installed, Published(entries), exempt, path);
      }
    }
  }

  lemma SameFileForText(bundle: Tree, installed: Tree, raws: seq<RawEntry>, exempt: Exempt, path: Path)
    requires ValidTree(bundle) && ValidTree(installed) && ListsWhatCounts(installed, raws, exempt)
    requires forall text :: IsListed(raws, text) <==> exists p :: p in Listed(bundle, exempt) && Join(p) == text
    ensures Counts(installed, path, exempt) <==> path in Listed(bundle, exempt)
  {
    var text := Join(path);
    assert IsListed(raws, text) <==> NamesCounting(installed, exempt, text);
    if Counts(installed, path, exempt) {
      var p :| p in Listed(bundle, exempt) && Join(p) == text;
      SameTextSamePath(p, path);
    }
    if path in Listed(bundle, exempt) {
      var p :| Counts(installed, p, exempt) && Join(p) == text;
      SameTextSamePath(p, path);
    }
  }

  lemma PublishedAscends(entries: seq<Entry>)
    requires StrictlyAscending(PathsOf(entries))
    ensures Ascending(RawPaths(Published(entries)), Itself)
  {
    assert RawPaths(Published(entries)) == PathsOf(entries);
    StrictIsSorted(PathsOf(entries));
    SortedExactlyIfAscending(PathsOf(entries), Itself);
  }

  lemma EntriesAcceptedExactly(bundle: Tree, installed: Tree, entries: seq<Entry>, digest: Content -> string,
      exempt: Exempt)
    requires ValidTree(bundle) && ValidTree(installed) && IsManifest(bundle, entries, digest, exempt)
    requires IsDigest(digest) && CollisionFree(digest, bundle, installed)
    ensures EntriesAccepted(installed, Published(entries), digest) <==>
              AllPathsAllowed(entries) && HoldsWhatIsListed(bundle, installed, exempt)
  {
    var raws := Published(entries);
    if EntriesAccepted(installed, raws, digest) {
      forall i | 0 <= i < |entries|
        ensures PathAllowed(entries[i].filePath)
      {
        assert EntryAccepted(installed, raws, i, digest);
        EntryAcceptedExactly(bundle, installed, entries, i, digest, exempt);
      }
      forall path | path in Listed(bundle, exempt)
        ensures HoldsFile(bundle, installed, path)
      {
        var i := EntryOfListed(bundle, entries, digest, exempt, path);
        assert EntryAccepted(installed, raws, i, digest);
        EntryAcceptedExactly(bundle, installed, entries, i, digest, exempt);
      }
    }
    if AllPathsAllowed(entries) && HoldsWhatIsListed(bundle, installed, exempt) {
      forall i | 0 <= i < |entries|
        ensures EntryAccepted(installed, raws, i, digest)
      {
        EntryAcceptedExactly(bundle, installed, entries, i, digest, exempt);
      }
    }
  }

  lemma EntryOfListed(bundle: Tree, entries: seq<Entry>, digest: Content -> string, exempt: Exempt, path: Path)
      returns (i: nat)
    requires ValidTree(bundle) && IsManifest(bundle, entries, digest, exempt) && path in Listed(bundle, exempt)
    ensures i < |entries| && Parts(entries[i].filePath) == path
  {
    assert Join(path) in PathsOf(entries);
    i :| 0 <= i < |entries| && PathsOf(entries)[i] == Join(path);
    PartsOfJoin(path);
  }

  /**
   * Against the manifest of a bundle, the file checks pass exactly for the trees that hold the bundle's listed files
   * unchanged and no other file that counts, with the installer's files all there or none, provided that the paths
   * and the number of files stay within the verifier's limits.
   */
  lemma AcceptsExactlyTheBundle(bundle: Tree, installed: Tree, entries: seq<Entry>, digest: Content -> string,
      exempt: Exempt)
    requires ValidTree(bundle) && ValidTree(installed) && IsManifest(bundle, entries, digest, exempt)
    requires IsDigest(digest) && CollisionFree(digest, bundle, installed)
    ensures Accepts(installed, Published(entries), digest, exempt) <==>
              && WithinLimits(entries)
              && SameProduct(bundle, installed, exempt)
              && InstallerFilesComplete(installed, exempt)
  {
    PublishedAscends(entries);
    ListsExactly(bundle, installed, entries, digest, exempt);
    EntriesAcceptedExactly(bundle, installed, entries, digest, exempt);
  }

  /**
   * The bundle itself, once its manifest and signature have been written beside it, passes exactly if it stays within
   * the limits and has no file named like one of the installer's.
   */
  lemma BundleIsAccepted(bundle: Tree, installed: Tree, entries: seq<Entry>, digest: Content -> string, exempt: Exempt)
    requires ValidTree(bundle) && ValidTree(installed) && IsManifest(bundle, entries, digest, exempt)
             && IsDigest(digest)
    requires CollisionFree(digest, bundle, installed)
    requires installed.links == map[] && Listed(installed, exempt) == Listed(bundle, exempt)
    requires forall path | path in Listed(bundle, exempt) :: installed.files[path] == bundle.files[path]
    ensures Accepts(installed, Published(entries), digest, exempt) <==>
              WithinLimits(entries) && forall path | path in Listed(bundle, exempt) ::
                  Lower(Join(path)) !in exempt.generated
  {
    AcceptsExactlyTheBundle(bundle, installed, entries, digest, exempt);
    UnchangedBundleIsSameProduct(bundle, installed, exempt);
  }

  lemma UnchangedBundleIsSameProduct(bundle: Tree, installed: Tree, exempt: Exempt)
    requires installed.links == map[] && Listed(installed, exempt) == Listed(bundle, exempt)
    requires forall path | path in Listed(bundle, exempt) :: installed.files[path] == bundle.files[path]
    ensures SameProduct(bundle, installed, exempt) && InstallerFilesComplete(installed, exempt) <==>
              forall path | path in Listed(bundle, exempt) :: Lower(Join(path)) !in exempt.generated
  {
    forall path
      ensures IsFileAt(installed, path) && !exempt.selfAuthenticating(Join(path)) <==> path in Listed(bundle, exempt)
    {
      assert path in Listed(installed, exempt) <==> path in Listed(bundle, exempt);
    }
    if SameProduct(bundle, installed, exempt) {
      forall path | path in Listed(bundle, exempt)
        ensures Lower(Join(path)) !in exempt.generated
      {
        assert Counts(installed, path, exempt);
      }
    }
  }

  // The product's own file names, and bundles it refuses

  /** With the product's names: what is listed, and which bundles pass against their own manifest. */
  lemma ReleaseBundleIsAccepted(bundle: Tree, entries: seq<Entry>, digest: Content -> string)
    requires ValidTree(bundle) && bundle.links == map[] && IsManifest(bundle, entries, digest, RELEASE)
             && IsDigest(digest)
    requires CollisionFree(digest, bundle, bundle)
    ensures forall path :: path in Listed(bundle, RELEASE) <==>
              path in bundle.files && Join(path) != "release-manifest.json" && Join(path) != "release-manifest.sig"
    ensures Accepts(bundle, Published(entries), digest, RELEASE) <==>
              && WithinLimits(entries)
              && forall path | path in Listed(bundle, RELEASE) ::
                   Lower(Join(path)) != "unins000.dat" && Lower(Join(path)) != "unins000.exe"
  {
    BundleIsAccepted(bundle, bundle, entries, digest, RELEASE);
    forall path
      ensures path in Listed(bundle, RELEASE) <==>
              path in bundle.files && Join(path) != "release-manifest.json" && Join(path) != "release-manifest.sig"
    {
      ReleaseNames(Join(path));
    }
    forall path
      ensures Lower(Join(path)) !in RELEASE.generated <==>
              Lower(Join(path)) != "unins000.dat" && Lower(Join(path)) != "unins000.exe"
    {
      ReleaseNames(Lower(Join(path)));
    }
  }

  lemma ReleaseNames(text: string)
    ensures RELEASE.selfAuthenticating(text) <==> text == "release-manifest.json" || text == "release-manifest.sig"
    ensures text in RELEASE.generated <==> text == "unins000.dat" || text == "unins000.exe"
  {
  }

  function OneFile(name: string, content: Content): Tree {
    Tree(map[[name] := content], map[])
  }

  /** A bundle of one file: the generator lists it whatever its name, and the verifier accepts it or not by its name. */
  lemma OneFileBundle(name: string, content: Content, digest: Content -> string, exempt: Exempt)
    requires GoodName(name) && !exempt.selfAuthenticating(name) && IsDigest(digest)
    ensures var bundle, entries := OneFile(name, content), [Entry(name, |content|, digest(content))];
            && ValidTree(bundle) && IsManifest(bundle, entries, digest, exempt) && Checked(entries) == Ok(entries)
            && (Accepts(bundle, Published(entries), digest, exempt) <==>
                PathAllowed(name) && Lower(name) !in exempt.generated)
  {
    var bundle, entries := OneFile(name, content), [Entry(name, |content|, digest(content))];
    assert Join([name]) == name;
    OneFileIsManifest(name, content, digest, exempt);
    BundleIsAccepted(bundle, bundle, entries, digest, exempt);
    assert [name] in Listed(bundle, exempt);
  }

  lemma OneFileIsManifest(name: string, content: Content, digest: Content -> string, exempt: Exempt)
    requires GoodName(name) && !exempt.selfAuthenticating(name) && IsDigest(digest)
    ensures var bundle, entries := OneFile(name, content), [Entry(name, |content|, digest(content))];
            && ValidTree(bundle) && IsManifest(bundle, entries, digest, exempt) && Checked(entries) == Ok(entries)
  {
    var bundle, entries := OneFile(name, content), [Entry(name, |content|, digest(content))];
    assert Join([name]) == name && Listed(bundle, exempt) == {[name]};
    PartsOfJoin([name]);
    assert PathsOf(entries)[0] == name;
    StrictIsSorted(PathsOf(entries));
  }

  lemma {:induction false} LowerKeeps(text: string)
    requires forall i | 0 <= i < |text| :: !('A' <= text[i] <= 'Z')
    ensures Lower(text) == text
  {
    if text != [] {
      LowerKeeps(text[1..]);
    }
  }

  const BACKSLASHED := "a\\b"

  lemma OtherLength(name: string)
    requires |name| != 20 && |name| != 21
    ensures !RELEASE.selfAuthenticating(name)
  {
    assert |"release-manifest.json"| == 21 && |"release-manifest.sig"| == 20;
  }

  lemma BackslashedName()
    ensures GoodName(BACKSLASHED) && |BACKSLASHED| == 3 && !PathAllowed(BACKSLASHED)
  {
    assert BACKSLASHED[1] == '\\';
  }

  /** The installer's names are plain and in lower case. */
  lemma InstallerName(name: string)
    requires name in RELEASE.generated
    ensures GoodName(name) && |name| == 12 && forall i | 0 <= i < |name| :: !('A' <= name[i] <= 'Z')
  {
  }

  lemma LowerOfGenerated(name: string, generated: set<string>)
    requires name in generated && forall i | 0 <= i < |name| :: !('A' <= name[i] <= 'Z')
    ensures Lower(name) in generated
  {
    LowerKeeps(name);
  }

  /** The bundle of this one file has a manifest that passes the generator's checks, and is not accepted against it. */
  ghost predicate ListedButRefused(name: string, content: Content, digest: Content -> string) {
    var bundle, entries := OneFile(name, content), [Entry(name, |content|, digest(content))];
    && ValidTree(bundle) && IsManifest(bundle, entries, digest, RELEASE) && Checked(entries) == Ok(entries)
    && !Accepts(bundle, Published(entries), digest, RELEASE)
  }

  /** A file with a backslash in its name, and each file named like the installer's, is listed but never accepted. */
  lemma SomeBundlesAreRefused(installerFile: string, content: Content, digest: Content -> string)
    requires IsDigest(digest) && installerFile in RELEASE.generated
    ensures ListedButRefused(BACKSLASHED, content, digest) && ListedButRefused(installerFile, content, digest)
  {
    BackslashedName();
    OtherLength(BACKSLASHED);
    OneFileBundle(BACKSLASHED, content, digest, RELEASE);
    InstallerName(installerFile);
    LowerOfGenerated(installerFile, RELEASE.generated);
    OtherLength(installerFile);
    OneFileBundle(installerFile, content, digest, RELEASE);
  }
}
