// The repository files that go to the sandbox with a patch: every regular file of the workspace
// whose path the policy allows and whose contents hold no credential, unless they are too many.
module Upload {
  import opened Options
  import opened Paths
  import opened Policy
  import opened Requests
  import opened Text
  import Workspace

  const MAX_BUNDLE_FILES := 1000
  const MAX_BUNDLE_BYTES := 6_000_000

  function PathOf(f: Workspace.Found): string {
    Join(f.path, '/')
  }

  predicate Goes(env: Environment, f: Workspace.Found) {
    f.kind.FileFound? && NormalizeTrusted(env.lower, PathOf(f)).Some? && !env.secret(f.kind.content)
  }

  function FileFor(env: Environment, f: Workspace.Found): FileEdit
    requires Goes(env, f)
  {
    FileEdit(NormalizeTrusted(env.lower, PathOf(f)).value, f.kind.content)
  }

  // What goes, in the order of the listing.
  function Bundle(env: Environment, listing: seq<Workspace.Found>): seq<FileEdit> {
    if listing == [] then []
    else
      var front, last := Bundle(env, listing[..|listing| - 1]), listing[|listing| - 1];
      if Goes(env, last) then front + [FileFor(env, last)] else front
  }

  function BundleBytes(env: Environment, listing: seq<Workspace.Found>): nat {
    if listing == [] then 0
    else
      var front, last := BundleBytes(env, listing[..|listing| - 1]), listing[|listing| - 1];
      if Goes(env, last) then front + env.size(last.kind.content) else front
  }

  predicate BundleFits(env: Environment, listing: seq<Workspace.Found>) {
    |Bundle(env, listing)| <= MAX_BUNDLE_FILES && BundleBytes(env, listing) <= MAX_BUNDLE_BYTES
  }

  lemma {:induction false} BundlesGrow(env: Environment, listing: seq<Workspace.Found>, n: nat)
    requires n <= |listing|
    ensures |Bundle(env, listing[..n])| <= |Bundle(env, listing)|
    ensures BundleBytes(env, listing[..n]) <= BundleBytes(env, listing)
    decreases |listing|
  {
    if n < |listing| {
      var front := listing[..|listing| - 1];
      assert front[..n] == listing[..n];
      BundlesGrow(env, front, n);
    } else {
      assert listing[..n] == listing;
    }
  }

  // Stops at the first file too many, which there is exactly when the whole bundle is over a limit.
  method BundleSorted(env: Environment, listing: seq<Workspace.Found>) returns (files: Option<seq<FileEdit>>)
    ensures files.Some? <==> BundleFits(env, listing)
    ensures files.Some? ==> files.value == Bundle(env, listing)
  {
    var bundle: seq<FileEdit>, bytes: nat := [], 0;
    for i := 0 to |listing|
      invariant bundle == Bundle(env, listing[..i]) && |bundle| <= MAX_BUNDLE_FILES
      invariant bytes == BundleBytes(env, listing[..i]) <= MAX_BUNDLE_BYTES
    {
      var f := listing[i];
      assert listing[..i + 1][..i] == listing[..i];
      BundlesGrow(env, listing, i + 1);
      if Goes(env, f) {
        bytes := bytes + env.size(f.kind.content);
        if |bundle| >= MAX_BUNDLE_FILES || bytes > MAX_BUNDLE_BYTES { return None; }
        bundle := bundle + [FileFor(env, f)];
      }
    }
    assert listing[..|listing|] == listing;
    return Some(bundle);
  }

  // The files of a workspace.
  ghost function BundleOf(env: Environment, root: Workspace.Root): seq<FileEdit> {
    Bundle(env, Workspace.InPathOrder(root))
  }

  method BundleWorkspace(env: Environment, root: Workspace.Root) returns (files: Option<seq<FileEdit>>)
    ensures files.Some? <==> BundleFits(env, Workspace.InPathOrder(root))
    ensures files.Some? ==> files.value == BundleOf(env, root)
  {
    var listing := Workspace.SortedEntries(root);
    Workspace.SortedListingIs(root, listing);
    files := BundleSorted(env, listing);
  }

  // ----- What the worker makes of them -----

  // A path that was found is in normal form.
  lemma FoundPathsStay(lower: Lowering, path: seq<string>)
    requires path != [] && Workspace.ProperPath(path)
    ensures Split(Join(path, '/'), '/') == path
    ensures NormalizeTrusted(lower, Join(path, '/')).Some? ==>
              NormalizeTrusted(lower, Join(path, '/')) == Some(Join(path, '/'))
  {
    assert forall p | p in path :: '/' !in p && p != "" && p != ".";
    SplitJoin(path, '/');
    ComponentsOfPlain(path);
  }

  // Where a file of the bundle comes from.
  lemma {:induction false} Origin(env: Environment, listing: seq<Workspace.Found>, k: nat) returns (i: nat)
    requires k < |Bundle(env, listing)|
    ensures i < |listing| && Goes(env, listing[i]) && Bundle(env, listing)[k] == FileFor(env, listing[i])
    ensures k <= i && |Bundle(env, listing[..i])| == k
    decreases |listing|
  {
    var n := |listing| - 1;
    if k < |Bundle(env, listing[..n])| {
      i := Origin(env, listing[..n], k);
      assert listing[..n][..i] == listing[..i];
    } else {
      i := n;
      BundleLength(env, listing[..n]);
    }
  }

  lemma {:induction false} BundleLength(env: Environment, listing: seq<Workspace.Found>)
    ensures |Bundle(env, listing)| <= |listing|
  {
    if listing != [] { BundleLength(env, listing[..|listing| - 1]); }
  }

  // A bundle has its files under the paths they were found at, all different.
  lemma BundlePath(env: Environment, root: Workspace.Root, listing: seq<Workspace.Found>, k: nat)
    requires Workspace.SortedListing(root, listing) && k < |Bundle(env, listing)|
    ensures var path := Bundle(env, listing)[k].path;
      path != "." && NormalizeTrusted(env.lower, path) == Some(path)
  {
    var i := Origin(env, listing, k);
    FileStays(env, root, listing, i);
  }

  lemma BundlePathsDiffer(
    env: Environment, root: Workspace.Root, listing: seq<Workspace.Found>, k: nat, l: nat)
    requires Workspace.SortedListing(root, listing) && k < l < |Bundle(env, listing)|
    ensures Bundle(env, listing)[k].path != Bundle(env, listing)[l].path
  {
    var i := Origin(env, listing, k);
    var j := Origin(env, listing, l);
    FileStays(env, root, listing, i);
    FileStays(env, root, listing, j);
    LaterOrigin(env, listing, i, j);
    Workspace.SortedPathsDiffer(root, listing, i, j);
  }

  lemma LaterOrigin(env: Environment, listing: seq<Workspace.Found>, i: nat, j: nat)
    requires i < |listing| && j < |listing| && |Bundle(env, listing[..i])| < |Bundle(env, listing[..j])|
    ensures i < j
  {
    if j <= i { EarlierBundle(env, listing, j, i); }
  }

  lemma EarlierBundle(env: Environment, listing: seq<Workspace.Found>, i: nat, j: nat)
    requires i <= j <= |listing|
    ensures |Bundle(env, listing[..i])| <= |Bundle(env, listing[..j])|
  {
    BundlesGrow(env, listing[..j], i);
    assert listing[..j][..i] == listing[..i];
  }

  lemma DotIsNoName()
    ensures !Workspace.ProperPath(["."])
  {
    var path := ["."];
    assert path[0] == ".";
  }

  lemma FileStays(env: Environment, root: Workspace.Root, listing: seq<Workspace.Found>, i: nat)
    requires Workspace.SortedListing(root, listing) && i < |listing| && Goes(env, listing[i])
    ensures var path := FileFor(env, listing[i]).path;
      && path == PathOf(listing[i]) == Workspace.BY_PATH(listing[i])
      && path != "." && NormalizeTrusted(env.lower, path) == Some(path)
  {
    Workspace.SortedPathIsProper(root, listing, i);
    FoundPathsStay(env.lower, listing[i].path);
    SplitPlain(".", '/');
    var path := listing[i].path;
    assert Join(path, '/') == "." ==> path == ["."];
    DotIsNoName();
  }

  // What the worker refuses of a path in normal form, with its own lower-casing.
  predicate Refused(worker: Lowering, path: string) {
    WorkerDenies(worker, path, LastOf(path))
  }

  lemma NormalPathIsAccepted(lower: Lowering, worker: Lowering, path: string)
    requires path != "." && NormalizeTrusted(lower, path) == Some(path)
    ensures NormalizeWorker(worker, path) == if Refused(worker, path) then None else Some(path)
  {
    KeptIsInNormalForm(TrustedDenial(lower), path);
    CheckedExactly(WorkerDenial(worker), path);
  }

  // The worker takes a bundle exactly when it denies none of its paths, whatever its lower-casing: the
  // paths are in normal form and all different.
  lemma BundleIsAccepted(
    env: Environment, worker: Lowering, root: Workspace.Root, listing: seq<Workspace.Found>)
    requires Workspace.SortedListing(root, listing)
    ensures FilesFit(worker, Bundle(env, listing)) <==>
      forall f | f in Bundle(env, listing) :: !Refused(worker, f.path)
  {
    var files := Bundle(env, listing);
    forall k | 0 <= k < |files|
      ensures NormalizeWorker(worker, files[k].path) ==
        if Refused(worker, files[k].path) then None else Some(files[k].path)
    {
      BundlePath(env, root, listing, k);
      NormalPathIsAccepted(env.lower, worker, files[k].path);
    }
    forall k, l | 0 <= k < l < |files| ensures files[k].path != files[l].path {
      BundlePathsDiffer(env, root, listing, k, l);
    }
    PathsDecide(worker, files);
  }

  lemma PathsDecide(worker: Lowering, files: seq<FileEdit>)
    requires forall k | 0 <= k < |files| ::
      NormalizeWorker(worker, files[k].path) == if Refused(worker, files[k].path) then None else Some(files[k].path)
    requires forall k, l | 0 <= k < l < |files| :: files[k].path != files[l].path
    ensures FilesFit(worker, files) <==> forall f | f in files :: !Refused(worker, f.path)
  {
    if FilesFit(worker, files) {
      forall f | f in files ensures !Refused(worker, f.path) {
        var k :| 0 <= k < |files| && files[k] == f;
        assert NormalizeWorker(worker, files[k].path).Some?;
      }
    }
    if forall f | f in files :: !Refused(worker, f.path) {
      forall k | 0 <= k < |files| ensures NormalizeWorker(worker, files[k].path) == Some(files[k].path) {
        assert files[k] in files;
      }
    }
  }

  // If both lower-case alike, that leaves only names that end like a key file's.
  lemma OnlyKeyNamesAreRefused(
    env: Environment, root: Workspace.Root, listing: seq<Workspace.Found>, k: nat)
    requires Workspace.SortedListing(root, listing) && k < |Bundle(env, listing)|
    ensures var path := Bundle(env, listing)[k].path;
      Refused(env.lower, path) <==> LooksLikeKey(Lower(env.lower, LastOf(path)))
  {
    BundlePath(env, root, listing, k);
    var path := Bundle(env, listing)[k].path;
    KeptIsInNormalForm(TrustedDenial(env.lower), path);
    NormalFormIsKept(TrustedDenial(env.lower), path);
    WorkerDeniesMore(env.lower, path, LastOf(path));
  }

  lemma BundleOfLast(env: Environment, listing: seq<Workspace.Found>)
    requires listing != []
    ensures var front, last := Bundle(env, listing[..|listing| - 1]), listing[|listing| - 1];
      Bundle(env, listing) == if Goes(env, last) then front + [FileFor(env, last)] else front
  {
  }

  lemma PlaceIsKept(env: Environment, listing: seq<Workspace.Found>, k: nat)
    requires listing != [] && k < |Bundle(env, listing[..|listing| - 1])|
    ensures k < |Bundle(env, listing)| && Bundle(env, listing)[k] == Bundle(env, listing[..|listing| - 1])[k]
  {
    BundleOfLast(env, listing);
  }

  lemma LastGoes(env: Environment, listing: seq<Workspace.Found>) returns (k: nat)
    requires listing != [] && Goes(env, listing[|listing| - 1])
    ensures k < |Bundle(env, listing)| && Bundle(env, listing)[k] == FileFor(env, listing[|listing| - 1])
  {
    BundleOfLast(env, listing);
    k := |Bundle(env, listing[..|listing| - 1])|;
  }

  lemma {:induction false} GoesIntoBundle(env: Environment, listing: seq<Workspace.Found>, i: nat)
    returns (k: nat)
    requires i < |listing| && Goes(env, listing[i])
    ensures k < |Bundle(env, listing)| && Bundle(env, listing)[k] == FileFor(env, listing[i])
    decreases |listing|
  {
    if i < |listing| - 1 {
      var front := listing[..|listing| - 1];
      assert front[i] == listing[i];
      k := GoesIntoBundle(env, front, i);
      PlaceIsKept(env, listing, k);
    } else {
      k := LastGoes(env, listing);
    }
  }

  // What was found is a regular file with those contents, which hold no credential, at a path that
  // normalizes to the file's.
  ghost predicate Provides(env: Environment, f: Workspace.Found, file: FileEdit) {
    && f.kind == Workspace.FileFound(file.content) && !env.secret(file.content)
    && NormalizeTrusted(env.lower, Join(f.path, '/')) == Some(file.path)
  }

  // The bundle has exactly the files that the workspace provides.
  lemma BundleMeans(env: Environment, listing: seq<Workspace.Found>, file: FileEdit)
    ensures file in Bundle(env, listing) <==> exists i | 0 <= i < |listing| :: Provides(env, listing[i], file)
  {
    if file in Bundle(env, listing) {
      var k: nat :| k < |Bundle(env, listing)| && Bundle(env, listing)[k] == file;
      var i := Origin(env, listing, k);
      assert Provides(env, listing[i], file);
    }
    if i: nat :| i < |listing| && Provides(env, listing[i], file) {
      var k := GoesIntoBundle(env, listing, i);
      assert Bundle(env, listing)[k] == file;
    }
  }

  // One file named just ".pem", and the worker refuses the whole request.
  lemma APemFileIsRefused(env: Environment, worker: Lowering, listing: seq<Workspace.Found>, i: nat)
    requires i < |listing| && listing[i].path == [".pem"] && listing[i].kind.FileFound?
    requires !env.secret(listing[i].kind.content)
    requires forall c | c in ".pem" :: env.lower(c) == [c] && worker(c) == [c]
    ensures !FilesFit(worker, Bundle(env, listing))
  {
    TrustedAcceptsMore(env.lower);
    TrustedAcceptsMore(worker);
    assert PathOf(listing[i]) == ".pem";
    var k := GoesIntoBundle(env, listing, i);
  }
}
