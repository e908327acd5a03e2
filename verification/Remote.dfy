// The part of a GitHub repository a publication reads and writes.
module Remote {
  import opened Git
  import opened Options

  datatype Pull = Pull(branch: Ref, base: string, open: bool, draft: bool)

  datatype CheckRun = CheckRun(head: Commit, migration: int, attempt: int)

  // Pull requests and check runs are numbered from 1 in order of creation.
  datatype Repository = Repository(refs: map<Ref, Commit>, pulls: seq<Pull>, checks: seq<CheckRun>)

  function Head(r: Repository, ref: Ref): Option<Commit> {
    if ref in r.refs then Some(r.refs[ref]) else None
  }

  predicate HasPull(r: Repository, n: nat) {
    1 <= n <= |r.pulls|
  }

  // The head of a pull request is the head of its branch.
  function PullHead(r: Repository, n: nat): Option<Commit>
    requires HasPull(r, n)
  {
    Head(r, r.pulls[n - 1].branch)
  }

  // The three writes that can be refused answer None when they are.
  function CreateRef(r: Repository, ref: Ref, c: Commit): Option<Repository> {
    if ref in r.refs then None else Some(r.(refs := r.refs[ref := c]))
  }

  function ForceRef(r: Repository, ref: Ref, c: Commit): Option<Repository> {
    if ref !in r.refs then None else Some(r.(refs := r.refs[ref := c]))
  }

  function OpenDraft(r: Repository, ref: Ref, base: string): Option<Repository> {
    if ref !in r.refs ||
       exists i | 0 <= i < |r.pulls| :: r.pulls[i].open && r.pulls[i].branch == ref && r.pulls[i].base == base
    then None
    else Some(r.(pulls := r.pulls + [Pull(ref, base, true, true)]))
  }

  function AddCheck(r: Repository, check: CheckRun): Repository {
    r.(checks := r.checks + [check])
  }

  // ----- Trees -----

  datatype TreeEntry = TreeEntry(path: Path, mode: string, content: string)

  // One path is a directory on the way to the other.
  predicate Clash(p: Path, q: Path) {
    p + "/" <= q || q + "/" <= p
  }

  // What an entry replaces makes way for it: the file at its path, a file that stands where it needs
  // a directory, and a directory that stands where it needs a file.
  function Put(t: Tree, e: TreeEntry): Tree {
    (map p | p in t && !Clash(p, e.path) :: t[p])[e.path := Entry(e.mode, e.content)]
  }

  // Posting a tree: the base with each entry put in place, in order.
  function CreateTree(base: Tree, entries: seq<TreeEntry>): Tree
    decreases |entries|
  {
    if entries == [] then base
    else Put(CreateTree(base, entries[..|entries| - 1]), entries[|entries| - 1])
  }

  predicate Displaces(e: TreeEntry, p: Path) {
    e.path == p || Clash(p, e.path)
  }

  // No entry from the `i`th on displaces the path.
  predicate StaysFrom(entries: seq<TreeEntry>, i: nat, p: Path) {
    forall j | i <= j < |entries| :: !Displaces(entries[j], p)
  }

  // The `i`th entry puts the path in place, and no later one displaces it.
  predicate PutLast(entries: seq<TreeEntry>, i: nat, p: Path) {
    i < |entries| && entries[i].path == p && StaysFrom(entries, i + 1, p)
  }

  lemma PutMeans(t: Tree, e: TreeEntry, p: Path)
    ensures p in Put(t, e) <==> e.path == p || (p in t && !Displaces(e, p))
    ensures e.path == p ==> Put(t, e)[p] == Entry(e.mode, e.content)
    ensures p in t && !Displaces(e, p) ==> Put(t, e)[p] == t[p]
  {
  }

  lemma StaysWithLast(entries: seq<TreeEntry>, e: TreeEntry, i: nat, p: Path)
    requires i <= |entries|
    ensures StaysFrom(entries + [e], i, p) <==> StaysFrom(entries, i, p) && !Displaces(e, p)
  {
    var all := entries + [e];
    assert forall j | i <= j < |entries| :: all[j] == entries[j];
    assert all[|entries|] == e;
  }

  lemma PutLastWithLast(entries: seq<TreeEntry>, e: TreeEntry, i: nat, p: Path)
    ensures PutLast(entries + [e], i, p) <==>
      (i == |entries| && e.path == p) || (PutLast(entries, i, p) && !Displaces(e, p))
  {
    if i < |entries| { StaysWithLast(entries, e, i + 1, p); }
  }

  // A path is in the tree exactly if an entry put it there, or the base had it, and no later entry
  // displaced it; and it holds what was put there last.
  lemma {:induction false} CreateTreeMeans(base: Tree, entries: seq<TreeEntry>, p: Path)
    ensures var t := CreateTree(base, entries);
      && (p in t <==> (p in base && StaysFrom(entries, 0, p)) || exists i: nat :: PutLast(entries, i, p))
      && (p in base && StaysFrom(entries, 0, p) ==> t[p] == base[p])
      && (forall i: nat | PutLast(entries, i, p) :: t[p] == Entry(entries[i].mode, entries[i].content))
    decreases |entries|
  {
    if entries != [] {
      var n := |entries| - 1;
      var front, e := entries[..n], entries[n];
      CreateTreeMeans(base, front, p);
      PutMeans(CreateTree(base, front), e, p);
      assert entries == front + [e];
      StaysWithLast(front, e, 0, p);
      forall i: nat
        ensures PutLast(entries, i, p) <==> (i == n && e.path == p) || (PutLast(front, i, p) && !Displaces(e, p))
      {
        PutLastWithLast(front, e, i, p);
      }
      assert e.path == p ==> PutLast(entries, n, p);
    }
  }

  // ----- The tree and the commit of a patch -----

  const REGULAR := "100644"
  const EXECUTABLE := "100755"

  function ModeFor(base: Tree, path: Path): string {
    if path in base then base[path].mode else REGULAR
  }

  // An edit that declares a digest replaces a regular file; one that does not adds a file.
  predicate EditFits(base: Tree, e: Edit) {
    if e.expected.Some? then e.path in base && base[e.path].mode in {REGULAR, EXECUTABLE}
    else e.path !in base
  }

  // It does exactly if it declares a digest when the path is taken and none when it is not, and what is
  // there is a file, executable or not.
  lemma FitsExactly(base: Tree, e: Edit)
    ensures EditFits(base, e) <==>
      && (e.expected.Some? <==> e.path in base)
      && (e.path in base ==> base[e.path].mode in {"100644", "100755"})
  {
  }

  function EntryFor(base: Tree, e: Edit): TreeEntry {
    TreeEntry(e.path, ModeFor(base, e.path), e.content)
  }

  function Entries(base: Tree, edits: seq<Edit>): seq<TreeEntry> {
    seq(|edits|, i requires 0 <= i < |edits| => EntryFor(base, edits[i]))
  }

  function Overlay(base: Tree, edits: seq<Edit>): Tree {
    CreateTree(base, Entries(base, edits))
  }

  ghost predicate DistinctPaths(edits: seq<Edit>) {
    forall i, j | 0 <= i < j < |edits| :: edits[i].path != edits[j].path
  }

  ghost predicate Edited(edits: seq<Edit>, p: Path) {
    exists i | 0 <= i < |edits| :: edits[i].path == p
  }

  // The path is a directory on the way to one that is edited, or that one is on the way to it.
  ghost predicate MakesWay(edits: seq<Edit>, p: Path) {
    exists i | 0 <= i < |edits| :: p + "/" <= edits[i].path || edits[i].path + "/" <= p
  }

  // The `i`th edit is of the path, and no later one is or makes it give way.
  ghost predicate EditedLast(edits: seq<Edit>, i: nat, p: Path) {
    && i < |edits| && edits[i].path == p
    && forall j | i < j < |edits| ::
         edits[j].path != p && !(p + "/" <= edits[j].path) && !(edits[j].path + "/" <= p)
  }

  // The published tree is the base with exactly the edits applied, in order: an edited path holds the
  // content of its last edit under its old mode, and every other path is as it was, unless an edit
  // turns its file into a directory or its directory into a file.
  lemma OverlayMeans(base: Tree, edits: seq<Edit>, p: Path)
    ensures var t := Overlay(base, edits);
      && (p in t <==>
            (exists i: nat :: EditedLast(edits, i, p)) || (p in base && !Edited(edits, p) && !MakesWay(edits, p)))
      && (forall i: nat | EditedLast(edits, i, p) ::
            t[p].content == edits[i].content && t[p].mode == if p in base then base[p].mode else "100644")
      && (p in t && !Edited(edits, p) ==> t[p] == base[p])
  {
    var entries := Entries(base, edits);
    CreateTreeMeans(base, entries, p);
    OverlayStays(base, edits, p);
    forall i: nat ensures PutLast(entries, i, p) <==> EditedLast(edits, i, p) {
      LastEntryIsLastEdit(base, edits, i, p);
    }
  }

  lemma OverlayStays(base: Tree, edits: seq<Edit>, p: Path)
    ensures StaysFrom(Entries(base, edits), 0, p) <==> !Edited(edits, p) && !MakesWay(edits, p)
  {
    var entries := Entries(base, edits);
    assert forall i | 0 <= i < |edits| :: entries[i] == EntryFor(base, edits[i]);
    assert forall i | 0 <= i < |edits| ::
      Displaces(entries[i], p) <==> edits[i].path == p || Clash(p, edits[i].path);
  }

  lemma LastEntryIsLastEdit(base: Tree, edits: seq<Edit>, i: nat, p: Path)
    ensures PutLast(Entries(base, edits), i, p) <==> EditedLast(edits, i, p)
    ensures EditedLast(edits, i, p) ==>
      Entries(base, edits)[i] == TreeEntry(p, ModeFor(base, p), edits[i].content)
  {
    var entries := Entries(base, edits);
    assert forall j | 0 <= j < |edits| :: entries[j] == EntryFor(base, edits[j]);
    assert forall j | 0 <= j < |edits| ::
      Displaces(entries[j], p) <==> edits[j].path == p || Clash(p, edits[j].path);
  }

  // No edit's path is a directory on the way to another's.
  ghost predicate NoClashes(edits: seq<Edit>) {
    forall i, j | 0 <= i < |edits| && 0 <= j < |edits| :: !(edits[i].path + "/" <= edits[j].path)
  }

  // Edits of different paths that do not clash are all in place.
  lemma ProperEditsArePlaced(base: Tree, edits: seq<Edit>, i: nat)
    requires DistinctPaths(edits) && NoClashes(edits) && i < |edits|
    ensures var t, p := Overlay(base, edits), edits[i].path;
      p in t && t[p].content == edits[i].content && t[p].mode == if p in base then base[p].mode else "100644"
  {
    assert EditedLast(edits, i, edits[i].path);
    OverlayMeans(base, edits, edits[i].path);
  }
}
