// The walk of a checked-out repository and its fingerprint: an explicit stack of directories,
// whatever order the file system lists them in.
module Workspace {
  import opened Options
  import opened Sorting
  import opened Text

  const IGNORED: set<string> :=
    {".git", ".venv", "node_modules", "vendor", "dist", "build", "__pycache__", ".next"}

  datatype Node =
    | File(content: string)
    | Symlink(target: string)
    | Directory(entries: seq<Entry>)
    | Special

  datatype Entry = Entry(name: string, node: Node)

  type Path = seq<string>

  datatype Kind = FileFound(content: string) | SymlinkFound(target: string)

  datatype Found = Found(path: Path, kind: Kind)

  // ----- What there is to find -----

  function Of(e: Entry, at: Path): multiset<Found>
    decreases e
  {
    var path := at + [e.name];
    match e.node
    case File(content) => multiset{Found(path, FileFound(content))}
    case Symlink(target) => multiset{Found(path, SymlinkFound(target))}
    case Directory(entries) => if e.name in IGNORED then multiset{} else Listing(entries, path)
    case Special => multiset{}
  }

  // Every file and symbolic link outside the ignored directories.
  function Listing(entries: seq<Entry>, at: Path): multiset<Found>
    decreases entries
  {
    if entries == [] then multiset{} else Of(entries[0], at) + Listing(entries[1..], at)
  }

  lemma {:induction false} ListingAppend(a: seq<Entry>, b: seq<Entry>, at: Path)
    ensures Listing(a + b, at) == Listing(a, at) + Listing(b, at)
    decreases |a|
  {
    if a == [] {
      assert a + b == b;
    } else {
      assert (a + b)[0] == a[0] && (a + b)[1..] == a[1..] + b;
      ListingAppend(a[1..], b, at);
    }
  }

  const BY_NAME: Entry -> string := (e: Entry) => e.name

  lemma {:induction false} ListingInsert(e: Entry, entries: seq<Entry>, at: Path)
    ensures Listing(Insert(e, entries, BY_NAME), at) == Of(e, at) + Listing(entries, at)
    decreases |entries|
  {
    if entries == [] || Less(e.name, entries[0].name) {
      assert ([e] + entries)[1..] == entries;
    } else {
      var rest := Insert(e, entries[1..], BY_NAME);
      assert ([entries[0]] + rest)[1..] == rest;
      ListingInsert(e, entries[1..], at);
    }
  }

  lemma ListingSortStep(front: seq<Entry>, sorted: seq<Entry>, e: Entry, at: Path)
    requires Listing(sorted, at) == Listing(front, at)
    ensures Listing(Insert(e, sorted, BY_NAME), at) == Listing(front + [e], at)
  {
    ListingInsert(e, sorted, at);
    ListingAppend(front, [e], at);
    ListingOfOne(e, at);
  }

  lemma {:induction false} ListingSort(entries: seq<Entry>, at: Path)
    ensures Listing(SortBy(entries, BY_NAME), at) == Listing(entries, at)
    decreases |entries|
  {
    if entries != [] {
      var front, e := entries[..|entries| - 1], entries[|entries| - 1];
      ListingSort(front, at);
      ListingSortStep(front, SortBy(front, BY_NAME), e, at);
      assert SortBy(entries, BY_NAME) == Insert(e, SortBy(front, BY_NAME), BY_NAME);
      assert front + [e] == entries;
    }
  }

  lemma ListingOfOne(e: Entry, at: Path)
    ensures Listing([e], at) == Of(e, at)
  {
    assert [e][1..] == [];
  }

  // ----- The walk -----

  datatype Pending = Pending(path: Path, entries: seq<Entry>)

  ghost function Remaining(pending: seq<Pending>): multiset<Found> {
    if pending == [] then multiset{}
    else Remaining(pending[..|pending| - 1]) + Listing(pending[|pending| - 1].entries, pending[|pending| - 1].path)
  }

  ghost function Weight(e: Entry): nat
    decreases e
  {
    match e.node
    case Directory(entries) => 1 + Weights(entries)
    case _ => 0
  }

  ghost function Weights(entries: seq<Entry>): nat
    decreases entries
  {
    if entries == [] then 0 else Weight(entries[0]) + Weights(entries[1..])
  }

  ghost function Work(pending: seq<Pending>): nat {
    if pending == [] then 0 else Work(pending[..|pending| - 1]) + 1 + Weights(pending[|pending| - 1].entries)
  }

  lemma {:induction false} WeightsInsert(e: Entry, entries: seq<Entry>)
    ensures Weights(Insert(e, entries, BY_NAME)) == Weight(e) + Weights(entries)
    decreases |entries|
  {
    if entries == [] || Less(e.name, entries[0].name) {
      assert ([e] + entries)[1..] == entries;
    } else {
      var rest := Insert(e, entries[1..], BY_NAME);
      assert ([entries[0]] + rest)[1..] == rest;
      WeightsInsert(e, entries[1..]);
    }
  }

  lemma {:induction false} WeightsAppend(a: seq<Entry>, b: seq<Entry>)
    ensures Weights(a + b) == Weights(a) + Weights(b)
    decreases |a|
  {
    if a == [] {
      assert a + b == b;
    } else {
      assert (a + b)[0] == a[0] && (a + b)[1..] == a[1..] + b;
      WeightsAppend(a[1..], b);
    }
  }

  lemma {:induction false} WeightsSort(entries: seq<Entry>)
    ensures Weights(SortBy(entries, BY_NAME)) == Weights(entries)
    decreases |entries|
  {
    if entries != [] {
      var n := |entries| - 1;
      WeightsSort(entries[..n]);
      WeightsInsert(entries[n], SortBy(entries[..n], BY_NAME));
      WeightsAppend(entries[..n], [entries[n]]);
      assert entries == entries[..n] + [entries[n]];
      assert Weights([entries[n]]) == Weight(entries[n]);
    }
  }

  // What one entry adds: something found, or a directory to visit, or nothing.
  lemma EntryStep(ordered: seq<Entry>, i: nat, at: Path)
    requires i < |ordered|
    ensures Listing(ordered[..i + 1], at) == Listing(ordered[..i], at) + Of(ordered[i], at)
    ensures Weights(ordered[..i + 1]) == Weights(ordered[..i]) + Weight(ordered[i])
  {
    assert ordered[..i + 1] == ordered[..i] + [ordered[i]];
    ListingAppend(ordered[..i], [ordered[i]], at);
    WeightsAppend(ordered[..i], [ordered[i]]);
    assert Listing([ordered[i]], at) == Of(ordered[i], at);
    assert Weights([ordered[i]]) == Weight(ordered[i]);
  }

  // One entry: a file or a link is yielded, a directory is left pending.
  method VisitEntry(e: Entry, at: Path, below: seq<Pending>) returns (yielded: seq<Found>, pending: seq<Pending>)
    ensures multiset(yielded) + Remaining(pending) == Of(e, at) + Remaining(below)
    ensures Work(pending) <= Work(below) + Weight(e)
  {
    var path := at + [e.name];
    yielded, pending := [], below;
    match e.node
    case Symlink(target) => yielded := [Found(path, SymlinkFound(target))];
    case Directory(entries) =>
      if e.name !in IGNORED {
        pending := below + [Pending(path, entries)];
        assert pending[..|pending| - 1] == below;
      }
    case File(content) => yielded := [Found(path, FileFound(content))];
    case Special =>
  }

  lemma Regroup(y: multiset<Found>, p: multiset<Found>, rest: multiset<Found>, o: multiset<Found>,
                all: multiset<Found>, y': multiset<Found>, p': multiset<Found>)
    requires y + p + (rest + o) == all && y' + p' == o + p
    ensures (y + y') + p' + rest == all
  {
    assert (y + y') + p' + rest == y + (y' + p') + rest;
  }

  // One directory, its entries in reverse order of their names.
  method VisitDirectory(dir: Pending, below: seq<Pending>) returns (yielded: seq<Found>, pending: seq<Pending>)
    ensures multiset(yielded) + Remaining(pending) == Remaining(below) + Listing(dir.entries, dir.path)
    ensures Work(pending) <= Work(below) + Weights(dir.entries)
  {
    ListingSort(dir.entries, dir.path);
    WeightsSort(dir.entries);
    var ordered := SortBy(dir.entries, BY_NAME);
    ghost var all := Remaining(below) + Listing(ordered, dir.path);
    yielded, pending := [], below;
    var i := |ordered|;
    assert ordered[..i] == ordered;
    while i > 0
      invariant 0 <= i <= |ordered|
      invariant multiset(yielded) + Remaining(pending) + Listing(ordered[..i], dir.path) == all
      invariant Work(pending) + Weights(ordered[..i]) <= Work(below) + Weights(ordered)
    {
      i := i - 1;
      EntryStep(ordered, i, dir.path);
      var found, next := VisitEntry(ordered[i], dir.path, pending);
      Regroup(multiset(yielded), Remaining(pending), Listing(ordered[..i], dir.path),
              Of(ordered[i], dir.path), all, multiset(found), Remaining(next));
      yielded, pending := yielded + found, next;
    }
  }

  // The walk finds everything there is to find, each thing once.
  method WalkEntries(root: seq<Entry>) returns (found: seq<Found>)
    ensures multiset(found) == Listing(root, [])
  {
    found := [];
    var pending := [Pending([], root)];
    assert pending[..0] == [];
    while pending != []
      invariant multiset(found) + Remaining(pending) == Listing(root, [])
      decreases Work(pending)
    {
      var last := |pending| - 1;
      var yielded, next := VisitDirectory(pending[last], pending[..last]);
      found, pending := found + yielded, next;
    }
  }

  // ----- What is found -----

  // A file or a link lies at the end of the path, and every directory on the way is one that is visited.
  ghost predicate Reaches(entries: seq<Entry>, path: Path, kind: Kind)
    decreases |path|
  {
    exists i | 0 <= i < |entries| :: LeadsTo(entries[i], path, kind)
  }

  ghost predicate LeadsTo(e: Entry, path: Path, kind: Kind)
    decreases |path|, 0
  {
    && path != [] && e.name == path[0]
    && if |path| == 1 then
         (e.node.File? && kind == FileFound(e.node.content)) || (e.node.Symlink? && kind == SymlinkFound(e.node.target))
       else
         && e.node.Directory? && Reaches(e.node.entries, path[1..], kind)
         && e.name !in {".git", ".venv", "node_modules", "vendor", "dist", "build", "__pycache__", ".next"}
  }

  // Exactly that is found.
  lemma {:induction false} FoundExactly(entries: seq<Entry>, at: Path, f: Found)
    ensures f in Listing(entries, at) <==> at <= f.path && Reaches(entries, f.path[|at|..], f.kind)
    decreases entries
  {
    if entries != [] {
      OfExactly(entries[0], at, f);
      FoundExactly(entries[1..], at, f);
      if at <= f.path { ReachesFirstOrLater(entries, f.path[|at|..], f.kind); }
    }
  }

  lemma ReachesFirstOrLater(entries: seq<Entry>, path: Path, kind: Kind)
    requires entries != []
    ensures Reaches(entries, path, kind) <==> LeadsTo(entries[0], path, kind) || Reaches(entries[1..], path, kind)
  {
    assert forall i | 0 <= i < |entries[1..]| :: entries[1..][i] == entries[i + 1];
    if i: nat :| i < |entries| && LeadsTo(entries[i], path, kind) {
      if i > 0 { assert LeadsTo(entries[1..][i - 1], path, kind); }
    }
    if i: nat :| i < |entries[1..]| && LeadsTo(entries[1..][i], path, kind) {
      assert LeadsTo(entries[i + 1], path, kind);
    }
  }

  lemma {:induction false} OfExactly(e: Entry, at: Path, f: Found)
    ensures f in Of(e, at) <==> at <= f.path && LeadsTo(e, f.path[|at|..], f.kind)
    decreases e
  {
    var path := at + [e.name];
    match e.node
    case Directory(entries) =>
      FoundExactly(entries, path, f);
      if path <= f.path {
        assert f.path[|at|..][1..] == f.path[|path|..];
        assert f.path[|at|..][0] == e.name;
      }
      if at <= f.path && LeadsTo(e, f.path[|at|..], f.kind) {
        assert f.path[..|path|] == path;
      }
    case _ => LeafExactly(e, at, f);
  }

  lemma LeafExactly(e: Entry, at: Path, f: Found)
    requires !e.node.Directory?
    ensures f in Of(e, at) <==> at <= f.path && LeadsTo(e, f.path[|at|..], f.kind)
  {
    var path := at + [e.name];
    assert at <= path && path[|at|..] == [e.name];
    if at <= f.path && LeadsTo(e, f.path[|at|..], f.kind) {
      assert f.path == at + f.path[|at|..] && f.path[|at|..] == [e.name];
    }
  }

  // ----- Nothing is found twice -----

  // File names: neither empty nor "." or "..", without a slash, and different within one directory.
  ghost predicate ProperNames(entries: seq<Entry>)
    decreases entries
  {
    && (forall i, j | 0 <= i < j < |entries| :: entries[i].name != entries[j].name)
    && (forall i | 0 <= i < |entries| ::
          entries[i].name !in {"", ".", ".."} && '/' !in entries[i].name &&
          (entries[i].node.Directory? ==> ProperNames(entries[i].node.entries)))
  }

  // What a file system holds below a directory.
  type Root = entries: seq<Entry> | ProperNames(entries)

  ghost predicate ProperPath(p: Path) {
    forall i | 0 <= i < |p| :: '/' !in p[i] && p[i] !in {"", ".", ".."}
  }

  // Everything found under an entry has a path that goes through it.
  lemma {:induction false} FoundUnder(e: Entry, at: Path, f: Found)
    requires f in Of(e, at) && ProperPath(at) && ProperNames([e])
    ensures |f.path| > |at| && f.path[..|at|] == at && f.path[|at|] == e.name && ProperPath(f.path)
    decreases e
  {
    var path := at + [e.name];
    assert [e][0] == e;
    match e.node
    case Directory(entries) =>
      assert ProperPath(path);
      var i := FoundIn(entries, path, f);
      assert f.path[..|at|] == f.path[..|path|][..|at|];
    case File(_) =>
    case Symlink(_) =>
    case Special =>
  }

  lemma {:induction false} FoundIn(entries: seq<Entry>, at: Path, f: Found) returns (i: nat)
    requires f in Listing(entries, at) && ProperPath(at) && ProperNames(entries)
    ensures i < |entries| && f in Of(entries[i], at)
    ensures |f.path| > |at| && f.path[..|at|] == at && f.path[|at|] == entries[i].name && ProperPath(f.path)
    decreases entries
  {
    if f in Of(entries[0], at) {
      i := 0;
      FoundUnder(entries[0], at, f);
    } else {
      i := FoundIn(entries[1..], at, f);
      i := i + 1;
    }
  }

  // Each path is found at most once.
  ghost predicate OncePerPath(m: multiset<Found>) {
    && (forall f | f in m :: m[f] == 1)
    && (forall f, g | f in m && g in m && f.path == g.path :: f == g)
  }

  lemma {:induction false} OfOnce(e: Entry, at: Path)
    requires ProperPath(at) && ProperNames([e])
    ensures OncePerPath(Of(e, at))
    decreases e
  {
    assert [e][0] == e;
    if e.node.Directory? && e.name !in IGNORED {
      assert ProperPath(at + [e.name]);
      ListingOnce(e.node.entries, at + [e.name]);
    }
  }

  lemma {:induction false} ListingOnce(entries: seq<Entry>, at: Path)
    requires ProperPath(at) && ProperNames(entries)
    ensures OncePerPath(Listing(entries, at))
    decreases entries
  {
    if entries != [] {
      var first, rest := Of(entries[0], at), Listing(entries[1..], at);
      OfOnce(entries[0], at);
      ListingOnce(entries[1..], at);
      forall f, g | f in first && g in rest ensures f.path != g.path {
        FoundUnder(entries[0], at, f);
        var i := FoundIn(entries[1..], at, g);
      }
      DisjointOnce(first, rest);
    }
  }

  lemma DisjointOnce(a: multiset<Found>, b: multiset<Found>)
    requires OncePerPath(a) && OncePerPath(b)
    requires forall f, g | f in a && g in b :: f.path != g.path
    ensures OncePerPath(a + b)
  {
    forall f | f in a + b ensures (a + b)[f] == 1 {
      if f in a { assert f !in b; }
    }
  }

  // ----- The order of the scan does not matter -----

  const BY_PATH: Found -> string := (f: Found) => Join(f.path, '/')

  lemma SamePathSameFound(entries: seq<Entry>, f: Found, g: Found)
    requires ProperNames(entries) && f in Listing(entries, []) && g in Listing(entries, [])
    requires BY_PATH(f) == BY_PATH(g)
    ensures f == g
  {
    ListingOnce(entries, []);
    var i := FoundIn(entries, [], f);
    var j := FoundIn(entries, [], g);
    assert forall p | p in f.path :: '/' !in p;
    assert forall p | p in g.path :: '/' !in p;
    SplitJoin(f.path, '/');
    SplitJoin(g.path, '/');
  }

  // The same files, links and directories, each directory listed in whatever order.
  ghost predicate SameEntry(a: Entry, b: Entry)
    decreases a, 0
  {
    && a.name == b.name
    && if a.node.Directory? then b.node.Directory? && SameEntries(a.node.entries, b.node.entries)
       else a.node == b.node
  }

  ghost predicate SameEntries(a: seq<Entry>, b: seq<Entry>)
    decreases a, 1
  {
    && (forall i | 0 <= i < |a| :: HasCopy(a[i], b))
    && (forall j | 0 <= j < |b| :: IsCopy(a, b[j]))
  }

  ghost predicate HasCopy(e: Entry, b: seq<Entry>)
    decreases e, 1
  {
    exists j | 0 <= j < |b| :: SameEntry(e, b[j])
  }

  ghost predicate IsCopy(a: seq<Entry>, e: Entry)
    decreases a, 0
  {
    exists i | 0 <= i < |a| :: SameEntry(a[i], e)
  }

  lemma {:induction false} EntryIsItself(e: Entry)
    ensures SameEntry(e, e)
    decreases e
  {
    if e.node.Directory? { EntriesAreThemselves(e.node.entries); }
  }

  lemma {:induction false} EntriesAreThemselves(entries: seq<Entry>)
    ensures SameEntries(entries, entries)
    decreases entries
  {
    forall i | 0 <= i < |entries| ensures HasCopy(entries[i], entries) && IsCopy(entries, entries[i]) {
      EntryIsItself(entries[i]);
    }
  }

  lemma {:induction false} CopyLeads(a: Entry, b: Entry, path: Path, kind: Kind)
    requires SameEntry(a, b)
    ensures LeadsTo(a, path, kind) <==> LeadsTo(b, path, kind)
    decreases |path|, 0
  {
    if |path| > 1 && a.node.Directory? { SameReach(a.node.entries, b.node.entries, path[1..], kind); }
  }

  lemma {:induction false} SameReach(a: seq<Entry>, b: seq<Entry>, path: Path, kind: Kind)
    requires SameEntries(a, b)
    ensures Reaches(a, path, kind) <==> Reaches(b, path, kind)
    decreases |path|, 1
  {
    if i: nat :| i < |a| && LeadsTo(a[i], path, kind) {
      assert HasCopy(a[i], b);
      var j: nat :| j < |b| && SameEntry(a[i], b[j]);
      CopyLeads(a[i], b[j], path, kind);
    }
    if j: nat :| j < |b| && LeadsTo(b[j], path, kind) {
      assert IsCopy(a, b[j]);
      var i: nat :| i < |a| && SameEntry(a[i], b[j]);
      CopyLeads(a[i], b[j], path, kind);
    }
  }

  lemma SameFound(a: seq<Entry>, b: seq<Entry>, f: Found)
    requires SameEntries(a, b)
    ensures f in Listing(a, []) <==> f in Listing(b, [])
  {
    FoundExactly(a, [], f);
    FoundExactly(b, [], f);
    SameReach(a, b, f.path[0..], f.kind);
  }

  lemma SameOnce(m: multiset<Found>, n: multiset<Found>)
    requires OncePerPath(m) && OncePerPath(n) && forall f :: f in m <==> f in n
    ensures m == n
  {
    forall f ensures m[f] == n[f] {
      if f in m { assert f in n; }
    }
  }

  lemma SameListing(a: seq<Entry>, b: seq<Entry>)
    requires ProperNames(a) && ProperNames(b) && SameEntries(a, b)
    ensures Listing(a, []) == Listing(b, [])
  {
    ListingOnce(a, []);
    ListingOnce(b, []);
    forall f ensures f in Listing(a, []) <==> f in Listing(b, []) { SameFound(a, b, f); }
    SameOnce(Listing(a, []), Listing(b, []));
  }

  // Everything there is to find, in order of its path.
  ghost predicate SortedListing(root: seq<Entry>, sorted: seq<Found>) {
    multiset(sorted) == Listing(root, []) && Ordered(sorted, BY_PATH)
  }

  // A tree has one sorted listing, in whatever order the file system lists its directories.
  lemma ScanOrderIsIrrelevant(root: seq<Entry>, root': seq<Entry>, sorted: seq<Found>, sorted': seq<Found>)
    requires ProperNames(root) && ProperNames(root') && SameEntries(root, root')
    requires SortedListing(root, sorted) && SortedListing(root', sorted')
    ensures sorted == sorted'
  {
    SameListing(root, root');
    forall f, g | f in Listing(root, []) && g in Listing(root, []) && BY_PATH(f) == BY_PATH(g) ensures f == g {
      SamePathSameFound(root, f, g);
    }
    SortedIsUnique(sorted, sorted', BY_PATH);
  }

  // That sorted listing.
  ghost function InPathOrder(root: seq<Entry>): seq<Found> {
    if exists sorted: seq<Found> :: SortedListing(root, sorted)
    then var sorted: seq<Found> :| SortedListing(root, sorted); sorted
    else []
  }

  lemma SortedListingIs(root: Root, sorted: seq<Found>)
    requires SortedListing(root, sorted)
    ensures InPathOrder(root) == sorted
  {
    EntriesAreThemselves(root);
    ScanOrderIsIrrelevant(root, root, InPathOrder(root), sorted);
  }

  // Walk, and sort by path.
  method SortedEntries(root: seq<Entry>) returns (sorted: seq<Found>)
    ensures SortedListing(root, sorted)
  {
    var found := WalkEntries(root);
    SortPermutes(found, BY_PATH);
    SortOrders(found, BY_PATH);
    sorted := SortBy(found, BY_PATH);
  }

  lemma CountedTwice<T>(xs: seq<T>, i: nat, j: nat)
    requires i < j < |xs| && xs[i] == xs[j]
    ensures multiset(xs)[xs[i]] >= 2
  {
    assert xs == xs[..j] + xs[j..];
    assert xs[..j][i] == xs[i] && xs[j..][0] == xs[i];
  }

  // Different entries of a sorted listing have different paths.
  lemma SortedPathsDiffer(root: Root, sorted: seq<Found>, i: nat, j: nat)
    requires SortedListing(root, sorted) && i < j < |sorted|
    ensures BY_PATH(sorted[i]) != BY_PATH(sorted[j])
  {
    ListingOnce(root, []);
    assert sorted[i] in multiset(sorted) && sorted[j] in multiset(sorted);
    if BY_PATH(sorted[i]) == BY_PATH(sorted[j]) {
      SamePathSameFound(root, sorted[i], sorted[j]);
      CountedTwice(sorted, i, j);
    }
  }

  // The names of a path that was found.
  lemma SortedPathIsProper(root: Root, sorted: seq<Found>, i: nat)
    requires SortedListing(root, sorted) && i < |sorted|
    ensures ProperPath(sorted[i].path) && sorted[i].path != []
  {
    assert sorted[i] in multiset(sorted);
    var k := FoundIn(root, [], sorted[i]);
  }

  // ----- The fingerprint -----

  datatype Fingerprint = Fingerprint(stream: seq<string>, files: nat, bytes: nat, links: nat)

  function Files(found: seq<Found>): nat {
    if found == [] then 0
    else Files(found[..|found| - 1]) + if found[|found| - 1].kind.FileFound? then 1 else 0
  }

  function Bytes(found: seq<Found>): nat {
    if found == [] then 0
    else
      var kind := found[|found| - 1].kind;
      Bytes(found[..|found| - 1]) + if kind.FileFound? then |kind.content| else 0
  }

  function Links(found: seq<Found>): nat {
    if found == [] then 0
    else Links(found[..|found| - 1]) + if found[|found| - 1].kind.SymlinkFound? then 1 else 0
  }

  // What is fed to the digest: kind and path of each entry, and a file's contents or a link's target.
  function Stream(found: seq<Found>): seq<string> {
    if found == [] then []
    else
      var last := found[|found| - 1];
      Stream(found[..|found| - 1]) +
      match last.kind
      case FileFound(content) => ["file", BY_PATH(last), content]
      case SymlinkFound(target) => ["symlink", BY_PATH(last), target]
  }

  lemma {:induction false} CountsGrow(found: seq<Found>, n: nat)
    requires n <= |found|
    ensures Files(found[..n]) <= Files(found) && Bytes(found[..n]) <= Bytes(found)
    decreases |found|
  {
    if n < |found| {
      var front := found[..|found| - 1];
      assert front[..n] == found[..n];
      CountsGrow(front, n);
    } else {
      assert found[..n] == found;
    }
  }

  // The fingerprint of a sorted listing, unless it is over a limit.
  function FingerprintOf(sorted: seq<Found>, maxFiles: nat, maxBytes: nat): Option<Fingerprint> {
    if Files(sorted) <= maxFiles && Bytes(sorted) <= maxBytes
    then Some(Fingerprint(Stream(sorted), Files(sorted), Bytes(sorted), Links(sorted)))
    else None
  }

  ghost function Places(found: seq<Found>, links: bool): set<int> {
    set i | 0 <= i < |found| && found[i].kind.SymlinkFound? == links
  }

  lemma PlacesUpTo(found: seq<Found>, links: bool)
    requires found != []
    ensures var n := |found| - 1;
      |Places(found, links)| ==
        |Places(found[..n], links)| + if found[n].kind.SymlinkFound? == links then 1 else 0
  {
    var n := |found| - 1;
    if found[n].kind.SymlinkFound? == links {
      assert Places(found, links) == Places(found[..n], links) + {n};
    } else {
      assert Places(found, links) == Places(found[..n], links);
    }
  }

  // The counts are the numbers of places that hold a file and that hold a link.
  lemma {:induction false} CountsMean(found: seq<Found>)
    ensures Files(found) == |Places(found, false)| && Links(found) == |Places(found, true)|
    decreases |found|
  {
    if found == [] {
      assert Places(found, false) == {} && Places(found, true) == {};
    } else {
      PlacesUpTo(found, false);
      PlacesUpTo(found, true);
      CountsMean(found[..|found| - 1]);
    }
  }

  // Counts as it goes and stops at the first entry over a limit, which happens exactly when the
  // whole listing is over one.
  method FingerprintSorted(sorted: seq<Found>, maxFiles: nat, maxBytes: nat) returns (r: Option<Fingerprint>)
    ensures r == FingerprintOf(sorted, maxFiles, maxBytes)
    ensures r.Some? <==> Files(sorted) <= maxFiles && Bytes(sorted) <= maxBytes
    ensures r.Some? ==>
      && r.value.files == |Places(sorted, false)| && r.value.links == |Places(sorted, true)|
      && r.value.bytes == Bytes(sorted) && r.value.stream == Stream(sorted)
  {
    CountsMean(sorted);
    var stream: seq<string>, files: nat, bytes: nat, links: nat := [], 0, 0, 0;
    for i := 0 to |sorted|
      invariant stream == Stream(sorted[..i]) && files == Files(sorted[..i]) <= maxFiles
      invariant bytes == Bytes(sorted[..i]) <= maxBytes && links == Links(sorted[..i])
    {
      var f := sorted[i];
      CountsGrow(sorted, i + 1);
      assert sorted[..i + 1][..i] == sorted[..i];
      match f.kind {
        case SymlinkFound(target) =>
          stream := stream + ["symlink", BY_PATH(f), target];
          links := links + 1;
        case FileFound(content) =>
          files := files + 1;
          if files > maxFiles { return None; }
          bytes := bytes + |content|;
          if bytes > maxBytes { return None; }
          stream := stream + ["file", BY_PATH(f), content];
      }
    }
    assert sorted[..|sorted|] == sorted;
    return Some(Fingerprint(stream, files, bytes, links));
  }

  method WorkspaceFingerprint(root: seq<Entry>, maxFiles: nat, maxBytes: nat) returns (r: Option<Fingerprint>)
    ensures exists sorted: seq<Found> ::
      SortedListing(root, sorted) && r == FingerprintOf(sorted, maxFiles, maxBytes)
  {
    var sorted := SortedEntries(root);
    r := FingerprintSorted(sorted, maxFiles, maxBytes);
  }
}
