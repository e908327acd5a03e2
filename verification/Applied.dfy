// An accepted patch on the tree it was validated against: every edit of it fits there, and what is
// published is that tree with exactly the proposed edits.
module Applied {
  import opened Convergence
  import opened Executed
  import opened Git
  import opened Options
  import opened Artifacts
  import opened Paths
  import opened Policy
  import opened Remote
  import opened Requests
  import opened Text
  import opened Verification

  // The checkout the policy looks at is the tree: where it sees nothing there is nothing, where it sees
  // a regular file there is one with those contents, and a symbolic link is no file.
  ghost predicate Sees(env: Environment, hash: Hash, base: Tree) {
    forall p {:trigger env.root(p)} ::
      match env.root(p)
      case Absent => p !in base
      case RegularFile(sha256) =>
        p in base && base[p].mode in {"100644", "100755"} && hash(base[p].content) == sha256
      case SymbolicLink => p in base && base[p].mode == "120000"
      case Elsewhere => true
  }

  // What an edit that was accepted under a path finds there.
  lemma AcceptableFits(env: Environment, hash: Hash, base: Tree, e: Edit, path: string)
    requires Sees(env, hash, base) && Acceptable(env, e) && NormalizeTrusted(env.lower, e.path) == Some(path)
    ensures e.expected.Some? <==> path in base
    ensures path in base ==>
      base[path].mode in {"100644", "100755"} && e.expected == Some(hash(base[path].content))
  {
    assert env.root(path) == env.root(path);
  }

  // Where a canonical edit comes from.
  lemma OriginOf(lower: Lowering, edits: seq<Edit>, canonical: seq<Edit>, j: nat) returns (i: nat)
    requires CanonicalFor(lower, edits, canonical) && j < |canonical|
    ensures i < |edits| && Becomes(lower, edits[i], canonical[j])
  {
    var ordered: seq<Edit> :| InSubmittedOrder(edits, ordered) && AllBecome(lower, ordered, canonical);
    assert Becomes(lower, ordered[j], canonical[j]);
    assert ordered[j] in multiset(ordered) && ordered[j] in multiset(edits);
    i :| i < |edits| && edits[i] == ordered[j];
  }

  // Where an edit goes to.
  lemma DestinationOf(lower: Lowering, edits: seq<Edit>, canonical: seq<Edit>, i: nat) returns (j: nat)
    requires CanonicalFor(lower, edits, canonical) && i < |edits|
    ensures j < |canonical| && Becomes(lower, edits[i], canonical[j])
  {
    var ordered: seq<Edit> :| InSubmittedOrder(edits, ordered) && AllBecome(lower, ordered, canonical);
    assert edits[i] in multiset(edits) && edits[i] in multiset(ordered);
    j :| j < |ordered| && ordered[j] == edits[i];
    assert Becomes(lower, ordered[j], canonical[j]);
  }

  // Every edit of an accepted proposal fits the tree that the policy saw, in its canonical form, and
  // one that replaces a file has declared the digest of what it replaces.
  lemma AcceptedEditsFit(env: Environment, hash: Hash, base: Tree, edits: seq<Edit>, commands: seq<seq<string>>,
                         canonical: seq<Edit>)
    requires Sees(env, hash, base) && ProposalAcceptable(env, edits, commands)
    requires CanonicalFor(env.lower, edits, canonical)
    ensures EditsFit(base, canonical)
    ensures forall j | 0 <= j < |canonical| && canonical[j].path in base ::
      canonical[j].expected == Some(hash(base[canonical[j].path].content))
  {
    forall j | 0 <= j < |canonical|
      ensures canonical[j].expected.Some? <==> canonical[j].path in base
      ensures canonical[j].path in base ==>
        base[canonical[j].path].mode in {"100644", "100755"} &&
        canonical[j].expected == Some(hash(base[canonical[j].path].content))
    {
      var i := OriginOf(env.lower, edits, canonical, j);
      AcceptableFits(env, hash, base, edits[i], canonical[j].path);
    }
  }

  lemma ConcludedIsAcceptable(g: Generation)
    requires Concludes(g)
    ensures ProposalAcceptable(g.inputs.env, g.inputs.edits, Argvs(g.inputs.commands))
    ensures CanonicalFor(g.inputs.env.lower, g.inputs.edits, CanonicalPatch(g))
  {
    AcceptedExactly(g.inputs.env, g.inputs.edits, Argvs(g.inputs.commands));
    AcceptedIsCanonical(g.inputs.env, g.inputs.edits, Argvs(g.inputs.commands));
  }

  // So the patch of a generation that was checked out from its own snapshot never stands in the way of
  // its publication.
  lemma ConcludedPatchesFit(g: Generation, hash: Hash)
    requires Concludes(g) && Sees(g.inputs.env, hash, g.inputs.base.tree)
    ensures EditsFit(g.inputs.base.tree, CanonicalPatch(g))
  {
    ConcludedIsAcceptable(g);
    AcceptedEditsFit(g.inputs.env, hash, g.inputs.base.tree, g.inputs.edits, Argvs(g.inputs.commands),
                     CanonicalPatch(g));
  }

  // The proposed edit of a path, under the name it normalizes to.
  ghost predicate Proposes(lower: Lowering, edits: seq<Edit>, i: int, p: string) {
    0 <= i < |edits| && NormalizeTrusted(lower, edits[i].path) == Some(p)
  }

  // The tree is the base with the proposed edits: a path one of them is of has its content, under the
  // mode it had or as a regular file, and every other path is as it was, unless it makes way.
  ghost predicate HasExactly(lower: Lowering, edits: seq<Edit>, base: Tree, t: Tree, p: string) {
    && (forall i | Proposes(lower, edits, i, p) ::
          p in t && t[p].content == edits[i].content &&
          t[p].mode == if p in base then base[p].mode else "100644")
    && ((forall i :: !Proposes(lower, edits, i, p)) ==>
          && (p in t ==> p in base && t[p] == base[p])
          && (p in base && p !in t ==>
                exists i, q :: Proposes(lower, edits, i, q) && (p + "/" <= q || q + "/" <= p)))
  }

  lemma EditedExactly(lower: Lowering, edits: seq<Edit>, canonical: seq<Edit>, p: string)
    requires CanonicalFor(lower, edits, canonical)
    ensures Edited(canonical, p) <==> exists i :: Proposes(lower, edits, i, p)
    ensures MakesWay(canonical, p) ==> exists i, q :: Proposes(lower, edits, i, q) && Clash(p, q)
  {
    if Edited(canonical, p) {
      var j: nat :| j < |canonical| && canonical[j].path == p;
      var i := OriginOf(lower, edits, canonical, j);
      assert Proposes(lower, edits, i, p);
    }
    if i :| Proposes(lower, edits, i, p) {
      var j := DestinationOf(lower, edits, canonical, i);
      assert canonical[j].path == p;
    }
    if MakesWay(canonical, p) {
      var j: nat :| j < |canonical| && Clash(p, canonical[j].path);
      var i := OriginOf(lower, edits, canonical, j);
      assert Proposes(lower, edits, i, canonical[j].path) && Clash(p, canonical[j].path);
    }
  }

  lemma CanonicalPathsDiffer(lower: Lowering, edits: seq<Edit>, canonical: seq<Edit>)
    requires CanonicalFor(lower, edits, canonical) && DistinctNormalized(lower, edits)
    ensures DistinctPaths(canonical)
  {
    var ordered: seq<Edit> :| InSubmittedOrder(edits, ordered) && AllBecome(lower, ordered, canonical);
    PermutedDistinctness(lower, edits, ordered);
    forall i, j | 0 <= i < j < |canonical| ensures canonical[i].path != canonical[j].path {
      assert Becomes(lower, ordered[i], canonical[i]) && Becomes(lower, ordered[j], canonical[j]);
    }
  }

  // Edits whose paths normalize to different ones, none of them a directory on the way to another, are
  // published just as they were proposed.
  lemma ProposedIsPublished(lower: Lowering, edits: seq<Edit>, canonical: seq<Edit>, base: Tree, p: string)
    requires CanonicalFor(lower, edits, canonical)
    requires DistinctNormalized(lower, edits) && NoClashes(canonical)
    ensures HasExactly(lower, edits, base, Overlay(base, canonical), p)
  {
    OverlayMeans(base, canonical, p);
    EditedExactly(lower, edits, canonical, p);
    CanonicalPathsDiffer(lower, edits, canonical);
    forall i | Proposes(lower, edits, i, p)
      ensures var t := Overlay(base, canonical);
        p in t && t[p].content == edits[i].content && t[p].mode == if p in base then base[p].mode else "100644"
    {
      var j := DestinationOf(lower, edits, canonical, i);
      ProperEditsArePlaced(base, canonical, j);
    }
  }

  // So the commit of an executed patch has the files of the proposal in the verified snapshot.
  lemma ExecutedIsPublished(worker: WorkerSide, g: Generation, p: string)
    requires Concludes(g) && WorkerAccepts(worker, RequestOf(g)) && NoClashes(CanonicalPatch(g))
    ensures HasExactly(g.inputs.env.lower, g.inputs.edits, g.inputs.base.tree,
                       Overlay(g.inputs.base.tree, CanonicalPatch(g)), p)
  {
    ExecutedPathsAreDistinct(worker, g);
    ConcludedIsAcceptable(g);
    ProposedIsPublished(g.inputs.env.lower, g.inputs.edits, CanonicalPatch(g), g.inputs.base.tree, p);
  }
}
