// A patch the sandbox worker has agreed to execute can be published: the worker's own checks rule
// out everything the publisher would refuse in its artifact but the length of the text.
module Executed {
  import opened Artifacts
  import opened Options
  import opened Paths
  import opened Policy
  import opened Requests
  import opened Verification

  // The worker sees the edits under their normalized paths, and leaves those alone.
  lemma WorkerSeesNormalizedPaths(worker: WorkerSide, g: Generation, i: nat)
    requires Concludes(g) && i < |g.inputs.edits|
    requires NormalizeWorker(worker.lower, RequestOf(g).edits[i].path).Some?
    ensures NormalizeTrusted(g.inputs.env.lower, g.inputs.edits[i].path) == Some(RequestOf(g).edits[i].path)
    ensures NormalizeWorker(worker.lower, RequestOf(g).edits[i].path) == Some(RequestOf(g).edits[i].path)
  {
    assert g.inputs.edits[i] in g.inputs.edits && EditAllowed(g.inputs.env, g.inputs.edits[i]);
    WorkerPathsAreTrusted(worker.lower, RequestOf(g).edits[i].path);
  }

  lemma ExecutedPathsAreDistinct(worker: WorkerSide, g: Generation)
    requires Concludes(g) && WorkerAccepts(worker, RequestOf(g))
    ensures DistinctNormalized(g.inputs.env.lower, g.inputs.edits) && 1 <= |g.inputs.edits| <= 100
  {
    var uploads := RequestOf(g).edits;
    assert |uploads| == |g.inputs.edits|;
    forall i, j | 0 <= i < j < |g.inputs.edits|
      ensures NormalizeTrusted(g.inputs.env.lower, g.inputs.edits[i].path) !=
                NormalizeTrusted(g.inputs.env.lower, g.inputs.edits[j].path)
    {
      WorkerSeesNormalizedPaths(worker, g, i);
      WorkerSeesNormalizedPaths(worker, g, j);
    }
  }

  // So its artifact loads as exactly the executed patch, unless the text is too long.
  lemma ExecutedPatchesLoad(worker: WorkerSide, hash: Hash, g: Generation)
    requires Concludes(g) && WorkerAccepts(worker, RequestOf(g))
    ensures var text := Render(CanonicalPatch(g));
      LoadPublicationEdits(g.inputs.env.lower, hash, text, hash(text)) ==
        if |text| <= MAX_ARTIFACT_BYTES then Some(CanonicalPatch(g)) else None
    ensures multiset(RequestOf(g).edits) == multiset(Files(CanonicalPatch(g)))
  {
    ExecutedPathsAreDistinct(worker, g);
    AcceptedArtifactLoads(g.inputs.env, hash, g.inputs.edits, Argvs(g.inputs.commands));
    VerifiedFilesArePublished(g);
  }
}
