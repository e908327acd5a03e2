// What the trusted side builds, and what the worker makes of it: the only requests it refuses are ones
// that are too long, or that have a path it denies, two edits of one path, or an argument that is too
// long for it alone.
module Handover {
  import opened Artifacts
  import opened Git
  import opened Options
  import opened Paths
  import opened Policy
  import opened Proposals
  import opened Requests
  import opened Sandbox
  import opened Sorting
  import opened Text
  import opened Transactions
  import opened Upload
  import opened Verification
  import Workspace

  // ----- Commands -----

  // Both sides spell identifiers alike.
  lemma SameIdentifiers(id: string)
    ensures IdFits(id) <==> IdOk(id)
  {
    forall c: char
      ensures IdStart(c) || c == '_' || c == '-' <==> c in "abcdefghijklmnopqrstuvwxyz0123456789_-"
      ensures IdStart(c) ==> c !in "_-"
    {
      SameCharacter(c);
    }
    assert forall i | 0 <= i < |id| :: id[i] in id;
  }

  lemma SameCharacter(c: char)
    ensures IdStart(c) || c == '_' || c == '-' <==> c in "abcdefghijklmnopqrstuvwxyz0123456789_-"
    ensures IdStart(c) ==> c !in "_-"
  {
    var letters, digits := "abcdefghijklmnopqrstuvwxyz", "0123456789";
    assert forall k | 0 <= k < 26 :: letters[k] as int == 97 + k;
    assert forall k | 0 <= k < 10 :: digits[k] as int == 48 + k;
    if 'a' <= c <= 'z' { assert letters[c as int - 97] == c; }
    if '0' <= c <= '9' { assert digits[c as int - 48] == c; }
    assert "abcdefghijklmnopqrstuvwxyz0123456789_-" == letters + digits + "_-";
  }

  // No argument is longer than 500 of the units the worker counts in.
  ghost predicate Countable(argv: seq<string>) {
    forall i | 0 <= i < |argv| :: Units(argv[i]) <= 500
  }

  // Of the commands that the models and the policy accept, the worker takes exactly those; and it takes
  // no others but ones of another kind.
  lemma ChecksFitExactly(check: CheckRequest)
    ensures CheckFits(check) && check.kind in KINDS <==>
      CommandOk(check) && CommandAllowed(check.argv) && Countable(check.argv)
  {
    SameIdentifiers(check.id);
    forall i | 0 <= i < |check.argv|
      ensures ArgumentFits(check.argv[i]) <==> ArgumentAllowed(check.argv[i]) && Units(check.argv[i]) <= 500
    {
      UnitsAtLeast(check.argv[i]);
    }
  }

  // ----- Files and edits -----

  lemma FilesFitExactly(env: Environment, worker: Lowering, root: Workspace.Root)
    ensures FilesFit(worker, BundleOf(env, root)) <==>
      forall f | f in BundleOf(env, root) :: !Refused(worker, f.path)
  {
    var listing := SomeListing(root);
    BundleIsAccepted(env, worker, root, listing);
  }

  // There is a sorted listing of every workspace.
  lemma SomeListing(root: Workspace.Root) returns (listing: seq<Workspace.Found>)
    ensures Workspace.SortedListing(root, listing) && listing == Workspace.InPathOrder(root)
  {
    var found := Elements(Workspace.Listing(root, []));
    SortPermutes(found, Workspace.BY_PATH);
    SortOrders(found, Workspace.BY_PATH);
    listing := SortBy(found, Workspace.BY_PATH);
    Workspace.SortedListingIs(root, listing);
  }

  lemma {:induction false} Elements<T>(m: multiset<T>) returns (s: seq<T>)
    ensures multiset(s) == m
    decreases |m|
  {
    if m == multiset{} {
      s := [];
    } else {
      var x :| x in m;
      s := Elements(m - multiset{x});
      s := s + [x];
    }
  }

  // The edits go to the worker under their normalized paths.
  lemma UploadedPath(env: Environment, edits: seq<Edit>, i: nat)
    requires i < |edits| && EditAllowed(env, edits[i])
    ensures var path := UploadedEdits(env.lower, edits)[i].path;
      NormalizeTrusted(env.lower, edits[i].path) == Some(path) && NormalizeTrusted(env.lower, path) == Some(path)
  {
    TrustedIdempotent(env.lower, edits[i].path);
  }

  // What the worker makes of a normalized path.
  lemma NormalizedPathFits(lower: Lowering, worker: Lowering, path: string)
    requires NormalizeTrusted(lower, path) == Some(path)
    ensures NormalizeWorker(worker, path) == if path == "." || Refused(worker, path) then None else Some(path)
  {
    if path == "." {
      DotIsNotInNormalForm();
      CheckedExactly(WorkerDenial(worker), path);
    } else {
      NormalPathIsAccepted(lower, worker, path);
    }
  }

  // It takes the edits of an allowed patch exactly if they are of different files, none of them is of
  // the repository itself, and it denies none of their paths.
  lemma EditsFitExactly(env: Environment, worker: Lowering, edits: seq<Edit>)
    requires forall i | 0 <= i < |edits| :: EditAllowed(env, edits[i])
    ensures var uploads := UploadedEdits(env.lower, edits);
      FilesFit(worker, uploads) <==>
        && DistinctNormalized(env.lower, edits)
        && forall i | 0 <= i < |uploads| :: uploads[i].path != "." && !Refused(worker, uploads[i].path)
  {
    var uploads := UploadedEdits(env.lower, edits);
    forall i | 0 <= i < |uploads|
      ensures NormalizeTrusted(env.lower, edits[i].path) == Some(uploads[i].path)
      ensures NormalizeWorker(worker, uploads[i].path) ==
        if uploads[i].path == "." || Refused(worker, uploads[i].path) then None else Some(uploads[i].path)
    {
      UploadedPath(env, edits, i);
      NormalizedPathFits(env.lower, worker, uploads[i].path);
    }
  }

  // ----- The whole request -----

  // What is left for the worker to object to.
  ghost predicate Unobjectionable(worker: WorkerSide, inputs: Inputs, request: ExecutionRequest) {
    && worker.bytes(request) <= 12_582_912
    && (forall f | f in request.files :: !Refused(worker.lower, f.path))
    && DistinctNormalized(inputs.env.lower, inputs.edits)
    && (forall i | 0 <= i < |request.edits| ::
          request.edits[i].path != "." && !Refused(worker.lower, request.edits[i].path))
    && (forall i | 0 <= i < |inputs.commands| :: Countable(inputs.commands[i].argv))
  }

  lemma CommandsFitExactly(commands: seq<CheckRequest>)
    requires forall i | 0 <= i < |commands| :: CommandOk(commands[i]) && CommandAllowed(commands[i].argv)
    ensures (forall i | 0 <= i < |commands| :: CheckFits(commands[i])) <==>
            forall i | 0 <= i < |commands| :: Countable(commands[i].argv)
  {
    forall i | 0 <= i < |commands| ensures CheckFits(commands[i]) <==> Countable(commands[i].argv) {
      ChecksFitExactly(commands[i]);
    }
  }

  // Of a request within the limits, it is enough to look at the files, the edits and the commands.
  lemma AcceptedIfAllFits(worker: WorkerSide, inputs: Inputs, request: ExecutionRequest)
    requires |request.files| <= 1000 && 1 <= |request.edits| <= 100 && 1 <= |request.checks| <= 10
    requires DifferentIds(request.checks)
    requires FilesFit(worker.lower, request.files) <==> forall f | f in request.files :: !Refused(worker.lower, f.path)
    requires FilesFit(worker.lower, request.edits) <==>
      && DistinctNormalized(inputs.env.lower, inputs.edits)
      && forall i | 0 <= i < |request.edits| ::
           request.edits[i].path != "." && !Refused(worker.lower, request.edits[i].path)
    requires (forall i | 0 <= i < |request.checks| :: CheckFits(request.checks[i])) <==>
      forall i | 0 <= i < |inputs.commands| :: Countable(inputs.commands[i].argv)
    ensures WorkerAccepts(worker, request) <==> Unobjectionable(worker, inputs, request)
  {
  }

  lemma ValidatedIsWithin(ctx: AttemptContext, inputs: Inputs)
    requires Validated(inputs) && Bundled(inputs)
    ensures var request := RequestFor(ctx, inputs);
      && |request.files| <= 1000 && 1 <= |request.edits| <= 100 && 1 <= |request.checks| <= 10
      && DifferentIds(request.checks)
  {
  }

  lemma ValidatedIsAllowed(inputs: Inputs)
    requires Validated(inputs)
    ensures forall i | 0 <= i < |inputs.edits| :: EditAllowed(inputs.env, inputs.edits[i])
    ensures forall i | 0 <= i < |inputs.commands| ::
      CommandOk(inputs.commands[i]) && CommandAllowed(inputs.commands[i].argv)
  {
    assert forall i | 0 <= i < |inputs.edits| :: inputs.edits[i] in inputs.edits;
    forall i | 0 <= i < |inputs.commands| ensures CommandAllowed(inputs.commands[i].argv) {
      assert Argvs(inputs.commands)[i] == inputs.commands[i].argv;
    }
  }

  lemma RequestFilesFit(worker: WorkerSide, ctx: AttemptContext, inputs: Inputs)
    ensures var files := RequestFor(ctx, inputs).files;
      FilesFit(worker.lower, files) <==> forall f | f in files :: !Refused(worker.lower, f.path)
  {
    FilesFitExactly(inputs.env, worker.lower, inputs.workspace);
  }

  lemma RequestEditsFit(worker: WorkerSide, ctx: AttemptContext, inputs: Inputs)
    requires Validated(inputs)
    ensures var edits := RequestFor(ctx, inputs).edits;
      FilesFit(worker.lower, edits) <==>
        && DistinctNormalized(inputs.env.lower, inputs.edits)
        && forall i | 0 <= i < |edits| :: edits[i].path != "." && !Refused(worker.lower, edits[i].path)
  {
    ValidatedIsAllowed(inputs);
    EditsFitExactly(inputs.env, worker.lower, inputs.edits);
  }

  lemma RequestChecksFit(ctx: AttemptContext, inputs: Inputs)
    requires Validated(inputs)
    ensures var checks := RequestFor(ctx, inputs).checks;
      (forall i | 0 <= i < |checks| :: CheckFits(checks[i])) <==>
      forall i | 0 <= i < |inputs.commands| :: Countable(inputs.commands[i].argv)
  {
    ValidatedIsAllowed(inputs);
    CommandsFitExactly(inputs.commands);
  }

  // A request built from validated inputs is within all the other limits, so the worker takes it
  // exactly if it has nothing of that kind to object to.
  lemma AcceptedUnlessObjectionable(worker: WorkerSide, ctx: AttemptContext, inputs: Inputs)
    requires Validated(inputs) && Bundled(inputs)
    ensures WorkerAccepts(worker, RequestFor(ctx, inputs)) <==> Unobjectionable(worker, inputs, RequestFor(ctx, inputs))
  {
    ValidatedIsWithin(ctx, inputs);
    RequestFilesFit(worker, ctx, inputs);
    RequestEditsFit(worker, ctx, inputs);
    RequestChecksFit(ctx, inputs);
    AcceptedIfAllFits(worker, inputs, RequestFor(ctx, inputs));
  }
}
