// The generation job as it runs: claim the attempt, validate and store the patch, execute it in
// the sandbox, guard the recommendation, and complete or fail the attempt.
module GenerationTask {
  import opened Artifacts
  import opened Budget
  import opened Database
  import opened Git
  import opened Options
  import opened Lifecycle
  import opened Policy
  import opened Proposals
  import opened Requests
  import opened Rows
  import opened Sandbox
  import opened Transactions
  import opened Coupling
  import opened Upload
  import opened Verification
  import opened WorkerEffects
  import Workspace

  // What the job depends on: whether the claimed inputs could be loaded, the snapshot checked out as
  // it was recorded and the context put together; whether the intelligence service answers with a
  // proposal and a review that validate; the sandbox worker, whether it answers in time, and what
  // happens in its sandbox; and the code of whatever fails.
  datatype Services = Services(
    available: bool, proposes: bool, worker: WorkerSide, answers: bool, sandbox: Behaviour, reviews: bool,
    code: string)

  datatype Job = Job(inputs: Inputs, services: Services)

  datatype TaskOutcome = Skipped | Completed(evidence: Evidence) | Failing

  function PatchOf(job: Job): seq<Edit> {
    CanonicalEdits(job.inputs.env.lower, job.inputs.edits)
  }

  // The service gets to its evidence: everything it calls answers; budget, plan, policy and upload
  // limits allow the proposal; the worker accepts the request, and its reply is short enough and came
  // within the budget; and the review holds no credential.
  ghost predicate WillConclude(job: Job, ctx: AttemptContext) {
    && job.services.available && job.services.proposes && job.services.answers && job.services.reviews
    && Validated(job.inputs) && Bundled(job.inputs)
    && WorkerAccepts(job.services.worker, RequestFor(ctx, job.inputs))
    && job.services.sandbox.bytes <= MAX_RESPONSE_BYTES
    && Reviewable(job.inputs, job.services.sandbox.duration)
  }

  // What the budget, the models and the policy ask of a proposal.
  lemma ValidatedExactly(inputs: Inputs)
    ensures Validated(inputs) <==>
      && inputs.contextBytes <= inputs.limits.contextBytes
      && inputs.proposalBytes <= inputs.limits.proposalBytes
      && TotalTimeout(inputs.commands) <= inputs.limits.timeout
      && ProposalOk(inputs.edits, inputs.commands)
      && PlanAllowed(inputs.env.lower, inputs.sites, inputs.env.plan)
      && ProposalAcceptable(inputs.env, inputs.edits, Argvs(inputs.commands))
  {
    Policy.AcceptedExactly(inputs.env, inputs.edits, Argvs(inputs.commands));
  }

  // And what is asked of the files that go along, of the reply and of the review.
  lemma ReviewedExactly(inputs: Inputs, duration: nat)
    ensures Reviewable(inputs, duration) <==>
      duration <= inputs.limits.duration && !inputs.reviewSecret && inputs.createdAt <= inputs.completedAt
    ensures Bundled(inputs) <==>
      && |BundleOf(inputs.env, inputs.workspace)| <= 1000
      && BundleBytes(inputs.env, Workspace.InPathOrder(inputs.workspace)) <= 6_000_000
  {
  }

  // The generation it amounts to: the worker's reply is determined by what happens in its sandbox.
  ghost function GenerationOf(job: Job, ctx: AttemptContext): Generation {
    Generation(ctx, job.inputs, ReplyOf(RequestFor(ctx, job.inputs), job.services.sandbox))
  }

  // Every command ended successfully, in a sandbox that was destroyed.
  ghost predicate Passes(job: Job) {
    job.services.sandbox.destroys && GetsTo(job.services.sandbox, |job.inputs.commands|)
  }

  // A command did not, in a sandbox that was destroyed.
  ghost predicate Breaks(job: Job) {
    && job.services.sandbox.destroys
    && exists i: nat | i < |job.inputs.commands| :: FailsAt(job.services.sandbox, i)
  }

  // What the evidence says: the snapshot, the canonical patch, every check as it went, and what the
  // guard makes of the recommendation.
  ghost predicate Faithful(job: Job, ctx: AttemptContext, ev: Evidence) {
    && ev.migration == ctx.migration && ev.attempt == ctx.attempt
    && ev.base == job.inputs.base
    && ev.patch.digest.edits == PatchOf(job)
    && CanonicalFor(job.inputs.env.lower, job.inputs.edits, ev.patch.digest.edits)
    && |ev.checks| == |job.inputs.commands|
    && (forall i: nat | i < |ev.checks| ::
          && ev.checks[i].id == job.inputs.commands[i].id && ev.checks[i].kind == job.inputs.commands[i].kind
          && StatusTells(job.services.sandbox, i, ev.checks[i].status))
    && Guarded(job.inputs.recommended, Passes(job), Breaks(job), ev.action)
  }

  // Run the checks, and let the review's recommendation pass the guard.
  method ExecuteAndReview(request: ExecutionRequest, sandbox: Behaviour, inputs: Inputs)
    returns (reviewed: Option<(seq<Check>, Action)>)
    requires |request.checks| >= 1
    ensures reviewed.Some? <==> sandbox.bytes <= MAX_RESPONSE_BYTES && Reviewable(inputs, sandbox.duration)
    ensures reviewed.Some? ==>
      var (checks, action) := reviewed.value;
      && checks == VerificationChecks(ReplyOf(request, sandbox))
      && action == Guard(inputs.recommended, ReplyOf(request, sandbox))
  {
    var reply, verdict := ExecuteAndJudge(request, sandbox);
    if verdict != Accepted || !Reviewable(inputs, reply.duration) { return None; }
    return Some((VerificationChecks(reply), Guard(inputs.recommended, reply)));
  }

  // The artifact store holds no other text under the digest of this one.
  ghost predicate NoCollision(artifacts: ArtifactStore, edits: seq<Edit>)
    reads artifacts
  {
    var digest := artifacts.hash(Render(edits));
    digest in artifacts.objects ==> artifacts.objects[digest] == Render(edits)
  }

  // The artifact of the edits is kept where the reference says.
  ghost predicate Kept(artifacts: ArtifactStore, objectRef: string, edits: seq<Edit>)
    reads artifacts
  {
    var digest := artifacts.hash(Render(edits));
    DigestOf(objectRef) == Some(digest) && digest in artifacts.objects &&
    artifacts.objects[digest] == Render(edits)
  }

  method StorePatch(artifacts: ArtifactStore, edits: seq<Edit>) returns (objectRef: Option<string>)
    requires artifacts.DigestsWell()
    modifies artifacts
    ensures objectRef.Some? <==> old(NoCollision(artifacts, edits))
    ensures objectRef.Some? ==> Kept(artifacts, objectRef.value, edits)
    ensures forall d | d in old(artifacts.objects) ::
      d in artifacts.objects && artifacts.objects[d] == old(artifacts.objects)[d]
  {
    var text := Render(edits);
    var digest := artifacts.hash(text);
    LowerHexOfDigest(digest);
    ReferenceNamesDigest(digest);
    var put := artifacts.Put(text, digest);
    objectRef := if put.Stored? then Some(put.value) else None;
  }

  // Validate, store, execute, review: the evidence and where its artifact is kept. It is the evidence
  // of the generation the job amounts to.
  method RunService(artifacts: ArtifactStore, ctx: AttemptContext, job: Job, artifact: Id)
    returns (evidence: Option<Evidence>, objectRef: string)
    requires artifacts.DigestsWell()
    modifies artifacts
    ensures evidence.Some? <==> WillConclude(job, ctx) && old(NoCollision(artifacts, PatchOf(job)))
    ensures evidence.Some? ==>
      && Faithful(job, ctx, evidence.value)
      && Concludes(GenerationOf(job, ctx)) && evidence.value == EvidenceOf(GenerationOf(job, ctx), artifact)
      && Kept(artifacts, objectRef, PatchOf(job))
    ensures forall d | d in old(artifacts.objects) ::
      d in artifacts.objects && artifacts.objects[d] == old(artifacts.objects)[d]
  {
    evidence, objectRef := None, "";
    if !job.services.available || !job.services.proposes { return; }
    var patch := Validate(job.inputs);
    if patch.None? { return; }
    var stored := StorePatch(artifacts, patch.value);
    if stored.None? { return; }
    objectRef := stored.value;
    var built := BuildRequest(ctx, job.inputs, patch.value);
    if built.None? { return; }
    var request := built.value;
    if !job.services.answers || !WorkerAccepts(job.services.worker, request) { return; }
    var reviewed := ExecuteAndReview(request, job.services.sandbox, job.inputs);
    if reviewed.None? || !job.services.reviews { return; }
    evidence := Some(Evidence(ctx.migration, ctx.attempt, job.inputs.base, job.inputs.baseBranch,
                              PatchEvidence(artifact, PatchDigest(patch.value)), reviewed.value.0,
                              reviewed.value.1, job.inputs.completedAt));
    OwnReplyConcludes(job, ctx);
    EvidenceIsFaithful(job, ctx, artifact);
  }

  // The evidence of a generation that concludes says what happened.
  lemma EvidenceIsFaithful(job: Job, ctx: AttemptContext, artifact: Id)
    requires WillConclude(job, ctx)
    ensures Faithful(job, ctx, EvidenceOf(GenerationOf(job, ctx), artifact))
  {
    AcceptedIsCanonical(job.inputs.env, job.inputs.edits, Argvs(job.inputs.commands));
    ChecksTell(RequestFor(ctx, job.inputs), job.services.sandbox);
    RecommendationIsGuarded(job, RequestFor(ctx, job.inputs));
  }

  lemma RecommendationIsGuarded(job: Job, request: ExecutionRequest)
    requires request.checks == job.inputs.commands
    ensures Guarded(job.inputs.recommended, Passes(job), Breaks(job),
                    Guard(job.inputs.recommended, ReplyOf(request, job.services.sandbox)))
  {
    OwnReplyIsGuarded(job.inputs.recommended, request, job.services.sandbox);
  }

  lemma ChecksTell(request: ExecutionRequest, b: Behaviour)
    ensures var checks := VerificationChecks(ReplyOf(request, b));
      && |checks| == |request.checks|
      && (forall i: nat | i < |checks| ::
            && checks[i].id == request.checks[i].id && checks[i].kind == request.checks[i].kind
            && StatusTells(b, i, checks[i].status))
  {
    ReplyTells(request, b);
    var checks := VerificationChecks(ReplyOf(request, b));
    forall i: nat | i < |checks|
      ensures checks[i].id == request.checks[i].id && checks[i].kind == request.checks[i].kind
      ensures StatusTells(b, i, checks[i].status)
    {
      assert Tells(b, i, request.checks[i], ReplyOf(request, b).checks[i]);
    }
  }

  lemma OwnReplyConcludes(job: Job, ctx: AttemptContext)
    requires WillConclude(job, ctx)
    ensures Concludes(GenerationOf(job, ctx))
  {
    OwnReplyIsAccepted(RequestFor(ctx, job.inputs), job.services.sandbox);
  }

  // A repository with a file named just ".pem" cannot be verified: its bundle has the file, and the
  // worker refuses the whole request.
  lemma APemFileStopsGeneration(job: Job, ctx: AttemptContext, listing: seq<Workspace.Found>, i: nat)
    requires Workspace.SortedListing(job.inputs.workspace, listing)
    requires i < |listing| && listing[i].path == [".pem"] && listing[i].kind.FileFound?
    requires !job.inputs.env.secret(listing[i].kind.content)
    requires forall c | c in ".pem" :: job.inputs.env.lower(c) == [c] && job.services.worker.lower(c) == [c]
    ensures !WillConclude(job, ctx)
  {
    Workspace.SortedListingIs(job.inputs.workspace, listing);
    APemFileIsRefused(job.inputs.env, job.services.worker.lower, listing, i);
  }

  // ----- The job around it -----

  ghost predicate Waiting(db: Db, a: Id) {
    a in db.attempts && db.attempts[a].status == AttemptPlanning
  }

  // What a generation that ended leaves.
  ghost predicate Concluded(db: Db, a: Id, job: Job, o: TaskOutcome) {
    && a in db.attempts && db.attempts[a].migration in db.migrations
    && var row, m := db.attempts[a], db.migrations[db.attempts[a].migration];
       && m.currentAttempt == Some(a)
       && if o.Completed? then
            && row.status == AttemptCompleted && row.data.evidence == Some(o.evidence)
            && Faithful(job, AttemptContext(row.migration, a), o.evidence)
            && SentTo(o.evidence.action, m.status)
          else
            && row.status == AttemptFailed && m.status == Blocked
            && row.data.errorCode == Some(job.services.code) && m.data.errorCode == Some(job.services.code)
  }

  // A migration ends ready exactly if its generation was completed, approval was recommended and
  // everything passed; to be revised exactly if it was completed and a revision was recommended, or an
  // approval although a command failed; and blocked otherwise.
  ghost predicate EndsAs(job: Job, completed: bool, s: MigrationStatus) {
    && (s == Ready <==> completed && job.inputs.recommended == Approve && Passes(job))
    && (s == NeedsRevision <==>
          completed && (job.inputs.recommended == Revise ||
                        (job.inputs.recommended == Approve && !Passes(job) && Breaks(job))))
    && (s in {Ready, NeedsRevision, Blocked})
  }

  lemma ConcludedEnds(db: Db, a: Id, job: Job, o: TaskOutcome)
    requires Concluded(db, a, job, o)
    ensures EndsAs(job, o.Completed?, db.migrations[db.attempts[a].migration].status)
  {
  }

  lemma ClaimedAttemptIsActive(db: Db, a: Id)
    requires Inv(db) && Waiting(db, a)
    ensures db.attempts[a].migration in db.migrations
    ensures ClaimAttempt(db, a).1 == Done(Some(AttemptContext(db.attempts[a].migration, a)))
    ensures var db' := ClaimAttempt(db, a).0;
      Active(db', AttemptContext(db.attempts[a].migration, a))
  {
    var mid := db.attempts[a].migration;
    assert RowsOk(db, mid);
    assert AttemptOk(db, a, db.attempts[a], db.migrations[mid].currentAttempt);
  }

  ghost predicate Active(db: Db, ctx: AttemptContext) {
    && ctx.attempt in db.attempts && db.attempts[ctx.attempt].migration == ctx.migration
    && db.attempts[ctx.attempt].status == AttemptGenerating
    && ctx.migration in db.migrations
    && db.migrations[ctx.migration].status == Generating
    && db.migrations[ctx.migration].currentAttempt == Some(ctx.attempt)
  }

  // An active attempt's evidence is accepted: nothing is stored for it yet, and an approval has
  // only passed checks.
  lemma EvidenceIsAccepted(db: Db, ctx: AttemptContext, job: Job, ev: Evidence, objectRef: string)
    requires Inv(db) && Active(db, ctx) && Faithful(job, ctx, ev)
    ensures Completable(db, ctx, ev) && CompleteAttempt(db, ctx, ev, objectRef).1.Done?
  {
    if ev.action == Approve {
      forall i: nat | i < |ev.checks| ensures ev.checks[i].status == Passed {
        assert StatusTells(job.services.sandbox, i, ev.checks[i].status);
      }
    }
    CompletesExactly(db, ctx, ev, objectRef);
  }

  lemma CompletionConcludes(db: Db, ctx: AttemptContext, job: Job, ev: Evidence, objectRef: string)
    requires Inv(db) && Active(db, ctx) && Faithful(job, ctx, ev)
    ensures CompleteAttempt(db, ctx, ev, objectRef).1.Done?
    ensures Concluded(CompleteAttempt(db, ctx, ev, objectRef).0, ctx.attempt, job, TaskOutcome.Completed(ev))
  {
    EvidenceIsAccepted(db, ctx, job, ev, objectRef);
    CompletionsLeave(db, ctx, ev, objectRef);
  }

  lemma FailureConcludes(db: Db, ctx: AttemptContext, job: Job)
    requires Inv(db) && Active(db, ctx)
    ensures Concluded(FailAttempt(db, ctx.attempt, job.services.code), ctx.attempt, job, Failing)
  {
    FailuresLeave(db, ctx.attempt, job.services.code);
  }

  // Record how it ended.
  method Settle(store: Store, ctx: AttemptContext, job: Job, evidence: Option<Evidence>, objectRef: string)
    returns (o: TaskOutcome)
    requires store.Valid() && Active(store.State(), ctx)
    requires evidence.Some? ==> Faithful(job, ctx, evidence.value)
    modifies store
    ensures store.Valid() && !o.Skipped? && (o.Completed? <==> evidence.Some?)
    ensures Concluded(store.State(), ctx.attempt, job, o)
  {
    if evidence.Some? {
      CompletionConcludes(store.State(), ctx, job, evidence.value, objectRef);
      var done := store.Conclude(ctx, evidence.value, objectRef);
      o := TaskOutcome.Completed(evidence.value);
    } else {
      FailureConcludes(store.State(), ctx, job);
      store.Fail(ctx.attempt, job.services.code);
      o := Failing;
    }
  }

  // The job: skipped unless the attempt is waiting; otherwise it ends completed, with its
  // migration where the evidence sends it, exactly when the service gets to its evidence, and
  // failed, with its migration blocked, when not.
  method RunMigrationGeneration(store: Store, artifacts: ArtifactStore, a: Id, job: Job, artifact: Id)
    returns (o: TaskOutcome)
    requires store.Valid() && artifacts.DigestsWell()
    modifies store, artifacts
    ensures store.Valid()
    ensures o.Skipped? <==> !old(Waiting(store.State(), a))
    ensures o.Skipped? ==> store.State() == old(store.State())
    ensures o.Completed? <==>
      old(Waiting(store.State(), a)) &&
      WillConclude(job, AttemptContext(old(store.attempts)[a].migration, a)) &&
      old(NoCollision(artifacts, PatchOf(job)))
    ensures !o.Skipped? ==>
      && Concluded(store.State(), a, job, o)
      && EndsAs(job, o.Completed?, store.migrations[store.attempts[a].migration].status)
  {
    if a in store.attempts && store.attempts[a].status == AttemptPlanning {
      ClaimedAttemptIsActive(store.State(), a);
    }
    var claimed := store.Claim(a);
    if claimed.Raised? || claimed.value.None? { return TaskOutcome.Skipped; }
    var ctx := claimed.value.value;
    var evidence, objectRef := RunService(artifacts, ctx, job, artifact);
    o := Settle(store, ctx, job, evidence, objectRef);
    ConcludedEnds(store.State(), a, job, o);
  }
}
