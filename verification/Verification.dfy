// From a patch proposal to the evidence of an attempt: what is asked of the proposal, the sandbox
// request, the acceptance of the reply, the guard on the review's recommendation, and what an
// approval therefore means.
module Verification {
  import opened Budget
  import opened Git
  import opened Options
  import opened Paths
  import opened Policy
  import opened Proposals
  import opened Rows
  import opened Sandbox
  import opened Transactions
  import opened Upload
  import Workspace

  // ----- Accepting a reply -----

  const MAX_RESPONSE_BYTES := 2_000_000

  datatype Verdict = Accepted | TooLong | WrongAttempt | WrongExecutor | WrongChecks | InconsistentSuccess

  predicate SameChecks(request: ExecutionRequest, reply: ExecutionReply) {
    && |reply.checks| == |request.checks|
    && forall i | 0 <= i < |request.checks| ::
         reply.checks[i].id == request.checks[i].id && reply.checks[i].kind == request.checks[i].kind
  }

  predicate EveryCheckPassed(reply: ExecutionReply) {
    forall i | 0 <= i < |reply.checks| :: reply.checks[i].status == Passed
  }

  function Judge(request: ExecutionRequest, reply: ExecutionReply): Verdict {
    if reply.bytes > MAX_RESPONSE_BYTES then TooLong
    else if reply.attempt != request.attempt then WrongAttempt
    else if reply.executor != EXECUTOR then WrongExecutor
    else if !SameChecks(request, reply) then WrongChecks
    else if reply.status == ReplyPassed && (!reply.destroyed || !EveryCheckPassed(reply))
    then InconsistentSuccess
    else Accepted
  }

  // Any reply, whoever sent it, is accepted exactly if it is short enough, of the attempt and by the
  // executor that were asked, with a result for each requested check in order, and does not call
  // itself passed unless every result is and the sandbox is gone.
  lemma AcceptedRepliesExactly(request: ExecutionRequest, reply: ExecutionReply)
    ensures Judge(request, reply) == Accepted <==>
      && reply.bytes <= 2_000_000
      && reply.attempt == request.attempt && reply.executor == "cloudflare-sandbox"
      && |reply.checks| == |request.checks|
      && (forall i | 0 <= i < |reply.checks| ::
            reply.checks[i].id == request.checks[i].id && reply.checks[i].kind == request.checks[i].kind)
      && (reply.status == ReplyPassed ==>
            reply.destroyed && forall i | 0 <= i < |reply.checks| :: reply.checks[i].status == Passed)
  {
  }

  // Whatever happens in the sandbox, the worker's own reply is accepted, unless its text is too long.
  method ExecuteAndJudge(request: ExecutionRequest, b: Behaviour)
    returns (reply: ExecutionReply, verdict: Verdict)
    requires |request.checks| >= 1
    ensures reply == ReplyOf(request, b) && verdict == Judge(request, reply)
    ensures verdict == Accepted <==> b.bytes <= MAX_RESPONSE_BYTES
    ensures SameChecks(request, reply)
    ensures forall i | 0 <= i < |reply.checks| :: reply.checks[i].status == ReportedStatus(b, i)
    ensures reply.destroyed == b.destroys && TellsAll(request, b, reply)
    ensures reply.status == ReplyStatusFor(b, |request.checks|)
    ensures reply.status == ReplyPassed <==> b.destroys && Reached(b, |request.checks|)
  {
    var executed;
    reply, executed := Execute(request, b);
    verdict := Judge(request, reply);
    PassedExactly(b, |request.checks|);
  }

  lemma OwnReplyIsAccepted(request: ExecutionRequest, b: Behaviour)
    requires |request.checks| >= 1
    ensures Judge(request, ReplyOf(request, b)) == Accepted <==> b.bytes <= MAX_RESPONSE_BYTES
  {
    PassedExactly(b, |request.checks|);
    ReplyReports(request, b);
  }

  // ----- The recommendation -----

  function Guard(action: Action, reply: ExecutionReply): Action {
    if action != Approve || (reply.status == ReplyPassed && reply.destroyed) then action
    else if reply.status == ReplyFailed then Revise
    else Snooze
  }

  // What becomes of a recommendation: an approval stays one exactly if the checks passed, and else asks
  // for a revision if one failed, or waits if none did; anything else stays as it is.
  ghost predicate Guarded(recommended: Action, passed: bool, failed: bool, action: Action) {
    && (action == Approve <==> recommended == Approve && passed)
    && (action == Revise <==> recommended == Revise || (recommended == Approve && !passed && failed))
    && (action == Snooze <==> recommended == Snooze || (recommended == Approve && !passed && !failed))
    && (action == Decline <==> recommended == Decline)
  }

  lemma GuardMeans(recommended: Action, reply: ExecutionReply)
    ensures Guarded(recommended, reply.status == ReplyPassed && reply.destroyed, reply.status == ReplyFailed,
                    Guard(recommended, reply))
  {
  }

  // The worker's own reply has passed exactly if every command ended successfully and the sandbox was
  // destroyed, and has failed exactly if one did not end so.
  lemma OwnReplyIsGuarded(recommended: Action, request: ExecutionRequest, b: Behaviour)
    ensures Guarded(recommended, b.destroys && GetsTo(b, |request.checks|),
                    b.destroys && exists i: nat | i < |request.checks| :: FailsAt(b, i),
                    Guard(recommended, ReplyOf(request, b)))
  {
    ReplyTells(request, b);
    GuardMeans(recommended, ReplyOf(request, b));
  }

  function VerificationChecks(reply: ExecutionReply): seq<Check> {
    seq(|reply.checks|, i requires 0 <= i < |reply.checks| =>
      Check(reply.checks[i].id, reply.checks[i].kind, reply.checks[i].status))
  }

  // ----- One generation -----

  // What one generation is given: the snapshot and its checked-out files, the budget and what the
  // context and the proposal come to, the call sites of the impact, the environment the policy sees,
  // the proposal, whether the review looks like it holds a credential, its recommendation, and the clock.
  datatype Inputs = Inputs(
    base: Commit, baseBranch: string, workspace: Workspace.Root, limits: Limits, contextBytes: nat,
    proposalBytes: nat, sites: set<string>, env: Environment, edits: seq<Edit>, commands: seq<CheckRequest>,
    reviewSecret: bool, recommended: Action, createdAt: int, completedAt: int)

  // A generation of an attempt, with the sandbox's reply.
  datatype Generation = Generation(context: AttemptContext, inputs: Inputs, reply: ExecutionReply)

  function CanonicalPatch(g: Generation): seq<Edit> {
    CanonicalEdits(g.inputs.env.lower, g.inputs.edits)
  }

  function Argvs(commands: seq<CheckRequest>): seq<seq<string>> {
    seq(|commands|, i requires 0 <= i < |commands| => commands[i].argv)
  }

  ghost function RequestFor(ctx: AttemptContext, inputs: Inputs): ExecutionRequest {
    ExecutionRequest(ctx.attempt, PatchDigest(CanonicalEdits(inputs.env.lower, inputs.edits)),
                     BundleOf(inputs.env, inputs.workspace), UploadedEdits(inputs.env.lower, inputs.edits),
                     inputs.commands)
  }

  ghost function RequestOf(g: Generation): ExecutionRequest {
    RequestFor(g.context, g.inputs)
  }

  function EvidenceOf(g: Generation, artifact: Id): Evidence {
    Evidence(g.context.migration, g.context.attempt, g.inputs.base, g.inputs.baseBranch,
             PatchEvidence(artifact, PatchDigest(CanonicalPatch(g))), VerificationChecks(g.reply),
             Guard(g.inputs.recommended, g.reply), g.inputs.completedAt)
  }

  // Context and proposal are within the budget, and proposal, plan and patch are allowed.
  ghost predicate Validated(inputs: Inputs) {
    && inputs.contextBytes <= inputs.limits.contextBytes
    && ProposalOk(inputs.edits, inputs.commands)
    && ProposalFits(inputs.limits, inputs.proposalBytes, inputs.commands)
    && PlanAllowed(inputs.env.lower, inputs.sites, inputs.env.plan)
    && PatchAllowed(inputs.env, inputs.edits, Argvs(inputs.commands))
  }

  // The files of the workspace can go with the patch.
  ghost predicate Bundled(inputs: Inputs) {
    BundleFits(inputs.env, Workspace.InPathOrder(inputs.workspace))
  }

  // What is asked once the sandbox has answered.
  predicate Reviewable(inputs: Inputs, duration: nat) {
    && duration <= inputs.limits.duration
    && !inputs.reviewSecret
    && inputs.createdAt <= inputs.completedAt
  }

  // The generation gets as far as its evidence.
  ghost predicate Concludes(g: Generation) {
    && Validated(g.inputs) && Bundled(g.inputs)
    && Judge(RequestOf(g), g.reply) == Accepted
    && Reviewable(g.inputs, g.reply.duration)
  }

  // The requested checks each have one result, in order, all passed, in a sandbox that is gone.
  ghost predicate FullyVerified(request: ExecutionRequest, reply: ExecutionReply) {
    && reply.attempt == request.attempt
    && reply.status == ReplyPassed && reply.destroyed
    && |reply.checks| == |request.checks|
    && (forall i | 0 <= i < |request.checks| ::
          reply.checks[i].id == request.checks[i].id &&
          reply.checks[i].kind == request.checks[i].kind && reply.checks[i].status == Passed)
  }

  // Everything that is asked before the sandbox is: the canonical patch, if it all holds.
  method Validate(inputs: Inputs) returns (patch: Option<seq<Edit>>)
    ensures patch.Some? <==> Validated(inputs)
    ensures patch.Some? ==> patch.value == CanonicalEdits(inputs.env.lower, inputs.edits)
  {
    if inputs.contextBytes > inputs.limits.contextBytes { return None; }
    if !ProposalOk(inputs.edits, inputs.commands) { return None; }
    if inputs.proposalBytes > inputs.limits.proposalBytes { return None; }
    var timeout := SumTimeouts(inputs.commands);
    if timeout > inputs.limits.timeout { return None; }
    var planned := ValidatePlan(inputs.env.lower, inputs.sites, inputs.env.plan);
    if !planned { return None; }
    patch := ValidatePatch(inputs.env, inputs.edits, Argvs(inputs.commands));
  }

  method BuildRequest(ctx: AttemptContext, inputs: Inputs, patch: seq<Edit>)
    returns (request: Option<ExecutionRequest>)
    requires patch == CanonicalEdits(inputs.env.lower, inputs.edits)
    ensures request.Some? <==> Bundled(inputs)
    ensures request.Some? ==> request.value == RequestFor(ctx, inputs)
  {
    var files := BundleWorkspace(inputs.env, inputs.workspace);
    if files.None? { return None; }
    return Some(ExecutionRequest(ctx.attempt, PatchDigest(patch), files.value,
                                 UploadedEdits(inputs.env.lower, inputs.edits), inputs.commands));
  }

  // The orchestration: validate, execute, guard, and build the evidence.
  method Generate(g: Generation, artifact: Id) returns (evidence: Option<Evidence>)
    ensures evidence.Some? <==> Concludes(g)
    ensures evidence.Some? ==> evidence.value == EvidenceOf(g, artifact)
    ensures evidence.Some? && evidence.value.action == Approve ==>
              g.inputs.recommended == Approve && FullyVerified(RequestOf(g), g.reply) &&
              AllPassed(evidence.value.checks)
  {
    var patch := Validate(g.inputs);
    if patch.None? { return None; }
    var request := BuildRequest(g.context, g.inputs, patch.value);
    if request.None? { return None; }
    if Judge(request.value, g.reply) != Accepted { return None; }
    if !Reviewable(g.inputs, g.reply.duration) { return None; }
    evidence := Some(Evidence(g.context.migration, g.context.attempt, g.inputs.base, g.inputs.baseBranch,
                              PatchEvidence(artifact, PatchDigest(patch.value)),
                              VerificationChecks(g.reply), Guard(g.inputs.recommended, g.reply),
                              g.inputs.completedAt));
    ApprovalIsVerified(g, artifact);
  }

  // An approval survives the guard exactly when the review recommended it and the sandbox
  // passed every requested check and was destroyed.
  lemma ApprovalIsVerified(g: Generation, artifact: Id)
    requires Concludes(g)
    ensures EvidenceOf(g, artifact).action == Approve <==>
              g.inputs.recommended == Approve && FullyVerified(RequestOf(g), g.reply)
    ensures EvidenceOf(g, artifact).action == Approve ==>
              AllPassed(EvidenceOf(g, artifact).checks)
  {
  }

  // So the database's own check on an approval never refuses a concluded generation, and every
  // other failure of verification has become a revision or a snooze.
  lemma GuardedEvidenceIsAdmissible(db: Db, g: Generation, artifact: Id, objectRef: string)
    requires Concludes(g)
    ensures CompleteAttempt(db, g.context, EvidenceOf(g, artifact), objectRef).1 !in
              {Raised(NotVerified), Raised(EvidenceMismatch)}
    ensures g.inputs.recommended == Approve && !FullyVerified(RequestOf(g), g.reply) ==>
              EvidenceOf(g, artifact).action == if g.reply.status == ReplyFailed then Revise else Snooze
  {
    ApprovalIsVerified(g, artifact);
    AdmissibleIsNotRefused(db, g.context, EvidenceOf(g, artifact), objectRef);
  }

  lemma AdmissibleIsNotRefused(db: Db, ctx: AttemptContext, ev: Evidence, objectRef: string)
    requires ev.attempt == ctx.attempt && ev.migration == ctx.migration
    requires ev.action == Approve ==> AllPassed(ev.checks)
    ensures CompleteAttempt(db, ctx, ev, objectRef).1 !in {Raised(NotVerified), Raised(EvidenceMismatch)}
  {
  }

  // The patch that is stored and published is, file by file, what the sandbox was given.
  lemma VerifiedFilesArePublished(g: Generation)
    requires Concludes(g)
    ensures multiset(RequestOf(g).edits) == multiset(Files(CanonicalPatch(g)))
  {
    forall e | e in g.inputs.edits ensures NormalizeTrusted(g.inputs.env.lower, e.path).Some? {
      assert EditAllowed(g.inputs.env, e);
    }
    SandboxWritesThePatch(g.inputs.env.lower, g.inputs.edits);
  }
}
