# Delta Code: the migration protocol, its publisher and its evidence chain

Delta Code watches API providers for breaking changes, works out which of a customer's repositories a
change affects, generates and verifies a patch for each of them, and opens a draft pull request. This
project models the part of that where mistakes would be expensive and proves what a maintainer relies on:

* **The protocol of the three stores** (`Rows`, `Transactions`, `Coupling`, `Protocol`). Migrations, attempts,
  publications and replay records are rows of one database; every `with get_connection()` block is one
  transaction, a function of the rows it finds. A run is any sequence of transactions: developers' requests,
  generation workers and publication workers interleave, and a worker that crashes simply stops. A request's
  unlocked replay lookup and its locked transaction are separate steps. `Effects` and `WorkerEffects` say of each
  of them exactly when it takes effect and what it leaves; `ProtocolTheorems`, `Replay`, `History`, `Isolation`, `Statuses`
  and `DecisionLog` hold the results over whole runs. `Database` has the same transactions as methods over mutable
  rows, each proved to do exactly that, rollback included.
* **The resumable publisher** (`Remote`, `Publisher`, `Convergence`, `Resume`, `DraftTask`). One publication is a
  sequence of steps, each at most one remote write or one checkpoint, and the worker may stop between any
  two. `DraftTask` has the publisher and its job as straight imperative code over a mutable repository and a
  mutable database.
* **The verification chain** (`Paths`, `Policy`, `Proposals`, `Budget`, `Upload`, `Requests`, `Shell`, `Sandbox`,
  `Verification`, `Handover`, `Executed`, `Applied`, `GenerationTask`): from a proposal through its model, the budget, the plan and patch policy,
  the bundle of repository files and the sandbox worker, the judging of its reply and the guard on the review's
  recommendation, to the evidence that lets an attempt be published.
* **The whole system** (`World`, `WorldInvariant`, `WorldSteps`, `WorldWorker`, `WorldTheorems`): database, artifact
  store, repositories, publication workers, and everybody else who writes to the repositories, in any order.
* **Where migrations come from** (`Fanout`, `FanoutEffects`, `Discovery`): from captured changes over one job per enabled repository to the
  rows the three stores then own.
* **Codecs and refinements** (`Text`, `Sorting`, `Json`, `Artifacts`, `Unloadable`, `Cursors`, `Pagination`, `Depth`, `Workspace`).

## Results in short

* In every reachable state the status of a migration is the one that its current attempt, the publication of that attempt
  and the decision since then call for, and the copy that is served says so; versions
  count the declared edges walked; attempts form one gapless chain; finished attempts never change; a
  superseded worker never moves its migration again; a repeated request changes nothing and gets the stored
  answer, and no two requests consume the same version of a migration.
* Every commit the publisher ever creates is the verified snapshot overlaid with exactly the stored patch, has
  that snapshot as its only parent, and belongs to an attempt each of whose requested checks passed in a
  sandbox that was destroyed. It is written only to the migration's own branch, and the only heads it ever
  replaces are ones recorded for the same migration before. A recorded check run is always one of the recorded commit.
* Every edit of an accepted proposal fits the tree the policy saw, and what is published is that tree with just the
  proposed edits.
* After any number of crashes a publication goes through exactly when it would have without them and none of them
  was one of two kinds of stop, and then with the same outcome.
* A generation job ends completed exactly when what it calls answers and model, budget, plan, policy, upload limits
  and worker allow the proposal; a publication job, exactly when its artifact loads and the repository lets it through.
  Of what the trusted side lets through, the worker refuses just what is too long for it or has a path it denies.
* An event and a repository have at most one migration, and have one exactly if a worker that had claimed their job
  completed it as affected.

## What does not hold

* *Convergence.* A stop after a draft was opened and before it was recorded, or after an existing draft's branch
  was moved and before the new head was recorded, cannot be resumed: the next run finds an open draft it does not
  know, or a draft that is not at the recorded head (`app/github_publishing/publisher.py:225-230` accepts only the
  recorded head, while `app/github_publishing/publisher.py:237-241` also accepts the recorded commit).
  `Convergence.CrashConvergence` says so exactly, and `Convergence.ALostDraftIsNotResumed` and `Convergence.AMovedBranchIsNotResumed` are instances.
* *One check run.* A stop after a check run was created and before it was recorded leaves a second one
  (the last clause of `Convergence.CrashConvergence`; `Convergence.ACheckRunIsMadeTwice` is an instance).
* *Revision after a lost draft.* Queueing another attempt drops the recorded commit
  (`app/github_publishing/store.py:131-153`); if the first publication created the branch but recorded no draft, the branch
  is then taken for somebody else's (`Convergence.RevisedFirstPublicationCollides`;
  `Convergence.ARevisedFirstPublicationIsRefused` is an instance).
* *Equality of the path normalizers.* A file named just `.pem` passes the trusted one and not the worker's; so does
  the path `.` (`Paths.WorkerPathsExactly`, `Paths.TrustedAcceptsMore`). So a repository that has such a file can never be
  verified: the bundle includes it and the worker refuses the whole request
  (`app/migration_generation/policy.py:199-215`, `sandbox-worker/src/policy.ts:180`). `Upload.BundleIsAccepted` says exactly which
  bundles the worker takes, and `GenerationTask.APemFileStopsGeneration` is an instance.
* *Publishability of an accepted patch.* The policy limits the bytes of the edits, the publisher those of the JSON text
  around them, and the policy does not compare normalized paths: `Artifacts.AcceptedArtifactLoads` says which accepted
  patches load. `Unloadable.LineBreaksDoNotLoad` and `Unloadable.ADuplicateDoesNotLoad` are instances.
* *Checks within their own limit.* Six checks of 110 seconds are each within what a check may take, and together over the
  default budget (`Budget.SixLongChecksAreRefused`).

## Assumptions

* Digests and identifiers do not collide. A Git object id is modelled by the object, a patch digest by the edits it
  was computed from (`Artifacts.RenderingIsInjective` is what makes that sound), a migration's branch by the migration.
* A publication is failed only by the worker that claimed it: the claim is in the same `try` as the work
  (`app/github_publishing/tasks.py:23-45`), so this means the claim itself does not error. Attempts need no such
  assumption: any attempt may be failed at any time.
* Nobody else writes a migration branch between the publisher's read of it
  (`app/github_publishing/publisher.py:231-232`) and its write (`app/github_publishing/publisher.py:305-322`). At all other
  times anybody may move any branch. A pull request keeps its number and its branch, and a check run its
  number and what it is of.
* A crash between two transactions leaves both whole; a transaction that raises leaves nothing.
* Posting a tree puts each entry in place as Git's index does: a file gives way to a directory of its name, and a
  directory to a file.

## Model

| member | source | states |
|---|---|---|
| `Lifecycle.ValidateTransition` | app/control_plane/state.py:62-77 | a request advances the version by one exactly when it names the current version and a declared edge; a wrong version is reported before a wrong edge |
| `Lifecycle.MigrationEdgesInto` | app/control_plane/state.py:34-48 | the statuses each migration status is entered from: ready only from verifying, verifying only from generating, and so on |
| `Lifecycle.AttemptEdgesInto` | app/control_plane/state.py:50-59 | the same for attempts: completed only from reviewing, failed from whatever is under way |
| `Lifecycle.MigrationPathsCompose` | app/control_plane/state.py:34-48 | walks along declared migration edges compose, their lengths adding up |
| `Lifecycle.AttemptPathsCompose` | app/control_plane/state.py:50-59 | the same for attempts |
| `Lifecycle.TerminalAttemptsStay` | app/control_plane/state.py:50-59 | no path, however long, leaves a completed, failed or cancelled attempt |
| `Coupling.CurrentIsLatest` | app/migration_generation/store.py:121-160 | the current attempt and the attempt with the highest number, which the two creation paths look up differently, are the same |
| `Coupling.DecideKeeps` | app/control_plane/store.py:205-331 | a developer's decision keeps the coupling of all rows, and deletes or rewrites nothing that is final |
| `Coupling.QueueAttemptKeeps` | app/migration_generation/store.py:107-252 | so does queueing an attempt, whether it reuses a waiting revision or adds a row |
| `Coupling.ClaimAttemptKeeps` | app/migration_generation/store.py:256-284 | so does claiming an attempt |
| `Coupling.CompleteAttemptKeeps` | app/migration_generation/store.py:341-457 | so does completing one, in three attempt edges and two migration edges at once |
| `Coupling.FailAttemptKeeps` | app/migration_generation/store.py:460-512 | so does failing one at any time, current or superseded |
| `Coupling.QueuePublicationKeeps` | app/github_publishing/store.py:90-226 | so does queueing a publication, new or again |
| `Coupling.ClaimPublicationKeeps` | app/github_publishing/store.py:230-241 | so does claiming one |
| `Coupling.RecordCheckpointKeeps` | app/github_publishing/store.py:316-370 | so does every checkpoint |
| `Coupling.CompletePublicationKeeps` | app/github_publishing/store.py:373-425 | so does completing one with the context its claim returned |
| `Coupling.FailPublicationKeeps` | app/github_publishing/store.py:428-465 | so does failing one |
| `Coupling.CreateMigrationKeeps` | app/repository_intelligence/store.py:176-212 | so does creating a migration, once or again |
| `Protocol.StepKeeps` | app/github_publishing/tasks.py:21-46 | every transaction of every worker and developer keeps the coupling invariant |
| `Protocol.RunsKeep` | app/migration_generation/tasks.py:42-83 | so does every run |
| `Protocol.StoresStayCoupled` | app/migration_generation/store.py:259-284 | in every reachable state a migration is planning or generating exactly when its current attempt is, opening exactly when its publication is queued or under way, and ready, opening, opened, approved, snoozed or declined only with a completed, approved, fully passed current attempt; the served copy agrees with the columns |
| `Protocol.AttemptOwnershipErrorUnreachable` | app/migration_generation/store.py:283-284 | claiming an attempt never finds a migration that no longer owns it |
| `Protocol.OnlyStaleContextsAreRefused` | app/github_publishing/store.py:396-404 | completing a publication finds its migration taken away exactly when the context is of an attempt the publication was since queued away from |
| `ProtocolTheorems.MoveWalksMigration` | app/migration_generation/store.py:403-443 | every step of a migration is a declared path whose length is the growth of its version |
| `ProtocolTheorems.MoveWalksAttempt` | app/migration_generation/store.py:403-430 | every step of an attempt is a declared path whose length is the growth of its version |
| `ProtocolTheorems.VersionsCountEdges` | app/control_plane/state.py:62-77 | in every reachable state a version is 1 plus the number of declared edges walked from the first status |
| `ProtocolTheorems.FinalAttemptsAreImmutable` | app/migration_generation/store.py:359-375 | no run ever changes a completed or failed attempt |
| `ProtocolTheorems.RevisionSupersedes` | app/control_plane/store.py:223-268 | a revision supersedes the current attempt, also while a worker is generating it |
| `ProtocolTheorems.SupersededWorkersAreFenced` | app/migration_generation/store.py:486-503 | once an attempt is superseded, no later claim, completion or failure of it changes any migration, in any run |
| `Replay.SubmitConsumes` | app/control_plane/store.py:205-220 | a request that takes effect consumes exactly the version it expected and leaves its answer under its key |
| `Replay.RepeatsAreReplayed` | app/control_plane/store.py:192-203 | a repeat of a request that succeeded is answered from the store at any later time, and inserting its transaction anywhere in a run changes no later state |
| `Replay.ReusedKeysAreReported` | app/migration_generation/store.py:98-105 | a key used again with other contents is reported, never replayed |
| `Replay.EachRequestTakesEffectOnce` | app/github_publishing/store.py:78-89 | two requests that both take effect differ in operation or key, and on one migration the later one consumes a later version, however lookups and transactions interleave |
| `History.ChainIsHistory` | app/control_plane/store.py:224-262 | the attempts of a migration, followed back from the current one, are numbered 1 to n, each linked to the one before, and leave none out |
| `History.HistoryIsOneChain` | app/migration_generation/store.py:139-177 | that is so in every reachable state |
| `Isolation.TransactionsAreIsolated` | app/github_publishing/store.py:373-465 | a transaction changes the migration, attempts and publication of the one migration it is about, and of no other |
| `Isolation.RunsAreIsolated` | app/migration_generation/tasks.py:42-83 | whatever runs for other migrations leaves a migration's rows as they are |
| `Isolation.DecisionsAreRecorded` | app/control_plane/store.py:223-297 | a decision is logged once with the version it was made on; a revision adds the attempt numbered one after the current one, linked to it, with the developer's reason and instructions; other decisions add none |
| `Database.Store.FindLatest` | app/control_plane/store.py:224-230 | the query finds the attempt with the highest number, if there is one |
| `Effects.FreshExactly` | app/migration_generation/store.py:92-105 | a lookup finds nothing exactly if this operation and key have no answer, reports a key used with other contents, and else gives the stored answer |
| `Effects.RequestsTakeEffectExactly` | app/control_plane/store.py:192-222 | a request changes something exactly if its key is unused, its migration is at the version it names and in a status it is in place in, a publication has an approved and fully passed attempt, and the rows it needs can be added |
| `Effects.OthersAreTold` | app/github_publishing/store.py:78-133 | every other request changes nothing and is told why, in a fixed order of reasons |
| `Effects.DecisionsLeave` | app/control_plane/store.py:223-331 | a decision leaves row, served copy and answer approved, to be revised, snoozed until the requested date or declined, as was asked, and a revision one new attempt that waits |
| `Effects.GenerationsLeave` | app/migration_generation/store.py:121-252 | a generation request leaves its migration planning the revision that waits, as it was asked for, or else one new attempt |
| `Effects.PublicationsLeave` | app/github_publishing/store.py:108-226 | a publication request leaves the migration opening and its one publication queued for the current attempt at that attempt's base and patch: with its tree, commit and check run if they are of the same attempt and without them if not, and with its head and draft in both cases |
| `WorkerEffects.ClaimsLeave` | app/migration_generation/store.py:256-284 | a planning attempt is handed out, and it and its migration are then generating; any other is not, and nothing changes |
| `WorkerEffects.CompletesExactly` | app/migration_generation/store.py:341-375 | evidence is accepted exactly for the generating current attempt of its migration, an approval only with every check passed; otherwise nothing changes, and the first reason is given |
| `WorkerEffects.StoredOnce` | app/migration_generation/store.py:379-401 | storing an artifact leaves what is stored, and at most adds one; then the attempt has one with that digest |
| `WorkerEffects.CompletionsLeave` | app/migration_generation/store.py:349-443 | a completion leaves the evidence in the attempt, its artifact stored, and the migration ready exactly if it approves, to be revised exactly if it asks for that, and blocked exactly if it snoozes or declines |
| `WorkerEffects.FailuresLeave` | app/migration_generation/store.py:460-503 | a failure leaves a planning or generating attempt failed with its code, and its migration blocked with that code exactly if the attempt is current |
| `WorkerEffects.DraftClaimsLeave` | app/github_publishing/store.py:230-309 | a queued publication is handed out as it is, with all it has recorded |
| `WorkerEffects.CheckpointsLeave` | app/github_publishing/store.py:316-370 | a checkpoint sets the one thing it is of, and only while the publication is under way |
| `WorkerEffects.DraftCompletionsLeave` | app/github_publishing/store.py:373-425 | a publication under way completes with all that was made, and its migration is opened with a link to the draft, unless it was since queued for another attempt |
| `WorkerEffects.DraftFailuresLeave` | app/github_publishing/store.py:428-465 | a publication that fails keeps what it has recorded, and its migration is blocked with the same code |
| `Statuses.StatusIsWhatHappened` | app/control_plane/state.py:34-48 | in every reachable state the status of a migration is what its current attempt, the publication of that attempt and the decision since then make it; the served copy has the same columns, the error of whatever failed, and the draft of what was published; an attempt has evidence exactly if it is completed and an error exactly if it failed |
| `DecisionLog.DecisionsStand` | app/control_plane/store.py:253-297 | in every reachable state a migration is approved, snoozed or declined exactly if that is the decision it carries, which is the last one logged about it, made on the version before |
| `Database.Store.ApplyDeveloperAction` | app/control_plane/store.py:168-332 | a decision that takes effect leaves what a decision should, and any other request changes nothing and is told why |
| `Database.Store.QueueGeneration` | app/migration_generation/store.py:80-253 | the same for queueing an attempt |
| `Database.Store.QueueDraft` | app/github_publishing/store.py:67-227 | the same for queueing a publication |
| `Database.Store.Claim` | app/migration_generation/store.py:256-284 | claims exactly as specified, and puts the attempt back if its migration does not own it |
| `Database.Store.Conclude` | app/migration_generation/store.py:341-457 | completes an attempt exactly if its evidence may be accepted, and sends the migration where it recommends; or changes nothing and says why |
| `Database.Store.Fail` | app/migration_generation/store.py:460-512 | fails an attempt, and blocks its migration only if it is current |
| `Database.Store.ClaimDraft` | app/github_publishing/store.py:230-241 | hands a queued publication to one worker |
| `Database.Store.RecordProgress` | app/github_publishing/store.py:316-370 | records a checkpoint only while the publication is under way |
| `Database.Store.ConcludeDraft` | app/github_publishing/store.py:373-425 | completes a publication and opens its migration together, or changes nothing |
| `Database.Store.FailDraft` | app/github_publishing/store.py:428-465 | fails a publication and blocks its migration |
| `Remote.CreateTreeMeans` | app/github_publishing/publisher.py:272-281 | a path is in a posted tree exactly if an entry put it there or the base had it, and no later entry took its place or needed it as a directory or below it; it holds what was put there last |
| `Remote.OverlayMeans` | app/github_publishing/publisher.py:254-270 | for all edits, clashing ones included, the published tree has each edited path with its last edit's content under its old mode, or the regular mode if it is new, and every other path of the base as it was, unless an edit turns its file into a directory or its directory into a file |
| `Remote.ProperEditsArePlaced` | app/github_publishing/publisher.py:254-281 | edits of different paths, none a directory on the way to another, are all in place |
| `Remote.FitsExactly` | app/github_publishing/publisher.py:256-262 | an edit fits exactly if it declares a digest when its path is taken and none when it is free, and what is there is a file, executable or not |
| `Artifacts.LoadEditsIsLoading` | app/github_publishing/patch.py:16-43 | reading, checking, parsing and printing again an object comes to this: the edits of the row's patch, if the object is their text, that is at most 2,000,000 bytes long, and they have 1 to 100 distinct normalized paths; otherwise nothing |
| `Publisher.RunsTerminate` | app/github_publishing/publisher.py:202-397 | every publication ends within fifteen steps |
| `Convergence.UninterruptedOutcome` | app/github_publishing/publisher.py:219-397 | an uninterrupted publication succeeds exactly when the base has not moved, an existing draft is untouched, the edits fit the base and the branch is absent or where it was left; then branch and draft are at the commit and the row names everything written |
| `Convergence.PublishesInFull` | app/github_publishing/publisher.py:219-397 | an uninterrupted publication fails with the error of the first thing in its way, and if there is none makes what was not recorded: the base with the edits, a commit of it on the base alone, the branch at it, one draft and one check run of it |
| `Convergence.UnobstructedExactly` | app/github_publishing/publisher.py:219-262 | the condition under which the results on convergence say a publication goes through is that nothing is in its way |
| `Convergence.CrashConvergence` | app/github_publishing/publisher.py:223-365 | stopped after any step, failed, queued again and run again, a publication goes through exactly when it would have uninterrupted and the stop lost no write, and then reaches the same tree, commit, branch head, draft and row; a check run is made twice only if its number was lost |
| `Convergence.AnyNumberOfCrashesConverges` | app/github_publishing/publisher.py:223-365 | after any number of stops it goes through exactly when it would have uninterrupted and none of them lost a write, and then with the same outcome |
| `Convergence.RevisedFirstPublicationCollides` | app/github_publishing/store.py:131-153 | a publication queued for a new attempt before any draft was recorded goes through exactly when, besides what every publication needs, its branch is absent |
| `Convergence.ARevisedFirstPublicationIsRefused` | app/github_publishing/publisher.py:233-236 | an instance: stopped after recording its branch, a first publication would go through when tried again, and is refused when it is queued for a revision |
| `Convergence.ALostDraftIsNotResumed` | app/github_publishing/publisher.py:330-351 | an instance: stopped between opening its draft and recording it, a publication that would have gone through fails when it is run again |
| `Convergence.AMovedBranchIsNotResumed` | app/github_publishing/publisher.py:225-230 | an instance: so does one stopped between moving the branch of its draft and recording the move |
| `Convergence.ACheckRunIsMadeTwice` | app/github_publishing/publisher.py:367-387 | an instance: stopped between making its check run and recording it, a publication ends with two for its one commit |
| `Resume.FailedPublicationIsReclaimed` | app/github_publishing/store.py:131-153 | after a failure the migration may be published again for the same attempt, and the claim hands the new worker the row the old one left |
| `Resume.InterruptedPublicationConverges` | app/github_publishing/tasks.py:23-45 | failure, queueing, claim and second run together go through exactly when an uninterrupted run would have and no write was lost |
| `DraftTask.TreeEntries` | app/github_publishing/publisher.py:254-270 | the loop builds an entry for every edit, or stops exactly when one does not fit the base |
| `DraftTask.Publish` | app/github_publishing/publisher.py:202-397 | the imperative publisher leaves the repository, the row and the result of the step machine's run, on success and on every error |
| `DraftTask.WillPublishExactly` | app/github_publishing/tasks.py:28-38 | as long as no digest collides, a waiting publication goes through exactly when publishing is not obstructed, its own edits are stored where its reference says, as a text of at most 2,000,000 bytes with distinct paths, and the repository lets them through |
| `DraftTask.PublishMigrationDraft` | app/github_publishing/tasks.py:21-46 | the job skips a publication that is not waiting; otherwise it ends published, with branch and draft at the recorded commit, exactly when publishing is not obstructed, the artifact read from the store loads and the repository lets it through, and when not, failed with its migration blocked, both under the code of the first thing in the way |
| `Paths.TrustedIdempotent` | app/migration_generation/policy.py:76-93 | what the trusted normalizer returns it accepts unchanged |
| `Paths.WorkerPathsAreTrusted` | sandbox-worker/src/policy.ts:79-105 | every path the worker accepts, both normalizers leave alone |
| `Paths.WorkerPathsExactly` | sandbox-worker/src/policy.ts:79-105 | the worker accepts exactly the paths the trusted normalizer leaves alone, except "." and names that end like a key file without having a suffix |
| `Paths.TrustedAcceptsMore` | app/migration_generation/policy.py:91-92 | a file named ".pem" is accepted by one and refused by the other, if lower-casing leaves these four characters alone |
| `Paths.SecretsAreRefused` | app/migration_generation/policy.py:82-92 | whatever the case of its letters and however it is written, no path in a denied directory and none of a denied name gets past either normalizer |
| `Paths.AcceptedPathsStayInside` | app/migration_generation/policy.py:77-81 | what the trusted normalizer returns is relative and has no empty, "." or ".." part, or is the repository itself |
| `Policy.AcceptedExactly` | app/migration_generation/policy.py:109-169 | a proposal is accepted exactly when every edit adds a file where there is none, or replaces a regular file whose digest it declares, at a path that a step it names expects; nothing holds a credential; the contents fit the limit in whatever order they are added up; and every command may be run |
| `Policy.CanonicalFormIsOne` | app/migration_generation/policy.py:121-160 | if the submitted paths differ, a proposal has one canonical form |
| `Policy.ValidatePatch` | app/migration_generation/policy.py:109-182 | exactly the acceptable proposals are accepted, and become their edits in order of submitted path, each under its normalized path, with the same content, the same declared digest and the same steps in order |
| `Policy.SandboxWritesThePatch` | app/migration_generation/policy.py:216-224 | the files uploaded to the sandbox are exactly those of the canonical patch |
| `Applied.AcceptedEditsFit` | app/github_publishing/publisher.py:254-262 | if the policy saw a tree, every canonical edit of a proposal it accepted fits that tree, and declares the digest of what it replaces there |
| `Applied.ConcludedPatchesFit` | app/github_publishing/publisher.py:254-262 | so no edit of a concluded generation is in the way of its publication |
| `Applied.ProposedIsPublished` | app/github_publishing/publisher.py:254-281 | edits whose paths normalize to different ones, none a directory on the way to another, are published as they were proposed: their contents under the modes that were there, and nothing else changed but what makes way |
| `Applied.ExecutedIsPublished` | app/github_publishing/publisher.py:272-281 | so is every patch the worker has agreed to execute |
| `Proposals.ProposalHasOneForm` | app/migration_generation/models.py:80-88 | every proposal has one canonical form, whichever way the policy sorts it |
| `Proposals.ValidatePlan` | app/migration_generation/service.py:35-41 | a plan is accepted exactly when each step concerns known call sites and expects only paths the policy allows |
| `Budget.SumTimeouts` | app/hardening/limits.py:58-64 | the loop adds up what all checks may take together |
| `Budget.SixLongChecksAreRefused` | app/hardening/limits.py:62-64 | an instance: six checks, each within its own limit, are over the default budget |
| `Upload.BundleSorted` | app/migration_generation/policy.py:199-215 | the loop refuses exactly the listings whose uploadable files are more than 1000 or more than 6,000,000 bytes, and otherwise takes every one of them in order |
| `Upload.BundleWorkspace` | app/migration_generation/policy.py:197-215 | the bundle is that of the sorted listing of the whole workspace |
| `Upload.BundleIsAccepted` | sandbox-worker/src/policy.ts:180-186 | whatever the worker's lower-casing, it takes the files of a bundle exactly when it denies none of their paths: they are in normal form and all different |
| `Upload.OnlyKeyNamesAreRefused` | sandbox-worker/src/policy.ts:97-103 | if both sides lower-case alike, what it denies of a bundle is exactly the names that end like a key file's |
| `Upload.BundleMeans` | app/migration_generation/policy.py:199-215 | a file is in a bundle exactly if the workspace has a regular file with those contents, which hold no credential, at a path that normalizes to the file's |
| `Requests.AcceptedChecksAreAllowed` | sandbox-worker/src/policy.ts:124-155 | the worker takes one to ten checks under different identifiers, and the policy allows every command line among them, though one counts characters and the other UTF-16 units |
| `Handover.ChecksFitExactly` | sandbox-worker/src/policy.ts:124-155 | of the commands that the models and the policy accept, the worker takes exactly those none of whose arguments is over 500 UTF-16 units, and no others but ones of an unknown kind |
| `Handover.AcceptedUnlessObjectionable` | sandbox-worker/src/policy.ts:157-201 | a request built from a validated proposal is within the worker's limits: it is refused exactly if its text is too long, the worker denies a path of its files or edits, an edit is of the repository itself, two edits are of one file, or an argument is over 500 UTF-16 units |
| `Shell.ShellRoundTrip` | sandbox-worker/src/policy.ts:203-205 | for every argument list, the shell's token rules read the joined quoted arguments back as exactly that list |
| `Sandbox.RunChecks` | sandbox-worker/src/index.ts:149-196 | checks run in order until one does not pass, each from a command line that reads back as its arguments |
| `Sandbox.Execute` | sandbox-worker/src/index.ts:140-221 | for every behaviour of the sandbox the reply lists the requested checks in order, passed, then at most one unsuccessful, then blocked; it is passed exactly when every check passed and the sandbox was destroyed |
| `Sandbox.ReplyTells` | sandbox-worker/src/index.ts:144-221 | every result tells by its status whether its command ended successfully or not, timed out, broke, or was not run, with exit code and duration; the reply is passed exactly if all ended successfully and failed exactly if one did not, each in a sandbox that was destroyed |
| `Verification.AcceptedRepliesExactly` | app/migration_generation/executor.py:40-70 | any reply is accepted exactly if it is short enough, of the attempt and by the executor that were asked, has the requested checks in order, and does not call itself passed without being so |
| `Verification.OwnReplyIsGuarded` | app/migration_generation/service.py:70-94 | an approval stays one exactly if every command ended successfully in a sandbox that was destroyed, becomes a revision exactly if one did not end so, and else a snooze; any other recommendation stays |
| `Verification.ExecuteAndJudge` | app/migration_generation/executor.py:49-70 | the worker's own reply is accepted exactly when its text is at most 2,000,000 bytes long |
| `Verification.Generate` | app/migration_generation/service.py:110-172 | evidence exists exactly when context and proposal are within the budget, proposal, plan and patch are allowed, the files can be uploaded, the reply is accepted and came within the budget, and the review holds no credential; it approves only what was fully verified |
| `Verification.ApprovalIsVerified` | app/migration_generation/service.py:70-94 | an approval survives the guard exactly when it was recommended and each requested check has its passed result, in order, from a destroyed sandbox |
| `Verification.GuardedEvidenceIsAdmissible` | app/migration_generation/store.py:346-356 | the store never refuses guarded evidence as unverified; an unverified approval has become a revision or a snooze |
| `Verification.VerifiedFilesArePublished` | app/migration_generation/policy.py:216-232 | the files that were verified are the files of the patch that is stored |
| `Executed.ExecutedPathsAreDistinct` | sandbox-worker/src/policy.ts:180-191 | the worker's checks make the normalized paths of every executed patch distinct, whatever its own lower-casing |
| `Executed.ExecutedPatchesLoad` | app/github_publishing/patch.py:16-43 | so every executed patch loads for publication as itself, unless its text is too long |
| `GenerationTask.ValidatedExactly` | app/migration_generation/service.py:117-124 | before anything is executed, context, proposal and the time of its checks are within the budget, and proposal, plan and patch are ones that are accepted |
| `GenerationTask.ReviewedExactly` | app/migration_generation/service.py:131-151 | the bundle is within 1000 files and 6,000,000 bytes; afterwards, the execution was within the budget and the review holds no credential |
| `GenerationTask.RunService` | app/migration_generation/service.py:110-172 | the service reaches faithful evidence, its artifact kept under its digest, exactly when what it calls answers, model, budget, plan, policy, upload limits and worker allow the proposal, the reply is short and quick enough, the review holds no credential, and no other text is stored under the patch's digest |
| `GenerationTask.RunMigrationGeneration` | app/migration_generation/tasks.py:42-83 | the job skips an attempt that is not waiting; otherwise, exactly under those conditions, the attempt ends completed, and else failed; its migration ends ready exactly if it was completed, approval was recommended, every command ended successfully and the sandbox was destroyed, to be revised exactly if a revision was recommended or an approval although a command failed, and else blocked |
| `GenerationTask.APemFileStopsGeneration` | sandbox-worker/src/policy.ts:97-103 | an instance: no generation concludes for a repository with a file named ".pem" |
| `WorldTheorems.HappeningKeeps` | app/github_publishing/tasks.py:21-46 | whatever happens next -- a transaction, a worker's step, a crash, somebody else's push -- keeps what is true of the whole system |
| `WorldTheorems.ExactPatchAlways` | app/github_publishing/store.py:131-153 | in every reachable state a recorded tree is the recorded base overlaid with exactly the edits whose text is the last attempt's stored artifact, a recorded commit has that tree and the base as only parent, and a published row has recorded both and the commit as its head |
| `WorldTheorems.ChecksAlways` | app/github_publishing/store.py:131-153 | in every reachable state a recorded check run is there and is of the recorded commit, its migration and its last attempt, and a published row has recorded one |
| `WorldTheorems.VerifiedBeforePublished` | app/github_publishing/publisher.py:283-302 | every commit ever created belongs to a concluded generation each of whose requested checks passed, in order, in a destroyed sandbox, on the very files the commit changes |
| `WorldTheorems.OwnHeadsOnlyAlways` | app/github_publishing/publisher.py:305-322 | a publisher moves only its migration's own branch, only to the commit it created for its attempt, and replaces only heads recorded for that migration, which it created itself |
| `WorldTheorems.FirstPublicationAdoptsNothingElse` | app/github_publishing/publisher.py:231-236 | a first publication goes on only if there is no branch, or it is at the commit this publication created |
| `WorldTheorems.PublishedHeads` | app/github_publishing/store.py:373-425 | when a publication completes and nobody touched its branch, branch and draft are at the recorded commit and the migration is opened |
| `WorldTheorems.ClaimsStartWorkers` | app/github_publishing/tasks.py:23-38 | claiming a queued publication starts a worker with the row's own edits exactly if their text can be loaded; its artifact is always there |
| `WorldTheorems.ClaimsCanConverge` | app/github_publishing/store.py:230-309 | every publication worker meets the assumptions of crash convergence |
| `WorldTheorems.ClaimsAreNotDisowned` | app/github_publishing/store.py:373-404 | whatever happens while its worker is at work, completing a publication with the context its claim returned is never refused |
| `WorldTheorems.JobsMayHappen` | app/migration_generation/tasks.py:42-83 | a generation job that gets to its evidence is one of the happenings all these results are about |
| `WorldTheorems.WorldRunsTheProtocol` | app/github_publishing/tasks.py:21-46 | the database of the whole system runs the protocol, so all that holds of every run of the protocol holds of it |
| `Json.CharRoundTrip` | app/migration_generation/policy.py:170-174 | the escape of any character, wide ones as surrogate pairs, reads back as it |
| `Json.EscapeIs` | app/migration_generation/policy.py:170-174 | how each character is written: in two characters, as it is, or by its code in lower-case hexadecimal |
| `Json.PrintedIsAscii` | app/migration_generation/policy.py:170-174 | a printed value is ASCII, so that its limit in bytes is one in characters |
| `Json.UnhexExactly` | app/github_publishing/patch.py:26-29 | hexadecimal digits are read in either case, and nothing else is |
| `Json.UnicodeExactly` | app/github_publishing/patch.py:26-29 | a character is read exactly from its code or from the two halves of a pair |
| `Json.LaterStands` | app/github_publishing/patch.py:26-29 | of several members of one key the last stands |
| `Json.ReadIsWellFormed` | app/github_publishing/patch.py:26-29 | whatever is read has its keys in order, each of them once |
| `Json.ParsePrint` | app/github_publishing/patch.py:26-29 | a printed value parses back to itself |
| `Artifacts.RenderedArtifactLoads` | app/github_publishing/patch.py:16-43 | a rendered artifact loads as exactly its edits, or not at all: if it is too long, its paths collide or an edit is not one the models accept |
| `Artifacts.OnlyProperArtifactsLoad` | app/github_publishing/patch.py:16-43 | whatever loads, whoever wrote it, is short enough, has the expected digest and version, is printed in the one way its value is, and holds 1 to 100 edits of different files |
| `Artifacts.RenderingIsInjective` | app/migration_generation/policy.py:170-182 | different edits have different artifacts |
| `Artifacts.AcceptedArtifactLoads` | app/migration_generation/policy.py:121-182 | the artifact of an accepted proposal loads as its canonical edits exactly when its paths normalize to different ones and the text is short enough |
| `Unloadable.ADuplicateDoesNotLoad` | app/github_publishing/patch.py:37-39 | an instance: a proposal that edits "a.py" and "./a.py" is accepted, and its artifact does not load |
| `Unloadable.LineBreaksDoNotLoad` | app/github_publishing/patch.py:22-23 | an instance: a proposal to add a file of more than one and at most two million line breaks is accepted, and its artifact does not load |
| `Artifacts.LowerHexExactly` | app/ingestion/storage.py:41 | a digest may be given with any of its letters in upper case, and in no other way |
| `Artifacts.OnlyDigestsAreNamed` | app/ingestion/storage.py:57-61 | nothing but a digest is ever taken from a reference, whose plain form is that digest's own reference |
| `Artifacts.ReferenceNamesDigest` | app/ingestion/storage.py:57-61 | the reference a store hands out names the digest it was made from |
| `Artifacts.ArtifactStore.Put` | app/ingestion/storage.py:39-55 | content is stored under its own digest and nothing stored is ever overwritten |
| `Artifacts.ArtifactStore.Read` | app/ingestion/storage.py:57-65 | what is read has the digest its reference names, whatever happened to the files |
| `Artifacts.StoreAndLoad` | app/ingestion/storage.py:39-65 | stored, with anything else stored after it, and read back, an accepted patch loads as its canonical edits |
| `Cursors.Base64RoundTrip` | app/control_plane/store.py:89-91 | base64 decoding inverts encoding |
| `Cursors.CursorRoundTrip` | app/control_plane/store.py:78-91 | a cursor reads back as its timestamp and identifier, bars in the identifier included |
| `Pagination.PageIs` | app/control_plane/store.py:94-125 | a request is refused exactly if its cursor does not read back; otherwise the page holds as many of the remaining rows as it may, and leads on exactly if there are more |
| `Pagination.NewestFirstMeans` | app/control_plane/store.py:94-125 | the order of the pages is by time, newest first, and at one time by identifier, greatest first |
| `Pagination.EveryRecordOnce` | app/control_plane/store.py:94-125 | following the cursors visits every record present at the start exactly once, newest first, as one of the tables had it, whatever is inserted or updated between pages |
| `Pagination.FollowVisitsTheTable` | app/repository_intelligence/store.py:251-280 | for a fixed table, and while newer records arrive, the visit is exactly the table at the start and takes the stated number of pages |
| `Pagination.PageCountIsLeast` | app/ingestion/store.py:449-471 | that number is the least whose pages can hold the rows, and one for none |
| `Depth.EnforceJsonDepth` | app/ingestion/security.py:82-91 | the stack traversal refuses a document exactly when its recursive nesting exceeds the limit |
| `Workspace.WalkEntries` | app/repository_intelligence/workspace.py:62-76 | the walk yields every file and link outside ignored directories, each as often as it is there |
| `Workspace.FoundExactly` | app/repository_intelligence/workspace.py:62-76 | something is found exactly if it is a file or a link at the end of its path and no directory on the way is an ignored one |
| `Workspace.ListingOnce` | app/repository_intelligence/workspace.py:62-76 | which is once, with different paths, if names are proper |
| `Workspace.ScanOrderIsIrrelevant` | app/repository_intelligence/workspace.py:62-88 | the sorted listing does not depend on the order in which directories are scanned, at any level |
| `Workspace.FingerprintSorted` | app/repository_intelligence/workspace.py:79-106 | the loop refuses exactly the listings over a limit, and otherwise feeds the digest every entry in order |
| `Workspace.WorkspaceFingerprint` | app/repository_intelligence/workspace.py:79-106 | the fingerprint is that of the sorted listing of the whole tree |
| `FanoutEffects.CommitsInsertExactly` | app/ingestion/store.py:73-181 | a commit takes effect exactly if its key is unused and the identifiers of its new events are free; it inserts just those events, each with a waiting job for every enabled repository, answers with all its events in order, and keeps that answer; otherwise it changes nothing |
| `FanoutEffects.JobsMove` | app/repository_intelligence/store.py:36-79 | every action moves every job just as it should: to analyzing when it is claimed, then to done by the worker that holds its context or to failed; the context is handed out exactly by the claim of a waiting job of an enabled repository whose metadata are there |
| `Fanout.ReportsAddUp` | app/ingestion/store.py:119-145 | the fan-out counts reported by commits that took effect add up to the number of pairs of an event and a repository that have a job |
| `Fanout.FanOutExactlyOnce` | app/ingestion/store.py:89-145 | an event first stored by a commit has at all later times a job for exactly the repositories enabled then |
| `Fanout.CommitsTakeEffectOnce` | app/ingestion/store.py:59-71 | a second commit of a key never takes effect; it is replayed, or refused if it is of another artifact |
| `Fanout.AtMostOneMigration` | app/repository_intelligence/store.py:176-212 | after any run each event and repository have at most one migration, under the name made of them, and their job exists and was claimed |
| `Fanout.MigrationsAreFound` | app/repository_intelligence/store.py:167-212 | and they have one exactly if a worker that had claimed the job completed it as affected |
| `Fanout.ClaimsHandOutOnce` | app/repository_intelligence/store.py:36-47 | a job's context is handed out once: claiming it again at any later time changes nothing |
| `Fanout.FanoutStore.Store` | app/ingestion/store.py:49-181 | the loop answers from the store or makes exactly the specified inserts, and a refused insert puts everything back |
| `Fanout.FanoutStore.Move` | app/repository_intelligence/store.py:36-47 | a job changes status only from the status its worker expects |
| `Fanout.FanoutStore.Claim` | app/repository_intelligence/store.py:36-79 | a waiting job's context goes to one worker, and to none if the repository is disabled or its metadata are missing |
| `Database.Store.AddMigration` | app/repository_intelligence/store.py:196-212 | inserts a queued migration unless its identifier is there |
| `Discovery.CompleteJob` | app/repository_intelligence/store.py:82-173 | completing a job inserts the migration of an affected one and ends the job, in both tables, and only for the worker that holds the context |
| `Discovery.MigrationsAreOfJobs` | app/repository_intelligence/store.py:167-212 | however jobs and transactions interleave, every migration the stores ever hold is of one claimed job, has its name and its repository, and is the only one of its event and repository |
| `Discovery.StoresHoldWhatWasFound` | app/repository_intelligence/store.py:167-212 | and the stores hold a migration for an event and a repository exactly if their job was found affected |

## Left out

- Workspaces: one workspace is modelled; every query of the source is restricted to one.
- Timestamps, the audit log and row-level metadata, which no transaction reads back.
- Draft URL and node id: the URL is validated to be the one the number determines, the node id is a second handle on it; titles and bodies are not modelled.
- `synchronize_action` and the routers that call it (readying, closing or commenting a draft after a decision).
- HTTP, OAuth, webhooks, credentials and permissions, GitHub's JSON shapes and response limits, and the enablement flags: what stops a job before its first step is a parameter, a refused or failed call is a failed step, and a worker may stop after any step.
- Reopening snoozed or declined migrations, completion, cancellation: declared edges that no code takes.
- The secret patterns, byte lengths and lower-casing are functions the policy is given; lower-casing maps each character by itself, and a suffix is taken as Python up to 3.13 takes it.
- The list of changed files that accompanies a patch in its evidence, and the rest of the evidence that no transaction looks at.
- Field patterns and length limits of request models for what is not modelled (summaries, reasons, generators and the like); that those hold is part of a service answering.
- Loading of planning context, snapshots, change and impact evidence, and the intelligence service: a generation is given its snapshot, plan, proposal and recommendation, the sizes of its context and its proposal, and whether each of them could be had.
- GenerationTask.RunService: what the repository holds at an edited path and the listing of its files are given separately; that the two are of one checkout is not used.
- Budget.SumTimeouts: limits are given as numbers; reading them from the environment is not modelled.
- Sandbox.Execute: logs and their redaction are not modelled beyond the length of the reply, and the clock appears only as the durations commands report.
- Json.ParsePrint: the reader knows no numbers, booleans or white space, none of which survives in an accepted artifact; lone surrogates, which the models refuse, are not characters here.
- Cursors.Base64RoundTrip: Python's decoder skips characters outside the alphabet; here they are refused.
- Pagination.EveryRecordOnce: a page holds at least one row, as the routers demand; rows are inserted and updated but not deleted between pages.
- Artifacts.ArtifactStore.Put: directories, permissions and flushing are not modelled; storing is atomic.
- Fanout.FanoutStore.Store: source health, artifact rows and evidence links are not modelled.
- Workspace.FingerprintSorted: the digest is kept as the list of texts fed to it; their unframed concatenation is not injective and nothing is claimed of it.
- DraftTask.PublishMigrationDraft: whatever refuses an artifact's content is recorded under the publisher's own code, also where a model or the path policy refuses it under another.
- GenerationTask.RunMigrationGeneration: the code of a failure is given, not derived from what failed; codes are recorded without being trimmed to their permitted characters.
- DraftTask.Publish: that GitHub answers every call is assumed; a run that stops or fails between two of its steps is what `Convergence` is about.
- Fanout.AtMostOneMigration: snapshots, dependencies, assessments and call sites that are stored with a completed job are not modelled.
- Analysis of repositories, OpenAPI case generation, prompts, metrics, demo data, the frontend.
