// What holds of the whole system after any run: whatever developers, workers, crashes and other
// writers to the repositories do, and in whatever order.
module WorldTheorems {
  import opened Artifacts
  import opened Git
  import opened Options
  import opened Lifecycle
  import opened Remote
  import opened Rows
  import opened Policy
  import opened Text
  import opened Transactions
  import opened Coupling
  import opened Verification
  import opened Publisher
  import opened Protocol
  import opened Convergence
  import opened World
  import opened WorldInvariant
  import opened WorldSteps
  import opened WorldWorker
  import GenerationTask

  // ----- Every run keeps the invariant -----

  lemma HappeningKeeps(w: World, h: Happening)
    requires WorldOk(w) && May(w, h)
    ensures WorldOk(Happen(w, h))
  {
    match h
    case Claimed(p) => ClaimKeeps(w, p);
    case WorkerSteps(p) => WorkerKeeps(w, p);
    case WorkerFails(p, code) => AbandonKeeps(w, p, code);
    case WorkerDies(p) => DeathKeeps(w, p);
    case _ => OutsideKeeps(w, h);
  }

  lemma OutsideKeeps(w: World, h: Happening)
    requires WorldOk(w) && May(w, h)
    requires !h.Claimed? && !h.WorkerSteps? && !h.WorkerFails? && !h.WorkerDies?
    ensures WorldOk(Happen(w, h))
  {
    match h
    case Transaction(event) => TransactionKeeps(w, event);
    case ArtifactPut(objectRef, text) => ArtifactPutKeeps(w, objectRef, text);
    case Generated(g, artifact, objectRef) => ConclusionKeeps(w, g, artifact, objectRef);
    case EnvironmentActs(repository, after) => EnvironmentKeeps(w, repository, after);
  }

  lemma ClaimDatabase(w: World, p: Id)
    ensures Claim(w, p).db == ClaimPublication(w.db, p).0
  {
  }

  lemma ClaimKeepsDatabase(w: World, p: Id)
    requires Inv(w.db)
    ensures Inv(Claim(w, p).db)
  {
    ClaimPublicationKeeps(w.db, p);
    ClaimDatabase(w, p);
  }

  lemma ClaimKeeps(w: World, p: Id)
    requires WorldOk(w)
    ensures WorldOk(Claim(w, p))
  {
    ClaimKeepsDatabase(w, p);
    ClaimKeepsPublishing(w, p);
  }

  lemma AbandonKeeps(w: World, p: Id, code: string)
    requires WorldOk(w)
    ensures WorldOk(Abandon(w, p, code))
  {
    FailPublicationKeeps(w.db, p, code);
    AbandonKeepsPublishing(w, p, code);
  }

  lemma WorkerKeeps(w: World, p: Id)
    requires WorldOk(w) && p in w.workers && Publisher.Ready(w.workers[p])
    ensures WorldOk(StepWorker(w, p))
  {
    assert WorkerFine(w, p, w.workers[p]);
    WorkerKeepsDatabase(w, p);
    WorkerKeepsPublishing(w, p);
  }

  lemma {:induction false} RunKeepsWorld(w: World, hs: seq<Happening>)
    requires WorldOk(w) && Possible(w, hs)
    ensures WorldOk(After(w, hs))
    decreases |hs|
  {
    if hs != [] {
      HappeningKeeps(w, hs[0]);
      RunKeepsWorld(Happen(w, hs[0]), hs[1..]);
    }
  }

  lemma InitialOk(lower: Lowering, remotes: map<Id, Repository>)
    ensures WorldOk(Initial(lower, remotes))
  {
    EmptyOk();
  }

  lemma Reachable(lower: Lowering, remotes: map<Id, Repository>, hs: seq<Happening>)
    requires Possible(Initial(lower, remotes), hs)
    ensures WorldOk(After(Initial(lower, remotes), hs))
  {
    InitialOk(lower, remotes);
    RunKeepsWorld(Initial(lower, remotes), hs);
  }

  // ----- Exactly the stored patch is published -----

  // The stored artifact of a publication's attempt is the text of these edits.
  ghost predicate StoredEdits(w: World, row: Publication, edits: seq<Edit>) {
    && row.lastAttempt in w.db.attempts && w.db.attempts[row.lastAttempt].data.evidence.Some?
    && var artifact := (row.lastAttempt, w.db.attempts[row.lastAttempt].data.evidence.value.patch.artifact);
       && artifact in w.db.artifacts
       && w.db.artifacts[artifact].objectRef in w.objects
       && w.objects[w.db.artifacts[artifact].objectRef] == Render(edits)
  }

  // A recorded tree is the recorded base overlaid with exactly the edits of the last attempt's
  // stored artifact; a recorded commit has that tree and the base as its only parent; and a
  // published row has recorded all of it, and the commit as the head.
  lemma ExactPatch(w: World, p: Id)
    requires WorldOk(w) && p in w.db.publications
    ensures var row := w.db.publications[p];
      && StoredEdits(w, row, row.patch.edits)
      && (forall edits | StoredEdits(w, row, edits) :: edits == row.patch.edits)
      && (row.tree.Some? ==> row.tree.value == Overlay(row.base.tree, row.patch.edits))
      && (row.commit.Some? ==>
            row.commit.value.tree == Overlay(row.base.tree, row.patch.edits) &&
            row.commit.value.parents == [row.base] &&
            row.commit.value.message == MigrationMessage(row.migration))
      && (row.status == Published ==>
            row.tree.Some? && row.commit.Some? && row.pull.Some? && row.remoteHead == row.commit)
  {
    var row := w.db.publications[p];
    assert RowFine(w, row);
    StoredArtifact(w, row.lastAttempt);
    forall edits | StoredEdits(w, row, edits) ensures edits == row.patch.edits {
      RenderingIsInjective(edits, row.patch.edits);
    }
  }

  lemma StoredArtifact(w: World, a: Id)
    requires Inv(w.db) && a in w.db.attempts && w.db.attempts[a].status == AttemptCompleted
    ensures ArtifactStored(w.db.artifacts, a, w.db.attempts[a])
  {
    var m := w.db.attempts[a].migration;
    assert RowsOk(w.db, m);
    assert AttemptOk(w.db, a, w.db.attempts[a], w.db.migrations[m].currentAttempt);
  }

  lemma ExactPatchAlways(lower: Lowering, remotes: map<Id, Repository>, hs: seq<Happening>, p: Id)
    requires Possible(Initial(lower, remotes), hs)
    requires p in After(Initial(lower, remotes), hs).db.publications
    ensures var w := After(Initial(lower, remotes), hs);
      var row := w.db.publications[p];
      && StoredEdits(w, row, row.patch.edits)
      && (forall edits | StoredEdits(w, row, edits) :: edits == row.patch.edits)
      && (row.tree.Some? ==> row.tree.value == Overlay(row.base.tree, row.patch.edits))
      && (row.commit.Some? ==>
            row.commit.value.tree == Overlay(row.base.tree, row.patch.edits) &&
            row.commit.value.parents == [row.base])
      && (row.status == Published ==>
            row.tree.Some? && row.commit.Some? && row.pull.Some? && row.remoteHead == row.commit)
  {
    Reachable(lower, remotes, hs);
    ExactPatch(After(Initial(lower, remotes), hs), p);
  }

  // ----- Check runs are of what is published -----

  // A recorded check run is there, and is one of the recorded commit, made for the row's migration and
  // its last attempt; and a published row has recorded one.
  ghost predicate Checked(w: World, row: Publication) {
    && (row.status == Published ==> row.check.Some?)
    && (row.check.Some? ==>
          var checks := RemoteFor(w, row).checks;
          && row.commit.Some? && 1 <= row.check.value <= |checks|
          && checks[row.check.value - 1] == CheckRun(row.commit.value, row.migration, row.lastAttempt))
  }

  lemma ChecksAlways(lower: Lowering, remotes: map<Id, Repository>, hs: seq<Happening>, p: Id)
    requires Possible(Initial(lower, remotes), hs)
    requires p in After(Initial(lower, remotes), hs).db.publications
    ensures var w := After(Initial(lower, remotes), hs); Checked(w, w.db.publications[p])
  {
    Reachable(lower, remotes, hs);
    FineRowsAreChecked(After(Initial(lower, remotes), hs), p);
  }

  lemma FineRowsAreChecked(w: World, p: Id)
    requires PublishingOk(w) && p in w.db.publications
    ensures Checked(w, w.db.publications[p])
  {
    assert RowFine(w, w.db.publications[p]);
  }

  // ----- Verified before published -----

  // What stands behind a commit: a concluded generation of its attempt whose every requested check
  // passed in a sandbox that was destroyed, run on the very files the commit changes.
  ghost predicate Backed(w: World, c: Creation) {
    && c.attempt in w.generations
    && var g := w.generations[c.attempt];
       && g.context == AttemptContext(c.migration, c.attempt)
       && Concludes(g)
       && FullyVerified(RequestOf(g), g.reply)
       && multiset(RequestOf(g).edits) == multiset(Files(CanonicalPatch(g)))
       && c.commit.tree == Overlay(g.inputs.base.tree, CanonicalPatch(g))
       && c.commit.parents == [g.inputs.base]
       && DistinctPaths(CanonicalPatch(g))
  }

  lemma VerifiedBeforeCreated(w: World, c: Creation)
    requires WorldOk(w) && c in w.created
    ensures Backed(w, c)
  {
    assert CommitFine(w.db.attempts, c);
    var row := w.db.attempts[c.attempt];
    assert GenerationFine(w.generations, c.attempt, row);
    var g := w.generations[c.attempt];
    AttemptEvidence(w.db, c.attempt);
    ApprovalIsVerified(g, row.data.evidence.value.patch.artifact);
    VerifiedFilesArePublished(g);
  }

  lemma AttemptEvidence(db: Db, a: Id)
    requires Inv(db) && a in db.attempts && db.attempts[a].status == AttemptCompleted
    ensures AttemptRowOk(a, db.attempts[a], db.migrations[db.attempts[a].migration].currentAttempt)
  {
    var m := db.attempts[a].migration;
    assert RowsOk(db, m);
    assert AttemptOk(db, a, db.attempts[a], db.migrations[m].currentAttempt);
  }

  // Every commit the publisher ever creates is backed so.
  lemma VerifiedBeforePublished(lower: Lowering, remotes: map<Id, Repository>, hs: seq<Happening>, c: Creation)
    requires Possible(Initial(lower, remotes), hs)
    requires c in After(Initial(lower, remotes), hs).created
    ensures Backed(After(Initial(lower, remotes), hs), c)
  {
    Reachable(lower, remotes, hs);
    VerifiedBeforeCreated(After(Initial(lower, remotes), hs), c);
  }

  // ----- Only own heads are replaced -----

  lemma OnlyStepsMoveBranches(w: World, p: Id, repository: Id, b: Ref)
    requires p in w.workers && Publisher.Ready(w.workers[p])
    requires Head(RemoteOf(StepWorker(w, p), repository), b) != Head(RemoteOf(w, repository), b)
    ensures var x := w.workers[p];
      var r := RemoteFor(w, x.record);
      && Step(x, r).Proceed? && repository == x.record.repository
      && RemoteOf(StepWorker(w, p), repository) == Step(x, r).remote && RemoteOf(w, repository) == r
  {
  }

  // A worker's step moves no branch but its own, and that only to the commit it created; what it
  // replaces, if anything, is a head recorded for the same migration, hence a commit created for it.
  ghost predicate MovesOwnHead(w: World, x: Worker, repository: Id, b: Ref, after: Option<Commit>) {
    var before := Head(RemoteOf(w, repository), b);
    && b == MigrationBranch(x.record.migration) && repository == x.record.repository
    && x.commit.Some? && after == x.commit
    && Creation(x.record.migration, x.record.lastAttempt, x.commit.value) in w.created
    && (before.Some? ==>
          x.record.pull.Some? &&
          RecordedHead(x.record.migration, before.value) in w.recorded &&
          exists a :: Creation(x.record.migration, a, before.value) in w.created)
  }

  lemma OwnHeadsOnly(w: World, p: Id, repository: Id, b: Ref)
    requires PublishingOk(w) && p in w.workers && Publisher.Ready(w.workers[p])
    requires Head(RemoteOf(StepWorker(w, p), repository), b) != Head(RemoteOf(w, repository), b)
    ensures MovesOwnHead(w, w.workers[p], repository, b, Head(RemoteOf(StepWorker(w, p), repository), b))
  {
    OnlyStepsMoveBranches(w, p, repository, b);
    StepMovesOwnHead(w, p, b);
  }

  lemma StepMovesOwnHead(w: World, p: Id, b: Ref)
    requires PublishingOk(w) && p in w.workers && Publisher.Ready(w.workers[p])
    requires var x := w.workers[p];
      var r := RemoteFor(w, x.record);
      Step(x, r).Proceed? && Head(Step(x, r).remote, b) != Head(r, b)
    ensures var x := w.workers[p];
      MovesOwnHead(w, x, x.record.repository, b, Head(Step(x, RemoteFor(w, x.record)).remote, b))
  {
    var x := w.workers[p];
    var r := RemoteFor(w, x.record);
    assert WorkerFine(w, p, x);
    StepTouchesOwnBranch(x, r);
    StepReplacesRecordedHead(w.created, w.recorded, w.touched, x, r);
    if Head(r, b).Some? { assert HeadFine(w.created, RecordedHead(x.record.migration, Head(r, b).value)); }
  }

  lemma StepReplacesRecordedHead(created: set<Creation>, recorded: set<RecordedHead>,
                                 touched: set<(Id, Ref)>, x: Worker, r: Repository)
    requires MadeFine(created, x) && RecordFine(created, x.record, x.evidence) && SeenFine(r, touched, x)
    requires x.record.remoteHead.Some? ==> RecordedHead(x.record.migration, x.record.remoteHead.value) in recorded
    requires Step(x, r).Proceed?
    requires Head(Step(x, r).remote, x.record.branch) != Head(r, x.record.branch)
    ensures x.commit.Some? && Head(Step(x, r).remote, x.record.branch) == x.commit
    ensures Creation(x.record.migration, x.record.lastAttempt, x.commit.value) in created
    ensures Head(r, x.record.branch).Some? ==>
              x.record.pull.Some? && Head(r, x.record.branch) == x.record.remoteHead &&
              RecordedHead(x.record.migration, x.record.remoteHead.value) in recorded
  {
  }

  lemma OwnHeadsOnlyAlways(lower: Lowering, remotes: map<Id, Repository>, hs: seq<Happening>, p: Id,
                           repository: Id, b: Ref)
    requires Possible(Initial(lower, remotes), hs)
    requires May(After(Initial(lower, remotes), hs), WorkerSteps(p))
    requires var w := After(Initial(lower, remotes), hs);
      Head(RemoteOf(StepWorker(w, p), repository), b) != Head(RemoteOf(w, repository), b)
    ensures var w := After(Initial(lower, remotes), hs);
      MovesOwnHead(w, w.workers[p], repository, b, Head(RemoteOf(StepWorker(w, p), repository), b))
  {
    Reachable(lower, remotes, hs);
    OwnHeadsOnly(After(Initial(lower, remotes), hs), p, repository, b);
  }

  // A first publication goes on past its branch only if there is none, or it is at the commit this
  // publication created before.
  lemma FirstPublicationAdoptsNothingElse(w: World, p: Id)
    requires WorldOk(w) && p in w.workers && Exposed(w.workers[p]) && w.workers[p].record.pull.None?
    ensures var x := w.workers[p];
      var head := Head(RemoteFor(w, x.record), x.record.branch);
      head.Some? ==>
        head == x.record.commit &&
        Creation(x.record.migration, x.record.lastAttempt, head.value) in w.created
  {
    assert WorkerFine(w, p, w.workers[p]);
  }

  // ----- What a publication leaves when it completes -----

  ghost predicate PublishedAt(w: World, p: Id) {
    && p in w.db.publications
    && var row := w.db.publications[p];
       && row.status == Published && row.commit.Some? && row.pull.Some?
       && Head(RemoteFor(w, row), row.branch) == row.commit
       && HasPull(RemoteFor(w, row), row.pull.value)
       && PullHead(RemoteFor(w, row), row.pull.value) == row.commit
       && row.migration in w.db.migrations && w.db.migrations[row.migration].status == PrOpened
  }

  // If nobody has touched the branch since the worker read it, then when the publication completes
  // the branch and the draft are both at the recorded commit.
  lemma PublishedHeads(w: World, p: Id)
    requires WorldOk(w) && p in w.workers && Publisher.Ready(w.workers[p]) && w.workers[p].pc == Finish
    requires BranchOf(w.workers[p]) !in w.touched
    ensures PublishedAt(StepWorker(w, p), p)
  {
    var x := w.workers[p];
    assert WorkerFine(w, p, x);
    FinishPublishes(w, p);
  }

  lemma FinishPublishes(w: World, p: Id)
    requires Inv(w.db) && p in w.workers && WorkerFine(w, p, w.workers[p]) && w.workers[p].pc == Finish
    requires BranchOf(w.workers[p]) !in w.touched
    ensures PublishedAt(StepWorker(w, p), p)
  {
    var x := w.workers[p];
    var result := PublicationResult(x.tree.value, x.commit.value, x.pull.value, x.check.value);
    FinishIsAccepted(w, p, result);
    assert RowsOk(w.db, w.db.publications[p].migration);
  }

  // ----- A claim is good until its worker is done -----

  // The worker is there at every point of the run.
  ghost predicate AtWork(w: World, hs: seq<Happening>, p: Id)
    requires Possible(w, hs)
    decreases |hs|
  {
    p in w.workers && (hs == [] || AtWork(Happen(w, hs[0]), hs[1..], p))
  }

  lemma ClaimLeavesWorkers(w: World, q: Id, p: Id)
    requires PublishingOk(w) && p in w.workers
    ensures p in Claim(w, q).workers && Claim(w, q).workers[p] == w.workers[p]
  {
    WorkersPublish(w, p);
  }

  lemma StepKeepsRecord(w: World, q: Id, p: Id)
    requires q in w.workers && Publisher.Ready(w.workers[q])
    requires p in w.workers && p in StepWorker(w, q).workers
    ensures StepWorker(w, q).workers[p].record == w.workers[p].record
  {
    var x := w.workers[q];
    if Step(x, RemoteFor(w, x.record)).Proceed? { StepTouchesOwnBranch(x, RemoteFor(w, x.record)); }
  }

  lemma RecordStays(w: World, h: Happening, p: Id)
    requires WorldOk(w) && May(w, h) && p in w.workers && p in Happen(w, h).workers
    ensures Happen(w, h).workers[p].record == w.workers[p].record
  {
    match h
    case Claimed(q) => ClaimLeavesWorkers(w, q, p);
    case WorkerSteps(q) => StepKeepsRecord(w, q, p);
    case _ =>
  }

  lemma {:induction false} RecordStaysAtWork(w: World, hs: seq<Happening>, p: Id)
    requires WorldOk(w) && Possible(w, hs) && AtWork(w, hs, p)
    ensures WorldOk(After(w, hs)) && p in After(w, hs).workers
    ensures After(w, hs).workers[p].record == w.workers[p].record
    decreases |hs|
  {
    if hs != [] {
      HappeningKeeps(w, hs[0]);
      RecordStays(w, hs[0], p);
      RecordStaysAtWork(Happen(w, hs[0]), hs[1..], p);
    }
  }

  lemma ClaimStartsWorker(w: World, p: Id)
    requires ClaimPublication(w.db, p).1.Some? && Opened(w, ClaimPublication(w.db, p).1.value).Some?
    ensures p in Claim(w, p).workers
    ensures PublicationContext(p, Claim(w, p).workers[p].record) == ClaimPublication(w.db, p).1.value
  {
  }

  lemma WorkerIsAccepted(w: World, p: Id, result: PublicationResult)
    requires Inv(w.db) && PublishingOk(w) && p in w.workers
    ensures CompletePublication(w.db, PublicationContext(p, w.workers[p].record), result).1 == Done(())
  {
    assert WorkerFine(w, p, w.workers[p]);
    FinishIsAccepted(w, p, result);
  }

  lemma AcceptedAtWork(w: World, p: Id, hs: seq<Happening>, context: PublicationContext, result: PublicationResult)
    requires WorldOk(w) && Possible(w, hs) && AtWork(w, hs, p)
    requires context == PublicationContext(p, w.workers[p].record)
    ensures CompletePublication(After(w, hs).db, context, result).1 == Done(())
  {
    RecordStaysAtWork(w, hs, p);
    WorkerIsAccepted(After(w, hs), p, result);
  }

  // Whatever happens while its worker is at work, completing a publication with the context that
  // its claim returned is never refused: neither is the publication taken away nor its migration.
  lemma ClaimsAreNotDisowned(w: World, p: Id, hs: seq<Happening>, result: PublicationResult)
    requires WorldOk(w)
    requires ClaimPublication(w.db, p).1.Some? && Opened(w, ClaimPublication(w.db, p).1.value).Some?
    requires Possible(Claim(w, p), hs) && AtWork(Claim(w, p), hs, p)
    ensures CompletePublication(After(Claim(w, p), hs).db, ClaimPublication(w.db, p).1.value, result).1 == Done(())
  {
    ClaimKeeps(w, p);
    ClaimStartsWorker(w, p);
    AcceptedAtWork(Claim(w, p), p, hs, ClaimPublication(w.db, p).1.value, result);
  }

  lemma OpenedExactly(w: World, p: Id, record: Publication, ev: Evidence)
    requires record.lastAttempt in w.db.attempts && w.db.attempts[record.lastAttempt].data.evidence == Some(ev)
    requires StoredEdits(w, record, record.patch.edits)
    ensures Opened(w, PublicationContext(p, record)) ==
      if Loadable(w.lower, record.patch.edits) then Some(Start(record, ev, record.patch.edits)) else None
  {
  }

  lemma QueuedIsStored(w: World, p: Id) returns (ev: Evidence)
    requires WorldOk(w) && p in w.db.publications
    ensures var row := w.db.publications[p];
      && row.lastAttempt in w.db.attempts && w.db.attempts[row.lastAttempt].data.evidence == Some(ev)
      && StoredEdits(w, row, row.patch.edits)
  {
    var row := w.db.publications[p];
    assert RowFine(w, row);
    StoredArtifact(w, row.lastAttempt);
    ev := w.db.attempts[row.lastAttempt].data.evidence.value;
  }

  // A claim starts a worker exactly if the text of the row's patch can be loaded: its artifact is
  // always there. The worker starts at the beginning, with the row and with the edits of its patch.
  lemma ClaimsStartWorkers(w: World, p: Id)
    requires WorldOk(w) && p in w.db.publications && w.db.publications[p].status == PublicationQueued
    ensures var w' := Claim(w, p);
      && p in w'.db.publications && w'.db.publications[p].status == Publishing
      && (p in w'.workers <==> Loadable(w.lower, w.db.publications[p].patch.edits))
      && (p in w'.workers ==>
            && w'.workers[p].pc == ReadBase && w'.workers[p].record == w'.db.publications[p]
            && w'.workers[p].edits == w.db.publications[p].patch.edits)
  {
    var record := w.db.publications[p].(status := Publishing, errorCode := None);
    ClaimIs(w, p);
    var ev := QueuedIsStored(w, p);
    OpenedExactly(w, p, record, ev);
    if p in w.workers { WorkersPublish(w, p); }
  }

  // A claimed publication meets the assumptions under which interrupted runs converge.
  lemma ClaimsCanConverge(w: World, p: Id)
    requires WorldOk(w) && p in w.workers
    ensures var x := w.workers[p];
      OwnBranch(x.record, RemoteFor(w, x.record)) && ClaimedFor(x.record, x.evidence)
  {
    assert WorkerFine(w, p, w.workers[p]);
  }

  // A generation job that gets to its evidence is one of the things that may happen: what holds of
  // every generation of the system holds of its own.
  lemma JobsMayHappen(w: World, job: GenerationTask.Job, ctx: AttemptContext, artifact: Id, objectRef: string)
    requires GenerationTask.WillConclude(job, ctx)
    requires objectRef in w.objects && w.objects[objectRef] == Render(GenerationTask.PatchOf(job))
    ensures May(w, Generated(GenerationTask.GenerationOf(job, ctx), artifact, objectRef))
  {
    GenerationTask.OwnReplyConcludes(job, ctx);
  }

  // ----- The database of the whole system runs the protocol -----

  // The transaction a happening runs, if it runs one.
  ghost predicate RunsEvent(db: Db, db': Db, e: Option<Event>) {
    if e.None? then db' == db else Enabled(db, e.value) && db' == Apply(db, e.value)
  }

  lemma GenerationEvent(w: World, g: Generation, artifact: Id, objectRef: string)
    ensures Conclude(w, g, artifact, objectRef).db ==
              Apply(w.db, AttemptDone(g.context, EvidenceOf(g, artifact), objectRef))
  {
  }

  lemma OtherEvent(w: World, h: Happening) returns (e: Option<Event>)
    requires May(w, h) && !h.WorkerSteps?
    ensures RunsEvent(w.db, Happen(w, h).db, e)
  {
    match h
    case Transaction(event) => e := Some(event);
    case ArtifactPut(_, _) => e := None;
    case Generated(g, artifact, objectRef) =>
      GenerationEvent(w, g, artifact, objectRef);
      e := Some(AttemptDone(g.context, EvidenceOf(g, artifact), objectRef));
    case Claimed(p) =>
      ClaimDatabase(w, p);
      e := Some(PublicationClaimed(p));
    case WorkerFails(p, code) => e := Some(PublicationFailing(p, code));
    case WorkerDies(_) => e := None;
    case EnvironmentActs(_, _) => e := None;
  }

  // What a worker's step does to the database.
  lemma StepOnDatabase(w: World, p: Id)
    requires p in w.workers && Publisher.Ready(w.workers[p])
    ensures var x := w.workers[p];
      StepWorker(w, p).db ==
        match Step(x, RemoteFor(w, x.record))
        case Proceed(_, _, c) => Record(w.db, p, c)
        case Fail(_) => w.db
        case Finished(result) => CompletePublication(w.db, PublicationContext(p, x.record), result).0
  {
  }

  lemma WorkerEvent(w: World, p: Id) returns (e: Option<Event>)
    requires p in w.workers && Publisher.Ready(w.workers[p]) && p in w.db.publications
    requires SameJob(w.workers[p].record, w.db.publications[p])
    ensures RunsEvent(w.db, StepWorker(w, p).db, e)
  {
    StepOnDatabase(w, p);
    var x := w.workers[p];
    match Step(x, RemoteFor(w, x.record))
    case Proceed(_, _, c) => e := if c.Some? then Some(Checkpointed(p, c.value)) else None;
    case Fail(_) => e := None;
    case Finished(result) =>
      e := Some(PublicationDone(PublicationContext(p, x.record), result));
  }

  lemma HappeningIsProtocol(w: World, h: Happening) returns (es: seq<Event>)
    requires WorldOk(w) && May(w, h)
    ensures Runnable(w.db, es) && Run(w.db, es) == Happen(w, h).db
  {
    var e;
    if h.WorkerSteps? {
      assert WorkerFine(w, h.p, w.workers[h.p]);
      e := WorkerEvent(w, h.p);
    } else {
      e := OtherEvent(w, h);
    }
    es := EventRuns(w.db, Happen(w, h).db, e);
  }

  lemma EventRuns(db: Db, db': Db, e: Option<Event>) returns (es: seq<Event>)
    requires RunsEvent(db, db', e)
    ensures Runnable(db, es) && Run(db, es) == db'
  {
    es := [];
    if e.Some? {
      es := [e.value];
      assert [e.value][1..] == [];
    }
  }

  // So whatever holds of every run of the protocol holds of the database of the whole system.
  lemma {:induction false} WorldRunsTheProtocol(w: World, hs: seq<Happening>) returns (es: seq<Event>)
    requires WorldOk(w) && Possible(w, hs)
    ensures Runnable(w.db, es) && Run(w.db, es) == After(w, hs).db
    decreases |hs|
  {
    if hs == [] {
      es := [];
    } else {
      var first := HappeningIsProtocol(w, hs[0]);
      HappeningKeeps(w, hs[0]);
      var rest := WorldRunsTheProtocol(Happen(w, hs[0]), hs[1..]);
      RunConcat(w.db, first, rest);
      es := first + rest;
    }
  }
}
