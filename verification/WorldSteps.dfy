// Every happening keeps the invariant of the whole system.
module WorldSteps {
  import opened Artifacts
  import opened Git
  import opened Options
  import opened Lifecycle
  import opened Remote
  import opened Rows
  import opened Transactions
  import opened Coupling
  import opened Verification
  import opened Publisher
  import opened Protocol
  import opened World
  import opened WorldInvariant

  // ----- Putting the parts together -----

  ghost predicate HistoryFine(w: World, w': World) {
    && (forall c {:trigger CommitFine(w'.db.attempts, c)} |
          c in w'.created && c !in w.created :: CommitFine(w'.db.attempts, c))
    && (forall h {:trigger HeadFine(w'.created, h)} |
          h in w'.recorded && h !in w.recorded :: HeadFine(w'.created, h))
  }

  lemma Assemble(w: World, w': World)
    requires PublishingOk(w) && Extends(w, w') && HistoryFine(w, w')
    requires ObjectsFine(w'.objects, w'.db.artifacts)
    requires forall a {:trigger GenerationFine(w'.generations, a, w'.db.attempts[a])} |
      a in w'.db.attempts :: GenerationFine(w'.generations, a, w'.db.attempts[a])
    requires forall p {:trigger RowFine(w', w'.db.publications[p])} |
      p in w'.db.publications :: RowFine(w', w'.db.publications[p])
    requires forall p {:trigger WorkerFine(w', p, w'.workers[p])} |
      p in w'.workers :: WorkerFine(w', p, w'.workers[p])
    ensures PublishingOk(w')
  {
    forall c | c in w'.created ensures CommitFine(w'.db.attempts, c) {
      if c in w.created { CreatedStayFine(w, w', c); }
    }
    forall h | h in w'.recorded ensures HeadFine(w'.created, h) {
      if h in w.recorded { HeadsStayFine(w, w', h); }
    }
  }

  lemma MovesExtend(w: World, w': World)
    requires Moves(w.db, w'.db) && w.created <= w'.created && w.recorded <= w'.recorded
    requires w'.remotes == w.remotes
    ensures Extends(w, w')
  {
  }

  // ----- Requests and generation workers -----

  // A row stays, or is queued afresh: for the same attempt with its checkpoints, for another one
  // with only the recorded head and the draft.
  ghost predicate RowMove(db: Db, db': Db, p: Id)
    requires p in db'.publications
  {
    var after := db'.publications[p];
    if p in db.publications then
      var before := db.publications[p];
      || after == before
      || (&& before.status != Publishing && after.status == PublicationQueued
          && after.migration == before.migration && after.repository == before.repository
          && after.branch == before.branch && after.remoteHead == before.remoteHead && after.pull == before.pull
          && (if after.lastAttempt == before.lastAttempt
              then after.tree == before.tree && after.commit == before.commit && after.check == before.check
              else after.tree.None? && after.commit.None? && after.check.None?))
    else
      after.status == PublicationQueued && after.tree.None? && after.commit.None? &&
      after.remoteHead.None? && after.pull.None? && after.check.None?
  }

  ghost predicate RowsMove(db: Db, db': Db) {
    forall p {:trigger RowMove(db, db', p)} | p in db'.publications :: RowMove(db, db', p)
  }

  // Nothing is completed and nothing is stored.
  ghost predicate CompletesNothing(db: Db, db': Db) {
    && db'.artifacts == db.artifacts
    && forall a {:trigger a in db'.attempts} | a in db'.attempts && db'.attempts[a].status == AttemptCompleted ::
         a in db.attempts && db.attempts[a].status == AttemptCompleted
  }

  lemma DecideIsOutside(db: Db, r: DecisionRequest)
    ensures RowsMove(db, Decide(db, r).0) && CompletesNothing(db, Decide(db, r).0)
  {
  }

  lemma QueueAttemptIsOutside(db: Db, r: GenerateRequest)
    ensures RowsMove(db, QueueAttempt(db, r).0) && CompletesNothing(db, QueueAttempt(db, r).0)
  {
  }

  lemma ClaimAttemptIsOutside(db: Db, a: Id)
    ensures RowsMove(db, ClaimAttempt(db, a).0) && CompletesNothing(db, ClaimAttempt(db, a).0)
  {
  }

  lemma FailAttemptIsOutside(db: Db, a: Id, code: string)
    ensures RowsMove(db, FailAttempt(db, a, code)) && CompletesNothing(db, FailAttempt(db, a, code))
  {
  }

  lemma QueuePublicationIsOutside(db: Db, r: PublishRequest)
    requires Inv(db)
    ensures RowsMove(db, QueuePublication(db, r).0) && CompletesNothing(db, QueuePublication(db, r).0)
  {
    QueuedRowsMove(db, r);
  }

  lemma QueuedRowsMove(db: Db, r: PublishRequest)
    requires Inv(db)
    ensures RowsMove(db, QueuePublication(db, r).0)
  {
    assert RowsOk(db, r.migration);
  }

  lemma OutsideIsQuiet(db: Db, e: Event)
    requires Inv(db) && FromOutside(e)
    ensures RowsMove(db, Apply(db, e)) && CompletesNothing(db, Apply(db, e))
  {
    match e
    case MigrationFound(_, _) =>
    case Submitted(q) =>
      match q {
        case DecisionRequested(r) => DecideIsOutside(db, r);
        case GenerationRequested(r) => QueueAttemptIsOutside(db, r);
        case PublicationRequested(r) => QueuePublicationIsOutside(db, r);
      }
    case AttemptClaimed(a) => ClaimAttemptIsOutside(db, a);
    case AttemptFailing(a, code) => FailAttemptIsOutside(db, a, code);
    case _ =>
  }

  lemma RowOfVerifiedAttempt(db: Db, p: Id)
    requires Inv(db) && p in db.publications
    ensures JobFine(db.attempts, db.publications[p])
    ensures db.publications[p].migration in db.migrations
  {
    assert RowsOk(db, db.publications[p].migration);
  }

  lemma MovedRowIsFine(w: World, w': World, p: Id)
    requires PublishingOk(w) && Extends(w, w') && w'.remotes == w.remotes
    requires p in w'.db.publications && RowMove(w.db, w'.db, p)
    requires JobFine(w'.db.attempts, w'.db.publications[p])
    ensures RowFine(w', w'.db.publications[p])
  {
    if p in w.db.publications {
      var before := w.db.publications[p];
      assert RowFine(w, before);
      assert Final(w.db.attempts[before.lastAttempt]);
      RowStaysFine(w, w', before);
    }
  }

  lemma QuietWorker(w: World, w': World, p: Id)
    requires PublishingOk(w) && Extends(w, w') && RowsMove(w.db, w'.db)
    requires w' == w.(db := w'.db) && p in w.workers && p in w'.db.publications
    ensures WorkerFine(w', p, w.workers[p])
  {
    assert WorkerFine(w, p, w.workers[p]);
    assert RowMove(w.db, w'.db, p);
    WorkerStaysFine(w, w', p, w.workers[p]);
  }

  lemma QuietKeeps(w: World, w': World)
    requires PublishingOk(w) && Extends(w, w')
    requires RowsMove(w.db, w'.db) && CompletesNothing(w.db, w'.db)
    requires forall p | p in w'.db.publications :: JobFine(w'.db.attempts, w'.db.publications[p])
    requires forall p | p in w.db.publications :: p in w'.db.publications
    requires w' == w.(db := w'.db)
    ensures PublishingOk(w')
  {
    forall a | a in w'.db.attempts ensures GenerationFine(w'.generations, a, w'.db.attempts[a]) {
      GenerationsStayFine(w, w', a);
    }
    forall p | p in w'.db.publications ensures RowFine(w', w'.db.publications[p]) {
      assert RowMove(w.db, w'.db, p);
      MovedRowIsFine(w, w', p);
    }
    forall p | p in w'.workers ensures WorkerFine(w', p, w'.workers[p]) {
      assert WorkerFine(w, p, w.workers[p]);
      QuietWorker(w, w', p);
    }
    Assemble(w, w');
  }

  lemma RowsOfVerifiedAttempts(db: Db)
    requires Inv(db)
    ensures forall p | p in db.publications :: JobFine(db.attempts, db.publications[p])
  {
    forall p | p in db.publications ensures JobFine(db.attempts, db.publications[p]) {
      RowOfVerifiedAttempt(db, p);
    }
  }

  lemma TransactionKeeps(w: World, e: Event)
    requires WorldOk(w) && FromOutside(e)
    ensures WorldOk(w.(db := Apply(w.db, e)))
  {
    var w' := w.(db := Apply(w.db, e));
    StepKeeps(w.db, e);
    OutsideIsQuiet(w.db, e);
    MovesExtend(w, w');
    RowsOfVerifiedAttempts(w'.db);
    QuietKeeps(w, w');
  }

  // ----- Artifacts and generations -----

  // Happenings that leave publications and repositories alone, and start no worker.
  ghost predicate LeavesPublishing(w: World, w': World) {
    && w'.db.publications == w.db.publications && w'.remotes == w.remotes && w'.touched == w.touched
    && forall p | p in w'.workers :: p in w.workers && w'.workers[p] == w.workers[p]
  }

  lemma PublicationsStayFine(w: World, w': World)
    requires PublishingOk(w) && Extends(w, w') && LeavesPublishing(w, w')
    ensures forall p {:trigger RowFine(w', w'.db.publications[p])} |
      p in w'.db.publications :: RowFine(w', w'.db.publications[p])
    ensures forall p {:trigger WorkerFine(w', p, w'.workers[p])} |
      p in w'.workers :: WorkerFine(w', p, w'.workers[p])
  {
    forall p | p in w'.db.publications ensures RowFine(w', w'.db.publications[p]) {
      assert RowFine(w, w.db.publications[p]);
      RowStaysFine(w, w', w.db.publications[p]);
    }
    forall p | p in w'.workers ensures WorkerFine(w', p, w'.workers[p]) { LeftWorkerStaysFine(w, w', p); }
  }

  lemma LeftWorkerStaysFine(w: World, w': World, p: Id)
    requires PublishingOk(w) && Extends(w, w') && LeavesPublishing(w, w') && p in w'.workers
    ensures WorkerFine(w', p, w'.workers[p])
  {
    assert WorkerFine(w, p, w.workers[p]);
    WorkerStaysFine(w, w', p, w.workers[p]);
  }

  lemma ArtifactPutKeeps(w: World, objectRef: string, text: string)
    requires PublishingOk(w)
    ensures PublishingOk(PutArtifact(w, objectRef, text))
  {
    var w' := PutArtifact(w, objectRef, text);
    PutExtends(w, objectRef, text);
    PutObjectsFine(w, objectRef, text);
    PublicationsStayFine(w, w');
    Assemble(w, w');
  }

  lemma PutExtends(w: World, objectRef: string, text: string)
    ensures var w' := PutArtifact(w, objectRef, text); Extends(w, w') && LeavesPublishing(w, w')
  {
  }

  lemma PutObjectsFine(w: World, objectRef: string, text: string)
    requires ObjectsFine(w.objects, w.db.artifacts)
    ensures ObjectsFine(PutArtifact(w, objectRef, text).objects, w.db.artifacts)
  {
  }

  lemma DeathKeeps(w: World, p: Id)
    requires PublishingOk(w)
    ensures PublishingOk(Leaves(w, p))
  {
    var w' := Leaves(w, p);
    PublicationsStayFine(w, w');
    Assemble(w, w');
  }

  // A completed attempt's artifact is the one it was completed with: it had none before.
  lemma CompletionStores(db: Db, ctx: AttemptContext, ev: Evidence, objectRef: string)
    requires Inv(db) && CompleteAttempt(db, ctx, ev, objectRef).1.Done?
    ensures var db' := CompleteAttempt(db, ctx, ev, objectRef).0;
      && ctx.attempt in db.attempts
      && db'.artifacts == db.artifacts[(ctx.attempt, ev.patch.artifact) := Artifact(ev.patch.digest, objectRef)]
      && db'.attempts == db.attempts[ctx.attempt := CompletedAttempt(db.attempts[ctx.attempt], ev)]
      && db'.publications == db.publications
  {
  }

  lemma ConcludedGenerations(w: World, w': World, g: Generation, artifact: Id)
    requires PublishingOk(w) && Concludes(g) && g.context.attempt in w.db.attempts
    requires w'.db.attempts == w.db.attempts[g.context.attempt :=
               CompletedAttempt(w.db.attempts[g.context.attempt], EvidenceOf(g, artifact))]
    requires w'.generations == w.generations[g.context.attempt := g]
    ensures forall a {:trigger GenerationFine(w'.generations, a, w'.db.attempts[a])} |
      a in w'.db.attempts :: GenerationFine(w'.generations, a, w'.db.attempts[a])
  {
    forall a | a in w'.db.attempts ensures GenerationFine(w'.generations, a, w'.db.attempts[a]) {
      if a != g.context.attempt { assert GenerationFine(w.generations, a, w.db.attempts[a]); }
    }
  }

  lemma ConclusionAssembles(w: World, w': World, g: Generation, artifact: Id, objectRef: string)
    requires PublishingOk(w) && Extends(w, w') && Concludes(g)
    requires objectRef in w.objects && w.objects[objectRef] == Render(CanonicalPatch(g))
    requires g.context.attempt in w.db.attempts
    requires w'.db.artifacts == w.db.artifacts[(g.context.attempt, artifact) :=
                                               Artifact(PatchDigest(CanonicalPatch(g)), objectRef)]
    requires w'.db.attempts == w.db.attempts[g.context.attempt :=
               CompletedAttempt(w.db.attempts[g.context.attempt], EvidenceOf(g, artifact))]
    requires w'.db.publications == w.db.publications
    requires w' == w.(db := w'.db, generations := w.generations[g.context.attempt := g])
    ensures PublishingOk(w')
  {
    ConcludedGenerations(w, w', g, artifact);
    PublicationsStayFine(w, w');
    Assemble(w, w');
  }

  lemma ConclusionDone(w: World, g: Generation, artifact: Id, objectRef: string)
    requires WorldOk(w) && Concludes(g)
    requires objectRef in w.objects && w.objects[objectRef] == Render(CanonicalPatch(g))
    requires CompleteAttempt(w.db, g.context, EvidenceOf(g, artifact), objectRef).1.Done?
    requires Moves(w.db, Conclude(w, g, artifact, objectRef).db)
    ensures PublishingOk(Conclude(w, g, artifact, objectRef))
  {
    var w' := Conclude(w, g, artifact, objectRef);
    CompletionStores(w.db, g.context, EvidenceOf(g, artifact), objectRef);
    MovesExtend(w, w');
    ConclusionAssembles(w, w', g, artifact, objectRef);
  }

  lemma ConclusionRaises(w: World, g: Generation, artifact: Id, objectRef: string)
    requires CompleteAttempt(w.db, g.context, EvidenceOf(g, artifact), objectRef).1.Raised?
    ensures Conclude(w, g, artifact, objectRef) == w
  {
  }

  lemma ConclusionKeeps(w: World, g: Generation, artifact: Id, objectRef: string)
    requires WorldOk(w) && Concludes(g)
    requires objectRef in w.objects && w.objects[objectRef] == Render(CanonicalPatch(g))
    ensures WorldOk(Conclude(w, g, artifact, objectRef))
  {
    CompleteAttemptKeeps(w.db, g.context, EvidenceOf(g, artifact), objectRef);
    if CompleteAttempt(w.db, g.context, EvidenceOf(g, artifact), objectRef).1.Done? {
      ConclusionDone(w, g, artifact, objectRef);
    } else {
      ConclusionRaises(w, g, artifact, objectRef);
    }
  }

  // ----- Happenings that concern one publication -----

  // A worker whose branch is where it was.
  ghost predicate Undisturbed(w: World, w': World, q: Id)
    requires q in w.workers
  {
    var x := w.workers[q];
    && Head(RemoteFor(w', x.record), x.record.branch) == Head(RemoteFor(w, x.record), x.record.branch)
    && (BranchOf(x) in w.touched ==> BranchOf(x) in w'.touched)
  }

  // Happenings that change one publication's row, worker and branch.
  ghost predicate Concerns(w: World, w': World, p: Id) {
    && w'.lower == w.lower && w'.objects == w.objects && w'.generations == w.generations
    && w'.db.attempts == w.db.attempts && w'.db.artifacts == w.db.artifacts
    && p in w.db.publications && p in w'.db.publications
    && w'.db.publications == w.db.publications[p := w'.db.publications[p]]
    && w.created <= w'.created && w.recorded <= w'.recorded
    && (forall id {:trigger RemoteOf(w', id)} :: KeepsNumbered(RemoteOf(w, id), RemoteOf(w', id)))
    && (forall q | q in w'.workers && q != p ::
          q in w.workers && w'.workers[q] == w.workers[q] && Undisturbed(w, w', q))
  }

  lemma OtherRowStaysFine(w: World, w': World, p: Id, q: Id)
    requires PublishingOk(w) && Concerns(w, w', p) && q in w.db.publications && q != p
    ensures RowFine(w', w'.db.publications[q])
  {
    assert RowFine(w, w.db.publications[q]);
    RowStaysFine(w, w', w.db.publications[q]);
  }

  lemma OtherWorkerStaysFine(w: World, w': World, p: Id, q: Id)
    requires PublishingOk(w) && Concerns(w, w', p) && q in w'.workers && q != p
    ensures WorkerFine(w', q, w'.workers[q])
  {
    assert WorkerFine(w, q, w.workers[q]);
    WorkerStaysFine(w, w', q, w.workers[q]);
  }

  lemma OnePublicationKeeps(w: World, w': World, p: Id)
    requires PublishingOk(w) && Concerns(w, w', p) && HistoryFine(w, w')
    requires RowFine(w', w'.db.publications[p])
    requires p in w'.workers ==> WorkerFine(w', p, w'.workers[p])
    ensures PublishingOk(w')
  {
    forall q | q in w'.db.publications ensures RowFine(w', w'.db.publications[q]) {
      if q != p { OtherRowStaysFine(w, w', p, q); }
    }
    forall q | q in w'.workers ensures WorkerFine(w', q, w'.workers[q]) {
      if q != p { OtherWorkerStaysFine(w, w', p, q); }
    }
    Assemble(w, w');
  }

  // ----- Claiming and failing -----

  lemma ClaimIs(w: World, p: Id)
    requires p in w.db.publications && w.db.publications[p].status == PublicationQueued
    ensures var record := w.db.publications[p].(status := Publishing, errorCode := None);
      var started := Opened(w, PublicationContext(p, record));
      Claim(w, p) == w.(db := w.db.(publications := w.db.publications[p := record]),
                        workers := if started.None? then w.workers else w.workers[p := started.value])
  {
  }

  lemma ClaimConcerns(w: World, w': World, p: Id, record: Publication, workers: map<Id, Worker>)
    requires p in w.db.publications
    requires w' == w.(db := w.db.(publications := w.db.publications[p := record]), workers := workers)
    requires forall q | q in workers && q != p :: q in w.workers && workers[q] == w.workers[q]
    ensures Concerns(w, w', p) && HistoryFine(w, w')
  {
  }

  lemma OpenedWorkerIsFine(w: World, w': World, p: Id, record: Publication)
    requires w'.db.attempts == w.db.attempts && RowFine(w', record)
    requires p in w'.db.publications && w'.db.publications[p] == record
    requires record.status == Publishing && record.errorCode.None?
    requires Opened(w, PublicationContext(p, record)).Some?
    ensures WorkerFine(w', p, Opened(w, PublicationContext(p, record)).value)
  {
  }

  lemma WorkersPublish(w: World, p: Id)
    requires PublishingOk(w) && p in w.workers
    ensures p in w.db.publications && w.db.publications[p].status == Publishing
  {
    assert WorkerFine(w, p, w.workers[p]);
  }

  // The row a claim leaves, and the worker it may start.
  lemma ClaimedRowKeeps(w: World, w': World, p: Id, record: Publication, started: Option<Worker>)
    requires PublishingOk(w) && p in w.db.publications && w.db.publications[p].status == PublicationQueued
    requires record == w.db.publications[p].(status := Publishing, errorCode := None)
    requires started == Opened(w, PublicationContext(p, record))
    requires w' == w.(db := w.db.(publications := w.db.publications[p := record]),
                      workers := if started.None? then w.workers else w.workers[p := started.value])
    ensures PublishingOk(w')
  {
    ClaimConcerns(w, w', p, record, w'.workers);
    assert RowFine(w, w.db.publications[p]);
    ClaimedRowIsFine(w, w', w.db.publications[p]);
    ClaimedWorkerIsFine(w, w', p, record, started);
    OnePublicationKeeps(w, w', p);
  }

  lemma ClaimedRowIsFine(w: World, w': World, row: Publication)
    requires RowFine(w, row) && row.status == PublicationQueued
    requires w'.db.attempts == w.db.attempts && w'.remotes == w.remotes
    requires w'.created == w.created && w'.recorded == w.recorded
    ensures RowFine(w', row.(status := Publishing, errorCode := None))
  {
  }

  lemma ClaimedWorkerIsFine(w: World, w': World, p: Id, record: Publication, started: Option<Worker>)
    requires PublishingOk(w) && p in w.db.publications && w.db.publications[p].status == PublicationQueued
    requires record.status == Publishing && record.errorCode.None? && RowFine(w', record)
    requires started == Opened(w, PublicationContext(p, record))
    requires w' == w.(db := w.db.(publications := w.db.publications[p := record]),
                      workers := if started.None? then w.workers else w.workers[p := started.value])
    ensures p in w'.workers ==> WorkerFine(w', p, w'.workers[p])
  {
    if p in w.workers { WorkersPublish(w, p); }
    if p in w'.workers { OpenedWorkerIsFine(w, w', p, record); }
  }

  lemma ClaimKeepsPublishing(w: World, p: Id)
    requires PublishingOk(w)
    ensures PublishingOk(Claim(w, p))
  {
    if p in w.db.publications && w.db.publications[p].status == PublicationQueued {
      var record := w.db.publications[p].(status := Publishing, errorCode := None);
      ClaimIs(w, p);
      ClaimedRowKeeps(w, Claim(w, p), p, record, Opened(w, PublicationContext(p, record)));
    } else {
      assert Claim(w, p) == w;
    }
  }

  lemma AbandonConcerns(w: World, p: Id, code: string)
    requires p in w.db.publications && w.db.publications[p].status == Publishing
    ensures var w' := Abandon(w, p, code);
      && Concerns(w, w', p) && HistoryFine(w, w') && p !in w'.workers
      && w'.db.publications[p] == w.db.publications[p].(status := PublicationFailed, errorCode := Some(code))
      && w'.remotes == w.remotes && w'.created == w.created && w'.recorded == w.recorded
  {
  }

  lemma AbandonKeepsPublishing(w: World, p: Id, code: string)
    requires PublishingOk(w)
    ensures PublishingOk(Abandon(w, p, code))
  {
    if p in w.db.publications && w.db.publications[p].status == Publishing {
      var w' := Abandon(w, p, code);
      AbandonConcerns(w, p, code);
      assert RowFine(w, w.db.publications[p]);
      assert RowFine(w', w'.db.publications[p]);
      OnePublicationKeeps(w, w', p);
    } else {
      DeathKeeps(w, p);
    }
  }

  // ----- The environment -----

  lemma EnvironmentKeeps(w: World, repository: Id, after: Repository)
    requires PublishingOk(w) && EnvironmentMay(w, repository, after)
    ensures PublishingOk(Intervene(w, repository, after))
  {
    var w' := Intervene(w, repository, after);
    InterventionExtends(w, repository, after);
    forall p | p in w'.db.publications ensures RowFine(w', w'.db.publications[p]) {
      assert RowFine(w, w.db.publications[p]);
      RowStaysFine(w, w', w.db.publications[p]);
    }
    forall p | p in w'.workers ensures WorkerFine(w', p, w'.workers[p]) {
      WorkerWithstands(w, repository, after, p);
    }
    Assemble(w, w');
  }

  lemma InterventionExtends(w: World, repository: Id, after: Repository)
    requires EnvironmentMay(w, repository, after)
    ensures Extends(w, Intervene(w, repository, after))
  {
  }

  lemma WorkerWithstands(w: World, repository: Id, after: Repository, p: Id)
    requires PublishingOk(w) && EnvironmentMay(w, repository, after) && p in w.workers
    ensures var w' := Intervene(w, repository, after); p in w'.workers && WorkerFine(w', p, w'.workers[p])
  {
    var w' := Intervene(w, repository, after);
    var x := w.workers[p];
    InterventionExtends(w, repository, after);
    assert WorkerFine(w, p, x);
    if x.record.repository == repository {
      var r := RemoteOf(w, repository);
      assert Head(after, x.record.branch) != Head(r, x.record.branch) ==>
        x.record.branch in r.refs.Keys + after.refs.Keys;
    }
    WorkerStaysFine(w, w', p, x);
  }
}
