// What the status of a migration, and the copy of it that is served, tell in every reachable state: how
// its current attempt ended, how the publication of that attempt stands, and what was decided since.
module Statuses {
  import opened Options
  import opened Lifecycle
  import opened Rows
  import opened Transactions
  import opened Coupling
  import opened Protocol
  import opened Isolation
  import opened Effects
  import opened WorkerEffects

  // ----- What there is to tell -----

  // The publication of the migration's current attempt.
  ghost function Draft(m: Migration, pub: Option<Publication>): Option<Publication> {
    if pub.Some? && m.currentAttempt == Some(pub.value.lastAttempt) then pub else None
  }

  // Where an approved attempt stands: decided on, or else as its publication does.
  function Approvals(decision: Option<Action>, draft: Option<Publication>): MigrationStatus {
    match decision
    case Some(Approve) => Approved
    case Some(Snooze) => Snoozed
    case Some(Decline) => Declined
    case Some(Revise) => NeedsRevision
    case None =>
      match draft
      case None => Ready
      case Some(pub) =>
        match pub.status
        case Published => PrOpened
        case PublicationFailed => Blocked
        case _ => PrOpening
  }

  // The status, from the current attempt, its publication and the decision.
  function StatusFrom(current: Option<Attempt>, draft: Option<Publication>, decision: Option<Action>)
    : MigrationStatus
  {
    match current
    case None => Queued
    case Some(a) =>
      match a.status
      case AttemptCreated => NeedsRevision
      case AttemptPlanning => Planning
      case AttemptGenerating => Generating
      case AttemptCompleted =>
        (match a.data.recommendation
         case Some(Approve) => Approvals(decision, draft)
         case Some(Revise) => NeedsRevision
         case _ => Blocked)
      case _ => Blocked
  }

  // The error, if the current attempt or its publication failed.
  function ErrorFrom(current: Option<Attempt>, draft: Option<Publication>): Option<string> {
    if current.Some? && current.value.status == AttemptFailed then current.value.data.errorCode
    else if draft.Some? && draft.value.status == PublicationFailed then draft.value.errorCode
    else None
  }

  // A decision stands from when it is made to the next generation.
  ghost predicate DecisionStands(m: Migration, current: Option<Attempt>) {
    match m.data.decision
    case None =>
      m.status !in {Approved, Snoozed, Declined} && (current.Some? ==> current.value.status != AttemptCreated)
    case Some(Approve) => m.status == Approved
    case Some(Snooze) => m.status == Snoozed
    case Some(Decline) => m.status == Declined
    case Some(Revise) => m.status == NeedsRevision && current.Some? && current.value.status == AttemptCreated
  }

  // An attempt has what its status says: an error if it failed, evidence if it is completed.
  ghost predicate AttemptTold(a: Attempt) {
    && (a.data.errorCode.Some? <==> a.status == AttemptFailed)
    && (a.data.evidence.Some? <==> a.status == AttemptCompleted)
    && (a.data.recommendation.Some? <==> a.status == AttemptCompleted)
  }

  // A publication has an error if it failed; once it is published the served copy links its draft.
  ghost predicate PublicationTold(m: Migration, pub: Option<Publication>) {
    && (pub.Some? ==> (pub.value.errorCode.Some? <==> pub.value.status == PublicationFailed))
    && (pub.Some? && pub.value.status == Published ==> pub.value.pull.Some? && m.data.pullUrl == pub.value.pull)
    && (pub.None? ==> m.data.pullUrl.None?)
  }

  ghost predicate MigrationTold(m: Migration, current: Option<Attempt>, pub: Option<Publication>) {
    && CopyAgrees(m)
    && m.status == StatusFrom(current, Draft(m, pub), m.data.decision)
    && DecisionStands(m, current)
    && m.data.errorCode == ErrorFrom(current, Draft(m, pub))
    && PublicationTold(m, pub)
  }

  ghost predicate Told(db: Db, x: Id) {
    x in db.migrations ==> MigrationTold(db.migrations[x], Current(db, db.migrations[x]), PublicationFor(db, x))
  }

  ghost predicate AttemptsTold(db: Db) {
    forall a | a in db.attempts :: AttemptTold(db.attempts[a])
  }

  ghost predicate AllTold(db: Db) {
    AttemptsTold(db) && forall x {:trigger Told(db, x)} :: Told(db, x)
  }

  // ----- What the rows of one migration have to do with each other -----

  // A publication of the current attempt is of a completed, approved one.
  ghost predicate DraftsAreApproved(m: Migration, current: Option<Attempt>, pub: Option<Publication>) {
    Draft(m, pub).Some? ==>
      current.Some? && current.value.status == AttemptCompleted && current.value.data.recommendation == Some(Approve)
  }

  lemma CurrentFacts(db: Db, x: Id)
    requires Inv(db) && x in db.migrations
    ensures DraftsAreApproved(db.migrations[x], Current(db, db.migrations[x]), PublicationFor(db, x))
    ensures PublicationFor(db, x).Some? ==> PublicationFor(db, x).value.lastAttempt in db.attempts
    ensures var c := db.migrations[x].currentAttempt;
      c.Some? ==> c.value in db.attempts && db.attempts[c.value].migration == x
  {
    assert RowsOk(db, x);
    var c := db.migrations[x].currentAttempt;
    if c.Some? { assert AttemptOk(db, c.value, db.attempts[c.value], c); }
  }

  lemma SameRowsTold(db: Db, db': Db, x: Id)
    requires Inv(db) && Told(db, x) && SameRows(db, db', x)
    ensures Told(db', x)
  {
    if x in db.migrations {
      CurrentFacts(db, x);
      var c := db.migrations[x].currentAttempt;
      if c.Some? {
        assert c.value in db.attempts && db.attempts[c.value].migration == x;
        assert forall a | a in db.attempts && db.attempts[a].migration == x ::
          a in db'.attempts && db'.attempts[a] == db.attempts[a];
        assert c.value in db'.attempts && db'.attempts[c.value] == db.attempts[c.value];
      }
    }
  }

  // ----- Rows that move on -----

  lemma DecisionTells(m: Migration, m': Migration, current: Option<Attempt>, added: Option<Attempt>,
                      pub: Option<Publication>, q: Request)
    requires MigrationTold(m, current, pub) && DraftsAreApproved(m, current, pub)
    requires q.DecisionRequested? && InPlace(q, m.status) && StatusAfter(q.decision.action, m'.status)
    requires CopyAgrees(m') && Annotated(m', Some(q.decision.action), m.data.errorCode, m.data.pullUrl)
    requires if q.decision.action == Revise then
               added.Some? && added.value.status == AttemptCreated && Draft(m', pub).None?
             else added.None? && m'.currentAttempt == m.currentAttempt
    ensures MigrationTold(m', if added.Some? then added else current, pub)
  {
  }

  lemma GenerationTells(m: Migration, m': Migration, current: Option<Attempt>, planned: Attempt,
                        pub: Option<Publication>)
    requires MigrationTold(m, current, pub)
    requires m'.status == Planning && planned.status == AttemptPlanning && Draft(m', pub).None?
    requires CopyAgrees(m') && Annotated(m', None, None, m.data.pullUrl)
    ensures MigrationTold(m', Some(planned), pub)
  {
  }

  lemma QueueingTells(m: Migration, m': Migration, current: Option<Attempt>, pub: Option<Publication>, row: Publication)
    requires MigrationTold(m, current, pub) && InPlace(PublicationRequested(PublishRequest(0, 0, 0, 0)), m.status)
    requires current.Some? && current.value.status == AttemptCompleted
    requires current.value.data.recommendation == Some(Approve)
    requires m'.status == PrOpening && m'.currentAttempt == m.currentAttempt == Some(row.lastAttempt)
    requires row.status == PublicationQueued && row.errorCode.None?
    requires CopyAgrees(m') && Annotated(m', m.data.decision, None, m.data.pullUrl)
    ensures MigrationTold(m', current, Some(row))
  {
  }

  lemma ClaimTells(m: Migration, m': Migration, current: Attempt, current': Attempt, pub: Option<Publication>)
    requires MigrationTold(m, Some(current), pub) && DraftsAreApproved(m, Some(current), pub)
    requires current.status == AttemptPlanning && current'.status == AttemptGenerating
    requires m'.status == Generating && m'.currentAttempt == m.currentAttempt
    requires CopyAgrees(m') && Annotated(m', m.data.decision, m.data.errorCode, m.data.pullUrl)
    ensures MigrationTold(m', Some(current'), pub)
  {
  }

  lemma CompletionTells(m: Migration, m': Migration, current: Attempt, current': Attempt, pub: Option<Publication>,
                        action: Action)
    requires MigrationTold(m, Some(current), pub) && DraftsAreApproved(m, Some(current), pub)
    requires current.status == AttemptGenerating && current'.status == AttemptCompleted
    requires current'.data.recommendation == Some(action) && SentTo(action, m'.status)
    requires m'.currentAttempt == m.currentAttempt && CopyAgrees(m') && Annotated(m', None, None, m.data.pullUrl)
    ensures MigrationTold(m', Some(current'), pub)
  {
  }

  lemma FailureTells(m: Migration, m': Migration, current: Attempt, current': Attempt, pub: Option<Publication>)
    requires MigrationTold(m, Some(current), pub) && DraftsAreApproved(m, Some(current), pub)
    requires current.status in {AttemptPlanning, AttemptGenerating} && current'.status == AttemptFailed
    requires m'.status == Blocked && m'.currentAttempt == m.currentAttempt
    requires CopyAgrees(m') && Annotated(m', m.data.decision, current'.data.errorCode, m.data.pullUrl)
    ensures MigrationTold(m', Some(current'), pub)
  {
  }

  // A queued publication, or one under way, goes on.
  lemma ProgressTells(m: Migration, current: Option<Attempt>, pub: Publication, row: Publication)
    requires MigrationTold(m, current, Some(pub)) && Open(pub)
    requires row.status == Publishing && row.lastAttempt == pub.lastAttempt && row.errorCode.None?
    ensures MigrationTold(m, current, Some(row))
  {
  }

  lemma DraftDoneTells(m: Migration, m': Migration, current: Option<Attempt>, pub: Publication, row: Publication)
    requires MigrationTold(m, current, Some(pub)) && DraftsAreApproved(m, current, Some(pub))
    requires pub.status == Publishing && m.status == PrOpening && m.currentAttempt == Some(pub.lastAttempt)
    requires row.lastAttempt == pub.lastAttempt && m'.currentAttempt == m.currentAttempt && CopyAgrees(m')
    requires if row.status == Published then
               && row.errorCode.None? && row.pull.Some? && m'.status == PrOpened
               && Annotated(m', m.data.decision, None, row.pull)
             else
               && row.status == PublicationFailed && row.errorCode.Some? && m'.status == Blocked
               && Annotated(m', m.data.decision, row.errorCode, m.data.pullUrl)
    ensures MigrationTold(m', current, Some(row))
  {
  }

  // ----- Transactions -----

  // What the current attempt and the publication are after a change of one attempt or of one
  // publication.
  lemma CurrentAfterAttempt(db: Db, db': Db, x: Id, a: Id)
    requires Inv(db) && x in db.migrations && x in db'.migrations && a in db'.attempts
    requires db'.attempts == db.attempts[a := db'.attempts[a]]
    requires db'.publications == db.publications && db'.publicationOf == db.publicationOf
    ensures PublicationFor(db', x) == PublicationFor(db, x)
    ensures Current(db', db'.migrations[x]) ==
      if db'.migrations[x].currentAttempt == Some(a) then Some(db'.attempts[a]) else Current(db, db'.migrations[x])
  {
  }

  lemma DecisionKeepsTold(db: Db, r: DecisionRequest)
    requires Inv(db) && AllTold(db) && TakesEffect(db, DecisionRequested(r))
    ensures Told(Decide(db, r).0, r.migration) && AttemptsTold(Decide(db, r).0)
  {
    assert Told(db, r.migration);
    CurrentFacts(db, r.migration);
    DecisionsLeave(db, r);
    DecidedRowsTell(db, r, Decide(db, r).0, Decide(db, r).1);
  }

  lemma DecidedRowsTell(db: Db, r: DecisionRequest, db': Db, o: Outcome<Response>)
    requires Inv(db) && AttemptsTold(db) && DecisionLeaves(db, r, db', o)
    requires var m := db.migrations[r.migration];
      && InPlace(DecisionRequested(r), m.status) && MigrationTold(m, Current(db, m), PublicationFor(db, r.migration))
      && DraftsAreApproved(m, Current(db, m), PublicationFor(db, r.migration))
      && (PublicationFor(db, r.migration).Some? ==> PublicationFor(db, r.migration).value.lastAttempt in db.attempts)
    ensures Told(db', r.migration) && AttemptsTold(db')
  {
    var x := r.migration;
    var m, m', pub := db.migrations[x], db'.migrations[x], PublicationFor(db, x);
    if r.action == Revise {
      CurrentAfterAttempt(db, db', x, r.newAttempt);
      DecisionTells(m, m', Current(db, m), Some(db'.attempts[r.newAttempt]), pub, DecisionRequested(r));
    } else {
      DecisionTells(m, m', Current(db, m), None, pub, DecisionRequested(r));
    }
  }

  lemma GenerationKeepsTold(db: Db, r: GenerateRequest)
    requires Inv(db) && AllTold(db) && TakesEffect(db, GenerationRequested(r))
    ensures Told(QueueAttempt(db, r).0, r.migration) && AttemptsTold(QueueAttempt(db, r).0)
  {
    var x, db' := r.migration, QueueAttempt(db, r).0;
    assert Told(db, x);
    CurrentFacts(db, x);
    GenerationsLeave(db, r);
    var m, m', pub := db.migrations[x], db'.migrations[x], PublicationFor(db, x);
    var a := m'.currentAttempt.value;
    CurrentAfterAttempt(db, db', x, a);
    assert Draft(m', pub).None?;
    GenerationTells(m, m', Current(db, m), db'.attempts[a], pub);
    PlannedIsTold(db, r, db'.attempts[a]);
  }

  lemma PlannedIsTold(db: Db, r: GenerateRequest, row: Attempt)
    requires AttemptsTold(db) && r.migration in db.migrations && AttemptPlanned(db, r, row)
    ensures AttemptTold(row)
  {
    if RevisionWaits(db, r.migration) {
      var a := db.migrations[r.migration].currentAttempt.value;
      assert AttemptTold(db.attempts[a]);
    }
  }

  lemma QueueingKeepsTold(db: Db, r: PublishRequest)
    requires Inv(db) && AllTold(db) && TakesEffect(db, PublicationRequested(r))
    ensures Told(QueuePublication(db, r).0, r.migration) && AttemptsTold(QueuePublication(db, r).0)
  {
    var x, db' := r.migration, QueuePublication(db, r).0;
    assert Told(db, x);
    CurrentFacts(db, x);
    PublicationsLeave(db, r);
    ApprovedIsRecommended(db, x);
    var m, m' := db.migrations[x], db'.migrations[x];
    var row := db'.publications[db'.publicationOf[x]];
    assert Current(db', m') == Current(db, m) && PublicationFor(db', x) == Some(row);
    QueueingTells(m, m', Current(db, m), PublicationFor(db, x), row);
  }

  lemma ApprovedIsRecommended(db: Db, x: Id)
    requires Inv(db) && x in db.migrations && Approvable(db, x)
    ensures Current(db, db.migrations[x]).value.data.recommendation == Some(Approve)
  {
    assert RowsOk(db, x);
    var c := db.migrations[x].currentAttempt;
    assert AttemptOk(db, c.value, db.attempts[c.value], c);
  }

  lemma ClaimKeepsTold(db: Db, a: Id)
    requires Inv(db) && AllTold(db) && a in db.attempts && db.attempts[a].status == AttemptPlanning
    ensures Told(ClaimAttempt(db, a).0, db.attempts[a].migration) && AttemptsTold(ClaimAttempt(db, a).0)
  {
    var x, db' := db.attempts[a].migration, ClaimAttempt(db, a).0;
    assert Told(db, x);
    ClaimsLeave(db, a);
    CurrentFacts(db, x);
    CurrentAfterAttempt(db, db', x, a);
    ClaimTells(db.migrations[x], db'.migrations[x], db.attempts[a], db'.attempts[a], PublicationFor(db, x));
    assert AttemptTold(db.attempts[a]);
  }

  lemma CompletionKeepsTold(db: Db, ctx: AttemptContext, ev: Evidence, objectRef: string)
    requires Inv(db) && AllTold(db) && Completable(db, ctx, ev)
    ensures var db' := CompleteAttempt(db, ctx, ev, objectRef).0; Told(db', ctx.migration) && AttemptsTold(db')
  {
    var x, a, db' := ctx.migration, ctx.attempt, CompleteAttempt(db, ctx, ev, objectRef).0;
    assert Told(db, x);
    CompletionsLeave(db, ctx, ev, objectRef);
    CurrentFacts(db, x);
    CurrentAfterAttempt(db, db', x, a);
    CompletionTells(db.migrations[x], db'.migrations[x], db.attempts[a], db'.attempts[a], PublicationFor(db, x),
                    ev.action);
    CompletionHasNoError(db, ctx, ev, objectRef);
  }

  lemma CompletionHasNoError(db: Db, ctx: AttemptContext, ev: Evidence, objectRef: string)
    requires AttemptsTold(db) && CompleteAttempt(db, ctx, ev, objectRef).1.Done?
    ensures var db' := CompleteAttempt(db, ctx, ev, objectRef).0;
      ctx.attempt in db'.attempts && db'.attempts[ctx.attempt].data.errorCode.None?
  {
    assert AttemptTold(db.attempts[ctx.attempt]);
  }

  lemma FailureKeepsTold(db: Db, a: Id, code: string)
    requires Inv(db) && AllTold(db) && a in db.attempts
    requires db.attempts[a].status in {AttemptPlanning, AttemptGenerating}
    ensures Told(FailAttempt(db, a, code), db.attempts[a].migration) && AttemptsTold(FailAttempt(db, a, code))
  {
    var x, db' := db.attempts[a].migration, FailAttempt(db, a, code);
    assert Told(db, x);
    FailuresLeave(db, a, code);
    CurrentFacts(db, x);
    CurrentAfterAttempt(db, db', x, a);
    assert AttemptTold(db.attempts[a]);
    if db.migrations[x].currentAttempt == Some(a) {
      FailureTells(db.migrations[x], db'.migrations[x], db.attempts[a], db'.attempts[a], PublicationFor(db, x));
    }
  }

  // A publication row that changes, and perhaps its migration's.
  lemma AfterPublication(db: Db, db': Db, p: Id)
    requires Inv(db) && p in db.publications && p in db'.publications
    requires db'.publications == db.publications[p := db'.publications[p]]
    requires db'.publicationOf == db.publicationOf && db'.attempts == db.attempts
    ensures var x := db.publications[p].migration;
      && x in db.migrations && RowsOk(db, x)
      && PublicationFor(db, x) == Some(db.publications[p]) && PublicationFor(db', x) == Some(db'.publications[p])
      && (forall m :: Current(db', m) == Current(db, m))
  {
    assert RowsOk(db, db.publications[p].migration);
  }

  lemma DraftClaimKeepsTold(db: Db, p: Id)
    requires Inv(db) && AllTold(db) && p in db.publications && db.publications[p].status == PublicationQueued
    ensures Told(ClaimPublication(db, p).0, db.publications[p].migration)
  {
    var x, db' := db.publications[p].migration, ClaimPublication(db, p).0;
    assert Told(db, x);
    DraftClaimsLeave(db, p);
    AfterPublication(db, db', p);
    ProgressTells(db.migrations[x], Current(db, db.migrations[x]), db.publications[p], db'.publications[p]);
  }

  lemma CheckpointKeepsTold(db: Db, p: Id, c: Checkpoint)
    requires Inv(db) && AllTold(db) && p in db.publications && db.publications[p].status == Publishing
    ensures Told(RecordCheckpoint(db, p, c), db.publications[p].migration)
  {
    var x, db' := db.publications[p].migration, RecordCheckpoint(db, p, c);
    assert Told(db, x);
    CheckpointsLeave(db, p, c);
    AfterPublication(db, db', p);
    ProgressTells(db.migrations[x], Current(db, db.migrations[x]), db.publications[p], db'.publications[p]);
  }

  lemma DraftDoneKeepsTold(db: Db, ctx: PublicationContext, result: PublicationResult)
    requires Inv(db) && AllTold(db) && Issued(db, ctx) && CompletePublication(db, ctx, result).1.Done?
    ensures Told(CompletePublication(db, ctx, result).0, ctx.record.migration)
  {
    var p, x, db' := ctx.publication, ctx.record.migration, CompletePublication(db, ctx, result).0;
    assert Told(db, x);
    DraftCompletionsLeave(db, ctx, result);
    AfterPublication(db, db', p);
    CurrentFacts(db, x);
    DraftDoneTells(db.migrations[x], db'.migrations[x], Current(db, db.migrations[x]), db.publications[p],
                   db'.publications[p]);
  }

  lemma DraftFailureKeepsTold(db: Db, p: Id, code: string)
    requires Inv(db) && AllTold(db) && p in db.publications && db.publications[p].status == Publishing
    ensures Told(FailPublication(db, p, code), db.publications[p].migration)
  {
    var x, db' := db.publications[p].migration, FailPublication(db, p, code);
    assert Told(db, x);
    DraftFailuresLeave(db, p, code);
    AfterPublication(db, db', p);
    CurrentFacts(db, x);
    DraftDoneTells(db.migrations[x], db'.migrations[x], Current(db, db.migrations[x]), db.publications[p],
                   db'.publications[p]);
  }

  // ----- Runs -----

  // What an event leaves of the migration it is about, and of the attempts.
  ghost predicate SubjectTold(db: Db, e: Event) {
    Told(Apply(db, e), Subject(db, e)) && AttemptsTold(Apply(db, e))
  }

  lemma RequestKeepsTold(db: Db, q: Request)
    requires Inv(db) && AllTold(db)
    ensures Told(Submit(db, q).0, OperationOf(q).migration) && AttemptsTold(Submit(db, q).0)
  {
    SubmitRunsExactly(db, q);
    if TakesEffect(db, q) {
      match q
      case DecisionRequested(r) => DecisionKeepsTold(db, r);
      case GenerationRequested(r) => GenerationKeepsTold(db, r);
      case PublicationRequested(r) => QueueingKeepsTold(db, r);
    } else {
      RefusalChangesNothing(db, q);
      assert Told(db, OperationOf(q).migration);
    }
  }

  lemma GenerationEventKeepsTold(db: Db, e: Event)
    requires Inv(db) && AllTold(db) && (e.AttemptClaimed? || e.AttemptDone? || e.AttemptFailing?)
    requires Apply(db, e) != db
    ensures SubjectTold(db, e)
  {
    match e
    case AttemptClaimed(a) =>
      ClaimsLeave(db, a);
      ClaimKeepsTold(db, a);
    case AttemptDone(ctx, ev, objectRef) =>
      CompletesExactly(db, ctx, ev, objectRef);
      CompletionKeepsTold(db, ctx, ev, objectRef);
    case AttemptFailing(a, code) =>
      FailuresLeave(db, a, code);
      FailureKeepsTold(db, a, code);
  }

  lemma PublicationEventKeepsTold(db: Db, e: Event)
    requires Inv(db) && AllTold(db) && Enabled(db, e) && Apply(db, e) != db
    requires e.PublicationClaimed? || e.Checkpointed? || e.PublicationDone? || e.PublicationFailing?
    ensures Told(Apply(db, e), Subject(db, e))
  {
    match e
    case PublicationClaimed(p) => DraftClaimKeepsTold(db, p);
    case Checkpointed(p, c) => CheckpointKeepsTold(db, p, c);
    case PublicationDone(ctx, result) => DraftDoneKeepsTold(db, ctx, result);
    case PublicationFailing(p, code) => DraftFailureKeepsTold(db, p, code);
  }

  lemma PublicationEventKeepsAttempts(db: Db, e: Event)
    requires e.PublicationClaimed? || e.Checkpointed? || e.PublicationDone? || e.PublicationFailing?
    ensures Apply(db, e).attempts == db.attempts
  {
  }

  lemma SubjectIsTold(db: Db, e: Event)
    requires Inv(db) && AllTold(db) && Enabled(db, e)
    ensures SubjectTold(db, e)
  {
    assert Told(db, Subject(db, e));
    match e
    case MigrationFound(x, repository) => CreationKeepsTold(db, x, repository);
    case Submitted(q) => RequestKeepsTold(db, q);
    case _ =>
      if Apply(db, e) != db {
        if e.AttemptClaimed? || e.AttemptDone? || e.AttemptFailing? {
          GenerationEventKeepsTold(db, e);
        } else {
          PublicationEventKeepsTold(db, e);
          PublicationEventKeepsAttempts(db, e);
        }
      }
  }

  lemma CreationKeepsTold(db: Db, x: Id, repository: Id)
    requires Inv(db) && AllTold(db)
    ensures Told(CreateMigration(db, x, repository), x) && AttemptsTold(CreateMigration(db, x, repository))
  {
    assert Told(db, x);
  }

  lemma EventKeepsTold(db: Db, e: Event)
    requires Inv(db) && AllTold(db) && Enabled(db, e)
    ensures AllTold(Apply(db, e))
  {
    SubjectIsTold(db, e);
    TransactionsAreIsolated(db, e);
    forall x ensures Told(Apply(db, e), x) {
      if x != Subject(db, e) {
        assert Told(db, x) && SameRows(db, Apply(db, e), x);
        SameRowsTold(db, Apply(db, e), x);
      }
    }
  }

  lemma {:induction false} RunKeepsTold(db: Db, es: seq<Event>)
    requires Inv(db) && AllTold(db) && Runnable(db, es)
    ensures Inv(Run(db, es)) && AllTold(Run(db, es))
    decreases |es|
  {
    if es != [] {
      StepKeeps(db, es[0]);
      EventKeepsTold(db, es[0]);
      RunKeepsTold(Apply(db, es[0]), es[1..]);
    }
  }

  // In every reachable state the status is what the current attempt, its publication and the decision
  // since then make it, and the copy that is served says so: the same columns, the error of whatever
  // failed, and the draft of what was published. An attempt has evidence exactly if it is completed.
  lemma StatusIsWhatHappened(es: seq<Event>, x: Id)
    requires Runnable(EMPTY, es) && x in Run(EMPTY, es).migrations
    ensures var db := Run(EMPTY, es);
      MigrationTold(db.migrations[x], Current(db, db.migrations[x]), PublicationFor(db, x)) && AttemptsTold(db)
  {
    EmptyOk();
    RunKeepsTold(EMPTY, es);
    assert Told(Run(EMPTY, es), x);
  }
}
