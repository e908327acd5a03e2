// What the transactions of the generation and the publication workers come to: exactly when each takes
// effect, and what it leaves.
module WorkerEffects {
  import opened Options
  import opened Lifecycle
  import opened Rows
  import opened Transactions
  import opened Coupling
  import opened Effects

  // ----- Generation workers -----

  // An attempt moves on by so many versions to a status, and stays what it was asked to be.
  ghost predicate AttemptMovesOn(db: Db, db': Db, a: Id, s: AttemptStatus, versions: int) {
    && a in db.attempts && a in db'.attempts
    && var row, row' := db.attempts[a], db'.attempts[a];
    && db'.attempts == db.attempts[a := row']
    && row'.status == s && row'.data.status == s
    && row'.version == row.version + versions && row'.data.version == Some(row'.version)
    && row'.migration == row.migration && row'.number == row.number
    && row'.previous == row.previous && row'.key == row.key
    && row'.data.reason == row.data.reason && row'.data.instructions == row.data.instructions
  }

  // What the copy says beyond the columns: the decision, the error, the linked draft.
  ghost predicate Annotated(m: Migration, decision: Option<Action>, error: Option<string>, pullUrl: Option<nat>) {
    m.data.decision == decision && m.data.errorCode == error && m.data.pullUrl == pullUrl
  }

  // A waiting attempt is claimed by one worker: attempt and migration are then generating.
  ghost predicate ClaimLeaves(db: Db, a: Id, db': Db, o: Outcome<Option<AttemptContext>>) {
    if a in db.attempts && db.attempts[a].status == AttemptPlanning then
      var mid := db.attempts[a].migration;
      && o == Done(Some(AttemptContext(mid, a)))
      && AttemptMovesOn(db, db', a, AttemptGenerating, 1) && MovesOn(db, db', mid, Generating, 1)
      && var row, m := db.attempts[a], db.migrations[mid];
      && db'.attempts[a].data.evidence == row.data.evidence && db'.attempts[a].data.errorCode == row.data.errorCode
      && db'.attempts[a].data.recommendation == row.data.recommendation
      && Annotated(db'.migrations[mid], m.data.decision, m.data.errorCode, m.data.pullUrl)
      && db'.migrations[mid].currentAttempt == Some(a) && db'.migrations[mid].snoozedUntil == m.snoozedUntil
      && db' == db.(attempts := db'.attempts, migrations := db'.migrations)
    else o == Done(None) && db' == db
  }

  lemma ClaimsLeave(db: Db, a: Id)
    requires Inv(db)
    ensures var (db', o) := ClaimAttempt(db, a); ClaimLeaves(db, a, db', o)
  {
    if a in db.attempts {
      var mid := db.attempts[a].migration;
      assert RowsOk(db, mid);
      assert AttemptOk(db, a, db.attempts[a], db.migrations[mid].currentAttempt);
    }
  }

  // Evidence is accepted for the generating current attempt of its migration, and an approval only
  // with every check passed.
  ghost predicate Completable(db: Db, ctx: AttemptContext, ev: Evidence) {
    && ev.attempt == ctx.attempt && ev.migration == ctx.migration
    && (ev.action == Approve ==> forall i | 0 <= i < |ev.checks| :: ev.checks[i].status == Passed)
    && ctx.attempt in db.attempts && db.attempts[ctx.attempt].status == AttemptGenerating
    && ctx.migration in db.migrations && db.migrations[ctx.migration].currentAttempt == Some(ctx.attempt)
  }

  // Why evidence is not accepted.
  ghost function RefusalOf(db: Db, ctx: AttemptContext, ev: Evidence): StoreError {
    if ev.attempt != ctx.attempt || ev.migration != ctx.migration then EvidenceMismatch
    else if ev.action == Approve && exists i | 0 <= i < |ev.checks| :: ev.checks[i].status != Passed then NotVerified
    else if ctx.migration !in db.migrations || db.migrations[ctx.migration].currentAttempt != Some(ctx.attempt)
    then NotFound
    else AttemptNotActive
  }

  lemma CompletesExactly(db: Db, ctx: AttemptContext, ev: Evidence, objectRef: string)
    requires Inv(db)
    ensures var (db', o) := CompleteAttempt(db, ctx, ev, objectRef);
      && (o.Done? <==> Completable(db, ctx, ev))
      && (!Completable(db, ctx, ev) ==> db' == db && o == Raised(RefusalOf(db, ctx, ev)))
  {
    if ctx.migration in db.migrations {
      assert RowsOk(db, ctx.migration);
      if ctx.attempt in db.attempts && db.migrations[ctx.migration].currentAttempt == Some(ctx.attempt) {
        assert AttemptOk(db, ctx.attempt, db.attempts[ctx.attempt], Some(ctx.attempt));
      }
    }
  }

  // Where the review's recommendation sends the migration.
  predicate SentTo(a: Action, s: MigrationStatus) {
    && (s == Ready <==> a == Approve)
    && (s == NeedsRevision <==> a == Revise)
    && (s == Blocked <==> a in {Snooze, Decline})
  }

  // Storing an artifact leaves what is stored, and one of the attempt with its digest.
  lemma StoredOnce(artifacts: map<(Id, Id), Artifact>, attempt: Id, patch: PatchEvidence, objectRef: string)
    requires StoreArtifact(artifacts, attempt, patch, objectRef).Done?
    ensures var after := StoreArtifact(artifacts, attempt, patch, objectRef).value;
      && (forall k | k in artifacts :: k in after && after[k] == artifacts[k])
      && (exists k :: k in after && k.0 == attempt && after[k].digest == patch.digest)
      && |after| <= |artifacts| + 1
  {
    var after := StoreArtifact(artifacts, attempt, patch, objectRef).value;
    if after != artifacts { assert after.Keys == artifacts.Keys + {(attempt, patch.artifact)}; }
    assert (attempt, patch.artifact) in after || after == artifacts;
  }

  // A completed attempt carries its evidence, whose artifact is stored, and its migration is ready
  // exactly if the evidence approves, to be revised exactly if it asks for that, and else blocked.
  ghost predicate CompletionLeaves(db: Db, ctx: AttemptContext, ev: Evidence, objectRef: string, db': Db) {
    && AttemptMovesOn(db, db', ctx.attempt, AttemptCompleted, 3)
    && ctx.migration in db.migrations && ctx.migration in db'.migrations
    && var row, m, m' := db'.attempts[ctx.attempt], db.migrations[ctx.migration], db'.migrations[ctx.migration];
    && MovesOn(db, db', ctx.migration, m'.status, 2) && SentTo(ev.action, m'.status)
    && Annotated(m', None, None, m.data.pullUrl)
    && m'.currentAttempt == Some(ctx.attempt) && m'.snoozedUntil == m.snoozedUntil
    && row.data.evidence == Some(ev) && row.data.recommendation == Some(ev.action)
    && db'.artifacts == db.artifacts[(ctx.attempt, ev.patch.artifact) := Artifact(ev.patch.digest, objectRef)]
    && db' == db.(attempts := db'.attempts, migrations := db'.migrations, artifacts := db'.artifacts)
  }

  lemma CompletionsLeave(db: Db, ctx: AttemptContext, ev: Evidence, objectRef: string)
    requires Inv(db) && Completable(db, ctx, ev)
    ensures CompletionLeaves(db, ctx, ev, objectRef, CompleteAttempt(db, ctx, ev, objectRef).0)
  {
    CompletesExactly(db, ctx, ev, objectRef);
    assert RowsOk(db, ctx.migration);
  }

  // An attempt that is planning or generating fails with its code, and blocks its migration with the
  // same code exactly if it is current.
  ghost predicate FailureLeaves(db: Db, a: Id, code: string, db': Db) {
    if a in db.attempts && db.attempts[a].status in {AttemptPlanning, AttemptGenerating} then
      var mid := db.attempts[a].migration;
      && AttemptMovesOn(db, db', a, AttemptFailed, 1)
      && db'.attempts[a].data.errorCode == Some(code)
      && db'.attempts[a].data.evidence == db.attempts[a].data.evidence
      && db'.attempts[a].data.recommendation == db.attempts[a].data.recommendation
      && mid in db.migrations
      && var m := db.migrations[mid];
      && (m.currentAttempt != Some(a) ==> db'.migrations == db.migrations)
      && (m.currentAttempt == Some(a) ==>
            && MovesOn(db, db', mid, Blocked, 1)
            && Annotated(db'.migrations[mid], m.data.decision, Some(code), m.data.pullUrl)
            && db'.migrations[mid].currentAttempt == Some(a) && db'.migrations[mid].snoozedUntil == m.snoozedUntil)
      && db' == db.(attempts := db'.attempts, migrations := db'.migrations)
    else db' == db
  }

  // An attempt may fail exactly while it is planning or generating, and then its migration, if it is
  // current there, is too and may be blocked.
  lemma MayFailExactly(db: Db, a: Id)
    requires Inv(db) && a in db.attempts
    ensures AttemptFailed in AttemptTransitions(db.attempts[a].status) <==>
      db.attempts[a].status in {AttemptPlanning, AttemptGenerating}
    ensures db.attempts[a].migration in db.migrations
    ensures var m := db.migrations[db.attempts[a].migration];
      m.currentAttempt == Some(a) && db.attempts[a].status in {AttemptPlanning, AttemptGenerating} ==>
        Blocked in MigrationTransitions(m.status)
  {
    var mid := db.attempts[a].migration;
    assert RowsOk(db, mid);
    assert AttemptOk(db, a, db.attempts[a], db.migrations[mid].currentAttempt);
  }

  lemma FailuresLeave(db: Db, a: Id, code: string)
    requires Inv(db)
    ensures FailureLeaves(db, a, code, FailAttempt(db, a, code))
  {
    if a in db.attempts {
      MayFailExactly(db, a);
      FailureIs(db, a, code);
    }
  }

  lemma FailureIs(db: Db, a: Id, code: string)
    requires a in db.attempts && db.attempts[a].migration in db.migrations
    requires AttemptFailed in AttemptTransitions(db.attempts[a].status) <==>
      db.attempts[a].status in {AttemptPlanning, AttemptGenerating}
    requires var m := db.migrations[db.attempts[a].migration];
      m.currentAttempt == Some(a) && db.attempts[a].status in {AttemptPlanning, AttemptGenerating} ==>
        Blocked in MigrationTransitions(m.status)
    ensures FailureLeaves(db, a, code, FailAttempt(db, a, code))
  {
  }

  // ----- Publication workers -----

  // What the row of a publication says it is about.
  ghost predicate SameTask(row: Publication, row': Publication) {
    && row'.migration == row.migration && row'.repository == row.repository
    && row'.lastAttempt == row.lastAttempt && row'.branch == row.branch
    && row'.base == row.base && row'.patch == row.patch
  }

  // What it has recorded.
  ghost predicate SameMarks(row: Publication, row': Publication) {
    && row'.tree == row.tree && row'.commit == row.commit && row'.remoteHead == row.remoteHead
    && row'.pull == row.pull && row'.check == row.check
  }

  // Only this publication's row changes, and its task stays.
  ghost predicate RowMovesOn(db: Db, db': Db, p: Id, s: PublicationStatus, error: Option<string>) {
    && p in db.publications && p in db'.publications
    && db'.publications == db.publications[p := db'.publications[p]]
    && SameTask(db.publications[p], db'.publications[p])
    && db'.publications[p].status == s && db'.publications[p].errorCode == error
  }

  // A queued publication is handed to one worker, as the row then is.
  ghost predicate DraftClaimLeaves(db: Db, p: Id, db': Db, context: Option<PublicationContext>) {
    if p in db.publications && db.publications[p].status == PublicationQueued then
      && RowMovesOn(db, db', p, Publishing, None) && SameMarks(db.publications[p], db'.publications[p])
      && context == Some(PublicationContext(p, db'.publications[p]))
      && db' == db.(publications := db'.publications)
    else context.None? && db' == db
  }

  lemma DraftClaimsLeave(db: Db, p: Id)
    ensures var (db', context) := ClaimPublication(db, p); DraftClaimLeaves(db, p, db', context)
  {
  }

  // A checkpoint sets the one thing it is of, while the publication is under way.
  ghost predicate CheckpointLeaves(db: Db, p: Id, c: Checkpoint, db': Db) {
    if p in db.publications && db.publications[p].status == Publishing then
      && RowMovesOn(db, db', p, Publishing, db.publications[p].errorCode)
      && var row, row' := db.publications[p], db'.publications[p];
      && row'.tree == (if c.TreeCheckpoint? then Some(c.tree) else row.tree)
      && row'.commit == (if c.CommitCheckpoint? then Some(c.commit) else row.commit)
      && row'.remoteHead == (if c.BranchCheckpoint? then Some(c.head) else row.remoteHead)
      && row'.pull == (if c.PullCheckpoint? then Some(c.pull) else row.pull)
      && row'.check == (if c.CheckCheckpoint? then Some(c.check) else row.check)
      && db' == db.(publications := db'.publications)
    else db' == db
  }

  lemma CheckpointsLeave(db: Db, p: Id, c: Checkpoint)
    ensures CheckpointLeaves(db, p, c, RecordCheckpoint(db, p, c))
  {
  }

  // A publication under way completes, with all that was made, if its migration is still opening for
  // the attempt it was claimed for; then the migration is opened and links the draft.
  ghost predicate DraftCompletionLeaves(
    db: Db, ctx: PublicationContext, result: PublicationResult, db': Db, o: Outcome<()>)
  {
    var p, mid := ctx.publication, ctx.record.migration;
    if p !in db.publications || db.publications[p].status != Publishing
    then db' == db && o == Raised(PublicationNotActive)
    else if db.publications[p].lastAttempt != ctx.record.lastAttempt
    then db' == db && o == Raised(PublicationNotOwned)
    else
      && o == Done(())
      && RowMovesOn(db, db', p, Published, None)
      && SameMarks(db.publications[p].(tree := Some(result.tree), commit := Some(result.commit),
                                       remoteHead := Some(result.commit), pull := Some(result.pull),
                                       check := Some(result.check)),
                   db'.publications[p])
      && MovesOn(db, db', mid, PrOpened, 1)
      && Annotated(db'.migrations[mid], db.migrations[mid].data.decision, None, Some(result.pull))
      && db'.migrations[mid].currentAttempt == db.migrations[mid].currentAttempt
      && db'.migrations[mid].snoozedUntil == db.migrations[mid].snoozedUntil
      && db' == db.(publications := db'.publications, migrations := db'.migrations)
  }

  lemma DraftCompletionsLeave(db: Db, ctx: PublicationContext, result: PublicationResult)
    requires Inv(db) && Issued(db, ctx)
    ensures var (db', o) := CompletePublication(db, ctx, result); DraftCompletionLeaves(db, ctx, result, db', o)
  {
    if ctx.publication in db.publications { assert RowsOk(db, db.publications[ctx.publication].migration); }
  }

  // A publication under way fails with its code and keeps what it has recorded; its migration is
  // blocked with the same code.
  ghost predicate DraftFailureLeaves(db: Db, p: Id, code: string, db': Db) {
    if p in db.publications && db.publications[p].status == Publishing then
      var mid := db.publications[p].migration;
      && RowMovesOn(db, db', p, PublicationFailed, Some(code)) && SameMarks(db.publications[p], db'.publications[p])
      && MovesOn(db, db', mid, Blocked, 1)
      && Annotated(db'.migrations[mid], db.migrations[mid].data.decision, Some(code), db.migrations[mid].data.pullUrl)
      && db'.migrations[mid].currentAttempt == db.migrations[mid].currentAttempt
      && db'.migrations[mid].snoozedUntil == db.migrations[mid].snoozedUntil
      && db' == db.(publications := db'.publications, migrations := db'.migrations)
    else db' == db
  }

  lemma DraftFailuresLeave(db: Db, p: Id, code: string)
    requires Inv(db)
    ensures DraftFailureLeaves(db, p, code, FailPublication(db, p, code))
  {
    if p in db.publications { assert RowsOk(db, db.publications[p].migration); }
  }
}
