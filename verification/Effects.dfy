// What serving a request and running a worker's transaction come to: exactly when each takes effect,
// what it is told when it does not, and what it leaves when it does.
module Effects {
  import opened Git
  import opened Options
  import opened Lifecycle
  import opened Rows
  import opened Transactions
  import opened Coupling
  import opened Protocol
  import opened Replay

  // A request that is served at once: answered from the store, reported, or run.
  ghost function Serve(db: Db, q: Request): (Db, Outcome<Response>) {
    match LookUp(db, OperationOf(q), KeyOf(q), PayloadOf(q))
    case Replayed(response) => (db, Done(response))
    case Reused => (db, Raised(KeyReused))
    case Fresh => Submit(db, q)
  }

  // ----- When a request takes effect -----

  // The statuses in which each request is in place.
  predicate InPlace(q: Request, s: MigrationStatus) {
    match q
    case DecisionRequested(r) =>
      (match r.action
       case Approve => s == PrOpened
       case Revise => s in {Generating, Verifying, Ready, PrOpened}
       case Snooze => s in {Ready, PrOpened}
       case Decline => s in {Ready, PrOpened})
    case GenerationRequested(_) => s in {Queued, NeedsRevision, Blocked}
    case PublicationRequested(_) => s in {Ready, Blocked}
  }

  // A new attempt may have this identifier and this key.
  ghost predicate Addable(db: Db, mid: Id, a: Id, key: Key) {
    a !in db.attempts &&
    forall b | b in db.attempts && db.attempts[b].migration == mid :: db.attempts[b].key != key
  }

  // The current attempt is a revision that nobody has begun to generate.
  ghost predicate RevisionWaits(db: Db, mid: Id)
    requires mid in db.migrations
  {
    var current := Current(db, db.migrations[mid]);
    current.Some? && current.value.status == AttemptCreated
  }

  // The current attempt was approved by its review, with every check passed.
  ghost predicate Approvable(db: Db, mid: Id)
    requires mid in db.migrations
  {
    var current := Current(db, db.migrations[mid]);
    && current.Some? && current.value.status == AttemptCompleted && current.value.data.evidence.Some?
    && current.value.data.evidence.value.action == Approve
    && forall i | 0 <= i < |current.value.data.evidence.value.checks| ::
         current.value.data.evidence.value.checks[i].status == Passed
  }

  // The new rows it needs can be added.
  ghost predicate RoomFor(db: Db, q: Request)
    requires OperationOf(q).migration in db.migrations
  {
    match q
    case DecisionRequested(r) => r.action == Revise ==> Addable(db, r.migration, r.newAttempt, r.key)
    case GenerationRequested(r) =>
      RevisionWaits(db, r.migration) || Addable(db, r.migration, r.newAttempt, r.key)
    case PublicationRequested(r) =>
      r.migration in db.publicationOf || r.newPublication !in db.publications
  }

  ghost predicate TakesEffect(db: Db, q: Request) {
    var mid := OperationOf(q).migration;
    && (OperationOf(q), KeyOf(q)) !in db.idempotency
    && mid in db.migrations
    && db.migrations[mid].version == ExpectedVersion(q)
    && InPlace(q, db.migrations[mid].status)
    && (q.PublicationRequested? ==> Approvable(db, mid))
    && RoomFor(db, q)
  }

  // A key without an answer is fresh, whatever other answers there are.
  lemma FreshExactly(db: Db, op: Operation, key: Key, payload: Payload)
    ensures LookUp(db, op, key, payload) == Fresh <==> (op, key) !in db.idempotency
    ensures LookUp(db, op, key, payload) == Reused <==>
      (op, key) in db.idempotency && db.idempotency[(op, key)].payload != payload
    ensures forall response :: LookUp(db, op, key, payload) == Replayed(response) <==>
      (op, key) in db.idempotency && db.idempotency[(op, key)] == Stored(payload, response)
  {
  }

  lemma DecisionRunsExactly(db: Db, r: DecisionRequest)
    requires Inv(db)
    ensures Decide(db, r).1.Done? <==> TakesEffect(db, DecisionRequested(r))
  {
    if r.migration in db.migrations {
      assert RowsOk(db, r.migration);
      CurrentIsLatest(db, r.migration);
    }
  }

  lemma GenerationRunsExactly(db: Db, r: GenerateRequest)
    requires Inv(db)
    ensures QueueAttempt(db, r).1.Done? <==> TakesEffect(db, GenerationRequested(r))
  {
    if r.migration in db.migrations {
      assert RowsOk(db, r.migration);
      CurrentIsLatest(db, r.migration);
    }
  }

  lemma PublicationRunsExactly(db: Db, r: PublishRequest)
    requires Inv(db)
    ensures QueuePublication(db, r).1.Done? <==> TakesEffect(db, PublicationRequested(r))
  {
    if r.migration in db.migrations {
      assert RowsOk(db, r.migration);
      var m := db.migrations[r.migration];
      if m.currentAttempt.Some? {
        var a := m.currentAttempt.value;
        assert AttemptOk(db, a, db.attempts[a], m.currentAttempt);
      }
    }
  }

  lemma SubmitRunsExactly(db: Db, q: Request)
    requires Inv(db)
    ensures Submit(db, q).1.Done? <==> TakesEffect(db, q)
  {
    match q
    case DecisionRequested(r) => DecisionRunsExactly(db, r);
    case GenerationRequested(r) => GenerationRunsExactly(db, r);
    case PublicationRequested(r) => PublicationRunsExactly(db, r);
  }

  // A request changes something exactly if its key has no answer, its migration is there at the
  // version it names and in a status it is in place in, and the rows it needs can be added.
  lemma RequestsTakeEffectExactly(db: Db, q: Request)
    requires Inv(db)
    ensures Serve(db, q).0 != db <==> TakesEffect(db, q)
    ensures TakesEffect(db, q) ==> Serve(db, q).1.Done?
  {
    SubmitRunsExactly(db, q);
    if TakesEffect(db, q) { SubmitConsumes(db, q); } else { RefusalChangesNothing(db, q); }
  }

  lemma RefusalChangesNothing(db: Db, q: Request)
    requires Submit(db, q).1.Raised?
    ensures Submit(db, q).0 == db
  {
    match q
    case DecisionRequested(r) => DecideRefused(db, r);
    case GenerationRequested(r) => QueueAttemptRefused(db, r);
    case PublicationRequested(r) => QueuePublicationRefused(db, r);
  }

  // What a request that does not take effect is told.
  ghost function AnswerWithout(db: Db, q: Request): Outcome<Response> {
    var k, mid := (OperationOf(q), KeyOf(q)), OperationOf(q).migration;
    if k in db.idempotency then
      if db.idempotency[k].payload == PayloadOf(q) then Done(db.idempotency[k].response) else Raised(KeyReused)
    else if mid !in db.migrations then Raised(NotFound)
    else if db.migrations[mid].version != ExpectedVersion(q) then Raised(Conflict)
    else if !InPlace(q, db.migrations[mid].status) then Raised(BadTransition)
    else if q.PublicationRequested? && !Approvable(db, mid) then Raised(NotPublishable)
    else Raised(UniqueViolation)
  }

  lemma RefusedDecision(db: Db, r: DecisionRequest)
    requires Inv(db) && !TakesEffect(db, DecisionRequested(r))
    ensures Serve(db, DecisionRequested(r)).1 == AnswerWithout(db, DecisionRequested(r))
  {
    DecisionRunsExactly(db, r);
  }

  lemma RefusedGeneration(db: Db, r: GenerateRequest)
    requires Inv(db) && !TakesEffect(db, GenerationRequested(r))
    ensures Serve(db, GenerationRequested(r)).1 == AnswerWithout(db, GenerationRequested(r))
  {
    GenerationRunsExactly(db, r);
  }

  lemma RefusedPublication(db: Db, r: PublishRequest)
    requires Inv(db) && !TakesEffect(db, PublicationRequested(r))
    ensures Serve(db, PublicationRequested(r)).1 == AnswerWithout(db, PublicationRequested(r))
  {
    if r.migration in db.migrations {
      assert RowsOk(db, r.migration);
      var m := db.migrations[r.migration];
      if m.currentAttempt.Some? {
        var a := m.currentAttempt.value;
        assert AttemptOk(db, a, db.attempts[a], m.currentAttempt);
      }
    }
  }

  // Everything else is told why, and in this order: a used key, a missing migration, another
  // version, a status that does not allow it, an attempt that may not be published, a taken row.
  lemma OthersAreTold(db: Db, q: Request)
    requires Inv(db) && !TakesEffect(db, q)
    ensures Serve(db, q) == (db, AnswerWithout(db, q))
  {
    RequestsTakeEffectExactly(db, q);
    match q
    case DecisionRequested(r) => RefusedDecision(db, r);
    case GenerationRequested(r) => RefusedGeneration(db, r);
    case PublicationRequested(r) => RefusedPublication(db, r);
  }

  // ----- What a request leaves -----

  // The copy that is served says what the columns say.
  ghost predicate CopyAgrees(m: Migration) {
    && m.data.status == m.status && m.data.version == m.version
    && m.data.currentAttempt == m.currentAttempt && m.data.snoozedUntil == m.snoozedUntil
  }

  // One migration moves on by so many versions to a status; its repository stays.
  ghost predicate MovesOn(db: Db, db': Db, mid: Id, s: MigrationStatus, versions: int) {
    && mid in db.migrations && mid in db'.migrations
    && var m, m' := db.migrations[mid], db'.migrations[mid];
       && db'.migrations == db.migrations[mid := m']
       && m'.status == s && m'.version == m.version + versions && m'.repository == m.repository
       && (CopyAgrees(m) ==> CopyAgrees(m'))
  }

  // The answer is kept under the request's key.
  ghost predicate Remembers(db: Db, db': Db, q: Request, response: Response) {
    db'.idempotency == db.idempotency[(OperationOf(q), KeyOf(q)) := Stored(PayloadOf(q), response)]
  }

  // The status a decision gives.
  predicate StatusAfter(a: Action, s: MigrationStatus) {
    match a
    case Approve => s == Approved
    case Revise => s == NeedsRevision
    case Snooze => s == Snoozed
    case Decline => s == Declined
  }

  // A decision leaves its status, itself and its date in the row and in the served copy, and
  // answers with that copy. A revision is a new attempt that waits; other decisions add none.
  ghost predicate DecisionLeaves(db: Db, r: DecisionRequest, db': Db, o: Outcome<Response>) {
    && r.migration in db.migrations && r.migration in db'.migrations
    && var m, m' := db.migrations[r.migration], db'.migrations[r.migration];
    && StatusAfter(r.action, m'.status) && MovesOn(db, db', r.migration, m'.status, 1)
    && m'.data.pullUrl == m.data.pullUrl
    && m'.data.decision == Some(r.action) && m'.data.errorCode == m.data.errorCode
    && m'.snoozedUntil == r.snoozeUntil && m'.data.snoozedUntil == r.snoozeUntil
    && m'.currentAttempt == (if r.action == Revise then Some(r.newAttempt) else m.currentAttempt)
    && o == Done(DecisionResponse(m'.data))
    && Remembers(db, db', DecisionRequested(r), DecisionResponse(m'.data))
    && (r.action != Revise ==> db'.attempts == db.attempts)
    && (r.action == Revise ==>
          && r.newAttempt !in db.attempts && r.newAttempt in db'.attempts
          && db'.attempts == db.attempts[r.newAttempt := db'.attempts[r.newAttempt]]
          && Begun(db'.attempts[r.newAttempt], r.migration, m.currentAttempt, r.key)
          && db'.attempts[r.newAttempt].status == AttemptCreated
          && db'.attempts[r.newAttempt].version == 1 && db'.attempts[r.newAttempt].data.version.None?
          && db'.attempts[r.newAttempt].data.reason == r.reason
          && db'.attempts[r.newAttempt].data.instructions == r.instructions)
    && db'.artifacts == db.artifacts && db'.publications == db.publications
    && db'.publicationOf == db.publicationOf
  }

  // A new attempt of the migration, after its current one, with nothing to show yet.
  ghost predicate Begun(row: Attempt, mid: Id, current: Option<Id>, key: Key) {
    && row.migration == mid && row.previous == current && row.key == key
    && row.data.status == row.status
    && row.data.recommendation.None? && row.data.evidence.None? && row.data.errorCode.None?
  }

  lemma DecisionsLeave(db: Db, r: DecisionRequest)
    requires Inv(db) && TakesEffect(db, DecisionRequested(r))
    ensures var (db', o) := Serve(db, DecisionRequested(r)); DecisionLeaves(db, r, db', o)
  {
    DecisionRunsExactly(db, r);
    assert RowsOk(db, r.migration);
    CurrentIsLatest(db, r.migration);
  }

  // The attempt a generation request plans: the revision that waits, as it is, or a new one.
  ghost predicate AttemptPlanned(db: Db, r: GenerateRequest, row: Attempt)
    requires r.migration in db.migrations
  {
    && row.status == AttemptPlanning && row.data.status == AttemptPlanning
    && row.data.version == Some(row.version)
    && if RevisionWaits(db, r.migration) then
         var before := Current(db, db.migrations[r.migration]).value;
         && row.version == before.version + 1
         && row == before.(status := row.status, version := row.version,
                           data := before.data.(status := row.data.status, version := row.data.version))
       else
         && row.version == 2
         && Begun(row, r.migration, db.migrations[r.migration].currentAttempt, r.key)
         && row.data.reason.None? && row.data.instructions.None?
  }

  // A generation request leaves its migration planning that attempt, with no decision and no error.
  ghost predicate GenerationLeaves(db: Db, r: GenerateRequest, db': Db, o: Outcome<Response>) {
    && MovesOn(db, db', r.migration, Planning, 1)
    && var m, m' := db.migrations[r.migration], db'.migrations[r.migration];
    && m'.data.pullUrl == m.data.pullUrl
    && m'.data.decision.None? && m'.data.errorCode.None? && m'.snoozedUntil == m.snoozedUntil
    && m'.currentAttempt.Some? && m'.currentAttempt.value in db'.attempts
    && var a := m'.currentAttempt.value;
    && (if RevisionWaits(db, r.migration) then m.currentAttempt == Some(a) else a == r.newAttempt && a !in db.attempts)
    && AttemptPlanned(db, r, db'.attempts[a]) && db'.attempts == db.attempts[a := db'.attempts[a]]
    && var response := GenerateResponse(r.migration, a, m'.version);
    && o == Done(response) && Remembers(db, db', GenerationRequested(r), response)
    && db'.artifacts == db.artifacts && db'.publications == db.publications
    && db'.publicationOf == db.publicationOf && db'.decisions == db.decisions
  }

  lemma GenerationsLeave(db: Db, r: GenerateRequest)
    requires Inv(db) && TakesEffect(db, GenerationRequested(r))
    ensures var (db', o) := Serve(db, GenerationRequested(r)); GenerationLeaves(db, r, db', o)
  {
    GenerationRunsExactly(db, r);
    assert RowsOk(db, r.migration);
    CurrentIsLatest(db, r.migration);
  }

  // What was recorded for one attempt is dropped for another: tree, commit and check run. The head
  // of the branch and the draft stay.
  ghost predicate QueuedAgain(before: Publication, row: Publication) {
    && row.migration == before.migration && row.repository == before.repository && row.branch == before.branch
    && row.remoteHead == before.remoteHead && row.pull == before.pull
    && if row.lastAttempt == before.lastAttempt
       then row.tree == before.tree && row.commit == before.commit && row.check == before.check
       else row.tree.None? && row.commit.None? && row.check.None?
  }

  ghost predicate QueuedFirst(row: Publication, mid: Id, repository: Id) {
    && row.migration == mid && row.repository == repository && row.branch == MigrationBranch(mid)
    && row.remoteHead.None? && row.pull.None?
    && row.tree.None? && row.commit.None? && row.check.None?
  }

  // A publication request queues the migration's one publication for its current attempt, at the base
  // and with the patch of that attempt's evidence, and leaves the migration opening.
  ghost predicate PublicationLeaves(db: Db, r: PublishRequest, db': Db, o: Outcome<Response>) {
    && MovesOn(db, db', r.migration, PrOpening, 1)
    && var m, m' := db.migrations[r.migration], db'.migrations[r.migration];
    && m'.data.pullUrl == m.data.pullUrl
    && m'.data.decision == m.data.decision && m'.data.errorCode.None? && m'.snoozedUntil == m.snoozedUntil
    && m'.currentAttempt == m.currentAttempt && Approvable(db, r.migration)
    && r.migration in db'.publicationOf && db'.publicationOf[r.migration] in db'.publications
    && var p := db'.publicationOf[r.migration];
    && var row := db'.publications[p];
    && db'.publications == db.publications[p := row] && db'.publicationOf == db.publicationOf[r.migration := p]
    && row.status == PublicationQueued && row.errorCode.None? && m.currentAttempt == Some(row.lastAttempt)
    && var ev := Current(db, m).value.data.evidence.value;
    && row.base == ev.base && row.patch == ev.patch.digest
    && (if r.migration in db.publicationOf then p in db.publications && QueuedAgain(db.publications[p], row)
        else p == r.newPublication && p !in db.publications && QueuedFirst(row, r.migration, m.repository))
    && var response := PublishResponse(r.migration, row.lastAttempt, p, m'.version);
    && o == Done(response) && Remembers(db, db', PublicationRequested(r), response)
    && db'.attempts == db.attempts && db'.artifacts == db.artifacts && db'.decisions == db.decisions
  }

  lemma PublicationsLeave(db: Db, r: PublishRequest)
    requires Inv(db) && TakesEffect(db, PublicationRequested(r))
    ensures var (db', o) := Serve(db, PublicationRequested(r)); PublicationLeaves(db, r, db', o)
  {
    PublicationRunsExactly(db, r);
    assert RowsOk(db, r.migration);
  }
}
