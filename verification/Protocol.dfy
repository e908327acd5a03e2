// Runs of the protocol: any interleaving of developer requests, generation workers and
// publication workers, one transaction at a time. A worker that crashes simply takes no
// further step; a request that was looked up and found new commits at any later time.
module Protocol {
  import opened Lifecycle
  import opened Rows
  import opened Transactions
  import opened Coupling

  datatype Request =
    | DecisionRequested(decision: DecisionRequest)
    | GenerationRequested(generate: GenerateRequest)
    | PublicationRequested(publish: PublishRequest)

  datatype Event =
    | MigrationFound(mid: Id, repository: Id)
    | Submitted(request: Request)
    | AttemptClaimed(a: Id)
    | AttemptDone(ctx: AttemptContext, evidence: Evidence, objectRef: string)
    | AttemptFailing(a: Id, code: string)
    | PublicationClaimed(p: Id)
    | Checkpointed(p: Id, checkpoint: Checkpoint)
    | PublicationDone(context: PublicationContext, result: PublicationResult)
    | PublicationFailing(p: Id, code: string)

  function OperationOf(q: Request): Operation {
    match q
    case DecisionRequested(r) => Operation(r.migration, Act(r.action))
    case GenerationRequested(r) => Operation(r.migration, Generate)
    case PublicationRequested(r) => Operation(r.migration, Publish)
  }

  function KeyOf(q: Request): Key {
    match q
    case DecisionRequested(r) => r.key
    case GenerationRequested(r) => r.key
    case PublicationRequested(r) => r.key
  }

  function PayloadOf(q: Request): Payload {
    match q
    case DecisionRequested(r) => DecisionPayloadOf(r)
    case GenerationRequested(r) => VersionPayload(r.expected)
    case PublicationRequested(r) => VersionPayload(r.expected)
  }

  // The locked part of a request.
  ghost function Submit(db: Db, q: Request): (Db, Outcome<Response>) {
    match q
    case DecisionRequested(r) => Decide(db, r)
    case GenerationRequested(r) => QueueAttempt(db, r)
    case PublicationRequested(r) => QueuePublication(db, r)
  }

  ghost function Apply(db: Db, e: Event): Db {
    match e
    case MigrationFound(mid, repository) => CreateMigration(db, mid, repository)
    case Submitted(q) => Submit(db, q).0
    case AttemptClaimed(a) => ClaimAttempt(db, a).0
    case AttemptDone(ctx, evidence, objectRef) => CompleteAttempt(db, ctx, evidence, objectRef).0
    case AttemptFailing(a, code) => FailAttempt(db, a, code)
    case PublicationClaimed(p) => ClaimPublication(db, p).0
    case Checkpointed(p, checkpoint) => RecordCheckpoint(db, p, checkpoint)
    case PublicationDone(context, result) => CompletePublication(db, context, result).0
    case PublicationFailing(p, code) => FailPublication(db, p, code)
  }

  ghost predicate Enabled(db: Db, e: Event) {
    e.PublicationDone? ==> Issued(db, e.context)
  }

  ghost function Run(db: Db, es: seq<Event>): Db
    decreases |es|
  {
    if es == [] then db else Run(Apply(db, es[0]), es[1..])
  }

  ghost predicate Runnable(db: Db, es: seq<Event>)
    decreases |es|
  {
    es == [] || (Enabled(db, es[0]) && Runnable(Apply(db, es[0]), es[1..]))
  }

  lemma RequestKeeps(db: Db, q: Request)
    requires Inv(db)
    ensures Inv(Submit(db, q).0) && Moves(db, Submit(db, q).0)
  {
    match q
    case DecisionRequested(r) => DecideKeeps(db, r);
    case GenerationRequested(r) => QueueAttemptKeeps(db, r);
    case PublicationRequested(r) => QueuePublicationKeeps(db, r);
  }

  lemma AttemptEventKeeps(db: Db, e: Event)
    requires Inv(db) && (e.AttemptClaimed? || e.AttemptDone? || e.AttemptFailing?)
    ensures Inv(Apply(db, e)) && Moves(db, Apply(db, e))
  {
    match e
    case AttemptClaimed(a) => ClaimAttemptKeeps(db, a);
    case AttemptDone(ctx, evidence, objectRef) => CompleteAttemptKeeps(db, ctx, evidence, objectRef);
    case AttemptFailing(a, code) => FailAttemptKeeps(db, a, code);
  }

  lemma DraftClaimKeeps(db: Db, p: Id)
    requires Inv(db)
    ensures var e := PublicationClaimed(p); Inv(Apply(db, e)) && Moves(db, Apply(db, e))
  {
    ClaimPublicationKeeps(db, p);
  }

  lemma CheckpointKeeps(db: Db, p: Id, checkpoint: Checkpoint)
    requires Inv(db)
    ensures var e := Checkpointed(p, checkpoint); Inv(Apply(db, e)) && Moves(db, Apply(db, e))
  {
    RecordCheckpointKeeps(db, p, checkpoint);
  }

  lemma DraftFailureKeeps(db: Db, p: Id, code: string)
    requires Inv(db)
    ensures var e := PublicationFailing(p, code); Inv(Apply(db, e)) && Moves(db, Apply(db, e))
  {
    FailPublicationKeeps(db, p, code);
  }

  lemma DraftDoneKeeps(db: Db, context: PublicationContext, result: PublicationResult)
    requires Inv(db) && Issued(db, context)
    ensures var e := PublicationDone(context, result); Inv(Apply(db, e)) && Moves(db, Apply(db, e))
  {
    CompletePublicationKeeps(db, context, result);
  }

  lemma StepKeeps(db: Db, e: Event)
    requires Inv(db) && Enabled(db, e)
    ensures Inv(Apply(db, e)) && Moves(db, Apply(db, e))
  {
    match e
    case MigrationFound(mid, repository) => CreateMigrationKeeps(db, mid, repository);
    case Submitted(q) => RequestKeeps(db, q);
    case PublicationClaimed(p) => DraftClaimKeeps(db, p);
    case Checkpointed(p, checkpoint) => CheckpointKeeps(db, p, checkpoint);
    case PublicationDone(context, result) => DraftDoneKeeps(db, context, result);
    case PublicationFailing(p, code) => DraftFailureKeeps(db, p, code);
    case _ => AttemptEventKeeps(db, e);
  }

  lemma {:induction false} RunsKeep(db: Db, es: seq<Event>)
    requires Inv(db) && Runnable(db, es)
    ensures Inv(Run(db, es))
    decreases |es|
  {
    if es != [] {
      StepKeeps(db, es[0]);
      RunsKeep(Apply(db, es[0]), es[1..]);
    }
  }

  lemma {:induction false} RunConcat(db: Db, es: seq<Event>, fs: seq<Event>)
    ensures Run(db, es + fs) == Run(Run(db, es), fs)
    ensures Runnable(db, es + fs) <==> Runnable(db, es) && Runnable(Run(db, es), fs)
    decreases |es|
  {
    if es == [] {
      assert es + fs == fs;
    } else {
      assert (es + fs)[0] == es[0] && (es + fs)[1..] == es[1..] + fs;
      RunConcat(Apply(db, es[0]), es[1..], fs);
    }
  }

  // ----- The coupling of the three stores -----

  // In every reachable state the status of a migration mirrors its current attempt and its
  // publication, so the stores' "no longer owns" errors cannot be raised.
  lemma StoresStayCoupled(es: seq<Event>, mid: Id)
    requires Runnable(EMPTY, es)
    requires mid in Run(EMPTY, es).migrations
    ensures
      var db := Run(EMPTY, es);
      var m := db.migrations[mid];
      var current := Current(db, m);
      && (m.status == Planning <==> current.Some? && current.value.status == AttemptPlanning)
      && (m.status == Generating <==> current.Some? && current.value.status == AttemptGenerating)
      && (m.status == PrOpening <==> PublicationFor(db, mid).Some? && Open(PublicationFor(db, mid).value))
      && (m.status in {Ready, PrOpening, PrOpened, Approved, Snoozed, Declined} ==>
            current.Some? && Verified(current.value))
      && m.data.status == m.status && m.data.version == m.version
      && m.data.currentAttempt == m.currentAttempt
  {
    EmptyOk();
    RunsKeep(EMPTY, es);
    assert RowsOk(Run(EMPTY, es), mid);
  }

  lemma AttemptOwnershipErrorUnreachable(es: seq<Event>, a: Id)
    requires Runnable(EMPTY, es)
    ensures ClaimAttempt(Run(EMPTY, es), a).1 != Raised(AttemptNotOwned)
  {
    EmptyOk();
    RunsKeep(EMPTY, es);
    var db := Run(EMPTY, es);
    if a in db.attempts {
      var mid := db.attempts[a].migration;
      assert RowsOk(db, mid);
      assert AttemptOk(db, a, db.attempts[a], db.migrations[mid].currentAttempt);
    }
  }

  // Completing a publication finds its migration taken away exactly when the context was claimed
  // for an attempt that the publication has since been queued away from.
  lemma OnlyStaleContextsAreRefused(es: seq<Event>, ctx: PublicationContext, result: PublicationResult)
    requires Runnable(EMPTY, es) && Issued(Run(EMPTY, es), ctx)
    ensures var db := Run(EMPTY, es);
      CompletePublication(db, ctx, result).1 == Raised(PublicationNotOwned) <==>
        && ctx.publication in db.publications
        && db.publications[ctx.publication].status == Publishing
        && db.publications[ctx.publication].lastAttempt != ctx.record.lastAttempt
  {
    EmptyOk();
    RunsKeep(EMPTY, es);
    var db := Run(EMPTY, es);
    if ctx.publication in db.publications {
      assert RowsOk(db, db.publications[ctx.publication].migration);
    }
  }
}
