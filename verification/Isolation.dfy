// What a transaction does not touch: the rows of any migration but one.
module Isolation {
  import opened Options
  import opened Lifecycle
  import opened Rows
  import opened Transactions
  import opened Coupling
  import opened Protocol

  // Migration `x` has the same row, the same attempts with their artifacts, and the same publication.
  ghost predicate SameRows(db: Db, db': Db, x: Id) {
    && (x in db.migrations <==> x in db'.migrations)
    && (x in db.migrations ==> db'.migrations[x] == db.migrations[x])
    && (forall a | a in db.attempts && db.attempts[a].migration == x ::
          a in db'.attempts && db'.attempts[a] == db.attempts[a])
    && (forall a | a in db'.attempts && db'.attempts[a].migration == x ::
          a in db.attempts && db.attempts[a] == db'.attempts[a])
    && PublicationFor(db', x) == PublicationFor(db, x)
  }

  ghost predicate TouchesOnly(db: Db, db': Db, mid: Id) {
    forall x {:trigger SameRows(db, db', x)} | x != mid :: SameRows(db, db', x)
  }

  lemma PutTouchesOne(db: Db, w: Write)
    requires Inv(db) && WriteOk(db, w)
    ensures TouchesOnly(db, Put(db, w), w.mid)
  {
    forall x | x != w.mid ensures SameRows(db, Put(db, w), x) { PutElsewhere(db, w, x); }
  }

  lemma DecideTouches(db: Db, r: DecisionRequest)
    requires Inv(db)
    ensures TouchesOnly(db, Decide(db, r).0, r.migration)
  {
    if Decide(db, r).1.Done? {
      DecideWrites(db, r);
      DecideWriteOk(db, r);
      PutTouchesOne(db, DecideWrite(db, r));
    } else {
      assert Decide(db, r).0 == db;
    }
  }

  lemma QueueAttemptTouches(db: Db, r: GenerateRequest)
    requires Inv(db)
    ensures TouchesOnly(db, QueueAttempt(db, r).0, r.migration)
  {
    if QueueAttempt(db, r).1.Done? {
      QueueAttemptWrites(db, r);
      QueueAttemptWriteOk(db, r);
      PutTouchesOne(db, QueueAttemptWrite(db, r));
    } else {
      assert QueueAttempt(db, r).0 == db;
    }
  }

  lemma QueuePublicationTouches(db: Db, r: PublishRequest)
    requires Inv(db)
    ensures TouchesOnly(db, QueuePublication(db, r).0, r.migration)
  {
    if QueuePublication(db, r).1.Done? {
      QueuePublicationWrites(db, r);
      QueuePublicationWriteOk(db, r);
      PutTouchesOne(db, QueuePublicationWrite(db, r));
    } else {
      assert QueuePublication(db, r).0 == db;
    }
  }

  // The migration an event is about.
  ghost function Subject(db: Db, e: Event): Id {
    match e
    case MigrationFound(mid, _) => mid
    case Submitted(q) => OperationOf(q).migration
    case AttemptClaimed(a) => if a in db.attempts then db.attempts[a].migration else 0
    case AttemptDone(ctx, _, _) => ctx.migration
    case AttemptFailing(a, _) => if a in db.attempts then db.attempts[a].migration else 0
    case PublicationClaimed(p) => if p in db.publications then db.publications[p].migration else 0
    case Checkpointed(p, _) => if p in db.publications then db.publications[p].migration else 0
    case PublicationDone(context, _) => context.record.migration
    case PublicationFailing(p, _) => if p in db.publications then db.publications[p].migration else 0
  }

  // A change of one attempt row and of its migration's row.
  lemma AttemptChangeTouches(db: Db, db': Db, mid: Id, a: Id)
    requires a in db.attempts && db.attempts[a].migration == mid && mid in db.migrations
    requires a in db'.attempts && db'.attempts == db.attempts[a := db'.attempts[a]]
    requires db'.attempts[a].migration == mid
    requires mid in db'.migrations && db'.migrations == db.migrations[mid := db'.migrations[mid]]
    requires db'.publications == db.publications && db'.publicationOf == db.publicationOf
    ensures TouchesOnly(db, db', mid)
  {
  }

  // A change of one publication row and of its migration's row.
  lemma PublicationChangeTouches(db: Db, db': Db, mid: Id, p: Id)
    requires Schema(db) && p in db.publications && db.publications[p].migration == mid && mid in db.migrations
    requires p in db'.publications && db'.publications == db.publications[p := db'.publications[p]]
    requires mid in db'.migrations && db'.migrations == db.migrations[mid := db'.migrations[mid]]
    requires db'.attempts == db.attempts && db'.publicationOf == db.publicationOf
    ensures TouchesOnly(db, db', mid)
  {
  }

  lemma NothingTouches(db: Db, mid: Id)
    ensures TouchesOnly(db, db, mid)
  {
  }

  // One attempt row of the migration changes, and the migration's row.
  ghost predicate AttemptChanged(db: Db, db': Db, mid: Id, a: Id) {
    && a in db.attempts && db.attempts[a].migration == mid && mid in db.migrations
    && a in db'.attempts && db'.attempts == db.attempts[a := db'.attempts[a]]
    && db'.attempts[a].migration == mid
    && mid in db'.migrations && db'.migrations == db.migrations[mid := db'.migrations[mid]]
    && db'.publications == db.publications && db'.publicationOf == db.publicationOf
  }

  lemma ClaimChanges(db: Db, a: Id)
    requires a in db.attempts && ClaimAttempt(db, a).0 != db
    ensures AttemptChanged(db, ClaimAttempt(db, a).0, db.attempts[a].migration, a)
  {
  }

  lemma CompletionChanges(db: Db, ctx: AttemptContext, ev: Evidence, objectRef: string)
    requires Inv(db) && CompleteAttempt(db, ctx, ev, objectRef).0 != db
    ensures AttemptChanged(db, CompleteAttempt(db, ctx, ev, objectRef).0, ctx.migration, ctx.attempt)
  {
    assert RowsOk(db, ctx.migration);
  }

  lemma FailureChanges(db: Db, a: Id, code: string)
    requires Homed(db) && a in db.attempts && FailAttempt(db, a, code) != db
    ensures AttemptChanged(db, FailAttempt(db, a, code), db.attempts[a].migration, a)
  {
  }

  lemma ClaimTouches(db: Db, a: Id)
    ensures TouchesOnly(db, ClaimAttempt(db, a).0, if a in db.attempts then db.attempts[a].migration else 0)
  {
    if a in db.attempts && ClaimAttempt(db, a).0 != db {
      ClaimChanges(db, a);
      AttemptChangeTouches(db, ClaimAttempt(db, a).0, db.attempts[a].migration, a);
    }
  }

  lemma CompletionTouches(db: Db, ctx: AttemptContext, ev: Evidence, objectRef: string)
    requires Inv(db)
    ensures TouchesOnly(db, CompleteAttempt(db, ctx, ev, objectRef).0, ctx.migration)
  {
    var db' := CompleteAttempt(db, ctx, ev, objectRef).0;
    if db' == db {
      NothingTouches(db, ctx.migration);
    } else {
      CompletionChanges(db, ctx, ev, objectRef);
      AttemptChangeTouches(db, db', ctx.migration, ctx.attempt);
    }
  }

  lemma FailureTouches(db: Db, a: Id, code: string)
    requires Homed(db)
    ensures TouchesOnly(db, FailAttempt(db, a, code), if a in db.attempts then db.attempts[a].migration else 0)
  {
    if a in db.attempts && FailAttempt(db, a, code) != db {
      FailureChanges(db, a, code);
      AttemptChangeTouches(db, FailAttempt(db, a, code), db.attempts[a].migration, a);
    }
  }

  lemma PublicationEventTouches(db: Db, e: Event, p: Id)
    requires Schema(db) && Homed(db) && Enabled(db, e) && Apply(db, e) != db
    requires match e
      case PublicationClaimed(q) => p == q
      case Checkpointed(q, _) => p == q
      case PublicationDone(context, _) => p == context.publication
      case PublicationFailing(q, _) => p == q
      case _ => false
    ensures var db', mid := Apply(db, e), Subject(db, e);
      && p in db.publications && db.publications[p].migration == mid && mid in db.migrations
      && p in db'.publications && db'.publications == db.publications[p := db'.publications[p]]
      && mid in db'.migrations && db'.migrations == db.migrations[mid := db'.migrations[mid]]
      && db'.attempts == db.attempts && db'.publicationOf == db.publicationOf
  {
  }

  lemma DraftEventTouches(db: Db, e: Event, p: Id)
    requires Schema(db) && Homed(db) && Enabled(db, e)
    requires match e
      case PublicationClaimed(q) => p == q
      case Checkpointed(q, _) => p == q
      case PublicationDone(context, _) => p == context.publication
      case PublicationFailing(q, _) => p == q
      case _ => false
    ensures TouchesOnly(db, Apply(db, e), Subject(db, e))
  {
    if Apply(db, e) == db {
      NothingTouches(db, Subject(db, e));
    } else {
      PublicationEventTouches(db, e, p);
      PublicationChangeTouches(db, Apply(db, e), Subject(db, e), p);
    }
  }

  lemma WorkerEventTouches(db: Db, e: Event)
    requires Inv(db) && Enabled(db, e) && !e.MigrationFound? && !e.Submitted?
    ensures TouchesOnly(db, Apply(db, e), Subject(db, e))
  {
    match e
    case AttemptClaimed(a) => ClaimTouches(db, a);
    case AttemptDone(ctx, ev, objectRef) => CompletionTouches(db, ctx, ev, objectRef);
    case AttemptFailing(a, code) => FailureTouches(db, a, code);
    case PublicationClaimed(p) => DraftEventTouches(db, e, p);
    case Checkpointed(p, _) => DraftEventTouches(db, e, p);
    case PublicationDone(context, _) => DraftEventTouches(db, e, context.publication);
    case PublicationFailing(p, _) => DraftEventTouches(db, e, p);
  }

  lemma RequestTouches(db: Db, q: Request)
    requires Inv(db)
    ensures TouchesOnly(db, Submit(db, q).0, OperationOf(q).migration)
  {
    match q
    case DecisionRequested(r) => DecideTouches(db, r);
    case GenerationRequested(r) => QueueAttemptTouches(db, r);
    case PublicationRequested(r) => QueuePublicationTouches(db, r);
  }

  lemma CreationTouches(db: Db, mid: Id, repository: Id)
    ensures TouchesOnly(db, CreateMigration(db, mid, repository), mid)
  {
  }

  // A transaction changes the rows of the migration it is about and of no other.
  lemma TransactionsAreIsolated(db: Db, e: Event)
    requires Inv(db) && Enabled(db, e)
    ensures TouchesOnly(db, Apply(db, e), Subject(db, e))
  {
    match e
    case MigrationFound(mid, repository) => CreationTouches(db, mid, repository);
    case Submitted(q) => RequestTouches(db, q);
    case _ => WorkerEventTouches(db, e);
  }

  // Runs about other migrations leave a migration's rows as they are.
  ghost predicate AboutOthers(db: Db, es: seq<Event>, x: Id)
    decreases |es|
  {
    es == [] || (Subject(db, es[0]) != x && AboutOthers(Apply(db, es[0]), es[1..], x))
  }

  lemma SameRowsTwice(db: Db, db': Db, db'': Db, x: Id)
    requires SameRows(db, db', x) && SameRows(db', db'', x)
    ensures SameRows(db, db'', x)
  {
  }

  lemma {:induction false} RunsAreIsolated(db: Db, es: seq<Event>, x: Id)
    requires Inv(db) && Runnable(db, es) && AboutOthers(db, es, x)
    ensures SameRows(db, Run(db, es), x)
    decreases |es|
  {
    if es != [] {
      StepKeeps(db, es[0]);
      TransactionsAreIsolated(db, es[0]);
      assert SameRows(db, Apply(db, es[0]), x);
      RunsAreIsolated(Apply(db, es[0]), es[1..], x);
      SameRowsTwice(db, Apply(db, es[0]), Run(db, es), x);
    }
  }

  // A decision is logged once, with the version it was made on; a revision adds the next attempt,
  // linked to the current one and carrying the developer's words, and any other decision none.
  lemma DecisionsAreRecorded(db: Db, r: DecisionRequest)
    requires Inv(db) && Decide(db, r).1.Done?
    ensures var db' := Decide(db, r).0;
      var m := db.migrations[r.migration];
      && db'.decisions == db.decisions +
           [Decision(r.migration, r.action, r.actor, m.version, r.reason, r.instructions)]
      && db'.migrations[r.migration].data.decision == Some(r.action)
      && (r.action != Revise ==>
            && db'.attempts == db.attempts
            && db'.migrations[r.migration].currentAttempt == m.currentAttempt)
      && (r.action == Revise ==>
            && db'.attempts.Keys == db.attempts.Keys + {r.newAttempt} && r.newAttempt !in db.attempts
            && db'.migrations[r.migration].currentAttempt == Some(r.newAttempt)
            && var added := db'.attempts[r.newAttempt];
               && added.previous == m.currentAttempt && m.currentAttempt.Some?
               && m.currentAttempt.value in db.attempts
               && added.number == db.attempts[m.currentAttempt.value].number + 1
               && added.status == AttemptCreated
               && added.data.reason == r.reason && added.data.instructions == r.instructions)
  {
    assert RowsOk(db, r.migration);
    CurrentIsLatest(db, r.migration);
  }
}
