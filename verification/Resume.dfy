// How an interrupted publication comes to be run again: it fails, is queued for the same attempt
// and is claimed, and its worker then starts from the row the first one left.
module Resume {
  import opened Git
  import opened Options
  import opened Remote
  import opened Rows
  import opened Transactions
  import opened Coupling
  import opened Publisher
  import opened Convergence

  ghost function EvidenceFor(db: Db, row: Publication): Evidence
    requires row.lastAttempt in db.attempts && db.attempts[row.lastAttempt].data.evidence.Some?
  {
    db.attempts[row.lastAttempt].data.evidence.value
  }

  ghost predicate UnderWay(db: Db, p: Id) {
    && p in db.publications && db.publications[p].status == Publishing
    && db.publications[p].lastAttempt in db.attempts
    && db.attempts[db.publications[p].lastAttempt].data.evidence.Some?
  }

  lemma FailureBlocks(db: Db, p: Id, code: string)
    requires Inv(db) && p in db.publications && db.publications[p].status == Publishing
    ensures var row, db' := db.publications[p], FailPublication(db, p, code);
      && UnderWay(db, p) && row.migration in db.migrations
      && db' == db.(publications := db.publications[p := row.(status := PublicationFailed, errorCode := Some(code))],
                    migrations := db.migrations[row.migration := Stopped(db.migrations[row.migration], code)])
      && db.migrations[row.migration].currentAttempt == Some(row.lastAttempt)
      && Verified(db.attempts[row.lastAttempt])
      && db.attempts[row.lastAttempt].migration == row.migration
      && ArtifactStored(db.artifacts, row.lastAttempt, db.attempts[row.lastAttempt])
  {
    var mid := db.publications[p].migration;
    assert RowsOk(db, mid);
    var a := db.publications[p].lastAttempt;
    assert AttemptOk(db, a, db.attempts[a], db.migrations[mid].currentAttempt);
  }

  // The request for another publication of a blocked migration is granted, and the claim that
  // follows hands the new worker exactly the row the old one left.
  lemma FailedPublicationIsReclaimed(db: Db, p: Id, code: string, r: PublishRequest)
    requires Inv(db) && p in db.publications && db.publications[p].status == Publishing
    requires r.migration == db.publications[p].migration && r.migration in db.migrations
    requires r.expected == db.migrations[r.migration].version + 1
    requires (Operation(r.migration, Publish), r.key) !in db.idempotency
    ensures UnderWay(db, p)
    ensures var row := db.publications[p];
      var (queued, answer) := QueuePublication(FailPublication(db, p, code), r);
      && answer.Done?
      && ClaimPublication(queued, p).1 == Some(PublicationContext(p, Reclaimed(row, EvidenceFor(db, row))))
  {
    FailureBlocks(db, p, code);
    assert db.publicationOf[r.migration] == p;
  }

  // A publication interrupted after any number of steps, failed, queued again and run to its end:
  // the database hands the second run the row of the first. It goes through exactly when it would
  // have uninterrupted and the interruption lost no write, and then arrives at the same tree, commit,
  // branch and draft.
  lemma InterruptedPublicationConverges(
    db: Db, p: Id, code: string, r: PublishRequest,
    record: Publication, edits: seq<Edit>, remote: Repository, steps: nat)
    requires Inv(db) && UnderWay(db, p)
    requires var ev := EvidenceFor(db, db.publications[p]);
      && OwnBranch(record, remote) && ClaimedFor(record, ev)
      && RunStage(Begin(record, ev, edits, remote), steps).Running?
      && db.publications[p] == RunStage(Begin(record, ev, edits, remote), steps).row
    requires r.migration == db.publications[p].migration && r.migration in db.migrations
    requires r.expected == db.migrations[r.migration].version + 1
    requires (Operation(r.migration, Publish), r.key) !in db.idempotency
    ensures
      var ev := EvidenceFor(db, db.publications[p]);
      var stopped := RunStage(Begin(record, ev, edits, remote), steps);
      var queued := QueuePublication(FailPublication(db, p, code), r).0;
      var context := ClaimPublication(queued, p).1;
      && context.Some?
      && var straight, again := Complete(Begin(record, ev, edits, remote)),
                                Complete(Begin(context.value.record, ev, edits, stopped.remote));
         && (again.Ended? <==> straight.Ended? && !LosesAWrite(stopped))
         && (again.Ended? ==>
               again.result.tree == straight.result.tree &&
               again.result.commit == straight.result.commit &&
               again.result.pull == straight.result.pull &&
               again.remote.refs == straight.remote.refs && again.remote.pulls == straight.remote.pulls)
  {
    FailedPublicationIsReclaimed(db, p, code, r);
    CrashConvergence(record, EvidenceFor(db, db.publications[p]), edits, remote, steps);
  }
}
