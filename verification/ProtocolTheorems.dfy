// What holds over whole runs of the protocol.
module ProtocolTheorems {
  import opened Options
  import opened Lifecycle
  import opened Rows
  import opened Transactions
  import opened Coupling
  import opened Protocol

  lemma AttemptFacts(db: Db, a: Id)
    requires Inv(db) && a in db.attempts
    ensures db.attempts[a].migration in db.migrations
    ensures AttemptOk(db, a, db.attempts[a], db.migrations[db.attempts[a].migration].currentAttempt)
  {
    assert RowsOk(db, db.attempts[a].migration);
  }

  // ----- The stores walk the declared lifecycle -----

  // Each step moves a migration along declared edges, as many as its version grows.
  lemma MoveWalksMigration(m: Migration, m': Migration)
    requires MigrationMove(m, m')
    ensures m'.version >= m.version
    ensures MigrationPath(m.status, m'.status, m'.version - m.version)
  {
    if m'.version == m.version + 1 { MigrationEdge(m.status, m'.status); }
    if m'.version == m.version + 2 {
      MigrationEdge(Generating, Verifying);
      MigrationEdge(Verifying, m'.status);
      MigrationPathsCompose(Generating, Verifying, m'.status, 1, 1);
    }
  }

  lemma MoveWalksAttempt(a: Attempt, a': Attempt)
    requires AttemptMove(a, a')
    ensures a'.version >= a.version
    ensures AttemptPath(a.status, a'.status, a'.version - a.version)
  {
    if a'.version == a.version + 1 { AttemptEdge(a.status, a'.status); }
    if a'.version == a.version + 3 {
      AttemptEdge(AttemptGenerating, AttemptVerifying);
      AttemptEdge(AttemptVerifying, AttemptReviewing);
      AttemptEdge(AttemptReviewing, AttemptCompleted);
      AttemptPathsCompose(AttemptGenerating, AttemptVerifying, AttemptReviewing, 1, 1);
      AttemptPathsCompose(AttemptGenerating, AttemptReviewing, AttemptCompleted, 2, 1);
    }
  }

  lemma StartingAttemptWalked(a: Attempt)
    requires StartingAttempt(a)
    ensures AttemptWalked(a)
  {
    AttemptEdge(AttemptCreated, AttemptPlanning);
  }

  ghost predicate MigrationWalked(m: Migration) {
    MigrationPath(Queued, m.status, m.version - 1)
  }

  ghost predicate AttemptWalked(a: Attempt) {
    AttemptPath(AttemptCreated, a.status, a.version - 1)
  }

  ghost predicate Walked(db: Db) {
    && (forall mid | mid in db.migrations :: MigrationWalked(db.migrations[mid]))
    && (forall a | a in db.attempts :: AttemptWalked(db.attempts[a]))
  }

  lemma MoveKeepsMigrationWalked(m: Migration, m': Migration)
    requires m.version >= 1 && MigrationWalked(m) && MigrationMove(m, m')
    ensures MigrationWalked(m')
  {
    MoveWalksMigration(m, m');
    MigrationPathsCompose(Queued, m.status, m'.status, m.version - 1, m'.version - m.version);
  }

  lemma MoveKeepsAttemptWalked(a: Attempt, a': Attempt)
    requires a.version >= 1 && AttemptWalked(a) && AttemptMove(a, a')
    ensures AttemptWalked(a')
  {
    MoveWalksAttempt(a, a');
    AttemptPathsCompose(AttemptCreated, a.status, a'.status, a.version - 1, a'.version - a.version);
  }

  lemma MovesKeepWalked(db: Db, db': Db)
    requires Inv(db) && Walked(db) && Moves(db, db')
    ensures Walked(db')
  {
    forall mid | mid in db'.migrations ensures MigrationWalked(db'.migrations[mid]) {
      if mid in db.migrations {
        assert RowsOk(db, mid);
        MoveKeepsMigrationWalked(db.migrations[mid], db'.migrations[mid]);
      }
    }
    forall a | a in db'.attempts ensures AttemptWalked(db'.attempts[a]) {
      if a in db.attempts {
        AttemptFacts(db, a);
        MoveKeepsAttemptWalked(db.attempts[a], db'.attempts[a]);
      } else {
        StartingAttemptWalked(db'.attempts[a]);
      }
    }
  }

  lemma {:induction false} RunKeepsWalked(db: Db, es: seq<Event>)
    requires Inv(db) && Walked(db) && Runnable(db, es)
    ensures Walked(Run(db, es))
    decreases |es|
  {
    if es != [] {
      StepKeeps(db, es[0]);
      MovesKeepWalked(db, Apply(db, es[0]));
      RunKeepsWalked(Apply(db, es[0]), es[1..]);
    }
  }

  // A version is 1 plus the number of declared edges walked, in every reachable state.
  lemma VersionsCountEdges(es: seq<Event>)
    requires Runnable(EMPTY, es)
    ensures Walked(Run(EMPTY, es))
  {
    EmptyOk();
    RunKeepsWalked(EMPTY, es);
  }

  // ----- Finished attempts never change -----

  lemma {:induction false} FinalAttemptsAreImmutable(db: Db, es: seq<Event>, a: Id)
    requires Inv(db) && Runnable(db, es) && a in db.attempts && Final(db.attempts[a])
    ensures a in Run(db, es).attempts && Run(db, es).attempts[a] == db.attempts[a]
    decreases |es|
  {
    if es != [] {
      StepKeeps(db, es[0]);
      FinalAttemptsAreImmutable(Apply(db, es[0]), es[1..], a);
    }
  }

  // ----- Fencing -----

  // The migration has moved on to another attempt.
  ghost predicate Superseded(db: Db, a: Id) {
    && a in db.attempts
    && db.attempts[a].migration in db.migrations
    && db.migrations[db.attempts[a].migration].currentAttempt != Some(a)
  }

  // What the generation worker of attempt `a` does.
  ghost predicate WorksOn(e: Event, a: Id) {
    match e
    case AttemptClaimed(x) => x == a
    case AttemptDone(ctx, _, _) => ctx.attempt == a
    case AttemptFailing(x, _) => x == a
    case _ => false
  }

  lemma SupersededIsFenced(db: Db, e: Event, a: Id)
    requires Inv(db) && Superseded(db, a) && WorksOn(e, a)
    ensures Apply(db, e).migrations == db.migrations
  {
    AttemptFacts(db, a);
    if e.AttemptDone? { assert RowsOk(db, e.ctx.migration); }
  }

  // Once superseded, an attempt's worker never again changes any migration, however the run goes on.
  lemma {:induction false} SupersededWorkersAreFenced(db: Db, es: seq<Event>, e: Event, a: Id)
    requires Inv(db) && Runnable(db, es) && Superseded(db, a) && WorksOn(e, a)
    ensures Superseded(Run(db, es), a)
    ensures Apply(Run(db, es), e).migrations == Run(db, es).migrations
    decreases |es|
  {
    if es == [] {
      SupersededIsFenced(db, e, a);
    } else {
      StepKeeps(db, es[0]);
      AttemptFacts(db, a);
      SupersededWorkersAreFenced(Apply(db, es[0]), es[1..], e, a);
    }
  }

  // In particular a revision requested while a worker is generating supersedes its attempt.
  lemma RevisionSupersedes(db: Db, r: DecisionRequest)
    requires Inv(db) && r.action == Revise && Decide(db, r).1.Done?
    ensures db.migrations[r.migration].currentAttempt.Some?
    ensures Superseded(Decide(db, r).0, db.migrations[r.migration].currentAttempt.value)
    ensures Decide(db, r).0.migrations[r.migration].status == NeedsRevision
  {
    assert RowsOk(db, r.migration);
  }
}
