// The log of developers' decisions, against the decision each migration carries.
module DecisionLog {
  import opened Options
  import opened Lifecycle
  import opened Rows
  import opened Transactions
  import opened Coupling
  import opened Protocol
  import opened Isolation
  import opened Effects
  import opened WorkerEffects
  import opened Statuses

  // The last decision logged about a migration.
  function LastAbout(log: seq<Decision>, x: Id): Option<Decision> {
    if log == [] then None
    else if log[|log| - 1].migration == x then Some(log[|log| - 1])
    else LastAbout(log[..|log| - 1], x)
  }

  lemma LastAboutAppended(log: seq<Decision>, d: Decision, x: Id)
    ensures LastAbout(log + [d], x) == if d.migration == x then Some(d) else LastAbout(log, x)
  {
    assert (log + [d])[..|log|] == log;
  }

  // A decision that stands is the last one logged, and was made on the version before.
  ghost predicate LoggedFor(m: Migration, log: seq<Decision>, x: Id) {
    m.data.decision.Some? ==>
      var last := LastAbout(log, x);
      last.Some? && Some(last.value.action) == m.data.decision && last.value.targetVersion == m.version - 1
  }

  ghost predicate Logged(db: Db, x: Id) {
    x in db.migrations ==> LoggedFor(db.migrations[x], db.decisions, x)
  }

  ghost predicate AllLogged(db: Db) {
    forall x {:trigger Logged(db, x)} :: Logged(db, x)
  }

  // Nothing decides but a decision, and nothing else is logged.
  ghost predicate DecidesNothing(db: Db, db': Db) {
    && db'.decisions == db.decisions
    && forall x | x in db'.migrations && db'.migrations[x].data.decision.Some? ::
         x in db.migrations && db.migrations[x].data.decision == db'.migrations[x].data.decision
  }

  lemma RequestDecidesNothing(db: Db, q: Request)
    requires Inv(db) && (!q.DecisionRequested? || !TakesEffect(db, q))
    ensures DecidesNothing(db, Submit(db, q).0)
  {
    SubmitRunsExactly(db, q);
    if TakesEffect(db, q) {
      match q
      case GenerationRequested(r) => GenerationsLeave(db, r);
      case PublicationRequested(r) => PublicationsLeave(db, r);
    } else {
      RefusalChangesNothing(db, q);
    }
  }

  lemma ClaimDecidesNothing(db: Db, a: Id)
    requires Inv(db)
    ensures DecidesNothing(db, Apply(db, AttemptClaimed(a)))
  {
    ClaimsLeave(db, a);
  }

  lemma CompletionDecidesNothing(db: Db, ctx: AttemptContext, ev: Evidence, objectRef: string)
    requires Inv(db)
    ensures DecidesNothing(db, Apply(db, AttemptDone(ctx, ev, objectRef)))
  {
    CompletesExactly(db, ctx, ev, objectRef);
    if Completable(db, ctx, ev) { CompletionsLeave(db, ctx, ev, objectRef); }
  }

  lemma FailureDecidesNothing(db: Db, a: Id, code: string)
    requires Inv(db)
    ensures DecidesNothing(db, Apply(db, AttemptFailing(a, code)))
  {
    FailuresLeave(db, a, code);
  }

  lemma ClaimingDecidesNothing(db: Db, e: Event)
    requires e.PublicationClaimed? || e.Checkpointed?
    ensures DecidesNothing(db, Apply(db, e))
  {
  }

  lemma DraftDoneDecidesNothing(db: Db, ctx: PublicationContext, result: PublicationResult)
    requires Inv(db) && Issued(db, ctx)
    ensures DecidesNothing(db, Apply(db, PublicationDone(ctx, result)))
  {
    DraftCompletionsLeave(db, ctx, result);
  }

  lemma DraftFailureDecidesNothing(db: Db, p: Id, code: string)
    requires Inv(db)
    ensures DecidesNothing(db, Apply(db, PublicationFailing(p, code)))
  {
    DraftFailuresLeave(db, p, code);
  }

  lemma CreationDecidesNothing(db: Db, x: Id, repository: Id)
    ensures DecidesNothing(db, Apply(db, MigrationFound(x, repository)))
  {
  }

  ghost predicate TakesDecision(db: Db, e: Event) {
    e.Submitted? && e.request.DecisionRequested? && TakesEffect(db, e.request)
  }

  lemma OthersDecideNothing(db: Db, e: Event)
    requires Inv(db) && Enabled(db, e) && !TakesDecision(db, e)
    ensures DecidesNothing(db, Apply(db, e))
  {
    match e
    case MigrationFound(x, repository) => CreationDecidesNothing(db, x, repository);
    case Submitted(q) => RequestDecidesNothing(db, q);
    case PublicationDone(ctx, result) => DraftDoneDecidesNothing(db, ctx, result);
    case PublicationFailing(p, code) => DraftFailureDecidesNothing(db, p, code);
    case PublicationClaimed(_) => ClaimingDecidesNothing(db, e);
    case Checkpointed(_, _) => ClaimingDecidesNothing(db, e);
    case AttemptClaimed(a) => ClaimDecidesNothing(db, a);
    case AttemptDone(ctx, ev, objectRef) => CompletionDecidesNothing(db, ctx, ev, objectRef);
    case AttemptFailing(a, code) => FailureDecidesNothing(db, a, code);
  }

  // While a decision stands its migration does not move, but to be planned again.
  lemma DecidedStays(m: Migration, m': Migration, current: Option<Attempt>, current': Option<Attempt>)
    requires MigrationMove(m, m') && Coupled(m.status, current) && Coupled(m'.status, current')
    requires DecisionStands(m, current) && DecisionStands(m', current')
    requires current.Some? ==> current'.Some?
    requires m.data.decision.Some? && m'.data.decision.Some?
    ensures m' == m
  {
  }

  lemma MovesOfDecided(db: Db, db': Db, x: Id)
    requires Inv(db) && AllTold(db) && Inv(db') && AllTold(db') && Moves(db, db')
    requires x in db.migrations && db.migrations[x].data.decision.Some?
    requires db'.migrations[x].data.decision.Some?
    ensures db'.migrations[x] == db.migrations[x]
  {
    var m, m' := db.migrations[x], db'.migrations[x];
    assert RowsOk(db, x) && RowsOk(db', x);
    assert Told(db, x) && Told(db', x);
    CurrentFacts(db, x);
    CurrentFacts(db', x);
    DecidedStays(m, m', Current(db, m), Current(db', m'));
  }

  lemma QuietEventKeepsLogged(db: Db, db': Db)
    requires Inv(db) && AllTold(db) && Inv(db') && AllTold(db') && Moves(db, db')
    requires AllLogged(db) && DecidesNothing(db, db')
    ensures AllLogged(db')
  {
    forall x ensures Logged(db', x) {
      if x in db'.migrations && db'.migrations[x].data.decision.Some? {
        assert Logged(db, x);
        MovesOfDecided(db, db', x);
      }
    }
  }

  lemma DecisionIsLogged(db: Db, r: DecisionRequest)
    requires Inv(db) && AllLogged(db) && TakesEffect(db, DecisionRequested(r))
    ensures AllLogged(Decide(db, r).0)
  {
    var db' := Decide(db, r).0;
    var d := Decision(r.migration, r.action, r.actor, r.expected, r.reason, r.instructions);
    DecisionsLeave(db, r);
    DecisionsAreRecorded(db, r);
    forall x ensures Logged(db', x) {
      assert Logged(db, x);
      LastAboutAppended(db.decisions, d, x);
    }
  }

  lemma EventKeepsLogged(db: Db, e: Event)
    requires Inv(db) && AllTold(db) && AllLogged(db) && Enabled(db, e)
    ensures AllLogged(Apply(db, e))
  {
    StepKeeps(db, e);
    EventKeepsTold(db, e);
    if TakesDecision(db, e) {
      DecisionIsLogged(db, e.request.decision);
    } else {
      OthersDecideNothing(db, e);
      QuietEventKeepsLogged(db, Apply(db, e));
    }
  }

  lemma {:induction false} RunKeepsLogged(db: Db, es: seq<Event>)
    requires Inv(db) && AllTold(db) && AllLogged(db) && Runnable(db, es)
    ensures AllLogged(Run(db, es))
    decreases |es|
  {
    if es != [] {
      StepKeeps(db, es[0]);
      EventKeepsTold(db, es[0]);
      EventKeepsLogged(db, es[0]);
      RunKeepsLogged(Apply(db, es[0]), es[1..]);
    }
  }

  // The status shows the decision that stands.
  ghost predicate StatusShows(m: Migration) {
    && (m.status == Approved <==> m.data.decision == Some(Approve))
    && (m.status == Snoozed <==> m.data.decision == Some(Snooze))
    && (m.status == Declined <==> m.data.decision == Some(Decline))
  }

  lemma StandingIsShown(m: Migration, current: Option<Attempt>)
    requires DecisionStands(m, current)
    ensures StatusShows(m)
  {
  }

  lemma NothingIsLogged()
    ensures Inv(EMPTY) && AllTold(EMPTY) && AllLogged(EMPTY)
  {
    EmptyOk();
  }

  // A migration is approved, snoozed or declined exactly while that is the decision on record, which
  // is then the last one logged about it, made on the version before.
  lemma DecisionsStand(es: seq<Event>, x: Id)
    requires Runnable(EMPTY, es) && x in Run(EMPTY, es).migrations
    ensures var m := Run(EMPTY, es).migrations[x];
      StatusShows(m) && LoggedFor(m, Run(EMPTY, es).decisions, x)
  {
    NothingIsLogged();
    RunKeepsTold(EMPTY, es);
    RunKeepsLogged(EMPTY, es);
    var db := Run(EMPTY, es);
    assert Told(db, x) && Logged(db, x);
    StandingIsShown(db.migrations[x], Current(db, db.migrations[x]));
  }
}
