// The three stores as they run: methods that read and update the rows of one database, each a
// single transaction that puts everything back when it raises.
module Database {
  import opened Options
  import opened Lifecycle
  import opened Rows
  import opened Transactions
  import opened Coupling
  import opened Protocol
  import opened Effects
  import opened WorkerEffects

  // Attempt numbers are unique within a migration, so the latest row is unique.
  lemma LatestIsUnique(attempts: map<Id, Attempt>, migration: Id, a: Id)
    requires IsLatest(attempts, migration, a)
    requires forall x, y | x in attempts && y in attempts && x != y &&
      attempts[x].migration == attempts[y].migration :: attempts[x].number != attempts[y].number
    ensures Latest(attempts, migration) == Some(a)
  {
    var b := Latest(attempts, migration).value;
    assert IsLatest(attempts, migration, b);
  }

  class Store {
    var migrations: map<Id, Migration>
    var attempts: map<Id, Attempt>
    var artifacts: map<(Id, Id), Artifact>
    var publications: map<Id, Publication>
    var publicationOf: map<Id, Id>
    var idempotency: map<(Operation, Key), Stored>
    var decisions: seq<Decision>

    function State(): Db
      reads this
    {
      Db(migrations, attempts, artifacts, publications, publicationOf, idempotency, decisions)
    }

    ghost predicate Valid()
      reads this
    {
      Inv(State())
    }

    constructor ()
      ensures State() == EMPTY && Valid()
    {
      migrations, attempts, artifacts := map[], map[], map[];
      publications, publicationOf := map[], map[];
      idempotency, decisions := map[], [];
      new;
      EmptyOk();
    }

    // ----- Queries -----

    method FindLatest(migration: Id) returns (latest: Option<Id>)
      requires Schema(State())
      ensures latest == Latest(attempts, migration)
    {
      if a :| a in attempts && IsLatest(attempts, migration, a) {
        LatestIsUnique(attempts, migration, a);
        latest := Some(a);
      } else {
        latest := None;
      }
    }

    method FindPrior(op: Operation, key: Key, payload: Payload) returns (prior: Lookup)
      ensures prior == LookUp(State(), op, key, payload)
      ensures prior == Fresh <==> (op, key) !in idempotency
    {
      if (op, key) !in idempotency { return Fresh; }
      var stored := idempotency[(op, key)];
      if stored.payload != payload { return Reused; }
      return Replayed(stored.response);
    }

    // ----- Requests -----

    // The locked part, once no answer was found.
    method ApplyLocked(r: DecisionRequest) returns (o: Outcome<Response>)
      requires Schema(State()) && (Operation(r.migration, Act(r.action)), r.key) !in idempotency
      modifies this
      ensures (State(), o) == Decide(old(State()), r)
    {
      var op := Operation(r.migration, Act(r.action));
      if r.migration !in migrations { return Raised(NotFound); }
      var m := migrations[r.migration];
      var t := ValidateTransition(MigrationTransitions, m.status, ActionStatus(r.action), m.version, r.expected);
      if !t.Next? { return Raised(ErrorOf(t)); }
      if r.action == Revise {
        var previous := FindLatest(r.migration);
        var number := if previous.Some? then attempts[previous.value].number + 1 else 1;
        var added := RevisionAttempt(r, number, previous);
        if !AttemptFits(attempts, r.newAttempt, added) { return Raised(UniqueViolation); }
        attempts := attempts[r.newAttempt := added];
      }
      var row := Decided(m, r, t.version);
      migrations := migrations[r.migration := row];
      decisions := decisions +
        [Decision(r.migration, r.action, r.actor, m.version, r.reason, r.instructions)];
      idempotency := idempotency[(op, r.key) := Stored(DecisionPayloadOf(r), DecisionResponse(row.data))];
      return Done(DecisionResponse(row.data));
    }

    method ApplyDeveloperAction(r: DecisionRequest) returns (o: Outcome<Response>)
      requires Valid()
      modifies this
      ensures Valid()
      ensures (State(), o) == Serve(old(State()), DecisionRequested(r))
      ensures TakesEffect(old(State()), DecisionRequested(r)) ==> DecisionLeaves(old(State()), r, State(), o)
      ensures !TakesEffect(old(State()), DecisionRequested(r)) ==>
        State() == old(State()) && o == AnswerWithout(old(State()), DecisionRequested(r))
    {
      DecideKeeps(State(), r);
      if TakesEffect(State(), DecisionRequested(r)) {
        DecisionsLeave(State(), r);
      } else {
        OthersAreTold(State(), DecisionRequested(r));
      }
      o := ApplyDeveloperActionUnlocked(r);
    }

    // The lookup, and the locked part if it found no answer.
    method ApplyDeveloperActionUnlocked(r: DecisionRequest) returns (o: Outcome<Response>)
      requires Schema(State())
      modifies this
      ensures (State(), o) == Serve(old(State()), DecisionRequested(r))
    {
      var prior := FindPrior(Operation(r.migration, Act(r.action)), r.key, DecisionPayloadOf(r));
      if prior.Replayed? { return Done(prior.response); }
      if prior.Reused? { return Raised(KeyReused); }
      o := ApplyLocked(r);
    }

    // The locked part, once no answer was found.
    method QueueGenerationLocked(r: GenerateRequest) returns (o: Outcome<Response>)
      requires Schema(State()) && (Operation(r.migration, Generate), r.key) !in idempotency
      modifies this
      ensures (State(), o) == QueueAttempt(old(State()), r)
    {
      var op := Operation(r.migration, Generate);
      if r.migration !in migrations { return Raised(NotFound); }
      var m := migrations[r.migration];
      var t := ValidateTransition(MigrationTransitions, m.status, Planning, m.version, r.expected);
      if !t.Next? { return Raised(ErrorOf(t)); }
      var id, row;
      if m.currentAttempt.Some? && m.currentAttempt.value in attempts &&
         attempts[m.currentAttempt.value].migration == r.migration &&
         attempts[m.currentAttempt.value].status == AttemptCreated {
        id := m.currentAttempt.value;
        row := attempts[id];
      } else {
        var latest := FindLatest(r.migration);
        var number := if latest.Some? then attempts[latest.value].number + 1 else 1;
        id, row := r.newAttempt, FirstAttempt(r, number, m.currentAttempt);
        if !AttemptFits(attempts, id, row) { return Raised(UniqueViolation); }
      }
      attempts := attempts[id := PlannedAttempt(row)];
      migrations := migrations[r.migration := PlannedMigration(m, id, t.version)];
      var response := GenerateResponse(r.migration, id, t.version);
      idempotency := idempotency[(op, r.key) := Stored(VersionPayload(r.expected), response)];
      return Done(response);
    }

    method QueueGeneration(r: GenerateRequest) returns (o: Outcome<Response>)
      requires Valid()
      modifies this
      ensures Valid()
      ensures (State(), o) == Serve(old(State()), GenerationRequested(r))
      ensures TakesEffect(old(State()), GenerationRequested(r)) ==> GenerationLeaves(old(State()), r, State(), o)
      ensures !TakesEffect(old(State()), GenerationRequested(r)) ==>
        State() == old(State()) && o == AnswerWithout(old(State()), GenerationRequested(r))
    {
      QueueAttemptKeeps(State(), r);
      if TakesEffect(State(), GenerationRequested(r)) {
        GenerationsLeave(State(), r);
      } else {
        OthersAreTold(State(), GenerationRequested(r));
      }
      o := QueueGenerationUnlocked(r);
    }

    // The lookup, and the locked part if it found no answer.
    method QueueGenerationUnlocked(r: GenerateRequest) returns (o: Outcome<Response>)
      requires Schema(State())
      modifies this
      ensures (State(), o) == Serve(old(State()), GenerationRequested(r))
    {
      var prior := FindPrior(Operation(r.migration, Generate), r.key, VersionPayload(r.expected));
      if prior.Replayed? { return Done(prior.response); }
      if prior.Reused? { return Raised(KeyReused); }
      o := QueueGenerationLocked(r);
    }

    // The locked part, once no answer was found.
    method QueueDraftLocked(r: PublishRequest) returns (o: Outcome<Response>)
      requires Schema(State()) && (Operation(r.migration, Publish), r.key) !in idempotency
      modifies this
      ensures (State(), o) == QueuePublication(old(State()), r)
    {
      var op := Operation(r.migration, Publish);
      if r.migration !in migrations { return Raised(NotFound); }
      var m := migrations[r.migration];
      var t := ValidateTransition(MigrationTransitions, m.status, PrOpening, m.version, r.expected);
      if !t.Next? { return Raised(ErrorOf(t)); }
      if m.currentAttempt.None? || m.currentAttempt.value !in attempts { return Raised(NotPublishable); }
      var attempt := m.currentAttempt.value;
      var row := attempts[attempt];
      if row.migration != r.migration || row.status != AttemptCompleted || row.data.evidence.None? {
        return Raised(NotPublishable);
      }
      var ev := row.data.evidence.value;
      if ev.action != Approve || !AllPassed(ev.checks) { return Raised(NotPublishable); }
      var artifact := (attempt, ev.patch.artifact);
      if artifact !in artifacts || artifacts[artifact].digest != ev.patch.digest { return Raised(NotFound); }
      var id := r.newPublication;
      if r.migration in publicationOf {
        id := publicationOf[r.migration];
        publications := publications[id := Requeued(publications[id], attempt, ev)];
      } else {
        if id in publications { return Raised(UniqueViolation); }
        publications := publications[id := NewPublication(r, m.repository, attempt, ev)];
      }
      publicationOf := publicationOf[r.migration := id];
      migrations := migrations[r.migration := OpeningMigration(m, t.version)];
      var response := PublishResponse(r.migration, attempt, id, t.version);
      idempotency := idempotency[(op, r.key) := Stored(VersionPayload(r.expected), response)];
      return Done(response);
    }

    method QueueDraft(r: PublishRequest) returns (o: Outcome<Response>)
      requires Valid()
      modifies this
      ensures Valid()
      ensures (State(), o) == Serve(old(State()), PublicationRequested(r))
      ensures TakesEffect(old(State()), PublicationRequested(r)) ==> PublicationLeaves(old(State()), r, State(), o)
      ensures !TakesEffect(old(State()), PublicationRequested(r)) ==>
        State() == old(State()) && o == AnswerWithout(old(State()), PublicationRequested(r))
    {
      QueuePublicationKeeps(State(), r);
      if TakesEffect(State(), PublicationRequested(r)) {
        PublicationsLeave(State(), r);
      } else {
        OthersAreTold(State(), PublicationRequested(r));
      }
      o := QueueDraftUnlocked(r);
    }

    // The lookup, and the locked part if it found no answer.
    method QueueDraftUnlocked(r: PublishRequest) returns (o: Outcome<Response>)
      requires Schema(State())
      modifies this
      ensures (State(), o) == Serve(old(State()), PublicationRequested(r))
    {
      var prior := FindPrior(Operation(r.migration, Publish), r.key, VersionPayload(r.expected));
      if prior.Replayed? { return Done(prior.response); }
      if prior.Reused? { return Raised(KeyReused); }
      o := QueueDraftLocked(r);
    }

    // ----- Generation workers -----

    method Claim(a: Id) returns (o: Outcome<Option<AttemptContext>>)
      requires Valid()
      modifies this
      ensures Valid()
      ensures (State(), o) == ClaimAttempt(old(State()), a)
      ensures ClaimLeaves(old(State()), a, State(), o)
    {
      ClaimAttemptKeeps(State(), a);
      ClaimsLeave(State(), a);
      o := ClaimLocked(a);
    }

    method ClaimLocked(a: Id) returns (o: Outcome<Option<AttemptContext>>)
      modifies this
      ensures (State(), o) == ClaimAttempt(old(State()), a)
    {
      if a !in attempts || attempts[a].status != AttemptPlanning { return Done(None); }
      var before := attempts;
      attempts := attempts[a := StartedAttempt(attempts[a])];
      var mid := attempts[a].migration;
      if mid !in migrations || migrations[mid].currentAttempt != Some(a) || migrations[mid].status != Planning {
        attempts := before;
        return Raised(AttemptNotOwned);
      }
      migrations := migrations[mid := StartedMigration(migrations[mid])];
      return Done(Some(AttemptContext(mid, a)));
    }

    method Conclude(ctx: AttemptContext, ev: Evidence, objectRef: string) returns (o: Outcome<()>)
      requires Valid()
      modifies this
      ensures Valid()
      ensures (State(), o) == CompleteAttempt(old(State()), ctx, ev, objectRef)
      ensures o.Done? <==> Completable(old(State()), ctx, ev)
      ensures o.Done? ==> CompletionLeaves(old(State()), ctx, ev, objectRef, State())
      ensures o.Raised? ==> State() == old(State()) && o.error == RefusalOf(old(State()), ctx, ev)
    {
      CompleteAttemptKeeps(State(), ctx, ev, objectRef);
      CompletesExactly(State(), ctx, ev, objectRef);
      if Completable(State(), ctx, ev) { CompletionsLeave(State(), ctx, ev, objectRef); }
      o := ConcludeLocked(ctx, ev, objectRef);
    }

    method ConcludeLocked(ctx: AttemptContext, ev: Evidence, objectRef: string) returns (o: Outcome<()>)
      modifies this
      ensures (State(), o) == CompleteAttempt(old(State()), ctx, ev, objectRef)
    {
      if ev.attempt != ctx.attempt || ev.migration != ctx.migration { return Raised(EvidenceMismatch); }
      if ev.action == Approve && !AllPassed(ev.checks) { return Raised(NotVerified); }
      if ctx.attempt !in attempts || ctx.migration !in migrations ||
         migrations[ctx.migration].currentAttempt != Some(ctx.attempt) { return Raised(NotFound); }
      var a, m := attempts[ctx.attempt], migrations[ctx.migration];
      if a.status != AttemptGenerating || m.status != Generating { return Raised(AttemptNotActive); }
      var stored := StoreArtifact(artifacts, ctx.attempt, ev.patch, objectRef);
      if stored.Raised? { return Raised(stored.error); }
      artifacts := stored.value;
      attempts := attempts[ctx.attempt := CompletedAttempt(a, ev)];
      migrations := migrations[ctx.migration := Concluded(m, TargetStatus(ev.action))];
      return Done(());
    }

    method Fail(a: Id, code: string)
      requires Valid()
      modifies this
      ensures Valid()
      ensures State() == FailAttempt(old(State()), a, code)
      ensures FailureLeaves(old(State()), a, code, State())
    {
      FailAttemptKeeps(State(), a, code);
      FailuresLeave(State(), a, code);
      FailLocked(a, code);
    }

    method FailLocked(a: Id, code: string)
      modifies this
      ensures State() == FailAttempt(old(State()), a, code)
    {
      if a !in attempts || AttemptFailed !in AttemptTransitions(attempts[a].status) { return; }
      attempts := attempts[a := FailedAttempt(attempts[a], code)];
      var mid := attempts[a].migration;
      if mid in migrations && migrations[mid].currentAttempt == Some(a) &&
         Blocked in MigrationTransitions(migrations[mid].status) {
        migrations := migrations[mid := Stopped(migrations[mid], code)];
      }
    }

    // ----- Publication workers -----

    method ClaimDraft(p: Id) returns (context: Option<PublicationContext>)
      requires Valid()
      modifies this
      ensures Valid()
      ensures (State(), context) == ClaimPublication(old(State()), p)
      ensures DraftClaimLeaves(old(State()), p, State(), context)
    {
      ClaimPublicationKeeps(State(), p);
      DraftClaimsLeave(State(), p);
      if p !in publications || publications[p].status != PublicationQueued { return None; }
      publications := publications[p := publications[p].(status := Publishing, errorCode := None)];
      return Some(PublicationContext(p, publications[p]));
    }

    method RecordProgress(p: Id, c: Checkpoint)
      modifies this
      ensures State() == RecordCheckpoint(old(State()), p, c)
      ensures CheckpointLeaves(old(State()), p, c, State())
    {
      CheckpointsLeave(State(), p, c);
      if p in publications && publications[p].status == Publishing {
        publications := publications[p := Marked(publications[p], c)];
      }
    }

    method ConcludeDraft(ctx: PublicationContext, result: PublicationResult) returns (o: Outcome<()>)
      requires Valid() && Issued(State(), ctx)
      modifies this
      ensures Valid()
      ensures (State(), o) == CompletePublication(old(State()), ctx, result)
      ensures DraftCompletionLeaves(old(State()), ctx, result, State(), o)
    {
      CompletePublicationKeeps(State(), ctx, result);
      DraftCompletionsLeave(State(), ctx, result);
      o := ConcludeDraftLocked(ctx, result);
    }

    method ConcludeDraftLocked(ctx: PublicationContext, result: PublicationResult) returns (o: Outcome<()>)
      modifies this
      ensures (State(), o) == CompletePublication(old(State()), ctx, result)
    {
      var p, mid := ctx.publication, ctx.record.migration;
      if p !in publications || publications[p].status != Publishing { return Raised(PublicationNotActive); }
      var before := publications;
      publications := publications[p := PublishedRow(publications[p], result)];
      if mid !in migrations || migrations[mid].currentAttempt != Some(ctx.record.lastAttempt) ||
         migrations[mid].status != PrOpening {
        publications := before;
        return Raised(PublicationNotOwned);
      }
      migrations := migrations[mid := OpenedMigration(migrations[mid], result.pull)];
      return Done(());
    }

    method FailDraft(p: Id, code: string)
      requires Valid()
      modifies this
      ensures Valid()
      ensures State() == FailPublication(old(State()), p, code)
      ensures DraftFailureLeaves(old(State()), p, code, State())
    {
      FailPublicationKeeps(State(), p, code);
      DraftFailuresLeave(State(), p, code);
      FailDraftLocked(p, code);
    }

    method FailDraftLocked(p: Id, code: string)
      modifies this
      ensures State() == FailPublication(old(State()), p, code)
    {
      if p !in publications || publications[p].status != Publishing { return; }
      publications := publications[p := publications[p].(status := PublicationFailed, errorCode := Some(code))];
      var mid := publications[p].migration;
      if mid in migrations && migrations[mid].status == PrOpening {
        migrations := migrations[mid := Stopped(migrations[mid], code)];
      }
    }

    // ----- Fan-out -----

    method AddMigration(mid: Id, repository: Id)
      requires Valid()
      modifies this
      ensures Valid()
      ensures State() == CreateMigration(old(State()), mid, repository)
      ensures mid in old(migrations) ==> State() == old(State())
      ensures mid !in old(migrations) ==>
        && mid in migrations && migrations == old(migrations)[mid := migrations[mid]]
        && State() == old(State()).(migrations := migrations)
        && migrations[mid].status == Queued && migrations[mid].version == 1
        && migrations[mid].repository == repository && migrations[mid].currentAttempt.None?
        && migrations[mid].snoozedUntil.None? && CopyAgrees(migrations[mid])
        && Annotated(migrations[mid], None, None, None)
    {
      CreateMigrationKeeps(State(), mid, repository);
      if mid !in migrations {
        migrations := migrations[mid := NewMigration(repository)];
      }
    }
  }
}
