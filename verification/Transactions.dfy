// What each database transaction of the three stores does, as a function of the
// rows it finds. Identifiers the source draws at random arrive as parameters;
// the primary keys reject one that is already taken.
module Transactions {
  import opened Git
  import opened Options
  import opened Lifecycle
  import opened Rows

  // ----- Requests -----

  datatype DecisionRequest = DecisionRequest(
    migration: Id, action: Action, actor: string, expected: int, key: Key,
    reason: Option<string>, instructions: Option<string>, snoozeUntil: Option<int>,
    newAttempt: Id)

  datatype GenerateRequest = GenerateRequest(migration: Id, expected: int, key: Key, newAttempt: Id)

  datatype PublishRequest = PublishRequest(migration: Id, expected: int, key: Key, newPublication: Id)

  datatype AttemptContext = AttemptContext(migration: Id, attempt: Id)

  datatype PublicationContext = PublicationContext(publication: Id, record: Publication)

  datatype PublicationResult = PublicationResult(
    tree: Tree, commit: Commit, pull: nat, check: nat)

  function ActionStatus(a: Action): MigrationStatus {
    match a
    case Approve => Approved
    case Revise => NeedsRevision
    case Snooze => Snoozed
    case Decline => Declined
  }

  function DecisionPayloadOf(r: DecisionRequest): Payload {
    DecisionPayload(r.expected, r.reason, r.instructions, r.snoozeUntil)
  }

  // ----- The unlocked replay lookup -----

  datatype Lookup = Fresh | Replayed(response: Response) | Reused

  function LookUp(db: Db, op: Operation, key: Key, payload: Payload): Lookup {
    if (op, key) !in db.idempotency then Fresh
    else if db.idempotency[(op, key)].payload != payload then Reused
    else Replayed(db.idempotency[(op, key)].response)
  }

  // ----- Shared queries and inserts -----

  predicate IsLatest(attempts: map<Id, Attempt>, migration: Id, a: Id) {
    && a in attempts
    && attempts[a].migration == migration
    && forall b | b in attempts && attempts[b].migration == migration ::
         attempts[b].number <= attempts[a].number
  }

  // The row with the highest number, if there is any.
  ghost function Latest(attempts: map<Id, Attempt>, migration: Id): Option<Id> {
    if exists a :: IsLatest(attempts, migration, a)
    then var a :| IsLatest(attempts, migration, a); Some(a)
    else None
  }

  ghost function LatestNumber(attempts: map<Id, Attempt>, migration: Id): int {
    match Latest(attempts, migration)
    case None => 0
    case Some(a) => if a in attempts then attempts[a].number else 0
  }

  predicate AttemptFits(attempts: map<Id, Attempt>, id: Id, row: Attempt) {
    && id !in attempts
    && forall b | b in attempts && attempts[b].migration == row.migration ::
         attempts[b].number != row.number && attempts[b].key != row.key
  }

  function Remember(db: Db, op: Operation, key: Key, payload: Payload, response: Response): Db {
    db.(idempotency := db.idempotency[(op, key) := Stored(payload, response)])
  }

  function ErrorOf(t: Transition): StoreError
    requires !t.Next?
  {
    if t == VersionConflict then Conflict else BadTransition
  }

  // ----- Rows the requests write -----

  function RevisionAttempt(r: DecisionRequest, number: int, previous: Option<Id>): Attempt {
    Attempt(r.migration, number, previous, r.key, AttemptCreated, 1,
            AttemptData(AttemptCreated, None, None, None, r.reason, r.instructions, None))
  }

  function FirstAttempt(r: GenerateRequest, number: int, previous: Option<Id>): Attempt {
    Attempt(r.migration, number, previous, r.key, AttemptCreated, 1,
            AttemptData(AttemptCreated, None, None, None, None, None, None))
  }

  function DecidedData(m: Migration, r: DecisionRequest, version: int): MigrationData {
    m.data.(status := ActionStatus(r.action), decision := Some(r.action),
            snoozedUntil := r.snoozeUntil, version := version,
            currentAttempt := if r.action == Revise then Some(r.newAttempt)
                              else m.data.currentAttempt)
  }

  function Decided(m: Migration, r: DecisionRequest, version: int): Migration {
    var data := DecidedData(m, r, version);
    m.(status := ActionStatus(r.action), version := version, data := data,
       currentAttempt := data.currentAttempt, snoozedUntil := r.snoozeUntil)
  }

  function PlannedMigration(m: Migration, attempt: Id, version: int): Migration {
    m.(status := Planning, version := version, currentAttempt := Some(attempt),
       data := m.data.(status := Planning, decision := None, errorCode := None,
                       currentAttempt := Some(attempt), version := version))
  }

  function PlannedAttempt(a: Attempt): Attempt {
    a.(status := AttemptPlanning, version := a.version + 1,
       data := a.data.(status := AttemptPlanning, version := Some(a.version + 1)))
  }

  // ----- The control plane: a developer's decision -----

  ghost function Decide(db: Db, r: DecisionRequest): (Db, Outcome<Response>) {
    var op := Operation(r.migration, Act(r.action));
    if r.migration !in db.migrations then (db, Raised(NotFound)) else
    var m := db.migrations[r.migration];
    var t := ValidateTransition(MigrationTransitions, m.status, ActionStatus(r.action), m.version, r.expected);
    if !t.Next? then (db, Raised(ErrorOf(t))) else
    var added := RevisionAttempt(r, LatestNumber(db.attempts, r.migration) + 1,
                                 Latest(db.attempts, r.migration));
    if r.action == Revise && !AttemptFits(db.attempts, r.newAttempt, added)
    then (db, Raised(UniqueViolation))
    else if (op, r.key) in db.idempotency then (db, Raised(UniqueViolation))
    else
      var row := Decided(m, r, t.version);
      var db' := db.(
        attempts := if r.action == Revise then db.attempts[r.newAttempt := added] else db.attempts,
        migrations := db.migrations[r.migration := row],
        decisions := db.decisions +
          [Decision(r.migration, r.action, r.actor, m.version, r.reason, r.instructions)]);
      (Remember(db', op, r.key, DecisionPayloadOf(r), DecisionResponse(row.data)),
       Done(DecisionResponse(row.data)))
  }

  // ----- Generation: queue, claim, complete, fail -----

  // A revision that is waiting to be generated.
  function WaitingRevision(db: Db, migration: Id, m: Migration): Option<Id> {
    if m.currentAttempt.Some? && m.currentAttempt.value in db.attempts &&
       db.attempts[m.currentAttempt.value].migration == migration &&
       db.attempts[m.currentAttempt.value].status == AttemptCreated
    then m.currentAttempt else None
  }

  // A generation request plans the waiting revision, or else a new row linked to the
  // current attempt.
  ghost function QueueAttempt(db: Db, r: GenerateRequest): (Db, Outcome<Response>) {
    var op := Operation(r.migration, Generate);
    if r.migration !in db.migrations then (db, Raised(NotFound)) else
    var m := db.migrations[r.migration];
    var t := ValidateTransition(MigrationTransitions, m.status, Planning, m.version, r.expected);
    if !t.Next? then (db, Raised(ErrorOf(t))) else
    var waiting := WaitingRevision(db, r.migration, m);
    var added := FirstAttempt(r, LatestNumber(db.attempts, r.migration) + 1, m.currentAttempt);
    if waiting.None? && !AttemptFits(db.attempts, r.newAttempt, added)
    then (db, Raised(UniqueViolation))
    else if (op, r.key) in db.idempotency then (db, Raised(UniqueViolation))
    else
      var id := if waiting.Some? then waiting.value else r.newAttempt;
      var row := if waiting.Some? then db.attempts[id] else added;
      var response := GenerateResponse(r.migration, id, t.version);
      var db' := db.(
        attempts := db.attempts[id := PlannedAttempt(row)],
        migrations := db.migrations[r.migration := PlannedMigration(m, id, t.version)]);
      (Remember(db', op, r.key, VersionPayload(r.expected), response), Done(response))
  }

  function StartedAttempt(a: Attempt): Attempt {
    a.(status := AttemptGenerating, version := a.version + 1,
       data := a.data.(status := AttemptGenerating, version := Some(a.version + 1)))
  }

  function StartedMigration(m: Migration): Migration {
    m.(status := Generating, version := m.version + 1,
       data := m.data.(status := Generating, version := m.version + 1))
  }

  function ClaimAttempt(db: Db, a: Id): (Db, Outcome<Option<AttemptContext>>) {
    if a !in db.attempts || db.attempts[a].status != AttemptPlanning then (db, Done(None)) else
    var mid := db.attempts[a].migration;
    if mid !in db.migrations || db.migrations[mid].currentAttempt != Some(a) ||
       db.migrations[mid].status != Planning
    then (db, Raised(AttemptNotOwned))
    else
      (db.(attempts := db.attempts[a := StartedAttempt(db.attempts[a])],
           migrations := db.migrations[mid := StartedMigration(db.migrations[mid])]),
       Done(Some(AttemptContext(mid, a))))
  }

  function TargetStatus(a: Action): MigrationStatus {
    match a
    case Approve => Ready
    case Revise => NeedsRevision
    case Snooze => Blocked
    case Decline => Blocked
  }

  function CompletedAttempt(a: Attempt, ev: Evidence): Attempt {
    a.(status := AttemptCompleted, version := a.version + 3,
       data := a.data.(status := AttemptCompleted, version := Some(a.version + 3),
                       recommendation := Some(ev.action), evidence := Some(ev)))
  }

  function Concluded(m: Migration, target: MigrationStatus): Migration {
    m.(status := target, version := m.version + 2,
       data := m.data.(status := target, decision := None, errorCode := None,
                       version := m.version + 2))
  }

  // The artifact insert: an equal (attempt, digest) row is left alone.
  function StoreArtifact(
    artifacts: map<(Id, Id), Artifact>, attempt: Id, patch: PatchEvidence, objectRef: string)
    : Outcome<map<(Id, Id), Artifact>>
  {
    if exists k | k in artifacts :: k.0 == attempt && artifacts[k].digest == patch.digest
    then Done(artifacts)
    else if (attempt, patch.artifact) in artifacts then Raised(UniqueViolation)
    else Done(artifacts[(attempt, patch.artifact) := Artifact(patch.digest, objectRef)])
  }

  function CompleteAttempt(db: Db, ctx: AttemptContext, ev: Evidence, objectRef: string)
    : (Db, Outcome<()>)
  {
    if ev.attempt != ctx.attempt || ev.migration != ctx.migration
    then (db, Raised(EvidenceMismatch))
    else if ev.action == Approve && !AllPassed(ev.checks) then (db, Raised(NotVerified))
    else if ctx.attempt !in db.attempts || ctx.migration !in db.migrations ||
            db.migrations[ctx.migration].currentAttempt != Some(ctx.attempt)
    then (db, Raised(NotFound))
    else
      var a, m := db.attempts[ctx.attempt], db.migrations[ctx.migration];
      if a.status != AttemptGenerating || m.status != Generating
      then (db, Raised(AttemptNotActive))
      else match StoreArtifact(db.artifacts, ctx.attempt, ev.patch, objectRef)
        case Raised(e) => (db, Raised(e))
        case Done(artifacts) =>
          (db.(artifacts := artifacts,
               attempts := db.attempts[ctx.attempt := CompletedAttempt(a, ev)],
               migrations := db.migrations[ctx.migration := Concluded(m, TargetStatus(ev.action))]),
           Done(()))
  }

  function FailedAttempt(a: Attempt, code: string): Attempt {
    a.(status := AttemptFailed, version := a.version + 1,
       data := a.data.(status := AttemptFailed, version := Some(a.version + 1),
                       errorCode := Some(code)))
  }

  function Stopped(m: Migration, code: string): Migration {
    m.(status := Blocked, version := m.version + 1,
       data := m.data.(status := Blocked, version := m.version + 1, errorCode := Some(code)))
  }

  function FailAttempt(db: Db, a: Id, code: string): Db {
    if a !in db.attempts || AttemptFailed !in AttemptTransitions(db.attempts[a].status) then db else
    var mid := db.attempts[a].migration;
    var db' := db.(attempts := db.attempts[a := FailedAttempt(db.attempts[a], code)]);
    if mid in db.migrations && db.migrations[mid].currentAttempt == Some(a) &&
       Blocked in MigrationTransitions(db.migrations[mid].status)
    then db'.(migrations := db.migrations[mid := Stopped(db.migrations[mid], code)])
    else db'
  }

  // ----- Publication: queue, claim, checkpoint, complete, fail -----

  // Re-queueing keeps every checkpoint for the same attempt; a new attempt drops the
  // tree, the commit and the check but keeps the recorded head and the draft.
  function Requeued(p: Publication, attempt: Id, ev: Evidence): Publication {
    var changed := p.lastAttempt != attempt;
    p.(lastAttempt := attempt, status := PublicationQueued, base := ev.base,
       patch := ev.patch.digest,
       tree := if changed then None else p.tree,
       commit := if changed then None else p.commit,
       check := if changed then None else p.check,
       errorCode := None)
  }

  function NewPublication(r: PublishRequest, repository: Id, attempt: Id, ev: Evidence): Publication {
    Publication(r.migration, repository, attempt, PublicationQueued, MigrationBranch(r.migration),
                ev.base, ev.patch.digest, None, None, None, None, None, None)
  }

  function OpeningMigration(m: Migration, version: int): Migration {
    m.(status := PrOpening, version := version,
       data := m.data.(status := PrOpening, version := version, errorCode := None))
  }

  function QueuePublication(db: Db, r: PublishRequest): (Db, Outcome<Response>) {
    var op := Operation(r.migration, Publish);
    if r.migration !in db.migrations then (db, Raised(NotFound)) else
    var m := db.migrations[r.migration];
    var t := ValidateTransition(MigrationTransitions, m.status, PrOpening, m.version, r.expected);
    if !t.Next? then (db, Raised(ErrorOf(t))) else
    if m.currentAttempt.None? || m.currentAttempt.value !in db.attempts ||
       db.attempts[m.currentAttempt.value].migration != r.migration ||
       db.attempts[m.currentAttempt.value].status != AttemptCompleted ||
       db.attempts[m.currentAttempt.value].data.evidence.None?
    then (db, Raised(NotPublishable))
    else
      var attempt := m.currentAttempt.value;
      var ev := db.attempts[attempt].data.evidence.value;
      var artifact := (attempt, ev.patch.artifact);
      if ev.action != Approve || !AllPassed(ev.checks) then (db, Raised(NotPublishable))
      else if artifact !in db.artifacts || db.artifacts[artifact].digest != ev.patch.digest
      then (db, Raised(NotFound))
      else
        var existing := r.migration in db.publicationOf;
        var id := if existing then db.publicationOf[r.migration] else r.newPublication;
        if existing != (id in db.publications) then (db, Raised(UniqueViolation))
        else if (op, r.key) in db.idempotency then (db, Raised(UniqueViolation))
        else
          var row := if existing then Requeued(db.publications[id], attempt, ev)
                     else NewPublication(r, m.repository, attempt, ev);
          var response := PublishResponse(r.migration, attempt, id, t.version);
          var db' := db.(
            publications := db.publications[id := row],
            publicationOf := db.publicationOf[r.migration := id],
            migrations := db.migrations[r.migration := OpeningMigration(m, t.version)]);
          (Remember(db', op, r.key, VersionPayload(r.expected), response), Done(response))
  }

  function ClaimPublication(db: Db, p: Id): (Db, Option<PublicationContext>) {
    if p !in db.publications || db.publications[p].status != PublicationQueued then (db, None) else
    var row := db.publications[p].(status := Publishing, errorCode := None);
    (db.(publications := db.publications[p := row]), Some(PublicationContext(p, row)))
  }

  datatype Checkpoint =
    | TreeCheckpoint(tree: Tree)
    | CommitCheckpoint(commit: Commit)
    | BranchCheckpoint(head: Commit)
    | PullCheckpoint(pull: nat)
    | CheckCheckpoint(check: nat)

  function Marked(row: Publication, c: Checkpoint): Publication {
    match c
    case TreeCheckpoint(tree) => row.(tree := Some(tree))
    case CommitCheckpoint(commit) => row.(commit := Some(commit))
    case BranchCheckpoint(head) => row.(remoteHead := Some(head))
    case PullCheckpoint(pull) => row.(pull := Some(pull))
    case CheckCheckpoint(check) => row.(check := Some(check))
  }

  function RecordCheckpoint(db: Db, p: Id, c: Checkpoint): Db {
    if p in db.publications && db.publications[p].status == Publishing
    then db.(publications := db.publications[p := Marked(db.publications[p], c)])
    else db
  }

  function PublishedRow(row: Publication, result: PublicationResult): Publication {
    row.(status := Published, tree := Some(result.tree), commit := Some(result.commit),
         remoteHead := Some(result.commit), pull := Some(result.pull),
         check := Some(result.check), errorCode := None)
  }

  function OpenedMigration(m: Migration, pull: nat): Migration {
    m.(status := PrOpened, version := m.version + 1,
       data := m.data.(status := PrOpened, version := m.version + 1, pullUrl := Some(pull),
                       errorCode := None))
  }

  function CompletePublication(db: Db, ctx: PublicationContext, result: PublicationResult)
    : (Db, Outcome<()>)
  {
    var p := ctx.publication;
    if p !in db.publications || db.publications[p].status != Publishing
    then (db, Raised(PublicationNotActive))
    else
      var mid := ctx.record.migration;
      if mid !in db.migrations ||
         db.migrations[mid].currentAttempt != Some(ctx.record.lastAttempt) ||
         db.migrations[mid].status != PrOpening
      then (db, Raised(PublicationNotOwned))
      else
        (db.(publications := db.publications[p := PublishedRow(db.publications[p], result)],
             migrations := db.migrations[mid := OpenedMigration(db.migrations[mid], result.pull)]),
         Done(()))
  }

  function FailPublication(db: Db, p: Id, code: string): Db {
    if p !in db.publications || db.publications[p].status != Publishing then db else
    var row := db.publications[p].(status := PublicationFailed, errorCode := Some(code));
    var db' := db.(publications := db.publications[p := row]);
    var mid := row.migration;
    if mid in db.migrations && db.migrations[mid].status == PrOpening
    then db'.(migrations := db.migrations[mid := Stopped(db.migrations[mid], code)])
    else db'
  }

  // ----- Fan-out creates a migration once; a second insert does nothing -----

  function NewMigration(repository: Id): Migration {
    Migration(repository, Queued, 1, None, None,
              MigrationData(Queued, 1, None, None, None, None, None))
  }

  function CreateMigration(db: Db, mid: Id, repository: Id): Db {
    if mid in db.migrations then db
    else db.(migrations := db.migrations[mid := NewMigration(repository)])
  }
}
