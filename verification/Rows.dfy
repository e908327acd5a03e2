// The rows the three stores share, for one workspace. Timestamps and the audit
// log, which no transaction reads back, are not modelled.
module Rows {
  import opened Git
  import opened Options
  import opened Lifecycle

  type Id = int
  type Key = int

  datatype Action = Approve | Revise | Snooze | Decline

  datatype CheckStatus = Passed | Failed | Skipped | TimedOut | BlockedCheck | InfrastructureError

  datatype Check = Check(id: string, kind: string, status: CheckStatus)

  datatype PatchEvidence = PatchEvidence(artifact: Id, digest: PatchDigest)

  datatype Evidence = Evidence(
    migration: Id, attempt: Id, base: Commit, baseBranch: string, patch: PatchEvidence,
    checks: seq<Check>, action: Action, completedAt: int)

  predicate AllPassed(checks: seq<Check>) {
    forall i | 0 <= i < |checks| :: checks[i].status == Passed
  }

  // The JSON copy of a migration that the API serves.
  datatype MigrationData = MigrationData(
    status: MigrationStatus, version: int, currentAttempt: Option<Id>, decision: Option<Action>,
    errorCode: Option<string>, pullUrl: Option<nat>, snoozedUntil: Option<int>)

  datatype Migration = Migration(
    repository: Id, status: MigrationStatus, version: int, currentAttempt: Option<Id>,
    snoozedUntil: Option<int>, data: MigrationData)

  datatype AttemptData = AttemptData(
    status: AttemptStatus, version: Option<int>, recommendation: Option<Action>,
    evidence: Option<Evidence>, reason: Option<string>, instructions: Option<string>,
    errorCode: Option<string>)

  datatype Attempt = Attempt(
    migration: Id, number: int, previous: Option<Id>, key: Key, status: AttemptStatus,
    version: int, data: AttemptData)

  datatype Artifact = Artifact(digest: PatchDigest, objectRef: string)

  // A draft pull request is kept by its number: its URL is validated to be the one the number
  // determines, and its node id is a second handle on the same draft.
  datatype PublicationStatus = PublicationQueued | Publishing | Published | PublicationFailed

  datatype Publication = Publication(
    migration: Id, repository: Id, lastAttempt: Id, status: PublicationStatus, branch: Ref,
    base: Commit, patch: PatchDigest, tree: Option<Tree>, commit: Option<Commit>,
    remoteHead: Option<Commit>, pull: Option<nat>, check: Option<nat>,
    errorCode: Option<string>)

  // Idempotency: what a request was, and what it answered. The request hash is
  // modelled by the hashed payload.
  datatype Verb = Act(action: Action) | Generate | Publish

  datatype Operation = Operation(migration: Id, verb: Verb)

  datatype Payload =
    | DecisionPayload(expected: int, reason: Option<string>, instructions: Option<string>,
                      snoozeUntil: Option<int>)
    | VersionPayload(expected: int)

  datatype Response =
    | DecisionResponse(data: MigrationData)
    | GenerateResponse(migration: Id, attempt: Id, version: int)
    | PublishResponse(migration: Id, attempt: Id, publication: Id, version: int)

  function ResponseVersion(r: Response): int {
    match r
    case DecisionResponse(data) => data.version
    case GenerateResponse(_, _, version) => version
    case PublishResponse(_, _, _, version) => version
  }

  datatype Stored = Stored(payload: Payload, response: Response)

  datatype Decision = Decision(
    migration: Id, action: Action, actor: string, targetVersion: int, reason: Option<string>,
    instructions: Option<string>)

  datatype Db = Db(
    migrations: map<Id, Migration>,
    attempts: map<Id, Attempt>,
    artifacts: map<(Id, Id), Artifact>,
    publications: map<Id, Publication>,
    publicationOf: map<Id, Id>,              // the unique index on migration_id
    idempotency: map<(Operation, Key), Stored>,
    decisions: seq<Decision>)

  // What the schema itself enforces: one attempt per (migration, number) and per
  // (migration, key); one publication per migration.
  ghost predicate Schema(db: Db) {
    && (forall a, b | a in db.attempts && b in db.attempts && a != b &&
          db.attempts[a].migration == db.attempts[b].migration ::
          db.attempts[a].number != db.attempts[b].number &&
          db.attempts[a].key != db.attempts[b].key)
    && (forall p | p in db.publications ::
          db.publications[p].migration in db.publicationOf &&
          db.publicationOf[db.publications[p].migration] == p)
    && (forall m | m in db.publicationOf ::
          db.publicationOf[m] in db.publications &&
          db.publications[db.publicationOf[m]].migration == m)
  }

  datatype StoreError =
    | NotFound | Conflict | BadTransition | KeyReused | UniqueViolation
    | AttemptNotOwned | AttemptNotActive | EvidenceMismatch | NotVerified
    | NotPublishable | PublicationNotActive | PublicationNotOwned

  datatype Outcome<+T> = Done(value: T) | Raised(error: StoreError)
}
