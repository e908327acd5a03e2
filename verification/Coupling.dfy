// The invariant that ties migrations, attempts, artifacts, publications and replay
// records together, and its preservation by every transaction.
module Coupling {
  import opened Git
  import opened Options
  import opened Lifecycle
  import opened Rows
  import opened Transactions

  // ----- What single rows say -----

  // A completed attempt the review approved and every check of which passed.
  ghost predicate Verified(a: Attempt) {
    && a.status == AttemptCompleted
    && a.data.evidence.Some?
    && a.data.evidence.value.action == Approve
    && AllPassed(a.data.evidence.value.checks)
  }

  // What the status of a migration says about its current attempt, and conversely.
  ghost predicate Coupled(s: MigrationStatus, current: Option<Attempt>) {
    match s
    case Queued => current.None?
    case Planning => current.Some? && current.value.status == AttemptPlanning
    case Generating => current.Some? && current.value.status == AttemptGenerating
    case NeedsRevision => current.Some? &&
      (current.value.status == AttemptCreated ||
       (current.value.status == AttemptCompleted && current.value.data.recommendation == Some(Revise)))
    case Blocked => current.Some? &&
      (current.value.status == AttemptFailed || current.value.status == AttemptCompleted)
    case Verifying => false
    case Completed => false
    case _ => current.Some? && Verified(current.value)
  }

  ghost predicate Open(p: Publication) {
    p.status in {PublicationQueued, Publishing}
  }

  ghost predicate MigrationRowOk(m: Migration, current: Option<Attempt>, pub: Option<Publication>) {
    && m.version >= 1
    && m.data.status == m.status
    && m.data.version == m.version
    && m.data.currentAttempt == m.currentAttempt
    && Coupled(m.status, current)
    && (m.status == PrOpening <==> pub.Some? && Open(pub.value))
    && (m.status in {PrOpening, PrOpened, Approved} ==>
          pub.Some? && m.currentAttempt == Some(pub.value.lastAttempt))
    && (m.status in {PrOpened, Approved} ==> pub.value.status == Published)
  }

  // Only the current attempt can still be waiting; a completed one carries its evidence.
  ghost predicate AttemptRowOk(a: Id, row: Attempt, current: Option<Id>) {
    && row.version >= 1
    && row.number >= 1
    && row.data.status == row.status
    && (row.status == AttemptCreated || row.data.version == Some(row.version))
    && row.status in {AttemptCreated, AttemptPlanning, AttemptGenerating, AttemptCompleted, AttemptFailed}
    && (row.status in {AttemptCreated, AttemptPlanning} ==> current == Some(a))
    && (row.status == AttemptCompleted ==>
          row.data.evidence.Some? &&
          var ev := row.data.evidence.value;
          ev.attempt == a && ev.migration == row.migration &&
          row.data.recommendation == Some(ev.action) &&
          (ev.action == Approve ==> AllPassed(ev.checks)))
  }

  // A publication is of a verified attempt: its base and its patch are that attempt's.
  ghost predicate PublicationRowOk(p: Publication, mid: Id, last: Attempt) {
    && p.migration == mid
    && p.branch == MigrationBranch(mid)
    && last.migration == mid
    && Verified(last)
    && p.base == last.data.evidence.value.base
    && p.patch == last.data.evidence.value.patch.digest
  }

  // ----- The rows of one migration together -----

  ghost function Current(db: Db, m: Migration): Option<Attempt> {
    if m.currentAttempt.Some? && m.currentAttempt.value in db.attempts
    then Some(db.attempts[m.currentAttempt.value]) else None
  }

  ghost function PublicationFor(db: Db, mid: Id): Option<Publication> {
    if mid in db.publicationOf && db.publicationOf[mid] in db.publications
    then Some(db.publications[db.publicationOf[mid]]) else None
  }

  // The previous attempt is the one numbered one less.
  ghost predicate Linked(attempts: map<Id, Attempt>, row: Attempt) {
    if row.number == 1 then row.previous.None?
    else
      && row.previous.Some? && row.previous.value in attempts
      && attempts[row.previous.value].migration == row.migration
      && attempts[row.previous.value].number == row.number - 1
  }

  ghost predicate ArtifactStored(artifacts: map<(Id, Id), Artifact>, a: Id, row: Attempt) {
    row.status == AttemptCompleted && row.data.evidence.Some? ==>
      var patch := row.data.evidence.value.patch;
      (a, patch.artifact) in artifacts && artifacts[(a, patch.artifact)].digest == patch.digest
  }

  ghost predicate AttemptOk(db: Db, a: Id, row: Attempt, current: Option<Id>) {
    AttemptRowOk(a, row, current) && Linked(db.attempts, row) && ArtifactStored(db.artifacts, a, row)
  }

  // The current attempt is the latest one.
  ghost predicate CurrentOk(attempts: map<Id, Attempt>, mid: Id, current: Option<Id>) {
    if current.Some? then IsLatest(attempts, mid, current.value)
    else forall a | a in attempts :: attempts[a].migration != mid
  }

  ghost predicate AttemptsOk(db: Db, mid: Id, current: Option<Id>) {
    forall a {:trigger AttemptOk(db, a, db.attempts[a], current)} |
      a in db.attempts && db.attempts[a].migration == mid :: AttemptOk(db, a, db.attempts[a], current)
  }

  ghost predicate PublicationOk(db: Db, mid: Id) {
    var pub := PublicationFor(db, mid);
    pub.Some? ==>
      pub.value.lastAttempt in db.attempts &&
      PublicationRowOk(pub.value, mid, db.attempts[pub.value.lastAttempt])
  }

  ghost predicate RowsOk(db: Db, mid: Id) {
    mid in db.migrations ==>
      var m := db.migrations[mid];
      && MigrationRowOk(m, Current(db, m), PublicationFor(db, mid))
      && CurrentOk(db.attempts, mid, m.currentAttempt)
      && AttemptsOk(db, mid, m.currentAttempt)
      && PublicationOk(db, mid)
  }

  // Every row belongs to a migration, and artifacts to completed attempts.
  ghost predicate Homed(db: Db) {
    && (forall a | a in db.attempts :: db.attempts[a].migration in db.migrations)
    && (forall m | m in db.publicationOf :: m in db.migrations)
    && (forall k | k in db.artifacts ::
          k.0 in db.attempts && db.attempts[k.0].status == AttemptCompleted)
  }

  // A stored answer never carries a version the migration has not reached, and no two
  // answers about one migration carry the same version.
  ghost predicate ReplayOk(db: Db) {
    && (forall k | k in db.idempotency ::
          k.0.migration in db.migrations &&
          ResponseVersion(db.idempotency[k].response) <= db.migrations[k.0.migration].version)
    && (forall j, k | j in db.idempotency && k in db.idempotency && j != k &&
          j.0.migration == k.0.migration ::
          ResponseVersion(db.idempotency[j].response) != ResponseVersion(db.idempotency[k].response))
  }

  ghost predicate Inv(db: Db) {
    && Schema(db)
    && Homed(db)
    && ReplayOk(db)
    && (forall mid {:trigger RowsOk(db, mid)} :: RowsOk(db, mid))
  }

  const EMPTY := Db(map[], map[], map[], map[], map[], map[], [])

  lemma EmptyOk()
    ensures Inv(EMPTY)
  {
  }

  // The current attempt of a migration is the row the two creation paths look for:
  // the one with the highest number.
  lemma CurrentIsLatest(db: Db, mid: Id)
    requires Inv(db) && mid in db.migrations
    ensures Latest(db.attempts, mid) == db.migrations[mid].currentAttempt
    ensures db.migrations[mid].currentAttempt.None? ==> LatestNumber(db.attempts, mid) == 0
    ensures db.migrations[mid].currentAttempt.Some? ==>
              LatestNumber(db.attempts, mid) ==
                db.attempts[db.migrations[mid].currentAttempt.value].number
  {
    assert RowsOk(db, mid);
    var c := db.migrations[mid].currentAttempt;
    if c.Some? {
      assert IsLatest(db.attempts, mid, c.value);
      var a := Latest(db.attempts, mid).value;
      assert IsLatest(db.attempts, mid, a);
    }
  }

  // ----- How rows move -----

  // A migration stays, follows one declared edge, or is concluded: two edges at once.
  ghost predicate MigrationMove(m: Migration, m': Migration) {
    || m' == m
    || (m'.status in MigrationTransitions(m.status) && m'.version == m.version + 1)
    || (m.status == Generating && m'.status in MigrationTransitions(Verifying) &&
        m'.version == m.version + 2)
  }

  ghost predicate Final(a: Attempt) {
    a.status in {AttemptCompleted, AttemptFailed}
  }

  // An attempt stays, follows one declared edge, or is completed: three edges at once.
  ghost predicate AttemptMove(a: Attempt, a': Attempt) {
    || a' == a
    || (&& !Final(a)
        && a'.migration == a.migration && a'.number == a.number
        && a'.previous == a.previous && a'.key == a.key
        && ((a'.status in AttemptTransitions(a.status) && a'.version == a.version + 1) ||
            (a.status == AttemptGenerating && a'.status == AttemptCompleted && a'.version == a.version + 3)))
  }

  ghost predicate StartingAttempt(a: Attempt) {
    (a.status == AttemptCreated && a.version == 1) || (a.status == AttemptPlanning && a.version == 2)
  }

  // What any transaction does to the rows it finds: none is ever deleted, finished attempts and
  // stored answers never change, and the current attempt is only ever replaced by a new one.
  ghost predicate Moves(db: Db, db': Db) {
    && (forall x | x in db.migrations ::
          x in db'.migrations && MigrationMove(db.migrations[x], db'.migrations[x]) &&
          (db'.migrations[x].currentAttempt == db.migrations[x].currentAttempt ||
           (db'.migrations[x].currentAttempt.Some? &&
            db'.migrations[x].currentAttempt.value !in db.attempts)))
    && (forall x | x in db'.migrations && x !in db.migrations ::
          db'.migrations[x].status == Queued && db'.migrations[x].version == 1)
    && (forall a | a in db.attempts :: a in db'.attempts && AttemptMove(db.attempts[a], db'.attempts[a]))
    && (forall a | a in db'.attempts && a !in db.attempts :: StartingAttempt(db'.attempts[a]))
    && (forall p | p in db.publications ::
          p in db'.publications && db'.publications[p].migration == db.publications[p].migration)
    && (forall k | k in db.idempotency :: k in db'.idempotency && db'.idempotency[k] == db.idempotency[k])
  }

  // ----- Every transaction writes the rows of one migration -----

  // What one transaction writes: a migration row, perhaps one attempt, perhaps one
  // publication, and what it adds to the artifact and the replay tables.
  datatype Write = Write(
    mid: Id, row: Migration, attempt: Option<(Id, Attempt)>, publication: Option<(Id, Publication)>,
    artifacts: map<(Id, Id), Artifact>, answer: Option<((Operation, Key), Stored)>,
    decisions: seq<Decision>)

  ghost function Put(db: Db, w: Write): Db {
    db.(migrations := db.migrations[w.mid := w.row],
        attempts := if w.attempt.Some? then db.attempts[w.attempt.value.0 := w.attempt.value.1]
                    else db.attempts,
        artifacts := w.artifacts,
        publications := if w.publication.Some?
                        then db.publications[w.publication.value.0 := w.publication.value.1]
                        else db.publications,
        publicationOf := if w.publication.Some?
                         then db.publicationOf[w.mid := w.publication.value.0]
                         else db.publicationOf,
        idempotency := if w.answer.Some?
                       then db.idempotency[w.answer.value.0 := w.answer.value.1]
                       else db.idempotency,
        decisions := w.decisions)
  }

  // An attempt write either updates a row that is not final, or adds the next number.
  ghost predicate AttemptWriteOk(db: Db, w: Write) {
    w.attempt.Some? && w.mid in db.migrations ==>
      var (a, row) := w.attempt.value;
      && row.migration == w.mid
      && AttemptRowOk(a, row, w.row.currentAttempt)
      && ArtifactStored(w.artifacts, a, row)
      && (if a in db.attempts then
            var before := db.attempts[a];
            before.migration == w.mid && AttemptMove(before, row) && !Final(before) &&
            w.row.currentAttempt == db.migrations[w.mid].currentAttempt
          else
            AttemptFits(db.attempts, a, row) && StartingAttempt(row) &&
            row.number == LatestNumber(db.attempts, w.mid) + 1 &&
            row.previous == db.migrations[w.mid].currentAttempt &&
            w.row.currentAttempt == Some(a) &&
            (row.previous.Some? && row.previous.value in db.attempts ==>
               db.attempts[row.previous.value].status !in {AttemptCreated, AttemptPlanning}))
  }

  ghost predicate ArtifactWriteOk(db: Db, w: Write) {
    && (forall k | k in db.artifacts :: k in w.artifacts && w.artifacts[k] == db.artifacts[k])
    && (forall k | k in w.artifacts && k !in db.artifacts ::
          w.attempt.Some? && k.0 == w.attempt.value.0 &&
          w.attempt.value.1.status == AttemptCompleted)
  }

  ghost predicate PublicationWriteOk(db: Db, w: Write) {
    w.publication.Some? ==>
      var (p, row) := w.publication.value;
      && (if w.mid in db.publicationOf then db.publicationOf[w.mid] == p else p !in db.publications)
      && row.lastAttempt in db.attempts
      && (w.attempt.Some? ==> w.attempt.value.0 != row.lastAttempt)
      && PublicationRowOk(row, w.mid, db.attempts[row.lastAttempt])
  }

  ghost predicate AnswerWriteOk(db: Db, w: Write) {
    w.answer.Some? ==>
      var (k, stored) := w.answer.value;
      k !in db.idempotency && k.0.migration == w.mid && ResponseVersion(stored.response) == w.row.version
  }

  ghost function CurrentAfter(db: Db, w: Write): Option<Attempt> {
    if w.attempt.Some? && w.row.currentAttempt == Some(w.attempt.value.0)
    then Some(w.attempt.value.1) else Current(db, w.row)
  }

  ghost function PublicationAfter(db: Db, w: Write): Option<Publication> {
    if w.publication.Some? then Some(w.publication.value.1) else PublicationFor(db, w.mid)
  }

  ghost predicate WriteOk(db: Db, w: Write) {
    && w.mid in db.migrations
    && MigrationMove(db.migrations[w.mid], w.row)
    && (w.answer.Some? ==> w.row.version > db.migrations[w.mid].version)
    && MigrationRowOk(w.row, CurrentAfter(db, w), PublicationAfter(db, w))
    && (w.attempt.None? ==> w.row.currentAttempt == db.migrations[w.mid].currentAttempt)
    && AttemptWriteOk(db, w)
    && ArtifactWriteOk(db, w)
    && PublicationWriteOk(db, w)
    && AnswerWriteOk(db, w)
  }

  lemma PutSchema(db: Db, w: Write)
    requires Inv(db) && WriteOk(db, w)
    ensures Schema(Put(db, w))
  {
  }

  lemma PutHomed(db: Db, w: Write)
    requires Inv(db) && WriteOk(db, w)
    ensures Homed(Put(db, w))
  {
  }

  lemma PutReplay(db: Db, w: Write)
    requires Inv(db) && WriteOk(db, w)
    ensures ReplayOk(Put(db, w))
  {
  }

  lemma PutRows(db: Db, w: Write)
    requires Inv(db) && WriteOk(db, w)
    ensures MigrationRowOk(w.row, Current(Put(db, w), w.row), PublicationFor(Put(db, w), w.mid))
  {
    assert Current(Put(db, w), w.row) == CurrentAfter(db, w);
  }

  lemma PutCurrent(db: Db, w: Write)
    requires Inv(db) && WriteOk(db, w)
    ensures CurrentOk(Put(db, w).attempts, w.mid, w.row.currentAttempt)
  {
    assert RowsOk(db, w.mid);
    CurrentIsLatest(db, w.mid);
  }

  lemma PutUpdatedAttempt(db: Db, w: Write, a: Id)
    requires Inv(db) && WriteOk(db, w)
    requires a in db.attempts && db.attempts[a].migration == w.mid
    ensures AttemptOk(Put(db, w), a, Put(db, w).attempts[a], w.row.currentAttempt)
  {
    assert RowsOk(db, w.mid);
    assert AttemptOk(db, a, db.attempts[a], db.migrations[w.mid].currentAttempt);
  }

  lemma PutAddedAttempt(db: Db, w: Write)
    requires Inv(db) && WriteOk(db, w)
    requires w.attempt.Some? && w.attempt.value.0 !in db.attempts
    ensures AttemptOk(Put(db, w), w.attempt.value.0, w.attempt.value.1, w.row.currentAttempt)
  {
    assert RowsOk(db, w.mid);
    CurrentIsLatest(db, w.mid);
    var current := db.migrations[w.mid].currentAttempt;
    if current.Some? {
      assert AttemptOk(db, current.value, db.attempts[current.value], current);
    }
  }

  lemma PutPublication(db: Db, w: Write)
    requires Inv(db) && WriteOk(db, w)
    ensures PublicationOk(Put(db, w), w.mid)
  {
    assert RowsOk(db, w.mid);
  }

  lemma PutElsewhere(db: Db, w: Write, x: Id)
    requires Inv(db) && WriteOk(db, w) && x != w.mid
    ensures var db' := Put(db, w);
      && PublicationFor(db', x) == PublicationFor(db, x)
      && (forall a | a in db.attempts && db.attempts[a].migration == x ::
            a in db'.attempts && db'.attempts[a] == db.attempts[a])
      && (forall a | a in db'.attempts && db'.attempts[a].migration == x ::
            a in db.attempts && db'.attempts[a] == db.attempts[a])
  {
  }

  lemma PutOther(db: Db, w: Write, x: Id)
    requires Inv(db) && WriteOk(db, w) && x != w.mid && x in db.migrations
    ensures RowsOk(Put(db, w), x)
  {
    var m, db' := db.migrations[x], Put(db, w);
    assert RowsOk(db, x);
    PutElsewhere(db, w, x);
    assert Current(db', m) == Current(db, m);
    forall a | a in db'.attempts && db'.attempts[a].migration == x
      ensures AttemptOk(db', a, db'.attempts[a], m.currentAttempt)
    {
      assert AttemptOk(db, a, db.attempts[a], m.currentAttempt);
    }
  }

  lemma PutMoves(db: Db, w: Write)
    requires Inv(db) && WriteOk(db, w)
    ensures Moves(db, Put(db, w))
  {
    assert RowsOk(db, w.mid);
  }

  lemma PutKeeps(db: Db, w: Write)
    requires Inv(db) && WriteOk(db, w)
    ensures Inv(Put(db, w)) && Moves(db, Put(db, w))
  {
    PutMoves(db, w);
    var db' := Put(db, w);
    PutSchema(db, w);
    PutHomed(db, w);
    PutReplay(db, w);
    forall x ensures RowsOk(db', x) {
      if x == w.mid {
        PutRows(db, w);
        PutCurrent(db, w);
        PutPublication(db, w);
        forall a | a in db'.attempts && db'.attempts[a].migration == x
          ensures AttemptOk(db', a, db'.attempts[a], w.row.currentAttempt)
        {
          if a in db.attempts { PutUpdatedAttempt(db, w, a); } else { PutAddedAttempt(db, w); }
        }
      } else if x in db.migrations {
        PutOther(db, w, x);
      }
    }
  }

  lemma KeptByWrite(db: Db, db': Db, w: Write)
    requires Inv(db) && WriteOk(db, w) && db' == Put(db, w)
    ensures Inv(db') && Moves(db, db')
  {
    PutKeeps(db, w);
  }

  lemma KeptByNothing(db: Db, db': Db)
    requires Inv(db) && db' == db
    ensures Inv(db') && Moves(db, db')
  {
  }

  // ----- Every transaction keeps the invariant -----

  lemma CreateMigrationTables(db: Db, mid: Id, repository: Id)
    requires Inv(db)
    ensures var db' := CreateMigration(db, mid, repository); Schema(db') && Homed(db') && ReplayOk(db')
  {
  }

  lemma CreateMigrationRow(db: Db, mid: Id, repository: Id)
    requires Inv(db) && mid !in db.migrations
    ensures RowsOk(CreateMigration(db, mid, repository), mid)
  {
  }

  lemma CreateMigrationElsewhere(db: Db, mid: Id, repository: Id, x: Id)
    requires Inv(db) && x in db.migrations
    ensures RowsOk(CreateMigration(db, mid, repository), x)
  {
    assert RowsOk(db, x);
    var m, db' := db.migrations[x], CreateMigration(db, mid, repository);
    forall a | a in db'.attempts && db'.attempts[a].migration == x
      ensures AttemptOk(db', a, db'.attempts[a], m.currentAttempt)
    {
      assert AttemptOk(db, a, db.attempts[a], m.currentAttempt);
    }
  }

  lemma CreateMigrationMoves(db: Db, mid: Id, repository: Id)
    requires Inv(db)
    ensures Moves(db, CreateMigration(db, mid, repository))
  {
  }

  lemma CreateMigrationKeeps(db: Db, mid: Id, repository: Id)
    requires Inv(db)
    ensures Inv(CreateMigration(db, mid, repository)) && Moves(db, CreateMigration(db, mid, repository))
  {
    var db' := CreateMigration(db, mid, repository);
    CreateMigrationMoves(db, mid, repository);
    CreateMigrationTables(db, mid, repository);
    forall x ensures RowsOk(db', x) {
      if x in db.migrations { CreateMigrationElsewhere(db, mid, repository, x); }
      else if x in db'.migrations { CreateMigrationRow(db, mid, repository); }
    }
  }

  ghost function DecideWrite(db: Db, r: DecisionRequest): Write
    requires Inv(db) && Decide(db, r).1.Done?
  {
    var m := db.migrations[r.migration];
    var added := RevisionAttempt(r, LatestNumber(db.attempts, r.migration) + 1,
                                 Latest(db.attempts, r.migration));
    var response := DecisionResponse(DecidedData(m, r, r.expected + 1));
    Write(r.migration, Decided(m, r, r.expected + 1),
          if r.action == Revise then Some((r.newAttempt, added)) else None, None, db.artifacts,
          Some(((Operation(r.migration, Act(r.action)), r.key), Stored(DecisionPayloadOf(r), response))),
          Decide(db, r).0.decisions)
  }

  lemma DecideWrites(db: Db, r: DecisionRequest)
    requires Inv(db) && Decide(db, r).1.Done?
    ensures Decide(db, r).0 == Put(db, DecideWrite(db, r))
  {
  }

  lemma DecideAttemptOk(db: Db, r: DecisionRequest)
    requires Inv(db) && Decide(db, r).1.Done?
    ensures AttemptWriteOk(db, DecideWrite(db, r))
  {
    assert RowsOk(db, r.migration);
    CurrentIsLatest(db, r.migration);
    var current := db.migrations[r.migration].currentAttempt;
    if current.Some? {
      assert AttemptOk(db, current.value, db.attempts[current.value], current);
    }
  }

  lemma DecideWriteOk(db: Db, r: DecisionRequest)
    requires Inv(db) && Decide(db, r).1.Done?
    ensures WriteOk(db, DecideWrite(db, r))
  {
    assert RowsOk(db, r.migration);
    DecideAttemptOk(db, r);
  }

  lemma DecideRefused(db: Db, r: DecisionRequest)
    requires !Decide(db, r).1.Done?
    ensures Decide(db, r).0 == db
  {
  }

  lemma DecideKeeps(db: Db, r: DecisionRequest)
    requires Inv(db)
    ensures Inv(Decide(db, r).0) && Moves(db, Decide(db, r).0)
  {
    if Decide(db, r).1.Done? {
      DecideWrites(db, r);
      DecideWriteOk(db, r);
      KeptByWrite(db, Decide(db, r).0, DecideWrite(db, r));
    } else {
      DecideRefused(db, r);
      KeptByNothing(db, Decide(db, r).0);
    }
  }

  ghost function QueueAttemptWrite(db: Db, r: GenerateRequest): Write
    requires Inv(db) && QueueAttempt(db, r).1.Done?
  {
    var m := db.migrations[r.migration];
    var waiting := WaitingRevision(db, r.migration, m);
    var id := if waiting.Some? then waiting.value else r.newAttempt;
    var row := if waiting.Some? then db.attempts[id]
               else FirstAttempt(r, LatestNumber(db.attempts, r.migration) + 1, m.currentAttempt);
    Write(r.migration, PlannedMigration(m, id, r.expected + 1), Some((id, PlannedAttempt(row))), None,
          db.artifacts,
          Some(((Operation(r.migration, Generate), r.key),
                Stored(VersionPayload(r.expected), GenerateResponse(r.migration, id, r.expected + 1)))),
          db.decisions)
  }

  lemma QueueAttemptWrites(db: Db, r: GenerateRequest)
    requires Inv(db) && QueueAttempt(db, r).1.Done?
    ensures QueueAttempt(db, r).0 == Put(db, QueueAttemptWrite(db, r))
  {
  }

  lemma QueueAttemptAttemptOk(db: Db, r: GenerateRequest)
    requires Inv(db) && QueueAttempt(db, r).1.Done?
    ensures AttemptWriteOk(db, QueueAttemptWrite(db, r))
  {
    assert RowsOk(db, r.migration);
    CurrentIsLatest(db, r.migration);
    var current := db.migrations[r.migration].currentAttempt;
    if current.Some? {
      assert AttemptOk(db, current.value, db.attempts[current.value], current);
    }
  }

  lemma QueueAttemptWriteOk(db: Db, r: GenerateRequest)
    requires Inv(db) && QueueAttempt(db, r).1.Done?
    ensures WriteOk(db, QueueAttemptWrite(db, r))
  {
    assert RowsOk(db, r.migration);
    QueueAttemptAttemptOk(db, r);
  }

  lemma QueueAttemptRefused(db: Db, r: GenerateRequest)
    requires !QueueAttempt(db, r).1.Done?
    ensures QueueAttempt(db, r).0 == db
  {
  }

  lemma QueueAttemptKeeps(db: Db, r: GenerateRequest)
    requires Inv(db)
    ensures Inv(QueueAttempt(db, r).0) && Moves(db, QueueAttempt(db, r).0)
  {
    if QueueAttempt(db, r).1.Done? {
      QueueAttemptWrites(db, r);
      QueueAttemptWriteOk(db, r);
      KeptByWrite(db, QueueAttempt(db, r).0, QueueAttemptWrite(db, r));
    } else {
      QueueAttemptRefused(db, r);
      KeptByNothing(db, QueueAttempt(db, r).0);
    }
  }

  lemma ClaimAttemptKeeps(db: Db, a: Id)
    requires Inv(db)
    ensures Inv(ClaimAttempt(db, a).0) && Moves(db, ClaimAttempt(db, a).0)
  {
    var db' := ClaimAttempt(db, a).0;
    if db' != db {
      var mid := db.attempts[a].migration;
      assert RowsOk(db, mid);
      assert AttemptOk(db, a, db.attempts[a], db.migrations[mid].currentAttempt);
      var w := Write(mid, db'.migrations[mid], Some((a, db'.attempts[a])), None, db.artifacts, None,
                     db.decisions);
      assert db' == Put(db, w);
      PutKeeps(db, w);
    }
  }

  ghost predicate Completes(db: Db, ctx: AttemptContext, ev: Evidence, objectRef: string) {
    CompleteAttempt(db, ctx, ev, objectRef).1.Done?
  }

  ghost function CompleteAttemptWrite(db: Db, ctx: AttemptContext, ev: Evidence, objectRef: string): Write
    requires Completes(db, ctx, ev, objectRef)
  {
    Write(ctx.migration, Concluded(db.migrations[ctx.migration], TargetStatus(ev.action)),
          Some((ctx.attempt, CompletedAttempt(db.attempts[ctx.attempt], ev))), None,
          CompleteAttempt(db, ctx, ev, objectRef).0.artifacts, None, db.decisions)
  }

  lemma CompleteAttemptWrites(db: Db, ctx: AttemptContext, ev: Evidence, objectRef: string)
    requires Completes(db, ctx, ev, objectRef)
    ensures CompleteAttempt(db, ctx, ev, objectRef).0 == Put(db, CompleteAttemptWrite(db, ctx, ev, objectRef))
  {
  }

  lemma CompleteAttemptWriteOk(db: Db, ctx: AttemptContext, ev: Evidence, objectRef: string)
    requires Inv(db) && Completes(db, ctx, ev, objectRef)
    ensures WriteOk(db, CompleteAttemptWrite(db, ctx, ev, objectRef))
  {
    assert RowsOk(db, ctx.migration);
    assert AttemptOk(db, ctx.attempt, db.attempts[ctx.attempt], db.migrations[ctx.migration].currentAttempt);
  }

  lemma CompleteAttemptRefused(db: Db, ctx: AttemptContext, ev: Evidence, objectRef: string)
    requires !Completes(db, ctx, ev, objectRef)
    ensures CompleteAttempt(db, ctx, ev, objectRef).0 == db
  {
  }

  lemma CompleteAttemptKeeps(db: Db, ctx: AttemptContext, ev: Evidence, objectRef: string)
    requires Inv(db)
    ensures Inv(CompleteAttempt(db, ctx, ev, objectRef).0) && Moves(db, CompleteAttempt(db, ctx, ev, objectRef).0)
  {
    var db' := CompleteAttempt(db, ctx, ev, objectRef).0;
    if Completes(db, ctx, ev, objectRef) {
      CompleteAttemptWrites(db, ctx, ev, objectRef);
      CompleteAttemptWriteOk(db, ctx, ev, objectRef);
      KeptByWrite(db, db', CompleteAttemptWrite(db, ctx, ev, objectRef));
    } else {
      CompleteAttemptRefused(db, ctx, ev, objectRef);
      KeptByNothing(db, db');
    }
  }

  ghost function FailAttemptWrite(db: Db, a: Id, code: string): Write
    requires Inv(db) && a in db.attempts
  {
    var mid := db.attempts[a].migration;
    var row := if db.migrations[mid].currentAttempt == Some(a) then Stopped(db.migrations[mid], code)
               else db.migrations[mid];
    Write(mid, row, Some((a, FailedAttempt(db.attempts[a], code))), None, db.artifacts, None,
          db.decisions)
  }

  lemma FailAttemptWrites(db: Db, a: Id, code: string)
    requires Inv(db) && a in db.attempts && AttemptFailed in AttemptTransitions(db.attempts[a].status)
    ensures FailAttempt(db, a, code) == Put(db, FailAttemptWrite(db, a, code))
  {
    var mid := db.attempts[a].migration;
    assert RowsOk(db, mid);
    assert AttemptOk(db, a, db.attempts[a], db.migrations[mid].currentAttempt);
  }

  lemma FailAttemptWriteOk(db: Db, a: Id, code: string)
    requires Inv(db) && a in db.attempts && AttemptFailed in AttemptTransitions(db.attempts[a].status)
    ensures WriteOk(db, FailAttemptWrite(db, a, code))
  {
    var mid := db.attempts[a].migration;
    assert RowsOk(db, mid);
    assert AttemptOk(db, a, db.attempts[a], db.migrations[mid].currentAttempt);
  }

  lemma FailAttemptKeeps(db: Db, a: Id, code: string)
    requires Inv(db)
    ensures Inv(FailAttempt(db, a, code)) && Moves(db, FailAttempt(db, a, code))
  {
    if a in db.attempts && AttemptFailed in AttemptTransitions(db.attempts[a].status) {
      FailAttemptWrites(db, a, code);
      FailAttemptWriteOk(db, a, code);
      PutKeeps(db, FailAttemptWrite(db, a, code));
    }
  }

  ghost function QueuePublicationWrite(db: Db, r: PublishRequest): Write
    requires Inv(db) && QueuePublication(db, r).1.Done?
  {
    var m := db.migrations[r.migration];
    var attempt := m.currentAttempt.value;
    var ev := db.attempts[attempt].data.evidence.value;
    var existing := r.migration in db.publicationOf;
    var id := if existing then db.publicationOf[r.migration] else r.newPublication;
    var row := if existing then Requeued(db.publications[id], attempt, ev)
               else NewPublication(r, m.repository, attempt, ev);
    Write(r.migration, OpeningMigration(m, r.expected + 1), None, Some((id, row)), db.artifacts,
          Some(((Operation(r.migration, Publish), r.key),
                Stored(VersionPayload(r.expected),
                       PublishResponse(r.migration, attempt, id, r.expected + 1)))),
          db.decisions)
  }

  lemma QueuePublicationWrites(db: Db, r: PublishRequest)
    requires Inv(db) && QueuePublication(db, r).1.Done?
    ensures QueuePublication(db, r).0 == Put(db, QueuePublicationWrite(db, r))
  {
  }

  lemma QueuePublicationWriteOk(db: Db, r: PublishRequest)
    requires Inv(db) && QueuePublication(db, r).1.Done?
    ensures WriteOk(db, QueuePublicationWrite(db, r))
  {
    assert RowsOk(db, r.migration);
  }

  lemma QueuePublicationRefused(db: Db, r: PublishRequest)
    requires !QueuePublication(db, r).1.Done?
    ensures QueuePublication(db, r).0 == db
  {
  }

  lemma QueuePublicationKeeps(db: Db, r: PublishRequest)
    requires Inv(db)
    ensures Inv(QueuePublication(db, r).0) && Moves(db, QueuePublication(db, r).0)
  {
    if QueuePublication(db, r).1.Done? {
      QueuePublicationWrites(db, r);
      QueuePublicationWriteOk(db, r);
      KeptByWrite(db, QueuePublication(db, r).0, QueuePublicationWrite(db, r));
    } else {
      QueuePublicationRefused(db, r);
      KeptByNothing(db, QueuePublication(db, r).0);
    }
  }

  // A transaction that writes the publication row and perhaps its migration.
  lemma PublicationStepKeeps(db: Db, db': Db, p: Id)
    requires Inv(db) && p in db.publications && p in db'.publications
    requires db.publications[p].migration in db'.migrations
    requires var mid := db.publications[p].migration;
      var w := Write(mid, db'.migrations[mid], None, Some((p, db'.publications[p])), db.artifacts,
                     None, db.decisions);
      db' == Put(db, w) &&
      (mid in db.migrations && RowsOk(db, mid) ==> WriteOk(db, w))
    ensures Inv(db') && Moves(db, db')
  {
    var mid := db.publications[p].migration;
    assert RowsOk(db, mid);
    PutKeeps(db, Write(mid, db'.migrations[mid], None, Some((p, db'.publications[p])), db.artifacts,
                       None, db.decisions));
  }

  lemma ClaimPublicationKeeps(db: Db, p: Id)
    requires Inv(db)
    ensures Inv(ClaimPublication(db, p).0) && Moves(db, ClaimPublication(db, p).0)
  {
    var db' := ClaimPublication(db, p).0;
    if db' != db { PublicationStepKeeps(db, db', p); }
  }

  ghost function CheckpointWrite(db: Db, p: Id, c: Checkpoint): Write
    requires p in db.publications && db.publications[p].migration in db.migrations
  {
    var mid := db.publications[p].migration;
    Write(mid, db.migrations[mid], None, Some((p, Marked(db.publications[p], c))), db.artifacts, None, db.decisions)
  }

  lemma CheckpointWriteOk(db: Db, p: Id, c: Checkpoint)
    requires Inv(db) && p in db.publications && db.publications[p].status == Publishing
    ensures db.publications[p].migration in db.migrations && WriteOk(db, CheckpointWrite(db, p, c))
    ensures RecordCheckpoint(db, p, c) == Put(db, CheckpointWrite(db, p, c))
  {
    assert RowsOk(db, db.publications[p].migration);
  }

  lemma RecordCheckpointKeeps(db: Db, p: Id, c: Checkpoint)
    requires Inv(db)
    ensures Inv(RecordCheckpoint(db, p, c)) && Moves(db, RecordCheckpoint(db, p, c))
  {
    if p in db.publications && db.publications[p].status == Publishing {
      CheckpointWriteOk(db, p, c);
      KeptByWrite(db, RecordCheckpoint(db, p, c), CheckpointWrite(db, p, c));
    } else {
      KeptByNothing(db, RecordCheckpoint(db, p, c));
    }
  }

  // A publication worker holds the context its claim returned, and no transaction ever
  // moves a publication to another migration.
  ghost predicate Issued(db: Db, ctx: PublicationContext) {
    ctx.publication in db.publications ==>
      db.publications[ctx.publication].migration == ctx.record.migration
  }

  lemma CompletePublicationKeeps(db: Db, ctx: PublicationContext, result: PublicationResult)
    requires Inv(db) && Issued(db, ctx)
    ensures Inv(CompletePublication(db, ctx, result).0) && Moves(db, CompletePublication(db, ctx, result).0)
  {
    var db' := CompletePublication(db, ctx, result).0;
    if db' != db { PublicationStepKeeps(db, db', ctx.publication); }
  }

  ghost function FailPublicationWrite(db: Db, p: Id, code: string): Write
    requires p in db.publications && db.publications[p].migration in db.migrations
  {
    var mid := db.publications[p].migration;
    var m := db.migrations[mid];
    var row := db.publications[p].(status := PublicationFailed, errorCode := Some(code));
    Write(mid, if m.status == PrOpening then Stopped(m, code) else m, None, Some((p, row)), db.artifacts, None,
          db.decisions)
  }

  lemma FailPublicationWrites(db: Db, p: Id, code: string)
    requires Schema(db) && p in db.publications && db.publications[p].status == Publishing
    requires db.publications[p].migration in db.migrations
    ensures FailPublication(db, p, code) == Put(db, FailPublicationWrite(db, p, code))
  {
  }

  lemma FailPublicationWriteOk(db: Db, p: Id, code: string)
    requires Inv(db) && p in db.publications && db.publications[p].status == Publishing
    ensures db.publications[p].migration in db.migrations && WriteOk(db, FailPublicationWrite(db, p, code))
  {
    assert RowsOk(db, db.publications[p].migration);
  }

  lemma FailPublicationKeeps(db: Db, p: Id, code: string)
    requires Inv(db)
    ensures Inv(FailPublication(db, p, code)) && Moves(db, FailPublication(db, p, code))
  {
    if p in db.publications && db.publications[p].status == Publishing {
      FailPublicationWriteOk(db, p, code);
      FailPublicationWrites(db, p, code);
      KeptByWrite(db, FailPublication(db, p, code), FailPublicationWrite(db, p, code));
    } else {
      KeptByNothing(db, FailPublication(db, p, code));
    }
  }
}
