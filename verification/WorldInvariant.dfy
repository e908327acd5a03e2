// What is true of the whole system after any run, and that every happening keeps it.
module WorldInvariant {
  import opened Artifacts
  import opened Git
  import opened Lifecycle
  import opened Remote
  import opened Rows
  import opened Coupling
  import opened Verification
  import opened Publisher
  import opened World

  // ----- What an attempt's evidence says should be published -----

  function PatchedTree(ev: Evidence): Tree {
    Overlay(ev.base.tree, ev.patch.digest.edits)
  }

  function PatchedCommit(migration: Id, ev: Evidence): Commit {
    Commit(PatchedTree(ev), [ev.base], MigrationMessage(migration), ev.completedAt)
  }

  // ----- The parts of the invariant -----

  ghost predicate ObjectsFine(objects: map<string, string>, artifacts: map<(Id, Id), Artifact>) {
    forall k | k in artifacts ::
      artifacts[k].objectRef in objects && objects[artifacts[k].objectRef] == Render(artifacts[k].digest.edits)
  }

  ghost predicate GenerationFine(generations: map<Id, Generation>, a: Id, row: Attempt) {
    row.status == AttemptCompleted && row.data.evidence.Some? ==>
      a in generations && Concludes(generations[a]) &&
      row.data.evidence.value == EvidenceOf(generations[a], row.data.evidence.value.patch.artifact)
  }

  // A created commit is the one its attempt's evidence calls for, and the attempt is verified.
  ghost predicate CommitFine(attempts: map<Id, Attempt>, c: Creation) {
    && c.attempt in attempts && attempts[c.attempt].migration == c.migration
    && Verified(attempts[c.attempt])
    && c.commit == PatchedCommit(c.migration, attempts[c.attempt].data.evidence.value)
    && DistinctPaths(attempts[c.attempt].data.evidence.value.patch.digest.edits)
  }

  ghost predicate HeadFine(created: set<Creation>, h: RecordedHead) {
    exists a :: Creation(h.migration, a, h.head) in created
  }

  // The row is of a verified attempt.
  ghost predicate JobFine(attempts: map<Id, Attempt>, row: Publication) {
    && row.lastAttempt in attempts
    && PublicationRowOk(row, row.migration, attempts[row.lastAttempt])
  }

  // What the row has recorded is what that attempt calls for.
  ghost predicate MarksFine(
    attempts: map<Id, Attempt>, created: set<Creation>, recorded: set<RecordedHead>, row: Publication)
    requires JobFine(attempts, row)
  {
    var ev := attempts[row.lastAttempt].data.evidence.value;
    && (row.tree.Some? ==> row.tree.value == PatchedTree(ev))
    && (row.commit.Some? ==>
          row.commit.value == PatchedCommit(row.migration, ev) &&
          Creation(row.migration, row.lastAttempt, row.commit.value) in created)
    && (row.remoteHead.Some? ==> RecordedHead(row.migration, row.remoteHead.value) in recorded)
    && (row.status == Published ==>
          row.tree.Some? && row.commit.Some? && row.pull.Some? && row.check.Some? &&
          row.remoteHead == row.commit)
  }

  ghost predicate DraftKept(r: Repository, row: Publication) {
    row.pull.Some? ==> HasPull(r, row.pull.value) && r.pulls[row.pull.value - 1].branch == row.branch
  }

  // A recorded check run is one of the recorded commit, for the row's migration and its last attempt.
  ghost predicate CheckKept(r: Repository, row: Publication) {
    row.check.Some? ==>
      && row.commit.Some? && 1 <= row.check.value <= |r.checks|
      && r.checks[row.check.value - 1].head == row.commit.value
      && r.checks[row.check.value - 1].migration == row.migration
      && r.checks[row.check.value - 1].attempt == row.lastAttempt
  }

  // The draft and the check run that are recorded are there.
  ghost predicate NumbersKept(r: Repository, row: Publication) {
    DraftKept(r, row) && CheckKept(r, row)
  }

  ghost predicate RowFine(w: World, row: Publication) {
    JobFine(w.db.attempts, row) && MarksFine(w.db.attempts, w.created, w.recorded, row) &&
    NumbersKept(RemoteFor(w, row), row)
  }

  ghost predicate SameJob(record: Publication, row: Publication) {
    && record.migration == row.migration && record.repository == row.repository
    && record.lastAttempt == row.lastAttempt && record.branch == row.branch
    && record.base == row.base && record.patch == row.patch
  }

  // What a worker was given is its attempt's.
  ghost predicate TaskFine(attempts: map<Id, Attempt>, x: Worker)
    requires JobFine(attempts, x.record)
  {
    && x.evidence == attempts[x.record.lastAttempt].data.evidence.value
    && x.edits == x.evidence.patch.digest.edits
    && DistinctPaths(x.edits)
  }

  // What a worker has made is what its attempt calls for.
  ghost predicate MadeFine(created: set<Creation>, x: Worker) {
    && Publisher.Ready(x)
    && (x.tree.Some? ==> x.tree.value == PatchedTree(x.evidence))
    && (x.commit.Some? ==>
          x.commit.value == PatchedCommit(x.record.migration, x.evidence) &&
          Creation(x.record.migration, x.record.lastAttempt, x.commit.value) in created)
  }

  // What a worker has read or written is still so.
  ghost predicate SeenFine(r: Repository, touched: set<(Id, Ref)>, x: Worker) {
    && (Exposed(x) ==>
          x.head == Head(r, x.record.branch) &&
          if x.record.pull.None? then x.head.None? || x.head == x.record.commit
          else x.head == x.record.remoteHead || x.head == x.record.commit)
    && (Rank(x.pc) >= 9 && BranchOf(x) !in touched ==> Head(r, x.record.branch) == x.commit)
    && (Rank(x.pc) >= 11 ==> DraftKept(r, x.record.(pull := x.pull)))
    && (Rank(x.pc) >= 13 ==> CheckKept(r, x.record.(commit := x.commit, check := x.check)))
  }

  // Once the worker has its commit, the row has recorded one.
  ghost predicate CommitRecorded(x: Worker, row: Publication) {
    x.record.commit.Some? || Rank(x.pc) >= 8 ==> row.commit.Some?
  }

  ghost predicate WorkerFine(w: World, p: Id, x: Worker) {
    && p in w.db.publications
    && w.db.publications[p].status == Publishing && x.record.status == Publishing
    && x.record.errorCode.None?
    && SameJob(x.record, w.db.publications[p]) && CommitRecorded(x, w.db.publications[p])
    && RowFine(w, x.record)
    && TaskFine(w.db.attempts, x)
    && MadeFine(w.created, x)
    && SeenFine(RemoteFor(w, x.record), w.touched, x)
  }

  ghost predicate PublishingOk(w: World) {
    && ObjectsFine(w.objects, w.db.artifacts)
    && (forall a {:trigger GenerationFine(w.generations, a, w.db.attempts[a])} |
          a in w.db.attempts :: GenerationFine(w.generations, a, w.db.attempts[a]))
    && (forall c {:trigger CommitFine(w.db.attempts, c)} | c in w.created :: CommitFine(w.db.attempts, c))
    && (forall h {:trigger HeadFine(w.created, h)} | h in w.recorded :: HeadFine(w.created, h))
    && (forall p {:trigger RowFine(w, w.db.publications[p])} |
          p in w.db.publications :: RowFine(w, w.db.publications[p]))
    && (forall p {:trigger WorkerFine(w, p, w.workers[p])} |
          p in w.workers :: WorkerFine(w, p, w.workers[p]))
  }

  ghost predicate WorldOk(w: World) {
    Inv(w.db) && PublishingOk(w)
  }

  // ----- What stays when the database moves on -----

  ghost predicate FinalKept(attempts: map<Id, Attempt>, attempts': map<Id, Attempt>) {
    forall a {:trigger Final(attempts[a])} | a in attempts && Final(attempts[a]) ::
      a in attempts' && attempts'[a] == attempts[a]
  }

  // Everything the rows and the workers rely on, from one world to the next.
  ghost predicate Extends(w: World, w': World) {
    && FinalKept(w.db.attempts, w'.db.attempts)
    && w.created <= w'.created
    && w.recorded <= w'.recorded
    && (forall id {:trigger RemoteOf(w', id)} :: KeepsNumbered(RemoteOf(w, id), RemoteOf(w', id)))
  }

  lemma RowStaysFine(w: World, w': World, row: Publication)
    requires Extends(w, w') && RowFine(w, row)
    ensures RowFine(w', row)
  {
    assert Final(w.db.attempts[row.lastAttempt]);
    assert KeepsNumbered(RemoteFor(w, row), RemoteFor(w', row));
  }

  // A worker nobody interferes with: its row is still being published, and its branch is where it
  // was unless somebody touched it outside the exposed part.
  lemma WorkerStaysFine(w: World, w': World, p: Id, x: Worker)
    requires Extends(w, w') && WorkerFine(w, p, x)
    requires p in w'.db.publications && w'.db.publications[p].status == Publishing
    requires SameJob(x.record, w'.db.publications[p])
    requires w.db.publications[p].commit.Some? ==> w'.db.publications[p].commit.Some?
    requires var r, r' := RemoteFor(w, x.record), RemoteFor(w', x.record);
      Head(r', x.record.branch) == Head(r, x.record.branch) || (!Exposed(x) && BranchOf(x) in w'.touched)
    requires BranchOf(x) in w.touched ==> BranchOf(x) in w'.touched
    ensures WorkerFine(w', p, x)
  {
    assert Final(w.db.attempts[x.record.lastAttempt]);
    RowStaysFine(w, w', x.record);
    assert KeepsNumbered(RemoteFor(w, x.record), RemoteFor(w', x.record));
  }

  lemma CreatedStayFine(w: World, w': World, c: Creation)
    requires Extends(w, w') && CommitFine(w.db.attempts, c)
    ensures CommitFine(w'.db.attempts, c)
  {
    assert Final(w.db.attempts[c.attempt]);
  }

  lemma HeadsStayFine(w: World, w': World, h: RecordedHead)
    requires Extends(w, w') && HeadFine(w.created, h)
    ensures HeadFine(w'.created, h)
  {
    var a :| Creation(h.migration, a, h.head) in w.created;
    assert Creation(h.migration, a, h.head) in w'.created;
  }

  // An attempt that is not completed now was not completed before, or is the one just completed.
  lemma GenerationsStayFine(w: World, w': World, a: Id)
    requires PublishingOk(w) && Extends(w, w') && w'.generations == w.generations
    requires a in w'.db.attempts
    requires w'.db.attempts[a].status == AttemptCompleted ==>
               a in w.db.attempts && w.db.attempts[a].status == AttemptCompleted
    ensures GenerationFine(w'.generations, a, w'.db.attempts[a])
  {
    if w'.db.attempts[a].status == AttemptCompleted {
      assert Final(w.db.attempts[a]);
      assert GenerationFine(w.generations, a, w.db.attempts[a]);
    }
  }
}
