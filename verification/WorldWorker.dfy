// A publication worker's step keeps the invariant of the whole system.
module WorldWorker {
  import opened Git
  import opened Options
  import opened Remote
  import opened Rows
  import opened Transactions
  import opened Coupling
  import opened Publisher
  import opened World
  import opened WorldInvariant
  import opened WorldSteps

  // ----- What one step does to the repository -----

  // Only the worker's own branch may move, and it keeps its task.
  lemma StepTouchesOwnBranch(x: Worker, r: Repository)
    requires Publisher.Ready(x) && Step(x, r).Proceed?
    ensures var p := Step(x, r);
      && KeepsNumbered(r, p.remote)
      && (forall b | b != x.record.branch :: Head(p.remote, b) == Head(r, b))
      && p.worker.record == x.record && p.worker.evidence == x.evidence && p.worker.edits == x.edits
  {
  }

  // The row's own marks, seen from its evidence.
  ghost predicate RecordFine(created: set<Creation>, record: Publication, ev: Evidence) {
    && record.base == ev.base
    && (record.tree.Some? ==> record.tree.value == PatchedTree(ev))
    && (record.commit.Some? ==>
          record.commit.value == PatchedCommit(record.migration, ev) &&
          Creation(record.migration, record.lastAttempt, record.commit.value) in created)
  }

  // ----- What the worker makes -----

  // A step that only reads leaves what there is.
  lemma ReadMakesNothing(created: set<Creation>, x: Worker, r: Repository)
    requires MadeFine(created, x) && Step(x, r).Proceed? && Rank(x.pc) <= 3
    ensures MadeFine(created + Creates(x, Step(x, r).worker), Step(x, r).worker)
  {
  }

  lemma StepMakesTree(created: set<Creation>, x: Worker, r: Repository)
    requires MadeFine(created, x) && RecordFine(created, x.record, x.evidence)
    requires x.edits == x.evidence.patch.digest.edits
    requires Step(x, r).Proceed? && 4 <= Rank(x.pc) <= 5
    ensures MadeFine(created + Creates(x, Step(x, r).worker), Step(x, r).worker)
  {
  }

  lemma StepMakesCommit(created: set<Creation>, x: Worker, r: Repository)
    requires MadeFine(created, x) && RecordFine(created, x.record, x.evidence)
    requires x.edits == x.evidence.patch.digest.edits
    requires Step(x, r).Proceed? && 6 <= Rank(x.pc) <= 7
    ensures MadeFine(created + Creates(x, Step(x, r).worker), Step(x, r).worker)
  {
  }

  lemma StepMakesNothingMore(created: set<Creation>, x: Worker, r: Repository)
    requires MadeFine(created, x) && Step(x, r).Proceed? && 8 <= Rank(x.pc)
    ensures MadeFine(created + Creates(x, Step(x, r).worker), Step(x, r).worker)
  {
  }

  // A step makes only what the attempt's evidence calls for.
  lemma StepMakes(created: set<Creation>, x: Worker, r: Repository)
    requires MadeFine(created, x) && RecordFine(created, x.record, x.evidence)
    requires x.edits == x.evidence.patch.digest.edits && Step(x, r).Proceed?
    ensures MadeFine(created + Creates(x, Step(x, r).worker), Step(x, r).worker)
  {
    if Rank(x.pc) <= 3 { ReadMakesNothing(created, x, r); }
    else if Rank(x.pc) <= 5 { StepMakesTree(created, x, r); }
    else if Rank(x.pc) <= 7 { StepMakesCommit(created, x, r); }
    else { StepMakesNothingMore(created, x, r); }
  }

  lemma StepCreates(created: set<Creation>, x: Worker, r: Repository, c: Creation)
    requires MadeFine(created, x) && x.record.base == x.evidence.base && Step(x, r).Proceed?
    requires c in Creates(x, Step(x, r).worker)
    ensures c.migration == x.record.migration && c.attempt == x.record.lastAttempt
    ensures c.commit == PatchedCommit(c.migration, x.evidence)
  {
  }

  // ----- What the worker has seen -----

  function TouchedAfter(touched: set<(Id, Ref)>, x: Worker): set<(Id, Ref)> {
    if x.pc == ReadBranch then touched - {BranchOf(x)} else touched
  }

  lemma StepSeesReads(touched: set<(Id, Ref)>, x: Worker, r: Repository)
    requires Publisher.Ready(x) && SeenFine(r, touched, x) && Step(x, r).Proceed? && Rank(x.pc) <= 7
    ensures SeenFine(Step(x, r).remote, TouchedAfter(touched, x), Step(x, r).worker)
  {
  }

  lemma StepSeesBranch(created: set<Creation>, touched: set<(Id, Ref)>, x: Worker, r: Repository)
    requires MadeFine(created, x) && RecordFine(created, x.record, x.evidence)
    requires SeenFine(r, touched, x) && Step(x, r).Proceed? && x.pc == WriteBranch
    ensures SeenFine(Step(x, r).remote, TouchedAfter(touched, x), Step(x, r).worker)
    ensures Head(Step(x, r).remote, x.record.branch) == x.commit
  {
  }

  lemma StepSeesDraft(touched: set<(Id, Ref)>, x: Worker, r: Repository)
    requires Publisher.Ready(x) && SeenFine(r, touched, x) && DraftKept(r, x.record)
    requires Step(x, r).Proceed? && 9 <= Rank(x.pc) <= 11
    ensures SeenFine(Step(x, r).remote, TouchedAfter(touched, x), Step(x, r).worker)
  {
  }

  // The check run is of the commit: a recorded one is, because the recorded commit is the one that the
  // attempt calls for.
  lemma StepSeesCheck(created: set<Creation>, touched: set<(Id, Ref)>, x: Worker, r: Repository)
    requires MadeFine(created, x) && RecordFine(created, x.record, x.evidence)
    requires SeenFine(r, touched, x) && CheckKept(r, x.record)
    requires Step(x, r).Proceed? && 12 <= Rank(x.pc)
    ensures SeenFine(Step(x, r).remote, TouchedAfter(touched, x), Step(x, r).worker)
  {
  }

  lemma StepSees(created: set<Creation>, touched: set<(Id, Ref)>, x: Worker, r: Repository)
    requires MadeFine(created, x) && RecordFine(created, x.record, x.evidence)
    requires SeenFine(r, touched, x) && NumbersKept(r, x.record) && Step(x, r).Proceed?
    ensures SeenFine(Step(x, r).remote, TouchedAfter(touched, x), Step(x, r).worker)
  {
    if Rank(x.pc) <= 7 { StepSeesReads(touched, x, r); }
    else if x.pc == WriteBranch { StepSeesBranch(created, touched, x, r); }
    else if Rank(x.pc) <= 11 { StepSeesDraft(touched, x, r); }
    else { StepSeesCheck(created, touched, x, r); }
  }

  // ----- The checkpoint -----

  // A checkpoint marks what the worker has made.
  ghost predicate MarksWhatIsMade(x: Worker, c: Checkpoint) {
    match c
    case TreeCheckpoint(tree) => x.tree == Some(tree)
    case CommitCheckpoint(commit) => x.commit == Some(commit)
    case BranchCheckpoint(head) => x.commit == Some(head)
    case PullCheckpoint(pull) => x.pull == Some(pull) && Rank(x.pc) >= 11
    case CheckCheckpoint(check) => x.check == Some(check) && Rank(x.pc) >= 13
  }

  lemma StepMarks(x: Worker, r: Repository)
    requires Publisher.Ready(x) && Step(x, r).Proceed? && Step(x, r).checkpoint.Some?
    ensures MarksWhatIsMade(x, Step(x, r).checkpoint.value)
    ensures Step(x, r).remote == r
  {
  }

  lemma MarkKeepsRow(w: World, x: Worker, r: Repository, touched: set<(Id, Ref)>, row: Publication,
                     c: Checkpoint, recorded: set<RecordedHead>)
    requires JobFine(w.db.attempts, row) && MarksFine(w.db.attempts, w.created, w.recorded, row)
    requires NumbersKept(r, row) && row.status == Publishing && SameJob(x.record, row) && CommitRecorded(x, row)
    requires JobFine(w.db.attempts, x.record) && x.evidence == w.db.attempts[row.lastAttempt].data.evidence.value
    requires MadeFine(w.created, x) && SeenFine(r, touched, x)
    requires MarksWhatIsMade(x, c)
    requires recorded == w.recorded + Records(x, Some(c))
    ensures var row' := Marked(row, c);
      && SameJob(x.record, row') && row'.status == Publishing
      && JobFine(w.db.attempts, row') && NumbersKept(r, row')
      && MarksFine(w.db.attempts, w.created, recorded, row')
  {
  }

  // ----- The step in its world -----

  // Two publications never share a branch.
  lemma BranchesAreSeparate(w: World, p: Id, q: Id)
    requires Schema(w.db) && p != q && p in w.workers && q in w.workers
    requires WorkerFine(w, p, w.workers[p]) && WorkerFine(w, q, w.workers[q])
    ensures w.workers[p].record.branch != w.workers[q].record.branch
  {
    assert w.db.publicationOf[w.db.publications[p].migration] == p;
  }

  lemma ProceedRemotes(w: World, p: Id, x: Worker, x': Worker, r': Repository, c: Option<Checkpoint>)
    requires p in w.workers && x == w.workers[p]
    requires KeepsNumbered(RemoteFor(w, x.record), r')
    requires forall b | b != x.record.branch :: Head(r', b) == Head(RemoteFor(w, x.record), b)
    requires forall q | q in w.workers && q != p :: w.workers[q].record.branch != x.record.branch
    ensures var w' := Proceeds(w, p, x, x', r', c);
      && (forall id {:trigger RemoteOf(w', id)} :: KeepsNumbered(RemoteOf(w, id), RemoteOf(w', id)))
      && (forall q | q in w'.workers && q != p ::
            q in w.workers && w'.workers[q] == w.workers[q] && Undisturbed(w, w', q))
  {
  }

  lemma ProceedConcerns(w: World, p: Id, x: Worker, x': Worker, r': Repository, c: Option<Checkpoint>)
    requires p in w.workers && x == w.workers[p] && p in w.db.publications
    requires KeepsNumbered(RemoteFor(w, x.record), r')
    requires forall b | b != x.record.branch :: Head(r', b) == Head(RemoteFor(w, x.record), b)
    requires forall q | q in w.workers && q != p :: w.workers[q].record.branch != x.record.branch
    ensures Concerns(w, Proceeds(w, p, x, x', r', c), p)
  {
    ProceedRemotes(w, p, x, x', r', c);
  }

  lemma ProceedHistory(w: World, p: Id)
    requires p in w.workers && WorkerFine(w, p, w.workers[p])
    requires var x := w.workers[p]; Step(x, RemoteFor(w, x.record)).Proceed?
    ensures var x := w.workers[p];
      var s := Step(x, RemoteFor(w, x.record));
      HistoryFine(w, Proceeds(w, p, x, s.worker, s.remote, s.checkpoint))
  {
    var x := w.workers[p];
    var r := RemoteFor(w, x.record);
    var s := Step(x, r);
    var w' := Proceeds(w, p, x, s.worker, s.remote, s.checkpoint);
    forall c | c in w'.created && c !in w.created ensures CommitFine(w'.db.attempts, c) {
      StepCreates(w.created, x, r, c);
    }
    forall h | h in w'.recorded && h !in w.recorded ensures HeadFine(w'.created, h) {
      StepMarks(x, r);
      assert Creation(x.record.migration, x.record.lastAttempt, x.commit.value) in w'.created;
    }
  }

  lemma StepRecordsCommit(x: Worker, r: Repository, row: Publication)
    requires Publisher.Ready(x) && Step(x, r).Proceed? && CommitRecorded(x, row)
    ensures var s := Step(x, r);
      CommitRecorded(s.worker, if s.checkpoint.Some? then Marked(row, s.checkpoint.value) else row)
  {
  }

  // The row after a step: as it was, or with what the worker has made marked in it.
  lemma StepRow(w: World, x: Worker, row: Publication)
    requires RowFine(w, row) && row.status == Publishing && SameJob(x.record, row)
    requires JobFine(w.db.attempts, x.record) && TaskFine(w.db.attempts, x) && MadeFine(w.created, x)
    requires SeenFine(RemoteFor(w, x.record), w.touched, x) && Step(x, RemoteFor(w, x.record)).Proceed?
    requires CommitRecorded(x, row)
    ensures var s := Step(x, RemoteFor(w, x.record));
      var row' := if s.checkpoint.Some? then Marked(row, s.checkpoint.value) else row;
      && SameJob(x.record, row') && row'.status == Publishing && CommitRecorded(s.worker, row')
      && JobFine(w.db.attempts, row') && NumbersKept(s.remote, row')
      && MarksFine(w.db.attempts, w.created, w.recorded + Records(x, s.checkpoint), row')
  {
    var r := RemoteFor(w, x.record);
    var s := Step(x, r);
    StepTouchesOwnBranch(x, r);
    StepRecordsCommit(x, r, row);
    if s.checkpoint.Some? {
      StepMarks(x, r);
      MarkKeepsRow(w, x, r, w.touched, row, s.checkpoint.value, w.recorded + Records(x, s.checkpoint));
    }
  }

  lemma ProceedRow(w: World, p: Id)
    requires p in w.workers && WorkerFine(w, p, w.workers[p]) && RowFine(w, w.db.publications[p])
    requires var x := w.workers[p]; Step(x, RemoteFor(w, x.record)).Proceed?
    ensures var x := w.workers[p];
      var s := Step(x, RemoteFor(w, x.record));
      var w' := Proceeds(w, p, x, s.worker, s.remote, s.checkpoint);
      && p in w'.db.publications && RowFine(w', w'.db.publications[p])
      && w'.db.publications[p].status == Publishing && SameJob(x.record, w'.db.publications[p])
      && CommitRecorded(s.worker, w'.db.publications[p])
  {
    StepRow(w, w.workers[p], w.db.publications[p]);
    CreatedGrow(w, p);
  }

  // What a row has recorded stays recorded when more is created.
  lemma CreatedGrow(w: World, p: Id)
    requires p in w.workers
    requires Publisher.Ready(w.workers[p]) && Step(w.workers[p], RemoteFor(w, w.workers[p].record)).Proceed?
    ensures var x := w.workers[p];
      var s := Step(x, RemoteFor(w, x.record));
      w.created <= Proceeds(w, p, x, s.worker, s.remote, s.checkpoint).created
  {
  }

  lemma ProceedWorker(w: World, p: Id)
    requires p in w.workers && WorkerFine(w, p, w.workers[p])
    requires var x := w.workers[p]; Step(x, RemoteFor(w, x.record)).Proceed?
    requires var x := w.workers[p];
      var s := Step(x, RemoteFor(w, x.record));
      var w' := Proceeds(w, p, x, s.worker, s.remote, s.checkpoint);
      && p in w'.db.publications && w'.db.publications[p].status == Publishing
      && SameJob(x.record, w'.db.publications[p]) && CommitRecorded(s.worker, w'.db.publications[p])
    ensures var x := w.workers[p];
      var s := Step(x, RemoteFor(w, x.record));
      WorkerFine(Proceeds(w, p, x, s.worker, s.remote, s.checkpoint), p, s.worker)
  {
    var x := w.workers[p];
    var r := RemoteFor(w, x.record);
    StepTouchesOwnBranch(x, r);
    StepMakes(w.created, x, r);
    StepSees(w.created, w.touched, x, r);
  }

  lemma ProceedKeeps(w: World, p: Id)
    requires PublishingOk(w) && Schema(w.db) && p in w.workers && Publisher.Ready(w.workers[p])
    requires var x := w.workers[p]; Step(x, RemoteFor(w, x.record)).Proceed?
    ensures PublishingOk(StepWorker(w, p))
  {
    var x := w.workers[p];
    var r := RemoteFor(w, x.record);
    var s := Step(x, r);
    assert WorkerFine(w, p, x);
    assert RowFine(w, w.db.publications[p]);
    StepTouchesOwnBranch(x, r);
    forall q | q in w.workers && q != p ensures w.workers[q].record.branch != x.record.branch {
      assert WorkerFine(w, q, w.workers[q]);
      BranchesAreSeparate(w, p, q);
    }
    ProceedConcerns(w, p, x, s.worker, s.remote, s.checkpoint);
    ProceedHistory(w, p);
    ProceedRow(w, p);
    ProceedWorker(w, p);
    OnePublicationKeeps(w, StepWorker(w, p), p);
  }

  // ----- The end of a publication -----

  // The row is still the one the migration waits for, so completing it cannot be refused.
  lemma FinishIsAccepted(w: World, p: Id, result: PublicationResult)
    requires Inv(w.db) && p in w.workers && WorkerFine(w, p, w.workers[p])
    ensures var x := w.workers[p];
      var (db', o) := CompletePublication(w.db, PublicationContext(p, x.record), result);
      && o.Done? && Issued(w.db, PublicationContext(p, x.record))
      && p in w.db.publications
      && db'.publications == w.db.publications[p := PublishedRow(w.db.publications[p], result)]
      && db'.attempts == w.db.attempts && db'.artifacts == w.db.artifacts
  {
    assert RowsOk(w.db, w.db.publications[p].migration);
  }

  lemma FinishMarks(w: World, p: Id)
    requires p in w.workers && WorkerFine(w, p, w.workers[p]) && RowFine(w, w.db.publications[p])
    requires w.workers[p].pc == Finish
    ensures var x, row := w.workers[p], w.db.publications[p];
      var result := PublicationResult(x.tree.value, x.commit.value, x.pull.value, x.check.value);
      var row' := PublishedRow(row, result);
      && JobFine(w.db.attempts, row') && NumbersKept(RemoteFor(w, row'), row')
      && MarksFine(w.db.attempts, w.created,
                   w.recorded + {RecordedHead(x.record.migration, result.commit)}, row')
  {
  }

  lemma FinishConcerns(w: World, p: Id, x: Worker, result: PublicationResult, row: Publication)
    requires p in w.workers && x == w.workers[p] && p in w.db.publications
    requires var db' := CompletePublication(w.db, PublicationContext(p, x.record), result).0;
      && db'.publications == w.db.publications[p := row]
      && db'.attempts == w.db.attempts && db'.artifacts == w.db.artifacts
    ensures Concerns(w, Finishes(w, p, x, result), p)
  {
  }

  lemma FinishFine(w: World, p: Id)
    requires Inv(w.db) && p in w.workers && WorkerFine(w, p, w.workers[p])
    requires RowFine(w, w.db.publications[p]) && w.workers[p].pc == Finish
    ensures var w' := StepWorker(w, p);
      && Concerns(w, w', p) && HistoryFine(w, w') && p !in w'.workers
      && RowFine(w', w'.db.publications[p])
  {
    var x, row := w.workers[p], w.db.publications[p];
    var result := PublicationResult(x.tree.value, x.commit.value, x.pull.value, x.check.value);
    FinishIsAccepted(w, p, result);
    FinishMarks(w, p);
    FinishConcerns(w, p, x, result, PublishedRow(row, result));
    assert Creation(x.record.migration, x.record.lastAttempt, x.commit.value) in w.created;
  }

  lemma FinishKeeps(w: World, p: Id)
    requires Inv(w.db) && PublishingOk(w)
    requires p in w.workers && w.workers[p].pc == Finish && Publisher.Ready(w.workers[p])
    ensures PublishingOk(StepWorker(w, p))
  {
    assert WorkerFine(w, p, w.workers[p]);
    assert RowFine(w, w.db.publications[p]);
    FinishFine(w, p);
    OnePublicationKeeps(w, StepWorker(w, p), p);
  }

  lemma WorkerKeepsPublishing(w: World, p: Id)
    requires WorldOk(w) && p in w.workers && Publisher.Ready(w.workers[p])
    ensures PublishingOk(StepWorker(w, p))
  {
    var x := w.workers[p];
    match Step(x, RemoteFor(w, x.record))
    case Proceed(_, _, _) => ProceedKeeps(w, p);
    case Fail(_) => DeathKeeps(w, p);
    case Finished(_) => FinishKeeps(w, p);
  }

  lemma WorkerKeepsDatabase(w: World, p: Id)
    requires Inv(w.db) && p in w.workers && WorkerFine(w, p, w.workers[p])
    ensures Inv(StepWorker(w, p).db)
  {
    var x := w.workers[p];
    match Step(x, RemoteFor(w, x.record))
    case Proceed(_, _, c) => if c.Some? { RecordCheckpointKeeps(w.db, p, c.value); }
    case Fail(_) =>
    case Finished(result) =>
      FinishIsAccepted(w, p, result);
      CompletePublicationKeeps(w.db, PublicationContext(p, x.record), result);
  }
}
