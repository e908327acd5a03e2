// One publication as a sequence of steps, each of which makes at most one remote write or one
// checkpoint, so that the worker may stop between any two of them.
module Publisher {
  import opened Git
  import opened Options
  import opened Remote
  import opened Rows
  import opened Transactions

  datatype Error =
    | Obstructed(code: string) | ArtifactCorrupt | ArtifactMissing | ArtifactRefused
    | StaleBase | BranchCollision | RemoteConflict | ApiError

  datatype Pc =
    | ReadBase | ReadPull | ReadBranch | ReadTree
    | PostTree | MarkTree | PostCommit | MarkCommit
    | WriteBranch | MarkBranch | WritePull | MarkPull | PostCheck | MarkCheck | Finish

  // The position of a point in the sequence.
  function Rank(pc: Pc): nat {
    match pc
    case ReadBase => 0 case ReadPull => 1 case ReadBranch => 2 case ReadTree => 3
    case PostTree => 4 case MarkTree => 5 case PostCommit => 6 case MarkCommit => 7
    case WriteBranch => 8 case MarkBranch => 9 case WritePull => 10 case MarkPull => 11
    case PostCheck => 12 case MarkCheck => 13 case Finish => 14
  }

  // `record` is the row as it was claimed; the other fields are what this run has found or made.
  datatype Worker = Worker(
    pc: Pc, record: Publication, evidence: Evidence, edits: seq<Edit>, head: Option<Commit>,
    tree: Option<Tree>, commit: Option<Commit>, pull: Option<nat>, check: Option<nat>)

  datatype Progress =
    | Proceed(worker: Worker, remote: Repository, checkpoint: Option<Checkpoint>)
    | Fail(error: Error)
    | Finished(result: PublicationResult)

  function Start(record: Publication, evidence: Evidence, edits: seq<Edit>): Worker {
    Worker(ReadBase, record, evidence, edits, None, None, None, None, None)
  }

  function CommitFor(record: Publication, evidence: Evidence, tree: Tree): Commit {
    Commit(tree, [record.base], MigrationMessage(record.migration), evidence.completedAt)
  }

  function Go(w: Worker, r: Repository): Progress { Proceed(w, r, None) }

  function Mark(w: Worker, r: Repository, c: Checkpoint): Progress { Proceed(w, r, Some(c)) }

  // The draft the record names must be open, a draft, and where this publisher left it.
  predicate DraftUntouched(r: Repository, record: Publication) {
    record.pull.Some? ==>
      HasPull(r, record.pull.value) && r.pulls[record.pull.value - 1].open &&
      r.pulls[record.pull.value - 1].draft && PullHead(r, record.pull.value) == record.remoteHead
  }

  function BranchStep(w: Worker, r: Repository): Progress {
    var head := Head(r, w.record.branch);
    if w.record.pull.None? && head.Some? && head != w.record.commit then Fail(BranchCollision)
    else if w.record.pull.Some? && head != w.record.remoteHead && head != w.record.commit
    then Fail(RemoteConflict)
    else Go(w.(pc := ReadTree, head := head), r)
  }

  function WriteBranchStep(w: Worker, r: Repository): Progress
    requires w.commit.Some?
  {
    var branch := w.record.branch;
    if w.record.pull.None? then
      if w.head.None? then
        var created := CreateRef(r, branch, w.commit.value);
        if created.None? then Fail(ApiError) else Go(w.(pc := MarkBranch), created.value)
      else if w.record.remoteHead != w.commit then Go(w.(pc := MarkBranch), r)
      else Go(w.(pc := WritePull), r)
    else if w.head != w.commit then
      var moved := ForceRef(r, branch, w.commit.value);
      if moved.None? then Fail(ApiError) else Go(w.(pc := MarkBranch), moved.value)
    else Go(w.(pc := WritePull), r)
  }

  function WritePullStep(w: Worker, r: Repository): Progress {
    if w.record.pull.None? then
      var drafted := OpenDraft(r, w.record.branch, w.evidence.baseBranch);
      if drafted.None? then Fail(ApiError)
      else Go(w.(pc := MarkPull, pull := Some(|drafted.value.pulls|)), drafted.value)
    else if !HasPull(r, w.record.pull.value) || PullHead(r, w.record.pull.value) != w.commit
    then Fail(RemoteConflict)
    else Go(w.(pc := MarkPull, pull := w.record.pull), r)
  }

  // What a worker at a given point must have made already: the tree from MarkTree on, the commit
  // from MarkCommit on, the draft from MarkPull on, the check from MarkCheck on.
  predicate Ready(w: Worker) {
    && (Rank(w.pc) >= 5 ==> w.tree.Some?)
    && (Rank(w.pc) >= 7 ==> w.commit.Some?)
    && (Rank(w.pc) >= 11 ==> w.pull.Some?)
    && (Rank(w.pc) >= 13 ==> w.check.Some?)
  }

  function Step(w: Worker, r: Repository): (p: Progress)
    requires Ready(w)
    ensures p.Proceed? ==> Ready(p.worker)
  {
    match w.pc
    case ReadBase =>
      if Head(r, OtherBranch(w.evidence.baseBranch)) != Some(w.record.base) then Fail(StaleBase)
      else Go(w.(pc := ReadPull), r)
    case ReadPull =>
      if !DraftUntouched(r, w.record) then Fail(RemoteConflict) else Go(w.(pc := ReadBranch), r)
    case ReadBranch => BranchStep(w, r)
    case ReadTree =>
      if exists i | 0 <= i < |w.edits| :: !EditFits(w.record.base.tree, w.edits[i])
      then Fail(RemoteConflict)
      else Go(w.(pc := PostTree), r)
    case PostTree =>
      if w.record.tree.Some? then Go(w.(pc := PostCommit, tree := w.record.tree), r)
      else Go(w.(pc := MarkTree, tree := Some(Overlay(w.record.base.tree, w.edits))), r)
    case MarkTree => Mark(w.(pc := PostCommit), r, TreeCheckpoint(w.tree.value))
    case PostCommit =>
      if w.record.commit.Some? then Go(w.(pc := WriteBranch, commit := w.record.commit), r)
      else Go(w.(pc := MarkCommit, commit := Some(CommitFor(w.record, w.evidence, w.tree.value))), r)
    case MarkCommit => Mark(w.(pc := WriteBranch), r, CommitCheckpoint(w.commit.value))
    case WriteBranch => WriteBranchStep(w, r)
    case MarkBranch => Mark(w.(pc := WritePull), r, BranchCheckpoint(w.commit.value))
    case WritePull => WritePullStep(w, r)
    case MarkPull => Mark(w.(pc := PostCheck), r, PullCheckpoint(w.pull.value))
    case PostCheck =>
      if w.record.check.Some? then Go(w.(pc := Finish, check := w.record.check), r)
      else
        var check := CheckRun(w.commit.value, w.record.migration, w.record.lastAttempt);
        Go(w.(pc := MarkCheck, check := Some(|r.checks| + 1)), AddCheck(r, check))
    case MarkCheck => Mark(w.(pc := Finish), r, CheckCheckpoint(w.check.value))
    case Finish =>
      Finished(PublicationResult(w.tree.value, w.commit.value, w.pull.value, w.check.value))
  }

  // ----- A whole run -----

  // A run that is under way, or has failed, or has ended, with the repository and the row it left.
  datatype Stage =
    | Running(worker: Worker, remote: Repository, row: Publication)
    | Aborted(error: Error, remote: Repository, row: Publication)
    | Ended(result: PublicationResult, remote: Repository, row: Publication)

  predicate StageOk(s: Stage) { s.Running? ==> Ready(s.worker) }

  function StepStage(s: Stage): (s': Stage)
    requires StageOk(s)
    ensures StageOk(s')
    ensures s.Running? && s'.Running? ==> Rank(s'.worker.pc) > Rank(s.worker.pc)
  {
    match s
    case Running(w, r, row) =>
      (match Step(w, r)
       case Proceed(w', r', None) => Running(w', r', row)
       case Proceed(w', r', Some(c)) => Running(w', r', Marked(row, c))
       case Fail(e) => Aborted(e, r, row)
       case Finished(result) => Ended(result, r, row))
    case _ => s
  }

  function RunStage(s: Stage, steps: nat): (s': Stage)
    requires StageOk(s)
    ensures StageOk(s')
  {
    if steps == 0 then s else StepStage(RunStage(s, steps - 1))
  }

  // An uninterrupted run has at most fifteen steps.
  const ALL_STEPS: nat := 15

  function Complete(s: Stage): Stage
    requires StageOk(s)
  {
    RunStage(s, ALL_STEPS)
  }

  lemma {:induction false} RunsAdvance(s: Stage, steps: nat)
    requires StageOk(s)
    ensures var s' := RunStage(s, steps);
      s'.Running? ==> s.Running? && Rank(s'.worker.pc) >= Rank(s.worker.pc) + steps
  {
    if steps > 0 { RunsAdvance(s, steps - 1); }
  }

  lemma RunsTerminate(s: Stage)
    requires StageOk(s)
    ensures !Complete(s).Running?
  {
    RunsAdvance(s, ALL_STEPS);
  }
}
