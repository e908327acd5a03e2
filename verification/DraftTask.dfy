// The publisher as it runs: one straight sequence of reads, remote writes and checkpoints over a
// mutable repository and a mutable database, and the job around it.
module DraftTask {
  import opened Artifacts
  import opened Database
  import opened Git
  import opened Options
  import opened Lifecycle
  import opened Remote
  import opened Rows
  import opened Text
  import opened Transactions
  import opened Coupling
  import opened Publisher
  import opened Convergence

  datatype Result = Ok(result: PublicationResult) | Err(error: Error)

  class Hub {
    var repository: Repository

    constructor (r: Repository)
      ensures repository == r
    {
      repository := r;
    }
  }

  // ----- Following the steps -----

  ghost predicate StepsAt(t: seq<Stage>, i: int)
    requires 0 <= i < |t| - 1
  {
    StageOk(t[i]) && t[i + 1] == StepStage(t[i])
  }

  ghost predicate IsTrace(t: seq<Stage>) {
    t != [] && forall i {:trigger StepsAt(t, i)} | 0 <= i < |t| - 1 :: StepsAt(t, i)
  }

  ghost predicate Traced(t: seq<Stage>, from: Stage, to: Stage) {
    IsTrace(t) && t[0] == from && t[|t| - 1] == to
  }

  lemma TracesCompose(t: seq<Stage>, u: seq<Stage>, a: Stage, b: Stage, c: Stage)
    requires Traced(t, a, b) && Traced(u, b, c)
    ensures Traced(t + u[1..], a, c)
  {
    var all := t + u[1..];
    forall i | 0 <= i < |all| - 1 ensures StepsAt(all, i) {
      if i < |t| - 1 {
        assert StepsAt(t, i) && all[i] == t[i] && all[i + 1] == t[i + 1];
      } else {
        assert StepsAt(u, i - |t| + 1);
      }
    }
  }

  lemma {:induction false} TraceRuns(t: seq<Stage>, n: nat)
    requires IsTrace(t) && StageOk(t[0]) && n < |t|
    ensures RunStage(t[0], n) == t[n]
  {
    if n > 0 {
      TraceRuns(t, n - 1);
      assert StepsAt(t, n - 1);
      RunsOneMore(t[0], n - 1);
    }
  }

  lemma RunsOneMore(s: Stage, n: nat)
    requires StageOk(s)
    ensures RunStage(s, n + 1) == StepStage(RunStage(s, n))
  {
  }

  lemma {:induction false} StoppedRunsStay(s: Stage, n: nat, m: nat)
    requires StageOk(s) && !RunStage(s, n).Running? && n <= m
    ensures RunStage(s, m) == RunStage(s, n)
    decreases m - n
  {
    if n < m { StoppedRunsStay(s, n, m - 1); }
  }

  // A trace that ends is the whole run.
  lemma TraceIsComplete(t: seq<Stage>, from: Stage, to: Stage)
    requires Traced(t, from, to) && StageOk(from) && !to.Running?
    ensures Complete(from) == to
  {
    var n := |t| - 1;
    TraceRuns(t, n);
    RunsTerminate(from);
    if n <= ALL_STEPS { StoppedRunsStay(from, n, ALL_STEPS); } else { StoppedRunsStay(from, ALL_STEPS, n); }
  }

  // The run of `from` passes through `to`.
  ghost predicate LeadsTo(from: Stage, to: Stage) {
    exists t: seq<Stage> :: Traced(t, from, to)
  }

  lemma LeadsOn(a: Stage, b: Stage, c: Stage)
    requires LeadsTo(a, b) && LeadsTo(b, c)
    ensures LeadsTo(a, c)
  {
    var t: seq<Stage> :| Traced(t, a, b);
    var u: seq<Stage> :| Traced(u, b, c);
    TracesCompose(t, u, a, b, c);
  }

  lemma OneStep(s: Stage)
    requires StageOk(s)
    ensures LeadsTo(s, StepStage(s))
  {
    var t := [s, StepStage(s)];
    assert StepsAt(t, 0);
    assert Traced(t, s, StepStage(s));
  }

  lemma OneMoreStep(s: Stage, t: Stage)
    requires LeadsTo(s, t) && StageOk(t)
    ensures LeadsTo(s, StepStage(t))
  {
    OneStep(t);
    LeadsOn(s, t, StepStage(t));
  }

  lemma TwoSteps(s: Stage)
    requires StageOk(s)
    ensures StageOk(StepStage(s)) && LeadsTo(s, StepStage(StepStage(s)))
  {
    OneStep(s);
    OneMoreStep(s, StepStage(s));
  }

  lemma LeadsToCompletion(from: Stage, to: Stage)
    requires LeadsTo(from, to) && StageOk(from) && !to.Running?
    ensures Complete(from) == to
  {
    var t: seq<Stage> :| Traced(t, from, to);
    TraceIsComplete(t, from, to);
  }

  // The tree entries of the edits, unless one does not fit the base.
  method TreeEntries(base: Tree, edits: seq<Edit>) returns (entries: Option<seq<TreeEntry>>)
    ensures entries.Some? <==> forall i | 0 <= i < |edits| :: EditFits(base, edits[i])
    ensures entries.Some? ==> entries.value == Entries(base, edits)
  {
    var found: seq<TreeEntry> := [];
    for i := 0 to |edits|
      invariant |found| == i
      invariant forall j | 0 <= j < i :: EditFits(base, edits[j]) && found[j] == EntryFor(base, edits[j])
    {
      if !EditFits(base, edits[i]) { return None; }
      found := found + [EntryFor(base, edits[i])];
    }
    return Some(found);
  }

  // The row the database holds for the publication being made.
  ghost predicate Tracks(store: Store, p: Id)
    reads store
  {
    p in store.publications && store.publications[p].status == Publishing
  }

  ghost predicate OnlyRowChanged(before: Db, after: Db, p: Id) {
    p in after.publications &&
    after == before.(publications := before.publications[p := after.publications[p]])
  }

  method Checkpointing(store: Store, p: Id, c: Checkpoint)
    requires Tracks(store, p)
    modifies store
    ensures Tracks(store, p) && OnlyRowChanged(old(store.State()), store.State(), p)
    ensures store.publications[p] == Marked(old(store.publications[p]), c)
  {
    store.RecordProgress(p, c);
  }

  // ----- The parts of one publication -----

  // The reads: the base branch, an existing draft, the publication's branch, and the base tree.
  method Inspect(hub: Hub, record: Publication, evidence: Evidence, edits: seq<Edit>,
                 ghost row: Publication)
    returns (error: Option<Error>, head: Option<Commit>, entries: seq<TreeEntry>)
    ensures error.None? ==> entries == Entries(record.base.tree, edits)
    ensures LeadsTo(
      Running(Start(record, evidence, edits), hub.repository, row),
      if error.Some? then Aborted(error.value, hub.repository, row)
      else Running(Start(record, evidence, edits).(pc := PostTree, head := head), hub.repository, row))
  {
    var r := hub.repository;
    ghost var s := Running(Start(record, evidence, edits), r, row);
    ghost var t := StepStage(s);
    OneStep(s);
    head, entries := None, [];
    if Head(r, OtherBranch(evidence.baseBranch)) != Some(record.base) {
      return Some(StaleBase), head, entries;
    }
    OneMoreStep(s, t);
    t := StepStage(t);
    if !DraftUntouched(r, record) { return Some(RemoteConflict), head, entries; }
    OneMoreStep(s, t);
    t := StepStage(t);
    head := Head(r, record.branch);
    if record.pull.None? && head.Some? && head != record.commit {
      return Some(BranchCollision), head, entries;
    }
    if record.pull.Some? && head != record.remoteHead && head != record.commit {
      return Some(RemoteConflict), head, entries;
    }
    OneMoreStep(s, t);
    t := StepStage(t);
    var found := TreeEntries(record.base.tree, edits);
    if found.None? { return Some(RemoteConflict), head, entries; }
    entries := found.value;
    error := None;
  }

  method EnsureTree(hub: Hub, store: Store, p: Id, ghost x: Worker, record: Publication, entries: seq<TreeEntry>)
    returns (tree: Tree)
    requires x.pc == PostTree && x.record == record && entries == Entries(record.base.tree, x.edits)
    requires Tracks(store, p)
    modifies store
    ensures Tracks(store, p) && OnlyRowChanged(old(store.State()), store.State(), p)
    ensures LeadsTo(Running(x, hub.repository, old(store.publications[p])),
                    Running(x.(pc := PostCommit, tree := Some(tree)), hub.repository, store.publications[p]))
  {
    ghost var s := Running(x, hub.repository, store.publications[p]);
    if record.tree.Some? {
      tree := record.tree.value;
      OneStep(s);
    } else {
      tree := CreateTree(record.base.tree, entries);
      Checkpointing(store, p, TreeCheckpoint(tree));
      TwoSteps(s);
    }
  }

  method EnsureCommit(hub: Hub, store: Store, p: Id, ghost x: Worker, record: Publication,
                      evidence: Evidence, tree: Tree)
    returns (commit: Commit)
    requires x.pc == PostCommit && x.record == record && x.evidence == evidence && x.tree == Some(tree)
    requires Tracks(store, p)
    modifies store
    ensures Tracks(store, p) && OnlyRowChanged(old(store.State()), store.State(), p)
    ensures LeadsTo(Running(x, hub.repository, old(store.publications[p])),
                    Running(x.(pc := WriteBranch, commit := Some(commit)), hub.repository, store.publications[p]))
  {
    ghost var s := Running(x, hub.repository, store.publications[p]);
    if record.commit.Some? {
      commit := record.commit.value;
      OneStep(s);
    } else {
      commit := Commit(tree, [record.base], MigrationMessage(record.migration), evidence.completedAt);
      Checkpointing(store, p, CommitCheckpoint(commit));
      TwoSteps(s);
    }
  }

  method EnsureBranch(hub: Hub, store: Store, p: Id, ghost x: Worker, record: Publication,
                      head: Option<Commit>, commit: Commit)
    returns (error: Option<Error>)
    requires x.pc == WriteBranch && x.record == record && x.head == head && x.commit == Some(commit)
    requires x.tree.Some? && Tracks(store, p)
    modifies store, hub
    ensures Tracks(store, p) && OnlyRowChanged(old(store.State()), store.State(), p)
    ensures LeadsTo(Running(x, old(hub.repository), old(store.publications[p])),
                    if error.Some? then Aborted(error.value, hub.repository, store.publications[p])
                    else Running(x.(pc := WritePull), hub.repository, store.publications[p]))
  {
    ghost var s := Running(x, hub.repository, store.publications[p]);
    OneStep(s);
    TwoSteps(s);
    error := None;
    if record.pull.None? {
      if head.None? {
        var created := CreateRef(hub.repository, record.branch, commit);
        if created.None? { return Some(ApiError); }
        hub.repository := created.value;
        Checkpointing(store, p, BranchCheckpoint(commit));
      } else if record.remoteHead != Some(commit) {
        Checkpointing(store, p, BranchCheckpoint(commit));
      }
    } else if head != Some(commit) {
      var moved := ForceRef(hub.repository, record.branch, commit);
      if moved.None? { return Some(ApiError); }
      hub.repository := moved.value;
      Checkpointing(store, p, BranchCheckpoint(commit));
    }
  }

  method EnsureDraft(hub: Hub, store: Store, p: Id, ghost x: Worker, record: Publication,
                     evidence: Evidence, commit: Commit)
    returns (error: Option<Error>, pull: nat)
    requires x.pc == WritePull && x.record == record && x.evidence == evidence && x.commit == Some(commit)
    requires x.tree.Some? && Tracks(store, p)
    modifies store, hub
    ensures Tracks(store, p) && OnlyRowChanged(old(store.State()), store.State(), p)
    ensures LeadsTo(Running(x, old(hub.repository), old(store.publications[p])),
                    if error.Some? then Aborted(error.value, hub.repository, store.publications[p])
                    else Running(x.(pc := PostCheck, pull := Some(pull)), hub.repository, store.publications[p]))
  {
    ghost var s := Running(x, hub.repository, store.publications[p]);
    OneStep(s);
    TwoSteps(s);
    error, pull := None, 0;
    if record.pull.None? {
      var drafted := OpenDraft(hub.repository, record.branch, evidence.baseBranch);
      if drafted.None? { return Some(ApiError), 0; }
      hub.repository := drafted.value;
      pull := |hub.repository.pulls|;
    } else {
      pull := record.pull.value;
      if !HasPull(hub.repository, pull) || PullHead(hub.repository, pull) != Some(commit) {
        return Some(RemoteConflict), 0;
      }
    }
    Checkpointing(store, p, PullCheckpoint(pull));
  }

  method EnsureCheck(hub: Hub, store: Store, p: Id, ghost x: Worker, record: Publication, commit: Commit)
    returns (check: nat)
    requires x.pc == PostCheck && x.record == record && x.commit == Some(commit)
    requires x.tree.Some? && x.pull.Some? && Tracks(store, p)
    modifies store, hub
    ensures Tracks(store, p) && OnlyRowChanged(old(store.State()), store.State(), p)
    ensures LeadsTo(Running(x, old(hub.repository), old(store.publications[p])),
                    Running(x.(pc := Finish, check := Some(check)), hub.repository, store.publications[p]))
  {
    ghost var s := Running(x, hub.repository, store.publications[p]);
    if record.check.Some? {
      check := record.check.value;
      OneStep(s);
    } else {
      hub.repository := AddCheck(hub.repository, CheckRun(commit, record.migration, record.lastAttempt));
      check := |hub.repository.checks|;
      Checkpointing(store, p, CheckCheckpoint(check));
      TwoSteps(s);
    }
  }

  // ----- The whole publication -----

  ghost function Left(r: Result, remote: Repository, row: Publication): Stage {
    match r
    case Ok(result) => Ended(result, remote, row)
    case Err(error) => Aborted(error, remote, row)
  }

  lemma Finishing(x: Worker, remote: Repository, row: Publication)
    requires x.pc == Finish && Publisher.Ready(x)
    ensures LeadsTo(Running(x, remote, row),
                    Ended(PublicationResult(x.tree.value, x.commit.value, x.pull.value, x.check.value), remote, row))
  {
    OneStep(Running(x, remote, row));
  }

  // The tree and the commit.
  method EnsureObjects(hub: Hub, store: Store, p: Id, ghost x: Worker, record: Publication,
                       evidence: Evidence, entries: seq<TreeEntry>)
    returns (tree: Tree, commit: Commit)
    requires x.pc == PostTree && x.record == record && x.evidence == evidence
    requires entries == Entries(record.base.tree, x.edits) && Tracks(store, p)
    modifies store
    ensures Tracks(store, p) && OnlyRowChanged(old(store.State()), store.State(), p)
    ensures LeadsTo(
      Running(x, hub.repository, old(store.publications[p])),
      Running(x.(pc := WriteBranch, tree := Some(tree), commit := Some(commit)), hub.repository,
              store.publications[p]))
  {
    ghost var s := Running(x, hub.repository, store.publications[p]);
    tree := EnsureTree(hub, store, p, x, record, entries);
    ghost var x' := x.(pc := PostCommit, tree := Some(tree));
    ghost var t := Running(x', hub.repository, store.publications[p]);
    commit := EnsureCommit(hub, store, p, x', record, evidence, tree);
    LeadsOn(s, t, Running(x'.(pc := WriteBranch, commit := Some(commit)), hub.repository, store.publications[p]));
  }

  // The draft and the check, once the branch is in place.
  method EnsureReview(hub: Hub, store: Store, p: Id, ghost x: Worker, record: Publication,
                      evidence: Evidence, tree: Tree, commit: Commit)
    returns (r: Result)
    requires x.pc == WritePull && x.record == record && x.evidence == evidence
    requires x.tree == Some(tree) && x.commit == Some(commit) && Tracks(store, p)
    modifies store, hub
    ensures Tracks(store, p) && OnlyRowChanged(old(store.State()), store.State(), p)
    ensures LeadsTo(Running(x, old(hub.repository), old(store.publications[p])),
                    Left(r, hub.repository, store.publications[p]))
  {
    ghost var s := Running(x, hub.repository, store.publications[p]);
    var error, pull := EnsureDraft(hub, store, p, x, record, evidence, commit);
    if error.Some? { return Err(error.value); }
    ghost var x' := x.(pc := PostCheck, pull := Some(pull));
    ghost var t := Running(x', hub.repository, store.publications[p]);
    var check := EnsureCheck(hub, store, p, x', record, commit);
    x' := x'.(pc := Finish, check := Some(check));
    t := Joined(s, t, Running(x', hub.repository, store.publications[p]));
    Finishing(x', hub.repository, store.publications[p]);
    r := Ok(PublicationResult(tree, commit, pull, check));
    t := Joined(s, t, Left(r, hub.repository, store.publications[p]));
  }

  // Publishing does to the repository and the row exactly what the run of all its steps does.
  method Publish(hub: Hub, store: Store, context: PublicationContext, evidence: Evidence, edits: seq<Edit>)
    returns (r: Result)
    requires Tracks(store, context.publication)
    modifies store, hub
    ensures Tracks(store, context.publication)
    ensures OnlyRowChanged(old(store.State()), store.State(), context.publication)
    ensures LeadsTo(Running(Start(context.record, evidence, edits), old(hub.repository),
                            old(store.publications[context.publication])),
                    Left(r, hub.repository, store.publications[context.publication]))
  {
    var p, record := context.publication, context.record;
    ghost var x := Start(record, evidence, edits);
    ghost var s := Running(x, hub.repository, store.publications[p]);
    var error, head, entries := Inspect(hub, record, evidence, edits, store.publications[p]);
    if error.Some? { return Err(error.value); }
    x := x.(pc := PostTree, head := head);
    ghost var t := Running(x, hub.repository, store.publications[p]);

    var tree, commit := EnsureObjects(hub, store, p, x, record, evidence, entries);
    x := x.(pc := WriteBranch, tree := Some(tree), commit := Some(commit));
    t := Joined(s, t, Running(x, hub.repository, store.publications[p]));

    error := EnsureBranch(hub, store, p, x, record, head, commit);
    if error.Some? {
      t := Joined(s, t, Aborted(error.value, hub.repository, store.publications[p]));
      return Err(error.value);
    }
    x := x.(pc := WritePull);
    t := Joined(s, t, Running(x, hub.repository, store.publications[p]));

    r := EnsureReview(hub, store, p, x, record, evidence, tree, commit);
    t := Joined(s, t, Left(r, hub.repository, store.publications[p]));
  }

  lemma Joined(a: Stage, b: Stage, c: Stage) returns (r: Stage)
    requires LeadsTo(a, b) && LeadsTo(b, c)
    ensures r == c && LeadsTo(a, r)
  {
    LeadsOn(a, b, c);
    r := c;
  }

  // ----- The job around it -----

  // Publishing leaves the identity of its row alone.
  ghost predicate SameIdentity(row: Publication, row': Publication) {
    row' == row.(tree := row'.tree, commit := row'.commit, remoteHead := row'.remoteHead,
                 pull := row'.pull, check := row'.check)
  }

  lemma {:induction false} RunsKeepIdentity(s: Stage, n: nat)
    requires StageOk(s)
    ensures SameIdentity(s.row, RunStage(s, n).row)
  {
    if n > 0 {
      RunsKeepIdentity(s, n - 1);
      StepKeepsIdentity(RunStage(s, n - 1));
    }
  }

  lemma StepKeepsIdentity(s: Stage)
    requires StageOk(s)
    ensures SameIdentity(s.row, StepStage(s).row)
  {
  }

  lemma PublishingKeepsInv(before: Db, after: Db, p: Id)
    requires Inv(before) && p in before.publications && p in after.publications
    requires OnlyRowChanged(before, after, p)
    requires SameIdentity(before.publications[p], after.publications[p])
    ensures Inv(after)
  {
    PublicationStepKeeps(before, after, p);
  }

  datatype TaskOutcome = Skipped | Completed | Failing(code: string)

  function CodeOf(e: Error): string {
    match e
    case Obstructed(code) => code
    case ArtifactCorrupt => "artifactintegrityerror"
    case ArtifactMissing => "filenotfounderror"
    case ArtifactRefused => "publication_policy_violation"
    case StaleBase => "github_base_advanced"
    case BranchCollision => "github_branch_collision"
    case RemoteConflict => "github_remote_state_conflict"
    case ApiError => "github_publication_failed"
  }

  ghost predicate HasArtifact(db: Db, row: Publication) {
    && row.lastAttempt in db.attempts && db.attempts[row.lastAttempt].data.evidence.Some?
    && (row.lastAttempt, db.attempts[row.lastAttempt].data.evidence.value.patch.artifact) in db.artifacts
  }

  ghost function ArtifactRef(db: Db, row: Publication): string
    requires HasArtifact(db, row)
  {
    db.artifacts[(row.lastAttempt, db.attempts[row.lastAttempt].data.evidence.value.patch.artifact)].objectRef
  }

  // The edits that the artifact of a claimed row yields: it is read, compared with the digest of the
  // row's patch, and parsed.
  ghost function ArtifactEdits(
    db: Db, lower: Lowering, hash: Hash, objects: map<string, string>, row: Publication): Option<seq<Edit>>
  {
    if !HasArtifact(db, row) then None else
    match ReadFrom(hash, objects, ArtifactRef(db, row))
    case None => None
    case Some(text) => LoadPublicationEdits(lower, hash, text, hash(Render(row.patch.edits)))
  }

  // Why an artifact does not load: its reference or its content is damaged, it is not there, or it is
  // refused.
  ghost function LoadError(db: Db, hash: Hash, objects: map<string, string>, row: Publication): Error
    requires HasArtifact(db, row)
  {
    match DigestOf(ArtifactRef(db, row))
    case None => ArtifactCorrupt
    case Some(digest) =>
      if digest !in objects then ArtifactMissing
      else if hash(objects[digest]) != digest then ArtifactCorrupt
      else ArtifactRefused
  }

  // The first thing in the way of publishing a claimed row: an obstacle to the job, an artifact that
  // does not load, or what the repository holds.
  ghost function InTheWay(
    db: Db, record: Publication, obstacle: Option<string>, lower: Lowering, hash: Hash,
    objects: map<string, string>, r: Repository): Option<Error>
    requires HasArtifact(db, record)
  {
    if obstacle.Some? then Some(Obstructed(obstacle.value)) else
    match ArtifactEdits(db, lower, hash, objects, record)
    case None => Some(LoadError(db, hash, objects, record))
    case Some(edits) => FirstObstacle(record, db.attempts[record.lastAttempt].data.evidence.value, edits, r)
  }

  // The code a failure is recorded under.
  ghost predicate RecordedAs(e: Error, code: string) {
    && (e.Obstructed? ==> code == e.code)
    && (e.ArtifactCorrupt? ==> code == "artifactintegrityerror")
    && (e.ArtifactMissing? ==> code == "filenotfounderror")
    && (e.ArtifactRefused? ==> code == "publication_policy_violation")
    && (e.StaleBase? ==> code == "github_base_advanced")
    && (e.BranchCollision? ==> code == "github_branch_collision")
    && (e.RemoteConflict? ==> code == "github_remote_state_conflict")
    && (e.ApiError? ==> code == "github_publication_failed")
  }

  lemma CodesTell(e: Error)
    ensures RecordedAs(e, CodeOf(e))
  {
  }

  ghost predicate Waiting(db: Db, p: Id) {
    p in db.publications && db.publications[p].status == PublicationQueued
  }

  // Nothing is in the way of publishing, the artifact loads, and the repository lets it through.
  ghost predicate WillPublishClaimed(
    db: Db, record: Publication, obstacle: Option<string>, lower: Lowering, hash: Hash,
    objects: map<string, string>, r: Repository)
  {
    var edits := ArtifactEdits(db, lower, hash, objects, record);
    && obstacle.None? && edits.Some?
    && CanPublish(record, db.attempts[record.lastAttempt].data.evidence.value, edits.value, r)
  }

  ghost predicate WillPublish(db: Db, p: Id, obstacle: Option<string>, lower: Lowering, hash: Hash,
                              objects: map<string, string>, r: Repository)
  {
    && Waiting(db, p)
    && WillPublishClaimed(db, db.publications[p].(status := Publishing, errorCode := None), obstacle,
                          lower, hash, objects, r)
  }

  // What is first in the way is recorded under the code.
  ghost predicate WillFailClaimed(
    db: Db, record: Publication, obstacle: Option<string>, lower: Lowering, hash: Hash,
    objects: map<string, string>, r: Repository, code: string)
  {
    && HasArtifact(db, record)
    && var e := InTheWay(db, record, obstacle, lower, hash, objects, r);
    && e.Some? && RecordedAs(e.value, code)
  }

  ghost predicate WillFail(db: Db, p: Id, obstacle: Option<string>, lower: Lowering, hash: Hash,
                           objects: map<string, string>, r: Repository, code: string)
  {
    && Waiting(db, p)
    && WillFailClaimed(db, db.publications[p].(status := Publishing, errorCode := None), obstacle,
                       lower, hash, objects, r, code)
  }

  // Both depend on the database by the record's artifact alone.
  lemma SameArtifactSameFate(
    db: Db, db': Db, record: Publication, obstacle: Option<string>, lower: Lowering, hash: Hash,
    objects: map<string, string>, r: Repository)
    requires db'.attempts == db.attempts && db'.artifacts == db.artifacts
    ensures WillPublishClaimed(db, record, obstacle, lower, hash, objects, r) <==>
            WillPublishClaimed(db', record, obstacle, lower, hash, objects, r)
    ensures forall code :: WillFailClaimed(db, record, obstacle, lower, hash, objects, r, code) <==>
                           WillFailClaimed(db', record, obstacle, lower, hash, objects, r, code)
  {
    assert ArtifactEdits(db', lower, hash, objects, record) == ArtifactEdits(db, lower, hash, objects, record);
  }

  lemma ClaimingChangesNothingElse(
    db: Db, p: Id, obstacle: Option<string>, lower: Lowering, hash: Hash, objects: map<string, string>,
    r: Repository)
    requires Waiting(db, p)
    ensures var (db', context) := ClaimPublication(db, p);
      && context.Some? && context.value.publication == p
      && (WillPublish(db, p, obstacle, lower, hash, objects, r) <==>
            WillPublishClaimed(db', context.value.record, obstacle, lower, hash, objects, r))
      && (forall code :: WillFail(db, p, obstacle, lower, hash, objects, r, code) <==>
            WillFailClaimed(db', context.value.record, obstacle, lower, hash, objects, r, code))
  {
    var record := db.publications[p].(status := Publishing, errorCode := None);
    SameArtifactSameFate(db, ClaimPublication(db, p).0, record, obstacle, lower, hash, objects, r);
  }

  // No object has the digest of this text but the text itself.
  ghost predicate NoCollisionWith(hash: Hash, objects: map<string, string>, text: string) {
    forall d | d in objects && hash(objects[d]) == hash(text) :: objects[d] == text
  }

  // The row's artifact is where its reference says.
  ghost predicate ArtifactKept(db: Db, hash: Hash, objects: map<string, string>, row: Publication) {
    && HasArtifact(db, row)
    && var digest := hash(Render(row.patch.edits));
       DigestOf(ArtifactRef(db, row)) == Some(digest) && digest in objects &&
       objects[digest] == Render(row.patch.edits)
  }

  lemma ArtifactEditsExactly(db: Db, lower: Lowering, hash: Hash, objects: map<string, string>, row: Publication)
    requires NoCollisionWith(hash, objects, Render(row.patch.edits))
    ensures ArtifactEdits(db, lower, hash, objects, row) ==
      if ArtifactKept(db, hash, objects, row) && Loadable(lower, row.patch.edits)
      then Some(row.patch.edits) else None
  {
    RenderedArtifactLoads(lower, hash, row.patch.edits);
  }

  // As long as no digest collides, a waiting publication goes through exactly when nothing is in
  // the way, the row's own edits are stored where its reference says, as a text within the limit
  // and with distinct paths, and the repository lets those edits through.
  lemma WillPublishExactly(db: Db, p: Id, obstacle: Option<string>, lower: Lowering, hash: Hash,
                           objects: map<string, string>, r: Repository)
    requires p in db.publications ==>
      NoCollisionWith(hash, objects, Render(db.publications[p].patch.edits))
    ensures WillPublish(db, p, obstacle, lower, hash, objects, r) <==>
      && Waiting(db, p) && obstacle.None?
      && var row := db.publications[p];
         && ArtifactKept(db, hash, objects, row) && Loadable(lower, row.patch.edits)
         && CanPublish(row.(status := Publishing, errorCode := None),
                       db.attempts[row.lastAttempt].data.evidence.value, row.patch.edits, r)
  {
    if p in db.publications { ArtifactEditsExactly(db, lower, hash, objects, db.publications[p]); }
  }

  // What the invariant says of a row that is being published.
  ghost predicate WellFounded(db: Db, row: Publication) {
    && HasArtifact(db, row)
    && row.migration in db.migrations
    && db.migrations[row.migration].status == PrOpening
    && db.migrations[row.migration].currentAttempt == Some(row.lastAttempt)
  }

  lemma OpenRowsAreWellFounded(db: Db, p: Id)
    requires Inv(db) && p in db.publications && Open(db.publications[p])
    ensures WellFounded(db, db.publications[p])
  {
    var row := db.publications[p];
    assert RowsOk(db, row.migration);
    assert AttemptOk(db, row.lastAttempt, db.attempts[row.lastAttempt], db.migrations[row.migration].currentAttempt);
  }

  // Publish edits that were loaded.
  method PublishLoaded(store: Store, hub: Hub, context: PublicationContext, evidence: Evidence, edits: seq<Edit>)
    returns (r: Result)
    requires Tracks(store, context.publication) && store.publications[context.publication] == context.record
    requires OwnBranch(context.record, hub.repository)
    modifies store, hub
    ensures Tracks(store, context.publication)
    ensures OnlyRowChanged(old(store.State()), store.State(), context.publication)
    ensures SameIdentity(context.record, store.publications[context.publication])
    ensures r.Ok? <==> CanPublish(context.record, evidence, edits, old(hub.repository))
    ensures r.Err? ==> FirstObstacle(context.record, evidence, edits, old(hub.repository)) == Some(r.error)
    ensures r.Ok? ==> MadeInFull(context.record, evidence, edits, old(hub.repository), r.result, hub.repository)
    ensures r.Ok? ==>
      && Head(hub.repository, context.record.branch) == Some(r.result.commit)
      && HasPull(hub.repository, r.result.pull)
      && PullHead(hub.repository, r.result.pull) == Some(r.result.commit)
  {
    ghost var s := Begin(context.record, evidence, edits, hub.repository);
    r := Publish(hub, store, context, evidence, edits);
    LeadsToCompletion(s, Left(r, hub.repository, store.publications[context.publication]));
    UninterruptedOutcome(context.record, evidence, edits, s.remote);
    PublishesInFull(context.record, evidence, edits, s.remote);
    RunsKeepIdentity(s, ALL_STEPS);
  }

  // The edits of the artifact, or why it does not load.
  method LoadArtifact(artifacts: ArtifactStore, lower: Lowering, objectRef: string, patch: PatchDigest)
    returns (error: Error, edits: Option<seq<Edit>>)
    ensures edits == (match ReadFrom(artifacts.hash, artifacts.objects, objectRef)
                      case None => None
                      case Some(text) =>
                        LoadPublicationEdits(lower, artifacts.hash, text, artifacts.hash(Render(patch.edits))))
    ensures edits.None? ==>
      error == match DigestOf(objectRef)
               case None => ArtifactCorrupt
               case Some(digest) =>
                 if digest !in artifacts.objects then ArtifactMissing
                 else if artifacts.hash(artifacts.objects[digest]) != digest then ArtifactCorrupt
                 else ArtifactRefused
  {
    var read := artifacts.Read(objectRef);
    if read.Missing? { return ArtifactMissing, None; }
    if read.IntegrityError? { return ArtifactCorrupt, None; }
    edits := LoadPublicationEdits(lower, artifacts.hash, read.value, artifacts.hash(Render(patch.edits)));
    error := ArtifactRefused;
  }

  // Load the artifact and publish, unless something is in the way; a failure comes back as the error
  // to record.
  method LoadAndPublish(store: Store, hub: Hub, artifacts: ArtifactStore, lower: Lowering,
                        obstacle: Option<string>, context: PublicationContext)
    returns (r: Result)
    requires Tracks(store, context.publication) && store.publications[context.publication] == context.record
    requires WellFounded(store.State(), context.record) && OwnBranch(context.record, hub.repository)
    modifies store, hub
    ensures Tracks(store, context.publication)
    ensures OnlyRowChanged(old(store.State()), store.State(), context.publication)
    ensures SameIdentity(context.record, store.publications[context.publication])
    ensures r.Ok? <==>
      old(WillPublishClaimed(store.State(), context.record, obstacle, lower, artifacts.hash, artifacts.objects,
                             hub.repository))
    ensures r.Err? ==>
      old(InTheWay(store.State(), context.record, obstacle, lower, artifacts.hash, artifacts.objects,
                   hub.repository)) == Some(r.error)
    ensures r.Ok? ==>
      && Head(hub.repository, context.record.branch) == Some(r.result.commit)
      && HasPull(hub.repository, r.result.pull)
      && PullHead(hub.repository, r.result.pull) == Some(r.result.commit)
  {
    var record := context.record;
    var evidence := store.attempts[record.lastAttempt].data.evidence.value;
    var artifact := store.artifacts[(record.lastAttempt, evidence.patch.artifact)];
    if obstacle.Some? { return Err(Obstructed(obstacle.value)); }
    var error, edits := LoadArtifact(artifacts, lower, artifact.objectRef, record.patch);
    if edits.None? { return Err(error); }
    r := PublishLoaded(store, hub, context, evidence, edits.value);
  }

  // Record how it ended.
  method Settle(store: Store, context: PublicationContext, r: Result) returns (o: TaskOutcome)
    requires store.Valid() && Tracks(store, context.publication)
    requires SameIdentity(context.record, store.publications[context.publication])
    modifies store
    ensures store.Valid() && !o.Skipped? && (o.Completed? <==> r.Ok?)
    ensures o.Failing? ==> RecordedAs(r.error, o.code)
    ensures context.publication in store.publications
    ensures context.record.migration in store.migrations
    ensures var row, before := store.publications[context.publication], old(store.publications[context.publication]);
      if r.Ok? then
        row == PublishedRow(before, r.result) && store.migrations[context.record.migration].status == PrOpened
      else
        row == before.(status := PublicationFailed, errorCode := Some(o.code)) &&
        store.migrations[context.record.migration].status == Blocked &&
        store.migrations[context.record.migration].data.errorCode == Some(o.code)
  {
    OpenRowsAreWellFounded(store.State(), context.publication);
    match r
    case Ok(result) =>
      var done := store.ConcludeDraft(context, result);
      o := TaskOutcome.Completed;
    case Err(error) =>
      store.FailDraft(context.publication, CodeOf(error));
      CodesTell(error);
      o := Failing(CodeOf(error));
  }

  // What a publication that ended leaves.
  ghost predicate Concluded(db: Db, r: Repository, p: Id, o: TaskOutcome) {
    && p in db.publications && db.publications[p].migration in db.migrations
    && var row := db.publications[p];
       if o.Completed? then
         && row.status == Published && db.migrations[row.migration].status == PrOpened
         && row.commit.Some? && row.pull.Some? && row.remoteHead == row.commit
         && Head(r, row.branch) == row.commit
         && HasPull(r, row.pull.value) && PullHead(r, row.pull.value) == row.commit
       else
         && row.status == PublicationFailed && db.migrations[row.migration].status == Blocked
         && o.Failing? && row.errorCode == Some(o.code)
         && db.migrations[row.migration].data.errorCode == Some(o.code)
  }

  method PublishClaimed(store: Store, hub: Hub, artifacts: ArtifactStore, lower: Lowering,
                        obstacle: Option<string>, context: PublicationContext)
    returns (o: TaskOutcome)
    requires store.Valid()
    requires Tracks(store, context.publication) && store.publications[context.publication] == context.record
    requires OwnBranch(context.record, hub.repository)
    modifies store, hub
    ensures store.Valid() && !o.Skipped?
    ensures o.Completed? <==>
      old(WillPublishClaimed(store.State(), context.record, obstacle, lower, artifacts.hash, artifacts.objects,
                             hub.repository))
    ensures Concluded(store.State(), hub.repository, context.publication, o)
    ensures o.Failing? ==>
      old(WillFailClaimed(store.State(), context.record, obstacle, lower, artifacts.hash, artifacts.objects,
                          hub.repository, o.code))
  {
    OpenRowsAreWellFounded(store.State(), context.publication);
    ghost var claimed := store.State();
    var r := LoadAndPublish(store, hub, artifacts, lower, obstacle, context);
    PublishingKeepsInv(claimed, store.State(), context.publication);
    o := Settle(store, context, r);
  }

  // The job: skipped unless the publication is waiting; otherwise it ends published exactly when
  // nothing is in the way, the artifact loads and the repository lets it through, and failed, with
  // its migration blocked, when not. An obstacle is the code of what stops it before it starts:
  // publishing is not enabled, or the repository is not, or GitHub grants no permission.
  method PublishMigrationDraft(store: Store, hub: Hub, artifacts: ArtifactStore, lower: Lowering,
                               obstacle: Option<string>, p: Id)
    returns (o: TaskOutcome)
    requires store.Valid()
    requires p in store.publications ==> OwnBranch(store.publications[p], hub.repository)
    modifies store, hub
    ensures store.Valid()
    ensures o.Skipped? <==> !old(Waiting(store.State(), p))
    ensures o.Skipped? ==> store.State() == old(store.State()) && hub.repository == old(hub.repository)
    ensures o.Completed? <==>
      old(WillPublish(store.State(), p, obstacle, lower, artifacts.hash, artifacts.objects, hub.repository))
    ensures !o.Skipped? ==> Concluded(store.State(), hub.repository, p, o)
    ensures o.Failing? ==>
      old(WillFail(store.State(), p, obstacle, lower, artifacts.hash, artifacts.objects, hub.repository, o.code))
  {
    var context := store.ClaimDraft(p);
    if context.None? { return TaskOutcome.Skipped; }
    ClaimingChangesNothingElse(old(store.State()), p, obstacle, lower, artifacts.hash, artifacts.objects,
                               hub.repository);
    o := PublishClaimed(store, hub, artifacts, lower, obstacle, context.value);
  }
}
