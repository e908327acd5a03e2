// What an uninterrupted publication does, and that an interrupted one, re-queued for the same
// attempt, arrives at the same tree, commit, branch head and draft -- except after exactly two
// kinds of stop.
module Convergence {
  import opened Git
  import opened Options
  import opened Remote
  import opened Rows
  import opened Transactions
  import opened Publisher

  // ----- The outcome of an uninterrupted run -----

  function TreeOf(record: Publication, edits: seq<Edit>): Tree {
    if record.tree.Some? then record.tree.value else Overlay(record.base.tree, edits)
  }

  function CommitOf(record: Publication, ev: Evidence, edits: seq<Edit>): Commit {
    if record.commit.Some? then record.commit.value
    else CommitFor(record, ev, TreeOf(record, edits))
  }

  function PullOf(record: Publication, r: Repository): nat {
    if record.pull.Some? then record.pull.value else |r.pulls| + 1
  }

  function CheckOf(record: Publication, r: Repository): nat {
    if record.check.Some? then record.check.value else |r.checks| + 1
  }

  // The branch is this publication's own, and a draft never changes its branch.
  ghost predicate OwnBranch(record: Publication, r: Repository) {
    && record.branch.MigrationBranch?
    && (record.pull.Some? && HasPull(r, record.pull.value) ==>
          r.pulls[record.pull.value - 1].branch == record.branch)
  }

  ghost predicate NoOpenDraft(r: Repository, ref: Ref, base: string) {
    forall i | 0 <= i < |r.pulls| ::
      !(r.pulls[i].open && r.pulls[i].branch == ref && r.pulls[i].base == base)
  }

  ghost predicate BranchFits(record: Publication, r: Repository) {
    var head := Head(r, record.branch);
    if record.pull.None? then head.None? || head == record.commit
    else head == record.remoteHead || head == record.commit
  }

  // What must hold for a run to get to a given point.
  ghost predicate CanReach(rank: nat, record: Publication, ev: Evidence, edits: seq<Edit>, r: Repository) {
    && (rank > 0 ==> Head(r, OtherBranch(ev.baseBranch)) == Some(record.base))
    && (rank > 1 ==> DraftUntouched(r, record))
    && (rank > 2 ==> BranchFits(record, r))
    && (rank > 3 ==> forall i | 0 <= i < |edits| :: EditFits(record.base.tree, edits[i]))
    && (rank > 8 ==> record.pull.Some? ==> Head(r, record.branch).Some?)
    && (rank > 10 ==> record.pull.None? ==> NoOpenDraft(r, record.branch, ev.baseBranch))
  }

  // When a publication goes through: the base has not moved; an existing draft is untouched; the
  // edits fit the base; and the branch is either absent before the first draft, or where this
  // publication left it.
  ghost predicate CanPublish(record: Publication, ev: Evidence, edits: seq<Edit>, r: Repository) {
    CanReach(14, record, ev, edits, r)
  }

  function BranchWritten(record: Publication, ev: Evidence, edits: seq<Edit>, r: Repository): Repository {
    r.(refs := r.refs[record.branch := CommitOf(record, ev, edits)])
  }

  function DraftWritten(record: Publication, ev: Evidence, r: Repository): Repository {
    if record.pull.Some? then r
    else r.(pulls := r.pulls + [Pull(record.branch, ev.baseBranch, true, true)])
  }

  function CheckWritten(record: Publication, c: Commit, r: Repository): Repository {
    if record.check.Some? then r else AddCheck(r, CheckRun(c, record.migration, record.lastAttempt))
  }

  // The repository and the row at a given point of a run that goes through.
  function RemoteAt(rank: nat, record: Publication, ev: Evidence, edits: seq<Edit>, r: Repository): Repository {
    var r1 := if rank >= 9 then BranchWritten(record, ev, edits, r) else r;
    var r2 := if rank >= 11 then DraftWritten(record, ev, r1) else r1;
    if rank >= 13 then CheckWritten(record, CommitOf(record, ev, edits), r2) else r2
  }

  function RowAt(rank: nat, record: Publication, ev: Evidence, edits: seq<Edit>, r: Repository): Publication {
    record.(
      tree := if rank >= 6 then Some(TreeOf(record, edits)) else record.tree,
      commit := if rank >= 8 then Some(CommitOf(record, ev, edits)) else record.commit,
      remoteHead := if rank >= 10 then Some(CommitOf(record, ev, edits)) else record.remoteHead,
      pull := if rank >= 12 then Some(PullOf(record, r)) else record.pull,
      check := if rank >= 14 then Some(CheckOf(record, r)) else record.check)
  }

  function WorkerAt(pc: Pc, record: Publication, ev: Evidence, edits: seq<Edit>, r: Repository): Worker {
    Worker(pc, record, ev, edits,
           if Rank(pc) >= 3 then Head(r, record.branch) else None,
           if Rank(pc) >= 5 then Some(TreeOf(record, edits)) else None,
           if Rank(pc) >= 7 then Some(CommitOf(record, ev, edits)) else None,
           if Rank(pc) >= 11 then Some(PullOf(record, r)) else None,
           if Rank(pc) >= 13 then Some(CheckOf(record, r)) else None)
  }

  function StageAt(pc: Pc, record: Publication, ev: Evidence, edits: seq<Edit>, r: Repository): Stage {
    Running(WorkerAt(pc, record, ev, edits, r), RemoteAt(Rank(pc), record, ev, edits, r),
            RowAt(Rank(pc), record, ev, edits, r))
  }

  function Begin(record: Publication, ev: Evidence, edits: seq<Edit>, r: Repository): Stage {
    Running(Start(record, ev, edits), r, record)
  }

  function ResultOf(record: Publication, ev: Evidence, edits: seq<Edit>, r: Repository): PublicationResult {
    PublicationResult(TreeOf(record, edits), CommitOf(record, ev, edits), PullOf(record, r), CheckOf(record, r))
  }

  function EndOf(record: Publication, ev: Evidence, edits: seq<Edit>, r: Repository): Stage {
    Ended(ResultOf(record, ev, edits, r), RemoteAt(14, record, ev, edits, r), RowAt(14, record, ev, edits, r))
  }

  // ----- What stands in the way -----

  // The draft is as this publication left it: open, a draft, and at the recorded head.
  ghost predicate DraftAsLeft(record: Publication, r: Repository)
    requires record.pull.Some?
  {
    var n := record.pull.value;
    && 1 <= n <= |r.pulls| && r.pulls[n - 1].open && r.pulls[n - 1].draft
    && (if record.remoteHead.Some? then
          r.pulls[n - 1].branch in r.refs && r.refs[r.pulls[n - 1].branch] == record.remoteHead.value
        else r.pulls[n - 1].branch !in r.refs)
  }

  // The edits fit the verified snapshot: each declares a digest exactly if there is something at its
  // path, and that is a file.
  ghost predicate EditsFit(base: Tree, edits: seq<Edit>) {
    forall i | 0 <= i < |edits| ::
      && (edits[i].expected.Some? <==> edits[i].path in base)
      && (edits[i].path in base ==> base[edits[i].path].mode in {"100644", "100755"})
  }

  // The first thing a publication finds in its way, if there is any: the base branch is not at the
  // verified snapshot; the draft was touched; the branch of a first publication is there at another
  // commit; an edit does not fit; the branch of a draft is gone, or an open draft is there already.
  ghost function FirstObstacle(record: Publication, ev: Evidence, edits: seq<Edit>, r: Repository): Option<Error> {
    var base := OtherBranch(ev.baseBranch);
    if base !in r.refs || r.refs[base] != record.base then Some(StaleBase)
    else if record.pull.Some? && !DraftAsLeft(record, r) then Some(RemoteConflict)
    else if record.pull.None? && record.branch in r.refs && record.commit != Some(r.refs[record.branch])
    then Some(BranchCollision)
    else if !EditsFit(record.base.tree, edits) then Some(RemoteConflict)
    else if record.pull.Some? && record.branch !in r.refs then Some(ApiError)
    else if record.pull.None? && exists i | 0 <= i < |r.pulls| ::
              r.pulls[i].open && r.pulls[i].branch == record.branch && r.pulls[i].base == ev.baseBranch
    then Some(ApiError)
    else None
  }

  lemma FitsOrNot(base: Tree, edits: seq<Edit>)
    ensures EditsFit(base, edits) <==> forall i | 0 <= i < |edits| :: EditFits(base, edits[i])
  {
    forall i | 0 <= i < |edits|
      ensures EditFits(base, edits[i]) <==>
        (edits[i].expected.Some? <==> edits[i].path in base) &&
        (edits[i].path in base ==> base[edits[i].path].mode in {"100644", "100755"})
    {
      FitsExactly(base, edits[i]);
    }
  }

  lemma UnobstructedExactly(record: Publication, ev: Evidence, edits: seq<Edit>, r: Repository)
    requires OwnBranch(record, r)
    ensures CanPublish(record, ev, edits, r) <==> FirstObstacle(record, ev, edits, r).None?
  {
    FitsOrNot(record.base.tree, edits);
  }

  // What is known at a stage of a run: it is where the closed form says, or it was refused.
  ghost predicate Expected(s: Stage, record: Publication, ev: Evidence, edits: seq<Edit>, r: Repository) {
    match s
    case Running(w, _, _) =>
      && CanReach(Rank(w.pc), record, ev, edits, r)
      && s == StageAt(w.pc, record, ev, edits, r)
      // A draft's branch is only written to move it.
      && (w.pc == MarkBranch && record.pull.Some? ==>
            Head(r, record.branch) != Some(CommitOf(record, ev, edits)))
    case Aborted(e, _, _) => FirstObstacle(record, ev, edits, r) == Some(e)
    case Ended(_, _, _) => FirstObstacle(record, ev, edits, r).None? && s == EndOf(record, ev, edits, r)
  }

  lemma ReadsAsExpected(pc: Pc, record: Publication, ev: Evidence, edits: seq<Edit>, r: Repository)
    requires OwnBranch(record, r) && CanReach(Rank(pc), record, ev, edits, r) && Rank(pc) <= 3
    ensures Expected(StepStage(StageAt(pc, record, ev, edits, r)), record, ev, edits, r)
  {
  }

  lemma ObjectsAsExpected(pc: Pc, record: Publication, ev: Evidence, edits: seq<Edit>, r: Repository)
    requires OwnBranch(record, r) && CanReach(Rank(pc), record, ev, edits, r) && 4 <= Rank(pc) <= 7
    ensures Expected(StepStage(StageAt(pc, record, ev, edits, r)), record, ev, edits, r)
  {
  }

  lemma BranchAsExpected(pc: Pc, record: Publication, ev: Evidence, edits: seq<Edit>, r: Repository)
    requires OwnBranch(record, r) && CanReach(Rank(pc), record, ev, edits, r) && 8 <= Rank(pc) <= 9
    ensures Expected(StepStage(StageAt(pc, record, ev, edits, r)), record, ev, edits, r)
  {
    var head, c := Head(r, record.branch), CommitOf(record, ev, edits);
    if head == Some(c) { assert r.refs[record.branch := c] == r.refs; }
  }

  lemma DraftAsExpected(pc: Pc, record: Publication, ev: Evidence, edits: seq<Edit>, r: Repository)
    requires OwnBranch(record, r) && CanReach(Rank(pc), record, ev, edits, r) && 10 <= Rank(pc) <= 11
    ensures Expected(StepStage(StageAt(pc, record, ev, edits, r)), record, ev, edits, r)
  {
  }

  lemma CheckAsExpected(pc: Pc, record: Publication, ev: Evidence, edits: seq<Edit>, r: Repository)
    requires OwnBranch(record, r) && CanReach(Rank(pc), record, ev, edits, r) && 12 <= Rank(pc)
    ensures Expected(StepStage(StageAt(pc, record, ev, edits, r)), record, ev, edits, r)
  {
  }

  lemma {:induction false} RunAsExpected(
    steps: nat, record: Publication, ev: Evidence, edits: seq<Edit>, r: Repository)
    requires OwnBranch(record, r)
    ensures Expected(RunStage(Begin(record, ev, edits, r), steps), record, ev, edits, r)
  {
    if steps > 0 {
      RunAsExpected(steps - 1, record, ev, edits, r);
      var s := RunStage(Begin(record, ev, edits, r), steps - 1);
      if s.Running? {
        var pc := s.worker.pc;
        if Rank(pc) <= 3 { ReadsAsExpected(pc, record, ev, edits, r); }
        else if Rank(pc) <= 7 { ObjectsAsExpected(pc, record, ev, edits, r); }
        else if Rank(pc) <= 9 { BranchAsExpected(pc, record, ev, edits, r); }
        else if Rank(pc) <= 11 { DraftAsExpected(pc, record, ev, edits, r); }
        else { CheckAsExpected(pc, record, ev, edits, r); }
      }
    }
  }

  // An uninterrupted publication succeeds exactly when it can, and then the branch is at the
  // commit, the draft is recorded, and the row names what was written.
  lemma UninterruptedOutcome(record: Publication, ev: Evidence, edits: seq<Edit>, r: Repository)
    requires OwnBranch(record, r)
    ensures var s := Complete(Begin(record, ev, edits, r));
      && !s.Running?
      && (s.Ended? <==> CanPublish(record, ev, edits, r))
      && (s.Ended? ==>
            s.result == ResultOf(record, ev, edits, r) &&
            Head(s.remote, record.branch) == Some(s.result.commit) &&
            HasPull(s.remote, s.result.pull) &&
            PullHead(s.remote, s.result.pull) == Some(s.result.commit) &&
            s.remote.pulls[s.result.pull - 1].draft && s.remote.pulls[s.result.pull - 1].open &&
            s.row == record.(tree := Some(s.result.tree), commit := Some(s.result.commit),
                             remoteHead := Some(s.result.commit), pull := Some(s.result.pull),
                             check := Some(s.result.check)))
  {
    RunsTerminate(Begin(record, ev, edits, r));
    RunAsExpected(ALL_STEPS, record, ev, edits, r);
  }

  // What an uninterrupted publication makes: the tree and the commit that are recorded, or else the base
  // with the edits and a commit of it on the base; the branch at that commit; the recorded draft or a
  // new one; and the recorded check run or a new one of that commit.
  ghost predicate MadeInFull(
    record: Publication, ev: Evidence, edits: seq<Edit>, r: Repository, result: PublicationResult, after: Repository)
  {
    && result.tree == (if record.tree.Some? then record.tree.value else Overlay(record.base.tree, edits))
    && (record.commit.Some? ==> result.commit == record.commit.value)
    && (record.commit.None? ==>
          && result.commit.tree == result.tree && result.commit.parents == [record.base]
          && result.commit.message == MigrationMessage(record.migration) && result.commit.date == ev.completedAt)
    && after.refs == r.refs[record.branch := result.commit]
    && (record.pull.Some? ==> result.pull == record.pull.value && after.pulls == r.pulls)
    && (record.pull.None? ==>
          && |after.pulls| == |r.pulls| + 1 == result.pull && r.pulls <= after.pulls
          && after.pulls[|r.pulls|] == Pull(record.branch, ev.baseBranch, true, true))
    && (record.check.Some? ==> result.check == record.check.value && after.checks == r.checks)
    && (record.check.None? ==>
          && |after.checks| == |r.checks| + 1 == result.check && r.checks <= after.checks
          && after.checks[|r.checks|] == CheckRun(result.commit, record.migration, record.lastAttempt))
  }

  // An uninterrupted publication fails for the first thing in its way; if there is none, it ends
  // having made all of that and having recorded it.
  lemma PublishesInFull(record: Publication, ev: Evidence, edits: seq<Edit>, r: Repository)
    requires OwnBranch(record, r)
    ensures var s := Complete(Begin(record, ev, edits, r));
      match FirstObstacle(record, ev, edits, r)
      case Some(e) => s.Aborted? && s.error == e
      case None => s.Ended? && MadeInFull(record, ev, edits, r, s.result, s.remote)
  {
    RunsTerminate(Begin(record, ev, edits, r));
    RunAsExpected(ALL_STEPS, record, ev, edits, r);
  }

  // ----- Interruption -----

  // The row after the run stopped, failed, and was queued and claimed again for the same attempt.
  function Reclaimed(row: Publication, ev: Evidence): Publication {
    Requeued(row.(status := PublicationFailed), row.lastAttempt, ev).(status := Publishing)
  }

  // The two stops that lose a remote write: a draft opened but not recorded, and an existing
  // branch moved but not recorded.
  predicate LosesAWrite(s: Stage) {
    && s.Running?
    && (if s.worker.record.pull.None? then s.worker.pc == MarkPull else s.worker.pc == MarkBranch)
  }

  // The row was claimed for an attempt, whose base and patch it carries.
  ghost predicate ClaimedFor(record: Publication, ev: Evidence) {
    && record.status == Publishing && record.errorCode.None?
    && record.base == ev.base && record.patch == ev.patch.digest
  }

  lemma ResumedDraft(pc: Pc, record: Publication, ev: Evidence, edits: seq<Edit>, r: Repository)
    requires OwnBranch(record, r) && CanPublish(record, ev, edits, r)
    requires pc == MarkBranch && record.pull.Some? ==>
               Head(r, record.branch) != Some(CommitOf(record, ev, edits))
    ensures var s := StageAt(pc, record, ev, edits, r);
      OwnBranch(s.row, s.remote) &&
      (DraftUntouched(s.remote, s.row) <==> !(record.pull.Some? && pc == MarkBranch))
  {
    var s := StageAt(pc, record, ev, edits, r);
    if s.row.pull.Some? { assert HasPull(s.remote, s.row.pull.value); }
  }

  lemma ResumedBranch(pc: Pc, record: Publication, ev: Evidence, edits: seq<Edit>, r: Repository)
    requires OwnBranch(record, r) && CanPublish(record, ev, edits, r)
    ensures var s := StageAt(pc, record, ev, edits, r);
      && Head(s.remote, OtherBranch(ev.baseBranch)) == Some(s.row.base)
      && BranchFits(s.row, s.remote)
      && (s.row.pull.Some? ==> Head(s.remote, record.branch).Some?)
  {
  }

  lemma ResumedDrafting(pc: Pc, record: Publication, ev: Evidence, edits: seq<Edit>, r: Repository)
    requires OwnBranch(record, r) && CanPublish(record, ev, edits, r)
    ensures var s := StageAt(pc, record, ev, edits, r);
      (s.row.pull.None? ==> NoOpenDraft(s.remote, record.branch, ev.baseBranch)) <==>
        !(record.pull.None? && pc == MarkPull)
  {
    var s := StageAt(pc, record, ev, edits, r);
    if record.pull.None? && pc == MarkPull {
      var n := |r.pulls|;
      assert s.remote.pulls[n] == Pull(record.branch, ev.baseBranch, true, true);
    }
  }

  lemma ResumedOutcome(pc: Pc, record: Publication, ev: Evidence, edits: seq<Edit>, r: Repository)
    requires OwnBranch(record, r) && CanPublish(record, ev, edits, r)
    requires !(record.pull.None? && pc == MarkPull)
    ensures var s := StageAt(pc, record, ev, edits, r);
      var again, straight := EndOf(s.row, ev, edits, s.remote), EndOf(record, ev, edits, r);
      && again.result.tree == straight.result.tree
      && again.result.commit == straight.result.commit
      && again.result.pull == straight.result.pull
      && again.remote.refs == straight.remote.refs
      && again.remote.pulls == straight.remote.pulls
      && again.row.(check := None) == straight.row.(check := None)
      && |again.remote.checks| == |straight.remote.checks| +
           (if pc == MarkCheck && record.check.None? then 1 else 0)
  {
  }

  // What cannot go through cannot after any stop: the reason stays.
  lemma UnpublishableStays(pc: Pc, record: Publication, ev: Evidence, edits: seq<Edit>, r: Repository)
    requires OwnBranch(record, r) && CanReach(Rank(pc), record, ev, edits, r)
    requires !CanPublish(record, ev, edits, r)
    ensures var s := StageAt(pc, record, ev, edits, r);
      OwnBranch(s.row, s.remote) && !CanPublish(s.row, ev, edits, s.remote)
  {
    assert Rank(pc) <= 10;
    if record.pull.None? && !NoOpenDraft(r, record.branch, ev.baseBranch) {
      assert RemoteAt(Rank(pc), record, ev, edits, r).pulls == r.pulls;
    }
  }

  lemma StoppedRowIsClaimed(pc: Pc, record: Publication, ev: Evidence, edits: seq<Edit>, r: Repository)
    requires ClaimedFor(record, ev)
    ensures var row := RowAt(Rank(pc), record, ev, edits, r); ClaimedFor(row, ev) && Reclaimed(row, ev) == row
  {
  }

  lemma PublishableIsResumed(pc: Pc, record: Publication, ev: Evidence, edits: seq<Edit>, r: Repository)
    requires OwnBranch(record, r) && CanPublish(record, ev, edits, r)
    requires pc == MarkBranch && record.pull.Some? ==> Head(r, record.branch) != Some(CommitOf(record, ev, edits))
    ensures
      var stopped := StageAt(pc, record, ev, edits, r);
      var straight, again := Complete(Begin(record, ev, edits, r)),
                             Complete(Begin(stopped.row, ev, edits, stopped.remote));
      && straight.Ended?
      && (again.Ended? <==> !LosesAWrite(stopped))
      && (again.Ended? ==>
            && again.result.tree == straight.result.tree
            && again.result.commit == straight.result.commit
            && again.result.pull == straight.result.pull
            && again.remote.refs == straight.remote.refs
            && again.remote.pulls == straight.remote.pulls
            && again.row.(check := None) == straight.row.(check := None)
            && |again.remote.checks| == |straight.remote.checks| +
                 (if pc == MarkCheck && record.check.None? then 1 else 0))
  {
    var stopped := StageAt(pc, record, ev, edits, r);
    UninterruptedOutcome(record, ev, edits, r);
    RunAsExpected(ALL_STEPS, record, ev, edits, r);
    ResumedDraft(pc, record, ev, edits, r);
    ResumedBranch(pc, record, ev, edits, r);
    ResumedDrafting(pc, record, ev, edits, r);
    UninterruptedOutcome(stopped.row, ev, edits, stopped.remote);
    if !LosesAWrite(stopped) {
      ResumedOutcome(pc, record, ev, edits, r);
      RunAsExpected(ALL_STEPS, stopped.row, ev, edits, stopped.remote);
    }
  }

  // Stop a publication after any number of steps, let it fail, and run it again for the same
  // attempt on the repository it left. The second run goes through exactly when an uninterrupted one
  // would have and the stop did not lose a write, and then it ends with the tree, the commit, the
  // branch head, the draft and the row of an uninterrupted run; only a check whose number was lost is
  // made twice.
  lemma CrashConvergence(
    record: Publication, ev: Evidence, edits: seq<Edit>, r: Repository, steps: nat)
    requires OwnBranch(record, r) && ClaimedFor(record, ev)
    requires RunStage(Begin(record, ev, edits, r), steps).Running?
    ensures
      var straight := Complete(Begin(record, ev, edits, r));
      var stopped := RunStage(Begin(record, ev, edits, r), steps);
      var again := Complete(Begin(Reclaimed(stopped.row, ev), ev, edits, stopped.remote));
      && (again.Ended? <==> straight.Ended? && !LosesAWrite(stopped))
      && (again.Ended? ==>
            && again.result.tree == straight.result.tree
            && again.result.commit == straight.result.commit
            && again.result.pull == straight.result.pull
            && again.remote.refs == straight.remote.refs
            && again.remote.pulls == straight.remote.pulls
            && again.row.(check := None) == straight.row.(check := None)
            && |again.remote.checks| == |straight.remote.checks| +
                 (if stopped.worker.pc == MarkCheck && record.check.None? then 1 else 0))
  {
    UninterruptedOutcome(record, ev, edits, r);
    RunAsExpected(steps, record, ev, edits, r);
    var stopped := RunStage(Begin(record, ev, edits, r), steps);
    var pc := stopped.worker.pc;
    StoppedRowIsClaimed(pc, record, ev, edits, r);
    if CanPublish(record, ev, edits, r) {
      PublishableIsResumed(pc, record, ev, edits, r);
    } else {
      UnpublishableStays(pc, record, ev, edits, r);
      UninterruptedOutcome(stopped.row, ev, edits, stopped.remote);
    }
  }

  // ----- Any number of interruptions -----

  // Runs stopped after the given numbers of steps, each re-queued for the same attempt, then one
  // that is left alone.
  function Retry(record: Publication, ev: Evidence, edits: seq<Edit>, r: Repository, stops: seq<nat>): Stage
    decreases |stops|
  {
    if stops == [] then Complete(Begin(record, ev, edits, r))
    else
      var s := RunStage(Begin(record, ev, edits, r), stops[0]);
      if s.Running? then Retry(Reclaimed(s.row, ev), ev, edits, s.remote, stops[1..]) else s
  }

  ghost predicate NoStopLosesAWrite(
    record: Publication, ev: Evidence, edits: seq<Edit>, r: Repository, stops: seq<nat>)
    decreases |stops|
  {
    stops == [] ||
    var s := RunStage(Begin(record, ev, edits, r), stops[0]);
    s.Running? ==>
      !LosesAWrite(s) && NoStopLosesAWrite(Reclaimed(s.row, ev), ev, edits, s.remote, stops[1..])
  }

  // What cannot go through never does, however often it is tried.
  lemma {:induction false} UnpublishableNeverEnds(
    record: Publication, ev: Evidence, edits: seq<Edit>, r: Repository, stops: seq<nat>)
    requires OwnBranch(record, r) && ClaimedFor(record, ev) && !CanPublish(record, ev, edits, r)
    ensures !Retry(record, ev, edits, r, stops).Ended?
    decreases |stops|
  {
    if stops == [] {
      UninterruptedOutcome(record, ev, edits, r);
    } else {
      var s := RunStage(Begin(record, ev, edits, r), stops[0]);
      RunAsExpected(stops[0], record, ev, edits, r);
      if s.Running? {
        StoppedRowIsClaimed(s.worker.pc, record, ev, edits, r);
        UnpublishableStays(s.worker.pc, record, ev, edits, r);
        UnpublishableNeverEnds(s.row, ev, edits, s.remote, stops[1..]);
      }
    }
  }

  // After any number of stops the publication goes through exactly when an uninterrupted one would
  // have and none of the stops lost a write, and then with the same outcome.
  lemma {:induction false} AnyNumberOfCrashesConverges(
    record: Publication, ev: Evidence, edits: seq<Edit>, r: Repository, stops: seq<nat>)
    requires OwnBranch(record, r) && ClaimedFor(record, ev)
    ensures
      var straight := Complete(Begin(record, ev, edits, r));
      var again := Retry(record, ev, edits, r, stops);
      && (again.Ended? <==> straight.Ended? && NoStopLosesAWrite(record, ev, edits, r, stops))
      && (again.Ended? ==>
            && again.result.tree == straight.result.tree
            && again.result.commit == straight.result.commit
            && again.result.pull == straight.result.pull
            && again.remote.refs == straight.remote.refs
            && again.remote.pulls == straight.remote.pulls)
    decreases |stops|
  {
    UninterruptedOutcome(record, ev, edits, r);
    if !CanPublish(record, ev, edits, r) {
      UnpublishableNeverEnds(record, ev, edits, r, stops);
    } else if stops != [] {
      var s := RunStage(Begin(record, ev, edits, r), stops[0]);
      RunAsExpected(stops[0], record, ev, edits, r);
      RunAsExpected(ALL_STEPS, record, ev, edits, r);
      if s.Running? {
        CrashConvergence(record, ev, edits, r, stops[0]);
        StoppedRowIsClaimed(s.worker.pc, record, ev, edits, r);
        ResumedDraft(s.worker.pc, record, ev, edits, r);
        AnyNumberOfCrashesConverges(s.row, ev, edits, s.remote, stops[1..]);
      }
    }
  }

  // A new attempt drops the recorded commit. If an earlier publication was interrupted after it
  // created the branch and before it opened a draft, the branch is then taken for somebody else's:
  // publishing goes through exactly when, besides all else that is needed, the branch is gone.
  lemma RevisedFirstPublicationCollides(
    row: Publication, attempt: Id, ev: Evidence, edits: seq<Edit>, r: Repository)
    requires attempt != row.lastAttempt && row.pull.None? && row.branch.MigrationBranch?
    ensures var record := Requeued(row, attempt, ev).(status := Publishing);
      Complete(Begin(record, ev, edits, r)).Ended? <==>
        && Head(r, row.branch).None?
        && Head(r, OtherBranch(ev.baseBranch)) == Some(ev.base)
        && (forall i | 0 <= i < |edits| :: EditFits(ev.base.tree, edits[i]))
        && NoOpenDraft(r, row.branch, ev.baseBranch)
  {
    UninterruptedOutcome(Requeued(row, attempt, ev).(status := Publishing), ev, edits, r);
  }

  // ----- Two publications, step by step -----

  const BASE := Commit(map[], [], OtherMessage("base"), 0)
  const EDIT := Edit("a.py", None, "x = 1", ["step"])
  const EVIDENCE := Evidence(1, 7, BASE, "main", PatchEvidence(3, PatchDigest([EDIT])), [], Approve, 5)
  const RECORD := Publication(1, 1, 7, Publishing, MigrationBranch(1), BASE, PatchDigest([EDIT]),
                              None, None, None, None, None, None)
  const HUB := Repository(map[OtherBranch("main") := BASE], [], [])

  // The same migration with a draft of an earlier attempt.
  const OLD := Commit(map["a.py" := Entry(REGULAR, "x = 0")], [BASE], MigrationMessage(1), 4)
  const DRAFTED := RECORD.(remoteHead := Some(OLD), pull := Some(1))
  const DRAFT_HUB := Repository(map[OtherBranch("main") := BASE, MigrationBranch(1) := OLD],
                                [Pull(MigrationBranch(1), "main", true, true)], [])

  // A publication that has made nothing yet and can go through.
  ghost predicate Untried(record: Publication, r: Repository) {
    && OwnBranch(record, r) && ClaimedFor(record, EVIDENCE) && CanPublish(record, EVIDENCE, [EDIT], r)
    && record.tree.None? && record.commit.None? && record.check.None?
    && Head(r, record.branch) != Some(CommitOf(record, EVIDENCE, [EDIT]))
  }

  lemma ExamplesAreUntried()
    ensures Untried(RECORD, HUB) && Untried(DRAFTED, DRAFT_HUB)
  {
    assert CommitOf(DRAFTED, EVIDENCE, [EDIT]).date != OLD.date;
  }

  lemma NextPc(s: Stage, record: Publication, r: Repository)
    requires Untried(record, r) && StageOk(s)
    requires s.Running? && Expected(s, record, EVIDENCE, [EDIT], r) && Rank(s.worker.pc) <= 12
    ensures StepStage(s).Aborted? || (StepStage(s).Running? && Rank(StepStage(s).worker.pc) == Rank(s.worker.pc) + 1)
  {
  }

  // It takes one step after the other.
  lemma {:induction false} UntriedAt(record: Publication, r: Repository, steps: nat)
    requires Untried(record, r) && steps <= 13
    ensures var s := RunStage(Begin(record, EVIDENCE, [EDIT], r), steps);
      s.Running? && Rank(s.worker.pc) == steps
  {
    RunAsExpected(steps, record, EVIDENCE, [EDIT], r);
    if steps > 0 {
      UntriedAt(record, r, steps - 1);
      RunAsExpected(steps - 1, record, EVIDENCE, [EDIT], r);
      NextPc(RunStage(Begin(record, EVIDENCE, [EDIT], r), steps - 1), record, r);
    }
  }

  lemma LostWriteIsNotResumed(record: Publication, r: Repository, steps: nat)
    requires Untried(record, r) && steps == (if record.pull.None? then 11 else 9)
    ensures var stopped := RunStage(Begin(record, EVIDENCE, [EDIT], r), steps);
      && Complete(Begin(record, EVIDENCE, [EDIT], r)).Ended?
      && stopped.Running? && LosesAWrite(stopped)
      && !Complete(Begin(Reclaimed(stopped.row, EVIDENCE), EVIDENCE, [EDIT], stopped.remote)).Ended?
  {
    UninterruptedOutcome(record, EVIDENCE, [EDIT], r);
    UntriedAt(record, r, steps);
    RunAsExpected(steps, record, EVIDENCE, [EDIT], r);
    CrashConvergence(record, EVIDENCE, [EDIT], r, steps);
  }

  // So convergence does fail: a publication stopped between opening its draft and recording it can
  // never be resumed.
  lemma ALostDraftIsNotResumed()
    ensures var stopped := RunStage(Begin(RECORD, EVIDENCE, [EDIT], HUB), 11);
      && Complete(Begin(RECORD, EVIDENCE, [EDIT], HUB)).Ended?
      && stopped.Running? && LosesAWrite(stopped)
      && !Complete(Begin(Reclaimed(stopped.row, EVIDENCE), EVIDENCE, [EDIT], stopped.remote)).Ended?
  {
    ExamplesAreUntried();
    LostWriteIsNotResumed(RECORD, HUB, 11);
  }

  // Nor can one that is stopped between moving the branch of its draft and recording the move.
  lemma AMovedBranchIsNotResumed()
    ensures var stopped := RunStage(Begin(DRAFTED, EVIDENCE, [EDIT], DRAFT_HUB), 9);
      && Complete(Begin(DRAFTED, EVIDENCE, [EDIT], DRAFT_HUB)).Ended?
      && stopped.Running? && LosesAWrite(stopped)
      && !Complete(Begin(Reclaimed(stopped.row, EVIDENCE), EVIDENCE, [EDIT], stopped.remote)).Ended?
  {
    ExamplesAreUntried();
    LostWriteIsNotResumed(DRAFTED, DRAFT_HUB, 9);
  }

  // A check run whose number was lost is made again: two for the one commit.
  lemma ACheckRunIsMadeTwice()
    ensures var stopped := RunStage(Begin(RECORD, EVIDENCE, [EDIT], HUB), 13);
      && stopped.Running? && !LosesAWrite(stopped)
      && var again := Complete(Begin(Reclaimed(stopped.row, EVIDENCE), EVIDENCE, [EDIT], stopped.remote));
         && again.Ended?
         && again.remote.checks == [CheckRun(again.result.commit, 1, 7), CheckRun(again.result.commit, 1, 7)]
  {
    ExamplesAreUntried();
    UntriedAt(RECORD, HUB, 13);
    RunAsExpected(13, RECORD, EVIDENCE, [EDIT], HUB);
    var stopped := RunStage(Begin(RECORD, EVIDENCE, [EDIT], HUB), 13);
    UninterruptedOutcome(RECORD, EVIDENCE, [EDIT], HUB);
    CrashConvergence(RECORD, EVIDENCE, [EDIT], HUB, 13);
    StoppedRowIsClaimed(MarkCheck, RECORD, EVIDENCE, [EDIT], HUB);
    ResumedDraft(MarkCheck, RECORD, EVIDENCE, [EDIT], HUB);
    RunAsExpected(ALL_STEPS, stopped.row, EVIDENCE, [EDIT], stopped.remote);
  }

  // The evidence of a revision of the same migration.
  const REVISED := EVIDENCE.(attempt := 8, patch := PatchEvidence(4, PatchDigest([EDIT.(content := "x = 2")])))

  // A first publication stopped after it recorded its branch would have gone through, and would on
  // being tried again. Queued for a revision instead, it is refused: its own branch is in the way.
  lemma ARevisedFirstPublicationIsRefused()
    ensures var stopped := RunStage(Begin(RECORD, EVIDENCE, [EDIT], HUB), 10);
      && stopped.Running?
      && Complete(Begin(Reclaimed(stopped.row, EVIDENCE), EVIDENCE, [EDIT], stopped.remote)).Ended?
      && var revised := Requeued(stopped.row, REVISED.attempt, REVISED).(status := Publishing);
         !Complete(Begin(revised, REVISED, REVISED.patch.digest.edits, stopped.remote)).Ended?
  {
    ExamplesAreUntried();
    UntriedAt(RECORD, HUB, 10);
    RunAsExpected(10, RECORD, EVIDENCE, [EDIT], HUB);
    var stopped := RunStage(Begin(RECORD, EVIDENCE, [EDIT], HUB), 10);
    UninterruptedOutcome(RECORD, EVIDENCE, [EDIT], HUB);
    CrashConvergence(RECORD, EVIDENCE, [EDIT], HUB, 10);
    RevisedFirstPublicationCollides(stopped.row, REVISED.attempt, REVISED, REVISED.patch.digest.edits, stopped.remote);
  }
}
