// The declared lifecycle of migrations and of generation attempts, and what
// it means to walk it.
module Lifecycle {

  datatype MigrationStatus =
    | Queued | Planning | Generating | Verifying | Ready | NeedsRevision | Blocked
    | PrOpening | PrOpened | Snoozed | Declined | Approved | Completed

  datatype AttemptStatus =
    | AttemptCreated | AttemptPlanning | AttemptGenerating | AttemptVerifying
    | AttemptReviewing | AttemptCompleted | AttemptFailed | AttemptCancelled

  function MigrationTransitions(s: MigrationStatus): set<MigrationStatus> {
    match s
    case Queued => {Planning}
    case Planning => {Generating, Blocked}
    case Generating => {Verifying, NeedsRevision, Blocked}
    case Verifying => {Ready, NeedsRevision, Blocked}
    case Ready => {PrOpening, NeedsRevision, Snoozed, Declined}
    case NeedsRevision => {Planning}
    case Blocked => {Planning, PrOpening}
    case PrOpening => {PrOpened, Blocked}
    case PrOpened => {Approved, NeedsRevision, Snoozed, Declined}
    case Snoozed => {Queued}
    case Declined => {Queued}
    case Approved => {Completed}
    case Completed => {}
  }

  function AttemptTransitions(s: AttemptStatus): set<AttemptStatus> {
    match s
    case AttemptCreated => {AttemptPlanning, AttemptCancelled}
    case AttemptPlanning => {AttemptGenerating, AttemptFailed, AttemptCancelled}
    case AttemptGenerating => {AttemptVerifying, AttemptFailed, AttemptCancelled}
    case AttemptVerifying => {AttemptReviewing, AttemptFailed, AttemptCancelled}
    case AttemptReviewing => {AttemptCompleted, AttemptFailed, AttemptCancelled}
    case AttemptCompleted => {}
    case AttemptFailed => {}
    case AttemptCancelled => {}
  }

  // The statuses each status is entered from: one way to be verified and one to be ready, and so on.
  lemma MigrationEdgesInto(s: MigrationStatus)
    ensures Planning in MigrationTransitions(s) <==> s in {Queued, NeedsRevision, Blocked}
    ensures Generating in MigrationTransitions(s) <==> s == Planning
    ensures Verifying in MigrationTransitions(s) <==> s == Generating
    ensures Ready in MigrationTransitions(s) <==> s == Verifying
    ensures NeedsRevision in MigrationTransitions(s) <==> s in {Generating, Verifying, Ready, PrOpened}
    ensures Blocked in MigrationTransitions(s) <==> s in {Planning, Generating, Verifying, PrOpening}
    ensures PrOpening in MigrationTransitions(s) <==> s in {Ready, Blocked}
    ensures PrOpened in MigrationTransitions(s) <==> s == PrOpening
    ensures Approved in MigrationTransitions(s) <==> s == PrOpened
    ensures Snoozed in MigrationTransitions(s) <==> s in {Ready, PrOpened}
    ensures Declined in MigrationTransitions(s) <==> s in {Ready, PrOpened}
    ensures Queued in MigrationTransitions(s) <==> s in {Snoozed, Declined}
    ensures Completed in MigrationTransitions(s) <==> s == Approved
  {
  }

  lemma AttemptEdgesInto(s: AttemptStatus)
    ensures AttemptCreated !in AttemptTransitions(s)
    ensures AttemptPlanning in AttemptTransitions(s) <==> s == AttemptCreated
    ensures AttemptGenerating in AttemptTransitions(s) <==> s == AttemptPlanning
    ensures AttemptVerifying in AttemptTransitions(s) <==> s == AttemptGenerating
    ensures AttemptReviewing in AttemptTransitions(s) <==> s == AttemptVerifying
    ensures AttemptCompleted in AttemptTransitions(s) <==> s == AttemptReviewing
    ensures AttemptFailed in AttemptTransitions(s) <==>
      s in {AttemptPlanning, AttemptGenerating, AttemptVerifying, AttemptReviewing}
    ensures AttemptCancelled in AttemptTransitions(s) <==>
      s !in {AttemptCompleted, AttemptFailed, AttemptCancelled}
  {
  }

  datatype Transition = Next(version: int) | VersionConflict | Refused

  // The optimistic check every request passes through: the version first, then the edge.
  function ValidateTransition<S>(
    edges: S -> set<S>, current: S, requested: S, version: int, expected: int): (t: Transition)
    ensures t.Next? <==> version == expected && requested in edges(current)
    ensures t.Next? ==> t.version == expected + 1
    ensures t == VersionConflict <==> version != expected
  {
    if version != expected then VersionConflict
    else if requested !in edges(current) then Refused
    else Next(version + 1)
  }

  // `to` is reached from `from` along exactly `hops` declared edges.
  ghost predicate MigrationPath(from: MigrationStatus, to: MigrationStatus, hops: int)
    decreases hops
  {
    if hops <= 0 then hops == 0 && from == to
    else exists via :: MigrationPath(from, via, hops - 1) && to in MigrationTransitions(via)
  }

  ghost predicate AttemptPath(from: AttemptStatus, to: AttemptStatus, hops: int)
    decreases hops
  {
    if hops <= 0 then hops == 0 && from == to
    else exists via :: AttemptPath(from, via, hops - 1) && to in AttemptTransitions(via)
  }

  lemma MigrationEdge(from: MigrationStatus, to: MigrationStatus)
    requires to in MigrationTransitions(from)
    ensures MigrationPath(from, to, 1)
  {
    assert MigrationPath(from, from, 0);
  }

  lemma AttemptEdge(from: AttemptStatus, to: AttemptStatus)
    requires to in AttemptTransitions(from)
    ensures AttemptPath(from, to, 1)
  {
    assert AttemptPath(from, from, 0);
  }

  lemma {:induction false} MigrationPathsCompose(
    a: MigrationStatus, b: MigrationStatus, c: MigrationStatus, m: nat, n: nat)
    requires MigrationPath(a, b, m) && MigrationPath(b, c, n)
    ensures MigrationPath(a, c, m + n)
    decreases n
  {
    if n > 0 {
      var via :| MigrationPath(b, via, n - 1) && c in MigrationTransitions(via);
      MigrationPathsCompose(a, b, via, m, n - 1);
    }
  }

  lemma {:induction false} AttemptPathsCompose(
    a: AttemptStatus, b: AttemptStatus, c: AttemptStatus, m: nat, n: nat)
    requires AttemptPath(a, b, m) && AttemptPath(b, c, n)
    ensures AttemptPath(a, c, m + n)
    decreases n
  {
    if n > 0 {
      var via :| AttemptPath(b, via, n - 1) && c in AttemptTransitions(via);
      AttemptPathsCompose(a, b, via, m, n - 1);
    }
  }

  // Terminal attempt statuses have no way out, however long the path.
  lemma {:induction false} TerminalAttemptsStay(from: AttemptStatus, to: AttemptStatus, hops: nat)
    requires from in {AttemptCompleted, AttemptFailed, AttemptCancelled}
    requires AttemptPath(from, to, hops)
    ensures hops == 0 && to == from
    decreases hops
  {
    if hops > 0 {
      var via :| AttemptPath(from, via, hops - 1) && to in AttemptTransitions(via);
      TerminalAttemptsStay(from, via, hops - 1);
    }
  }
}
