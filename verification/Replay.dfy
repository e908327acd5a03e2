// Idempotency and optimistic concurrency over whole runs. The replay lookup and the locked
// transaction are separate: anything may run between them.
module Replay {
  import opened Rows
  import opened Transactions
  import opened Coupling
  import opened Protocol

  ghost predicate Answered(db: Db, q: Request, response: Response) {
    var k := (OperationOf(q), KeyOf(q));
    k in db.idempotency && db.idempotency[k] == Stored(PayloadOf(q), response)
  }

  function ExpectedVersion(q: Request): int {
    match q
    case DecisionRequested(r) => r.expected
    case GenerationRequested(r) => r.expected
    case PublicationRequested(r) => r.expected
  }

  // A request that takes effect consumes exactly the version it expected, and leaves its answer.
  lemma SubmitConsumes(db: Db, q: Request)
    requires Inv(db) && Submit(db, q).1.Done?
    ensures var mid := OperationOf(q).migration;
      var (db', o) := Submit(db, q);
      && (OperationOf(q), KeyOf(q)) !in db.idempotency
      && mid in db.migrations && db.migrations[mid].version == ExpectedVersion(q)
      && mid in db'.migrations && db'.migrations[mid].version == ExpectedVersion(q) + 1
      && ResponseVersion(o.value) == ExpectedVersion(q) + 1
      && Answered(db', q, o.value)
  {
  }

  // A request whose key already has an answer changes nothing.
  lemma SubmitRefusesUsedKey(db: Db, q: Request)
    requires (OperationOf(q), KeyOf(q)) in db.idempotency
    ensures Submit(db, q).0 == db && Submit(db, q).1.Raised?
  {
  }

  lemma {:induction false} AnswersPersist(db: Db, es: seq<Event>, q: Request, response: Response)
    requires Inv(db) && Runnable(db, es) && Answered(db, q, response)
    ensures Answered(Run(db, es), q, response)
    decreases |es|
  {
    if es != [] {
      StepKeeps(db, es[0]);
      AnswersPersist(Apply(db, es[0]), es[1..], q, response);
    }
  }

  lemma {:induction false} VersionsOnlyGrow(db: Db, es: seq<Event>, mid: Id)
    requires Inv(db) && Runnable(db, es) && mid in db.migrations
    ensures mid in Run(db, es).migrations
    ensures db.migrations[mid].version <= Run(db, es).migrations[mid].version
    decreases |es|
  {
    if es != [] {
      StepKeeps(db, es[0]);
      VersionsOnlyGrow(Apply(db, es[0]), es[1..], mid);
    }
  }

  // After a request has succeeded, its repeat -- same operation, key and payload -- is answered
  // from the store at any later point, and inserting it anywhere changes no later state.
  lemma RepeatsAreReplayed(db: Db, q: Request, between: seq<Event>, again: Request, rest: seq<Event>)
    requires Inv(db) && Submit(db, q).1.Done?
    requires Runnable(Submit(db, q).0, between)
    requires OperationOf(again) == OperationOf(q) && KeyOf(again) == KeyOf(q)
    requires PayloadOf(again) == PayloadOf(q)
    ensures var later := Run(Submit(db, q).0, between);
      && LookUp(later, OperationOf(q), KeyOf(q), PayloadOf(q)) == Replayed(Submit(db, q).1.value)
      && Submit(later, again).0 == later
    ensures Run(Submit(db, q).0, between + [Submitted(again)] + rest) ==
            Run(Submit(db, q).0, between + rest)
  {
    var start := Submit(db, q).0;
    StepKeeps(db, Submitted(q));
    SubmitConsumes(db, q);
    AnswersPersist(start, between, q, Submit(db, q).1.value);
    var later := Run(start, between);
    SubmitRefusesUsedKey(later, again);
    RunConcat(start, between + [Submitted(again)], rest);
    RunConcat(start, between, [Submitted(again)]);
    RunConcat(start, between, rest);
    assert Run(later, [Submitted(again)]) == Run(Apply(later, Submitted(again)), []);
  }

  // A key that was used with another payload is reported, never replayed.
  lemma ReusedKeysAreReported(db: Db, q: Request, between: seq<Event>, other: Payload)
    requires Inv(db) && Submit(db, q).1.Done?
    requires Runnable(Submit(db, q).0, between) && other != PayloadOf(q)
    ensures LookUp(Run(Submit(db, q).0, between), OperationOf(q), KeyOf(q), other) == Reused
  {
    StepKeeps(db, Submitted(q));
    SubmitConsumes(db, q);
    AnswersPersist(Submit(db, q).0, between, q, Submit(db, q).1.value);
  }

  // Two requests that both take effect in a run, whatever happened in between, differ in
  // operation or key; and on one migration the later one consumes a later version.
  lemma EachRequestTakesEffectOnce(db: Db, q: Request, between: seq<Event>, q': Request)
    requires Inv(db) && Submit(db, q).1.Done?
    requires Runnable(Submit(db, q).0, between)
    requires Submit(Run(Submit(db, q).0, between), q').1.Done?
    ensures (OperationOf(q), KeyOf(q)) != (OperationOf(q'), KeyOf(q'))
    ensures OperationOf(q).migration == OperationOf(q').migration ==>
              ExpectedVersion(q) < ExpectedVersion(q')
  {
    var start := Submit(db, q).0;
    var later := Run(start, between);
    StepKeeps(db, Submitted(q));
    RunsKeep(start, between);
    SubmitConsumes(db, q);
    SubmitConsumes(later, q');
    AnswersPersist(start, between, q, Submit(db, q).1.value);
    VersionsOnlyGrow(start, between, OperationOf(q).migration);
  }
}
