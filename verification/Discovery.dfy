// How affected jobs become the migrations of the protocol: the completion of a job inserts a row that
// the three stores then own.
module Discovery {
  import opened Rows
  import opened Transactions
  import opened Coupling
  import opened Database
  import opened Protocol
  import Fanout

  // The migrations of the fan-out and of the protocol are the same rows: same identifiers, same
  // repositories.
  ghost predicate SameRows(found: map<Id, Fanout.Pair>, rows: map<Id, Migration>) {
    && (forall id | id in found :: id in rows && rows[id].repository == found[id].repository)
    && (forall id | id in rows :: id in found)
  }

  ghost predicate Agrees(f: Fanout.Fan, db: Db) {
    SameRows(f.migrations, db.migrations)
  }

  // ----- Running both -----

  datatype Joint = Joint(fan: Fanout.Fan, db: Db)

  // Something happens to a job, or one of the stores runs a transaction.
  datatype Move = OfJob(action: Fanout.Action) | OfStore(event: Event)

  predicate Discovers(f: Fanout.Fan, a: Fanout.Action) {
    a.Completes? && a.affected && a.job in f.claimed
  }

  ghost function Discovered(f: Fanout.Fan, a: Fanout.Action, db: Db): Db {
    if Discovers(f, a) then CreateMigration(db, f.name(a.job), a.job.repository) else db
  }

  ghost function Moved(j: Joint, m: Move): Joint {
    match m
    case OfJob(a) => Joint(Fanout.Apply(j.fan, a), Discovered(j.fan, a, j.db))
    case OfStore(e) => j.(db := Apply(j.db, e))
  }

  // The stores do not make up migrations.
  ghost predicate May(j: Joint, m: Move) {
    m.OfStore? ==> !m.event.MigrationFound? && Enabled(j.db, m.event)
  }

  ghost predicate Possible(j: Joint, moves: seq<Move>)
    decreases |moves|
  {
    moves == [] || (May(j, moves[0]) && Possible(Moved(j, moves[0]), moves[1..]))
  }

  ghost function After(j: Joint, moves: seq<Move>): Joint
    decreases |moves|
  {
    if moves == [] then j else After(Moved(j, moves[0]), moves[1..])
  }

  ghost function Start(name: Fanout.Naming): Joint {
    Joint(Fanout.Nothing(name), EMPTY)
  }

  // ----- Rows stay of their repository -----

  ghost predicate SameMigrations(db: Db, db': Db) {
    && db'.migrations.Keys == db.migrations.Keys
    && forall id | id in db.migrations :: db'.migrations[id].repository == db.migrations[id].repository
  }

  lemma RequestKeepsMigrations(db: Db, q: Request)
    ensures SameMigrations(db, Submit(db, q).0)
  {
    match q
    case DecisionRequested(r) => DecisionKeepsMigrations(db, r);
    case GenerationRequested(r) => GenerationKeepsMigrations(db, r);
    case PublicationRequested(r) => PublicationKeepsMigrations(db, r);
  }

  lemma DecisionKeepsMigrations(db: Db, r: DecisionRequest)
    ensures SameMigrations(db, Decide(db, r).0)
  {
  }

  lemma GenerationKeepsMigrations(db: Db, r: GenerateRequest)
    ensures SameMigrations(db, QueueAttempt(db, r).0)
  {
  }

  lemma PublicationKeepsMigrations(db: Db, r: PublishRequest)
    ensures SameMigrations(db, QueuePublication(db, r).0)
  {
  }

  lemma AttemptKeepsMigrations(db: Db, e: Event)
    requires e.AttemptClaimed? || e.AttemptDone? || e.AttemptFailing?
    ensures SameMigrations(db, Apply(db, e))
  {
  }

  lemma DraftKeepsMigrations(db: Db, e: Event)
    requires e.PublicationClaimed? || e.Checkpointed? || e.PublicationDone? || e.PublicationFailing?
    ensures SameMigrations(db, Apply(db, e))
  {
  }

  lemma EventKeepsMigrations(db: Db, e: Event)
    requires !e.MigrationFound?
    ensures SameMigrations(db, Apply(db, e))
  {
    if e.Submitted? { RequestKeepsMigrations(db, e.request); }
    else if e.AttemptClaimed? || e.AttemptDone? || e.AttemptFailing? { AttemptKeepsMigrations(db, e); }
    else { DraftKeepsMigrations(db, e); }
  }

  // ----- They keep agreeing -----

  lemma ActionAgrees(f: Fanout.Fan, a: Fanout.Action, db: Db)
    requires Fanout.FanOk(f) && Fanout.MigrationsOk(f) && Agrees(f, db)
    ensures Agrees(Fanout.Apply(f, a), Discovered(f, a, db))
  {
    if a.Completes? {
      CompletionAgrees(f, a.job, a.affected, db);
    } else {
      OthersFindNothing(f, a);
    }
  }

  lemma OthersFindNothing(f: Fanout.Fan, a: Fanout.Action)
    requires Fanout.FanOk(f) && Fanout.MigrationsOk(f) && !a.Completes?
    ensures Fanout.Apply(f, a).migrations == f.migrations
  {
    if a.Commits? { Fanout.CommitKeepsMigrations(f, a.commit); }
  }

  lemma CompletionAgrees(f: Fanout.Fan, p: Fanout.Pair, affected: bool, db: Db)
    requires Agrees(f, db)
    ensures Agrees(Fanout.CompleteJob(f, p, affected), Discovered(f, Fanout.Completes(p, affected), db))
  {
    if affected && p in f.claimed && f.name(p) !in f.migrations {
      RowAdded(f.migrations, db.migrations, f.name(p), p);
    }
  }

  lemma RowAdded(found: map<Id, Fanout.Pair>, rows: map<Id, Migration>, id: Id, p: Fanout.Pair)
    requires SameRows(found, rows)
    ensures SameRows(found[id := p], rows[id := NewMigration(p.repository)])
  {
  }

  // What is true of both together.
  ghost predicate JointOk(j: Joint) {
    Fanout.FanOk(j.fan) && Fanout.MigrationsOk(j.fan) && Inv(j.db) && Agrees(j.fan, j.db)
  }

  // The transactions a move runs.
  ghost function EventsOf(j: Joint, m: Move): seq<Event> {
    match m
    case OfJob(a) =>
      if Discovers(j.fan, a) then [MigrationFound(j.fan.name(a.job), a.job.repository)] else []
    case OfStore(e) => [e]
  }

  function ActionsOf(m: Move): seq<Fanout.Action> {
    if m.OfJob? then [m.action] else []
  }

  // What happens to jobs, in order.
  function ActionsIn(moves: seq<Move>): seq<Fanout.Action> {
    if moves == [] then [] else ActionsOf(moves[0]) + ActionsIn(moves[1..])
  }

  lemma MoveKeeps(j: Joint, m: Move)
    requires JointOk(j) && May(j, m)
    ensures JointOk(Moved(j, m))
  {
    match m
    case OfJob(a) =>
      Fanout.ActionKeeps(j.fan, a);
      Fanout.ActionKeepsMigrations(j.fan, a);
      ActionAgrees(j.fan, a, j.db);
      if Discovers(j.fan, a) { CreateMigrationKeeps(j.db, j.fan.name(a.job), a.job.repository); }
    case OfStore(e) =>
      StepKeeps(j.db, e);
      EventKeepsMigrations(j.db, e);
  }

  lemma MoveRuns(j: Joint, m: Move)
    requires May(j, m)
    ensures Runnable(j.db, EventsOf(j, m)) && Run(j.db, EventsOf(j, m)) == Moved(j, m).db
    ensures Fanout.Run(j.fan, ActionsOf(m)) == Moved(j, m).fan
  {
    match m
    case OfJob(a) => assert [a][1..] == [] && EventsOf(j, m) != [] ==> EventsOf(j, m)[1..] == [];
    case OfStore(e) => assert [e][1..] == [];
  }

  lemma {:induction false} FanRunConcat(f: Fanout.Fan, a: seq<Fanout.Action>, b: seq<Fanout.Action>)
    ensures Fanout.Run(f, a + b) == Fanout.Run(Fanout.Run(f, a), b)
    decreases |a|
  {
    if a == [] {
      assert a + b == b;
    } else {
      assert (a + b)[0] == a[0] && (a + b)[1..] == a[1..] + b;
      FanRunConcat(Fanout.Apply(f, a[0]), a[1..], b);
    }
  }

  // Running both is running each: the jobs make a run of the fan-out, the stores one of the protocol.
  lemma {:induction false} BothRun(j: Joint, moves: seq<Move>) returns (es: seq<Event>)
    requires JointOk(j) && Possible(j, moves)
    ensures JointOk(After(j, moves))
    ensures After(j, moves).fan == Fanout.Run(j.fan, ActionsIn(moves))
    ensures Runnable(j.db, es) && After(j, moves).db == Run(j.db, es)
    decreases |moves|
  {
    if moves == [] {
      es := [];
    } else {
      var m := moves[0];
      MoveKeeps(j, m);
      MoveRuns(j, m);
      var events := BothRun(Moved(j, m), moves[1..]);
      es := EventsOf(j, m) + events;
      FanRunConcat(j.fan, ActionsOf(m), ActionsIn(moves[1..]));
      RunConcat(j.db, EventsOf(j, m), events);
    }
  }

  lemma StartOk(name: Fanout.Naming)
    ensures JointOk(Start(name))
  {
    Fanout.NothingOk(name);
    EmptyOk();
  }

  lemma JobsMakeARun(name: Fanout.Naming, moves: seq<Move>)
    requires Possible(Start(name), moves)
    ensures After(Start(name), moves).fan == Fanout.Run(Fanout.Nothing(name), ActionsIn(moves))
    ensures Agrees(After(Start(name), moves).fan, After(Start(name), moves).db)
  {
    StartOk(name);
    var es := BothRun(Start(name), moves);
  }

  // Every migration the stores ever hold is of one affected job: it has the name of the job's event
  // and repository and belongs to that repository, the job was claimed, and no other migration is of
  // the same event and repository.
  lemma MigrationsAreOfJobs(name: Fanout.Naming, moves: seq<Move>, id: Id)
    requires Possible(Start(name), moves) && id in After(Start(name), moves).db.migrations
    ensures var j := After(Start(name), moves);
      && id in j.fan.migrations
      && var p := j.fan.migrations[id];
         && id == name(p) && j.db.migrations[id].repository == p.repository
         && p in j.fan.claimed && Fanout.HasJob(j.fan, p.event, p.repository)
         && (forall other | other in j.db.migrations && other in j.fan.migrations && j.fan.migrations[other] == p ::
               other == id)
  {
    JobsMakeARun(name, moves);
    Fanout.AtMostOneMigration(name, ActionsIn(moves), id);
  }

  // And a pair has a migration in the stores exactly if a worker that had claimed its job completed
  // it as affected.
  lemma StoresHoldWhatWasFound(name: Fanout.Naming, moves: seq<Move>, p: Fanout.Pair)
    requires Possible(Start(name), moves) && Fanout.Injective(name)
    ensures name(p) in After(Start(name), moves).db.migrations <==>
      Fanout.FoundSince(Fanout.Nothing(name), ActionsIn(moves), p)
  {
    JobsMakeARun(name, moves);
    FoundExactly(name, ActionsIn(moves), p);
    SameIdentifiers(After(Start(name), moves), name(p));
  }

  lemma SameIdentifiers(j: Joint, id: Id)
    requires Agrees(j.fan, j.db)
    ensures id in j.fan.migrations <==> id in j.db.migrations
  {
  }

  lemma FoundExactly(name: Fanout.Naming, actions: seq<Fanout.Action>, p: Fanout.Pair)
    requires Fanout.Injective(name)
    ensures name(p) in Fanout.Run(Fanout.Nothing(name), actions).migrations <==>
      Fanout.FoundSince(Fanout.Nothing(name), actions, p)
  {
    Fanout.MigrationsAreFound(name, actions, p);
    NamedRowsAreTheirs(name, actions, p);
  }

  lemma NamedRowsAreTheirs(name: Fanout.Naming, actions: seq<Fanout.Action>, p: Fanout.Pair)
    requires Fanout.Injective(name)
    ensures var f := Fanout.Run(Fanout.Nothing(name), actions);
      name(p) in f.migrations <==> Fanout.HasMigration(f, p)
  {
    Fanout.NothingOk(name);
    Fanout.RunKeepsMigrations(Fanout.Nothing(name), actions);
    var f := Fanout.Run(Fanout.Nothing(name), actions);
    if name(p) in f.migrations { assert f.name(f.migrations[name(p)]) == f.name(p); }
  }

  // ----- As it runs -----

  // The worker that holds the context inserts the migration, unless it is there, and ends the job.
  method CompleteJob(fan: Fanout.FanoutStore, store: Store, p: Fanout.Pair, affected: bool)
    requires store.Valid() && Agrees(fan.State(), store.State())
    modifies fan, store
    ensures store.Valid() && Agrees(fan.State(), store.State())
    ensures Joint(fan.State(), store.State()) ==
              old(Moved(Joint(fan.State(), store.State()), OfJob(Fanout.Completes(p, affected))))
  {
    if p !in fan.claimed { return; }
    if affected {
      var id := fan.name(p);
      store.AddMigration(id, p.repository);
      if id !in fan.migrations { fan.migrations := fan.migrations[id := p]; }
    }
    var moved := fan.Move(p.event, p.repository, Fanout.Analyzing, Fanout.DoneJob);
  }
}
