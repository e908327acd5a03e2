// The whole system: the database, the artifact store, the GitHub repositories, the publication
// workers under way -- and everybody else who can write to those repositories.
//
// A publication worker is the only one that fails the publication it claimed. Nobody else writes a
// migration branch between a worker's read of it and its write; otherwise the environment may move
// any branch, open, close or ready any pull request and add check runs at any time. A pull request keeps
// its number and its branch, and a check run what it is of.
module World {
  import opened Artifacts
  import opened Git
  import opened Options
  import opened Remote
  import opened Rows
  import opened Text
  import opened Transactions
  import opened Verification
  import opened Publisher
  import opened Protocol

  const UNTOUCHED := Repository(map[], [], [])

  datatype Creation = Creation(migration: Id, attempt: Id, commit: Commit)

  datatype RecordedHead = RecordedHead(migration: Id, head: Commit)

  // The last four fields are history: which generation concluded an attempt, the commits the
  // publisher created and the branch heads it recorded, and the branches somebody else has moved
  // since a publisher last read them.
  datatype World = World(
    lower: Lowering,
    db: Db,
    objects: map<string, string>,
    remotes: map<Id, Repository>,
    workers: map<Id, Worker>,
    generations: map<Id, Generation>,
    created: set<Creation>,
    recorded: set<RecordedHead>,
    touched: set<(Id, Ref)>)

  datatype Happening =
    | Transaction(event: Event)
    | ArtifactPut(objectRef: string, text: string)
    | Generated(generation: Generation, artifact: Id, objectRef: string)
    | Claimed(p: Id)
    | WorkerSteps(p: Id)
    | WorkerFails(p: Id, code: string)
    | WorkerDies(p: Id)
    | EnvironmentActs(repository: Id, after: Repository)

  function RemoteOf(w: World, repository: Id): Repository {
    if repository in w.remotes then w.remotes[repository] else UNTOUCHED
  }

  function RemoteFor(w: World, record: Publication): Repository {
    RemoteOf(w, record.repository)
  }

  // ----- Claiming a publication -----

  // The worker a claim starts, if the artifact loads; otherwise the publication will be failed.
  function Opened(w: World, context: PublicationContext): Option<Worker> {
    var record := context.record;
    if record.lastAttempt !in w.db.attempts then None else
    var evidence := w.db.attempts[record.lastAttempt].data.evidence;
    if evidence.None? then None else
    var artifact := (record.lastAttempt, evidence.value.patch.artifact);
    if artifact !in w.db.artifacts then None else
    match LoadEdits(w.lower, w.objects, w.db.artifacts[artifact].objectRef, record.patch)
    case None => None
    case Some(edits) => Some(Start(record, evidence.value, edits))
  }

  function Claim(w: World, p: Id): World {
    var (db, context) := ClaimPublication(w.db, p);
    if context.None? then w else
    match Opened(w, context.value)
    case None => w.(db := db)
    case Some(worker) => w.(db := db, workers := w.workers[p := worker])
  }

  // ----- A worker's step -----

  function BranchOf(x: Worker): (Id, Ref) { (x.record.repository, x.record.branch) }

  function Record(db: Db, p: Id, c: Option<Checkpoint>): Db {
    if c.Some? then RecordCheckpoint(db, p, c.value) else db
  }

  // The commit object this step creates, if any.
  function Creates(x: Worker, x': Worker): set<Creation> {
    if x.pc == PostCommit && x.record.commit.None? && x'.commit.Some?
    then {Creation(x.record.migration, x.record.lastAttempt, x'.commit.value)} else {}
  }

  function Records(x: Worker, c: Option<Checkpoint>): set<RecordedHead> {
    if c.Some? && c.value.BranchCheckpoint? then {RecordedHead(x.record.migration, c.value.head)} else {}
  }

  function Proceeds(w: World, p: Id, x: Worker, x': Worker, r': Repository, c: Option<Checkpoint>)
    : World
  {
    w.(db := Record(w.db, p, c), remotes := w.remotes[x.record.repository := r'],
       workers := w.workers[p := x'], created := w.created + Creates(x, x'),
       recorded := w.recorded + Records(x, c),
       touched := if x.pc == ReadBranch then w.touched - {BranchOf(x)} else w.touched)
  }

  function Leaves(w: World, p: Id): World {
    w.(workers := w.workers - {p})
  }

  function Finishes(w: World, p: Id, x: Worker, result: PublicationResult): World {
    Leaves(w, p).(db := CompletePublication(w.db, PublicationContext(p, x.record), result).0,
                  recorded := w.recorded + {RecordedHead(x.record.migration, result.commit)})
  }

  function StepWorker(w: World, p: Id): World
    requires p in w.workers && Publisher.Ready(w.workers[p])
  {
    var x := w.workers[p];
    match Step(x, RemoteFor(w, x.record))
    case Proceed(x', r', c) => Proceeds(w, p, x, x', r', c)
    case Fail(_) => Leaves(w, p)
    case Finished(result) => Finishes(w, p, x, result)
  }

  // ----- The environment -----

  // Between the read of its branch and the write, a worker is alone with it.
  predicate Exposed(x: Worker) { 3 <= Rank(x.pc) <= 8 }

  ghost predicate KeepsPulls(r: Repository, r': Repository) {
    && |r.pulls| <= |r'.pulls|
    && forall i | 0 <= i < |r.pulls| :: r'.pulls[i].branch == r.pulls[i].branch
  }

  ghost predicate KeepsChecks(r: Repository, r': Repository) {
    && |r.checks| <= |r'.checks|
    && forall i | 0 <= i < |r.checks| :: r'.checks[i] == r.checks[i]
  }

  // Numbered things stay what they are.
  ghost predicate KeepsNumbered(r: Repository, r': Repository) {
    KeepsPulls(r, r') && KeepsChecks(r, r')
  }

  ghost predicate EnvironmentMay(w: World, repository: Id, r': Repository) {
    && KeepsNumbered(RemoteOf(w, repository), r')
    && forall p | p in w.workers && w.workers[p].record.repository == repository && Exposed(w.workers[p]) ::
         Head(r', w.workers[p].record.branch) == Head(RemoteOf(w, repository), w.workers[p].record.branch)
  }

  ghost function MovedBy(r: Repository, repository: Id, r': Repository): set<(Id, Ref)> {
    set b | b in r.refs.Keys + r'.refs.Keys && Head(r, b) != Head(r', b) :: (repository, b)
  }

  // ----- Steps and runs -----

  predicate FromOutside(e: Event) {
    e.MigrationFound? || e.Submitted? || e.AttemptClaimed? || e.AttemptFailing?
  }

  ghost predicate May(w: World, h: Happening) {
    match h
    case Transaction(event) => FromOutside(event)
    case Generated(g, _, objectRef) =>
      Concludes(g) && objectRef in w.objects && w.objects[objectRef] == Render(CanonicalPatch(g))
    case WorkerSteps(p) => p in w.workers && Publisher.Ready(w.workers[p])
    case EnvironmentActs(repository, after) => EnvironmentMay(w, repository, after)
    case _ => true
  }

  function PutArtifact(w: World, objectRef: string, text: string): World {
    if objectRef in w.objects then w else w.(objects := w.objects[objectRef := text])
  }

  ghost function Conclude(w: World, g: Generation, artifact: Id, objectRef: string): World {
    var evidence := EvidenceOf(g, artifact);
    var (db, outcome) := CompleteAttempt(w.db, g.context, evidence, objectRef);
    w.(db := db,
       generations := if outcome.Done? then w.generations[g.context.attempt := g] else w.generations)
  }

  function Abandon(w: World, p: Id, code: string): World {
    Leaves(w, p).(db := FailPublication(w.db, p, code))
  }

  ghost function Intervene(w: World, repository: Id, after: Repository): World {
    w.(remotes := w.remotes[repository := after],
       touched := w.touched + MovedBy(RemoteOf(w, repository), repository, after))
  }

  ghost function Happen(w: World, h: Happening): World
    requires May(w, h)
  {
    match h
    case Transaction(event) => w.(db := Apply(w.db, event))
    case ArtifactPut(objectRef, text) => PutArtifact(w, objectRef, text)
    case Generated(g, artifact, objectRef) => Conclude(w, g, artifact, objectRef)
    case Claimed(p) => Claim(w, p)
    case WorkerSteps(p) => StepWorker(w, p)
    case WorkerFails(p, code) => Abandon(w, p, code)
    case WorkerDies(p) => Leaves(w, p)
    case EnvironmentActs(repository, after) => Intervene(w, repository, after)
  }

  ghost predicate Possible(w: World, hs: seq<Happening>)
    decreases |hs|
  {
    hs == [] || (May(w, hs[0]) && Possible(Happen(w, hs[0]), hs[1..]))
  }

  ghost function After(w: World, hs: seq<Happening>): World
    requires Possible(w, hs)
    decreases |hs|
  {
    if hs == [] then w else After(Happen(w, hs[0]), hs[1..])
  }

  // Nothing has happened yet; the repositories hold whatever they hold.
  function Initial(lower: Lowering, remotes: map<Id, Repository>): World {
    World(lower, Db(map[], map[], map[], map[], map[], map[], []), map[], remotes, map[], map[], {}, {}, {})
  }
}
