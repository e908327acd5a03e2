// Ingestion and fan-out: how captured changes become events, events become one job per enabled
// repository, and affected jobs become migrations. A job's identifier is a digest of its event and
// its repository, and is modelled by the pair; a migration's is the name another digest gives it.
module Fanout {
  import opened Options
  import opened Rows

  datatype Pair = Pair(event: Id, repository: Id)

  // The identifier of a migration, from its change event and its repository.
  type Naming = Pair -> Id

  ghost predicate Injective(name: Naming) {
    forall p, q {:trigger name(p), name(q)} :: name(p) == name(q) ==> p == q
  }

  datatype Change = Change(id: Id, dedupe: string)

  // The columns that are unique together, of an event and of a stored answer.
  datatype EventKey = EventKey(provider: Id, dedupe: string)

  datatype AnswerKey = AnswerKey(source: Id, key: Key)

  datatype JobStatus = QueuedJob | Analyzing | DoneJob | FailedJob

  datatype IngestionResult = IngestionResult(events: seq<Id>, fanout: nat)

  datatype Answer = Answer(hash: string, result: IngestionResult)

  datatype Fan = Fan(
    name: Naming,
    enabled: set<Id>,                      // the enabled repositories
    events: map<EventKey, Id>,         // unique on provider and dedupe key
    order: seq<Id>,                        // events in the order they were inserted
    jobs: map<Id, map<Id, JobStatus>>,     // by event, then by repository
    answers: map<AnswerKey, Answer>,       // by source and idempotency key
    claimed: set<Pair>,                    // the jobs whose contexts were handed to a worker
    migrations: map<Id, Pair>)             // their event and repository columns

  function Nothing(name: Naming): Fan {
    Fan(name, {}, map[], [], map[], map[], {}, map[])
  }

  function JobCount(jobs: map<Id, map<Id, JobStatus>>, order: seq<Id>): nat {
    if order == [] then 0
    else
      var last := order[|order| - 1];
      JobCount(jobs, order[..|order| - 1]) + if last in jobs then |jobs[last]| else 0
  }

  function AllQueued(repositories: set<Id>): map<Id, JobStatus> {
    map r | r in repositories :: QueuedJob
  }

  // ----- Committing a captured artifact -----

  datatype Batch = Batch(fan: Fan, events: seq<Id>, fanout: nat)

  function WithEvent(f: Fan, k: EventKey, event: Id): Fan {
    f.(events := f.events[k := event], order := f.order + [event],
       jobs := f.jobs[event := AllQueued(f.enabled)])
  }

  // One change: an event of the same dedupe key stands; otherwise the event is inserted, with a job
  // for every enabled repository.
  function AddChange(b: Batch, provider: Id, c: Change): Option<Batch> {
    var k := EventKey(provider, c.dedupe);
    if k in b.fan.events then Some(b.(events := b.events + [b.fan.events[k]]))
    else if c.id in b.fan.jobs then None
    else Some(Batch(WithEvent(b.fan, k, c.id), b.events + [c.id], b.fanout + |b.fan.enabled|))
  }

  function AddChanges(b: Batch, provider: Id, changes: seq<Change>): Option<Batch>
    decreases |changes|
  {
    if changes == [] then Some(b)
    else
      var before := AddChanges(b, provider, changes[..|changes| - 1]);
      if before.None? then None else AddChange(before.value, provider, changes[|changes| - 1])
  }

  datatype Commit = Commit(source: Id, provider: Id, key: Key, hash: string, changes: seq<Change>)

  datatype Outcome = Committed(result: IngestionResult) | Replayed(result: IngestionResult) | Refused

  // The unlocked lookup, and the transaction that follows it at any later time.
  function LookUp(f: Fan, c: Commit): Option<Outcome> {
    if AnswerKey(c.source, c.key) !in f.answers then None
    else if f.answers[AnswerKey(c.source, c.key)].hash != c.hash then Some(Refused)
    else Some(Replayed(f.answers[AnswerKey(c.source, c.key)].result))
  }

  function Transact(f: Fan, c: Commit): (Fan, Outcome) {
    match AddChanges(Batch(f, [], 0), c.provider, c.changes)
    case None => (f, Refused)
    case Some(b) =>
      if AnswerKey(c.source, c.key) in f.answers then (f, Refused)
      else
        var result := IngestionResult(b.events, b.fanout);
        (b.fan.(answers := f.answers[AnswerKey(c.source, c.key) := Answer(c.hash, result)]), Committed(result))
  }

  // ----- Jobs -----

  predicate HasJob(f: Fan, event: Id, repository: Id) {
    event in f.jobs && repository in f.jobs[event]
  }

  function Moved(f: Fan, event: Id, repository: Id, from: JobStatus, to: JobStatus): Fan {
    if HasJob(f, event, repository) && f.jobs[event][repository] == from
    then f.(jobs := f.jobs[event := f.jobs[event][repository := to]])
    else f
  }

  // Claiming hands the worker a context, if the repository is enabled and its metadata are there; if
  // not, the job stays claimed until it is failed.
  function ClaimJob(f: Fan, p: Pair, ready: bool): Fan {
    if HasJob(f, p.event, p.repository) && f.jobs[p.event][p.repository] == QueuedJob &&
       ready && p.repository in f.enabled
    then Moved(f, p.event, p.repository, QueuedJob, Analyzing).(claimed := f.claimed + {p})
    else Moved(f, p.event, p.repository, QueuedJob, Analyzing)
  }

  // A second insert of the same migration does nothing. (The index over event and repository cannot
  // be hit: what has the same event and repository has the same identifier.)
  function WithMigration(f: Fan, p: Pair): Fan {
    if f.name(p) in f.migrations then f else f.(migrations := f.migrations[f.name(p) := p])
  }

  // Only a worker that holds the job's context can complete it.
  function CompleteJob(f: Fan, p: Pair, affected: bool): Fan {
    if p !in f.claimed then f
    else Moved(if affected then WithMigration(f, p) else f, p.event, p.repository, Analyzing, DoneJob)
  }

  // ----- Runs -----

  datatype Action =
    | Commits(commit: Commit)
    | SetRepository(id: Id, on: bool)
    | Claims(job: Pair, ready: bool)
    | Completes(job: Pair, affected: bool)
    | Fails(job: Pair)

  function Apply(f: Fan, a: Action): Fan {
    match a
    case Commits(c) => Transact(f, c).0
    case SetRepository(id, on) => f.(enabled := if on then f.enabled + {id} else f.enabled - {id})
    case Claims(p, ready) => ClaimJob(f, p, ready)
    case Completes(p, affected) => CompleteJob(f, p, affected)
    case Fails(p) => Moved(f, p.event, p.repository, Analyzing, FailedJob)
  }

  function Run(f: Fan, actions: seq<Action>): Fan
    decreases |actions|
  {
    if actions == [] then f else Run(Apply(f, actions[0]), actions[1..])
  }

  // The fan-out an action reports: nothing unless a commit takes effect.
  function Reported(f: Fan, a: Action): nat {
    if a.Commits? && Transact(f, a.commit).1.Committed? then Transact(f, a.commit).1.result.fanout else 0
  }

  function ReportedByRun(f: Fan, actions: seq<Action>): nat
    decreases |actions|
  {
    if actions == [] then 0 else Reported(f, actions[0]) + ReportedByRun(Apply(f, actions[0]), actions[1..])
  }

  // ----- What stays -----

  ghost predicate NoRepeats(order: seq<Id>) {
    forall i, j | 0 <= i < j < |order| :: order[i] != order[j]
  }

  // The insertion order lists exactly the events that have jobs rows, each once, and every event found
  // by its dedupe key is one of them.
  ghost predicate FanOk(f: Fan) {
    && NoRepeats(f.order)
    && (forall i | 0 <= i < |f.order| :: f.order[i] in f.jobs)
    && (forall e | e in f.jobs :: e in f.order)
    && (forall k | k in f.events :: f.events[k] in f.jobs)
  }

  // Events stay, and each keeps exactly the jobs it has.
  ghost predicate Keeps(f: Fan, f': Fan) {
    && (forall k | k in f.events :: k in f'.events && f'.events[k] == f.events[k])
    && (forall e | e in f.jobs :: e in f'.jobs && f'.jobs[e].Keys == f.jobs[e].Keys)
  }

  // The event has a job for exactly the repositories.
  ghost predicate FannedOut(f: Fan, event: Id, repositories: set<Id>) {
    event in f.jobs && f.jobs[event].Keys == repositories
  }

  // The events of a later state that are not in the earlier one have been fanned out.
  ghost predicate NewFannedOut(f: Fan, f': Fan, repositories: set<Id>) {
    forall k | k in f'.events && k !in f.events :: FannedOut(f', f'.events[k], repositories)
  }

  ghost predicate AllStored(f: Fan, provider: Id, changes: seq<Change>) {
    forall i | 0 <= i < |changes| :: EventKey(provider, changes[i].dedupe) in f.events
  }

  ghost predicate Extends(b: Batch, b': Batch) {
    && FanOk(b'.fan) && Keeps(b.fan, b'.fan) && NewFannedOut(b.fan, b'.fan, b.fan.enabled)
    && b'.fan == b.fan.(events := b'.fan.events, order := b'.fan.order, jobs := b'.fan.jobs)
    && (forall e | e in b.fan.jobs :: b'.fan.jobs[e] == b.fan.jobs[e])
    && JobCount(b'.fan.jobs, b'.fan.order) - b'.fanout == JobCount(b.fan.jobs, b.fan.order) - b.fanout
  }

  // Rows of jobs may change as long as each event keeps as many.
  lemma {:induction false} CountStays(
    jobs: map<Id, map<Id, JobStatus>>, jobs': map<Id, map<Id, JobStatus>>, order: seq<Id>)
    requires forall i | 0 <= i < |order| ::
      order[i] in jobs && order[i] in jobs' && jobs[order[i]].Keys == jobs'[order[i]].Keys
    ensures JobCount(jobs', order) == JobCount(jobs, order)
    decreases |order|
  {
    if order != [] {
      var front, last := order[..|order| - 1], order[|order| - 1];
      assert forall i | 0 <= i < |front| :: front[i] == order[i];
      CountStays(jobs, jobs', front);
      SameKeysSameSize(jobs[last], jobs'[last]);
    }
  }

  lemma SameKeysSameSize(a: map<Id, JobStatus>, b: map<Id, JobStatus>)
    requires a.Keys == b.Keys
    ensures |a| == |b|
  {
    assert |a| == |a.Keys| && |b| == |b.Keys|;
  }

  lemma AllQueuedSize(repositories: set<Id>)
    ensures AllQueued(repositories).Keys == repositories && |AllQueued(repositories)| == |repositories|
  {
    assert AllQueued(repositories).Keys == repositories;
    assert |AllQueued(repositories)| == |AllQueued(repositories).Keys|;
  }

  // ----- What commits do -----

  lemma NewEventCounts(f: Fan, k: EventKey, event: Id)
    requires FanOk(f) && event !in f.jobs
    ensures var f' := WithEvent(f, k, event);
      JobCount(f'.jobs, f'.order) == JobCount(f.jobs, f.order) + |f.enabled|
  {
    var f' := WithEvent(f, k, event);
    assert f'.order[..|f'.order| - 1] == f.order;
    assert forall i | 0 <= i < |f.order| :: f.order[i] in f.jobs && f.order[i] != event;
    CountStays(f.jobs, f'.jobs, f.order);
    AllQueuedSize(f.enabled);
  }

  lemma NewEventKeeps(f: Fan, k: EventKey, event: Id)
    requires FanOk(f) && event !in f.jobs && k !in f.events
    ensures var f' := WithEvent(f, k, event);
      Keeps(f, f') && forall e | e in f.jobs :: f'.jobs[e] == f.jobs[e]
  {
  }

  lemma NewEventFansOut(f: Fan, k: EventKey, event: Id)
    requires FanOk(f) && event !in f.jobs && k !in f.events
    ensures NewFannedOut(f, WithEvent(f, k, event), f.enabled)
  {
    AllQueuedSize(f.enabled);
  }

  lemma NewEventExtends(b: Batch, k: EventKey, event: Id)
    requires FanOk(b.fan) && event !in b.fan.jobs && k !in b.fan.events
    ensures Extends(b, Batch(WithEvent(b.fan, k, event), b.events + [event], b.fanout + |b.fan.enabled|))
  {
    NewEventOk(b.fan, k, event);
    NewEventKeeps(b.fan, k, event);
    NewEventFansOut(b.fan, k, event);
    NewEventCounts(b.fan, k, event);
  }

  lemma NewEventOk(f: Fan, k: EventKey, event: Id)
    requires FanOk(f) && event !in f.jobs
    ensures FanOk(WithEvent(f, k, event))
  {
    var f' := WithEvent(f, k, event);
    forall e | e in f'.jobs ensures e in f'.order {
      if e == event { assert f'.order[|f.order|] == event; }
    }
    assert forall i | 0 <= i < |f.order| :: f.order[i] in f.jobs;
  }

  lemma ChangeExtends(b: Batch, provider: Id, c: Change)
    requires FanOk(b.fan) && AddChange(b, provider, c).Some?
    ensures Extends(b, AddChange(b, provider, c).value)
    ensures EventKey(provider, c.dedupe) in AddChange(b, provider, c).value.fan.events
  {
    if EventKey(provider, c.dedupe) !in b.fan.events { NewEventExtends(b, EventKey(provider, c.dedupe), c.id); }
  }

  lemma ExtensionsJoin(a: Batch, b: Batch, c: Batch)
    requires Extends(a, b) && Extends(b, c)
    ensures Extends(a, c)
  {
  }

  // Adding changes is adding all but the last, and then the last.
  lemma AddedLast(b: Batch, provider: Id, changes: seq<Change>)
    requires changes != [] && AddChanges(b, provider, changes).Some?
    ensures var front, last := changes[..|changes| - 1], changes[|changes| - 1];
      && front + [last] == changes
      && AddChanges(b, provider, front).Some?
      && AddChange(AddChanges(b, provider, front).value, provider, last) == AddChanges(b, provider, changes)
  {
  }

  // The batch has taken in all the changes.
  ghost predicate Took(b: Batch, b': Batch, provider: Id, changes: seq<Change>) {
    Extends(b, b') && AllStored(b'.fan, provider, changes)
  }

  lemma TookNothing(b: Batch, provider: Id)
    requires FanOk(b.fan)
    ensures Took(b, b, provider, [])
  {
  }

  lemma {:induction false} ChangesExtend(b: Batch, provider: Id, changes: seq<Change>)
    requires FanOk(b.fan) && AddChanges(b, provider, changes).Some?
    ensures Took(b, AddChanges(b, provider, changes).value, provider, changes)
    decreases |changes|
  {
    if changes == [] {
      TookNothing(b, provider);
    } else {
      var front, last := changes[..|changes| - 1], changes[|changes| - 1];
      AddedLast(b, provider, changes);
      ChangesExtend(b, provider, front);
      LastChangeExtends(b, AddChanges(b, provider, front).value, provider, front, last);
    }
  }

  lemma LastChangeExtends(b: Batch, m: Batch, provider: Id, front: seq<Change>, last: Change)
    requires Took(b, m, provider, front) && AddChange(m, provider, last).Some?
    ensures Took(b, AddChange(m, provider, last).value, provider, front + [last])
  {
    ChangeExtends(m, provider, last);
    ExtensionsJoin(b, m, AddChange(m, provider, last).value);
  }

  lemma TransactionExtends(f: Fan, c: Commit)
    requires FanOk(f)
    ensures var (f', o) := Transact(f, c);
      && FanOk(f') && Keeps(f, f') && NewFannedOut(f, f', f.enabled)
      && JobCount(f'.jobs, f'.order) == JobCount(f.jobs, f.order) + Reported(f, Commits(c))
      && (o.Committed? ==> AllStored(f', c.provider, c.changes))
  {
    if Transact(f, c).1.Committed? {
      var b := CommitIs(f, c);
      ChangesExtend(Batch(f, [], 0), c.provider, c.changes);
      AnswerChangesNothing(f, b, Transact(f, c).0, c.provider, c.changes);
    }
  }

  // What a commit that takes effect leaves and reports.
  lemma CommitIs(f: Fan, c: Commit) returns (b: Batch)
    requires Transact(f, c).1.Committed?
    ensures AddChanges(Batch(f, [], 0), c.provider, c.changes) == Some(b)
    ensures Transact(f, c).0 == b.fan.(answers := Transact(f, c).0.answers)
    ensures Reported(f, Commits(c)) == b.fanout
  {
    b := AddChanges(Batch(f, [], 0), c.provider, c.changes).value;
  }

  lemma AnswerChangesNothing(f: Fan, b: Batch, f': Fan, provider: Id, changes: seq<Change>)
    requires FanOk(f) && Took(Batch(f, [], 0), b, provider, changes) && f' == b.fan.(answers := f'.answers)
    ensures FanOk(f') && Keeps(f, f') && NewFannedOut(f, f', f.enabled) && AllStored(f', provider, changes)
    ensures JobCount(f'.jobs, f'.order) == JobCount(f.jobs, f.order) + b.fanout
  {
  }

  // ----- What any action does -----

  lemma MoveKeeps(f: Fan, event: Id, repository: Id, from: JobStatus, to: JobStatus)
    requires FanOk(f)
    ensures var f' := Moved(f, event, repository, from, to);
      FanOk(f') && Keeps(f, f') && JobCount(f'.jobs, f'.order) == JobCount(f.jobs, f.order)
  {
    CountStays(f.jobs, Moved(f, event, repository, from, to).jobs, f.order);
  }

  // The same events with the same jobs, and as many.
  ghost predicate KeepsJobs(f: Fan, f': Fan) {
    FanOk(f') && Keeps(f, f') && JobCount(f'.jobs, f'.order) == JobCount(f.jobs, f.order)
  }

  lemma ClaimKeeps(f: Fan, p: Pair, ready: bool)
    requires FanOk(f)
    ensures KeepsJobs(f, ClaimJob(f, p, ready))
  {
    MoveKeeps(f, p.event, p.repository, QueuedJob, Analyzing);
  }

  lemma CompletionKeeps(f: Fan, p: Pair, affected: bool)
    requires FanOk(f)
    ensures KeepsJobs(f, CompleteJob(f, p, affected))
  {
    var f' := if affected then WithMigration(f, p) else f;
    assert f' == f.(migrations := f'.migrations);
    MoveKeeps(f', p.event, p.repository, Analyzing, DoneJob);
  }

  lemma ActionKeeps(f: Fan, a: Action)
    requires FanOk(f)
    ensures var f' := Apply(f, a);
      && FanOk(f') && Keeps(f, f')
      && JobCount(f'.jobs, f'.order) == JobCount(f.jobs, f.order) + Reported(f, a)
  {
    match a
    case Commits(c) => TransactionExtends(f, c);
    case SetRepository(_, _) =>
    case Claims(p, ready) => ClaimKeeps(f, p, ready);
    case Completes(p, affected) => CompletionKeeps(f, p, affected);
    case Fails(p) => MoveKeeps(f, p.event, p.repository, Analyzing, FailedJob);
  }

  lemma {:induction false} RunKeeps(f: Fan, actions: seq<Action>)
    requires FanOk(f)
    ensures var f' := Run(f, actions);
      && FanOk(f') && Keeps(f, f')
      && JobCount(f'.jobs, f'.order) == JobCount(f.jobs, f.order) + ReportedByRun(f, actions)
    decreases |actions|
  {
    if actions != [] {
      ActionKeeps(f, actions[0]);
      RunKeeps(Apply(f, actions[0]), actions[1..]);
    }
  }

  // ----- The theorems -----

  // The jobs there are.
  ghost function Jobs(f: Fan): set<Pair> {
    set e, r | e in f.jobs && r in f.jobs[e] :: Pair(e, r)
  }

  // Those of the listed events.
  ghost function JobsOf(jobs: map<Id, map<Id, JobStatus>>, order: seq<Id>): set<Pair> {
    set e, r | e in order && e in jobs && r in jobs[e] :: Pair(e, r)
  }

  ghost function PairsOf(event: Id, repositories: set<Id>): set<Pair> {
    set r | r in repositories :: Pair(event, r)
  }

  lemma Pick<T>(s: set<T>) returns (x: T)
    requires s != {}
    ensures x in s
  {
    x :| x in s;
  }

  lemma {:induction false} PairsSize(event: Id, repositories: set<Id>)
    ensures |PairsOf(event, repositories)| == |repositories|
    decreases |repositories|
  {
    if repositories != {} {
      var r := Pick(repositories);
      PairsSize(event, repositories - {r});
      assert PairsOf(event, repositories) == PairsOf(event, repositories - {r}) + {Pair(event, r)};
    }
  }

  lemma JobsOfLast(jobs: map<Id, map<Id, JobStatus>>, front: seq<Id>, last: Id)
    requires last in jobs && last !in front
    ensures |JobsOf(jobs, front + [last])| == |JobsOf(jobs, front)| + |PairsOf(last, jobs[last].Keys)|
  {
    var before, added := JobsOf(jobs, front), PairsOf(last, jobs[last].Keys);
    assert JobsOf(jobs, front + [last]) == before + added;
    assert before !! added;
  }

  lemma {:induction false} CountIsSize(jobs: map<Id, map<Id, JobStatus>>, order: seq<Id>)
    requires NoRepeats(order) && forall i | 0 <= i < |order| :: order[i] in jobs
    ensures JobCount(jobs, order) == |JobsOf(jobs, order)|
    decreases |order|
  {
    if order == [] {
      assert JobsOf(jobs, order) == {};
    } else {
      var front, last := order[..|order| - 1], order[|order| - 1];
      assert order == front + [last];
      assert forall i | 0 <= i < |front| :: front[i] == order[i] && front[i] != last;
      CountIsSize(jobs, front);
      PairsSize(last, jobs[last].Keys);
      assert |jobs[last]| == |jobs[last].Keys|;
      JobsOfLast(jobs, front, last);
    }
  }

  // The fan-out counts reported by the commits that took effect add up to the number of jobs.
  lemma ReportsAddUp(name: Naming, actions: seq<Action>)
    ensures |Jobs(Run(Nothing(name), actions))| == ReportedByRun(Nothing(name), actions)
  {
    var f := Run(Nothing(name), actions);
    RunKeeps(Nothing(name), actions);
    CountIsSize(f.jobs, f.order);
    assert Jobs(f) == JobsOf(f.jobs, f.order);
  }

  // An event first stored by a commit has, at any later point of the run, a job for exactly the
  // repositories that were enabled at that commit -- whatever is replayed, committed again, added
  // or disabled afterwards.
  lemma FanOutExactlyOnce(name: Naming, before: seq<Action>, c: Commit, after: seq<Action>, i: nat)
    requires i < |c.changes|
    requires var f := Run(Nothing(name), before);
      Transact(f, c).1.Committed? && EventKey(c.provider, c.changes[i].dedupe) !in f.events
    ensures var f := Run(Nothing(name), before);
      var later := Run(Transact(f, c).0, after);
      && EventKey(c.provider, c.changes[i].dedupe) in later.events
      && FannedOut(later, later.events[EventKey(c.provider, c.changes[i].dedupe)], f.enabled)
  {
    RunKeeps(Nothing(name), before);
    TransactionExtends(Run(Nothing(name), before), c);
    RunKeeps(Transact(Run(Nothing(name), before), c).0, after);
  }

  // A second commit of the same source and key never takes effect: it is answered from the store,
  // or refused if it is of another artifact.
  lemma CommitsTakeEffectOnce(f: Fan, c: Commit, between: seq<Action>, again: Commit)
    requires Transact(f, c).1.Committed? && again.source == c.source && again.key == c.key
    ensures var later := Run(Transact(f, c).0, between);
      && Transact(later, again) == (later, Refused)
      && LookUp(later, again) ==
           Some(if again.hash == c.hash then Replayed(Transact(f, c).1.result) else Refused)
  {
    AnswersStay(Transact(f, c).0, between, AnswerKey(c.source, c.key));
  }

  lemma {:induction false} AnswersStay(f: Fan, actions: seq<Action>, k: AnswerKey)
    requires k in f.answers
    ensures k in Run(f, actions).answers && Run(f, actions).answers[k] == f.answers[k]
    decreases |actions|
  {
    if actions != [] {
      AnswerStays(f, actions[0], k);
      AnswersStay(Apply(f, actions[0]), actions[1..], k);
    }
  }

  lemma {:induction false} ChangesKeepAnswers(b: Batch, provider: Id, changes: seq<Change>)
    requires AddChanges(b, provider, changes).Some?
    ensures AddChanges(b, provider, changes).value.fan.answers == b.fan.answers
    decreases |changes|
  {
    if changes != [] { ChangesKeepAnswers(b, provider, changes[..|changes| - 1]); }
  }

  lemma AnswerStays(f: Fan, a: Action, k: AnswerKey)
    requires k in f.answers
    ensures k in Apply(f, a).answers && Apply(f, a).answers[k] == f.answers[k]
  {
    if a.Commits? && AddChanges(Batch(f, [], 0), a.commit.provider, a.commit.changes).Some? {
      ChangesKeepAnswers(Batch(f, [], 0), a.commit.provider, a.commit.changes);
    }
  }

  // ----- Migrations -----

  // A claimed job is not waiting any more, and every migration is of a claimed job and named by it.
  ghost predicate MigrationsOk(f: Fan) {
    && (forall p | p in f.claimed ::
          HasJob(f, p.event, p.repository) && f.jobs[p.event][p.repository] != QueuedJob)
    && (forall id | id in f.migrations :: id == f.name(f.migrations[id]) && f.migrations[id] in f.claimed)
  }

  lemma CommitKeepsMigrations(f: Fan, c: Commit)
    requires FanOk(f) && MigrationsOk(f)
    ensures MigrationsOk(Transact(f, c).0)
    ensures Transact(f, c).0.claimed == f.claimed && Transact(f, c).0.migrations == f.migrations
    ensures Transact(f, c).0.name == f.name
  {
    if AddChanges(Batch(f, [], 0), c.provider, c.changes).Some? {
      ChangesExtend(Batch(f, [], 0), c.provider, c.changes);
    }
  }

  lemma MoveKeepsMigrations(f: Fan, p: Pair, from: JobStatus, to: JobStatus)
    requires MigrationsOk(f) && to != QueuedJob
    ensures MigrationsOk(Moved(f, p.event, p.repository, from, to))
  {
  }

  lemma ClaimKeepsMigrations(f: Fan, p: Pair, ready: bool)
    requires MigrationsOk(f)
    ensures MigrationsOk(ClaimJob(f, p, ready))
  {
    MoveKeepsMigrations(f, p, QueuedJob, Analyzing);
  }

  lemma CompletionKeepsMigrations(f: Fan, p: Pair, affected: bool)
    requires MigrationsOk(f)
    ensures MigrationsOk(CompleteJob(f, p, affected))
  {
    if p in f.claimed {
      var f' := if affected then WithMigration(f, p) else f;
      assert MigrationsOk(f');
      MoveKeepsMigrations(f', p, Analyzing, DoneJob);
    }
  }

  lemma ActionKeepsMigrations(f: Fan, a: Action)
    requires FanOk(f) && MigrationsOk(f)
    ensures MigrationsOk(Apply(f, a)) && Apply(f, a).name == f.name
    ensures f.claimed <= Apply(f, a).claimed
  {
    match a
    case Commits(c) => CommitKeepsMigrations(f, c);
    case SetRepository(_, _) =>
    case Claims(p, ready) => ClaimKeepsMigrations(f, p, ready);
    case Completes(p, affected) => CompletionKeepsMigrations(f, p, affected);
    case Fails(p) => MoveKeepsMigrations(f, p, Analyzing, FailedJob);
  }

  lemma NothingOk(name: Naming)
    ensures FanOk(Nothing(name)) && MigrationsOk(Nothing(name))
  {
  }

  lemma {:induction false} RunKeepsMigrations(f: Fan, actions: seq<Action>)
    requires FanOk(f) && MigrationsOk(f)
    ensures FanOk(Run(f, actions)) && MigrationsOk(Run(f, actions))
    ensures Run(f, actions).name == f.name && f.claimed <= Run(f, actions).claimed
    decreases |actions|
  {
    if actions != [] {
      ActionKeeps(f, actions[0]);
      ActionKeepsMigrations(f, actions[0]);
      RunKeepsMigrations(Apply(f, actions[0]), actions[1..]);
    }
  }

  // After any run each pair of event and repository has at most one migration, under its own name,
  // and that pair's job exists and was claimed.
  lemma AtMostOneMigration(name: Naming, actions: seq<Action>, id: Id)
    requires id in Run(Nothing(name), actions).migrations
    ensures var f := Run(Nothing(name), actions);
      var p := f.migrations[id];
      && id == name(p) && (forall other | other in f.migrations && f.migrations[other] == p :: other == id)
      && HasJob(f, p.event, p.repository) && f.jobs[p.event][p.repository] != QueuedJob
      && p in f.claimed
  {
    NothingOk(name);
    RunKeepsMigrations(Nothing(name), actions);
  }

  // A job's context is handed out once: claiming it again, at any later time, changes nothing.
  lemma ClaimsHandOutOnce(name: Naming, before: seq<Action>, p: Pair, between: seq<Action>, ready: bool)
    requires p in Run(Nothing(name), before).claimed
    ensures var later := Run(Run(Nothing(name), before), between);
      p in later.claimed && ClaimJob(later, p, ready) == later
  {
    NothingOk(name);
    RunKeepsMigrations(Nothing(name), before);
    RunKeepsMigrations(Run(Nothing(name), before), between);
  }

  // A worker that holds the context completes the job as affected.
  predicate Finds(f: Fan, a: Action, p: Pair) {
    a == Completes(p, true) && p in f.claimed
  }

  predicate HasMigration(f: Fan, p: Pair) {
    f.name(p) in f.migrations && f.migrations[f.name(p)] == p
  }

  lemma OneActionFinds(f: Fan, a: Action, p: Pair)
    requires FanOk(f) && MigrationsOk(f) && Injective(f.name)
    ensures HasMigration(Apply(f, a), p) <==> HasMigration(f, p) || Finds(f, a, p)
  {
    if a.Commits? { CommitKeepsMigrations(f, a.commit); }
    if a.Completes? {
      assert f.name(a.job) == f.name(p) ==> a.job == p;
      if f.name(p) in f.migrations {
        assert f.name(f.migrations[f.name(p)]) == f.name(p);
      }
    }
  }

  // Some action of the run finds the pair affected.
  ghost predicate FoundSince(f: Fan, actions: seq<Action>, p: Pair) {
    exists k :: 0 <= k < |actions| && Finds(Run(f, actions[..k]), actions[k], p)
  }

  lemma RunFromNext(f: Fan, actions: seq<Action>, k: nat)
    requires k < |actions|
    ensures Run(f, actions[..k + 1]) == Run(Apply(f, actions[0]), actions[1..][..k])
  {
    assert actions[..k + 1][0] == actions[0] && actions[..k + 1][1..] == actions[1..][..k];
  }

  lemma FoundFirstOrLater(f: Fan, actions: seq<Action>, p: Pair)
    requires actions != []
    ensures FoundSince(f, actions, p) <==>
      Finds(f, actions[0], p) || FoundSince(Apply(f, actions[0]), actions[1..], p)
  {
    var f', rest := Apply(f, actions[0]), actions[1..];
    assert actions[..0] == [] && Run(f, actions[..0]) == f;
    if k :| 0 <= k < |rest| && Finds(Run(f', rest[..k]), rest[k], p) {
      RunFromNext(f, actions, k);
      assert Finds(Run(f, actions[..k + 1]), actions[k + 1], p);
    }
    if k :| 0 <= k < |actions| && Finds(Run(f, actions[..k]), actions[k], p) {
      if k > 0 {
        RunFromNext(f, actions, k - 1);
        assert Finds(Run(f', rest[..k - 1]), rest[k - 1], p);
      }
    }
  }

  // The pair has a migration exactly if it had one, or the run has found it affected since.
  lemma {:induction false} FoundByRun(f: Fan, actions: seq<Action>, p: Pair)
    requires FanOk(f) && MigrationsOk(f) && Injective(f.name)
    ensures HasMigration(Run(f, actions), p) <==> HasMigration(f, p) || FoundSince(f, actions, p)
    decreases |actions|
  {
    if actions != [] {
      ActionKeeps(f, actions[0]);
      ActionKeepsMigrations(f, actions[0]);
      OneActionFinds(f, actions[0], p);
      FoundFirstOrLater(f, actions, p);
      FoundByRun(Apply(f, actions[0]), actions[1..], p);
    }
  }

  // So after any run a pair has a migration exactly if a worker that had claimed its job completed
  // it as affected.
  lemma MigrationsAreFound(name: Naming, actions: seq<Action>, p: Pair)
    requires Injective(name)
    ensures HasMigration(Run(Nothing(name), actions), p) <==> FoundSince(Nothing(name), actions, p)
  {
    NothingOk(name);
    FoundByRun(Nothing(name), actions, p);
  }

  // Once a change is refused, so is everything after it.
  lemma {:induction false} RefusedTail(b: Batch, provider: Id, changes: seq<Change>, n: nat)
    requires n <= |changes| && AddChanges(b, provider, changes[..n]).None?
    ensures AddChanges(b, provider, changes).None?
    decreases |changes|
  {
    if n < |changes| {
      var front := changes[..|changes| - 1];
      assert front[..n] == changes[..n];
      RefusedTail(b, provider, front, n);
    } else {
      assert changes[..n] == changes;
    }
  }

  // ----- The store as it runs -----

  class FanoutStore {
    const name: Naming
    var enabled: set<Id>
    var events: map<EventKey, Id>
    var order: seq<Id>
    var jobs: map<Id, map<Id, JobStatus>>
    var answers: map<AnswerKey, Answer>
    var claimed: set<Pair>
    var migrations: map<Id, Pair>

    function State(): Fan
      reads this
    {
      Fan(name, enabled, events, order, jobs, answers, claimed, migrations)
    }

    constructor (name: Naming)
      ensures State() == Nothing(name)
    {
      this.name := name;
      enabled, events, order := {}, map[], [];
      jobs, answers, claimed, migrations := map[], map[], {}, map[];
    }

    // Inserts one change: whether it was accepted, its event, and how many jobs were added.
    method Insert(provider: Id, change: Change, ghost b: Batch) returns (ok: bool, event: Id, added: nat)
      requires b.fan == State()
      modifies this`events, this`order, this`jobs
      ensures !ok ==> AddChange(b, provider, change).None?
      ensures ok ==> AddChange(b, provider, change) == Some(Batch(State(), b.events + [event], b.fanout + added))
    {
      var k := EventKey(provider, change.dedupe);
      if k in events { return true, events[k], 0; }
      if change.id in jobs { return false, change.id, 0; }
      events := events[k := change.id];
      order := order + [change.id];
      jobs := jobs[change.id := AllQueued(enabled)];
      return true, change.id, |enabled|;
    }

    // Inserts change by change, up to the first that is refused.
    method InsertAll(provider: Id, changes: seq<Change>) returns (ok: bool, ids: seq<Id>, fanout: nat)
      modifies this`events, this`order, this`jobs
      ensures !ok ==> AddChanges(Batch(old(State()), [], 0), provider, changes).None?
      ensures ok ==> AddChanges(Batch(old(State()), [], 0), provider, changes) == Some(Batch(State(), ids, fanout))
    {
      ghost var start := Batch(State(), [], 0);
      ok, ids, fanout := true, [], 0;
      for i := 0 to |changes|
        invariant ok && AddChanges(start, provider, changes[..i]) == Some(Batch(State(), ids, fanout))
      {
        assert changes[..i + 1][..i] == changes[..i];
        var accepted, event, added := Insert(provider, changes[i], Batch(State(), ids, fanout));
        if !accepted {
          RefusedTail(start, provider, changes, i + 1);
          return false, ids, fanout;
        }
        ids, fanout := ids + [event], fanout + added;
      }
      assert changes[..|changes|] == changes;
    }

    // Looks the key up, then inserts all the changes; a refused insert puts everything back.
    method Store(c: Commit) returns (o: Outcome)
      modifies this
      ensures match LookUp(old(State()), c)
        case Some(found) => State() == old(State()) && o == found
        case None => (State(), o) == Transact(old(State()), c)
    {
      if AnswerKey(c.source, c.key) in answers {
        var answer := answers[AnswerKey(c.source, c.key)];
        if answer.hash != c.hash { return Refused; }
        return Replayed(answer.result);
      }
      var before := (events, order, jobs);
      var ok, ids, fanout := InsertAll(c.provider, c.changes);
      if !ok {
        events, order, jobs := before.0, before.1, before.2;
        return Refused;
      }
      var result := IngestionResult(ids, fanout);
      answers := answers[AnswerKey(c.source, c.key) := Answer(c.hash, result)];
      return Committed(result);
    }

    method Move(event: Id, repository: Id, from: JobStatus, to: JobStatus) returns (moved: bool)
      modifies this`jobs
      ensures State() == Moved(old(State()), event, repository, from, to)
      ensures moved <==> old(HasJob(State(), event, repository) && jobs[event][repository] == from)
      ensures jobs == if moved then old(jobs)[event := old(jobs)[event][repository := to]] else old(jobs)
    {
      moved := HasJob(State(), event, repository) && jobs[event][repository] == from;
      if moved { jobs := jobs[event := jobs[event][repository := to]]; }
    }

    // The context of a job for the one worker that moves it on.
    method Claim(p: Pair, ready: bool) returns (context: Option<Pair>)
      modifies this`jobs, this`claimed
      ensures State() == ClaimJob(old(State()), p, ready)
      ensures context == if p in claimed && p !in old(claimed) then Some(p) else None
      ensures context.Some? <==>
        && old(HasJob(State(), p.event, p.repository) && jobs[p.event][p.repository] == QueuedJob)
        && ready && p.repository in enabled && p !in old(claimed)
    {
      var moved := Move(p.event, p.repository, QueuedJob, Analyzing);
      if !moved || !ready || p.repository !in enabled || p in claimed { return None; }
      claimed := claimed + {p};
      return Some(p);
    }
  }
}
