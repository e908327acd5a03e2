// What the actions of ingestion and fan-out come to: which commits take effect, what they insert and
// answer, and how the jobs move.
module FanoutEffects {
  import opened Options
  import opened Rows
  import opened Fanout

  // ----- Commits -----

  function KeyOf(c: Commit, i: nat): EventKey
    requires i < |c.changes|
  {
    EventKey(c.provider, c.changes[i].dedupe)
  }

  // The `i`th change is the first of an event that is not stored.
  predicate IsNew(f: Fan, c: Commit, i: nat)
    requires i < |c.changes|
  {
    KeyOf(c, i) !in f.events && forall j: nat | j < i :: c.changes[j].dedupe != c.changes[i].dedupe
  }

  // The identifier of the `i`th change is neither a stored event's nor that of an earlier new one.
  predicate IsFree(f: Fan, c: Commit, i: nat)
    requires i < |c.changes|
  {
    && c.changes[i].id !in f.jobs
    && forall j: nat {:trigger IsNew(f, c, j)} | j < i && IsNew(f, c, j) :: c.changes[j].id != c.changes[i].id
  }

  predicate IdsFree(f: Fan, c: Commit) {
    forall i: nat {:trigger IsNew(f, c, i)} {:trigger IsFree(f, c, i)} |
      i < |c.changes| && IsNew(f, c, i) :: IsFree(f, c, i)
  }

  // The commit is about an event of this key.
  ghost predicate About(c: Commit, k: EventKey) {
    exists i: nat {:trigger KeyOf(c, i)} :: i < |c.changes| && k == KeyOf(c, i)
  }

  // The commit adds an event of this identifier.
  ghost predicate Adds(f: Fan, c: Commit, e: Id) {
    exists i: nat {:trigger IsNew(f, c, i)} :: i < |c.changes| && IsNew(f, c, i) && e == c.changes[i].id
  }

  // A job for each of the repositories, waiting.
  ghost predicate AllWaiting(jobs: map<Id, JobStatus>, repositories: set<Id>) {
    jobs.Keys == repositories && forall r | r in jobs :: jobs[r] == QueuedJob
  }

  // The event of the `i`th change is inserted under its identifier, with a waiting job for every
  // enabled repository.
  ghost predicate InsertedAt(f: Fan, c: Commit, f': Fan, i: nat)
    requires i < |c.changes|
  {
    && KeyOf(c, i) in f'.events && f'.events[KeyOf(c, i)] == c.changes[i].id
    && c.changes[i].id in f'.jobs && AllWaiting(f'.jobs[c.changes[i].id], f.enabled)
  }

  // The events of the commit, in order, old and new.
  ghost predicate Lists(f': Fan, c: Commit, events: seq<Id>) {
    && |events| == |c.changes|
    && forall i: nat {:trigger events[i]} | i < |events| ::
         KeyOf(c, i) in f'.events && events[i] == f'.events[KeyOf(c, i)]
  }

  // Stored events and jobs stay as they are, every new event is inserted, and nothing else is.
  ghost predicate Inserts(f: Fan, c: Commit, f': Fan) {
    && (forall k | k in f.events :: k in f'.events && f'.events[k] == f.events[k])
    && (forall k | k in f'.events && k !in f.events :: About(c, k))
    && (forall e | e in f.jobs :: e in f'.jobs && f'.jobs[e] == f.jobs[e])
    && (forall e | e in f'.jobs && e !in f.jobs :: Adds(f, c, e))
    && (forall i: nat {:trigger IsNew(f, c, i)} | i < |c.changes| && IsNew(f, c, i) :: InsertedAt(f, c, f', i))
  }

  ghost predicate Added(f: Fan, c: Commit, b: Batch) {
    Inserts(f, c, b.fan) && Lists(b.fan, c, b.events) &&
    b.fan == f.(events := b.fan.events, order := b.fan.order, jobs := b.fan.jobs)
  }

  ghost function Batched(f: Fan, c: Commit): Option<Batch> {
    AddChanges(Batch(f, [], 0), c.provider, c.changes)
  }

  // ----- A commit and its last change -----

  function Front(c: Commit): Commit
    requires c.changes != []
  {
    c.(changes := c.changes[..|c.changes| - 1])
  }

  lemma SameInFront(f: Fan, c: Commit, i: nat)
    requires c.changes != [] && i < |c.changes| - 1
    ensures Front(c).changes[i] == c.changes[i] && KeyOf(Front(c), i) == KeyOf(c, i)
    ensures IsNew(f, Front(c), i) <==> IsNew(f, c, i)
  {
  }

  lemma SameFreeInFront(f: Fan, c: Commit, i: nat)
    requires c.changes != [] && i < |c.changes| - 1
    ensures IsFree(f, Front(c), i) <==> IsFree(f, c, i)
  {
    forall j: nat | j < i ensures IsNew(f, Front(c), j) <==> IsNew(f, c, j) { SameInFront(f, c, j); }
  }

  lemma FreeUpTo(f: Fan, c: Commit)
    requires c.changes != []
    ensures var n := |c.changes| - 1;
      IdsFree(f, c) <==> IdsFree(f, Front(c)) && (IsNew(f, c, n) ==> IsFree(f, c, n))
  {
    forall i: nat | i < |c.changes| - 1
      ensures IsNew(f, Front(c), i) <==> IsNew(f, c, i)
      ensures IsFree(f, Front(c), i) <==> IsFree(f, c, i)
    {
      SameInFront(f, c, i);
      SameFreeInFront(f, c, i);
    }
  }

  lemma AboutUpTo(c: Commit, k: EventKey)
    requires c.changes != []
    ensures About(c, k) <==> About(Front(c), k) || k == KeyOf(c, |c.changes| - 1)
  {
    var n := |c.changes| - 1;
    forall i: nat | i < n ensures KeyOf(Front(c), i) == KeyOf(c, i) {}
    if k == KeyOf(c, n) { assert About(c, k); }
  }

  lemma AddsUpTo(f: Fan, c: Commit, e: Id)
    requires c.changes != []
    ensures var n := |c.changes| - 1;
      Adds(f, c, e) <==> Adds(f, Front(c), e) || (IsNew(f, c, n) && e == c.changes[n].id)
  {
    forall i: nat | i < |c.changes| - 1
      ensures (IsNew(f, Front(c), i) <==> IsNew(f, c, i)) && Front(c).changes[i] == c.changes[i]
    {
      SameInFront(f, c, i);
    }
  }

  // The last change is of a new event exactly if nothing before stored it.
  lemma LastIsNew(f: Fan, c: Commit, b: Batch)
    requires c.changes != [] && Added(f, Front(c), b)
    ensures var n := |c.changes| - 1;
      KeyOf(c, n) !in b.fan.events <==> IsNew(f, c, n)
  {
    var n := |c.changes| - 1;
    if KeyOf(c, n) in b.fan.events && KeyOf(c, n) !in f.events {
      assert About(Front(c), KeyOf(c, n));
    }
    if !IsNew(f, c, n) && KeyOf(c, n) !in f.events {
      var j: nat :| j < n && c.changes[j].dedupe == c.changes[n].dedupe;
      var listed := b.events[j];
      assert KeyOf(Front(c), j) in b.fan.events && KeyOf(Front(c), j) == KeyOf(c, n);
    }
  }

  lemma LastIsFree(f: Fan, c: Commit, b: Batch)
    requires c.changes != [] && Added(f, Front(c), b)
    ensures var n := |c.changes| - 1; c.changes[n].id !in b.fan.jobs <==> IsFree(f, c, n)
  {
    var n := |c.changes| - 1;
    if c.changes[n].id in b.fan.jobs && c.changes[n].id !in f.jobs {
      var i: nat :| i < n && IsNew(f, Front(c), i) && c.changes[n].id == Front(c).changes[i].id;
      SameInFront(f, c, i);
    }
    if c.changes[n].id !in b.fan.jobs {
      forall j: nat | j < n && IsNew(f, c, j) ensures c.changes[j].id != c.changes[n].id {
        SameInFront(f, c, j);
        assert InsertedAt(f, Front(c), b.fan, j);
      }
    }
  }

  // What is inserted and listed goes on to be when more is.
  lemma StillInserted(f: Fan, c: Commit, b: Batch, f': Fan)
    requires c.changes != [] && Added(f, Front(c), b)
    requires forall k | k in b.fan.events :: k in f'.events && f'.events[k] == b.fan.events[k]
    requires forall e | e in b.fan.jobs :: e in f'.jobs && f'.jobs[e] == b.fan.jobs[e]
    requires forall k | k in f'.events && k !in b.fan.events :: k == KeyOf(c, |c.changes| - 1)
    requires forall e | e in f'.jobs && e !in b.fan.jobs ::
      e == c.changes[|c.changes| - 1].id && IsNew(f, c, |c.changes| - 1)
    requires IsNew(f, c, |c.changes| - 1) ==> InsertedAt(f, c, f', |c.changes| - 1)
    ensures Inserts(f, c, f')
  {
    forall k | k in f'.events && k !in f.events ensures About(c, k) { AboutUpTo(c, k); }
    forall e | e in f'.jobs && e !in f.jobs ensures Adds(f, c, e) { AddsUpTo(f, c, e); }
    forall i: nat | i < |c.changes| && IsNew(f, c, i) ensures InsertedAt(f, c, f', i) {
      if i < |c.changes| - 1 {
        SameInFront(f, c, i);
        assert InsertedAt(f, Front(c), b.fan, i);
      }
    }
  }

  lemma StillListed(c: Commit, b: Batch, f': Fan, last: Id)
    requires c.changes != [] && Lists(b.fan, Front(c), b.events)
    requires forall k | k in b.fan.events :: k in f'.events && f'.events[k] == b.fan.events[k]
    requires KeyOf(c, |c.changes| - 1) in f'.events && f'.events[KeyOf(c, |c.changes| - 1)] == last
    ensures Lists(f', c, b.events + [last])
  {
    var events := b.events + [last];
    forall i: nat | i < |events| ensures KeyOf(c, i) in f'.events && events[i] == f'.events[KeyOf(c, i)] {
      if i < |c.changes| - 1 { assert events[i] == b.events[i] && KeyOf(Front(c), i) == KeyOf(c, i); }
    }
  }

  lemma NewEventIsInserted(f: Fan, c: Commit, b: Batch)
    requires c.changes != [] && Added(f, Front(c), b)
    requires var n := |c.changes| - 1;
      IsNew(f, c, n) && KeyOf(c, n) !in b.fan.events && c.changes[n].id !in b.fan.jobs
    ensures var n := |c.changes| - 1;
      Added(f, c, Batch(WithEvent(b.fan, KeyOf(c, n), c.changes[n].id), b.events + [c.changes[n].id],
                        b.fanout + |b.fan.enabled|))
  {
    var n := |c.changes| - 1;
    var f' := WithEvent(b.fan, KeyOf(c, n), c.changes[n].id);
    AllQueuedSize(f.enabled);
    StillInserted(f, c, b, f');
    StillListed(c, b, f', c.changes[n].id);
  }

  lemma LastChangeInserts(f: Fan, c: Commit, b: Batch)
    requires c.changes != [] && Added(f, Front(c), b)
    ensures var n := |c.changes| - 1;
      var o := AddChange(b, c.provider, c.changes[n]);
      && (o.Some? <==> (IsNew(f, c, n) ==> IsFree(f, c, n)))
      && (o.Some? ==> Added(f, c, o.value))
  {
    var n := |c.changes| - 1;
    LastIsNew(f, c, b);
    LastIsFree(f, c, b);
    if KeyOf(c, n) in b.fan.events {
      StillInserted(f, c, b, b.fan);
      StillListed(c, b, b.fan, b.fan.events[KeyOf(c, n)]);
    } else if c.changes[n].id !in b.fan.jobs {
      NewEventIsInserted(f, c, b);
    }
  }

  lemma BatchedUpTo(f: Fan, c: Commit)
    requires c.changes != []
    ensures Batched(f, c) ==
      if Batched(f, Front(c)).None? then None
      else AddChange(Batched(f, Front(c)).value, c.provider, c.changes[|c.changes| - 1])
  {
  }

  // Change by change, a commit inserts what it should, exactly if the identifiers of its new events
  // are free.
  lemma {:induction false} ChangesInsert(f: Fan, c: Commit)
    ensures Batched(f, c).Some? <==> IdsFree(f, c)
    ensures Batched(f, c).Some? ==> Added(f, c, Batched(f, c).value)
    decreases |c.changes|
  {
    if c.changes != [] {
      ChangesInsert(f, Front(c));
      FreeUpTo(f, c);
      BatchedUpTo(f, c);
      if Batched(f, Front(c)).Some? { LastChangeInserts(f, c, Batched(f, Front(c)).value); }
    }
  }

  // A commit whose key has no answer takes effect exactly if the identifiers of its new events are
  // free. It inserts those events with their jobs, lists all its events in order, and keeps that
  // answer; otherwise it changes nothing.
  lemma CommitsInsertExactly(f: Fan, c: Commit)
    ensures var (f', o) := Transact(f, c);
      var k := AnswerKey(c.source, c.key);
      && (o.Committed? <==> k !in f.answers && IdsFree(f, c))
      && (!o.Committed? ==> f' == f && o == Refused)
      && (o.Committed? ==>
            && Inserts(f, c, f') && Lists(f', c, o.result.events)
            && f'.answers == f.answers[k := Answer(c.hash, o.result)]
            && f' == f.(events := f'.events, order := f'.order, jobs := f'.jobs, answers := f'.answers))
  {
    ChangesInsert(f, c);
    if Transact(f, c).1.Committed? { AnswerInserts(f, c, Batched(f, c).value, Transact(f, c).0); }
  }

  lemma AnswerInserts(f: Fan, c: Commit, b: Batch, f': Fan)
    requires Added(f, c, b) && f' == b.fan.(answers := f'.answers)
    ensures Inserts(f, c, f') && Lists(f', c, b.events)
  {
    forall i: nat | i < |c.changes| && IsNew(f, c, i) ensures InsertedAt(f, c, f', i) {
      assert InsertedAt(f, c, b.fan, i);
    }
    forall i: nat | i < |b.events| ensures KeyOf(c, i) in f'.events && b.events[i] == f'.events[KeyOf(c, i)] {
      var listed := b.events[i];
      assert KeyOf(c, i) in b.fan.events;
    }
  }

  // ----- Jobs -----

  // What an action makes of a job: it is claimed while it waits, and ended, done or failed, while it
  // is analyzed -- done only by a worker that was handed its context.
  function JobAfter(f: Fan, a: Fanout.Action, p: Pair, before: JobStatus): JobStatus {
    match before
    case QueuedJob => if a.Claims? && a.job == p then Analyzing else QueuedJob
    case Analyzing =>
      if a.Completes? && a.job == p && p in f.claimed then DoneJob
      else if a == Fails(p) then FailedJob
      else Analyzing
    case DoneJob => DoneJob
    case FailedJob => FailedJob
  }

  ghost predicate JobMoves(f: Fan, a: Fanout.Action, p: Pair, f': Fan)
    requires HasJob(f, p.event, p.repository)
  {
    var before := f.jobs[p.event][p.repository];
    && HasJob(f', p.event, p.repository)
    && f'.jobs[p.event][p.repository] == JobAfter(f, a, p, before)
    && (p in f'.claimed <==>
          p in f.claimed || (a == Claims(p, true) && before == QueuedJob && p.repository in f.enabled))
  }

  lemma CommitMovesNothing(f: Fan, c: Commit, p: Pair)
    requires HasJob(f, p.event, p.repository)
    ensures JobMoves(f, Commits(c), p, Transact(f, c).0)
  {
    CommitsInsertExactly(f, c);
  }

  lemma ClaimMoves(f: Fan, job: Pair, ready: bool, p: Pair)
    requires HasJob(f, p.event, p.repository)
    ensures JobMoves(f, Claims(job, ready), p, Apply(f, Claims(job, ready)))
  {
  }

  // Every action moves every job just so, and a context is handed out exactly by the claim of a
  // waiting job of an enabled repository whose metadata are there.
  lemma JobsMove(f: Fan, a: Fanout.Action, p: Pair)
    requires HasJob(f, p.event, p.repository)
    ensures JobMoves(f, a, p, Apply(f, a))
  {
    if a.Commits? {
      CommitMovesNothing(f, a.commit, p);
    } else if a.Claims? {
      ClaimMoves(f, a.job, a.ready, p);
    }
  }
}
