// The attempts of a migration form one gapless chain.
module History {
  import opened Options
  import opened Rows
  import opened Coupling
  import opened Protocol

  // The attempts from the first up to `a`, following the links back.
  ghost function Chain(attempts: map<Id, Attempt>, a: Id): seq<Id>
    requires forall x | x in attempts :: attempts[x].number >= 1 && Linked(attempts, attempts[x])
    requires a in attempts
    decreases attempts[a].number
  {
    assert Linked(attempts, attempts[a]);
    if attempts[a].number == 1 then [a] else Chain(attempts, attempts[a].previous.value) + [a]
  }

  lemma {:induction false} ChainFacts(attempts: map<Id, Attempt>, a: Id)
    requires forall x | x in attempts :: attempts[x].number >= 1 && Linked(attempts, attempts[x])
    requires a in attempts
    ensures var c := Chain(attempts, a);
      && |c| == attempts[a].number
      && c[|c| - 1] == a
      && (forall k | 0 <= k < |c| ::
            c[k] in attempts && attempts[c[k]].migration == attempts[a].migration &&
            attempts[c[k]].number == k + 1 &&
            attempts[c[k]].previous == if k == 0 then None else Some(c[k - 1]))
    decreases attempts[a].number
  {
    if attempts[a].number != 1 { ChainFacts(attempts, attempts[a].previous.value); }
  }

  // `c` is the whole history of a migration: numbered 1..n, each attempt linked to the one
  // before, the current attempt last.
  ghost predicate IsHistory(db: Db, mid: Id, c: seq<Id>) {
    && mid in db.migrations
    && (forall k | 0 <= k < |c| ::
          c[k] in db.attempts && db.attempts[c[k]].migration == mid &&
          db.attempts[c[k]].number == k + 1 &&
          db.attempts[c[k]].previous == if k == 0 then None else Some(c[k - 1]))
    && (forall a | a in db.attempts && db.attempts[a].migration == mid :: a in c)
    && db.migrations[mid].currentAttempt == if c == [] then None else Some(c[|c| - 1])
  }

  lemma AllLinked(db: Db)
    requires Inv(db)
    ensures forall x | x in db.attempts :: db.attempts[x].number >= 1 && Linked(db.attempts, db.attempts[x])
  {
    forall x | x in db.attempts
      ensures db.attempts[x].number >= 1 && Linked(db.attempts, db.attempts[x])
    {
      var m := db.attempts[x].migration;
      assert RowsOk(db, m);
      assert AttemptOk(db, x, db.attempts[x], db.migrations[m].currentAttempt);
    }
  }

  lemma ChainIsHistory(db: Db, mid: Id) returns (c: seq<Id>)
    requires Inv(db) && mid in db.migrations
    ensures IsHistory(db, mid, c)
  {
    assert RowsOk(db, mid);
    var current := db.migrations[mid].currentAttempt;
    c := [];
    if current.Some? {
      AllLinked(db);
      c := Chain(db.attempts, current.value);
      ChainFacts(db.attempts, current.value);
      forall a | a in db.attempts && db.attempts[a].migration == mid ensures a in c {
        var twin := c[db.attempts[a].number - 1];
        assert db.attempts[twin].number == db.attempts[a].number;
      }
    }
  }

  // Attempt numbers are 1..n, attempt k links to attempt k - 1, and the current attempt is number n.
  lemma HistoryIsOneChain(es: seq<Event>, mid: Id)
    requires Runnable(EMPTY, es) && mid in Run(EMPTY, es).migrations
    ensures exists c: seq<Id> :: IsHistory(Run(EMPTY, es), mid, c)
  {
    EmptyOk();
    RunsKeep(EMPTY, es);
    var c := ChainIsHistory(Run(EMPTY, es), mid);
  }
}
