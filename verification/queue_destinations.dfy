/** One active job a destination: what `enqueue` promises, and the one call that can break it. */
module QueueDestinations {
  import opened QueueTypes
  import opened QueueSpec
  import opened QueueMoves
  import opened QueueRuns
  import opened QueueLifecycle

  /** No two active jobs share a destination. */
  ghost predicate OneActive(db: Db) {
    forall a, b | a in db.jobs && b in db.jobs ::
      a != b && db.jobs[a].destination == db.jobs[b].destination
      ==> db.jobs[a].state.IsTerminal() || db.jobs[b].state.IsTerminal()
  }

  /** A `retry` of a failed job whose destination another active job has taken meanwhile. */
  ghost predicate Collides(db: Db, c: Call) {
    && c.op.OpRetry? && c.op.id in db.jobs && db.jobs[c.op.id].state.Failed?
    && exists k: Id :: k != c.op.id && ActiveFor(db, db.jobs[c.op.id].destination, k)
  }

  ghost predicate NoCollisions(run: Run) {
    run == [] || (NoCollisions(Front(run)) && !Collides(Exec(Front(run)), Last(run)))
  }

  lemma MoveAndActivity(j: Job, now: Time, m: Move)
    requires CanMove(j, now, m)
    ensures Moved(j, now, m).destination == j.destination
    ensures RowOk(j) && j.state.IsTerminal() && Moved(j, now, m).state.IsActive() ==> m.Requeue?
  {
  }

  /** A job becomes active only by being enqueued or by a `retry` of its own. */
  lemma BecomesActive(db: Db, c: Call, i: Id, k: Id)
    requires DbOk(db) && i in Do(db, c).db.jobs && Do(db, c).db.jobs[i].state.IsActive()
    ensures i in db.jobs ==>
              && Do(db, c).db.jobs[i].destination == db.jobs[i].destination
              && (db.jobs[i].state.IsActive() || (c.op == OpRetry(i) && db.jobs[i].state.Failed?))
    ensures i !in db.jobs ==>
              && c.op.OpEnqueue? && c.op.newId == i && !ActiveFor(db, c.op.destination, k)
              && Do(db, c).db.jobs[i].destination == c.op.destination
  {
    CallFollows(db, c, i);
    if i in db.jobs {
      assert JobOk(db, i);
      MoveAndActivity(db.jobs[i], c.now, MoveOf(db, c, i));
      RequeueIsRetry(db, c, i);
    }
  }

  lemma StaysApart(db: Db, c: Call, a: Id, b: Id)
    requires DbOk(db) && OneActive(db) && !Collides(db, c)
    requires a in Do(db, c).db.jobs && b in Do(db, c).db.jobs && a != b
    requires Do(db, c).db.jobs[a].destination == Do(db, c).db.jobs[b].destination
    ensures Do(db, c).db.jobs[a].state.IsTerminal() || Do(db, c).db.jobs[b].state.IsTerminal()
  {
    var d := Do(db, c).db.jobs[a].destination;
    var aWas, bWas := ActiveFor(db, d, a), ActiveFor(db, d, b);
    if Do(db, c).db.jobs[a].state.IsActive() && Do(db, c).db.jobs[b].state.IsActive() {
      BecomesActive(db, c, a, b);
      BecomesActive(db, c, b, a);
    }
  }

  lemma CallKeepsOneActive(db: Db, c: Call)
    requires DbOk(db) && OneActive(db) && !Collides(db, c)
    ensures OneActive(Do(db, c).db)
  {
    var after := Do(db, c).db;
    forall a, b | a in after.jobs && b in after.jobs && a != b
                  && after.jobs[a].destination == after.jobs[b].destination
      ensures after.jobs[a].state.IsTerminal() || after.jobs[b].state.IsTerminal()
    {
      StaysApart(db, c, a, b);
    }
  }

  lemma RetryRequeues(db: Db, c: Call)
    requires c.op.OpRetry? && c.op.id in db.jobs && db.jobs[c.op.id].state.Failed?
    ensures var after := Do(db, c).db;
            && after.jobs.Keys == db.jobs.Keys
            && after.jobs[c.op.id].state.Queued? && after.jobs[c.op.id].destination == db.jobs[c.op.id].destination
            && forall k | k in db.jobs && k != c.op.id :: after.jobs[k] == db.jobs[k]
  {
  }

  /** From tables with one active job a destination, a call leads to two exactly when it is a
      colliding `retry`. */
  lemma OnlyCollisionsBreakIt(db: Db, c: Call)
    requires DbOk(db) && OneActive(db)
    ensures OneActive(Do(db, c).db) <==> !Collides(db, c)
  {
    if Collides(db, c) {
      var k: Id :| k != c.op.id && ActiveFor(db, db.jobs[c.op.id].destination, k);
      RetryRequeues(db, c);
      var after := Do(db, c).db;
      assert after.jobs[k].state.IsActive() && after.jobs[c.op.id].state.IsActive();
    } else {
      CallKeepsOneActive(db, c);
    }
  }

  /** At most one active job a destination, in every run without a colliding `retry`. */
  lemma {:induction false} AtMostOneActive(run: Run)
    requires NoCollisions(run)
    ensures OneActive(Exec(run))
    decreases |run|
  {
    if run != [] {
      AtMostOneActive(Front(run));
      RunsKeepDbOk(Front(run));
      CallKeepsOneActive(Exec(Front(run)), Last(run));
    }
  }

  /** In such tables the scan of `enqueue` gives the same answer whatever the row order. */
  lemma ScanOrderIsIrrelevant(db: Db, destination: string, p: Option<Id>, q: Option<Id>)
    requires OneActive(db) && IsLatestActive(db, destination, p) && IsLatestActive(db, destination, q)
    ensures p == q
  {
  }

  /** So after every such run `enqueue` has one outcome only, whatever row its scan meets first. */
  lemma EnqueueIsDetermined(run: Run, now: Time, newId: Id, destination: string, request: Request,
                            p: Option<Id>, q: Option<Id>)
    requires NoCollisions(run)
    requires IsLatestActive(Exec(run), destination, p) && IsLatestActive(Exec(run), destination, q)
    ensures Enqueue(Exec(run), now, newId, destination, request, p)
         == Enqueue(Exec(run), now, newId, destination, request, q)
  {
    AtMostOneActive(run);
    ScanOrderIsIrrelevant(Exec(run), destination, p, q);
  }

  /** Without the side condition the guarantee is lost: enqueue, fail, enqueue again, retry. */
  lemma RetryCanCollide(request: Request)
    ensures exists run: Run :: Legal(run) && !OneActive(Exec(run))
  {
    var c0 := Call(0, OpEnqueue(7, "d", request, None));
    var c1 := Call(0, OpClaim("w", 60, 1));
    var c2 := Call(0, OpFinish(7, 1, Failed, None, None));
    var c3 := Call(0, OpEnqueue(8, "d", request, None));
    var c4 := Call(0, OpRetry(7));
    FinishFirst(c0, c1, c2);
    var failed, both := [c0, c1, c2], [c0, c1, c2, c3];
    EnqueueSecond(failed, c3);
    assert both == failed + [c3];
    var run := both + [c4];
    assert Front(run) == both && Last(both) == c3;
    assert Enabled(both, c4);
    RetryRequeues(Exec(both), c4);
    assert Exec(run).jobs[7].state.IsActive() && Exec(run).jobs[8].state.IsActive();
  }

  /** Extending a run whose jobs are all over with a new job. */
  lemma EnqueueSecond(run: Run, c: Call)
    requires Legal(run) && run != [] && Last(run).now <= c.now
    requires c.op.OpEnqueue? && c.op.pick.None? && c.op.newId !in Ids(run) && c.op.newId !in Exec(run).jobs
    requires forall i | i in Exec(run).jobs :: Exec(run).jobs[i].state.IsTerminal()
    ensures Legal(run + [c])
    ensures Exec(run + [c]).jobs == Exec(run).jobs[c.op.newId := NewJob(c.now, c.op.destination, c.op.request)]
  {
    assert Front(run + [c]) == run;
    assert Enabled(run, c);
  }

  /** Enqueue is idempotent for equivalent active work and refuses anything else for an active
      destination; in both cases the tables stay as they are. */
  lemma EnqueueOnActive(db: Db, now: Time, newId: Id, destination: string, request: Request, pick: Option<Id>, i: Id)
    requires OneActive(db) && IsLatestActive(db, destination, pick) && ActiveFor(db, destination, i)
    ensures Enqueue(db, now, newId, destination, request, pick)
         == Outcome(db, if db.jobs[i].request == request then Attached(i) else Conflict)
  {
    var picked := pick.Some? && ActiveFor(db, destination, pick.value);
  }

  /** On a free destination it adds one queued job and touches nothing else. */
  lemma EnqueueOnFree(db: Db, now: Time, newId: Id, destination: string, request: Request)
    requires DbOk(db) && OneActive(db) && IsLatestActive(db, destination, None) && newId !in db.jobs
    ensures var r := Enqueue(db, now, newId, destination, request, None);
            && r.ret == Created(newId)
            && ActiveFor(r.db, destination, newId) && r.db.jobs[newId].state.Queued?
            && r.db.jobs[newId].request == request
            && r.db.jobs - {newId} == db.jobs
            && OneActive(r.db)
  {
    CallKeepsOneActive(db, Call(now, OpEnqueue(newId, destination, request, None)));
  }
}
