/** Claim order and liveness: what a series of claims at one moment hands out, and why no
    active job is ever stuck. */
module QueueClaims {
  import opened QueueTypes
  import opened QueueSpec
  import opened QueueMoves
  import opened QueueRuns
  import opened QueueFencing

  ghost function Eligible(db: Db, now: Time): set<Id> {
    set i | i in db.jobs && Claimable(db.jobs[i], now)
  }

  /** A successful claim takes its job out of the eligible ones exactly when the lease is not
      negative; with a negative lease the same job would be handed out again at once. */
  lemma ClaimedIsNotEligible(j: Job, now: Time, worker: string, token: Token, lease: int)
    ensures Claimable(ClaimedRow(j, now, worker, token, lease), now) <==> lease < 0
  {
  }

  lemma SweepKeepsEligible(db: Db, now: Time)
    ensures forall i | i in db.jobs ::
              && Claimable(Sweep(db.jobs, now)[i], now) == Claimable(db.jobs[i], now)
              && Sweep(db.jobs, now)[i].createdAt == db.jobs[i].createdAt
  {
  }

  /** With nothing eligible a claim returns nothing. */
  lemma NothingEligible(db: Db, now: Time, worker: string, lease: int, token: Token)
    requires Eligible(db, now) == {}
    ensures var r := Claim(db, now, worker, lease, token);
            r.ret == NothingToClaim && Eligible(r.db, now) == {}
  {
    SweepKeepsEligible(db, now);
    FirstIsTheFirst(Sweep(db.jobs, now), now);
    forall i | i in db.jobs
      ensures !Claimable(db.jobs[i], now)
    {
      assert i !in Eligible(db, now);
    }
  }

  /** Otherwise it returns the first eligible job and leaves the others eligible as they were. */
  lemma ClaimTakesFirst(db: Db, now: Time, worker: string, lease: int, token: Token)
    requires 0 <= lease && Eligible(db, now) != {}
    ensures var r := Claim(db, now, worker, lease, token);
            && r.ret.Claimed? && r.ret.id in Eligible(db, now)
            && Eligible(r.db, now) == Eligible(db, now) - {r.ret.id}
            && Holds(r.db, r.ret.id, token)
            && forall k | k in Eligible(db, now) && k != r.ret.id :: Before(db.jobs, r.ret.id, k)
  {
    SweepKeepsEligible(db, now);
    var swept := Sweep(db.jobs, now);
    FirstIsTheFirst(swept, now);
    var i :| i in Eligible(db, now);
    assert Claimable(swept[i], now);
    var r := Claim(db, now, worker, lease, token);
    var first := r.ret.id;
    ClaimedIsNotEligible(swept[first], now, worker, token, lease);
    EligibleAfter(db, r.db, now, first);
  }

  lemma ClaimKeepsCreation(db: Db, now: Time, worker: string, lease: int, token: Token)
    ensures var r := Claim(db, now, worker, lease, token);
            && r.db.jobs.Keys == db.jobs.Keys
            && forall i | i in db.jobs :: r.db.jobs[i].createdAt == db.jobs[i].createdAt
  {
    FirstIsTheFirst(Sweep(db.jobs, now), now);
  }

  lemma EligibleAfter(db: Db, after: Db, now: Time, first: Id)
    requires after.jobs.Keys == db.jobs.Keys && first in db.jobs
    requires !Claimable(after.jobs[first], now)
    requires forall i | i in db.jobs && i != first :: Claimable(after.jobs[i], now) <==> Claimable(db.jobs[i], now)
    ensures Eligible(after, now) == Eligible(db, now) - {first}
  {
  }

  // ----- draining --------------------------------------------------------------------------

  /** The tables after one claim per token, all at the same instant. */
  ghost function Drained(db: Db, now: Time, worker: string, lease: int, tokens: seq<Token>): Db
    decreases |tokens|
  {
    if tokens == [] then db
    else Drained(Claim(db, now, worker, lease, tokens[0]).db, now, worker, lease, tokens[1..])
  }

  /** What those claims answered. */
  ghost function Answers(db: Db, now: Time, worker: string, lease: int, tokens: seq<Token>): seq<Ret>
    decreases |tokens|
  {
    if tokens == [] then []
    else [Claim(db, now, worker, lease, tokens[0]).ret]
         + Answers(Claim(db, now, worker, lease, tokens[0]).db, now, worker, lease, tokens[1..])
  }

  /** The first `n` answers are claims of jobs in strictly increasing claim order. */
  ghost predicate InClaimOrder(jobs: map<Id, Job>, answers: seq<Ret>, n: nat)
    requires n <= |answers|
  {
    && (forall k | 0 <= k < n :: answers[k].Claimed? && answers[k].id in jobs)
    && forall a, b | 0 <= a < b < n :: Before(jobs, answers[a].id, answers[b].id)
  }

  /** The first `|todo|` answers are exactly the claims of `todo`. */
  ghost predicate Covers(answers: seq<Ret>, todo: set<Id>)
    requires |todo| <= |answers|
  {
    && (forall k | 0 <= k < |todo| :: answers[k].Claimed? && answers[k].id in todo)
    && forall i | i in todo :: Claimed(i) in answers[..|todo|]
  }

  /** The answers hand out the jobs of `todo` in claim order, then nothing. */
  ghost predicate HandsOut(jobs: map<Id, Job>, answers: seq<Ret>, todo: set<Id>) {
    && |todo| <= |answers|
    && InClaimOrder(jobs, answers, |todo|)
    && Covers(answers, todo)
    && forall k | |todo| <= k < |answers| :: answers[k] == NothingToClaim
  }

  lemma OrderMore(jobs: map<Id, Job>, jobs': map<Id, Job>, first: Id, answers: seq<Ret>, n: nat)
    requires jobs'.Keys == jobs.Keys && first in jobs && n <= |answers|
    requires forall i | i in jobs :: jobs'[i].createdAt == jobs[i].createdAt
    requires InClaimOrder(jobs', answers, n)
    requires forall k | 0 <= k < n :: Before(jobs, first, answers[k].id)
    ensures InClaimOrder(jobs, [Claimed(first)] + answers, n + 1)
  {
    var more := [Claimed(first)] + answers;
    forall a, b | 0 <= a < b < n + 1
      ensures Before(jobs, more[a].id, more[b].id)
    {
      if a > 0 {
        assert Before(jobs', answers[a - 1].id, answers[b - 1].id);
      }
    }
  }

  lemma CoverMore(first: Id, answers: seq<Ret>, todo: set<Id>)
    requires first !in todo && |todo| <= |answers| && Covers(answers, todo)
    ensures |todo + {first}| == |todo| + 1 && Covers([Claimed(first)] + answers, todo + {first})
  {
    var more := [Claimed(first)] + answers;
    assert more[..|todo| + 1] == [Claimed(first)] + answers[..|todo|];
  }

  lemma HandsOutMore(jobs: map<Id, Job>, jobs': map<Id, Job>, first: Id, answers: seq<Ret>, todo: set<Id>)
    requires jobs'.Keys == jobs.Keys && first in jobs && first !in todo
    requires forall i | i in jobs :: jobs'[i].createdAt == jobs[i].createdAt
    requires HandsOut(jobs', answers, todo)
    requires forall i | i in todo :: i in jobs && Before(jobs, first, i)
    ensures HandsOut(jobs, [Claimed(first)] + answers, todo + {first})
  {
    OrderMore(jobs, jobs', first, answers, |todo|);
    CoverMore(first, answers, todo);
  }

  /** The drain theorem: at one instant, repeated claims return every eligible job exactly once,
      in strictly increasing (creation time, id) order, and then return nothing. */
  lemma {:induction false} Drain(db: Db, now: Time, worker: string, lease: int, tokens: seq<Token>)
    requires 0 <= lease && |Eligible(db, now)| <= |tokens|
    ensures HandsOut(db.jobs, Answers(db, now, worker, lease, tokens), Eligible(db, now))
    ensures Eligible(Drained(db, now, worker, lease, tokens), now) == {}
    decreases |tokens|
  {
    if tokens != [] {
      var r := Claim(db, now, worker, lease, tokens[0]);
      var rest := Answers(r.db, now, worker, lease, tokens[1..]);
      if Eligible(db, now) == {} {
        NothingEligible(db, now, worker, lease, tokens[0]);
        Drain(r.db, now, worker, lease, tokens[1..]);
      } else {
        ClaimTakesFirst(db, now, worker, lease, tokens[0]);
        ClaimKeepsCreation(db, now, worker, lease, tokens[0]);
        Drain(r.db, now, worker, lease, tokens[1..]);
        var first := r.ret.id;
        HandsOutMore(db.jobs, r.db.jobs, first, rest, Eligible(r.db, now));
        assert Eligible(r.db, now) + {first} == Eligible(db, now);
      }
    }
  }

  /** With a negative lease the first eligible job is the first again after each claim. */
  lemma StaysFirst(db: Db, now: Time, worker: string, lease: int, token: Token, i: Id)
    requires lease < 0 && First(Sweep(db.jobs, now), now) == Some(i)
    ensures Claim(db, now, worker, lease, token).ret == Claimed(i)
    ensures First(Sweep(Claim(db, now, worker, lease, token).db.jobs, now), now) == Some(i)
  {
    var swept := Sweep(db.jobs, now);
    FirstIsTheFirst(swept, now);
    var after := Sweep(Claim(db, now, worker, lease, token).db.jobs, now);
    ClaimedIsNotEligible(swept[i], now, worker, token, lease);
    assert after == swept[i := ClaimedRow(swept[i], now, worker, token, lease)];
    assert IsFirst(after, now, i);
    FirstIsTheFirst(after, now);
  }

  lemma {:induction false} NegativeLeaseRepeats(db: Db, now: Time, worker: string, lease: int, tokens: seq<Token>, i: Id)
    requires lease < 0 && First(Sweep(db.jobs, now), now) == Some(i)
    ensures |Answers(db, now, worker, lease, tokens)| == |tokens|
    ensures forall k | 0 <= k < |tokens| :: Answers(db, now, worker, lease, tokens)[k] == Claimed(i)
    decreases |tokens|
  {
    if tokens != [] {
      StaysFirst(db, now, worker, lease, tokens[0], i);
      NegativeLeaseRepeats(Claim(db, now, worker, lease, tokens[0]).db, now, worker, lease, tokens[1..], i);
    }
  }

  /** A drain of anything works exactly if the lease is not negative; otherwise every claim
      returns the same job. */
  lemma DrainsIff(db: Db, now: Time, worker: string, lease: int, tokens: seq<Token>)
    requires 0 < |Eligible(db, now)| < |tokens|
    ensures HandsOut(db.jobs, Answers(db, now, worker, lease, tokens), Eligible(db, now)) <==> 0 <= lease
  {
    if 0 <= lease {
      Drain(db, now, worker, lease, tokens);
    } else {
      SweepKeepsEligible(db, now);
      FirstIsTheFirst(Sweep(db.jobs, now), now);
      var i :| i in Eligible(db, now);
      assert Claimable(Sweep(db.jobs, now)[i], now);
      NegativeLeaseRepeats(db, now, worker, lease, tokens, First(Sweep(db.jobs, now), now).value);
      assert Answers(db, now, worker, lease, tokens)[|Eligible(db, now)|].Claimed?;
    }
  }

  /** A job claimed during a drain is held under its own token when the drain ends. */
  lemma {:induction false} DrainKeepsHolders(db: Db, now: Time, worker: string, lease: int, tokens: seq<Token>, k: nat)
    requires 0 <= lease && k < |tokens|
    ensures |Answers(db, now, worker, lease, tokens)| == |tokens|
    ensures Answers(db, now, worker, lease, tokens)[k].Claimed? ==>
              Holds(Drained(db, now, worker, lease, tokens), Answers(db, now, worker, lease, tokens)[k].id, tokens[k])
    decreases |tokens|
  {
    var r := Claim(db, now, worker, lease, tokens[0]);
    if k > 0 {
      DrainKeepsHolders(r.db, now, worker, lease, tokens[1..], k - 1);
    } else {
      if r.ret.Claimed? {
        FirstIsTheFirst(Sweep(db.jobs, now), now);
        ClaimedIsNotEligible(Sweep(db.jobs, now)[r.ret.id], now, worker, tokens[0], lease);
        HolderStays(r.db, now, worker, lease, tokens[1..], r.ret.id, tokens[0]);
      }
      if |tokens| > 1 {
        DrainKeepsHolders(r.db, now, worker, lease, tokens[1..], 0);
      }
    }
  }

  lemma {:induction false} HolderStays(db: Db, now: Time, worker: string, lease: int, tokens: seq<Token>, i: Id, t: Token)
    requires 0 <= lease && Holds(db, i, t) && !Claimable(db.jobs[i], now) && !Sweepable(db.jobs[i], now)
    ensures Holds(Drained(db, now, worker, lease, tokens), i, t)
    decreases |tokens|
  {
    if tokens != [] {
      FirstIsTheFirst(Sweep(db.jobs, now), now);
      var after := Claim(db, now, worker, lease, tokens[0]).db;
      assert after.jobs[i] == db.jobs[i];
      HolderStays(after, now, worker, lease, tokens[1..], i, t);
    }
  }

  // ----- no job is stuck -------------------------------------------------------------------

  /** From when on a claim may act on an active job, whatever else happens or does not. */
  function Deadline(j: Job): Option<Time> {
    match j.state
    case Queued => Some(j.createdAt)
    case RetryWait => j.nextRetryAt
    case _ => if j.leaseExpiresAt.Some? then Some(j.leaseExpiresAt.value + 1) else None
  }

  /** Every active job of every run has a deadline. */
  lemma ActiveHasDeadline(run: Run, i: Id)
    requires i in Exec(run).jobs && Exec(run).jobs[i].state.IsActive()
    ensures Deadline(Exec(run).jobs[i]).Some?
  {
    RunsKeepDbOk(run);
    assert JobOk(Exec(run), i);
  }

  lemma DueIsEligible(j: Job, now: Time)
    requires RowOk(j) && j.state.IsActive() && Deadline(j).Some? && Deadline(j).value <= now
    ensures if j.state.CancelRequested? then Sweepable(j, now) else Claimable(j, now)
  {
  }

  /** The deadline is exact: before it, no claim may act on the job, except that a queued one is
      due from the start. */
  lemma DeadlineIsExact(j: Job, now: Time)
    requires RowOk(j) && j.state.IsActive() && Deadline(j).Some?
    ensures j.state in {RetryWait, Planning, Copying, Publishing, Verifying} ==>
              (Claimable(j, now) <==> Deadline(j).value <= now)
    ensures j.state.CancelRequested? ==> (Sweepable(j, now) <==> Deadline(j).value <= now)
    ensures j.state.Queued? ==> Claimable(j, now) && Deadline(j).value == j.createdAt
  {
  }

  /** No active job is stuck: at any instant past its deadline, with no call in between, one
      claim more than there are eligible jobs either hands the job out or has cancelled it. */
  lemma NeverStuck(run: Run, i: Id, now: Time, worker: string, lease: int, tokens: seq<Token>)
    requires i in Exec(run).jobs && Exec(run).jobs[i].state.IsActive()
    requires Deadline(Exec(run).jobs[i]).Some? && Deadline(Exec(run).jobs[i]).value <= now
    requires 0 <= lease && |Eligible(Exec(run), now)| < |tokens|
    ensures var db := Exec(run);
            if db.jobs[i].state.CancelRequested? then
              i in Drained(db, now, worker, lease, tokens).jobs
              && Drained(db, now, worker, lease, tokens).jobs[i].state.Cancelled?
            else
              Claimed(i) in Answers(db, now, worker, lease, tokens)
  {
    var db := Exec(run);
    RunsKeepDbOk(run);
    assert JobOk(db, i);
    DueIsEligible(db.jobs[i], now);
    if db.jobs[i].state.CancelRequested? {
      SweptInDrain(db, now, worker, lease, tokens, i);
    } else {
      Drain(db, now, worker, lease, tokens);
      assert i in Eligible(db, now);
    }
  }

  lemma {:induction false} SweptInDrain(db: Db, now: Time, worker: string, lease: int, tokens: seq<Token>, i: Id)
    requires i in db.jobs && tokens != []
    requires Sweepable(db.jobs[i], now) || db.jobs[i].state.Cancelled?
    ensures var after := Drained(db, now, worker, lease, tokens);
            i in after.jobs && after.jobs[i].state.Cancelled?
    decreases |tokens|
  {
    FirstIsTheFirst(Sweep(db.jobs, now), now);
    var after := Claim(db, now, worker, lease, tokens[0]).db;
    assert after.jobs[i].state.Cancelled?;
    if |tokens| > 1 {
      SweptInDrain(after, now, worker, lease, tokens[1..], i);
    }
  }
}
