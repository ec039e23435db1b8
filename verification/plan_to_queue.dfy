/** From the planner to the queue: saving a plan that the service made. */
module PlanToQueue {
  import opened QueueTypes
  import opened TextOrder
  import opened QueueSpec
  import opened QueueMoves
  import opened QueueRuns
  import opened ManifestGraph
  import opened Planner

  lemma SortedIsDistinct(list: seq<Descriptor>)
    requires StrictlySorted(list)
    ensures Distinct(list)
  {
    forall j, k | 0 <= j < k < |list|
      ensures list[j].digest != list[k].digest
    {
      Irreflexive(list[j].digest);
    }
  }

  /** In every run, saving a plan that the service made never raises: it succeeds exactly for the
      holder of a job that is being planned, and changes nothing otherwise. */
  lemma PlansCanBeSaved(run: Run, now: Time, i: Id, t: Token, s: ImageSnapshot,
                        g: Registry, sel: Selection, root: Child, copyReferrers: bool, records: seq<Record>)
    requires IsPlan(g, sel, root, copyReferrers, records, s.blobs)
    ensures var db := Exec(run);
            && (SaveSnapshot(db, now, i, t, s).ret.True? <==> Holds(db, i, t) && db.jobs[i].state.Planning?)
            && (!SaveSnapshot(db, now, i, t, s).ret.True? ==> SaveSnapshot(db, now, i, t, s) == Outcome(db, False))
  {
    SortedIsDistinct(s.blobs);
    SavesDistinct(run, now, i, t, s);
  }

  lemma SavesDistinct(run: Run, now: Time, i: Id, t: Token, s: ImageSnapshot)
    requires Distinct(s.blobs)
    ensures var db := Exec(run);
            && (SaveSnapshot(db, now, i, t, s).ret.True? <==> Holds(db, i, t) && db.jobs[i].state.Planning?)
            && (!SaveSnapshot(db, now, i, t, s).ret.True? ==> SaveSnapshot(db, now, i, t, s) == Outcome(db, False))
  {
    RunsKeepDbOk(run);
    InsertSucceeds(s.blobs, now);
    if i in Exec(run).jobs {
      assert JobOk(Exec(run), i);
    }
  }
}
