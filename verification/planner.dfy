/** The planner: a depth- and count-limited traversal of the manifest graph that shares its
    `seen` set, its records and its blob table across all the walks of one plan. */
module Planner {
  import opened QueueTypes
  import opened ManifestGraph
  import opened TextOrder

  const MAX_DEPTH: nat := 32
  const MAX_RECORDS: nat := 10000

  datatype PlanError = LimitExceeded | FetchFailed(digest: Digest) | NoReferrerList(digest: Digest) | BadManifest

  // ----- what one walk does to the seen set -------------------------------------------------

  /** A successful walk from `d`: everything newly seen is fetched, supported, closed under
      selected edges, and reached from `d` through newly seen manifests only. */
  ghost predicate Walked(g: Registry, sel: Selection, d: Digest, before: set<Digest>, after: set<Digest>) {
    && before <= after && d in after
    && (forall n | n in after - before :: n in g.manifests && !g.manifests[n].Unsupported?)
    && (forall n, c | n in after - before && Edge(g, sel, n, c) :: c in after && c in g.manifests)
    && (forall n | n in after - before :: ReachesIn(g, sel, after - before, d, n))
  }

  /** The same in the middle of the loop over the children of `d`, `k` of them done. */
  ghost predicate Underway(g: Registry, sel: Selection, d: Digest, k: nat, before: set<Digest>, now: set<Digest>) {
    && d !in before && before + {d} <= now && k <= |Children(g, d)| && d in g.manifests
    && (forall n | n in now - before - {d} :: n in g.manifests && !g.manifests[n].Unsupported?)
    && (forall n, c | n in now - before - {d} && Edge(g, sel, n, c) :: c in now && c in g.manifests)
    && (forall j | 0 <= j < k :: Selected(sel, Children(g, d)[j]) ==>
          Children(g, d)[j].digest in now && Children(g, d)[j].digest in g.manifests)
    && (forall n | n in now - before :: ReachesIn(g, sel, now - before, d, n))
  }

  lemma StartUnderway(g: Registry, sel: Selection, d: Digest, before: set<Digest>)
    requires d !in before && d in g.manifests
    ensures Underway(g, sel, d, 0, before, before + {d})
  {
    ReachesItself(g, sel, before + {d} - before, d);
    assert before + {d} - before == {d};
  }

  lemma ChildWalked(g: Registry, sel: Selection, d: Digest, k: nat, before: set<Digest>, now: set<Digest>, after: set<Digest>)
    requires Underway(g, sel, d, k, before, now) && k < |Children(g, d)|
    requires Selected(sel, Children(g, d)[k]) && Children(g, d)[k].digest in g.manifests
    requires Walked(g, sel, Children(g, d)[k].digest, now, after)
    ensures Underway(g, sel, d, k + 1, before, after)
  {
    var c := Children(g, d)[k].digest;
    assert Edge(g, sel, d, c);
    forall n | n in after - before
      ensures ReachesIn(g, sel, after - before, d, n)
    {
      if n in now {
        ReachesMore(g, sel, now - before, after - before, d, n);
      } else {
        ReachesMore(g, sel, after - now, after - before, c, n);
        StepThenReach(g, sel, after - before, d, c, n);
      }
    }
  }

  lemma AllChildrenWalked(g: Registry, sel: Selection, d: Digest, before: set<Digest>, now: set<Digest>)
    requires Underway(g, sel, d, |Children(g, d)|, before, now) && !g.manifests[d].Unsupported?
    ensures Walked(g, sel, d, before, now)
  {
  }

  // ----- what it does to the records and the blobs ------------------------------------------

  /** One record was added for each selected edge out of a newly seen manifest. */
  ghost predicate Recorded(g: Registry, sel: Selection, d: Digest, before: set<Digest>, after: set<Digest>,
                           old0: seq<Record>, records: seq<Record>) {
    && old0 <= records
    && multiset(records) == multiset(old0) + EdgeRecords(g, sel, after - before)
    && (forall k | |old0| <= k < |records| :: records[k].digest in after)
    && (forall n | n in after - before && n != d :: HasRecord(records[|old0|..], n))
  }

  ghost predicate HasRecord(records: seq<Record>, n: Digest) {
    exists k | 0 <= k < |records| :: records[k].digest == n
  }

  ghost predicate RecordedSoFar(g: Registry, sel: Selection, d: Digest, k: nat, before: set<Digest>, now: set<Digest>,
                                old0: seq<Record>, records: seq<Record>) {
    && k <= |Children(g, d)|
    && old0 <= records
    && multiset(records) == multiset(old0) + (ChildRecords(sel, Children(g, d)[..k]) + EdgeRecords(g, sel, now - before - {d}))
    && (forall i | |old0| <= i < |records| :: records[i].digest in now)
    && (forall n | n in now - before - {d} :: HasRecord(records[|old0|..], n))
  }

  lemma NothingRecorded(g: Registry, sel: Selection, d: Digest, before: set<Digest>, records: seq<Record>)
    ensures RecordedSoFar(g, sel, d, 0, before, before + {d}, records, records)
  {
    assert before + {d} - before - {d} == {};
  }

  lemma ChildSkipped(g: Registry, sel: Selection, d: Digest, k: nat)
    requires k < |Children(g, d)|
    ensures ChildRecords(sel, Children(g, d)[..k + 1])
         == ChildRecords(sel, Children(g, d)[..k])
            + if Selected(sel, Children(g, d)[k]) then multiset{MemberRecord(Children(g, d)[k])} else multiset{}
  {
    assert Children(g, d)[..k + 1][..k] == Children(g, d)[..k];
  }

  lemma HasRecordMore(a: seq<Record>, b: seq<Record>, n: Digest)
    requires HasRecord(a, n) && a <= b
    ensures HasRecord(b, n)
  {
    var k :| 0 <= k < |a| && a[k].digest == n;
    assert b[k].digest == n;
  }

  lemma Regrouped(start: multiset<Record>, x: multiset<Record>, y: multiset<Record>, r: multiset<Record>, z: multiset<Record>)
    ensures start + (x + y) + r + z == start + ((x + r) + (y + z))
    ensures start + (x + y) + (r + z) == start + ((x + r) + (y + z))
  {
  }

  /** The records after the child's record was appended and some of the child's graph was seen. */
  lemma ChildRecordsGrow(g: Registry, sel: Selection, d: Digest, k: nat, before: set<Digest>, now: set<Digest>, after: set<Digest>,
                         old0: seq<Record>, records: seq<Record>)
    requires Underway(g, sel, d, k, before, now) && k < |Children(g, d)| && now <= after
    requires Selected(sel, Children(g, d)[k])
    requires RecordedSoFar(g, sel, d, k, before, now, old0, records)
    ensures multiset(records + [MemberRecord(Children(g, d)[k])]) + EdgeRecords(g, sel, after - now)
         == multiset(old0) + (ChildRecords(sel, Children(g, d)[..k + 1]) + EdgeRecords(g, sel, after - before - {d}))
  {
    ChildSkipped(g, sel, d, k);
    assert after - before - {d} == (now - before - {d}) + (after - now);
    EdgeRecordsOfUnion(g, sel, now - before - {d}, after - now);
    Regrouped(multiset(old0), ChildRecords(sel, Children(g, d)[..k]), EdgeRecords(g, sel, now - before - {d}),
              multiset{MemberRecord(Children(g, d)[k])}, EdgeRecords(g, sel, after - now));
  }

  /** The child's record was appended, then the child was walked. */
  lemma ChildRecorded(g: Registry, sel: Selection, d: Digest, k: nat, before: set<Digest>, now: set<Digest>, after: set<Digest>,
                      old0: seq<Record>, records: seq<Record>, records': seq<Record>)
    requires Underway(g, sel, d, k, before, now) && k < |Children(g, d)|
    requires Selected(sel, Children(g, d)[k])
    requires RecordedSoFar(g, sel, d, k, before, now, old0, records)
    requires Walked(g, sel, Children(g, d)[k].digest, now, after)
    requires Recorded(g, sel, Children(g, d)[k].digest, now, after, records + [MemberRecord(Children(g, d)[k])], records')
    ensures RecordedSoFar(g, sel, d, k + 1, before, after, old0, records')
  {
    ChildRecordsGrow(g, sel, d, k, before, now, after, old0, records);
    ChildHasRecord(d, before, now, after, old0, records, MemberRecord(Children(g, d)[k]), records');
    forall i | |old0| <= i < |records'|
      ensures records'[i].digest in after
    {
      if i <= |records| {
        assert records'[i] == (records + [MemberRecord(Children(g, d)[k])])[i];
      }
    }
  }

  lemma ChildHasRecord(d: Digest, before: set<Digest>, now: set<Digest>, after: set<Digest>,
                       old0: seq<Record>, records: seq<Record>, r: Record, records': seq<Record>)
    requires before <= now <= after && old0 <= records && records + [r] <= records'
    requires forall n | n in now - before - {d} :: HasRecord(records[|old0|..], n)
    requires forall n | n in after - now && n != r.digest :: HasRecord(records'[|records + [r]|..], n)
    ensures forall n | n in after - before - {d} :: HasRecord(records'[|old0|..], n)
  {
    var added := records'[|old0|..];
    assert records[|old0|..] <= added;
    assert added[|records| - |old0|] == r;
    forall n | n in after - before - {d}
      ensures HasRecord(added, n)
    {
      if n in now {
        HasRecordMore(records[|old0|..], added, n);
      } else if n != r.digest {
        var tail := records'[|records + [r]|..];
        assert HasRecord(tail, n);
        var i :| 0 <= i < |tail| && tail[i].digest == n;
        assert added[|records| + 1 - |old0| + i].digest == n;
      }
    }
  }

  lemma AllChildrenRecorded(g: Registry, sel: Selection, d: Digest, before: set<Digest>, now: set<Digest>,
                            old0: seq<Record>, records: seq<Record>)
    requires d !in before && before + {d} <= now
    requires RecordedSoFar(g, sel, d, |Children(g, d)|, before, now, old0, records)
    ensures Recorded(g, sel, d, before, now, old0, records)
  {
    assert Children(g, d)[..|Children(g, d)|] == Children(g, d);
    EdgeRecordsTake(g, sel, now - before, d);
    assert now - before - {d} == (now - before) - {d};
  }

  /** A successful walk at some depth has kept the depth limit: everything newly seen is near
      enough for itself and, if it lists anything, for what it lists. */
  ghost predicate Shallow(g: Registry, sel: Selection, d: Digest, before: set<Digest>, after: set<Digest>, depth: nat) {
    && depth <= MAX_DEPTH
    && forall n | n in after - before :: ReachesBy(g, sel, after - before, d, n, Allowed(g, sel, n, MAX_DEPTH - depth))
  }

  ghost predicate ShallowSoFar(g: Registry, sel: Selection, d: Digest, k: nat, before: set<Digest>, now: set<Digest>, depth: nat)
    requires k <= |Children(g, d)|
  {
    && depth <= MAX_DEPTH
    && (HasNextAmong(g, sel, d, k) ==> depth + 1 <= MAX_DEPTH)
    && forall n | n in now - before - {d} ::
         ReachesBy(g, sel, now - before, d, n, Allowed(g, sel, n, MAX_DEPTH - depth))
  }

  lemma ChildShallow(g: Registry, sel: Selection, d: Digest, k: nat, before: set<Digest>, now: set<Digest>, after: set<Digest>,
                     depth: nat)
    requires d !in before && before + {d} <= now && now <= after && k < |Children(g, d)|
    requires Selected(sel, Children(g, d)[k])
    requires ShallowSoFar(g, sel, d, k, before, now, depth)
    requires Shallow(g, sel, Children(g, d)[k].digest, now, after, depth + 1)
    ensures ShallowSoFar(g, sel, d, k + 1, before, after, depth)
  {
    var c := Children(g, d)[k].digest;
    assert Edge(g, sel, d, c);
    forall n | n in after - before - {d}
      ensures ReachesBy(g, sel, after - before, d, n, Allowed(g, sel, n, MAX_DEPTH - depth))
    {
      if n in now {
        assert n in now - before - {d};
        ReachesMoreBy(g, sel, now - before, after - before, d, n, Allowed(g, sel, n, MAX_DEPTH - depth));
      } else {
        assert n in after - now;
        ReachesMoreBy(g, sel, after - now, after - before, c, n, Allowed(g, sel, n, MAX_DEPTH - depth - 1));
        StepThenReachBy(g, sel, after - before, d, c, n, Allowed(g, sel, n, MAX_DEPTH - depth - 1));
      }
    }
  }

  lemma AllChildrenShallow(g: Registry, sel: Selection, d: Digest, before: set<Digest>, now: set<Digest>, depth: nat)
    requires d !in before && before + {d} <= now
    requires ShallowSoFar(g, sel, d, |Children(g, d)|, before, now, depth)
    ensures Shallow(g, sel, d, before, now, depth)
  {
    ReachesItselfBy(g, sel, now - before, d, Allowed(g, sel, d, MAX_DEPTH - depth));
    forall n | n in now - before && n != d
      ensures ReachesBy(g, sel, now - before, d, n, Allowed(g, sel, n, MAX_DEPTH - depth))
    {
      assert n in now - before - {d};
    }
  }

  ghost predicate WalkDone(g: Registry, sel: Selection, d: Digest, before: set<Digest>, after: set<Digest>,
                           old0: seq<Record>, records: seq<Record>, depth: nat) {
    && Walked(g, sel, d, before, after)
    && Recorded(g, sel, d, before, after, old0, records)
    && Shallow(g, sel, d, before, after, depth)
  }

  ghost predicate Midway(g: Registry, sel: Selection, d: Digest, k: nat, before: set<Digest>, now: set<Digest>,
                         old0: seq<Record>, records: seq<Record>, depth: nat) {
    && Underway(g, sel, d, k, before, now)
    && RecordedSoFar(g, sel, d, k, before, now, old0, records)
    && ShallowSoFar(g, sel, d, k, before, now, depth)
  }

  lemma StartMidway(g: Registry, sel: Selection, d: Digest, before: set<Digest>, records: seq<Record>, depth: nat)
    requires d !in before && d in g.manifests && depth <= MAX_DEPTH
    ensures Midway(g, sel, d, 0, before, before + {d}, records, records, depth)
  {
    StartUnderway(g, sel, d, before);
    NothingRecorded(g, sel, d, before, records);
  }

  lemma SkipMidway(g: Registry, sel: Selection, d: Digest, k: nat, before: set<Digest>, now: set<Digest>,
                   old0: seq<Record>, records: seq<Record>, depth: nat)
    requires Midway(g, sel, d, k, before, now, old0, records, depth)
    requires k < |Children(g, d)| && !Selected(sel, Children(g, d)[k])
    ensures Midway(g, sel, d, k + 1, before, now, old0, records, depth)
  {
    ChildSkipped(g, sel, d, k);
  }

  lemma NextMidway(g: Registry, sel: Selection, d: Digest, k: nat, before: set<Digest>, now: set<Digest>, after: set<Digest>,
                   old0: seq<Record>, records: seq<Record>, records': seq<Record>, depth: nat)
    requires Midway(g, sel, d, k, before, now, old0, records, depth)
    requires k < |Children(g, d)| && Selected(sel, Children(g, d)[k]) && Children(g, d)[k].digest in g.manifests
    requires WalkDone(g, sel, Children(g, d)[k].digest, now, after, records + [MemberRecord(Children(g, d)[k])], records',
                      depth + 1)
    ensures Midway(g, sel, d, k + 1, before, after, old0, records', depth)
  {
    ChildWalked(g, sel, d, k, before, now, after);
    ChildRecorded(g, sel, d, k, before, now, after, old0, records, records');
    ChildShallow(g, sel, d, k, before, now, after, depth);
  }

  lemma MidwayIsDone(g: Registry, sel: Selection, d: Digest, before: set<Digest>, now: set<Digest>,
                     old0: seq<Record>, records: seq<Record>, depth: nat)
    requires Midway(g, sel, d, |Children(g, d)|, before, now, old0, records, depth) && !g.manifests[d].Unsupported?
    ensures WalkDone(g, sel, d, before, now, old0, records, depth)
  {
    AllChildrenWalked(g, sel, d, before, now);
    AllChildrenRecorded(g, sel, d, before, now, old0, records);
    AllChildrenShallow(g, sel, d, before, now, depth);
  }

  // ----- what a failed walk has done --------------------------------------------------------

  /** Even a walk that failed has seen only manifests that `d` reaches outside `before`, and has
      recorded no more than the selected edges that leave them. */
  ghost predicate Partial(g: Registry, sel: Selection, d: Digest, before: set<Digest>, after: set<Digest>,
                          old0: seq<Record>, records: seq<Record>) {
    && before <= after
    && (forall n | n in after - before :: n in g.manifests && ReachesIn(g, sel, g.manifests.Keys - before, d, n))
    && multiset(records) <= multiset(old0) + EdgeRecords(g, sel, after - before)
  }

  lemma NothingPartial(g: Registry, sel: Selection, d: Digest, before: set<Digest>, records: seq<Record>)
    ensures Partial(g, sel, d, before, before, records, records)
  {
  }

  lemma FirstPartial(g: Registry, sel: Selection, d: Digest, before: set<Digest>, records: seq<Record>)
    requires d in g.manifests && d !in before
    ensures Partial(g, sel, d, before, before + {d}, records, records)
  {
    ReachesItself(g, sel, g.manifests.Keys - before, d);
  }

  lemma MidwayPartial(g: Registry, sel: Selection, d: Digest, k: nat, before: set<Digest>, now: set<Digest>,
                      old0: seq<Record>, records: seq<Record>, depth: nat)
    requires Midway(g, sel, d, k, before, now, old0, records, depth)
    ensures Partial(g, sel, d, before, now, old0, records)
  {
    forall n | n in now - before
      ensures n in g.manifests && ReachesIn(g, sel, g.manifests.Keys - before, d, n)
    {
      ReachesMore(g, sel, now - before, g.manifests.Keys - before, d, n);
    }
    RecordsAreEdges(g, sel, d, k, before, now);
  }

  lemma RecordsAreEdges(g: Registry, sel: Selection, d: Digest, k: nat, before: set<Digest>, after: set<Digest>)
    requires d !in before && before + {d} <= after && k <= |Children(g, d)|
    ensures ChildRecords(sel, Children(g, d)[..k]) + EdgeRecords(g, sel, after - before - {d})
         <= EdgeRecords(g, sel, after - before)
  {
    FewerChildRecords(sel, Children(g, d), k);
    EdgeRecordsTake(g, sel, after - before, d);
  }

  lemma ChildPartial(g: Registry, sel: Selection, d: Digest, k: nat, before: set<Digest>, now: set<Digest>, after: set<Digest>,
                     old0: seq<Record>, records: seq<Record>, records': seq<Record>, depth: nat)
    requires Midway(g, sel, d, k, before, now, old0, records, depth) && k < |Children(g, d)| && Selected(sel, Children(g, d)[k])
    requires Partial(g, sel, Children(g, d)[k].digest, now, after, records + [MemberRecord(Children(g, d)[k])], records')
    ensures Partial(g, sel, d, before, after, old0, records')
  {
    var c := Children(g, d)[k].digest;
    MidwayPartial(g, sel, d, k, before, now, old0, records, depth);
    forall n | n in after - now
      ensures n in g.manifests && ReachesIn(g, sel, g.manifests.Keys - before, d, n)
    {
      assert Edge(g, sel, d, c);
      ReachesMore(g, sel, g.manifests.Keys - now, g.manifests.Keys - before, c, n);
      StepThenReach(g, sel, g.manifests.Keys - before, d, c, n);
    }
    ChildRecordsGrow(g, sel, d, k, before, now, after, old0, records);
    RecordsAreEdges(g, sel, d, k + 1, before, after);
  }

  /** The blob table holds exactly the blobs of the seen manifests, each under its digest and as
      one of them lists it. */
  ghost predicate BlobsMatch(g: Registry, seen: set<Digest>, blobs: map<Digest, Descriptor>) {
    && blobs.Keys == BlobDigests(g, seen)
    && forall k | k in blobs :: blobs[k].digest == k && IsListed(g, seen, blobs[k])
  }

  ghost predicate IsListed(g: Registry, seen: set<Digest>, b: Descriptor) {
    exists n :: n in seen && b in Descriptors(g, n)
  }

  lemma NoBlobDigests(g: Registry, seen: set<Digest>, d: Digest)
    requires Descriptors(g, d) == []
    ensures BlobDigests(g, seen + {d}) == BlobDigests(g, seen)
  {
    BlobDigestsOfUnion(g, seen, {d});
    assert BlobDigests(g, {d}) == {};
  }

  lemma IndexAddsNoBlobs(g: Registry, seen: set<Digest>, d: Digest, blobs: map<Digest, Descriptor>)
    requires BlobsMatch(g, seen, blobs) && Descriptors(g, d) == []
    ensures BlobsMatch(g, seen + {d}, blobs)
  {
    NoBlobDigests(g, seen, d);
    forall k | k in blobs
      ensures IsListed(g, seen + {d}, blobs[k])
    {
      ListedMore(g, seen, d, blobs[k]);
    }
  }

  lemma ListedMore(g: Registry, seen: set<Digest>, d: Digest, b: Descriptor)
    requires IsListed(g, seen, b)
    ensures IsListed(g, seen + {d}, b)
  {
    var n :| n in seen && b in Descriptors(g, n);
    assert n in seen + {d};
  }

  // ----- why a walk fails -------------------------------------------------------------------

  /** A walk through manifests outside `avoid` that repeats none of them, except perhaps where it ends. */
  ghost predicate DeepPath(g: Registry, sel: Selection, avoid: set<Digest>, p: seq<Digest>) {
    && Path(g, sel, g.manifests.Keys, p)
    && (forall k | 0 <= k < |p| - 1 :: p[k] !in avoid)
    && forall j, k | 0 <= j < k < |p| - 1 :: p[j] != p[k]
  }

  ghost predicate GoesDeep(g: Registry, sel: Selection, avoid: set<Digest>, d: Digest, edges: nat) {
    exists p :: DeepPath(g, sel, avoid, p) && |p| == edges + 1 && p[0] == d
  }

  /** A failure of a walk at the given depth names something that is really there. */
  ghost predicate Genuine(g: Registry, sel: Selection, d: Digest, before: set<Digest>, depth: nat, count: nat, e: PlanError) {
    match e
    case LimitExceeded => count > MAX_RECORDS || (depth <= MAX_DEPTH + 1 && GoesDeep(g, sel, before, d, MAX_DEPTH + 1 - depth))
    case FetchFailed(c) => c !in g.manifests && exists n :: ReachesIn(g, sel, g.manifests.Keys - before, d, n) && Edge(g, sel, n, c)
    case BadManifest =>
      exists n :: ReachesIn(g, sel, g.manifests.Keys - before, d, n) && n in g.manifests && g.manifests[n].Unsupported?
    case NoReferrerList(_) => false
  }

  lemma LimitIsGenuine(g: Registry, sel: Selection, d: Digest, before: set<Digest>, depth: nat, count: nat)
    requires d in g.manifests && depth <= MAX_DEPTH + 1 && (depth > MAX_DEPTH || count > MAX_RECORDS)
    ensures Genuine(g, sel, d, before, depth, count, LimitExceeded)
  {
    assert DeepPath(g, sel, before, [d]);
  }

  lemma UnsupportedIsGenuine(g: Registry, sel: Selection, d: Digest, before: set<Digest>, depth: nat, count: nat)
    requires d in g.manifests && d !in before && g.manifests[d].Unsupported?
    ensures Genuine(g, sel, d, before, depth, count, BadManifest)
  {
    ReachesItself(g, sel, g.manifests.Keys - before, d);
  }

  lemma FetchIsGenuine(g: Registry, sel: Selection, d: Digest, before: set<Digest>, depth: nat, count: nat, k: nat)
    requires d in g.manifests && d !in before && k < |Children(g, d)| && Selected(sel, Children(g, d)[k])
    requires Children(g, d)[k].digest !in g.manifests
    ensures Genuine(g, sel, d, before, depth, count, FetchFailed(Children(g, d)[k].digest))
  {
    ReachesItself(g, sel, g.manifests.Keys - before, d);
    assert Edge(g, sel, d, Children(g, d)[k].digest);
  }

  lemma DeeperPath(g: Registry, sel: Selection, before: set<Digest>, now: set<Digest>, d: Digest, c: Digest, edges: nat)
    requires d in g.manifests && d !in before && before + {d} <= now && Edge(g, sel, d, c)
    requires GoesDeep(g, sel, now, c, edges)
    ensures GoesDeep(g, sel, before, d, edges + 1)
  {
    var p :| DeepPath(g, sel, now, p) && |p| == edges + 1 && p[0] == c;
    var q := [d] + p;
    assert forall k | 0 < k < |q| :: q[k] == p[k - 1];
    assert Path(g, sel, g.manifests.Keys, q);
    assert DeepPath(g, sel, before, q);
  }

  lemma ChildFailed(g: Registry, sel: Selection, d: Digest, k: nat, before: set<Digest>, now: set<Digest>,
                    depth: nat, count: nat, e: PlanError)
    requires Underway(g, sel, d, k, before, now) && k < |Children(g, d)| && Selected(sel, Children(g, d)[k])
    requires Genuine(g, sel, Children(g, d)[k].digest, now, depth + 1, count, e)
    ensures Genuine(g, sel, d, before, depth, count, e)
  {
    var c := Children(g, d)[k].digest;
    assert Edge(g, sel, d, c);
    match e
    case LimitExceeded =>
      if count <= MAX_RECORDS {
        DeeperPath(g, sel, before, now, d, c, MAX_DEPTH - depth);
      }
    case FetchFailed(x) =>
      var n :| ReachesIn(g, sel, g.manifests.Keys - now, c, n) && Edge(g, sel, n, x);
      ReachesMore(g, sel, g.manifests.Keys - now, g.manifests.Keys - before, c, n);
      StepThenReach(g, sel, g.manifests.Keys - before, d, c, n);
    case BadManifest =>
      var n :| ReachesIn(g, sel, g.manifests.Keys - now, c, n) && n in g.manifests && g.manifests[n].Unsupported?;
      ReachesMore(g, sel, g.manifests.Keys - now, g.manifests.Keys - before, c, n);
      StepThenReach(g, sel, g.manifests.Keys - before, d, c, n);
    case NoReferrerList(_) =>
  }

  ghost predicate WalkFailed(g: Registry, sel: Selection, d: Digest, before: set<Digest>, after: set<Digest>,
                         old0: seq<Record>, records: seq<Record>, depth: nat, e: PlanError) {
    Genuine(g, sel, d, before, depth, |records|, e) && Partial(g, sel, d, before, after, old0, records)
  }

  ghost predicate WalkOutcome(g: Registry, sel: Selection, d: Digest, before: set<Digest>, after: set<Digest>,
                              old0: seq<Record>, records: seq<Record>, depth: nat, err: Option<PlanError>) {
    match err
    case None => WalkDone(g, sel, d, before, after, old0, records, depth)
    case Some(e) => WalkFailed(g, sel, d, before, after, old0, records, depth, e)
  }

  /** The loop over the children of `d` after `k` of them. */
  ghost predicate LoopOutcome(g: Registry, sel: Selection, d: Digest, k: nat, before: set<Digest>, now: set<Digest>,
                              old0: seq<Record>, records: seq<Record>, depth: nat, err: Option<PlanError>) {
    match err
    case None => Midway(g, sel, d, k, before, now, old0, records, depth)
    case Some(e) => WalkFailed(g, sel, d, before, now, old0, records, depth, e)
  }

  /** What follows if the next child is not selected, or is but cannot be fetched. */
  lemma BeforeChild(g: Registry, sel: Selection, d: Digest, k: nat, before: set<Digest>, now: set<Digest>,
                    old0: seq<Record>, records: seq<Record>, depth: nat)
    requires LoopOutcome(g, sel, d, k, before, now, old0, records, depth, None) && k < |Children(g, d)|
    ensures !Selected(sel, Children(g, d)[k]) ==> LoopOutcome(g, sel, d, k + 1, before, now, old0, records, depth, None)
    ensures var c := Children(g, d)[k];
            Selected(sel, c) && c.digest !in g.manifests ==>
              LoopOutcome(g, sel, d, k, before, now, old0, records, depth, Some(FetchFailed(c.digest)))
  {
    if !Selected(sel, Children(g, d)[k]) {
      SkipMidway(g, sel, d, k, before, now, old0, records, depth);
    } else if Children(g, d)[k].digest !in g.manifests {
      FetchIsGenuine(g, sel, d, before, depth, |records|, k);
      MidwayPartial(g, sel, d, k, before, now, old0, records, depth);
    }
  }

  /** What the walk from a selected child does for the loop. */
  lemma AfterChild(g: Registry, sel: Selection, d: Digest, k: nat, before: set<Digest>, now: set<Digest>, after: set<Digest>,
                   old0: seq<Record>, records: seq<Record>, records': seq<Record>, depth: nat, err: Option<PlanError>)
    requires LoopOutcome(g, sel, d, k, before, now, old0, records, depth, None)
    requires k < |Children(g, d)| && Selected(sel, Children(g, d)[k]) && Children(g, d)[k].digest in g.manifests
    requires WalkOutcome(g, sel, Children(g, d)[k].digest, now, after, records + [MemberRecord(Children(g, d)[k])], records',
                         depth + 1, err)
    ensures LoopOutcome(g, sel, d, k + 1, before, after, old0, records', depth, err)
  {
    match err
    case None =>
      NextMidway(g, sel, d, k, before, now, after, old0, records, records', depth);
    case Some(e) =>
      ChildFailed(g, sel, d, k, before, now, depth, |records'|, e);
      ChildPartial(g, sel, d, k, before, now, after, old0, records, records', depth);
  }

  // ----- the traversal ----------------------------------------------------------------------

  class Traversal {
    const g: Registry
    var records: seq<Record>
    var blobs: map<Digest, Descriptor>
    var seen: set<Digest>

    constructor (g: Registry, root: Record)
      ensures this.g == g && records == [root] && blobs == map[] && seen == {}
    {
      this.g := g;
      records, blobs, seen := [root], map[], {};
    }

    /** Walks the graph from the manifest `d`, which has been fetched already. */
    method Walk(d: Digest, sel: Selection, depth: nat) returns (err: Option<PlanError>)
      requires d in g.manifests && depth <= MAX_DEPTH + 1
      requires BlobsMatch(g, seen, blobs)
      modifies this
      ensures old(seen) <= seen
      ensures WalkOutcome(g, sel, d, old(seen), seen, old(records), records, depth, err)
      ensures err.None? ==> BlobsMatch(g, seen, blobs) && |records| <= MAX_RECORDS
      decreases MAX_DEPTH + 1 - depth, 1
    {
      if depth > MAX_DEPTH || |records| > MAX_RECORDS {
        LimitIsGenuine(g, sel, d, seen, depth, |records|);
        NothingPartial(g, sel, d, seen, records);
        return Some(LimitExceeded);
      }
      if d in seen {
        AlreadyDone(g, sel, d, seen, records, depth);
        return None;
      }
      ghost var before, old0 := seen, records;
      StartMidway(g, sel, d, before, old0, depth);
      seen := seen + {d};
      match g.manifests[d]
      case Index(children) =>
        IndexAddsNoBlobs(g, before, d, blobs);
        err := WalkChildren(d, children, sel, depth, before);
        if err.None? {
          MidwayIsDone(g, sel, d, before, seen, old0, records, depth);
        }
      case Image(config, layers) =>
        ImageAddsBlobs(g, before, d, blobs);
        AddBlobs(d);
        ImageWalked(g, sel, d, before, old0, depth);
        err := None;
      case Unsupported =>
        UnsupportedIsGenuine(g, sel, d, before, depth, |records|);
        FirstPartial(g, sel, d, before, old0);
        err := Some(BadManifest);
    }

    /** The loop over an index: each selected child is fetched, recorded and walked. */
    method WalkChildren(d: Digest, children: seq<Child>, sel: Selection, depth: nat, ghost before: set<Digest>)
      returns (err: Option<PlanError>)
      requires d in g.manifests && g.manifests[d] == Index(children) && depth <= MAX_DEPTH
      requires LoopOutcome(g, sel, d, 0, before, seen, records, records, depth, None)
      requires BlobsMatch(g, seen, blobs) && |records| <= MAX_RECORDS
      modifies this
      ensures old(seen) <= seen
      ensures LoopOutcome(g, sel, d, |children|, before, seen, old(records), records, depth, err)
      ensures err.None? ==> BlobsMatch(g, seen, blobs) && |records| <= MAX_RECORDS
      decreases MAX_DEPTH + 1 - depth, 0
    {
      ghost var old0 := records;
      for k := 0 to |children|
        invariant LoopOutcome(g, sel, d, k, before, seen, old0, records, depth, None)
        invariant BlobsMatch(g, seen, blobs) && |records| <= MAX_RECORDS && old(seen) <= seen
      {
        var c := children[k];
        ghost var now, soFar := seen, records;
        BeforeChild(g, sel, d, k, before, now, old0, soFar, depth);
        if sel != {} && (c.platform.None? || c.platform.value !in sel) {
          continue;
        }
        if c.digest !in g.manifests {
          return Some(FetchFailed(c.digest));
        }
        records := records + [MemberRecord(c)];
        err := Walk(c.digest, sel, depth + 1);
        AfterChild(g, sel, d, k, before, now, seen, old0, soFar, records, depth, err);
        if err.Some? {
          return;
        }
      }
      err := None;
    }

    /** The blobs of an image: its config, then its layers. */
    method AddBlobs(d: Digest)
      requires d in g.manifests && g.manifests[d].Image?
      modifies this`blobs
      ensures blobs == AddedBlobs(g, d, old(blobs))
    {
      var config, layers := g.manifests[d].config, g.manifests[d].layers;
      ghost var all := Descriptors(g, d);
      blobs := blobs[config.digest := config];
      for k := 0 to |layers|
        invariant blobs == Added(old(blobs), all, k + 1)
      {
        blobs := blobs[layers[k].digest := layers[k]];
      }
    }
  }

  /** A blob table after the first `k` descriptors are written to it in order. */
  function Added(blobs: map<Digest, Descriptor>, ds: seq<Descriptor>, k: nat): map<Digest, Descriptor>
    requires k <= |ds|
  {
    if k == 0 then blobs else Added(blobs, ds, k - 1)[ds[k - 1].digest := ds[k - 1]]
  }

  lemma {:induction false} AddedFrom(blobs: map<Digest, Descriptor>, ds: seq<Descriptor>, k: nat, x: Digest)
    requires k <= |ds| && x in Added(blobs, ds, k)
    ensures var b := Added(blobs, ds, k)[x]; (b in ds && b.digest == x) || (x in blobs && b == blobs[x])
  {
    if k > 0 && ds[k - 1].digest != x {
      AddedFrom(blobs, ds, k - 1, x);
    }
  }

  lemma {:induction false} AddedAll(blobs: map<Digest, Descriptor>, ds: seq<Descriptor>, k: nat)
    requires k <= |ds|
    ensures blobs.Keys <= Added(blobs, ds, k).Keys
    ensures forall i | 0 <= i < k :: ds[i].digest in Added(blobs, ds, k)
  {
    if k > 0 {
      AddedAll(blobs, ds, k - 1);
    }
  }

  lemma BlobDigestsOfOne(g: Registry, d: Digest, x: Digest)
    ensures x in BlobDigests(g, {d}) <==> exists b :: b in Descriptors(g, d) && b.digest == x
  {
    if b :| b in Descriptors(g, d) && b.digest == x {
      var k :| 0 <= k < |Descriptors(g, d)| && Descriptors(g, d)[k] == b;
      assert d in {d} && Descriptors(g, d)[k].digest == x;
    }
  }

  lemma AddedIsListed(g: Registry, before: set<Digest>, d: Digest, blobs: map<Digest, Descriptor>, x: Digest)
    requires BlobsMatch(g, before, blobs) && x in AddedBlobs(g, d, blobs)
    ensures AddedBlobs(g, d, blobs)[x].digest == x && IsListed(g, before + {d}, AddedBlobs(g, d, blobs)[x])
    ensures x in BlobDigests(g, before) || x in BlobDigests(g, {d})
  {
    var b := AddedBlobs(g, d, blobs)[x];
    AddedFrom(blobs, Descriptors(g, d), |Descriptors(g, d)|, x);
    BlobDigestsOfOne(g, d, x);
    if b in Descriptors(g, d) {
      assert d in before + {d};
    } else {
      var n :| n in before && b in Descriptors(g, n);
      assert n in before + {d};
    }
  }

  lemma ListedIsAdded(g: Registry, d: Digest, blobs: map<Digest, Descriptor>, x: Digest)
    requires x in blobs || x in BlobDigests(g, {d})
    ensures x in AddedBlobs(g, d, blobs)
  {
    AddedAll(blobs, Descriptors(g, d), |Descriptors(g, d)|);
    BlobDigestsOfOne(g, d, x);
  }

  function AddedBlobs(g: Registry, d: Digest, blobs: map<Digest, Descriptor>): map<Digest, Descriptor> {
    Added(blobs, Descriptors(g, d), |Descriptors(g, d)|)
  }

  lemma AddedKeys(g: Registry, before: set<Digest>, d: Digest, blobs: map<Digest, Descriptor>)
    requires BlobsMatch(g, before, blobs)
    ensures AddedBlobs(g, d, blobs).Keys == BlobDigests(g, before) + BlobDigests(g, {d})
  {
    forall x | x in AddedBlobs(g, d, blobs)
      ensures x in BlobDigests(g, before) || x in BlobDigests(g, {d})
    {
      AddedIsListed(g, before, d, blobs, x);
    }
    forall x | x in BlobDigests(g, before) || x in BlobDigests(g, {d})
      ensures x in AddedBlobs(g, d, blobs)
    {
      ListedIsAdded(g, d, blobs, x);
    }
  }

  lemma ImageAddsBlobs(g: Registry, before: set<Digest>, d: Digest, blobs: map<Digest, Descriptor>)
    requires BlobsMatch(g, before, blobs)
    ensures BlobsMatch(g, before + {d}, AddedBlobs(g, d, blobs))
  {
    AddedKeys(g, before, d, blobs);
    BlobDigestsOfUnion(g, before, {d});
    forall x | x in AddedBlobs(g, d, blobs)
      ensures AddedBlobs(g, d, blobs)[x].digest == x && IsListed(g, before + {d}, AddedBlobs(g, d, blobs)[x])
    {
      AddedIsListed(g, before, d, blobs, x);
    }
  }

  lemma AlreadyDone(g: Registry, sel: Selection, d: Digest, seen: set<Digest>, records: seq<Record>, depth: nat)
    requires d in seen && depth <= MAX_DEPTH
    ensures WalkDone(g, sel, d, seen, seen, records, records, depth)
  {
    assert seen - seen == {};
  }

  lemma ImageWalked(g: Registry, sel: Selection, d: Digest, before: set<Digest>, records: seq<Record>, depth: nat)
    requires d in g.manifests && g.manifests[d].Image? && d !in before && depth <= MAX_DEPTH
    ensures WalkDone(g, sel, d, before, before + {d}, records, records, depth)
  {
    StartMidway(g, sel, d, before, records, depth);
    MidwayIsDone(g, sel, d, before, before + {d}, records, records, depth);
  }

  // ----- the nodes of a plan ----------------------------------------------------------------

  /** A manifest of the base is near enough to the root. */
  ghost predicate NearRoot(g: Registry, sel: Selection, root: Digest, n: Digest) {
    ReachesBy(g, sel, g.manifests.Keys, root, n, Allowed(g, sel, n, MAX_DEPTH))
  }

  /** An attached manifest is near enough to a referrer. */
  ghost predicate NearReferrer(g: Registry, base: set<Digest>, n: Digest) {
    exists r :: IsReferrerOf(g, base, r)
             && ReachesBy(g, ALL, g.manifests.Keys - base, r, n, Allowed(g, ALL, n, MAX_DEPTH - 1))
  }

  /** The whole plan is within the depth limit. */
  ghost predicate AllNear(g: Registry, sel: Selection, root: Digest, copyReferrers: bool) {
    var base := BaseNodes(g, sel, root);
    && (forall n | n in base :: NearRoot(g, sel, root, n))
    && (copyReferrers ==> forall n | n in AttachedNodes(g, base) :: NearReferrer(g, base, n))
  }

  /** What the root reaches over selected edges. */
  ghost function BaseNodes(g: Registry, sel: Selection, root: Digest): set<Digest> {
    set n | n in g.manifests && Reaches(g, sel, root, n)
  }

  ghost predicate IsReferrerOf(g: Registry, base: set<Digest>, r: Digest) {
    exists s, k :: s in base && s in g.referrers && 0 <= k < |g.referrers[s]| && g.referrers[s][k].digest == r
  }

  /** Reached from a direct referrer of a base manifest without passing through a base manifest.
      The platform filter does not apply here. */
  ghost predicate IsAttached(g: Registry, base: set<Digest>, n: Digest) {
    exists r :: IsReferrerOf(g, base, r) && ReachesIn(g, ALL, g.manifests.Keys - base, r, n)
  }

  ghost function AttachedNodes(g: Registry, base: set<Digest>): set<Digest> {
    set n | n in g.manifests && n !in base && IsAttached(g, base, n)
  }

  ghost function PlannedNodes(g: Registry, sel: Selection, root: Digest, copyReferrers: bool): set<Digest> {
    var base := BaseNodes(g, sel, root);
    if copyReferrers then base + AttachedNodes(g, base) else base
  }

  /** Every manifest the plan should contain was fetched and is supported, edge by edge. */
  ghost predicate NothingMissing(g: Registry, sel: Selection, root: Digest, copyReferrers: bool) {
    var base := BaseNodes(g, sel, root);
    && root in base
    && (forall n, c | n in base && Edge(g, sel, n, c) :: c in base)
    && (forall n | n in PlannedNodes(g, sel, root, copyReferrers) :: !g.manifests[n].Unsupported?)
    && (copyReferrers ==>
          && (forall n | n in base :: n in g.referrers)
          && (forall r | IsReferrerOf(g, base, r) :: r in base + AttachedNodes(g, base))
          && (forall n, c | n in AttachedNodes(g, base) && Edge(g, ALL, n, c) :: c in base + AttachedNodes(g, base)))
  }

  /** The first walk sees exactly the base. */
  lemma BaseIsSeen(g: Registry, sel: Selection, root: Digest, seen: set<Digest>)
    requires Walked(g, sel, root, {}, seen)
    ensures seen == BaseNodes(g, sel, root)
    ensures forall n, c | n in seen && Edge(g, sel, n, c) :: c in seen
  {
    assert seen - {} == seen;
    forall n | n in seen
      ensures n in BaseNodes(g, sel, root)
    {
      ReachesMore(g, sel, seen, g.manifests.Keys, root, n);
    }
    forall n | n in BaseNodes(g, sel, root)
      ensures n in seen
    {
      ClosedHoldsReachable(g, sel, g.manifests.Keys, seen, root, n);
    }
  }

  /** What the walks from referrers keep. */
  ghost predicate ReferrersWalked(g: Registry, base: set<Digest>, seen: set<Digest>) {
    && base <= seen
    && (forall n | n in seen - base :: n in g.manifests && !g.manifests[n].Unsupported? && IsAttached(g, base, n))
    && (forall n | n in seen - base :: NearReferrer(g, base, n))
    && (forall n, c | n in seen - base && Edge(g, ALL, n, c) :: c in seen && c in g.manifests)
  }

  lemma ReferrerWalked(g: Registry, base: set<Digest>, r: Digest, now: set<Digest>, after: set<Digest>)
    requires ReferrersWalked(g, base, now) && IsReferrerOf(g, base, r)
    requires Walked(g, ALL, r, now, after) && Shallow(g, ALL, r, now, after, 1)
    ensures ReferrersWalked(g, base, after)
  {
    forall n | n in after - base
      ensures NearReferrer(g, base, n)
    {
      if n !in now {
        assert n in after - now;
        ReachesMoreBy(g, ALL, after - now, g.manifests.Keys - base, r, n, Allowed(g, ALL, n, MAX_DEPTH - 1));
      }
    }
    forall n | n in after - base
      ensures IsAttached(g, base, n)
    {
      if n !in now {
        ReachesMore(g, ALL, after - now, g.manifests.Keys - base, r, n);
      }
    }
  }

  /** Once all referrers are walked, exactly the attached manifests have been added. */
  lemma AttachedAreSeen(g: Registry, base: set<Digest>, seen: set<Digest>)
    requires ReferrersWalked(g, base, seen)
    requires forall r | IsReferrerOf(g, base, r) :: r in seen
    ensures seen == base + AttachedNodes(g, base)
  {
    forall n | n in AttachedNodes(g, base)
      ensures n in seen
    {
      var r :| IsReferrerOf(g, base, r) && ReachesIn(g, ALL, g.manifests.Keys - base, r, n);
      ClosedHoldsReachable(g, ALL, g.manifests.Keys - base, seen, r, n);
    }
  }

  // ----- the sorted blob list ---------------------------------------------------------------

  predicate StrictlySorted(list: seq<Descriptor>) {
    forall j, k | 0 <= j < k < |list| :: TextLess(list[j].digest, list[k].digest)
  }

  /** Puts one descriptor where it belongs. */
  method InsertSorted(list: seq<Descriptor>, b: Descriptor) returns (more: seq<Descriptor>)
    requires StrictlySorted(list) && forall k | 0 <= k < |list| :: list[k].digest != b.digest
    ensures StrictlySorted(more)
    ensures forall x :: x in more <==> x == b || x in list
  {
    var k := 0;
    while k < |list| && TextLess(list[k].digest, b.digest)
      invariant k <= |list|
      invariant forall j | 0 <= j < k :: TextLess(list[j].digest, b.digest)
    {
      k := k + 1;
    }
    more := list[..k] + [b] + list[k..];
    InsertedInOrder(list, b, k);
    forall x
      ensures x in more <==> x == b || x in list
    {
      assert list == list[..k] + list[k..];
    }
  }

  lemma InsertedInOrder(list: seq<Descriptor>, b: Descriptor, k: nat)
    requires StrictlySorted(list) && k <= |list|
    requires forall j | 0 <= j < k :: TextLess(list[j].digest, b.digest)
    requires k < |list| ==> list[k].digest != b.digest && !TextLess(list[k].digest, b.digest)
    ensures StrictlySorted(list[..k] + [b] + list[k..])
  {
    var more := list[..k] + [b] + list[k..];
    forall j | k <= j < |list|
      ensures TextLess(b.digest, list[j].digest)
    {
      Total(list[k].digest, b.digest);
      if j > k {
        Transitive(b.digest, list[k].digest, list[j].digest);
      }
    }
    assert forall j | 0 <= j < |more| :: more[j] == if j < k then list[j] else if j == k then b else list[j - 1];
  }

  /** The blob list: the table's values, taken in any order and sorted by digest. */
  method SortedBlobs(blobs: map<Digest, Descriptor>) returns (list: seq<Descriptor>)
    requires forall k | k in blobs :: blobs[k].digest == k
    ensures StrictlySorted(list)
    ensures forall b :: b in list <==> b.digest in blobs && blobs[b.digest] == b
  {
    list := [];
    var rest := blobs.Keys;
    while rest != {}
      invariant rest <= blobs.Keys && StrictlySorted(list)
      invariant forall b :: b in list <==> b.digest in blobs && b.digest !in rest && blobs[b.digest] == b
      decreases rest
    {
      var k :| k in rest;
      forall i | 0 <= i < |list|
        ensures list[i].digest != k
      {
        assert list[i] in list;
      }
      list := InsertSorted(list, blobs[k]);
      rest := rest - {k};
    }
  }

  /** There is only one sorted list of given descriptors, so the order in which Go iterates over
      the table does not show. */
  lemma {:induction false} SortedListIsUnique(a: seq<Descriptor>, b: seq<Descriptor>)
    requires StrictlySorted(a) && StrictlySorted(b)
    requires forall x :: x in a <==> x in b
    ensures a == b
    decreases |a|
  {
    var aFirst, bFirst := a != [] && a[0] in b, b != [] && b[0] in a;
    if a != [] && b != [] {
      SameFirst(a, b);
      SameFirst(b, a);
      if a[0] != b[0] {
        Transitive(a[0].digest, b[0].digest, a[0].digest);
        Irreflexive(a[0].digest);
      }
      assert a == [a[0]] + a[1..] && b == [b[0]] + b[1..];
      NotAgain(a);
      NotAgain(b);
      forall x
        ensures x in a[1..] <==> x in b[1..]
      {
        assert x in a <==> x == a[0] || x in a[1..];
        assert x in b <==> x == b[0] || x in b[1..];
      }
      SortedListIsUnique(a[1..], b[1..]);
    }
  }

  lemma NotAgain(a: seq<Descriptor>)
    requires StrictlySorted(a) && a != []
    ensures a[0] !in a[1..]
  {
    Irreflexive(a[0].digest);
  }

  lemma SameFirst(a: seq<Descriptor>, b: seq<Descriptor>)
    requires StrictlySorted(a) && StrictlySorted(b) && a != [] && b != []
    requires forall x :: x in a <==> x in b
    ensures a[0] == b[0] || TextLess(b[0].digest, a[0].digest)
  {
    assert a[0] in b;
  }

  // ----- the plan ---------------------------------------------------------------------------

  function RootRecord(root: Child): Record {
    Record(root.digest, root.mediaType, root.size, Root, None, None)
  }

  function ReferrerRecord(subject: Digest, r: Child): Record {
    Record(r.digest, r.mediaType, r.size, Referrer, Some(subject), None)
  }

  function ReferrersOf(g: Registry, subject: Digest): seq<Child> {
    if subject in g.referrers then g.referrers[subject] else []
  }

  function ReferrerRecords(subject: Digest, list: seq<Child>): seq<Record> {
    seq(|list|, j requires 0 <= j < |list| => ReferrerRecord(subject, list[j]))
  }

  /** The records of the referrers of the first `k` records; a manifest that is recorded twice
      has its referrers recorded twice. */
  function Listing(g: Registry, records: seq<Record>, k: nat): seq<Record>
    requires k <= |records|
  {
    if k == 0 then []
    else Listing(g, records, k - 1) + ReferrerRecords(records[k - 1].digest, ReferrersOf(g, records[k - 1].digest))
  }

  lemma {:induction false} ListingAt(g: Registry, records: seq<Record>, i: nat, k: nat)
    requires i < k <= |records|
    ensures var list := ReferrersOf(g, records[i].digest);
            var before := |Listing(g, records, i)|;
            && |Listing(g, records, i + 1)| == before + |list|
            && IsPartOf(ReferrerRecords(records[i].digest, list), Listing(g, records, k), before)
    decreases k
  {
    if i + 1 < k {
      ListingAt(g, records, i, k - 1);
    }
  }

  /** `items` are the records of all referrers, those of `records[i]` beginning at `offsets[i]`. */
  predicate Itemized(g: Registry, records: seq<Record>, items: seq<Record>, offsets: seq<nat>) {
    && |offsets| == |records| + 1 && offsets[0] == 0 && offsets[|records|] == |items|
    && forall i | 0 <= i < |records| :: PartAt(g, records[i].digest, items, offsets[i], offsets[i + 1])
  }

  predicate PartAt(g: Registry, subject: Digest, items: seq<Record>, from: nat, to: nat) {
    && to == from + |ReferrersOf(g, subject)|
    && IsPartOf(ReferrerRecords(subject, ReferrersOf(g, subject)), items, from)
  }

  lemma Itemize(g: Registry, records: seq<Record>) returns (offsets: seq<nat>)
    ensures Itemized(g, records, Listing(g, records, |records|), offsets)
  {
    offsets := seq(|records| + 1, k requires 0 <= k <= |records| => |Listing(g, records, k)|);
    forall i | 0 <= i < |records|
      ensures PartAt(g, records[i].digest, Listing(g, records, |records|), offsets[i], offsets[i + 1])
    {
      ListingAt(g, records, i, |records|);
    }
  }

  predicate IsPartOf(part: seq<Record>, whole: seq<Record>, at: nat) {
    at + |part| <= |whole| && forall j | 0 <= j < |part| :: whole[at + j] == part[j]
  }

  /** The records of the first walk: the root's, then one for each selected edge of the base. */
  ghost predicate BaseRecords(g: Registry, sel: Selection, root: Child, records: seq<Record>) {
    && [RootRecord(root)] <= records
    && multiset(records) == multiset{RootRecord(root)} + EdgeRecords(g, sel, BaseNodes(g, sel, root.digest))
  }

  /** All the records when referrers are followed. */
  ghost function AllRecords(g: Registry, sel: Selection, root: Child, base: seq<Record>): multiset<Record> {
    multiset(base)
    + (multiset(Listing(g, base, |base|)) + EdgeRecords(g, ALL, AttachedNodes(g, BaseNodes(g, sel, root.digest))))
  }

  /** The records of a plan: those of the base, then one for each referrer of each of them and
      for each edge of what the referrers reach. */
  ghost predicate PlanRecords(g: Registry, sel: Selection, root: Child, copyReferrers: bool, records: seq<Record>) {
    if copyReferrers then
      exists base :: base <= records && BaseRecords(g, sel, root, base) && multiset(records) == AllRecords(g, sel, root, base)
    else
      BaseRecords(g, sel, root, records)
  }

  /** The blob list of a plan: sorted, without duplicates, the blobs of exactly the planned manifests. */
  ghost predicate PlanBlobs(g: Registry, nodes: set<Digest>, list: seq<Descriptor>) {
    && StrictlySorted(list)
    && (forall k: Digest :: k in BlobDigests(g, nodes) <==> exists b :: b in list && b.digest == k)
    && (forall b | b in list :: IsListed(g, nodes, b))
  }

  /** What a successful plan returns. */
  ghost predicate IsPlan(g: Registry, sel: Selection, root: Child, copyReferrers: bool,
                         records: seq<Record>, list: seq<Descriptor>) {
    && NothingMissing(g, sel, root.digest, copyReferrers)
    && AllNear(g, sel, root.digest, copyReferrers)
    && PlanRecords(g, sel, root, copyReferrers, records)
    && |records| <= MAX_RECORDS
    && PlanBlobs(g, PlannedNodes(g, sel, root.digest, copyReferrers), list)
  }

  /** Why following the referrers fails, `count` being the number of records of the whole plan. */
  ghost predicate AttachingFails(g: Registry, base: set<Digest>, count: nat, e: PlanError) {
    || (e.NoReferrerList? && e.digest in base && e.digest !in g.referrers)
    || exists r :: IsReferrerOf(g, base, r) && ReferrerFails(g, base, r, count, e)
  }

  ghost predicate ReferrerFails(g: Registry, base: set<Digest>, r: Digest, count: nat, e: PlanError) {
    if r in g.manifests then Genuine(g, ALL, r, base, 1, count, e) else e == FetchFailed(r)
  }

  /** Why a plan fails: something is missing or unsupported, the graph is too deep, or the whole
      plan would have too many records. */
  ghost predicate PlanFails(g: Registry, sel: Selection, root: Child, copyReferrers: bool, e: PlanError) {
    var base := BaseNodes(g, sel, root.digest);
    if root.digest !in g.manifests then
      e == FetchFailed(root.digest)
    else
      || Genuine(g, sel, root.digest, {}, 0, 1 + |EdgeRecords(g, sel, base)|, e)
      || (copyReferrers && exists records ::
            BaseRecords(g, sel, root, records) && AttachingFails(g, base, |AllRecords(g, sel, root, records)|, e))
  }

  /** The traversal could run into the depth limit: a path of more than 32 edges that repeats no
      manifest, from the root or, one level further down, from a referrer. */
  ghost predicate TooDeep(g: Registry, sel: Selection, root: Child, copyReferrers: bool) {
    || GoesDeep(g, sel, {}, root.digest, MAX_DEPTH + 1)
    || (copyReferrers && exists r ::
          IsReferrerOf(g, BaseNodes(g, sel, root.digest), r) && GoesDeep(g, ALL, BaseNodes(g, sel, root.digest), r, MAX_DEPTH))
  }

  /** The whole plan is within the limit on records. */
  ghost predicate Fits(g: Registry, sel: Selection, root: Child, copyReferrers: bool) {
    && 1 + |EdgeRecords(g, sel, BaseNodes(g, sel, root.digest))| <= 10000
    && (copyReferrers ==> forall records | BaseRecords(g, sel, root, records) ::
          |AllRecords(g, sel, root, records)| <= 10000)
  }

  /** If nothing is missing or unsupported then only the limits can make the plan fail. */
  lemma OnlyLimitsFail(g: Registry, sel: Selection, root: Child, copyReferrers: bool, e: PlanError)
    requires NothingMissing(g, sel, root.digest, copyReferrers) && PlanFails(g, sel, root, copyReferrers, e)
    ensures e == LimitExceeded
    ensures TooDeep(g, sel, root, copyReferrers) || !Fits(g, sel, root, copyReferrers)
  {
    var base := BaseNodes(g, sel, root.digest);
    if Genuine(g, sel, root.digest, {}, 0, 1 + |EdgeRecords(g, sel, base)|, e) {
      assert g.manifests.Keys - {} == g.manifests.Keys;
    } else {
      var records :| BaseRecords(g, sel, root, records) && AttachingFails(g, base, |AllRecords(g, sel, root, records)|, e);
      OnlyLimitsFailAttaching(g, sel, root, |AllRecords(g, sel, root, records)|, e);
    }
  }

  lemma OnlyLimitsFailAttaching(g: Registry, sel: Selection, root: Child, count: nat, e: PlanError)
    requires NothingMissing(g, sel, root.digest, true)
    requires AttachingFails(g, BaseNodes(g, sel, root.digest), count, e)
    ensures e == LimitExceeded
    ensures count > MAX_RECORDS || TooDeep(g, sel, root, true)
  {
    var base := BaseNodes(g, sel, root.digest);
    if r :| IsReferrerOf(g, base, r) && ReferrerFails(g, base, r, count, e) {
      ReferrerIsAttached(g, sel, root, r);
      NothingIsMissingBelow(g, sel, root, r, count, e);
    }
  }

  lemma ReferrerIsAttached(g: Registry, sel: Selection, root: Child, r: Digest)
    requires NothingMissing(g, sel, root.digest, true) && IsReferrerOf(g, BaseNodes(g, sel, root.digest), r)
    ensures r in g.manifests
  {
  }

  lemma NothingIsMissingBelow(g: Registry, sel: Selection, root: Child, r: Digest, count: nat, e: PlanError)
    requires NothingMissing(g, sel, root.digest, true) && IsReferrerOf(g, BaseNodes(g, sel, root.digest), r)
    requires Genuine(g, ALL, r, BaseNodes(g, sel, root.digest), 1, count, e)
    ensures e == LimitExceeded
  {
    var base := BaseNodes(g, sel, root.digest);
    match e
    case LimitExceeded =>
    case FetchFailed(c) =>
      var n :| ReachesIn(g, ALL, g.manifests.Keys - base, r, n) && Edge(g, ALL, n, c);
      ReachedIsAttached(g, base, r, n);
    case BadManifest =>
    case NoReferrerList(_) =>
  }

  lemma ReachedIsAttached(g: Registry, base: set<Digest>, r: Digest, n: Digest)
    requires IsReferrerOf(g, base, r) && ReachesIn(g, ALL, g.manifests.Keys - base, r, n)
    ensures n in AttachedNodes(g, base)
  {
  }

  /** The base records name exactly the base manifests. */
  ghost predicate RecordsName(records: seq<Record>, base: set<Digest>) {
    && (forall k | 0 <= k < |records| :: records[k].digest in base)
    && forall n | n in base :: HasRecord(records, n)
  }

  lemma BaseIsNamed(g: Registry, sel: Selection, root: Record, seen: set<Digest>, records: seq<Record>)
    requires Walked(g, sel, root.digest, {}, seen)
    requires Recorded(g, sel, root.digest, {}, seen, [root], records)
    ensures RecordsName(records, seen)
  {
    assert seen - {} == seen;
    assert records[0] == [root][0];
    forall n | n in seen
      ensures HasRecord(records, n)
    {
      if n != root.digest {
        var k :| 0 <= k < |records[1..]| && records[1..][k].digest == n;
        assert records[k + 1].digest == n;
      }
    }
  }

  /** What the walks from referrers have done once the first `n` of `items` have been followed. */
  ghost predicate AttachingAt(g: Registry, base: set<Digest>, seen: set<Digest>, start: seq<Record>, records: seq<Record>,
                              items: seq<Record>, n: nat)
    requires n <= |items|
  {
    Attaching(g, base, seen, start, records, multiset(items[..n]))
  }

  ghost predicate Attaching(g: Registry, base: set<Digest>, seen: set<Digest>, start: seq<Record>, records: seq<Record>,
                            listed: multiset<Record>) {
    && ReferrersWalked(g, base, seen)
    && start <= records
    && multiset(records) == multiset(start) + (listed + EdgeRecords(g, ALL, seen - base))
    && (forall x | x in listed :: x.digest in seen)
  }

  lemma NothingAttached(g: Registry, base: set<Digest>, start: seq<Record>, items: seq<Record>)
    ensures AttachOutcome(g, base, base, start, start, items, 0, None)
  {
    assert base - base == {};
  }

  lemma NextAttached(g: Registry, base: set<Digest>, now: set<Digest>, after: set<Digest>, start: seq<Record>,
                     records: seq<Record>, r: Record, records': seq<Record>, listed: multiset<Record>)
    requires Attaching(g, base, now, start, records, listed) && IsReferrerOf(g, base, r.digest)
    requires WalkDone(g, ALL, r.digest, now, after, records + [r], records', 1)
    ensures Attaching(g, base, after, start, records', listed + multiset{r})
  {
    ReferrerWalked(g, base, r.digest, now, after);
    AttachedRecordsGrow(g, base, now, after, start, records, r, listed);
  }

  lemma AttachedRecordsGrow(g: Registry, base: set<Digest>, now: set<Digest>, after: set<Digest>, start: seq<Record>,
                            records: seq<Record>, r: Record, listed: multiset<Record>)
    requires Attaching(g, base, now, start, records, listed) && now <= after
    ensures multiset(records + [r]) + EdgeRecords(g, ALL, after - now)
         == multiset(start) + ((listed + multiset{r}) + EdgeRecords(g, ALL, after - base))
  {
    assert after - base == (now - base) + (after - now);
    EdgeRecordsOfUnion(g, ALL, now - base, after - now);
    Regrouped(multiset(start), listed, EdgeRecords(g, ALL, now - base), multiset{r}, EdgeRecords(g, ALL, after - now));
  }

  /** The size of the whole plan, if `listed` are the records of all the referrers. */
  ghost function PlanSize(g: Registry, base: set<Digest>, start: seq<Record>, listed: multiset<Record>): nat {
    |multiset(start) + (listed + EdgeRecords(g, ALL, AttachedNodes(g, base)))|
  }

  lemma FewerThan(x: multiset<Record>, y: multiset<Record>)
    requires x <= y
    ensures |x| <= |y|
  {
    assert y == x + (y - x);
  }

  lemma GenuineWithMore(g: Registry, d: Digest, before: set<Digest>, now: set<Digest>, count: nat, more: nat, e: PlanError)
    requires Genuine(g, ALL, d, now, 1, count, e) && before <= now && count <= more
    ensures Genuine(g, ALL, d, before, 1, more, e)
  {
    match e
    case LimitExceeded =>
      if count <= MAX_RECORDS {
        var p :| DeepPath(g, ALL, now, p) && |p| == MAX_DEPTH + 1 && p[0] == d;
        assert DeepPath(g, ALL, before, p);
      }
    case FetchFailed(c) =>
      var n :| ReachesIn(g, ALL, g.manifests.Keys - now, d, n) && Edge(g, ALL, n, c);
      ReachesMore(g, ALL, g.manifests.Keys - now, g.manifests.Keys - before, d, n);
    case BadManifest =>
      var n :| ReachesIn(g, ALL, g.manifests.Keys - now, d, n) && n in g.manifests && g.manifests[n].Unsupported?;
      ReachesMore(g, ALL, g.manifests.Keys - now, g.manifests.Keys - before, d, n);
    case NoReferrerList(_) =>
  }

  /** What a failed walk has seen is attached all the same. */
  lemma PartlyAttached(g: Registry, base: set<Digest>, r: Digest, now: set<Digest>, after: set<Digest>,
                       old0: seq<Record>, records: seq<Record>)
    requires ReferrersWalked(g, base, now) && IsReferrerOf(g, base, r)
    requires Partial(g, ALL, r, now, after, old0, records)
    ensures after - base <= AttachedNodes(g, base)
  {
    forall n | n in after - base
      ensures n in AttachedNodes(g, base)
    {
      if n !in now {
        ReachesMore(g, ALL, g.manifests.Keys - now, g.manifests.Keys - base, r, n);
      }
    }
  }

  lemma AttachedWalkFails(g: Registry, base: set<Digest>, now: set<Digest>, after: set<Digest>, start: seq<Record>,
                          records: seq<Record>, r: Record, records': seq<Record>, listed: multiset<Record>,
                          all: multiset<Record>, e: PlanError)
    requires Attaching(g, base, now, start, records, listed)
    requires IsReferrerOf(g, base, r.digest) && r.digest in g.manifests
    requires WalkFailed(g, ALL, r.digest, now, after, records + [r], records', 1, e)
    requires listed + multiset{r} <= all
    ensures AttachingFails(g, base, PlanSize(g, base, start, all), e)
  {
    PartlyAttached(g, base, r.digest, now, after, records + [r], records');
    AttachedRecordsGrow(g, base, now, after, start, records, r, listed);
    FewerEdgeRecords(g, ALL, after - base, AttachedNodes(g, base));
    MoreListed(multiset(start), listed + multiset{r}, all, EdgeRecords(g, ALL, after - base),
               EdgeRecords(g, ALL, AttachedNodes(g, base)));
    FewerThan(multiset(records'), multiset(start) + (all + EdgeRecords(g, ALL, AttachedNodes(g, base))));
    GenuineWithMore(g, r.digest, base, now, |records'|, PlanSize(g, base, start, all), e);
  }

  lemma MoreListed(start: multiset<Record>, x: multiset<Record>, x': multiset<Record>, y: multiset<Record>, y': multiset<Record>)
    requires x <= x' && y <= y'
    ensures start + (x + y) <= start + (x' + y')
  {
  }

  ghost predicate AttachOutcome(g: Registry, base: set<Digest>, seen: set<Digest>, start: seq<Record>, records: seq<Record>,
                                items: seq<Record>, n: nat, err: Option<PlanError>)
    requires n <= |items|
  {
    match err
    case None => AttachingAt(g, base, seen, start, records, items, n)
    case Some(e) => AttachingFails(g, base, PlanSize(g, base, start, multiset(items)), e)
  }

  lemma NextItem(items: seq<Record>, n: nat)
    requires n < |items|
    ensures multiset(items[..n + 1]) == multiset(items[..n]) + multiset{items[n]}
    ensures multiset(items[..n + 1]) <= multiset(items)
  {
    assert items[..n + 1] == items[..n] + [items[n]];
    assert items == items[..n + 1] + items[n + 1..];
  }

  lemma AfterReferrer(g: Registry, base: set<Digest>, now: set<Digest>, after: set<Digest>, start: seq<Record>,
                      records: seq<Record>, records': seq<Record>, subject: Digest, j: nat,
                      items: seq<Record>, n: nat, err: Option<PlanError>)
    requires subject in base && j < |ReferrersOf(g, subject)| && ReferrersOf(g, subject)[j].digest in g.manifests
    requires n < |items| && items[n] == ReferrerRecord(subject, ReferrersOf(g, subject)[j])
    requires AttachOutcome(g, base, now, start, records, items, n, None)
    requires WalkOutcome(g, ALL, items[n].digest, now, after, records + [items[n]], records', 1, err)
    ensures AttachOutcome(g, base, after, start, records', items, n + 1, err)
  {
    assert IsReferrerOf(g, base, items[n].digest);
    NextItem(items, n);
    match err
    case None => NextAttached(g, base, now, after, start, records, items[n], records', multiset(items[..n]));
    case Some(e) =>
      AttachedWalkFails(g, base, now, after, start, records, items[n], records', multiset(items[..n]), multiset(items), e);
  }

  lemma ReferrerMissing(g: Registry, base: set<Digest>, start: seq<Record>, subject: Digest, j: nat, items: seq<Record>)
    requires subject in base && j < |ReferrersOf(g, subject)| && ReferrersOf(g, subject)[j].digest !in g.manifests
    ensures AttachingFails(g, base, PlanSize(g, base, start, multiset(items)), FetchFailed(ReferrersOf(g, subject)[j].digest))
  {
    assert IsReferrerOf(g, base, ReferrersOf(g, subject)[j].digest);
  }

  /** One referrer: it is fetched, recorded and walked without a platform filter, over the shared
      `seen` set. Its record is `items[n]`. */
  method WalkReferrer(t: Traversal, subject: Digest, j: nat, ghost base: set<Digest>, ghost start: seq<Record>,
                      ghost items: seq<Record>, ghost n: nat)
    returns (err: Option<PlanError>)
    requires subject in base && j < |ReferrersOf(t.g, subject)|
    requires n < |items| && items[n] == ReferrerRecord(subject, ReferrersOf(t.g, subject)[j])
    requires AttachOutcome(t.g, base, t.seen, start, t.records, items, n, None)
    requires BlobsMatch(t.g, t.seen, t.blobs)
    modifies t
    ensures AttachOutcome(t.g, base, t.seen, start, t.records, items, n + 1, err)
    ensures err.None? ==> BlobsMatch(t.g, t.seen, t.blobs) && |t.records| <= MAX_RECORDS
  {
    var r := ReferrersOf(t.g, subject)[j];
    if r.digest !in t.g.manifests {
      ReferrerMissing(t.g, base, start, subject, j, items);
      return Some(FetchFailed(r.digest));
    }
    ghost var now, soFar := t.seen, t.records;
    t.records := t.records + [ReferrerRecord(subject, r)];
    err := t.Walk(r.digest, ALL, 1);
    AfterReferrer(t.g, base, now, t.seen, start, soFar, t.records, subject, j, items, n, err);
  }

  /** The referrers of one recorded manifest. Their records are `items[n..next]`. */
  method WalkReferrers(t: Traversal, subject: Digest, ghost base: set<Digest>, ghost start: seq<Record>,
                       ghost items: seq<Record>, ghost n: nat, ghost next: nat)
    returns (err: Option<PlanError>)
    requires subject in base && PartAt(t.g, subject, items, n, next)
    requires AttachOutcome(t.g, base, t.seen, start, t.records, items, n, None)
    requires BlobsMatch(t.g, t.seen, t.blobs) && |t.records| <= MAX_RECORDS
    modifies t
    ensures AttachOutcome(t.g, base, t.seen, start, t.records, items, next, err)
    ensures err.None? ==> subject in t.g.referrers && BlobsMatch(t.g, t.seen, t.blobs) && |t.records| <= MAX_RECORDS
  {
    if subject !in t.g.referrers {
      return Some(NoReferrerList(subject));
    }
    var referrers := t.g.referrers[subject];
    ghost var at := n;
    for j := 0 to |referrers|
      invariant at == n + j && AttachOutcome(t.g, base, t.seen, start, t.records, items, at, None)
      invariant BlobsMatch(t.g, t.seen, t.blobs) && |t.records| <= MAX_RECORDS
    {
      assert items[n + j] == ReferrerRecords(subject, referrers)[j];
      err := WalkReferrer(t, subject, j, base, start, items, at);
      if err.Some? {
        return;
      }
      at := at + 1;
    }
    assert at == next;
    err := None;
  }

  /** The referrers of every base manifest. */
  method AddReferrers(t: Traversal, ghost base: set<Digest>, ghost items: seq<Record>, ghost offsets: seq<nat>)
    returns (err: Option<PlanError>)
    requires base == t.seen && RecordsName(t.records, base) && Itemized(t.g, t.records, items, offsets)
    requires BlobsMatch(t.g, t.seen, t.blobs) && |t.records| <= MAX_RECORDS
    modifies t
    ensures AttachOutcome(t.g, base, t.seen, old(t.records), t.records, items, |items|, err)
    ensures err.None? ==>
              && (forall n | n in base :: n in t.g.referrers)
              && BlobsMatch(t.g, t.seen, t.blobs) && |t.records| <= MAX_RECORDS
  {
    var records := t.records;
    NothingAttached(t.g, base, records, items);
    for i := 0 to |records|
      invariant offsets[i] <= |items|
      invariant AttachOutcome(t.g, base, t.seen, records, t.records, items, offsets[i], None)
      invariant BlobsMatch(t.g, t.seen, t.blobs) && |t.records| <= MAX_RECORDS
      invariant HaveLists(t.g, records, i)
    {
      err := WalkReferrers(t, records[i].digest, base, records, items, offsets[i], offsets[i + 1]);
      if err.Some? {
        return;
      }
    }
    err := None;
    AllHaveLists(t.g, base, records);
  }

  /** The first `k` records have referrer lists. */
  predicate HaveLists(g: Registry, records: seq<Record>, k: nat)
    requires k <= |records|
  {
    k == 0 || (HaveLists(g, records, k - 1) && records[k - 1].digest in g.referrers)
  }

  lemma {:induction false} ListOf(g: Registry, records: seq<Record>, i: nat, k: nat)
    requires i < k <= |records| && HaveLists(g, records, k)
    ensures records[i].digest in g.referrers
  {
    if i + 1 < k {
      ListOf(g, records, i, k - 1);
    }
  }

  lemma AllHaveLists(g: Registry, base: set<Digest>, records: seq<Record>)
    requires RecordsName(records, base)
    requires HaveLists(g, records, |records|)
    ensures forall n | n in base :: n in g.referrers
  {
    forall n | n in base
      ensures n in g.referrers
    {
      var k :| 0 <= k < |records| && records[k].digest == n;
      ListOf(g, records, k, |records|);
    }
  }

  /** Every referrer of a base manifest has been listed, so it has been seen. */
  lemma ReferrersSeen(g: Registry, base: set<Digest>, seen: set<Digest>, start: seq<Record>, records: seq<Record>,
                      items: seq<Record>)
    requires RecordsName(start, base) && items == Listing(g, start, |start|)
    requires AttachingAt(g, base, seen, start, records, items, |items|)
    ensures forall r | IsReferrerOf(g, base, r) :: r in seen
  {
    assert items[..|items|] == items;
    forall r | IsReferrerOf(g, base, r)
      ensures r in seen
    {
      var s, j :| s in base && s in g.referrers && 0 <= j < |g.referrers[s]| && g.referrers[s][j].digest == r;
      var i :| 0 <= i < |start| && start[i].digest == s;
      ListingAt(g, start, i, |start|);
      assert items[|Listing(g, start, i)| + j] == ReferrerRecords(s, ReferrersOf(g, s))[j];
      assert items[|Listing(g, start, i)| + j] in multiset(items);
    }
  }

  lemma ListsBlobs(g: Registry, nodes: set<Digest>, blobs: map<Digest, Descriptor>, list: seq<Descriptor>)
    requires BlobsMatch(g, nodes, blobs)
    requires forall b :: b in list <==> b.digest in blobs && blobs[b.digest] == b
    ensures forall k: Digest :: k in BlobDigests(g, nodes) <==> exists b :: b in list && b.digest == k
    ensures forall b | b in list :: IsListed(g, nodes, b)
  {
    forall k: Digest
      ensures k in BlobDigests(g, nodes) <==> exists b :: b in list && b.digest == k
    {
      if k in BlobDigests(g, nodes) {
        assert k in blobs && blobs[k] in list;
      }
    }
  }

  /** A failure of the first walk, measured against the whole base. */
  lemma BaseWalkFails(g: Registry, sel: Selection, root: Child, copyReferrers: bool, seen: set<Digest>, records: seq<Record>,
                      e: PlanError)
    requires root.digest in g.manifests
    requires WalkFailed(g, sel, root.digest, {}, seen, [RootRecord(root)], records, 0, e)
    ensures PlanFails(g, sel, root, copyReferrers, e)
  {
    var base := BaseNodes(g, sel, root.digest);
    assert g.manifests.Keys - {} == g.manifests.Keys && seen - {} == seen;
    FewerEdgeRecords(g, sel, seen, base);
    FewerThan(multiset(records), multiset{RootRecord(root)} + EdgeRecords(g, sel, base));
  }

  /** The state of a plan after its walks, or why it failed. */
  ghost predicate PlanState(g: Registry, sel: Selection, root: Child, copyReferrers: bool, seen: set<Digest>,
                            records: seq<Record>, err: Option<PlanError>) {
    match err
    case None =>
      && seen == PlannedNodes(g, sel, root.digest, copyReferrers)
      && NothingMissing(g, sel, root.digest, copyReferrers)
      && AllNear(g, sel, root.digest, copyReferrers)
      && PlanRecords(g, sel, root, copyReferrers, records)
    case Some(e) => PlanFails(g, sel, root, copyReferrers, e)
  }

  ghost predicate PlanOutcome(g: Registry, sel: Selection, root: Child, copyReferrers: bool, err: Option<PlanError>,
                              records: seq<Record>, list: seq<Descriptor>) {
    match err
    case None => IsPlan(g, sel, root, copyReferrers, records, list)
    case Some(e) => PlanFails(g, sel, root, copyReferrers, e) && records == [] && list == []
  }

  lemma PlanIsMade(g: Registry, sel: Selection, root: Child, copyReferrers: bool, seen: set<Digest>, records: seq<Record>,
                   blobs: map<Digest, Descriptor>, list: seq<Descriptor>)
    requires PlanState(g, sel, root, copyReferrers, seen, records, None) && |records| <= MAX_RECORDS
    requires BlobsMatch(g, seen, blobs) && StrictlySorted(list)
    requires forall b :: b in list <==> b.digest in blobs && blobs[b.digest] == b
    ensures PlanOutcome(g, sel, root, copyReferrers, None, records, list)
  {
    ListsBlobs(g, seen, blobs, list);
  }

  /** A plan with its contract summed up: unless the graph is too deep, it is made exactly if
      nothing is missing or unsupported and the whole of it fits. */
  method Plan(g: Registry, root: Child, sel: Selection, copyReferrers: bool)
    returns (err: Option<PlanError>, records: seq<Record>, list: seq<Descriptor>)
    ensures err.None? ==> IsPlan(g, sel, root, copyReferrers, records, list)
    ensures err.Some? ==> PlanFails(g, sel, root, copyReferrers, err.value) && records == [] && list == []
    ensures !TooDeep(g, sel, root, copyReferrers) ==>
              (err.None? <==> NothingMissing(g, sel, root.digest, copyReferrers) && Fits(g, sel, root, copyReferrers))
    ensures !AllNear(g, sel, root.digest, copyReferrers) ==> err.Some?
    ensures |records| <= 10000
  {
    err, records, list := MakePlan(g, root, sel, copyReferrers);
    PlanSucceedsIff(g, sel, root, copyReferrers, err, records, list);
  }

  /** The whole plan: the walk from the root under the platform filter, the walks from the
      referrers without it, and the sorted blob list. */
  method MakePlan(g: Registry, root: Child, sel: Selection, copyReferrers: bool)
    returns (err: Option<PlanError>, records: seq<Record>, list: seq<Descriptor>)
    ensures PlanOutcome(g, sel, root, copyReferrers, err, records, list)
  {
    records, list := [], [];
    if root.digest !in g.manifests {
      return Some(FetchFailed(root.digest)), [], [];
    }
    var first := RootRecord(root);
    var t := new Traversal(g, first);
    assert BlobsMatch(g, {}, map[]);
    err := t.Walk(root.digest, sel, 0);
    if err.Some? {
      BaseWalkFails(g, sel, root, copyReferrers, t.seen, t.records, err.value);
      return;
    }
    ghost var base, start := t.seen, t.records;
    BaseIsDone(g, sel, root, base, start);
    if copyReferrers {
      ghost var offsets := Itemize(g, start);
      err := AddReferrers(t, base, Listing(g, start, |start|), offsets);
      AttachingDecides(g, sel, root, t.seen, start, t.records, err);
      if err.Some? {
        return;
      }
    }
    list := SortedBlobs(t.blobs);
    records := t.records;
    PlanIsMade(g, sel, root, copyReferrers, t.seen, records, t.blobs, list);
  }

  // ----- when a plan succeeds ---------------------------------------------------------------

  /** How many referrers the records list. */
  function ListedCount(g: Registry, records: seq<Record>): nat {
    if records == [] then 0
    else ListedCount(g, records[..|records| - 1]) + |ReferrersOf(g, records[|records| - 1].digest)|
  }

  lemma {:induction false} ListingSize(g: Registry, records: seq<Record>, k: nat)
    requires k <= |records|
    ensures |Listing(g, records, k)| == ListedCount(g, records[..k])
  {
    if k > 0 {
      ListingSize(g, records, k - 1);
      assert records[..k][..k - 1] == records[..k - 1];
    }
  }

  lemma {:induction false} ListedCountOfBoth(g: Registry, a: seq<Record>, b: seq<Record>)
    ensures ListedCount(g, a + b) == ListedCount(g, a) + ListedCount(g, b)
    decreases |b|
  {
    if b == [] {
      assert a + b == a;
    } else {
      assert (a + b)[..|a + b| - 1] == a + b[..|b| - 1];
      ListedCountOfBoth(g, a, b[..|b| - 1]);
    }
  }

  function Without(records: seq<Record>, k: nat): seq<Record>
    requires k < |records|
  {
    records[..k] + records[k + 1..]
  }

  lemma ListedCountWithout(g: Registry, records: seq<Record>, k: nat)
    requires k < |records|
    ensures ListedCount(g, records) == ListedCount(g, Without(records, k)) + |ReferrersOf(g, records[k].digest)|
  {
    ListedCountOfThree(g, records[..k], records[k], records[k + 1..]);
    assert records == records[..k] + ([records[k]] + records[k + 1..]);
  }

  lemma ListedCountOfThree(g: Registry, before: seq<Record>, r: Record, after: seq<Record>)
    ensures ListedCount(g, before + ([r] + after)) == ListedCount(g, before + after) + |ReferrersOf(g, r.digest)|
  {
    ListedCountOfBoth(g, before, after);
    ListedCountOfBoth(g, [r], after);
    ListedCountOfBoth(g, before, [r] + after);
    ListedCountOfOne(g, r);
  }

  lemma ListedCountOfOne(g: Registry, r: Record)
    ensures ListedCount(g, [r]) == |ReferrersOf(g, r.digest)|
  {
    assert [r][..0] == [];
  }

  lemma MultisetWithout(records: seq<Record>, k: nat)
    requires k < |records|
    ensures multiset(Without(records, k)) == multiset(records) - multiset{records[k]}
  {
    assert records == records[..k] + [records[k]] + records[k + 1..];
  }

  /** The count does not depend on the order of the records. */
  lemma {:induction false} ListedCountOfSame(g: Registry, a: seq<Record>, b: seq<Record>)
    requires multiset(a) == multiset(b)
    ensures ListedCount(g, a) == ListedCount(g, b)
    decreases |a|
  {
    if a == [] {
      assert |multiset(b)| == 0;
    } else {
      assert a[0] in multiset(a);
      var k :| 0 <= k < |b| && b[k] == a[0];
      MultisetWithout(a, 0);
      MultisetWithout(b, k);
      ListedCountWithout(g, a, 0);
      ListedCountWithout(g, b, k);
      ListedCountOfSame(g, Without(a, 0), Without(b, k));
    }
  }

  lemma SameSize(g: Registry, sel: Selection, root: Child, a: seq<Record>, b: seq<Record>)
    requires multiset(a) == multiset(b)
    ensures |AllRecords(g, sel, root, a)| == |AllRecords(g, sel, root, b)|
  {
    ListedCountOfSame(g, a, b);
    ListingSize(g, a, |a|);
    ListingSize(g, b, |b|);
    assert a[..|a|] == a && b[..|b|] == b;
  }

  /** A plan that was made fits. */
  lemma PlanFits(g: Registry, sel: Selection, root: Child, copyReferrers: bool, records: seq<Record>)
    requires PlanRecords(g, sel, root, copyReferrers, records) && |records| <= MAX_RECORDS
    ensures Fits(g, sel, root, copyReferrers)
  {
    var edges := EdgeRecords(g, sel, BaseNodes(g, sel, root.digest));
    if copyReferrers {
      var base :| base <= records && BaseRecords(g, sel, root, base) && multiset(records) == AllRecords(g, sel, root, base);
      assert |multiset(base)| == 1 + |edges| && |multiset(records)| == |AllRecords(g, sel, root, base)|;
      forall other | BaseRecords(g, sel, root, other)
        ensures |AllRecords(g, sel, root, other)| <= MAX_RECORDS
      {
        SameSize(g, sel, root, base, other);
      }
    } else {
      assert |multiset(records)| == 1 + |edges|;
    }
  }

  /** Unless the graph is too deep, a plan is made exactly if nothing is missing or unsupported
      and the whole of it fits. */
  lemma PlanSucceedsIff(g: Registry, sel: Selection, root: Child, copyReferrers: bool, err: Option<PlanError>,
                        records: seq<Record>, list: seq<Descriptor>)
    requires err.None? ==> IsPlan(g, sel, root, copyReferrers, records, list)
    requires err.Some? ==> PlanFails(g, sel, root, copyReferrers, err.value)
    ensures !TooDeep(g, sel, root, copyReferrers) ==>
              (err.None? <==> NothingMissing(g, sel, root.digest, copyReferrers) && Fits(g, sel, root, copyReferrers))
  {
    match err
    case None =>
      PlanFits(g, sel, root, copyReferrers, records);
    case Some(e) =>
      if NothingMissing(g, sel, root.digest, copyReferrers) {
        OnlyLimitsFail(g, sel, root, copyReferrers, e);
      }
  }

  lemma {:induction false} DistinctAreFew(p: seq<Digest>, within: set<Digest>)
    requires forall k | 0 <= k < |p| :: p[k] in within
    requires forall j, k | 0 <= j < k < |p| :: p[j] != p[k]
    ensures |p| <= |within|
    decreases |p|
  {
    if p != [] {
      DistinctAreFew(p[1..], within - {p[0]});
    }
  }

  lemma DeepPathNeedsMany(g: Registry, sel: Selection, avoid: set<Digest>, d: Digest, edges: nat)
    requires GoesDeep(g, sel, avoid, d, edges)
    ensures edges <= |g.manifests.Keys - avoid|
  {
    var p :| DeepPath(g, sel, avoid, p) && |p| == edges + 1 && p[0] == d;
    DistinctAreFew(p[..edges], g.manifests.Keys - avoid);
  }

  /** A graph of at most 32 manifests, cyclic or not, is never too deep. */
  lemma SmallIsNotTooDeep(g: Registry, sel: Selection, root: Child, copyReferrers: bool)
    requires |g.manifests| <= MAX_DEPTH && NothingMissing(g, sel, root.digest, copyReferrers)
    ensures !TooDeep(g, sel, root, copyReferrers)
  {
    var base, all := BaseNodes(g, sel, root.digest), g.manifests.Keys;
    assert all - {} == all && |all - {root.digest}| == |all| - 1;
    assert all - {root.digest} == (all - base) + (base - {root.digest});
    if GoesDeep(g, sel, {}, root.digest, MAX_DEPTH + 1) {
      DeepPathNeedsMany(g, sel, {}, root.digest, MAX_DEPTH + 1);
    }
    if r :| copyReferrers && IsReferrerOf(g, base, r) && GoesDeep(g, ALL, base, r, MAX_DEPTH) {
      DeepPathNeedsMany(g, ALL, base, r, MAX_DEPTH);
    }
  }

  // ----- the handler ------------------------------------------------------------------------

  /** What the service takes from a plan request: the references as they parse, and the platforms
      as they parse, None standing for what does not. */
  datatype PlanRequest = PlanRequest(
    readable: bool,
    protocolVersion: int,
    source: Option<Parsed>,
    destination: Option<Parsed>,
    platforms: seq<Option<string>>,
    copyReferrers: bool
  )
  {
    function Selected(): Selection {
      set k | 0 <= k < |platforms| && platforms[k].Some? :: platforms[k].value
    }
  }

  datatype PlanAnswer =
    | PlanRefused(status: int, code: string)
    | PlanFailed(error: PlanError)
    | Planned(root: Digest, records: seq<Record>, blobs: seq<Descriptor>)

  /** A digest given next to a tag, and a digest of the destination, are those of the content. */
  predicate Pinned(q: PlanRequest, root: Digest) {
    && (q.source.Some? && q.source.value.tag.Some? && q.source.value.digest.Some? ==> q.source.value.digest.value == root)
    && (q.destination.Some? && q.destination.value.digest.Some? ==> q.destination.value.digest.value == root)
  }

  predicate PlanReadable(q: PlanRequest) {
    q.readable && q.protocolVersion == 1
  }

  predicate PlanAcceptable(q: PlanRequest) {
    && PlanReadable(q) && q.source.Some? && q.destination.Some?
    && forall k | 0 <= k < |q.platforms| :: q.platforms[k].Some?
  }

  /** What a refusal tells: each check is reached only if the ones before it passed. */
  predicate PlanRefusal(q: PlanRequest, fetched: Option<Child>, status: int, code: string) {
    || (status == 400 && code == "protocol_error" && !PlanReadable(q))
    || (status == 400 && code == "invalid_reference" && PlanReadable(q) && (q.source.None? || q.destination.None?))
    || (status == 409 && code == "digest_mismatch" && PlanReadable(q) && q.source.Some? && q.destination.Some?
        && fetched.Some? && !Pinned(q, fetched.value.digest))
    || (status == 400 && code == "unsupported_operation" && PlanReadable(q) && q.source.Some? && q.destination.Some?
        && fetched.Some? && Pinned(q, fetched.value.digest) && !PlanAcceptable(q))
  }

  /** The handler. `fetched` is what the source resolves to, if the registry says. */
  method AnswerPlan(g: Registry, q: PlanRequest, fetched: Option<Child>) returns (answer: PlanAnswer)
    ensures answer.Planned? ==>
              && PlanAcceptable(q) && fetched.Some? && Pinned(q, fetched.value.digest) && answer.root == fetched.value.digest
              && IsPlan(g, q.Selected(), fetched.value, q.copyReferrers, answer.records, answer.blobs)
    ensures answer.PlanFailed? ==>
              fetched.None? || PlanFails(g, q.Selected(), fetched.value, q.copyReferrers, answer.error)
    ensures answer.PlanRefused? ==> PlanRefusal(q, fetched, answer.status, answer.code)
    ensures PlanAcceptable(q) && fetched.Some? && Pinned(q, fetched.value.digest)
            && !TooDeep(g, q.Selected(), fetched.value, q.copyReferrers) ==>
              (answer.Planned? <==> && NothingMissing(g, q.Selected(), fetched.value.digest, q.copyReferrers)
                                    && Fits(g, q.Selected(), fetched.value, q.copyReferrers))
  {
    if !q.readable {
      return PlanRefused(400, "protocol_error");
    }
    if q.protocolVersion != 1 {
      return PlanRefused(400, "protocol_error");
    }
    if q.source.None? {
      return PlanRefused(400, "invalid_reference");
    }
    if q.destination.None? {
      return PlanRefused(400, "invalid_reference");
    }
    if fetched.None? {
      return PlanFailed(FetchFailed(if q.source.value.digest.Some? then q.source.value.digest.value else ""));
    }
    var root := fetched.value;
    var source, destination := q.source.value, q.destination.value;
    if source.tag.Some? && source.digest.Some? && root.digest != source.digest.value {
      return PlanRefused(409, "digest_mismatch");
    }
    if destination.digest.Some? && destination.digest.value != root.digest {
      return PlanRefused(409, "digest_mismatch");
    }
    var selected: Selection := {};
    for k := 0 to |q.platforms|
      invariant selected == set j | 0 <= j < k && q.platforms[j].Some? :: q.platforms[j].value
      invariant forall j | 0 <= j < k :: q.platforms[j].Some?
    {
      if q.platforms[k].None? {
        return PlanRefused(400, "unsupported_operation");
      }
      selected := selected + {q.platforms[k].value};
    }
    var err, records, list := Plan(g, root, selected, q.copyReferrers);
    answer := if err.Some? then PlanFailed(err.value) else Planned(root.digest, records, list);
  }

  lemma AttachingDecides(g: Registry, sel: Selection, root: Child, seen: set<Digest>, start: seq<Record>, records: seq<Record>,
                         err: Option<PlanError>)
    requires root.digest in g.manifests
    requires PlanState(g, sel, root, false, BaseNodes(g, sel, root.digest), start, None)
    requires var items := Listing(g, start, |start|);
             AttachOutcome(g, BaseNodes(g, sel, root.digest), seen, start, records, items, |items|, err)
    requires RecordsName(start, BaseNodes(g, sel, root.digest))
    requires err.None? ==> forall n | n in BaseNodes(g, sel, root.digest) :: n in g.referrers
    ensures PlanState(g, sel, root, true, seen, records, err)
  {
    var base := BaseNodes(g, sel, root.digest);
    match err
    case None =>
      ReferrersSeen(g, base, seen, start, records, Listing(g, start, |start|));
      AllAttached(g, sel, root, seen);
      AllRecorded(g, sel, root, seen, start, records);
    case Some(e) =>
      assert PlanSize(g, base, start, multiset(Listing(g, start, |start|))) == |AllRecords(g, sel, root, start)|;
  }

  lemma AllAttached(g: Registry, sel: Selection, root: Child, seen: set<Digest>)
    requires NothingMissing(g, sel, root.digest, false) && AllNear(g, sel, root.digest, false)
    requires ReferrersWalked(g, BaseNodes(g, sel, root.digest), seen)
    requires forall n | n in BaseNodes(g, sel, root.digest) :: n in g.referrers
    requires forall r | IsReferrerOf(g, BaseNodes(g, sel, root.digest), r) :: r in seen
    ensures seen == PlannedNodes(g, sel, root.digest, true)
    ensures NothingMissing(g, sel, root.digest, true) && AllNear(g, sel, root.digest, true)
  {
    var base := BaseNodes(g, sel, root.digest);
    AttachedAreSeen(g, base, seen);
    assert seen - base == AttachedNodes(g, base);
  }

  lemma AllRecorded(g: Registry, sel: Selection, root: Child, seen: set<Digest>, start: seq<Record>, records: seq<Record>)
    requires BaseRecords(g, sel, root, start) && seen == PlannedNodes(g, sel, root.digest, true)
    requires var items := Listing(g, start, |start|);
             AttachOutcome(g, BaseNodes(g, sel, root.digest), seen, start, records, items, |items|, None)
    ensures PlanRecords(g, sel, root, true, records)
  {
    var base, items := BaseNodes(g, sel, root.digest), Listing(g, start, |start|);
    assert items[..|items|] == items;
    assert seen - base == AttachedNodes(g, base);
    assert multiset(records) == AllRecords(g, sel, root, start);
  }

  lemma BaseIsDone(g: Registry, sel: Selection, root: Child, seen: set<Digest>, records: seq<Record>)
    requires WalkDone(g, sel, root.digest, {}, seen, [RootRecord(root)], records, 0)
    ensures seen == BaseNodes(g, sel, root.digest) && RecordsName(records, seen)
    ensures PlanState(g, sel, root, false, seen, records, None)
  {
    assert seen - {} == seen;
    forall n | n in seen
      ensures NearRoot(g, sel, root.digest, n)
    {
      ReachesMoreBy(g, sel, seen, g.manifests.Keys, root.digest, n, Allowed(g, sel, n, MAX_DEPTH));
    }
    BaseIsSeen(g, sel, root.digest, seen);
    BaseIsNamed(g, sel, RootRecord(root), seen, records);
  }

  // ----- what the nodes of a plan are -------------------------------------------------------

  /** What a reader would expect: everything reachable from the root under the filter, and
      everything at all reachable from the direct referrers of those manifests. */
  ghost predicate Expected(g: Registry, sel: Selection, root: Digest, n: Digest) {
    var base := BaseNodes(g, sel, root);
    n in g.manifests && (n in base || exists r :: IsReferrerOf(g, base, r) && Reaches(g, ALL, r, n))
  }

  /** A path that ends outside a closed set has never entered it. */
  lemma {:induction false} NeverEntered(g: Registry, base: set<Digest>, p: seq<Digest>, k: nat)
    requires Path(g, ALL, g.manifests.Keys, p) && p[|p| - 1] !in base && k < |p|
    requires forall n, c | n in base && Edge(g, ALL, n, c) :: c in base
    ensures p[k] !in base
    decreases |p| - k
  {
    if k < |p| - 1 {
      NeverEntered(g, base, p, k + 1);
      assert Edge(g, ALL, p[k], p[k + 1]);
    }
  }

  /** Without a platform filter the shared `seen` set loses nothing: a successful plan contains
      exactly the expected manifests. */
  lemma NoFilterPlansAll(g: Registry, root: Digest)
    requires NothingMissing(g, ALL, root, true)
    ensures forall n :: n in PlannedNodes(g, ALL, root, true) <==> Expected(g, ALL, root, n)
  {
    var base := BaseNodes(g, ALL, root);
    forall n | n in AttachedNodes(g, base)
      ensures Expected(g, ALL, root, n)
    {
      var r :| IsReferrerOf(g, base, r) && ReachesIn(g, ALL, g.manifests.Keys - base, r, n);
      ReachesMore(g, ALL, g.manifests.Keys - base, g.manifests.Keys, r, n);
    }
    forall n | Expected(g, ALL, root, n) && n !in base
      ensures n in AttachedNodes(g, base)
    {
      var r :| IsReferrerOf(g, base, r) && Reaches(g, ALL, r, n);
      var p :| Path(g, ALL, g.manifests.Keys, p) && p[0] == r && p[|p| - 1] == n;
      forall k | 0 <= k < |p|
        ensures p[k] in g.manifests.Keys - base
      {
        NeverEntered(g, base, p, k);
      }
      assert Path(g, ALL, g.manifests.Keys - base, p);
    }
  }

  /** With a filter the plan is the expected one exactly when no base manifest that a referrer
      reaches has a child the plan leaves out. */
  lemma FilteredPlanIsExpectedIff(g: Registry, sel: Selection, root: Digest)
    requires NothingMissing(g, sel, root, true)
    ensures (forall n :: n in PlannedNodes(g, sel, root, true) <==> Expected(g, sel, root, n))
       <==> (forall r, n, c | IsReferrerOf(g, BaseNodes(g, sel, root), r) && n in BaseNodes(g, sel, root)
                              && Reaches(g, ALL, r, n) && Edge(g, ALL, n, c) && c in g.manifests ::
               c in PlannedNodes(g, sel, root, true))
  {
    var base, nodes := BaseNodes(g, sel, root), PlannedNodes(g, sel, root, true);
    if forall n :: n in nodes <==> Expected(g, sel, root, n) {
      forall r, n, c | IsReferrerOf(g, base, r) && n in base && Reaches(g, ALL, r, n)
                       && Edge(g, ALL, n, c) && c in g.manifests
        ensures c in nodes
      {
        ReachThenStep(g, ALL, g.manifests.Keys, r, n, c);
        assert Expected(g, sel, root, c);
      }
    }
    if forall r, n, c | IsReferrerOf(g, base, r) && n in base && Reaches(g, ALL, r, n)
                        && Edge(g, ALL, n, c) && c in g.manifests :: c in nodes {
      forall n
        ensures n in nodes <==> Expected(g, sel, root, n)
      {
        if n in nodes && n !in base {
          var r :| IsReferrerOf(g, base, r) && ReachesIn(g, ALL, g.manifests.Keys - base, r, n);
          ReachesMore(g, ALL, g.manifests.Keys - base, g.manifests.Keys, r, n);
        }
        if Expected(g, sel, root, n) && n !in base {
          var r :| IsReferrerOf(g, base, r) && Reaches(g, ALL, r, n);
          var p :| Path(g, ALL, g.manifests.Keys, p) && p[0] == r && p[|p| - 1] == n;
          PathStaysPlanned(g, base, nodes, r, p, |p| - 1);
        }
      }
    }
  }

  lemma PathReaches(g: Registry, p: seq<Digest>, k: nat)
    requires Path(g, ALL, g.manifests.Keys, p) && k < |p|
    ensures Reaches(g, ALL, p[0], p[k])
  {
    assert Path(g, ALL, g.manifests.Keys, p[..k + 1]);
  }

  lemma {:induction false} PathStaysPlanned(g: Registry, base: set<Digest>, nodes: set<Digest>, r: Digest, p: seq<Digest>, k: nat)
    requires Path(g, ALL, g.manifests.Keys, p) && p[0] == r && k < |p|
    requires r in nodes
    requires forall n, c | n in base && Reaches(g, ALL, r, n) && Edge(g, ALL, n, c) && c in g.manifests :: c in nodes
    requires forall n, c | n in nodes && n !in base && Edge(g, ALL, n, c) :: c in nodes
    ensures p[k] in nodes
    decreases k
  {
    if k > 0 {
      PathStaysPlanned(g, base, nodes, r, p, k - 1);
      assert Edge(g, ALL, p[k - 1], p[k - 1 + 1]);
      PathReaches(g, p, k - 1);
    }
  }

  /** An index `r` with two platforms `a` and `b`, and a referrer `x` of it that is an index over it. */
  function ReferredIndex(r: Digest, a: Digest, b: Digest, x: Digest, p: string, q: string): Registry {
    var image := Image(Descriptor("cfg", "config", Some(1)), []);
    Registry(map[r := Index([Child(a, "manifest", 1, Some(p)), Child(b, "manifest", 1, Some(q))]),
                 a := image, b := image, x := Index([Child(r, "index", 1, None)])],
             map[r := [Child(x, "index", 1, None)], a := []])
  }

  predicate FourDigests(r: Digest, a: Digest, b: Digest, x: Digest) {
    r != a && r != b && r != x && a != b && a != x && b != x
  }

  /** What matters about that registry. */
  ghost predicate Hides(g: Registry, sel: Selection, r: Digest, a: Digest, b: Digest, x: Digest) {
    && g.manifests.Keys == {r, a, b, x}
    && (forall n | n in g.manifests :: !g.manifests[n].Unsupported?)
    && ReferredBy(g, r, a, x)
    && (forall c :: Edge(g, sel, r, c) <==> c == a)
    && (forall c :: !Edge(g, sel, a, c))
    && (forall c :: Edge(g, ALL, x, c) <==> c == r)
    && Edge(g, ALL, r, b)
  }

  lemma EdgesOf(g: Registry, sel: Selection, n: Digest, c: Digest)
    ensures |Children(g, n)| == 0 ==> !Edge(g, sel, n, c)
    ensures |Children(g, n)| == 1 ==>
              (Edge(g, sel, n, c) <==> Selected(sel, Children(g, n)[0]) && Children(g, n)[0].digest == c)
    ensures |Children(g, n)| == 2 ==>
              (Edge(g, sel, n, c) <==> || (Selected(sel, Children(g, n)[0]) && Children(g, n)[0].digest == c)
                                       || (Selected(sel, Children(g, n)[1]) && Children(g, n)[1].digest == c))
  {
  }

  lemma ReferredIndexHides(r: Digest, a: Digest, b: Digest, x: Digest, p: string, q: string)
    requires FourDigests(r, a, b, x) && p != q
    ensures Hides(ReferredIndex(r, a, b, x, p, q), {p}, r, a, b, x)
  {
    var g, sel: Selection := ReferredIndex(r, a, b, x, p, q), {p};
    forall c: Digest
      ensures Edge(g, sel, r, c) <==> c == a
      ensures !Edge(g, sel, a, c)
      ensures Edge(g, ALL, x, c) <==> c == r
      ensures c == b ==> Edge(g, ALL, r, c)
    {
      EdgesOf(g, sel, r, c);
      EdgesOf(g, sel, a, c);
      EdgesOf(g, ALL, x, c);
      EdgesOf(g, ALL, r, c);
    }
  }

  lemma HiddenIsExpected(g: Registry, sel: Selection, r: Digest, a: Digest, b: Digest, x: Digest)
    requires FourDigests(r, a, b, x) && Hides(g, sel, r, a, b, x)
    ensures NothingMissing(g, sel, r, true) && Expected(g, sel, r, b) && b !in PlannedNodes(g, sel, r, true)
  {
    HiddenBase(g, sel, r, a);
    HiddenAttached(g, r, a, x);
    HiddenExpected(g, sel, r, a, b, x);
    HiddenNothingMissing(g, sel, r, a, b, x);
  }

  /** It does lose something: the platform the filter left out is reachable from the referrer,
      and the plan succeeds without it. */
  lemma FilterHidesReferred(r: Digest, a: Digest, b: Digest, x: Digest, p: string, q: string)
    requires FourDigests(r, a, b, x) && p != q
    ensures var g := ReferredIndex(r, a, b, x, p, q);
            NothingMissing(g, {p}, r, true) && Expected(g, {p}, r, b) && b !in PlannedNodes(g, {p}, r, true)
  {
    ReferredIndexHides(r, a, b, x, p, q);
    HiddenIsExpected(ReferredIndex(r, a, b, x, p, q), {p}, r, a, b, x);
  }

  lemma HiddenBase(g: Registry, sel: Selection, r: Digest, a: Digest)
    requires r in g.manifests && a in g.manifests
    requires forall c :: Edge(g, sel, r, c) <==> c == a
    requires forall c :: !Edge(g, sel, a, c)
    ensures BaseNodes(g, sel, r) == {r, a}
  {
    ReachesItself(g, sel, g.manifests.Keys, r);
    ReachThenStep(g, sel, g.manifests.Keys, r, r, a);
    forall n | n in BaseNodes(g, sel, r)
      ensures n in {r, a}
    {
      ClosedHoldsReachable(g, sel, g.manifests.Keys, {r, a}, r, n);
    }
  }

  predicate ReferredBy(g: Registry, r: Digest, a: Digest, x: Digest) {
    g.referrers.Keys == {r, a} && |g.referrers[r]| == 1 && g.referrers[r][0].digest == x && g.referrers[a] == []
  }

  lemma HiddenAttached(g: Registry, r: Digest, a: Digest, x: Digest)
    requires r != a && r != x && a != x && x in g.manifests && ReferredBy(g, r, a, x)
    requires forall c :: Edge(g, ALL, x, c) <==> c == r
    ensures AttachedNodes(g, {r, a}) == {x} && IsReferrerOf(g, {r, a}, x)
  {
    var base := {r, a};
    assert g.referrers[r][0].digest == x;
    assert IsReferrerOf(g, base, x);
    ReachesItself(g, ALL, g.manifests.Keys - base, x);
    forall n | n in AttachedNodes(g, base)
      ensures n == x
    {
      var y :| IsReferrerOf(g, base, y) && ReachesIn(g, ALL, g.manifests.Keys - base, y, n);
      ClosedHoldsReachable(g, ALL, g.manifests.Keys - base, {x}, x, n);
    }
  }

  lemma HiddenExpected(g: Registry, sel: Selection, r: Digest, a: Digest, b: Digest, x: Digest)
    requires BaseNodes(g, sel, r) == {r, a} && IsReferrerOf(g, {r, a}, x)
    requires g.manifests.Keys == {r, a, b, x} && Edge(g, ALL, r, b) && Edge(g, ALL, x, r)
    ensures Expected(g, sel, r, b)
  {
    ReachesItself(g, ALL, g.manifests.Keys, b);
    StepThenReach(g, ALL, g.manifests.Keys, r, b, b);
    StepThenReach(g, ALL, g.manifests.Keys, x, r, b);
  }

  lemma OnlyReferrer(g: Registry, r: Digest, a: Digest, x: Digest)
    requires r != a && ReferredBy(g, r, a, x)
    ensures forall y | IsReferrerOf(g, {r, a}, y) :: y == x
  {
    forall y | IsReferrerOf(g, {r, a}, y)
      ensures y == x
    {
      var s, k :| s in {r, a} && s in g.referrers && 0 <= k < |g.referrers[s]| && g.referrers[s][k].digest == y;
      assert s == r && k == 0;
    }
  }

  lemma HiddenNothingMissing(g: Registry, sel: Selection, r: Digest, a: Digest, b: Digest, x: Digest)
    requires FourDigests(r, a, b, x) && Hides(g, sel, r, a, b, x)
    requires BaseNodes(g, sel, r) == {r, a} && AttachedNodes(g, {r, a}) == {x}
    ensures NothingMissing(g, sel, r, true)
  {
    OnlyReferrer(g, r, a, x);
    assert PlannedNodes(g, sel, r, true) == {r, a, x};
  }
}
