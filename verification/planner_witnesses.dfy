/** Rings of indexes: how long a cycle the planner accepts. */
module PlannerWitnesses {
  import opened QueueTypes
  import opened ManifestGraph
  import opened Planner

  function Name(k: nat): Digest {
    seq(k, _ => 'a')
  }

  function Names(n: nat): set<Digest> {
    set k: nat | k < n :: Name(k)
  }

  function After(n: nat, d: Digest): Digest {
    if |d| + 1 == n then Name(0) else Name(|d| + 1)
  }

  /** Indexes in a ring: each lists the next one, and the last lists the first. */
  function Ring(n: nat): Registry {
    Registry(map d | d in Names(n) :: Index([Child(After(n, d), "index", 1, None)]), map d | d in Names(n) :: [])
  }

  const FIRST := Child(Name(0), "index", 1, None)

  lemma {:induction false} NamesAreFew(n: nat)
    ensures |Names(n)| <= n
  {
    if n > 0 {
      NamesAreFew(n - 1);
      assert Names(n) == Names(n - 1) + {Name(n - 1)};
    }
  }

  lemma NamesDiffer(j: nat, k: nat)
    requires j != k
    ensures Name(j) != Name(k)
  {
    assert |Name(j)| != |Name(k)|;
  }

  lemma RingEdge(n: nat, k: nat, c: Digest)
    requires k < n
    ensures Name(k) in Ring(n).manifests
    ensures Edge(Ring(n), ALL, Name(k), c) <==> c == After(n, Name(k))
    ensures HasNext(Ring(n), ALL, Name(k))
  {
    assert Name(k) in Names(n);
    assert Children(Ring(n), Name(k))[0] == Child(After(n, Name(k)), "index", 1, None);
    assert Selected(ALL, Children(Ring(n), Name(k))[0]);
  }

  // ----- what a ring contains ---------------------------------------------------------------

  /** A walk from the first index goes round the ring in order. */
  lemma {:induction false} RingPath(n: nat, p: seq<Digest>, j: nat)
    requires Path(Ring(n), ALL, Ring(n).manifests.Keys, p) && p[0] == Name(0) && j < |p| && j < n
    ensures p[j] == Name(j)
  {
    if j > 0 {
      RingPath(n, p, j - 1);
      RingEdge(n, j - 1, p[j]);
      assert Edge(Ring(n), ALL, p[j - 1], p[j - 1 + 1]);
    }
  }

  lemma {:induction false} RingReaches(n: nat, k: nat)
    requires k < n
    ensures Reaches(Ring(n), ALL, Name(0), Name(k))
  {
    RingEdge(n, k, Name(k));
    if k == 0 {
      ReachesItself(Ring(n), ALL, Ring(n).manifests.Keys, Name(0));
    } else {
      RingReaches(n, k - 1);
      RingEdge(n, k - 1, Name(k));
      ReachThenStep(Ring(n), ALL, Ring(n).manifests.Keys, Name(0), Name(k - 1), Name(k));
    }
  }

  lemma RingNodes(n: nat)
    requires n > 0
    ensures BaseNodes(Ring(n), ALL, Name(0)) == Names(n)
    ensures forall r :: !IsReferrerOf(Ring(n), Names(n), r)
    ensures AttachedNodes(Ring(n), Names(n)) == {}
  {
    forall k: nat | k < n
      ensures Name(k) in BaseNodes(Ring(n), ALL, Name(0))
    {
      RingEdge(n, k, Name(k));
      RingReaches(n, k);
    }
  }

  lemma RingClosed(n: nat, d: Digest, c: Digest)
    requires d in Names(n) && Edge(Ring(n), ALL, d, c)
    ensures c in Names(n)
  {
    var k: nat :| k < n && d == Name(k);
    RingEdge(n, k, c);
    assert c == Name(if k + 1 == n then 0 else k + 1);
  }

  lemma RingSupported(n: nat, d: Digest)
    requires d in Names(n)
    ensures d in Ring(n).manifests && !Ring(n).manifests[d].Unsupported? && d in Ring(n).referrers
  {
  }

  lemma RingIsCycle(n: nat)
    requires n > 0
    ensures Edge(Ring(n), ALL, Name(n - 1), Name(0)) && Name(0) in Names(n)
  {
    RingEdge(n, n - 1, Name(0));
  }

  /** A ring is complete. */
  lemma RingNothingMissing(n: nat, copyReferrers: bool)
    requires n > 0
    ensures NothingMissing(Ring(n), ALL, Name(0), copyReferrers)
  {
    RingNodes(n);
    RingIsCycle(n);
    forall d | d in Names(n)
      ensures d in Ring(n).manifests && !Ring(n).manifests[d].Unsupported? && d in Ring(n).referrers
      ensures forall c | Edge(Ring(n), ALL, d, c) :: c in Names(n)
    {
      RingSupported(n, d);
      forall c | Edge(Ring(n), ALL, d, c)
        ensures c in Names(n)
      {
        RingClosed(n, d, c);
      }
    }
  }

  // ----- its records ------------------------------------------------------------------------

  lemma {:induction false} RingRecords(n: nat, nodes: set<Digest>)
    requires nodes <= Names(n)
    ensures |EdgeRecords(Ring(n), ALL, nodes)| == |nodes|
    decreases |nodes|
  {
    if nodes != {} {
      var d :| d in nodes;
      EdgeRecordsTake(Ring(n), ALL, nodes, d);
      RingRecords(n, nodes - {d});
      OneChildRecord(n, d);
    }
  }

  lemma OneChildRecord(n: nat, d: Digest)
    requires d in Names(n)
    ensures |ChildRecords(ALL, Children(Ring(n), d))| == 1
  {
    assert Children(Ring(n), d)[..0] == [];
  }

  lemma {:induction false} NoneListed(g: Registry, records: seq<Record>)
    requires forall k | 0 <= k < |records| :: ReferrersOf(g, records[k].digest) == []
    ensures ListedCount(g, records) == 0
    decreases |records|
  {
    if records != [] {
      NoneListed(g, records[..|records| - 1]);
    }
  }

  lemma RingFits(n: nat, copyReferrers: bool)
    requires 0 < n < MAX_RECORDS
    ensures Fits(Ring(n), ALL, FIRST, copyReferrers)
  {
    RingNodes(n);
    NamesAreFew(n);
    RingRecords(n, Names(n));
    forall records: seq<Record> | BaseRecords(Ring(n), ALL, FIRST, records)
      ensures |AllRecords(Ring(n), ALL, FIRST, records)| <= MAX_RECORDS
    {
      RingSize(n, records);
    }
  }

  lemma RingSize(n: nat, records: seq<Record>)
    requires n > 0
    ensures |AllRecords(Ring(n), ALL, FIRST, records)| == |records|
  {
    RingNodes(n);
    NoneListed(Ring(n), records);
    ListingSize(Ring(n), records, |records|);
    assert records[..|records|] == records;
  }

  // ----- its depth --------------------------------------------------------------------------

  /** In a ring of more than 32 indexes, the one 32 edges away lists another. */
  lemma LongRingIsNotNear(n: nat)
    requires MAX_DEPTH < n
    ensures !NearRoot(Ring(n), ALL, Name(0), Name(MAX_DEPTH))
  {
    var g, far := Ring(n), Name(MAX_DEPTH);
    RingEdge(n, MAX_DEPTH, far);
    if NearRoot(g, ALL, Name(0), far) {
      var p :| Path(g, ALL, g.manifests.Keys, p) && p[0] == Name(0) && p[|p| - 1] == far && |p| - 1 <= MAX_DEPTH - 1;
      NamesDiffer(|p| - 1, MAX_DEPTH);
      RingPath(n, p, |p| - 1);
    }
  }

  lemma LongRingFails(n: nat, copyReferrers: bool)
    requires MAX_DEPTH < n
    ensures !AllNear(Ring(n), ALL, Name(0), copyReferrers)
  {
    RingNodes(n);
    LongRingIsNotNear(n);
    assert Name(MAX_DEPTH) in Names(n);
  }

  lemma ShortRingIsWithinLimits(n: nat, copyReferrers: bool)
    requires 0 < n <= MAX_DEPTH
    ensures Fits(Ring(n), ALL, FIRST, copyReferrers) && !TooDeep(Ring(n), ALL, FIRST, copyReferrers)
  {
    RingNothingMissing(n, copyReferrers);
    RingFits(n, copyReferrers);
    NamesAreFew(n);
    assert Ring(n).manifests.Keys == Names(n);
    SmallIsNotTooDeep(Ring(n), ALL, FIRST, copyReferrers);
  }

  lemma PlannedRingIsShort(n: nat, copyReferrers: bool, records: seq<Record>, list: seq<Descriptor>)
    requires IsPlan(Ring(n), ALL, FIRST, copyReferrers, records, list)
    ensures n <= MAX_DEPTH
  {
    if MAX_DEPTH < n {
      LongRingFails(n, copyReferrers);
    }
  }

  lemma FailedRingIsLong(n: nat, copyReferrers: bool, e: PlanError)
    requires n > 0 && PlanFails(Ring(n), ALL, FIRST, copyReferrers, e)
    ensures MAX_DEPTH < n && e == LimitExceeded
  {
    RingNothingMissing(n, copyReferrers);
    OnlyLimitsFail(Ring(n), ALL, FIRST, copyReferrers, e);
    if n <= MAX_DEPTH {
      ShortRingIsWithinLimits(n, copyReferrers);
    }
  }

  /** A ring is planned exactly if it has no more than 32 indexes: one of 33 fails although each
      of them is within 32 edges of the root and none is missing, because the depth is checked
      before the `seen` set. */
  lemma RingIsPlannedIff(n: nat, copyReferrers: bool, err: Option<PlanError>, records: seq<Record>, list: seq<Descriptor>)
    requires n > 0 && PlanOutcome(Ring(n), ALL, FIRST, copyReferrers, err, records, list)
    ensures err.None? <==> n <= 32
    ensures err.Some? ==> err.value == LimitExceeded
  {
    match err
    case None => PlannedRingIsShort(n, copyReferrers, records, list);
    case Some(e) => FailedRingIsLong(n, copyReferrers, e);
  }
}
