/** Manifest graphs as a registry serves them: indexes, images, referrers, and reachability. */
module ManifestGraph {
  import opened QueueTypes

  /** A descriptor inside an index, or of a referrer. */
  datatype Child = Child(digest: Digest, mediaType: string, size: int, platform: Option<string>)

  datatype Manifest =
    | Index(children: seq<Child>)
    | Image(config: Descriptor, layers: seq<Descriptor>)
    | Unsupported

  /** What the registry answers: manifests by digest and referrer lists by subject. A digest
      that is not in a map stands for a request that fails. */
  datatype Registry = Registry(manifests: map<Digest, Manifest>, referrers: map<Digest, seq<Child>>)

  /** The selected platforms; none selected means no filter. */
  type Selection = set<string>

  const ALL: Selection := {}

  predicate Selected(sel: Selection, c: Child) {
    sel == {} || (c.platform.Some? && c.platform.value in sel)
  }

  function Children(g: Registry, n: Digest): seq<Child> {
    if n in g.manifests && g.manifests[n].Index? then g.manifests[n].children else []
  }

  ghost predicate Edge(g: Registry, sel: Selection, a: Digest, b: Digest) {
    exists k | 0 <= k < |Children(g, a)| :: Selected(sel, Children(g, a)[k]) && Children(g, a)[k].digest == b
  }

  // ----- reachability ----------------------------------------------------------------------

  /** A walk along selected edges that stays within `within`. */
  ghost predicate Path(g: Registry, sel: Selection, within: set<Digest>, p: seq<Digest>) {
    && p != []
    && (forall k | 0 <= k < |p| :: p[k] in within)
    && forall k | 0 <= k < |p| - 1 :: Edge(g, sel, p[k], p[k + 1])
  }

  ghost predicate ReachesIn(g: Registry, sel: Selection, within: set<Digest>, a: Digest, b: Digest) {
    exists p :: Path(g, sel, within, p) && p[0] == a && p[|p| - 1] == b
  }

  ghost predicate Reaches(g: Registry, sel: Selection, a: Digest, b: Digest) {
    ReachesIn(g, sel, g.manifests.Keys, a, b)
  }

  lemma ReachesItself(g: Registry, sel: Selection, within: set<Digest>, a: Digest)
    requires a in within
    ensures ReachesIn(g, sel, within, a, a)
  {
    assert Path(g, sel, within, [a]);
  }

  lemma ReachesMore(g: Registry, sel: Selection, within: set<Digest>, more: set<Digest>, a: Digest, b: Digest)
    requires ReachesIn(g, sel, within, a, b) && within <= more
    ensures ReachesIn(g, sel, more, a, b)
  {
    var p :| Path(g, sel, within, p) && p[0] == a && p[|p| - 1] == b;
    assert Path(g, sel, more, p);
  }

  lemma StepThenReach(g: Registry, sel: Selection, within: set<Digest>, a: Digest, c: Digest, b: Digest)
    requires a in within && Edge(g, sel, a, c) && ReachesIn(g, sel, within, c, b)
    ensures ReachesIn(g, sel, within, a, b)
  {
    var p :| Path(g, sel, within, p) && p[0] == c && p[|p| - 1] == b;
    var q := [a] + p;
    assert forall k | 0 < k < |q| :: q[k] == p[k - 1];
    assert Path(g, sel, within, q);
  }

  lemma ReachThenStep(g: Registry, sel: Selection, within: set<Digest>, a: Digest, c: Digest, b: Digest)
    requires ReachesIn(g, sel, within, a, c) && Edge(g, sel, c, b) && b in within
    ensures ReachesIn(g, sel, within, a, b)
  {
    var p :| Path(g, sel, within, p) && p[0] == a && p[|p| - 1] == c;
    var q := p + [b];
    assert forall k | 0 <= k < |p| :: q[k] == p[k];
    assert Path(g, sel, within, q);
  }

  /** The same by a walk of at most `edges` edges. */
  ghost predicate ReachesBy(g: Registry, sel: Selection, within: set<Digest>, a: Digest, b: Digest, edges: int) {
    exists p :: Path(g, sel, within, p) && p[0] == a && p[|p| - 1] == b && |p| - 1 <= edges
  }

  lemma ReachesItselfBy(g: Registry, sel: Selection, within: set<Digest>, a: Digest, edges: nat)
    requires a in within
    ensures ReachesBy(g, sel, within, a, a, edges)
  {
    assert Path(g, sel, within, [a]);
  }

  lemma ReachesMoreBy(g: Registry, sel: Selection, within: set<Digest>, more: set<Digest>, a: Digest, b: Digest, edges: int)
    requires ReachesBy(g, sel, within, a, b, edges) && within <= more
    ensures ReachesBy(g, sel, more, a, b, edges)
  {
    var p :| Path(g, sel, within, p) && p[0] == a && p[|p| - 1] == b && |p| - 1 <= edges;
    assert Path(g, sel, more, p);
  }

  lemma StepThenReachBy(g: Registry, sel: Selection, within: set<Digest>, a: Digest, c: Digest, b: Digest, edges: int)
    requires a in within && Edge(g, sel, a, c) && ReachesBy(g, sel, within, c, b, edges)
    ensures ReachesBy(g, sel, within, a, b, edges + 1)
  {
    var p :| Path(g, sel, within, p) && p[0] == c && p[|p| - 1] == b && |p| - 1 <= edges;
    var q := [a] + p;
    assert forall k | 0 < k < |q| :: q[k] == p[k - 1];
    assert Path(g, sel, within, q);
  }

  /** Some selected edge leaves `n`. */
  predicate HasNext(g: Registry, sel: Selection, n: Digest) {
    HasNextAmong(g, sel, n, |Children(g, n)|)
  }

  predicate HasNextAmong(g: Registry, sel: Selection, n: Digest, k: nat)
    requires k <= |Children(g, n)|
  {
    exists j | 0 <= j < k :: Selected(sel, Children(g, n)[j])
  }

  /** How far a manifest is allowed from where the walk begins, if `edges` are left there: what it
      lists has to be within reach too. */
  function Allowed(g: Registry, sel: Selection, n: Digest, edges: int): int {
    if HasNext(g, sel, n) then edges - 1 else edges
  }

  /** A set that contains `a` and is closed under selected edges, as far as `within` goes,
      contains everything `a` reaches within it. */
  lemma {:induction false} ClosedHoldsPath(g: Registry, sel: Selection, within: set<Digest>, closed: set<Digest>, p: seq<Digest>)
    requires Path(g, sel, within, p) && p[0] in closed
    requires forall n, c | n in closed && n in within && c in within && Edge(g, sel, n, c) :: c in closed
    ensures p[|p| - 1] in closed
    decreases |p|
  {
    if |p| > 1 {
      assert Edge(g, sel, p[0], p[1]);
      forall k | 0 <= k < |p[1..]| - 1
        ensures Edge(g, sel, p[1..][k], p[1..][k + 1])
      {
        assert Edge(g, sel, p[k + 1], p[k + 2]);
      }
      ClosedHoldsPath(g, sel, within, closed, p[1..]);
    }
  }

  lemma ClosedHoldsReachable(g: Registry, sel: Selection, within: set<Digest>, closed: set<Digest>, a: Digest, b: Digest)
    requires ReachesIn(g, sel, within, a, b) && a in closed
    requires forall n, c | n in closed && n in within && c in within && Edge(g, sel, n, c) :: c in closed
    ensures b in closed
  {
    var p :| Path(g, sel, within, p) && p[0] == a && p[|p| - 1] == b;
    ClosedHoldsPath(g, sel, within, closed, p);
  }

  // ----- what a set of manifests contributes -----------------------------------------------

  /** The config and layer descriptors of a manifest. */
  function Descriptors(g: Registry, n: Digest): seq<Descriptor> {
    if n in g.manifests && g.manifests[n].Image? then [g.manifests[n].config] + g.manifests[n].layers else []
  }

  /** The blobs of a set of manifests, by digest. */
  ghost function BlobDigests(g: Registry, nodes: set<Digest>): set<Digest> {
    set n, k | n in nodes && 0 <= k < |Descriptors(g, n)| :: Descriptors(g, n)[k].digest
  }

  lemma BlobDigestsOfUnion(g: Registry, a: set<Digest>, b: set<Digest>)
    ensures BlobDigests(g, a + b) == BlobDigests(g, a) + BlobDigests(g, b)
  {
  }

  // ----- the records of a set of manifests -------------------------------------------------

  datatype Kind = Root | Member | Referrer

  datatype Record = Record(digest: Digest, mediaType: string, size: int, kind: Kind,
                           subject: Option<Digest>, platform: Option<string>)

  function MemberRecord(c: Child): Record {
    Record(c.digest, c.mediaType, c.size, Member, None, c.platform)
  }

  /** One record for each selected entry of an index, repetitions included. */
  function ChildRecords(sel: Selection, children: seq<Child>): multiset<Record> {
    if children == [] then multiset{}
    else
      var last := children[|children| - 1];
      ChildRecords(sel, children[..|children| - 1]) + if Selected(sel, last) then multiset{MemberRecord(last)} else multiset{}
  }

  lemma {:induction false} FewerChildRecords(sel: Selection, children: seq<Child>, k: nat)
    requires k <= |children|
    ensures ChildRecords(sel, children[..k]) <= ChildRecords(sel, children)
    decreases |children|
  {
    if k < |children| {
      FewerChildRecords(sel, children[..|children| - 1], k);
      assert children[..|children| - 1][..k] == children[..k];
    } else {
      assert children[..k] == children;
    }
  }

  /** One record for each selected edge that leaves one of `nodes`. */
  ghost function EdgeRecords(g: Registry, sel: Selection, nodes: set<Digest>): multiset<Record>
    decreases |nodes|
  {
    if nodes == {} then multiset{}
    else
      var n :| n in nodes;
      ChildRecords(sel, Children(g, n)) + EdgeRecords(g, sel, nodes - {n})
  }

  lemma {:induction false} EdgeRecordsTake(g: Registry, sel: Selection, nodes: set<Digest>, n: Digest)
    requires n in nodes
    ensures EdgeRecords(g, sel, nodes) == ChildRecords(sel, Children(g, n)) + EdgeRecords(g, sel, nodes - {n})
    decreases |nodes|
  {
    var m :| m in nodes && EdgeRecords(g, sel, nodes) == ChildRecords(sel, Children(g, m)) + EdgeRecords(g, sel, nodes - {m});
    if m != n {
      EdgeRecordsTake(g, sel, nodes - {m}, n);
      EdgeRecordsTake(g, sel, nodes - {n}, m);
      assert nodes - {m} - {n} == nodes - {n} - {m};
    }
  }

  lemma {:induction false} EdgeRecordsOfUnion(g: Registry, sel: Selection, a: set<Digest>, b: set<Digest>)
    requires a !! b
    ensures EdgeRecords(g, sel, a + b) == EdgeRecords(g, sel, a) + EdgeRecords(g, sel, b)
    decreases |b|
  {
    if b == {} {
      assert a + b == a;
    } else {
      var n :| n in b;
      EdgeRecordsTake(g, sel, b, n);
      EdgeRecordsOfUnion(g, sel, a, b - {n});
      TakeFromUnion(g, sel, a, b, n);
      Exchanged(ChildRecords(sel, Children(g, n)), EdgeRecords(g, sel, a), EdgeRecords(g, sel, b - {n}));
    }
  }

  lemma TakeFromUnion(g: Registry, sel: Selection, a: set<Digest>, b: set<Digest>, n: Digest)
    requires n in b && n !in a
    ensures EdgeRecords(g, sel, a + b) == ChildRecords(sel, Children(g, n)) + EdgeRecords(g, sel, a + (b - {n}))
  {
    EdgeRecordsTake(g, sel, a + b, n);
    assert a + b - {n} == a + (b - {n});
  }

  lemma Exchanged(x: multiset<Record>, y: multiset<Record>, z: multiset<Record>)
    ensures x + (y + z) == y + (x + z)
  {
  }

  lemma FewerEdgeRecords(g: Registry, sel: Selection, some: set<Digest>, nodes: set<Digest>)
    requires some <= nodes
    ensures EdgeRecords(g, sel, some) <= EdgeRecords(g, sel, nodes)
  {
    EdgeRecordsOfUnion(g, sel, some, nodes - some);
    assert some + (nodes - some) == nodes;
  }
}
