/** What the records of a plan say, told from the registry alone. */
module PlanRecordsMeaning {
  import opened QueueTypes
  import opened ManifestGraph
  import opened Planner

  // ----- one record ------------------------------------------------------------------------

  /** A record for entry `k` of the index `n`, which the selection lets through. */
  predicate IsMember(g: Registry, sel: Selection, n: Digest, k: int, x: Record) {
    && n in g.manifests && g.manifests[n].Index? && 0 <= k < |g.manifests[n].children|
    && var c := g.manifests[n].children[k];
       && (sel == {} || (c.platform.Some? && c.platform.value in sel))
       && x.kind.Member? && x.digest == c.digest && x.mediaType == c.mediaType && x.size == c.size
       && x.platform == c.platform && x.subject.None?
  }

  /** A record for referrer `k` of the manifest `s`. */
  predicate IsReferrer(g: Registry, s: Digest, k: int, x: Record) {
    && s in g.referrers && 0 <= k < |g.referrers[s]|
    && var c := g.referrers[s][k];
       && x.kind.Referrer? && x.digest == c.digest && x.mediaType == c.mediaType && x.size == c.size
       && x.subject == Some(s) && x.platform.None?
  }

  predicate IsRoot(root: Child, x: Record) {
    && x.kind.Root? && x.digest == root.digest && x.mediaType == root.mediaType && x.size == root.size
    && x.subject.None? && x.platform.None?
  }

  ghost predicate MemberOfSome(g: Registry, sel: Selection, nodes: set<Digest>, x: Record) {
    exists n, k :: n in nodes && IsMember(g, sel, n, k, x)
  }

  ghost predicate ReferrerOfSome(g: Registry, nodes: set<Digest>, x: Record) {
    exists s, k :: s in nodes && IsReferrer(g, s, k, x)
  }

  // ----- which records there are -----------------------------------------------------------

  lemma {:induction false} ChildRecordFrom(sel: Selection, children: seq<Child>, x: Record) returns (k: int)
    requires x in ChildRecords(sel, children)
    ensures 0 <= k < |children| && Selected(sel, children[k]) && x == MemberRecord(children[k])
    decreases |children|
  {
    var n := |children| - 1;
    if Selected(sel, children[n]) && x == MemberRecord(children[n]) {
      k := n;
    } else {
      k := ChildRecordFrom(sel, children[..n], x);
    }
  }

  lemma {:induction false} ChildRecordOf(sel: Selection, children: seq<Child>, k: int)
    requires 0 <= k < |children| && Selected(sel, children[k])
    ensures MemberRecord(children[k]) in ChildRecords(sel, children)
    decreases |children|
  {
    var n := |children| - 1;
    if k < n {
      ChildRecordOf(sel, children[..n], k);
    }
  }

  lemma MemberIsSelected(g: Registry, sel: Selection, n: Digest, k: int, x: Record)
    ensures IsMember(g, sel, n, k, x)
       <==> 0 <= k < |Children(g, n)| && Selected(sel, Children(g, n)[k]) && x == MemberRecord(Children(g, n)[k])
  {
  }

  lemma ChildRecordIsMember(g: Registry, sel: Selection, n: Digest, x: Record)
    ensures x in ChildRecords(sel, Children(g, n)) <==> exists k :: IsMember(g, sel, n, k, x)
  {
    if x in ChildRecords(sel, Children(g, n)) {
      var k := ChildRecordFrom(sel, Children(g, n), x);
      MemberIsSelected(g, sel, n, k, x);
    }
    if k :| IsMember(g, sel, n, k, x) {
      MemberIsSelected(g, sel, n, k, x);
      ChildRecordOf(sel, Children(g, n), k);
    }
  }

  lemma {:induction false} InEdgeRecords(g: Registry, sel: Selection, nodes: set<Digest>, x: Record)
    ensures x in EdgeRecords(g, sel, nodes) <==> exists n :: n in nodes && x in ChildRecords(sel, Children(g, n))
    decreases |nodes|
  {
    if nodes != {} {
      var m :| m in nodes;
      EdgeRecordsTake(g, sel, nodes, m);
      InEdgeRecords(g, sel, nodes - {m}, x);
      assert forall n :: n in nodes <==> n == m || n in nodes - {m};
    }
  }

  lemma EdgeRecordIsMember(g: Registry, sel: Selection, nodes: set<Digest>, x: Record)
    ensures x in EdgeRecords(g, sel, nodes) <==> MemberOfSome(g, sel, nodes, x)
  {
    InEdgeRecords(g, sel, nodes, x);
    if x in EdgeRecords(g, sel, nodes) {
      var n :| n in nodes && x in ChildRecords(sel, Children(g, n));
      ChildRecordIsMember(g, sel, n, x);
    }
    if n, k :| n in nodes && IsMember(g, sel, n, k, x) {
      ChildRecordIsMember(g, sel, n, x);
    }
  }

  lemma {:induction false} InListing(g: Registry, records: seq<Record>, k: nat, x: Record)
    requires k <= |records|
    ensures x in Listing(g, records, k) <==> exists i, j | 0 <= i < k && 0 <= j :: IsReferrer(g, records[i].digest, j, x)
  {
    if k > 0 {
      InListing(g, records, k - 1, x);
      InReferrerRecords(g, records[k - 1].digest, x);
    }
  }

  lemma InReferrerRecords(g: Registry, s: Digest, x: Record)
    ensures x in ReferrerRecords(s, ReferrersOf(g, s)) <==> exists j | 0 <= j :: IsReferrer(g, s, j, x)
  {
    var list := ReferrersOf(g, s);
    if x in ReferrerRecords(s, list) {
      var j :| 0 <= j < |list| && ReferrerRecords(s, list)[j] == x;
      assert IsReferrer(g, s, j, x);
    }
    if j :| 0 <= j && IsReferrer(g, s, j, x) {
      assert ReferrerRecords(s, list)[j] == x;
    }
  }

  // ----- the base --------------------------------------------------------------------------

  lemma InBase(g: Registry, sel: Selection, root: Child, base: seq<Record>, x: Record)
    requires BaseRecords(g, sel, root, base)
    ensures x in base <==> IsRoot(root, x) || MemberOfSome(g, sel, BaseNodes(g, sel, root.digest), x)
  {
    EdgeRecordIsMember(g, sel, BaseNodes(g, sel, root.digest), x);
    assert x in base <==> x in multiset(base);
    assert IsRoot(root, x) <==> x == RootRecord(root);
  }

  /** Every base manifest but the root is listed by another one. */
  lemma HasParent(g: Registry, sel: Selection, root: Digest, n: Digest) returns (m: Digest)
    requires n in BaseNodes(g, sel, root) && n != root
    ensures m in BaseNodes(g, sel, root) && Edge(g, sel, m, n)
  {
    var p :| Path(g, sel, g.manifests.Keys, p) && p[0] == root && p[|p| - 1] == n;
    var q := p[..|p| - 1];
    m := p[|p| - 2];
    assert Path(g, sel, g.manifests.Keys, q);
    assert q[0] == root && q[|q| - 1] == m;
    assert Edge(g, sel, p[|p| - 2], p[|p| - 2 + 1]);
  }

  lemma MemberIsChild(g: Registry, sel: Selection, m: Digest, n: Digest) returns (x: Record, k: int)
    requires Edge(g, sel, m, n)
    ensures IsMember(g, sel, m, k, x) && x.digest == n
  {
    k :| 0 <= k < |Children(g, m)| && Selected(sel, Children(g, m)[k]) && Children(g, m)[k].digest == n;
    x := MemberRecord(Children(g, m)[k]);
  }

  lemma BaseHasRecord(g: Registry, sel: Selection, root: Child, base: seq<Record>, n: Digest)
    requires BaseRecords(g, sel, root, base) && n in BaseNodes(g, sel, root.digest)
    ensures HasRecord(base, n)
  {
    if n == root.digest {
      assert base[0] == [RootRecord(root)][0];
    } else {
      var m := HasParent(g, sel, root.digest, n);
      var x, k := MemberIsChild(g, sel, m, n);
      InBase(g, sel, root, base, x);
      var at :| 0 <= at < |base| && base[at] == x;
    }
  }

  lemma RecordIsInBase(g: Registry, sel: Selection, root: Child, base: seq<Record>, x: Record)
    requires BaseRecords(g, sel, root, base) && NothingMissing(g, sel, root.digest, false) && x in base
    ensures x.digest in BaseNodes(g, sel, root.digest)
  {
    InBase(g, sel, root, base, x);
    if !IsRoot(root, x) {
      var m, k :| m in BaseNodes(g, sel, root.digest) && IsMember(g, sel, m, k, x);
      MemberIsSelected(g, sel, m, k, x);
      assert Edge(g, sel, m, x.digest);
    }
  }

  /** The base records name exactly the base manifests. */
  lemma BaseIsNamedExactly(g: Registry, sel: Selection, root: Child, base: seq<Record>, n: Digest)
    requires BaseRecords(g, sel, root, base) && NothingMissing(g, sel, root.digest, false)
    ensures n in BaseNodes(g, sel, root.digest) <==> HasRecord(base, n)
  {
    if n in BaseNodes(g, sel, root.digest) {
      BaseHasRecord(g, sel, root, base, n);
    }
    if HasRecord(base, n) {
      var at :| 0 <= at < |base| && base[at].digest == n;
      RecordIsInBase(g, sel, root, base, base[at]);
    }
  }

  lemma ListingIsReferrers(g: Registry, sel: Selection, root: Child, base: seq<Record>, x: Record)
    requires BaseRecords(g, sel, root, base) && NothingMissing(g, sel, root.digest, false)
    ensures x in Listing(g, base, |base|) <==> ReferrerOfSome(g, BaseNodes(g, sel, root.digest), x)
  {
    InListing(g, base, |base|, x);
    if x in Listing(g, base, |base|) {
      var i, j :| 0 <= i < |base| && 0 <= j && IsReferrer(g, base[i].digest, j, x);
      BaseIsNamedExactly(g, sel, root, base, base[i].digest);
    }
    if s, k :| s in BaseNodes(g, sel, root.digest) && IsReferrer(g, s, k, x) {
      BaseIsNamedExactly(g, sel, root, base, s);
      var i :| 0 <= i < |base| && base[i].digest == s;
      assert IsReferrer(g, base[i].digest, k, x);
    }
  }

  // ----- the whole plan --------------------------------------------------------------------

  /** What a record of a plan may be: the root's, that of a selected entry of a planned index, or
      that of a referrer of a base manifest under that manifest. */
  ghost predicate IsRecordOf(g: Registry, sel: Selection, root: Child, copyReferrers: bool, x: Record) {
    var base := BaseNodes(g, sel, root.digest);
    || IsRoot(root, x)
    || MemberOfSome(g, sel, base, x)
    || (copyReferrers && (ReferrerOfSome(g, base, x) || MemberOfSome(g, ALL, AttachedNodes(g, base), x)))
  }

  /** The records of a successful plan are exactly those. */
  lemma RecordsMeanWhatTheySay(g: Registry, sel: Selection, root: Child, copyReferrers: bool,
                               records: seq<Record>, list: seq<Descriptor>, x: Record)
    requires IsPlan(g, sel, root, copyReferrers, records, list)
    ensures x in records <==> IsRecordOf(g, sel, root, copyReferrers, x)
  {
    if copyReferrers {
      var base :| base <= records && BaseRecords(g, sel, root, base) && multiset(records) == AllRecords(g, sel, root, base);
      AllRecordsMean(g, sel, root, base, x);
      assert x in records <==> x in multiset(records);
    } else {
      InBase(g, sel, root, records, x);
    }
  }

  lemma AllRecordsMean(g: Registry, sel: Selection, root: Child, base: seq<Record>, x: Record)
    requires BaseRecords(g, sel, root, base) && NothingMissing(g, sel, root.digest, true)
    ensures x in AllRecords(g, sel, root, base) <==> IsRecordOf(g, sel, root, true, x)
  {
    InBase(g, sel, root, base, x);
    ListingIsReferrers(g, sel, root, base, x);
    EdgeRecordIsMember(g, ALL, AttachedNodes(g, BaseNodes(g, sel, root.digest)), x);
    InThree(multiset(base), Listing(g, base, |base|), EdgeRecords(g, ALL, AttachedNodes(g, BaseNodes(g, sel, root.digest))), x);
    assert x in base <==> x in multiset(base);
  }

  lemma InThree(a: multiset<Record>, b: seq<Record>, c: multiset<Record>, x: Record)
    ensures x in a + (multiset(b) + c) <==> x in a || x in b || x in c
  {
  }
}
