/** What the convergence report is worth (speculative_converge.go). */
module Divergence {
  import opened Sorting
  import opened Text
  import opened Causal
  import opened Merkle
  import opened Converge
  import opened Ratios

  // ---- the gate ----

  lemma {:induction false} BucketsAreDisjoint(peers: seq<Peer>, a: Digest, b: Digest)
    requires a != b
    ensures |Bucket(peers, a)| + |Bucket(peers, b)| <= |peers|
  {
    if peers != [] {
      BucketsAreDisjoint(peers[..|peers| - 1], a, b);
    }
  }

  /** The plurality of a cohort, in terms of its buckets. */
  lemma CohortPlurality(peers: seq<Peer>)
    requires peers != []
    ensures var p := PluralityOf(Histogram(peers));
      && p.best.Some? && p.best.value in Roots(peers) && p.count == |Bucket(peers, p.best.value)|
      && (forall d :: d in Roots(peers) ==> |Bucket(peers, d)| <= p.count)
      && (p.tied <==> exists d :: d in Roots(peers) && d != p.best.value && |Bucket(peers, d)| == p.count)
  {
    hide PluralityOf, Bucket;
    assert peers[0].attestation.root in Roots(peers);
    assert peers[0].attestation.root in Histogram(peers).Keys;
    var hist := Histogram(peers);
    forall d ensures d in hist <==> d in Roots(peers)
      ensures d in Roots(peers) ==> hist[d] == |Bucket(peers, d)| && hist[d] > 0
    {
      BucketOutside(peers, d);
    }
    hide Histogram, Roots;
    PluralityMeaning(hist);
    var p := PluralityOf(hist);
    forall d | d in Roots(peers) ensures |Bucket(peers, d)| <= p.count {
      assert d in hist;
    }
    if p.tied {
      var d :| d in hist && d != p.best.value && hist[d] == p.count;
      assert d in Roots(peers);
    }
  }

  /** Strictly more agents than any other root. */
  ghost predicate Leads(peers: seq<Peer>, d: Digest) {
    d in Roots(peers) && forall e :: e in Roots(peers) && e != d ==> |Bucket(peers, e)| < |Bucket(peers, d)|
  }

  lemma ShareMeaning(count: nat, n: nat, t: real)
    requires n > 0
    ensures count as real / n as real >= t <==> count as real >= t * n as real
  {
    var c, m := count as real, n as real;
    ShareOver(c, m, t);
  }

  lemma LeadsIff(peers: seq<Peer>, d: Digest)
    requires peers != []
    ensures var p := PluralityOf(Histogram(peers)); p.best.Some? && (Leads(peers, d) <==> !p.tied && p.best == Some(d))
    ensures Leads(peers, d) ==> PluralityOf(Histogram(peers)).count == |Bucket(peers, d)|
  {
    hide Bucket, PluralityOf, Histogram, Roots;
    CohortPlurality(peers);
    var p := PluralityOf(Histogram(peers));
    if p.tied && d == p.best.value {
      var e :| e in Roots(peers) && e != d && |Bucket(peers, e)| == p.count;
      assert !Leads(peers, d);
    }
  }

  /** Converged: one root leads and holds its share of the cohort. Partial: one leads without
      the share. Divergent: none leads. */
  lemma GateMeaning(peers: seq<Peer>, threshold: real, d: Digest)
    requires peers != []
    ensures var r := Convergence(peers, threshold);
      && (r.consensusRoot == Some(d) <==> Leads(peers, d))
      && (r.status == Converged && r.consensusRoot == Some(d)
          <==> Leads(peers, d) && |Bucket(peers, d)| as real >= EffectiveThreshold(threshold) * |peers| as real)
      && (r.status == Divergent <==> r.consensusRoot == None)
  {
    var p, t := PluralityOf(Histogram(peers)), EffectiveThreshold(threshold);
    hide Bucket, PluralityOf, Histogram, SortedBuckets, Loci, Roots, Leads, EffectiveThreshold;
    LeadsIff(peers, d);
    ShareMeaning(p.count, |peers|, t);
    GateIs(peers, threshold);
    hide Quorum, Convergence;
  }

  lemma GateIs(peers: seq<Peer>, threshold: real)
    requires peers != []
    ensures var r, p := Convergence(peers, threshold), PluralityOf(Histogram(peers));
      && r.consensusRoot == (if p.tied then None else p.best)
      && r.status == GateStatus(p.tied, p.count as real / |peers| as real, EffectiveThreshold(threshold))
      && (r.consensusRoot.Some? ==> r.loci == Loci(peers, r.consensusRoot.value))
      && r.bucketAgents == SortedBuckets(peers)
  {
    hide PluralityOf, Histogram, SortedBuckets, Loci, EffectiveThreshold, GateStatus;
  }

  /** Above one half a share is enough: no tie is possible. */
  lemma MajorityConverges(peers: seq<Peer>, threshold: real)
    requires peers != [] && EffectiveThreshold(threshold) > 0.5
    ensures Convergence(peers, threshold).status == Converged
      <==> exists d :: d in Roots(peers) && |Bucket(peers, d)| as real >= EffectiveThreshold(threshold) * |peers| as real
  {
    var t, n := EffectiveThreshold(threshold), |peers|;
    hide Bucket, Roots, Convergence, EffectiveThreshold;
    if d :| d in Roots(peers) && |Bucket(peers, d)| as real >= t * n as real {
      forall e | e in Roots(peers) && e != d ensures |Bucket(peers, e)| < |Bucket(peers, d)| {
        BucketsAreDisjoint(peers, d, e);
        MoreThanTheRest(|Bucket(peers, d)|, |Bucket(peers, e)|, n, t);
      }
      GateMeaning(peers, threshold, d);
    }
    if Convergence(peers, threshold).status == Converged {
      GateMeaning(peers, threshold, EMPTY_ROOT);
      var d := Convergence(peers, threshold).consensusRoot.value;
      GateMeaning(peers, threshold, d);
    }
  }

  lemma MoreThanTheRest(b: nat, e: nat, n: nat, t: real)
    requires t > 0.5 && n > 0 && b as real >= t * n as real && b + e <= n
    ensures e < b
  {
    assert (t - 0.5) * n as real > 0.0;
    assert 2.0 * b as real > n as real;
    assert (2 * b) as real > n as real;
  }

  /** The default threshold in whole numbers. */
  lemma DefaultGate(peers: seq<Peer>)
    requires peers != []
    ensures Convergence(peers, DEFAULT_THRESHOLD).status == Converged
      <==> exists d :: d in Roots(peers) && 50 * |Bucket(peers, d)| >= 33 * |peers|
  {
    MajorityConverges(peers, DEFAULT_THRESHOLD);
    assert EffectiveThreshold(DEFAULT_THRESHOLD) == DEFAULT_THRESHOLD;
    hide Bucket, Roots, Convergence, EffectiveThreshold;
    if d :| d in Roots(peers) && |Bucket(peers, d)| as real >= DEFAULT_THRESHOLD * |peers| as real {
      InWholeNumbers(|Bucket(peers, d)|, |peers|);
    }
    if d :| d in Roots(peers) && 50 * |Bucket(peers, d)| >= 33 * |peers| {
      InWholeNumbers(|Bucket(peers, d)|, |peers|);
    }
  }

  lemma InWholeNumbers(b: nat, n: nat)
    ensures b as real >= DEFAULT_THRESHOLD * n as real <==> 50 * b >= 33 * n
  {
    assert (50 * b) as real == 50.0 * b as real && (33 * n) as real == 33.0 * n as real;
  }

  function Split(k: nat, n: nat, a: Digest, b: Digest): (r: seq<Peer>)
    ensures |r| == n
  {
    seq(n, i => Peer("agent", Attestation(if i < k then a else b, 0, [], 0)))
  }

  lemma SplitAt(k: nat, n: nat, a: Digest, b: Digest, i: nat)
    requires i < n
    ensures Split(k, n, a, b)[i].attestation.root == if i < k then a else b
  {
  }

  lemma {:induction false} SplitBucket(k: nat, n: nat, a: Digest, b: Digest, i: nat)
    requires a != b && i <= n
    ensures |Bucket(Split(k, n, a, b)[..i], a)| == if i < k then i else k
  {
    if i > 0 {
      SplitBucket(k, n, a, b, i - 1);
      hide Split, Bucket, Roots;
      SplitAt(k, n, a, b, i - 1);
      OnePeerMore(Split(k, n, a, b), i - 1, a);
    }
  }

  /** It is not two thirds, as the source's comment has it: 33 of 50 pass. */
  lemma DefaultIsNotTwoThirds(a: Digest, b: Digest)
    requires a != b
    ensures var peers := Split(33, 50, a, b);
      Convergence(peers, DEFAULT_THRESHOLD).status == Converged && 3 * |Bucket(peers, a)| < 2 * |peers|
  {
    var peers := Split(33, 50, a, b);
    SplitBucket(33, 50, a, b, 50);
    assert peers[..50] == peers;
    BucketOutside(peers, a);
    hide Split, Bucket, Roots, Convergence;
    DefaultGate(peers);
  }

  // ---- the reported differences ----

  ghost predicate DistinctAgents(peers: seq<Peer>) {
    forall i, j :: 0 <= i < j < |peers| ==> peers[i].agentId != peers[j].agentId
  }

  lemma AgentIsPeer(peers: seq<Peer>, p: Peer, q: Peer)
    requires DistinctAgents(peers) && p in peers && q in peers && p.agentId == q.agentId
    ensures p == q
  {
    var i :| 0 <= i < |peers| && peers[i] == p;
    var j :| 0 <= j < |peers| && peers[j] == q;
  }

  lemma LociAre(peers: seq<Peer>, root: Digest, leaf: Digest)
    requires ConsensusLeaves(peers, root) != {}
    ensures var consensus := ConsensusLeaves(peers, root);
      LocusOf(peers, root, consensus, leaf) in Loci(peers, root) <==> leaf in Disputed(peers, root, consensus)
  {
    var consensus := ConsensusLeaves(peers, root);
    hide Disputed, DigestLE, TotalPreorder, Antisymmetric, LocusOf, ConsensusLeaves;
    DigestOrder();
    var leaves := DisputedList(peers, root, consensus);
    if leaf in Disputed(peers, root, consensus) {
      assert leaf in leaves;
      var i :| 0 <= i < |leaves| && leaves[i] == leaf;
      assert Loci(peers, root)[i] == LocusOf(peers, root, consensus, leaf);
    }
    if LocusOf(peers, root, consensus, leaf) in Loci(peers, root) {
      var i :| 0 <= i < |leaves| && Loci(peers, root)[i] == LocusOf(peers, root, consensus, leaf);
      LocusLeaf(peers, root, consensus, leaf);
      LocusLeaf(peers, root, consensus, leaves[i]);
      assert leaves[i] in leaves;
    }
  }

  lemma LocusLeaf(peers: seq<Peer>, root: Digest, consensus: set<Digest>, leaf: Digest)
    ensures var l := LocusOf(peers, root, consensus, leaf);
      && l.leaf == leaf && (l.severity == Missing <==> leaf in consensus)
      && (forall a :: a in l.inclusion <==> a in Includers(peers, root, consensus, leaf))
      && (forall a :: a in l.exclusion <==> a in Excluders(peers, root, consensus, leaf))
  {
    hide Includers, Excluders, StringLE, TotalPreorder, Antisymmetric;
    StringOrder();
  }

  lemma LocusSource(peers: seq<Peer>, root: Digest, l: Locus)
    requires l in Loci(peers, root)
    ensures ConsensusLeaves(peers, root) != {} && l == LocusOf(peers, root, ConsensusLeaves(peers, root), l.leaf)
  {
    var consensus := ConsensusLeaves(peers, root);
    hide Disputed, DisputedList, LocusOf, ConsensusLeaves;
    var leaves := DisputedList(peers, root, consensus);
    var i :| 0 <= i < |leaves| && Loci(peers, root)[i] == l;
    LocusLeaf(peers, root, consensus, leaves[i]);
  }

  /** Two-sidedness never happens: a missing leaf is only excluded, an extra one only
      included, each by someone, and by dissenters alone. */
  lemma LociShape(peers: seq<Peer>, root: Digest, l: Locus)
    requires l in Loci(peers, root)
    ensures l.severity == Missing ==> l.inclusion == [] && l.exclusion != [] && l.leaf in ConsensusLeaves(peers, root)
    ensures l.severity == Extra ==> l.exclusion == [] && l.inclusion != [] && l.leaf !in ConsensusLeaves(peers, root)
    ensures forall a :: a in l.inclusion || a in l.exclusion ==> exists p :: p in peers && p.agentId == a && p.attestation.root != root
  {
    var consensus := ConsensusLeaves(peers, root);
    LocusSource(peers, root, l);
    LociAre(peers, root, l.leaf);
    LocusLeaf(peers, root, consensus, l.leaf);
    DisputedIff(peers, root, consensus, l.leaf);
    hide Loci, LocusOf, ConsensusLeaves, Disputed;
    forall a | a in l.inclusion || a in l.exclusion ensures exists p :: p in peers && p.agentId == a && p.attestation.root != root {
      if a in l.inclusion {
        var p :| p in peers && Includes(p, root, consensus, l.leaf) && p.agentId == a;
      } else {
        var p :| p in peers && Excludes(p, root, consensus, l.leaf) && p.agentId == a;
      }
    }
    OneSided(peers, root, consensus, l.leaf);
    Nobody(l.inclusion);
    Nobody(l.exclusion);
  }

  lemma Nobody(agents: seq<string>)
    ensures agents == [] <==> forall a :: a !in agents
  {
    assert agents != [] ==> agents[0] in agents;
  }

  lemma OneSided(peers: seq<Peer>, root: Digest, consensus: set<Digest>, leaf: Digest)
    ensures if leaf in consensus then Includers(peers, root, consensus, leaf) == {} else Excluders(peers, root, consensus, leaf) == {}
  {
  }

  /** No agent of the consensus bucket is ever named. */
  lemma BucketIsNeverNamed(peers: seq<Peer>, root: Digest, p: Peer, l: Locus)
    requires DistinctAgents(peers) && p in peers && p.attestation.root == root && l in Loci(peers, root)
    ensures p.agentId !in l.inclusion && p.agentId !in l.exclusion
  {
    hide Loci;
    LociShape(peers, root, l);
    forall q | q in peers && q.agentId == p.agentId ensures q == p {
      AgentIsPeer(peers, p, q);
    }
  }

  /** The leaves an agent must have, judging by the report. */
  function Recovered(loci: seq<Locus>, consensus: set<Digest>, agent: string): set<Digest> {
    (consensus - (set l | l in loci && agent in l.exclusion :: l.leaf)) + (set l | l in loci && agent in l.inclusion :: l.leaf)
  }

  lemma NamedExactly(peers: seq<Peer>, root: Digest, p: Peer, leaf: Digest)
    requires DistinctAgents(peers) && p in peers && p.attestation.root != root
    ensures var consensus := ConsensusLeaves(peers, root);
      && (p.agentId in Excluders(peers, root, consensus, leaf) <==> Excludes(p, root, consensus, leaf))
      && (p.agentId in Includers(peers, root, consensus, leaf) <==> Includes(p, root, consensus, leaf))
  {
    var consensus := ConsensusLeaves(peers, root);
    hide ConsensusLeaves, DistinctAgents, Excludes, Includes;
    if p.agentId in Excluders(peers, root, consensus, leaf) {
      var q :| q in peers && Excludes(q, root, consensus, leaf) && q.agentId == p.agentId;
      AgentIsPeer(peers, p, q);
    }
    if p.agentId in Includers(peers, root, consensus, leaf) {
      var q :| q in peers && Includes(q, root, consensus, leaf) && q.agentId == p.agentId;
      AgentIsPeer(peers, p, q);
    }
  }

  lemma NamedInLoci(peers: seq<Peer>, root: Digest, p: Peer, leaf: Digest)
    requires ConsensusLeaves(peers, root) != {}
    requires DistinctAgents(peers) && p in peers && p.attestation.root != root
    ensures var consensus := ConsensusLeaves(peers, root);
      && ((exists l :: l in Loci(peers, root) && p.agentId in l.exclusion && l.leaf == leaf) <==> Excludes(p, root, consensus, leaf))
      && ((exists l :: l in Loci(peers, root) && p.agentId in l.inclusion && l.leaf == leaf) <==> Includes(p, root, consensus, leaf))
  {
    var consensus := ConsensusLeaves(peers, root);
    var here := LocusOf(peers, root, consensus, leaf);
    hide Loci, LocusOf, ConsensusLeaves, Excludes, Includes, DistinctAgents, Excluders, Includers, Disputed;
    NamedExactly(peers, root, p, leaf);
    LociAre(peers, root, leaf);
    LocusLeaf(peers, root, consensus, leaf);
    DisputedIff(peers, root, consensus, leaf);
    forall l | l in Loci(peers, root) && l.leaf == leaf ensures l == here {
      LocusSource(peers, root, l);
    }
  }

  /** Lossless: the consensus leaves and the loci give back every dissenter's leaves, unless
      the consensus has no leaves, when nothing is reported at all. */
  lemma LociAreLossless(peers: seq<Peer>, root: Digest, p: Peer)
    requires DistinctAgents(peers) && p in peers && p.attestation.root != root
    ensures Recovered(Loci(peers, root), ConsensusLeaves(peers, root), p.agentId) == Members(p.attestation.leafHashes)
      <==> ConsensusLeaves(peers, root) != {} || p.attestation.leafHashes == []
  {
    var consensus, loci := ConsensusLeaves(peers, root), Loci(peers, root);
    if consensus == {} {
      assert loci == [] && Recovered(loci, consensus, p.agentId) == {};
      if p.attestation.leafHashes != [] {
        assert p.attestation.leafHashes[0] in Members(p.attestation.leafHashes);
      }
    } else {
      hide Loci, ConsensusLeaves, DistinctAgents;
      forall leaf ensures leaf in Recovered(loci, consensus, p.agentId) <==> leaf in p.attestation.leafHashes {
        NamedInLoci(peers, root, p, leaf);
      }
    }
  }

  // ---- real attestations ----

  ghost predicate Genuine(p: Peer) {
    exists g: Option<CausalGraph> :: p.attestation == Attest(g, true)
  }

  lemma GenuineLeaves(p: Peer)
    requires Genuine(p)
    ensures p.attestation.root == Root(p.attestation.leafHashes) && NodeLeaves(p.attestation.leafHashes)
    ensures p.attestation.root == EMPTY_ROOT <==> p.attestation.leafHashes == []
  {
    var g: Option<CausalGraph> :| p.attestation == Attest(g, true);
    EmptyIsDistinguished(g, true);
    EmptyRootIs();
    CanonicalLeavesAreNodeLeaves(NodesOf(g));
    assert NodeLeaves([]);
    hide Root, NodeLeaves, CanonicalLeaf, Sort, DigestLE;
  }

  /** One peer of the bucket is enough: all of them have the same leaves. */
  lemma {:induction false} OnePeerIsEnough(peers: seq<Peer>, root: Digest, p: Peer)
    requires (forall q :: q in peers ==> Genuine(q)) && p in peers && p.attestation.root == root
    ensures Members(p.attestation.leafHashes) == ConsensusLeaves(peers, root)
  {
    hide Genuine, Root, NodeLeaves;
    var q := peers[0];
    assert q in peers;
    if q.attestation.root == root {
      GenuineLeaves(p);
      GenuineLeaves(q);
      RootDeterminesLeafSet(p.attestation.leafHashes, q.attestation.leafHashes);
    } else {
      assert p in peers[1..];
      OnePeerIsEnough(peers[1..], root, p);
    }
  }

  /** The exact price of the empty-consensus shortcut: the report reproduces a dissenter
      exactly when the consensus is not the empty graph. */
  lemma DissentersSurviveTheReport(peers: seq<Peer>, root: Digest, p: Peer)
    requires DistinctAgents(peers) && (forall q :: q in peers ==> Genuine(q))
    requires root in Roots(peers) && p in peers && p.attestation.root != root
    ensures Recovered(Loci(peers, root), ConsensusLeaves(peers, root), p.agentId) == Members(p.attestation.leafHashes)
      <==> root != EMPTY_ROOT
  {
    var q :| q in peers && q.attestation.root == root;
    hide Loci, ConsensusLeaves, Genuine, Recovered, DistinctAgents;
    OnePeerIsEnough(peers, root, q);
    GenuineLeaves(q);
    GenuineLeaves(p);
    LociAreLossless(peers, root, p);
    if q.attestation.leafHashes != [] {
      assert q.attestation.leafHashes[0] in Members(q.attestation.leafHashes);
    }
  }

  function EmptyMajority(n: CausalNode): seq<Peer> {
    [Peer("a", Attest(None, true)), Peer("b", Attest(None, true)), Peer("c", Attest(Some(CausalGraph([n])), true))]
  }

  lemma EmptyLeads(n: CausalNode)
    ensures var peers := EmptyMajority(n);
      && peers[0].attestation.root == EMPTY_ROOT && peers[1].attestation.root == EMPTY_ROOT
      && peers[2].attestation.root != EMPTY_ROOT && peers[2].attestation.leafHashes != []
      && |Bucket(peers, EMPTY_ROOT)| == 2 && EMPTY_ROOT in Roots(peers)
      && |peers| == 3 && peers[0].attestation == Attest(None, true)
  {
    EmptyIsDistinguished(None, true);
    EmptyIsDistinguished(Some(CausalGraph([n])), true);
    AttestedRoot(CausalGraph([n]));
    hide Attest, SortedLeaves, Root;
    var peers := EmptyMajority(n);
    assert peers[0] in peers;
    assert peers[..3] == peers && peers[..0] == [];
    OnePeerMore(peers, 0, EMPTY_ROOT);
    OnePeerMore(peers, 1, EMPTY_ROOT);
    OnePeerMore(peers, 2, EMPTY_ROOT);
  }

  /** Concretely: two agents without a graph outvote one with a node. The gate is open, and the
      node the third agent adds is not reported. */
  lemma EmptyConsensusHidesDissent(n: CausalNode)
    ensures var peers := EmptyMajority(n);
      var r := Convergence(peers, DEFAULT_THRESHOLD);
      && r.status == Converged && r.consensusRoot == Some(EMPTY_ROOT) && r.loci == []
      && peers[2].attestation.root != EMPTY_ROOT && peers[2].attestation.leafHashes != []
  {
    hide EmptyMajority, Bucket, Roots, Convergence, Loci, EffectiveThreshold, Leads, Attest, PluralityOf, Histogram, SortedBuckets;
    var peers := EmptyMajority(n);
    EmptyLeads(n);
    EmptyHasNoLeaves(peers);
    TwoOfThreeLead(peers, EMPTY_ROOT);
    DefaultIsKept();
    GateMeaning(peers, DEFAULT_THRESHOLD, EMPTY_ROOT);
    GateIs(peers, DEFAULT_THRESHOLD);
  }

  lemma DefaultIsKept()
    ensures EffectiveThreshold(DEFAULT_THRESHOLD) == DEFAULT_THRESHOLD
  {
  }

  lemma TwoOfThreeLead(peers: seq<Peer>, d: Digest)
    requires |peers| == 3 && d in Roots(peers) && |Bucket(peers, d)| == 2
    ensures Leads(peers, d)
  {
    hide Bucket, Roots;
    forall e | e in Roots(peers) && e != d ensures |Bucket(peers, e)| < |Bucket(peers, d)| {
      BucketsAreDisjoint(peers, d, e);
    }
  }

  lemma EmptyHasNoLeaves(peers: seq<Peer>)
    requires |peers| == 3 && peers[0].attestation == Attest(None, true)
    ensures Loci(peers, EMPTY_ROOT) == []
  {
    assert Members([]) == {};
  }
}
