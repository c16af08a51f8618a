/** End to end: what the bundle says of a cohort that agrees (speculative_bundle.go). */
module Unanimity {
  import opened Sorting
  import opened Text
  import opened Causal
  import opened Leaves
  import opened Merkle
  import opened Ratios
  import opened Converge
  import opened Divergence
  import opened Dyad
  import opened DyadRoundTrip
  import opened DyadPairs
  import opened Reconcile
  import opened Faithfulness
  import opened Bundle

  const MICRO := 0.000001

  // ---- one root, one leaf set ----

  lemma LeavesInIs(nodes: seq<CausalNode>)
    ensures LeavesIn(nodes) == LeafSet(nodes)
  {
    hide CanonicalLeaf, LeafSet;
    forall d ensures d in LeavesIn(nodes) <==> d in LeafSet(nodes) {
      LeafSetHas(nodes, d);
    }
  }

  lemma SameRootSameLeaves(a: LabeledVerdict, b: LabeledVerdict)
    requires AttestOf(a).root == AttestOf(b).root
    ensures LeafSet(NodesOf(a.views.graph)) == LeafSet(NodesOf(b.views.graph))
    ensures NodesOf(a.views.graph) == [] <==> NodesOf(b.views.graph) == []
  {
    var g, h := NodesOf(a.views.graph), NodesOf(b.views.graph);
    GraphRoot(a.views.graph);
    GraphRoot(b.views.graph);
    EmptyIsDistinguished(a.views.graph, true);
    EmptyIsDistinguished(b.views.graph, true);
    CanonicalLeavesAreNodeLeaves(g);
    CanonicalLeavesAreNodeLeaves(h);
    hide Attest, SortedLeaves, NodeLeaves, Root, CanonicalLeaf, DigestLE;
    RootDeterminesLeafSet(SortedLeaves(g), SortedLeaves(h));
  }

  lemma GraphRoot(graph: Option<CausalGraph>)
    ensures Attest(graph, true).root == Root(SortedLeaves(NodesOf(graph)))
  {
    if NodesOf(graph) == [] {
      assert SortedLeaves([]) == [];
      EmptyRootIs();
    }
  }

  // ---- convergence ----

  ghost predicate OneRoot(peers: seq<Peer>, root: Digest) {
    forall p :: p in peers ==> p.attestation.root == root
  }

  lemma {:induction false} WholeBucket(peers: seq<Peer>, root: Digest)
    requires OneRoot(peers, root)
    ensures |Bucket(peers, root)| == |peers|
  {
    if peers != [] {
      assert peers[|peers| - 1] in peers;
      WholeBucket(peers[..|peers| - 1], root);
    }
  }

  lemma NothingDisputed(peers: seq<Peer>, root: Digest)
    requires OneRoot(peers, root)
    ensures Loci(peers, root) == []
  {
    var consensus := ConsensusLeaves(peers, root);
    if consensus != {} {
      assert Disputed(peers, root, consensus) == {};
      assert DisputedList(peers, root, consensus) == [];
    }
  }

  lemma UnanimousConverges(peers: seq<Peer>, root: Digest)
    requires peers != [] && OneRoot(peers, root)
    ensures var c := Convergence(peers, DEFAULT_THRESHOLD);
      c.status == Converged && c.consensusRoot == Some(root) && c.loci == []
  {
    assert peers[0] in peers && root in Roots(peers);
    assert Roots(peers) == {root};
    WholeBucket(peers, root);
    assert Leads(peers, root);
    assert EffectiveThreshold(DEFAULT_THRESHOLD) == DEFAULT_THRESHOLD;
    hide Bucket, Roots, Loci, Leads, Convergence, EffectiveThreshold;
    GateMeaning(peers, DEFAULT_THRESHOLD, root);
    GateIs(peers, DEFAULT_THRESHOLD);
    NothingDisputed(peers, root);
  }

  // ---- compression ----

  ghost predicate SameLeaves(verdicts: seq<LabeledVerdict>, leaves: set<Digest>) {
    forall v :: v in verdicts ==> LeafSet(NodesOf(v.views.graph)) == leaves
  }

  lemma NoDelta(a: LabeledVerdict, b: LabeledVerdict)
    requires LeafSet(NodesOf(a.views.graph)) == LeafSet(NodesOf(b.views.graph))
    ensures DeltaOf(a, b) == None
  {
    hide DeltaOf, LeafSet, NodeForLeaf, TheOnly;
    DeltaShape(a, b);
  }

  lemma {:induction false} NothingPairs(work: seq<LabeledVerdict>, leaves: set<Digest>)
    requires SameLeaves(work, leaves)
    ensures |Pairing(work)| == |work| && Related(Pairing(work)) && Deltas(Pairing(work)) == []
    decreases |work|
  {
    hide DeltaOf, LeafSet, FirstPartner, Pairing, Deltas, Related;
    if work == [] {
      assert Pairing([]) == [] by {
        NoSlots();
      }
      NoSlots();
    } else {
      assert work[0] in work;
      forall k | 0 <= k < |work[1..]| ensures DeltaOf(work[0], work[1..][k]) == None {
        assert work[1..][k] in work;
        NoDelta(work[0], work[1..][k]);
      }
      FirstPartnerIs(work[0], work[1..], |work[1..]|);
      NothingPairs(work[1..], leaves);
      PairingUnfolds(work);
      SlotUnfolds(Pairing(work));
    }
  }

  lemma UnanimousKeepsSlots(verdicts: seq<LabeledVerdict>, leaves: set<Digest>)
    requires SameLeaves(verdicts, leaves)
    ensures var r := Report(verdicts); r.deltas == [] && r.slotsAfter == r.slotsBefore == |verdicts|
  {
    var work := Sort(verdicts, ByVerdictId);
    forall v | v in work ensures LeafSet(NodesOf(v.views.graph)) == leaves {
      SortKeepsMember(verdicts, ByVerdictId, v);
    }
    hide LeafSet, Pairing, Deltas, Related, UnpairedIds, ByVerdictId;
    NothingPairs(work, leaves);
  }

  // ---- reconciliation ----

  ghost predicate PeersHave(peers: seq<PeerGraph>, leaves: set<Digest>) {
    forall p :: p in peers ==> LeavesIn(NodesOf(p.graph)) == leaves
  }

  /** When every peer has the very leaf, the tolerance plays no part. */
  lemma {:induction false} ExactMatches(peers: seq<PeerGraph>, m: CausalNode, tolerance: real, leaves: set<Digest>)
    requires PeersHave(peers, leaves) && CanonicalLeaf(m) in leaves
    ensures |Matches(peers, m, tolerance)| == |peers| && Matches(peers, m, tolerance) == Matches(peers, m, MICRO)
    decreases |peers|
  {
    hide CanonicalLeaf, LeavesIn, NodeForLeaf, RelaxedMatch;
    if peers != [] {
      var front, p := peers[..|peers| - 1], peers[|peers| - 1];
      assert p in peers;
      ExactMatches(front, m, tolerance, leaves);
      FoundInNodes(NodesOf(p.graph), CanonicalLeaf(m));
    }
  }

  /** Full support, full role agreement, drift below a millionth. */
  ghost predicate FullRow(r: NodeReconciliation) {
    r.peerSupport == 1.0 && r.roleAgreement == 1.0 && 0.0 <= r.weightDelta <= MICRO
  }

  lemma UnanimousRow(m: CausalNode, peers: seq<PeerGraph>, tolerance: real, leaves: set<Digest>)
    requires peers != [] && PeersHave(peers, leaves) && CanonicalLeaf(m) in leaves
    requires AllPeersNulFree(peers) && NulFree(m)
    ensures FullRow(Analysis(m, peers, tolerance))
  {
    hide Matches, RoleHits, WeightGap, Mean, Times, Sort, Reconcile.Agents, AllPeersNulFree, NulFree, PeersHave, CanonicalLeaf;
    ExactMatches(peers, m, tolerance, leaves);
    MatchesAgree(peers, m, MICRO);
    var ms := Matches(peers, m, tolerance);
    MeanBounds(WeightGap(ms, m.weight), |ms|, MICRO);
    SpecialMeans(|ms|);
  }

  lemma {:induction false} FullRowsSum(reports: seq<NodeReconciliation>, fabricatedSupport: real)
    requires (forall r :: r in reports ==> FullRow(r)) && fabricatedSupport <= 1.0
    ensures var s := Summed(reports, fabricatedSupport);
      s.support == |reports| as real && s.driftCount == |reports| && s.unsupported == [] && !s.fabricated
  {
    if reports != [] {
      var front, last := reports[..|reports| - 1], reports[|reports| - 1];
      assert reports == front + [last] && last in reports;
      FullRowsSum(front, fabricatedSupport);
    }
  }

  lemma FullCoverage(meta: seq<CausalNode>, nodes: seq<CausalNode>, tolerance: real)
    requires LeavesIn(nodes) == LeavesIn(meta) != {}
    ensures CoverageScore(meta, nodes, tolerance) == 1.0 && UncoveredIds(meta, nodes, tolerance) == []
  {
    hide CanonicalLeaf, NodeForLeaf, RelaxedMatch, Mean, LeavesIn;
    forall l | l in LeavesIn(nodes) ensures Covers(meta, nodes, l, tolerance) {
      FoundInNodes(nodes, l);
      FoundInNodes(meta, l);
    }
    assert CoveredLeaves(meta, nodes, tolerance) == LeavesIn(nodes);
    SpecialMeans(|LeavesIn(nodes)|);
    assert LeafList({}) == [];
  }

  lemma {:induction false} AllNodesLeaves(peers: seq<PeerGraph>, leaves: set<Digest>)
    requires PeersHave(peers, leaves) && peers != []
    ensures LeavesIn(AllNodes(peers)) == leaves
    decreases |peers|
  {
    hide CanonicalLeaf;
    var front, p := peers[..|peers| - 1], peers[|peers| - 1];
    assert p in peers;
    LeavesOfConcat(AllNodes(front), NodesOf(p.graph));
    if front != [] {
      AllNodesLeaves(front, leaves);
    } else {
      assert AllNodes(front) == [];
    }
  }

  lemma LeavesOfConcat(a: seq<CausalNode>, b: seq<CausalNode>)
    ensures LeavesIn(a + b) == LeavesIn(a) + LeavesIn(b)
  {
    hide CanonicalLeaf;
    forall n ensures n in a + b <==> n in a || n in b {
    }
  }

  lemma {:induction false} AllValid(peers: seq<PeerGraph>)
    requires forall p :: p in peers ==> NodesOf(p.graph) != []
    ensures ValidPeers(peers) == peers
  {
    if peers != [] {
      assert peers[|peers| - 1] in peers;
      AllValid(peers[..|peers| - 1]);
      assert peers == peers[..|peers| - 1] + [peers[|peers| - 1]];
    }
  }

  lemma FullRows(nodes: seq<CausalNode>, peers: seq<PeerGraph>, tolerance: real)
    requires peers != [] && PeersHave(peers, LeavesIn(nodes)) && AllPeersNulFree(peers) && AllNulFree(nodes)
    ensures forall r :: r in Analyses(nodes, peers, tolerance) ==> FullRow(r)
  {
    hide Analyses, Analysis, AllPeersNulFree, NulFree, PeersHave, CanonicalLeaf;
    var reports := Analyses(nodes, peers, tolerance);
    forall r | r in reports ensures FullRow(r) {
      var i :| 0 <= i < |reports| && reports[i] == r;
      AnalysesAre(nodes, peers, tolerance, i);
      assert nodes[i] in nodes && CanonicalLeaf(nodes[i]) in LeavesIn(nodes);
      UnanimousRow(nodes[i], peers, tolerance, LeavesIn(nodes));
    }
  }

  lemma FullDrift(reports: seq<NodeReconciliation>, fabricatedSupport: real)
    requires forall r :: r in reports ==> FullRow(r)
    ensures var s := Summed(reports, fabricatedSupport); 0.0 <= Mean(s.drift, s.driftCount) <= MICRO
  {
    hide Summed, Times, Mean;
    SumsInRange(reports, fabricatedSupport, MICRO);
    MeanBounds(Summed(reports, fabricatedSupport).drift, Summed(reports, fabricatedSupport).driftCount, MICRO);
  }

  ghost predicate FullyFaithful(r: ReconciliationReport) {
    && r.status == Faithful && r.supportScore == 1.0 && r.coverageScore == 1.0 && 0.0 <= r.driftScore <= MICRO
    && r.unsupportedIds == [] && r.uncoveredIds == []
  }

  /** A meta graph with the leaves every peer has is faithful, with nothing missing. */
  lemma UnanimousIsFaithful(meta: Option<CausalGraph>, peers: seq<PeerGraph>)
    requires NodesOf(meta) != [] && peers != [] && Clean(meta, peers)
    requires PeersHave(peers, LeavesIn(NodesOf(meta))) && forall p :: p in peers ==> NodesOf(p.graph) != []
    ensures FullyFaithful(Reconciliation(meta, peers, UNSET_CONFIG))
  {
    var nodes, c := NodesOf(meta), WithDefaults(UNSET_CONFIG);
    AllValid(peers);
    assert CanonicalLeaf(nodes[0]) in LeavesIn(nodes);
    assert c == Config(0.66, 0.50, 0.30, 0.20, 0.34, 0.25);
    hide ValidPeers, Analyses, CoverageScore, UncoveredIds, Summed, Mean, LeavesIn, AllNodes, PeersHave, CanonicalLeaf, WithDefaults, AllNulFree, AllPeersNulFree;
    FullRows(nodes, peers, c.weightTolerance);
    var reports := Analyses(nodes, peers, c.weightTolerance);
    FullRowsSum(reports, c.fabricatedSupport);
    FullDrift(reports, c.fabricatedSupport);
    AllNodesLeaves(peers, LeavesIn(nodes));
    FullCoverage(nodes, AllNodes(peers), c.weightTolerance);
    SpecialMeans(|nodes|);
  }

  // ---- the bundle ----

  /** Every verdict and the meta have non-empty graphs and one shared root. */
  ghost predicate Unanimous(input: BuildInput, root: Digest) {
    && input.verdicts != [] && HasMeta(input)
    && AttestOf(input.meta.value).root == root && NodesOf(input.meta.value.views.graph) != []
    && forall v :: v in input.verdicts ==> AttestOf(v).root == root
  }

  lemma SharedLeaves(input: BuildInput, root: Digest)
    requires Unanimous(input, root)
    ensures var leaves := LeafSet(NodesOf(input.meta.value.views.graph));
      && SameLeaves(input.verdicts, leaves)
      && PeersHave(PeerGraphs(input.verdicts), LeavesIn(NodesOf(input.meta.value.views.graph)))
      && forall p :: p in PeerGraphs(input.verdicts) ==> NodesOf(p.graph) != []
  {
    hide AttestOf, LeafSet, LeavesIn;
    var m := input.meta.value;
    LeavesInIs(NodesOf(m.views.graph));
    forall v | v in input.verdicts
      ensures LeafSet(NodesOf(v.views.graph)) == LeafSet(NodesOf(m.views.graph)) && NodesOf(v.views.graph) != []
      ensures LeavesIn(NodesOf(v.views.graph)) == LeafSet(NodesOf(v.views.graph))
    {
      SameRootSameLeaves(v, m);
      LeavesInIs(NodesOf(v.views.graph));
    }
    forall p | p in PeerGraphs(input.verdicts) ensures exists v :: v in input.verdicts && p.graph == v.views.graph {
      var k :| 0 <= k < |PeerGraphs(input.verdicts)| && PeerGraphs(input.verdicts)[k] == p;
      assert input.verdicts[k] in input.verdicts;
    }
  }

  lemma AttestedOneRoot(verdicts: seq<LabeledVerdict>, root: Digest)
    requires forall v :: v in verdicts ==> AttestOf(v).root == root
    ensures OneRoot(Attested(verdicts), root)
  {
    hide AttestOf;
    forall p | p in Attested(verdicts) ensures p.attestation.root == root {
      var k :| 0 <= k < |verdicts| && Attested(verdicts)[k] == p;
      assert verdicts[k] in verdicts;
    }
  }

  /** The whole pipeline on a cohort in agreement with its meta: converged without loci,
      faithful with full support and coverage and drift below a millionth, every peer in the
      cohort, no delta stored, and the headline says so. */
  lemma AgreementIsReported(input: BuildInput, name: seq<Digest> -> string, root: Digest)
    requires Unanimous(input, root) && Clean(input.meta.value.views.graph, PeerGraphs(input.verdicts))
    ensures var b := Built(input, name).value;
      && b.convergence.status == Converged && b.convergence.consensusRoot == Some(root) && b.convergence.loci == []
      && b.reconciliation.Some? && FullyFaithful(b.reconciliation.value)
      && (forall i :: 0 <= i < |b.peers| ==> b.peers[i].inCohort)
      && b.dyads.deltas == [] && b.dyads.slotsAfter == b.dyads.slotsBefore
      && HeadlineStatus(Some(b)) == HeadConverged
  {
    hide AttestOf, Convergence, Reconciliation, Report, LeafSet, LeavesIn, Clean, Built, Attested, SameLeaves, PeersHave, OneRoot;
    BuiltParts(input, name);
    SharedLeaves(input, root);
    AttestedOneRoot(input.verdicts, root);
    UnanimousConverges(Attested(input.verdicts), root);
    UnanimousKeepsSlots(input.verdicts, LeafSet(NodesOf(input.meta.value.views.graph)));
    UnanimousIsFaithful(input.meta.value.views.graph, PeerGraphs(input.verdicts));
    var b := Built(input, name).value;
    forall i | 0 <= i < |b.peers| ensures b.peers[i].inCohort {
      FlagMeaning(input, name, i);
      assert input.verdicts[i] in input.verdicts;
    }
  }
}
