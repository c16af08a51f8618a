/** The reconciliation report and what its status amounts to (speculative_reconcile.go). */
module Faithfulness {
  import opened Sorting
  import opened Text
  import opened Causal
  import opened Leaves
  import opened Merkle
  import opened Dyad
  import opened Ratios
  import opened Reconcile

  function ValidPeers(peers: seq<PeerGraph>): seq<PeerGraph> {
    if peers == [] then []
    else
      var rest, p := ValidPeers(peers[..|peers| - 1]), peers[|peers| - 1];
      if NodesOf(p.graph) != [] then rest + [p] else rest
  }

  function Analyses(nodes: seq<CausalNode>, peers: seq<PeerGraph>, tolerance: real): (r: seq<NodeReconciliation>)
    ensures |r| == |nodes|
  {
    if nodes == [] then []
    else Analyses(nodes[..|nodes| - 1], peers, tolerance) + [Analysis(nodes[|nodes| - 1], peers, tolerance)]
  }

  datatype Sums = Sums(support: real, drift: real, driftCount: nat, unsupported: seq<string>, fabricated: bool)

  const NO_SUMS := Sums(0.0, 0.0, 0, [], false)

  function Added(s: Sums, nr: NodeReconciliation, fabricatedSupport: real): Sums {
    Sums(s.support + nr.peerSupport,
         if nr.peerSupport > 0.0 then s.drift + nr.weightDelta else s.drift,
         if nr.peerSupport > 0.0 then s.driftCount + 1 else s.driftCount,
         if nr.peerSupport < fabricatedSupport then s.unsupported + [nr.nodeId] else s.unsupported,
         s.fabricated || (nr.peerSupport < fabricatedSupport && nr.roleAgreement == 0.0))
  }

  function Summed(reports: seq<NodeReconciliation>, fabricatedSupport: real): Sums {
    if reports == [] then NO_SUMS
    else Added(Summed(reports[..|reports| - 1], fabricatedSupport), reports[|reports| - 1], fabricatedSupport)
  }

  predicate HasUnsupported(reports: seq<NodeReconciliation>, floor: real) {
    exists r :: r in reports && r.peerSupport < floor
  }

  function StatusOf(fabricated: bool, support: real, coverage: real, drift: real, unsupported: bool, cfg: Config): ReconciliationStatus {
    if fabricated then Fabricated
    else if support >= cfg.faithfulSupport && coverage >= cfg.faithfulCoverage && drift <= cfg.driftThreshold && !unsupported then Faithful
    else Drifted
  }

  const REFUSED := ReconciliationReport(Fabricated, 0.0, 0.0, 0.0, [], [], [])

  function Reconciliation(meta: Option<CausalGraph>, peers: seq<PeerGraph>, cfg: Config): ReconciliationReport {
    var c, valid, nodes := WithDefaults(cfg), ValidPeers(peers), NodesOf(meta);
    if nodes == [] || valid == [] then REFUSED
    else
      var reports := Analyses(nodes, valid, c.weightTolerance);
      var s := Summed(reports, c.fabricatedSupport);
      var support, drift := Mean(s.support, |nodes|), Mean(s.drift, s.driftCount);
      var coverage := CoverageScore(nodes, AllNodes(valid), c.weightTolerance);
      ReconciliationReport(
        StatusOf(s.fabricated, support, coverage, drift, HasUnsupported(reports, c.metaNodeMinSupport), c),
        support, coverage, drift, reports, s.unsupported, UncoveredIds(nodes, AllNodes(valid), c.weightTolerance))
  }

  method KeepValid(peers: seq<PeerGraph>) returns (valid: seq<PeerGraph>)
    ensures valid == ValidPeers(peers)
  {
    valid := [];
    for i := 0 to |peers|
      invariant valid == ValidPeers(peers[..i])
    {
      assert peers[..i + 1][..i] == peers[..i];
      if peers[i].graph.Some? && |peers[i].graph.value.nodes| > 0 {
        valid := valid + [peers[i]];
      }
    }
    assert peers[..|peers|] == peers;
  }

  method AnyUnsupported(reports: seq<NodeReconciliation>, floor: real) returns (b: bool)
    ensures b <==> HasUnsupported(reports, floor)
  {
    for i := 0 to |reports|
      invariant forall k :: 0 <= k < i ==> reports[k].peerSupport >= floor
    {
      if reports[i].peerSupport < floor {
        return true;
      }
    }
    b := false;
  }

  /** The pass over the meta's nodes: a report each, and the running sums. */
  method AnalyzeNodes(nodes: seq<CausalNode>, valid: seq<PeerGraph>, c: Config) returns (reports: seq<NodeReconciliation>, s: Sums)
    ensures reports == Analyses(nodes, valid, c.weightTolerance) && s == Summed(reports, c.fabricatedSupport)
  {
    hide Analysis, Analyses, Summed;
    NoRows(valid, c);
    var supportSum, driftSum, driftCount := 0.0, 0.0, 0;
    var unsupported: seq<string>, fabricated := [], false;
    reports := [];
    for i := 0 to |nodes|
      invariant reports == Analyses(nodes[..i], valid, c.weightTolerance)
      invariant Sums(supportSum, driftSum, driftCount, unsupported, fabricated) == Summed(reports, c.fabricatedSupport)
    {
      var nr := AnalyzeMetaNode(nodes[i], valid, c.weightTolerance);
      OneMoreRow(nodes, i, valid, c);
      OneMoreSummed(reports, nr, c.fabricatedSupport);
      reports := reports + [nr];
      supportSum := supportSum + nr.peerSupport;
      if nr.peerSupport > 0.0 {
        driftSum := driftSum + nr.weightDelta;
        driftCount := driftCount + 1;
      }
      if nr.peerSupport < c.fabricatedSupport {
        unsupported := unsupported + [nr.nodeId];
        if nr.roleAgreement == 0.0 {
          fabricated := true;
        }
      }
    }
    assert nodes[..|nodes|] == nodes;
    s := Sums(supportSum, driftSum, driftCount, unsupported, fabricated);
  }

  lemma NoRows(valid: seq<PeerGraph>, c: Config)
    ensures Analyses([], valid, c.weightTolerance) == [] && Summed([], c.fabricatedSupport) == NO_SUMS
  {
  }

  lemma OneMoreRow(nodes: seq<CausalNode>, i: nat, valid: seq<PeerGraph>, c: Config)
    requires i < |nodes|
    ensures Analyses(nodes[..i + 1], valid, c.weightTolerance)
         == Analyses(nodes[..i], valid, c.weightTolerance) + [Analysis(nodes[i], valid, c.weightTolerance)]
  {
    hide Analysis;
    assert nodes[..i + 1][..i] == nodes[..i];
  }

  lemma OneMoreSummed(reports: seq<NodeReconciliation>, nr: NodeReconciliation, fabricatedSupport: real)
    ensures Summed(reports + [nr], fabricatedSupport) == Added(Summed(reports, fabricatedSupport), nr, fabricatedSupport)
  {
    hide Added;
    assert (reports + [nr])[..|reports|] == reports;
  }

  method MetaReconcileWithConfig(meta: Option<CausalGraph>, peers: seq<PeerGraph>, cfg: Config) returns (report: ReconciliationReport)
    ensures report == Reconciliation(meta, peers, cfg)
  {
    hide Analyses, Summed, ValidPeers, CoverageScore, UncoveredIds, AllNodes, HasUnsupported, WithDefaults, Mean;
    var c := WithDefaults(cfg);
    if meta == None || |meta.value.nodes| == 0 {
      return REFUSED;
    }
    var valid := KeepValid(peers);
    if |valid| == 0 {
      return REFUSED;
    }
    var nodes := meta.value.nodes;
    var reports, s := AnalyzeNodes(nodes, valid, c);
    MeanIs(s.support, |nodes|);
    MeanIs(s.drift, s.driftCount);
    var support := s.support / |nodes| as real;
    var drift := 0.0;
    if s.driftCount > 0 {
      drift := s.drift / s.driftCount as real;
    }
    var coverage, uncovered := ComputeCoverage(meta.value, valid, c.weightTolerance);
    var unsupported := AnyUnsupported(reports, c.metaNodeMinSupport);
    var status := Drifted;
    if s.fabricated {
      status := Fabricated;
    } else if support >= c.faithfulSupport && coverage >= c.faithfulCoverage && drift <= c.driftThreshold && !unsupported {
      status := Faithful;
    }
    report := ReconciliationReport(status, support, coverage, drift, reports, s.unsupported, uncovered);
  }

  /** Whether the lattice may use the meta verdict. */
  predicate IsAcceptable(r: ReconciliationReport) {
    r.status == Faithful || r.status == Drifted
  }

  // ---- a match has the same role ----

  /** A node the meta node may be a summary of. */
  predicate Counterpart(n: CausalNode, m: CausalNode, tolerance: real) {
    CanonicalLeaf(n) == CanonicalLeaf(m) || Relaxed(n, m, tolerance)
  }

  lemma {:induction false} RelaxedMatchMeaning(nodes: seq<CausalNode>, m: CausalNode, tolerance: real)
    ensures var r := RelaxedMatch(nodes, m, tolerance);
      && (r.Some? <==> exists n :: n in nodes && Relaxed(n, m, tolerance))
      && (r.Some? ==> r.value in nodes && Relaxed(r.value, m, tolerance))
  {
    hide Relaxed;
    if nodes != [] {
      RelaxedMatchMeaning(nodes[1..], m, tolerance);
      assert nodes == [nodes[0]] + nodes[1..];
    }
  }

  lemma CompatibleMeaning(nodes: seq<CausalNode>, m: CausalNode, tolerance: real)
    ensures var r := Compatible(nodes, m, CanonicalLeaf(m), tolerance);
      && (r.Some? <==> exists n :: n in nodes && Counterpart(n, m, tolerance))
      && (r.Some? ==> r.value in nodes && Counterpart(r.value, m, tolerance))
  {
    hide CanonicalLeaf, Relaxed;
    FoundInNodes(nodes, CanonicalLeaf(m));
    RelaxedMatchMeaning(nodes, m, tolerance);
  }

  /** How far apart the weights of a match can be: equal leaves hide up to a millionth. */
  function Nearness(tolerance: real): (r: real)
    ensures r >= tolerance && r >= 0.000001
  {
    if tolerance >= 0.000001 then tolerance else 0.000001
  }

  /** Every counterpart, by leaf or relaxed, has the node's role and a close weight. */
  lemma CounterpartAgrees(n: CausalNode, m: CausalNode, tolerance: real)
    requires NulFree(n) && NulFree(m) && Counterpart(n, m, tolerance)
    ensures n.role == m.role && Abs(n.weight - m.weight) <= Nearness(tolerance)
    ensures CanonicalLeaf(n) == CanonicalLeaf(m) ==> Abs(n.weight - m.weight) <= 0.000001
  {
    LeafMeaning(n, m);
    SameWeightText(n.weight, m.weight);
    hide CanonicalLeaf, Micro, WeightText, Normalized, Listed;
  }

  ghost predicate AllPeersNulFree(peers: seq<PeerGraph>) {
    forall p :: p in peers ==> AllNulFree(NodesOf(p.graph))
  }

  lemma {:induction false} NoMatchMeaning(peers: seq<PeerGraph>, m: CausalNode, tolerance: real)
    ensures Matches(peers, m, tolerance) == [] <==> Unfounded(m, peers, tolerance)
    decreases |peers|
  {
    hide Compatible, CanonicalLeaf, Counterpart;
    if peers != [] {
      var front, p := peers[..|peers| - 1], peers[|peers| - 1];
      assert peers == front + [p];
      NoMatchMeaning(front, m, tolerance);
      CompatibleMeaning(NodesOf(p.graph), m, tolerance);
    }
  }

  lemma PeerNodeIsFree(peers: seq<PeerGraph>, p: PeerGraph, n: CausalNode)
    requires AllPeersNulFree(peers) && p in peers && n in NodesOf(p.graph)
    ensures NulFree(n)
  {
    hide NulFree;
  }

  /** So far every match has the role, and the gaps stay within what a match allows. */
  ghost predicate Agreeing(ms: seq<Match>, m: CausalNode, tolerance: real) {
    RoleHits(ms, m.role) == |ms| && WeightGap(ms, m.weight) <= Times(|ms|, Nearness(tolerance))
  }

  lemma NextAgrees(ms: seq<Match>, found: Match, m: CausalNode, tolerance: real)
    requires Agreeing(ms, m, tolerance) && NulFree(found.node) && NulFree(m) && Counterpart(found.node, m, tolerance)
    ensures Agreeing(ms + [found], m, tolerance)
  {
    hide NulFree, Counterpart, Times, Abs, RoleHits, WeightGap, Nearness;
    CounterpartAgrees(found.node, m, tolerance);
    MatchTallies(ms, found, m.role, m.weight);
    TimesStep(|ms|, Nearness(tolerance));
  }

  lemma {:induction false} MatchesAgree(peers: seq<PeerGraph>, m: CausalNode, tolerance: real)
    requires AllPeersNulFree(peers) && NulFree(m)
    ensures Agreeing(Matches(peers, m, tolerance), m, tolerance)
    decreases |peers|
  {
    hide Compatible, CanonicalLeaf, NulFree, Counterpart, Agreeing, Matches;
    if peers == [] {
      NoneAgree(m, tolerance);
    } else {
      var front, p := peers[..|peers| - 1], peers[|peers| - 1];
      assert peers == front + [p];
      assert AllPeersNulFree(front) by {
        assert forall q :: q in front ==> q in peers;
      }
      MatchesAgree(front, m, tolerance);
      OneMoreMatch(peers, |peers| - 1, m, tolerance);
      assert peers[..|peers|] == peers && p in peers;
      CompatibleMeaning(NodesOf(p.graph), m, tolerance);
      var found := Compatible(NodesOf(p.graph), m, CanonicalLeaf(m), tolerance);
      if found.Some? {
        PeerNodeIsFree(peers, p, found.value);
        NextAgrees(Matches(front, m, tolerance), Match(p.agentId, found.value), m, tolerance);
      }
    }
  }

  lemma NoneAgree(m: CausalNode, tolerance: real)
    ensures Agreeing(Matches([], m, tolerance), m, tolerance)
  {
    hide Times, Nearness;
    TimesStep(0, Nearness(tolerance));
  }

  /** One row of the report: support is positive exactly when some peer node corresponds, and
      then the roles agree entirely. */
  lemma AnalysisMeaning(m: CausalNode, peers: seq<PeerGraph>, tolerance: real)
    requires AllPeersNulFree(peers) && NulFree(m) && peers != []
    ensures RowIs(Analysis(m, peers, tolerance), m, peers, tolerance)
  {
    hide Matches, RoleHits, WeightGap, Mean, Unfounded, NulFree, Sort, Agents, AllPeersNulFree, Times;
    NoMatchMeaning(peers, m, tolerance);
    MatchesAgree(peers, m, tolerance);
    var ms := Matches(peers, m, tolerance);
    TimesStep(|peers|, Nearness(tolerance));
    MeanBounds(|ms| as real, |peers|, 1.0);
    MeanBounds(WeightGap(ms, m.weight), |ms|, Nearness(tolerance));
    SpecialMeans(|peers|);
    SpecialMeans(|ms|);
    if ms != [] {
      PositiveMean(|ms| as real, |peers|);
    }
  }

  /** What a row of the report says. */
  ghost predicate RowIs(r: NodeReconciliation, m: CausalNode, peers: seq<PeerGraph>, tolerance: real) {
    && 0.0 <= r.peerSupport <= 1.0 && 0.0 <= r.weightDelta <= Nearness(tolerance)
    && (r.peerSupport > 0.0 <==> !Unfounded(m, peers, tolerance))
    && (r.peerSupport > 0.0 ==> r.roleAgreement == 1.0)
    && (r.peerSupport == 0.0 ==> r.roleAgreement == 0.0)
  }

  // ---- the sums ----

  lemma {:induction false} AnalysesAre(nodes: seq<CausalNode>, peers: seq<PeerGraph>, tolerance: real, i: nat)
    requires i < |nodes|
    ensures Analyses(nodes, peers, tolerance)[i] == Analysis(nodes[i], peers, tolerance)
    decreases |nodes|
  {
    hide Analysis;
    if i < |nodes| - 1 {
      AnalysesAre(nodes[..|nodes| - 1], peers, tolerance, i);
    }
  }

  ghost predicate InRange(r: NodeReconciliation, tolerance: real) {
    0.0 <= r.peerSupport <= 1.0 && 0.0 <= r.weightDelta <= tolerance
  }

  lemma {:induction false} SumsInRange(reports: seq<NodeReconciliation>, fabricatedSupport: real, tolerance: real)
    requires forall r :: r in reports ==> InRange(r, tolerance)
    ensures var s := Summed(reports, fabricatedSupport);
      0.0 <= s.support <= Times(|reports|, 1.0) && 0.0 <= s.drift <= Times(s.driftCount, tolerance)
  {
    hide Times;
    TimesStep(0, tolerance);
    TimesStep(0, 1.0);
    if reports != [] {
      var front, last := reports[..|reports| - 1], reports[|reports| - 1];
      assert reports == front + [last] && last in reports;
      SumsInRange(front, fabricatedSupport, tolerance);
      TimesStep(Summed(front, fabricatedSupport).driftCount, tolerance);
      TimesStep(|front|, 1.0);
    }
  }

  lemma {:induction false} FabricatedFlag(reports: seq<NodeReconciliation>, fabricatedSupport: real)
    ensures var s := Summed(reports, fabricatedSupport);
      && (s.fabricated <==> exists r :: r in reports && r.peerSupport < fabricatedSupport && r.roleAgreement == 0.0)
      && (s.unsupported == [] <==> forall r :: r in reports ==> r.peerSupport >= fabricatedSupport)
  {
    if reports != [] {
      var front, last := reports[..|reports| - 1], reports[|reports| - 1];
      assert reports == front + [last];
      FabricatedFlag(front, fabricatedSupport);
    }
  }

  lemma {:induction false} ValidPeersAre(peers: seq<PeerGraph>, p: PeerGraph)
    ensures p in ValidPeers(peers) <==> p in peers && NodesOf(p.graph) != []
  {
    if peers != [] {
      ValidPeersAre(peers[..|peers| - 1], p);
      assert peers == peers[..|peers| - 1] + [peers[|peers| - 1]];
    }
  }

  /** Inputs on which a leaf determines the role. */
  ghost predicate Clean(meta: Option<CausalGraph>, peers: seq<PeerGraph>) {
    AllNulFree(NodesOf(meta)) && AllPeersNulFree(peers)
  }

  lemma ValidAreClean(meta: Option<CausalGraph>, peers: seq<PeerGraph>)
    requires Clean(meta, peers)
    ensures AllPeersNulFree(ValidPeers(peers))
  {
    hide AllNulFree;
    forall p | p in ValidPeers(peers) ensures AllNulFree(NodesOf(p.graph)) {
      ValidPeersAre(peers, p);
    }
  }

  lemma RowsMeaning(nodes: seq<CausalNode>, valid: seq<PeerGraph>, tolerance: real)
    requires AllNulFree(nodes) && AllPeersNulFree(valid) && valid != []
    ensures var reports := Analyses(nodes, valid, tolerance);
      && (forall i :: 0 <= i < |nodes| ==> RowIs(reports[i], nodes[i], valid, tolerance))
      && (forall r :: r in reports ==> InRange(r, Nearness(tolerance)))
  {
    hide Analysis, Analyses, NulFree, AllPeersNulFree, Unfounded;
    var reports := Analyses(nodes, valid, tolerance);
    forall i | 0 <= i < |nodes| ensures RowIs(reports[i], nodes[i], valid, tolerance) {
      AnalysesAre(nodes, valid, tolerance, i);
      AnalysisMeaning(nodes[i], valid, tolerance);
    }
  }

  /** No node of any of the peers corresponds to it. */
  ghost predicate Unfounded(m: CausalNode, peers: seq<PeerGraph>, tolerance: real) {
    forall p, n :: p in peers && n in NodesOf(p.graph) ==> !Counterpart(n, m, tolerance)
  }

  /** Nothing to compare, or a meta node without a counterpart in any non-empty peer. */
  ghost predicate Groundless(meta: Option<CausalGraph>, peers: seq<PeerGraph>, tolerance: real) {
    || NodesOf(meta) == []
    || ValidPeers(peers) == []
    || exists m :: m in NodesOf(meta) && Unfounded(m, ValidPeers(peers), tolerance)
  }

  /** The verdict "fabricated", structurally. The role-agreement test and the support threshold
      never decide anything, as long as the threshold is positive. */
  lemma FabricatedExactly(meta: Option<CausalGraph>, peers: seq<PeerGraph>, cfg: Config)
    requires Clean(meta, peers) && WithDefaults(cfg).fabricatedSupport > 0.0
    ensures Reconciliation(meta, peers, cfg).status == Fabricated <==> Groundless(meta, peers, WithDefaults(cfg).weightTolerance)
  {
    hide Summed, ValidPeers, Analyses, CoverageScore, UncoveredIds, HasUnsupported, Mean, Unfounded, AllNulFree, AllPeersNulFree, InRange, RowIs, WithDefaults;
    var c, valid, nodes := WithDefaults(cfg), ValidPeers(peers), NodesOf(meta);
    if nodes != [] && valid != [] {
      ValidAreClean(meta, peers);
      RowsMeaning(nodes, valid, c.weightTolerance);
      var reports := Analyses(nodes, valid, c.weightTolerance);
      FabricatedFlag(reports, c.fabricatedSupport);
      FabricatedRow(nodes, reports, valid, c);
    }
  }

  lemma FabricatedRow(nodes: seq<CausalNode>, reports: seq<NodeReconciliation>, valid: seq<PeerGraph>, c: Config)
    requires |reports| == |nodes| && c.fabricatedSupport > 0.0
    requires forall i :: 0 <= i < |nodes| ==> RowIs(reports[i], nodes[i], valid, c.weightTolerance)
    ensures (exists r :: r in reports && r.peerSupport < c.fabricatedSupport && r.roleAgreement == 0.0)
      <==> exists m :: m in nodes && Unfounded(m, valid, c.weightTolerance)
  {
    hide Unfounded;
    if r :| r in reports && r.peerSupport < c.fabricatedSupport && r.roleAgreement == 0.0 {
      var i :| 0 <= i < |reports| && reports[i] == r;
      assert Unfounded(nodes[i], valid, c.weightTolerance);
    }
    if m :| m in nodes && Unfounded(m, valid, c.weightTolerance) {
      var i :| 0 <= i < |nodes| && nodes[i] == m;
      assert reports[i] in reports;
    }
  }

  /** Scores are fractions, and the mean drift never exceeds what a match allows. */
  lemma ScoresInRange(meta: Option<CausalGraph>, peers: seq<PeerGraph>, cfg: Config)
    requires Clean(meta, peers)
    ensures var r := Reconciliation(meta, peers, cfg);
      && 0.0 <= r.supportScore <= 1.0 && 0.0 <= r.coverageScore <= 1.0
      && 0.0 <= r.driftScore <= Nearness(WithDefaults(cfg).weightTolerance)
  {
    hide Summed, ValidPeers, Analyses, UncoveredIds, HasUnsupported, Mean, AllNulFree, AllPeersNulFree, InRange, RowIs, WithDefaults, CoverageScore, Times, StatusOf, Nearness;
    var c, valid, nodes := WithDefaults(cfg), ValidPeers(peers), NodesOf(meta);
    if nodes != [] && valid != [] {
      ValidAreClean(meta, peers);
      RowsMeaning(nodes, valid, c.weightTolerance);
      var reports := Analyses(nodes, valid, c.weightTolerance);
      SumsInRange(reports, c.fabricatedSupport, Nearness(c.weightTolerance));
      var s := Summed(reports, c.fabricatedSupport);
      MeanBounds(s.support, |nodes|, 1.0);
      MeanBounds(s.drift, s.driftCount, Nearness(c.weightTolerance));
      CoverageInRange(nodes, AllNodes(valid), c.weightTolerance);
    }
  }

  lemma CoverageInRange(meta: seq<CausalNode>, nodes: seq<CausalNode>, tolerance: real)
    ensures 0.0 <= CoverageScore(meta, nodes, tolerance) <= 1.0
  {
    hide Covers, Mean, Times;
    var c, l := CoveredLeaves(meta, nodes, tolerance), LeavesIn(nodes);
    Fewer(c, l);
    TimesStep(|l|, 1.0);
    MeanBounds(|c| as real, |l|, 1.0);
  }

  lemma Fewer(c: set<Digest>, l: set<Digest>)
    requires c <= l
    ensures |c| <= |l|
  {
    assert l == c + (l - c);
  }

  lemma StatusIs(meta: Option<CausalGraph>, peers: seq<PeerGraph>, cfg: Config)
    ensures var r, c := Reconciliation(meta, peers, cfg), WithDefaults(cfg);
      r.status == Drifted ==>
        || r.supportScore < c.faithfulSupport || r.coverageScore < c.faithfulCoverage
        || r.driftScore > c.driftThreshold || HasUnsupported(r.nodeReports, c.metaNodeMinSupport)
  {
    hide Summed, ValidPeers, Analyses, UncoveredIds, HasUnsupported, Mean, CoverageScore, WithDefaults;
  }

  /** With the default thresholds weight drift is never the reason for a warning. */
  lemma DriftNeverFires(meta: Option<CausalGraph>, peers: seq<PeerGraph>)
    requires Clean(meta, peers)
    ensures var r := Reconciliation(meta, peers, UNSET_CONFIG);
      r.status == Drifted ==> r.supportScore < 0.66 || r.coverageScore < 0.50 || HasUnsupported(r.nodeReports, 0.34)
  {
    hide Reconciliation, HasUnsupported, Clean;
    ScoresInRange(meta, peers, UNSET_CONFIG);
    StatusIs(meta, peers, UNSET_CONFIG);
  }
}
