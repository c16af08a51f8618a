/** The speculative bundle: attest, converge, reconcile, compress (speculative_bundle.go). */
module Bundle {
  import opened Sorting
  import opened Text
  import opened Causal
  import opened Merkle
  import opened Converge
  import Divergence
  import opened Dyad
  import opened DyadRoundTrip
  import opened DyadPairs
  import opened Reconcile
  import opened Faithfulness

  datatype SpeculativePeer = SpeculativePeer(
    agentId: string, verdict: string, confidence: real, graph: Option<CausalGraph>, attestation: Attestation, inCohort: bool)

  datatype SpeculativeMeta = SpeculativeMeta(
    agentId: string, verdict: string, confidence: real, graph: Option<CausalGraph>, attestation: Attestation)

  datatype BuildInput = BuildInput(cohortId: string, verdicts: seq<LabeledVerdict>, meta: Option<LabeledVerdict>)

  datatype SpeculativeBundle = SpeculativeBundle(
    cohortId: string,
    peers: seq<SpeculativePeer>,
    meta: Option<SpeculativeMeta>,
    convergence: ConvergenceReport,
    reconciliation: Option<ReconciliationReport>,
    dyads: CompressionReport)

  datatype Headline = HeadUnknown | HeadDivergent | HeadPartial | HeadFabricated | HeadDrifted | HeadConverged

  // ---- the parts ----

  function PeerOf(v: LabeledVerdict): Peer {
    Peer(v.id, AttestOf(v))
  }

  function Attested(verdicts: seq<LabeledVerdict>): (r: seq<Peer>)
    ensures |r| == |verdicts| && forall i :: 0 <= i < |r| ==> r[i] == PeerOf(verdicts[i])
  {
    seq(|verdicts|, i requires 0 <= i < |verdicts| => PeerOf(verdicts[i]))
  }

  function Tile(v: LabeledVerdict, inCohort: bool): SpeculativePeer {
    SpeculativePeer(v.id, v.verdict, v.confidence, v.views.graph, AttestOf(v), inCohort)
  }

  function Tiles(verdicts: seq<LabeledVerdict>, cohort: set<string>): (r: seq<SpeculativePeer>)
    ensures |r| == |verdicts| && forall i :: 0 <= i < |r| ==> r[i] == Tile(verdicts[i], verdicts[i].id in cohort)
  {
    seq(|verdicts|, i requires 0 <= i < |verdicts| => Tile(verdicts[i], verdicts[i].id in cohort))
  }

  function PeerGraphs(verdicts: seq<LabeledVerdict>): (r: seq<PeerGraph>)
    ensures |r| == |verdicts| && forall i :: 0 <= i < |r| ==> r[i] == PeerGraph(verdicts[i].id, verdicts[i].views.graph)
  {
    seq(|verdicts|, i requires 0 <= i < |verdicts| => PeerGraph(verdicts[i].id, verdicts[i].views.graph))
  }

  function Agents(ids: seq<string>): set<string> {
    set id | id in ids
  }

  function SortedRoots(peers: seq<Peer>): seq<Digest> {
    Sort(Map((p: Peer) => p.attestation.root, peers), DigestLE)
  }

  /** The caller's name for the cohort, or one made from the sorted roots. */
  function CohortId(given: string, peers: seq<Peer>, name: seq<Digest> -> string): string {
    if Trim(given) != "" then Trim(given) else name(SortedRoots(peers))
  }

  function HasMeta(input: BuildInput): bool {
    input.meta.Some? && input.meta.value.views.graph.Some?
  }

  function Built(input: BuildInput, name: seq<Digest> -> string): Option<SpeculativeBundle> {
    if input.verdicts == [] then None
    else
      var peers := Attested(input.verdicts);
      var convergence := Convergence(peers, DEFAULT_THRESHOLD);
      Some(SpeculativeBundle(
        CohortId(input.cohortId, peers, name),
        Tiles(input.verdicts, Agents(ConsensusBucketAgents(convergence))),
        if HasMeta(input) then
          var m := input.meta.value; Some(SpeculativeMeta(m.id, m.verdict, m.confidence, m.views.graph, AttestOf(m)))
        else None,
        convergence,
        if HasMeta(input) then Some(Reconciliation(input.meta.value.views.graph, PeerGraphs(input.verdicts), UNSET_CONFIG)) else None,
        Report(input.verdicts)))
  }

  // ---- the program ----

  method AttestCohort(verdicts: seq<LabeledVerdict>) returns (peers: seq<SpeculativePeer>, attestations: seq<Peer>)
    ensures peers == Tiles(verdicts, {}) && attestations == Attested(verdicts)
  {
    hide Attest;
    peers, attestations := [], [];
    for i := 0 to |verdicts|
      invariant |peers| == |attestations| == i
      invariant forall k :: 0 <= k < i ==> peers[k] == Tile(verdicts[k], false) && attestations[k] == PeerOf(verdicts[k])
    {
      var lv := verdicts[i];
      var att := MerkleAttestWithConfig(lv.views.graph, true);
      var graph := CloneCausalGraph(lv.views.graph);
      peers := peers + [SpeculativePeer(lv.id, lv.verdict, lv.confidence, graph, att, false)];
      attestations := attestations + [Peer(lv.id, att)];
    }
  }

  method ReconcileMeta(input: BuildInput) returns (meta: Option<SpeculativeMeta>, reconciliation: Option<ReconciliationReport>)
    ensures HasMeta(input) ==>
      && reconciliation == Some(Reconciliation(input.meta.value.views.graph, PeerGraphs(input.verdicts), UNSET_CONFIG))
      && var m := input.meta.value; meta == Some(SpeculativeMeta(m.id, m.verdict, m.confidence, m.views.graph, AttestOf(m)))
    ensures !HasMeta(input) ==> meta == None && reconciliation == None
  {
    hide Attest, Reconciliation;
    meta, reconciliation := None, None;
    if input.meta.Some? && input.meta.value.views.graph.Some? {
      var m := input.meta.value;
      var att := MerkleAttestWithConfig(m.views.graph, true);
      var peerGraphs: seq<PeerGraph> := [];
      for i := 0 to |input.verdicts|
        invariant |peerGraphs| == i
        invariant forall k :: 0 <= k < i ==> peerGraphs[k] == PeerGraph(input.verdicts[k].id, input.verdicts[k].views.graph)
      {
        peerGraphs := peerGraphs + [PeerGraph(input.verdicts[i].id, input.verdicts[i].views.graph)];
      }
      assert peerGraphs == PeerGraphs(input.verdicts);
      var rep := MetaReconcileWithConfig(m.views.graph, peerGraphs, UNSET_CONFIG);
      var graph := CloneCausalGraph(m.views.graph);
      reconciliation := Some(rep);
      meta := Some(SpeculativeMeta(m.id, m.verdict, m.confidence, graph, att));
    }
  }

  /** Sets the membership flag of every tile in place. */
  method MarkCohort(verdicts: seq<LabeledVerdict>, tiles: seq<SpeculativePeer>, ids: seq<string>) returns (peers: seq<SpeculativePeer>)
    requires tiles == Tiles(verdicts, {})
    ensures peers == Tiles(verdicts, Agents(ids))
  {
    var consensus: set<string> := {};
    for i := 0 to |ids|
      invariant consensus == Agents(ids[..i])
    {
      consensus := consensus + {ids[i]};
    }
    assert ids[..|ids|] == ids;
    peers := tiles;
    for i := 0 to |peers|
      invariant |peers| == |verdicts|
      invariant forall k :: 0 <= k < |peers| ==> peers[k] == Tile(verdicts[k], k < i && verdicts[k].id in consensus)
    {
      peers := peers[i := peers[i].(inCohort := peers[i].agentId in consensus)];
    }
  }

  method DerivedCohortId(peers: seq<Peer>, name: seq<Digest> -> string) returns (id: string)
    ensures id == name(SortedRoots(peers))
  {
    var roots: seq<Digest> := [];
    for i := 0 to |peers|
      invariant roots == Map((p: Peer) => p.attestation.root, peers[..i])
    {
      roots := roots + [peers[i].attestation.root];
    }
    assert peers[..|peers|] == peers;
    id := name(Sort(roots, DigestLE));
  }

  method BuildSpeculativeBundle(input: BuildInput, name: seq<Digest> -> string) returns (b: Option<SpeculativeBundle>)
    ensures b == Built(input, name)
  {
    hide Attested, Tiles, Convergence, Reconciliation, Report, ConsensusBucketAgents, SortedRoots, Trim, HasMeta;
    if |input.verdicts| == 0 {
      return None;
    }
    var peers, attestations := AttestCohort(input.verdicts);
    var convergence := MerkleConvergeWithThreshold(attestations, DEFAULT_THRESHOLD);
    var meta, reconciliation := ReconcileMeta(input);
    var bases, dyads := DyadCompress(input.verdicts);
    peers := MarkCohort(input.verdicts, peers, ConsensusBucketAgents(convergence));
    var cohortId := Trim(input.cohortId);
    if cohortId == "" {
      cohortId := DerivedCohortId(attestations, name);
    }
    b := Some(SpeculativeBundle(cohortId, peers, meta, convergence, reconciliation, dyads));
  }

  function HeadlineStatus(b: Option<SpeculativeBundle>): Headline {
    if b == None then HeadUnknown
    else if b.value.convergence.status == Divergent then HeadDivergent
    else if b.value.convergence.status == Partial then HeadPartial
    else if b.value.reconciliation.Some? && !IsAcceptable(b.value.reconciliation.value) then
      match b.value.reconciliation.value.status
      case Fabricated => HeadFabricated
      case Drifted => HeadDrifted
      case Faithful => HeadConverged
    else HeadConverged
  }

  // ---- what the headline and the flags mean ----

  /** A drifted reconciliation is never announced: it is acceptable, so the branch that would
      say so is not reached, and the headline reads "converged". */
  lemma DriftIsNeverAnnounced(b: Option<SpeculativeBundle>)
    ensures HeadlineStatus(b) != HeadDrifted
    ensures b.Some? && b.value.convergence.status == Converged && b.value.reconciliation.Some? ==>
      HeadlineStatus(b) == if b.value.reconciliation.value.status == Fabricated then HeadFabricated else HeadConverged
  {
  }

  lemma {:induction false} BucketMembers(peers: seq<Peer>, root: Digest, id: string)
    ensures id in Bucket(peers, root) <==> exists p :: p in peers && p.agentId == id && p.attestation.root == root
  {
    if peers != [] {
      BucketMembers(peers[..|peers| - 1], root, id);
      assert peers == peers[..|peers| - 1] + [peers[|peers| - 1]];
    }
  }

  /** Some verdict of that name has the consensus root. */
  ghost predicate HoldsConsensus(verdicts: seq<LabeledVerdict>, c: ConvergenceReport, id: string) {
    c.consensusRoot.Some? && exists v :: v in verdicts && v.id == id && AttestOf(v).root == c.consensusRoot.value
  }

  lemma BuiltParts(input: BuildInput, name: seq<Digest> -> string)
    requires input.verdicts != []
    ensures Built(input, name).Some?
    ensures var b, c := Built(input, name).value, Convergence(Attested(input.verdicts), DEFAULT_THRESHOLD);
      && b.convergence == c
      && b.peers == Tiles(input.verdicts, Agents(ConsensusBucketAgents(c)))
      && b.dyads == Report(input.verdicts)
      && (b.reconciliation.Some? <==> HasMeta(input))
      && (HasMeta(input) ==>
            b.reconciliation == Some(Reconciliation(input.meta.value.views.graph, PeerGraphs(input.verdicts), UNSET_CONFIG)))
  {
    hide Attested, Tiles, Convergence, Reconciliation, Report, ConsensusBucketAgents, CohortId, HasMeta, AttestOf;
  }

  lemma AgentsOfRoot(verdicts: seq<LabeledVerdict>, root: Digest, id: string)
    ensures id in Bucket(Attested(verdicts), root) <==> exists v :: v in verdicts && v.id == id && AttestOf(v).root == root
  {
    hide AttestOf, Bucket;
    var peers := Attested(verdicts);
    BucketMembers(peers, root, id);
    if v :| v in verdicts && v.id == id && AttestOf(v).root == root {
      var k :| 0 <= k < |verdicts| && verdicts[k] == v;
      assert peers[k] in peers;
    }
    if p :| p in peers && p.agentId == id && p.attestation.root == root {
      var k :| 0 <= k < |peers| && peers[k] == p;
      assert verdicts[k] in verdicts;
    }
  }

  ghost predicate DistinctNames(verdicts: seq<LabeledVerdict>) {
    forall i, j :: 0 <= i < j < |verdicts| ==> verdicts[i].id != verdicts[j].id
  }

  /** A tile is flagged exactly when some peer of its name has the consensus root; with
      distinct names, when it has that root itself. */
  lemma FlagMeaning(input: BuildInput, name: seq<Digest> -> string, i: nat)
    requires i < |input.verdicts|
    ensures var b := Built(input, name).value;
      && (b.peers[i].inCohort <==> HoldsConsensus(input.verdicts, b.convergence, input.verdicts[i].id))
      && (DistinctNames(input.verdicts) ==>
            (b.peers[i].inCohort <==> b.convergence.consensusRoot == Some(AttestOf(input.verdicts[i]).root)))
  {
    BuiltParts(input, name);
    hide Built, AttestOf, Convergence, Reconciliation, Report, Bucket, Roots, Sort, StringLE, ConsensusBucketAgents, Attested;
    var peers := Attested(input.verdicts);
    var c, id := Convergence(peers, DEFAULT_THRESHOLD), input.verdicts[i].id;
    GateParts(peers);
    if c.consensusRoot.Some? {
      AgentsOfRoot(input.verdicts, c.consensusRoot.value, id);
      SortKeepsMember(Bucket(peers, c.consensusRoot.value), StringLE, id);
    }
    if DistinctNames(input.verdicts) {
      NamedOnce(input.verdicts, i);
      assert input.verdicts[i] in input.verdicts;
    }
  }

  lemma NamedOnce(verdicts: seq<LabeledVerdict>, i: nat)
    requires i < |verdicts| && DistinctNames(verdicts)
    ensures forall v :: v in verdicts && v.id == verdicts[i].id ==> v == verdicts[i]
  {
    forall v | v in verdicts && v.id == verdicts[i].id ensures v == verdicts[i] {
      var k :| 0 <= k < |verdicts| && verdicts[k] == v;
    }
  }

  lemma GateParts(peers: seq<Peer>)
    requires peers != []
    ensures var c := Convergence(peers, DEFAULT_THRESHOLD);
      && c.bucketAgents == SortedBuckets(peers)
      && (c.consensusRoot.Some? ==> c.consensusRoot.value in Roots(peers))
      && ConsensusBucketAgents(c) == if c.consensusRoot.Some? then Sort(Bucket(peers, c.consensusRoot.value), StringLE) else []
  {
    Divergence.CohortPlurality(peers);
    hide PluralityOf, Histogram, Bucket, Roots, Loci, Sort;
  }

  /** The derived name does not depend on the order of the cohort. */
  lemma CohortIdForgetsOrder(given: string, ps: seq<Peer>, qs: seq<Peer>, name: seq<Digest> -> string)
    requires multiset(ps) == multiset(qs)
    ensures CohortId(given, ps, name) == CohortId(given, qs, name)
  {
    hide DigestLE, Sort, Map, TotalPreorder, Antisymmetric;
    DigestOrder();
    MapOfPermutation((p: Peer) => p.attestation.root, ps, qs);
    SortForgetsOrder(Map((p: Peer) => p.attestation.root, ps), Map((p: Peer) => p.attestation.root, qs), DigestLE);
  }
}
