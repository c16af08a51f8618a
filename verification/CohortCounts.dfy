/** What a convergence report and a bundle say of a cohort, counted peer by peer
    (speculative_converge.go, speculative_bundle.go). */
module CohortCounts {
  import opened Sorting
  import opened Tallies
  import opened Text
  import opened Causal
  import opened Merkle
  import opened Converge
  import opened Divergence
  import opened Dyad
  import opened DyadRoundTrip
  import opened DyadPairs
  import opened Reconcile
  import opened Faithfulness
  import opened Bundle

  ghost function Holds(root: Digest): Peer -> bool {
    (p: Peer) => p.attestation.root == root
  }

  ghost function HoldsAs(root: Digest, id: string): Peer -> bool {
    (p: Peer) => p.attestation.root == root && p.agentId == id
  }

  lemma {:induction false} BucketCounts(peers: seq<Peer>, root: Digest)
    ensures |Bucket(peers, root)| == Tally(peers, Holds(root))
    ensures forall id :: multiset(Bucket(peers, root))[id] == Tally(peers, HoldsAs(root, id))
  {
    hide Tally;
    if peers == [] {
      TallyNone(Holds(root));
      forall id ensures Tally([], HoldsAs(root, id)) == 0 {
        TallyNone(HoldsAs(root, id));
      }
    } else {
      BucketCounts(peers[..|peers| - 1], root);
      TallyLast(peers, Holds(root));
      forall id ensures multiset(Bucket(peers, root))[id] == Tally(peers, HoldsAs(root, id)) {
        TallyLast(peers, HoldsAs(root, id));
      }
    }
  }

  /** A root that more peers hold than any other. */
  ghost predicate LeadsCohort(peers: seq<Peer>, root: Digest) {
    && Tally(peers, Holds(root)) > 0
    && forall d :: d != root ==> Tally(peers, Holds(d)) < Tally(peers, Holds(root))
  }

  lemma RootIsHeld(peers: seq<Peer>, root: Digest)
    ensures root in Roots(peers) <==> Tally(peers, Holds(root)) > 0
  {
    hide Tally;
    TallyPositive(peers, Holds(root));
  }

  lemma LeadsByCount(peers: seq<Peer>, root: Digest)
    ensures Leads(peers, root) <==> LeadsCohort(peers, root)
  {
    hide Tally, Bucket, Roots;
    BucketCounts(peers, root);
    RootIsHeld(peers, root);
    forall d ensures |Bucket(peers, d)| == Tally(peers, Holds(d)) && (d in Roots(peers) <==> Tally(peers, Holds(d)) > 0) {
      BucketCounts(peers, d);
      RootIsHeld(peers, d);
    }
  }

  /** The threshold a cohort is held to: the given one if it is a fraction, 0.66 otherwise. */
  lemma ThresholdMeaning(threshold: real)
    ensures 0.0 < threshold <= 1.0 ==> EffectiveThreshold(threshold) == threshold
    ensures threshold <= 0.0 || threshold > 1.0 ==> EffectiveThreshold(threshold) == 0.66
  {
  }

  /** The histogram counts the holders of each root that is held, and the buckets name them, each
      as often as it holds the root, in order. */
  lemma HistogramMeaning(peers: seq<Peer>, threshold: real, root: Digest)
    ensures var r := Convergence(peers, threshold);
      && r.agentCount == |peers| && r.threshold == EffectiveThreshold(threshold)
      && (root in r.histogram <==> Tally(peers, Holds(root)) > 0) && (root in r.bucketAgents <==> root in r.histogram)
      && (root in r.histogram ==> r.histogram[root] == Tally(peers, Holds(root)))
      && (root in r.bucketAgents ==>
            && Sorted(r.bucketAgents[root], StringLE)
            && forall id :: multiset(r.bucketAgents[root])[id] == Tally(peers, HoldsAs(root, id)))
  {
    hide Tally, PluralityOf, Quorum, Loci, StringLE, Bucket, EffectiveThreshold, Sort;
    BucketCounts(peers, root);
    RootIsHeld(peers, root);
    StringOrder();
    SortSorts(Bucket(peers, root), StringLE);
    SortPermutes(Bucket(peers, root), StringLE);
  }

  /** Status, consensus and quorum by counting: a leading root is the consensus, converged with the
      threshold's share of the peers and partial below it; without one the cohort is divergent. The
      quorum is the share of the best held root, leading or tied. */
  lemma ConvergenceMeaning(peers: seq<Peer>, threshold: real)
    requires peers != []
    ensures var r := Convergence(peers, threshold);
      && (forall d :: r.consensusRoot == Some(d) <==> LeadsCohort(peers, d))
      && (r.status == Divergent <==> r.consensusRoot == None)
      && (r.status == Converged <==> r.consensusRoot.Some? && r.quorum >= EffectiveThreshold(threshold))
      && (exists d :: Tally(peers, Holds(d)) > 0 && r.quorum * |peers| as real == Tally(peers, Holds(d)) as real)
      && (forall d :: Tally(peers, Holds(d)) as real <= r.quorum * |peers| as real)
  {
    hide Tally, PluralityOf, Histogram, Loci, Bucket, EffectiveThreshold, LeadsCohort, Leads, SortedBuckets, Roots;
    var r, p := Convergence(peers, threshold), PluralityOf(Histogram(peers));
    CohortPlurality(peers);
    ShareTimes(p.count, |peers|);
    forall d ensures r.consensusRoot == Some(d) <==> LeadsCohort(peers, d) {
      GateMeaning(peers, threshold, d);
      LeadsByCount(peers, d);
    }
    BucketCounts(peers, p.best.value);
    RootIsHeld(peers, p.best.value);
    forall d ensures Tally(peers, Holds(d)) <= p.count {
      BucketCounts(peers, d);
      RootIsHeld(peers, d);
    }
  }

  lemma ShareTimes(count: nat, n: nat)
    requires n > 0
    ensures count as real / n as real * n as real == count as real
  {
  }

  lemma NobodyConverges(threshold: real)
    ensures Convergence([], threshold)
         == ConvergenceReport(Divergent, None, EffectiveThreshold(threshold), 0.0, 0, map[], map[], [])
  {
  }

  // ---- bundles ----

  ghost function Attests(root: Digest): LabeledVerdict -> bool {
    (v: LabeledVerdict) => AttestOf(v).root == root
  }

  /** A root that more verdicts attest to than any other. */
  ghost predicate LeadsVerdicts(verdicts: seq<LabeledVerdict>, root: Digest) {
    && Tally(verdicts, Attests(root)) > 0
    && forall d :: d != root ==> Tally(verdicts, Attests(d)) < Tally(verdicts, Attests(root))
  }

  lemma AttestedCount(verdicts: seq<LabeledVerdict>, root: Digest)
    ensures Tally(Attested(verdicts), Holds(root)) == Tally(verdicts, Attests(root))
  {
    hide AttestOf;
    assert Where(Attested(verdicts), Holds(root)) == Where(verdicts, Attests(root));
  }

  lemma LeadingVerdicts(verdicts: seq<LabeledVerdict>, root: Digest)
    ensures LeadsCohort(Attested(verdicts), root) <==> LeadsVerdicts(verdicts, root)
  {
    hide Tally, AttestOf;
    forall d ensures Tally(Attested(verdicts), Holds(d)) == Tally(verdicts, Attests(d)) {
      AttestedCount(verdicts, d);
    }
  }

  /** The headline of a cohort, from its verdicts: unknown without any; divergent when no root
      leads; partial when one does with less than 33 of every 50; and with that share, fabricated
      when the meta is, converged otherwise. */
  lemma HeadlineMeaning(input: BuildInput, name: seq<Digest> -> string)
    ensures var b, n := Built(input, name), |input.verdicts|;
      && (HeadlineStatus(b) == HeadUnknown <==> input.verdicts == [])
      && (HeadlineStatus(b) == HeadDivergent <==> input.verdicts != [] && forall d :: !LeadsVerdicts(input.verdicts, d))
      && (HeadlineStatus(b) == HeadPartial
          <==> exists d :: LeadsVerdicts(input.verdicts, d) && 50 * Tally(input.verdicts, Attests(d)) < 33 * n)
      && (HeadlineStatus(b) == HeadFabricated
          <==> (exists d :: LeadsVerdicts(input.verdicts, d) && 50 * Tally(input.verdicts, Attests(d)) >= 33 * n)
               && HasMeta(input)
               && Reconciliation(input.meta.value.views.graph, PeerGraphs(input.verdicts), UNSET_CONFIG).status == Fabricated)
      && HeadlineStatus(b) != HeadDrifted
  {
    hide Tally, AttestOf, Convergence, Reconciliation, Tiles, Built, LeadsVerdicts, LeadsCohort, PeerGraphs, Report;
    if input.verdicts == [] {
      NoVerdicts(input, name);
    } else {
      var peers := Attested(input.verdicts);
      BuiltParts(input, name);
      ConvergenceMeaning(peers, DEFAULT_THRESHOLD);
      ThresholdMeaning(DEFAULT_THRESHOLD);
      forall d ensures (LeadsCohort(peers, d) <==> LeadsVerdicts(input.verdicts, d))
                       && Tally(peers, Holds(d)) == Tally(input.verdicts, Attests(d)) {
        LeadingVerdicts(input.verdicts, d);
        AttestedCount(input.verdicts, d);
      }
      LeadIsUnique(input.verdicts);
      ShareOfLead(peers);
    }
  }

  lemma NoVerdicts(input: BuildInput, name: seq<Digest> -> string)
    requires input.verdicts == []
    ensures Built(input, name) == None && forall d :: !LeadsVerdicts(input.verdicts, d)
  {
    hide AttestOf;
    forall d ensures !LeadsVerdicts(input.verdicts, d) {
      TallyNone(Attests(d));
    }
  }

  lemma LeadIsUnique(verdicts: seq<LabeledVerdict>)
    ensures forall d, e :: LeadsVerdicts(verdicts, d) && LeadsVerdicts(verdicts, e) ==> d == e
  {
    hide Tally, AttestOf;
  }

  lemma ShareOfLead(peers: seq<Peer>)
    requires peers != []
    ensures var r := Convergence(peers, DEFAULT_THRESHOLD);
      r.consensusRoot.Some? ==>
        (r.quorum >= EffectiveThreshold(DEFAULT_THRESHOLD) <==> 50 * Tally(peers, Holds(r.consensusRoot.value)) >= 33 * |peers|)
  {
    hide Tally, Convergence, Bucket, Leads, LeadsCohort;
    var r := Convergence(peers, DEFAULT_THRESHOLD);
    ConvergenceMeaning(peers, DEFAULT_THRESHOLD);
    if r.consensusRoot.Some? {
      var d := r.consensusRoot.value;
      GateMeaning(peers, DEFAULT_THRESHOLD, d);
      BucketCounts(peers, d);
      InWholeNumbers(|Bucket(peers, d)|, |peers|);
      DefaultIsKept();
    }
  }

  /** A bundle repeats what it was given: every verdict as a tile, in order, the meta if it has a
      graph, the given name unless that is blank, and the convergence, reconciliation and
      compression of those verdicts. */
  lemma BundleMeaning(input: BuildInput, name: seq<Digest> -> string)
    ensures Built(input, name) == None <==> input.verdicts == []
    ensures input.verdicts != [] ==>
      var b := Built(input, name).value;
      && |b.peers| == |input.verdicts|
      && (forall i :: 0 <= i < |b.peers| ==>
            var v, t := input.verdicts[i], b.peers[i];
            t.agentId == v.id && t.verdict == v.verdict && t.confidence == v.confidence && t.graph == v.views.graph
            && t.attestation == Attest(v.views.graph, true))
      && (b.meta.Some? <==> input.meta.Some? && input.meta.value.views.graph.Some?)
      && (b.meta.Some? ==>
            var m, t := input.meta.value, b.meta.value;
            t.agentId == m.id && t.verdict == m.verdict && t.confidence == m.confidence && t.graph == m.views.graph
            && t.attestation == Attest(m.views.graph, true))
      && (Trim(input.cohortId) != "" ==> b.cohortId == Trim(input.cohortId))
      && (Trim(input.cohortId) == "" ==> b.cohortId == name(SortedRoots(Attested(input.verdicts))))
  {
    hide Attest, Convergence, Reconciliation, Report, ConsensusBucketAgents, Trim, SortedRoots;
  }
}
