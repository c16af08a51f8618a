/** Which claims a review raises, how each is ruled, what is kept, and in what order
    (adversarial_reviewer.go, adjudication.go). */
module ReviewRules {
  import opened Text
  import opened Sorting
  import opened Causal
  import opened ChainText
  import opened Pearl
  import opened Ranking
  import opened Dispute
  import opened Reviewer

  // ---- rulings ----

  ghost predicate SwingsBy(r: Report, size: real) {
    r.delta >= size || r.delta <= -size
  }

  /** The ruling on a report: noted, and not mechanically, if the claim did not apply; upheld if it
      flips the recommendation or the block, or moves confidence by 0.15; of the rest noted if it
      moves confidence by 0.03 or changes what ranks first, rejected otherwise. */
  lemma RulingMeaning(r: Report)
    ensures var a := Adjudicate(r);
      && (a.mechanical <==> r.applied)
      && (a.status == Upheld <==> r.applied && (r.recommendationFlipped || r.blockedFlipped || SwingsBy(r, 0.15)))
      && (a.status == Rejected
          <==> r.applied && !r.recommendationFlipped && !r.blockedFlipped && !SwingsBy(r, 0.03) && !r.topChanged)
      && a.swingScore == SwingScore(r)
  {
  }

  /** Its score: the confidence moved, at most 1, and 0.5, 0.3 and 0.1 for a flipped
      recommendation, a flipped block and a new first rank. */
  lemma ScoreMeaning(r: Report)
    ensures var plain := r.(recommendationFlipped := false, blockedFlipped := false, topChanged := false);
      && (SwingsBy(r, 1.0) ==> SwingScore(plain) == 1.0)
      && (!SwingsBy(r, 1.0) ==> SwingScore(plain) == Abs(r.delta))
    ensures SwingScore(r.(recommendationFlipped := true)) - SwingScore(r.(recommendationFlipped := false)) == 0.5
    ensures SwingScore(r.(blockedFlipped := true)) - SwingScore(r.(blockedFlipped := false)) == 0.3
    ensures SwingScore(r.(topChanged := true)) - SwingScore(r.(topChanged := false)) == 0.1
  {
  }

  // ---- what is kept, and in what order ----

  lemma KeepMeaning(cfg: Config, r: Report)
    ensures Keep(cfg, r) <==>
      (cfg.minAbsSwingForKeep <= 0.0 || r.recommendationFlipped || r.blockedFlipped || r.topChanged
       || (if SwingsBy(r, 1.0) then 1.0 >= cfg.minAbsSwingForKeep else SwingsBy(r, cfg.minAbsSwingForKeep)))
  {
  }

  /** Upheld before noted before rejected; of one status the higher score first; of one score the
      claim's name decides. */
  ghost predicate InOrder(a: Record, b: Record) {
    && (b.ruling.status == Upheld ==> a.ruling.status == Upheld)
    && (a.ruling.status == Rejected ==> b.ruling.status == Rejected)
    && (a.ruling.status == b.ruling.status ==>
          a.ruling.swingScore > b.ruling.swingScore
          || (a.ruling.swingScore == b.ruling.swingScore && StringLE(a.report.claim.id, b.report.claim.id)))
  }

  lemma StrongerIsInOrder(a: Record, b: Record)
    requires StrongerFirst(a, b)
    ensures InOrder(a, b)
  {
    hide StringLE;
  }

  ghost predicate AllInOrder(records: seq<Record>) {
    forall i, j :: 0 <= i < j < |records| ==> InOrder(records[i], records[j])
  }

  /** A review is in order, and, unless a cap cuts it short, holds exactly the records worth
      keeping, each as often as it was proposed; a cap of at most 0 cuts nothing. */
  lemma ReviewMeaning(env: Env, cfg: Config, v: Verdict)
    ensures AllInOrder(Reviewed(env, cfg, v))
    ensures var w := v.(views := Synced(env, v.views));
      var kept := Kept(env, cfg, w, Proposed(cfg, w, SyncedNodes(env, v)));
      && (SyncedNodes(env, v) == [] ==> Reviewed(env, cfg, v) == [])
      && (SyncedNodes(env, v) != [] && (cfg.maxDisputes <= 0 || |kept| <= cfg.maxDisputes) ==>
            multiset(Reviewed(env, cfg, v)) == multiset(kept))
      && (SyncedNodes(env, v) != [] && cfg.maxDisputes > 0 && |kept| > cfg.maxDisputes ==>
            |Reviewed(env, cfg, v)| == cfg.maxDisputes)
  {
    hide Kept, Proposed, Synced, SyncedNodes, StrongerFirst, InOrder, Sort;
    var w := v.(views := Synced(env, v.views));
    var kept := Kept(env, cfg, w, Proposed(cfg, w, SyncedNodes(env, v)));
    StrongerFirstOrders();
    SortSorts(kept, StrongerFirst);
    SortPermutes(kept, StrongerFirst);
    var s := Sort(kept, StrongerFirst);
    forall i, j | 0 <= i < j < |s| ensures InOrder(s[i], s[j]) {
      StrongerIsInOrder(s[i], s[j]);
    }
  }

  /** A record is kept exactly if it is the ruling on a proposed claim whose report is worth it. */
  lemma KeptMeaning(env: Env, cfg: Config, v: Verdict, claims: seq<Claim>, r: Record)
    ensures r in Kept(env, cfg, v, claims) <==>
      exists d :: d in claims && r == Record(Evaluated(env, v, d), Adjudicate(Evaluated(env, v, d))) && Keep(cfg, Evaluated(env, v, d))
  {
    hide Keep, Adjudicate, Evaluated, Kept;
    if r in Kept(env, cfg, v, claims) {
      KeptAreRulings(env, cfg, v, claims, r);
    }
    if d :| d in claims && r == NewRecord(Evaluated(env, v, d)) && Keep(cfg, Evaluated(env, v, d)) {
      KeptRecord(env, cfg, v, claims, d);
    }
  }

  // ---- which claims are raised ----

  function Named(cfg: Config, heuristic: string, key: string): string {
    cfg.reviewerId + ":" + heuristic + ":" + SimpleSlug(key)
  }

  lemma {:induction false} BlockedClaimsAre(cfg: Config, cs: seq<ActionCandidate>, d: Claim)
    ensures d in BlockedClaims(cfg, cs) <==>
      exists k :: 0 <= k < |cs| && cs[k].recommended
                  && d == Claim(Named(cfg, "blocked", cs[k].id), ActionBlocked, cs[k].id, NO_ROLE, "", 0.0, 0.0, "")
  {
    hide SimpleSlug;
    if cs != [] {
      var front := cs[..|cs| - 1];
      BlockedClaimsAre(cfg, front, d);
      assert forall k :: 0 <= k < |front| ==> front[k] == cs[k];
    }
  }

  lemma {:induction false} StaleClaimsAre(cfg: Config, nodes: seq<CausalNode>, d: Claim)
    ensures d in StaleClaims(cfg, nodes) <==>
      exists k :: 0 <= k < |nodes| && nodes[k].role == Evidence && nodes[k].weight >= cfg.heavyEvidenceWeightFloor
                  && d == Claim(Named(cfg, "stale", nodes[k].id), EvidenceStale, nodes[k].id, NO_ROLE, "", 0.0, 0.25, "")
  {
    hide SimpleSlug;
    if nodes != [] {
      var front := nodes[..|nodes| - 1];
      StaleClaimsAre(cfg, front, d);
      assert forall k :: 0 <= k < |front| ==> front[k] == nodes[k];
    }
  }

  lemma {:induction false} RoleClaimsAre(cfg: Config, rows: seq<NodeAttribution>, d: Claim)
    ensures d in MislabelClaims(cfg, rows) <==>
      exists k :: 0 <= k < |rows| && rows[k].role == Evidence && rows[k].phi < 0.0
                  && d == Claim(Named(cfg, "mislabel", rows[k].id), MislabeledRole, rows[k].id, Confounder, "", 0.0, 0.0, "")
  {
    hide SimpleSlug;
    if rows != [] {
      var front := rows[..|rows| - 1];
      RoleClaimsAre(cfg, front, d);
      assert forall k :: 0 <= k < |front| ==> front[k] == rows[k];
    }
  }

  /** What an unseen common cause is called: the first open question, or else a stock phrase. */
  ghost predicate Suspects(v: Verdict, text: string) {
    if v.openQuestions != [] && Trim(v.openQuestions[0]) != "" then text == Trim(v.openQuestions[0])
    else text == "unobserved common cause stress test"
  }

  ghost predicate RaisesRole(cfg: Config, v: Verdict, d: Claim) {
    exists k :: 0 <= k < |v.attribution| && v.attribution[k].role == Evidence && v.attribution[k].phi < 0.0
                && d == Claim(Named(cfg, "mislabel", v.attribution[k].id), MislabeledRole, v.attribution[k].id, Confounder, "", 0.0, 0.0, "")
  }

  ghost predicate RaisesBlock(cfg: Config, v: Verdict, d: Claim) {
    v.plan.Some?
    && exists k :: 0 <= k < |v.plan.value.actions| && v.plan.value.actions[k].recommended
                   && d == Claim(Named(cfg, "blocked", v.plan.value.actions[k].id), ActionBlocked, v.plan.value.actions[k].id, NO_ROLE, "", 0.0, 0.0, "")
  }

  ghost predicate RaisesConfounder(cfg: Config, v: Verdict, d: Claim) {
    && v.plan.Some? && v.plan.value.prediction.confidence >= cfg.highConfidenceProbeFloor
    && |v.plan.value.hypothesis.confounders| < 2
    && exists text :: Suspects(v, text)
                      && d == Claim(Named(cfg, "missing-conf", text), MissingConfounder, "", NO_ROLE, text, 0.7, 0.0, "")
  }

  ghost predicate RaisesStale(cfg: Config, nodes: seq<CausalNode>, d: Claim) {
    exists k :: 0 <= k < |nodes| && nodes[k].role == Evidence && nodes[k].weight >= cfg.heavyEvidenceWeightFloor
                && d == Claim(Named(cfg, "stale", nodes[k].id), EvidenceStale, nodes[k].id, NO_ROLE, "", 0.0, 0.25, "")
  }

  lemma ConfounderClaimIs(cfg: Config, v: Verdict, d: Claim)
    ensures (ProbesConfounder(cfg, v) && d == ConfounderClaim(cfg, v)) <==> RaisesConfounder(cfg, v, d)
  {
    hide SimpleSlug, Trim;
    assert Suspects(v, ProbeSummary(v));
  }

  /** The claims a review raises: that evidence which pulls confidence down is a confounder, that
      a recommended action is blocked, that a confident verdict with fewer than two confounders
      missed one, and that heavy evidence is stale; these, and no others. */
  lemma ProposedMeaning(cfg: Config, v: Verdict, nodes: seq<CausalNode>, d: Claim)
    ensures d in Proposed(cfg, v, nodes) <==>
      (RaisesRole(cfg, v, d) || RaisesBlock(cfg, v, d) || RaisesConfounder(cfg, v, d) || RaisesStale(cfg, nodes, d))
  {
    hide ConfounderClaim, ProbesConfounder, MislabelClaims, BlockedClaims, StaleClaims, SimpleSlug, RaisesConfounder;
    RoleClaimsAre(cfg, v.attribution, d);
    if v.plan.Some? {
      BlockedClaimsAre(cfg, v.plan.value.actions, d);
    }
    ConfounderClaimIs(cfg, v, d);
    StaleClaimsAre(cfg, nodes, d);
  }
}
