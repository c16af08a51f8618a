/** What the ledger answers, and what its records say (ledger.go). */
module LedgerAnswers {
  import opened Text
  import opened Quorum
  import opened Tally
  import opened BallotCounts
  import opened LedgerTypes
  import opened Ledger
  import opened LedgerRuns
  import opened LedgerFates

  // ---- answers ----

  ghost predicate FirstOfName(pending: seq<LedgerEntry>, id: string, i: int) {
    0 <= i < |pending| && pending[i].id == id && forall k :: 0 <= k < i ==> pending[k].id != id
  }

  lemma FoundIsFirst(pending: seq<LedgerEntry>, id: string)
    ensures var i := FindPending(pending, id);
      && (i == |pending| <==> forall e :: e in pending ==> e.id != id)
      && forall k: int :: FirstOfName(pending, id, k) <==> k == i < |pending|
  {
    var i := FindPending(pending, id);
    if i < |pending| {
      assert pending[i] in pending;
    }
  }

  ghost predicate HasVoteOf(e: LedgerEntry, voter: string) {
    exists w :: w in e.votes && w.voter == voter
  }

  /** Which vote is refused and why, in terms of the pending list: nothing of that name is
      pending, or the first that is has that voter's vote already. */
  lemma VoteRefusals(s: State, id: string, v: Vote, now: int)
    ensures VoteResult(s, id, v, now) == Err(NotFound) <==> forall e :: e in s.pending ==> e.id != id
    ensures VoteResult(s, id, v, now) == Err(DuplicateVote) <==>
      exists i: nat :: (FirstOfName(s.pending, id, i) && i < |s.pending| && HasVoteOf(s.pending[i], v.voter))
    ensures VoteResult(s, id, v, now) != Err(NotFinalizable)
  {
    hide EntryQuorum, Voters, FindPending, FirstOfName, HasVoteOf;
    FoundIsFirst(s.pending, id);
    var i := FindPending(s.pending, id);
    if i < |s.pending| {
      HasVotedOn(s.pending[i], v.voter);
      assert FirstOfName(s.pending, id, i);
    }
  }

  lemma HasVotedOn(e: LedgerEntry, voter: string)
    ensures voter in Voters(e.votes) <==> HasVoteOf(e, voter)
  {
    HasVoted(e.votes, voter);
    hide Voters;
  }

  lemma HasVoted(votes: seq<Vote>, voter: string)
    ensures voter in Voters(votes) <==> exists w :: w in votes && w.voter == voter
  {
    hide Voters;
    VotersAre(votes, voter);
    if i :| 0 <= i < |votes| && votes[i].voter == voter {
      assert votes[i] in votes;
    }
  }

  /** A vote on a proposal in any run is refused as unknown once its course has ended, as a
      repetition if that voter is counted already, and otherwise answered with the new tallies. */
  lemma VoteAnswer(s: State, id: string, v: Vote, now: int, p: LedgerEntry, c: Course)
    requires Placed(s, id, p, c)
    ensures VoteResult(s, id, v, now) == Err(NotFound) <==> c.fate != Open
    ensures VoteResult(s, id, v, now) == Err(DuplicateVote) <==> c.fate == Open && v.voter in Voters(c.votes)
    ensures c.fate == Open && v.voter !in Voters(c.votes) ==>
      var r, votes := VoteResult(s, id, v, now), c.votes + [Stamped(v, id, now)];
      && r.Ok? && r.value.required == TermsOf(p).required && |r.value.eligible| == TermsOf(p).eligible
      && r.value.approvals == Approvals(votes) && r.value.rejections == Rejections(votes)
      && (r.value.finalizable <==> FateAt(TermsOf(p), votes) != Open)
      && (r.value.rejected <==> FateAt(TermsOf(p), votes) == Dropped) && !r.value.finalized
      && r.value.lastVoteAt == if v.votedAt == 0 then now else v.votedAt
  {
    hide Count, Voters, Logged, Discarded, Approvals, Rejections, FateAt, TermsOf;
    LocatedByCount(s.pending, id);
    if c.fate == Open {
      var e, v' := s.pending[FindPending(s.pending, id)], Stamped(v, id, now);
      StillAwaits(e, p, c.votes, v');
      VotedQuorum(e, p, c.votes, v');
    }
  }

  lemma VotedQuorum(e: LedgerEntry, p: LedgerEntry, votes: seq<Vote>, v: Vote)
    requires Awaits(e, p, votes)
    ensures var q, more := WithVote(e, v).quorum.value, votes + [v];
      && q.required == TermsOf(p).required && |q.eligible| == TermsOf(p).eligible
      && q.approvals == Approvals(more) && q.rejections == Rejections(more)
      && (q.finalizable <==> FateAt(TermsOf(p), more) != Open) && (q.rejected <==> FateAt(TermsOf(p), more) == Dropped)
      && !q.finalized && q.lastVoteAt == v.votedAt
  {
    hide Approvals, Rejections, RejectedEarly;
  }

  /** A finalisation in any run is refused as unknown once the course has ended, as premature
      while its votes do not settle it, and otherwise answered with its certificate. */
  lemma FinalizeAnswer(s: State, id: string, now: int, fresh': string, p: LedgerEntry, c: Course)
    requires Placed(s, id, p, c) && id != ""
    ensures FinalizeResult(s, id, now, fresh') == Err(NotFound) <==> c.fate != Open
    ensures FinalizeResult(s, id, now, fresh') == Err(NotFinalizable) <==> c.fate == Open && FateAt(TermsOf(p), c.votes) == Open
    ensures c.fate == Open && FateAt(TermsOf(p), c.votes) != Open ==>
      var r := FinalizeResult(s, id, now, fresh');
      && r.Ok? && r.value.entryId == id && r.value.committedAt == now && r.value.quorumSize == |c.votes|
      && r.value.approvals == Approvals(c.votes) && r.value.rejections == Rejections(c.votes)
      && (if FateAt(TermsOf(p), c.votes) == Dropped then r.value.status == Rejected && r.value.sequence == 0
          else r.value.status == Finalized && r.value.sequence == |s.entries| + 1)
  {
    hide Count, Voters, Logged, Discarded, Approvals, Rejections, FateAt, TermsOf, EntryQuorum, ConclusionCertificate;
    LocatedByCount(s.pending, id);
    if c.fate == Open {
      var e := s.pending[FindPending(s.pending, id)];
      OpenQuorum(e, p, c.votes);
      StillAwaits(e, p, c.votes, Vote("", "", false, "", 0));
      QuorumStable(e);
      if EntryQuorum(e).finalizable {
        CertificateOf(s, WithQuorum(e), now, fresh');
      }
    }
  }

  lemma CertificateOf(s: State, e: LedgerEntry, now: int, fresh': string)
    requires e.id != ""
    ensures var cert := ConclusionCertificate(s, e, now, fresh');
      && cert.entryId == e.id && cert.quorumSize == |e.votes|
      && cert.approvals == Approvals(e.votes) && cert.rejections == Rejections(e.votes)
      && (EntryQuorum(e).rejected ==> cert.status == Rejected && cert.sequence == 0 && cert.committedAt == now)
      && (!EntryQuorum(e).rejected ==> cert.status == Finalized && cert.sequence == |s.entries| + 1 && cert.committedAt == now)
  {
    QuorumCounts(e);
    hide Approvals, Rejections;
  }

  // ---- records ----

  /** What a record says of the entry it was made from: what was blank is filled in, and nothing
      else changes; an entry without a status is rejected if it says so, pending if it asks for a
      vote, final otherwise; and its certificate repeats the record. */
  lemma RecordMeaning(sequence: int, e: LedgerEntry, now: int, fresh': string)
    ensures var r := Committed(sequence, e, now, fresh');
      && r.sequence == sequence
      && r.id == (if e.id != "" then e.id else fresh')
      && r.proposedAt == (if e.proposedAt != 0 then e.proposedAt else now)
      && r.committedAt == (if e.committedAt != 0 then e.committedAt else now)
      && (e.status != Unset ==> r.status == e.status)
      && (e.status == Unset && e.accepted == Some(false) ==> r.status == Rejected)
      && (e.status == Unset && e.accepted != Some(false) ==>
            (r.status == Pending <==> e.consensus.Some? && e.consensus.value.strategy == QuorumVote)
            && (r.status == Pending || r.status == Finalized))
      && r.certificate == Some(Certificate(r.id, sequence, r.committedAt, |e.votes|, r.status, Approvals(e.votes), Rejections(e.votes)))
      && r == e.(sequence := r.sequence, id := r.id, proposedAt := r.proposedAt, committedAt := r.committedAt, status := r.status,
                 certificate := r.certificate)
  {
    hide Approvals, Rejections;
  }

  /** A fresh proposal: what was blank is filled in, its status says so, and if it has a
      requirement its quorum is that requirement with nobody's vote in. */
  lemma ProposalMeaning(e: LedgerEntry, now: int, fresh': string)
    ensures var p := ProposedEntry(e, now, fresh');
      && p.id == (if e.id != "" then e.id else fresh') && p.proposedAt == (if e.proposedAt != 0 then e.proposedAt else now)
      && p.status == Proposed && p.votes == e.votes && p.consensus == e.consensus
      && (e.consensus == None ==> p.quorum == e.quorum)
      && (e.consensus.Some? ==>
            var q, req := p.quorum.value, e.consensus.value;
            && p.quorum.Some? && q.required == req.required && q.eligible == req.eligible && q.quorumKey == req.quorumKey
            && q.approvals == 0 && q.rejections == 0 && q.missing == req.required
            && !q.finalizable && !q.finalized && !q.rejected && q.lastVoteAt == 0)
      && p == e.(id := p.id, proposedAt := p.proposedAt, status := Proposed, quorum := p.quorum)
  {
  }

  /** A concluded proposal's record: when it was concluded, how, and with what; dated, for the
      log, by its conclusion. */
  lemma ConclusionMeaning(s: State, i: nat, e: LedgerEntry, now: int, fresh': string)
    requires i < |s.pending| && e.id != ""
    ensures var t, q := Concluded(s, i, e, now, fresh'), EntryQuorum(e);
      && (q.rejected ==>
            && t.entries == s.entries && |t.dropped| == |s.dropped| + 1
            && t.dropped[|s.dropped|] == e.(quorum := Some(q), finalizedAt := now, status := Rejected, rejectedAt := now))
      && (!q.rejected ==>
            && t.dropped == s.dropped && |t.entries| == |s.entries| + 1
            && var r := t.entries[|s.entries|];
               r.finalizedAt == now && r.committedAt == now && r.status == Finalized && r.quorum == Some(q) && r.votes == e.votes
               && r.certificate.Some? && r.certificate.value.committedAt == now && r.certificate.value.status == Finalized
               && r.rejectedAt == e.rejectedAt && r.snapshot == e.snapshot && r.signal == e.signal
               && r.publication == e.publication && r.voice == e.voice)
  {
    hide EntryQuorum, Certify, Committed;
    var e1 := e.(quorum := Some(EntryQuorum(e)), finalizedAt := now, status := Finalized, committedAt := now);
    RecordMeaning(|s.entries| + 1, e1, now, fresh');
  }

  /** A counted vote is stamped with the entry it was cast on and, unless it brings a time of
      its own, with the time it came in; nothing else of it changes. */
  lemma StampMeaning(v: Vote, id: string, now: int)
    ensures var w := Stamped(v, id, now);
      && w.entryId == id && w.votedAt == (if v.votedAt != 0 then v.votedAt else now)
      && w.voter == v.voter && w.approved == v.approved && w.reason == v.reason
  {
  }
}
