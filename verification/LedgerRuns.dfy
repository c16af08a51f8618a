/** Whole runs of the ledger: any interleaving of its four operations (ledger.go). */
module LedgerRuns {
  import opened Text
  import opened Quorum
  import opened LedgerTypes
  import opened Ledger

  datatype Op =
    | OpAppend(entry: LedgerEntry, now: int, fresh': string)
    | OpPropose(entry: LedgerEntry, now: int, fresh': string)
    | OpVote(id: string, vote: Vote, now: int, fresh': string)
    | OpFinalize(id: string, now: int, fresh': string)

  function Step(s: State, op: Op): State {
    match op
    case OpAppend(e, now, fresh') => Appended(s, e, now, fresh')
    case OpPropose(e, now, fresh') => ProposedState(s, e, now, fresh')
    case OpVote(id, v, now, fresh') => Voted(s, id, v, now, fresh')
    case OpFinalize(id, now, fresh') => FinalizedState(s, id, now, fresh')
  }

  function Run(s: State, ops: seq<Op>): State {
    if ops == [] then s else Step(Run(s, ops[..|ops| - 1]), ops[|ops| - 1])
  }

  /** The service itself, driven through a run. */
  method Drive(service: LedgerService, ops: seq<Op>)
    modifies service
    ensures service.Current() == Run(old(service.Current()), ops)
  {
    hide Step, Appended, ProposedState, Voted, FinalizedState;
    for i := 0 to |ops|
      invariant service.Current() == Run(old(service.Current()), ops[..i])
    {
      RunStep(old(service.Current()), ops, i);
      StepIs(service.Current(), ops[i]);
      match ops[i] {
        case OpAppend(e, now, fresh') => var c := service.Append(e, now, fresh');
        case OpPropose(e, now, fresh') => var p := service.Propose(e, now, fresh');
        case OpVote(id, v, now, fresh') => var r := service.Vote(id, v, now, fresh');
        case OpFinalize(id, now, fresh') => var r := service.Finalize(id, now, fresh');
      }
    }
    assert ops[..|ops|] == ops;
  }

  lemma RunStep(s: State, ops: seq<Op>, i: nat)
    requires i < |ops|
    ensures Run(s, ops[..i + 1]) == Step(Run(s, ops[..i]), ops[i])
  {
    assert ops[..i + 1][..i] == ops[..i];
  }

  lemma StepIs(s: State, op: Op)
    ensures op.OpAppend? ==> Step(s, op) == Appended(s, op.entry, op.now, op.fresh')
    ensures op.OpPropose? ==> Step(s, op) == ProposedState(s, op.entry, op.now, op.fresh')
    ensures op.OpVote? ==> Step(s, op) == Voted(s, op.id, op.vote, op.now, op.fresh')
    ensures op.OpFinalize? ==> Step(s, op) == FinalizedState(s, op.id, op.now, op.fresh')
  {
  }

  /** What a generated identifier is: never empty. */
  ghost predicate Generated(ops: seq<Op>) {
    forall op :: op in ops ==> op.fresh' != ""
  }

  ghost predicate Named(es: seq<LedgerEntry>) {
    forall e :: e in es ==> e.id != ""
  }

  // ---- a step either leaves the lists' shape alone or concludes one proposal ----

  /** A pending entry that may take the place of `e`: same identity, same requirement. */
  ghost predicate Revised(e: LedgerEntry, e': LedgerEntry) {
    e'.id == e.id && e'.consensus == e.consensus && e'.status == e.status
  }

  lemma VoteEffect(s: State, id: string, v: Vote, now: int, fresh': string)
    ensures var i := FindPending(s.pending, id);
      Voted(s, id, v, now, fresh') ==
        if i == |s.pending| || v.voter in Voters(s.pending[i].votes) then s
        else if AutoSettles(WithVote(s.pending[i], Stamped(v, id, now)))
        then Concluded(s, i, WithVote(s.pending[i], Stamped(v, id, now)), now, fresh')
        else s.(pending := s.pending[i := WithVote(s.pending[i], Stamped(v, id, now))])
    ensures forall e :: Revised(e, WithVote(e, Stamped(v, id, now)))
  {
    hide AutoSettles, Concluded, EntryQuorum, FindPending, Voters;
  }

  lemma FinalizeEffect(s: State, id: string, now: int, fresh': string)
    ensures var i := FindPending(s.pending, id);
      FinalizedState(s, id, now, fresh') ==
        if i == |s.pending| || !EntryQuorum(s.pending[i]).finalizable then s
        else Concluded(s, i, WithQuorum(s.pending[i]), now, fresh')
    ensures forall e :: Revised(e, WithQuorum(e))
  {
    hide Concluded, EntryQuorum, FindPending;
  }

  // ---- the log only grows, by numbered and certified records ----

  ghost predicate WellCertified(e: LedgerEntry, sequence: int) {
    && e.sequence == sequence
    && e.certificate.Some?
    && e.certificate.value.sequence == sequence
    && e.certificate.value.entryId == e.id
    && e.certificate.value.quorumSize == |e.votes|
    && e.certificate.value.approvals + e.certificate.value.rejections == e.certificate.value.quorumSize
  }

  /** The stored quorum is measured against the requirement the proposal itself carries. */
  ghost predicate OwnQuorum(e: LedgerEntry) {
    && e.quorum.Some?
    && (e.consensus.Some? ==>
          e.quorum.value.required == e.consensus.value.required && e.quorum.value.eligible == e.consensus.value.eligible)
  }

  /** A record that reached the log through a vote. */
  ghost predicate Approved(e: LedgerEntry) {
    && e.status == Finalized
    && OwnQuorum(e)
    && e.quorum.value.approvals == Approvals(e.votes)
    && Approvals(e.votes) >= e.quorum.value.required
  }

  ghost predicate Refused(e: LedgerEntry) {
    && e.status == Rejected
    && OwnQuorum(e)
    && RejectedEarly(e.quorum.value.required, |e.quorum.value.eligible|, Approvals(e.votes), Rejections(e.votes))
  }

  ghost predicate FromAppend(e: LedgerEntry, sequence: int, ops: seq<Op>) {
    exists k :: 0 <= k < |ops| && ops[k].OpAppend?
      && e == Committed(sequence, ops[k].entry, ops[k].now, ops[k].fresh')
  }

  lemma CommittedIsCertified(sequence: int, e: LedgerEntry, now: int, fresh': string)
    ensures WellCertified(Committed(sequence, e, now, fresh'), sequence)
    ensures Committed(sequence, e, now, fresh').votes == e.votes
    ensures Committed(sequence, e, now, fresh').quorum == e.quorum
    ensures Committed(sequence, e, now, fresh').consensus == e.consensus
    ensures Committed(sequence, e, now, fresh').snapshot == e.snapshot
    ensures Committed(sequence, e, now, fresh').id == if e.id == "" then fresh' else e.id
    ensures e.status != Unset ==> Committed(sequence, e, now, fresh').status == e.status
  {
    EveryVoteCounts(e.votes);
    hide Approvals, Rejections;
  }

  lemma QuorumCounts(e: LedgerEntry)
    ensures var q := EntryQuorum(e);
      && q.approvals == Approvals(e.votes)
      && (q.rejected <==> RejectedEarly(q.required, |q.eligible|, Approvals(e.votes), Rejections(e.votes)))
      && (q.finalizable <==> Settled(q.required, |q.eligible|, Approvals(e.votes), Rejections(e.votes)))
      && (e.consensus.Some? ==> q.required == e.consensus.value.required && q.eligible == e.consensus.value.eligible)
  {
    hide Approvals, Rejections;
  }

  /** The record is of that proposal: its votes, its requirement, its snapshot, its final quorum. */
  ghost predicate Carries(r: LedgerEntry, e: LedgerEntry) {
    r.votes == e.votes && r.consensus == e.consensus && r.snapshot == e.snapshot && r.quorum == Some(EntryQuorum(e))
  }

  /** What concluding does to the three lists. */
  lemma ConcludeEffect(s: State, i: nat, e: LedgerEntry, now: int, fresh': string)
    requires i < |s.pending| && EntryQuorum(e).finalizable
    ensures var t := Concluded(s, i, e, now, fresh');
      && t.pending == s.pending[..i] + s.pending[i + 1..]
      && (EntryQuorum(e).rejected ==>
            && t.entries == s.entries && |t.dropped| == |s.dropped| + 1 && t.dropped[..|s.dropped|] == s.dropped
            && Refused(t.dropped[|s.dropped|]) && t.dropped[|s.dropped|].id == e.id
            && Carries(t.dropped[|s.dropped|], e))
      && (!EntryQuorum(e).rejected ==>
            && t.dropped == s.dropped && |t.entries| == |s.entries| + 1 && t.entries[..|s.entries|] == s.entries
            && Approved(t.entries[|s.entries|]) && WellCertified(t.entries[|s.entries|], |s.entries| + 1)
            && t.entries[|s.entries|].id == (if e.id == "" then fresh' else e.id)
            && Carries(t.entries[|s.entries|], e))
  {
    QuorumCounts(e);
    hide EntryQuorum, Committed, Approvals, Rejections, WellCertified;
    var e1 := e.(quorum := Some(EntryQuorum(e)), finalizedAt := now);
    CommittedIsCertified(|s.entries| + 1, e1.(status := Finalized, committedAt := now), now, fresh');
  }

  /** The log after a step is the log before it, or that plus one well-formed record. */
  ghost predicate Grown(s: State, op: Op, t: State) {
    || t.entries == s.entries
    || (&& |t.entries| == |s.entries| + 1
        && t.entries[..|s.entries|] == s.entries
        && var last := t.entries[|s.entries|];
           && WellCertified(last, |t.entries|)
           && (FromAppend(last, |t.entries|, [op]) || Approved(last)))
  }

  lemma StepGrows(s: State, op: Op)
    ensures Grown(s, op, Step(s, op))
    ensures forall d :: d in Step(s, op).dropped ==> d in s.dropped || Refused(d)
  {
    hide Approved, Refused, WellCertified, Concluded, EntryQuorum, AutoSettles, Committed, FindPending, Voted, FinalizedState;
    match op {
      case OpAppend(e, now, fresh') =>
        CommittedIsCertified(|s.entries| + 1, e, now, fresh');
        assert [op][0] == op;
      case OpPropose(e, now, fresh') =>
      case OpVote(id, v, now, fresh') =>
        VoteEffect(s, id, v, now, fresh');
        var i := FindPending(s.pending, id);
        if i < |s.pending| && AutoSettles(WithVote(s.pending[i], Stamped(v, id, now))) {
          AutoSettlesIsFinalizable(WithVote(s.pending[i], Stamped(v, id, now)));
          ConcludeEffect(s, i, WithVote(s.pending[i], Stamped(v, id, now)), now, fresh');
        }
      case OpFinalize(id, now, fresh') =>
        FinalizeEffect(s, id, now, fresh');
        var i := FindPending(s.pending, id);
        if i < |s.pending| && EntryQuorum(s.pending[i]).finalizable {
          QuorumStable(s.pending[i]);
          ConcludeEffect(s, i, WithQuorum(s.pending[i]), now, fresh');
        }
    }
  }

  lemma AutoSettlesIsFinalizable(e: LedgerEntry)
    ensures AutoSettles(e) <==> e.consensus.Some? && e.consensus.value.autoFinalize && EntryQuorum(e).finalizable
  {
    hide EntryQuorum;
  }

  ghost predicate SoundLog(s: State, ops: seq<Op>) {
    && (forall i :: 0 <= i < |s.entries| ==>
         WellCertified(s.entries[i], i + 1) && (FromAppend(s.entries[i], i + 1, ops) || Approved(s.entries[i])))
    && (forall d :: d in s.dropped ==> Refused(d))
  }

  lemma FromAppendLater(e: LedgerEntry, sequence: int, ops: seq<Op>, more: seq<Op>)
    requires FromAppend(e, sequence, ops)
    ensures FromAppend(e, sequence, ops + more) && FromAppend(e, sequence, more + ops)
  {
    var k :| 0 <= k < |ops| && ops[k].OpAppend? && e == Committed(sequence, ops[k].entry, ops[k].now, ops[k].fresh');
    assert (ops + more)[k] == ops[k] && (more + ops)[|more| + k] == ops[k];
  }

  /** Every run from the empty ledger: log entry i has sequence i + 1 and a certificate
      whose approvals and rejections add up to its quorum size; it was appended directly or
      gathered the approvals it required; and what was rejected is only ever outside the log. */
  lemma {:induction false} RunKeepsLogSound(ops: seq<Op>)
    ensures SoundLog(Run(State([], [], []), ops), ops)
  {
    hide WellCertified, Approved, Refused, Step, FromAppend;
    if ops != [] {
      var front, op := ops[..|ops| - 1], ops[|ops| - 1];
      var s := Run(State([], [], []), front);
      var t := Step(s, op);
      RunKeepsLogSound(front);
      StepGrows(s, op);
      assert ops == front + [op];
      forall i | 0 <= i < |t.entries|
        ensures WellCertified(t.entries[i], i + 1) && (FromAppend(t.entries[i], i + 1, ops) || Approved(t.entries[i]))
      {
        if i < |s.entries| {
          assert t.entries[i] == s.entries[i];
          if FromAppend(s.entries[i], i + 1, front) {
            FromAppendLater(s.entries[i], i + 1, front, [op]);
          }
        } else if FromAppend(t.entries[i], i + 1, [op]) {
          FromAppendLater(t.entries[i], i + 1, [op], front);
        }
      }
    }
  }

  /** Append only: the old log is a prefix of the new one. */
  lemma {:induction false} RunExtendsLog(s: State, ops: seq<Op>)
    ensures s.entries <= Run(s, ops).entries
  {
    hide Step, WellCertified, Approved, FromAppend;
    if ops != [] {
      RunExtendsLog(s, ops[..|ops| - 1]);
      StepGrows(Run(s, ops[..|ops| - 1]), ops[|ops| - 1]);
    }
  }

  // ---- nobody votes twice ----

  ghost predicate VotersDistinct(es: seq<LedgerEntry>) {
    forall e :: e in es ==> DistinctVoters(e.votes)
  }

  lemma DistinctAfterVote(votes: seq<Vote>, v: Vote)
    requires DistinctVoters(votes) && v.voter !in Voters(votes)
    ensures DistinctVoters(votes + [v])
  {
    VotersAre(votes, v.voter);
  }

  lemma StepKeepsVotersDistinct(s: State, op: Op)
    requires VotersDistinct(s.pending)
    requires op.OpPropose? ==> DistinctVoters(op.entry.votes)
    ensures VotersDistinct(Step(s, op).pending)
  {
    hide DistinctVoters, EntryQuorum, AutoSettles, FindPending, Voted, FinalizedState, Committed, Voters;
    match op {
      case OpAppend(e, now, fresh') =>
      case OpPropose(e, now, fresh') =>
      case OpVote(id, v, now, fresh') =>
        VoteEffect(s, id, v, now, fresh');
        var i := FindPending(s.pending, id);
        if i < |s.pending| && v.voter !in Voters(s.pending[i].votes) {
          DistinctAfterVote(s.pending[i].votes, Stamped(v, id, now));
        }
      case OpFinalize(id, now, fresh') =>
        FinalizeEffect(s, id, now, fresh');
    }
  }

  lemma {:induction false} RunKeepsVotersDistinct(s: State, ops: seq<Op>)
    requires VotersDistinct(s.pending)
    requires forall op :: op in ops && op.OpPropose? ==> DistinctVoters(op.entry.votes)
    ensures VotersDistinct(Run(s, ops).pending)
  {
    hide VotersDistinct, Step, DistinctVoters;
    if ops != [] {
      RunKeepsVotersDistinct(s, ops[..|ops| - 1]);
      StepKeepsVotersDistinct(Run(s, ops[..|ops| - 1]), ops[|ops| - 1]);
    }
  }
}
