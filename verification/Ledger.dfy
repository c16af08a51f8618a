/** The ledger service: an append-only log and a pending list (ledger.go). Each method holds
    the mutex throughout, so it is one atomic step; the two files are two sequences. */
module Ledger {
  import opened Text
  import opened Quorum
  import opened LedgerTypes
  import opened Snapshots

  /** What a caller of the service can tell apart. `dropped` remembers rejected proposals,
      which the service itself forgets. */
  datatype State = State(entries: seq<LedgerEntry>, pending: seq<LedgerEntry>, dropped: seq<LedgerEntry>)

  datatype Failure = DuplicateVote | NotFound | NotFinalizable

  datatype Result<+T> = Ok(value: T) | Err(error: Failure)

  // ---- steps as functions of the state ----

  function DeriveStatus(e: LedgerEntry): Status {
    if e.accepted == Some(false) then Rejected
    else if e.consensus.Some? && e.consensus.value.strategy == QuorumVote then Pending
    else Finalized
  }

  function Certify(e: LedgerEntry, sequence: int): Certificate {
    Certificate(e.id, sequence, e.committedAt, |e.votes|, e.status, Approvals(e.votes), Rejections(e.votes))
  }

  /** The record appendLocked writes: blanks filled in, certificate attached. */
  function Committed(sequence: int, e: LedgerEntry, now: int, fresh': string): LedgerEntry {
    var e1 := e.(
      sequence := sequence,
      id := if e.id == "" then fresh' else e.id,
      proposedAt := if e.proposedAt == 0 then now else e.proposedAt,
      committedAt := if e.committedAt == 0 then now else e.committedAt);
    var e2 := if e.status == Unset then e1.(status := DeriveStatus(e)) else e1;
    e2.(certificate := Some(Certify(e2, sequence)))
  }

  function Appended(s: State, e: LedgerEntry, now: int, fresh': string): State {
    s.(entries := s.entries + [Committed(|s.entries| + 1, e, now, fresh')])
  }

  function ProposedEntry(e: LedgerEntry, now: int, fresh': string): LedgerEntry {
    var e1 := e.(
      id := if e.id == "" then fresh' else e.id,
      proposedAt := if e.proposedAt == 0 then now else e.proposedAt,
      status := Proposed);
    if e.consensus == None then e1
    else
      var req := e.consensus.value;
      e1.(quorum := Some(QuorumState(req.quorumKey, req.required, req.eligible, 0, 0, req.required, 0, false, false, false)))
  }

  function ProposedState(s: State, e: LedgerEntry, now: int, fresh': string): State {
    s.(pending := s.pending + [ProposedEntry(e, now, fresh')])
  }

  function FindPending(pending: seq<LedgerEntry>, id: string): (i: nat)
    ensures i <= |pending|
    ensures i < |pending| ==> pending[i].id == id
    ensures forall k :: 0 <= k < i ==> pending[k].id != id
  {
    if pending == [] || pending[0].id == id then 0 else 1 + FindPending(pending[1..], id)
  }

  function EntryQuorum(e: LedgerEntry): QuorumState {
    BuiltQuorum(e.quorum, e.consensus, e.votes, e.status == Finalized || e.status == Rejected)
  }

  /** A settled proposal leaves the pending list: into the log, or, if rejected, out of the ledger. */
  function Concluded(s: State, i: nat, e: LedgerEntry, now: int, fresh': string): State
    requires i < |s.pending|
  {
    var q := EntryQuorum(e);
    var rest := s.pending[..i] + s.pending[i + 1..];
    var e1 := e.(quorum := Some(q), finalizedAt := now);
    if q.rejected then State(s.entries, rest, s.dropped + [e1.(status := Rejected, rejectedAt := now)])
    else State(s.entries + [Committed(|s.entries| + 1, e1.(status := Finalized, committedAt := now), now, fresh')],
               rest, s.dropped)
  }

  function Stamped(v: Vote, id: string, now: int): Vote {
    v.(entryId := id, votedAt := if v.votedAt == 0 then now else v.votedAt)
  }

  function WithVote(e: LedgerEntry, v: Vote): LedgerEntry {
    var e1 := e.(votes := e.votes + [v]);
    e1.(quorum := Some(EntryQuorum(e1)))
  }

  predicate AutoSettles(e: LedgerEntry) {
    e.consensus.Some? && e.consensus.value.autoFinalize && EntryQuorum(e).finalizable
  }

  function Voted(s: State, id: string, v: Vote, now: int, fresh': string): State {
    var i := FindPending(s.pending, id);
    if i == |s.pending| || v.voter in Voters(s.pending[i].votes) then s
    else
      var e := WithVote(s.pending[i], Stamped(v, id, now));
      if AutoSettles(e) then Concluded(s, i, e, now, fresh') else s.(pending := s.pending[i := e])
  }

  function VoteResult(s: State, id: string, v: Vote, now: int): Result<QuorumState> {
    var i := FindPending(s.pending, id);
    if i == |s.pending| then Err(NotFound)
    else if v.voter in Voters(s.pending[i].votes) then Err(DuplicateVote)
    else Ok(WithVote(s.pending[i], Stamped(v, id, now)).quorum.value)
  }

  function WithQuorum(e: LedgerEntry): LedgerEntry {
    e.(quorum := Some(EntryQuorum(e)))
  }

  function FinalizedState(s: State, id: string, now: int, fresh': string): State {
    var i := FindPending(s.pending, id);
    if i == |s.pending| || !EntryQuorum(s.pending[i]).finalizable then s
    else Concluded(s, i, WithQuorum(s.pending[i]), now, fresh')
  }

  /** The certificate of a concluded proposal; a rejected one gets sequence 0. */
  function ConclusionCertificate(s: State, e: LedgerEntry, now: int, fresh': string): Certificate {
    var q := EntryQuorum(e);
    if q.rejected then Certificate(e.id, 0, now, |e.votes|, Rejected, q.approvals, q.rejections)
    else Certify(Committed(|s.entries| + 1, e.(quorum := Some(q), finalizedAt := now, status := Finalized, committedAt := now),
                           now, fresh'), |s.entries| + 1)
  }

  function FinalizeResult(s: State, id: string, now: int, fresh': string): Result<Certificate> {
    var i := FindPending(s.pending, id);
    if i == |s.pending| then Err(NotFound)
    else if !EntryQuorum(s.pending[i]).finalizable then Err(NotFinalizable)
    else Ok(ConclusionCertificate(s, WithQuorum(s.pending[i]), now, fresh'))
  }

  // ---- the service ----

  class LedgerService {
    var entries: seq<LedgerEntry>
    var pending: seq<LedgerEntry>
    ghost var dropped: seq<LedgerEntry>

    ghost function Current(): State
      reads this
    {
      State(entries, pending, dropped)
    }

    constructor ()
      ensures Current() == State([], [], [])
    {
      entries, pending, dropped := [], [], [];
    }

    method Append(entry: LedgerEntry, now: int, fresh': string) returns (cert: Certificate)
      modifies this
      ensures Current() == Appended(old(Current()), entry, now, fresh')
      ensures cert == Certify(Committed(|old(entries)| + 1, entry, now, fresh'), |old(entries)| + 1)
    {
      cert := AppendLocked(|entries| + 1, entry, now, fresh');
    }

    method AppendLocked(sequence: int, entry: LedgerEntry, now: int, fresh': string) returns (cert: Certificate)
      modifies this`entries
      ensures entries == old(entries) + [Committed(sequence, entry, now, fresh')]
      ensures cert == Certify(Committed(sequence, entry, now, fresh'), sequence)
    {
      var e := entry.(sequence := sequence);
      if e.id == "" {
        e := e.(id := fresh');
      }
      if e.proposedAt == 0 {
        e := e.(proposedAt := now);
      }
      if e.committedAt == 0 {
        e := e.(committedAt := now);
      }
      if e.status == Unset {
        e := e.(status := DeriveStatus(e));
      }
      var approvals, rejections := CountVotes(e.votes);
      cert := Certificate(e.id, e.sequence, e.committedAt, |e.votes|, e.status, approvals, rejections);
      entries := entries + [e.(certificate := Some(cert))];
    }

    method Propose(entry: LedgerEntry, now: int, fresh': string) returns (e: LedgerEntry)
      modifies this
      ensures Current() == ProposedState(old(Current()), entry, now, fresh')
      ensures e == ProposedEntry(entry, now, fresh')
    {
      e := entry;
      if e.id == "" {
        e := e.(id := fresh');
      }
      if e.proposedAt == 0 {
        e := e.(proposedAt := now);
      }
      e := e.(status := Proposed);
      if e.consensus.Some? {
        var req := e.consensus.value;
        e := e.(quorum := Some(QuorumState(req.quorumKey, req.required, req.eligible, 0, 0, req.required, 0, false, false, false)));
      }
      pending := pending + [e];
    }

    method PendingOf(org: string) returns (filtered: seq<LedgerEntry>)
      ensures org == "" ==> filtered == pending
      ensures org != "" ==> forall e :: e in filtered <==> e in pending && e.org == org
    {
      if org == "" {
        return pending;
      }
      filtered := [];
      for i := 0 to |pending|
        invariant forall e :: e in filtered <==> e in pending[..i] && e.org == org
      {
        if pending[i].org == org {
          filtered := filtered + [pending[i]];
        }
      }
    }

    method Find(id: string) returns (i: nat)
      ensures i == FindPending(pending, id)
    {
      i := 0;
      while i < |pending| && pending[i].id != id
        invariant i <= |pending| && forall k :: 0 <= k < i ==> pending[k].id != id
      {
        i := i + 1;
      }
    }

    method CastBefore(votes: seq<Vote>, voter: string) returns (found: bool)
      ensures found <==> voter in Voters(votes)
    {
      for k := 0 to |votes|
        invariant forall j :: 0 <= j < k ==> votes[j].voter != voter
      {
        if votes[k].voter == voter {
          VotersAre(votes, voter);
          return true;
        }
      }
      VotersAre(votes, voter);
      found := false;
    }

    method Vote(id: string, vote: Vote, now: int, fresh': string) returns (r: Result<QuorumState>)
      modifies this
      ensures Current() == Voted(old(Current()), id, vote, now, fresh')
      ensures r == VoteResult(old(Current()), id, vote, now)
    {
      hide Voters, EntryQuorum, Committed, FindPending;
      var i := Find(id);
      if i == |pending| {
        return Err(NotFound);
      }
      var duplicate := CastBefore(pending[i].votes, vote.voter);
      if duplicate {
        return Err(DuplicateVote);
      }
      var v := Stamped(vote, id, now);
      var e := pending[i].(votes := pending[i].votes + [v]);
      var quorum := QuorumOf(e);
      e := e.(quorum := Some(quorum));
      r := Ok(quorum);
      QuorumStable(pending[i].(votes := pending[i].votes + [v]));
      if e.consensus.Some? && e.consensus.value.autoFinalize && quorum.finalizable {
        var cert := FinalizePendingEntryLocked(i, e, now, fresh');
      } else {
        pending := pending[i := e];
      }
    }

    method QuorumOf(e: LedgerEntry) returns (q: QuorumState)
      ensures q == EntryQuorum(e)
    {
      q := BuildQuorumState(e.quorum, e.consensus, e.votes, e.status == Finalized || e.status == Rejected);
    }

    /** Concludes the entry and removes it from the pending list. */
    method FinalizePendingEntryLocked(i: nat, entry: LedgerEntry, now: int, fresh': string) returns (cert: Certificate)
      requires i < |pending|
      modifies this
      ensures Current() == Concluded(old(Current()), i, entry, now, fresh')
      ensures cert == ConclusionCertificate(old(Current()), entry, now, fresh')
    {
      hide EntryQuorum, Committed, Certify;
      var quorum := QuorumOf(entry);
      var e := entry.(quorum := Some(quorum), finalizedAt := now);
      if quorum.rejected {
        e := e.(status := Rejected, rejectedAt := now);
        dropped := dropped + [e];
        cert := Certificate(e.id, 0, now, |e.votes|, Rejected, quorum.approvals, quorum.rejections);
      } else {
        e := e.(status := Finalized, committedAt := now);
        cert := AppendLocked(|entries| + 1, e, now, fresh');
      }
      pending := pending[..i] + pending[i + 1..];
    }

    method Finalize(id: string, now: int, fresh': string) returns (r: Result<Certificate>)
      modifies this
      ensures Current() == FinalizedState(old(Current()), id, now, fresh')
      ensures r == FinalizeResult(old(Current()), id, now, fresh')
    {
      hide EntryQuorum, FindPending, Concluded, ConclusionCertificate;
      var i := Find(id);
      if i == |pending| {
        return Err(NotFound);
      }
      var quorum := QuorumOf(pending[i]);
      if !quorum.finalizable {
        return Err(NotFinalizable);
      }
      var cert := FinalizePendingEntryLocked(i, pending[i].(quorum := Some(quorum)), now, fresh');
      r := Ok(cert);
    }

    method LatestSnapshot(org: string, now: int) returns (s: Snapshot)
      ensures s == Latest(entries, org, now)
    {
      s := ReplaySnapshot(entries, org, now);
    }

    /** Reads the snapshot, applies the event, appends both; sequential callers only. */
    method AppendVoiceEvent(ev: VoiceEvent, now: int, fresh': string) returns (cert: Certificate)
      requires now > 0
      modifies this
      ensures Current() == Appended(old(Current()), VoiceEntry(old(entries), ev, now), now, fresh')
      ensures var s := Latest(old(entries), ev.org, now);
        forall later :: Latest(entries, ev.org, later)
          == VoiceApplied(s, ev).(updatedAt := Max(s.updatedAt, Max(ev.createdAt, now)), ledgerSequence := |entries|)
    {
      var snapshot := LatestSnapshot(ev.org, now);
      snapshot := ApplyVoiceEvent(snapshot, ev);
      ghost var before := entries;
      var entry := BLANK.(id := ev.id, org := ev.org, kind := "voice", actor := ev.actor, voice := Some(ev),
                          snapshot := Some(snapshot), committedAt := Max(ev.createdAt, now));
      cert := Append(entry, now, fresh');
      forall later: int
        ensures Latest(entries, ev.org, later)
          == VoiceApplied(Latest(before, ev.org, now), ev).(
               updatedAt := Max(Latest(before, ev.org, now).updatedAt, Max(ev.createdAt, now)), ledgerSequence := |entries|)
      {
        VoiceReplayAgrees(before, ev, Committed(|before| + 1, entry, now, fresh'), now, later);
      }
    }

    /** Reads the snapshot, upserts the schedule, appends; sequential callers only. */
    method AppendSchedule(sched: Schedule, sig: Signal, now: int, fresh': string) returns (cert: Certificate)
      requires now > 0
      modifies this
      ensures Current() == Appended(old(Current()), ScheduleEntry(old(entries), sched, sig, fresh', now), now, fresh')
      ensures var s := Scheduled(Latest(old(entries), sig.org, now), sched, sig);
        forall later :: Latest(entries, sig.org, later)
          == s.(updatedAt := Max(s.updatedAt, Max(sig.createdAt, now)), ledgerSequence := |entries|)
    {
      var snapshot := LatestSnapshot(sig.org, now);
      var schedules := Upsert(snapshot.openSchedules, ScheduleKey(), sched);
      snapshot := snapshot.(openSchedules := schedules, lastSignal := Some(sig), updatedAt := Max(snapshot.updatedAt, sig.createdAt));
      ghost var before := entries;
      var entry := BLANK.(id := fresh', org := sig.org, kind := "schedule", actor := sched.actor, signal := Some(sig),
                          snapshot := Some(snapshot), committedAt := Max(sig.createdAt, now));
      cert := Append(entry, now, fresh');
      forall later: int
        ensures Latest(entries, sig.org, later)
          == Scheduled(Latest(before, sig.org, now), sched, sig).(
               updatedAt := Max(Scheduled(Latest(before, sig.org, now), sched, sig).updatedAt, Max(sig.createdAt, now)),
               ledgerSequence := |entries|)
      {
        ScheduleReplayAgrees(before, sched, sig, Committed(|before| + 1, entry, now, fresh'), now, later);
      }
    }
  }

  /** Building the quorum again from the entry that already carries it changes nothing. */
  lemma QuorumStable(e: LedgerEntry)
    ensures EntryQuorum(WithQuorum(e)) == EntryQuorum(e)
  {
    hide Approvals, Rejections;
  }
}
