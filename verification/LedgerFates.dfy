/** Where each proposal ends up, over whole runs of the ledger (ledger.go). */
module LedgerFates {
  import opened Text
  import opened Sorting
  import opened Quorum
  import opened Tally
  import opened LedgerTypes
  import opened Ledger
  import opened LedgerRuns

  // ---- a census of identifiers ----

  function IdsOf(es: seq<LedgerEntry>): (r: seq<string>)
    ensures |r| == |es|
    ensures forall i :: 0 <= i < |es| ==> r[i] == es[i].id
  {
    seq(|es|, i requires 0 <= i < |es| => es[i].id)
  }

  function Count(es: seq<LedgerEntry>, id: string): nat {
    multiset(IdsOf(es))[id]
  }

  /** How often an identifier occurs in the ledger, wherever it is. */
  function Census(s: State, id: string): nat {
    Count(s.entries, id) + Count(s.pending, id) + Count(s.dropped, id)
  }

  /** The identifier an operation brings into the ledger, if any. */
  function Born(op: Op): Option<string> {
    if op.OpAppend? || op.OpPropose? then Some(if op.entry.id == "" then op.fresh' else op.entry.id) else None
  }

  function Births(ops: seq<Op>, id: string): nat {
    if ops == [] then 0 else Births(ops[..|ops| - 1], id) + if Born(ops[|ops| - 1]) == Some(id) then 1 else 0
  }

  lemma CountOne(es: seq<LedgerEntry>, e: LedgerEntry, id: string)
    ensures Count(es + [e], id) == Count(es, id) + if e.id == id then 1 else 0
  {
    assert IdsOf(es + [e]) == IdsOf(es) + [e.id];
  }

  lemma CountPushed(es: seq<LedgerEntry>, es': seq<LedgerEntry>, id: string)
    requires |es'| == |es| + 1 && es'[..|es|] == es
    ensures Count(es', id) == Count(es, id) + if es'[|es|].id == id then 1 else 0
  {
    hide Count;
    assert es' == es + [es'[|es|]];
    CountOne(es, es'[|es|], id);
  }

  lemma CountUpdated(es: seq<LedgerEntry>, i: nat, e: LedgerEntry, id: string)
    requires i < |es| && e.id == es[i].id
    ensures Count(es[i := e], id) == Count(es, id)
  {
    assert IdsOf(es[i := e]) == IdsOf(es);
  }

  lemma CountRemoved(es: seq<LedgerEntry>, i: nat, id: string)
    requires i < |es|
    ensures Count(es[..i] + es[i + 1..], id) == Count(es, id) - if es[i].id == id then 1 else 0
  {
    var ids := IdsOf(es);
    assert IdsOf(es[..i] + es[i + 1..]) == ids[..i] + ids[i + 1..];
    RemoveOne(ids, i);
    assert ids[i] in multiset(ids);
  }

  lemma CountIsMembership(es: seq<LedgerEntry>, id: string)
    ensures Count(es, id) > 0 <==> exists i :: 0 <= i < |es| && es[i].id == id
  {
    var ids := IdsOf(es);
    assert id in multiset(ids) <==> id in ids;
    if i :| 0 <= i < |es| && es[i].id == id {
      assert ids[i] == id;
    }
  }

  /** Concluding moves one proposal; it is neither lost nor copied. */
  lemma ConcludeMoves(s: State, i: nat, e: LedgerEntry, now: int, fresh': string, id: string)
    requires i < |s.pending| && EntryQuorum(e).finalizable && e.id == s.pending[i].id != ""
    ensures Census(Concluded(s, i, e, now, fresh'), id) == Census(s, id)
  {
    ConcludeEffect(s, i, e, now, fresh');
    hide EntryQuorum, Concluded, Approved, Refused, WellCertified, Count;
    var t := Concluded(s, i, e, now, fresh');
    CountRemoved(s.pending, i, id);
    if EntryQuorum(e).rejected {
      CountPushed(s.dropped, t.dropped, id);
    } else {
      CountPushed(s.entries, t.entries, id);
    }
  }

  lemma StepCensus(s: State, op: Op, id: string)
    requires Named(s.pending) && op.fresh' != ""
    ensures Named(Step(s, op).pending)
    ensures Census(Step(s, op), id) == Census(s, id) + if Born(op) == Some(id) then 1 else 0
  {
    hide Count, EntryQuorum, AutoSettles, Concluded, FindPending, Voted, FinalizedState, Voters;
    match op {
      case OpAppend(e, now, fresh') =>
        CommittedIsCertified(|s.entries| + 1, e, now, fresh');
        CountOne(s.entries, Committed(|s.entries| + 1, e, now, fresh'), id);
      case OpPropose(e, now, fresh') =>
        CountOne(s.pending, ProposedEntry(e, now, fresh'), id);
      case OpVote(id', v, now, fresh') =>
        VoteEffect(s, id', v, now, fresh');
        var i := FindPending(s.pending, id');
        if i < |s.pending| && v.voter !in Voters(s.pending[i].votes) {
          var e := WithVote(s.pending[i], Stamped(v, id', now));
          assert Revised(s.pending[i], e);
          CountUpdated(s.pending, i, e, id);
          AutoSettlesIsFinalizable(e);
          if AutoSettles(e) {
            ConcludeMoves(s, i, e, now, fresh', id);
            ConcludeEffect(s, i, e, now, fresh');
          }
        }
      case OpFinalize(id', now, fresh') =>
        FinalizeEffect(s, id', now, fresh');
        var i := FindPending(s.pending, id');
        if i < |s.pending| && EntryQuorum(s.pending[i]).finalizable {
          QuorumStable(s.pending[i]);
          ConcludeMoves(s, i, WithQuorum(s.pending[i]), now, fresh', id);
          ConcludeEffect(s, i, WithQuorum(s.pending[i]), now, fresh');
        }
    }
  }

  /** Conservation: the ledger holds each identifier exactly as often as it was brought in. */
  lemma {:induction false} RunCensus(s: State, ops: seq<Op>, id: string)
    requires Named(s.pending) && Generated(ops)
    ensures Named(Run(s, ops).pending)
    ensures Census(Run(s, ops), id) == Census(s, id) + Births(ops, id)
  {
    hide Step, Named, Census, Born;
    if ops != [] {
      RunCensus(s, ops[..|ops| - 1], id);
      StepCensus(Run(s, ops[..|ops| - 1]), ops[|ops| - 1], id);
    }
  }

  // ---- the first pending entry of a name ----

  function Located(pending: seq<LedgerEntry>, id: string): Option<LedgerEntry> {
    var i := FindPending(pending, id);
    if i < |pending| then Some(pending[i]) else None
  }

  lemma FindPendingIs(pending: seq<LedgerEntry>, id: string, i: nat)
    requires i < |pending| && pending[i].id == id && forall k :: 0 <= k < i ==> pending[k].id != id
    ensures FindPending(pending, id) == i
  {
  }

  lemma LocatedPushed(pending: seq<LedgerEntry>, e: LedgerEntry, id: string)
    requires e.id != id
    ensures Located(pending + [e], id) == Located(pending, id)
  {
    var i := FindPending(pending, id);
    if i < |pending| {
      FindPendingIs(pending + [e], id, i);
    }
  }

  lemma LocatedUpdated(pending: seq<LedgerEntry>, j: nat, e: LedgerEntry, id: string)
    requires j < |pending| && e.id == pending[j].id
    ensures e.id != id ==> Located(pending[j := e], id) == Located(pending, id)
    ensures j == FindPending(pending, id) ==> Located(pending[j := e], id) == Some(e)
  {
    var i := FindPending(pending, id);
    if i < |pending| {
      FindPendingIs(pending[j := e], id, i);
    }
  }

  lemma LocatedRemoved(pending: seq<LedgerEntry>, j: nat, id: string)
    requires j < |pending| && pending[j].id != id
    ensures Located(pending[..j] + pending[j + 1..], id) == Located(pending, id)
  {
    var i := FindPending(pending, id);
    var rest := pending[..j] + pending[j + 1..];
    if i < |pending| {
      FindPendingIs(rest, id, if i < j then i else i - 1);
    }
  }

  lemma LocatedByCount(pending: seq<LedgerEntry>, id: string)
    ensures Located(pending, id).Some? <==> Count(pending, id) > 0
  {
    CountIsMembership(pending, id);
    var i := FindPending(pending, id);
    if i < |pending| {
      assert pending[i].id == id;
    }
  }

  // ---- the ballots of one proposal ----

  datatype Ballot = Cast(vote: Vote) | Close

  /** What is addressed to `id`: votes, as the service stamps them, and finalisations. */
  function Ballots(ops: seq<Op>, id: string): seq<Ballot> {
    if ops == [] then []
    else Ballots(ops[..|ops| - 1], id) + Addressed(ops[|ops| - 1], id)
  }

  function Addressed(op: Op, id: string): seq<Ballot> {
    match op
    case OpVote(id', v, now, _) => if id' == id then [Cast(Stamped(v, id, now))] else []
    case OpFinalize(id', _, _) => if id' == id then [Close] else []
    case _ => []
  }

  /** What a proposal is held to. Without a requirement of its own it is its stored quorum,
      and then nothing finalises it but a call. */
  datatype Terms = Terms(required: int, eligible: int, autoFinalize: bool)

  function TermsOf(e: LedgerEntry): Terms {
    Terms(EntryQuorum(e).required, |EntryQuorum(e).eligible|, e.consensus.Some? && e.consensus.value.autoFinalize)
  }

  /** How far a proposal has come: its fate, and the votes counted towards it. */
  datatype Course = Course(fate: Fate, votes: seq<Vote>)

  function FateAt(t: Terms, votes: seq<Vote>): Fate {
    FateNow(t.required, t.eligible, Approvals(votes), Rejections(votes))
  }

  function Next(t: Terms, c: Course, b: Ballot): Course {
    if c.fate != Open then c
    else
      match b
      case Cast(v) =>
        if v.voter in Voters(c.votes) then c
        else Course(if t.autoFinalize then FateAt(t, c.votes + [v]) else Open, c.votes + [v])
      case Close => Course(FateAt(t, c.votes), c.votes)
  }

  /** The course of a proposal that came with `cast` votes. */
  function Followed(t: Terms, cast: seq<Vote>, bs: seq<Ballot>): Course {
    if bs == [] then Course(Open, cast) else Next(t, Followed(t, cast, bs[..|bs| - 1]), bs[|bs| - 1])
  }

  /** An open proposal as the pending list holds it. */
  ghost predicate Awaits(e: LedgerEntry, p: LedgerEntry, votes: seq<Vote>) {
    e.votes == votes && e.consensus == p.consensus && e.status == Proposed && TermsOf(e) == TermsOf(p)
  }

  ghost predicate HeldTo(r: LedgerEntry, p: LedgerEntry, votes: seq<Vote>) {
    && r.votes == votes && r.consensus == p.consensus
    && r.quorum.Some? && r.quorum.value.required == TermsOf(p).required && |r.quorum.value.eligible| == TermsOf(p).eligible
  }

  /** The log holds the proposal's record: its terms, the votes that decided, enough approvals. */
  ghost predicate Logged(es: seq<LedgerEntry>, id: string, p: LedgerEntry, votes: seq<Vote>) {
    exists r :: r in es && r.id == id && HeldTo(r, p, votes) && Approved(r)
  }

  /** The refused proposals include it: its terms, the votes that decided, too many rejections. */
  ghost predicate Discarded(es: seq<LedgerEntry>, id: string, p: LedgerEntry, votes: seq<Vote>) {
    exists r :: r in es && r.id == id && HeldTo(r, p, votes) && Refused(r)
  }

  lemma RecordsStay(s: State, t: State, id: string, p: LedgerEntry, votes: seq<Vote>)
    requires s.entries <= t.entries && s.dropped <= t.dropped
    ensures Logged(s.entries, id, p, votes) ==> Logged(t.entries, id, p, votes)
    ensures Discarded(s.dropped, id, p, votes) ==> Discarded(t.dropped, id, p, votes)
  {
    hide Approved, Refused, HeldTo;
  }

  /** Where the proposal `p` is, and as what, given its course. */
  ghost predicate Placed(s: State, id: string, p: LedgerEntry, c: Course) {
    match c.fate
    case Open =>
      && Count(s.entries, id) == 0 && Count(s.pending, id) == 1 && Count(s.dropped, id) == 0
      && Located(s.pending, id).Some? && Awaits(Located(s.pending, id).value, p, c.votes)
    case Final =>
      && Count(s.entries, id) == 1 && Count(s.pending, id) == 0 && Count(s.dropped, id) == 0
      && Logged(s.entries, id, p, c.votes)
    case Dropped =>
      && Count(s.entries, id) == 0 && Count(s.pending, id) == 0 && Count(s.dropped, id) == 1
      && Discarded(s.dropped, id, p, c.votes)
  }

  lemma OpenQuorum(e: LedgerEntry, p: LedgerEntry, votes: seq<Vote>)
    requires Awaits(e, p, votes)
    ensures EntryQuorum(e).finalizable <==> FateAt(TermsOf(p), votes) != Open
    ensures EntryQuorum(e).rejected <==> FateAt(TermsOf(p), votes) == Dropped
    ensures AutoSettles(e) <==> TermsOf(p).autoFinalize && FateAt(TermsOf(p), votes) != Open
  {
    QuorumCounts(e);
    AutoSettlesIsFinalizable(e);
    hide EntryQuorum, AutoSettles, Approvals, Rejections;
  }

  /** Counting changes neither what is required nor who is eligible. */
  lemma StillAwaits(e: LedgerEntry, p: LedgerEntry, votes: seq<Vote>, v: Vote)
    requires Awaits(e, p, votes)
    ensures Awaits(WithVote(e, v), p, votes + [v]) && Awaits(WithQuorum(e), p, votes)
  {
    hide Approvals, Rejections, Settled, RejectedEarly;
  }

  /** A counted vote puts the proposal where its course goes. */
  lemma VotePlaces(s: State, id: string, v: Vote, now: int, fresh': string, p: LedgerEntry, c: Course)
    requires id != "" && c.fate == Open && Placed(s, id, p, c) && v.voter !in Voters(c.votes)
    ensures Placed(Voted(s, id, v, now, fresh'), id, p, Next(TermsOf(p), c, Cast(Stamped(v, id, now))))
  {
    var i, v' := FindPending(s.pending, id), Stamped(v, id, now);
    var e := WithVote(s.pending[i], v');
    hide Count, EntryQuorum, Concluded, AutoSettles, FindPending, Voted, Voters, Logged, Discarded, FateAt, TermsOf, Awaits;
    VoteEffect(s, id, v, now, fresh');
    StillAwaits(s.pending[i], p, c.votes, v');
    assert Revised(s.pending[i], e);
    OpenQuorum(e, p, c.votes + [v']);
    AutoSettlesIsFinalizable(e);
    if AutoSettles(e) {
      SettledPlaces(s, i, e, now, fresh', id, p, c.votes + [v']);
    } else {
      CountUpdated(s.pending, i, e, id);
      LocatedUpdated(s.pending, i, e, id);
    }
  }

  lemma SettledPlaces(s: State, i: nat, e: LedgerEntry, now: int, fresh': string, id: string, p: LedgerEntry, votes: seq<Vote>)
    requires i < |s.pending| && s.pending[i].id == id == e.id && id != ""
    requires Count(s.entries, id) == 0 && Count(s.pending, id) == 1 && Count(s.dropped, id) == 0
    requires Awaits(e, p, votes) && EntryQuorum(e).finalizable
    ensures Placed(Concluded(s, i, e, now, fresh'), id, p, Course(FateAt(TermsOf(p), votes), votes))
  {
    hide Count, EntryQuorum, Concluded, FateAt, Approved, Refused, WellCertified;
    OpenQuorum(e, p, votes);
    ConcludeEffect(s, i, e, now, fresh');
    var t := Concluded(s, i, e, now, fresh');
    CountRemoved(s.pending, i, id);
    if EntryQuorum(e).rejected {
      CountPushed(s.dropped, t.dropped, id);
      assert HeldTo(t.dropped[|s.dropped|], p, votes);
    } else {
      CountPushed(s.entries, t.entries, id);
      assert HeldTo(t.entries[|s.entries|], p, votes);
    }
  }

  /** An operation that does not touch the proposal leaves it where it is. */
  lemma ElsewherePlaces(s: State, op: Op, id: string, p: LedgerEntry, c: Course)
    requires Placed(s, id, p, c) && Named(s.pending) && op.fresh' != "" && Born(op) != Some(id)
    requires (op.OpVote? || op.OpFinalize?) ==> op.id != id
    ensures Placed(Step(s, op), id, p, c)
  {
    hide Count, Located, EntryQuorum, AutoSettles, Concluded, FindPending, Voted, FinalizedState, Voters, Logged, Discarded, Awaits;
    match op {
      case OpAppend(e, now, fresh') =>
        RecordsStay(s, Step(s, op), id, p, c.votes);
        CommittedIsCertified(|s.entries| + 1, e, now, fresh');
        CountOne(s.entries, Committed(|s.entries| + 1, e, now, fresh'), id);
      case OpPropose(e, now, fresh') =>
        CountOne(s.pending, ProposedEntry(e, now, fresh'), id);
        LocatedPushed(s.pending, ProposedEntry(e, now, fresh'), id);
      case OpVote(id', v, now, fresh') =>
        VoteEffect(s, id', v, now, fresh');
        var i := FindPending(s.pending, id');
        if i < |s.pending| && v.voter !in Voters(s.pending[i].votes) {
          var e := WithVote(s.pending[i], Stamped(v, id', now));
          assert Revised(s.pending[i], e);
          AutoSettlesIsFinalizable(e);
          if AutoSettles(e) {
            OtherConcluded(s, i, e, now, fresh', id);
            RecordsStay(s, Concluded(s, i, e, now, fresh'), id, p, c.votes);
          } else {
            CountUpdated(s.pending, i, e, id);
            LocatedUpdated(s.pending, i, e, id);
          }
        }
      case OpFinalize(id', now, fresh') =>
        FinalizeEffect(s, id', now, fresh');
        var i := FindPending(s.pending, id');
        if i < |s.pending| && EntryQuorum(s.pending[i]).finalizable {
          QuorumStable(s.pending[i]);
          OtherConcluded(s, i, WithQuorum(s.pending[i]), now, fresh', id);
          RecordsStay(s, Concluded(s, i, WithQuorum(s.pending[i]), now, fresh'), id, p, c.votes);
        }
    }
  }

  lemma OtherConcluded(s: State, i: nat, e: LedgerEntry, now: int, fresh': string, id: string)
    requires i < |s.pending| && EntryQuorum(e).finalizable && e.id == s.pending[i].id != "" && e.id != id
    ensures var t := Concluded(s, i, e, now, fresh');
      && Count(t.entries, id) == Count(s.entries, id)
      && Count(t.pending, id) == Count(s.pending, id)
      && Count(t.dropped, id) == Count(s.dropped, id)
      && Located(t.pending, id) == Located(s.pending, id)
      && s.entries <= t.entries && s.dropped <= t.dropped
  {
    hide Count, Located, EntryQuorum, Concluded, Approved, Refused, WellCertified;
    ConcludeEffect(s, i, e, now, fresh');
    var t := Concluded(s, i, e, now, fresh');
    CountRemoved(s.pending, i, id);
    LocatedRemoved(s.pending, i, id);
    if EntryQuorum(e).rejected {
      CountPushed(s.dropped, t.dropped, id);
    } else {
      CountPushed(s.entries, t.entries, id);
    }
  }

  /** The proposal is gone from the pending list: votes and finalisations find nothing. */
  lemma GoneStays(s: State, op: Op, id: string)
    requires Count(s.pending, id) == 0
    requires (op.OpVote? || op.OpFinalize?) && op.id == id
    ensures Step(s, op) == s
  {
    LocatedByCount(s.pending, id);
    hide Count, EntryQuorum, AutoSettles, Concluded, FindPending;
  }

  /** A repeated vote is refused. */
  lemma RepeatRefused(s: State, op: Op, id: string, p: LedgerEntry, c: Course)
    requires c.fate == Open && Placed(s, id, p, c)
    requires op.OpVote? && op.id == id && op.vote.voter in Voters(c.votes)
    ensures Step(s, op) == s
  {
    hide Count, EntryQuorum, AutoSettles, Concluded, FindPending, Voters, Logged, Discarded, TermsOf;
  }

  /** A finalisation concludes a proposal whose votes settle it, and is refused otherwise. */
  lemma FinalizePlaces(s: State, id: string, now: int, fresh': string, p: LedgerEntry, c: Course)
    requires id != "" && c.fate == Open && Placed(s, id, p, c)
    ensures Placed(FinalizedState(s, id, now, fresh'), id, p, Next(TermsOf(p), c, Close))
  {
    var i := FindPending(s.pending, id);
    hide Count, EntryQuorum, Concluded, AutoSettles, FindPending, FinalizedState, Voters, Logged, Discarded, FateAt, TermsOf, Awaits;
    FinalizeEffect(s, id, now, fresh');
    var e := s.pending[i];
    OpenQuorum(e, p, c.votes);
    if EntryQuorum(e).finalizable {
      StillAwaits(e, p, c.votes, Vote("", "", false, "", 0));
      QuorumStable(e);
      assert Revised(e, WithQuorum(e));
      SettledPlaces(s, i, WithQuorum(e), now, fresh', id, p, c.votes);
    }
  }

  /** Safety over every interleaved run: at any moment a proposal is in the one place, and is
      there the one record, that the votes and finalisations addressed to it determine, be it
      finalised automatically or by a call, whatever it requires, whatever votes it came with.
      Other proposals, direct appends, repeated votes, late votes and early finalisations
      change nothing. */
  lemma {:induction false} EveryProposalIsPlaced(s0: State, e: LedgerEntry, now: int, fresh': string, ops: seq<Op>, id: string)
    requires Named(s0.pending) && fresh' != "" && Generated(ops)
    requires id == ProposedEntry(e, now, fresh').id && Census(s0, id) == 0 && Births(ops, id) == 0
    ensures var p := ProposedEntry(e, now, fresh');
      Placed(Run(ProposedState(s0, e, now, fresh'), ops), id, p, Followed(TermsOf(p), e.votes, Ballots(ops, id)))
    decreases |ops|
  {
    var p, s1 := ProposedEntry(e, now, fresh'), ProposedState(s0, e, now, fresh');
    if ops == [] {
      JustProposed(s0, e, now, fresh');
    } else {
      hide Step, Placed, Census, Count, Born, ProposedState, ProposedEntry, Followed, Addressed, TermsOf;
      var front, op := ops[..|ops| - 1], ops[|ops| - 1];
      assert ops == front + [op];
      EveryProposalIsPlaced(s0, e, now, fresh', front, id);
      ProposedNamed(s0, e, now, fresh');
      RunCensus(s1, front, id);
      OneStepPlaces(Run(s1, front), op, id, p, Followed(TermsOf(p), e.votes, Ballots(front, id)));
      OneMoreBallot(TermsOf(p), e.votes, Ballots(front, id), op, id);
    }
  }

  lemma OneMoreBallot(t: Terms, cast: seq<Vote>, bs: seq<Ballot>, op: Op, id: string)
    ensures Followed(t, cast, bs + Addressed(op, id)) == AfterOp(t, Followed(t, cast, bs), op, id)
  {
    hide Next;
    if Addressed(op, id) == [] {
      assert bs + Addressed(op, id) == bs;
    } else {
      assert (bs + Addressed(op, id))[..|bs|] == bs;
    }
  }

  function AfterOp(t: Terms, c: Course, op: Op, id: string): Course {
    if Addressed(op, id) == [] then c else Next(t, c, Addressed(op, id)[0])
  }

  lemma ProposedNamed(s0: State, e: LedgerEntry, now: int, fresh': string)
    requires Named(s0.pending) && fresh' != ""
    ensures Named(ProposedState(s0, e, now, fresh').pending)
    ensures ProposedEntry(e, now, fresh').id != ""
  {
  }

  lemma JustProposed(s0: State, e: LedgerEntry, now: int, fresh': string)
    requires Census(s0, ProposedEntry(e, now, fresh').id) == 0
    ensures var p := ProposedEntry(e, now, fresh');
      Placed(ProposedState(s0, e, now, fresh'), p.id, p, Course(Open, e.votes))
  {
    hide Count, TermsOf;
    var p := ProposedEntry(e, now, fresh');
    CountOne(s0.pending, p, p.id);
    LocatedByCount(s0.pending, p.id);
    FindPendingIs(s0.pending + [p], p.id, |s0.pending|);
  }

  lemma OneStepPlaces(s: State, op: Op, id: string, p: LedgerEntry, c: Course)
    requires Placed(s, id, p, c) && Named(s.pending) && op.fresh' != "" && Born(op) != Some(id) && id != ""
    ensures Placed(Step(s, op), id, p, AfterOp(TermsOf(p), c, op, id))
  {
    hide Step, Voted, FinalizedState, Voters, Count, Located, Logged, Discarded, Awaits, TermsOf, FateAt;
    StepIs(s, op);
    if (!op.OpVote? && !op.OpFinalize?) || op.id != id {
      ElsewherePlaces(s, op, id, p, c);
    } else if c.fate != Open {
      GoneStays(s, op, id);
    } else if op.OpFinalize? {
      FinalizePlaces(s, id, op.now, op.fresh', p, c);
    } else if op.vote.voter !in Voters(c.votes) {
      VotePlaces(s, id, op.vote, op.now, op.fresh', p, c);
    } else {
      RepeatRefused(s, op, id, p, c);
    }
  }

  // ---- automatic finalisation: the first votes alone decide ----

  /** The votes cast on `id`, each voter's first one only, as the service stamps them. */
  function FirstVotes(ops: seq<Op>, id: string): seq<Vote> {
    if ops == [] then []
    else
      var rest := FirstVotes(ops[..|ops| - 1], id);
      var op := ops[|ops| - 1];
      if op.OpVote? && op.id == id && op.vote.voter !in Voters(rest) then rest + [Stamped(op.vote, id, op.now)] else rest
  }

  lemma {:induction false} FirstVotesDistinct(ops: seq<Op>, id: string)
    ensures DistinctVoters(FirstVotes(ops, id))
  {
    if ops != [] {
      FirstVotesDistinct(ops[..|ops| - 1], id);
      var op := ops[|ops| - 1];
      if op.OpVote? && op.vote.voter !in Voters(FirstVotes(ops[..|ops| - 1], id)) {
        DistinctAfterVote(FirstVotes(ops[..|ops| - 1], id), Stamped(op.vote, id, op.now));
      }
    }
  }

  /** The course that the walk over the prefixes of the votes describes. */
  function Walked(t: Terms, votes: seq<Vote>): Course {
    Course(Decide(t.required, t.eligible, votes), Deciding(t.required, t.eligible, votes))
  }

  lemma OpenIsUnsettled(t: Terms, votes: seq<Vote>)
    requires Decide(t.required, t.eligible, votes) == Open && (t.required >= 1 || votes != [])
    ensures FateAt(t, votes) == Open && Deciding(t.required, t.eligible, votes) == votes
  {
    hide Approvals, Rejections;
    NoVotesYet();
  }

  lemma NoVotesYet()
    ensures Approvals([]) == 0 && Rejections([]) == 0
  {
  }

  /** Under automatic finalisation the course is the walk over the first votes; finalisations
      change nothing, unless nothing is required and one comes before the first vote. */
  lemma {:induction false} AutomaticCourse(t: Terms, ops: seq<Op>, id: string)
    requires t.autoFinalize
    requires t.required >= 1 || forall op :: op in ops && op.OpFinalize? ==> op.id != id
    ensures Followed(t, [], Ballots(ops, id)) == Walked(t, FirstVotes(ops, id))
    decreases |ops|
  {
    if ops != [] {
      hide Followed, Walked, FateAt, Voters, Decide, Deciding;
      var front, op := ops[..|ops| - 1], ops[|ops| - 1];
      assert ops == front + [op];
      AutomaticCourse(t, front, id);
      OneMoreBallot(t, [], Ballots(front, id), op, id);
      WalkStep(t, FirstVotes(front, id), op, id);
    } else {
      NothingWalked(t);
    }
  }

  lemma NothingWalked(t: Terms)
    ensures Followed(t, [], []) == Walked(t, [])
  {
  }

  lemma WalkStep(t: Terms, votes: seq<Vote>, op: Op, id: string)
    requires t.autoFinalize && (t.required >= 1 || (op.OpFinalize? ==> op.id != id))
    ensures AfterOp(t, Walked(t, votes), op, id)
         == Walked(t, if op.OpVote? && op.id == id && op.vote.voter !in Voters(votes) then votes + [Stamped(op.vote, id, op.now)]
                      else votes)
  {
    hide Voters, Decide, Deciding, Approvals, Rejections;
    if op.OpVote? && op.id == id {
      var v := Stamped(op.vote, id, op.now);
      OneMoreFate(t.required, t.eligible, votes, v);
      OneMoreDeciding(t.required, t.eligible, votes, v);
    }
    if Decide(t.required, t.eligible, votes) == Open && (t.required >= 1 || votes != []) {
      OpenIsUnsettled(t, votes);
    }
    OpenCountsAll(t, votes);
  }

  lemma OpenCountsAll(t: Terms, votes: seq<Vote>)
    ensures Decide(t.required, t.eligible, votes) == Open ==> Deciding(t.required, t.eligible, votes) == votes
  {
    hide Approvals, Rejections;
  }

  lemma TermsAreOwn(e: LedgerEntry, now: int, fresh': string)
    requires e.consensus.Some?
    ensures var req := e.consensus.value;
      TermsOf(ProposedEntry(e, now, fresh')) == Terms(req.required, |req.eligible|, req.autoFinalize)
  {
    hide Approvals, Rejections;
  }

  /** Hence a proposal under automatic finalisation is where the fate of its first votes says,
      as the record of the votes that decided it. */
  lemma ProposalIsPlaced(s0: State, e: LedgerEntry, now: int, fresh': string, ops: seq<Op>, id: string)
    requires Named(s0.pending) && fresh' != "" && Generated(ops)
    requires id == ProposedEntry(e, now, fresh').id && Census(s0, id) == 0 && Births(ops, id) == 0
    requires e.votes == [] && e.consensus.Some? && e.consensus.value.autoFinalize
    requires e.consensus.value.required >= 1 || forall op :: op in ops && op.OpFinalize? ==> op.id != id
    ensures var p, req, votes := ProposedEntry(e, now, fresh'), e.consensus.value, FirstVotes(ops, id);
      Placed(Run(ProposedState(s0, e, now, fresh'), ops), id, p,
             Course(Decide(req.required, |req.eligible|, votes), Deciding(req.required, |req.eligible|, votes)))
  {
    hide Run, Placed, Census, Births, ProposedState, ProposedEntry, FirstVotes, Followed, TermsOf, Decide, Deciding, Ballots;
    EveryProposalIsPlaced(s0, e, now, fresh', ops, id);
    TermsAreOwn(e, now, fresh');
    AutomaticCourse(TermsOf(ProposedEntry(e, now, fresh')), ops, id);
  }

  // ---- finalisation by a call: the tallies at the call alone decide ----

  /** Each voter's first vote, whatever was decided meanwhile. */
  function Counted(cast: seq<Vote>, bs: seq<Ballot>): seq<Vote> {
    if bs == [] then cast
    else
      var before, b := Counted(cast, bs[..|bs| - 1]), bs[|bs| - 1];
      if b.Cast? && b.vote.voter !in Voters(before) then before + [b.vote] else before
  }

  /** The call that concludes the proposal, the first one its votes settle; or the end. */
  function Closing(t: Terms, cast: seq<Vote>, bs: seq<Ballot>): (k: nat)
    ensures k <= |bs|
    ensures k < |bs| ==> bs[k] == Close && FateAt(t, Counted(cast, bs[..k])) != Open
    ensures forall j :: 0 <= j < k && bs[j] == Close ==> FateAt(t, Counted(cast, bs[..j])) == Open
  {
    if bs == [] then 0
    else
      var front := bs[..|bs| - 1];
      var k := Closing(t, cast, front);
      assert forall j :: 0 <= j < |front| ==> front[..j] == bs[..j];
      if k < |front| then k
      else if bs[|bs| - 1] == Close && FateAt(t, Counted(cast, front)) != Open then |front|
      else |bs|
  }

  /** Without automatic finalisation a proposal takes in every voter's first vote until the
      first call its tallies settle, and these tallies are its fate; votes decide nothing. */
  lemma {:induction false} CourseByCall(t: Terms, cast: seq<Vote>, bs: seq<Ballot>)
    requires !t.autoFinalize
    ensures var k := Closing(t, cast, bs);
      var votes := Counted(cast, bs[..k]);
      Followed(t, cast, bs) == Course(if k == |bs| then Open else FateAt(t, votes), votes)
  {
    hide FateAt, Voters;
    if bs != [] {
      var front := bs[..|bs| - 1];
      CourseByCall(t, cast, front);
      var k, k' := Closing(t, cast, front), Closing(t, cast, bs);
      assert front[..k] == bs[..k];
      assert front[..|front|] == front && bs[..|bs|] == bs;
    } else {
      assert bs[..0] == [];
    }
  }

  lemma {:induction false} CountedDistinct(cast: seq<Vote>, bs: seq<Ballot>)
    requires DistinctVoters(cast)
    ensures DistinctVoters(Counted(cast, bs))
  {
    if bs != [] {
      var before, b := Counted(cast, bs[..|bs| - 1]), bs[|bs| - 1];
      CountedDistinct(cast, bs[..|bs| - 1]);
      if b.Cast? && b.vote.voter !in Voters(before) {
        DistinctAfterVote(before, b.vote);
      }
    }
  }

  // ---- confluence ----

  function Side(votes: seq<Vote>, approved: bool): set<string> {
    if votes == [] then {}
    else
      var rest := Side(votes[..|votes| - 1], approved);
      if votes[|votes| - 1].approved == approved then rest + {votes[|votes| - 1].voter} else rest
  }

  lemma {:induction false} SidesAreVoters(votes: seq<Vote>)
    ensures Side(votes, true) + Side(votes, false) == Voters(votes)
  {
    if votes != [] {
      SidesAreVoters(votes[..|votes| - 1]);
    }
  }

  lemma {:induction false} SideCounts(votes: seq<Vote>, approved: bool)
    requires DistinctVoters(votes)
    ensures |Side(votes, approved)| == if approved then Approvals(votes) else Rejections(votes)
  {
    if votes != [] {
      var front, v := votes[..|votes| - 1], votes[|votes| - 1];
      SideCounts(front, approved);
      SidesAreVoters(front);
      VotersAre(front, v.voter);
      FrontCounts(votes);
      hide Voters, Approvals, Rejections;
      assert v.voter !in Side(front, true) + Side(front, false);
    }
  }

  /** Confluence: two runs in which the same voters approve and the same voters reject, no
      more of them than are eligible, send the proposal to the same place, in whatever order
      the votes come and whatever else happens in between; and once as many have voted as are
      eligible, it is accepted or refused by the requirement alone. */
  lemma VoteOrderNeverMatters(id: string, req: Requirement, ops: seq<Op>, ops': seq<Op>)
    requires Side(FirstVotes(ops, id), true) == Side(FirstVotes(ops', id), true)
    requires Side(FirstVotes(ops, id), false) == Side(FirstVotes(ops', id), false)
    requires |Voters(FirstVotes(ops, id))| <= |req.eligible|
    ensures Decide(req.required, |req.eligible|, FirstVotes(ops, id)) == Decide(req.required, |req.eligible|, FirstVotes(ops', id))
    ensures 1 <= req.required <= |req.eligible| == |Voters(FirstVotes(ops, id))| ==>
      Decide(req.required, |req.eligible|, FirstVotes(ops, id))
      == if |Side(FirstVotes(ops, id), true)| >= req.required then Final else Dropped
  {
    var vs, ws, n := FirstVotes(ops, id), FirstVotes(ops', id), |req.eligible|;
    hide Side, Decide, Approvals, Rejections, FirstVotes, Voters, OrderSensitive;
    FirstVotesDistinct(ops, id);
    FirstVotesDistinct(ops', id);
    SideCounts(vs, true);
    SideCounts(vs, false);
    SideCounts(ws, true);
    SideCounts(ws, false);
    EveryVoteCounts(vs);
    EveryVoteCounts(ws);
    DistinctVotersCount(vs);
    WithinBallotInsensitive(req.required, n, vs);
    FateIsByCounts(req.required, n, vs);
    FateIsByCounts(req.required, n, ws);
    if 1 <= req.required <= n == |vs| {
      FullBallotDecides(req.required, n, vs);
    }
  }

  /** By a call the order of votes never matters, eligible or not: if at the concluding calls
      the same voters have approved and the same have rejected, the fates are the same. */
  lemma CallsAgree(t: Terms, bs: seq<Ballot>, bs': seq<Ballot>)
    requires !t.autoFinalize
    requires Closing(t, [], bs) < |bs| && Closing(t, [], bs') < |bs'|
    requires forall approved ::
      Side(Followed(t, [], bs).votes, approved) == Side(Followed(t, [], bs').votes, approved)
    ensures Followed(t, [], bs).fate == Followed(t, [], bs').fate != Open
  {
    hide Followed, Side, Approvals, Rejections, Voters, Counted, Closing, FateNow;
    CourseByCall(t, [], bs);
    CourseByCall(t, [], bs');
    var vs, ws := Followed(t, [], bs).votes, Followed(t, [], bs').votes;
    CountedDistinct([], bs[..Closing(t, [], bs)]);
    CountedDistinct([], bs'[..Closing(t, [], bs')]);
    SideCounts(vs, true);
    SideCounts(vs, false);
    SideCounts(ws, true);
    SideCounts(ws, false);
  }

  /** Hence two histories of one proposal, with the same ballots and whatever else between
      them, leave it in the same place: pending, in the log, or dropped; and there, each has
      the record of the votes that decided it, held to the one requirement. */
  lemma HistoriesAgree(s0: State, e: LedgerEntry, now: int, fresh': string, ops: seq<Op>, ops': seq<Op>, id: string)
    requires Named(s0.pending) && fresh' != "" && Generated(ops) && Generated(ops')
    requires id == ProposedEntry(e, now, fresh').id && Census(s0, id) == 0 && Births(ops, id) == 0 && Births(ops', id) == 0
    requires e.votes == [] && e.consensus.Some? && e.consensus.value.autoFinalize && e.consensus.value.required >= 1
    requires Side(FirstVotes(ops, id), true) == Side(FirstVotes(ops', id), true)
    requires Side(FirstVotes(ops, id), false) == Side(FirstVotes(ops', id), false)
    requires |Voters(FirstVotes(ops, id))| <= |e.consensus.value.eligible|
    ensures var s, t := Run(ProposedState(s0, e, now, fresh'), ops), Run(ProposedState(s0, e, now, fresh'), ops');
      && Count(s.entries, id) == Count(t.entries, id)
      && Count(s.pending, id) == Count(t.pending, id)
      && Count(s.dropped, id) == Count(t.dropped, id)
      && Count(s.entries, id) + Count(s.pending, id) + Count(s.dropped, id) == 1
      && var req, p := e.consensus.value, ProposedEntry(e, now, fresh');
         Placed(s, id, p, Walked(TermsOf(p), FirstVotes(ops, id))) && Placed(t, id, p, Walked(TermsOf(p), FirstVotes(ops', id)))
  {
    TermsAreOwn(e, now, fresh');
    ProposalIsPlaced(s0, e, now, fresh', ops, id);
    ProposalIsPlaced(s0, e, now, fresh', ops', id);
    VoteOrderNeverMatters(id, e.consensus.value, ops, ops');
    hide Run, ProposedState, FirstVotes, Side, Voters, Decide, Deciding, Count, Located, Census, Births, ProposedEntry, Logged, Discarded;
  }

  lemma {:induction false} DistinctVotersCount(votes: seq<Vote>)
    requires DistinctVoters(votes)
    ensures |Voters(votes)| == |votes|
  {
    if votes != [] {
      DistinctVotersCount(votes[..|votes| - 1]);
      VotersAre(votes[..|votes| - 1], votes[|votes| - 1].voter);
    }
  }
}
