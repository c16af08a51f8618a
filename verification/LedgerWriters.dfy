/** Logs written by any mix of the ledger's operations and its two read-modify-write
    appenders (ledger.go, AppendVoiceEvent and AppendSchedule): what every replay finds. */
module LedgerWriters {
  import opened Text
  import opened Quorum
  import opened LedgerTypes
  import opened Snapshots
  import opened Ledger
  import opened LedgerRuns

  datatype Write =
    | Plain(op: Op)
    | Voice(ev: VoiceEvent, now: int, fresh': string)
    | Plan(sched: Schedule, sig: Signal, now: int, fresh': string)

  function Written(s: State, w: Write): State {
    match w
    case Plain(op) => Step(s, op)
    case Voice(ev, now, fresh') => Appended(s, VoiceEntry(s.entries, ev, now), now, fresh')
    case Plan(sched, sig, now, fresh') => Appended(s, ScheduleEntry(s.entries, sched, sig, fresh', now), now, fresh')
  }

  function WrittenAll(s: State, ws: seq<Write>): State {
    if ws == [] then s else Written(WrittenAll(s, ws[..|ws| - 1]), ws[|ws| - 1])
  }

  /** The service itself, driven through such a sequence. */
  method DriveWrites(service: LedgerService, ws: seq<Write>)
    requires forall w :: w in ws && !w.Plain? ==> w.now > 0
    modifies service
    ensures service.Current() == WrittenAll(old(service.Current()), ws)
  {
    hide Step, Appended, VoiceEntry, ScheduleEntry;
    for i := 0 to |ws|
      invariant service.Current() == WrittenAll(old(service.Current()), ws[..i])
    {
      assert ws[..i + 1][..i] == ws[..i];
      match ws[i] {
        case Plain(op) =>
          Drive(service, [op]);
          RunOfOne(WrittenAll(old(service.Current()), ws[..i]), op);
        case Voice(ev, now, fresh') => var c := service.AppendVoiceEvent(ev, now, fresh');
        case Plan(sched, sig, now, fresh') => var c := service.AppendSchedule(sched, sig, now, fresh');
      }
    }
    assert ws[..|ws|] == ws;
  }

  lemma RunOfOne(s: State, op: Op)
    ensures Run(s, [op]) == Step(s, op)
  {
    hide Step;
    assert [op][..0] == [];
    assert Run(s, []) == s;
  }

  /** What the two appenders record: who, what and of which kind, with the snapshot they wrote and
      the later of the event's time and the clock, final at once, since nobody is asked. */
  lemma WrittenRecords(entries: seq<LedgerEntry>, ev: VoiceEvent, sched: Schedule, sig: Signal, now: int, fresh': string)
    requires now > 0
    ensures var e := VoiceEntry(entries, ev, now);
      var r := Committed(|entries| + 1, e, now, fresh');
      && r.kind == "voice" && r.org == ev.org && r.actor == ev.actor && r.voice == Some(ev) && r.signal == None && r.publication == None
      && r.id == (if ev.id != "" then ev.id else fresh') && r.snapshot == Some(VoiceApplied(Latest(entries, ev.org, now), ev))
      && r.committedAt == (if ev.createdAt > now then ev.createdAt else now) && r.status == Finalized && r.votes == []
    ensures var e := ScheduleEntry(entries, sched, sig, fresh', now);
      var r := Committed(|entries| + 1, e, now, fresh');
      && r.kind == "schedule" && r.org == sig.org && r.actor == sched.actor && r.signal == Some(sig) && r.voice == None
      && r.publication == None && r.id == fresh' && r.snapshot == Some(Scheduled(Latest(entries, sig.org, now), sched, sig))
      && r.committedAt == (if sig.createdAt > now then sig.createdAt else now) && r.status == Finalized && r.votes == []
  {
    hide VoiceApplied, Latest, Scheduled, Approvals, Rejections;
  }

  // ---- what is embedded stays free of duplicates ----

  ghost predicate Embeds(e: LedgerEntry) {
    e.snapshot.Some? ==> WellKeyed(e.snapshot.value)
  }

  ghost predicate WellEmbedded(es: seq<LedgerEntry>) {
    forall e :: e in es ==> Embeds(e)
  }

  ghost predicate WellKept(s: State) {
    WellEmbedded(s.entries) && WellEmbedded(s.pending)
  }

  /** The only snapshots a caller brings in itself: those of appended and proposed entries. */
  ghost predicate BringsWellKeyed(w: Write) {
    w.Plain? && (w.op.OpAppend? || w.op.OpPropose?) ==> Embeds(w.op.entry)
  }

  lemma LatestWellKeyed(entries: seq<LedgerEntry>, org: string, now: int)
    requires WellEmbedded(entries)
    ensures WellKeyed(Latest(entries, org, now))
  {
    ProjectionWellKeyed(entries, org);
    hide Projected, UniqueKeys;
  }

  lemma VoiceKeepsKeys(s: Snapshot, ev: VoiceEvent)
    requires WellKeyed(s)
    ensures WellKeyed(VoiceApplied(s, ev))
  {
    UpsertedUnique(s.voiceRooms, RoomKey(), TouchedRoom(BaseRoom(s.voiceRooms, ev), ev));
    hide Upserted, UniqueKeys, TouchedRoom, BaseRoom;
  }

  lemma ScheduleKeepsKeys(s: Snapshot, sched: Schedule, sig: Signal)
    requires WellKeyed(s)
    ensures WellKeyed(Scheduled(s, sched, sig))
  {
    UpsertedUnique(s.openSchedules, ScheduleKey(), sched);
    hide Upserted, UniqueKeys;
  }

  /** A voice event embeds a snapshot without duplicates in a log of such snapshots. */
  lemma VoiceEmbeds(entries: seq<LedgerEntry>, ev: VoiceEvent, now: int)
    requires WellEmbedded(entries)
    ensures Embeds(VoiceEntry(entries, ev, now))
  {
    LatestWellKeyed(entries, ev.org, now);
    VoiceKeepsKeys(Latest(entries, ev.org, now), ev);
    hide Latest, VoiceApplied, WellKeyed, WellEmbedded;
  }

  lemma ScheduleEmbeds(entries: seq<LedgerEntry>, sched: Schedule, sig: Signal, id: string, now: int)
    requires WellEmbedded(entries)
    ensures Embeds(ScheduleEntry(entries, sched, sig, id, now))
  {
    LatestWellKeyed(entries, sig.org, now);
    ScheduleKeepsKeys(Latest(entries, sig.org, now), sched, sig);
    hide Latest, Scheduled, WellKeyed, WellEmbedded;
  }

  lemma AppendedKeepsKept(s: State, e: LedgerEntry, now: int, fresh': string)
    requires WellKept(s) && Embeds(e)
    ensures WellKept(Appended(s, e, now, fresh'))
  {
    CommittedIsCertified(|s.entries| + 1, e, now, fresh');
    hide Committed, WellCertified, WellKeyed;
  }

  lemma ConcludedKeepsKept(s: State, i: nat, e: LedgerEntry, now: int, fresh': string)
    requires WellKept(s) && i < |s.pending| && EntryQuorum(e).finalizable && Embeds(e)
    ensures WellKept(Concluded(s, i, e, now, fresh'))
  {
    ConcludeEffect(s, i, e, now, fresh');
    hide Concluded, EntryQuorum, Approved, Refused, WellCertified, WellKeyed;
    var t := Concluded(s, i, e, now, fresh');
    forall r | r in t.entries ensures Embeds(r) {
      var k :| 0 <= k < |t.entries| && t.entries[k] == r;
      if k < |s.entries| {
        assert t.entries[..|s.entries|][k] == r;
      }
    }
  }

  lemma PlainKeepsKept(s: State, op: Op)
    requires WellKept(s) && BringsWellKeyed(Plain(op))
    ensures WellKept(Step(s, op))
  {
    hide Embeds, EntryQuorum, AutoSettles, FindPending, Voted, FinalizedState, Concluded, Appended;
    match op {
      case OpAppend(e, now, fresh') =>
        AppendedKeepsKept(s, e, now, fresh');
      case OpPropose(e, now, fresh') =>
        SameSnapshotEmbeds(e, ProposedEntry(e, now, fresh'));
      case OpVote(id, v, now, fresh') =>
        VoteEffect(s, id, v, now, fresh');
        var i := FindPending(s.pending, id);
        if i < |s.pending| && v.voter !in Voters(s.pending[i].votes) {
          var e := WithVote(s.pending[i], Stamped(v, id, now));
          SameSnapshotEmbeds(s.pending[i], e);
          if AutoSettles(e) {
            AutoSettlesIsFinalizable(e);
            ConcludedKeepsKept(s, i, e, now, fresh');
          }
        }
      case OpFinalize(id, now, fresh') =>
        FinalizeEffect(s, id, now, fresh');
        var i := FindPending(s.pending, id);
        if i < |s.pending| && EntryQuorum(s.pending[i]).finalizable {
          QuorumStable(s.pending[i]);
          SameSnapshotEmbeds(s.pending[i], WithQuorum(s.pending[i]));
          ConcludedKeepsKept(s, i, WithQuorum(s.pending[i]), now, fresh');
        }
    }
  }

  lemma SameSnapshotEmbeds(e: LedgerEntry, e': LedgerEntry)
    requires Embeds(e) && e'.snapshot == e.snapshot
    ensures Embeds(e')
  {
    hide WellKeyed;
  }

  lemma WrittenKeepsKept(s: State, w: Write)
    requires WellKept(s) && BringsWellKeyed(w)
    ensures WellKept(Written(s, w))
  {
    hide Embeds, WellEmbedded, Step, Appended, VoiceEntry, ScheduleEntry;
    match w {
      case Plain(op) =>
        PlainKeepsKept(s, op);
      case Voice(ev, now, fresh') =>
        VoiceEmbeds(s.entries, ev, now);
        AppendedKeepsKept(s, VoiceEntry(s.entries, ev, now), now, fresh');
      case Plan(sched, sig, now, fresh') =>
        ScheduleEmbeds(s.entries, sched, sig, fresh', now);
        AppendedKeepsKept(s, ScheduleEntry(s.entries, sched, sig, fresh', now), now, fresh');
    }
  }

  /** Whatever is written after the empty ledger, by either appender, by votes or directly:
      if callers bring no duplicates in, no organisation's snapshot ever holds two rooms,
      schedules or publications of one identifier. */
  lemma {:induction false} SnapshotsStayKeyed(ws: seq<Write>)
    requires forall w :: w in ws ==> BringsWellKeyed(w)
    ensures var s := WrittenAll(State([], [], []), ws);
      WellKept(s) && forall org, now :: WellKeyed(Latest(s.entries, org, now))
  {
    hide WellKeyed, Embeds, Written, BringsWellKeyed, Latest;
    if ws != [] {
      SnapshotsStayKeyed(ws[..|ws| - 1]);
      WrittenKeepsKept(WrittenAll(State([], [], []), ws[..|ws| - 1]), ws[|ws| - 1]);
    }
    var s := WrittenAll(State([], [], []), ws);
    forall org, now ensures WellKeyed(Latest(s.entries, org, now)) {
      LatestWellKeyed(s.entries, org, now);
    }
  }
}
