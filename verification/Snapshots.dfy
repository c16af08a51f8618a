/** The snapshot of one organisation, rebuilt by replaying the log (ledger.go,
    LatestSnapshot, applyLedgerEntry, mergeSnapshot, applyVoiceEvent and the upserts). */
module Snapshots {
  import opened Text
  import opened LedgerTypes

  // ---- upserts ----

  function IndexOfKey<T>(items: seq<T>, key: T -> string, k: string): (i: nat)
    ensures i <= |items|
    ensures i < |items| ==> key(items[i]) == k
    ensures forall j :: 0 <= j < i ==> key(items[j]) != k
  {
    if items == [] || key(items[0]) == k then 0 else 1 + IndexOfKey(items[1..], key, k)
  }

  /** Replaces the first item with the same key, or appends. */
  function Upserted<T>(items: seq<T>, key: T -> string, item: T): (r: seq<T>)
    ensures item in r
  {
    var i := IndexOfKey(items, key, key(item));
    if i < |items| then
      var r := items[i := item];
      assert r[i] == item;
      r
    else items + [item]
  }

  method Upsert<T>(items: seq<T>, key: T -> string, item: T) returns (r: seq<T>)
    ensures r == Upserted(items, key, item)
  {
    for i := 0 to |items|
      invariant forall j :: 0 <= j < i ==> key(items[j]) != key(item)
    {
      if key(items[i]) == key(item) {
        return items[i := item];
      }
    }
    r := items + [item];
  }

  lemma UpsertedHolds<T>(items: seq<T>, key: T -> string, item: T)
    ensures var r := Upserted(items, key, item);
      var i := IndexOfKey(r, key, key(item));
      i < |r| && r[i] == item && Upserted(r, key, item) == r
  {
    var r, i := Upserted(items, key, item), IndexOfKey(items, key, key(item));
    assert r[i] == item;
    assert forall j :: 0 <= j < i ==> key(r[j]) != key(item);
    var i' := IndexOfKey(r, key, key(item));
    assert i' == i;
    assert r[i := item] == r;
  }

  ghost predicate UniqueKeys<T(!new)>(items: seq<T>, key: T -> string) {
    forall i, j :: 0 <= i < j < |items| ==> key(items[i]) != key(items[j])
  }

  lemma UpsertedUnique<T(!new)>(items: seq<T>, key: T -> string, item: T)
    requires UniqueKeys(items, key)
    ensures UniqueKeys(Upserted(items, key, item), key)
    ensures forall x :: x in Upserted(items, key, item) <==>
      x == item || (x in items && key(x) != key(item))
  {
    var r, i := Upserted(items, key, item), IndexOfKey(items, key, key(item));
    forall x ensures x in r <==> x == item || (x in items && key(x) != key(item)) {
      if x in items && key(x) != key(item) {
        var j :| 0 <= j < |items| && items[j] == x;
        assert r[j] == x;
      }
      if x in r && x != item {
        var j :| 0 <= j < |r| && r[j] == x;
        assert items[j] == x;
      }
    }
  }

  // ---- voice events ----

  function RoomKey(): VoiceRoom -> string {
    (r: VoiceRoom) => r.roomId
  }

  function ScheduleKey(): Schedule -> string {
    (s: Schedule) => s.id
  }

  function PublicationKey(): Publication -> string {
    (p: Publication) => p.id
  }

  function EventRoomId(ev: VoiceEvent): string {
    if ev.roomId == "" && ev.projection.Some? then ev.projection.value.roomId else ev.roomId
  }

  /** The room an event starts from: its own projection, else the known room, else a new one. */
  function BaseRoom(rooms: seq<VoiceRoom>, ev: VoiceEvent): VoiceRoom {
    var id := EventRoomId(ev);
    var i := IndexOfKey(rooms, RoomKey(), id);
    if ev.projection.Some? then ev.projection.value
    else if id != "" && i < |rooms| then rooms[i]
    else VoiceRoom(id, "", "", "", ev.createdAt)
  }

  function TouchedRoom(room: VoiceRoom, ev: VoiceEvent): VoiceRoom {
    match ev.kind
    case Transcript => room.(lastTranscriptId := ev.id, updatedAt := ev.createdAt)
    case Synthesis => room.(lastSynthesisId := ev.id, updatedAt := ev.createdAt)
    case Projection => if room.updatedAt == 0 then room.(updatedAt := ev.createdAt) else room
    case _ => room
  }

  function RoomsAfter(rooms: seq<VoiceRoom>, ev: VoiceEvent): seq<VoiceRoom> {
    var room := TouchedRoom(BaseRoom(rooms, ev), ev);
    if room.roomId != "" then Upserted(rooms, RoomKey(), room) else rooms
  }

  function VoiceApplied(s: Snapshot, ev: VoiceEvent): Snapshot {
    s.(voiceRooms := RoomsAfter(s.voiceRooms, ev), lastVoice := Some(ev))
  }

  method ApplyVoiceEvent(s: Snapshot, ev: VoiceEvent) returns (r: Snapshot)
    ensures r == VoiceApplied(s, ev)
  {
    hide Upserted;
    var roomId := ev.roomId;
    if roomId == "" && ev.projection.Some? {
      roomId := ev.projection.value.roomId;
    }
    var room := VoiceRoom(roomId, "", "", "", ev.createdAt);
    if roomId != "" {
      var i := 0;
      while i < |s.voiceRooms| && s.voiceRooms[i].roomId != roomId
        invariant i <= |s.voiceRooms|
        invariant forall j :: 0 <= j < i ==> RoomKey()(s.voiceRooms[j]) != roomId
      {
        i := i + 1;
      }
      assert i == IndexOfKey(s.voiceRooms, RoomKey(), roomId);
      if i < |s.voiceRooms| {
        room := s.voiceRooms[i];
      }
    }
    if ev.projection.Some? {
      room := ev.projection.value;
    }
    match ev.kind {
      case Transcript => room := room.(lastTranscriptId := ev.id, updatedAt := ev.createdAt);
      case Synthesis => room := room.(lastSynthesisId := ev.id, updatedAt := ev.createdAt);
      case Projection =>
        if room.updatedAt == 0 {
          room := room.(updatedAt := ev.createdAt);
        }
      case _ =>
    }
    r := s;
    if room.roomId != "" {
      var rooms := Upsert(s.voiceRooms, RoomKey(), room);
      r := r.(voiceRooms := rooms);
    }
    r := r.(lastVoice := Some(ev));
  }

  /** The same room comes out of an event applied to its own result. */
  lemma TouchedAgain(rooms: seq<VoiceRoom>, ev: VoiceEvent)
    requires TouchedRoom(BaseRoom(rooms, ev), ev).roomId != ""
    ensures TouchedRoom(BaseRoom(RoomsAfter(rooms, ev), ev), ev) == TouchedRoom(BaseRoom(rooms, ev), ev)
  {
    UpsertedHolds(rooms, RoomKey(), TouchedRoom(BaseRoom(rooms, ev), ev));
    hide Upserted, IndexOfKey;
  }

  /** Applying a voice event twice is applying it once. */
  lemma VoiceIdempotent(s: Snapshot, ev: VoiceEvent)
    ensures VoiceApplied(VoiceApplied(s, ev), ev) == VoiceApplied(s, ev)
  {
    var room := TouchedRoom(BaseRoom(s.voiceRooms, ev), ev);
    hide Upserted, TouchedRoom, IndexOfKey;
    if room.roomId != "" {
      TouchedAgain(s.voiceRooms, ev);
      UpsertedHolds(s.voiceRooms, RoomKey(), room);
    }
  }

  // ---- replay ----

  function Merged(dst: Snapshot, src: Snapshot): Snapshot {
    Snapshot(
      if src.org != "" then src.org else dst.org,
      dst.ledgerSequence,
      if src.actors != [] then src.actors else dst.actors,
      if src.publications != [] then src.publications else dst.publications,
      if src.lastSignal.Some? then src.lastSignal else dst.lastSignal,
      if src.voiceRooms != [] then src.voiceRooms else dst.voiceRooms,
      if src.lastVoice.Some? then src.lastVoice else dst.lastVoice,
      if src.openSchedules != [] then src.openSchedules else dst.openSchedules,
      if src.updatedAt > 0 then src.updatedAt else dst.updatedAt,
      dst.metadata + src.metadata)
  }

  function EntryApplied(s: Snapshot, e: LedgerEntry): Snapshot {
    var s1 := if e.snapshot.Some? then Merged(s, e.snapshot.value) else s;
    var s2 := if e.signal.Some? then s1.(lastSignal := e.signal) else s1;
    var s3 := if e.publication.Some?
              then s2.(publications := Upserted(s2.publications, PublicationKey(), e.publication.value)) else s2;
    var s4 := if e.voice.Some? then VoiceApplied(s3.(lastVoice := e.voice), e.voice.value) else s3;
    if s4.updatedAt < e.committedAt then s4.(updatedAt := e.committedAt) else s4
  }

  function Fresh(org: string): Snapshot {
    Snapshot(org, 0, [], [], None, [], None, [], 0, map[])
  }

  /** The replay of an organisation's entries. */
  function Projected(entries: seq<LedgerEntry>, org: string): Snapshot {
    if entries == [] then Fresh(org)
    else
      var e := entries[|entries| - 1];
      var before := Projected(entries[..|entries| - 1], org);
      if e.org != org then before else EntryApplied(before, e).(ledgerSequence := e.sequence)
  }

  /** A snapshot nothing has dated is dated now. */
  function Latest(entries: seq<LedgerEntry>, org: string, now: int): Snapshot {
    var s := Projected(entries, org);
    if s.updatedAt == 0 then s.(updatedAt := now) else s
  }

  method ApplyLedgerEntry(s: Snapshot, e: LedgerEntry) returns (r: Snapshot)
    ensures r == EntryApplied(s, e)
  {
    hide Merged, VoiceApplied, Upserted;
    r := s;
    if e.snapshot.Some? {
      r := Merged(r, e.snapshot.value);
    }
    if e.signal.Some? {
      r := r.(lastSignal := e.signal);
    }
    if e.publication.Some? {
      var publications := Upsert(r.publications, PublicationKey(), e.publication.value);
      r := r.(publications := publications);
    }
    if e.voice.Some? {
      r := r.(lastVoice := e.voice);
      r := ApplyVoiceEvent(r, e.voice.value);
    }
    if r.updatedAt < e.committedAt {
      r := r.(updatedAt := e.committedAt);
    }
  }

  method ReplaySnapshot(entries: seq<LedgerEntry>, org: string, now: int) returns (s: Snapshot)
    ensures s == Latest(entries, org, now)
  {
    hide EntryApplied;
    s := Fresh(org);
    for i := 0 to |entries|
      invariant s == Projected(entries[..i], org)
    {
      assert entries[..i + 1][..i] == entries[..i];
      if entries[i].org != org {
        continue;
      }
      s := ApplyLedgerEntry(s, entries[i]);
      s := s.(ledgerSequence := entries[i].sequence);
    }
    assert entries[..|entries|] == entries;
    if s.updatedAt == 0 {
      s := s.(updatedAt := now);
    }
  }

  // ---- what read-modify-write appends leave behind ----

  /** The replayed snapshot with one voice event applied, as AppendVoiceEvent embeds it. */
  function VoiceEntry(entries: seq<LedgerEntry>, ev: VoiceEvent, now: int): LedgerEntry {
    BLANK.(id := ev.id, org := ev.org, kind := "voice", actor := ev.actor, voice := Some(ev),
           snapshot := Some(VoiceApplied(Latest(entries, ev.org, now), ev)), committedAt := Max(ev.createdAt, now))
  }

  function Scheduled(s: Snapshot, sched: Schedule, sig: Signal): Snapshot {
    s.(openSchedules := Upserted(s.openSchedules, ScheduleKey(), sched), lastSignal := Some(sig),
       updatedAt := Max(s.updatedAt, sig.createdAt))
  }

  function ScheduleEntry(entries: seq<LedgerEntry>, sched: Schedule, sig: Signal, id: string, now: int): LedgerEntry {
    BLANK.(id := id, org := sig.org, kind := "schedule", actor := sched.actor, signal := Some(sig),
           snapshot := Some(Scheduled(Latest(entries, sig.org, now), sched, sig)), committedAt := Max(sig.createdAt, now))
  }

  lemma UpsertedNonEmpty<T>(items: seq<T>, key: T -> string, item: T)
    ensures Upserted(items, key, item) != []
  {
  }

  lemma RoomsNeverVanish(rooms: seq<VoiceRoom>, ev: VoiceEvent)
    ensures RoomsAfter(rooms, ev) == [] ==> rooms == []
  {
    hide TouchedRoom, BaseRoom;
  }

  lemma MetadataTwice(m: map<string, string>)
    ensures m + m == m
  {
  }

  /** Merging back a snapshot that was read, then touched by a voice event, is that snapshot. */
  lemma MergeVoice(p: Snapshot, ev: VoiceEvent, now: int)
    requires now > 0
    ensures var s := if p.updatedAt == 0 then p.(updatedAt := now) else p;
      Merged(p, VoiceApplied(s, ev)) == VoiceApplied(s, ev)
  {
    RoomsNeverVanish(p.voiceRooms, ev);
    MetadataTwice(p.metadata);
    hide RoomsAfter;
  }

  lemma MergeSchedule(p: Snapshot, sched: Schedule, sig: Signal, now: int)
    requires now > 0
    ensures var s := if p.updatedAt == 0 then p.(updatedAt := now) else p;
      Merged(p, Scheduled(s, sched, sig)).(updatedAt := 0) == Scheduled(s, sched, sig).(updatedAt := 0)
    ensures var s := if p.updatedAt == 0 then p.(updatedAt := now) else p;
      Max(s.updatedAt, sig.createdAt) > 0 || p.updatedAt == Max(s.updatedAt, sig.createdAt) ==>
        Merged(p, Scheduled(s, sched, sig)) == Scheduled(s, sched, sig)
  {
    UpsertedNonEmpty(p.openSchedules, ScheduleKey(), sched);
    MetadataTwice(p.metadata);
    hide Upserted;
  }

  /** Replay agrees with the writer: the next snapshot is the last one with the voice event
      applied once, though it is applied both before the append and again on replay. */
  lemma VoiceReplayAgrees(entries: seq<LedgerEntry>, ev: VoiceEvent, e: LedgerEntry, now: int, later: int)
    requires now > 0
    requires e.org == ev.org && e.voice == Some(ev) && e.signal == None && e.publication == None
    requires e.snapshot == VoiceEntry(entries, ev, now).snapshot && e.committedAt > 0
    ensures Latest(entries + [e], ev.org, later)
         == VoiceApplied(Latest(entries, ev.org, now), ev).(
              updatedAt := Max(Latest(entries, ev.org, now).updatedAt, e.committedAt),
              ledgerSequence := e.sequence)
  {
    hide VoiceApplied, Merged, Projected;
    var p, s := Projected(entries, ev.org), Latest(entries, ev.org, now);
    var s1 := VoiceApplied(s, ev);
    ProjectedOneMore(entries, e, ev.org);
    MergeVoice(p, ev, now);
    VoiceIdempotent(s, ev);
    VoiceFields(s, ev);
    assert s1.(lastVoice := Some(ev)) == s1;
  }

  lemma VoiceFields(s: Snapshot, ev: VoiceEvent)
    ensures var r := VoiceApplied(s, ev);
      r.lastVoice == Some(ev) && r.updatedAt == s.updatedAt && r == s.(voiceRooms := r.voiceRooms, lastVoice := Some(ev))
  {
    hide RoomsAfter;
  }

  lemma ProjectedOneMore(entries: seq<LedgerEntry>, e: LedgerEntry, org: string)
    ensures Projected(entries + [e], org)
         == if e.org != org then Projected(entries, org)
            else EntryApplied(Projected(entries, org), e).(ledgerSequence := e.sequence)
  {
    assert (entries + [e])[..|entries|] == entries;
    hide EntryApplied;
  }

  /** Replay agrees with the writer of schedules. */
  lemma ScheduleReplayAgrees(entries: seq<LedgerEntry>, sched: Schedule, sig: Signal, e: LedgerEntry, now: int, later: int)
    requires now > 0
    requires e.org == sig.org && e.signal == Some(sig) && e.voice == None && e.publication == None
    requires e.snapshot == Some(Scheduled(Latest(entries, sig.org, now), sched, sig))
    requires e.committedAt >= now
    ensures Latest(entries + [e], sig.org, later)
         == Scheduled(Latest(entries, sig.org, now), sched, sig).(
              updatedAt := Max(Scheduled(Latest(entries, sig.org, now), sched, sig).updatedAt, e.committedAt),
              ledgerSequence := e.sequence)
  {
    hide Merged, Projected, Upserted;
    var p, s := Projected(entries, sig.org), Latest(entries, sig.org, now);
    ProjectedOneMore(entries, e, sig.org);
    MergeSchedule(p, sched, sig, now);
    MergedDate(p, Scheduled(s, sched, sig));
  }

  lemma MergedDate(dst: Snapshot, src: Snapshot)
    ensures Merged(dst, src).updatedAt == if src.updatedAt > 0 then src.updatedAt else dst.updatedAt
  {
  }

  // ---- uniqueness ----

  ghost predicate WellKeyed(s: Snapshot) {
    UniqueKeys(s.voiceRooms, RoomKey()) && UniqueKeys(s.openSchedules, ScheduleKey())
    && UniqueKeys(s.publications, PublicationKey())
  }

  lemma EntryKeepsKeys(s: Snapshot, e: LedgerEntry)
    requires WellKeyed(s) && (e.snapshot.Some? ==> WellKeyed(e.snapshot.value))
    ensures WellKeyed(EntryApplied(s, e))
  {
    hide Upserted, UniqueKeys, TouchedRoom, BaseRoom;
    var s1 := if e.snapshot.Some? then Merged(s, e.snapshot.value) else s;
    if e.publication.Some? {
      UpsertedUnique(s1.publications, PublicationKey(), e.publication.value);
    }
    if e.voice.Some? {
      UpsertedUnique(s1.voiceRooms, RoomKey(), TouchedRoom(BaseRoom(s1.voiceRooms, e.voice.value), e.voice.value));
    }
  }

  /** Replay never duplicates a room, schedule or publication that no embedded snapshot duplicates. */
  lemma {:induction false} ProjectionWellKeyed(entries: seq<LedgerEntry>, org: string)
    requires forall e :: e in entries && e.snapshot.Some? ==> WellKeyed(e.snapshot.value)
    ensures WellKeyed(Projected(entries, org))
  {
    hide WellKeyed, EntryApplied;
    if entries == [] {
      FreshWellKeyed(org);
    } else {
      var front, e := entries[..|entries| - 1], entries[|entries| - 1];
      ProjectionWellKeyed(front, org);
      EntryKeepsKeys(Projected(front, org), e);
      SequenceKeepsKeys(EntryApplied(Projected(front, org), e), e.sequence);
    }
  }

  lemma FreshWellKeyed(org: string)
    ensures WellKeyed(Fresh(org))
  {
  }

  lemma SequenceKeepsKeys(s: Snapshot, n: int)
    requires WellKeyed(s)
    ensures WellKeyed(s.(ledgerSequence := n))
  {
    hide UniqueKeys;
  }
}
