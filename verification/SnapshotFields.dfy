/** What a replayed snapshot holds, field by field, in terms of the log's entries alone
    (ledger.go, LatestSnapshot). */
module SnapshotFields {
  import opened Text
  import opened LedgerTypes
  import opened Snapshots

  // ---- the last word ----

  /** What the last of an organisation's entries that brings anything brings; None if none does. */
  ghost predicate LastWord<T(!new)>(entries: seq<LedgerEntry>, org: string, brings: LedgerEntry -> Option<T>, r: Option<T>) {
    || (r == None && forall k :: 0 <= k < |entries| && entries[k].org == org ==> brings(entries[k]) == None)
    || (exists k :: LastBringer(entries, org, brings, k) && r == brings(entries[k]))
  }

  ghost predicate LastBringer<T(!new)>(entries: seq<LedgerEntry>, org: string, brings: LedgerEntry -> Option<T>, k: int) {
    && 0 <= k < |entries| && entries[k].org == org && brings(entries[k]) != None
    && forall j :: k < j < |entries| && entries[j].org == org ==> brings(entries[j]) == None
  }

  /** There is only one such word. */
  lemma LastWordIsUnique<T(!new)>(entries: seq<LedgerEntry>, org: string, brings: LedgerEntry -> Option<T>, r: Option<T>, s: Option<T>)
    requires LastWord(entries, org, brings, r) && LastWord(entries, org, brings, s)
    ensures r == s
  {
    if r != None && s != None {
      var j :| LastBringer(entries, org, brings, j) && r == brings(entries[j]);
      var k :| LastBringer(entries, org, brings, k) && s == brings(entries[k]);
      assert entries[j].org == org && entries[k].org == org;
    }
  }

  lemma OneMoreWord<T(!new)>(entries: seq<LedgerEntry>, org: string, brings: LedgerEntry -> Option<T>, r: Option<T>)
    requires entries != [] && LastWord(entries[..|entries| - 1], org, brings, r)
    ensures var e := entries[|entries| - 1];
      LastWord(entries, org, brings, if e.org == org && brings(e) != None then brings(e) else r)
  {
    var front, last := entries[..|entries| - 1], |entries| - 1;
    assert forall k :: 0 <= k < last ==> front[k] == entries[k];
    if entries[last].org == org && brings(entries[last]) != None {
      assert LastBringer(entries, org, brings, last);
    } else if r != None {
      var k :| LastBringer(front, org, brings, k) && r == brings(front[k]);
      assert LastBringer(entries, org, brings, k);
    }
  }

  // ---- what an entry brings ----

  function BringsSignal(): LedgerEntry -> Option<Signal> {
    (e: LedgerEntry) => if e.signal.Some? then e.signal else if e.snapshot.Some? then e.snapshot.value.lastSignal else None
  }

  function BringsVoice(): LedgerEntry -> Option<VoiceEvent> {
    (e: LedgerEntry) => if e.voice.Some? then e.voice else if e.snapshot.Some? then e.snapshot.value.lastVoice else None
  }

  function BringsActors(): LedgerEntry -> Option<seq<string>> {
    (e: LedgerEntry) => if e.snapshot.Some? && e.snapshot.value.actors != [] then Some(e.snapshot.value.actors) else None
  }

  function BringsSchedules(): LedgerEntry -> Option<seq<Schedule>> {
    (e: LedgerEntry) =>
      if e.snapshot.Some? && e.snapshot.value.openSchedules != [] then Some(e.snapshot.value.openSchedules) else None
  }

  function BringsMetadata(key: string): LedgerEntry -> Option<string> {
    (e: LedgerEntry) =>
      if e.snapshot.Some? && key in e.snapshot.value.metadata then Some(e.snapshot.value.metadata[key]) else None
  }

  function BringsOrg(): LedgerEntry -> Option<string> {
    (e: LedgerEntry) => if e.snapshot.Some? && e.snapshot.value.org != "" then Some(e.snapshot.value.org) else None
  }

  function BringsSequence(): LedgerEntry -> Option<int> {
    (e: LedgerEntry) => Some(e.sequence)
  }

  function Lookup(m: map<string, string>, key: string): Option<string> {
    if key in m then Some(m[key]) else None
  }

  /** The first item under a key. */
  function Under<T>(items: seq<T>, key: T -> string, id: string): Option<T> {
    if items == [] then None else if key(items[0]) == id then Some(items[0]) else Under(items[1..], key, id)
  }

  function Published(ps: seq<Publication>, id: string): Option<Publication> {
    Under(ps, PublicationKey(), id)
  }

  function RoomUnder(rooms: seq<VoiceRoom>, id: string): Option<VoiceRoom> {
    Under(rooms, RoomKey(), id)
  }

  function ScheduleUnder(schedules: seq<Schedule>, id: string): Option<Schedule> {
    Under(schedules, ScheduleKey(), id)
  }

  /** An entry's own publication wins; a snapshot with publications replaces them all, and so
      may bring that there is none under this identifier. */
  function BringsPublication(id: string): LedgerEntry -> Option<Option<Publication>> {
    (e: LedgerEntry) =>
      if e.publication.Some? && e.publication.value.id == id then Some(e.publication)
      else if e.snapshot.Some? && e.snapshot.value.publications != [] then Some(Published(e.snapshot.value.publications, id))
      else None
  }

  function OrElse<T>(r: Option<T>, d: T): T {
    if r.Some? then r.value else d
  }

  function NonEmpty<T(==)>(s: seq<T>): Option<seq<T>> {
    if s == [] then None else Some(s)
  }

  // ---- one entry ----

  /** Upserting puts the item under its own key and leaves every other key alone. */
  lemma UnderUpserted<T>(items: seq<T>, key: T -> string, item: T, id: string)
    ensures Under(Upserted(items, key, item), key, id) == if key(item) == id then Some(item) else Under(items, key, id)
  {
    var i := IndexOfKey(items, key, key(item));
    if i == |items| {
      UnderAppended(items, key, item, id);
    } else {
      UnderReplaced(items, key, i, item, id);
    }
  }

  lemma {:induction false} UnderAppended<T>(items: seq<T>, key: T -> string, item: T, id: string)
    requires forall k :: 0 <= k < |items| ==> key(items[k]) != key(item)
    ensures Under(items + [item], key, id) == if key(item) == id then Some(item) else Under(items, key, id)
  {
    if items == [] {
      assert [item][1..] == [] && items + [item] == [item];
    } else {
      assert (items + [item])[1..] == items[1..] + [item];
      UnderAppended(items[1..], key, item, id);
    }
  }

  lemma {:induction false} UnderReplaced<T>(items: seq<T>, key: T -> string, i: nat, item: T, id: string)
    requires i < |items| && key(items[i]) == key(item) && forall k :: 0 <= k < i ==> key(items[k]) != key(item)
    ensures Under(items[i := item], key, id) == if key(item) == id then Some(item) else Under(items, key, id)
  {
    if i == 0 {
      assert items[0 := item][1..] == items[1..];
    } else {
      assert items[i := item][1..] == items[1..][i - 1 := item];
      UnderReplaced(items[1..], key, i - 1, item, id);
    }
  }

  function MergedIn(s: Snapshot, e: LedgerEntry): Snapshot {
    if e.snapshot.Some? then Merged(s, e.snapshot.value) else s
  }

  lemma EntryStages(s: Snapshot, e: LedgerEntry)
    ensures var s1, t := MergedIn(s, e), EntryApplied(s, e);
      && t.lastSignal == (if e.signal.Some? then e.signal else s1.lastSignal)
      && t.lastVoice == (if e.voice.Some? then e.voice else s1.lastVoice)
      && t.org == s1.org && t.actors == s1.actors && t.openSchedules == s1.openSchedules && t.metadata == s1.metadata
      && t.publications
         == (if e.publication.Some? then Upserted(s1.publications, PublicationKey(), e.publication.value) else s1.publications)
      && t.voiceRooms == (if e.voice.Some? then RoomsAfter(s1.voiceRooms, e.voice.value) else s1.voiceRooms)
      && t.updatedAt == (if s1.updatedAt < e.committedAt then e.committedAt else s1.updatedAt)
  {
    hide RoomsAfter, Upserted, Merged;
  }

  /** One entry's effect on each field: it brings something, or the field stays. */
  lemma EntryFields(s: Snapshot, e: LedgerEntry)
    ensures var t := EntryApplied(s, e);
      && t.lastSignal == (if BringsSignal()(e) != None then BringsSignal()(e) else s.lastSignal)
      && t.lastVoice == (if BringsVoice()(e) != None then BringsVoice()(e) else s.lastVoice)
      && t.org == OrElse(BringsOrg()(e), s.org)
      && t.actors == OrElse(BringsActors()(e), s.actors)
      && t.openSchedules == OrElse(BringsSchedules()(e), s.openSchedules)
      && t.metadata == (if e.snapshot.Some? then s.metadata + e.snapshot.value.metadata else s.metadata)
  {
    EntryStages(s, e);
    hide EntryApplied;
  }

  lemma EntryDate(s: Snapshot, e: LedgerEntry)
    ensures var before := if e.snapshot.Some? && e.snapshot.value.updatedAt > 0 then e.snapshot.value.updatedAt else s.updatedAt;
      EntryApplied(s, e).updatedAt == if before < e.committedAt then e.committedAt else before
  {
    EntryStages(s, e);
    hide EntryApplied;
  }

  lemma EntryPublication(s: Snapshot, e: LedgerEntry, id: string)
    ensures Published(EntryApplied(s, e).publications, id) == OrElse(BringsPublication(id)(e), Published(s.publications, id))
  {
    EntryStages(s, e);
    hide EntryApplied, Upserted, Under;
    var ps := if e.snapshot.Some? && e.snapshot.value.publications != [] then e.snapshot.value.publications else s.publications;
    if e.publication.Some? {
      UnderUpserted(ps, PublicationKey(), e.publication.value, id);
    }
  }

  lemma EntryMetadata(s: Snapshot, e: LedgerEntry, key: string)
    ensures var t := EntryApplied(s, e);
      Lookup(t.metadata, key) == if BringsMetadata(key)(e) != None then BringsMetadata(key)(e) else Lookup(s.metadata, key)
  {
    EntryFields(s, e);
    hide EntryApplied;
  }

  // ---- the whole log ----

  lemma ProjectedStep(entries: seq<LedgerEntry>, org: string)
    requires entries != []
    ensures var before, e := Projected(entries[..|entries| - 1], org), entries[|entries| - 1];
      Projected(entries, org) == if e.org != org then before else EntryApplied(before, e).(ledgerSequence := e.sequence)
  {
    hide EntryApplied;
  }

  /** Every field of a replayed snapshot is the last word of the organisation's entries on it. */
  ghost predicate LastWords(entries: seq<LedgerEntry>, org: string, s: Snapshot) {
    && LastWord(entries, org, BringsSignal(), s.lastSignal)
    && LastWord(entries, org, BringsVoice(), s.lastVoice)
    && LastWord(entries, org, BringsActors(), NonEmpty(s.actors))
    && LastWord(entries, org, BringsSchedules(), NonEmpty(s.openSchedules))
    && (forall key :: LastWord(entries, org, BringsMetadata(key), Lookup(s.metadata, key)))
  }

  lemma NoWords(org: string)
    ensures LastWords([], org, Fresh(org))
  {
  }

  lemma WordsStep(entries: seq<LedgerEntry>, org: string, s: Snapshot)
    requires entries != [] && LastWords(entries[..|entries| - 1], org, s)
    ensures var e := entries[|entries| - 1];
      LastWords(entries, org, if e.org != org then s else EntryApplied(s, e).(ledgerSequence := e.sequence))
  {
    var e := entries[|entries| - 1];
    hide LastWord, EntryApplied, Lookup;
    EntryFields(s, e);
    OneMoreWord(entries, org, BringsSignal(), s.lastSignal);
    OneMoreWord(entries, org, BringsVoice(), s.lastVoice);
    OneMoreWord(entries, org, BringsActors(), NonEmpty(s.actors));
    OneMoreWord(entries, org, BringsSchedules(), NonEmpty(s.openSchedules));
    var t := if e.org != org then s else EntryApplied(s, e).(ledgerSequence := e.sequence);
    forall key ensures LastWord(entries, org, BringsMetadata(key), Lookup(t.metadata, key)) {
      OneMoreWord(entries, org, BringsMetadata(key), Lookup(s.metadata, key));
      EntryMetadata(s, e, key);
    }
  }

  /** The last signal, voice event, actors, schedules and metadata of a replay are what the last
      of the organisation's entries that brings any brings, an entry's own signal or voice event
      winning over those of the snapshot it embeds. */
  lemma {:induction false} ReplayIsLastWords(entries: seq<LedgerEntry>, org: string)
    ensures LastWords(entries, org, Projected(entries, org))
  {
    hide LastWords, EntryApplied, Projected;
    if entries == [] {
      NoWords(org);
      NothingProjected(org);
    } else {
      ReplayIsLastWords(entries[..|entries| - 1], org);
      WordsStep(entries, org, Projected(entries[..|entries| - 1], org));
      ProjectedStep(entries, org);
    }
  }

  lemma NothingProjected(org: string)
    ensures Projected([], org) == Fresh(org)
  {
  }

  ghost predicate PublicationIs(entries: seq<LedgerEntry>, org: string, ps: seq<Publication>, id: string) {
    exists r :: (LastWord(entries, org, BringsPublication(id), r) && Published(ps, id) == OrElse(r, None))
  }

  /** Under each identifier the publication is the last word on that identifier: an entry's own
      publication, or what a snapshot with publications has under it, which may be none. */
  lemma {:induction false} ReplayPublications(entries: seq<LedgerEntry>, org: string, id: string)
    ensures PublicationIs(entries, org, Projected(entries, org).publications, id)
  {
    hide LastWord, EntryApplied, Projected;
    if entries == [] {
      NothingProjected(org);
      NoPublication(org, id);
    } else {
      var front, e := entries[..|entries| - 1], entries[|entries| - 1];
      ReplayPublications(front, org, id);
      var r :| LastWord(front, org, BringsPublication(id), r) && Published(Projected(front, org).publications, id) == OrElse(r, None);
      OneMoreWord(entries, org, BringsPublication(id), r);
      ProjectedStep(entries, org);
      EntryPublication(Projected(front, org), e, id);
    }
  }

  lemma NoPublication(org: string, id: string)
    ensures LastWord([], org, BringsPublication(id), None) && Published(Fresh(org).publications, id) == None
  {
  }

  /** The sequence is that of the organisation's last entry, 0 before any; the organisation's name
      is the one asked for, unless an embedded snapshot brings another. */
  lemma {:induction false} ReplayNames(entries: seq<LedgerEntry>, org: string)
    ensures exists r :: (LastWord(entries, org, BringsSequence(), r) && Projected(entries, org).ledgerSequence == OrElse(r, 0))
    ensures exists r :: (LastWord(entries, org, BringsOrg(), r) && Projected(entries, org).org == OrElse(r, org))
  {
    hide LastWord, EntryApplied, Projected;
    if entries == [] {
      NothingProjected(org);
      NoNames(org);
    } else {
      var front, e := entries[..|entries| - 1], entries[|entries| - 1];
      ReplayNames(front, org);
      var r :| LastWord(front, org, BringsSequence(), r) && Projected(front, org).ledgerSequence == OrElse(r, 0);
      var q :| LastWord(front, org, BringsOrg(), q) && Projected(front, org).org == OrElse(q, org);
      OneMoreWord(entries, org, BringsSequence(), r);
      OneMoreWord(entries, org, BringsOrg(), q);
      ProjectedStep(entries, org);
      EntryFields(Projected(front, org), e);
    }
  }

  lemma NoNames(org: string)
    ensures LastWord([], org, BringsSequence(), None) && LastWord([], org, BringsOrg(), None)
  {
  }

  // ---- dates ----

  function BringsDate(): LedgerEntry -> Option<int> {
    (e: LedgerEntry) => if e.snapshot.Some? && e.snapshot.value.updatedAt > 0 then Some(e.snapshot.value.updatedAt) else None
  }

  /** The latest of one date and the commit dates from entry `from` on. */
  ghost predicate LatestSince(entries: seq<LedgerEntry>, org: string, from: int, start: int, u: int) {
    && u >= start
    && (forall j :: 0 <= j < |entries| && j >= from && entries[j].org == org ==> u >= entries[j].committedAt)
    && (u == start || exists j :: 0 <= j < |entries| && j >= from && entries[j].org == org && u == entries[j].committedAt)
  }

  ghost predicate Undated(entries: seq<LedgerEntry>, org: string) {
    forall j :: 0 <= j < |entries| && entries[j].org == org ==> BringsDate()(entries[j]) == None
  }

  ghost predicate DatedAt(entries: seq<LedgerEntry>, org: string, k: int, u: int) {
    && 0 <= k < |entries| && BringsDate()(entries[k]).Some?
    && LatestSince(entries, org, k, BringsDate()(entries[k]).value, u)
  }

  /** A snapshot dates from the last embedded snapshot with a date, or from 0, and from every
      commit at or after it, whichever is latest. */
  ghost predicate Dated(entries: seq<LedgerEntry>, org: string, u: int) {
    || (Undated(entries, org) && LatestSince(entries, org, 0, 0, u))
    || (exists k :: (LastBringer(entries, org, BringsDate(), k) && DatedAt(entries, org, k, u)))
  }

  lemma OneMoreDate(entries: seq<LedgerEntry>, org: string, from: int, start: int, u: int)
    requires entries != [] && from < |entries| && LatestSince(entries[..|entries| - 1], org, from, start, u)
    ensures var e := entries[|entries| - 1];
      LatestSince(entries, org, from, start, if e.org == org && u < e.committedAt then e.committedAt else u)
  {
    var front, e := entries[..|entries| - 1], entries[|entries| - 1];
    assert forall j :: 0 <= j < |front| ==> front[j] == entries[j];
    if u != start {
      var j :| 0 <= j < |front| && j >= from && front[j].org == org && u == front[j].committedAt;
      assert entries[j].org == org && u == entries[j].committedAt;
    }
  }

  lemma KeptBringer(entries: seq<LedgerEntry>, org: string, k: int)
    requires entries != [] && LastBringer(entries[..|entries| - 1], org, BringsDate(), k)
    requires var e := entries[|entries| - 1]; e.org != org || BringsDate()(e) == None
    ensures LastBringer(entries, org, BringsDate(), k) && entries[..|entries| - 1][k] == entries[k]
  {
    var front := entries[..|entries| - 1];
    assert forall j :: 0 <= j < |front| ==> front[j] == entries[j];
    hide BringsDate;
  }

  lemma StillUndated(entries: seq<LedgerEntry>, org: string)
    requires entries != [] && Undated(entries[..|entries| - 1], org)
    requires var e := entries[|entries| - 1]; e.org != org || BringsDate()(e) == None
    ensures Undated(entries, org)
  {
    var front := entries[..|entries| - 1];
    assert forall j :: 0 <= j < |front| ==> front[j] == entries[j];
    hide BringsDate;
  }

  lemma DateStep(entries: seq<LedgerEntry>, org: string, u: int)
    requires entries != [] && Dated(entries[..|entries| - 1], org, u)
    ensures var e := entries[|entries| - 1];
      var before := if BringsDate()(e) != None then BringsDate()(e).value else u;
      Dated(entries, org, if e.org != org then u else if before < e.committedAt then e.committedAt else before)
  {
    hide LatestSince, LastBringer, BringsDate, Undated;
    var front, last := entries[..|entries| - 1], |entries| - 1;
    var e := entries[last];
    if e.org == org && BringsDate()(e) != None {
      OwnBringer(entries, org);
      OwnDate(entries, org, BringsDate()(e).value);
    } else if k :| LastBringer(front, org, BringsDate(), k) && DatedAt(front, org, k, u) {
      KeptBringer(entries, org, k);
      OneMoreDate(entries, org, k, BringsDate()(front[k]).value, u);
    } else {
      StillUndated(entries, org);
      OneMoreDate(entries, org, 0, 0, u);
    }
  }

  lemma OwnBringer(entries: seq<LedgerEntry>, org: string)
    requires entries != []
    requires var e := entries[|entries| - 1]; e.org == org && BringsDate()(e) != None
    ensures LastBringer(entries, org, BringsDate(), |entries| - 1)
  {
    hide BringsDate;
  }

  lemma OwnDate(entries: seq<LedgerEntry>, org: string, d: int)
    requires entries != [] && entries[|entries| - 1].org == org
    ensures var e := entries[|entries| - 1];
      LatestSince(entries, org, |entries| - 1, d, if d < e.committedAt then e.committedAt else d)
  {
  }

  lemma {:induction false} ReplayDate(entries: seq<LedgerEntry>, org: string)
    ensures Dated(entries, org, Projected(entries, org).updatedAt)
  {
    hide Dated, EntryApplied, Projected;
    if entries == [] {
      NothingProjected(org);
      NoDate(org);
    } else {
      var front := entries[..|entries| - 1];
      ReplayDate(front, org);
      DateStep(entries, org, Projected(front, org).updatedAt);
      ProjectedStep(entries, org);
      EntryDate(Projected(front, org), entries[|entries| - 1]);
    }
  }

  lemma NoDate(org: string)
    ensures Dated([], org, 0)
  {
  }

  // ---- voice rooms ----

  lemma {:induction false} RoomFound(rooms: seq<VoiceRoom>, id: string)
    ensures var i := IndexOfKey(rooms, RoomKey(), id);
      RoomUnder(rooms, id) == if i < |rooms| then Some(rooms[i]) else None
  {
    if rooms != [] {
      RoomFound(rooms[1..], id);
    }
  }

  /** The room an event leaves behind, from the room it found: a transcript or a synthesis leaves
      its own identifier and date and nothing else, a projection dates only what has no date. */
  ghost predicate Touches(ev: VoiceEvent, found: VoiceRoom, left: VoiceRoom) {
    && left.roomId == found.roomId && left.settings == found.settings
    && left.lastTranscriptId == (if ev.kind == Transcript then ev.id else found.lastTranscriptId)
    && left.lastSynthesisId == (if ev.kind == Synthesis then ev.id else found.lastSynthesisId)
    && left.updatedAt == (if ev.kind == Transcript || ev.kind == Synthesis || (ev.kind == Projection && found.updatedAt == 0)
                          then ev.createdAt else found.updatedAt)
  }

  /** A voice event touches one room, the projected one if it carries a projection, else the one
      of its name, newly opened if there is none; an event without a name touches none. Every
      other room stays as it is. */
  lemma VoiceRooms(s: Snapshot, ev: VoiceEvent, id: string)
    ensures var t := VoiceApplied(s, ev);
      var found := if ev.projection.Some? then ev.projection.value
                   else if ev.roomId != "" then OrElse(RoomUnder(s.voiceRooms, ev.roomId), VoiceRoom(ev.roomId, "", "", "", ev.createdAt))
                   else VoiceRoom("", "", "", "", ev.createdAt);
      && t.lastVoice == Some(ev)
      && (found.roomId == "" ==> t.voiceRooms == s.voiceRooms)
      && (found.roomId != "" ==>
            && (found.roomId == id ==> exists left :: RoomUnder(t.voiceRooms, id) == Some(left) && Touches(ev, found, left))
            && (found.roomId != id ==> RoomUnder(t.voiceRooms, id) == RoomUnder(s.voiceRooms, id)))
  {
    RoomFound(s.voiceRooms, ev.roomId);
    hide Upserted, Under, IndexOfKey;
    var left := TouchedRoom(BaseRoom(s.voiceRooms, ev), ev);
    if left.roomId != "" {
      UnderUpserted(s.voiceRooms, RoomKey(), left, id);
    }
  }

  /** An entry's embedded rooms, if it has any, replace all rooms before its voice event counts. */
  lemma EntryRooms(s: Snapshot, e: LedgerEntry)
    ensures var rooms := if e.snapshot.Some? && e.snapshot.value.voiceRooms != [] then e.snapshot.value.voiceRooms else s.voiceRooms;
      EntryApplied(s, e).voiceRooms
      == if e.voice.Some? then VoiceApplied(s.(voiceRooms := rooms), e.voice.value).voiceRooms else rooms
  {
    EntryStages(s, e);
    hide EntryApplied, RoomsAfter;
  }

  lemma ReplayedPublications(entries: seq<LedgerEntry>, org: string)
    ensures forall id :: PublicationIs(entries, org, Projected(entries, org).publications, id)
  {
    hide LastWord, Projected, Published;
    forall id ensures PublicationIs(entries, org, Projected(entries, org).publications, id) {
      ReplayPublications(entries, org, id);
    }
  }

  /** The snapshot that is handed out is the replayed one, dated now if nothing dates it. */
  lemma LatestMeaning(entries: seq<LedgerEntry>, org: string, now: int)
    ensures var s := Latest(entries, org, now);
      && LastWords(entries, org, s) && (forall id :: PublicationIs(entries, org, s.publications, id))
      && (s.updatedAt == now || (s.updatedAt != 0 && Dated(entries, org, s.updatedAt)))
      && (s.updatedAt == 0 ==> now == 0)
  {
    hide LastWord, Projected, Dated, PublicationIs;
    ReplayIsLastWords(entries, org);
    ReplayDate(entries, org);
    ReplayedPublications(entries, org);
  }

  /** A scheduled snapshot has the schedule under its own identifier, every other one as before,
      the signal as its last, the later of the two dates, and all else as before. */
  lemma ScheduledMeaning(s: Snapshot, sched: Schedule, sig: Signal, id: string)
    ensures var t := Scheduled(s, sched, sig);
      && ScheduleUnder(t.openSchedules, id) == (if sched.id == id then Some(sched) else ScheduleUnder(s.openSchedules, id))
      && t.lastSignal == Some(sig) && t.updatedAt >= s.updatedAt && t.updatedAt >= sig.createdAt
      && (t.updatedAt == s.updatedAt || t.updatedAt == sig.createdAt)
      && t == s.(openSchedules := t.openSchedules, lastSignal := t.lastSignal, updatedAt := t.updatedAt)
  {
    UnderUpserted(s.openSchedules, ScheduleKey(), sched, id);
    hide Upserted, Under;
  }
}
