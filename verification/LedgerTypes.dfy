/** What the ledger stores (types.go). Fields no ledger operation looks inside are folded
    into one text per record. */
module LedgerTypes {
  import opened Text
  import opened Quorum

  datatype Signal = Signal(id: string, org: string, actor: string, body: string, createdAt: int)

  datatype Publication = Publication(id: string, body: string)

  datatype Schedule = Schedule(id: string, actor: string, body: string)

  datatype VoiceRoom = VoiceRoom(
    roomId: string, settings: string, lastTranscriptId: string, lastSynthesisId: string, updatedAt: int)

  datatype VoiceKind = Transcript | Synthesis | Projection | OtherVoice(name: string)

  datatype VoiceEvent = VoiceEvent(
    id: string, org: string, actor: string, roomId: string, kind: VoiceKind, body: string,
    projection: Option<VoiceRoom>, createdAt: int)

  datatype Snapshot = Snapshot(
    org: string,
    ledgerSequence: int,
    actors: seq<string>,
    publications: seq<Publication>,
    lastSignal: Option<Signal>,
    voiceRooms: seq<VoiceRoom>,
    lastVoice: Option<VoiceEvent>,
    openSchedules: seq<Schedule>,
    updatedAt: int,
    metadata: map<string, string>)

  /** The zero value means the field was never set. */
  datatype Status = Unset | Proposed | Pending | Finalized | Rejected

  datatype Certificate = Certificate(
    entryId: string, sequence: int, committedAt: int, quorumSize: int, status: Status, approvals: int, rejections: int)

  datatype LedgerEntry = LedgerEntry(
    sequence: int,
    id: string,
    org: string,
    kind: string,
    status: Status,
    actor: string,
    accepted: Option<bool>,
    snapshot: Option<Snapshot>,
    signal: Option<Signal>,
    publication: Option<Publication>,
    voice: Option<VoiceEvent>,
    consensus: Option<Requirement>,
    quorum: Option<QuorumState>,
    certificate: Option<Certificate>,
    votes: seq<Vote>,
    proposedAt: int,
    committedAt: int,
    finalizedAt: int,
    rejectedAt: int)

  /** A literal that sets none of the fields. */
  const BLANK := LedgerEntry(0, "", "", "", Unset, "", None, None, None, None, None, None, None, None, [], 0, 0, 0, 0)

  function Max(a: int, b: int): int {
    if b > a then b else a
  }
}
