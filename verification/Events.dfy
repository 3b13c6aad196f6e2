/**
 * The append-only event log (internal/memory/event.go,
 * internal/memory/turn_compaction.go). A stored payload is modelled by what
 * decoding it yields; Malformed stands for bytes that do not decode. The empty
 * string is Go's zero identity: it names no event.
 */
module Events {
  import opened Wrappers

  type EventId = string

  datatype EventType =
    | UserMessage
    | AssistantMessage
    | ToolIntent
    | Approval
    | ToolSucceeded
    | ToolFailed
    | ToolCancelled
    | ExecutionResolved
    | TurnFailed
    | TurnInterrupted
    | ContextSnapshot
    | ContextCompacted
    | ContextTurnCompacted
    | TurnSummaryView  // exists only in a projected turn

  datatype Role = NoRole | RoleUser | RoleAssistant | RoleTool

  datatype ToolCall = ToolCall(id: string, name: string)

  // A projected tool result as a snapshot records it.
  datatype Placeholder = Placeholder(eventId: EventId, originalBytes: int, digest: string)

  datatype SnapshotPayload = SnapshotPayload(
    canonicalModel: string,
    hardWindowTokens: int,
    outputReserveTokens: int,
    serializedBytes: int,
    retainedFirstId: EventId,
    retainedFirstSequence: int,
    retainedLastId: EventId,
    retainedLastSequence: int,
    activeCompactionId: EventId,
    activeTurnCompactionId: EventId,
    placeholders: seq<Placeholder>)

  datatype CompactionTrigger = Manual | Automatic

  datatype CompactedPayload = CompactedPayload(
    generation: int,
    trigger: CompactionTrigger,
    priorId: EventId,
    coveredFirstId: EventId,
    coveredFirstSequence: int,
    coveredLastId: EventId,
    coveredLastSequence: int,
    firstRetainedId: EventId)
  {
    // memory.ContextCompactedPayload.Validate, without the model, prompt and
    // summary provenance fields.
    predicate Valid() {
      && generation > 0 && (generation == 1 <==> priorId == "")
      && coveredFirstId != "" && coveredLastId != "" && firstRetainedId != ""
      && 0 < coveredFirstSequence <= coveredLastSequence
    }

    // memory.ContextCompactedPayload.ValidateAdvance
    predicate ValidateAdvance(priorEventId: EventId, prior: CompactedPayload) {
      && priorEventId != ""
      && generation == prior.generation + 1
      && priorId == priorEventId
      && coveredFirstId == prior.firstRetainedId
    }
  }

  datatype TurnCompactedPayload = TurnCompactedPayload(
    turnId: EventId,
    generation: int,
    priorId: EventId,
    coveredFirstId: EventId,
    coveredFirstSequence: int,
    coveredLastId: EventId,
    coveredLastSequence: int,
    firstRetainedId: EventId,
    firstRetainedSequence: int)
  {
    // memory.ContextTurnCompactedPayload.Validate, without the model and
    // summary provenance fields.
    predicate Valid() {
      && turnId != "" && generation > 0 && (generation == 1 <==> priorId == "")
      && coveredFirstId != "" && coveredLastId != "" && firstRetainedId != ""
      && 0 < coveredFirstSequence < coveredLastSequence < firstRetainedSequence
    }

    // memory.ContextTurnCompactedPayload.ValidateAdvance
    predicate ValidateAdvance(priorEventId: EventId, prior: TurnCompactedPayload) {
      && priorEventId != ""
      && turnId == prior.turnId
      && generation == prior.generation + 1
      && priorId == priorEventId
      && coveredFirstId == prior.firstRetainedId
      && coveredFirstSequence == prior.firstRetainedSequence
    }
  }

  datatype Payload =
    | Malformed
    | Empty
    | Assistant(calls: seq<ToolCall>, inputTokens: Option<int>)
    | ToolResult(toolCallId: string)
    | Snapshot(snapshot: SnapshotPayload)
    | Compacted(compacted: CompactedPayload)
    | TurnCompacted(turnCompacted: TurnCompactedPayload)
    | Terminal(turnId: EventId, contextOverflowAtProvider: bool)

  datatype Event = Event(
    id: EventId,
    parentId: EventId,
    sequence: int,
    etype: EventType,
    role: Role,
    content: string,
    payload: Payload)

  predicate IsToolResult(e: Event) {
    e.etype.ToolSucceeded? || e.etype.ToolFailed? || e.etype.ToolCancelled?
  }

  predicate IsRootUser(e: Event) {
    e.etype.UserMessage? && e.role.RoleUser? && e.parentId == ""
  }

  // What ends a tool group's scan: the next assistant or user event.
  predicate EndsGroup(e: Event) {
    e.etype.AssistantMessage? || e.etype.UserMessage?
  }

  // Lenient JSON decoding: a payload of another shape decodes to zero fields.
  function DecodeCalls(e: Event): Option<seq<ToolCall>> {
    match e.payload
    case Malformed => None
    case Assistant(calls, _) => Some(calls)
    case _ => Some([])
  }

  function DecodeToolCallId(e: Event): Option<string> {
    match e.payload
    case Malformed => None
    case ToolResult(id) => Some(id)
    case _ => Some("")
  }

  const ZERO_SNAPSHOT := SnapshotPayload("", 0, 0, 0, "", 0, "", 0, "", "", [])

  ghost predicate DistinctIds(events: seq<Event>) {
    forall i, j :: 0 <= i < j < |events| ==> events[i].id != events[j].id
  }

  ghost predicate Named(events: seq<Event>) {
    DistinctIds(events) && forall i :: 0 <= i < |events| ==> events[i].id != ""
  }

  // validateSnapshotEvent, without the fields this model leaves out.
  predicate SnapshotDecodes(e: Event) {
    e.role.NoRole? && e.content == "" && e.parentId != "" && e.payload.Snapshot?
  }

  ghost predicate Sequenced(events: seq<Event>) {
    && (forall i :: 0 <= i < |events| ==> events[i].sequence > 0)
    && forall i, j :: 0 <= i < j < |events| ==> events[i].sequence < events[j].sequence
  }
}
