/**
 * The values that agent and server exchange: the telemetry envelope of
 * shared/temporalrca_contracts/models.py and the parts of a batch response.
 */
module Contracts {

  datatype Option<+T> = None | Some(value: T)

  type EventId = string

  datatype SignalType = Metric | Log | Lifecycle | CollectorHealth | GroundTruth

  /**
   * One telemetry event. `wellFormed` stands for the outcome of schema validation,
   * which depends on nothing but the event; `size` is the length of its JSON encoding.
   */
  datatype Event = Event(
    id: EventId,
    sequence: nat,
    timestamp: int,
    signal: SignalType,
    wellFormed: bool,
    hostId: Option<string>,
    serviceId: Option<string>,
    processId: Option<string>,
    containerId: Option<string>,
    dependencyId: Option<string>,
    name: string,
    unit: Option<string>,
    source: string,
    attributes: string,
    value: real,
    size: nat
  )

  function EventIds(events: seq<Event>): set<EventId> {
    set e | e in events :: e.id
  }

  /** No two events of the sequence carry the same id. */
  predicate DistinctIds(events: seq<Event>) {
    forall i, j | 0 <= i < j < |events| :: events[i].id != events[j].id
  }

  /** An element of `rejected` in a batch response. */
  datatype Rejection = Rejection(index: nat, eventId: Option<EventId>)

  /** The part of a batch response that the agent reads; duplicates are a set because the server deduplicates them. */
  datatype BatchResponse = BatchResponse(
    duplicateBatch: bool,
    accepted: seq<EventId>,
    duplicates: set<EventId>,
    rejected: seq<Rejection>
  )
}
