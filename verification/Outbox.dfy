/** The outbox table: its rows, and the single-statement updates the repository issues.
    Identifiers stand for UUIDs, times for instants of the database clock. */
module Outbox {
  import opened Wrappers

  type Uuid = nat
  type Time = int

  datatype Status = Pending | Processing | Published | Close

  /** The members of a JSON object, as far as the outbox writes them. */
  datatype Value = Text(text: string) | Number(number: int) | Id(id: Uuid) | Instant(at: Time)
      | Object(members: map<string, Value>)

  /** Payloads are abstract JSON objects; `Empty` and `Malformed` are what the Kafka publisher refuses. */
  datatype Payload = Empty | Malformed(bytes: string) | Json(document: map<string, Value>)

  /** One row of `outbox_events`. */
  datatype Row = Row(
    eventId: Uuid, eventType: string, payload: Payload,
    status: Status, attempts: nat,
    availableAt: Time, createdAt: Time,
    processingAt: Option<Time>, publishedAt: Option<Time>,
    lastError: Option<string>)

  type Table = map<Uuid, Row>

  /** The private copy of a row that a claim hands to a worker. */
  datatype OutboxEvent = OutboxEvent(
    id: Uuid, eventId: Uuid, eventType: string, payload: Payload,
    status: Status, attempts: nat,
    availableAt: Time, createdAt: Time,
    publishedAt: Option<Time>, lastError: Option<string>)

  /** The column defaults of a freshly inserted row. */
  function NewRow(eventId: Uuid, eventType: string, payload: Payload, at: Time): Row {
    Row(eventId, eventType, payload, Pending, 0, at, at, None, None, None)
  }

  function Scan(id: Uuid, row: Row): OutboxEvent {
    OutboxEvent(id, row.eventId, row.eventType, row.payload, row.status, row.attempts,
                row.availableAt, row.createdAt, row.publishedAt, row.lastError)
  }

  /** What the worker receives for a claimed row: the scanned columns with the new status. */
  function Snapshot(id: Uuid, row: Row): OutboxEvent {
    Scan(id, row).(status := Processing)
  }

  function Snapshots(table: Table, ids: seq<Uuid>): (events: seq<OutboxEvent>)
    requires forall id :: id in ids ==> id in table
    ensures |events| == |ids|
    ensures forall i :: 0 <= i < |ids| ==> events[i] == Snapshot(ids[i], table[ids[i]])
  {
    seq(|ids|, i requires 0 <= i < |ids| => Snapshot(ids[i], table[ids[i]]))
  }

  /** The WHERE clause of the claim query, with NOW() the start of the claiming transaction. */
  predicate Claimable(row: Row, now: Time) {
    row.status == Pending && row.availableAt <= now
  }

  /** The WHERE clause of the reclaim statement; a missing stamp counts as stale. */
  predicate Stale(row: Row, staleAfter: Time, now: Time) {
    && row.status == Processing
    && (row.processingAt == None || row.processingAt.value <= now - staleAfter)
  }

  function StampRows(table: Table, ids: seq<Uuid>, now: Time): Table {
    map id | id in table ::
      if id in ids then table[id].(status := Processing, processingAt := Some(now)) else table[id]
  }

  function ReclaimRows(table: Table, ids: set<Uuid>, now: Time): Table {
    map id | id in table ::
      if id in ids then table[id].(status := Pending, availableAt := now, processingAt := None) else table[id]
  }

  /** Not guarded by the current status. */
  function PublishRow(table: Table, id: Uuid, now: Time): Table {
    if id in table then table[id := table[id].(status := Published, publishedAt := Some(now))] else table
  }

  predicate InProcessing(table: Table, id: Uuid) {
    id in table && table[id].status == Processing
  }

  function FailRow(table: Table, id: Uuid, error: string, nextAttemptAt: Time): Table {
    if InProcessing(table, id) then
      table[id := table[id].(status := Pending, attempts := table[id].attempts + 1,
                             availableAt := nextAttemptAt, lastError := Some(error))]
    else table
  }

  function CloseRow(table: Table, id: Uuid, error: string): Table {
    if InProcessing(table, id) then
      table[id := table[id].(status := Close, lastError := Some(error))]
    else table
  }

  predicate Distinct<T(==)>(s: seq<T>) {
    forall i, j :: 0 <= i < j < |s| ==> s[i] != s[j]
  }
}
