/** Ingestion: the handler, the transaction that writes the event and its outbox row, and any number of handlers
    running at once. */
module Ingestion {
  import opened Wrappers
  import opened Outbox
  import Registry

  /** Properties that are not nil are a JSON object; a zero timestamp is None. */
  datatype Command = Command(
    eventId: Uuid, eventType: string, version: int, source: string,
    userId: string, anonymousId: string, sessionId: string,
    timestamp: Option<Time>, properties: Option<map<string, Value>>)

  datatype Event = Event(
    id: Uuid, eventId: Uuid, eventType: string, version: int, source: string,
    userId: string, anonymousId: string, sessionId: string,
    timestamp: Time, properties: map<string, Value>, createdAt: Option<Time>)

  datatype Error =
    | InvalidEventType | InvalidEventVersion | InvalidSource | TimestampRequired | PropertiesRequired | InvalidSchema
    | AlreadyExists | NotFound | DatabaseFailed

  datatype Result<+T> = Ok(value: T) | Err(error: Error)

  datatype Ingested = Ingested(event: Event, created: bool)

  /** What the validator answers for a schema and properties. */
  type Validator = (Registry.Schema, map<string, Value>) -> bool

  function ValidateCommand(cmd: Command): (error: Option<Error>) {
    if cmd.eventType == "" then Some(InvalidEventType)
    else if cmd.version <= 0 then Some(InvalidEventVersion)
    else if cmd.source == "" then Some(InvalidSource)
    else if cmd.timestamp == None then Some(TimestampRequired)
    else if cmd.properties == None then Some(PropertiesRequired)
    else None
  }

  /** All checks before the database: the command, its schema, its properties. */
  function Admission(cmd: Command, schema: Option<Registry.Schema>, valid: Validator): (error: Option<Error>)
    ensures error == None ==> cmd.timestamp.Some? && cmd.properties.Some?
  {
    if ValidateCommand(cmd) != None then ValidateCommand(cmd)
    else if schema == None then Some(InvalidEventType)
    else if !valid(schema.value, cmd.properties.value) then Some(InvalidSchema)
    else None
  }

  /** A command is admitted exactly when it is complete, its schema is registered and the validator accepts its
      properties; otherwise the error is that of the first check that fails. */
  lemma AdmittedExactlyWhen(cmd: Command, schema: Option<Registry.Schema>, valid: Validator)
    ensures Admission(cmd, schema, valid) == None
      <==> cmd.eventType != "" && cmd.version > 0 && cmd.source != "" && cmd.timestamp.Some? && cmd.properties.Some?
           && schema.Some? && valid(schema.value, cmd.properties.value)
    ensures cmd.eventType == "" ==> Admission(cmd, schema, valid) == Some(InvalidEventType)
    ensures cmd.eventType != "" && cmd.version <= 0 ==> Admission(cmd, schema, valid) == Some(InvalidEventVersion)
    ensures cmd.eventType != "" && cmd.version > 0 ==>
      && (cmd.source == "" ==> Admission(cmd, schema, valid) == Some(InvalidSource))
      && (cmd.source != "" && cmd.timestamp == None ==> Admission(cmd, schema, valid) == Some(TimestampRequired))
      && (cmd.source != "" && cmd.timestamp.Some? && cmd.properties == None ==>
            Admission(cmd, schema, valid) == Some(PropertiesRequired))
      && (cmd.source != "" && cmd.timestamp.Some? && cmd.properties.Some? ==>
            && (schema == None ==> Admission(cmd, schema, valid) == Some(InvalidEventType))
            && (schema.Some? && !valid(schema.value, cmd.properties.value) ==>
                  Admission(cmd, schema, valid) == Some(InvalidSchema)))
  {
  }

  function EventOf(cmd: Command, id: Uuid): Event
    requires cmd.timestamp.Some? && cmd.properties.Some?
  {
    Event(id, cmd.eventId, cmd.eventType, cmd.version, cmd.source, cmd.userId, cmd.anonymousId, cmd.sessionId,
          cmd.timestamp.value, cmd.properties.value, None)
  }

  function PayloadOf(e: Event): Payload {
    Json(map[
      "event_id" := Id(e.eventId), "type" := Text(e.eventType),
      "version" := Number(e.version), "source" := Text(e.source),
      "user_id" := Text(e.userId), "anonymous_id" := Text(e.anonymousId), "session_id" := Text(e.sessionId),
      "timestamp" := Instant(e.timestamp), "properties" := Object(e.properties)])
  }

  /** The payload carries everything a consumer needs: two events with equal payloads differ at most in their row id
      and in when they were stored. */
  lemma PayloadDeterminesEvent(e: Event, other: Event)
    ensures PayloadOf(e) == PayloadOf(other) <==> e.(id := other.id, createdAt := other.createdAt) == other
  {
    if PayloadOf(e) == PayloadOf(other) {
      var m, n := PayloadOf(e).document, PayloadOf(other).document;
      assert m["event_id"] == n["event_id"] && m["type"] == n["type"] && m["version"] == n["version"];
      assert m["source"] == n["source"] && m["user_id"] == n["user_id"] && m["anonymous_id"] == n["anonymous_id"];
      assert m["session_id"] == n["session_id"] && m["timestamp"] == n["timestamp"]
          && m["properties"] == n["properties"];
    }
  }

  /** From the command to the message: every field of the event is the command's, and so is every member of the
      payload, under its own name. */
  lemma FieldsArrive(cmd: Command, id: Uuid)
    requires cmd.timestamp.Some? && cmd.properties.Some?
    ensures var e := EventOf(cmd, id);
      && e.id == id && e.eventId == cmd.eventId && e.eventType == cmd.eventType && e.version == cmd.version
      && e.source == cmd.source && e.userId == cmd.userId && e.anonymousId == cmd.anonymousId
      && e.sessionId == cmd.sessionId && Some(e.timestamp) == cmd.timestamp && Some(e.properties) == cmd.properties
    ensures PayloadOf(EventOf(cmd, id)).Json?
    ensures var m := PayloadOf(EventOf(cmd, id)).document;
      && m.Keys == {"event_id", "type", "version", "source", "user_id", "anonymous_id", "session_id", "timestamp",
                    "properties"}
      && m["event_id"] == Id(cmd.eventId) && m["type"] == Text(cmd.eventType)
      && m["version"] == Number(cmd.version) && m["source"] == Text(cmd.source)
      && m["user_id"] == Text(cmd.userId) && m["anonymous_id"] == Text(cmd.anonymousId)
      && m["session_id"] == Text(cmd.sessionId) && m["timestamp"] == Instant(cmd.timestamp.value)
      && m["properties"] == Object(cmd.properties.value)
  {
  }

  function OutboxRow(e: Event, at: Time): Row {
    NewRow(e.eventId, e.eventType, PayloadOf(e), at)
  }

  /** The `events` table by its unique event_id. */
  type Events = map<Uuid, Event>

  predicate HasRow(outbox: Table, key: Uuid) {
    exists id :: id in outbox && outbox[id].eventId == key
  }

  /** The outbox row belongs to a stored event and carries its type and payload. */
  predicate Belongs(events: Events, row: Row) {
    && row.eventId in events
    && row.eventType == events[row.eventId].eventType
    && row.payload == PayloadOf(events[row.eventId])
  }

  predicate OneRowEach(outbox: Table) {
    forall id, other :: id in outbox && other in outbox && outbox[id].eventId == outbox[other].eventId ==> id == other
  }

  /** Each stored event has exactly one outbox row, and each outbox row belongs to a stored event. */
  predicate Paired(events: Events, outbox: Table) {
    && (forall key :: key in events ==> events[key].eventId == key && HasRow(outbox, key))
    && (forall id :: id in outbox ==> Belongs(events, outbox[id]))
    && OneRowEach(outbox)
  }

  lemma RowForKey(events: Events, outbox: Table, outboxId: Uuid, row: Row, key: Uuid)
    requires Paired(events, outbox) && outboxId !in outbox && (key in events || key == row.eventId)
    ensures HasRow(outbox[outboxId := row], key)
  {
    var outbox' := outbox[outboxId := row];
    if key == row.eventId {
      assert outbox'[outboxId].eventId == key;
    } else {
      assert HasRow(outbox, key);
      var id :| id in outbox && outbox[id].eventId == key;
      assert outbox'[id].eventId == key;
    }
  }

  lemma StaysOneEach(events: Events, outbox: Table, outboxId: Uuid, row: Row)
    requires Paired(events, outbox) && outboxId !in outbox && row.eventId !in events
    ensures OneRowEach(outbox[outboxId := row])
  {
    forall id | id in outbox ensures outbox[id].eventId != row.eventId {
      assert Belongs(events, outbox[id]);
    }
  }

  lemma PairedInsert(events: Events, outbox: Table, e: Event, stored: Event, outboxId: Uuid, at: Time)
    requires Paired(events, outbox) && e.eventId !in events && outboxId !in outbox
    requires stored == e.(createdAt := stored.createdAt)
    ensures Paired(events[e.eventId := stored], outbox[outboxId := OutboxRow(e, at)])
  {
    var events', outbox' := events[e.eventId := stored], outbox[outboxId := OutboxRow(e, at)];
    PayloadDeterminesEvent(e, stored);
    StaysOneEach(events, outbox, outboxId, OutboxRow(e, at));
    forall key | key in events' ensures events'[key].eventId == key && HasRow(outbox', key) {
      RowForKey(events, outbox, outboxId, OutboxRow(e, at), key);
    }
    forall id | id in outbox' ensures Belongs(events', outbox'[id]) {
      assert id in outbox ==> Belongs(events, outbox[id]);
    }
  }

  /** Where the transaction of Save breaks off. */
  datatype SaveFault = NoFault | BeginFails | InsertEventFails | InsertOutboxFails | CommitFails(applied: bool)

  // ---------------------------------------------------------------- one database, any number of calls

  /** Where one call stands. `Inserted` holds the row it inserted under a unique event_id, not yet committed; another
      insert of the same event_id waits for it. `Clashed` has found the event_id committed. `Unanswered` has committed,
      but its caller got an error because the answer to COMMIT was lost. */
  datatype Stage = Waiting | Inserted | Clashed | Finished(result: Result<Ingested>) | Unanswered

  datatype Call = Call(event: Event, outboxId: Uuid, admitted: Option<Error>, stage: Stage)

  datatype Store = Store(events: Events, outbox: Table, calls: seq<Call>)

  datatype Step =
    | Refuse(c: nat)
    | Insert(c: nat)
    | Commit(c: nat, at: Time, answered: bool)
    | Abort(c: nat)
    | Find(c: nat)

  predicate Enabled(s: Store, step: Step) {
    match step
    case Refuse(c) => c < |s.calls| && s.calls[c].stage == Waiting && s.calls[c].admitted != None
    case Insert(c) =>
      && c < |s.calls| && s.calls[c].stage == Waiting && s.calls[c].admitted == None
      && forall d :: 0 <= d < |s.calls| && s.calls[d].stage == Inserted ==>
          s.calls[d].event.eventId != s.calls[c].event.eventId
    case Commit(c, _, _) => c < |s.calls| && s.calls[c].stage == Inserted && s.calls[c].outboxId !in s.outbox
    case Abort(c) => c < |s.calls| && s.calls[c].stage in {Waiting, Inserted, Clashed} && s.calls[c].admitted == None
    case Find(c) => c < |s.calls| && s.calls[c].stage == Clashed
  }

  function Finish(s: Store, c: nat, stage: Stage): Store
    requires c < |s.calls|
  {
    s.(calls := s.calls[c := s.calls[c].(stage := stage)])
  }

  function Next(s: Store, step: Step): Store
    requires Enabled(s, step)
  {
    match step
    case Refuse(c) => Finish(s, c, Finished(Err(s.calls[c].admitted.value)))
    case Insert(c) => Finish(s, c, if s.calls[c].event.eventId in s.events then Clashed else Inserted)
    case Commit(c, at, answered) =>
      var e := s.calls[c].event;
      Finish(s, c, if answered then Finished(Ok(Ingested(e, true))) else Unanswered)
        .(events := s.events[e.eventId := e.(createdAt := Some(at))],
          outbox := s.outbox[s.calls[c].outboxId := OutboxRow(e, at)])
    case Abort(c) => Finish(s, c, Finished(Err(DatabaseFailed)))
    case Find(c) =>
      var key := s.calls[c].event.eventId;
      Finish(s, c, Finished(if key in s.events then Ok(Ingested(s.events[key], false)) else Err(NotFound)))
  }

  function From(s: Store, steps: seq<Step>): Option<Store> {
    if steps == [] then Some(s)
    else
      var before := From(s, steps[..|steps| - 1]);
      var step := steps[|steps| - 1];
      if before.Some? && Enabled(before.value, step) then Some(Next(before.value, step)) else None
  }

  function Exec(calls: seq<Call>, steps: seq<Step>): Option<Store> {
    From(Store(map[], map[], calls), steps)
  }

  lemma OneStep(s: Store, step: Step)
    requires Enabled(s, step)
    ensures From(s, [step]) == Some(Next(s, step))
  {
    assert [step][..0] == [];
  }

  lemma TwoSteps(s: Store, step: Step, after: Step)
    requires Enabled(s, step) && Enabled(Next(s, step), after)
    ensures From(s, [step, after]) == Some(Next(Next(s, step), after))
  {
    OneStep(s, step);
    assert [step, after][..1] == [step];
  }

  /** The steps of a call that runs through undisturbed, given the faults it meets. */
  function Schedule(s: Store, c: nat, now: Time, fault: SaveFault, findFails: bool): seq<Step>
    requires c < |s.calls|
  {
    var call := s.calls[c];
    if call.admitted != None then [Refuse(c)]
    else if fault == BeginFails || fault == InsertEventFails then [Abort(c)]
    else if call.event.eventId in s.events then [Insert(c), if findFails then Abort(c) else Find(c)]
    else if call.outboxId !in s.outbox && (fault == NoFault || fault == CommitFails(true)) then
      [Insert(c), Commit(c, now, fault == NoFault)]
    else [Insert(c), Abort(c)]
  }

  /** The call has not begun, and no other call holds an uncommitted row under its event_id. */
  predicate CanBegin(s: Store, c: nat) {
    && c < |s.calls| && s.calls[c].stage == Waiting
    && forall d :: 0 <= d < |s.calls| && s.calls[d].stage == Inserted ==>
        s.calls[d].event.eventId != s.calls[c].event.eventId
  }

  /** Played out in this store, the call leaves these tables and this answer, and the other calls where they were. An
      error after a lost answer to COMMIT is what the caller of an unanswered call sees. */
  ghost predicate PlaysOut(s: Store, c: nat, now: Time, fault: SaveFault, findFails: bool,
                           events: Events, outbox: Table, result: Result<Ingested>)
    requires c < |s.calls|
  {
    var end := From(s, Schedule(s, c, now, fault, findFails));
    && end.Some? && end.value.events == events && end.value.outbox == outbox
    && (end.value == Finish(end.value, c, Finished(result))
        || (end.value == Finish(end.value, c, Unanswered) && result == Err(DatabaseFailed)))
    && end.value.calls == s.calls[c := s.calls[c].(stage := end.value.calls[c].stage)]
  }

  /** Whether a transaction on these tables takes effect. */
  predicate Writes(s: Store, c: nat, fault: SaveFault)
    requires c < |s.calls|
  {
    && s.calls[c].event.eventId !in s.events && s.calls[c].outboxId !in s.outbox
    && (fault == NoFault || fault == CommitFails(true))
  }

  lemma PlaysOutRefused(s: Store, c: nat, now: Time, fault: SaveFault, findFails: bool)
    requires CanBegin(s, c) && s.calls[c].admitted != None
    ensures PlaysOut(s, c, now, fault, findFails, s.events, s.outbox, Err(s.calls[c].admitted.value))
  {
    OneStep(s, Refuse(c));
  }

  lemma Stored(s: Store, c: nat, now: Time, fault: SaveFault, findFails: bool)
    requires CanBegin(s, c) && s.calls[c].admitted == None && Writes(s, c, fault)
    ensures var e := s.calls[c].event;
      PlaysOut(s, c, now, fault, findFails, s.events[e.eventId := e.(createdAt := Some(now))],
               s.outbox[s.calls[c].outboxId := OutboxRow(e, now)],
               if fault == NoFault then Ok(Ingested(e, true)) else Err(DatabaseFailed))
  {
    hide PayloadOf;
    TwoSteps(s, Insert(c), Commit(c, now, fault == NoFault));
  }

  /** An admitted call is stored, or finds its event stored, or fails. */
  lemma HowItPlaysOut(s: Store, c: nat, now: Time, fault: SaveFault, findFails: bool)
    requires CanBegin(s, c) && s.calls[c].admitted == None
    ensures var e := s.calls[c].event;
      if Writes(s, c, fault) then
        PlaysOut(s, c, now, fault, findFails, s.events[e.eventId := e.(createdAt := Some(now))],
                 s.outbox[s.calls[c].outboxId := OutboxRow(e, now)],
                 if fault == NoFault then Ok(Ingested(e, true)) else Err(DatabaseFailed))
      else
        PlaysOut(s, c, now, fault, findFails, s.events, s.outbox,
                 if e.eventId in s.events && !findFails && fault != BeginFails && fault != InsertEventFails
                 then Ok(Ingested(s.events[e.eventId], false)) else Err(DatabaseFailed))
  {
    if fault == BeginFails || fault == InsertEventFails {
      OneStep(s, Abort(c));
    } else if Writes(s, c, fault) {
      Stored(s, c, now, fault, findFails);
    } else if s.calls[c].event.eventId in s.events && !findFails {
      TwoSteps(s, Insert(c), Find(c));
    } else {
      TwoSteps(s, Insert(c), Abort(c));
    }
  }

  // ---------------------------------------------------------------- the handler

  class EventRepository {
    var events: Events
    var outbox: Table

    constructor ()
      ensures events == map[] && outbox == map[]
    {
      events, outbox := map[], map[];
    }

    /** Both rows or none: the event and its outbox row are written together, unless the event_id is already stored.
        Only a lost answer to COMMIT leaves the caller with an error although the rows are there. */
    method Save(e: Event, outboxId: Uuid, now: Time, fault: SaveFault) returns (error: Option<Error>)
      requires Paired(events, outbox)
      modifies this
      ensures Paired(events, outbox)
      ensures error == if fault == BeginFails || fault == InsertEventFails then Some(DatabaseFailed)
                       else if e.eventId in old(events) then Some(AlreadyExists)
                       else if fault == NoFault && outboxId !in old(outbox) then None
                       else Some(DatabaseFailed)
      ensures if e.eventId !in old(events) && outboxId !in old(outbox)
                 && (fault == NoFault || fault == CommitFails(true))
              then && events == old(events)[e.eventId := e.(createdAt := Some(now))]
                   && outbox == old(outbox)[outboxId := OutboxRow(e, now)]
                   && outbox[outboxId] == Row(e.eventId, e.eventType, PayloadOf(e), Pending, 0, now, now,
                                              None, None, None)
              else events == old(events) && outbox == old(outbox)
    {
      if fault == BeginFails || fault == InsertEventFails {
        return Some(DatabaseFailed);
      }
      if e.eventId in events {
        return Some(AlreadyExists);
      }
      // the event is inserted, but not yet visible
      if fault == InsertOutboxFails || outboxId in outbox {
        return Some(DatabaseFailed);
      }
      if fault == CommitFails(false) {
        return Some(DatabaseFailed);
      }
      PairedInsert(events, outbox, e, e.(createdAt := Some(now)), outboxId, now);
      events := events[e.eventId := e.(createdAt := Some(now))];
      outbox := outbox[outboxId := OutboxRow(e, now)];
      return if fault == CommitFails(true) then Some(DatabaseFailed) else None;
    }

    method FindByEventID(eventId: Uuid, fails: bool) returns (result: Result<Event>)
      ensures result == if fails then Err(DatabaseFailed)
                        else if eventId in events then Ok(events[eventId]) else Err(NotFound)
    {
      if fails {
        return Err(DatabaseFailed);
      }
      return if eventId in events then Ok(events[eventId]) else Err(NotFound);
    }
  }

  class EventIngestor {
    const registry: Registry.InMemorySchemaRegistry
    const repository: EventRepository
    const valid: Validator

    constructor (registry: Registry.InMemorySchemaRegistry, valid: Validator, repository: EventRepository)
      ensures this.registry == registry && this.repository == repository && this.valid == valid
    {
      this.registry, this.repository, this.valid := registry, repository, valid;
    }

    /** The checks before the database. */
    method Admit(cmd: Command) returns (refused: Option<Error>)
      requires registry.Valid()
      ensures refused == Admission(cmd, Registry.Lookup(registry.registered, cmd.eventType, cmd.version), valid)
    {
      refused := ValidateCommand(cmd);
      if refused != None {
        return;
      }
      var schema := registry.Get(cmd.eventType, cmd.version);
      if schema == None {
        return Some(InvalidEventType);
      }
      if !valid(schema.value, cmd.properties.value) {
        return Some(InvalidSchema);
      }
    }

    /** Insert or find. A new event_id is stored with its outbox row and reported as created; a known one returns what
        is stored; otherwise both tables are as they were, unless only the answer to COMMIT was lost. */
    method SaveOrFind(event: Event, outboxId: Uuid, now: Time, fault: SaveFault, findFails: bool, ghost s: Store,
                      ghost c: nat)
        returns (result: Result<Ingested>)
      requires Paired(repository.events, repository.outbox)
      modifies repository
      ensures Paired(repository.events, repository.outbox)
      ensures fault == NoFault && !findFails && outboxId !in old(repository.outbox) ==>
        result.Ok? && (result.value.created <==> event.eventId !in old(repository.events))
      ensures result.Ok? && result.value.created ==>
        && event.eventId !in old(repository.events)
        && result.value.event == event
        && repository.events == old(repository.events)[event.eventId := event.(createdAt := Some(now))]
        && repository.outbox == old(repository.outbox)[outboxId := OutboxRow(event, now)]
      ensures result.Ok? && !result.value.created ==>
        && event.eventId in old(repository.events) && result.value.event == old(repository.events)[event.eventId]
        && repository.events == old(repository.events) && repository.outbox == old(repository.outbox)
      ensures !(result.Ok? && result.value.created) && fault != CommitFails(true) ==>
        repository.events == old(repository.events) && repository.outbox == old(repository.outbox)
      ensures result.Err? ==> result.error == DatabaseFailed
      ensures old(StandsFor(s, c, event, outboxId)) ==>
        PlaysOut(s, c, now, fault, findFails, repository.events, repository.outbox, result)
    {
      if StandsFor(s, c, event, outboxId) {
        HowItPlaysOut(s, c, now, fault, findFails);
      }
      var error := repository.Save(event, outboxId, now, fault);
      if error == None {
        return Ok(Ingested(event, true));
      }
      if error == Some(AlreadyExists) {
        var existing := repository.FindByEventID(event.eventId, findFails);
        if existing.Err? {
          return Err(existing.error);
        }
        return Ok(Ingested(existing.value, false));
      }
      return Err(DatabaseFailed);
    }

    /** In the interleaving machine on these tables, the admitted call `c` with this event is about to begin. */
    ghost predicate StandsFor(s: Store, c: nat, event: Event, outboxId: Uuid)
      reads repository
    {
      && CanBegin(s, c) && s.events == repository.events && s.outbox == repository.outbox
      && s.calls[c] == Call(event, outboxId, None, Waiting)
    }

    /** The call `c` of the interleaving machine that stands for handling this command. */
    ghost predicate Is(s: Store, c: nat, cmd: Command, id: Uuid, outboxId: Uuid)
      reads registry, repository
    {
      && CanBegin(s, c) && s.events == repository.events && s.outbox == repository.outbox
      && s.calls[c].admitted == Admission(cmd, Registry.Lookup(registry.registered, cmd.eventType, cmd.version), valid)
      && (s.calls[c].admitted == None ==> StandsFor(s, c, EventOf(cmd, id), outboxId))
    }

    /** A command that is not admitted is refused with its reason and leaves both tables alone; an admitted one is
        inserted or found. Whatever other calls are under way in the store `s`, the handling of the command is a
        schedule of its call `c` there. */
    method Handle(cmd: Command, id: Uuid, outboxId: Uuid, now: Time, fault: SaveFault, findFails: bool,
                  ghost s: Store, ghost c: nat) returns (result: Result<Ingested>)
      requires registry.Valid() && Paired(repository.events, repository.outbox)
      modifies repository
      ensures Paired(repository.events, repository.outbox)
      ensures var schema := Registry.Lookup(old(registry.registered), cmd.eventType, cmd.version);
        var refused := Admission(cmd, schema, valid);
        && (refused != None ==>
              && result == Err(refused.value)
              && repository.events == old(repository.events) && repository.outbox == old(repository.outbox))
        && (refused == None ==> result.Ok? || result == Err(DatabaseFailed))
        && (refused == None && fault == NoFault && !findFails && outboxId !in old(repository.outbox) ==>
              result.Ok? && (result.value.created <==> cmd.eventId !in old(repository.events)))
      ensures result.Ok? && result.value.created ==>
        && cmd.timestamp.Some? && cmd.properties.Some? && result.value.event == EventOf(cmd, id)
        && repository.events == old(repository.events)[cmd.eventId := EventOf(cmd, id).(createdAt := Some(now))]
        && repository.outbox == old(repository.outbox)[outboxId := OutboxRow(EventOf(cmd, id), now)]
      ensures result.Ok? && !result.value.created ==>
        && cmd.eventId in old(repository.events) && result.value.event == old(repository.events)[cmd.eventId]
        && repository.events == old(repository.events) && repository.outbox == old(repository.outbox)
      ensures var schema := Registry.Lookup(old(registry.registered), cmd.eventType, cmd.version);
        if cmd.eventType != "" && cmd.version > 0 && cmd.source != "" && cmd.timestamp.Some? && cmd.properties.Some?
           && schema.Some? && valid(schema.value, cmd.properties.value)
        then result.Ok? || result == Err(DatabaseFailed)
        else result.Err? && result.error != DatabaseFailed
             && repository.events == old(repository.events) && repository.outbox == old(repository.outbox)
      ensures old(Is(s, c, cmd, id, outboxId)) ==>
        PlaysOut(s, c, now, fault, findFails, repository.events, repository.outbox, result)
    {
      ghost var schema := Registry.Lookup(registry.registered, cmd.eventType, cmd.version);
      AdmittedExactlyWhen(cmd, schema, valid);
      var refused := Admit(cmd);
      if refused != None {
        if old(Is(s, c, cmd, id, outboxId)) {
          PlaysOutRefused(s, c, now, fault, findFails);
        }
        return Err(refused.value);
      }
      result := SaveOrFind(EventOf(cmd, id), outboxId, now, fault, findFails, s, c);
    }
  }

  // ---------------------------------------------------------------- any number of calls

  predicate Fresh(calls: seq<Call>) {
    forall c :: 0 <= c < |calls| ==> calls[c].stage == Waiting
  }

  predicate Created(call: Call) {
    call.stage.Finished? && call.stage.result.Ok? && call.stage.result.value.created
  }

  /** How many calls stored the event_id: those that reported it as created, and those whose answer was lost. */
  function Writers(calls: seq<Call>, key: Uuid): nat {
    if calls == [] then 0
    else Writers(calls[..|calls| - 1], key) + (if Wrote(calls[|calls| - 1], key) then 1 else 0)
  }

  predicate Wrote(call: Call, key: Uuid) {
    call.event.eventId == key && (Created(call) || call.stage == Unanswered)
  }

  lemma {:induction false} WritersUpdate(calls: seq<Call>, c: nat, call: Call, key: Uuid)
    requires c < |calls|
    ensures Writers(calls[c := call], key) + (if Wrote(calls[c], key) then 1 else 0)
         == Writers(calls, key) + (if Wrote(call, key) then 1 else 0)
  {
    var last := |calls| - 1;
    if c == last {
      assert calls[c := call][..last] == calls[..last];
    } else {
      assert calls[c := call][..last] == calls[..last][c := call];
      WritersUpdate(calls[..last], c, call, key);
    }
  }

  lemma {:induction false} NoWriters(calls: seq<Call>, key: Uuid)
    requires Fresh(calls)
    ensures Writers(calls, key) == 0
  {
    if calls != [] {
      NoWriters(calls[..|calls| - 1], key);
    }
  }

  /** What the calls know is true of the tables. */
  ghost predicate CallOk(s: Store, c: nat)
    requires c < |s.calls|
  {
    var call := s.calls[c];
    var key := call.event.eventId;
    && (call.stage == Inserted ==> key !in s.events)
    && (call.stage == Inserted ==>
          forall d :: 0 <= d < |s.calls| && d != c && s.calls[d].stage == Inserted ==> s.calls[d].event.eventId != key)
    && (call.stage == Clashed ==> key in s.events)
    && (call.stage.Finished? && call.stage.result.Ok? ==>
          && key in s.events
          && (if call.stage.result.value.created
              then call.stage.result.value.event == call.event
                  && s.events[key] == call.event.(createdAt := s.events[key].createdAt)
              else call.stage.result.value.event == s.events[key]))
    && (call.stage.Finished? ==> call.stage.result != Err(NotFound))
  }

  ghost predicate StoreOk(s: Store) {
    && Paired(s.events, s.outbox)
    && (forall c :: 0 <= c < |s.calls| ==> CallOk(s, c) && s.calls[c].admitted != Some(NotFound))
    && (forall key :: Writers(s.calls, key) == if key in s.events then 1 else 0)
  }

  lemma OwnCallKept(s: Store, step: Step)
    requires StoreOk(s) && Enabled(s, step)
    ensures CallOk(Next(s, step), step.c)
  {
    assert CallOk(s, step.c);
  }

  lemma OtherCallKept(s: Store, step: Step, c: nat)
    requires StoreOk(s) && Enabled(s, step) && c < |s.calls| && c != step.c
    ensures CallOk(Next(s, step), c)
  {
    assert CallOk(s, c) && CallOk(s, step.c);
    assert Next(s, step).calls[c] == s.calls[c];
  }

  lemma CallKept(s: Store, step: Step, c: nat)
    requires StoreOk(s) && Enabled(s, step) && c < |s.calls|
    ensures CallOk(Next(s, step), c) && Next(s, step).calls[c].admitted == s.calls[c].admitted
  {
    if c == step.c {
      OwnCallKept(s, step);
    } else {
      OtherCallKept(s, step, c);
    }
  }

  lemma PairedKept(s: Store, step: Step)
    requires StoreOk(s) && Enabled(s, step)
    ensures Paired(Next(s, step).events, Next(s, step).outbox)
  {
    assert CallOk(s, step.c);
    if step.Commit? {
      var e := s.calls[step.c].event;
      PairedInsert(s.events, s.outbox, e, e.(createdAt := Some(step.at)), s.calls[step.c].outboxId, step.at);
    }
  }

  /** Before its step a call has not written, and it writes by a commit only. */
  lemma StepWrites(s: Store, step: Step, key: Uuid)
    requires Enabled(s, step)
    ensures !Wrote(s.calls[step.c], key)
    ensures Next(s, step).calls == s.calls[step.c := Next(s, step).calls[step.c]]
    ensures Wrote(Next(s, step).calls[step.c], key) <==> step.Commit? && s.calls[step.c].event.eventId == key
  {
  }

  lemma WritersKept(s: Store, step: Step, key: Uuid)
    requires StoreOk(s) && Enabled(s, step)
    ensures Writers(Next(s, step).calls, key) == if key in Next(s, step).events then 1 else 0
  {
    StepWrites(s, step, key);
    WritersUpdate(s.calls, step.c, Next(s, step).calls[step.c], key);
    if step.Commit? {
      assert CallOk(s, step.c);
    }
  }

  lemma StoreKept(s: Store, step: Step)
    requires StoreOk(s) && Enabled(s, step)
    ensures StoreOk(Next(s, step))
  {
    var s' := Next(s, step);
    assert |s'.calls| == |s.calls|;
    forall c | 0 <= c < |s'.calls| ensures CallOk(s', c) && s'.calls[c].admitted != Some(NotFound) {
      CallKept(s, step, c);
    }
    forall key ensures Writers(s'.calls, key) == if key in s'.events then 1 else 0 {
      WritersKept(s, step, key);
    }
    PairedKept(s, step);
  }

  lemma {:induction false} StoreAlwaysOk(calls: seq<Call>, steps: seq<Step>)
    requires Fresh(calls) && Exec(calls, steps).Some?
    requires forall c :: 0 <= c < |calls| ==> calls[c].admitted != Some(NotFound)
    ensures StoreOk(Exec(calls, steps).value)
  {
    if steps == [] {
      forall key ensures Writers(calls, key) == 0 {
        NoWriters(calls, key);
      }
    } else {
      StoreAlwaysOk(calls, steps[..|steps| - 1]);
      StoreKept(Exec(calls, steps[..|steps| - 1]).value, steps[|steps| - 1]);
    }
  }

  /** Ingestion is idempotent under any interleaving of any number of calls: the event_ids of the two tables are the
      same, each with one row; exactly one call stored each of them, and it reported so unless the answer to its COMMIT
      was lost; every other successful call returns the stored event, which is its writer's but for the time it was
      stored. */
  lemma IdempotentIngestion(calls: seq<Call>, steps: seq<Step>, c: nat)
    requires Fresh(calls) && Exec(calls, steps).Some?
    requires forall d :: 0 <= d < |calls| ==> calls[d].admitted != Some(NotFound)
    ensures var s := Exec(calls, steps).value;
      && Paired(s.events, s.outbox)
      && (forall key :: Writers(s.calls, key) == if key in s.events then 1 else 0)
      && (c < |s.calls| && s.calls[c].stage.Finished? && s.calls[c].stage.result.Ok? ==>
            var e, ingested := s.calls[c].event, s.calls[c].stage.result.value;
            && e.eventId in s.events
            && (ingested.created ==>
                ingested.event == e && s.events[e.eventId] == e.(createdAt := s.events[e.eventId].createdAt))
            && (!ingested.created ==> ingested.event == s.events[e.eventId]))
  {
    StoreAlwaysOk(calls, steps);
    var s := Exec(calls, steps).value;
    if c < |s.calls| {
      assert CallOk(s, c);
    }
  }

  /** Stored events are never changed or removed, and only a commit adds to the tables: a refused, failed or
      duplicate call leaves them alone. */
  lemma {:induction false} OnlyCommitsWrite(calls: seq<Call>, steps: seq<Step>, step: Step)
    requires Fresh(calls) && Exec(calls, steps).Some? && Enabled(Exec(calls, steps).value, step)
    requires forall c :: 0 <= c < |calls| ==> calls[c].admitted != Some(NotFound)
    ensures var s, s' := Exec(calls, steps).value, Next(Exec(calls, steps).value, step);
      && (!step.Commit? ==> s'.events == s.events && s'.outbox == s.outbox)
      && (step.Commit? ==> |s'.events| == |s.events| + 1 && |s'.outbox| == |s.outbox| + 1)
      && (forall key :: key in s.events ==> key in s'.events && s'.events[key] == s.events[key])
  {
    StoreAlwaysOk(calls, steps);
    assert CallOk(Exec(calls, steps).value, step.c);
  }
}
