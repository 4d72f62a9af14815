/** Ingestion and the outbox on one database: from the client's accepted event to the acknowledged message. */
module Pipeline {
  import opened Wrappers
  import opened Outbox
  import P = Protocol
  import Agreement
  import Guarantees
  import Draining
  import Registry
  import T = Tightness
  import I = Ingestion

  /** The two views of the database: what ingestion wrote, and the outbox table as the workers have moved it on. */
  datatype System = System(store: I.Store, outbox: P.State)

  datatype Step = Serve(request: I.Step) | Work(a: P.Action)

  predicate Enabled(cfg: P.Config, sys: System, step: Step) {
    match step
    case Serve(request) => I.Enabled(sys.store, request) && (request.Commit? ==> request.at <= sys.outbox.now)
    case Work(a) => !a.Ingest? && P.Enabled(cfg, sys.outbox, a)
  }

  /** The row that a committing call adds to the outbox. */
  function Arrival(s: I.Store, request: I.Step): P.Action
    requires I.Enabled(s, request) && request.Commit?
  {
    var call := s.calls[request.c];
    P.Ingest(call.outboxId, call.event.eventId, call.event.eventType, I.PayloadOf(call.event), request.at)
  }

  /** The outbox table holds the rows that ingestion wrote, whatever the workers have done to them since. */
  ghost predicate Linked(sys: System) {
    && sys.outbox.rows.Keys == sys.store.outbox.Keys
    && forall id :: id in sys.store.outbox ==>
         && sys.outbox.rows[id].eventId == sys.store.outbox[id].eventId
         && sys.outbox.rows[id].eventType == sys.store.outbox[id].eventType
         && sys.outbox.rows[id].payload == sys.store.outbox[id].payload
  }

  /** A commit of ingestion is an arrival of the protocol: its row is new and its event_id is unique. */
  lemma CommitIsArrival(cfg: P.Config, sys: System, request: I.Step)
    requires Linked(sys) && I.StoreOk(sys.store) && Enabled(cfg, sys, Serve(request)) && request.Commit?
    ensures P.Enabled(cfg, sys.outbox, Arrival(sys.store, request))
    ensures I.Next(sys.store, request).outbox[sys.store.calls[request.c].outboxId]
         == P.Next(cfg, sys.outbox, Arrival(sys.store, request)).rows[sys.store.calls[request.c].outboxId]
  {
    assert I.CallOk(sys.store, request.c);
    forall id | id in sys.outbox.rows ensures sys.outbox.rows[id].eventId != sys.store.calls[request.c].event.eventId {
      assert I.Belongs(sys.store.events, sys.store.outbox[id]);
    }
  }

  function Next(cfg: P.Config, sys: System, step: Step): System
    requires Enabled(cfg, sys, step)
    requires step.Serve? && step.request.Commit? ==> P.Enabled(cfg, sys.outbox, Arrival(sys.store, step.request))
  {
    match step
    case Work(a) => sys.(outbox := P.Next(cfg, sys.outbox, a))
    case Serve(request) =>
      System(I.Next(sys.store, request),
             if request.Commit? then P.Next(cfg, sys.outbox, Arrival(sys.store, request)) else sys.outbox)
  }

  /** The outcome of a schedule of both, if each of its steps is possible; commits always are (CommitIsArrival). */
  function Exec(cfg: P.Config, calls: seq<I.Call>, steps: seq<Step>): Option<System> {
    if steps == [] then Some(System(I.Store(map[], map[], calls), P.Init(cfg)))
    else
      var before := Exec(cfg, calls, steps[..|steps| - 1]);
      var step := steps[|steps| - 1];
      if before.Some? && Enabled(cfg, before.value, step)
         && (step.Serve? && step.request.Commit? ==>
             P.Enabled(cfg, before.value.outbox, Arrival(before.value.store, step.request)))
      then Some(Next(cfg, before.value, step)) else None
  }

  predicate FreshCalls(calls: seq<I.Call>) {
    I.Fresh(calls) && forall c :: 0 <= c < |calls| ==> calls[c].admitted != Some(I.NotFound)
  }

  lemma LinkedByWork(cfg: P.Config, sys: System, a: P.Action)
    requires Linked(sys) && Enabled(cfg, sys, Work(a))
    ensures Linked(sys.(outbox := P.Next(cfg, sys.outbox, a)))
  {
    Agreement.RowsEvolve(cfg, sys.outbox, a);
    var rows' := P.Next(cfg, sys.outbox, a).rows;
    forall id | id in sys.outbox.rows ensures Agreement.RowEvolves(sys.outbox.rows[id], rows'[id]) {
    }
    assert rows'.Keys == sys.outbox.rows.Keys;
  }

  lemma LinkedKept(cfg: P.Config, sys: System, step: Step)
    requires Linked(sys) && Enabled(cfg, sys, step)
    requires step.Serve? && step.request.Commit? ==> P.Enabled(cfg, sys.outbox, Arrival(sys.store, step.request))
    ensures Linked(Next(cfg, sys, step))
  {
    if step.Work? {
      LinkedByWork(cfg, sys, step.a);
    }
  }

  /** Either half of a schedule is a schedule of its own machine. */
  lemma {:induction false} Halves(cfg: P.Config, calls: seq<I.Call>, steps: seq<Step>)
      returns (requests: seq<I.Step>, run: seq<P.Action>)
    requires FreshCalls(calls) && Exec(cfg, calls, steps).Some?
    ensures I.Exec(calls, requests) == Some(Exec(cfg, calls, steps).value.store)
    ensures P.Exec(cfg, run) == Some(Exec(cfg, calls, steps).value.outbox)
    ensures Linked(Exec(cfg, calls, steps).value)
  {
    if steps == [] {
      requests, run := [], [];
    } else {
      var before := steps[..|steps| - 1];
      var step := steps[|steps| - 1];
      var sys := Exec(cfg, calls, before).value;
      requests, run := Halves(cfg, calls, before);
      LinkedKept(cfg, sys, step);
      if step.Work? {
        P.Extend(cfg, run, step.a);
        run := run + [step.a];
      } else {
        var served := requests + [step.request];
        assert served[..|served| - 1] == requests;
        if step.request.Commit? {
          P.Extend(cfg, run, Arrival(sys.store, step.request));
          run := run + [Arrival(sys.store, step.request)];
        }
        requests := served;
      }
    }
  }

  /** What reaches the broker is what was committed: every acknowledged message carries the event_id of a stored event
      as its key and that event's payload as its value. */
  lemma OnlyCommittedIsPublished(cfg: P.Config, calls: seq<I.Call>, steps: seq<Step>, m: P.Message)
    requires FreshCalls(calls) && Exec(cfg, calls, steps).Some? && m in Exec(cfg, calls, steps).value.outbox.acked
    ensures var events := Exec(cfg, calls, steps).value.store.events;
      m.key in events && m.value == I.PayloadOf(events[m.key])
  {
    var sys := Exec(cfg, calls, steps).value;
    var requests, run := Halves(cfg, calls, steps);
    Guarantees.NothingElsePublished(cfg, run, m);
    var id :| id in sys.outbox.rows && m == P.Message(sys.outbox.rows[id].eventId, sys.outbox.rows[id].payload);
    I.StoreAlwaysOk(calls, requests);
    assert I.Belongs(sys.store.events, sys.store.outbox[id]);
  }

  /** Where an accepted event ends up. */
  predicate Arrived(cfg: P.Config, sys: System, key: Uuid, id: Uuid) {
    && key in sys.store.events
    && id in sys.outbox.rows && sys.outbox.rows[id].eventId == key
    && (sys.outbox.rows[id].status == Published || sys.outbox.rows[id].status == Close)
    && (sys.outbox.rows[id].status == Published ==>
          P.Message(key, I.PayloadOf(sys.store.events[key])) in sys.outbox.acked)
    && (sys.outbox.rows[id].status == Close ==>
          sys.outbox.rows[id].attempts >= cfg.maxRetries && sys.outbox.rows[id].lastError.Some?)
  }

  /** At least once, or closed on record: once nothing more can happen, every event a client was told is accepted was
      acknowledged by the broker with the stored payload, or its row is closed with its budget used and its last error
      kept. No accepted event is without a row. */
  lemma AcceptedEventsArrive(cfg: P.Config, calls: seq<I.Call>, steps: seq<Step>, c: nat)
    requires FreshCalls(calls) && Exec(cfg, calls, steps).Some?
    requires cfg.workers > 0 && cfg.batchSize > 0 && cfg.staleTimeout > 0
    requires !Draining.CanGoOn(cfg, Exec(cfg, calls, steps).value.outbox)
    requires c < |Exec(cfg, calls, steps).value.store.calls|
    requires var stage := Exec(cfg, calls, steps).value.store.calls[c].stage; stage.Finished? && stage.result.Ok?
    ensures var sys := Exec(cfg, calls, steps).value;
      exists id :: Arrived(cfg, sys, sys.store.calls[c].event.eventId, id)
  {
    var sys := Exec(cfg, calls, steps).value;
    var key := sys.store.calls[c].event.eventId;
    var requests, run := Halves(cfg, calls, steps);
    I.StoreAlwaysOk(calls, requests);
    assert I.CallOk(sys.store, c);
    assert I.HasRow(sys.store.outbox, key);
    var id :| id in sys.store.outbox && sys.store.outbox[id].eventId == key;
    assert I.Belongs(sys.store.events, sys.store.outbox[id]);
    Settles(cfg, run, id);
    assert Arrived(cfg, sys, key, id);
  }

  lemma Settles(cfg: P.Config, run: seq<P.Action>, id: Uuid)
    requires P.Exec(cfg, run).Some? && id in P.Exec(cfg, run).value.rows
    requires cfg.workers > 0 && cfg.batchSize > 0 && cfg.staleTimeout > 0
    requires !Draining.CanGoOn(cfg, P.Exec(cfg, run).value)
    ensures var s := P.Exec(cfg, run).value;
      && (s.rows[id].status == Published || s.rows[id].status == Close)
      && (s.rows[id].status == Published ==> P.Message(s.rows[id].eventId, s.rows[id].payload) in s.acked)
      && (s.rows[id].status == Close ==> s.rows[id].attempts >= cfg.maxRetries && s.rows[id].lastError.Some?)
  {
    Draining.StuckMeansDone(cfg, run);
    if P.Exec(cfg, run).value.rows[id].status == Published {
      Guarantees.PublishedMeansAcknowledged(cfg, run, id);
    } else {
      Guarantees.ClosedLedger(cfg, run, id);
    }
  }

  // ---------------------------------------------------------------- when at-least-once holds

  predicate RefusedAtMost(s: P.State, r: nat) {
    forall id :: id in s.rows ==> s.Of(id).fails <= r
  }

  predicate Accepted(call: I.Call) {
    call.stage.Finished? && call.stage.result.Ok?
  }

  /** The call's event has reached the broker with its stored payload. */
  predicate Reached(sys: System, call: I.Call) {
    && call.event.eventId in sys.store.events
    && P.Message(call.event.eventId, I.PayloadOf(sys.store.events[call.event.eventId])) in sys.outbox.acked
  }

  type Schemas = (string, int) -> Option<Registry.Schema>

  /** What the handler says to a command before it turns to the database. */
  function Admit(schemas: Schemas, valid: I.Validator, cmd: I.Command): Option<I.Error> {
    I.Admission(cmd, schemas(cmd.eventType, cmd.version), valid)
  }

  /** The call handles this command. */
  predicate Handles(call: I.Call, schemas: Schemas, valid: I.Validator, cmd: I.Command, id: Uuid) {
    && call.stage == I.Waiting && call.admitted == Admit(schemas, valid, cmd)
    && (call.admitted == None ==> call.event == I.EventOf(cmd, id))
  }

  ghost predicate IsCommand(call: I.Call, schemas: Schemas, valid: I.Validator) {
    exists cmd, id :: Handles(call, schemas, valid, cmd, id)
  }

  ghost predicate FromCommands(calls: seq<I.Call>, schemas: Schemas, valid: I.Validator) {
    forall c :: 0 <= c < |calls| ==> IsCommand(calls[c], schemas, valid)
  }

  ghost predicate SomeAdmitted(schemas: Schemas, valid: I.Validator) {
    exists cmd :: Admit(schemas, valid, cmd) == None
  }

  lemma CommandsAreFresh(calls: seq<I.Call>, schemas: Schemas, valid: I.Validator)
    requires FromCommands(calls, schemas, valid)
    ensures FreshCalls(calls)
  {
    forall c | 0 <= c < |calls| ensures calls[c].stage == I.Waiting && calls[c].admitted != Some(I.NotFound) {
      assert IsCommand(calls[c], schemas, valid);
      var cmd, id :| Handles(calls[c], schemas, valid, cmd, id);
    }
  }

  /** Once nothing more can happen every accepted event has reached the broker, whatever commands were sent, as long as
      the publisher refuses no row more than `r` times. */
  ghost predicate AllArrive(cfg: P.Config, schemas: Schemas, valid: I.Validator, r: nat) {
    forall calls, steps, c ::
      FromCommands(calls, schemas, valid) && Exec(cfg, calls, steps).Some?
      && !Draining.CanGoOn(cfg, Exec(cfg, calls, steps).value.outbox)
      && RefusedAtMost(Exec(cfg, calls, steps).value.outbox, r)
      && 0 <= c < |Exec(cfg, calls, steps).value.store.calls|
      && Accepted(Exec(cfg, calls, steps).value.store.calls[c])
      ==> Reached(Exec(cfg, calls, steps).value, Exec(cfg, calls, steps).value.store.calls[c])
  }

  lemma ArrivesWithinBudget(cfg: P.Config, calls: seq<I.Call>, steps: seq<Step>, r: nat, c: nat)
    requires FreshCalls(calls) && Exec(cfg, calls, steps).Some?
    requires cfg.workers > 0 && cfg.batchSize > 0 && cfg.staleTimeout > 0 && r <= cfg.maxRetries
    requires !Draining.CanGoOn(cfg, Exec(cfg, calls, steps).value.outbox)
    requires RefusedAtMost(Exec(cfg, calls, steps).value.outbox, r)
    requires c < |Exec(cfg, calls, steps).value.store.calls| && Accepted(Exec(cfg, calls, steps).value.store.calls[c])
    ensures Reached(Exec(cfg, calls, steps).value, Exec(cfg, calls, steps).value.store.calls[c])
  {
    hide P.Exec, Exec, Draining.CanGoOn;
    var sys := Exec(cfg, calls, steps).value;
    var requests, run := Halves(cfg, calls, steps);
    AcceptedEventsArrive(cfg, calls, steps, c);
    var id :| Arrived(cfg, sys, sys.store.calls[c].event.eventId, id);
    if sys.outbox.rows[id].status == Close {
      Guarantees.ClosedLedger(cfg, run, id);
      Guarantees.FailureLedger(cfg, run, id);
      assert false;
    }
  }

  lemma {:induction false} GoOn(cfg: P.Config, calls: seq<I.Call>, steps: seq<Step>, run: seq<P.Action>,
                                run': seq<P.Action>)
      returns (steps': seq<Step>)
    requires Exec(cfg, calls, steps).Some? && P.Exec(cfg, run) == Some(Exec(cfg, calls, steps).value.outbox)
    requires T.Continues(run, run') && P.Exec(cfg, run').Some?
    ensures Exec(cfg, calls, steps') == Some(Exec(cfg, calls, steps).value.(outbox := P.Exec(cfg, run').value))
    decreases |run'|
  {
    hide P.Enabled, P.Next;
    if |run'| == |run| {
      assert run' == run;
      steps' := steps;
    } else {
      var most, a := run'[..|run'| - 1], run'[|run'| - 1];
      var before := GoOn(cfg, calls, steps, run, most);
      Extend(cfg, calls, before, Work(a));
      steps' := before + [Work(a)];
    }
  }

  lemma Extend(cfg: P.Config, calls: seq<I.Call>, steps: seq<Step>, step: Step)
    requires Exec(cfg, calls, steps).Some? && Enabled(cfg, Exec(cfg, calls, steps).value, step)
    requires var sys := Exec(cfg, calls, steps).value;
      step.Serve? && step.request.Commit? ==> P.Enabled(cfg, sys.outbox, Arrival(sys.store, step.request))
    ensures Exec(cfg, calls, steps + [step]) == Some(Next(cfg, Exec(cfg, calls, steps).value, step))
  {
    assert (steps + [step])[..|steps|] == steps;
  }

  /** The call that handles this command alone. */
  function CallFor(cmd: I.Command): I.Call
    requires cmd.timestamp.Some? && cmd.properties.Some?
  {
    I.Call(I.EventOf(cmd, 0), 0, None, I.Waiting)
  }

  function Arriving(e: I.Event): P.Action {
    P.Ingest(0, e.eventId, e.eventType, I.PayloadOf(e), 0)
  }

  lemma OneAccepted(cfg: P.Config, call: I.Call) returns (steps: seq<Step>)
    requires call == I.Call(call.event, 0, None, I.Waiting)
    ensures Exec(cfg, [call], steps).Some? && FreshCalls([call])
    ensures var sys := Exec(cfg, [call], steps).value;
      && P.Exec(cfg, [Arriving(call.event)]) == Some(sys.outbox)
      && |sys.store.calls| == 1 && Accepted(sys.store.calls[0]) && sys.store.calls[0].event == call.event
  {
    var insert, commit := Serve(I.Insert(0)), Serve(I.Commit(0, 0, true));
    var sys := System(I.Store(map[], map[], [call]), P.Init(cfg));
    Extend(cfg, [call], [], insert);
    var inserted := Next(cfg, sys, insert);
    var arriving := Arriving(call.event);
    T.Seed(cfg, arriving);
    P.Extend(cfg, [], arriving);
    assert [] + [arriving] == [arriving];
    Extend(cfg, [call], [] + [insert], commit);
    steps := [] + [insert] + [commit];
  }

  lemma ArrivedRow(cfg: P.Config, e: I.Event)
    requires P.Exec(cfg, [Arriving(e)]).Some?
    ensures var rows := P.Exec(cfg, [Arriving(e)]).value.rows; 0 in rows && rows[0].eventId == e.eventId
  {
    assert [Arriving(e)][..0] == [];
  }

  lemma SettledAtRest(cfg: P.Config, s: P.State)
    requires Draining.Settled(cfg, s)
    ensures !Draining.CanGoOn(cfg, s)
  {
    forall wait, a ensures !Draining.Possible(cfg, s, wait, a) {
      Draining.SettledStops(cfg, s, wait, a);
    }
  }

  lemma {:induction false} NoneDelivered(log: seq<P.Message>, m: P.Message)
    requires Guarantees.Deliveries(log, m.key) == 0
    ensures m !in log
  {
    if log != [] {
      NoneDelivered(log[..|log| - 1], m);
      assert log == log[..|log| - 1] + [log[|log| - 1]];
    }
  }

  /** Any command that the handler admits can be accepted and yet never arrive: every delivery of its event is refused,
      until its row is closed. */
  lemma NeverArrives(cfg: P.Config, schemas: Schemas, valid: I.Validator, cmd: I.Command) returns (steps: seq<Step>)
    requires cfg.workers > 0 && cfg.batchSize > 0 && Admit(schemas, valid, cmd) == None
    ensures FromCommands([CallFor(cmd)], schemas, valid) && Exec(cfg, [CallFor(cmd)], steps).Some?
    ensures var sys := Exec(cfg, [CallFor(cmd)], steps).value;
      && !Draining.CanGoOn(cfg, sys.outbox) && RefusedAtMost(sys.outbox, cfg.maxRetries + 1)
      && |sys.store.calls| == 1 && Accepted(sys.store.calls[0]) && sys.store.calls[0].event == I.EventOf(cmd, 0)
      && !Reached(sys, sys.store.calls[0])
  {
    hide P.Enabled, P.Next, Enabled, Next;
    var call := CallFor(cmd);
    assert Handles(call, schemas, valid, cmd, 0) && IsCommand(call, schemas, valid);
    var arriving := Arriving(call.event);
    var begun := OneAccepted(cfg, call);
    var run := T.OverBudget(cfg, arriving);
    steps := GoOn(cfg, [call], begun, [arriving], run);
    NotReached(cfg, call.event, run, Exec(cfg, [call], steps).value);
  }

  lemma NotReached(cfg: P.Config, e: I.Event, run: seq<P.Action>, sys: System)
    requires P.Exec(cfg, run) == Some(sys.outbox) && T.Continues([Arriving(e)], run) && P.Exec(cfg, [Arriving(e)]).Some?
    requires T.Row0(cfg, run, Close, cfg.maxRetries) && sys.outbox.Of(0).reclaims == 0
    requires sys.outbox.Of(0).fails == cfg.maxRetries + 1
    requires forall w :: 0 <= w < |sys.outbox.workers| ==> sys.outbox.workers[w].batch == []
    requires |sys.store.calls| == 1 && sys.store.calls[0].event == e
    ensures !Draining.CanGoOn(cfg, sys.outbox) && RefusedAtMost(sys.outbox, cfg.maxRetries + 1)
    ensures !Reached(sys, sys.store.calls[0])
  {
    hide P.Enabled, P.Next, P.RunFrom, Draining.CanGoOn;
    SettledAtRest(cfg, sys.outbox);
    Guarantees.ReclaimsCounted(cfg, run, 0);
    Guarantees.ClosedLedger(cfg, run, 0);
    assert [Arriving(e)] + run[1..] == run;
    Guarantees.NothingLost(cfg, [Arriving(e)], run[1..], 0);
    ArrivedRow(cfg, e);
    assert sys.outbox.rows[0].eventId == e.eventId;
    if Reached(sys, sys.store.calls[0]) {
      NoneDelivered(sys.outbox.acked, P.Message(e.eventId, I.PayloadOf(sys.store.events[e.eventId])));
    }
  }

  lemma OneCallStep(s: I.Store, step: I.Step, c: nat)
    requires I.Enabled(s, step) && c < |s.calls|
    ensures |I.Next(s, step).calls| == |s.calls|
    ensures I.Next(s, step).calls[c].admitted == s.calls[c].admitted
    ensures I.Next(s, step).calls[c].event == s.calls[c].event
    ensures Accepted(I.Next(s, step).calls[c]) ==>
      Accepted(s.calls[c]) || s.calls[c].stage == I.Inserted || s.calls[c].stage == I.Clashed
    ensures I.Next(s, step).calls[c].stage == I.Inserted || I.Next(s, step).calls[c].stage == I.Clashed ==>
      s.calls[c].stage == I.Inserted || s.calls[c].stage == I.Clashed || s.calls[c].admitted == None
  {
  }

  /** Only an admitted call gets as far as the database. */
  lemma {:induction false} AcceptedWasAdmitted(calls: seq<I.Call>, requests: seq<I.Step>, c: nat)
    requires I.Fresh(calls) && I.Exec(calls, requests).Some? && c < |calls|
    ensures var s := I.Exec(calls, requests).value;
      && |s.calls| == |calls| && s.calls[c].admitted == calls[c].admitted && s.calls[c].event == calls[c].event
      && (Accepted(s.calls[c]) || s.calls[c].stage == I.Inserted || s.calls[c].stage == I.Clashed ==>
            calls[c].admitted == None)
  {
    if requests != [] {
      var before := requests[..|requests| - 1];
      AcceptedWasAdmitted(calls, before, c);
      OneCallStep(I.Exec(calls, before).value, requests[|requests| - 1], c);
    }
  }

  lemma {:induction false} CallsStay(calls: seq<I.Call>, requests: seq<I.Step>)
    requires I.Exec(calls, requests).Some?
    ensures |I.Exec(calls, requests).value.calls| == |calls|
  {
    if requests != [] {
      CallsStay(calls, requests[..|requests| - 1]);
    }
  }

  /** A stored event is that of an admitted call. */
  lemma {:induction false} StoredByCall(calls: seq<I.Call>, requests: seq<I.Step>, key: Uuid) returns (c: nat)
    requires I.Fresh(calls) && I.Exec(calls, requests).Some? && key in I.Exec(calls, requests).value.events
    ensures c < |calls| && calls[c].admitted == None
    ensures var e := I.Exec(calls, requests).value.events[key]; e == calls[c].event.(createdAt := e.createdAt)
  {
    var before, step := requests[..|requests| - 1], requests[|requests| - 1];
    var s := I.Exec(calls, before).value;
    if step.Commit? && s.calls[step.c].event.eventId == key {
      c := step.c;
      CallsStay(calls, before);
      AcceptedWasAdmitted(calls, before, c);
    } else {
      c := StoredByCall(calls, before, key);
    }
  }

  /** Whatever is stored has passed every check: over every schedule of calls and workers, a stored event is complete,
      its type and version are registered and its properties valid. */
  lemma StoredEventsPass(cfg: P.Config, schemas: Schemas, valid: I.Validator, calls: seq<I.Call>, steps: seq<Step>,
                         key: Uuid)
    requires FromCommands(calls, schemas, valid) && Exec(cfg, calls, steps).Some?
    requires key in Exec(cfg, calls, steps).value.store.events
    ensures var e := Exec(cfg, calls, steps).value.store.events[key];
      && e.eventType != "" && e.version > 0 && e.source != ""
      && schemas(e.eventType, e.version).Some? && valid(schemas(e.eventType, e.version).value, e.properties)
  {
    hide P.Exec, Exec;
    CommandsAreFresh(calls, schemas, valid);
    var requests, run := Halves(cfg, calls, steps);
    var c := StoredByCall(calls, requests, key);
    assert IsCommand(calls[c], schemas, valid);
    var cmd, id :| Handles(calls[c], schemas, valid, cmd, id);
    I.AdmittedExactlyWhen(cmd, schemas(cmd.eventType, cmd.version), valid);
  }

  lemma NoneAccepted(cfg: P.Config, schemas: Schemas, valid: I.Validator, calls: seq<I.Call>, steps: seq<Step>, c: nat)
    requires FromCommands(calls, schemas, valid) && !SomeAdmitted(schemas, valid) && Exec(cfg, calls, steps).Some?
    requires c < |Exec(cfg, calls, steps).value.store.calls|
    ensures !Accepted(Exec(cfg, calls, steps).value.store.calls[c])
  {
    hide P.Exec, Exec, Accepted;
    CommandsAreFresh(calls, schemas, valid);
    var requests, run := Halves(cfg, calls, steps);
    if |calls| > 0 {
      AcceptedWasAdmitted(calls, requests, if c < |calls| then c else 0);
      assert IsCommand(calls[c], schemas, valid);
      var cmd, id :| Handles(calls[c], schemas, valid, cmd, id);
    } else {
      NoCalls(requests);
    }
  }

  lemma {:induction false} NoCalls(requests: seq<I.Step>)
    requires I.Exec([], requests).Some?
    ensures I.Exec([], requests).value.calls == []
  {
    if requests != [] {
      NoCalls(requests[..|requests| - 1]);
    }
  }

  /** At-least-once delivery holds exactly as far as the retry budget reaches: every accepted event arrives, whatever
      else happens, if and only if the publisher refuses no row more often than it may be retried, or no command is
      ever admitted. */
  lemma AllArriveWhen(cfg: P.Config, schemas: Schemas, valid: I.Validator, r: nat)
    requires cfg.workers > 0 && cfg.batchSize > 0 && cfg.staleTimeout > 0
    ensures AllArrive(cfg, schemas, valid, r) <==> r <= cfg.maxRetries || !SomeAdmitted(schemas, valid)
  {
    hide P.Exec, Exec, Draining.CanGoOn, Reached, Accepted;
    if r <= cfg.maxRetries || !SomeAdmitted(schemas, valid) {
      forall calls, steps, c
        | FromCommands(calls, schemas, valid) && Exec(cfg, calls, steps).Some?
          && !Draining.CanGoOn(cfg, Exec(cfg, calls, steps).value.outbox)
          && RefusedAtMost(Exec(cfg, calls, steps).value.outbox, r)
          && 0 <= c < |Exec(cfg, calls, steps).value.store.calls|
          && Accepted(Exec(cfg, calls, steps).value.store.calls[c])
        ensures Reached(Exec(cfg, calls, steps).value, Exec(cfg, calls, steps).value.store.calls[c])
      {
        if r <= cfg.maxRetries {
          CommandsAreFresh(calls, schemas, valid);
          ArrivesWithinBudget(cfg, calls, steps, r, c);
        } else {
          NoneAccepted(cfg, schemas, valid, calls, steps, c);
        }
      }
    } else {
      var cmd :| Admit(schemas, valid, cmd) == None;
      var steps := NeverArrives(cfg, schemas, valid, cmd);
      assert RefusedAtMost(Exec(cfg, [CallFor(cmd)], steps).value.outbox, r);
    }
  }

  /** An ordinary command is admitted wherever its type is registered and its properties pass. */
  lemma OrdinaryCommand(schemas: Schemas, valid: I.Validator, schema: Registry.Schema)
    requires schemas("page_view", 1) == Some(schema) && valid(schema, map[])
    ensures Admit(schemas, valid, I.Command(0, "page_view", 1, "web", "", "", "", Some(0), Some(map[]))) == None
    ensures SomeAdmitted(schemas, valid)
  {
    assert Admit(schemas, valid, I.Command(0, "page_view", 1, "web", "", "", "", Some(0), Some(map[]))) == None;
  }
}
