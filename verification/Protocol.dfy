/** The outbox protocol: any number of workers over one shared table, as a transition system.
    One action is one atomic statement of the database, one answer of the publisher, or one
    step of the surroundings (clock, ingestion, a worker that gives its batch up). */
module Protocol {
  import opened Wrappers
  import opened Outbox

  /** `workers` counts the fleet; a non-positive `staleTimeout` switches reclaiming off. */
  datatype Config = Config(workers: nat, batchSize: nat, maxRetries: nat, staleTimeout: Time)

  /** Where a worker stands with the first event of what is left of its batch. */
  datatype Phase = Publishing | Acked | Failing(error: string)

  /** `batch` is what is left to deliver. `stamp`, `itemStart` and `size` record when the claiming
      transaction began, when the current event's turn began, and how many rows were claimed. */
  datatype Worker = Worker(batch: seq<OutboxEvent>, phase: Phase, stamp: Time, itemStart: Time, size: nat)

  const IDLE := Worker([], Publishing, 0, 0, 0)

  /** An acknowledged Kafka message. */
  datatype Message = Message(key: Uuid, value: Payload)

  /** What happened to one row so far. `drops` counts deliveries given up without an applied mark. */
  datatype Tally = Tally(claims: nat, acks: nat, fails: nat, closes: nat, reclaims: nat, drops: nat)

  const NOTHING := Tally(0, 0, 0, 0, 0, 0)

  datatype State = State(rows: Table, now: Time, workers: seq<Worker>, acked: seq<Message>, hist: map<Uuid, Tally>) {
    function Of(id: Uuid): Tally {
      if id in hist then hist[id] else NOTHING
    }
  }

  datatype Action =
    | Ingest(id: Uuid, eventId: Uuid, eventType: string, payload: Payload, at: Time)
    | Tick(elapsed: nat)
    | Claim(w: nat, ids: seq<Uuid>, started: Time)
    | Reclaim(w: nat, stale: set<Uuid>, started: Time)
    | PublishAck(w: nat)
    | PublishFail(w: nat, error: string)
    | Abandon(w: nat)
    | MarkPublished(w: nat, at: Time)
    | MarkFailed(w: nat, nextAttemptAt: Time)
    | MarkClose(w: nat)
    | MarkError(w: nat)

  function Init(cfg: Config): State {
    State(map[], 0, seq(cfg.workers, _ => IDLE), [], map[])
  }

  predicate Busy(s: State, w: nat) {
    w < |s.workers| && s.workers[w].batch != []
  }

  function Head(s: State, w: nat): OutboxEvent
    requires Busy(s, w)
  {
    s.workers[w].batch[0]
  }

  /** The budget test on the worker's own copy of the attempts column. */
  predicate Exhausted(cfg: Config, event: OutboxEvent) {
    event.attempts >= cfg.maxRetries
  }

  predicate Enabled(cfg: Config, s: State, a: Action) {
    match a
    case Ingest(id, eventId, _, _, at) =>
      && at <= s.now && id !in s.rows
      && forall other :: other in s.rows ==> s.rows[other].eventId != eventId
    case Tick(_) => true
    case Claim(w, ids, started) =>
      && w < |s.workers| && s.workers[w].batch == []
      && started <= s.now && |ids| <= cfg.batchSize && Distinct(ids)
      && forall id :: id in ids ==> id in s.rows && Claimable(s.rows[id], started)
    case Reclaim(w, stale, started) =>
      && w < |s.workers| && s.workers[w].batch == []
      && cfg.staleTimeout > 0 && started <= s.now
      && forall id :: id in stale ==> id in s.rows && Stale(s.rows[id], cfg.staleTimeout, started)
    case PublishAck(w) => Busy(s, w) && s.workers[w].phase == Publishing
    case PublishFail(w, _) => Busy(s, w) && s.workers[w].phase == Publishing
    case Abandon(w) => Busy(s, w)
    case MarkPublished(w, at) => Busy(s, w) && s.workers[w].phase == Acked && at <= s.now
    case MarkFailed(w, _) => Busy(s, w) && s.workers[w].phase.Failing? && !Exhausted(cfg, Head(s, w))
    case MarkClose(w) => Busy(s, w) && s.workers[w].phase.Failing? && Exhausted(cfg, Head(s, w))
    case MarkError(w) => Busy(s, w) && s.workers[w].phase != Publishing
  }

  /** The worker turns to the next event of its batch. */
  function Advance(worker: Worker, now: Time): Worker
    requires worker.batch != []
  {
    worker.(batch := worker.batch[1..], phase := Publishing, itemStart := now)
  }

  function Assign(s: State, w: nat, worker: Worker): State
    requires w < |s.workers|
  {
    s.(workers := s.workers[w := worker])
  }

  function Record(s: State, id: Uuid, tally: Tally): State {
    s.(hist := s.hist[id := tally])
  }

  predicate InBatch(batch: seq<OutboxEvent>, id: Uuid) {
    exists i :: 0 <= i < |batch| && batch[i].id == id
  }

  function Next(cfg: Config, s: State, a: Action): State
    requires Enabled(cfg, s, a)
  {
    match a
    case Ingest(id, eventId, eventType, payload, at) =>
      s.(rows := s.rows[id := NewRow(eventId, eventType, payload, at)], hist := s.hist[id := NOTHING])
    case Tick(elapsed) => s.(now := s.now + elapsed)
    case Claim(w, ids, started) =>
      s.(rows := StampRows(s.rows, ids, started),
         workers := s.workers[w := Worker(Snapshots(s.rows, ids), Publishing, started, s.now, |ids|)],
         hist := map id | id in s.hist ::
           if id in ids then s.hist[id].(claims := s.hist[id].claims + 1) else s.hist[id])
    case Reclaim(_, stale, started) =>
      s.(rows := ReclaimRows(s.rows, stale, started),
         hist := map id | id in s.hist ::
           if id in stale then s.hist[id].(reclaims := s.hist[id].reclaims + 1) else s.hist[id])
    case PublishAck(w) =>
      var e := Head(s, w);
      Record(Assign(s, w, s.workers[w].(phase := Acked)), e.id, s.Of(e.id).(acks := s.Of(e.id).acks + 1))
        .(acked := s.acked + [Message(e.eventId, e.payload)])
    case PublishFail(w, error) =>
      var e := Head(s, w);
      Record(Assign(s, w, s.workers[w].(phase := Failing(error))), e.id, s.Of(e.id).(fails := s.Of(e.id).fails + 1))
    case Abandon(w) =>
      var batch := s.workers[w].batch;
      Assign(s, w, s.workers[w].(batch := [], phase := Publishing))
        .(hist := map id | id in s.hist ::
            if InBatch(batch, id) then s.hist[id].(drops := s.hist[id].drops + 1) else s.hist[id])
    case MarkPublished(w, at) =>
      Assign(s, w, Advance(s.workers[w], s.now)).(rows := PublishRow(s.rows, Head(s, w).id, at))
    case MarkFailed(w, nextAttemptAt) =>
      Assign(s, w, Advance(s.workers[w], s.now))
        .(rows := FailRow(s.rows, Head(s, w).id, s.workers[w].phase.error, nextAttemptAt))
    case MarkClose(w) =>
      var id := Head(s, w).id;
      var moved := Assign(s, w, Advance(s.workers[w], s.now)).(rows := CloseRow(s.rows, id, s.workers[w].phase.error));
      if InProcessing(s.rows, id) then Record(moved, id, s.Of(id).(closes := s.Of(id).closes + 1)) else moved
    case MarkError(w) =>
      var id := Head(s, w).id;
      Record(Assign(s, w, Advance(s.workers[w], s.now)), id, s.Of(id).(drops := s.Of(id).drops + 1))
  }

  /** The state a schedule leads to from `s`, when each of its actions is possible in turn. */
  function RunFrom(cfg: Config, s: State, run: seq<Action>): Option<State> {
    if run == [] then Some(s)
    else
      var before := RunFrom(cfg, s, run[..|run| - 1]);
      var a := run[|run| - 1];
      if before.Some? && Enabled(cfg, before.value, a) then Some(Next(cfg, before.value, a)) else None
  }

  /** The state a schedule leads to from the empty database. */
  function Exec(cfg: Config, run: seq<Action>): Option<State> {
    RunFrom(cfg, Init(cfg), run)
  }

  lemma ExtendFrom(cfg: Config, s: State, run: seq<Action>, a: Action)
    requires RunFrom(cfg, s, run).Some? && Enabled(cfg, RunFrom(cfg, s, run).value, a)
    ensures RunFrom(cfg, s, run + [a]) == Some(Next(cfg, RunFrom(cfg, s, run).value, a))
  {
    assert (run + [a])[..|run|] == run;
  }

  lemma Extend(cfg: Config, run: seq<Action>, a: Action)
    requires Exec(cfg, run).Some? && Enabled(cfg, Exec(cfg, run).value, a)
    ensures Exec(cfg, run + [a]) == Some(Next(cfg, Exec(cfg, run).value, a))
  {
    ExtendFrom(cfg, Init(cfg), run, a);
  }
}
