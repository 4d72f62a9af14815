/** What every action keeps: workers' copies agree with the table, rows only move along the documented
    edges, a published row has its acknowledged message, and failures leave their trace. */
module Agreement {
  import opened Wrappers
  import opened Outbox
  import opened Protocol

  /** A worker's copy of a row may be behind on `attempts`, never ahead, and never wrong about identity. */
  predicate Agrees(s: State, e: OutboxEvent) {
    && e.id in s.rows
    && e.eventId == s.rows[e.id].eventId
    && e.eventType == s.rows[e.id].eventType
    && e.payload == s.rows[e.id].payload
    && e.attempts <= s.rows[e.id].attempts
  }

  predicate DistinctIds(batch: seq<OutboxEvent>) {
    forall i, j :: 0 <= i < j < |batch| ==> batch[i].id != batch[j].id
  }

  ghost predicate WorkerOk(s: State, worker: Worker) {
    && DistinctIds(worker.batch)
    && (forall i :: 0 <= i < |worker.batch| ==> Agrees(s, worker.batch[i]))
    && (worker.batch == [] ==> worker.phase == Publishing)
    && (worker.batch != [] && worker.phase == Acked ==> Delivered(s, worker.batch[0].id))
  }

  /** The broker acknowledged a message with the row's event_id as key and its payload as value. */
  predicate Delivered(s: State, id: Uuid) {
    && id in s.rows
    && Message(s.rows[id].eventId, s.rows[id].payload) in s.acked
    && s.Of(id).acks >= 1
  }

  ghost predicate RowOk(cfg: Config, s: State, id: Uuid)
    requires id in s.rows
  {
    var row := s.rows[id];
    && (row.status == Published ==> Delivered(s, id))
    && (row.attempts > 0 || row.status == Close ==> row.lastError.Some?)
    && (row.status == Close ==> row.attempts >= cfg.maxRetries)
    && (row.status == Processing ==> row.processingAt.Some?)
    && s.Of(id).closes == (if row.status == Close then 1 else if row.status == Published then s.Of(id).closes else 0)
    && s.Of(id).closes <= 1
  }

  ghost predicate Consistent(cfg: Config, s: State) {
    && |s.workers| == cfg.workers
    && s.hist.Keys == s.rows.Keys
    && (forall w :: 0 <= w < |s.workers| ==> WorkerOk(s, s.workers[w]))
    && (forall id :: id in s.rows ==> RowOk(cfg, s, id))
    && (forall id, other :: id in s.rows && other in s.rows && id != other ==>
        s.rows[id].eventId != s.rows[other].eventId)
  }

  /** How one row may change in one action. */
  predicate RowEvolves(before: Row, after: Row) {
    && after.eventId == before.eventId && after.eventType == before.eventType
    && after.payload == before.payload && after.createdAt == before.createdAt
    && before.attempts <= after.attempts <= before.attempts + 1
    && (after.attempts > before.attempts ==> before.status == Processing && after.status == Pending)
    && (before.status == Published ==> after.status == Published)
    && (before.status == Close ==> after.status == Close || after.status == Published)
    && (after.status == Close && before.status != Close ==> before.status == Processing)
    && (after.status == Processing && before.status != Processing ==> before.status == Pending)
  }

  lemma RowsEvolve(cfg: Config, s: State, a: Action)
    requires Enabled(cfg, s, a)
    ensures s.rows.Keys <= Next(cfg, s, a).rows.Keys
    ensures forall id :: id in s.rows ==> RowEvolves(s.rows[id], Next(cfg, s, a).rows[id])
  {
  }

  lemma AckedGrows(cfg: Config, s: State, a: Action)
    requires Enabled(cfg, s, a)
    ensures s.acked <= Next(cfg, s, a).acked
    ensures forall m :: m in s.acked ==> m in Next(cfg, s, a).acked
    ensures forall id :: id in s.rows ==> s.Of(id).acks <= Next(cfg, s, a).Of(id).acks
  {
  }

  lemma DeliveredStays(cfg: Config, s: State, a: Action, id: Uuid)
    requires Enabled(cfg, s, a) && Delivered(s, id)
    ensures Delivered(Next(cfg, s, a), id)
  {
    RowsEvolve(cfg, s, a);
    AckedGrows(cfg, s, a);
  }

  lemma AgreesStays(cfg: Config, s: State, a: Action, e: OutboxEvent)
    requires Enabled(cfg, s, a) && Agrees(s, e)
    ensures Agrees(Next(cfg, s, a), e)
  {
    RowsEvolve(cfg, s, a);
    assert RowEvolves(s.rows[e.id], Next(cfg, s, a).rows[e.id]);
  }

  lemma WorkersKept(cfg: Config, s: State, a: Action, w: nat)
    requires Consistent(cfg, s) && Enabled(cfg, s, a) && w < |s.workers|
    ensures var s' := Next(cfg, s, a); |s'.workers| == |s.workers| && WorkerOk(s', s'.workers[w])
  {
    var s' := Next(cfg, s, a);
    var was := s.workers[w];
    var worker := s'.workers[w];
    assert WorkerOk(s, was);
    forall i | 0 <= i < |worker.batch| ensures Agrees(s', worker.batch[i]) {
      if worker.batch == was.batch {
        AgreesStays(cfg, s, a, was.batch[i]);
      } else if a.Claim? {
        assert worker.batch[i] == Snapshot(a.ids[i], s.rows[a.ids[i]]);
        assert a.ids[i] in s.rows;
      } else {
        assert worker.batch == was.batch[1..];
        AgreesStays(cfg, s, a, was.batch[i + 1]);
      }
    }
    if worker.batch != [] && worker.phase == Acked {
      if a.PublishAck? && a.w == w {
        assert Agrees(s, was.batch[0]);
      } else {
        assert worker == was;
        DeliveredStays(cfg, s, a, was.batch[0].id);
      }
    }
  }

  lemma RowKeptByPublish(cfg: Config, s: State, a: Action, id: Uuid)
    requires Consistent(cfg, s) && Enabled(cfg, s, a) && id in s.rows
    requires a.MarkPublished? || a.MarkError?
    ensures RowOk(cfg, Next(cfg, s, a), id)
  {
    assert RowOk(cfg, s, id);
    assert WorkerOk(s, s.workers[a.w]);
    if Delivered(s, id) {
      DeliveredStays(cfg, s, a, id);
    }
  }

  lemma RowKeptByMark(cfg: Config, s: State, a: Action, id: Uuid)
    requires Consistent(cfg, s) && Enabled(cfg, s, a) && id in s.rows
    requires a.MarkFailed? || a.MarkClose?
    ensures RowOk(cfg, Next(cfg, s, a), id)
  {
    assert RowOk(cfg, s, id);
    assert WorkerOk(s, s.workers[a.w]) && Agrees(s, Head(s, a.w));
    if s.rows[id].status == Published {
      DeliveredStays(cfg, s, a, id);
    }
  }

  lemma RowKeptOtherwise(cfg: Config, s: State, a: Action, id: Uuid)
    requires Consistent(cfg, s) && Enabled(cfg, s, a) && id in Next(cfg, s, a).rows
    requires !(a.MarkPublished? || a.MarkFailed? || a.MarkClose? || a.MarkError?)
    ensures RowOk(cfg, Next(cfg, s, a), id)
  {
    if id in s.rows {
      assert RowOk(cfg, s, id);
      if Delivered(s, id) {
        DeliveredStays(cfg, s, a, id);
      }
    }
  }

  lemma RowKept(cfg: Config, s: State, a: Action, id: Uuid)
    requires Consistent(cfg, s) && Enabled(cfg, s, a) && id in Next(cfg, s, a).rows
    ensures RowOk(cfg, Next(cfg, s, a), id)
  {
    if a.MarkPublished? || a.MarkError? {
      RowKeptByPublish(cfg, s, a, id);
    } else if a.MarkFailed? || a.MarkClose? {
      RowKeptByMark(cfg, s, a, id);
    } else {
      RowKeptOtherwise(cfg, s, a, id);
    }
  }

  /** Only a mark from a copy below the budget charges an attempt. */
  lemma ChargedByMarkFailed(cfg: Config, s: State, a: Action, id: Uuid)
    requires Enabled(cfg, s, a) && id in s.rows && Next(cfg, s, a).rows[id].attempts != s.rows[id].attempts
    ensures a.MarkFailed? && Busy(s, a.w) && Head(s, a.w).id == id && !Exhausted(cfg, Head(s, a.w))
    ensures Next(cfg, s, a).rows[id].attempts == s.rows[id].attempts + 1
  {
  }

  /** The action takes the event out of the worker's hands: it is marked, or the batch is given up. */
  predicate LetsGo(s: State, a: Action, w: nat, id: Uuid) {
    match a
    case Abandon(v) => v == w
    case MarkPublished(v, _) => v == w && Busy(s, w) && Head(s, w).id == id
    case MarkFailed(v, _) => v == w && Busy(s, w) && Head(s, w).id == id
    case MarkClose(v) => v == w && Busy(s, w) && Head(s, w).id == id
    case MarkError(v) => v == w && Busy(s, w) && Head(s, w).id == id
    case _ => false
  }

  lemma TailKeeps(batch: seq<OutboxEvent>, id: Uuid)
    requires batch != [] && InBatch(batch, id) && batch[0].id != id
    ensures InBatch(batch[1..], id)
  {
    var i :| 0 <= i < |batch| && batch[i].id == id;
    assert batch[1..][i - 1].id == id;
  }

  lemma HandKept(cfg: Config, s: State, a: Action, w: nat, id: Uuid)
    requires Enabled(cfg, s, a) && w < |s.workers| && InBatch(s.workers[w].batch, id) && !LetsGo(s, a, w, id)
    ensures |Next(cfg, s, a).workers| == |s.workers| && InBatch(Next(cfg, s, a).workers[w].batch, id)
  {
    var was := s.workers[w].batch;
    if was[0].id != id {
      TailKeeps(was, id);
    }
  }

  lemma ClaimFillsHand(cfg: Config, s: State, a: Action, id: Uuid)
    requires Enabled(cfg, s, a) && a.Claim? && id in a.ids
    ensures |Next(cfg, s, a).workers| == |s.workers| && InBatch(Next(cfg, s, a).workers[a.w].batch, id)
  {
    var i :| 0 <= i < |a.ids| && a.ids[i] == id;
    assert Next(cfg, s, a).workers[a.w].batch[i].id == id;
  }

  predicate Drops(s: State, a: Action, id: Uuid) {
    match a
    case Abandon(w) => Busy(s, w) && InBatch(s.workers[w].batch, id)
    case MarkError(w) => Busy(s, w) && Head(s, w).id == id
    case _ => false
  }

  lemma DropTally(cfg: Config, s: State, a: Action, id: Uuid)
    requires s.hist.Keys == s.rows.Keys && Enabled(cfg, s, a) && id in s.rows
    ensures Next(cfg, s, a).Of(id).drops == s.Of(id).drops + (if Drops(s, a, id) then 1 else 0)
  {
  }

  lemma KeysKept(cfg: Config, s: State, a: Action)
    requires Consistent(cfg, s) && Enabled(cfg, s, a)
    ensures Next(cfg, s, a).hist.Keys == Next(cfg, s, a).rows.Keys
  {
    if a.PublishAck? || a.PublishFail? || a.MarkPublished? || a.MarkFailed? || a.MarkClose? || a.MarkError? {
      assert WorkerOk(s, s.workers[a.w]);
      assert Agrees(s, Head(s, a.w));
    }
  }

  lemma EventIdsKept(cfg: Config, s: State, a: Action, id: Uuid, other: Uuid)
    requires Consistent(cfg, s) && Enabled(cfg, s, a) && id != other
    requires id in Next(cfg, s, a).rows && other in Next(cfg, s, a).rows
    ensures Next(cfg, s, a).rows[id].eventId != Next(cfg, s, a).rows[other].eventId
  {
    if !a.Ingest? {
      RowsEvolve(cfg, s, a);
      assert RowEvolves(s.rows[id], Next(cfg, s, a).rows[id]);
      assert RowEvolves(s.rows[other], Next(cfg, s, a).rows[other]);
    }
  }

  lemma ConsistentKept(cfg: Config, s: State, a: Action)
    requires Consistent(cfg, s) && Enabled(cfg, s, a)
    ensures Consistent(cfg, Next(cfg, s, a))
  {
    var s' := Next(cfg, s, a);
    forall w | 0 <= w < |s'.workers| ensures WorkerOk(s', s'.workers[w]) {
      WorkersKept(cfg, s, a, w);
    }
    forall id | id in s'.rows ensures RowOk(cfg, s', id) {
      RowKept(cfg, s, a, id);
    }
    forall id, other | id in s'.rows && other in s'.rows && id != other
      ensures s'.rows[id].eventId != s'.rows[other].eventId
    {
      EventIdsKept(cfg, s, a, id, other);
    }
    KeysKept(cfg, s, a);
    assert |s'.workers| == |s.workers|;
  }

  lemma {:induction false} AlwaysConsistent(cfg: Config, run: seq<Action>)
    requires Exec(cfg, run).Some?
    ensures Consistent(cfg, Exec(cfg, run).value)
  {
    if run != [] {
      AlwaysConsistent(cfg, run[..|run| - 1]);
      ConsistentKept(cfg, Exec(cfg, run[..|run| - 1]).value, run[|run| - 1]);
    }
  }
}
