/** The stale timeout, chosen above the longest honest batch: then no row of a live worker is ever reclaimed. */
module Timing {
  import opened Wrappers
  import opened Outbox
  import opened Protocol
  import opened Agreement
  import opened Accounting
  import opened Guarantees
  import opened Draining

  /** A claim is handed over within `claim` of its transaction's start; an event's publish and mark take at most
      `item`. */
  datatype Pace = Pace(claim: nat, item: nat)

  /** The stale timeout exceeds the claim and a full batch. */
  predicate Patient(cfg: Config, pace: Pace) {
    pace.claim + cfg.batchSize * pace.item < cfg.staleTimeout
  }

  /** Nobody is late at this moment. */
  ghost predicate OnTime(pace: Pace, s: State) {
    forall w :: 0 <= w < |s.workers| && Busy(s, w) ==> s.now <= s.workers[w].itemStart + pace.item
  }

  ghost predicate Timely(cfg: Config, pace: Pace, run: seq<Action>)
    requires Exec(cfg, run).Some?
  {
    run == [] ||
    (var before, a := run[..|run| - 1], run[|run| - 1];
     && Timely(cfg, pace, before)
     && OnTime(pace, Exec(cfg, run).value)
     && (a.Claim? ==> Exec(cfg, before).value.now <= a.started + pace.claim))
  }

  /** The worker's events are in PROCESSING under its own stamp, and it is within its schedule. */
  ghost predicate Sole(cfg: Config, pace: Pace, s: State, worker: Worker) {
    worker.batch != [] ==>
      && |worker.batch| <= worker.size <= cfg.batchSize
      && worker.itemStart <= worker.stamp + pace.claim + (worker.size - |worker.batch|) * pace.item
      && forall i :: 0 <= i < |worker.batch| ==> OwnRow(s, worker, worker.batch[i])
  }

  predicate OwnRow(s: State, worker: Worker, e: OutboxEvent) {
    && e.id in s.rows
    && s.rows[e.id].status == Processing
    && s.rows[e.id].processingAt == Some(worker.stamp)
    && s.rows[e.id].attempts == e.attempts
  }

  ghost predicate Exclusive(cfg: Config, pace: Pace, s: State) {
    && (forall w :: 0 <= w < |s.workers| ==> Sole(cfg, pace, s, s.workers[w]))
    && (forall w, v, id ::
          0 <= w < |s.workers| && 0 <= v < |s.workers| && w != v && InBatch(s.workers[w].batch, id)
          ==> !InBatch(s.workers[v].batch, id))
    && (forall id :: id in s.rows ==> s.rows[id].attempts <= cfg.maxRetries)
  }

  lemma MulMono(a: nat, b: nat, t: nat)
    requires a <= b
    ensures a * t <= b * t
  {
  }

  lemma NextItem(size: nat, left: nat, t: nat)
    requires 1 <= left <= size
    ensures (size - left) * t + t == (size - (left - 1)) * t
  {
  }

  /** A worker that is on time has not held its stamp for as long as the stale timeout. */
  lemma StampIsFresh(cfg: Config, pace: Pace, s: State, w: nat)
    requires Patient(cfg, pace) && Exclusive(cfg, pace, s) && OnTime(pace, s) && Busy(s, w)
    ensures s.now - cfg.staleTimeout < s.workers[w].stamp
  {
    var worker := s.workers[w];
    assert Sole(cfg, pace, s, worker);
    NextItem(worker.size, |worker.batch|, pace.item);
    MulMono(worker.size - (|worker.batch| - 1), cfg.batchSize, pace.item);
  }

  lemma LiveRowIsNotStale(cfg: Config, pace: Pace, s: State, w: nat, id: Uuid, started: Time)
    requires Patient(cfg, pace) && Exclusive(cfg, pace, s) && OnTime(pace, s) && started <= s.now
    requires w < |s.workers| && InBatch(s.workers[w].batch, id)
    ensures id in s.rows && !Stale(s.rows[id], cfg.staleTimeout, started)
  {
    assert Busy(s, w);
    StampIsFresh(cfg, pace, s, w);
    assert Sole(cfg, pace, s, s.workers[w]);
    var i :| 0 <= i < |s.workers[w].batch| && s.workers[w].batch[i].id == id;
    assert OwnRow(s, s.workers[w], s.workers[w].batch[i]);
  }

  /** A row held by one worker keeps its stamp and attempts while another action happens elsewhere. */
  lemma OwnRowKept(cfg: Config, pace: Pace, s: State, a: Action, w: nat, e: OutboxEvent)
    requires Patient(cfg, pace) && Consistent(cfg, s) && Exclusive(cfg, pace, s) && OnTime(pace, s)
    requires Enabled(cfg, s, a)
    requires w < |s.workers| && e in s.workers[w].batch
    requires a.Ingest? || a.Tick? || a.Claim? || a.Reclaim? || a.w != w || Head(s, w).id != e.id
             || a.PublishAck? || a.PublishFail? || a.Abandon? || a.MarkError?
    ensures OwnRow(Next(cfg, s, a), s.workers[w], e)
  {
    assert WorkerOk(s, s.workers[w]) && Sole(cfg, pace, s, s.workers[w]);
    assert InBatch(s.workers[w].batch, e.id);
    assert OwnRow(s, s.workers[w], e);
    if a.Reclaim? && e.id in a.stale {
      LiveRowIsNotStale(cfg, pace, s, w, e.id, a.started);
    }
    if a.MarkPublished? || a.MarkFailed? || a.MarkClose? {
      if a.w != w {
        assert InBatch(s.workers[a.w].batch, Head(s, a.w).id);
      }
    }
  }

  lemma SoleAfterClaim(cfg: Config, pace: Pace, s: State, a: Action)
    requires Enabled(cfg, s, a) && a.Claim? && s.now <= a.started + pace.claim
    ensures Sole(cfg, pace, Next(cfg, s, a), Next(cfg, s, a).workers[a.w])
  {
    var s' := Next(cfg, s, a);
    var worker := s'.workers[a.w];
    forall i | 0 <= i < |worker.batch| ensures OwnRow(s', worker, worker.batch[i]) {
      assert worker.batch[i] == Snapshot(a.ids[i], s.rows[a.ids[i]]) && a.ids[i] in a.ids;
    }
  }

  lemma SoleAfterMark(cfg: Config, pace: Pace, s: State, a: Action)
    requires Patient(cfg, pace) && Consistent(cfg, s) && Exclusive(cfg, pace, s) && OnTime(pace, s)
    requires Enabled(cfg, s, a)
    requires a.MarkPublished? || a.MarkFailed? || a.MarkClose? || a.MarkError?
    ensures Sole(cfg, pace, Next(cfg, s, a), Next(cfg, s, a).workers[a.w])
  {
    var s' := Next(cfg, s, a);
    var was, worker := s.workers[a.w], s'.workers[a.w];
    assert worker == Advance(was, s.now);
    assert WorkerOk(s, was) && Sole(cfg, pace, s, was);
    NextItem(was.size, |was.batch|, pace.item);
    forall i | 0 <= i < |worker.batch| ensures OwnRow(s', worker, worker.batch[i]) {
      OwnRowKept(cfg, pace, s, a, a.w, was.batch[i + 1]);
      assert OwnRow(s', was, was.batch[i + 1]);
    }
  }

  lemma SoleUntouched(cfg: Config, pace: Pace, s: State, a: Action, w: nat)
    requires Patient(cfg, pace) && Consistent(cfg, s) && Exclusive(cfg, pace, s) && OnTime(pace, s)
    requires Enabled(cfg, s, a)
    requires w < |s.workers| && s.workers[w].batch != []
    requires Next(cfg, s, a).workers[w] == s.workers[w].(phase := Next(cfg, s, a).workers[w].phase)
    ensures Sole(cfg, pace, Next(cfg, s, a), Next(cfg, s, a).workers[w])
  {
    var s' := Next(cfg, s, a);
    var was, worker := s.workers[w], s'.workers[w];
    assert Sole(cfg, pace, s, was);
    forall i | 0 <= i < |worker.batch| ensures OwnRow(s', worker, worker.batch[i]) {
      OwnRowKept(cfg, pace, s, a, w, was.batch[i]);
      assert OwnRow(s', was, was.batch[i]);
    }
  }

  lemma SoleKept(cfg: Config, pace: Pace, s: State, a: Action, w: nat)
    requires Patient(cfg, pace) && Consistent(cfg, s) && Exclusive(cfg, pace, s) && OnTime(pace, s)
    requires Enabled(cfg, s, a)
    requires w < |s.workers| && (a.Claim? ==> s.now <= a.started + pace.claim)
    ensures Sole(cfg, pace, Next(cfg, s, a), Next(cfg, s, a).workers[w])
  {
    var worker := Next(cfg, s, a).workers[w];
    if worker.batch != [] {
      if a.Claim? && a.w == w {
        SoleAfterClaim(cfg, pace, s, a);
      } else if (a.MarkPublished? || a.MarkFailed? || a.MarkClose? || a.MarkError?) && a.w == w {
        SoleAfterMark(cfg, pace, s, a);
      } else {
        SoleUntouched(cfg, pace, s, a, w);
      }
    }
  }

  lemma BatchesOnlyShrink(cfg: Config, s: State, a: Action, w: nat, id: Uuid)
    requires Enabled(cfg, s, a) && w < |s.workers| && InBatch(Next(cfg, s, a).workers[w].batch, id)
    ensures InBatch(s.workers[w].batch, id) || (a.Claim? && a.w == w && id in a.ids)
  {
    var batch := Next(cfg, s, a).workers[w].batch;
    var i :| 0 <= i < |batch| && batch[i].id == id;
    if batch != s.workers[w].batch {
      if a.Claim? {
        assert batch[i] == Snapshot(a.ids[i], s.rows[a.ids[i]]);
      } else {
        assert batch[i] == s.workers[w].batch[i + 1];
      }
    }
  }

  lemma DisjointKept(cfg: Config, pace: Pace, s: State, a: Action, w: nat, v: nat, id: Uuid)
    requires Consistent(cfg, s) && Exclusive(cfg, pace, s) && Enabled(cfg, s, a)
    requires w < |s.workers| && v < |s.workers| && w != v
    requires InBatch(Next(cfg, s, a).workers[w].batch, id)
    ensures !InBatch(Next(cfg, s, a).workers[v].batch, id)
  {
    if InBatch(Next(cfg, s, a).workers[v].batch, id) {
      BatchesOnlyShrink(cfg, s, a, w, id);
      BatchesOnlyShrink(cfg, s, a, v, id);
      var holder := if InBatch(s.workers[w].batch, id) then w else v;
      HeldIsProcessing(cfg, pace, s, holder, id);
    }
  }

  lemma HeldIsProcessing(cfg: Config, pace: Pace, s: State, w: nat, id: Uuid)
    requires Exclusive(cfg, pace, s) && w < |s.workers| && InBatch(s.workers[w].batch, id)
    ensures id in s.rows && s.rows[id].status == Processing
  {
    var worker := s.workers[w];
    assert Sole(cfg, pace, s, worker);
    var i :| 0 <= i < |worker.batch| && worker.batch[i].id == id;
    assert OwnRow(s, worker, worker.batch[i]);
  }

  lemma AttemptsKept(cfg: Config, pace: Pace, s: State, a: Action, id: Uuid)
    requires Consistent(cfg, s) && Exclusive(cfg, pace, s) && Enabled(cfg, s, a) && id in Next(cfg, s, a).rows
    ensures Next(cfg, s, a).rows[id].attempts <= cfg.maxRetries
  {
    if a.MarkFailed? && Head(s, a.w).id == id {
      assert Sole(cfg, pace, s, s.workers[a.w]);
      assert OwnRow(s, s.workers[a.w], s.workers[a.w].batch[0]);
    }
  }

  lemma ExclusiveKept(cfg: Config, pace: Pace, s: State, a: Action)
    requires Patient(cfg, pace) && Consistent(cfg, s) && Exclusive(cfg, pace, s) && OnTime(pace, s)
    requires Enabled(cfg, s, a)
    requires a.Claim? ==> s.now <= a.started + pace.claim
    ensures Exclusive(cfg, pace, Next(cfg, s, a))
  {
    var s' := Next(cfg, s, a);
    assert |s'.workers| == |s.workers|;
    forall w | 0 <= w < |s'.workers| ensures Sole(cfg, pace, s', s'.workers[w]) {
      SoleKept(cfg, pace, s, a, w);
    }
    forall w, v, id | 0 <= w < |s'.workers| && 0 <= v < |s'.workers| && w != v && InBatch(s'.workers[w].batch, id)
      ensures !InBatch(s'.workers[v].batch, id)
    {
      DisjointKept(cfg, pace, s, a, w, v, id);
    }
    forall id | id in s'.rows ensures s'.rows[id].attempts <= cfg.maxRetries {
      AttemptsKept(cfg, pace, s, a, id);
    }
  }

  lemma {:induction false} AlwaysExclusive(cfg: Config, pace: Pace, run: seq<Action>)
    requires Exec(cfg, run).Some? && Timely(cfg, pace, run) && Patient(cfg, pace)
    ensures Exclusive(cfg, pace, Exec(cfg, run).value) && OnTime(pace, Exec(cfg, run).value)
  {
    if run != [] {
      var before := run[..|run| - 1];
      AlwaysExclusive(cfg, pace, before);
      AlwaysConsistent(cfg, before);
      ExclusiveKept(cfg, pace, Exec(cfg, before).value, run[|run| - 1]);
    }
  }

  /** No live row is reclaimed: in a timely schedule, whatever a reclaim frees is in nobody's hands, and no row is
      ever in the hands of two workers. */
  lemma {:induction false} NoLiveRowReclaimed(cfg: Config, pace: Pace, run: seq<Action>, a: Action)
    requires Exec(cfg, run).Some? && Timely(cfg, pace, run) && Patient(cfg, pace)
    requires Enabled(cfg, Exec(cfg, run).value, a) && a.Reclaim?
    ensures var s := Exec(cfg, run).value;
      && (forall id, w :: id in a.stale && 0 <= w < |s.workers| ==> !InBatch(s.workers[w].batch, id))
      && (forall id, w, v :: 0 <= w < |s.workers| && 0 <= v < |s.workers| && w != v && InBatch(s.workers[w].batch, id)
            ==> !InBatch(s.workers[v].batch, id))
  {
    var s := Exec(cfg, run).value;
    AlwaysExclusive(cfg, pace, run);
    forall id, w | id in a.stale && 0 <= w < |s.workers| ensures !InBatch(s.workers[w].batch, id) {
      if InBatch(s.workers[w].batch, id) {
        LiveRowIsNotStale(cfg, pace, s, w, id, a.started);
      }
    }
  }

  predicate InHand(s: State, id: Uuid) {
    exists w :: 0 <= w < |s.workers| && InBatch(s.workers[w].batch, id)
  }

  /** Each reclaim, and each row waiting for one, is paid for by a delivery that was given up. */
  ghost predicate PaidFor(s: State, id: Uuid) {
    id in s.rows ==>
      s.Of(id).reclaims + (if s.rows[id].status == Processing && !InHand(s, id) then 1 else 0) <= s.Of(id).drops
  }

  /** The only holder lets go of the row and it stays in PROCESSING: that is a delivery given up. */
  lemma HandLost(cfg: Config, pace: Pace, s: State, a: Action, id: Uuid)
    requires Consistent(cfg, s) && Exclusive(cfg, pace, s) && Enabled(cfg, s, a) && id in s.rows
    requires InHand(s, id) && !InHand(Next(cfg, s, a), id) && Next(cfg, s, a).rows[id].status == Processing
    ensures Drops(s, a, id)
  {
    var w :| 0 <= w < |s.workers| && InBatch(s.workers[w].batch, id);
    HeldIsProcessing(cfg, pace, s, w, id);
    if LetsGo(s, a, w, id) {
      LettingGo(cfg, s, a, w, id);
    } else {
      HandKept(cfg, s, a, w, id);
    }
  }

  /** A row in nobody's hands leaves PROCESSING only by a reclaim, or is not there yet. */
  lemma PaidForKept(cfg: Config, pace: Pace, s: State, a: Action, id: Uuid)
    requires Patient(cfg, pace) && Consistent(cfg, s) && Exclusive(cfg, pace, s) && OnTime(pace, s)
    requires Enabled(cfg, s, a)
    requires PaidFor(s, id)
    ensures PaidFor(Next(cfg, s, a), id)
  {
    var s' := Next(cfg, s, a);
    if id in s.rows {
      ReclaimStep(cfg, s, a, id);
      DropTally(cfg, s, a, id);
      RowsEvolve(cfg, s, a);
      assert RowEvolves(s.rows[id], s'.rows[id]);
      if a.Reclaim? && id in a.stale {
        assert s'.rows[id].status == Pending && s.rows[id].status == Processing;
        if w :| 0 <= w < |s.workers| && InBatch(s.workers[w].batch, id) {
          LiveRowIsNotStale(cfg, pace, s, w, id, a.started);
        }
      } else if s'.rows[id].status == Processing && !InHand(s', id) {
        if InHand(s, id) {
          HandLost(cfg, pace, s, a, id);
        } else if s.rows[id].status != Processing {
          ClaimFillsHand(cfg, s, a, id);
        }
      }
    }
  }

  lemma {:induction false} AlwaysPaidFor(cfg: Config, pace: Pace, run: seq<Action>, id: Uuid)
    requires Exec(cfg, run).Some? && Timely(cfg, pace, run) && Patient(cfg, pace)
    ensures PaidFor(Exec(cfg, run).value, id)
  {
    if run != [] {
      var before := run[..|run| - 1];
      AlwaysPaidFor(cfg, pace, before, id);
      AlwaysExclusive(cfg, pace, before);
      AlwaysConsistent(cfg, before);
      PaidForKept(cfg, pace, Exec(cfg, before).value, run[|run| - 1], id);
    }
  }

  /** What the timing buys, even with crashes and reclaims: the retry budget holds exactly, a CLOSE row has used
      exactly its budget, and an event is delivered again only after a delivery of it was given up. */
  lemma TimelyGuarantees(cfg: Config, pace: Pace, run: seq<Action>, id: Uuid)
    requires Exec(cfg, run).Some? && Timely(cfg, pace, run) && Patient(cfg, pace)
    requires id in Exec(cfg, run).value.rows
    ensures var s := Exec(cfg, run).value;
      && s.rows[id].attempts <= cfg.maxRetries
      && (s.rows[id].status == Close ==> s.rows[id].attempts == cfg.maxRetries)
      && ReclaimsIn(run, id) <= s.Of(id).drops
      && Deliveries(s.acked, s.rows[id].eventId) <= 1 + s.Of(id).drops
  {
    AlwaysExclusive(cfg, pace, run);
    AlwaysPaidFor(cfg, pace, run, id);
    ReclaimsCounted(cfg, run, id);
    DuplicateBound(cfg, run, id);
    if Exec(cfg, run).value.rows[id].status == Close {
      ClosedLedger(cfg, run, id);
    }
  }
}
